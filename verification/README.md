# iroh endpoint discovery and link gateway: a verified model

The repository finds iroh endpoints through the Mainline DHT and a small UDP
address index, and serves their blobs over HTTP. This project models its three
hardest parts and proves what they promise.

**The UDP address index.** Index servers keep one value per observed public
socket. A client asks each server to `Prepare`, gets a token for the socket
that server sees, and sends a `Put` with that token and a value built for that
socket; readers `Get` a slot.

- `Wire` is the postcard format and the datagram codec, `Tokens` the stateless
  tokens, `RateLimit` the token buckets, `AddrStore` the store with its three
  dependent structures and `StoreRuns` what it does over whole runs, `Server`
  the packet handler, `Record` the signed record.
- `Client` has the client actor's steps on values, `Actor` the actor that
  updates its maps in place and is proved equal to those steps, `ClientRuns`
  every run of one client against arbitrary datagrams, `Requests` what it sends
  in them, `Deadlines` the actor's loop with its clock and timer, `AddrIndex`
  what its callers get.
- `System` puts any number of clients, honest servers and strangers on a network
  that drops, repeats, delays and reorders datagrams, forges any datagram except
  from a server's own socket, and shows each datagram of a client under any
  source socket the NAT likes.

**Publication and shared state.** `Keeper` (index keeper and the announcers it
gates), `Publisher` (announcement workers), `Announcers` (both together), `Pkarr` (generations and rounds),
`Discovery` (signed server list and rendezvous), `LookupCache` (single-flight
cache) and `Resolver` (bounded lookup loop). The code between two awaits, or
under one lock, is one step; the theorems hold for every interleaving of steps.
Where the source keeps the state in fields, a class with those fields is proved
to refine the steps.

**Byte ranges.** `Ranges` goes from the `Range` header to merged ranges and
`Body` from ranges to requested chunks, trimmed leaves and a single or
multipart body with its exact length, which `MultipartReader` reads back, as
sections 14.1.2, 14.2 and 14.6 of
RFC 9110 describe.

`Base` and `Ordering` hold shared types and total orders. Theorems about runs
quantify over sequences of states (or traces with their events), each obtained
from the one before by a step.

## Where the code and its promises part

- The keeper's loop says that waking for the refresh after a failure would spin
  (index_keeper.rs:172-173). It spins elsewhere: a failure stays remembered when
  the record stops being due, for example because the servers changed and
  changed back. The timer then lies in the past. `Keeper.TimerIsInTheFuture` is
  the exact condition, `Keeper.StaleFailureIsReachable` a run into it and
  `Keeper.StaleFailureSpins` the spin. The timer also lies in the past when
  storing a record took INDEX_REFRESH, because the record is dated from before.
- The keeper "publishes only while `active` is true" (index_keeper.rs:113), but
  it reads `active` before it asks for its address, and publishes if it is
  switched off in between: `Keeper.AttemptWhileInactive`. That is the only way,
  `Keeper.AttemptsAreDue`.
- A record that is only on former servers stops counting as live once the keeper
  has read the change, not once the servers change:
  `Keeper.AnnouncedOnFormerServers`, and `Keeper.AnnouncementsAreIndexed` for
  what holds always.
- A publication or lookup whose transaction id is already in use would displace
  the older one, which is then never answered. `Client.OnCommandKeeps` says that
  this is exactly the case in which a command loses one. Ids are random 64-bit
  numbers; runs assume them fresh.

## Model

| member | source | states |
|---|---|---|
| `Wire.TailIsIgnored` | udp-addr-index-proto/src/lib.rs:72-86 | a message is read whatever bytes follow it, up to the size of a datagram, and a get exactly when they fill the datagram, whatever they are |
| `Wire.EncodeInto` | udp-addr-index-proto/src/lib.rs:55-70 | the in-place encoder leaves exactly the datagram in the front of the buffer, padding included and whatever the buffer held, and fails exactly when the message does not fit |
| `Wire.TakeVarintInverts` | udp-addr-index-proto/src/lib.rs:65-79 | a varint is read back from the front of any bytes, within the length its integer type allows |
| `Wire.VarintIsShortest` | udp-addr-index-proto/src/lib.rs:74-81 | whatever varint is accepted, longer forms included, the written form of its value is no longer |
| `Wire.RoundTrip` | udp-addr-index-proto/src/lib.rs:55-86 | every message that fits decodes from its own datagram, and a get always fills the datagram |
| `Wire.EncodeInjective` | udp-addr-index-proto/src/lib.rs:46-69 | two messages never share a datagram, so no request reads as a response |
| `Wire.AcceptedIsNoShorter` | udp-addr-index-proto/src/lib.rs:74-86 | an accepted datagram, with longer varints or trailing bytes, is at least as long as the canonical encoding of its message, which exists and decodes to it |
| `Wire.EncodeFits` | udp-addr-index-proto/src/lib.rs:28-69 | only a value above MAX_VALUE_LEN can keep a message from fitting |
| `Tokens.AcceptedExactly` | udp-addr-index/src/lib.rs:144-168 | a token is accepted from exactly the socket it was issued to, in exactly its bucket and the next |
| `Tokens.AcceptedWindow` | udp-addr-index/src/lib.rs:148-158 | with buckets of length B, a token issued at t is accepted through t + B and never from t + 2B on |
| `Tokens.InjectiveTokensExist` | udp-addr-index/src/lib.rs:160-168 | the assumption on the token function can be met |
| `RateLimit.RateLimiters.Allow` | udp-addr-index/src/lib.rs:223-238 | one request refills its bucket up to the burst, takes one token exactly if there is one, and changes no other bucket |
| `RateLimit.Conservation` | udp-addr-index/src/lib.rs:191-202 | from any sane table, what is admitted through a bucket never exceeds what was in it plus what was refilled |
| `RateLimit.WindowBound` | udp-addr-index/src/lib.rs:185-238 | in any window of any run at nondecreasing times at most burst + rate x length is admitted through a bucket, and tokens stay between 0 and burst |
| `RateLimit.ExactConservation` | udp-addr-index/src/lib.rs:191-202 | while no refill is cut off at the burst, the level left plus the number admitted is exactly the level before plus the refill |
| `RateLimit.BurstIsAdmitted` | udp-addr-index/src/lib.rs:192-202 | as many requests at one instant as a bucket holds tokens are all admitted |
| `RateLimit.PatientRequestIsAllowed` | udp-addr-index/src/lib.rs:192-202 | a request that waited long enough for one token is never refused |
| `AddrStore.Oldest` | udp-addr-index/src/store.rs:83-97 | the entry evicted expires no later than any other |
| `AddrStore.Store.RemoveEntry` | udp-addr-index/src/store.rs:121-130 | exactly that entry goes, and the counts per IP stay the exact nonzero counts |
| `AddrStore.Store.Gc` | udp-addr-index/src/store.rs:110-119 | the loop over the ordered expiries leaves exactly the live entries, and all three structures still agree |
| `AddrStore.Store.Put` | udp-addr-index/src/store.rs:66-101 | result and entries are those of the specification, and all three structures still agree |
| `AddrStore.Store.Get` | udp-addr-index/src/store.rs:104-107 | what is found is what is live |
| `AddrStore.CountsRemoved` | udp-addr-index/src/store.rs:121-130 | decrementing a count, and dropping it at zero, keeps the counts exact |
| `AddrStore.FirstIsOldest` | udp-addr-index/src/store.rs:85-96 | the first of the ordered expiries names the oldest entry |
| `StoreRuns.AgreesWithNaive` | udp-addr-index/src/store.rs:65-119 | for every sequence of operations with a clock that does not step back, every outcome is that of a map that keeps timestamps and never collects |
| `StoreRuns.CollectingIsFinal` | udp-addr-index/src/store.rs:104-119 | with a clock that steps back it is not: a collected value stays gone |
| `StoreRuns.LimitsHold` | udp-addr-index/src/store.rs:66-101 | under fixed limits the total, the number per IP and every value length are within their limits after every run, whatever the clock does |
| `StoreRuns.EvictionSparesLater` | udp-addr-index/src/store.rs:83-101 | an accepted put loses at most one live entry, none that a survivor expires before, and none while there is room |
| `StoreRuns.FoundUntilItExpires` | udp-addr-index/src/store.rs:98-107 | an accepted value is found until exactly its expiry, saturating at the end of time |
| `StoreRuns.RefusedOnlyForQuota` | udp-addr-index/src/store.rs:74-91 | too large exactly when the value is too long; full exactly when its address is new and its IP holds its quota, or the store is empty and may hold nothing |
| `Server.Server.HandlePacket` | udp-addr-index/src/udp.rs:185-257 | rate bucket and store change as specified; the bytes sent back are exactly what the request, the store before it and the limiter call for, and never more bytes than came |
| `Server.HandleKeepsValuesFit` | udp-addr-index/src/udp.rs:192-257 | no packet leaves a value in the store that a reply could not carry |
| `Server.ReplyNeverLonger` | udp-addr-index/src/udp.rs:192-255 | whatever arrives, in whatever encoding, the reply fits the buffer and is no longer than what caused it |
| `Server.EveryPacketIsReplied` | udp-addr-index/src/udp.rs:195-255 | a let-through get is told exactly the value its address has and that has not expired, or none; a prepare gets a token that is good from its socket for the rest of the bucket; a put is confirmed exactly when its token is good and there is room; anything else gets no reply |
| `Server.PutThenGet` | udp-addr-index/src/udp.rs:213-246 | a value whose put was confirmed is what a following get of its socket is told, until exactly its expiry |
| `Server.ReadsLeaveTheStore` | udp-addr-index/src/udp.rs:198-246 | only a confirmed put changes what any later get finds |
| `Server.Server.PutLocal` | udp-addr-index/src/lib.rs:129-134 | stores without token or rate limit, as the store's specification says |
| `Server.Server.GetLocal` | udp-addr-index/src/lib.rs:137-142 | reads what is live |
| `Client.OnPacketKeeps` | iroh-mainline-endpoint-discovery/src/udp.rs:332-405 | no datagram from anyone makes a transaction vanish unanswered or answers one twice |
| `Client.OnCommandKeeps` | iroh-mainline-endpoint-discovery/src/udp.rs:256-330 | a command leaves every other account as it was if and only if its id is not in use |
| `Client.RepeatIsIgnored` | iroh-mainline-endpoint-discovery/src/udp.rs:332-405 | a repeated reply changes nothing at all |
| `Actor.Actor.HandleMessage` | iroh-mainline-endpoint-discovery/src/udp.rs:256-330 | every command has the specified effect on maps, outbox and answers, and keeps transactions and channels consistent |
| `Actor.Actor.HandlePacket` | iroh-mainline-endpoint-discovery/src/udp.rs:332-405 | every packet has the specified effect, and keeps transactions and channels consistent |
| `Actor.Actor.HandlePrepared` | iroh-mainline-endpoint-discovery/src/udp.rs:337-361 | a first grant from an awaited server has the specified effect, which in every run is one put with the value for the granted socket, or giving that server up when the value is too long |
| `Actor.Actor.HandleStored` | iroh-mainline-endpoint-discovery/src/udp.rs:362-373 | a confirmation counts once, from a server still awaited |
| `Actor.Actor.HandleValue` | iroh-mainline-endpoint-discovery/src/udp.rs:374-404 | a value counts once, for the queried address, from an awaited server |
| `Actor.Actor.DoFinishPublish` | iroh-mainline-endpoint-discovery/src/udp.rs:435-451 | the pending publication is answered and gone |
| `Actor.Actor.DoFinishResolve` | iroh-mainline-endpoint-discovery/src/udp.rs:453-471 | the pending lookup is answered and gone |
| `Actor.Actor.FlushExpired` | iroh-mainline-endpoint-discovery/src/udp.rs:415-433 | exactly the transactions due are gone, each channel of theirs has its answer, and every other transaction and answer is as it was |
| `Actor.Actor.NextDeadline` | iroh-mainline-endpoint-discovery/src/udp.rs:407-413 | the least deadline of all that is pending, and none exactly if nothing is |
| `ClientRuns.RunInv` | iroh-mainline-endpoint-discovery/src/udp.rs:177-471 | the actor's pending state is at all times a function of what it asked and what has arrived |
| `ClientRuns.OwedOneAnswer` | iroh-mainline-endpoint-discovery/src/udp.rs:256-471 | each command is at each moment owed an answer by exactly one transaction or has its answer, which never changes |
| `ClientRuns.OnePutPerServer` | iroh-mainline-endpoint-discovery/src/udp.rs:337-361 | each server gets at most one put per transaction, whatever is repeated, forged or late |
| `Requests.GrantedMeansOnePut` | iroh-mainline-endpoint-discovery/src/udp.rs:337-361 | every server that granted a socket whose value fits was sent exactly one put of the transaction: that value, with the token granted |
| `Requests.AskedMeansSent` | iroh-mainline-endpoint-discovery/src/udp.rs:267-328 | every server a publication asked was sent its prepare, and every server a lookup asked its get, each readable as such |
| `Requests.CommandsSetServers` | iroh-mainline-endpoint-discovery/src/udp.rs:256-266 | who is asked is who was added or put in place and not removed |
| `ClientRuns.PublicationEnds` | iroh-mainline-endpoint-discovery/src/udp.rs:337-373 | before its deadline only when every server stored the value or led to one that is too long; with exactly the sockets confirmed, in the only sorted order; and exactly when it fails, and how |
| `ClientRuns.LookupEnds` | iroh-mainline-endpoint-discovery/src/udp.rs:374-404 | before its deadline only when all servers were heard or a value was accepted; values in the only sorted order, distinct, reported for the queried address; timeout exactly when no server answered |
| `ClientRuns.OpenMeansUnfinished` | iroh-mainline-endpoint-discovery/src/udp.rs:332-405 | an unanswered transaction still waits for something |
| `ClientRuns.AnswersStay` | iroh-mainline-endpoint-discovery/src/udp.rs:435-471 | an answer given is never taken back or changed |
| `Deadlines.FlushIsARun` | iroh-mainline-endpoint-discovery/src/udp.rs:415-433 | a flush is a run of expiries at its time, of exactly what is due |
| `Deadlines.FlushAnswersAllDue` | iroh-mainline-endpoint-discovery/src/udp.rs:415-433 | right after a flush every command whose deadline has come is answered; past all deadlines, every command ever issued |
| `Deadlines.TimerCanFlush` | iroh-mainline-endpoint-discovery/src/udp.rs:230-246 | whenever the timer is due the flush is possible, so time is never stuck |
| `Deadlines.AnsweredExactlyOnce` | iroh-mainline-endpoint-discovery/src/udp.rs:230-471 | every command is answered exactly once: owed by a pending transaction until then, answered once its deadline and the lateness of the timer have passed, and never answered differently |
| `Deadlines.TimedRunIsARun` | iroh-mainline-endpoint-discovery/src/udp.rs:230-246 | every moment of the loop with its clock is one of a run, so all results on runs hold there |
| `Record.DecodeRecord` | iroh-mainline-endpoint-discovery/src/record.rs:93-100 | a record decodes only if it names the slot and its signature verifies |
| `Record.BoundToItsSlot` | iroh-mainline-endpoint-discovery/src/record.rs:59-100 | a signed record fits a slot, and decodes in exactly the slot it was signed for, to itself |
| `Record.Validated` | iroh-mainline-endpoint-discovery/src/addr_index.rs:455-460 | exactly the records that decode for the address |
| `AddrIndex.PublishingFits` | iroh-mainline-endpoint-discovery/src/addr_index.rs:408-414 | publishing a signed record never ends as too large |
| `AddrIndex.UncachedLookup` | iroh-mainline-endpoint-discovery/src/addr_index.rs:442-463 | only verified records bound to the address, each from a server that was asked; before the deadline a miss heard from every server |
| `System.ResponseIsGenuine` | iroh-mainline-endpoint-discovery/src/udp.rs:332-336 | a response that arrives from a server's socket is true of that server |
| `System.ResponseIsTruthful` | udp-addr-index/src/udp.rs:200-255 | a token in a reply was issued to the socket it names, `Stored` was stored, a value was deposited in that slot |
| `System.StoredValueIsServed` | udp-addr-index/src/udp.rs:234-255 | a let-through get puts on the network the value the server holds for the slot, or that it holds none |
| `System.PutIsBuiltForItsSlot` | udp-addr-index/src/udp.rs:200-233 | a client's put that passes the token check carries the value its publication builds for exactly the source socket the server sees |
| `System.RunKeeps` | udp-addr-index/src/udp.rs:185-257 | every step of clients, servers, network, NAT and strangers keeps the protocol invariant |
| `System.StoredValuesAreBound` | iroh-mainline-endpoint-discovery/src/udp.rs:337-361 | in every run, every stored value was deposited in its slot, and every deposit that ever came through a client's exchange is the value its publication builds for exactly that slot |
| `System.PublishedRecordDecodes` | iroh-mainline-endpoint-discovery/src/record.rs:59-100 | so a published record decodes in the slot it sits in, to what its publisher signed |
| `System.PublishedSocketsWereAccepted` | iroh-mainline-endpoint-discovery/src/udp.rs:362-373 | a successful publication lists only sockets under which an asked server accepted a put of this transaction, its own and with the value for that socket while nobody else uses its id |
| `System.LookedUpValuesWereAccepted` | iroh-mainline-endpoint-discovery/src/udp.rs:374-404 | a lookup returns only values that asked servers accepted for the queried address |
| `System.LookupFindsPublisher` | iroh-mainline-endpoint-discovery/src/addr_index.rs:442-463 | when an answered lookup of a slot returned what a signing publication put there, the very record it signed is among those validated, and all of them are verified and bound to the slot |
| `Keeper.RunKeeps` | iroh-mainline-endpoint-discovery/src/index_keeper.rs:116-189 | every interleaving of keeper, announcers and changes keeps the invariant |
| `Keeper.AttemptsAreDue` | iroh-mainline-endpoint-discovery/src/index_keeper.rs:126-171 | every attempt is due, not within RETRY of the last failure whatever woke the keeper, and made while active unless switched since the loop read it |
| `Keeper.AttemptsExactlyWhenDue` | iroh-mainline-endpoint-discovery/src/index_keeper.rs:135-148 | with the address known the keeper publishes if and only if the last failure is RETRY ago and it has no record, or one on other servers, for another address or INDEX_REFRESH old |
| `Keeper.AsleepMeansStored` | iroh-mainline-endpoint-discovery/src/index_keeper.rs:135-181 | a keeper that falls asleep without a remembered failure has a record for the address just observed on the servers just read |
| `Keeper.ChangesWake` | iroh-mainline-endpoint-discovery/src/index_keeper.rs:182-187 | a sleeping keeper can wake for new servers, for being switched and for a report of another address |
| `Keeper.ActiveIsNoticed` | iroh-mainline-endpoint-discovery/src/index_keeper.rs:127-133 | a keeper that is to be active never waits to be switched on |
| `Keeper.AttemptWhileInactive` | iroh-mainline-endpoint-discovery/src/index_keeper.rs:128-148 | the exception is real |
| `Keeper.NeverSleepsWithoutTimer` | iroh-mainline-endpoint-discovery/src/index_keeper.rs:172-186 | a sleeping keeper always has a timer, from its failure or else its record |
| `Keeper.TimerIsInTheFuture` | iroh-mainline-endpoint-discovery/src/index_keeper.rs:135-187 | going to sleep, for whichever address was observed, the timer is strictly in the future if and only if no stale failure is remembered and storing did not take INDEX_REFRESH |
| `Keeper.StaleFailureSpins` | iroh-mainline-endpoint-discovery/src/index_keeper.rs:127-187 | with a stale failure the loop returns to the very same state with no time passed |
| `Keeper.StaleFailureIsReachable` | iroh-mainline-endpoint-discovery/src/index_keeper.rs:116-189 | a run into such a state |
| `Keeper.AnnouncementsAreIndexed` | iroh-mainline-endpoint-discovery/src/index_keeper.rs:203-225 | every announcement rests on a stored record for the address just observed, less than INDEX_TTL old, on servers equal to or overlapping those the keeper last read, which are the current ones unless changed since |
| `Keeper.AnnouncesExactlyWhenLive` | iroh-mainline-endpoint-discovery/src/index_keeper.rs:219-237 | an announcer announces if and only if the record is for the address it observed, on the same or overlapping servers, and within INDEX_TTL; otherwise it waits |
| `Keeper.AnnouncedOnFormerServers` | iroh-mainline-endpoint-discovery/src/index_keeper.rs:49-58 | that exception is real |
| `Keeper.NoPublicationIsMissed` | iroh-mainline-endpoint-discovery/src/index_keeper.rs:214-238 | a waiting announcer can go on if and only if a publication completed since it began its check |
| `Keeper.IndexKeeper.Report` | iroh-mainline-endpoint-discovery/src/index_keeper.rs:100-109 | leaves a permit exactly when the record is for another address, as the announcer's step says |
| `Keeper.IndexKeeper.MayAnnounce` | iroh-mainline-endpoint-discovery/src/index_keeper.rs:89-95 | announces exactly when the announcer's step does |
| `Keeper.IndexKeeper.Look` | iroh-mainline-endpoint-discovery/src/index_keeper.rs:135-181 | after the address is known, publishes or sleeps, with which timer, exactly as the keeper's step does |
| `Keeper.IndexKeeper.Succeed` | iroh-mainline-endpoint-discovery/src/index_keeper.rs:149-165 | refines a successful publication |
| `Keeper.IndexKeeper.Fail` | iroh-mainline-endpoint-discovery/src/index_keeper.rs:166-181 | refines a failed publication |
| `Pkarr.RunKeeps` | iroh-mainline-endpoint-discovery/src/pkarr.rs:256-323 | every interleaving of edits, rounds and waits keeps the invariant |
| `Pkarr.LastChangeDecides` | iroh-mainline-endpoint-discovery/src/pkarr.rs:196-232 | what the packets hold for a key is what its last change made of it |
| `Pkarr.PublishedEditsAreCovered` | iroh-mainline-endpoint-discovery/src/pkarr.rs:275-303 | once `published` reaches g, every edit up to g is in, or superseded by a later change of its key in, a round that stored all of its items |
| `Pkarr.CompleteRoundIsPublished` | iroh-mainline-endpoint-discovery/src/pkarr.rs:283-303 | a round that ends by itself sets `published` to the generation it counted if and only if it stored every packet it signed, and every wait begun at no later a generation can then return |
| `Pkarr.EveryChangeIsCounted` | iroh-mainline-endpoint-discovery/src/pkarr.rs:196-232 | every change of the packets is counted as an edit, except by who has not yet come to it |
| `Pkarr.WaitCoversEdits` | iroh-mainline-endpoint-discovery/src/pkarr.rs:235-243 | a wait that returned covers every edit counted before it began |
| `Pkarr.PublishedOnlyGrows` | iroh-mainline-endpoint-discovery/src/pkarr.rs:283-303 | `published` never decreases and never exceeds the generation |
| `Pkarr.SequencesIncrease` | iroh-mainline-endpoint-discovery/src/pkarr.rs:305-323 | rounds sign with strictly increasing sequences, even if the clock steps back |
| `Pkarr.SequenceFollowsClock` | iroh-mainline-endpoint-discovery/src/pkarr.rs:305-316 | a sequence is the least above the last and not behind the clock |
| `Pkarr.Publisher.SetRaw` | iroh-mainline-endpoint-discovery/src/pkarr.rs:196-212 | refuses exactly packets over the limit, otherwise refines a change |
| `Pkarr.Publisher.Remove` | iroh-mainline-endpoint-discovery/src/pkarr.rs:218-230 | refines a removal exactly if the name is there |
| `Pkarr.Publisher.CountEdit` | iroh-mainline-endpoint-discovery/src/pkarr.rs:275-278 | refines the counting of an edit |
| `Pkarr.Publisher.SignAll` | iroh-mainline-endpoint-discovery/src/pkarr.rs:307-323 | refines the signing of a round: its sequence and all packets as they are then |
| `Pkarr.Publisher.PutAll` | iroh-mainline-endpoint-discovery/src/pkarr.rs:289-299 | every item is attempted, exactly the successful ones are stored, and the round is fine exactly if all were |
| `Pkarr.Publisher.Report` | iroh-mainline-endpoint-discovery/src/pkarr.rs:300-303 | refines the end of a round, which reports the counted generation exactly on success |
| `Publisher.RunKeeps` | iroh-mainline-endpoint-discovery/src/publisher.rs:161-250 | every interleaving of the loop and its workers keeps the invariant |
| `Publisher.AtMostThreeAnnounce` | iroh-mainline-endpoint-discovery/src/publisher.rs:178-209 | across all workers, aborted ones included, at most three are between pacing and release |
| `Publisher.StartsAreSpaced` | iroh-mainline-endpoint-discovery/src/publisher.rs:199-209 | any two paced starts are at least ANNOUNCE_SPACING apart |
| `Publisher.NextStartIsDue` | iroh-mainline-endpoint-discovery/src/publisher.rs:205-208 | and a worker with the pacing lock may start as soon as that time has passed |
| `Publisher.PublishedMeansAnnounced` | iroh-mainline-endpoint-discovery/src/publisher.rs:240-248 | `published` is set only when hashes are registered and each has had a successful announcement, and to the socket of the record those need |
| `Publisher.StaysPublished` | iroh-mainline-endpoint-discovery/src/publisher.rs:149-156 | once set it stays set, so later waits return at once |
| `Publisher.TurnServesAll` | iroh-mainline-endpoint-discovery/src/publisher.rs:180-242 | after each turn every registered hash has a running worker of its own, and once all were announced and heard of, `published` is the socket of the keeper's record |
| `Publisher.NoReportIsLost` | iroh-mainline-endpoint-discovery/src/publisher.rs:228-231 | a successful announcement of a hash that stays registered counts, or is about to |
| `Publisher.Loop.TakeTurn` | iroh-mainline-endpoint-discovery/src/publisher.rs:180-242 | the loops that drop, start and publish refine one turn |
| `Publisher.Loop.Pace` | iroh-mainline-endpoint-discovery/src/publisher.rs:205-208 | refines a paced start |
| `Publisher.Loop.Hear` | iroh-mainline-endpoint-discovery/src/publisher.rs:247-247 | refines the report of an announcement |
| `Announcers.AnnouncingHasRecord` | iroh-mainline-endpoint-discovery/src/index_keeper.rs:219-224 | whoever announces does so while the keeper has a record, which is what a success needs |
| `Announcers.RunProjects` | iroh-mainline-endpoint-discovery/src/publisher.rs:161-250 | every run of workers, loop and keeper together is a run of the keeper and a run of the publisher |
| `Announcers.PacedAndOnLiveRecords` | iroh-mainline-endpoint-discovery/src/publisher.rs:178-233 | across all workers at most three are between pacing and release, starts are spaced, and every announcement is on a record stored for the address just observed, in time and on servers the keeper knows |
| `Announcers.PublishedOnLiveRecords` | iroh-mainline-endpoint-discovery/src/publisher.rs:240-248 | `published` is the socket of a record the keeper stored, set once every registered hash was announced on a live record |
| `Discovery.AcceptAllIsNewest` | iroh-mainline-endpoint-discovery/src/addr_index.rs:203-218 | what is kept is the newest valid (sequence, value) of everything seen |
| `Discovery.OrderDoesNotMatter` | iroh-mainline-endpoint-discovery/src/addr_index.rs:203-218 | two histories of the same items, in any order and multiplicity, keep the same sequence and value, and for items of one key the same list of servers |
| `Discovery.FirstTwo` | iroh-mainline-endpoint-discovery/src/addr_index.rs:286-299 | at most two, each a valid peer that was found, and none only if there is no valid one |
| `Discovery.CollectPeers` | iroh-mainline-endpoint-discovery/src/addr_index.rs:284-301 | the nested loops that stop at the second peer give the first two valid peers of all batches |
| `Discovery.Discovery.AcceptItem` | iroh-mainline-endpoint-discovery/src/addr_index.rs:204-218 | keeps the newest valid item seen |
| `Discovery.Discovery.Refresh` | iroh-mainline-endpoint-discovery/src/addr_index.rs:226-335 | succeeds exactly when there is a signed list or a rendezvous peer; a failure changes no server; at most two; never a nonempty list mixed with other peers; none only after a signed withdrawal |
| `LookupCache.LookupCache.GetRecords` | iroh-mainline-endpoint-discovery/src/lookup_cache.rs:47-57 | drops what expired, and refreshes the use of what is found, as specified |
| `LookupCache.LookupCache.Insert` | iroh-mainline-endpoint-discovery/src/lookup_cache.rs:60-73 | stores with the time to live that applies, within the capacity |
| `LookupCache.LookupCache.Pending` | iroh-mainline-endpoint-discovery/src/lookup_cache.rs:76-86 | the shared lock, or a new one once nobody holds the old |
| `LookupCache.PutKeeps` | iroh-mainline-endpoint-discovery/src/lookup_cache.rs:60-73 | one slot per socket, at most the capacity, and nothing in it but what was there or just stored |
| `LookupCache.InsertedIsFound` | iroh-mainline-endpoint-discovery/src/lookup_cache.rs:47-73 | an answer stored with a time to live is found until exactly its expiry |
| `LookupCache.OnlyOldestMakesRoom` | iroh-mainline-endpoint-discovery/src/lookup_cache.rs:60-73 | only the slot used longest ago makes room, and only when there is none; all others stay in order |
| `LookupCache.FoundComesFirst` | iroh-mainline-endpoint-discovery/src/lookup_cache.rs:47-57 | found exactly when there is a live slot, which becomes the most recent; an expired one goes; all others stay in order |
| `LookupCache.LiveSlotAnswers` | iroh-mainline-endpoint-discovery/src/addr_index.rs:426-435 | a caller that finds a live slot is answered from it, without asking the servers |
| `LookupCache.FetchedIsRemembered` | iroh-mainline-endpoint-discovery/src/addr_index.rs:436-438 | what a caller fetched is its answer and is what others find until it expires |
| `LookupCache.OneRequestPerSocket` | iroh-mainline-endpoint-discovery/src/addr_index.rs:430-436 | all holders of a lock for one socket share it, so at most one is asking the servers |
| `LookupCache.AnswersAreRecent` | iroh-mainline-endpoint-discovery/src/addr_index.rs:422-439 | every answer is one that the servers gave at most the time to live ago, thirty seconds if empty |
| `Resolver.StartLookups` | iroh-mainline-endpoint-discovery/src/resolver.rs:67-80 | fills the room there is, oldest first, losing nobody |
| `Resolver.ResolveStream` | iroh-mainline-endpoint-discovery/src/resolver.rs:67-101 | every peer received is looked up exactly once, at most 16 at a time, the queue stays below 64 plus the longest batch, every endpoint of every successful lookup is yielded, some branch is always enabled, and the loop ends |
| `Ranges.TrimExact` | iroh-link-gateway/src/ranges.rs:24-30 | trimming removes exactly the white space at both ends |
| `Ranges.SplitInverts` | iroh-link-gateway/src/ranges.rs:24-27 | splitting loses nothing and leaves no comma |
| `Ranges.Single` | iroh-link-gateway/src/ranges.rs:55-93 | a well-formed spec gives exactly the positions it asks for below the size, as a nonempty range or nothing; any other is not understood |
| `Ranges.SpecInverts` | iroh-link-gateway/src/ranges.rs:55-93 | a range written by its first and last position is understood as just these |
| `Ranges.Merge` | iroh-link-gateway/src/ranges.rs:41-53 | the same positions, as nonempty ascending ranges with gaps between them, and no more ranges |
| `Ranges.ApartFits` | iroh-link-gateway/src/ranges.rs:38-53 | such ranges add up to at most where the last one ends |
| `Ranges.Select` | iroh-link-gateway/src/ranges.rs:19-39 | exactly the union of the requested positions below the size, as at most 16 such ranges and never more than the blob; unsatisfiable exactly when understood and the union is empty; full exactly when not understood |
| `Body.StreamContent` | iroh-link-gateway/src/lib.rs:1548-1589 | the streaming loop is the fold of its items |
| `Body.EmitsTheBlob` | iroh-link-gateway/src/lib.rs:1560-1580 | whatever order genuine leaves come in, what is emitted is the blob from the start of the range on |
| `Body.CompleteBodyIsTheRange` | iroh-link-gateway/src/lib.rs:1556-1589 | a body that ends without error is exactly the range; any other is a prefix of it |
| `Body.ContiguousAdvances` | iroh-link-gateway/src/lib.rs:1561-1580 | contiguous leaves from before the range never stop it, and how far they lead |
| `Body.ChunksCover` | iroh-link-gateway/src/lib.rs:1392-1398 | the chunks requested cover the range, and no smaller run does |
| `Body.ContiguousLeavesSuffice` | iroh-link-gateway/src/lib.rs:1556-1589 | contiguous genuine leaves from at or before the range to at or past its end give exactly the range |
| `Body.RequestedChunksSuffice` | iroh-link-gateway/src/lib.rs:1392-1398 | contiguous genuine leaves that cover the chunks asked for, wherever they start and end, give exactly the range, without contiguity or completeness error |
| `Body.MultipartLength` | iroh-link-gateway/src/lib.rs:1360-1370 | exactly the length of the complete multipart body, or nothing when it exceeds 64 bits |
| `Body.ContentRangeInverts` | iroh-link-gateway/src/lib.rs:1350-1358 | the Content-Range of a part or reply reads back as its first and last position and the size |
| `Body.MultipartContent` | iroh-link-gateway/src/lib.rs:1372-1390 | completes exactly when every request does, and is then exactly the multipart body; otherwise a prefix of it |
| `MultipartReader.MultipartInverts` | iroh-link-gateway/src/lib.rs:1350-1390 | a reader with the boundary takes a multipart body back to the list of its ranges, each with the size and exactly its bytes |
| `Body.ServeRange` | iroh-link-gateway/src/lib.rs:1319-1347 | status, exact length, exact bytes, and exactly when it is refused or breaks off |
| `Body.ServeBlob` | iroh-link-gateway/src/lib.rs:1270-1348 | from header to body: the selected positions are the requested ones, and the reply carries exactly them, with the announced length |
| `Body.CooperationServes` | iroh-link-gateway/src/lib.rs:1270-1398 | with a provider that sends at least the chunks it is asked for, every announced body is sent to its end with its announced length |

## Left out

- Sockets, the Mainline DHT, channels, timers and tasks: they are steps that may happen at any time, inputs, or lists of what was sent and answered.
- Keeper, Publisher, Announcers, Pkarr and LookupCache runs are runs of value steps; the classes beside them refine single steps, and the awaits between the steps are not part of any method.
- `announce_indexed` waits up to RESTART_JITTER after a long wait, and `repeat_announcement` between announcements; these delays are steps of any length.
- BLAKE3 in `token_for` is a function parameter that is injective in socket and bucket; `token_eq` is plain equality, its constant time is not modelled.
- Ed25519 is a signature scheme as a parameter that verifies what it signs, with keys of 32 and signatures of 64 bytes.
- Client: the function that builds a value gives the same value for the same socket; a record's timestamp may differ between sockets but not between two servers that report the same socket.
- Client: transaction ids are fresh in runs; what happens otherwise is `Client.OnCommandKeeps`.
- Deadlines: the loop is never closed, so that commands it drops at its end are not modelled, and its timer is at most a fixed but arbitrary time late.
- RateLimit: levels and instants are reals without rounding, the NaN that marks an unused bucket is `None`, and the slot of an IP is a parameter.
- System: the rate limiter's verdict on each packet is arbitrary, so what holds, holds whichever packets it refuses.
- System: nobody but a server sends from that server's socket; the protocol has no other protection against forged replies than the transaction id.
- Pkarr: sequences do not overflow 64 bits; DNS packets and item signatures are opaque bytes.
- Discovery: the list codec is a parameter that yields at most two sockets; the periodic refresh task and retries around `refresh` are not modelled.
- Resolver.ResolveStream: the stream of peers is finite and nobody drops the result before its end.
- Ranges: header text is characters, of which white space is recognised as Unicode does up to U+3000.
- Body: headers other than status, Content-Length and Content-Range, the media type of a multipart reply and entity tags are not modelled; part headers are ASCII.
- `sniff`, `verified_size`, collections, listings, the debug page, MIME detection, CORS and routing of the gateway.
- `hints.rs`, `provider_cache.rs`, the Pkarr redirect cache, `set_https`, `is_hostname` and `encode_signed_packet`.
- `resolve_continuously`, the background republisher, metrics, logging, command lines and packaging.
