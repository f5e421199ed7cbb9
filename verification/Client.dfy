/**
 The client actor: many publish and lookup transactions run at once over one
 socket, each with its own deadline.

 The actor's state is also a value, `State`, and every handler of the class is
 proved to take exactly the step its function describes.
 */
module Client {
  import opened Base
  import opened Ordering
  import opened Wire

  /** One command's reply channel, which its caller waits on. */
  type Channel = nat

  datatype Failure = Timeout | TooLarge | NoServers

  datatype Answer =
    | PublishedAt(addrs: seq<SocketAddr>)
    | ResolvedTo(values: seq<Bytes>)
    | Failed(failure: Failure)

  datatype Command =
    | AddServer(server: SocketAddr)
    | RemoveServer(server: SocketAddr)
    | ReplaceServers(servers: set<SocketAddr>)
    | Publish(valueFor: SocketAddr -> Bytes, channel: Channel)
    | Resolve(addr: SocketAddr, accept: Option<Bytes -> bool>, channel: Channel)

  datatype PendingPublish = PendingPublish(
    valueFor: SocketAddr -> Bytes,
    tooLarge: bool,
    awaiting: set<SocketAddr>,
    prepared: set<SocketAddr>,
    stored: set<SocketAddr>,
    channel: Channel,
    deadline: nat)

  datatype PendingResolve = PendingResolve(
    addr: SocketAddr,
    accept: Option<Bytes -> bool>,
    awaiting: set<SocketAddr>,
    values: set<Bytes>,
    responded: bool,
    channel: Channel,
    deadline: nat)

  datatype Datagram = Datagram(to: SocketAddr, data: Bytes)

  /** `outbox` counts every datagram ever handed to the socket; `answers` holds what each channel was sent. */
  datatype State = State(
    servers: set<SocketAddr>,
    publishes: map<U64, PendingPublish>,
    resolves: map<U64, PendingResolve>,
    outbox: multiset<Datagram>,
    answers: map<Channel, Answer>)

  const INITIAL := State({}, map[], map[], multiset{}, map[])

  // ----- Ending a transaction -----

  function PublishAnswer(p: PendingPublish): Answer {
    AddrLeIsTotal();
    if p.stored == {} then Failed(if p.tooLarge then TooLarge else Timeout)
    else PublishedAt(Listed(p.stored, AddrLe))
  }

  function ResolveAnswer(p: PendingResolve): Answer {
    BytesLeIsTotal();
    if !p.responded then Failed(Timeout) else ResolvedTo(Listed(p.values, BytesLe))
  }

  function FinishPublish(s: State, tx: U64): State {
    if tx !in s.publishes then s else
      s.(publishes := s.publishes - {tx},
         answers := s.answers[s.publishes[tx].channel := PublishAnswer(s.publishes[tx])])
  }

  function FinishResolve(s: State, tx: U64): State {
    if tx !in s.resolves then s else
      s.(resolves := s.resolves - {tx},
         answers := s.answers[s.resolves[tx].channel := ResolveAnswer(s.resolves[tx])])
  }

  // ----- Commands -----

  function PrepareData(tx: U64): Bytes {
    EncodeFits(FromClient(Prepare(tx, Zeros(24))));
    Encode(FromClient(Prepare(tx, Zeros(24)))).value
  }

  function GetData(tx: U64, addr: SocketAddr): Bytes {
    EncodeFits(FromClient(Get(tx, addr)));
    Encode(FromClient(Get(tx, addr))).value
  }

  /** The same datagram to each of the servers. */
  function ToAll(servers: set<SocketAddr>, data: Bytes): multiset<Datagram> {
    multiset(set s | s in servers :: Datagram(s, data))
  }

  /** `handle_message`, with the transaction id it draws and the deadline it sets. */
  function OnCommand(s: State, command: Command, tx: U64, deadline: nat): State {
    match command
    case AddServer(server) => s.(servers := s.servers + {server})
    case RemoveServer(server) => s.(servers := s.servers - {server})
    case ReplaceServers(servers) => s.(servers := servers)
    case Publish(valueFor, channel) =>
      if s.servers == {} then s.(answers := s.answers[channel := Failed(NoServers)]) else
        s.(outbox := s.outbox + ToAll(s.servers, PrepareData(tx)),
           publishes := s.publishes[tx := PendingPublish(valueFor, false, s.servers, {}, {}, channel, deadline)])
    case Resolve(addr, accept, channel) =>
      if s.servers == {} then s.(answers := s.answers[channel := Failed(NoServers)]) else
        s.(outbox := s.outbox + ToAll(s.servers, GetData(tx, addr)),
           resolves := s.resolves[tx := PendingResolve(addr, accept, s.servers, {}, false, channel, deadline)])
  }

  // ----- Packets -----

  function PutData(tx: U64, token: Token, value: Bytes): Bytes
    requires |value| <= MAX_VALUE_LEN
  {
    EncodeFits(FromClient(Put(tx, token, value)));
    Encode(FromClient(Put(tx, token, value))).value
  }

  function OnPrepared(s: State, from: SocketAddr, tx: U64, addr: SocketAddr, token: Token): State {
    if tx !in s.publishes then s else
      var p := s.publishes[tx];
      if from !in p.awaiting || from in p.prepared then s else
        var value := p.valueFor(addr);
        var q := p.(prepared := p.prepared + {from});
        if |value| > MAX_VALUE_LEN then
          var r := q.(tooLarge := true, awaiting := p.awaiting - {from});
          var t := s.(publishes := s.publishes[tx := r]);
          if r.awaiting == {} then FinishPublish(t, tx) else t
        else
          s.(publishes := s.publishes[tx := q],
             outbox := s.outbox + multiset{Datagram(from, PutData(tx, token, value))})
  }

  function OnStored(s: State, from: SocketAddr, tx: U64, addr: SocketAddr): State {
    if tx !in s.publishes then s else
      var p := s.publishes[tx];
      if from !in p.awaiting then s else
        var q := p.(awaiting := p.awaiting - {from}, stored := p.stored + {addr});
        var t := s.(publishes := s.publishes[tx := q]);
        if q.awaiting == {} then FinishPublish(t, tx) else t
  }

  function OnValue(s: State, from: SocketAddr, tx: U64, addr: SocketAddr, found: Option<Bytes>): State {
    if tx !in s.resolves then s else
      var p := s.resolves[tx];
      if p.addr != addr || from !in p.awaiting then s else
        var usable := found.Some? && |found.value| <= MAX_VALUE_LEN;
        var accepted := usable && p.accept.Some? && p.accept.value(found.value);
        var q := p.(awaiting := p.awaiting - {from},
                    responded := true,
                    values := if usable then p.values + {found.value} else p.values);
        var t := s.(resolves := s.resolves[tx := q]);
        if accepted || q.awaiting == {} then FinishResolve(t, tx) else t
  }

  function OnResponse(s: State, from: SocketAddr, response: Response): State {
    match response
    case Prepared(tx, addr, token) => OnPrepared(s, from, tx, addr, token)
    case Stored(tx, addr) => OnStored(s, from, tx, addr)
    case Value(tx, addr, found) => OnValue(s, from, tx, addr, found)
  }

  function ResponseIn(data: Bytes): Option<Response> {
    var m :- Decode(data);
    if m.FromServer? then Some(m.response) else None
  }

  /** `handle_packet`: whatever is not a response is dropped. */
  function OnPacket(s: State, from: SocketAddr, data: Bytes): State {
    if ResponseIn(data).None? then s else OnResponse(s, from, ResponseIn(data).value)
  }

  // ----- Deadlines -----

  function ExpiredPublishes(s: State, now: nat): set<U64> {
    set tx | tx in s.publishes && s.publishes[tx].deadline <= now
  }

  function ExpiredResolves(s: State, now: nat): set<U64> {
    set tx | tx in s.resolves && s.resolves[tx].deadline <= now
  }

  ghost function Deadlines(s: State): set<nat> {
    (set tx | tx in s.publishes :: s.publishes[tx].deadline) + (set tx | tx in s.resolves :: s.resolves[tx].deadline)
  }

  /** The least deadline of all that is pending, if anything is. */
  ghost predicate IsNextDeadline(s: State, next: Option<nat>) {
    if next.None? then Deadlines(s) == {}
    else next.value in Deadlines(s) && forall d :: d in Deadlines(s) ==> next.value <= d
  }

  /** `r` is `s` with exactly the given transactions ended: they are gone, each is answered, all else is as it was. */
  ghost predicate Ended(s: State, r: State, ps: set<U64>, rs: set<U64>) {
    && ps <= s.publishes.Keys && rs <= s.resolves.Keys
    && r == s.(publishes := s.publishes - ps, resolves := s.resolves - rs, answers := r.answers)
    && (forall c :: c in s.answers ==> c in r.answers && r.answers[c] == s.answers[c])
    && (forall tx :: tx in ps ==>
          s.publishes[tx].channel in r.answers &&
          r.answers[s.publishes[tx].channel] == PublishAnswer(s.publishes[tx]))
    && (forall tx :: tx in rs ==>
          s.resolves[tx].channel in r.answers &&
          r.answers[s.resolves[tx].channel] == ResolveAnswer(s.resolves[tx]))
    && (forall c :: c in r.answers ==>
          || c in s.answers
          || (exists tx :: tx in ps && s.publishes[tx].channel == c)
          || (exists tx :: tx in rs && s.resolves[tx].channel == c))
  }

  /** A flush at `now`: exactly what is due has ended. */
  ghost predicate Flushed(s: State, r: State, now: nat) {
    Ended(s, r, ExpiredPublishes(s, now), ExpiredResolves(s, now))
  }

  // ----- Every command is owed exactly one answer -----

  ghost function PublishChannels(m: map<U64, PendingPublish>): set<Channel> {
    set t | t in m :: m[t].channel
  }

  ghost function ResolveChannels(m: map<U64, PendingResolve>): set<Channel> {
    set t | t in m :: m[t].channel
  }

  /** No two transactions answer on the same channel, and none on a channel that was answered. */
  ghost predicate Consistent(s: State) {
    && (forall t, u :: t in s.publishes && u in s.publishes && t != u ==>
          s.publishes[t].channel != s.publishes[u].channel)
    && (forall t, u :: t in s.resolves && u in s.resolves && t != u ==>
          s.resolves[t].channel != s.resolves[u].channel)
    && (forall c :: c in PublishChannels(s.publishes) ==> c !in ResolveChannels(s.resolves) && c !in s.answers)
    && (forall c :: c in ResolveChannels(s.resolves) ==> c !in s.answers)
  }

  /** The channels of all commands that are pending or answered. */
  ghost function Accounted(s: State): set<Channel> {
    PublishChannels(s.publishes) + ResolveChannels(s.resolves) + s.answers.Keys
  }

  lemma PublishChannelsSet(m: map<U64, PendingPublish>, tx: U64, p: PendingPublish)
    ensures PublishChannels(m[tx := p]) == PublishChannels(m - {tx}) + {p.channel}
  {
    var after := m[tx := p];
    assert after[tx].channel in PublishChannels(after);
    forall t | t in m - {tx}
      ensures m[t].channel in PublishChannels(after) && m[t].channel in PublishChannels(m - {tx})
    {
      assert after[t] == m[t] && (m - {tx})[t] == m[t];
    }
    forall t | t in after && t != tx ensures t in m - {tx} && after[t] == m[t] {
    }
  }

  lemma PublishChannelsDrop(m: map<U64, PendingPublish>, tx: U64)
    requires forall t, u :: t in m && u in m && t != u ==> m[t].channel != m[u].channel
    ensures PublishChannels(m - {tx}) == PublishChannels(m) - (if tx in m then {m[tx].channel} else {})
    ensures tx in m ==> m[tx].channel in PublishChannels(m)
  {
    var after := m - {tx};
    forall t | t in m && t != tx ensures m[t].channel in PublishChannels(after) {
      assert t in after;
    }
  }

  lemma ResolveChannelsSet(m: map<U64, PendingResolve>, tx: U64, p: PendingResolve)
    ensures ResolveChannels(m[tx := p]) == ResolveChannels(m - {tx}) + {p.channel}
  {
    var after := m[tx := p];
    assert after[tx].channel in ResolveChannels(after);
    forall t | t in m - {tx}
      ensures m[t].channel in ResolveChannels(after) && m[t].channel in ResolveChannels(m - {tx})
    {
      assert after[t] == m[t] && (m - {tx})[t] == m[t];
    }
    forall t | t in after && t != tx ensures t in m - {tx} && after[t] == m[t] {
    }
  }

  lemma ResolveChannelsDrop(m: map<U64, PendingResolve>, tx: U64)
    requires forall t, u :: t in m && u in m && t != u ==> m[t].channel != m[u].channel
    ensures ResolveChannels(m - {tx}) == ResolveChannels(m) - (if tx in m then {m[tx].channel} else {})
    ensures tx in m ==> m[tx].channel in ResolveChannels(m)
  {
    var after := m - {tx};
    forall t | t in m && t != tx ensures m[t].channel in ResolveChannels(after) {
      assert t in after;
    }
  }

  /** Answering a pending transaction, with whatever answer, moves its channel from one account to the other. */
  lemma AnswerPublishKeeps(s: State, tx: U64, answer: Answer)
    requires Consistent(s) && tx in s.publishes
    ensures var after := s.(publishes := s.publishes - {tx}, answers := s.answers[s.publishes[tx].channel := answer]);
            Consistent(after) && Accounted(after) == Accounted(s)
  {
    PublishChannelsDrop(s.publishes, tx);
  }

  lemma AnswerResolveKeeps(s: State, tx: U64, answer: Answer)
    requires Consistent(s) && tx in s.resolves
    ensures var after := s.(resolves := s.resolves - {tx}, answers := s.answers[s.resolves[tx].channel := answer]);
            Consistent(after) && Accounted(after) == Accounted(s)
  {
    ResolveChannelsDrop(s.resolves, tx);
  }

  lemma FinishPublishKeeps(s: State, tx: U64)
    requires Consistent(s)
    ensures Consistent(FinishPublish(s, tx)) && Accounted(FinishPublish(s, tx)) == Accounted(s)
  {
    if tx in s.publishes {
      AnswerPublishKeeps(s, tx, PublishAnswer(s.publishes[tx]));
    }
  }

  lemma FinishResolveKeeps(s: State, tx: U64)
    requires Consistent(s)
    ensures Consistent(FinishResolve(s, tx)) && Accounted(FinishResolve(s, tx)) == Accounted(s)
  {
    if tx in s.resolves {
      AnswerResolveKeeps(s, tx, ResolveAnswer(s.resolves[tx]));
    }
  }

  /** A pending transaction shares its channel with no other, and it is not answered. */
  lemma OwnChannel(s: State, tx: U64)
    requires Consistent(s)
    ensures tx in s.publishes ==>
              var c := s.publishes[tx].channel;
              && c !in s.answers
              && (forall x :: x in s.publishes && x != tx ==> s.publishes[x].channel != c)
              && (forall x :: x in s.resolves ==> s.resolves[x].channel != c)
    ensures tx in s.resolves ==>
              var c := s.resolves[tx].channel;
              && c !in s.answers
              && (forall x :: x in s.resolves && x != tx ==> s.resolves[x].channel != c)
              && (forall x :: x in s.publishes ==> s.publishes[x].channel != c)
  {
    assert forall x :: x in s.publishes ==> s.publishes[x].channel in PublishChannels(s.publishes);
    assert forall x :: x in s.resolves ==> s.resolves[x].channel in ResolveChannels(s.resolves);
  }

  /** Ending one more transaction. */
  lemma EndPublish(s: State, r: State, ps: set<U64>, rs: set<U64>, tx: U64)
    requires Consistent(s) && Ended(s, r, ps, rs) && tx in s.publishes && tx !in ps
    ensures Ended(s, FinishPublish(r, tx), ps + {tx}, rs)
  {
    OwnChannel(s, tx);
    var after := FinishPublish(r, tx);
    assert after.publishes == s.publishes - (ps + {tx});
    assert tx in ps + {tx};
    assert forall x :: x in ps ==> x in ps + {tx};
  }

  lemma EndResolve(s: State, r: State, ps: set<U64>, rs: set<U64>, tx: U64)
    requires Consistent(s) && Ended(s, r, ps, rs) && tx in s.resolves && tx !in rs
    ensures Ended(s, FinishResolve(r, tx), ps, rs + {tx})
  {
    OwnChannel(s, tx);
    var after := FinishResolve(r, tx);
    assert after.resolves == s.resolves - (rs + {tx});
    assert tx in rs + {tx};
    assert forall x :: x in rs ==> x in rs + {tx};
  }

  /** Nothing but the transactions that ended decides what is left. */
  lemma EndedDetermines(s: State, r: State, q: State, ps: set<U64>, rs: set<U64>)
    requires Ended(s, r, ps, rs) && Ended(s, q, ps, rs)
    ensures r == q
  {
    assert r.answers.Keys == q.answers.Keys;
    assert forall c :: c in r.answers ==> r.answers[c] == q.answers[c];
    assert r.answers == q.answers;
  }

  /** Changing a pending transaction without changing its channel changes no accounts. */
  lemma UpdatePublishKeeps(s: State, tx: U64, p: PendingPublish, outbox: multiset<Datagram>)
    requires Consistent(s) && tx in s.publishes && p.channel == s.publishes[tx].channel
    ensures var after := s.(publishes := s.publishes[tx := p], outbox := outbox);
            Consistent(after) && Accounted(after) == Accounted(s)
  {
    PublishChannelsSet(s.publishes, tx, p);
    PublishChannelsDrop(s.publishes, tx);
  }

  lemma UpdateResolveKeeps(s: State, tx: U64, p: PendingResolve)
    requires Consistent(s) && tx in s.resolves && p.channel == s.resolves[tx].channel
    ensures var after := s.(resolves := s.resolves[tx := p]);
            Consistent(after) && Accounted(after) == Accounted(s)
  {
    ResolveChannelsSet(s.resolves, tx, p);
    ResolveChannelsDrop(s.resolves, tx);
  }

  lemma OnPreparedKeeps(s: State, from: SocketAddr, tx: U64, addr: SocketAddr, token: Token)
    requires Consistent(s)
    ensures var after := OnPrepared(s, from, tx, addr, token);
            Consistent(after) && Accounted(after) == Accounted(s)
  {
    if tx in s.publishes && from in s.publishes[tx].awaiting && from !in s.publishes[tx].prepared {
      var p := s.publishes[tx];
      var q := p.(prepared := p.prepared + {from});
      var value := p.valueFor(addr);
      if |value| > MAX_VALUE_LEN {
        var r := q.(tooLarge := true, awaiting := p.awaiting - {from});
        var t := s.(publishes := s.publishes[tx := r]);
        UpdatePublishKeeps(s, tx, r, s.outbox);
        FinishPublishKeeps(t, tx);
        var after := OnPrepared(s, from, tx, addr, token);
        assert after == t || after == FinishPublish(t, tx);
      } else {
        UpdatePublishKeeps(s, tx, q, s.outbox + multiset{Datagram(from, PutData(tx, token, value))});
      }
    }
  }

  lemma OnStoredKeeps(s: State, from: SocketAddr, tx: U64, addr: SocketAddr)
    requires Consistent(s)
    ensures var after := OnStored(s, from, tx, addr);
            Consistent(after) && Accounted(after) == Accounted(s)
  {
    if tx in s.publishes && from in s.publishes[tx].awaiting {
      var p := s.publishes[tx];
      var q := p.(awaiting := p.awaiting - {from}, stored := p.stored + {addr});
      var t := s.(publishes := s.publishes[tx := q]);
      UpdatePublishKeeps(s, tx, q, s.outbox);
      FinishPublishKeeps(t, tx);
      var after := OnStored(s, from, tx, addr);
      assert after == t || after == FinishPublish(t, tx);
    }
  }

  lemma OnValueKeeps(s: State, from: SocketAddr, tx: U64, addr: SocketAddr, found: Option<Bytes>)
    requires Consistent(s)
    ensures var after := OnValue(s, from, tx, addr, found);
            Consistent(after) && Accounted(after) == Accounted(s)
  {
    if tx in s.resolves && s.resolves[tx].addr == addr && from in s.resolves[tx].awaiting {
      var p := s.resolves[tx];
      var usable := found.Some? && |found.value| <= MAX_VALUE_LEN;
      var q := p.(awaiting := p.awaiting - {from},
                  responded := true,
                  values := if usable then p.values + {found.value} else p.values);
      var t := s.(resolves := s.resolves[tx := q]);
      UpdateResolveKeeps(s, tx, q);
      FinishResolveKeeps(t, tx);
      var after := OnValue(s, from, tx, addr, found);
      assert after == t || after == FinishResolve(t, tx);
    }
  }

  /** No packet, from anyone, makes a transaction disappear unanswered or answers one twice. */
  lemma OnPacketKeeps(s: State, from: SocketAddr, data: Bytes)
    requires Consistent(s)
    ensures Consistent(OnPacket(s, from, data)) && Accounted(OnPacket(s, from, data)) == Accounted(s)
  {
    if ResponseIn(data).Some? {
      match ResponseIn(data).value
      case Prepared(tx, addr, token) => OnPreparedKeeps(s, from, tx, addr, token);
      case Stored(tx, addr) => OnStoredKeeps(s, from, tx, addr);
      case Value(tx, addr, found) => OnValueKeeps(s, from, tx, addr, found);
    }
  }

  /** The id drawn for a command is not one of a pending transaction of the same kind. */
  predicate FreshId(s: State, command: Command, tx: U64) {
    match command
    case Publish(_, _) => s.servers == {} || tx !in s.publishes
    case Resolve(_, _, _) => s.servers == {} || tx !in s.resolves
    case _ => true
  }

  function Opened(command: Command): set<Channel> {
    match command
    case Publish(_, channel) => {channel}
    case Resolve(_, _, channel) => {channel}
    case _ => {}
  }

  /**
   A command opens its own channel and leaves every other account as it was,
   exactly if the id drawn for it is not in use: a repeated id replaces the
   older transaction, which is then never answered.
   */
  lemma OnCommandKeeps(s: State, command: Command, tx: U64, deadline: nat)
    requires Consistent(s) && Opened(command) !! Accounted(s)
    ensures var after := OnCommand(s, command, tx, deadline);
            && Consistent(after)
            && (Accounted(after) == Accounted(s) + Opened(command) <==> FreshId(s, command, tx))
  {
    if s.servers != {} {
      match command
      case Publish(valueFor, channel) =>
        var p := PendingPublish(valueFor, false, s.servers, {}, {}, channel, deadline);
        PublishAccounts(s, tx, p, s.outbox + ToAll(s.servers, PrepareData(tx)));
      case Resolve(addr, accept, channel) =>
        var p := PendingResolve(addr, accept, s.servers, {}, false, channel, deadline);
        ResolveAccounts(s, tx, p, s.outbox + ToAll(s.servers, GetData(tx, addr)));
      case _ =>
    }
  }

  lemma PublishAccounts(s: State, tx: U64, p: PendingPublish, outbox: multiset<Datagram>)
    requires Consistent(s) && p.channel !in Accounted(s)
    ensures var after := s.(publishes := s.publishes[tx := p], outbox := outbox);
            && Consistent(after)
            && (Accounted(after) == Accounted(s) + {p.channel} <==> tx !in s.publishes)
  {
    var after := s.(publishes := s.publishes[tx := p], outbox := outbox);
    PublishChannelsSet(s.publishes, tx, p);
    PublishChannelsDrop(s.publishes, tx);
    assert forall t :: t in s.publishes ==> s.publishes[t].channel in PublishChannels(s.publishes);
    if tx in s.publishes {
      assert s.publishes[tx].channel !in Accounted(after);
    }
  }

  lemma ResolveAccounts(s: State, tx: U64, p: PendingResolve, outbox: multiset<Datagram>)
    requires Consistent(s) && p.channel !in Accounted(s)
    ensures var after := s.(resolves := s.resolves[tx := p], outbox := outbox);
            && Consistent(after)
            && (Accounted(after) == Accounted(s) + {p.channel} <==> tx !in s.resolves)
  {
    var after := s.(resolves := s.resolves[tx := p], outbox := outbox);
    ResolveChannelsSet(s.resolves, tx, p);
    ResolveChannelsDrop(s.resolves, tx);
    assert forall t :: t in s.resolves ==> s.resolves[t].channel in ResolveChannels(s.resolves);
    if tx in s.resolves {
      assert s.resolves[tx].channel !in Accounted(after);
    }
  }

  // ----- Repeated replies -----

  /** The transaction no longer waits for a first grant from this server. */
  predicate Settled(s: State, from: SocketAddr, tx: U64) {
    tx in s.publishes ==> from !in s.publishes[tx].awaiting || from in s.publishes[tx].prepared
  }

  lemma PreparedSettles(s: State, from: SocketAddr, tx: U64, addr: SocketAddr, token: Token)
    ensures Settled(OnPrepared(s, from, tx, addr, token), from, tx)
  {
  }

  lemma RepeatedPrepared(s: State, from: SocketAddr, tx: U64, addr: SocketAddr, token: Token)
    ensures var once := OnPrepared(s, from, tx, addr, token);
            OnPrepared(once, from, tx, addr, token) == once
  {
    PreparedSettles(s, from, tx, addr, token);
    SettledIgnores(OnPrepared(s, from, tx, addr, token), from, tx, addr, token);
  }

  lemma SettledIgnores(s: State, from: SocketAddr, tx: U64, addr: SocketAddr, token: Token)
    requires Settled(s, from, tx)
    ensures OnPrepared(s, from, tx, addr, token) == s
  {
  }

  lemma RepeatedStored(s: State, from: SocketAddr, tx: U64, addr: SocketAddr)
    ensures var once := OnStored(s, from, tx, addr);
            OnStored(once, from, tx, addr) == once
  {
  }

  lemma RepeatedValue(s: State, from: SocketAddr, tx: U64, addr: SocketAddr, found: Option<Bytes>)
    ensures var once := OnValue(s, from, tx, addr, found);
            OnValue(once, from, tx, addr, found) == once
  {
  }

  /** A repeated reply changes nothing: not the state, not what was sent, not what was answered. */
  lemma RepeatIsIgnored(s: State, from: SocketAddr, data: Bytes)
    ensures var once := OnPacket(s, from, data); OnPacket(once, from, data) == once
  {
    if ResponseIn(data).Some? {
      match ResponseIn(data).value
      case Prepared(tx, addr, token) => RepeatedPrepared(s, from, tx, addr, token);
      case Stored(tx, addr) => RepeatedStored(s, from, tx, addr);
      case Value(tx, addr, found) => RepeatedValue(s, from, tx, addr, found);
    }
  }
}
