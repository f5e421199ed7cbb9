/**
 The index keeper and the announcers gated on it, as steps between awaits.

 The keeper and any number of announcers share the record watch, the servers
 the keeper last saw, and one notification permit. Time is in milliseconds.
 */
module Keeper {
  import opened Base

  const RETRY: nat := 30_000
  const INDEX_REFRESH: nat := 1_800_000
  const INDEX_TTL: nat := 3_600_000

  type Public = Option<SocketAddr>

  datatype Record = Record(public: Public, mapping: SocketAddr, at: nat, servers: set<SocketAddr>) {
    /** Whether readers asking `servers` can resolve an announcement from `observed`. */
    predicate IsLive(observed: Public, servers: set<SocketAddr>, now: nat) {
      && public == observed
      && (this.servers == servers || this.servers * servers != {})
      && (now <= at || now - at < INDEX_TTL)
    }
  }

  predicate Due(record: Option<Record>, public: Public, servers: set<SocketAddr>, now: nat) {
    || record.None?
    || record.value.servers != servers
    || record.value.public != public
    || now >= record.value.at + INDEX_REFRESH
  }

  predicate BackingOff(failed: Option<nat>, now: nat) {
    failed.Some? && now < failed.value + RETRY
  }

  /** The timer of the keeper's select. */
  function NextWake(failed: Option<nat>, record: Option<Record>): Option<nat> {
    match failed
    case Some(at) => Some(at + RETRY)
    case None => if record.Some? then Some(record.value.at + INDEX_REFRESH) else None
  }

  // ----- State -----

  /** Where the keeper waits. */
  datatype Place =
    | Inactive
    | Addressing
    | Publishing(public: Public, servers: set<SocketAddr>, now: nat)
    | Asleep(next: Option<nat>)

  /** Where an announcer waits; `seen` is the number of publications when it subscribed. */
  datatype Announcer =
    | Pacing
    | Looking(seen: nat)
    | Checking(seen: nat, public: Public)
    | Announcing
    | Waiting(seen: nat)

  /** A publication attempt, with what was known when it began. */
  datatype Attempt = Attempt(
    now: nat, public: Public, servers: set<SocketAddr>, record: Option<Record>,
    lastFailure: Option<nat>, active: bool, switched: bool)

  /** An announcement, with the servers the keeper last read and whether these are the ones in use. */
  datatype Announcement = Announcement(
    now: nat, public: Public, record: Record, known: set<SocketAddr>, servers: set<SocketAddr>, caughtUp: bool)

  /**
   `active` and `servers` are watches with a count of their changes; `known` is
   what the keeper last read of `servers`. `published` lists all records ever
   stored, the last being current. `lastFailure`, `attempts` and
   `announcements` only record what happened.
   */
  datatype State = State(
    clock: nat,
    active: bool, activeChanges: nat, activeSeen: nat,
    servers: set<SocketAddr>, serverChanges: nat, serversSeen: Option<nat>, known: set<SocketAddr>,
    permit: bool,
    place: Place,
    failed: Option<nat>,
    published: seq<Record>,
    announcers: map<nat, Announcer>,
    lastFailure: Option<nat>,
    attempts: seq<Attempt>,
    announcements: seq<Announcement>)
  {
    function Record(): Option<Record> {
      if published == [] then None else Some(published[|published| - 1])
    }
  }

  ghost predicate Initial(k: State) {
    && k.published == [] && k.attempts == [] && k.announcements == []
    && k.failed == None && k.lastFailure == None && k.serversSeen == None
    && k.place == AtTop(k).place && k.activeSeen == k.activeChanges
    && (forall a :: a in k.announcers ==> k.announcers[a] == Pacing)
  }

  // ----- Keeper steps -----

  /** The top of the loop: read `active` and wait for it, or ask for the address. */
  function AtTop(k: State): State {
    k.(activeSeen := k.activeChanges, place := if k.active then Addressing else Inactive)
  }

  function Activated(k: State): State
    requires k.place.Inactive?
  {
    AtTop(k)
  }

  /** The address is known: read the servers, then start publishing or go to sleep. */
  function Addressed(k: State, public: Public): State
    requires k.place.Addressing?
  {
    var read := k.(serversSeen := Some(k.serverChanges), known := k.servers);
    if Due(k.Record(), public, k.servers, k.clock) && !BackingOff(k.failed, k.clock) then
      read.(place := Publishing(public, k.servers, k.clock),
            attempts := k.attempts + [Attempt(k.clock, public, k.servers, k.Record(), k.lastFailure,
                                              k.active, k.activeChanges != k.activeSeen)])
    else
      read.(place := Asleep(NextWake(k.failed, k.Record())))
  }

  function PublishedAs(k: State, mapping: SocketAddr): State
    requires k.place.Publishing?
  {
    var record := Record(k.place.public, mapping, k.place.now, k.place.servers);
    k.(published := k.published + [record], failed := None, place := Asleep(NextWake(None, Some(record))))
  }

  function PublishFailed(k: State): State
    requires k.place.Publishing?
  {
    k.(failed := Some(k.clock), lastFailure := Some(k.clock), place := Asleep(Some(k.clock + RETRY)))
  }

  /** Any branch of the select can be ready. */
  predicate CanWake(k: State) {
    && k.place.Asleep?
    && (|| k.permit
        || k.serversSeen != Some(k.serverChanges)
        || k.activeSeen != k.activeChanges
        || (k.place.next.Some? && k.place.next.value <= k.clock))
  }

  /** Which branch was taken shows in what it consumed: the permit, or a change of the servers. */
  ghost predicate Wakes(k: State, after: State) {
    && CanWake(k)
    && (|| (k.permit && after == AtTop(k.(permit := false)))
        || (k.serversSeen != Some(k.serverChanges) && after == AtTop(k.(serversSeen := Some(k.serverChanges))))
        || (k.activeSeen != k.activeChanges && after == AtTop(k))
        || (k.place.next.Some? && k.place.next.value <= k.clock && after == AtTop(k)))
  }

  ghost predicate KeeperStep(k: State, after: State) {
    match k.place
    case Inactive => k.activeSeen != k.activeChanges && after == Activated(k)
    case Addressing => exists public :: after == Addressed(k, public)
    case Publishing(_, _, _) => after == PublishFailed(k) || exists mapping :: after == PublishedAs(k, mapping)
    case Asleep(_) => Wakes(k, after)
  }

  // ----- Announcer steps -----

  function Begin(k: State, a: nat): State {
    k.(announcers := k.announcers[a := Looking(|k.published|)])
  }

  /** The closest nodes told our address: report it, which may leave the keeper a permit. */
  function Observe(k: State, a: nat, public: Public): State
    requires a in k.announcers && k.announcers[a].Looking?
  {
    k.(permit := k.permit || k.Record().None? || k.Record().value.public != public,
       announcers := k.announcers[a := Checking(k.announcers[a].seen, public)])
  }

  /** The keeper has read the servers since they last changed. */
  predicate CaughtUp(k: State) {
    (k.place.Publishing? || k.place.Asleep?) && k.serversSeen == Some(k.serverChanges)
  }

  /** Announce if a server in use holds our record, wait for the next publication otherwise. */
  function Check(k: State, a: nat): State
    requires a in k.announcers && k.announcers[a].Checking?
  {
    var Checking(seen, public) := k.announcers[a];
    if k.Record().Some? && k.Record().value.IsLive(public, k.known, k.clock) then
      k.(announcers := k.announcers[a := Announcing],
         announcements := k.announcements + [Announcement(
             k.clock, public, k.Record().value, k.known, k.servers, CaughtUp(k))])
    else
      k.(announcers := k.announcers[a := Waiting(seen)])
  }

  /** The watch has changed since the announcer subscribed. */
  predicate CanResume(k: State, a: nat) {
    a in k.announcers && k.announcers[a].Waiting? && |k.published| != k.announcers[a].seen
  }

  ghost predicate AnnouncerStep(k: State, after: State, a: nat) {
    && a in k.announcers
    && match k.announcers[a]
       case Pacing => after == Begin(k, a)
       case Looking(_) =>
         || (exists public :: after == Observe(k, a, public))
         || after == k.(announcers := k.announcers[a := Pacing])
       case Checking(_, _) => after == Check(k, a)
       case Announcing => after == k.(announcers := k.announcers[a := Pacing])
       case Waiting(_) => CanResume(k, a) && after == k.(announcers := k.announcers[a := Pacing])
  }

  // ----- The environment -----

  function Tick(k: State, t: nat): State {
    k.(clock := k.clock + t)
  }

  function SetActive(k: State, active: bool): State {
    k.(active := active, activeChanges := k.activeChanges + 1)
  }

  function SetServers(k: State, servers: set<SocketAddr>): State {
    k.(servers := servers, serverChanges := k.serverChanges + 1)
  }

  /** Whoever runs the announcers sets `active`, starts some of them and drops others. */
  ghost predicate Manages(k: State, after: State, active: bool) {
    && after == (if active == k.active then k else SetActive(k, active)).(announcers := after.announcers)
    && (forall a :: a in after.announcers ==>
          after.announcers[a] == if a in k.announcers then k.announcers[a] else Pacing)
  }

  ghost predicate WorldStep(k: State, after: State) {
    || (exists t :: after == Tick(k, t))
    || (exists active :: after == SetActive(k, active))
    || (exists servers :: after == SetServers(k, servers))
    || (exists active :: Manages(k, after, active))
  }

  ghost predicate Step(k: State, after: State) {
    KeeperStep(k, after) || WorldStep(k, after) || exists a :: AnnouncerStep(k, after, a)
  }

  ghost predicate StepAt(run: seq<State>, i: nat) {
    i + 1 < |run| && Step(run[i], run[i + 1])
  }

  ghost predicate Run(run: seq<State>) {
    && run != [] && Initial(run[0])
    && (forall i {:trigger StepAt(run, i)} :: 0 <= i < |run| - 1 ==> StepAt(run, i))
  }

  // ----- The invariant -----

  ghost predicate AttemptOk(x: Attempt) {
    && Due(x.record, x.public, x.servers, x.now)
    && (x.lastFailure.Some? ==> x.now >= x.lastFailure.value + RETRY)
    && (x.active || x.switched)
  }

  ghost predicate AnnouncementOk(k: State, x: Announcement) {
    && x.record in k.published
    && x.record.public == x.public
    && (x.now <= x.record.at || x.now - x.record.at < INDEX_TTL)
    && (x.record.servers == x.known || x.record.servers * x.known != {})
    && (x.caughtUp ==> x.known == x.servers)
  }

  /** A failure is forgotten only once its backoff is over. */
  ghost predicate BackoffOk(k: State) {
    && (k.failed.Some? ==> k.lastFailure == k.failed)
    && (k.failed.None? && k.lastFailure.Some? ==> k.clock >= k.lastFailure.value + RETRY)
    && (k.lastFailure.Some? ==> k.lastFailure.value <= k.clock)
    && (k.place.Publishing? ==>
          && !BackingOff(k.failed, k.place.now) && k.place.now <= k.clock
          && (k.failed.Some? ==> k.failed.value <= k.place.now))
  }

  /** What the loop saw of the watches, and that it never sleeps without the timer its state calls for. */
  ghost predicate LoopOk(k: State) {
    && (k.place.Addressing? && k.activeSeen == k.activeChanges ==> k.active)
    && (k.place.Inactive? && k.activeSeen == k.activeChanges ==> !k.active)
    && k.activeSeen <= k.activeChanges
    && (CaughtUp(k) ==> k.known == k.servers)
    && (k.serversSeen.Some? ==> k.serversSeen.value <= k.serverChanges)
    && (k.place.Publishing? ==> k.place.servers == k.known)
    && (k.place.Asleep? ==>
          && (k.failed.Some? || k.published != [])
          && k.place.next == NextWake(k.failed, k.Record()))
  }

  ghost predicate HistoryOk(k: State) {
    && (forall x {:trigger AttemptOk(x)} :: x in k.attempts ==> AttemptOk(x))
    && (forall x {:trigger AnnouncementOk(k, x)} :: x in k.announcements ==> AnnouncementOk(k, x))
  }

  ghost predicate AnnouncerOk(k: State, a: Announcer) {
    && (a.Looking? || a.Checking? || a.Waiting? ==> a.seen <= |k.published|)
    && (a.Announcing? ==> k.published != [])
  }

  ghost predicate AnnouncersOk(k: State) {
    forall a {:trigger AnnouncerOk(k, k.announcers[a])} :: a in k.announcers ==> AnnouncerOk(k, k.announcers[a])
  }

  ghost predicate Inv(k: State) {
    BackoffOk(k) && LoopOk(k) && HistoryOk(k) && AnnouncersOk(k)
  }

  lemma InitialInv(k: State)
    requires Initial(k)
    ensures Inv(k)
  {
  }

  /** Records and announcements that are there stay there. */
  lemma HistoryStays(k: State, after: State)
    requires HistoryOk(k) && k.published <= after.published
    requires after.attempts == k.attempts && after.announcements == k.announcements
    ensures HistoryOk(after)
  {
    forall x | x in k.announcements ensures AnnouncementOk(after, x) {
      assert AnnouncementOk(k, x);
    }
    forall x | x in k.attempts ensures AttemptOk(x) {
      assert AttemptOk(x);
    }
  }

  lemma AnnouncersStay(k: State, after: State)
    requires AnnouncersOk(k) && k.published <= after.published
    requires forall a :: a in after.announcers && (a !in k.announcers || after.announcers[a] != k.announcers[a]) ==>
               AnnouncerOk(after, after.announcers[a])
    ensures AnnouncersOk(after)
  {
    forall a | a in after.announcers ensures AnnouncerOk(after, after.announcers[a]) {
      if a in k.announcers {
        assert AnnouncerOk(k, k.announcers[a]);
      }
    }
  }

  lemma AddressedKeepsHistory(k: State, public: Public)
    requires BackoffOk(k) && LoopOk(k) && HistoryOk(k) && k.place.Addressing?
    ensures HistoryOk(Addressed(k, public))
  {
    var after := Addressed(k, public);
    HistoryStays(k, after.(attempts := k.attempts));
    assert forall x :: x in k.attempts ==> AttemptOk(x);
    forall x | x in after.announcements ensures AnnouncementOk(after, x) {
      assert AnnouncementOk(k, x);
    }
  }

  lemma AddressedKeepsLoop(k: State, public: Public)
    requires BackoffOk(k) && LoopOk(k) && k.place.Addressing?
    ensures BackoffOk(Addressed(k, public)) && LoopOk(Addressed(k, public))
  {
  }

  lemma AddressedKeeps(k: State, public: Public)
    requires Inv(k) && k.place.Addressing?
    ensures Inv(Addressed(k, public))
  {
    AddressedKeepsHistory(k, public);
    AddressedKeepsLoop(k, public);
    AnnouncersStay(k, Addressed(k, public));
  }

  /** A step that leaves history and announcers alone, or only adds a record. */
  lemma QuietStepKeeps(k: State, after: State)
    requires Inv(k) && k.published <= after.published
    requires after.attempts == k.attempts && after.announcements == k.announcements
    requires after.announcers == k.announcers
    requires BackoffOk(after) && LoopOk(after)
    ensures Inv(after)
  {
    HistoryStays(k, after);
    AnnouncersStay(k, after);
  }

  lemma PublishedKeeps(k: State, mapping: SocketAddr)
    requires Inv(k) && k.place.Publishing?
    ensures Inv(PublishedAs(k, mapping))
  {
    QuietStepKeeps(k, PublishedAs(k, mapping));
  }

  lemma FailedKeeps(k: State)
    requires Inv(k) && k.place.Publishing?
    ensures Inv(PublishFailed(k))
  {
    QuietStepKeeps(k, PublishFailed(k));
  }

  lemma WakesKeeps(k: State, after: State)
    requires Inv(k) && Wakes(k, after)
    ensures Inv(after)
  {
    QuietStepKeeps(k, after);
  }

  lemma KeeperStepKeeps(k: State, after: State)
    requires Inv(k) && KeeperStep(k, after)
    ensures Inv(after)
  {
    match k.place
    case Inactive => QuietStepKeeps(k, after);
    case Addressing =>
      var public :| after == Addressed(k, public);
      AddressedKeeps(k, public);
    case Publishing(_, _, _) =>
      if after == PublishFailed(k) {
        FailedKeeps(k);
      } else {
        var mapping :| after == PublishedAs(k, mapping);
        PublishedKeeps(k, mapping);
      }
    case Asleep(_) => WakesKeeps(k, after);
  }

  lemma TickKeeps(k: State, t: nat)
    requires Inv(k)
    ensures Inv(Tick(k, t))
  {
    QuietStepKeeps(k, Tick(k, t));
  }

  lemma SetActiveKeeps(k: State, active: bool)
    requires Inv(k)
    ensures Inv(SetActive(k, active))
  {
    QuietStepKeeps(k, SetActive(k, active));
  }

  lemma SetServersKeeps(k: State, servers: set<SocketAddr>)
    requires Inv(k)
    ensures Inv(SetServers(k, servers))
  {
    QuietStepKeeps(k, SetServers(k, servers));
  }

  /** Announcers may come and go. */
  lemma RegroupKeeps(k: State, after: State)
    requires Inv(k) && after == k.(announcers := after.announcers)
    requires forall a :: a in after.announcers ==>
               after.announcers[a] == if a in k.announcers then k.announcers[a] else Pacing
    ensures Inv(after)
  {
    HistoryStays(k, after);
    AnnouncersStay(k, after);
  }

  lemma ManagesKeeps(k: State, after: State, active: bool)
    requires Inv(k) && Manages(k, after, active)
    ensures Inv(after)
  {
    SetActiveKeeps(k, active);
    RegroupKeeps(if active == k.active then k else SetActive(k, active), after);
  }

  lemma WorldStepKeeps(k: State, after: State)
    requires Inv(k) && WorldStep(k, after)
    ensures Inv(after)
  {
    if t :| after == Tick(k, t) {
      TickKeeps(k, t);
    } else if active :| after == SetActive(k, active) {
      SetActiveKeeps(k, active);
    } else if servers :| after == SetServers(k, servers) {
      SetServersKeeps(k, servers);
    } else {
      var active :| Manages(k, after, active);
      ManagesKeeps(k, after, active);
    }
  }

  lemma AnnouncedKeeps(k: State, after: State, x: Announcement)
    requires HistoryOk(k) && AnnouncementOk(after, x)
    requires after.published == k.published && after.attempts == k.attempts
    requires after.announcements == k.announcements + [x]
    ensures HistoryOk(after)
  {
    HistoryStays(k, after.(announcements := k.announcements));
    forall y | y in after.announcements ensures AnnouncementOk(after, y) {
      if y in k.announcements {
        assert AnnouncementOk(k, y);
      }
    }
  }

  lemma CheckKeepsHistory(k: State, a: nat)
    requires HistoryOk(k) && (CaughtUp(k) ==> k.known == k.servers)
    requires a in k.announcers && k.announcers[a].Checking?
    ensures HistoryOk(Check(k, a))
  {
    var after := Check(k, a);
    if after.announcements == k.announcements {
      HistoryStays(k, after);
    } else {
      AnnouncedKeeps(k, after, after.announcements[|k.announcements|]);
    }
  }

  /** A step of an announcer leaves the keeper's own state alone. */
  lemma LoopStays(k: State, after: State)
    requires BackoffOk(k) && LoopOk(k)
    requires after == k.(announcers := after.announcers, announcements := after.announcements, permit := after.permit)
    ensures BackoffOk(after) && LoopOk(after)
  {
    assert after.Record() == k.Record();
  }

  lemma CheckKeepsAnnouncers(k: State, a: nat)
    requires AnnouncersOk(k) && a in k.announcers && k.announcers[a].Checking?
    ensures AnnouncersOk(Check(k, a))
  {
    assert AnnouncerOk(k, k.announcers[a]);
    AnnouncersStay(k, Check(k, a));
  }

  lemma CheckKeeps(k: State, a: nat)
    requires Inv(k) && a in k.announcers && k.announcers[a].Checking?
    ensures Inv(Check(k, a))
  {
    CheckKeepsHistory(k, a);
    CheckKeepsAnnouncers(k, a);
    LoopStays(k, Check(k, a));
  }

  lemma AnnouncerStepKeeps(k: State, after: State, a: nat)
    requires Inv(k) && AnnouncerStep(k, after, a)
    ensures Inv(after)
  {
    assert AnnouncerOk(k, k.announcers[a]);
    if k.announcers[a].Checking? {
      CheckKeeps(k, a);
    } else {
      LoopStays(k, after);
      HistoryStays(k, after);
      AnnouncersStay(k, after);
    }
  }

  lemma StepKeeps(k: State, after: State)
    requires Inv(k) && Step(k, after)
    ensures Inv(after)
  {
    if KeeperStep(k, after) {
      KeeperStepKeeps(k, after);
    } else if WorldStep(k, after) {
      WorldStepKeeps(k, after);
    } else {
      var a :| AnnouncerStep(k, after, a);
      AnnouncerStepKeeps(k, after, a);
    }
  }

  lemma {:induction false} RunKeeps(run: seq<State>, i: nat)
    requires Run(run) && i < |run|
    ensures Inv(run[i])
  {
    if i == 0 {
      InitialInv(run[0]);
    } else {
      RunKeeps(run, i - 1);
      assert StepAt(run, i - 1);
      StepKeeps(run[i - 1], run[i]);
    }
  }

  // ----- What the keeper promises -----

  /**
   Every attempt in every run was made for a record that was due, never within
   RETRY of the last failure whatever woke the keeper, and while active unless
   `active` was switched after the loop last read it.
   */
  lemma AttemptsAreDue(run: seq<State>, i: nat, x: Attempt)
    requires Run(run) && i < |run| && x in run[i].attempts
    ensures Due(x.record, x.public, x.servers, x.now)
    ensures x.lastFailure.Some? ==> x.now >= x.lastFailure.value + RETRY
    ensures x.active || x.switched
  {
    RunKeeps(run, i);
    assert AttemptOk(x);
  }

  /**
   What is due is attempted: once the address is known the keeper publishes if
   and only if the last failure is RETRY ago, and it has no record, or one on
   other servers, for another address, or INDEX_REFRESH old. Otherwise it sleeps.
   */
  lemma AttemptsExactlyWhenDue(run: seq<State>, i: nat, public: Public)
    requires Run(run) && i < |run| && run[i].place.Addressing?
    ensures var (k, after) := (run[i], Addressed(run[i], public));
            && (after.place.Publishing? <==>
                  && (k.lastFailure.Some? ==> k.clock >= k.lastFailure.value + RETRY)
                  && (|| k.published == []
                      || k.published[|k.published| - 1].servers != k.servers
                      || k.published[|k.published| - 1].public != public
                      || k.clock >= k.published[|k.published| - 1].at + INDEX_REFRESH))
            && (after.place == Publishing(public, k.servers, k.clock) || after.place.Asleep?)
  {
    RunKeeps(run, i);
  }

  /** A record that readers on the servers in use find under the address. */
  predicate Current(k: State, public: Public) {
    && k.published != []
    && k.published[|k.published| - 1].public == public
    && k.published[|k.published| - 1].servers == k.known
  }

  /**
   A keeper that falls asleep without a failure on its mind has a record for the
   address just observed, on the servers just read, and not yet due for refresh
   or just stored.
   */
  lemma AsleepMeansStored(run: seq<State>, i: nat, public: Public)
    requires Run(run) && i + 1 < |run| && run[i + 1].place.Asleep? && run[i + 1].failed.None?
    requires || (run[i].place.Addressing? && run[i + 1] == Addressed(run[i], public))
             || (run[i].place.Publishing? && KeeperStep(run[i], run[i + 1]) && run[i].place.public == public)
    ensures Current(run[i + 1], public)
    ensures run[i].place.Addressing? ==>
              && run[i + 1].known == run[i].servers
              && run[i].clock < run[i + 1].published[|run[i + 1].published| - 1].at + INDEX_REFRESH
    ensures run[i].place.Publishing? ==>
              && run[i + 1].published == run[i].published + [run[i + 1].published[|run[i].published|]]
              && run[i + 1].published[|run[i].published|].at == run[i].place.now
  {
    RunKeeps(run, i);
  }

  /** A sleeping keeper can wake for new servers, for being switched, and for a report of another address. */
  lemma ChangesWake(run: seq<State>, i: nat, servers: set<SocketAddr>, active: bool, a: nat, public: Public)
    requires Run(run) && i < |run| && run[i].place.Asleep?
    ensures CanWake(SetServers(run[i], servers)) && CanWake(SetActive(run[i], active))
    ensures a in run[i].announcers && run[i].announcers[a].Looking? && !(
              run[i].published != [] && run[i].published[|run[i].published| - 1].public == public) ==>
                CanWake(Observe(run[i], a, public))
  {
    RunKeeps(run, i);
  }

  /** A keeper that should be active never waits to be switched on: the switch is there to be read. */
  lemma ActiveIsNoticed(run: seq<State>, i: nat)
    requires Run(run) && i < |run| && run[i].active && run[i].place.Inactive?
    ensures KeeperStep(run[i], AtTop(run[i])) && AtTop(run[i]).place.Addressing?
  {
    RunKeeps(run, i);
  }

  /** The exception is real: switched off while the address is being looked up, the keeper still publishes. */
  lemma AttemptWhileInactive(k: State, public: Public)
    requires Inv(k) && k.place.Addressing? && k.Record().None? && k.failed.None?
    ensures var off := SetActive(k, false);
            var after := Addressed(off, public);
            && WorldStep(k, off) && KeeperStep(off, after)
            && |after.attempts| == |k.attempts| + 1 && !after.attempts[|k.attempts|].active
  {
    var off := SetActive(k, false);
    assert WorldStep(k, off);
    assert off.Record() == k.Record();
  }

  /** A sleeping keeper always has a timer, which follows from its failure or else from its record. */
  lemma NeverSleepsWithoutTimer(run: seq<State>, i: nat)
    requires Run(run) && i < |run| && run[i].place.Asleep?
    ensures run[i].place.next.Some?
    ensures run[i].place.next == NextWake(run[i].failed, run[i].Record())
  {
    RunKeeps(run, i);
  }

  /** The keeper remembers a failure for a record that is not due any more, past its backoff. */
  predicate StaleFailure(k: State, public: Public) {
    && k.failed.Some? && k.failed.value + RETRY <= k.clock
    && !Due(k.Record(), public, k.servers, k.clock)
  }

  /**
   When the keeper goes to sleep, its timer lies strictly in the future with two
   exceptions, and in these it never does: an old failure is remembered for a
   record that is no longer due, or storing the record took INDEX_REFRESH.
   */
  lemma TimerIsInTheFuture(run: seq<State>, i: nat)
    requires Run(run) && i + 1 < |run| && KeeperStep(run[i], run[i + 1]) && run[i + 1].place.Asleep?
    ensures var (k, after) := (run[i], run[i + 1]);
            && after.clock == k.clock && after.place.next.Some?
            && (k.place.Addressing? ==>
                  && (exists public :: after == Addressed(k, public))
                  && (forall public :: after == Addressed(k, public) ==>
                        (after.place.next.value > after.clock <==> !StaleFailure(k, public))))
            && (k.place.Publishing? ==>
                  (after.place.next.value > after.clock <==>
                   after == PublishFailed(k) || k.clock < k.place.now + INDEX_REFRESH))
  {
    RunKeeps(run, i);
    RunKeeps(run, i + 1);
  }

  /**
   With a stale failure the keeper spins: asleep on a timer that has passed, it
   wakes, looks at the address and is asleep in the very same state, with no
   time gone by.
   */
  lemma StaleFailureSpins(k: State, public: Public)
    requires Inv(k) && k.place.Asleep? && CaughtUp(k) && k.active && k.activeSeen == k.activeChanges
    requires StaleFailure(k, public)
    ensures var woken := AtTop(k);
            Wakes(k, woken) && woken.place.Addressing? && Addressed(woken, public) == k
  {
    assert AtTop(k).Record() == k.Record();
  }

  /** Such a state is reached: fail while the servers differ, then let them change back. */
  lemma StaleFailureIsReachable(here: SocketAddr, s1: SocketAddr, s2: SocketAddr) returns (run: seq<State>)
    requires s1 != s2
    ensures Run(run)
    ensures var k := run[|run| - 1];
            && k.place.Asleep? && CaughtUp(k) && k.active && k.activeSeen == k.activeChanges
            && StaleFailure(k, Some(here))
  {
    var public := Some(here);
    var k0 := AtTop(State(0, true, 0, 0, {s1}, 0, None, {}, false, Inactive, None, [], map[], None, [], []));
    assert Initial(k0);
    run := [k0];
    var k1 := Addressed(k0, public);
    assert KeeperStep(k0, k1);
    run := Extend(run, k1);
    var k2 := PublishedAs(k1, here);
    assert KeeperStep(k1, k2);
    run := Extend(run, k2);
    run := ChangeServers(run, {s2}, public);
    var k5 := run[|run| - 1];
    assert s2 in {s2} && s2 !in {s1};
    var k6 := PublishFailed(k5);
    assert KeeperStep(k5, k6);
    run := Extend(run, k6);
    run := ChangeServers(run, {s1}, public);
    var k9 := run[|run| - 1];
    assert WorldStep(k9, Tick(k9, RETRY));
    run := Extend(run, Tick(k9, RETRY));
  }

  lemma Extend(run: seq<State>, after: State) returns (longer: seq<State>)
    requires Run(run) && Step(run[|run| - 1], after)
    ensures Run(longer) && longer == run + [after]
  {
    longer := run + [after];
    forall i | 0 <= i < |longer| - 1 ensures StepAt(longer, i) {
      if i < |run| - 1 {
        assert StepAt(run, i);
      }
    }
  }

  /** The servers change while the keeper sleeps; it wakes for that and looks at them. */
  lemma ChangeServers(run: seq<State>, servers: set<SocketAddr>, public: Public) returns (longer: seq<State>)
    requires Run(run) && run[|run| - 1].place.Asleep? && CaughtUp(run[|run| - 1]) && run[|run| - 1].active
    ensures Run(longer)
    ensures var k := SetServers(run[|run| - 1], servers);
            longer[|longer| - 1] == Addressed(AtTop(k.(serversSeen := Some(k.serverChanges))), public)
  {
    var k := SetServers(run[|run| - 1], servers);
    assert WorldStep(run[|run| - 1], k);
    longer := Extend(run, k);
    var woken := AtTop(k.(serversSeen := Some(k.serverChanges)));
    assert Wakes(k, woken);
    longer := Extend(longer, woken);
    assert KeeperStep(woken, Addressed(woken, public));
    longer := Extend(longer, Addressed(woken, public));
  }

  // ----- What announcers may rely on -----

  /**
   Every announcement was made on a record that a successful publication left
   for the address just observed, less than INDEX_TTL old, on servers equal to
   or overlapping those the keeper last read, which are the ones in use unless
   they changed since.
   */
  lemma AnnouncementsAreIndexed(run: seq<State>, i: nat, x: Announcement)
    requires Run(run) && i < |run| && x in run[i].announcements
    ensures x.record in run[i].published && x.record.public == x.public
    ensures x.now < x.record.at + INDEX_TTL
    ensures x.record.servers == x.known || x.record.servers * x.known != {}
    ensures x.caughtUp ==> x.record.servers == x.servers || x.record.servers * x.servers != {}
  {
    RunKeeps(run, i);
    assert AnnouncementOk(run[i], x);
  }

  /**
   And whoever may announce does: an announcer that checks goes on to announce
   if and only if the keeper's record is for the address it observed, shares a
   server with those last read or is on the same, and is within INDEX_TTL.
   */
  lemma AnnouncesExactlyWhenLive(k: State, a: nat)
    requires a in k.announcers && k.announcers[a].Checking?
    ensures var after := Check(k, a);
            && (after.announcers[a].Announcing? <==>
                  && k.published != []
                  && var r := k.published[|k.published| - 1];
                     && r.public == k.announcers[a].public
                     && (r.servers == k.known || exists s :: s in r.servers && s in k.known)
                     && k.clock < r.at + INDEX_TTL)
            && (!after.announcers[a].Announcing? ==> after.announcers[a] == Waiting(k.announcers[a].seen))
            && |after.announcements| == |k.announcements| + if after.announcers[a].Announcing? then 1 else 0
  {
    if k.published != [] {
      var r := k.published[|k.published| - 1];
      assert r.servers * k.known != {} <==> exists s :: s in r.servers * k.known;
      assert forall s :: s in r.servers * k.known <==> s in r.servers && s in k.known;
    }
  }

  /** That exception is real as well: a change the keeper has not read yet does not hold an announcement back. */
  lemma AnnouncedOnFormerServers(k: State, a: nat, servers: set<SocketAddr>)
    requires a in k.announcers && k.announcers[a].Checking? && k.Record().Some?
    requires k.Record().value.IsLive(k.announcers[a].public, k.known, k.clock)
    requires k.Record().value.servers != {} && k.Record().value.servers !! servers
    requires k.serversSeen.Some? ==> k.serversSeen.value <= k.serverChanges
    ensures var changed := SetServers(k, servers);
            var after := Check(changed, a);
            && WorldStep(k, changed) && AnnouncerStep(changed, after, a)
            && |after.announcements| == |k.announcements| + 1
            && var x := after.announcements[|k.announcements|];
               x.record.servers != x.servers && x.record.servers * x.servers == {} && !x.caughtUp
  {
    var changed := SetServers(k, servers);
    assert WorldStep(k, changed);
    assert changed.Record() == k.Record();
    assert k.Record().value.servers != servers;
  }

  /** Between its subscription and its next round. */
  predicate InCheck(x: Announcer) {
    x.Looking? || x.Checking? || x.Waiting?
  }

  lemma KeeperKeepsHistory(k: State, after: State)
    requires KeeperStep(k, after)
    ensures k.published <= after.published && after.announcers == k.announcers && after.clock == k.clock
    ensures after.announcements == k.announcements
  {
  }

  lemma WorldKeepsAnnouncer(k: State, after: State, a: nat)
    requires WorldStep(k, after) && a in k.announcers && a in after.announcers
    ensures after.published == k.published && after.announcers[a] == k.announcers[a]
  {
  }

  lemma AnnouncerKeepsSeen(k: State, after: State, a: nat, b: nat)
    requires AnnouncerStep(k, after, b) && a in k.announcers && InCheck(k.announcers[a])
    ensures after.published == k.published && a in after.announcers
    ensures InCheck(after.announcers[a]) ==> after.announcers[a].seen == k.announcers[a].seen
  {
  }

  lemma StepKeepsSeen(k: State, after: State, a: nat)
    requires Step(k, after) && a in k.announcers && InCheck(k.announcers[a]) && a in after.announcers
    ensures |k.published| <= |after.published|
    ensures InCheck(after.announcers[a]) ==> after.announcers[a].seen == k.announcers[a].seen
  {
    if KeeperStep(k, after) {
      KeeperKeepsHistory(k, after);
    } else if WorldStep(k, after) {
      WorldKeepsAnnouncer(k, after, a);
    } else {
      var b :| AnnouncerStep(k, after, b);
      AnnouncerKeepsSeen(k, after, a, b);
    }
  }

  ghost predicate InCheckThroughout(run: seq<State>, i: nat, j: nat, a: nat) {
    forall n {:trigger run[n]} :: i <= n <= j < |run| ==> a in run[n].announcers && InCheck(run[n].announcers[a])
  }

  lemma {:induction false} SeenIsKept(run: seq<State>, i: nat, j: nat, a: nat)
    requires Run(run) && i <= j < |run| && InCheckThroughout(run, i, j, a)
    ensures a in run[i].announcers && InCheck(run[i].announcers[a])
    ensures a in run[j].announcers && InCheck(run[j].announcers[a])
    ensures run[j].announcers[a].seen == run[i].announcers[a].seen
    ensures |run[i].published| <= |run[j].published|
    decreases j
  {
    if i < j {
      SeenIsKept(run, i, j - 1, a);
      assert StepAt(run, j - 1);
      StepKeepsSeen(run[j - 1], run[j], a);
    }
  }

  /**
   No publication is missed: one that completes at any time after an announcer
   subscribed lets its wait end.
   */
  lemma NoPublicationIsMissed(run: seq<State>, i: nat, j: nat, a: nat)
    requires Run(run) && i < j < |run|
    requires a in run[i].announcers && run[i].announcers[a].Pacing? && run[i + 1] == Begin(run[i], a)
    requires InCheckThroughout(run, i + 1, j, a)
    requires a in run[j].announcers && run[j].announcers[a].Waiting?
    ensures CanResume(run[j], a) <==> |run[j].published| > |run[i].published|
  {
    SeenIsKept(run, i + 1, j, a);
  }

  // ----- The fields the steps change -----

  /** The keeper as the source updates it; each method is the code between two awaits and refines its step. */
  class IndexKeeper {
    var record: Option<Record>
    var servers: set<SocketAddr>
    var reported: bool
    /** A variable of the loop in `run`. */
    var failed: Option<nat>

    ghost predicate Shows(k: State)
      reads this
    {
      record == k.Record() && servers == k.known && reported == k.permit && failed == k.failed
    }

    constructor ()
      ensures forall k :: Initial(k) && k.known == {} && !k.permit ==> Shows(k)
    {
      record, servers, reported, failed := None, {}, false, None;
    }

    method Report(public: Public, ghost k: State, ghost a: nat)
      requires Shows(k) && a in k.announcers && k.announcers[a].Looking?
      modifies this`reported
      ensures Shows(Observe(k, a, public))
    {
      if record.None? || record.value.public != public {
        reported := true;
      }
    }

    /** What `announce_indexed` does with the address it observed. */
    method MayAnnounce(public: Public, now: nat, ghost k: State, ghost a: nat) returns (live: bool)
      requires Shows(k) && a in k.announcers && k.announcers[a].Checking?
      requires public == k.announcers[a].public && now == k.clock
      ensures Shows(Check(k, a))
      ensures live <==> Check(k, a).announcers[a].Announcing?
    {
      live := record.Some? && record.value.IsLive(public, servers, now);
    }

    function Deadline(): Option<nat>
      reads this
    {
      if failed.Some? then Some(failed.value + RETRY)
      else if record.Some? then Some(record.value.at + INDEX_REFRESH) else None
    }

    /** From the observed address to the publication, or to the select with its timer. */
    method Look(public: Public, current: set<SocketAddr>, now: nat, ghost k: State)
      returns (publish: bool, next: Option<nat>)
      requires Shows(k) && k.place.Addressing? && current == k.servers && now == k.clock
      modifies this`servers
      ensures Shows(Addressed(k, public))
      ensures Addressed(k, public).place == if publish then Publishing(public, current, now) else Asleep(next)
    {
      servers := current;
      var due := record.None? || record.value.servers != current || record.value.public != public ||
                 now >= record.value.at + INDEX_REFRESH;
      var backingOff := failed.Some? && now < failed.value + RETRY;
      publish := due && !backingOff;
      next := Deadline();
    }

    method Succeed(
        public: Public, mapping: SocketAddr, started: nat, current: set<SocketAddr>, ghost k: State)
      returns (next: Option<nat>)
      requires Shows(k) && k.place == Publishing(public, current, started)
      modifies this`record, this`failed
      ensures Shows(PublishedAs(k, mapping)) && PublishedAs(k, mapping).place == Asleep(next)
    {
      record := Some(Record(public, mapping, started, current));
      failed := None;
      next := Deadline();
    }

    method Fail(now: nat, ghost k: State) returns (next: Option<nat>)
      requires Shows(k) && k.place.Publishing? && now == k.clock
      modifies this`failed
      ensures Shows(PublishFailed(k)) && PublishFailed(k).place == Asleep(next)
    {
      failed := Some(now);
      next := Deadline();
    }
  }
}
