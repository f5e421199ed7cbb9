/**
 The publisher: one announcement worker per registered hash, paced and bounded
 across all of them, and the condition under which everything counts as
 published.

 A worker that is no longer wanted is aborted; until it is gone it may still
 take steps, so it stays among the workers. Instants are in milliseconds.
 */
module Publisher {
  import opened Base

  const ANNOUNCE_SPACING: nat := 250
  const PERMITS: nat := 3

  type Hash = Bytes

  /** Where a worker is: `Pacing` holds the pacing lock, `Announcing` is between pacing and release. */
  datatype Place =
    | Resting
    | AwaitingPermit
    | AwaitingTurn
    | Pacing(until: nat)
    | Announcing
    | AwaitingRecord
  {
    predicate HasPermit() {
      AwaitingTurn? || Pacing? || Announcing?
    }
  }

  datatype Worker = Worker(hash: Hash, place: Place)

  /** A time `published` was set: the hashes registered then, and the socket it was set to. */
  datatype Event = Event(snapshot: set<Hash>, value: Option<SocketAddr>)

  /**
   `workers` are all that still run, `current` the ones the loop keeps. `sent`
   are the announcements reported to the loop. `mapping` is the socket of the
   keeper's record. `starts`, `succeeded` and `events` only record what happened.
   */
  datatype State = State(
    clock: nat,
    entries: set<Hash>,
    workers: map<nat, Worker>,
    current: map<Hash, nat>,
    nextStart: nat,
    sent: multiset<Hash>,
    announced: set<Hash>,
    mapping: Option<SocketAddr>,
    published: Option<SocketAddr>,
    starts: seq<nat>,
    succeeded: set<Hash>,
    events: seq<Event>)

  ghost predicate Initial(s: State) {
    && s.workers == map[] && s.current == map[] && s.nextStart == s.clock && s.sent == multiset{}
    && s.announced == {} && s.mapping == None && s.published == None
    && s.starts == [] && s.succeeded == {} && s.events == []
  }

  // ----- Workers -----

  function Move(s: State, id: nat, place: Place): State
    requires id in s.workers
  {
    s.(workers := s.workers[id := s.workers[id].(place := place)])
  }

  function WithPermit(workers: map<nat, Worker>): set<nat> {
    set id | id in workers && workers[id].place.HasPermit()
  }

  ghost predicate LockFree(s: State) {
    forall id :: id in s.workers ==> !s.workers[id].place.Pacing?
  }

  /** The announcement succeeded; `Announcers` proves that there is a record then. */
  function Succeeded(s: State, id: nat): State
    requires id in s.workers
  {
    var hash := s.workers[id].hash;
    Move(s, id, Resting).(sent := s.sent + multiset{hash}, succeeded := s.succeeded + {hash})
  }

  /** The end of the wait for a turn: the next one starts `ANNOUNCE_SPACING` later at the earliest. */
  function Start(s: State, id: nat): State
    requires id in s.workers
  {
    Move(s, id, Announcing).(starts := s.starts + [s.clock], nextStart := s.clock + ANNOUNCE_SPACING)
  }

  /** An aborted worker is gone, and with it its permit and the pacing lock. */
  function Gone(s: State, id: nat): State {
    s.(workers := s.workers - {id}, current := map h | h in s.current && s.current[h] != id :: s.current[h])
  }

  ghost predicate WorkerStep(s: State, after: State, id: nat) {
    && id in s.workers
    && (|| after == Gone(s, id)
        || match s.workers[id].place
           case Resting => after == Move(s, id, AwaitingPermit)
           case AwaitingPermit => |WithPermit(s.workers)| < PERMITS && after == Move(s, id, AwaitingTurn)
           case AwaitingTurn => LockFree(s) && after == Move(s, id, Pacing(s.nextStart))
           case Pacing(until) => s.clock >= until && after == Start(s, id)
           case Announcing =>
             || after == Move(s, id, Resting)
             || after == Move(s, id, AwaitingRecord)
             || (s.mapping.Some? && after == Succeeded(s, id))
           case AwaitingRecord => after == Move(s, id, AwaitingPermit))
  }

  // ----- The loop -----

  /** One turn of the loop after its select: keep the wanted workers, and publish once all are announced. */
  ghost predicate Turn(s: State, after: State) {
    && after.current.Keys == s.entries
    && (forall h :: h in s.entries && h in s.current ==> after.current[h] == s.current[h])
    && (forall id :: id in s.workers ==> id in after.workers && after.workers[id] == s.workers[id])
    && (forall id :: id in after.workers && id !in s.workers ==> after.workers[id].place == Resting)
    && (forall h :: h in s.entries && h !in s.current ==>
          after.current[h] in after.workers && after.workers[after.current[h]] == Worker(h, Resting))
    && var announced := s.announced * s.entries;
       var ready := s.entries != {} && s.entries <= announced;
       after == s.(
         workers := after.workers,
         current := after.current,
         announced := announced,
         published := if ready then s.mapping else s.published,
         events := if ready then s.events + [Event(s.entries, s.mapping)] else s.events)
  }

  /** The loop took the report of an announcement from its channel. */
  function Heard(s: State, h: Hash): State {
    s.(sent := s.sent - multiset{h}, announced := s.announced + {h})
  }

  ghost predicate LoopStep(s: State, after: State) {
    || Turn(s, after)
    || (exists h :: h in s.sent && Turn(Heard(s, h), after))
  }

  /** Workers that run keep running, new ones rest, and what is published is the keeper's record. */
  ghost predicate Continues(s: State, after: State) {
    && after.clock == s.clock && after.mapping == s.mapping && after.succeeded == s.succeeded
    && (forall id :: id in s.workers ==> id in after.workers && after.workers[id] == s.workers[id])
    && (forall id :: id in after.workers && id !in s.workers ==> after.workers[id].place == Resting)
    && (forall e :: e in after.events ==> e in s.events || e.value == s.mapping)
  }

  lemma TurnContinues(s: State, after: State)
    requires Turn(s, after)
    ensures Continues(s, after)
  {
  }

  lemma LoopContinues(s: State, after: State)
    requires LoopStep(s, after)
    ensures Continues(s, after)
  {
    if Turn(s, after) {
      TurnContinues(s, after);
    } else {
      var h :| h in s.sent && Turn(Heard(s, h), after);
      TurnContinues(Heard(s, h), after);
    }
  }

  // ----- The rest -----

  function SetEntries(s: State, entries: set<Hash>): State {
    s.(entries := entries)
  }

  function SetMapping(s: State, mapping: SocketAddr): State {
    s.(mapping := Some(mapping))
  }

  function Tick(s: State, t: nat): State {
    s.(clock := s.clock + t)
  }

  ghost predicate WorldStep(s: State, after: State) {
    || (exists entries :: after == SetEntries(s, entries))
    || (exists mapping :: after == SetMapping(s, mapping))
    || (exists t :: after == Tick(s, t))
  }

  ghost predicate Step(s: State, after: State) {
    LoopStep(s, after) || WorldStep(s, after) || exists id :: WorkerStep(s, after, id)
  }

  ghost predicate StepAt(run: seq<State>, i: nat) {
    i + 1 < |run| && Step(run[i], run[i + 1])
  }

  ghost predicate Run(run: seq<State>) {
    && run != [] && Initial(run[0])
    && (forall i {:trigger StepAt(run, i)} :: 0 <= i < |run| - 1 ==> StepAt(run, i))
  }

  // ----- Pacing -----

  ghost predicate PermitsOk(s: State) {
    |WithPermit(s.workers)| <= PERMITS
  }

  /** At most one worker waits for its turn to start, on the current instant, and starts are spaced. */
  ghost predicate PacingOk(s: State) {
    && (forall id :: id in s.workers && s.workers[id].place.Pacing? ==> s.workers[id].place.until == s.nextStart)
    && (forall i, j :: i in s.workers && j in s.workers && s.workers[i].place.Pacing? && s.workers[j].place.Pacing? ==>
          i == j)
    && (s.starts != [] ==> s.nextStart == s.starts[|s.starts| - 1] + ANNOUNCE_SPACING)
    && (forall i :: 0 <= i < |s.starts| ==> s.starts[i] + ANNOUNCE_SPACING <= s.nextStart)
    && (forall i, j :: 0 <= i < j < |s.starts| ==> s.starts[i] + ANNOUNCE_SPACING <= s.starts[j])
  }

  /** Whoever counts as announced was announced, and that took a record. */
  ghost predicate AnnouncedOk(s: State) {
    && (forall h :: h in s.sent ==> h in s.succeeded)
    && s.announced <= s.succeeded
    && (s.succeeded != {} ==> s.mapping.Some?)
    && (forall i :: 0 <= i < |s.events| ==>
          && s.events[i].snapshot != {} && s.events[i].snapshot <= s.succeeded && s.events[i].value.Some?)
    && s.published == (if s.events == [] then None else s.events[|s.events| - 1].value)
  }

  lemma MovePermits(s: State, id: nat, place: Place)
    requires PermitsOk(s) && id in s.workers
    requires place.HasPermit() && !s.workers[id].place.HasPermit() ==> |WithPermit(s.workers)| < PERMITS
    ensures PermitsOk(Move(s, id, place))
  {
    var (before, after) := (WithPermit(s.workers), WithPermit(Move(s, id, place).workers));
    if place.HasPermit() {
      assert after == before + {id};
    } else {
      assert after == before - {id};
    }
  }

  lemma SubsetPermits(small: map<nat, Worker>, big: map<nat, Worker>)
    requires WithPermit(small) <= WithPermit(big)
    ensures |WithPermit(small)| <= |WithPermit(big)|
  {
    assert WithPermit(big) == WithPermit(small) + (WithPermit(big) - WithPermit(small));
  }

  lemma WorkerStepPermits(s: State, after: State, id: nat)
    requires PermitsOk(s) && WorkerStep(s, after, id)
    ensures PermitsOk(after)
  {
    if after.workers == s.workers - {id} {
      SubsetPermits(after.workers, s.workers);
    } else {
      MovePermits(s, id, after.workers[id].place);
    }
  }

  lemma StartPacing(s: State, id: nat)
    requires PacingOk(s) && id in s.workers && s.workers[id].place.Pacing? && s.clock >= s.workers[id].place.until
    ensures PacingOk(Start(s, id))
  {
  }

  lemma MovePacing(s: State, after: State, id: nat)
    requires PacingOk(s) && id in s.workers && id in after.workers
    requires after.workers == Move(s, id, after.workers[id].place).workers
    requires after.starts == s.starts && after.nextStart == s.nextStart
    requires after.workers[id].place.Pacing? ==> LockFree(s) && after.workers[id].place.until == s.nextStart
    ensures PacingOk(after)
  {
  }

  lemma WorkerStepPacing(s: State, after: State, id: nat)
    requires PacingOk(s) && WorkerStep(s, after, id)
    ensures PacingOk(after)
  {
    if after == Gone(s, id) {
      assert forall x :: x in after.workers ==> x in s.workers && after.workers[x] == s.workers[x];
    } else if s.workers[id].place.Pacing? {
      StartPacing(s, id);
    } else {
      MovePacing(s, after, id);
    }
  }

  lemma WorkerStepAnnounced(s: State, after: State, id: nat)
    requires AnnouncedOk(s) && WorkerStep(s, after, id)
    ensures AnnouncedOk(after)
  {
  }

  lemma TurnKeeps(s: State, after: State)
    requires Inv(s) && Turn(s, after)
    ensures Inv(after)
  {
    assert WithPermit(after.workers) == WithPermit(s.workers);
  }

  ghost predicate Inv(s: State) {
    PermitsOk(s) && PacingOk(s) && AnnouncedOk(s)
  }

  lemma HeardKeeps(s: State, h: Hash)
    requires Inv(s) && h in s.sent
    ensures Inv(Heard(s, h))
  {
  }

  lemma LoopStepKeeps(s: State, after: State)
    requires Inv(s) && LoopStep(s, after)
    ensures Inv(after)
  {
    if Turn(s, after) {
      TurnKeeps(s, after);
    } else {
      var h :| h in s.sent && Turn(Heard(s, h), after);
      HeardKeeps(s, h);
      TurnKeeps(Heard(s, h), after);
    }
  }

  lemma WorldFrame(s: State, after: State)
    requires WorldStep(s, after)
    ensures after == s.(clock := after.clock, entries := after.entries, mapping := after.mapping)
    ensures s.mapping.Some? ==> after.mapping.Some?
  {
  }

  lemma WorldStepKeeps(s: State, after: State)
    requires Inv(s) && WorldStep(s, after)
    ensures Inv(after)
  {
    WorldFrame(s, after);
  }

  lemma StepKeeps(s: State, after: State)
    requires Inv(s) && Step(s, after)
    ensures Inv(after)
  {
    if LoopStep(s, after) {
      LoopStepKeeps(s, after);
    } else if WorldStep(s, after) {
      WorldStepKeeps(s, after);
    } else {
      var id :| WorkerStep(s, after, id);
      WorkerStepPermits(s, after, id);
      WorkerStepPacing(s, after, id);
      WorkerStepAnnounced(s, after, id);
    }
  }

  lemma InitialInv(s: State)
    requires Initial(s)
    ensures Inv(s)
  {
    assert WithPermit(s.workers) == {};
  }

  lemma {:induction false} RunKeeps(run: seq<State>, i: nat)
    requires Run(run) && i < |run|
    ensures Inv(run[i])
  {
    if i == 0 {
      InitialInv(run[0]);
    } else {
      RunKeeps(run, i - 1);
      assert StepAt(run, i - 1);
      StepKeeps(run[i - 1], run[i]);
    }
  }

  // ----- What it promises -----

  /** Across all workers, aborted ones included, at most three are between pacing and release. */
  lemma AtMostThreeAnnounce(run: seq<State>, i: nat, busy: set<nat>)
    requires Run(run) && i < |run|
    requires forall id :: id in busy ==> id in run[i].workers && run[i].workers[id].place.Announcing?
    ensures |busy| <= PERMITS
  {
    RunKeeps(run, i);
    var all := WithPermit(run[i].workers);
    assert all == busy + (all - busy);
  }

  /** Any two paced starts are at least `ANNOUNCE_SPACING` apart. */
  lemma StartsAreSpaced(run: seq<State>, n: nat, i: nat, j: nat)
    requires Run(run) && n < |run| && i < j < |run[n].starts|
    ensures run[n].starts[i] + ANNOUNCE_SPACING <= run[n].starts[j]
  {
    RunKeeps(run, n);
  }

  /** And no worker is held back longer: the next start is due exactly so long after the last one. */
  lemma NextStartIsDue(run: seq<State>, n: nat, id: nat)
    requires Run(run) && n < |run| && id in run[n].workers && run[n].workers[id].place.Pacing?
    requires run[n].starts != []
    ensures run[n].clock >= run[n].starts[|run[n].starts| - 1] + ANNOUNCE_SPACING ==>
              WorkerStep(run[n], Start(run[n], id), id)
  {
    RunKeeps(run, n);
  }

  /**
   `published` is set only when hashes are registered and each of them was
   announced, and then to the socket of a record that exists; so once set it
   stays set.
   */
  lemma PublishedMeansAnnounced(run: seq<State>, n: nat)
    requires Run(run) && n < |run|
    ensures run[n].published.Some? <==> run[n].events != []
    ensures run[n].events != [] ==>
              var last := run[n].events[|run[n].events| - 1];
              && run[n].published == last.value
              && last.snapshot != {} && last.snapshot <= run[n].succeeded
    ensures forall h :: h in run[n].announced ==> h in run[n].succeeded
  {
    RunKeeps(run, n);
  }

  // ----- What is wanted is done -----

  /** A worker the loop keeps runs, for the hash it is kept for. */
  ghost predicate CurrentOk(s: State) {
    forall h :: h in s.current ==> s.current[h] in s.workers && s.workers[s.current[h]].hash == h
  }

  lemma LoopCurrent(s: State, after: State)
    requires CurrentOk(s) && LoopStep(s, after)
    ensures CurrentOk(after)
  {
    if Turn(s, after) {
      TurnCurrent(s, after);
    } else {
      var h :| h in s.sent && Turn(Heard(s, h), after);
      TurnCurrent(Heard(s, h), after);
    }
  }

  lemma WorldCurrent(s: State, after: State)
    requires CurrentOk(s) && WorldStep(s, after)
    ensures CurrentOk(after)
  {
    assert after.current == s.current && after.workers == s.workers;
  }

  lemma StepCurrent(s: State, after: State)
    requires CurrentOk(s) && Step(s, after)
    ensures CurrentOk(after)
  {
    if LoopStep(s, after) {
      LoopCurrent(s, after);
    } else if WorldStep(s, after) {
      WorldCurrent(s, after);
    } else {
      var id :| WorkerStep(s, after, id);
      WorkerCurrent(s, after, id);
    }
  }

  lemma TurnCurrent(s: State, after: State)
    requires CurrentOk(s) && Turn(s, after)
    ensures CurrentOk(after)
  {
  }

  lemma WorkerCurrent(s: State, after: State, id: nat)
    requires CurrentOk(s) && WorkerStep(s, after, id)
    ensures CurrentOk(after)
  {
  }

  lemma {:induction false} RunCurrent(run: seq<State>, i: nat)
    requires Run(run) && i < |run|
    ensures CurrentOk(run[i])
  {
    if i > 0 {
      RunCurrent(run, i - 1);
      assert StepAt(run, i - 1);
      StepCurrent(run[i - 1], run[i]);
    }
  }

  /**
   After each turn of the loop every registered hash has a running worker of its
   own; and once each of them was announced and heard of, `published` is set, to
   the socket of the keeper's record.
   */
  lemma TurnServesAll(run: seq<State>, i: nat, before: State)
    requires Run(run) && i + 1 < |run| && Turn(before, run[i + 1])
    requires before == run[i] || exists h :: h in run[i].sent && before == Heard(run[i], h)
    ensures forall h :: h in before.entries ==>
              && h in run[i + 1].current && run[i + 1].current[h] in run[i + 1].workers
              && run[i + 1].workers[run[i + 1].current[h]].hash == h
    ensures before.entries != {} && before.entries <= before.announced ==>
              run[i + 1].published.Some? && run[i + 1].published == run[i].mapping
  {
    RunCurrent(run, i + 1);
    RunKeeps(run, i + 1);
  }

  /** The hash was announced, and the loop has heard of it or will. */
  predicate Reported(s: State, h: Hash) {
    h in s.sent || h in s.announced
  }

  lemma TurnKeepsReport(s: State, after: State, h: Hash)
    requires Reported(s, h) && h in s.entries && Turn(s, after)
    ensures Reported(after, h)
  {
  }

  lemma LoopKeepsReport(s: State, after: State, h: Hash)
    requires Reported(s, h) && h in s.entries && LoopStep(s, after)
    ensures Reported(after, h)
  {
    if Turn(s, after) {
      TurnKeepsReport(s, after, h);
    } else {
      var x :| x in s.sent && Turn(Heard(s, x), after);
      TurnKeepsReport(Heard(s, x), after, h);
    }
  }

  lemma WorkerKeepsReport(s: State, after: State, id: nat, h: Hash)
    requires Reported(s, h) && WorkerStep(s, after, id)
    ensures Reported(after, h)
  {
  }

  lemma WorldKeepsReport(s: State, after: State, h: Hash)
    requires Reported(s, h) && WorldStep(s, after)
    ensures Reported(after, h)
  {
  }

  lemma KeepsReportAt(run: seq<State>, i: nat, h: Hash)
    requires Run(run) && i + 1 < |run| && Reported(run[i], h) && h in run[i].entries
    ensures Reported(run[i + 1], h)
  {
    assert StepAt(run, i);
    var (s, after) := (run[i], run[i + 1]);
    if LoopStep(s, after) {
      LoopKeepsReport(s, after, h);
    } else if WorldStep(s, after) {
      WorldKeepsReport(s, after, h);
    } else {
      var id :| WorkerStep(s, after, id);
      WorkerKeepsReport(s, after, id, h);
    }
  }

  ghost predicate RegisteredThroughout(run: seq<State>, i: nat, j: nat, h: Hash) {
    forall n {:trigger run[n]} :: i <= n <= j < |run| ==> h in run[n].entries
  }

  /** A successful announcement is never lost: while its hash stays registered it counts, or is about to. */
  lemma {:induction false} NoReportIsLost(run: seq<State>, i: nat, j: nat, id: nat)
    requires Run(run) && i < j < |run| && id in run[i].workers && run[i + 1] == Succeeded(run[i], id)
    requires RegisteredThroughout(run, i + 1, j, run[i].workers[id].hash)
    ensures Reported(run[j], run[i].workers[id].hash)
    decreases j
  {
    if i + 1 < j {
      NoReportIsLost(run, i, j - 1, id);
      KeepsReportAt(run, j - 1, run[i].workers[id].hash);
    }
  }

  lemma WorkerKeepsEvents(s: State, after: State, id: nat)
    requires WorkerStep(s, after, id)
    ensures after.events == s.events
  {
  }

  lemma TurnGrowsEvents(s: State, after: State)
    requires Turn(s, after)
    ensures s.events <= after.events
  {
  }

  lemma WorldKeepsEvents(s: State, after: State)
    requires WorldStep(s, after)
    ensures after.events == s.events
  {
  }

  lemma EventsGrow(s: State, after: State)
    requires Step(s, after)
    ensures s.events <= after.events
  {
    if Turn(s, after) {
      TurnGrowsEvents(s, after);
    } else if h :| h in s.sent && Turn(Heard(s, h), after) {
      TurnGrowsEvents(Heard(s, h), after);
    } else if WorldStep(s, after) {
      WorldKeepsEvents(s, after);
    } else {
      var id :| WorkerStep(s, after, id);
      WorkerKeepsEvents(s, after, id);
    }
  }

  lemma EventsGrowAt(run: seq<State>, i: nat)
    requires Run(run) && i + 1 < |run|
    ensures run[i].events <= run[i + 1].events
  {
    assert StepAt(run, i);
    EventsGrow(run[i], run[i + 1]);
  }

  lemma {:induction false} RunGrowsEvents(run: seq<State>, i: nat, j: nat)
    requires Run(run) && i <= j < |run|
    ensures run[i].events <= run[j].events
    decreases j
  {
    if i < j {
      RunGrowsEvents(run, i, j - 1);
      EventsGrowAt(run, j - 1);
    }
  }

  lemma StaysPublished(run: seq<State>, i: nat, j: nat)
    requires Run(run) && i <= j < |run| && run[i].published.Some?
    ensures run[j].published.Some?
  {
    PublishedMeansAnnounced(run, i);
    PublishedMeansAnnounced(run, j);
    RunGrowsEvents(run, i, j);
  }

  // ----- The fields the steps change -----

  /** The variables of `run`; each method is the code between two awaits and refines its step. */
  class Loop {
    var workers: map<Hash, nat>
    var announced: set<Hash>
    var published: Option<SocketAddr>
    var pacing: nat

    ghost predicate Shows(s: State)
      reads this
    {
      workers == s.current && announced == s.announced && published == s.published && pacing == s.nextStart
    }

    constructor (now: nat)
      ensures forall s :: Initial(s) && s.clock == now ==> Shows(s)
    {
      workers, announced, published, pacing := map[], {}, None, now;
    }

    /** A worker's turn has come. */
    method Pace(now: nat, ghost s: State, ghost id: nat)
      requires Shows(s) && id in s.workers && now == s.clock
      modifies this`pacing
      ensures Shows(Start(s, id))
    {
      pacing := now + ANNOUNCE_SPACING;
    }

    method Hear(hash: Hash, ghost s: State)
      requires Shows(s)
      modifies this`announced
      ensures Shows(Heard(s, hash))
    {
      announced := announced + {hash};
    }

    /** Drops what is no longer registered, starts workers for what is new, and publishes if all is announced. */
    method TakeTurn(entries: set<Hash>, mapping: Option<SocketAddr>, unused: nat, ghost s: State)
      returns (ghost after: State)
      requires Shows(s) && entries == s.entries && mapping == s.mapping
      requires forall id :: id in s.workers ==> id < unused
      modifies this
      ensures Turn(s, after) && Shows(after)
    {
      workers := map h | h in workers && h in entries :: workers[h];
      announced := announced * entries;
      ghost var running := s.workers;
      var (rest, next) := (entries, unused);
      while rest != {}
        invariant rest <= entries && unused <= next
        invariant entries - rest <= workers.Keys <= entries
        invariant forall h :: h in s.current && h in entries ==> h in workers && workers[h] == s.current[h]
        invariant forall id :: id in s.workers ==> id in running && running[id] == s.workers[id]
        invariant forall id :: id in running && id !in s.workers ==> running[id].place == Resting && id < next
        invariant forall h :: h in workers && h !in s.current ==>
                    workers[h] in running && unused <= workers[h] < next && running[workers[h]] == Worker(h, Resting)
        invariant announced == s.announced * entries && published == s.published && pacing == s.nextStart
        decreases rest
      {
        var hash :| hash in rest;
        if hash !in workers {
          workers := workers[hash := next];
          running := running[next := Worker(hash, Resting)];
          next := next + 1;
        }
        rest := rest - {hash};
      }
      var ready := entries != {} && entries <= announced;
      after := s.(workers := running, current := workers, announced := announced,
                  published := if ready then mapping else published,
                  events := if ready then s.events + [Event(entries, mapping)] else s.events);
      if ready {
        published := mapping;
      }
    }
  }
}
