/**
 The publisher's workers and the index keeper as one: each worker announces
 through the keeper, which decides whether it may.

 A worker between pacing and release is where its announcer is. The record the
 loop publishes is the keeper's, and the loop tells the keeper whether to be
 active.
 */
module Announcers {
  import opened Base
  import K = Keeper
  import P = Publisher

  /** `made` lists the hashes announced, one for each of the keeper's announcements. */
  datatype State = State(k: K.State, p: P.State, made: seq<P.Hash>)

  function MappingOf(k: K.State): Option<SocketAddr> {
    if k.Record().None? then None else Some(k.Record().value.mapping)
  }

  ghost predicate Initial(s: State) {
    && K.Initial(s.k) && P.Initial(s.p) && s.made == []
    && s.k.announcers == map[] && s.k.clock == s.p.clock
  }

  // ----- Steps -----

  /** The announcer is back before its next pacing. */
  function Back(k: K.State, id: nat): K.State {
    k.(announcers := k.announcers[id := K.Pacing])
  }

  /** Between pacing and release: look, check, announce. */
  ghost predicate AnnouncerMoves(s: State, after: State, id: nat)
    requires id in s.p.workers && id in s.k.announcers
  {
    match s.k.announcers[id]
    case Looking(_) =>
      || (exists public :: after == s.(k := K.Observe(s.k, id, public)))
      || after == s.(k := Back(s.k, id), p := P.Move(s.p, id, P.Resting))
    case Checking(_, _) =>
      var k := K.Check(s.k, id);
      if k.announcers[id].Announcing? then after == s.(k := k, made := s.made + [s.p.workers[id].hash])
      else after == s.(k := k, p := P.Move(s.p, id, P.AwaitingRecord))
    case Announcing =>
      || after == s.(k := Back(s.k, id), p := P.Move(s.p, id, P.Resting))
      || after == s.(k := Back(s.k, id), p := P.Succeeded(s.p, id))
    case _ => false
  }

  ghost predicate WorkerMoves(s: State, after: State, id: nat) {
    && id in s.p.workers && id in s.k.announcers
    && match s.p.workers[id].place
       case Resting => after == s.(p := P.Move(s.p, id, P.AwaitingPermit))
       case AwaitingPermit =>
         |P.WithPermit(s.p.workers)| < P.PERMITS && after == s.(p := P.Move(s.p, id, P.AwaitingTurn))
       case AwaitingTurn => P.LockFree(s.p) && after == s.(p := P.Move(s.p, id, P.Pacing(s.p.nextStart)))
       case Pacing(until) => s.p.clock >= until && after == s.(k := K.Begin(s.k, id), p := P.Start(s.p, id))
       case Announcing => AnnouncerMoves(s, after, id)
       case AwaitingRecord =>
         K.CanResume(s.k, id) && after == s.(k := Back(s.k, id), p := P.Move(s.p, id, P.AwaitingPermit))
  }

  /** An aborted worker is gone. */
  ghost predicate Vanishes(s: State, after: State, id: nat) {
    && id in s.p.workers
    && after == s.(k := s.k.(announcers := s.k.announcers - {id}), p := P.Gone(s.p, id))
  }

  ghost predicate KeeperMoves(s: State, after: State) {
    && K.KeeperStep(s.k, after.k)
    && after == s.(k := after.k, p := s.p.(mapping := MappingOf(after.k)))
  }

  /** One turn of the publisher's loop: the keeper is active while anything is registered. */
  ghost predicate LoopTurns(s: State, after: State) {
    && P.LoopStep(s.p, after.p) && K.Manages(s.k, after.k, s.p.entries != {})
    && after.k.announcers.Keys == after.p.workers.Keys && after.made == s.made
  }

  ghost predicate WorldMoves(s: State, after: State) {
    || (exists t :: after == s.(k := K.Tick(s.k, t), p := P.Tick(s.p, t)))
    || (exists servers :: after == s.(k := K.SetServers(s.k, servers)))
    || (exists entries :: after == s.(p := P.SetEntries(s.p, entries)))
  }

  ghost predicate Step(s: State, after: State) {
    || KeeperMoves(s, after) || LoopTurns(s, after) || WorldMoves(s, after)
    || (exists id :: WorkerMoves(s, after, id) || Vanishes(s, after, id))
  }

  ghost predicate StepAt(run: seq<State>, i: nat) {
    i + 1 < |run| && Step(run[i], run[i + 1])
  }

  ghost predicate Run(run: seq<State>) {
    && run != [] && Initial(run[0])
    && (forall i {:trigger StepAt(run, i)} :: 0 <= i < |run| - 1 ==> StepAt(run, i))
  }

  // ----- The invariant -----

  predicate Follows(place: P.Place, a: K.Announcer) {
    match place
    case Announcing => a.Looking? || a.Checking? || a.Announcing?
    case AwaitingRecord => a.Waiting?
    case _ => a.Pacing?
  }

  ghost predicate WorkerOk(s: State, id: nat)
    requires id in s.p.workers && id in s.k.announcers
  {
    && Follows(s.p.workers[id].place, s.k.announcers[id])
    && (s.k.announcers[id].Announcing? ==> s.p.workers[id].hash in s.made)
  }

  /** The socket of a record that was stored. */
  ghost predicate FromRecord(records: seq<K.Record>, value: Option<SocketAddr>) {
    exists r :: r in records && value == Some(r.mapping)
  }

  ghost predicate WorkersOk(s: State) {
    && s.k.announcers.Keys == s.p.workers.Keys
    && (forall id {:trigger WorkerOk(s, id)} :: id in s.p.workers ==> WorkerOk(s, id))
  }

  /** What the two know of each other. */
  ghost predicate SharedOk(s: State) {
    && s.k.clock == s.p.clock && s.p.mapping == MappingOf(s.k)
    && |s.made| == |s.k.announcements|
    && (forall h :: h in s.p.succeeded ==> h in s.made)
    && (forall e {:trigger FromRecord(s.k.published, e.value)} ::
          e in s.p.events ==> FromRecord(s.k.published, e.value))
  }

  ghost predicate Inv(s: State) {
    WorkersOk(s) && SharedOk(s)
  }

  // ----- Every step is a step of the keeper and of the publisher -----

  ghost predicate Projects(s: State, after: State) {
    K.Step(s.k, after.k) && P.Step(s.p, after.p)
  }

  lemma KeeperRests(k: K.State)
    ensures K.Step(k, k)
  {
    assert k == K.Tick(k, 0);
  }

  lemma PublisherRests(p: P.State)
    ensures P.Step(p, p)
  {
    assert p == P.Tick(p, 0);
  }

  /** Only worker `id` and its announcer move. */
  lemma OthersOk(s: State, after: State, id: nat)
    requires WorkersOk(s) && id in s.p.workers && s.made <= after.made
    requires id in after.k.announcers && id in after.p.workers
    requires after.k.announcers == s.k.announcers[id := after.k.announcers[id]]
    requires after.p.workers == s.p.workers[id := after.p.workers[id]]
    requires WorkerOk(after, id)
    ensures WorkersOk(after)
  {
    forall x | x in after.p.workers ensures WorkerOk(after, x) {
      if x != id {
        assert WorkerOk(s, x);
      }
    }
  }

  lemma PacesProject(s: State, after: State, id: nat)
    requires WorkersOk(s) && WorkerMoves(s, after, id) && !s.p.workers[id].place.Announcing?
    ensures Projects(s, after)
  {
    assert WorkerOk(s, id);
    assert P.WorkerStep(s.p, after.p, id);
    if after.k == s.k {
      KeeperRests(s.k);
    } else {
      assert K.AnnouncerStep(s.k, after.k, id);
    }
  }

  lemma PacesKeep(s: State, after: State, id: nat)
    requires Inv(s) && WorkerMoves(s, after, id) && !s.p.workers[id].place.Announcing?
    ensures Inv(after)
  {
    assert WorkerOk(s, id);
    OthersOk(s, after, id);
  }

  /** The guard of a success: whoever announces does so on a record that is there. */
  lemma AnnouncingHasRecord(s: State, id: nat)
    requires Inv(s) && K.Inv(s.k) && id in s.k.announcers && s.k.announcers[id].Announcing?
    ensures s.p.mapping.Some?
  {
    assert K.AnnouncerOk(s.k, s.k.announcers[id]);
  }

  lemma AnnouncerMovesKeeper(s: State, after: State, id: nat)
    requires id in s.p.workers && id in s.k.announcers && AnnouncerMoves(s, after, id)
    ensures K.AnnouncerStep(s.k, after.k, id)
  {
  }

  lemma AnnouncerMovesPublisher(s: State, after: State, id: nat)
    requires id in s.p.workers && id in s.k.announcers && AnnouncerMoves(s, after, id)
    requires s.p.workers[id].place.Announcing? && (s.k.announcers[id].Announcing? ==> s.p.mapping.Some?)
    ensures after.p == s.p || P.WorkerStep(s.p, after.p, id)
  {
  }

  lemma AnnouncesProject(s: State, after: State, id: nat)
    requires Inv(s) && K.Inv(s.k) && id in s.p.workers && id in s.k.announcers && AnnouncerMoves(s, after, id)
    requires s.p.workers[id].place.Announcing?
    ensures Projects(s, after)
  {
    AnnouncerMovesKeeper(s, after, id);
    if s.k.announcers[id].Announcing? {
      AnnouncingHasRecord(s, id);
    }
    AnnouncerMovesPublisher(s, after, id);
    PublisherRests(s.p);
  }

  lemma AnnouncesKeepsWorkers(s: State, after: State, id: nat)
    requires WorkersOk(s) && id in s.p.workers && AnnouncerMoves(s, after, id)
    requires s.p.workers[id].place.Announcing?
    ensures WorkersOk(after)
  {
    assert WorkerOk(s, id);
    OthersOk(s, after, id);
  }

  /** What a step between pacing and release changes of what is shared. */
  lemma AnnouncerMovesFrame(s: State, after: State, id: nat)
    requires id in s.p.workers && id in s.k.announcers && AnnouncerMoves(s, after, id)
    ensures after.k.published == s.k.published && after.k.clock == s.k.clock
    ensures after.p.events == s.p.events && after.p.clock == s.p.clock && after.p.mapping == s.p.mapping
    ensures s.made <= after.made
    ensures |after.made| - |s.made| == |after.k.announcements| - |s.k.announcements|
    ensures after.p.succeeded == s.p.succeeded ||
            (s.k.announcers[id].Announcing? && after.p.succeeded == s.p.succeeded + {s.p.workers[id].hash})
  {
  }

  lemma AnnouncesKeepsShared(s: State, after: State, id: nat)
    requires SharedOk(s) && id in s.p.workers && id in s.k.announcers && AnnouncerMoves(s, after, id)
    requires s.k.announcers[id].Announcing? ==> s.p.workers[id].hash in s.made
    ensures SharedOk(after)
  {
    AnnouncerMovesFrame(s, after, id);
    assert forall h :: h in s.made ==> h in after.made;
  }

  lemma AnnouncesKeep(s: State, after: State, id: nat)
    requires Inv(s) && id in s.p.workers && id in s.k.announcers && AnnouncerMoves(s, after, id)
    requires s.p.workers[id].place.Announcing?
    ensures Inv(after)
  {
    AnnouncesKeepsWorkers(s, after, id);
    assert WorkerOk(s, id);
    AnnouncesKeepsShared(s, after, id);
  }

  lemma VanishesProjects(s: State, after: State, id: nat)
    requires Inv(s) && Vanishes(s, after, id)
    ensures Projects(s, after) && Inv(after)
  {
    assert P.WorkerStep(s.p, after.p, id);
    assert K.Manages(s.k, after.k, s.k.active);
    forall x | x in after.p.workers ensures WorkerOk(after, x) {
      assert WorkerOk(s, x);
    }
  }

  lemma MappingStep(p: P.State, mapping: Option<SocketAddr>)
    requires mapping.Some? || mapping == p.mapping
    ensures P.Step(p, p.(mapping := mapping))
  {
    if mapping.Some? {
      assert p.(mapping := mapping) == P.SetMapping(p, mapping.value);
    } else {
      PublisherRests(p);
    }
  }

  lemma KeeperProjects(s: State, after: State)
    requires SharedOk(s) && KeeperMoves(s, after)
    ensures Projects(s, after)
  {
    K.KeeperKeepsHistory(s.k, after.k);
    MappingStep(s.p, MappingOf(after.k));
  }

  lemma KeeperKeeps(s: State, after: State)
    requires Inv(s) && KeeperMoves(s, after)
    ensures Inv(after)
  {
    K.KeeperKeepsHistory(s.k, after.k);
    forall x | x in after.p.workers ensures WorkerOk(after, x) {
      assert WorkerOk(s, x);
    }
    forall e | e in after.p.events ensures FromRecord(after.k.published, e.value) {
      assert FromRecord(s.k.published, e.value);
      var r :| r in s.k.published && e.value == Some(r.mapping);
      assert r in after.k.published;
    }
  }

  lemma LoopProjects(s: State, after: State)
    requires LoopTurns(s, after)
    ensures Projects(s, after)
  {
  }

  lemma LoopKeepsWorkers(s: State, after: State)
    requires WorkersOk(s) && LoopTurns(s, after)
    ensures WorkersOk(after)
  {
    P.LoopContinues(s.p, after.p);
    forall x | x in after.p.workers ensures WorkerOk(after, x) {
      if x in s.p.workers {
        assert WorkerOk(s, x);
      }
    }
  }

  lemma LoopKeepsShared(s: State, after: State)
    requires SharedOk(s) && LoopTurns(s, after)
    requires forall e :: e in after.p.events ==> e.value.Some?
    ensures SharedOk(after)
  {
    P.LoopContinues(s.p, after.p);
    forall e | e in after.p.events ensures FromRecord(after.k.published, e.value) {
      if e !in s.p.events {
        assert s.k.Record().value in s.k.published;
      }
    }
  }

  lemma EventsHaveSockets(p: P.State, after: P.State)
    requires P.Inv(p) && P.LoopStep(p, after)
    ensures forall e :: e in after.events ==> e.value.Some?
  {
    P.LoopStepKeeps(p, after);
  }

  lemma WorldProjects(s: State, after: State)
    requires WorldMoves(s, after)
    ensures Projects(s, after)
  {
    if t :| after == s.(k := K.Tick(s.k, t), p := P.Tick(s.p, t)) {
      assert K.WorldStep(s.k, after.k) && P.WorldStep(s.p, after.p);
    } else if servers :| after == s.(k := K.SetServers(s.k, servers)) {
      assert K.WorldStep(s.k, after.k);
      PublisherRests(s.p);
    } else {
      var entries :| after == s.(p := P.SetEntries(s.p, entries));
      assert P.WorldStep(s.p, after.p);
      KeeperRests(s.k);
    }
  }

  lemma WorldKeeps(s: State, after: State)
    requires Inv(s) && WorldMoves(s, after)
    ensures Inv(after)
  {
    forall x | x in after.p.workers ensures WorkerOk(after, x) {
      assert WorkerOk(s, x);
    }
  }

  lemma StepProjects(s: State, after: State)
    requires Inv(s) && K.Inv(s.k) && P.Inv(s.p) && Step(s, after)
    ensures Projects(s, after) && Inv(after)
  {
    if KeeperMoves(s, after) {
      KeeperProjects(s, after);
      KeeperKeeps(s, after);
    } else if LoopTurns(s, after) {
      LoopProjects(s, after);
      LoopKeepsWorkers(s, after);
      EventsHaveSockets(s.p, after.p);
      LoopKeepsShared(s, after);
    } else if WorldMoves(s, after) {
      WorldProjects(s, after);
      WorldKeeps(s, after);
    } else {
      var id :| WorkerMoves(s, after, id) || Vanishes(s, after, id);
      if Vanishes(s, after, id) {
        VanishesProjects(s, after, id);
      } else if s.p.workers[id].place.Announcing? {
        AnnouncesProject(s, after, id);
        AnnouncesKeep(s, after, id);
      } else {
        PacesProject(s, after, id);
        PacesKeep(s, after, id);
      }
    }
  }

  lemma {:induction false} RunKeeps(run: seq<State>, i: nat)
    requires Run(run) && i < |run|
    ensures Inv(run[i]) && K.Inv(run[i].k) && P.Inv(run[i].p)
    ensures i + 1 < |run| ==> Projects(run[i], run[i + 1])
  {
    if i == 0 {
      K.InitialInv(run[0].k);
      P.InitialInv(run[0].p);
    } else {
      RunKeeps(run, i - 1);
      assert StepAt(run, i - 1);
      StepProjects(run[i - 1], run[i]);
      K.StepKeeps(run[i - 1].k, run[i].k);
      P.StepKeeps(run[i - 1].p, run[i].p);
    }
    if i + 1 < |run| {
      assert StepAt(run, i);
      StepProjects(run[i], run[i + 1]);
    }
  }

  /** So what holds in every run of the keeper and in every run of the publisher holds here. */
  lemma RunProjects(run: seq<State>)
    requires Run(run)
    ensures K.Run(seq(|run|, i requires 0 <= i < |run| => run[i].k))
    ensures P.Run(seq(|run|, i requires 0 <= i < |run| => run[i].p))
  {
    var ks := seq(|run|, i requires 0 <= i < |run| => run[i].k);
    var ps := seq(|run|, i requires 0 <= i < |run| => run[i].p);
    forall i | 0 <= i < |run| - 1 ensures K.StepAt(ks, i) && P.StepAt(ps, i) {
      RunKeeps(run, i);
    }
  }

  // ----- What it promises -----

  /** An announcement on a record that readers can find. */
  predicate OnLiveRecord(k: K.State, x: K.Announcement) {
    && x.record in k.published && x.record.public == x.public
    && x.now < x.record.at + K.INDEX_TTL
    && (x.record.servers == x.known || x.record.servers * x.known != {})
  }

  /** Between pacing and release. */
  predicate Busy(k: K.State, id: nat) {
    id in k.announcers && (k.announcers[id].Looking? || k.announcers[id].Checking? || k.announcers[id].Announcing?)
  }

  /**
   Across all workers at most three are between pacing and release, any two
   paced starts are `ANNOUNCE_SPACING` apart, and every announcement, of
   whichever hash, was made on a record stored for the address just observed.
   */
  lemma PacedAndOnLiveRecords(run: seq<State>, n: nat, busy: set<nat>)
    requires Run(run) && n < |run|
    requires forall id :: id in busy ==> Busy(run[n].k, id)
    ensures |busy| <= P.PERMITS
    ensures forall i, j :: 0 <= i < j < |run[n].p.starts| ==>
              run[n].p.starts[i] + P.ANNOUNCE_SPACING <= run[n].p.starts[j]
    ensures |run[n].made| == |run[n].k.announcements|
    ensures forall x :: x in run[n].k.announcements ==> OnLiveRecord(run[n].k, x)
  {
    RunKeeps(run, n);
    BusyHavePermits(run[n], busy);
    forall x | x in run[n].k.announcements ensures OnLiveRecord(run[n].k, x) {
      assert K.AnnouncementOk(run[n].k, x);
    }
  }

  lemma BusyHavePermits(s: State, busy: set<nat>)
    requires Inv(s) && P.PermitsOk(s.p)
    requires forall id :: id in busy ==> Busy(s.k, id)
    ensures |busy| <= P.PERMITS
  {
    var all := P.WithPermit(s.p.workers);
    forall id | id in busy ensures id in all {
      assert WorkerOk(s, id);
    }
    assert all == busy + (all - busy);
  }

  /**
   `published` is set only once each registered hash was announced, on a live
   record every time, and to the socket of a record the keeper stored.
   */
  lemma PublishedOnLiveRecords(run: seq<State>, n: nat)
    requires Run(run) && n < |run| && run[n].p.published.Some?
    ensures FromRecord(run[n].k.published, run[n].p.published)
    ensures exists e :: e in run[n].p.events && e.value == run[n].p.published && e.snapshot != {} &&
              forall h :: h in e.snapshot ==>
                exists m :: 0 <= m < |run[n].made| == |run[n].k.announcements| && run[n].made[m] == h &&
                  OnLiveRecord(run[n].k, run[n].k.announcements[m])
  {
    RunKeeps(run, n);
    PacedAndOnLiveRecords(run, n, {});
    var s := run[n];
    var e := s.p.events[|s.p.events| - 1];
    assert e in s.p.events && FromRecord(s.k.published, e.value);
    forall h | h in e.snapshot
      ensures exists m :: 0 <= m < |s.made| == |s.k.announcements| && s.made[m] == h &&
                OnLiveRecord(s.k, s.k.announcements[m])
    {
      var m :| 0 <= m < |s.made| && s.made[m] == h;
      assert OnLiveRecord(s.k, s.k.announcements[m]);
    }
  }
}
