/**
 The Pkarr publisher: edits made at any time, and rounds that sign and store
 every packet, one round at a time.

 An edit is two steps, changing the packets and then counting the edit. A round
 holds the publishing lock; it reads the count, signs what the packets are
 then, stores the items one by one, and reports the count it read.
 */
module Pkarr {
  import opened Base

  type Key = Bytes
  type Packets = map<Key, Bytes>

  /** One change of the packets: a packet set for a key, or the key removed. */
  datatype Change = Change(key: Key, packet: Option<Bytes>)

  /** The packets after a sequence of changes. */
  function PacketsAfter(changes: seq<Change>): Packets {
    if changes == [] then map[] else
      var (before, last) := (PacketsAfter(changes[..|changes| - 1]), changes[|changes| - 1]);
      if last.packet.Some? then before[last.key := last.packet.value] else before - {last.key}
  }

  /** A task between its change and counting it, or not editing. */
  datatype Editor = Resting | Changed(at: nat)

  /** A round, from taking the lock on; `seen` is how many changes its items include. */
  datatype Round =
    | Locked
    | Counted(generation: nat)
    | Storing(generation: nat, seen: nat, sequence: int, left: Packets, ok: bool)

  datatype Stored = Stored(key: Key, packet: Bytes, sequence: int)

  /** A round in which every item was stored. */
  datatype Success = Success(generation: nat, seen: nat, sequence: int)

  /**
   `edits[g - 1]` is the index of the change that edit number g made, so the
   generation is the length of `edits`. `stored`, `sequences` and `successes`
   only record what happened.
   */
  datatype State = State(
    changes: seq<Change>,
    edits: seq<nat>,
    editors: map<nat, Editor>,
    published: nat,
    previous: int,
    round: Option<Round>,
    waits: map<nat, nat>,
    returned: set<nat>,
    stored: set<Stored>,
    sequences: seq<int>,
    successes: seq<Success>)
  {
    function Packets(): Packets {
      PacketsAfter(changes)
    }

    function Generation(): nat {
      |edits|
    }
  }

  ghost predicate Initial(s: State) {
    && s.changes == [] && s.edits == [] && s.published == 0 && s.previous == 0 && s.round == None
    && s.waits == map[] && s.returned == {} && s.stored == {} && s.sequences == [] && s.successes == []
    && (forall e :: e in s.editors ==> s.editors[e] == Resting)
  }

  // ----- Editing -----

  /** The packets change, and the change is not counted yet. */
  function WithChange(s: State, e: nat, change: Change): State {
    s.(changes := s.changes + [change], editors := s.editors[e := Changed(|s.changes|)])
  }

  /** `set_raw`, or `remove` of a name that is there, up to the unlock of the packets. */
  ghost predicate CanChange(s: State, e: nat, change: Change) {
    && e in s.editors && s.editors[e].Resting?
    && (if change.packet.Some? then |change.packet.value| <= 1000 else change.key in s.Packets())
  }

  function Edited(s: State, e: nat): State
    requires e in s.editors && s.editors[e].Changed?
  {
    s.(edits := s.edits + [s.editors[e].at], editors := s.editors[e := Resting])
  }

  ghost predicate EditStep(s: State, after: State) {
    || (exists e, change :: CanChange(s, e, change) && after == WithChange(s, e, change))
    || (exists e :: e in s.editors && s.editors[e].Changed? && after == Edited(s, e))
  }

  // ----- Publishing -----

  function Signed(s: State, now: int): State
    requires s.round.Some? && s.round.value.Counted?
  {
    var sequence := Max(now, s.previous + 1);
    s.(previous := sequence,
       sequences := s.sequences + [sequence],
       round := Some(Storing(s.round.value.generation, |s.changes|, sequence, s.Packets(), true)))
  }

  function StoredItem(s: State, key: Key): State
    requires s.round.Some? && s.round.value.Storing? && key in s.round.value.left
  {
    var r := s.round.value;
    s.(stored := s.stored + {Stored(key, r.left[key], r.sequence)},
       round := Some(r.(left := r.left - {key})))
  }

  function FailedItem(s: State, key: Key): State
    requires s.round.Some? && s.round.value.Storing? && key in s.round.value.left
  {
    s.(round := Some(s.round.value.(left := s.round.value.left - {key}, ok := false)))
  }

  function Finished(s: State): State
    requires s.round.Some? && s.round.value.Storing? && s.round.value.left == map[]
  {
    var r := s.round.value;
    if r.ok then
      s.(published := r.generation,
         successes := s.successes + [Success(r.generation, r.seen, r.sequence)],
         round := None)
    else s.(round := None)
  }

  /** A round may also end anywhere without success: the clock is before 1970, or its caller gives up. */
  ghost predicate RoundStep(s: State, after: State) {
    match s.round
    case None => after == s.(round := Some(Locked))
    case Some(Locked) => after == s.(round := Some(Counted(s.Generation()))) || after == s.(round := None)
    case Some(Counted(_)) => after == s.(round := None) || exists now :: after == Signed(s, now)
    case Some(Storing(_, _, _, left, _)) =>
      || after == s.(round := None)
      || (left == map[] && after == Finished(s))
      || (exists key :: key in left && (after == StoredItem(s, key) || after == FailedItem(s, key)))
  }

  // ----- Waiting -----

  ghost predicate WaitStep(s: State, after: State) {
    || (exists w: nat :: w !in s.waits && after == s.(waits := s.waits[w := s.Generation()]))
    || (exists w :: w in s.waits && s.published >= s.waits[w] && after == s.(returned := s.returned + {w}))
  }

  ghost predicate Step(s: State, after: State) {
    EditStep(s, after) || RoundStep(s, after) || WaitStep(s, after)
  }

  ghost predicate StepAt(run: seq<State>, i: nat) {
    i + 1 < |run| && Step(run[i], run[i + 1])
  }

  ghost predicate Run(run: seq<State>) {
    && run != [] && Initial(run[0])
    && (forall i {:trigger StepAt(run, i)} :: 0 <= i < |run| - 1 ==> StepAt(run, i))
  }

  // ----- The invariant -----

  /** The first `n` edits were all among the first `seen` changes. */
  ghost predicate Included(edits: seq<nat>, n: nat, seen: nat) {
    n <= |edits| && forall g :: 0 <= g < n ==> edits[g] < seen
  }

  /** Every item of the packets at `seen`, except those in `left`, was stored under `sequence`. */
  ghost predicate AllStored(s: State, seen: nat, sequence: int, left: Packets) {
    && seen <= |s.changes|
    && var items := PacketsAfter(s.changes[..seen]);
       && (forall k :: k in left ==> k in items && left[k] == items[k])
       && (forall k :: k in items && k !in left ==> Stored(k, items[k], sequence) in s.stored)
  }

  ghost predicate RoundOk(s: State, r: Round) {
    match r
    case Locked => true
    case Counted(g) => s.published <= g && Included(s.edits, g, |s.changes|)
    case Storing(g, seen, sequence, left, ok) =>
      && s.published <= g && Included(s.edits, g, seen) && seen <= |s.changes|
      && sequence == s.previous
      && (ok ==> AllStored(s, seen, sequence, left))
  }

  ghost predicate SuccessOk(s: State, x: Success) {
    Included(s.edits, x.generation, x.seen) && AllStored(s, x.seen, x.sequence, map[])
  }

  ghost predicate Inv(s: State) {
    && Included(s.edits, |s.edits|, |s.changes|)
    && (forall e :: e in s.editors && s.editors[e].Changed? ==> s.editors[e].at < |s.changes|)
    && s.published <= s.Generation()
    && (s.round.Some? ==> RoundOk(s, s.round.value))
    && (forall x {:trigger SuccessOk(s, x)} :: x in s.successes ==> SuccessOk(s, x))
    && (if s.successes == [] then s.published == 0 else s.published == s.successes[|s.successes| - 1].generation)
    && (forall i, j :: 0 <= i < j < |s.sequences| ==> s.sequences[i] < s.sequences[j])
    && (forall i :: 0 <= i < |s.sequences| ==> s.sequences[i] <= s.previous)
    && (forall w :: w in s.waits ==> s.waits[w] <= s.Generation())
    && (forall w :: w in s.returned ==> w in s.waits && s.waits[w] <= s.published)
  }

  // ----- Every step keeps it -----

  /** Changes, edits and stored items are only added to. */
  ghost predicate Grows(s: State, after: State) {
    s.changes <= after.changes && s.edits <= after.edits && s.stored <= after.stored
  }

  lemma StoredStays(s: State, after: State, seen: nat, sequence: int, left: Packets)
    requires Grows(s, after) && AllStored(s, seen, sequence, left)
    ensures AllStored(after, seen, sequence, left)
  {
    assert after.changes[..seen] == s.changes[..seen];
  }

  lemma SuccessesStay(s: State, after: State)
    requires Inv(s) && Grows(s, after)
    ensures forall x {:trigger SuccessOk(after, x)} :: x in s.successes ==> SuccessOk(after, x)
  {
    forall x | x in s.successes ensures SuccessOk(after, x) {
      assert SuccessOk(s, x);
      StoredStays(s, after, x.seen, x.sequence, map[]);
    }
  }

  lemma RoundStays(s: State, after: State)
    requires Inv(s) && Grows(s, after) && s.round.Some?
    requires after.published == s.published && after.previous == s.previous
    ensures RoundOk(after, s.round.value)
  {
    var r := s.round.value;
    if r.Storing? && r.ok {
      StoredStays(s, after, r.seen, r.sequence, r.left);
    }
  }

  lemma ChangeKeeps(s: State, e: nat, change: Change)
    requires Inv(s)
    ensures Inv(WithChange(s, e, change))
  {
    SuccessesStay(s, WithChange(s, e, change));
    if s.round.Some? {
      RoundStays(s, WithChange(s, e, change));
    }
  }

  lemma EditedKeeps(s: State, e: nat)
    requires Inv(s) && e in s.editors && s.editors[e].Changed?
    ensures Inv(Edited(s, e))
  {
    SuccessesStay(s, Edited(s, e));
    if s.round.Some? {
      RoundStays(s, Edited(s, e));
    }
  }

  lemma EditStepKeeps(s: State, after: State)
    requires Inv(s) && EditStep(s, after)
    ensures Inv(after)
  {
    if e, change :| CanChange(s, e, change) && after == WithChange(s, e, change) {
      ChangeKeeps(s, e, change);
    } else {
      var e :| e in s.editors && s.editors[e].Changed? && after == Edited(s, e);
      EditedKeeps(s, e);
    }
  }

  lemma WaitStepKeeps(s: State, after: State)
    requires Inv(s) && WaitStep(s, after)
    ensures Inv(after)
  {
    SuccessesStay(s, after);
    if s.round.Some? {
      RoundStays(s, after);
    }
  }

  lemma SignedKeeps(s: State, now: int)
    requires Inv(s) && s.round.Some? && s.round.value.Counted?
    ensures Inv(Signed(s, now))
  {
    var after := Signed(s, now);
    SuccessesStay(s, after);
    assert s.changes[..|s.changes|] == s.changes;
  }

  lemma ItemKeeps(s: State, after: State, key: Key)
    requires Inv(s) && s.round.Some? && s.round.value.Storing? && key in s.round.value.left
    requires after == StoredItem(s, key) || after == FailedItem(s, key)
    ensures Inv(after)
  {
    SuccessesStay(s, after);
    RoundStays(s, after);
  }

  lemma FinishedKeeps(s: State)
    requires Inv(s) && s.round.Some? && s.round.value.Storing? && s.round.value.left == map[]
    ensures Inv(Finished(s))
  {
    var after := Finished(s);
    SuccessesStay(s, after);
    if s.round.value.ok {
      var r := s.round.value;
      StoredStays(s, after, r.seen, r.sequence, map[]);
      assert SuccessOk(after, Success(r.generation, r.seen, r.sequence));
    }
  }

  /** A round that begins, counts or ends without success stores nothing. */
  lemma QuietRoundKeeps(s: State, after: State)
    requires Inv(s) && after == s.(round := after.round)
    requires after.round == None || after.round == Some(Locked) || after.round == Some(Counted(s.Generation()))
    ensures Inv(after)
  {
    SuccessesStay(s, after);
  }

  lemma StoringKeeps(s: State, after: State)
    requires Inv(s) && s.round.Some? && s.round.value.Storing? && RoundStep(s, after) && after != s.(round := None)
    ensures Inv(after)
  {
    if s.round.value.left == map[] {
      FinishedKeeps(s);
    } else {
      var key :| key in s.round.value.left && (after == StoredItem(s, key) || after == FailedItem(s, key));
      ItemKeeps(s, after, key);
    }
  }

  lemma RoundStepKeeps(s: State, after: State)
    requires Inv(s) && RoundStep(s, after)
    ensures Inv(after)
  {
    if s.round.Some? && s.round.value.Counted? && after.round.Some? {
      var now :| after == Signed(s, now);
      SignedKeeps(s, now);
    } else if s.round.Some? && s.round.value.Storing? && after != s.(round := None) {
      StoringKeeps(s, after);
    } else {
      QuietRoundKeeps(s, after);
    }
  }

  lemma {:induction false} RunKeeps(run: seq<State>, i: nat)
    requires Run(run) && i < |run|
    ensures Inv(run[i])
  {
    if i > 0 {
      RunKeeps(run, i - 1);
      assert StepAt(run, i - 1);
      if EditStep(run[i - 1], run[i]) {
        EditStepKeeps(run[i - 1], run[i]);
      } else if RoundStep(run[i - 1], run[i]) {
        RoundStepKeeps(run[i - 1], run[i]);
      } else {
        WaitStepKeeps(run[i - 1], run[i]);
      }
    }
  }

  // ----- What it promises -----

  /** `q` is the last change of a key among the first `seen`. */
  ghost predicate LastChange(changes: seq<Change>, seen: nat, key: Key, q: nat) {
    && q < seen <= |changes| && changes[q].key == key
    && (forall i :: q < i < seen ==> changes[i].key != key)
  }

  /** What the packets hold for a key is what its last change made of it. */
  lemma {:induction false} LastChangeDecides(changes: seq<Change>, seen: nat, key: Key, p: nat) returns (q: nat)
    requires p < seen <= |changes| && changes[p].key == key
    ensures p <= q && LastChange(changes, seen, key, q)
    ensures var items := PacketsAfter(changes[..seen]);
            && (key in items <==> changes[q].packet.Some?)
            && (key in items ==> items[key] == changes[q].packet.value)
  {
    var prefix := changes[..seen];
    assert prefix[..seen - 1] == changes[..seen - 1] && prefix[seen - 1] == changes[seen - 1];
    if changes[seen - 1].key == key {
      q := seen - 1;
    } else {
      q := LastChangeDecides(changes, seen - 1, key, p);
    }
  }

  /** Round `x` stored all of its items, and for the key of edit `g` they follow change `q`, not before the edit's. */
  ghost predicate Covers(s: State, x: Success, g: nat, q: nat) {
    && 1 <= g <= x.generation <= |s.edits| && x.seen <= |s.changes| && s.edits[g - 1] < |s.changes|
    && var (key, items) := (s.changes[s.edits[g - 1]].key, PacketsAfter(s.changes[..x.seen]));
    && s.edits[g - 1] <= q && LastChange(s.changes, x.seen, key, q)
    && (s.changes[q].packet.Some? ==> Stored(key, s.changes[q].packet.value, x.sequence) in s.stored)
    && (s.changes[q].packet.None? ==> key !in items)
    && (forall k :: k in items ==> Stored(k, items[k], x.sequence) in s.stored)
  }

  /**
   Once `published` reaches g, every edit numbered at most g was covered by a
   round that succeeded as a whole: that round's items reflect the edit or a
   later change of the same key, and it stored every one of them.
   */
  lemma PublishedEditsAreCovered(run: seq<State>, i: nat, g: nat) returns (x: Success, q: nat)
    requires Run(run) && i < |run| && 1 <= g <= run[i].published
    ensures x in run[i].successes && Covers(run[i], x, g, q)
  {
    RunKeeps(run, i);
    var s := run[i];
    x := s.successes[|s.successes| - 1];
    assert SuccessOk(s, x);
    q := LastChangeDecides(s.changes, x.seen, s.changes[s.edits[g - 1]].key, s.edits[g - 1]);
  }

  /** A wait that returned covers every edit that was counted before it began. */
  lemma WaitCoversEdits(run: seq<State>, i: nat, j: nat, w: nat, g: nat)
    requires Run(run) && i < j < |run| && w !in run[i].waits
    requires run[i + 1] == run[i].(waits := run[i].waits[w := run[i].Generation()])
    requires w in run[j].returned && 1 <= g <= |run[i].edits|
    ensures g <= run[j].published
  {
    RunKeeps(run, j);
    WaitIsKept(run, i + 1, j, w);
  }

  lemma {:induction false} WaitIsKept(run: seq<State>, i: nat, j: nat, w: nat)
    requires Run(run) && i <= j < |run| && w in run[i].waits
    ensures w in run[j].waits && run[j].waits[w] == run[i].waits[w]
    decreases j
  {
    if i < j {
      WaitIsKept(run, i, j - 1, w);
      assert StepAt(run, j - 1);
      WaitStaysPut(run[j - 1], run[j], w);
    }
  }

  lemma WaitStaysPut(s: State, after: State, w: nat)
    requires Step(s, after) && w in s.waits
    ensures w in after.waits && after.waits[w] == s.waits[w]
  {
  }

  lemma StepAdvances(s: State, after: State)
    requires Inv(s) && Step(s, after)
    ensures s.published <= after.published && s.edits <= after.edits
  {
  }

  /** `published` never decreases and never exceeds the generation, under every interleaving. */
  lemma {:induction false} PublishedOnlyGrows(run: seq<State>, i: nat, j: nat)
    requires Run(run) && i <= j < |run|
    ensures run[i].published <= run[j].published <= run[j].Generation()
    decreases j
  {
    RunKeeps(run, j);
    if i < j {
      PublishedOnlyGrows(run, i, j - 1);
      RunKeeps(run, j - 1);
      assert StepAt(run, j - 1);
      StepAdvances(run[j - 1], run[j]);
    }
  }

  /** Each round signs with a sequence above all before it, whatever the clock says. */
  lemma SequencesIncrease(run: seq<State>, n: nat, i: nat, j: nat)
    requires Run(run) && n < |run| && i < j < |run[n].sequences|
    ensures run[n].sequences[i] < run[n].sequences[j]
  {
    RunKeeps(run, n);
  }

  /** A round's sequence is the least that is above the last and not behind the clock. */
  lemma SequenceFollowsClock(s: State, now: int, other: int)
    requires s.round.Some? && s.round.value.Counted?
    ensures var sequence := Signed(s, now).round.value.sequence;
            && s.previous < sequence && now <= sequence && Signed(s, now).previous == sequence
            && (s.previous < other && now <= other ==> sequence <= other)
  {
  }

  // ----- No edit is lost -----

  ghost predicate CountedEdit(s: State, q: nat) {
    exists g :: 0 <= g < |s.edits| && s.edits[g] == q
  }

  ghost predicate BeingCounted(s: State, q: nat) {
    exists e :: e in s.editors && s.editors[e] == Changed(q)
  }

  ghost predicate AllCounted(s: State) {
    forall q: nat {:trigger CountedEdit(s, q)} :: q < |s.changes| ==> CountedEdit(s, q) || BeingCounted(s, q)
  }

  lemma ChangeCounts(s: State, e: nat, change: Change)
    requires AllCounted(s) && CanChange(s, e, change)
    ensures AllCounted(WithChange(s, e, change))
  {
    var after := WithChange(s, e, change);
    forall q: nat | q < |after.changes| ensures CountedEdit(after, q) || BeingCounted(after, q) {
      if q == |s.changes| {
        assert after.editors[e] == Changed(q);
      } else if CountedEdit(s, q) {
        assert after.edits == s.edits;
      } else {
        var x :| x in s.editors && s.editors[x] == Changed(q);
        assert after.editors[x] == Changed(q);
      }
    }
  }

  lemma EditedCounts(s: State, e: nat)
    requires AllCounted(s) && e in s.editors && s.editors[e].Changed?
    ensures AllCounted(Edited(s, e))
  {
    var after := Edited(s, e);
    forall q: nat | q < |after.changes| ensures CountedEdit(after, q) || BeingCounted(after, q) {
      if CountedEdit(s, q) {
        var g :| 0 <= g < |s.edits| && s.edits[g] == q;
        assert after.edits[g] == q;
      } else {
        var x :| x in s.editors && s.editors[x] == Changed(q);
        if x == e {
          assert after.edits[|s.edits|] == q;
        } else {
          assert after.editors[x] == Changed(q);
        }
      }
    }
  }

  lemma OthersCount(s: State, after: State)
    requires AllCounted(s) && (RoundStep(s, after) || WaitStep(s, after))
    ensures AllCounted(after)
  {
    assert after.changes == s.changes && after.edits == s.edits && after.editors == s.editors;
    forall q: nat | q < |after.changes| ensures CountedEdit(after, q) || BeingCounted(after, q) {
      assert CountedEdit(s, q) || BeingCounted(s, q);
    }
  }

  /** Every change of the packets is counted as an edit, except by who has changed them and not yet come to it. */
  lemma {:induction false} EveryChangeIsCounted(run: seq<State>, i: nat)
    requires Run(run) && i < |run|
    ensures AllCounted(run[i])
  {
    if i > 0 {
      EveryChangeIsCounted(run, i - 1);
      assert StepAt(run, i - 1);
      var (s, after) := (run[i - 1], run[i]);
      if e, change :| CanChange(s, e, change) && after == WithChange(s, e, change) {
        ChangeCounts(s, e, change);
      } else if EditStep(s, after) {
        var e :| e in s.editors && s.editors[e].Changed? && after == Edited(s, e);
        EditedCounts(s, e);
      } else {
        OthersCount(s, after);
      }
    }
  }

  // ----- A round that stores everything is reported -----

  /** Every packet the round signed is stored under its sequence. */
  ghost predicate StoredAll(s: State, seen: nat, sequence: int)
    requires seen <= |s.changes|
  {
    forall k :: k in PacketsAfter(s.changes[..seen]) ==>
      Stored(k, PacketsAfter(s.changes[..seen])[k], sequence) in s.stored
  }

  /** An item of the round that is done with and was not stored. */
  ghost predicate Lost(s: State, seen: nat, sequence: int, left: Packets, k: Key)
    requires seen <= |s.changes|
  {
    && k in PacketsAfter(s.changes[..seen]) && k !in left
    && Stored(k, PacketsAfter(s.changes[..seen])[k], sequence) !in s.stored
  }

  /** Sequences are not reused, so what is stored under the round's sequence it stored itself. */
  ghost predicate Traced(s: State) {
    && (forall x :: x in s.stored ==> x.sequence <= s.previous)
    && (s.round.Some? && s.round.value.Storing? ==>
          var Storing(_, seen, sequence, left, ok) := s.round.value;
          && seen <= |s.changes| && sequence == s.previous
          && (forall k :: k in left ==>
                k in PacketsAfter(s.changes[..seen]) && left[k] == PacketsAfter(s.changes[..seen])[k])
          && (forall x :: x in s.stored && x.sequence == sequence ==> x.key !in left)
          && (!ok ==> exists k :: Lost(s, seen, sequence, left, k)))
  }

  lemma EditTraced(s: State, after: State)
    requires Traced(s) && EditStep(s, after)
    ensures Traced(after)
  {
    if s.round.Some? && s.round.value.Storing? {
      var Storing(_, seen, sequence, left, ok) := s.round.value;
      assert after.changes[..seen] == s.changes[..seen];
      if !ok {
        var k :| Lost(s, seen, sequence, left, k);
        assert Lost(after, seen, sequence, left, k);
      }
    }
  }

  lemma SignedTraced(s: State, now: int)
    requires Traced(s) && s.round.Some? && s.round.value.Counted?
    ensures Traced(Signed(s, now))
  {
    assert s.changes[..|s.changes|] == s.changes;
  }

  lemma ItemTraced(s: State, after: State, key: Key)
    requires Traced(s) && s.round.Some? && s.round.value.Storing? && key in s.round.value.left
    requires after == StoredItem(s, key) || after == FailedItem(s, key)
    ensures Traced(after)
  {
    var Storing(_, seen, sequence, left, ok) := s.round.value;
    if !ok {
      var k :| Lost(s, seen, sequence, left, k);
      assert Lost(after, seen, sequence, left - {key}, k);
    } else if !after.round.value.ok {
      assert Stored(key, left[key], sequence) !in s.stored;
      assert Lost(after, seen, sequence, left - {key}, key);
    }
  }

  lemma RoundTraced(s: State, after: State)
    requires Traced(s) && RoundStep(s, after)
    ensures Traced(after)
  {
    if s.round.Some? && s.round.value.Counted? && after.round.Some? {
      var now :| after == Signed(s, now);
      SignedTraced(s, now);
    } else if s.round.Some? && s.round.value.Storing? && after.round.Some? {
      var key :| key in s.round.value.left && (after == StoredItem(s, key) || after == FailedItem(s, key));
      ItemTraced(s, after, key);
    }
  }

  lemma {:induction false} RunTraced(run: seq<State>, i: nat)
    requires Run(run) && i < |run|
    ensures Traced(run[i])
  {
    if i > 0 {
      RunTraced(run, i - 1);
      assert StepAt(run, i - 1);
      if EditStep(run[i - 1], run[i]) {
        EditTraced(run[i - 1], run[i]);
      } else if RoundStep(run[i - 1], run[i]) {
        RoundTraced(run[i - 1], run[i]);
      } else {
        WaitTraced(run[i - 1], run[i]);
      }
    }
  }

  lemma WaitTraced(s: State, after: State)
    requires Traced(s) && WaitStep(s, after)
    ensures Traced(after)
  {
    if s.round.Some? && s.round.value.Storing? && !s.round.value.ok {
      var Storing(_, seen, sequence, left, _) := s.round.value;
      var k :| Lost(s, seen, sequence, left, k);
      assert Lost(after, seen, sequence, left, k);
    }
  }

  /** The round is through with its items and ends by itself. */
  ghost predicate Ends(s: State, after: State) {
    s.round.Some? && s.round.value.Storing? && s.round.value.left == map[] && after == Finished(s)
  }

  /**
   A round that ends by itself is reported if and only if it stored every packet
   it signed: `published` is then the generation it counted, and every wait that
   began at no later a generation can return. Otherwise `published` stays.
   */
  lemma CompleteRoundIsPublished(run: seq<State>, i: nat)
    requires Run(run) && i + 1 < |run| && Ends(run[i], run[i + 1])
    ensures var (s, after) := (run[i], run[i + 1]);
            var Storing(g, seen, sequence, _, _) := s.round.value;
            && seen <= |s.changes| && after.round == None
            && after.published == (if StoredAll(s, seen, sequence) then g else s.published)
            && (StoredAll(s, seen, sequence) ==>
                  forall w :: w in after.waits && after.waits[w] <= g ==>
                    WaitStep(after, after.(returned := after.returned + {w})))
  {
    RunKeeps(run, i);
    RunTraced(run, i);
    var s := run[i];
    var Storing(g, seen, sequence, left, ok) := s.round.value;
    if ok {
      assert AllStored(s, seen, sequence, left);
    } else {
      var k :| Lost(s, seen, sequence, left, k);
    }
  }

  // ----- The fields the steps change -----

  /** The publisher as the source updates it; each method is one locked region and refines its step. */
  class Publisher {
    var packets: Packets
    var generation: nat
    var published: nat
    var previous: int

    ghost predicate Shows(s: State)
      reads this
    {
      packets == s.Packets() && generation == s.Generation() && published == s.published && previous == s.previous
    }

    constructor ()
      ensures forall s :: Initial(s) ==> Shows(s)
    {
      packets, generation, published, previous := map[], 0, 0, 0;
    }

    /** `set_raw` up to the edit; a packet over the BEP 44 limit is refused. */
    method SetRaw(key: Key, packet: Bytes, ghost s: State, ghost e: nat) returns (ok: bool)
      requires Shows(s) && e in s.editors && s.editors[e].Resting?
      modifies this`packets
      ensures ok <==> |packet| <= 1000
      ensures ok <==> CanChange(s, e, Change(key, Some(packet)))
      ensures Shows(if ok then WithChange(s, e, Change(key, Some(packet))) else s)
    {
      if |packet| > 1000 {
        return false;
      }
      assert (s.changes + [Change(key, Some(packet))])[..|s.changes|] == s.changes;
      packets := packets[key := packet];
      return true;
    }

    method Remove(key: Key, ghost s: State, ghost e: nat) returns (removed: bool)
      requires Shows(s) && e in s.editors && s.editors[e].Resting?
      modifies this`packets
      ensures removed <==> CanChange(s, e, Change(key, None))
      ensures Shows(if removed then WithChange(s, e, Change(key, None)) else s)
    {
      removed := key in packets;
      assert (s.changes + [Change(key, None)])[..|s.changes|] == s.changes;
      packets := packets - {key};
    }

    method CountEdit(ghost s: State, ghost e: nat)
      requires Shows(s) && e in s.editors && s.editors[e].Changed?
      modifies this`generation
      ensures Shows(Edited(s, e))
    {
      generation := generation + 1;
    }

    method SignAll(now: int, ghost s: State) returns (sequence: int, items: Packets)
      requires Shows(s) && s.round.Some? && s.round.value.Counted?
      modifies this`previous
      ensures Shows(Signed(s, now))
      ensures Signed(s, now).round ==
              Some(Storing(s.round.value.generation, |s.changes|, sequence, items, true))
    {
      previous := if now >= previous + 1 then now else previous + 1;
      sequence, items := previous, packets;
    }

    /** The loop over the signed items: every one is attempted, also after a failure. */
    method PutAll(items: Packets, put: Key -> bool, ghost s: State) returns (ok: bool, ghost after: State)
      requires s.round.Some? && s.round.value.Storing? && s.round.value.ok && s.round.value.left == items
      ensures ok <==> forall key :: key in items ==> put(key)
      ensures after == s.(stored := after.stored, round := Some(s.round.value.(left := map[], ok := ok)))
      ensures after.stored == s.stored + set key | key in items && put(key) ::
                                           Stored(key, items[key], s.round.value.sequence)
    {
      ghost var sequence := s.round.value.sequence;
      var left := items;
      ok, after := true, s;
      while left != map[]
        invariant left.Keys <= items.Keys && forall key :: key in left ==> left[key] == items[key]
        invariant ok <==> forall key :: key in items && key !in left ==> put(key)
        invariant after == s.(stored := after.stored, round := Some(s.round.value.(left := left, ok := ok)))
        invariant after.stored == s.stored + set key | key in items && key !in left && put(key) ::
                                               Stored(key, items[key], sequence)
        decreases left.Keys
      {
        var key :| key in left;
        after := if put(key) then StoredItem(after, key) else FailedItem(after, key);
        ok := ok && put(key);
        left := left - {key};
      }
    }

    method Report(counted: nat, ok: bool, ghost s: State)
      requires Shows(s) && s.round.Some? && s.round.value.Storing? && s.round.value.left == map[]
      requires counted == s.round.value.generation && ok == s.round.value.ok
      modifies this`published
      ensures Shows(Finished(s))
    {
      if ok {
        published := counted;
      }
    }
  }
}
