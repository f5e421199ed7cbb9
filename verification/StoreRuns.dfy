/** What the store promises over every sequence of operations. */
module StoreRuns {
  import opened Base
  import opened AddrStore
  import Wire

  datatype Op =
    | PutOp(addr: SocketAddr, value: Bytes, limits: Limits, now: U64)
    | GetOp(addr: SocketAddr, now: U64)
    | GcOp(now: U64)

  datatype Outcome = PutDone(result: PutResult) | Found(value: Option<Bytes>) | Collected

  function Perform(e: Entries, op: Op): (Entries, Outcome) {
    match op
    case PutOp(addr, value, limits, now) =>
      var (after, result) := PutTo(e, addr, value, now, limits);
      (after, PutDone(result))
    case GetOp(addr, now) => (Live(e, now), Found(Lookup(Live(e, now), addr)))
    case GcOp(now) => (Live(e, now), Collected)
  }

  ghost function After(e: Entries, ops: seq<Op>): Entries {
    if ops == [] then e else Perform(After(e, ops[..|ops| - 1]), ops[|ops| - 1]).0
  }

  ghost function Outcomes(e: Entries, ops: seq<Op>): (r: seq<Outcome>)
    ensures |r| == |ops|
  {
    if ops == [] then [] else
      var last := |ops| - 1;
      Outcomes(e, ops[..last]) + [Perform(After(e, ops[..last]), ops[last]).1]
  }

  // ----- A store that never collects -----

  /**
   The naive store: it keeps every entry until it is overwritten or evicted and
   compares timestamps on each read.
   */
  function NaivePerform(n: Entries, op: Op): (Entries, Outcome) {
    match op
    case PutOp(addr, value, limits, now) =>
      var decision := Decide(Live(n, now), addr, |value|, limits);
      var (after, result) := Apply(n, decision, addr, NewEntry(value, now, limits));
      (after, PutDone(result))
    case GetOp(addr, now) =>
      (n, Found(if addr in n && n[addr].expiresAt > now then Some(n[addr].value) else None))
    case GcOp(_) => (n, Collected)
  }

  ghost function NaiveAfter(n: Entries, ops: seq<Op>): Entries {
    if ops == [] then n else NaivePerform(NaiveAfter(n, ops[..|ops| - 1]), ops[|ops| - 1]).0
  }

  ghost function NaiveOutcomes(n: Entries, ops: seq<Op>): (r: seq<Outcome>)
    ensures |r| == |ops|
  {
    if ops == [] then [] else
      var last := |ops| - 1;
      NaiveOutcomes(n, ops[..last]) + [NaivePerform(NaiveAfter(n, ops[..last]), ops[last]).1]
  }

  ghost predicate ClockForward(ops: seq<Op>) {
    forall i, j :: 0 <= i < j < |ops| ==> ops[i].now <= ops[j].now
  }

  lemma LiveAgain(e: Entries, t: U64, u: U64)
    requires t <= u
    ensures Live(Live(e, t), u) == Live(e, u)
  {
  }

  lemma LiveInserted(e: Entries, addr: SocketAddr, entry: Entry, t: U64)
    ensures Live(e[addr := entry], t) ==
            if entry.expiresAt > t then Live(e, t)[addr := entry] else Live(e, t) - {addr}
  {
  }

  lemma LiveRemoved(e: Entries, addr: SocketAddr, t: U64)
    ensures Live(e - {addr}, t) == Live(e, t) - {addr}
  {
  }

  lemma ApplyAgrees(e: Entries, n: Entries, d: Decision, addr: SocketAddr, entry: Entry, t: U64)
    requires Live(e, t) == Live(n, t)
    ensures Live(Apply(e, d, addr, entry).0, t) == Live(Apply(n, d, addr, entry).0, t)
    ensures Apply(e, d, addr, entry).1 == Apply(n, d, addr, entry).1
  {
    match d
    case Refuse(_) =>
    case Write =>
      LiveInserted(e, addr, entry, t);
      LiveInserted(n, addr, entry, t);
    case Evict(victim) =>
      LiveRemoved(e, victim, t);
      LiveRemoved(n, victim, t);
      LiveInserted(e - {victim}, addr, entry, t);
      LiveInserted(n - {victim}, addr, entry, t);
  }

  lemma StepAgrees(e: Entries, n: Entries, op: Op, t: U64)
    requires t <= op.now && Live(e, t) == Live(n, t)
    ensures Live(Perform(e, op).0, op.now) == Live(NaivePerform(n, op).0, op.now)
    ensures Perform(e, op).1 == NaivePerform(n, op).1
  {
    LiveAgain(e, t, op.now);
    LiveAgain(n, t, op.now);
    LiveAgain(e, op.now, op.now);
    if op.PutOp? {
      var d := Decide(Live(n, op.now), op.addr, |op.value|, op.limits);
      ApplyAgrees(Live(e, op.now), n, d, op.addr, NewEntry(op.value, op.now, op.limits), op.now);
    }
  }

  /** With a clock that never steps back, every outcome is the naive store's. */
  lemma {:induction false} AgreesWithNaive(ops: seq<Op>)
    requires ClockForward(ops)
    ensures Outcomes(map[], ops) == NaiveOutcomes(map[], ops)
    ensures ops != [] ==>
              var t := ops[|ops| - 1].now; Live(After(map[], ops), t) == Live(NaiveAfter(map[], ops), t)
  {
    if ops != [] {
      var last := |ops| - 1;
      var earlier := ops[..last];
      AgreesWithNaive(earlier);
      var t := if earlier == [] then 0 else earlier[|earlier| - 1].now;
      StepAgrees(After(map[], earlier), NaiveAfter(map[], earlier), ops[last], t);
    }
  }

  /** A clock that steps back shows what collecting early loses. */
  lemma CollectingIsFinal(addr: SocketAddr, limits: Limits)
    requires limits == Limits(1, 1, 1, 10)
    ensures var ops := [PutOp(addr, [7], limits, 0), GcOp(20), GetOp(addr, 5)];
            && Outcomes(map[], ops)[2] == Found(None)
            && NaiveOutcomes(map[], ops)[2] == Found(Some([7]))
  {
    var (put, gc, get) := (PutOp(addr, [7], limits, 0), GcOp(20), GetOp(addr, 5));
    var ops := [put, gc, get];
    assert ops[..2] == [put, gc] && [put, gc][..1] == [put] && [put][..0] == [];
    assert After(map[], [put]) == map[addr := Entry([7], 10)];
    assert After(map[], [put, gc]) == map[];
    assert NaiveAfter(map[], [put]) == map[addr := Entry([7], 10)];
    assert NaiveAfter(map[], [put, gc]) == map[addr := Entry([7], 10)];
  }

  // ----- Limits -----

  ghost predicate Bounded(e: Entries, limits: Limits) {
    && |e| <= limits.maxEntries
    && (forall ip: U32 :: |OfIp(e, ip)| <= limits.maxEntriesPerIp)
    && (forall a :: a in e ==> |e[a].value| <= Min(limits.maxValueLen, Wire.MAX_VALUE_LEN))
  }

  ghost predicate FixedLimits(ops: seq<Op>, limits: Limits) {
    forall i :: 0 <= i < |ops| && ops[i].PutOp? ==> ops[i].limits == limits
  }

  lemma SubsetCount(small: Entries, big: Entries, ip: U32)
    requires small.Keys <= big.Keys
    ensures |OfIp(small, ip)| <= |OfIp(big, ip)| && |small| <= |big|
  {
    Smaller(OfIp(small, ip), OfIp(big, ip));
    Smaller(small.Keys, big.Keys);
  }

  lemma Smaller<T>(a: set<T>, b: set<T>)
    requires a <= b
    ensures |a| <= |b|
  {
    assert b == a + (b - a);
  }

  lemma SubsetBounded(small: Entries, big: Entries, limits: Limits)
    requires small.Keys <= big.Keys && (forall a :: a in small ==> small[a] == big[a]) && Bounded(big, limits)
    ensures Bounded(small, limits)
  {
    forall ip: U32 ensures |OfIp(small, ip)| <= |OfIp(big, ip)| {
      SubsetCount(small, big, ip);
    }
    SubsetCount(small, big, 0);
  }

  lemma InsertBounded(e: Entries, addr: SocketAddr, entry: Entry, limits: Limits)
    requires Bounded(e, limits) && |entry.value| <= Min(limits.maxValueLen, Wire.MAX_VALUE_LEN)
    requires addr !in e ==> |e| < limits.maxEntries && |OfIp(e, addr.ip)| < limits.maxEntriesPerIp
    ensures Bounded(e[addr := entry], limits)
  {
    var after := e[addr := entry];
    assert after.Keys == e.Keys + {addr};
    forall ip: U32 ensures |OfIp(after, ip)| <= limits.maxEntriesPerIp {
      assert OfIp(after, ip) == if ip == addr.ip then OfIp(e, ip) + {addr} else OfIp(e, ip);
      assert addr in e ==> addr in OfIp(e, addr.ip);
    }
  }

  lemma PutBounded(e: Entries, addr: SocketAddr, value: Bytes, now: U64, limits: Limits)
    requires Bounded(e, limits)
    ensures Bounded(PutTo(e, addr, value, now, limits).0, limits)
  {
    var live := Live(e, now);
    SubsetBounded(live, e, limits);
    match Decide(live, addr, |value|, limits)
    case Refuse(_) =>
    case Write =>
      InsertBounded(live, addr, NewEntry(value, now, limits), limits);
    case Evict(victim) =>
      var rest := live - {victim};
      SubsetBounded(rest, live, limits);
      SubsetCount(rest, live, addr.ip);
      assert rest.Keys == live.Keys - {victim};
      InsertBounded(rest, addr, NewEntry(value, now, limits), limits);
  }

  /** From empty, under limits that do not change, every limit holds at all times, whatever the clock does. */
  lemma {:induction false} LimitsHold(ops: seq<Op>, limits: Limits)
    requires FixedLimits(ops, limits)
    ensures Bounded(After(map[], ops), limits)
  {
    if ops == [] {
      assert forall ip: U32 :: OfIp(map[], ip) == {};
    } else {
      var last := |ops| - 1;
      var earlier := After(map[], ops[..last]);
      LimitsHold(ops[..last], limits);
      match ops[last]
      case PutOp(addr, value, _, now) => PutBounded(earlier, addr, value, now, limits);
      case GetOp(_, now) => SubsetBounded(Live(earlier, now), earlier, limits);
      case GcOp(now) => SubsetBounded(Live(earlier, now), earlier, limits);
    }
  }

  /** `after` is `live` with one entry written and nothing lost that expires later than a survivor. */
  ghost predicate Displaces(live: Entries, after: Entries, addr: SocketAddr, entry: Entry) {
    && addr in after && after[addr] == entry
    && (forall a :: a in after && a != addr ==> a in live && after[a] == live[a])
    && |live.Keys - after.Keys| <= 1
    && (forall v, a :: v in live.Keys - after.Keys && a in after && a != addr ==>
          live[v].expiresAt <= live[a].expiresAt)
  }

  lemma WriteDisplaces(live: Entries, addr: SocketAddr, entry: Entry)
    ensures Displaces(live, live[addr := entry], addr, entry)
    ensures live.Keys <= live[addr := entry].Keys
  {
    assert live.Keys - live[addr := entry].Keys == {};
  }

  lemma EvictDisplaces(live: Entries, victim: SocketAddr, addr: SocketAddr, entry: Entry)
    requires victim in live && addr !in live
    requires forall a :: a in live ==> live[victim].expiresAt <= live[a].expiresAt
    ensures Displaces(live, (live - {victim})[addr := entry], addr, entry)
  {
    var after := (live - {victim})[addr := entry];
    assert after.Keys == live.Keys - {victim} + {addr};
    assert live.Keys - after.Keys == {victim};
  }

  /**
   An accepted put loses at most one live entry, none that a survivor expires
   before, and none while there is room.
   */
  lemma EvictionSparesLater(e: Entries, addr: SocketAddr, value: Bytes, now: U64, limits: Limits)
    requires PutTo(e, addr, value, now, limits).1 == Accepted
    ensures var (live, after) := (Live(e, now), PutTo(e, addr, value, now, limits).0);
            && Displaces(live, after, addr, NewEntry(value, now, limits))
            && (|live| < limits.maxEntries || addr in live ==> live.Keys <= after.Keys)
  {
    var live := Live(e, now);
    if Decide(live, addr, |value|, limits).Write? {
      WriteDisplaces(live, addr, NewEntry(value, now, limits));
    } else {
      EvictDisplaces(live, Oldest(live), addr, NewEntry(value, now, limits));
    }
  }

  /** An accepted value is found for exactly its time to live, if nothing replaces or evicts it. */
  lemma FoundUntilItExpires(e: Entries, addr: SocketAddr, value: Bytes, now: U64, limits: Limits, later: U64)
    requires PutTo(e, addr, value, now, limits).1 == Accepted
    ensures Perform(PutTo(e, addr, value, now, limits).0, GetOp(addr, later)).1 ==
            Found(if later < now + limits.valueTtlSecs && later < U64_MAX then Some(value) else None)
  {
  }

  /**
   A value of allowed length is refused only when its address is new and either
   its IP already holds its quota or the store may hold nothing and does: a full
   store evicts.
   */
  lemma RefusedOnlyForQuota(e: Entries, addr: SocketAddr, value: Bytes, now: U64, limits: Limits)
    ensures var (live, result) := (Live(e, now), PutTo(e, addr, value, now, limits).1);
            && (result == Rejected(TooLarge) <==> |value| > Min(limits.maxValueLen, Wire.MAX_VALUE_LEN))
            && (result == Rejected(Full) <==>
                  && |value| <= Min(limits.maxValueLen, Wire.MAX_VALUE_LEN) && addr !in live
                  && (|| |OfIp(live, addr.ip)| >= limits.maxEntriesPerIp
                      || (limits.maxEntries == 0 && live == map[])))
  {
    if Live(e, now) == map[] {
      assert |Live(e, now)| == 0;
    }
  }
}
