/**
 The cache of index lookups and the lock that makes concurrent lookups of one
 socket share a request.

 The class is the cache as the source updates it. Callers run concurrently;
 their steps between awaits use the same functions of the cache's contents.
 Instants are in milliseconds.
 */
module LookupCache {
  import opened Base

  const CAPACITY: nat := 4096
  const MISS_TTL: nat := 30_000

  type Records = seq<Bytes>
  type Lock = nat

  /** A remembered lookup. */
  datatype Slot = Slot(addr: SocketAddr, expires: nat, records: Records)

  /** Slots from most to least recently used, and the lock of each lookup under way. */
  datatype Cache = Cache(slots: seq<Slot>, pending: map<SocketAddr, Lock>)

  // ----- The cache -----

  predicate Holds(slots: seq<Slot>, addr: SocketAddr) {
    exists i :: 0 <= i < |slots| && slots[i].addr == addr
  }

  function Find(slots: seq<Slot>, addr: SocketAddr): (i: nat)
    ensures i <= |slots| && (i < |slots| ==> slots[i].addr == addr)
    ensures i == |slots| <==> !Holds(slots, addr)
  {
    if slots == [] || slots[0].addr == addr then 0 else
      assert Holds(slots[1..], addr) ==> Holds(slots, addr);
      assert forall i :: 1 <= i < |slots| ==> slots[i] == slots[1..][i - 1];
      1 + Find(slots[1..], addr)
  }

  function Without(slots: seq<Slot>, i: nat): seq<Slot>
    requires i < |slots|
  {
    slots[..i] + slots[i + 1..]
  }

  /** `get`: an expired slot is dropped, a live one becomes the most recent. */
  function Get(slots: seq<Slot>, addr: SocketAddr, now: nat): (seq<Slot>, Option<Records>) {
    var i := Find(slots, addr);
    if i == |slots| then (slots, None)
    else if slots[i].expires <= now then (Without(slots, i), None)
    else ([slots[i]] + Without(slots, i), Some(slots[i].records))
  }

  function TtlOf(ttl: nat, records: Records): nat {
    if records == [] then Min(ttl, MISS_TTL) else ttl
  }

  /** `insert`: the newest slot comes first, and the least recent one goes when there is no room. */
  function Put(slots: seq<Slot>, ttl: nat, addr: SocketAddr, records: Records, now: nat): seq<Slot> {
    if TtlOf(ttl, records) == 0 then slots else
      var slot := Slot(addr, now + TtlOf(ttl, records), records);
      var i := Find(slots, addr);
      if i < |slots| then [slot] + Without(slots, i)
      else if |slots| < CAPACITY then [slot] + slots
      else [slot] + slots[..|slots| - 1]
  }

  /** `pending`: the lock in use for the socket, or a new one; locks nobody holds are forgotten. */
  function Claim(pending: map<SocketAddr, Lock>, addr: SocketAddr, held: set<Lock>, next: Lock)
    : (map<SocketAddr, Lock>, Lock)
  {
    if addr in pending && pending[addr] in held then (pending, pending[addr])
    else ((map a | a in pending && pending[a] in held :: pending[a])[addr := next], next)
  }

  class LookupCache {
    const ttl: nat
    var slots: seq<Slot>
    var pending: map<SocketAddr, Lock>

    ghost predicate Valid()
      reads this
    {
      Distinct(slots) && |slots| <= CAPACITY
    }

    constructor (ttl: nat)
      ensures Valid() && this.ttl == ttl && slots == [] && pending == map[]
    {
      this.ttl := ttl;
      slots, pending := [], map[];
    }

    method GetRecords(addr: SocketAddr, now: nat) returns (records: Option<Records>)
      requires Valid()
      modifies this`slots
      ensures Valid() && (slots, records) == Get(old(slots), addr, now)
    {
      GetKeeps(slots, addr, now);
      var i := Find(slots, addr);
      if i < |slots| && slots[i].expires <= now {
        slots := slots[..i] + slots[i + 1..];
        return None;
      }
      if i == |slots| {
        return None;
      }
      records := Some(slots[i].records);
      slots := [slots[i]] + (slots[..i] + slots[i + 1..]);
    }

    method Insert(addr: SocketAddr, records: Records, now: nat)
      requires Valid()
      modifies this`slots
      ensures Valid() && slots == Put(old(slots), ttl, addr, records, now)
    {
      PutKeeps(slots, ttl, addr, records, now);
      var life := if records == [] then Min(ttl, MISS_TTL) else ttl;
      if life == 0 {
        return;
      }
      var i := Find(slots, addr);
      if i < |slots| {
        slots := slots[..i] + slots[i + 1..];
      } else if |slots| >= CAPACITY {
        slots := slots[..|slots| - 1];
      }
      slots := [Slot(addr, now + life, records)] + slots;
    }

    /** `held` are the locks some caller still holds; `next` is a lock not used before. */
    method Pending(addr: SocketAddr, held: set<Lock>, next: Lock) returns (lock: Lock)
      modifies this`pending
      ensures (pending, lock) == Claim(old(pending), addr, held, next)
    {
      if addr in pending && pending[addr] in held {
        return pending[addr];
      }
      pending := map a | a in pending && pending[a] in held :: pending[a];
      pending := pending[addr := next];
      return next;
    }
  }

  ghost predicate Distinct(slots: seq<Slot>) {
    forall i, j :: 0 <= i < j < |slots| ==> slots[i].addr != slots[j].addr
  }

  lemma WithoutKeeps(slots: seq<Slot>, i: nat)
    requires Distinct(slots) && i < |slots|
    ensures Distinct(Without(slots, i)) && !Holds(Without(slots, i), slots[i].addr)
    ensures forall x :: x in Without(slots, i) ==> x in slots
  {
    var rest := Without(slots, i);
    forall k | 0 <= k < |rest| ensures rest[k] == slots[if k < i then k else k + 1] {
    }
  }

  lemma GetKeeps(slots: seq<Slot>, addr: SocketAddr, now: nat)
    requires Distinct(slots)
    ensures Distinct(Get(slots, addr, now).0) && |Get(slots, addr, now).0| <= |slots|
    ensures forall x :: x in Get(slots, addr, now).0 ==> x in slots
    ensures Get(slots, addr, now).1.Some? ==>
              exists x :: x in slots && x.addr == addr && x.records == Get(slots, addr, now).1.value && now < x.expires
  {
    var i := Find(slots, addr);
    if i < |slots| {
      WithoutKeeps(slots, i);
      assert slots[i] in slots;
    }
  }

  lemma PutKeeps(slots: seq<Slot>, ttl: nat, addr: SocketAddr, records: Records, now: nat)
    requires Distinct(slots)
    ensures var after := Put(slots, ttl, addr, records, now);
            && Distinct(after) && (|slots| <= CAPACITY ==> |after| <= CAPACITY)
            && (forall x :: x in after ==>
                  x in slots || (x == Slot(addr, now + TtlOf(ttl, records), records) && TtlOf(ttl, records) > 0))
  {
    var i := Find(slots, addr);
    if i < |slots| {
      WithoutKeeps(slots, i);
    }
  }

  /** An answer just stored with a time to live is found until it expires, and not after. */
  lemma InsertedIsFound(slots: seq<Slot>, ttl: nat, addr: SocketAddr, records: Records, now: nat, later: nat)
    requires Distinct(slots) && TtlOf(ttl, records) > 0
    ensures Get(Put(slots, ttl, addr, records, now), addr, later).1 ==
            if later < now + TtlOf(ttl, records) then Some(records) else None
  {
    assert Put(slots, ttl, addr, records, now)[0].addr == addr;
  }

  /** Only the slot used longest ago ever makes room, and only when there is none; all others keep their order. */
  lemma OnlyOldestMakesRoom(slots: seq<Slot>, ttl: nat, addr: SocketAddr, records: Records, now: nat)
    requires Distinct(slots) && TtlOf(ttl, records) > 0
    ensures var after := Put(slots, ttl, addr, records, now);
            && after != [] && after[0].addr == addr
            && (if Holds(slots, addr) then after[1..] == Others(slots, addr)
                else if |slots| < CAPACITY then after[1..] == slots
                else after[1..] == slots[..|slots| - 1])
  {
    if Holds(slots, addr) {
      OthersWithout(slots, addr);
    }
  }

  /** A find makes its slot the most recent one and keeps the order of all others. */
  lemma FoundComesFirst(slots: seq<Slot>, addr: SocketAddr, now: nat)
    requires Distinct(slots)
    ensures var (after, found) := Get(slots, addr, now);
            if found.Some? then
              after != [] && after[0] in slots && after[0].addr == addr && after[1..] == Others(slots, addr)
            else if Holds(slots, addr) then after == Others(slots, addr)
            else after == slots
    ensures Get(slots, addr, now).1.Some? <==> exists x :: x in slots && x.addr == addr && now < x.expires
  {
    if Holds(slots, addr) {
      OthersWithout(slots, addr);
      var i := Find(slots, addr);
      assert slots[i] in slots;
      forall x | x in slots && x.addr == addr ensures x == slots[i] {
      }
    }
  }

  /** The slots of all other sockets, in order. */
  function Others(slots: seq<Slot>, addr: SocketAddr): seq<Slot> {
    if slots == [] then [] else
      (if slots[0].addr == addr then [] else [slots[0]]) + Others(slots[1..], addr)
  }

  lemma {:induction false} OthersAreAll(slots: seq<Slot>, addr: SocketAddr)
    requires !Holds(slots, addr)
    ensures Others(slots, addr) == slots
  {
    if slots != [] {
      assert forall i :: 0 <= i < |slots[1..]| ==> slots[1..][i] == slots[i + 1];
      assert !Holds(slots[1..], addr);
      OthersAreAll(slots[1..], addr);
    }
  }

  lemma {:induction false} OthersWithout(slots: seq<Slot>, addr: SocketAddr)
    requires Distinct(slots) && Holds(slots, addr)
    ensures Others(slots, addr) == Without(slots, Find(slots, addr))
  {
    assert forall i :: 0 <= i < |slots[1..]| ==> slots[1..][i] == slots[i + 1];
    if slots[0].addr == addr {
      assert !Holds(slots[1..], addr);
      OthersAreAll(slots[1..], addr);
    } else {
      OthersWithout(slots[1..], addr);
      var i := Find(slots[1..], addr);
      assert Without(slots, i + 1) == [slots[0]] + Without(slots[1..], i);
    }
  }

  // ----- Concurrent callers -----

  /** Where a caller of `lookup` is. */
  datatype Caller =
    | Asking(addr: SocketAddr)
    | Missed(addr: SocketAddr)
    | Queued(addr: SocketAddr, lock: Lock)
    | Rechecking(addr: SocketAddr, lock: Lock)
    | Fetching(addr: SocketAddr, lock: Lock)
    | Done
  {
    /** It keeps a lock alive. */
    predicate Holder() {
      Queued? || Rechecking? || Fetching?
    }

    /** It owns the lock. */
    predicate Owner() {
      Rechecking? || Fetching?
    }
  }

  /** An uncached lookup that succeeded, or an answer given to a caller. */
  datatype Answer = Answer(addr: SocketAddr, records: Records, at: nat)

  datatype State = State(
    ttl: nat,
    clock: nat,
    cache: Cache,
    callers: map<nat, Caller>,
    next: Lock,
    fetched: set<Answer>,
    answered: set<Answer>)

  ghost predicate Initial(s: State) {
    && s.cache == Cache([], map[]) && s.fetched == {} && s.answered == {}
    && (forall c :: c in s.callers ==> s.callers[c].Asking?)
  }

  function Held(callers: map<nat, Caller>): set<Lock> {
    set c | c in callers && callers[c].Holder() :: callers[c].lock
  }

  function Move(s: State, c: nat, to: Caller): State {
    s.(callers := s.callers[c := to])
  }

  /** A look into the cache: answered, or on to `miss`. */
  function Look(s: State, c: nat, addr: SocketAddr, miss: Caller): State {
    var (slots, found) := Get(s.cache.slots, addr, s.clock);
    var looked := s.(cache := s.cache.(slots := slots));
    match found
    case None => Move(looked, c, miss)
    case Some(records) => Move(looked, c, Done).(answered := s.answered + {Answer(addr, records, s.clock)})
  }

  function Enter(s: State, c: nat, addr: SocketAddr): State {
    var (pending, lock) := Claim(s.cache.pending, addr, Held(s.callers), s.next);
    Move(s, c, Queued(addr, lock)).(cache := s.cache.(pending := pending), next := s.next + 1)
  }

  function Fetched(s: State, c: nat, addr: SocketAddr, records: Records): State {
    var answer := Answer(addr, records, s.clock);
    Move(s, c, Done).(
      cache := s.cache.(slots := Put(s.cache.slots, s.ttl, addr, records, s.clock)),
      fetched := s.fetched + {answer},
      answered := s.answered + {answer})
  }

  /** A remembered answer is used: a caller that finds a live slot is done, without asking anyone. */
  lemma LiveSlotAnswers(s: State, c: nat, x: Slot, miss: Caller)
    requires Distinct(s.cache.slots) && x in s.cache.slots && s.clock < x.expires
    ensures var after := Look(s, c, x.addr, miss);
            && c in after.callers && after.callers[c].Done?
            && Answer(x.addr, x.records, s.clock) in after.answered && after.fetched == s.fetched
  {
    FoundComesFirst(s.cache.slots, x.addr, s.clock);
    GetKeeps(s.cache.slots, x.addr, s.clock);
  }

  /** An answer that was fetched is remembered: whoever looks before it expires finds it. */
  lemma FetchedIsRemembered(s: State, c: nat, addr: SocketAddr, records: Records, later: nat)
    requires Distinct(s.cache.slots) && later < s.clock + TtlOf(s.ttl, records)
    ensures var after := Fetched(s, c, addr, records);
            && Answer(addr, records, s.clock) in after.answered && Answer(addr, records, s.clock) in after.fetched
            && (s.clock <= later ==> Get(after.cache.slots, addr, later).1 == Some(records))
  {
    if s.clock <= later {
      InsertedIsFound(s.cache.slots, s.ttl, addr, records, s.clock, later);
    }
  }

  ghost predicate Free(s: State, lock: Lock) {
    forall d :: d in s.callers && s.callers[d].Owner() ==> s.callers[d].lock != lock
  }

  ghost predicate CallerStep(s: State, after: State, c: nat) {
    && c in s.callers
    && (|| after == Move(s, c, Done)
        || match s.callers[c]
           case Asking(addr) => after == Look(s, c, addr, Missed(addr))
           case Missed(addr) => after == Enter(s, c, addr)
           case Queued(addr, lock) => Free(s, lock) && after == Move(s, c, Rechecking(addr, lock))
           case Rechecking(addr, lock) => after == Look(s, c, addr, Fetching(addr, lock))
           case Fetching(addr, _) => exists records :: after == Fetched(s, c, addr, records)
           case Done => exists addr :: after == Move(s, c, Asking(addr)))
  }

  ghost predicate Step(s: State, after: State) {
    || (exists c :: CallerStep(s, after, c))
    || (after.clock >= s.clock && after == s.(clock := after.clock))
  }

  ghost predicate StepAt(run: seq<State>, i: nat) {
    i + 1 < |run| && Step(run[i], run[i + 1])
  }

  ghost predicate Run(run: seq<State>) {
    && run != [] && Initial(run[0])
    && (forall i {:trigger StepAt(run, i)} :: 0 <= i < |run| - 1 ==> StepAt(run, i))
  }

  // ----- The invariant -----

  /** Whoever holds a lock for a socket holds the one the cache knows for it, and owns it alone. */
  ghost predicate LocksOk(s: State) {
    && (forall c :: c in s.callers && s.callers[c].Holder() ==>
          && s.callers[c].addr in s.cache.pending
          && s.cache.pending[s.callers[c].addr] == s.callers[c].lock)
    && (forall a :: a in s.cache.pending ==> s.cache.pending[a] < s.next)
    && (forall c, d :: c in s.callers && d in s.callers && c != d && s.callers[c].Owner() && s.callers[d].Owner() ==>
          s.callers[c].lock != s.callers[d].lock)
  }

  /** The answer of a lookup that completed at `at`, still within its time to live at `now`. */
  ghost predicate Backed(s: State, addr: SocketAddr, records: Records, at: nat, now: nat) {
    && Answer(addr, records, at) in s.fetched
    && at <= now && (now == at || now < at + TtlOf(s.ttl, records))
  }

  /** The slot holds an answer that completed at `at`, for its time to live. */
  ghost predicate Keeps(s: State, x: Slot, at: nat) {
    Answer(x.addr, x.records, at) in s.fetched && at <= s.clock && x.expires == at + TtlOf(s.ttl, x.records)
  }

  ghost predicate SlotOk(s: State, x: Slot) {
    exists at: nat :: Keeps(s, x, at)
  }

  ghost predicate AnswerOk(s: State, x: Answer) {
    exists at :: Backed(s, x.addr, x.records, at, x.at)
  }

  ghost predicate AnswersOk(s: State) {
    && Distinct(s.cache.slots) && |s.cache.slots| <= CAPACITY
    && (forall x {:trigger SlotOk(s, x)} :: x in s.cache.slots ==> SlotOk(s, x))
    && (forall x {:trigger AnswerOk(s, x)} :: x in s.answered ==> AnswerOk(s, x))
  }

  lemma AnswersStay(s: State, after: State)
    requires AnswersOk(s) && after.ttl == s.ttl && s.fetched <= after.fetched && s.clock <= after.clock
    ensures forall x {:trigger SlotOk(after, x)} :: x in s.cache.slots ==> SlotOk(after, x)
    ensures forall x {:trigger AnswerOk(after, x)} :: x in s.answered ==> AnswerOk(after, x)
  {
    forall x | x in s.cache.slots ensures SlotOk(after, x) {
      assert SlotOk(s, x);
      var at: nat :| Keeps(s, x, at);
      assert Keeps(after, x, at);
    }
    forall x | x in s.answered ensures AnswerOk(after, x) {
      assert AnswerOk(s, x);
      var at :| Backed(s, x.addr, x.records, at, x.at);
      assert Backed(after, x.addr, x.records, at, x.at);
    }
  }

  lemma LookAnswers(s: State, c: nat, addr: SocketAddr, miss: Caller)
    requires AnswersOk(s)
    ensures AnswersOk(Look(s, c, addr, miss))
  {
    var after := Look(s, c, addr, miss);
    AnswersStay(s, after);
    GetKeeps(s.cache.slots, addr, s.clock);
    var found := Get(s.cache.slots, addr, s.clock).1;
    if found.Some? {
      var x :| x in s.cache.slots && x.addr == addr && x.records == found.value && s.clock < x.expires;
      assert SlotOk(s, x);
      var at: nat :| Keeps(s, x, at);
      assert Backed(after, addr, found.value, at, s.clock);
      assert AnswerOk(after, Answer(addr, found.value, s.clock));
    }
  }

  lemma FetchedAnswers(s: State, c: nat, addr: SocketAddr, records: Records)
    requires AnswersOk(s)
    ensures AnswersOk(Fetched(s, c, addr, records))
  {
    var after := Fetched(s, c, addr, records);
    AnswersStay(s, after);
    PutKeeps(s.cache.slots, s.ttl, addr, records, s.clock);
    assert Backed(after, addr, records, s.clock, s.clock);
    assert AnswerOk(after, Answer(addr, records, s.clock));
    assert SlotOk(after, Slot(addr, s.clock + TtlOf(s.ttl, records), records)) by {
      assert Keeps(after, Slot(addr, s.clock + TtlOf(s.ttl, records), records), s.clock);
    }
  }

  lemma StepAnswers(s: State, after: State)
    requires AnswersOk(s) && Step(s, after)
    ensures AnswersOk(after)
  {
    if c :| CallerStep(s, after, c) {
      match s.callers[c]
      case Asking(addr) =>
        LookAnswers(s, c, addr, Missed(addr));
        AnswersStay(s, Move(s, c, Done));
      case Rechecking(addr, lock) =>
        LookAnswers(s, c, addr, Fetching(addr, lock));
        AnswersStay(s, Move(s, c, Done));
      case Fetching(addr, _) =>
        AnswersStay(s, Move(s, c, Done));
        if after != Move(s, c, Done) {
          var records :| after == Fetched(s, c, addr, records);
          FetchedAnswers(s, c, addr, records);
        }
      case _ => AnswersStay(s, after);
    } else {
      AnswersStay(s, after);
    }
  }

  lemma HeldLocks(s: State, c: nat)
    requires c in s.callers && s.callers[c].Holder()
    ensures s.callers[c].lock in Held(s.callers)
  {
  }

  lemma EnterLocks(s: State, c: nat, addr: SocketAddr)
    requires LocksOk(s) && c in s.callers && s.callers[c] == Missed(addr)
    ensures LocksOk(Enter(s, c, addr))
  {
    forall d | d in s.callers && s.callers[d].Holder() ensures s.callers[d].lock in Held(s.callers) {
      HeldLocks(s, d);
    }
  }

  /** A caller that moves on keeps its lock or lets go of it, and owns it only if nobody else does. */
  lemma MoveLocks(s: State, after: State, c: nat, to: Caller)
    requires LocksOk(s) && c in s.callers && after.callers == s.callers[c := to]
    requires after.cache.pending == s.cache.pending && after.next == s.next
    requires to.Holder() ==>
               s.callers[c].Holder() && to.addr == s.callers[c].addr && to.lock == s.callers[c].lock
    requires to.Owner() ==> s.callers[c].Owner() || Free(s, to.lock)
    ensures LocksOk(after)
  {
  }

  lemma CallerStepLocks(s: State, after: State, c: nat)
    requires LocksOk(s) && CallerStep(s, after, c)
    ensures LocksOk(after)
  {
    if s.callers[c].Missed? && after != Move(s, c, Done) {
      EnterLocks(s, c, s.callers[c].addr);
    } else {
      MoveLocks(s, after, c, after.callers[c]);
    }
  }

  lemma StepLocks(s: State, after: State)
    requires LocksOk(s) && Step(s, after)
    ensures LocksOk(after)
  {
    if c :| CallerStep(s, after, c) {
      CallerStepLocks(s, after, c);
    }
  }

  lemma {:induction false} RunKeeps(run: seq<State>, i: nat)
    requires Run(run) && i < |run|
    ensures LocksOk(run[i]) && AnswersOk(run[i])
  {
    if i > 0 {
      RunKeeps(run, i - 1);
      assert StepAt(run, i - 1);
      StepLocks(run[i - 1], run[i]);
      StepAnswers(run[i - 1], run[i]);
    }
  }

  /** All holders of a lock for one socket share it, so at most one of them is asking the servers. */
  lemma OneRequestPerSocket(run: seq<State>, i: nat, c: nat, d: nat)
    requires Run(run) && i < |run| && c in run[i].callers && d in run[i].callers
    requires run[i].callers[c].Holder() && run[i].callers[d].Holder()
    requires run[i].callers[c].addr == run[i].callers[d].addr
    ensures run[i].callers[c].lock == run[i].callers[d].lock
    ensures run[i].callers[c].Fetching? && run[i].callers[d].Fetching? ==> c == d
  {
    RunKeeps(run, i);
  }

  /**
   Every answer is one that the servers gave at most the time to live ago, and
   at most thirty seconds ago if it is empty.
   */
  lemma AnswersAreRecent(run: seq<State>, i: nat, x: Answer) returns (at: nat)
    requires Run(run) && i < |run| && x in run[i].answered
    ensures Answer(x.addr, x.records, at) in run[i].fetched
    ensures at <= x.at <= at + run[i].ttl
    ensures x.records == [] ==> x.at <= at + MISS_TTL
  {
    RunKeeps(run, i);
    assert AnswerOk(run[i], x);
    at :| Backed(run[i], x.addr, x.records, at, x.at);
  }
}
