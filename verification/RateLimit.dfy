/**
 Token buckets that bound how many requests a group of source addresses gets through.

 Rates, token counts and instants are real numbers. Addresses are spread over a
 fixed table by a hash, so the model speaks of table indices.
 */
module RateLimit {
  import opened Base

  /** No token count yet means that the slot was never used; it then starts full. */
  datatype Bucket = Bucket(tokens: Option<real>, last: real)

  datatype Request = Request(index: nat, now: real)

  /** How many tokens flow in between two instants. */
  type Refill = (real, real) -> real

  /** The source's refill: the rate times the elapsed time, nothing when the clock steps back. */
  function Linear(rate: real): Refill {
    (from, to) => if to >= from then (to - from) * rate else 0.0
  }

  ghost predicate Metered(refill: Refill) {
    && (forall x, y :: refill(x, y) >= 0.0)
    && (forall x :: refill(x, x) == 0.0)
    && (forall x, y, z :: x <= y <= z ==> refill(x, y) + refill(y, z) == refill(x, z))
  }

  lemma LinearIsMetered(rate: real)
    requires rate >= 0.0
    ensures Metered(Linear(rate))
  {
    var refill := Linear(rate);
    forall x: real, y: real, z: real | x <= y <= z
      ensures refill(x, y) + refill(y, z) == refill(x, z)
    {
      assert (y - x) * rate + (z - y) * rate == (z - x) * rate;
    }
  }

  /** Tokens available at `now`, before one is taken. */
  function Level(b: Bucket, now: real, refill: Refill, burst: real): real {
    if b.tokens.None? then burst else
      var refilled := b.tokens.value + refill(b.last, now);
      if refilled <= burst then refilled else burst
  }

  /** `RateLimiters::allow` on the bucket it selects. */
  function Take(b: Bucket, now: real, refill: Refill, burst: real): (Bucket, bool) {
    var level := Level(b, now, refill, burst);
    if level < 1.0 then (Bucket(Some(level), now), false) else (Bucket(Some(level - 1.0), now), true)
  }

  function Step(table: seq<Bucket>, r: Request, refill: Refill, burst: real): (seq<Bucket>, bool)
    requires r.index < |table|
  {
    var (bucket, allowed) := Take(table[r.index], r.now, refill, burst);
    (table[r.index := bucket], allowed)
  }

  class RateLimiters {
    const buckets: array<Bucket>

    constructor (size: nat)
      ensures buckets.Length == size && fresh(buckets)
      ensures Unused(buckets[..])
    {
      buckets := new Bucket[size](_ => Bucket(None, 0.0));
    }

    method Allow(request: Request, rate: real, burst: real) returns (allowed: bool)
      requires request.index < buckets.Length
      modifies buckets
      ensures (buckets[..], allowed) == Step(old(buckets[..]), request, Linear(rate), burst)
    {
      var bucket := buckets[request.index];
      var tokens := burst;
      if bucket.tokens.Some? {
        var elapsed := if request.now >= bucket.last then request.now - bucket.last else 0.0;
        assert Linear(rate)(bucket.last, request.now) == elapsed * rate;
        tokens := bucket.tokens.value + elapsed * rate;
        if tokens > burst {
          tokens := burst;
        }
      }
      allowed := tokens >= 1.0;
      buckets[request.index] := Bucket(Some(if allowed then tokens - 1.0 else tokens), request.now);
    }
  }

  ghost predicate Unused(table: seq<Bucket>) {
    forall i :: 0 <= i < |table| ==> table[i].tokens.None?
  }

  ghost predicate InTable(requests: seq<Request>, size: nat) {
    forall i :: 0 <= i < |requests| ==> requests[i].index < size
  }

  ghost predicate Nondecreasing(requests: seq<Request>) {
    forall i, j :: 0 <= i <= j < |requests| ==> requests[i].now <= requests[j].now
  }

  /** The table after a run of requests. */
  ghost function After(table: seq<Bucket>, requests: seq<Request>, refill: Refill, burst: real): (t: seq<Bucket>)
    requires InTable(requests, |table|)
    ensures |t| == |table|
    decreases |requests|
  {
    if requests == [] then table
    else After(Step(table, requests[0], refill, burst).0, requests[1..], refill, burst)
  }

  /** How many of the requests were let through bucket `k`. */
  ghost function Admitted(table: seq<Bucket>, requests: seq<Request>, k: nat, refill: Refill, burst: real): nat
    requires InTable(requests, |table|)
    decreases |requests|
  {
    if requests == [] then 0 else
      var (next, allowed) := Step(table, requests[0], refill, burst);
      (if allowed && requests[0].index == k then 1 else 0) + Admitted(next, requests[1..], k, refill, burst)
  }

  /** Tokens are between nothing and a full burst, and no bucket was used after `t`. */
  ghost predicate Sane(table: seq<Bucket>, burst: real, t: real) {
    forall i :: 0 <= i < |table| && table[i].tokens.Some? ==>
      0.0 <= table[i].tokens.value <= burst && table[i].last <= t
  }

  lemma StepKeepsSane(table: seq<Bucket>, r: Request, refill: Refill, burst: real, t: real)
    requires Metered(refill) && burst >= 0.0
    requires r.index < |table| && t <= r.now && Sane(table, burst, t)
    ensures Sane(Step(table, r, refill, burst).0, burst, r.now)
  {
    assert refill(table[r.index].last, r.now) >= 0.0;
  }

  /** One request accounted for: bucket `k` over the time from `t` to the request. */
  lemma StepAccount(table: seq<Bucket>, r: Request, k: nat, refill: Refill, burst: real, t: real)
    requires Metered(refill) && burst >= 0.0
    requires k < |table| && r.index < |table| && t <= r.now && Sane(table, burst, t)
    ensures var (next, allowed) := Step(table, r, refill, burst);
            (if allowed && r.index == k then 1.0 else 0.0) + Level(next[k], r.now, refill, burst)
              <= Level(table[k], t, refill, burst) + refill(t, r.now)
  {
    var b := table[k];
    assert refill(b.last, t) >= 0.0 && refill(t, r.now) >= 0.0 && refill(r.now, r.now) == 0.0;
    assert b.tokens.Some? ==> refill(b.last, t) + refill(t, r.now) == refill(b.last, r.now);
  }

  /**
   The conservation law: what is admitted never exceeds what was there plus
   what was refilled.
   */
  lemma {:induction false} Conservation(
      table: seq<Bucket>, requests: seq<Request>, k: nat, refill: Refill, burst: real, t: real, u: real)
    requires Metered(refill) && burst >= 0.0
    requires k < |table| && InTable(requests, |table|) && Nondecreasing(requests)
    requires Sane(table, burst, t) && t <= u
    requires forall i :: 0 <= i < |requests| ==> t <= requests[i].now <= u
    ensures Admitted(table, requests, k, refill, burst) as real <= Level(table[k], t, refill, burst) + refill(t, u)
    decreases |requests|
  {
    if requests == [] {
      assert refill(t, u) >= 0.0 && refill(table[k].last, t) >= 0.0;
    } else {
      var r := requests[0];
      StepKeepsSane(table, r, refill, burst, t);
      StepAccount(table, r, k, refill, burst, t);
      Conservation(Step(table, r, refill, burst).0, requests[1..], k, refill, burst, r.now, u);
      assert refill(t, r.now) + refill(r.now, u) == refill(t, u);
    }
  }

  /** No refill is cut off at the burst: at each request, and up to `u`, all that flows in has room. */
  ghost predicate Uncut(
      table: seq<Bucket>, requests: seq<Request>, k: nat, refill: Refill, burst: real, t: real, u: real)
    requires k < |table| && InTable(requests, |table|)
    decreases |requests|
  {
    if requests == [] then Level(table[k], t, refill, burst) + refill(t, u) <= burst else
      && Level(table[k], t, refill, burst) + refill(t, requests[0].now) <= burst
      && Uncut(Step(table, requests[0], refill, burst).0, requests[1..], k, refill, burst, requests[0].now, u)
  }

  /** Without a cut the level grows by exactly the refill. */
  lemma LevelGrows(b: Bucket, refill: Refill, burst: real, t: real, u: real)
    requires Metered(refill) && t <= u && (b.tokens.Some? ==> b.last <= t && b.tokens.value <= burst)
    requires Level(b, t, refill, burst) + refill(t, u) <= burst
    ensures Level(b, u, refill, burst) == Level(b, t, refill, burst) + refill(t, u)
  {
    assert refill(t, u) >= 0.0;
    assert b.tokens.Some? ==> refill(b.last, t) + refill(t, u) == refill(b.last, u);
  }

  /** One request accounted for exactly. */
  lemma StepExact(table: seq<Bucket>, r: Request, k: nat, refill: Refill, burst: real, t: real)
    requires Metered(refill) && burst >= 0.0
    requires k < |table| && r.index < |table| && t <= r.now && Sane(table, burst, t)
    requires Level(table[k], t, refill, burst) + refill(t, r.now) <= burst
    ensures var (next, allowed) := Step(table, r, refill, burst);
            (if allowed && r.index == k then 1.0 else 0.0) + Level(next[k], r.now, refill, burst)
              == Level(table[k], t, refill, burst) + refill(t, r.now)
  {
    LevelGrows(table[k], refill, burst, t, r.now);
    assert refill(r.now, r.now) == 0.0;
  }

  /** The law is exact while nothing is cut off: what is left and what was admitted is what was there and flowed in. */
  lemma {:induction false} ExactConservation(
      table: seq<Bucket>, requests: seq<Request>, k: nat, refill: Refill, burst: real, t: real, u: real)
    requires Metered(refill) && burst >= 0.0
    requires k < |table| && InTable(requests, |table|) && Nondecreasing(requests)
    requires Sane(table, burst, t) && t <= u
    requires forall i :: 0 <= i < |requests| ==> t <= requests[i].now <= u
    requires Uncut(table, requests, k, refill, burst, t, u)
    ensures Level(After(table, requests, refill, burst)[k], u, refill, burst)
              + Admitted(table, requests, k, refill, burst) as real
              == Level(table[k], t, refill, burst) + refill(t, u)
    decreases |requests|
  {
    if requests == [] {
      LevelGrows(table[k], refill, burst, t, u);
    } else {
      var r := requests[0];
      StepKeepsSane(table, r, refill, burst, t);
      StepExact(table, r, k, refill, burst, t);
      ExactConservation(Step(table, r, refill, burst).0, requests[1..], k, refill, burst, r.now, u);
      assert refill(t, r.now) + refill(r.now, u) == refill(t, u);
    }
  }

  /** A burst is served: as many requests at one instant as a bucket holds tokens are all admitted. */
  lemma {:induction false} BurstIsAdmitted(
      table: seq<Bucket>, requests: seq<Request>, k: nat, refill: Refill, burst: real, t: real)
    requires Metered(refill) && burst >= 0.0 && k < |table| && Sane(table, burst, t)
    requires forall i :: 0 <= i < |requests| ==> requests[i] == Request(k, t)
    requires |requests| as real <= Level(table[k], t, refill, burst)
    ensures Admitted(table, requests, k, refill, burst) == |requests|
    decreases |requests|
  {
    if requests != [] {
      assert refill(t, t) == 0.0 && Level(table[k], t, refill, burst) <= burst;
      StepKeepsSane(table, requests[0], refill, burst, t);
      StepExact(table, requests[0], k, refill, burst, t);
      BurstIsAdmitted(Step(table, requests[0], refill, burst).0, requests[1..], k, refill, burst, t);
    }
  }

  lemma {:induction false} AfterKeepsSane(
      table: seq<Bucket>, requests: seq<Request>, refill: Refill, burst: real, t: real, u: real)
    requires Metered(refill) && burst >= 0.0
    requires InTable(requests, |table|) && Nondecreasing(requests)
    requires Sane(table, burst, t) && t <= u
    requires forall i :: 0 <= i < |requests| ==> t <= requests[i].now <= u
    ensures Sane(After(table, requests, refill, burst), burst, u)
    decreases |requests|
  {
    if requests != [] {
      StepKeepsSane(table, requests[0], refill, burst, t);
      AfterKeepsSane(Step(table, requests[0], refill, burst).0, requests[1..], refill, burst, requests[0].now, u);
    }
  }

  lemma MeteredWindow(
      table: seq<Bucket>, requests: seq<Request>, i: nat, j: nat, k: nat, refill: Refill, burst: real)
    requires Metered(refill) && burst >= 0.0
    requires Unused(table) && k < |table| && InTable(requests, |table|) && Nondecreasing(requests)
    requires i < j <= |requests|
    ensures var before := After(table, requests[..i], refill, burst);
            var (from, to) := (requests[i].now, requests[j - 1].now);
            && Sane(before, burst, from)
            && Admitted(before, requests[i..j], k, refill, burst) as real <= burst + refill(from, to)
  {
    var (from, to) := (requests[i].now, requests[j - 1].now);
    AfterKeepsSane(table, requests[..i], refill, burst, requests[0].now, from);
    var before := After(table, requests[..i], refill, burst);
    Conservation(before, requests[i..j], k, refill, burst, from, to);
  }

  /**
   In any window of any run, at most a burst plus the rate times the window's
   length is admitted through one bucket, and tokens stay between nothing and
   a burst.
   */
  lemma WindowBound(table: seq<Bucket>, requests: seq<Request>, i: nat, j: nat, k: nat, rate: real, burst: real)
    requires Unused(table) && k < |table| && InTable(requests, |table|) && Nondecreasing(requests)
    requires rate >= 0.0 && burst >= 0.0 && i < j <= |requests|
    ensures var before := After(table, requests[..i], Linear(rate), burst);
            var (from, to) := (requests[i].now, requests[j - 1].now);
            && Sane(before, burst, from)
            && Admitted(before, requests[i..j], k, Linear(rate), burst) as real <= burst + (to - from) * rate
  {
    LinearIsMetered(rate);
    MeteredWindow(table, requests, i, j, k, Linear(rate), burst);
    assert requests[i].now <= requests[j - 1].now;
  }

  /** The bound is not idle: a request that waited long enough for one token is never refused. */
  lemma PatientRequestIsAllowed(b: Bucket, now: real, rate: real, burst: real)
    requires rate >= 0.0 && burst >= 1.0
    requires b.tokens.Some? ==> 0.0 <= b.tokens.value && b.last <= now && (now - b.last) * rate >= 1.0
    ensures Take(b, now, Linear(rate), burst).1
  {
    assert b.tokens.Some? ==> Linear(rate)(b.last, now) >= 1.0;
  }
}
