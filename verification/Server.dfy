/** The address-index server: one datagram in, at most one datagram out. */
module Server {
  import opened Base
  import opened Wire
  import opened AddrStore
  import StoreRuns
  import Tokens
  import RateLimit

  /** What a server is set up with; `slotOf` is the hash that picks an address's rate bucket. */
  datatype Config = Config(
    tokenFor: Tokens.TokenFn,
    tokenBucketSecs: U64,
    limits: Limits,
    slotOf: U32 -> nat,
    rate: real,
    burst: real)

  /** Clock readings while one packet is handled: the token check, the store access and the rate bucket. */
  datatype Readings = Readings(now: U64, storeNow: U64, instant: real)

  function RequestIn(data: Bytes): Option<Request> {
    var m :- Decode(data);
    if m.FromClient? then Some(m.request) else None
  }

  /** Whether the packet gets as far as the rate limiter; a put with a bad token does not. */
  predicate Metered(cfg: Config, data: Bytes, from: SocketAddr, now: U64) {
    match RequestIn(data)
    case None => false
    case Some(Put(_, token, _)) => Tokens.Verify(cfg.tokenFor, cfg.tokenBucketSecs, from, token, now)
    case Some(_) => true
  }

  /** The store afterwards and the reply, given the limiter's verdict. */
  function Handle(cfg: Config, e: Entries, data: Bytes, from: SocketAddr, at: Readings, allowed: bool)
    : (Entries, Option<Response>)
  {
    if !Metered(cfg, data, from, at.now) || !allowed then (e, None) else
      match RequestIn(data).value
      case Prepare(tx, _) =>
        (e, Some(Prepared(tx, from, Tokens.Issue(cfg.tokenFor, cfg.tokenBucketSecs, from, at.now))))
      case Put(tx, _, value) =>
        var (after, result) := PutTo(e, from, value, at.storeNow, cfg.limits);
        (after, if result.Accepted? then Some(Stored(tx, from)) else None)
      case Get(tx, addr) =>
        var live := Live(e, at.storeNow);
        (live, Some(Value(tx, addr, Lookup(live, addr))))
  }

  ghost predicate ValuesFit(e: Entries) {
    forall a :: a in e ==> |e[a].value| <= MAX_VALUE_LEN
  }

  lemma HandleKeepsValuesFit(
      cfg: Config, e: Entries, data: Bytes, from: SocketAddr, at: Readings, allowed: bool)
    requires ValuesFit(e)
    ensures ValuesFit(Handle(cfg, e, data, from, at, allowed).0)
  {
  }

  /**
   Whatever arrives, a reply fits the send buffer, and it is never longer than
   the datagram that caused it, however that datagram was encoded or padded.
   */
  lemma ReplyNeverLonger(
      cfg: Config, e: Entries, data: Bytes, from: SocketAddr, at: Readings, allowed: bool)
    requires ValuesFit(e)
    ensures var reply := Handle(cfg, e, data, from, at, allowed).1;
            reply.Some? ==>
              var out := Encode(FromServer(reply.value));
              out.Some? && |out.value| <= |data|
  {
    var reply := Handle(cfg, e, data, from, at, allowed).1;
    if reply.Some? {
      AcceptedIsNoShorter(data);
      var request := RequestIn(data).value;
      EncodeFits(FromServer(reply.value));
      assert reply.value.tx == request.tx;
      TakeAddrInverts(reply.value.addr, []);
      match request
      case Prepare(_, _) =>
        PreparedNoLonger(request, reply.value);
      case Put(_, _, _) =>
        StoredNoLonger(request, reply.value);
      case Get(_, _) =>
        RoundTrip(FromServer(reply.value));
    }
  }

  lemma PreparedNoLonger(request: Request, reply: Response)
    requires request.Prepare? && reply.Prepared? && request.tx == reply.tx && |AddrBytes(reply.addr)| <= 7
    ensures |BodyBytes(FromServer(reply))| <= |BodyBytes(FromClient(request))|
  {
  }

  lemma StoredNoLonger(request: Request, reply: Response)
    requires request.Put? && reply.Stored? && request.tx == reply.tx && |AddrBytes(reply.addr)| <= 7
    ensures |BodyBytes(FromServer(reply))| <= |BodyBytes(FromClient(request))|
  {
  }

  // ----- What a reply says -----

  /** The value an address has in the store, if its time has not come. */
  function FoundIn(e: Entries, addr: SocketAddr, now: U64): Option<Bytes> {
    if addr in e && now < e[addr].expiresAt then Some(e[addr].value) else None
  }

  /** There is room for the value: it is not too long, and its address is known or its IP below its quota. */
  ghost predicate HasRoom(e: Entries, addr: SocketAddr, value: Bytes, now: U64, limits: Limits) {
    var live := Live(e, now);
    && |value| <= Min(limits.maxValueLen, MAX_VALUE_LEN)
    && (|| addr in live
        || (&& |OfIp(live, addr.ip)| < limits.maxEntriesPerIp
            && (limits.maxEntries > 0 || live != map[])))
  }

  /** The token is good from this socket at `now`, and as long as the bucket of `now` lasts. */
  ghost predicate GoodToken(cfg: Config, from: SocketAddr, token: Token, now: U64) {
    forall u: U64 :: Tokens.Bucket(cfg.tokenBucketSecs, u) == Tokens.Bucket(cfg.tokenBucketSecs, now) ==>
      Tokens.Verify(cfg.tokenFor, cfg.tokenBucketSecs, from, token, u)
  }

  ghost predicate Says(reply: Option<Bytes>, response: Response) {
    reply.Some? && Decode(reply.value) == Some(FromServer(response))
  }

  /** What the bytes sent back say, in terms of the request, the store before it and the limiter's verdict. */
  ghost predicate Replied(
      cfg: Config, e: Entries, data: Bytes, from: SocketAddr, at: Readings, allowed: bool, reply: Option<Bytes>)
  {
    match RequestIn(data)
    case None => reply.None?
    case Some(Prepare(tx, _)) =>
      if allowed then exists token :: Says(reply, Prepared(tx, from, token)) && GoodToken(cfg, from, token, at.now)
      else reply.None?
    case Some(Put(tx, token, value)) =>
      if && allowed && Tokens.Verify(cfg.tokenFor, cfg.tokenBucketSecs, from, token, at.now)
         && HasRoom(e, from, value, at.storeNow, cfg.limits)
      then Says(reply, Stored(tx, from))
      else reply.None?
    case Some(Get(tx, addr)) =>
      if allowed then Says(reply, Value(tx, addr, FoundIn(e, addr, at.storeNow))) else reply.None?
  }

  function ReplyBytes(response: Option<Response>): Option<Bytes> {
    if response.None? then None else Encode(FromServer(response.value))
  }

  lemma SaysItself(response: Response)
    requires Encode(FromServer(response)).Some?
    ensures Says(ReplyBytes(Some(response)), response)
  {
    RoundTrip(FromServer(response));
  }

  /** Every packet gets exactly the reply it calls for. */
  lemma EveryPacketIsReplied(
      cfg: Config, e: Entries, data: Bytes, from: SocketAddr, at: Readings, allowed: bool)
    requires ValuesFit(e)
    ensures Replied(cfg, e, data, from, at, allowed, ReplyBytes(Handle(cfg, e, data, from, at, allowed).1))
  {
    var response := Handle(cfg, e, data, from, at, allowed).1;
    ReplyNeverLonger(cfg, e, data, from, at, allowed);
    if response.Some? {
      SaysItself(response.value);
    }
    match RequestIn(data)
    case Some(Put(_, _, value)) => StoreRuns.RefusedOnlyForQuota(e, from, value, at.storeNow, cfg.limits);
    case _ =>
  }

  /** A value whose put was answered is what the next get of its socket is told, until it expires. */
  lemma PutThenGet(
      cfg: Config, e: Entries, put: Bytes, from: SocketAddr, at: Readings, tx: U64, token: Token, value: Bytes,
      get: Bytes, reader: SocketAddr, later: Readings, ty: U64)
    requires ValuesFit(e) && RequestIn(put) == Some(Put(tx, token, value)) && RequestIn(get) == Some(Get(ty, from))
    requires Tokens.Verify(cfg.tokenFor, cfg.tokenBucketSecs, from, token, at.now)
    requires HasRoom(e, from, value, at.storeNow, cfg.limits)
    ensures var stored := Handle(cfg, e, put, from, at, true).0;
            Says(ReplyBytes(Handle(cfg, stored, get, reader, later, true).1),
                 Value(ty, from,
                       if later.storeNow < at.storeNow + cfg.limits.valueTtlSecs && later.storeNow < U64_MAX
                       then Some(value) else None))
  {
    var stored := Handle(cfg, e, put, from, at, true).0;
    StoreRuns.RefusedOnlyForQuota(e, from, value, at.storeNow, cfg.limits);
    HandleKeepsValuesFit(cfg, e, put, from, at, true);
    EveryPacketIsReplied(cfg, stored, get, reader, later, true);
    assert from in stored && stored[from].value == value;
  }

  /** Only a put that is answered changes what any later get finds. */
  lemma ReadsLeaveTheStore(
      cfg: Config, e: Entries, data: Bytes, from: SocketAddr, at: Readings, allowed: bool, addr: SocketAddr,
      later: U64)
    requires at.storeNow <= later
    requires Handle(cfg, e, data, from, at, allowed).1.None? || !Handle(cfg, e, data, from, at, allowed).1.value.Stored?
    ensures FoundIn(Handle(cfg, e, data, from, at, allowed).0, addr, later) == FoundIn(e, addr, later)
  {
  }

  class Server {
    const cfg: Config
    const store: Store
    const limiter: RateLimit.RateLimiters

    ghost predicate Valid()
      reads store
    {
      && store.Valid()
      && ValuesFit(store.entries)
      && (forall ip: U32 :: cfg.slotOf(ip) < limiter.buckets.Length)
    }

    constructor (cfg: Config, slots: nat)
      requires forall ip: U32 :: cfg.slotOf(ip) < slots
      ensures Valid() && store.entries == map[] && this.cfg == cfg
      ensures fresh(store) && fresh(limiter.buckets)
    {
      this.cfg := cfg;
      store := new Store();
      limiter := new RateLimit.RateLimiters(slots);
    }

    method AllowRequest(ip: U32, instant: real) returns (allowed: bool)
      requires Valid()
      modifies limiter.buckets
      ensures Valid()
      ensures (limiter.buckets[..], allowed) ==
              RateLimit.Step(old(limiter.buckets[..]), RateLimit.Request(cfg.slotOf(ip), instant),
                             RateLimit.Linear(cfg.rate), cfg.burst)
    {
      allowed := limiter.Allow(RateLimit.Request(cfg.slotOf(ip), instant), cfg.rate, cfg.burst);
    }

    method PutLocal(addr: SocketAddr, value: Bytes, now: U64) returns (result: PutResult)
      requires Valid()
      modifies store
      ensures Valid()
      ensures (store.entries, result) == PutTo(old(store.entries), addr, value, now, cfg.limits)
    {
      result := store.Put(addr, value, now, cfg.limits);
    }

    method GetLocal(addr: SocketAddr, now: U64) returns (value: Option<Bytes>)
      requires Valid()
      modifies store
      ensures Valid() && store.entries == Live(old(store.entries), now)
      ensures value == Lookup(store.entries, addr)
    {
      value := store.Get(addr, now);
    }

    /** Handles one packet; the encoding of a reply cannot fail, which the source only expects. */
    method HandlePacket(data: Bytes, from: SocketAddr, at: Readings) returns (reply: Option<Bytes>)
      requires Valid()
      modifies store, limiter.buckets
      ensures Valid()
      ensures var metered := Metered(cfg, data, from, at.now);
              var (table, allowed) := RateLimit.Step(
                  old(limiter.buckets[..]), RateLimit.Request(cfg.slotOf(from.ip), at.instant),
                  RateLimit.Linear(cfg.rate), cfg.burst);
              var (entries, response) := Handle(cfg, old(store.entries), data, from, at, allowed);
              && limiter.buckets[..] == (if metered then table else old(limiter.buckets[..]))
              && store.entries == entries
              && reply == (if response.None? then None else Encode(FromServer(response.value)))
              && (response.Some? ==> reply.Some?)
      ensures reply.Some? ==> |reply.value| <= |data|
      ensures Replied(cfg, old(store.entries), data, from, at,
                      RateLimit.Step(
                        old(limiter.buckets[..]), RateLimit.Request(cfg.slotOf(from.ip), at.instant),
                        RateLimit.Linear(cfg.rate), cfg.burst).1,
                      reply)
    {
      ghost var (_, verdict) := RateLimit.Step(
          limiter.buckets[..], RateLimit.Request(cfg.slotOf(from.ip), at.instant),
          RateLimit.Linear(cfg.rate), cfg.burst);
      ReplyNeverLonger(cfg, store.entries, data, from, at, verdict);
      EveryPacketIsReplied(cfg, store.entries, data, from, at, verdict);
      if data == [] || |data| > MAX_DGRAM {
        return None;
      }
      var decoded := Decode(data);
      if decoded.None? || !decoded.value.FromClient? {
        return None;
      }
      var response: Response;
      match decoded.value.request {
        case Prepare(tx, _) =>
          var allowed := AllowRequest(from.ip, at.instant);
          if !allowed {
            return None;
          }
          response := Prepared(tx, from, Tokens.Issue(cfg.tokenFor, cfg.tokenBucketSecs, from, at.now));
        case Put(tx, token, value) =>
          if !Tokens.Verify(cfg.tokenFor, cfg.tokenBucketSecs, from, token, at.now) {
            return None;
          }
          var allowed := AllowRequest(from.ip, at.instant);
          if !allowed {
            return None;
          }
          var result := PutLocal(from, value, at.storeNow);
          if result.Rejected? {
            return None;
          }
          response := Stored(tx, from);
        case Get(tx, addr) =>
          var allowed := AllowRequest(from.ip, at.instant);
          if !allowed {
            return None;
          }
          var value := GetLocal(addr, at.storeNow);
          response := Value(tx, addr, value);
      }
      reply := Encode(FromServer(response));
    }
  }
}
