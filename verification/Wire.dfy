/**
 The datagrams of the address index and their postcard encoding.

 A datagram is `MAGIC` followed by the postcard body of one `Proto`. Postcard
 writes integers as little-endian base-128 varints, enum tags as varints of
 their index, fixed arrays without a length, and a byte vector as a varint
 length followed by the bytes. `postcard::from_bytes` ignores trailing bytes
 and accepts varints that are longer than necessary.
 */
module Wire {
  import opened Base

  const MAX_DGRAM: int := 1200
  const MAX_VALUE_LEN: int := 1024
  const MAGIC: Bytes := [0, 97, 100, 100, 114, 105, 100, 120]

  type Token = t: Bytes | |t| == 16 witness Zeros(16)
  type Padding = p: Bytes | |p| == 24 witness Zeros(24)

  datatype Request =
    | Prepare(tx: U64, padding: Padding)
    | Put(tx: U64, token: Token, value: Bytes)
    | Get(tx: U64, addr: SocketAddr)

  datatype Response =
    | Prepared(tx: U64, addr: SocketAddr, token: Token)
    | Stored(tx: U64, addr: SocketAddr)
    | Value(tx: U64, addr: SocketAddr, found: Option<Bytes>)

  /** Both directions share one tag space. The only version, V1, is tag 0 inside each direction. */
  datatype Proto =
    | FromClient(request: Request)
    | FromServer(response: Response)
  {
    predicate IsPadded() {
      FromClient? && request.Get?
    }
  }

  // ----- Integers -----

  function Varint(n: nat): (r: Bytes)
    ensures 1 <= |r|
  {
    if n < 128 then [n] else [n % 128 + 128] + Varint(n / 128)
  }

  /** How many values a varint of at most `maxLen` bytes, whose last byte is at most `lastMax`, can hold. */
  function Capacity(maxLen: nat, lastMax: nat): (c: nat)
    ensures maxLen > 0 ==> c > lastMax
  {
    if maxLen == 0 then 0
    else if maxLen == 1 then lastMax + 1
    else 128 * Capacity(maxLen - 1, lastMax)
  }

  function TakeVarint(data: Bytes, maxLen: nat, lastMax: nat): (r: Option<(nat, Bytes)>)
    requires lastMax < 128
    ensures r.Some? ==> r.value.0 < Capacity(maxLen, lastMax)
    ensures r.Some? ==> |r.value.1| < |data|
  {
    if maxLen == 0 || data == [] then None
    else if data[0] < 128 then
      if maxLen == 1 && data[0] > lastMax then None else Some((data[0], data[1..]))
    else
      var (high, rest) :- TakeVarint(data[1..], maxLen - 1, lastMax);
      Some((data[0] - 128 + 128 * high, rest))
  }

  lemma {:induction false} TakeVarintInverts(n: nat, maxLen: nat, lastMax: nat, rest: Bytes)
    requires lastMax < 128 && n < Capacity(maxLen, lastMax)
    ensures TakeVarint(Varint(n) + rest, maxLen, lastMax) == Some((n, rest))
    ensures |Varint(n)| <= maxLen
    decreases maxLen
  {
    var data := Varint(n) + rest;
    if n < 128 {
      assert data[1..] == rest;
    } else {
      TakeVarintInverts(n / 128, maxLen - 1, lastMax, rest);
      assert data[1..] == Varint(n / 128) + rest;
    }
  }

  /** A varint on the wire is never shorter than the one that would be written for its value. */
  lemma {:induction false} VarintIsShortest(data: Bytes, maxLen: nat, lastMax: nat)
    requires lastMax < 128 && TakeVarint(data, maxLen, lastMax).Some?
    ensures var (n, rest) := TakeVarint(data, maxLen, lastMax).value;
            |Varint(n)| + |rest| <= |data|
  {
    if data[0] >= 128 {
      VarintIsShortest(data[1..], maxLen - 1, lastMax);
      var (high, rest) := TakeVarint(data[1..], maxLen - 1, lastMax).value;
      var n := data[0] - 128 + 128 * high;
      assert n / 128 == high;
    }
  }

  lemma Capacities()
    ensures Capacity(3, 3) == 0x1_0000
    ensures Capacity(5, 15) == 0x1_0000_0000
    ensures Capacity(10, 1) == U64_MAX + 1
  {
    assert Capacity(5, 1) == 2 * 0x1000_0000;
  }

  function TakeU16(data: Bytes): (r: Option<(U16, Bytes)>) {
    Capacities();
    TakeVarint(data, 3, 3)
  }

  function TakeU64(data: Bytes): (r: Option<(U64, Bytes)>) {
    Capacities();
    TakeVarint(data, 10, 1)
  }

  /** An enum tag: a varint of 32 bits that must name one of `variants` variants. */
  function TakeTag(data: Bytes, variants: nat): (r: Option<(nat, Bytes)>)
    ensures r.Some? ==> r.value.0 < variants
  {
    var (tag, rest) :- TakeVarint(data, 5, 15);
    if tag < variants then Some((tag, rest)) else None
  }

  function TakeBytes(data: Bytes, n: nat): (r: Option<(Bytes, Bytes)>)
    ensures r.Some? ==> |r.value.0| == n && data == r.value.0 + r.value.1
    ensures r.Some? <==> n <= |data|
  {
    if n <= |data| then Some((data[..n], data[n..])) else None
  }

  // ----- Sockets and vectors -----

  function Octets(ip: U32): (r: Bytes)
    ensures |r| == 4
  {
    [ip / 0x100 / 0x100 / 0x100, ip / 0x100 / 0x100 % 0x100, ip / 0x100 % 0x100, ip % 0x100]
  }

  function FromOctets(o: Bytes): (ip: U32)
    requires |o| == 4
  {
    var (a: int, b: int, c: int, d: int) := (o[0], o[1], o[2], o[3]);
    ((a * 0x100 + b) * 0x100 + c) * 0x100 + d
  }

  lemma OctetsInvert(ip: U32)
    ensures FromOctets(Octets(ip)) == ip
  {
  }

  function AddrBytes(a: SocketAddr): (r: Bytes) {
    Octets(a.ip) + Varint(a.port)
  }

  function TakeAddr(data: Bytes): (r: Option<(SocketAddr, Bytes)>) {
    var (octets, d1) :- TakeBytes(data, 4);
    var (port, d2) :- TakeU16(d1);
    Some((SocketAddr(FromOctets(octets), port), d2))
  }

  function VecBytes(v: Bytes): (r: Bytes) {
    Varint(|v|) + v
  }

  function TakeVec(data: Bytes): (r: Option<(Bytes, Bytes)>) {
    var (n, d1) :- TakeU64(data);
    TakeBytes(d1, n)
  }

  function OptionBytes(o: Option<Bytes>): (r: Bytes) {
    match o
    case None => [0]
    case Some(v) => [1] + VecBytes(v)
  }

  function TakeOption(data: Bytes): (r: Option<(Option<Bytes>, Bytes)>) {
    if data == [] || data[0] > 1 then None
    else if data[0] == 0 then Some((None, data[1..]))
    else
      var (v, rest) :- TakeVec(data[1..]);
      Some((Some(v), rest))
  }

  // ----- Messages -----

  function RequestBytes(r: Request): Bytes {
    match r
    case Prepare(tx, padding) => [0] + (Varint(tx) + padding)
    case Put(tx, token, value) => [1] + (Varint(tx) + (token + VecBytes(value)))
    case Get(tx, addr) => [2] + (Varint(tx) + AddrBytes(addr))
  }

  function TakeRequest(data: Bytes): Option<(Request, Bytes)> {
    var (kind, d1) :- TakeTag(data, 3);
    var (tx, d2) :- TakeU64(d1);
    match kind
    case 0 =>
      var (padding, d3) :- TakeBytes(d2, 24);
      Some((Prepare(tx, padding), d3))
    case 1 =>
      var (token, d3) :- TakeBytes(d2, 16);
      var (value, d4) :- TakeVec(d3);
      Some((Put(tx, token, value), d4))
    case _ =>
      var (addr, d3) :- TakeAddr(d2);
      Some((Get(tx, addr), d3))
  }

  function ResponseBytes(r: Response): Bytes {
    match r
    case Prepared(tx, addr, token) => [0] + (Varint(tx) + (AddrBytes(addr) + token))
    case Stored(tx, addr) => [1] + (Varint(tx) + AddrBytes(addr))
    case Value(tx, addr, found) => [2] + (Varint(tx) + (AddrBytes(addr) + OptionBytes(found)))
  }

  function TakeResponse(data: Bytes): Option<(Response, Bytes)> {
    var (kind, d1) :- TakeTag(data, 3);
    var (tx, d2) :- TakeU64(d1);
    var (addr, d3) :- TakeAddr(d2);
    match kind
    case 0 =>
      var (token, d4) :- TakeBytes(d3, 16);
      Some((Prepared(tx, addr, token), d4))
    case 1 => Some((Stored(tx, addr), d3))
    case _ =>
      var (found, d4) :- TakeOption(d3);
      Some((Value(tx, addr, found), d4))
  }

  function BodyBytes(m: Proto): Bytes {
    match m
    case FromClient(request) => [0, 0] + RequestBytes(request)
    case FromServer(response) => [1, 0] + ResponseBytes(response)
  }

  /** Reads one message and returns the bytes after it. */
  function TakeProto(data: Bytes): Option<(Proto, Bytes)> {
    var (direction, d1) :- TakeTag(data, 2);
    var (_, d2) :- TakeTag(d1, 1);
    if direction == 0 then
      var (request, d3) :- TakeRequest(d2);
      Some((FromClient(request), d3))
    else
      var (response, d3) :- TakeResponse(d2);
      Some((FromServer(response), d3))
  }

  // ----- Datagrams -----

  /** `Proto::encode`: nothing when the body does not fit, and a get filled up with zeros. */
  function Encode(m: Proto): (r: Option<Bytes>) {
    var framed := MAGIC + BodyBytes(m);
    if |framed| > MAX_DGRAM then None
    else if m.IsPadded() then Some(framed + Zeros(MAX_DGRAM - |framed|))
    else Some(framed)
  }

  /** `Proto::decode`; a get is accepted at exactly one length. */
  function Decode(data: Bytes): (r: Option<Proto>)
    ensures r.Some? ==> |data| <= MAX_DGRAM && MAGIC <= data
    ensures r.Some? && r.value.IsPadded() ==> |data| == MAX_DGRAM
  {
    if |data| > MAX_DGRAM || !(MAGIC <= data) then None else
      var (m, _) :- TakeProto(data[|MAGIC|..]);
      if m.IsPadded() && |data| != MAX_DGRAM then None else Some(m)
  }

  method CopyInto(buf: array<Byte>, at: nat, data: Bytes)
    requires at + |data| <= buf.Length
    modifies buf
    ensures buf[..] == old(buf[..at]) + data + old(buf[at + |data|..])
  {
    for i := 0 to |data|
      invariant buf[..at] == old(buf[..at])
      invariant buf[at..at + i] == data[..i]
      invariant buf[at + |data|..] == old(buf[at + |data|..])
    {
      buf[at + i] := data[i];
      assert data[..i + 1] == data[..i] + [data[i]];
    }
    assert data[..|data|] == data;
    assert buf[..] == buf[..at] + buf[at..at + |data|] + buf[at + |data|..];
  }

  /** The in-place form of `Encode`: the datagram is the front of the buffer, whatever was in it before. */
  method EncodeInto(m: Proto, buf: array<Byte>) returns (len: Option<nat>)
    requires buf.Length == MAX_DGRAM
    modifies buf
    ensures len.Some? <==> Encode(m).Some?
    ensures len.Some? ==> len.value <= buf.Length && buf[..len.value] == Encode(m).value
  {
    CopyInto(buf, 0, MAGIC);
    assert buf[..|MAGIC|] == MAGIC;
    var body := BodyBytes(m);
    var end := |MAGIC| + |body|;
    if end > buf.Length {
      return None;
    }
    CopyInto(buf, |MAGIC|, body);
    assert buf[..end] == MAGIC + body;
    if m.IsPadded() {
      CopyInto(buf, end, Zeros(buf.Length - end));
      assert buf[..buf.Length] == buf[..];
      return Some(buf.Length);
    }
    return Some(end);
  }

  // ----- Reading inverts writing -----

  lemma TakeU16Inverts(n: U16, rest: Bytes)
    ensures TakeU16(Varint(n) + rest) == Some((n, rest))
    ensures |Varint(n)| <= 3
  {
    Capacities();
    TakeVarintInverts(n, 3, 3, rest);
  }

  lemma TakeU64Inverts(n: U64, rest: Bytes)
    ensures TakeU64(Varint(n) + rest) == Some((n, rest))
    ensures |Varint(n)| <= 10
  {
    Capacities();
    TakeVarintInverts(n, 10, 1, rest);
  }

  lemma TakeTagInverts(tag: Byte, variants: nat, rest: Bytes)
    requires tag < variants <= 128
    ensures TakeTag([tag] + rest, variants) == Some((tag as nat, rest))
  {
    assert ([tag] + rest)[1..] == rest;
  }

  lemma TakeBytesInverts(b: Bytes, rest: Bytes)
    ensures TakeBytes(b + rest, |b|) == Some((b, rest))
  {
  }

  lemma TakeAddrInverts(a: SocketAddr, rest: Bytes)
    ensures TakeAddr(AddrBytes(a) + rest) == Some((a, rest))
    ensures 5 <= |AddrBytes(a)| <= 7
  {
    assert AddrBytes(a) + rest == Octets(a.ip) + (Varint(a.port) + rest);
    TakeBytesInverts(Octets(a.ip), Varint(a.port) + rest);
    TakeU16Inverts(a.port, rest);
    OctetsInvert(a.ip);
  }

  lemma TakeVecInverts(v: Bytes, rest: Bytes)
    requires |v| <= U64_MAX
    ensures TakeVec(VecBytes(v) + rest) == Some((v, rest))
  {
    assert VecBytes(v) + rest == Varint(|v|) + (v + rest);
    TakeU64Inverts(|v|, v + rest);
    TakeBytesInverts(v, rest);
  }

  lemma TakeOptionInverts(o: Option<Bytes>, rest: Bytes)
    requires o.Some? ==> |o.value| <= U64_MAX
    ensures TakeOption(OptionBytes(o) + rest) == Some((o, rest))
  {
    var data := OptionBytes(o) + rest;
    match o
    case None =>
      assert data[1..] == rest;
    case Some(v) =>
      assert data[1..] == VecBytes(v) + rest;
      TakeVecInverts(v, rest);
  }

  lemma TakePrepareInverts(tx: U64, padding: Padding, rest: Bytes)
    ensures TakeRequest(RequestBytes(Prepare(tx, padding)) + rest) == Some((Prepare(tx, padding), rest))
  {
    var d2 := padding + rest;
    assert RequestBytes(Prepare(tx, padding)) + rest == [0] + (Varint(tx) + d2);
    TakeTagInverts(0, 3, Varint(tx) + d2);
    TakeU64Inverts(tx, d2);
    TakeBytesInverts(padding, rest);
  }

  lemma TakePutInverts(tx: U64, token: Token, value: Bytes, rest: Bytes)
    requires |value| <= U64_MAX
    ensures TakeRequest(RequestBytes(Put(tx, token, value)) + rest) == Some((Put(tx, token, value), rest))
  {
    var d3 := VecBytes(value) + rest;
    var d2 := token + d3;
    assert RequestBytes(Put(tx, token, value)) + rest == [1] + (Varint(tx) + d2);
    TakeTagInverts(1, 3, Varint(tx) + d2);
    TakeU64Inverts(tx, d2);
    TakeBytesInverts(token, d3);
    TakeVecInverts(value, rest);
  }

  lemma TakeGetInverts(tx: U64, addr: SocketAddr, rest: Bytes)
    ensures TakeRequest(RequestBytes(Get(tx, addr)) + rest) == Some((Get(tx, addr), rest))
  {
    var d2 := AddrBytes(addr) + rest;
    assert RequestBytes(Get(tx, addr)) + rest == [2] + (Varint(tx) + d2);
    TakeTagInverts(2, 3, Varint(tx) + d2);
    TakeU64Inverts(tx, d2);
    TakeAddrInverts(addr, rest);
  }

  lemma TakeRequestInverts(r: Request, rest: Bytes)
    requires r.Put? ==> |r.value| <= U64_MAX
    ensures TakeRequest(RequestBytes(r) + rest) == Some((r, rest))
  {
    match r
    case Prepare(tx, padding) => TakePrepareInverts(tx, padding, rest);
    case Put(tx, token, value) => TakePutInverts(tx, token, value, rest);
    case Get(tx, addr) => TakeGetInverts(tx, addr, rest);
  }

  /** What all responses start with. */
  function ResponseHead(kind: Byte, tx: U64, addr: SocketAddr): Bytes {
    [kind] + (Varint(tx) + AddrBytes(addr))
  }

  lemma TakeResponseHead(kind: Byte, tx: U64, addr: SocketAddr, rest: Bytes)
    requires kind < 3
    ensures var data := ResponseHead(kind, tx, addr) + rest;
            && TakeTag(data, 3) == Some((kind as nat, Varint(tx) + (AddrBytes(addr) + rest)))
            && TakeU64(Varint(tx) + (AddrBytes(addr) + rest)) == Some((tx, AddrBytes(addr) + rest))
            && TakeAddr(AddrBytes(addr) + rest) == Some((addr, rest))
  {
    assert ResponseHead(kind, tx, addr) + rest == [kind] + (Varint(tx) + (AddrBytes(addr) + rest));
    TakeTagInverts(kind, 3, Varint(tx) + (AddrBytes(addr) + rest));
    TakeU64Inverts(tx, AddrBytes(addr) + rest);
    TakeAddrInverts(addr, rest);
  }

  lemma ResponseTail(kind: Byte, tx: U64, addr: SocketAddr, tail: Bytes, rest: Bytes)
    ensures [kind] + (Varint(tx) + (AddrBytes(addr) + tail)) + rest == ResponseHead(kind, tx, addr) + (tail + rest)
  {
  }

  lemma TakePreparedInverts(tx: U64, addr: SocketAddr, token: Token, rest: Bytes)
    ensures TakeResponse(ResponseBytes(Prepared(tx, addr, token)) + rest) == Some((Prepared(tx, addr, token), rest))
  {
    TakeResponseHead(0, tx, addr, token + rest);
    ResponseTail(0, tx, addr, token, rest);
    TakeBytesInverts(token, rest);
  }

  lemma TakeStoredInverts(tx: U64, addr: SocketAddr, rest: Bytes)
    ensures TakeResponse(ResponseBytes(Stored(tx, addr)) + rest) == Some((Stored(tx, addr), rest))
  {
    TakeResponseHead(1, tx, addr, rest);
  }

  lemma TakeValueInverts(tx: U64, addr: SocketAddr, found: Option<Bytes>, rest: Bytes)
    requires found.Some? ==> |found.value| <= U64_MAX
    ensures TakeResponse(ResponseBytes(Value(tx, addr, found)) + rest) == Some((Value(tx, addr, found), rest))
  {
    TakeResponseHead(2, tx, addr, OptionBytes(found) + rest);
    ResponseTail(2, tx, addr, OptionBytes(found), rest);
    TakeOptionInverts(found, rest);
  }

  lemma TakeResponseInverts(r: Response, rest: Bytes)
    requires r.Value? && r.found.Some? ==> |r.found.value| <= U64_MAX
    ensures TakeResponse(ResponseBytes(r) + rest) == Some((r, rest))
  {
    match r
    case Prepared(tx, addr, token) => TakePreparedInverts(tx, addr, token, rest);
    case Stored(tx, addr) => TakeStoredInverts(tx, addr, rest);
    case Value(tx, addr, found) => TakeValueInverts(tx, addr, found, rest);
  }

  lemma TakeProtoHead(direction: Byte, body: Bytes, rest: Bytes)
    requires direction < 2
    ensures TakeTag([direction, 0] + body + rest, 2) == Some((direction as nat, [0] + (body + rest)))
    ensures TakeTag([0] + (body + rest), 1) == Some((0, body + rest))
  {
    assert [direction, 0] + body + rest == [direction] + ([0] + (body + rest));
    TakeTagInverts(direction, 2, [0] + (body + rest));
    TakeTagInverts(0, 1, body + rest);
  }

  /** A body is read back whatever follows it. */
  lemma TakeProtoInverts(m: Proto, rest: Bytes)
    requires |BodyBytes(m)| <= U64_MAX
    ensures TakeProto(BodyBytes(m) + rest) == Some((m, rest))
  {
    match m
    case FromClient(r) =>
      TakeProtoHead(0, RequestBytes(r), rest);
      TakeRequestInverts(r, rest);
    case FromServer(r) =>
      TakeProtoHead(1, ResponseBytes(r), rest);
      TakeResponseInverts(r, rest);
  }

  lemma DecodeFramed(body: Bytes, m: Proto, tail: Bytes)
    requires TakeProto(body) == Some((m, tail))
    ensures Decode(MAGIC + body) ==
            if |MAGIC + body| <= MAX_DGRAM && (m.IsPadded() ==> |MAGIC + body| == MAX_DGRAM) then Some(m) else None
  {
    assert (MAGIC + body)[|MAGIC|..] == body;
  }

  /**
   A message is read whatever follows it, up to the size of a datagram; a get
   only when what follows fills the datagram exactly.
   */
  lemma TailIsIgnored(m: Proto, tail: Bytes)
    ensures var data := MAGIC + (BodyBytes(m) + tail);
            Decode(data) ==
            if |data| <= MAX_DGRAM && (m.IsPadded() ==> |data| == MAX_DGRAM) then Some(m) else None
  {
    if |MAGIC + (BodyBytes(m) + tail)| <= MAX_DGRAM {
      TakeProtoInverts(m, tail);
      DecodeFramed(BodyBytes(m) + tail, m, tail);
    }
  }

  /** Every datagram `Encode` produces decodes to the message it was made from, padding included. */
  lemma RoundTrip(m: Proto)
    requires Encode(m).Some?
    ensures Decode(Encode(m).value) == Some(m)
    ensures |Encode(m).value| <= MAX_DGRAM
    ensures m.IsPadded() ==> |Encode(m).value| == MAX_DGRAM
  {
    var data := Encode(m).value;
    var framed := MAGIC + BodyBytes(m);
    var rest := if m.IsPadded() then Zeros(MAX_DGRAM - |framed|) else [];
    assert data == framed + rest == MAGIC + (BodyBytes(m) + rest);
    TailIsIgnored(m, rest);
  }

  /** No two messages share a datagram; in particular a request never reads as a response. */
  lemma EncodeInjective(m: Proto, n: Proto)
    requires Encode(m).Some? && Encode(m) == Encode(n)
    ensures m == n
  {
    RoundTrip(m);
    RoundTrip(n);
  }

  // ----- What is read was at least as long as what would be written -----

  lemma AddrIsShortest(data: Bytes)
    requires TakeAddr(data).Some?
    ensures var (a, rest) := TakeAddr(data).value;
            |AddrBytes(a)| + |rest| <= |data|
  {
    VarintIsShortest(data[4..], 3, 3);
  }

  lemma VecIsShortest(data: Bytes)
    requires TakeVec(data).Some?
    ensures var (v, rest) := TakeVec(data).value;
            |VecBytes(v)| + |rest| <= |data|
  {
    VarintIsShortest(data, 10, 1);
  }

  lemma RequestIsShortest(data: Bytes)
    requires TakeRequest(data).Some?
    ensures var (r, rest) := TakeRequest(data).value;
            |RequestBytes(r)| + |rest| <= |data|
  {
    var (kind, d1) := TakeTag(data, 3).value;
    VarintIsShortest(data, 5, 15);
    var (tx, d2) := TakeU64(d1).value;
    VarintIsShortest(d1, 10, 1);
    match kind
    case 0 =>
    case 1 =>
      VecIsShortest(d2[16..]);
    case _ =>
      AddrIsShortest(d2);
  }

  lemma ResponseIsShortest(data: Bytes)
    requires TakeResponse(data).Some?
    ensures var (r, rest) := TakeResponse(data).value;
            |ResponseBytes(r)| + |rest| <= |data|
  {
    var (kind, d1) := TakeTag(data, 3).value;
    VarintIsShortest(data, 5, 15);
    var (tx, d2) := TakeU64(d1).value;
    VarintIsShortest(d1, 10, 1);
    var (addr, d3) := TakeAddr(d2).value;
    AddrIsShortest(d2);
    if kind == 2 && d3[0] == 1 {
      VecIsShortest(d3[1..]);
    }
  }

  /**
   Every accepted datagram is at least as long as its message's own encoding,
   which therefore exists and decodes to the same message.
   */
  lemma AcceptedIsNoShorter(data: Bytes)
    requires Decode(data).Some?
    ensures var m := Decode(data).value;
            Encode(m).Some? && |Encode(m).value| <= |data| && Decode(Encode(m).value) == Some(m)
  {
    var m := Decode(data).value;
    var body := data[|MAGIC|..];
    var (direction, d1) := TakeTag(body, 2).value;
    var (version, d2) := TakeTag(d1, 1).value;
    VarintIsShortest(body, 5, 15);
    VarintIsShortest(d1, 5, 15);
    if direction == 0 {
      RequestIsShortest(d2);
    } else {
      ResponseIsShortest(d2);
    }
    RoundTrip(m);
  }

  /** Only a value longer than the protocol limit can keep a message from fitting. */
  lemma EncodeFits(m: Proto)
    ensures Encode(m).None? ==>
              || (m.FromClient? && m.request.Put? && |m.request.value| > MAX_VALUE_LEN)
              || (m.FromServer? && m.response.Value? && m.response.found.Some? &&
                  |m.response.found.value| > MAX_VALUE_LEN)
  {
    if m.FromClient? {
      TakeU64Inverts(m.request.tx, []);
      if m.request.Put? && |m.request.value| <= MAX_VALUE_LEN {
        TakeU16Inverts(|m.request.value|, []);
      } else if m.request.Get? {
        TakeAddrInverts(m.request.addr, []);
      }
    } else {
      TakeU64Inverts(m.response.tx, []);
      TakeAddrInverts(m.response.addr, []);
      if m.response.Value? && m.response.found.Some? && |m.response.found.value| <= MAX_VALUE_LEN {
        TakeU16Inverts(|m.response.found.value|, []);
      }
    }
  }
}
