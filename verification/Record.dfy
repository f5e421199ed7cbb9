/**
 The signed record a publisher stores, and its binding to the slot it is stored in.

 The signature scheme is a parameter. Keys are 32 bytes and signatures 64, both
 written without a length.
 */
module Record {
  import opened Base
  import opened Wire

  datatype Scheme = Scheme(
    publicKey: Bytes -> Bytes,
    isKey: Bytes -> bool,
    sign: (Bytes, Bytes) -> Bytes,
    verify: (Bytes, Bytes, Bytes) -> bool)

  /** What is assumed of it: keys and signatures have their sizes, and what a secret signs verifies. */
  ghost predicate Sound(scheme: Scheme) {
    && (forall secret: Bytes :: |scheme.publicKey(secret)| == 32 && scheme.isKey(scheme.publicKey(secret)))
    && (forall secret: Bytes, m: Bytes :: |scheme.sign(secret, m)| == 64)
    && (forall secret: Bytes, m: Bytes :: scheme.verify(scheme.publicKey(secret), m, scheme.sign(secret, m)))
  }

  datatype SignedRecord = SignedRecord(endpointId: Bytes, addr: SocketAddr, ts: U64, sig: Bytes)

  /** The signed part: the V1 tag, the socket and the time of signing. */
  function PayloadBytes(addr: SocketAddr, ts: U64): Bytes {
    [0] + (AddrBytes(addr) + Varint(ts))
  }

  function Sign(scheme: Scheme, secret: Bytes, addr: SocketAddr, ts: U64): SignedRecord {
    SignedRecord(scheme.publicKey(secret), addr, ts, scheme.sign(secret, PayloadBytes(addr, ts)))
  }

  predicate Verify(scheme: Scheme, r: SignedRecord) {
    scheme.verify(r.endpointId, PayloadBytes(r.addr, r.ts), r.sig)
  }

  function RecordBytes(r: SignedRecord): Bytes {
    r.endpointId + (PayloadBytes(r.addr, r.ts) + r.sig)
  }

  function TakePayload(data: Bytes): Option<(SocketAddr, U64, Bytes)> {
    var (_, d1) :- TakeTag(data, 1);
    var (addr, d2) :- TakeAddr(d1);
    var (ts, d3) :- TakeU64(d2);
    Some((addr, ts, d3))
  }

  function TakeRecord(scheme: Scheme, data: Bytes): Option<SignedRecord> {
    var (id, d1) :- TakeBytes(data, 32);
    if !scheme.isKey(id) then None else
      var (addr, ts, d2) :- TakePayload(d1);
      var (sig, _) :- TakeBytes(d2, 64);
      Some(SignedRecord(id, addr, ts, sig))
  }

  /** Reads a value found in the slot for `addr`. */
  function DecodeRecord(scheme: Scheme, value: Bytes, addr: SocketAddr): (r: Option<SignedRecord>)
    ensures r.Some? ==> r.value.addr == addr && Verify(scheme, r.value)
  {
    var record :- TakeRecord(scheme, value);
    if record.addr == addr && Verify(scheme, record) then Some(record) else None
  }

  lemma TakePayloadInverts(addr: SocketAddr, ts: U64, rest: Bytes)
    ensures TakePayload(PayloadBytes(addr, ts) + rest) == Some((addr, ts, rest))
    ensures |PayloadBytes(addr, ts)| <= 18
  {
    var d1 := AddrBytes(addr) + (Varint(ts) + rest);
    assert PayloadBytes(addr, ts) + rest == [0] + d1;
    TakeTagInverts(0, 1, d1);
    TakeAddrInverts(addr, Varint(ts) + rest);
    TakeU64Inverts(ts, rest);
  }

  lemma TakeRecordInverts(scheme: Scheme, r: SignedRecord)
    requires |r.endpointId| == 32 && scheme.isKey(r.endpointId) && |r.sig| == 64
    ensures TakeRecord(scheme, RecordBytes(r)) == Some(r)
    ensures |RecordBytes(r)| <= MAX_VALUE_LEN
  {
    var payload := PayloadBytes(r.addr, r.ts);
    TakeBytesInverts(r.endpointId, payload + r.sig);
    TakePayloadInverts(r.addr, r.ts, r.sig);
    TakeBytesInverts(r.sig, []);
    assert r.sig + [] == r.sig;
  }

  /** A signed record fits a slot and decodes in exactly the slot it was signed for. */
  lemma BoundToItsSlot(scheme: Scheme, secret: Bytes, addr: SocketAddr, ts: U64, slot: SocketAddr)
    requires Sound(scheme)
    ensures var r := Sign(scheme, secret, addr, ts);
            && |RecordBytes(r)| <= MAX_VALUE_LEN
            && DecodeRecord(scheme, RecordBytes(r), slot) == if slot == addr then Some(r) else None
  {
    TakeRecordInverts(scheme, Sign(scheme, secret, addr, ts));
  }

  /** The valid records among looked-up values, in their order: the filter of `lookup_uncached`. */
  function Validated(scheme: Scheme, values: seq<Bytes>, addr: SocketAddr): (records: seq<SignedRecord>)
    ensures forall r :: r in records ==> r.addr == addr && Verify(scheme, r)
    ensures forall r :: r in records <==> exists v :: v in values && DecodeRecord(scheme, v, addr) == Some(r)
  {
    if values == [] then [] else
      var rest := Validated(scheme, values[1..], addr);
      assert forall v :: v in values <==> v == values[0] || v in values[1..];
      match DecodeRecord(scheme, values[0], addr)
      case None => rest
      case Some(r) => [r] + rest
  }
}
