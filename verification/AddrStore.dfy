/**
 The server's store: a map from sockets to values, with an expiry index and a
 count per IP address kept beside it.

 The class changes the three structures in place, as the source does. Its
 methods are proved against functions of the entries alone, and what the store
 promises over whole runs is proved about those functions.
 */
module AddrStore {
  import opened Base
  import opened Ordering
  import Wire

  datatype Entry = Entry(value: Bytes, expiresAt: U64)
  datatype PutError = TooLarge | Full
  datatype PutResult = Accepted | Rejected(error: PutError)
  datatype Limits = Limits(maxValueLen: nat, maxEntries: nat, maxEntriesPerIp: nat, valueTtlSecs: U64)

  type Entries = map<SocketAddr, Entry>
  type Expiry = (U64, SocketAddr)

  // ----- The store as a function of its entries -----

  predicate ExpiryLe(a: Expiry, b: Expiry) {
    a.0 < b.0 || (a.0 == b.0 && AddrLe(a.1, b.1))
  }

  function Expiries(e: Entries): set<Expiry> {
    set a | a in e :: (e[a].expiresAt, a)
  }

  function OfIp(e: Entries, ip: U32): set<SocketAddr> {
    set a | a in e && a.ip == ip
  }

  /** What is left once everything due at `now` is collected. */
  function Live(e: Entries, now: U64): Entries {
    map a | a in e && e[a].expiresAt > now :: e[a]
  }

  /** The entry nearest to expiry, the smallest socket among equals. */
  function Oldest(e: Entries): (victim: SocketAddr)
    requires e != map[]
    ensures victim in e
    ensures forall a :: a in e ==> e[victim].expiresAt <= e[a].expiresAt
  {
    var a :| a in e;
    assert (e[a].expiresAt, a) in Expiries(e);
    assert TotalOrder(ExpiryLe);
    var first := Least(Expiries(e), ExpiryLe);
    assert forall a :: a in e ==> (e[a].expiresAt, a) in Expiries(e);
    first.1
  }

  datatype Decision = Refuse(error: PutError) | Write | Evict(victim: SocketAddr)

  /** What a put does to a store that holds exactly `live`. */
  function Decide(live: Entries, addr: SocketAddr, len: nat, limits: Limits): Decision {
    if len > limits.maxValueLen || len > Wire.MAX_VALUE_LEN then Refuse(TooLarge)
    else if addr in live then Write
    else if |OfIp(live, addr.ip)| >= limits.maxEntriesPerIp then Refuse(Full)
    else if |live| < limits.maxEntries then Write
    else if live == map[] then Refuse(Full)
    else Evict(Oldest(live))
  }

  function Apply(e: Entries, d: Decision, addr: SocketAddr, entry: Entry): (Entries, PutResult) {
    match d
    case Refuse(error) => (e, Rejected(error))
    case Write => (e[addr := entry], Accepted)
    case Evict(victim) => ((e - {victim})[addr := entry], Accepted)
  }

  function NewEntry(value: Bytes, now: U64, limits: Limits): Entry {
    Entry(value, SaturatingAdd(now, limits.valueTtlSecs))
  }

  function PutTo(e: Entries, addr: SocketAddr, value: Bytes, now: U64, limits: Limits): (Entries, PutResult) {
    var live := Live(e, now);
    Apply(live, Decide(live, addr, |value|, limits), addr, NewEntry(value, now, limits))
  }

  function Lookup(e: Entries, addr: SocketAddr): Option<Bytes> {
    if addr in e then Some(e[addr].value) else None
  }

  // ----- The three structures -----

  ghost predicate Counts(perIp: map<U32, nat>, e: Entries) {
    && (forall ip: U32 :: ip in perIp <==> OfIp(e, ip) != {})
    && (forall ip: U32 :: ip in perIp ==> perIp[ip] == |OfIp(e, ip)|)
  }

  function Increment(perIp: map<U32, nat>, ip: U32): map<U32, nat> {
    perIp[ip := (if ip in perIp then perIp[ip] else 0) + 1]
  }

  function Decrement(perIp: map<U32, nat>, ip: U32): map<U32, nat>
    requires ip in perIp && perIp[ip] > 0
  {
    if perIp[ip] == 1 then perIp - {ip} else perIp[ip := perIp[ip] - 1]
  }

  lemma CountsRemoved(perIp: map<U32, nat>, e: Entries, addr: SocketAddr)
    requires Counts(perIp, e) && addr in e
    ensures addr.ip in perIp && perIp[addr.ip] > 0
    ensures Counts(Decrement(perIp, addr.ip), e - {addr})
  {
    assert addr in OfIp(e, addr.ip);
    var (less, after) := (Decrement(perIp, addr.ip), e - {addr});
    forall ip: U32
      ensures ip in less <==> OfIp(after, ip) != {}
      ensures ip in less ==> less[ip] == |OfIp(after, ip)|
    {
      assert OfIp(after, ip) == OfIp(e, ip) - {addr};
      if ip == addr.ip {
        assert |OfIp(after, ip)| == |OfIp(e, ip)| - 1;
        assert OfIp(after, ip) == {} <==> |OfIp(after, ip)| == 0;
      } else {
        assert OfIp(after, ip) == OfIp(e, ip);
      }
    }
  }

  lemma CountsInserted(perIp: map<U32, nat>, e: Entries, addr: SocketAddr, entry: Entry)
    requires Counts(perIp, e)
    ensures addr in e ==> Counts(perIp, e[addr := entry])
    ensures addr !in e ==> Counts(Increment(perIp, addr.ip), e[addr := entry])
  {
    var after := e[addr := entry];
    forall ip: U32
      ensures OfIp(after, ip) == if ip == addr.ip then OfIp(e, ip) + {addr} else OfIp(e, ip)
    {
    }
    assert addr in OfIp(after, addr.ip);
    assert addr in e <==> addr in OfIp(e, addr.ip);
  }

  lemma InExpiries(e: Entries)
    ensures forall x: Expiry :: x in Expiries(e) <==> x.1 in e && e[x.1].expiresAt == x.0
  {
    forall x: Expiry | x.1 in e && e[x.1].expiresAt == x.0 ensures x in Expiries(e) {
      assert x == (e[x.1].expiresAt, x.1);
    }
  }

  lemma ExpiriesRemoved(e: Entries, addr: SocketAddr)
    requires addr in e
    ensures Expiries(e - {addr}) == Expiries(e) - {(e[addr].expiresAt, addr)}
  {
    InExpiries(e);
    InExpiries(e - {addr});
  }

  lemma ExpiriesInserted(e: Entries, addr: SocketAddr, entry: Entry)
    ensures Expiries(e[addr := entry]) == Expiries(e - {addr}) + {(entry.expiresAt, addr)}
  {
    InExpiries(e[addr := entry]);
    InExpiries(e - {addr});
  }

  /** Removing what is due loses nothing that is live. */
  lemma LiveWithoutDue(e: Entries, addr: SocketAddr, now: U64)
    requires addr in e && e[addr].expiresAt <= now
    ensures Live(e - {addr}, now) == Live(e, now)
  {
  }

  /** Nothing is due when the first expiry is not. */
  lemma AllLive(e: Entries, now: U64)
    requires forall x :: x in Expiries(e) ==> x.0 > now
    ensures Live(e, now) == e
  {
    forall a | a in e ensures e[a].expiresAt > now {
      assert (e[a].expiresAt, a) in Expiries(e);
    }
  }

  lemma FirstIsOldest(e: Entries)
    requires Expiries(e) != {}
    ensures TotalOrder(ExpiryLe)
    ensures e != map[] && Least(Expiries(e), ExpiryLe).1 == Oldest(e)
  {
  }

  class Store {
    var entries: Entries
    var expirations: set<Expiry>
    var perIp: map<U32, nat>

    ghost predicate Valid()
      reads this
    {
      expirations == Expiries(entries) && Counts(perIp, entries)
    }

    constructor ()
      ensures Valid() && entries == map[]
    {
      entries, expirations, perIp := map[], {}, map[];
    }

    method RemoveEntry(addr: SocketAddr)
      requires Counts(perIp, entries)
      modifies this`entries, this`perIp
      ensures Counts(perIp, entries) && entries == old(entries) - {addr}
    {
      if addr in entries {
        CountsRemoved(perIp, entries, addr);
        entries := entries - {addr};
        var count := perIp[addr.ip] - 1;
        perIp := perIp[addr.ip := count];
        if count == 0 {
          perIp := perIp - {addr.ip};
        }
        assert perIp == Decrement(old(perIp), addr.ip);
      }
    }

    method Gc(now: U64)
      requires Valid()
      modifies this
      ensures Valid() && entries == Live(old(entries), now)
    {
      assert TotalOrder(ExpiryLe);
      while expirations != {}
        invariant Valid()
        invariant Live(entries, now) == Live(old(entries), now)
        decreases |expirations|
      {
        var (expiresAt, addr) := Least(expirations, ExpiryLe);
        if expiresAt > now {
          break;
        }
        LiveWithoutDue(entries, addr, now);
        ExpiriesRemoved(entries, addr);
        expirations := expirations - {(expiresAt, addr)};
        RemoveEntry(addr);
      }
      AllLive(entries, now);
    }

    method Put(addr: SocketAddr, value: Bytes, now: U64, limits: Limits) returns (result: PutResult)
      requires Valid()
      modifies this
      ensures Valid()
      ensures (entries, result) == PutTo(old(entries), addr, value, now, limits)
    {
      Gc(now);
      if |value| > limits.maxValueLen || |value| > Wire.MAX_VALUE_LEN {
        return Rejected(TooLarge);
      }
      if addr !in entries {
        var used := if addr.ip in perIp then perIp[addr.ip] else 0;
        if used >= limits.maxEntriesPerIp {
          return Rejected(Full);
        }
        if |entries| >= limits.maxEntries {
          if expirations == {} {
            AllLive(entries, U64_MAX);
            return Rejected(Full);
          }
          FirstIsOldest(entries);
          var (expiresAt, oldest) := Least(expirations, ExpiryLe);
          ExpiriesRemoved(entries, oldest);
          expirations := expirations - {(expiresAt, oldest)};
          RemoveEntry(oldest);
        }
      }
      Insert(addr, Entry(value, SaturatingAdd(now, limits.valueTtlSecs)));
      return Accepted;
    }

    method Insert(addr: SocketAddr, entry: Entry)
      requires Valid()
      modifies this
      ensures Valid() && entries == old(entries)[addr := entry]
    {
      ExpiriesInserted(entries, addr, entry);
      CountsInserted(perIp, entries, addr, entry);
      if addr in entries {
        ExpiriesRemoved(entries, addr);
        var previous := entries[addr];
        entries := entries[addr := entry];
        expirations := expirations - {(previous.expiresAt, addr)};
      } else {
        assert entries - {addr} == entries;
        entries := entries[addr := entry];
        perIp := perIp[addr.ip := (if addr.ip in perIp then perIp[addr.ip] else 0) + 1];
      }
      expirations := expirations + {(entry.expiresAt, addr)};
    }

    method Get(addr: SocketAddr, now: U64) returns (value: Option<Bytes>)
      requires Valid()
      modifies this
      ensures Valid() && entries == Live(old(entries), now)
      ensures value == Lookup(entries, addr)
    {
      Gc(now);
      value := if addr in entries then Some(entries[addr].value) else None;
    }
  }
}
