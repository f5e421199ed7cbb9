/** Total orders, the least element of a finite set, and a set listed in ascending order. */
module Ordering {
  import opened Base

  ghost predicate TotalOrder<T(!new)>(le: (T, T) -> bool) {
    && (forall x, y :: le(x, y) || le(y, x))
    && (forall x, y :: le(x, y) && le(y, x) ==> x == y)
    && (forall x, y, z :: le(x, y) && le(y, z) ==> le(x, z))
  }

  ghost predicate Ascending<T>(s: seq<T>, le: (T, T) -> bool) {
    forall i, j :: 0 <= i < j < |s| ==> le(s[i], s[j]) && s[i] != s[j]
  }

  ghost predicate IsLeast<T>(m: T, s: set<T>, le: (T, T) -> bool) {
    m in s && forall x :: x in s ==> le(m, x)
  }

  lemma {:induction false} LeastExists<T(!new)>(s: set<T>, le: (T, T) -> bool)
    requires s != {} && TotalOrder(le)
    ensures exists m :: IsLeast(m, s, le)
  {
    var m :| m in s;
    if s == {m} {
      assert IsLeast(m, s, le);
    } else {
      LeastExists(s - {m}, le);
      var k :| IsLeast(k, s - {m}, le);
      if le(m, k) {
        assert IsLeast(m, s, le);
      } else {
        assert IsLeast(k, s, le);
      }
    }
  }

  /** `BTreeSet::first` on a nonempty set. */
  function Least<T(!new)>(s: set<T>, le: (T, T) -> bool): (m: T)
    requires s != {} && TotalOrder(le)
    ensures m in s && forall x :: x in s ==> le(m, x)
  {
    LeastExists(s, le);
    assert forall m, k :: IsLeast(m, s, le) && IsLeast(k, s, le) ==> m == k;
    var m :| m in s && forall x :: x in s ==> le(m, x);
    m
  }

  /** The elements of a set collected into a vector and sorted. */
  function Listed<T(!new)>(s: set<T>, le: (T, T) -> bool): (r: seq<T>)
    requires TotalOrder(le)
    ensures Ascending(r, le)
    ensures forall x :: x in r <==> x in s
    ensures |r| == |s|
  {
    if s == {} then [] else
      var m := Least(s, le);
      [m] + Listed(s - {m}, le)
  }

  /** An ascending listing is determined by its elements. */
  lemma {:induction false} AscendingUnique<T(!new)>(a: seq<T>, b: seq<T>, le: (T, T) -> bool)
    requires TotalOrder(le) && Ascending(a, le) && Ascending(b, le)
    requires forall x :: x in a <==> x in b
    ensures a == b
  {
    assert forall i :: 0 <= i < |a| ==> a[i] in b;
    assert forall i :: 0 <= i < |b| ==> b[i] in a;
    if a != [] && b != [] {
      assert a[0] == b[0];
      forall x ensures x in a[1..] <==> x in b[1..] {
        assert x in a[1..] <==> x in a && x != a[0];
        assert x in b[1..] <==> x in b && x != b[0];
      }
      AscendingUnique(a[1..], b[1..], le);
    }
  }

  /** No other ascending list has the same elements. */
  ghost predicate OnlyAscending<T(!new)>(r: seq<T>, le: (T, T) -> bool) {
    forall list :: Ascending(list, le) && (forall x :: x in list <==> x in r) ==> list == r
  }

  lemma AscendingIsOnly<T(!new)>(r: seq<T>, le: (T, T) -> bool)
    requires TotalOrder(le) && Ascending(r, le)
    ensures OnlyAscending(r, le)
  {
    forall list | Ascending(list, le) && (forall x :: x in list <==> x in r) ensures list == r {
      AscendingUnique(list, r, le);
    }
  }

  /** The order of `SocketAddrV4`: by address, then by port. */
  predicate AddrLe(a: SocketAddr, b: SocketAddr) {
    a.ip < b.ip || (a.ip == b.ip && a.port <= b.port)
  }

  lemma AddrLeIsTotal()
    ensures TotalOrder(AddrLe)
  {
  }

  /** The order of `Vec<u8>`: lexicographic. */
  predicate BytesLe(a: Bytes, b: Bytes) {
    a == [] || (b != [] && (a[0] < b[0] || (a[0] == b[0] && BytesLe(a[1..], b[1..]))))
  }

  lemma {:induction false} BytesLeConnected(a: Bytes, b: Bytes)
    ensures BytesLe(a, b) || BytesLe(b, a)
  {
    if a != [] && b != [] {
      BytesLeConnected(a[1..], b[1..]);
    }
  }

  lemma {:induction false} BytesLeAntisymmetric(a: Bytes, b: Bytes)
    requires BytesLe(a, b) && BytesLe(b, a)
    ensures a == b
  {
    if a != [] && b != [] {
      BytesLeAntisymmetric(a[1..], b[1..]);
      assert a == [a[0]] + a[1..] && b == [b[0]] + b[1..];
    }
  }

  lemma {:induction false} BytesLeTransitive(a: Bytes, b: Bytes, c: Bytes)
    requires BytesLe(a, b) && BytesLe(b, c)
    ensures BytesLe(a, c)
  {
    if a != [] && a[0] == b[0] == c[0] {
      BytesLeTransitive(a[1..], b[1..], c[1..]);
    }
  }

  lemma BytesLeIsTotal()
    ensures TotalOrder(BytesLe)
  {
    forall a: Bytes, b: Bytes
      ensures BytesLe(a, b) || BytesLe(b, a)
      ensures BytesLe(a, b) && BytesLe(b, a) ==> a == b
    {
      BytesLeConnected(a, b);
      if BytesLe(a, b) && BytesLe(b, a) {
        BytesLeAntisymmetric(a, b);
      }
    }
    forall a: Bytes, b: Bytes, c: Bytes | BytesLe(a, b) && BytesLe(b, c)
      ensures BytesLe(a, c)
    {
      BytesLeTransitive(a, b, c);
    }
  }
}
