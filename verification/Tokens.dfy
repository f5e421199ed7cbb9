/**
 Stateless write tokens.

 A server derives a token from a socket and a time bucket with a keyed hash.
 The hash is a parameter of the model; what the protocol needs of it is that
 one server gives different tokens to different sockets and buckets.
 */
module Tokens {
  import opened Base
  import opened Wire

  type TokenFn = (SocketAddr, U64) -> Token

  ghost predicate Injective(tokenFor: TokenFn) {
    forall a: SocketAddr, p: U64, b: SocketAddr, q: U64 :: tokenFor(a, p) == tokenFor(b, q) ==> a == b && p == q
  }

  function Bucket(bucketSecs: U64, now: U64): U64 {
    now / Max(bucketSecs, 1)
  }

  function Issue(tokenFor: TokenFn, bucketSecs: U64, addr: SocketAddr, now: U64): Token {
    tokenFor(addr, Bucket(bucketSecs, now))
  }

  predicate Verify(tokenFor: TokenFn, bucketSecs: U64, addr: SocketAddr, token: Token, now: U64) {
    var bucket := Bucket(bucketSecs, now);
    tokenFor(addr, bucket) == token || (bucket > 0 && tokenFor(addr, bucket - 1) == token)
  }

  /** A token is accepted from exactly its own socket, in exactly its own bucket and the next one. */
  lemma AcceptedExactly(tokenFor: TokenFn, bucketSecs: U64, a: SocketAddr, t: U64, b: SocketAddr, u: U64)
    requires Injective(tokenFor)
    ensures Verify(tokenFor, bucketSecs, b, Issue(tokenFor, bucketSecs, a, t), u) <==>
            a == b && Bucket(bucketSecs, t) <= Bucket(bucketSecs, u) <= Bucket(bucketSecs, t) + 1
  {
  }

  /**
   In seconds: with buckets of length B, a token issued at t is accepted through
   t + B and never from t + 2B on; a clock that steps back far enough rejects it too.
   */
  lemma AcceptedWindow(tokenFor: TokenFn, bucketSecs: U64, addr: SocketAddr, t: U64, u: U64)
    requires Injective(tokenFor)
    ensures var B := Max(bucketSecs, 1);
            var accepted := Verify(tokenFor, bucketSecs, addr, Issue(tokenFor, bucketSecs, addr, t), u);
            && (t <= u <= t + B ==> accepted)
            && (u >= t + 2 * B ==> !accepted)
            && (u <= t - B ==> !accepted)
  {
    var B := Max(bucketSecs, 1);
    AcceptedExactly(tokenFor, bucketSecs, addr, t, addr, u);
    if t <= u <= t + B {
      QuotientGap(B, t, u, 0);
      QuotientGap(B, u, t, -1);
    }
    if u >= t + 2 * B {
      QuotientGap(B, t, u, 2);
    }
    if u <= t - B {
      QuotientGap(B, u, t, 1);
    }
  }

  lemma QuotientGap(b: int, x: int, y: int, k: int)
    requires b > 0 && y >= x + k * b
    ensures y / b >= x / b + k
  {
    var (p, q) := (x / b, y / b);
    assert x >= p * b && y < q * b + b;
    assert (p + k) * b == p * b + k * b;
    assert (q + 1) * b == q * b + b;
    MulCancel(b, p + k, q + 1);
  }

  lemma MulCancel(b: int, m: int, n: int)
    requires b > 0 && m * b < n * b
    ensures m < n
  {
    assert (n - m) * b > 0;
  }

  // ----- The assumption can be met -----

  function BigEndian(n: nat, len: nat): (r: Bytes)
    ensures |r| == len
  {
    if len == 0 then [] else BigEndian(n / 0x100, len - 1) + [n % 0x100]
  }

  function Range(len: nat): nat {
    if len == 0 then 1 else 0x100 * Range(len - 1)
  }

  lemma {:induction false} BigEndianInjective(m: nat, n: nat, len: nat)
    requires m < Range(len) && n < Range(len) && BigEndian(m, len) == BigEndian(n, len)
    ensures m == n
  {
    if len > 0 {
      var (a, b) := (BigEndian(m, len), BigEndian(n, len));
      assert a[len - 1] == m % 0x100 && b[len - 1] == n % 0x100;
      assert a[..len - 1] == BigEndian(m / 0x100, len - 1);
      assert b[..len - 1] == BigEndian(n / 0x100, len - 1);
      BigEndianInjective(m / 0x100, n / 0x100, len - 1);
    }
  }

  /** The bytes the source hashes, without the hash: socket and bucket in full. */
  function PlainToken(addr: SocketAddr, bucket: U64): Token {
    BigEndian(addr.ip, 4) + BigEndian(addr.port, 2) + BigEndian(bucket, 8) + [0, 0]
  }

  lemma InjectiveTokensExist()
    ensures Injective(PlainToken)
  {
    assert Range(4) == 0x1_0000_0000 && Range(2) == 0x1_0000;
    assert Range(8) == Range(4) * 0x1_0000_0000;
    forall a: SocketAddr, p: U64, b: SocketAddr, q: U64 | PlainToken(a, p) == PlainToken(b, q)
      ensures a == b && p == q
    {
      var (s, t) := (PlainToken(a, p), PlainToken(b, q));
      assert s[..4] == BigEndian(a.ip, 4) && t[..4] == BigEndian(b.ip, 4);
      assert s[4..6] == BigEndian(a.port, 2) && t[4..6] == BigEndian(b.port, 2);
      assert s[6..14] == BigEndian(p, 8) && t[6..14] == BigEndian(q, 8);
      BigEndianInjective(a.ip, b.ip, 4);
      BigEndianInjective(a.port, b.port, 2);
      BigEndianInjective(p, q, 8);
    }
  }
}
