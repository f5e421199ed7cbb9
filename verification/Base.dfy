/** Values shared by every part of the model: options, machine integers, bytes and IPv4 sockets. */
module Base {

  datatype Option<+T> = None | Some(value: T) {
    predicate IsFailure() {
      None?
    }

    function PropagateFailure<U>(): Option<U>
      requires None?
    {
      None
    }

    function Extract(): T
      requires Some?
    {
      value
    }
  }

  type Byte = b: int | 0 <= b < 0x100
  type Bytes = seq<Byte>

  const U64_MAX: int := 0xFFFF_FFFF_FFFF_FFFF

  type U16 = n: int | 0 <= n < 0x1_0000
  type U32 = n: int | 0 <= n < 0x1_0000_0000
  type U64 = n: int | 0 <= n <= U64_MAX

  /** An IPv4 address is kept as the number its four octets spell, most significant octet first. */
  datatype SocketAddr = SocketAddr(ip: U32, port: U16)

  function Min(a: int, b: int): int {
    if a <= b then a else b
  }

  function Max(a: int, b: int): int {
    if a >= b then a else b
  }

  /** `u64::saturating_add`. */
  function SaturatingAdd(a: U64, b: U64): U64 {
    Min(a + b, U64_MAX)
  }

  function Zeros(n: nat): (z: Bytes) {
    seq(n, _ => 0)
  }

  /** Batches one after the other. */
  function Flatten<T>(batches: seq<seq<T>>): seq<T> {
    if batches == [] then [] else Flatten(batches[..|batches| - 1]) + batches[|batches| - 1]
  }

  lemma {:induction false} FlattenSplit<T>(batches: seq<seq<T>>, i: nat)
    requires i <= |batches|
    ensures Flatten(batches) == Flatten(batches[..i]) + Flatten(batches[i..])
    decreases |batches|
  {
    if i == |batches| {
      assert batches[..i] == batches;
    } else {
      var front := batches[..|batches| - 1];
      FlattenSplit(front, i);
      assert front[..i] == batches[..i] && front[i..] == batches[i..][..|batches[i..]| - 1];
    }
  }
}
