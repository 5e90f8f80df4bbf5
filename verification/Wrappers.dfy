/** Shared value types: optional values and the fixed-width integers of the wire formats. */
module Wrappers {

  datatype Option<+T> = None | Some(value: T)

  type byte = x: int | 0 <= x < 0x100

  type u16 = x: int | 0 <= x < 0x1_0000

  type u32 = x: int | 0 <= x < 0x1_0000_0000

  /** The synchronization source that tells RTP streams apart. */
  datatype SSRC = SSRC(number: u32)

  function Min(a: int, b: int): int {
    if a < b then a else b
  }

  function ToNat(b: bool): nat {
    if b then 1 else 0
  }

  /** Conversion of an unbounded integer to uint16, which is how Go's uint16 arithmetic wraps. */
  function Wrap(n: int): u16 {
    n % 0x1_0000
  }

  /** Wrapping loses nothing between numbers that are less than one cycle apart. */
  lemma {:induction false} WrapInjective(a: int, b: int)
    requires Wrap(a) == Wrap(b)
    requires -0x1_0000 < a - b < 0x1_0000
    ensures a == b
  {
  }

  lemma {:induction false} WrapOfSum(a: int, b: int)
    ensures Wrap(Wrap(a) + b) == Wrap(a + b)
    ensures Wrap(b - Wrap(a)) == Wrap(b - a)
  {
  }

  lemma {:induction false} WrapOfDifference(a: int, b: int)
    ensures Wrap(Wrap(a) - Wrap(b)) == Wrap(a - b)
  {
  }

  lemma {:induction false} ConcatAssoc<T>(a: seq<T>, b: seq<T>, c: seq<T>)
    ensures (a + b) + c == a + (b + c)
  {
  }
}
