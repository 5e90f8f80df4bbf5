/**
 A 16-bit word as the set of its one-bits, with the word operators that NACK masks use.
 */
module Bitmap {

  type Bitmap = bits: set<nat> | forall k :: k in bits ==> k < 16

  const ZERO: Bitmap := {}

  /** 1 << shift on a uint16: Go yields zero once the bit leaves the word. */
  function One(shift: nat): Bitmap {
    if shift < 16 then {shift} else {}
  }

  function Or(a: Bitmap, b: Bitmap): Bitmap {
    a + b
  }

  function AndNot(a: Bitmap, b: Bitmap): Bitmap {
    a - b
  }
}
