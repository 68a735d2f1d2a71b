/** Small shared vocabulary: optional values and fixed-width words. */
module Basics {

  datatype Option<+T> = None | Some(value: T) {
    predicate IsFailure() {
      None?
    }

    function PropagateFailure<U>(): Option<U>
      requires None?
    {
      None
    }

    function Extract(): T
      requires Some?
    {
      value
    }
  }

  const TWO_64: nat := 0x1_0000_0000_0000_0000

  /** An unsigned 64-bit word; Go's uint64 arithmetic wraps around modulo 2^64. */
  type U64 = n: nat | n < TWO_64

  /** One byte of calldata, code or text. */
  type Byte = n: nat | n < 256

  function Plus(a: nat, b: nat): U64 {
    (a + b) % TWO_64
  }

  lemma PlusAssoc(a: nat, b: nat, c: nat)
    ensures Plus(Plus(a, b), c) == Plus(a + c, b) == Plus(a, b + c)
  {
  }

  function Minus1(a: U64): U64 {
    if a == 0 then TWO_64 - 1 else a - 1
  }
}
