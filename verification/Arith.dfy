/** The C integer arithmetic the simulator relies on, written out over `int`.
    A shift by n bits is a division by 2^n, a mask by 2^n - 1 is a remainder. */
module CArith {
  datatype Option<+T> = None | Some(value: T)

  /** uint32_t */
  type u32 = x: int | 0 <= x < 0x1_0000_0000

  /** Conversion of an arbitrary integer to uint32_t. */
  function Wrap(x: int): u32 {
    x % 0x1_0000_0000
  }

  /** C division truncates toward zero (section 6.5.5 of ISO/IEC 9899:2011). */
  function TruncDiv(a: int, b: int): int
    requires b > 0
  {
    if a >= 0 then a / b else -((-a) / b)
  }

  /** Conversion of uint32_t to a 32-bit two's complement int. */
  function ToSigned(x: u32): int {
    if x < 0x8000_0000 then x else x - 0x1_0000_0000
  }

  /** The two's complement sum is the sum modulo 2^32. */
  lemma SignedSum(a: u32, b: u32)
    ensures Wrap(ToSigned(a) + ToSigned(b)) == Wrap(a + b)
  {
  }
}
