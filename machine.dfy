/** Fixed-width integers of the source (u32, i32) over Dafny's unbounded
    integers, with the wrap-around of a release build written out. */
module Machine {

  const U32_MAX: int := 0xffff_ffff
  const I32_MIN: int := -0x8000_0000
  const I32_MAX: int := 0x7fff_ffff

  predicate IsU32(x: int) { 0 <= x <= U32_MAX }
  predicate IsI32(x: int) { I32_MIN <= x <= I32_MAX }

  /** Two's-complement wrap of an exact result into i32, as an overflowing
      `+` or `-` on i32 behaves in a release build. */
  function WrapI32(v: int): (r: int)
    ensures IsI32(r)
    ensures (r - v) % 0x1_0000_0000 == 0
    ensures IsI32(v) ==> r == v
  {
    (v - I32_MIN) % 0x1_0000_0000 + I32_MIN
  }

  /** `x as i32` for a u32 value: the same 32 bits read as two's complement. */
  function U32AsI32(x: int): (r: int)
    requires IsU32(x)
    ensures IsI32(r)
    ensures (r - x) % 0x1_0000_0000 == 0
  {
    if x <= I32_MAX then x else x - 0x1_0000_0000
  }

  /** `x as u32` for an i32 value. */
  function I32AsU32(x: int): (r: int)
    requires IsI32(x)
    ensures IsU32(r)
    ensures (r - x) % 0x1_0000_0000 == 0
  {
    if x < 0 then x + 0x1_0000_0000 else x
  }

  /** `i32::abs` in a release build: exact except that `i32::MIN.abs()`
      wraps back to `i32::MIN`. */
  function AbsI32(x: int): (r: int)
    requires IsI32(x)
    ensures IsI32(r)
    ensures x != I32_MIN ==> r >= 0 && (r == x || r == -x)
    ensures x == I32_MIN ==> r == I32_MIN
  {
    if x == I32_MIN then I32_MIN else if x < 0 then -x else x
  }

  /** Distance between two integers, exact. */
  function Dist(a: int, b: int): (d: nat)
    ensures d == a - b || d == b - a
  {
    if a >= b then a - b else b - a
  }
}
