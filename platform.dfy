/** The target's fixed-width integer types, shared by the other modules. */
module Platform {

  const IntMin: int := -0x8000_0000
  const IntMax: int := 0x7FFF_FFFF

  /** The values a 32-bit C `int` (or `long`, on this target) can hold. */
  predicate IsInt(x: int) {
    IntMin <= x <= IntMax
  }

  /** `millis()` is an `unsigned long`, 32 bits wide on the target. */
  predicate IsMillis(t: int) {
    0 <= t < 0x1_0000_0000
  }

  /** Two's complement reduction into 32 bits: what the target yields when a
      signed subtraction overflows, or when an unsigned value is stored in a
      signed variable of the same width. */
  function Wrap32(x: int): (r: int)
    ensures IsInt(r)
    ensures (x - r) % 0x1_0000_0000 == 0
    ensures IsInt(x) ==> r == x
  {
    var m := x % 0x1_0000_0000;
    if m <= IntMax then m else m - 0x1_0000_0000
  }
}
