/** Java's 32-bit `int`, for positions and lengths after `intValue()`. */
module JavaInt {
  const MinInt: int := -0x8000_0000
  const MaxInt: int := 0x7fff_ffff
  const Modulus: int := 0x1_0000_0000

  type JInt = x: int | -0x8000_0000 <= x <= 0x7fff_ffff

  /** Two's-complement wrap-around of an `int` addition or narrowing. */
  function Wrap32(x: int): (r: JInt)
    ensures MinInt <= x <= MaxInt ==> r == x
    ensures (x - r) % Modulus == 0
  {
    (x - MinInt) % Modulus + MinInt
  }
}
