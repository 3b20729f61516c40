/** Java's 32-bit `int`, with the wrap-around of its `+` written out. */
module JavaInt {

  const MinInt: int := -0x8000_0000
  const MaxInt: int := 0x7fff_ffff
  const Modulus: int := 0x1_0000_0000

  type Int32 = x: int | MinInt <= x <= MaxInt

  /** Java's `a + b` on two `int`s: the exact sum reduced into two's complement. */
  function Add(a: Int32, b: Int32): (r: Int32)
    ensures (r - (a + b)) % Modulus == 0
    ensures MinInt <= a + b <= MaxInt ==> r == a + b
    ensures a + b > MaxInt ==> r == a + b - Modulus
    ensures a + b < MinInt ==> r == a + b + Modulus
  {
    (a + b - MinInt) % Modulus + MinInt
  }
}
