/** Java's primitive integer types and its truncating integer division. */
module JavaInt {

  const TWO_8: int := 0x100
  const TWO_16: int := 0x1_0000
  const TWO_31: int := 0x8000_0000
  const TWO_32: int := 0x1_0000_0000

  /** Java `int`. */
  newtype int32 = x: int | -0x8000_0000 <= x < 0x8000_0000

  /** Java `char`: an unsigned 16-bit code unit (surrogates included). */
  newtype jchar = x: int | 0 <= x < 0x1_0000

  /** One byte on the wire, as an unsigned value. */
  newtype byte = x: int | 0 <= x < 0x100

  /** How many times `for (i = s; i < s + c; i++)` runs: `c`, or none
      when `c` is not positive. */
  function Max0(c: int): nat {
    if c < 0 then 0 else c
  }

  /** Java's `a / b` on ints: the quotient is rounded toward zero. */
  function JavaDiv(a: int, b: int): (q: int)
    requires b != 0
    ensures a >= 0 && b > 0 ==> q == a / b
    ensures q * b + JavaRem(a, b) == a
  {
    if a >= 0 || a % b == 0 then a / b
    else if b > 0 then a / b + 1
    else a / b - 1
  }

  /** Java's `a % b` on ints: the remainder takes the sign of `a`. */
  function JavaRem(a: int, b: int): (r: int)
    requires b != 0
    ensures a >= 0 ==> 0 <= r < (if b > 0 then b else -b)
    ensures a < 0 ==> -(if b > 0 then b else -b) < r <= 0
    ensures a >= 0 && b > 0 ==> r == a % b
  {
    if a >= 0 || a % b == 0 then a % b
    else a % b - (if b > 0 then b else -b)
  }

  /** Java's `int` addition and multiplication keep the low 32 bits of the
      exact result, read as a two's-complement number. */
  function Wrap32(x: int): (r: int32)
    ensures (r as int - x) % TWO_32 == 0
    ensures -TWO_31 <= x < TWO_31 ==> r as int == x
  {
    var u := x % TWO_32;
    if u < TWO_31 then u as int32 else (u - TWO_32) as int32
  }
}
