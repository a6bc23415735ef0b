/** The C and Arduino arithmetic the firmware relies on, written out: constrain(), division and remainder
    that truncate toward zero, and the conversions to fixed-width integer types. */
module Arduino {

  type I8 = v: int | -0x80 <= v < 0x80
  type I16 = v: int | -0x8000 <= v < 0x8000

  /** Arduino's constrain(x, lo, hi): x < lo ? lo : (x > hi ? hi : x). */
  function Constrain(x: int, lo: int, hi: int): (r: int)
    ensures lo <= hi ==> lo <= r <= hi
    ensures lo <= x <= hi ==> r == x
    ensures x < lo ==> r == lo
    ensures lo <= hi && x > hi ==> r == hi
  {
    if x < lo then lo else if x > hi then hi else x
  }

  /** C's / on int: the quotient truncated toward zero. */
  function CDiv(a: int, b: int): (q: int)
    requires b > 0
    ensures a >= 0 ==> q == a / b
    ensures a < 0 ==> q == -((-a) / b)
  {
    if a >= 0 then a / b else -((-a) / b)
  }

  /** C's % on int: the remainder takes the sign of the dividend. */
  function CRem(a: int, b: int): (r: int)
    requires b > 0
    ensures a == CDiv(a, b) * b + r
    ensures a >= 0 ==> 0 <= r < b && r == a % b
    ensures a < 0 ==> -b < r <= 0
  {
    if a >= 0 then a % b else -((-a) % b)
  }

  /** Conversion of an int to uint8_t: modulo 256. */
  function ToU8(v: int): (b: int)
    ensures 0 <= b < 0x100
    ensures 0 <= v < 0x100 ==> b == v
  {
    v % 0x100
  }

  /** Conversion of an int to int8_t: modulo 256 into [-128, 128). */
  function ToI8(v: int): (b: I8)
    ensures -0x80 <= v < 0x80 ==> b == v
    ensures (b - v) % 0x100 == 0
  {
    (v + 0x80) % 0x100 - 0x80
  }

  /** Conversion of an int to uint16_t: modulo 65536. */
  function ToU16(v: int): (w: int)
    ensures 0 <= w < 0x1_0000
    ensures 0 <= v < 0x1_0000 ==> w == v
    ensures (w - v) % 0x1_0000 == 0
  {
    v % 0x1_0000
  }

  /** Conversion of an int to a 32-bit int: modulo 2^32 into [-2^31, 2^31). */
  function ToI32(v: int): (r: int)
    ensures -0x8000_0000 <= r < 0x8000_0000
    ensures -0x8000_0000 <= v < 0x8000_0000 ==> r == v
    ensures (r - v) % 0x1_0000_0000 == 0
  {
    (v + 0x8000_0000) % 0x1_0000_0000 - 0x8000_0000
  }
}
