// C integer widths used by the clock firmware (AVR: `int` is 16 bits wide).
module CInt {

  /** uint8_t */
  type u8 = x: int | 0 <= x < 256

  /** int8_t */
  type i8 = x: int | -128 <= x < 128

  /** Conversion of an integer to uint8_t: reduction modulo 256. */
  function AsU8(x: int): (r: u8)
    ensures 0 <= x < 256 ==> r == x
    ensures (x - r) % 256 == 0
  {
    x % 256
  }

  /** Conversion of an integer to int8_t (two's complement wrap-around). */
  function AsI8(x: int): (r: i8)
    ensures -128 <= x < 128 ==> r == x
    ensures (x - r) % 256 == 0
  {
    var m := x % 256;
    if m < 128 then m else m - 256
  }

  /** C division: truncates toward zero (Dafny's `/` is Euclidean). */
  function CDiv(a: int, b: int): (q: int)
    requires b > 0
    ensures a >= 0 ==> q * b <= a < q * b + b
    ensures a < 0 ==> q * b - b < a <= q * b
  {
    if a >= 0 then a / b else -((-a) / b)
  }

  /** C remainder: takes the sign of the dividend. */
  function CMod(a: int, b: int): (r: int)
    requires b > 0
    ensures a == CDiv(a, b) * b + r
    ensures a >= 0 ==> r == a % b
    ensures -b < r < b
    ensures a < 0 ==> r <= 0
  {
    a - CDiv(a, b) * b
  }

  /** Tens digit of a small signed value, as `x / 10` computes it in C. */
  function Tens(x: int): int { CDiv(x, 10) }

  /** Units digit of a small signed value, as `x % 10` computes it in C. */
  function Units(x: int): int { CMod(x, 10) }

  /** Storing an int8_t in a byte and reading the byte back as int8_t returns the value, and
      the other way round. */
  lemma ByteRoundTrip(x: i8, b: u8)
    ensures AsI8(AsU8(x)) == x
    ensures AsU8(AsI8(b)) == b
  {
  }
}
