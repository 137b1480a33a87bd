/** Machine integers of the AVR target: `int` is 16 bits wide, `char` 8 bits,
    and signed overflow wraps in two's complement. */
module Ints {

  type int8 = x: int | -0x80 <= x < 0x80
  type uint8 = x: int | 0 <= x < 0x100
  type int16 = x: int | -0x8000 <= x < 0x8000
  type uint16 = x: int | 0 <= x < 0x1_0000
  type int32 = x: int | -0x8000_0000 <= x < 0x8000_0000

  /** Storing an integer into an `int16_t`: the value modulo 2^16, read back as signed. */
  function ToInt16(x: int): (r: int16)
    ensures (x - r) % 0x1_0000 == 0
    ensures -0x8000 <= x < 0x8000 ==> r == x
  {
    var m := x % 0x1_0000;
    if m < 0x8000 then m else m - 0x1_0000
  }

  /** Storing an integer into a `uint8_t`: the low byte. */
  function ToUint8(x: int): (r: uint8)
    ensures (x - r) % 0x100 == 0
    ensures 0 <= x < 0x100 ==> r == x
  {
    x % 0x100
  }

  /** Incrementing a `uint8_t`: storing the low byte first changes nothing. */
  lemma ToUint8Succ(x: int)
    ensures ToUint8(ToUint8(x) + 1) == ToUint8(x + 1)
  {
    var k := x / 0x100;
    assert x == k * 0x100 + ToUint8(x);
    if ToUint8(x) == 0xFF {
      DivUnique(x + 1, 0x100, k + 1, 0);
    } else {
      DivUnique(x + 1, 0x100, k, ToUint8(x) + 1);
    }
  }

  /** Reading an `int16_t` as a 16-bit `unsigned int`. */
  function AsUnsigned16(x: int16): (r: uint16)
    ensures x >= 0 ==> r == x
    ensures x < 0 ==> r == x + 0x1_0000
  {
    if x >= 0 then x else x + 0x1_0000
  }

  /** C integer division by a positive divisor: truncates toward zero. */
  function CDiv(a: int, b: int): (q: int)
    requires b > 0
    ensures a >= 0 ==> 0 <= q && q * b <= a < q * b + b
    ensures a < 0 ==> q <= 0 && q * b - b < a <= q * b
  {
    if a >= 0 then a / b else -((-a) / b)
  }

  /** C remainder by a positive divisor: takes the sign of the dividend. */
  function CMod(a: int, b: int): (r: int)
    requires b > 0
    ensures a >= 0 ==> 0 <= r < b
    ensures a < 0 ==> -b < r <= 0
    ensures a == CDiv(a, b) * b + r
  {
    if a >= 0 then a % b else -((-a) % b)
  }

  /** `(n * s - 1) / s` names the last of `n` blocks of `s` steps. */
  lemma LastStepOfBlock(n: int, s: int)
    requires n >= 1 && s >= 1
    ensures CDiv(n * s - 1, s) == n - 1
  {
    var q := CDiv(n * s - 1, s);
    assert q * s <= n * s - 1 < q * s + s;
    if q < n - 1 {
      MulMonotone(q + 1, n - 1, s);
    } else if q > n - 1 {
      MulMonotone(n, q, s);
    }
  }

  lemma MulMonotone(a: int, b: int, s: int)
    requires a <= b && s >= 0
    ensures a * s <= b * s
  {
  }

  /** Quotient and remainder are the only pair that rebuilds the dividend. */
  lemma DivUnique(n: int, d: int, q: int, r: int)
    requires d > 0 && 0 <= r < d && n == q * d + r
    ensures n / d == q && n % d == r
  {
    var q', r' := n / d, n % d;
    assert n == q' * d + r';
    if q' > q {
      MulMonotone(q + 1, q', d);
    } else if q' < q {
      MulMonotone(q' + 1, q, d);
    }
  }

  /** A non-negative position lies in the block that its quotient names. */
  lemma QuotientBelow(p: int, s: int, n: int)
    requires s >= 1 && 0 <= p <= n * s - 1
    ensures 0 <= CDiv(p, s) <= n - 1
  {
    var q := CDiv(p, s);
    if q > n - 1 {
      MulMonotone(n, q, s);
    }
  }
}
