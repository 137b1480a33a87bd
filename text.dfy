/** The integer-to-text helpers the screens print with. Each fills the shared
    eight-character buffer `conv` and returns it, so every call overwrites the text of
    the previous one. Arithmetic is C's: `/` and `%` truncate toward zero. */
module LcdText {
  import opened Ints

  /** `v + '0'` for a C remainder by 10, which lies in -9..9. */
  function DigitChar(v: int): (c: char)
    requires -9 <= v <= 9
    ensures c as int == 48 + v
  {
    (48 + v) as char
  }

  /** Reference: the decimal digits of n, most significant first, no leading zeros. */
  function Decimal(n: nat): (s: string)
    ensures 1 <= |s|
    decreases n
  {
    if n < 10 then [DigitChar(n)] else Decimal(n / 10) + [DigitChar(n % 10)]
  }

  /** Reference: s right-aligned in a field of the given width, filled with c. */
  function PadLeft(s: string, width: nat, c: char): (r: string)
    ensures |r| == if |s| >= width then |s| else width
  {
    if |s| >= width then s else seq(width - |s|, _ => c) + s
  }

  /** itostr2: the two low decimal digits of a byte. */
  function Itostr2Text(x: uint8): (r: string)
    ensures |r| == 2
  {
    [DigitChar(CMod(CDiv(x, 10), 10)), DigitChar(CMod(x, 10))]
  }

  /** itostr31: a sign, the thousands, hundreds and tens digits, a point, and the units digit. */
  function Itostr31Text(xx: int16): (r: string)
    ensures |r| == 6 && r[4] == '.'
    ensures r[0] == (if xx >= 0 then '+' else '-')
  {
    [ if xx >= 0 then '+' else '-',
      DigitChar(CMod(CDiv(xx, 1000), 10)),
      DigitChar(CMod(CDiv(xx, 100), 10)),
      DigitChar(CMod(CDiv(xx, 10), 10)),
      '.',
      DigitChar(CMod(xx, 10)) ]
  }

  /** The magnitude itostr3 prints: `xx = -xx` for a negative int16, which wraps at -32768. */
  function Itostr3Magnitude(x: int16): int16
  {
    if x < 0 then ToInt16(-(x as int)) else x
  }

  /** itostr3: three characters, right-aligned, '-' in front of negative numbers. */
  function Itostr3Text(x: int16): (r: string)
    ensures |r| == 3
  {
    var xx := Itostr3Magnitude(x);
    [ if x < 0 then '-' else if xx >= 100 then DigitChar(CMod(CDiv(xx, 100), 10)) else ' ',
      if xx >= 10 then DigitChar(CMod(CDiv(xx, 10), 10)) else ' ',
      DigitChar(CMod(xx, 10)) ]
  }

  /** itostr3left: one to three characters, left-aligned. */
  function Itostr3LeftText(xx: int16): (r: string)
    ensures 1 <= |r| <= 3
  {
    if xx >= 100 then
      [DigitChar(CMod(CDiv(xx, 100), 10)), DigitChar(CMod(CDiv(xx, 10), 10)), DigitChar(CMod(xx, 10))]
    else if xx >= 10 then
      [DigitChar(CMod(CDiv(xx, 10), 10)), DigitChar(CMod(xx, 10))]
    else
      [DigitChar(CMod(xx, 10))]
  }

  /** itostr4: four characters, right-aligned. */
  function Itostr4Text(xx: int16): (r: string)
    ensures |r| == 4
  {
    [ if xx >= 1000 then DigitChar(CMod(CDiv(xx, 1000), 10)) else ' ',
      if xx >= 100 then DigitChar(CMod(CDiv(xx, 100), 10)) else ' ',
      if xx >= 10 then DigitChar(CMod(CDiv(xx, 10), 10)) else ' ',
      DigitChar(CMod(xx, 10)) ]
  }

  // ---------------------------------------------------------------------------
  // What the texts mean

  lemma DecimalSmall(n: nat)
    ensures n < 10 ==> Decimal(n) == [DigitChar(n)]
    ensures 10 <= n < 100 ==> Decimal(n) == [DigitChar(n / 10), DigitChar(n % 10)]
    ensures 100 <= n < 1000 ==> Decimal(n) == [DigitChar(n / 100), DigitChar((n / 10) % 10), DigitChar(n % 10)]
    ensures 1000 <= n < 10000 ==>
      Decimal(n) == [DigitChar(n / 1000), DigitChar((n / 100) % 10), DigitChar((n / 10) % 10), DigitChar(n % 10)]
  {
    if n >= 10 {
      DecimalSmall(n / 10);
      DivTens(n);
    }
  }

  /** Dividing by ten and then by 10 or 100 is dividing by 100 or 1000. */
  lemma DivTens(n: nat)
    ensures (n / 10) / 10 == n / 100 && (n / 10) / 100 == n / 1000
  {
    var y, r0 := n / 10, n % 10;
    assert n == 10 * y + r0;
    assert y == (y / 10) * 10 + y % 10;
    DivUnique(n, 100, y / 10, 10 * (y % 10) + r0);
    assert y == (y / 100) * 100 + y % 100;
    DivUnique(n, 1000, y / 100, 10 * (y % 100) + r0);
  }

  /** A number below 1000, zero-filled to three digits, is its hundreds, tens and units. */
  lemma PadThree(y: nat)
    requires y < 1000
    ensures PadLeft(Decimal(y), 3, '0') == [DigitChar(y / 100), DigitChar((y / 10) % 10), DigitChar(y % 10)]
  {
    DecimalSmall(y);
    if y < 10 {
      assert PadLeft(Decimal(y), 3, '0') == ['0', '0'] + Decimal(y);
    } else if y < 100 {
      assert PadLeft(Decimal(y), 3, '0') == ['0'] + Decimal(y);
    }
  }

  /** The C digit expressions of a number below 10000 are its plain decimal digits, and each
      leading one is the whole quotient. */
  lemma SmallDigits(x: int)
    requires 0 <= x < 10000
    ensures CMod(CDiv(x, 1000), 10) == x / 1000
    ensures CMod(CDiv(x, 100), 10) == (x / 100) % 10 && (x < 1000 ==> (x / 100) % 10 == x / 100)
    ensures CMod(CDiv(x, 10), 10) == (x / 10) % 10 && (x < 100 ==> (x / 10) % 10 == x / 10)
    ensures CMod(x, 10) == x % 10
  {
    assert x / 1000 < 10;
    assert x < 1000 ==> x / 100 < 10;
    assert x < 100 ==> x / 10 < 10;
  }

  /** The digits of the value below 100 are the low digits of the value. */
  lemma HundredDigits(x: int)
    requires x >= 0
    ensures (x % 100) / 10 == (x / 10) % 10 && (x % 100) % 10 == x % 10
  {
    var q, r := x / 100, x % 100;
    DivUnique(x, 10, 10 * q + r / 10, r % 10);
    DivUnique(10 * q + r / 10, 10, q, r / 10);
  }

  /** The digits of the value below 1000 are the low digits of the value. */
  lemma ThousandDigits(x: int)
    requires x >= 0
    ensures (x % 1000) / 100 == (x / 100) % 10
    ensures ((x % 1000) / 10) % 10 == (x / 10) % 10
    ensures (x % 1000) % 10 == x % 10
  {
    var q, r := x / 1000, x % 1000;
    var h, rh := r / 100, r % 100;
    var t, rt := rh / 10, rh % 10;
    DivUnique(x, 100, 10 * q + h, rh);
    DivUnique(10 * q + h, 10, q, h);
    DivUnique(x, 10, 100 * q + 10 * h + t, rt);
    DivUnique(100 * q + 10 * h + t, 10, 10 * q + h, t);
    DivUnique(r, 10, 10 * h + t, rt);
    DivUnique(10 * h + t, 10, h, t);
  }

  /** The tens of x, taken modulo 1000, have the hundreds and thousands of x as digits. */
  lemma TenthsDigits(x: int)
    requires x >= 0
    ensures ((x / 10) % 1000) / 100 == (x / 1000) % 10
    ensures (((x / 10) % 1000) / 10) % 10 == (x / 100) % 10
    ensures ((x / 10) % 1000) % 10 == (x / 10) % 10
  {
    var y, r0 := x / 10, x % 10;
    assert x == 10 * y + r0;
    ThousandDigits(y);
    assert y == (y / 10) * 10 + y % 10;
    DivUnique(x, 100, y / 10, 10 * (y % 10) + r0);
    assert y == (y / 100) * 100 + y % 100;
    DivUnique(x, 1000, y / 100, 10 * (y % 100) + r0);
  }

  /** Two digits, zero-filled: the low two decimal digits of the byte. */
  lemma {:induction false} Itostr2Meaning(x: uint8)
    ensures Itostr2Text(x) == PadLeft(Decimal(x % 100), 2, '0')
  {
    HundredDigits(x);
    DecimalSmall(x % 100);
  }

  /** For 0..999 itostr3 is the number right-aligned in three columns. */
  lemma {:induction false} Itostr3InRange(x: int16)
    requires 0 <= x <= 999
    ensures Itostr3Text(x) == PadLeft(Decimal(x), 3, ' ')
  {
    DecimalSmall(x);
    SmallDigits(x);
  }

  /** From 1000 on, itostr3 shows only the low three digits, zero-filled. */
  lemma {:induction false} Itostr3Above(x: int16)
    requires x >= 1000
    ensures Itostr3Text(x) == PadLeft(Decimal(x % 1000), 3, '0')
  {
    ThousandDigits(x);
    PadThree(x % 1000);
  }

  /** For a negative number other than -32768, itostr3 is '-' followed by the low two digits
      of the magnitude: blank-filled below ten, zero-filled from ten on. */
  lemma {:induction false} Itostr3Negative(x: int16)
    requires -0x8000 < x < 0
    ensures Itostr3Text(x) == ['-'] + (if -x < 10 then PadLeft(Decimal(-x), 2, ' ')
                                       else PadLeft(Decimal((-x) % 100), 2, '0'))
  {
    HundredDigits(-x);
    DecimalSmall(-x);
    DecimalSmall((-x) % 100);
  }

  /** For 0..999 itostr3left is exactly the digits, without padding. */
  lemma {:induction false} Itostr3LeftInRange(x: int16)
    requires 0 <= x <= 999
    ensures Itostr3LeftText(x) == Decimal(x)
  {
    DecimalSmall(x);
    SmallDigits(x);
  }

  /** For 0..9999 itostr4 is the number right-aligned in four columns. */
  lemma {:induction false} Itostr4InRange(x: int16)
    requires 0 <= x <= 9999
    ensures Itostr4Text(x) == PadLeft(Decimal(x), 4, ' ')
  {
    DecimalSmall(x);
    SmallDigits(x);
  }

  /** For a non-negative number itostr31 reads it in tenths: '+', the tens of the value
      (mod 1000) zero-filled to three digits, the point, and the units. */
  lemma {:induction false} Itostr31NonNegative(x: int16)
    requires x >= 0
    ensures Itostr31Text(x) == ['+'] + PadLeft(Decimal((x / 10) % 1000), 3, '0') + ['.', DigitChar(x % 10)]
  {
    TenthsDigits(x);
    PadThree((x / 10) % 1000);
  }

  // ---------------------------------------------------------------------------
  // The shared conversion buffer

  /** `char conv[8]`: every helper writes its text and a terminating NUL at the front. */
  class ConvBuffer {
    const conv: array<char>

    ghost predicate Valid()
    {
      conv.Length == 8
    }

    constructor ()
      ensures Valid() && fresh(conv)
    {
      conv := new char[8](_ => '\0');
    }

    method Itostr2(x: uint8)
      requires Valid()
      modifies conv
      ensures conv[..3] == Itostr2Text(x) + ['\0'] && conv[3..] == old(conv[3..])
    {
      var xx: int := x;
      conv[0] := DigitChar(CMod(CDiv(xx, 10), 10));
      conv[1] := DigitChar(CMod(xx, 10));
      conv[2] := '\0';
    }

    method Itostr31(xx: int16)
      requires Valid()
      modifies conv
      ensures conv[..7] == Itostr31Text(xx) + ['\0'] && conv[7..] == old(conv[7..])
    {
      conv[0] := if xx >= 0 then '+' else '-';
      conv[1] := DigitChar(CMod(CDiv(xx, 1000), 10));
      conv[2] := DigitChar(CMod(CDiv(xx, 100), 10));
      conv[3] := DigitChar(CMod(CDiv(xx, 10), 10));
      conv[4] := '.';
      conv[5] := DigitChar(CMod(xx, 10));
      conv[6] := '\0';
    }

    method Itostr3(x: int16)
      requires Valid()
      modifies conv
      ensures conv[..4] == Itostr3Text(x) + ['\0'] && conv[4..] == old(conv[4..])
    {
      var xx := x;
      if xx < 0 {
        conv[0] := '-';
        xx := ToInt16(-(xx as int));
      } else if xx >= 100 {
        conv[0] := DigitChar(CMod(CDiv(xx, 100), 10));
      } else {
        conv[0] := ' ';
      }
      if xx >= 10 {
        conv[1] := DigitChar(CMod(CDiv(xx, 10), 10));
      } else {
        conv[1] := ' ';
      }
      conv[2] := DigitChar(CMod(xx, 10));
      conv[3] := '\0';
    }

    method Itostr3Left(xx: int16)
      requires Valid()
      modifies conv
      ensures var t := Itostr3LeftText(xx);
              conv[..|t| + 1] == t + ['\0'] && conv[|t| + 1..] == old(conv[|t| + 1..])
    {
      if xx >= 100 {
        conv[0] := DigitChar(CMod(CDiv(xx, 100), 10));
        conv[1] := DigitChar(CMod(CDiv(xx, 10), 10));
        conv[2] := DigitChar(CMod(xx, 10));
        conv[3] := '\0';
      } else if xx >= 10 {
        conv[0] := DigitChar(CMod(CDiv(xx, 10), 10));
        conv[1] := DigitChar(CMod(xx, 10));
        conv[2] := '\0';
      } else {
        conv[0] := DigitChar(CMod(xx, 10));
        conv[1] := '\0';
      }
    }

    method Itostr4(xx: int16)
      requires Valid()
      modifies conv
      ensures conv[..5] == Itostr4Text(xx) + ['\0'] && conv[5..] == old(conv[5..])
    {
      if xx >= 1000 {
        conv[0] := DigitChar(CMod(CDiv(xx, 1000), 10));
      } else {
        conv[0] := ' ';
      }
      if xx >= 100 {
        conv[1] := DigitChar(CMod(CDiv(xx, 100), 10));
      } else {
        conv[1] := ' ';
      }
      if xx >= 10 {
        conv[2] := DigitChar(CMod(CDiv(xx, 10), 10));
      } else {
        conv[2] := ' ';
      }
      conv[3] := DigitChar(CMod(xx, 10));
      conv[4] := '\0';
    }
  }
}
