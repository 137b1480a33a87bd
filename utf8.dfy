/** Display width of a NUL-terminated byte string: `lcd_strlen` counts the bytes that
    begin a UTF-8 character and skips continuation bytes (those of the form 10xxxxxx). */
module Utf8Text {

  /** A continuation byte, as the source tests it: `(b & 0xc0) == 0x80`. */
  predicate IsContinuation(b: bv8)
  {
    b & 0xC0 == 0x80
  }

  /** The bit test picks out exactly the bytes 0x80..0xBF. */
  lemma ContinuationRange(b: bv8)
    ensures IsContinuation(b) <==> 0x80 <= b as int < 0xC0
  {
  }

  /** Reference: how many bytes of s begin a character. */
  function CodePoints(s: seq<bv8>): (n: nat)
    ensures n <= |s|
    decreases |s|
  {
    if s == [] then 0
    else CodePoints(s[..|s| - 1]) + (if IsContinuation(s[|s| - 1]) then 0 else 1)
  }

  /** The bytes before the first NUL. */
  function UpToNul(s: seq<bv8>): (t: seq<bv8>)
    requires 0 in s
    ensures |t| < |s| && t == s[..|t|] && s[|t|] == 0
    ensures forall i :: 0 <= i < |t| ==> t[i] != 0
  {
    if s[0] == 0 then [] else [s[0]] + UpToNul(s[1..])
  }

  /** lcd_strlen: walks the string up to its NUL and counts the bytes that start a character. */
  method LcdStrlen(s: seq<bv8>) returns (j: int)
    requires 0 in s
    ensures j == CodePoints(UpToNul(s))
  {
    ghost var t := UpToNul(s);
    var i := 0;
    j := 0;
    while s[i] != 0
      invariant 0 <= i <= |t|
      invariant s[..i] == t[..i]
      invariant j == CodePoints(s[..i])
      decreases |t| - i
    {
      if i == |t| {
        assert false;
      }
      assert s[..i + 1][..i] == s[..i];
      if s[i] & 0xC0 != 0x80 {
        j := j + 1;
      }
      i := i + 1;
    }
  }

  /** Counting is additive over concatenation. */
  lemma {:induction false} CodePointsAppend(a: seq<bv8>, b: seq<bv8>)
    ensures CodePoints(a + b) == CodePoints(a) + CodePoints(b)
    decreases |b|
  {
    if b != [] {
      var b' := b[..|b| - 1];
      assert (a + b)[..|a + b| - 1] == a + b';
      CodePointsAppend(a, b');
    } else {
      assert a + b == a;
    }
  }

  /** Plain ASCII text is as wide as it is long. */
  lemma {:induction false} AsciiWidth(s: seq<bv8>)
    requires forall i :: 0 <= i < |s| ==> s[i] < 0x80
    ensures CodePoints(s) == |s|
    decreases |s|
  {
    if s != [] {
      ContinuationRange(s[|s| - 1]);
      AsciiWidth(s[..|s| - 1]);
    }
  }

  /** Reference: the UTF-8 encoding of one code point (surrogates are not excluded; they do
      not matter for counting). The masks are no-ops within each branch's range. */
  function Encode(cp: int): (e: seq<bv8>)
    requires 0 <= cp < 0x11_0000
    ensures 1 <= |e| <= 4
    ensures !IsContinuation(e[0])
    ensures forall i :: 1 <= i < |e| ==> IsContinuation(e[i])
  {
    var c := cp as bv32;
    if c < 0x80 then [(c & 0x7F) as bv8]
    else if c < 0x800 then [(0xC0 | ((c >> 6) & 0x1F)) as bv8, Tail(c, 0)]
    else if c < 0x1_0000 then [(0xE0 | ((c >> 12) & 0x0F)) as bv8, Tail(c, 6), Tail(c, 0)]
    else [(0xF0 | ((c >> 18) & 0x07)) as bv8, Tail(c, 12), Tail(c, 6), Tail(c, 0)]
  }

  /** The continuation byte carrying the six bits of c from bit `shift` up. */
  function Tail(c: bv32, shift: bv32): (b: bv8)
    requires shift <= 12
    ensures IsContinuation(b)
  {
    (0x80 | ((c >> shift) & 0x3F)) as bv8
  }

  /** Every encoded character counts as exactly one. */
  lemma OneCharacterOneColumn(cp: int)
    requires 0 <= cp < 0x11_0000
    ensures CodePoints(Encode(cp)) == 1
  {
    var e := Encode(cp);
    assert e == [e[0]] + e[1..];
    LeadAndContinuations(e[0], e[1..]);
  }

  /** A byte that starts a character followed by continuation bytes is one character. */
  lemma LeadAndContinuations(lead: bv8, tail: seq<bv8>)
    requires !IsContinuation(lead)
    requires forall i :: 0 <= i < |tail| ==> IsContinuation(tail[i])
    ensures CodePoints([lead] + tail) == 1
  {
    assert [lead][..0] == [];
    TailIsContinuations([lead], tail);
  }

  lemma {:induction false} TailIsContinuations(a: seq<bv8>, c: seq<bv8>)
    requires forall i :: 0 <= i < |c| ==> IsContinuation(c[i])
    ensures CodePoints(a + c) == CodePoints(a)
    decreases |c|
  {
    if c != [] {
      assert (a + c)[..|a + c| - 1] == a + c[..|c| - 1];
      TailIsContinuations(a, c[..|c| - 1]);
    } else {
      assert a + c == a;
    }
  }

  /** Reference: the UTF-8 encoding of a text. */
  function EncodeAll(cps: seq<int>): (e: seq<bv8>)
    requires forall i :: 0 <= i < |cps| ==> 0 <= cps[i] < 0x11_0000
    decreases |cps|
  {
    if cps == [] then [] else Encode(cps[0]) + EncodeAll(cps[1..])
  }

  /** The width of an encoded text is its number of characters, whatever their byte lengths. */
  lemma {:induction false} WidthOfEncodedText(cps: seq<int>)
    requires forall i :: 0 <= i < |cps| ==> 0 <= cps[i] < 0x11_0000
    ensures CodePoints(EncodeAll(cps)) == |cps|
    decreases |cps|
  {
    if cps != [] {
      CodePointsAppend(Encode(cps[0]), EncodeAll(cps[1..]));
      OneCharacterOneColumn(cps[0]);
      WidthOfEncodedText(cps[1..]);
    }
  }
}
