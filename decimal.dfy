/** Decimal digit strings: the text of a non-negative integer, the value of a
    digit string, and the zero-filled fixed-width fields that dates and
    ISO 6709 coordinates are written with. */
module Decimal {

  predicate IsDigit(c: char) {
    '0' <= c <= '9'
  }

  predicate AllDigits(s: string) {
    forall i :: 0 <= i < |s| ==> IsDigit(s[i])
  }

  /** 10 to the power k. */
  function Pow10(k: nat): (p: nat)
    ensures p >= 1
  {
    if k == 0 then 1 else 10 * Pow10(k - 1)
  }

  function DigitChar(d: nat): (c: char)
    requires d < 10
    ensures IsDigit(c)
  {
    ('0' as int + d) as char
  }

  function DigitValue(c: char): (d: nat)
    requires IsDigit(c)
    ensures d < 10 && DigitChar(d) == c
  {
    c as int - '0' as int
  }

  /** The number a string of digits denotes, most significant digit first. */
  function Value(s: string): (v: nat)
    requires AllDigits(s)
    ensures v < Pow10(|s|)
  {
    if s == [] then 0
    else
      var init := s[..|s| - 1];
      assert Value(init) <= Pow10(|init|) - 1;
      Value(init) * 10 + DigitValue(s[|s| - 1])
  }

  /** The value of a concatenation: the digits of `a` shifted left by |b| places. */
  lemma {:induction false} ValueAppend(a: string, b: string)
    requires AllDigits(a) && AllDigits(b)
    ensures AllDigits(a + b)
    ensures Value(a + b) == Value(a) * Pow10(|b|) + Value(b)
  {
    if b == [] {
      assert a + b == a;
    } else {
      var b' := b[..|b| - 1];
      var d := DigitValue(b[|b| - 1]);
      assert (a + b)[..|a + b| - 1] == a + b';
      assert (a + b)[|a + b| - 1] == b[|b| - 1];
      ValueAppend(a, b');
      var va, vb, p := Value(a), Value(b'), Pow10(|b'|);
      assert Value(a + b) == Value(a + b') * 10 + d;
      assert Value(b) == vb * 10 + d;
      assert Pow10(|b|) == p * 10;
      ShiftLeft(va, p, vb, d);
    }
  }

  /** Appending a digit d to a number whose low part vb sits below a high
      part va scaled by p. */
  lemma ShiftLeft(va: int, p: int, vb: int, d: int)
    ensures (va * p + vb) * 10 + d == va * (p * 10) + (vb * 10 + d)
  {
  }

  /** The shortest decimal text of n, as JavaScript's String(n) writes a
      non-negative integer: no leading zero except in "0" itself. */
  function Digits(n: nat): (s: string)
    ensures 1 <= |s| && AllDigits(s) && Value(s) == n
    ensures |s| > 1 ==> s[0] != '0'
    decreases n
  {
    if n < 10 then [DigitChar(n)]
    else
      var high := Digits(n / 10);
      var s := high + [DigitChar(n % 10)];
      assert s[..|s| - 1] == high;
      s
  }

  /** A number below 10^w has at most w digits. */
  lemma {:induction false} DigitsFit(n: nat, w: nat)
    requires 1 <= w && n < Pow10(w)
    ensures |Digits(n)| <= w
    decreases n
  {
    if n >= 10 {
      if w == 1 { assert false; }
      assert n / 10 < Pow10(w - 1);
      DigitsFit(n / 10, w - 1);
    }
  }

  /** k zero digits. */
  function Zeros(k: nat): (z: string)
    ensures |z| == k && AllDigits(z) && Value(z) == 0
  {
    if k == 0 then ""
    else
      var z := Zeros(k - 1) + "0";
      assert z[..|z| - 1] == Zeros(k - 1);
      z
  }

  /** The digits of n, preceded by as many zeros as n has digits fewer than `width`. */
  function Pad(n: nat, width: nat): (s: string)
    ensures AllDigits(s) && Value(s) == n
    ensures n < Pow10(width) && width >= 1 ==> |s| == width
  {
    var digits := Digits(n);
    var padding := Zeros(if width > |digits| then width - |digits| else 0);
    ValueAppend(padding, digits);
    assert n < Pow10(width) && width >= 1 ==> |digits| <= width by {
      if n < Pow10(width) && width >= 1 { DigitsFit(n, width); }
    }
    padding + digits
  }

  /** Zero fill to `width` digits, as the date library pads a number: a `-`
      for a negative n, then the digits of |n| padded with zeros to `width`. */
  function ZeroFill(n: int, width: nat): (s: string)
    ensures n >= 0 ==> AllDigits(s) && Value(s) == n
    ensures 0 <= n < Pow10(width) && width >= 1 ==> |s| == width
    ensures n < 0 ==> |s| >= 2 && s[0] == '-' && AllDigits(s[1..]) && Value(s[1..]) == -n
  {
    if n < 0 then
      var s := "-" + Pad(-n, width);
      assert s[1..] == Pad(-n, width);
      s
    else Pad(n, width)
  }
}
