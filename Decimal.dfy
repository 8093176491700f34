/**
 * Decimal text for natural numbers: Python's `str(n)` for a non-negative
 * integer, the zero-padded fields `strftime` writes, and a strict reader
 * that turns such text back into a number.
 */
module Decimal {
  import opened Wrappers

  predicate IsDigit(c: char) {
    '0' <= c <= '9'
  }

  predicate AllDigits(s: string) {
    forall i :: 0 <= i < |s| ==> IsDigit(s[i])
  }

  function Pow10(k: nat): (p: nat)
    ensures p >= 1
  {
    if k == 0 then 1 else 10 * Pow10(k - 1)
  }

  function DigitChar(d: nat): (c: char)
    requires d < 10
    ensures IsDigit(c) && c as int - '0' as int == d
  {
    ('0' as int + d) as char
  }

  function DigitValue(c: char): (d: nat)
    requires IsDigit(c)
    ensures d < 10 && DigitChar(d) == c
  {
    c as int - '0' as int
  }

  /** Python's `str(n)` for `n >= 0`: shortest decimal text, no leading zero. */
  function NatToString(n: nat): (s: string)
    ensures |s| >= 1 && AllDigits(s)
    ensures s[0] == '0' ==> n == 0 && s == "0"
  {
    if n < 10 then [DigitChar(n)] else NatToString(n / 10) + [DigitChar(n % 10)]
  }

  /** The value of a string of decimal digits, most significant first. */
  function ParseDigits(s: string): nat
    requires AllDigits(s)
  {
    if s == [] then 0 else 10 * ParseDigits(s[..|s| - 1]) + DigitValue(s[|s| - 1])
  }

  /** A reader for the count file: non-empty decimal digits, anything else absent. */
  function ParseNat(s: string): (r: Option<nat>)
    ensures r.Some? <==> s != [] && AllDigits(s)
  {
    if s != [] && AllDigits(s) then Some(ParseDigits(s)) else None
  }

  /** Text with no superfluous leading zero, as `str` produces it. */
  predicate Canonical(s: string) {
    s != [] && AllDigits(s) && (s[0] == '0' ==> |s| == 1)
  }

  /** The last `width` decimal digits of `n`, zero-padded on the left (`%0<width>d`). */
  function PadDigits(n: nat, width: nat): (s: string)
    ensures |s| == width && AllDigits(s)
  {
    if width == 0 then [] else PadDigits(n / 10, width - 1) + [DigitChar(n % 10)]
  }

  lemma {:induction false} ParseDigitsSnoc(s: string, c: char)
    requires AllDigits(s) && IsDigit(c)
    ensures AllDigits(s + [c])
    ensures ParseDigits(s + [c]) == 10 * ParseDigits(s) + DigitValue(c)
  {
    assert (s + [c])[..|s + [c]| - 1] == s;
  }

  /** Reading back what `str(n)` wrote yields `n`. */
  lemma {:induction false} NatToStringRoundTrip(n: nat)
    ensures ParseNat(NatToString(n)) == Some(n)
    ensures ParseDigits(NatToString(n)) == n
  {
    if n >= 10 {
      var init, d := NatToString(n / 10), n % 10;
      NatToStringRoundTrip(n / 10);
      ParseDigitsSnoc(init, DigitChar(d));
      assert NatToString(n) == init + [DigitChar(d)];
      assert ParseDigits(NatToString(n)) == 10 * (n / 10) + d;
    }
  }

  lemma {:induction false} ParseDigitsPositive(s: string)
    requires AllDigits(s) && s != [] && s[0] != '0'
    ensures ParseDigits(s) > 0
  {
    if |s| > 1 {
      ParseDigitsPositive(s[..|s| - 1]);
    } else {
      assert DigitChar(DigitValue(s[0])) == s[0];
    }
  }

  /** Conversely, canonical digit text is exactly what `str` writes for its value. */
  lemma {:induction false} CanonicalRoundTrip(s: string)
    requires Canonical(s)
    ensures NatToString(ParseDigits(s)) == s
  {
    var init, c := s[..|s| - 1], s[|s| - 1];
    var d := DigitValue(c);
    assert s == init + [c];
    ParseDigitsSnoc(init, c);
    if init == [] {
      assert ParseDigits(s) == d;
    } else {
      CanonicalInit(s);
      ParseDigitsPositive(init);
      CanonicalRoundTrip(init);
      NatToStringSnoc(ParseDigits(init), d);
    }
  }

  /** Dropping the last digit of canonical text of two or more digits leaves canonical text with no leading zero. */
  lemma CanonicalInit(s: string)
    requires Canonical(s) && |s| >= 2
    ensures Canonical(s[..|s| - 1]) && s[..|s| - 1][0] != '0'
  {
    assert s[..|s| - 1][0] == s[0];
  }

  /** `str(10 * q + d)` for `q > 0` is `str(q)` followed by the digit `d`. */
  lemma NatToStringSnoc(q: nat, d: nat)
    requires q > 0 && d < 10
    ensures NatToString(10 * q + d) == NatToString(q) + [DigitChar(d)]
  {
    DivModTen(q, d);
  }

  /** The last decimal digit and the rest of a number. */
  lemma DivModTen(q: nat, d: nat)
    requires d < 10
    ensures (10 * q + d) / 10 == q && (10 * q + d) % 10 == d
  {
  }

  /** Zero padding to `width` digits reads back as the number when it fits. */
  lemma {:induction false} PadDigitsRoundTrip(n: nat, width: nat)
    requires n < Pow10(width)
    ensures ParseDigits(PadDigits(n, width)) == n
  {
    if width > 0 {
      PadDigitsRoundTrip(n / 10, width - 1);
      ParseDigitsSnoc(PadDigits(n / 10, width - 1), DigitChar(n % 10));
    }
  }
}
