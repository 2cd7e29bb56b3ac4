/** Decimal rendering of integers, as JavaScript's template interpolation and
    `Date.prototype.toISOString` produce it, and the matching parser. */
module Decimal {

  predicate IsDigit(c: char) {
    '0' <= c <= '9'
  }

  predicate AllDigits(s: string) {
    forall i :: 0 <= i < |s| ==> IsDigit(s[i])
  }

  function DigitChar(d: nat): (c: char)
    requires d < 10
    ensures IsDigit(c) && DigitValue(c) == d
  {
    ('0' as int + d) as char
  }

  function DigitValue(c: char): (d: nat)
    requires IsDigit(c)
    ensures d < 10
  {
    c as int - '0' as int
  }

  /** Shortest decimal rendering of `n` (no leading zeros), e.g. `String(514)`. */
  function NatToString(n: nat): (s: string)
    ensures |s| > 0 && AllDigits(s)
    ensures s[0] == '0' ==> n == 0
    decreases n
  {
    if n < 10 then [DigitChar(n)] else NatToString(n / 10) + [DigitChar(n % 10)]
  }

  /** Signed decimal rendering, as `${n}` renders an integral number. */
  function IntToString(n: int): (s: string)
    ensures |s| > 0
    ensures n < 0 <==> s[0] == '-'
  {
    if n < 0 then "-" + NatToString(-n) else NatToString(n)
  }

  /** Value of a string of decimal digits (the empty string reads as 0). */
  function ParseNat(s: string): nat
    requires AllDigits(s)
  {
    if s == [] then 0 else ParseNat(s[..|s| - 1]) * 10 + DigitValue(s[|s| - 1])
  }

  function Pow10(w: nat): (p: nat)
    ensures p >= 1
  {
    if w == 0 then 1 else 10 * Pow10(w - 1)
  }

  /** The lowest `w` decimal digits of `n`, zero-padded on the left. */
  function PadDigits(n: nat, w: nat): (s: string)
    ensures |s| == w && AllDigits(s)
  {
    if w == 0 then "" else PadDigits(n / 10, w - 1) + [DigitChar(n % 10)]
  }

  lemma {:induction false} ParseNatToString(n: nat)
    ensures ParseNat(NatToString(n)) == n
    decreases n
  {
    if n >= 10 {
      var s := NatToString(n);
      ParseNatToString(n / 10);
      assert s[..|s| - 1] == NatToString(n / 10);
    }
  }

  lemma {:induction false} ParsePadDigits(n: nat, w: nat)
    ensures ParseNat(PadDigits(n, w)) == n % Pow10(w)
  {
    if w > 0 {
      var s := PadDigits(n, w);
      ParsePadDigits(n / 10, w - 1);
      assert s[..|s| - 1] == PadDigits(n / 10, w - 1);
      DivModPow10(n, w);
    }
  }

  lemma DivModPow10(n: nat, w: nat)
    requires w > 0
    ensures n % Pow10(w) == (n / 10) % Pow10(w - 1) * 10 + n % 10
  {
    var p := Pow10(w - 1);
    var q := (n / 10) / p;
    var r := (n / 10) % p;
    assert n / 10 == q * p + r;
    assert n == (q * p + r) * 10 + n % 10;
    assert n == q * (10 * p) + (r * 10 + n % 10);
    assert 0 <= r * 10 + n % 10 < 10 * p;
    ModUnique(n, 10 * p, q, r * 10 + n % 10);
  }

  lemma ModUnique(n: int, d: int, q: int, r: int)
    requires d > 0 && 0 <= r < d && n == q * d + r
    ensures n % d == r
  {
    var q', r' := n / d, n % d;
    assert n == q' * d + r';
    assert (q' - q) * d == r - r';
    MulSign(q' - q, d);
  }

  lemma MulSign(k: int, d: int)
    requires d > 0
    ensures k >= 1 ==> k * d >= d
    ensures k <= -1 ==> k * d <= -d
  {
  }

  /** Zero padding is lossless once the field is wide enough. */
  lemma ParsePadDigitsExact(n: nat, w: nat)
    requires n < Pow10(w)
    ensures ParseNat(PadDigits(n, w)) == n
  {
    ParsePadDigits(n, w);
  }
}
