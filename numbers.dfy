/**
 * A decimal reading of JavaScript's `Number(string)`, as the add form uses it:
 * surrounding white space is ignored, an all-blank string reads as 0, and
 * otherwise an optional sign is followed by digits with an optional
 * fractional part (`12`, `12.`, `12.5`, `.5`). Anything else reads as NaN,
 * represented by `None`.
 */
module Numbers {
  import opened Wrappers
  import opened Strings

  predicate IsDigit(c: char)
  {
    '0' <= c <= '9'
  }

  predicate AllDigits(s: string)
  {
    forall i :: 0 <= i < |s| ==> IsDigit(s[i])
  }

  function DigitValue(c: char): nat
    requires IsDigit(c)
  {
    c as int - '0' as int
  }

  function DigitChar(d: nat): (c: char)
    requires d < 10
    ensures IsDigit(c) && DigitValue(c) == d
  {
    ('0' as int + d) as char
  }

  /** The value of a string of decimal digits, most significant first. */
  function DigitsValue(s: string): nat
    requires AllDigits(s)
  {
    if s == [] then 0 else DigitsValue(s[..|s| - 1]) * 10 + DigitValue(s[|s| - 1])
  }

  /** The length of the longest all-digit prefix. */
  function LeadingDigits(s: string): (k: nat)
    ensures k <= |s| && AllDigits(s[..k])
    ensures k == |s| || !IsDigit(s[k])
  {
    if s != [] && IsDigit(s[0]) then
      var k := 1 + LeadingDigits(s[1..]);
      assert s[..k] == [s[0]] + s[1..][..k - 1];
      k
    else 0
  }

  function Pow10(n: nat): (r: nat)
    ensures r >= 1
  {
    if n == 0 then 1 else 10 * Pow10(n - 1)
  }

  /** The value of a literal with whole digits `whole` and fraction digits `frac`. */
  function DecimalValue(whole: string, frac: string): (r: real)
    requires AllDigits(whole) && AllDigits(frac)
    ensures DigitsValue(whole) as real <= r < DigitsValue(whole) as real + 1.0
    ensures r == DigitsValue(whole) as real <==> DigitsValue(frac) == 0
  {
    DigitsValueBound(frac);
    var q := DigitsValue(frac) as real / Pow10(|frac|) as real;
    ProperFraction(DigitsValue(frac) as real, Pow10(|frac|) as real);
    DigitsValue(whole) as real + q
  }

  lemma NonNegativeProduct(a: real, b: real)
    requires a >= 0.0 && b > 0.0
    ensures a * b >= 0.0
  {
  }

  /** A quotient `v / p` with `0 <= v < p` lies in [0, 1) and is 0 only when `v` is. */
  lemma ProperFraction(v: real, p: real)
    requires 0.0 <= v < p
    ensures 0.0 <= v / p < 1.0
    ensures v / p == 0.0 <==> v == 0.0
  {
    var q := v / p;
    assert q * p == v;
    if q >= 1.0 {
      assert (q - 1.0) * p == q * p - p;
      NonNegativeProduct(q - 1.0, p);
    }
  }

  /** An unsigned decimal literal: digits with an optional fraction, or a fraction alone. */
  function ParseUnsigned(t: string): (r: Option<real>)
    ensures r.Some? ==> r.value >= 0.0
    ensures t != [] && AllDigits(t) ==> r == Some(DigitsValue(t) as real)
  {
    var k := LeadingDigits(t);
    var whole := DigitsValue(t[..k]) as real;
    if k == |t| then
      assert t[..k] == t;
      if k > 0 then Some(whole) else None
    else if t[k] == '.' && AllDigits(t[k + 1..]) && (k > 0 || k + 1 < |t|) then
      Some(DecimalValue(t[..k], t[k + 1..]))
    else
      None
  }

  /** `Number(s)`; `None` stands for NaN. */
  function ParseNumber(s: string): (r: Option<real>)
    ensures Trim(s) == "" ==> r == Some(0.0)
    ensures Trim(s) != "" && Trim(s)[0] != '-' && r.Some? ==> r.value >= 0.0
  {
    var t := Trim(s);
    if t == "" then Some(0.0)
    else if t[0] == '-' then
      match ParseUnsigned(t[1..])
      case Some(v) => Some(-v)
      case None => None
    else if t[0] == '+' then ParseUnsigned(t[1..])
    else ParseUnsigned(t)
  }

  /** `Number.isInteger` on a parsed value. */
  predicate IsInteger(x: real)
  {
    x.Floor as real == x
  }

  /** The decimal representation of a natural number, without sign or leading zeros. */
  function DecimalString(n: nat): (r: string)
    ensures r != [] && AllDigits(r)
    ensures DigitsValue(r) == n
  {
    if n < 10 then [DigitChar(n)]
    else
      var r := DecimalString(n / 10) + [DigitChar(n % 10)];
      assert r[..|r| - 1] == DecimalString(n / 10);
      r
  }

  /** `Number` reads back the decimal representation of every natural number. */
  lemma {:induction false} ParseDecimalString(n: nat)
    ensures ParseNumber(DecimalString(n)) == Some(n as real)
  {
    var d := DecimalString(n);
    NoWhitespaceTrim(d);
  }

  /** ... and its negation, written with a leading minus sign. */
  lemma {:induction false} ParseNegativeDecimalString(n: nat)
    ensures ParseNumber("-" + DecimalString(n)) == Some(-(n as real))
  {
    var d := DecimalString(n);
    var s := "-" + d;
    NoWhitespaceTrim(s);
    assert s[1..] == d;
  }

  /** Trailing white space, a Unicode space separator included, is ignored: the padded text reads as the number. */
  lemma ParsePaddedDecimalString(n: nat, c: char)
    requires IsWhitespace(c)
    ensures ParseNumber(DecimalString(n) + [c]) == Some(n as real)
  {
    var d := DecimalString(n);
    TrimTrailingWhitespace(d, c);
  }

  /** The leading-digit scan runs through a digit prefix and on into what follows. */
  lemma {:induction false} LeadingDigitsAppend(d: string, s: string)
    requires AllDigits(d)
    ensures LeadingDigits(d + s) == |d| + LeadingDigits(s)
    decreases |d|
  {
    if d == [] {
      assert d + s == s;
    } else {
      assert (d + s)[1..] == d[1..] + s;
      LeadingDigitsAppend(d[1..], s);
    }
  }

  /** A string of k digits is worth less than 10^k. */
  lemma {:induction false} DigitsValueBound(s: string)
    requires AllDigits(s)
    ensures DigitsValue(s) < Pow10(|s|)
    decreases |s|
  {
    if s != [] {
      DigitsValueBound(s[..|s| - 1]);
    }
  }

  /** Where the leading digits stop at a point followed by digits only, the literal has a fractional part. */
  lemma ParseUnsignedAtPoint(t: string, k: nat)
    requires k == LeadingDigits(t) && 0 < k < |t| && t[k] == '.' && AllDigits(t[k + 1..])
    ensures ParseUnsigned(t) == Some(DecimalValue(t[..k], t[k + 1..]))
  {
  }

  /** Digits, a point and more digits read as the whole part plus the fraction digits over 10^k. */
  lemma ParseUnsignedDecimalFraction(d: string, f: string)
    requires d != [] && AllDigits(d) && AllDigits(f)
    ensures ParseUnsigned(d + "." + f) == Some(DecimalValue(d, f))
  {
    var t := d + "." + f;
    assert t == d + ("." + f);
    LeadingDigitsAppend(d, "." + f);
    assert LeadingDigits("." + f) == 0;
    var k := LeadingDigits(t);
    assert t[..k] == d;
    assert t[k + 1..] == f;
    ParseUnsignedAtPoint(t, k);
  }

  /** A literal with a fractional part, such as "12.99", reads as the whole part plus the fraction digits over 10^k. */
  lemma ParseDecimalFraction(n: nat, f: string)
    requires f != [] && AllDigits(f)
    ensures ParseNumber(DecimalString(n) + "." + f) == Some(DecimalValue(DecimalString(n), f))
  {
    var d := DecimalString(n);
    var t := d + "." + f;
    assert IsDigit(t[0]) && IsDigit(t[|t| - 1]);
    NoWhitespaceTrim(t);
    ParseUnsignedDecimalFraction(d, f);
  }

  /** Decimal representations, signed or not, are never blank. */
  lemma DecimalStringNotBlank(n: nat)
    ensures !AllWhitespace(DecimalString(n))
    ensures !AllWhitespace("-" + DecimalString(n))
  {
    var d := DecimalString(n);
    assert !IsWhitespace(d[0]);
    assert !IsWhitespace(("-" + d)[0]);
  }

  lemma ParseUnsignedFraction()
    ensures ParseUnsigned("3.5") == Some(3.5)
  {
    var s := "3.5";
    assert s[0] == '3' && s[1] == '.' && s[2] == '5';
    assert LeadingDigits(s[2..]) == 1;
    assert LeadingDigits(s[1..]) == 0;
    assert LeadingDigits(s) == 1;
    var whole, frac := s[..1], s[2..];
    assert DigitsValue(whole) == 3 by {
      assert whole[..0] == [];
    }
    assert DigitsValue(frac) == 5 by {
      assert frac[..0] == [];
    }
    assert Pow10(1) == 10;
  }

  lemma TrimFraction()
    ensures Trim("3.5") == "3.5"
  {
    var s := "3.5";
    assert !IsWhitespace(s[0]) && !IsWhitespace(s[2]);
    NoWhitespaceTrim(s);
  }

  /** A literal with a fractional part: "3.5" reads as 3.5, which is not an integer. */
  lemma ParseFractionExample()
    ensures ParseNumber("3.5") == Some(3.5)
    ensures !IsInteger(3.5)
  {
    TrimFraction();
    ParseUnsignedFraction();
    assert 3.5.Floor == 3;
  }
}
