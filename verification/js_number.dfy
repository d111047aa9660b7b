/** The JavaScript number primitives the calculation relies on: parseFloat,
    Number.prototype.toFixed(2), and the decimal rendering of a non-negative
    integer in a template literal. Numbers are exact reals here; IEEE-754
    rounding of doubles is not modelled. */
module JsNumber {
  import opened Wrappers
  import opened JsString

  predicate IsDigit(c: char) {
    '0' <= c <= '9'
  }

  predicate AllDigits(s: string) {
    forall i | 0 <= i < |s| :: IsDigit(s[i])
  }

  function DigitValue(c: char): nat
    requires IsDigit(c)
  {
    c as int - '0' as int
  }

  function DigitChar(d: nat): (c: char)
    requires d < 10
    ensures IsDigit(c) && DigitValue(c) == d
  {
    ('0' as int + d) as char
  }

  function Pow10(n: nat): (p: nat)
    ensures p >= 1
  {
    if n == 0 then 1 else 10 * Pow10(n - 1)
  }

  /** The value of a string of decimal digits, most significant first. */
  function DigitsValue(s: string): nat
    requires AllDigits(s)
  {
    if s == [] then 0 else DigitsValue(s[..|s| - 1]) * 10 + DigitValue(s[|s| - 1])
  }

  /** Decimal rendering of a non-negative integer, as `${n}` produces it:
      digits only, no leading zero, and reading it back gives `n`. */
  function NatToString(n: nat): (r: string)
    ensures |r| > 0 && AllDigits(r)
    ensures DigitsValue(r) == n
    ensures r[0] == '0' ==> n == 0
  {
    if n < 10 then [DigitChar(n)]
    else
      var r := NatToString(n / 10) + [DigitChar(n % 10)];
      assert r[..|r| - 1] == NatToString(n / 10);
      r
  }

  /** Distinct integers render as distinct strings. */
  lemma NatToStringInjective(m: nat, n: nat)
    ensures NatToString(m) == NatToString(n) <==> m == n
  {
  }

  function Zeros(k: nat): (z: string)
    ensures |z| == k && AllDigits(z)
  {
    if k == 0 then [] else Zeros(k - 1) + ['0']
  }

  /** Reading digits is positional: the digits of `b` are worth 10^0 … and
      those of `a` are shifted by |b| places. */
  lemma {:induction false} DigitsValueAppend(a: string, b: string)
    requires AllDigits(a) && AllDigits(b)
    ensures AllDigits(a + b)
    ensures DigitsValue(a + b) == DigitsValue(a) * Pow10(|b|) + DigitsValue(b)
  {
    assert AllDigits(a + b);
    if b == [] {
      assert a + b == a;
    } else {
      var b' := b[..|b| - 1];
      assert (a + b)[..|a + b| - 1] == a + b';
      DigitsValueAppend(a, b');
      var x, p, y, d := DigitsValue(a), Pow10(|b'|), DigitsValue(b'), DigitValue(b[|b| - 1]);
      assert DigitsValue(a + b) == DigitsValue(a + b') * 10 + d;
      assert DigitsValue(b) == y * 10 + d by {
        assert b[..|b| - 1] == b';
      }
      assert Pow10(|b|) == p * 10;
      MulDistributes(x, p, y);
    }
  }

  lemma MulDistributes(x: nat, p: nat, y: nat)
    ensures (x * p + y) * 10 == x * (p * 10) + y * 10
  {
  }

  /** Leading zeros do not change the value of a digit string. */
  lemma {:induction false} DigitsValueZeros(k: nat, m: string)
    requires AllDigits(m)
    ensures AllDigits(Zeros(k) + m)
    ensures DigitsValue(Zeros(k) + m) == DigitsValue(m)
  {
    ZerosValue(k);
    DigitsValueAppend(Zeros(k), m);
    assert DigitsValue(Zeros(k)) * Pow10(|m|) == 0;
  }

  lemma {:induction false} ZerosValue(k: nat)
    ensures DigitsValue(Zeros(k)) == 0
  {
    if k > 0 {
      assert Zeros(k)[..k - 1] == Zeros(k - 1);
      ZerosValue(k - 1);
    }
  }

  /** Length of the longest all-digit prefix of `s`. */
  function LeadingDigits(s: string): (n: nat)
    ensures n <= |s| && AllDigits(s[..n])
    ensures n < |s| ==> !IsDigit(s[n])
  {
    if |s| > 0 && IsDigit(s[0]) then
      var k := LeadingDigits(s[1..]);
      assert s[..k + 1] == [s[0]] + s[1..][..k];
      k + 1
    else 0
  }

  /** A digit string followed by something that is not a digit: the leading
      digit run is exactly the first part. */
  lemma {:induction false} LeadingDigitsOf(a: string, rest: string)
    requires AllDigits(a)
    requires |rest| == 0 || !IsDigit(rest[0])
    ensures LeadingDigits(a + rest) == |a|
  {
    if |a| > 0 {
      assert (a + rest)[1..] == a[1..] + rest;
      LeadingDigitsOf(a[1..], rest);
    }
  }

  /** StrUnsignedDecimalLiteral can start here: a digit, or a point followed by a digit. */
  predicate StartsNumeric(s: string) {
    || (|s| > 0 && IsDigit(s[0]))
    || (|s| > 1 && s[0] == '.' && IsDigit(s[1]))
  }

  /** 10 raised to an integer power. */
  function Scale(e: int): (r: real)
    ensures r > 0.0
  {
    if e >= 0 then Pow10(e) as real else 1.0 / Pow10(-e) as real
  }

  /** The exponent of an optional exponent part `e[+-]digits` at the start of
      `s`; an `e` without digits is not part of the literal and counts as 0. */
  function Exponent(s: string): int {
    if |s| >= 2 && (s[0] == 'e' || s[0] == 'E') then
      var signed := s[1] == '+' || s[1] == '-';
      var digits := if signed then s[2..] else s[1..];
      var n := LeadingDigits(digits);
      var e: int := DigitsValue(digits[..n]);
      if s[1] == '-' then -e else e
    else 0
  }

  /** A scanned unsigned decimal literal: its significant digits (integer part
      followed by fraction part), the number of fraction digits, and the
      exponent. */
  datatype Literal = Literal(digits: string, fractionLength: nat, exponent: int)
  {
    predicate Valid() {
      AllDigits(digits) && fractionLength <= |digits|
    }

    function Value(): (v: real)
      requires Valid()
      ensures v >= 0.0
    {
      var d, scale := DigitsValue(digits) as real, Scale(exponent - fractionLength);
      MulNonNegative(d, scale);
      d * scale
    }
  }

  lemma MulNonNegative(a: real, b: real)
    requires a >= 0.0 && b >= 0.0
    ensures a * b >= 0.0
  {
  }

  /** The longest prefix of `s` that is a StrUnsignedDecimalLiteral (digits, an
      optional point and fraction, an optional exponent), or None when no
      prefix is one. */
  function Scan(s: string): (r: Option<Literal>)
    ensures r.Some? <==> StartsNumeric(s)
    ensures r.Some? ==> r.value.Valid()
  {
    var d1 := LeadingDigits(s);
    var rest := s[d1..];
    var hasDot := |rest| > 0 && rest[0] == '.';
    var d2 := if hasDot then LeadingDigits(rest[1..]) else 0;
    if d1 == 0 && d2 == 0 then None
    else
      var fraction := if hasDot then rest[1..1 + d2] else [];
      var after := if hasDot then rest[1 + d2..] else rest;
      assert hasDot ==> fraction == rest[1..][..d2];
      assert AllDigits(s[..d1] + fraction);
      Some(Literal(s[..d1] + fraction, |fraction|, Exponent(after)))
  }

  /** The value of the longest unsigned decimal-literal prefix of `s`. */
  function ParseUnsigned(s: string): (r: Option<real>)
    ensures r.Some? <==> StartsNumeric(s)
    ensures r.Some? ==> r.value >= 0.0
  {
    match Scan(s)
    case None => None
    case Some(l) => Some(l.Value())
  }

  /** The input with an optional leading sign removed. */
  function Unsigned(t: string): string {
    if |t| > 0 && (t[0] == '+' || t[0] == '-') then t[1..] else t
  }

  /** parseFloat: skip leading white space, read an optional sign and the
      longest decimal-literal prefix, ignore the rest. None stands for NaN,
      which is returned exactly when no numeric prefix follows the sign. */
  function ParseFloat(s: string): (r: Option<real>)
    ensures r.Some? <==> StartsNumeric(Unsigned(TrimStart(s)))
  {
    var t := TrimStart(s);
    match ParseUnsigned(Unsigned(t))
    case None => None
    case Some(v) => Some(if |t| > 0 && t[0] == '-' then -v else v)
  }

  /** A plain integer literal, optionally followed by text that cannot continue
      a number, parses to its value. */
  lemma ParseInteger(a: string, rest: string)
    requires |a| > 0 && AllDigits(a)
    requires |rest| == 0 || !(IsDigit(rest[0]) || rest[0] == '.' || rest[0] == 'e' || rest[0] == 'E')
    ensures ParseUnsigned(a + rest) == Some(DigitsValue(a) as real)
  {
    var s := a + rest;
    assert Scan(s) == Some(Literal(a, 0, 0)) by {
      LeadingDigitsOf(a, rest);
      assert s[..|a|] == a;
      assert s[|a|..] == rest;
      assert s[..|a|] + [] == a;
    }
    WholeLiteralValue(a);
  }

  lemma WholeLiteralValue(a: string)
    requires AllDigits(a)
    ensures Literal(a, 0, 0).Value() == DigitsValue(a) as real
  {
    assert Scale(0) == 1.0;
  }

  /** A literal `a.b` with a non-empty integer part parses to a + b / 10^|b|. */
  lemma ParseDecimal(a: string, b: string)
    requires |a| > 0 && AllDigits(a) && AllDigits(b)
    ensures AllDigits(a + b)
    ensures Scan(a + "." + b) == Some(Literal(a + b, |b|, 0))
  {
    var s := a + "." + b;
    LeadingDigitsOf(a, "." + b);
    assert s == a + ("." + b);
    assert s[..|a|] == a;
    var rest := s[|a|..];
    assert rest == "." + b;
    LeadingDigitsOf(b, []);
    assert b + [] == b;
    assert rest[1..] == b;
    assert rest[1..1 + |b|] == b;
    assert rest[1 + |b|..] == [];
    assert s[..|a|] + b == a + b;
  }

  /** Beyond this magnitude toFixed prints the number in exponent notation
      instead of rounding it. */
  const ToFixedLimit: real := 1000000000000000000000.0

  function Abs(x: real): real {
    if x < 0.0 then -x else x
  }

  /** The integer n closest to 100·x (x non-negative), the larger of two on a tie:
      the digits toFixed(2) prints. */
  function Hundredths(x: real): (n: nat)
    requires x >= 0.0
    ensures n as real - 0.5 <= 100.0 * x < n as real + 0.5
  {
    (100.0 * x + 0.5).Floor
  }

  /** parseFloat(x.toFixed(2)): rounds to two decimals, ties away from zero,
      and leaves magnitudes of 10^21 and above unchanged. */
  function Round2(x: real): (r: real)
    ensures Abs(r - x) <= 0.005
    ensures Abs(x) >= ToFixedLimit ==> r == x
    ensures (x < 0.0 ==> r <= 0.0) && (x >= 0.0 ==> r >= 0.0)
    // below the limit the result is a whole number of hundredths ...
    ensures Abs(x) < ToFixedLimit ==> (100.0 * r).Floor as real == 100.0 * r
    // ... the nearest one, a tie taking the neighbour farther from zero
    ensures Abs(x) < ToFixedLimit && x >= 0.0 ==> 100.0 * r - 0.5 <= 100.0 * x < 100.0 * r + 0.5
    ensures Abs(x) < ToFixedLimit && x < 0.0 ==> 100.0 * r - 0.5 < 100.0 * x <= 100.0 * r + 0.5
  {
    if Abs(x) >= ToFixedLimit then x
    else
      var n := Hundredths(Abs(x));
      WholeHundredths(n);
      if x < 0.0 then -(n as real / 100.0) else n as real / 100.0
  }

  /** n hundredths, with either sign, are a whole number of hundredths. */
  lemma WholeHundredths(n: nat)
    ensures 100.0 * (n as real / 100.0) == n as real && (n as real).Floor == n
    ensures 100.0 * -(n as real / 100.0) == -(n as real) && (-(n as real)).Floor == -(n as int)
  {
  }

  /** Rounding an already-rounded value changes nothing. */
  lemma Round2Idempotent(x: real)
    ensures Round2(Round2(x)) == Round2(x)
  {
    var r := Round2(x);
    if Abs(x) < ToFixedLimit && Abs(r) < ToFixedLimit {
      var n := Hundredths(Abs(x));
      assert Abs(r) == n as real / 100.0;
      assert 100.0 * Abs(r) + 0.5 == n as real + 0.5;
      FloorOfHalf(n);
    }
  }

  lemma FloorOfHalf(n: int)
    ensures (n as real + 0.5).Floor == n
  {
  }

  /** Rounding is symmetric about zero. */
  lemma Round2Odd(x: real)
    ensures Round2(-x) == -Round2(x)
  {
  }

  /** The digits of n with at least three of them, zero-padded on the left,
      so that two fraction digits and one integer digit can be cut off. */
  function PaddedDigits(n: nat): (p: string)
    ensures |p| >= 3 && AllDigits(p) && DigitsValue(p) == n
  {
    var m := NatToString(n);
    if |m| <= 2 then
      DigitsValueZeros(3 - |m|, m);
      Zeros(3 - |m|) + m
    else m
  }

  /** The unsigned part toFixed(2) prints for a padded digit string: all but
      the last two digits, a point, the last two digits. */
  function FixedBody(p: string): string
    requires |p| >= 3
  {
    p[..|p| - 2] + "." + p[|p| - 2..]
  }

  /** Number.prototype.toFixed(2) below 10^21: an optional minus sign (kept even
      when the digits are all zero), at least one integer digit, a point and two
      fraction digits. */
  function ToFixed2(x: real): (s: string)
    requires Abs(x) < ToFixedLimit
    ensures |s| >= 4 && s[|s| - 3] == '.'
    ensures x < 0.0 <==> s[0] == '-'
    // after the optional sign: integer digits, the point, two fraction digits
    ensures var b := if x < 0.0 then 1 else 0;
            b < |s| - 3 && AllDigits(s[b..|s| - 3]) && AllDigits(s[|s| - 2..])
  {
    SignedFixed(PaddedDigits(Hundredths(Abs(x))), x < 0.0)
  }

  /** The padded digits printed with the point before the last two, behind a
      minus sign when negative. */
  function SignedFixed(p: string, negative: bool): (s: string)
    requires |p| >= 3 && AllDigits(p)
    ensures |s| >= 4 && s[|s| - 3] == '.'
    ensures negative <==> s[0] == '-'
    ensures var b := if negative then 1 else 0;
            b < |s| - 3 && AllDigits(s[b..|s| - 3]) && AllDigits(s[|s| - 2..])
  {
    var body := FixedBody(p);
    assert body[..|p| - 2] == p[..|p| - 2] && body[|p| - 1..] == p[|p| - 2..];
    assert IsDigit(body[0]);
    if negative then
      var s := "-" + body;
      assert s[1..|s| - 3] == body[..|p| - 2] && s[|s| - 2..] == body[|p| - 1..];
      s
    else
      body
  }

  /** The unsigned part printed by toFixed(2) reads back as its digits over 100. */
  lemma ParseFixedBody(p: string, n: nat)
    requires |p| >= 3 && AllDigits(p) && DigitsValue(p) == n
    ensures ParseUnsigned(FixedBody(p)) == Some(n as real / 100.0)
  {
    ScanFixedBody(p);
    HundredthsLiteralValue(p, n);
    assert ParseUnsigned(FixedBody(p)) == Some(Literal(p, 2, 0).Value());
  }

  lemma ScanFixedBody(p: string)
    requires |p| >= 3 && AllDigits(p)
    ensures Scan(FixedBody(p)) == Some(Literal(p, 2, 0))
  {
    var a, b := p[..|p| - 2], p[|p| - 2..];
    assert a + b == p;
    ParseDecimal(a, b);
  }

  lemma HundredthsLiteralValue(p: string, n: nat)
    requires 2 <= |p| && AllDigits(p) && DigitsValue(p) == n
    ensures Literal(p, 2, 0).Value() == n as real / 100.0
  {
    assert Scale(0 - 2) == 1.0 / 100.0;
  }

  /** A digit-led unsigned literal with an optional minus sign in front parses
      to its value, negated when the sign is there. */
  lemma ParseSigned(body: string, negative: bool, v: real)
    requires |body| > 0 && IsDigit(body[0]) && ParseUnsigned(body) == Some(v)
    ensures ParseFloat(if negative then "-" + body else body) == Some(if negative then -v else v)
  {
    if negative {
      var s := "-" + body;
      assert s[0] == '-' && s[1..] == body;
      assert Unsigned(s) == body;
      ParseFloatTrimmed(s, v);
    } else {
      assert body[0] != '+' && body[0] != '-' && !IsSpace(body[0]);
      assert Unsigned(body) == body;
      ParseFloatTrimmed(body, v);
    }
  }

  /** parseFloat of a string with no leading white space whose unsigned part
      parses to v. */
  lemma ParseFloatTrimmed(s: string, v: real)
    requires |s| > 0 && !IsSpace(s[0]) && ParseUnsigned(Unsigned(s)) == Some(v)
    ensures ParseFloat(s) == Some(if s[0] == '-' then -v else v)
  {
    TrimStartNoSpace(s);
  }

  /** Below 10^21, Round2 is the toFixed digits over 100 with the sign of x. */
  lemma Round2Below(x: real, v: real)
    requires Abs(x) < ToFixedLimit && v == Hundredths(Abs(x)) as real / 100.0
    ensures Round2(x) == if x < 0.0 then -v else v
  {
  }

  /** parseFloat reads back what toFixed(2) printed, and the value is Round2:
      the textual round trip the source performs on every record. */
  lemma ToFixed2RoundTrip(x: real)
    requires Abs(x) < ToFixedLimit
    ensures ParseFloat(ToFixed2(x)) == Some(Round2(x))
  {
    var n := Hundredths(Abs(x));
    var p := PaddedDigits(n);
    ParseFixedBody(p, n);
    var v := n as real / 100.0;
    var printed := if x < 0.0 then "-" + FixedBody(p) else FixedBody(p);
    ParseSigned(FixedBody(p), x < 0.0, v);
    ToFixed2Unfold(x, p, printed);
    Round2Below(x, v);
  }

  lemma ToFixed2Unfold(x: real, p: string, printed: string)
    requires Abs(x) < ToFixedLimit && p == PaddedDigits(Hundredths(Abs(x)))
    requires printed == if x < 0.0 then "-" + FixedBody(p) else FixedBody(p)
    ensures ToFixed2(x) == printed
  {
  }

}
