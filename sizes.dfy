/** `sizeToBytes` of packages/build-tools/src/dax.ts: a size such as `8G`,
    ` 1.5 GiB ` or `-3kb` is trimmed, matched against
    `^([+-]?\d+(?:\.\d+)?)(?:\s*([a-zA-Z]+))?$`, its unit looked up
    case-insensitively in a table of decimal and binary multipliers, and the
    product rounded up.  The number is kept as an exact decimal fraction. */
module Sizes {
  import opened Common

  /** The characters JavaScript's `trim` removes and `\s` matches. */
  predicate IsSpace(c: char) {
    c == '\t' || c == '\n' || c == '\U{000B}' || c == '\U{000C}' || c == '\r' || c == ' '
    || c == '\U{00A0}' || c == '\U{1680}' || ('\U{2000}' <= c <= '\U{200A}')
    || c == '\U{2028}' || c == '\U{2029}' || c == '\U{202F}' || c == '\U{205F}'
    || c == '\U{3000}' || c == '\U{FEFF}'
  }

  predicate AllSpace(s: string) { forall i :: 0 <= i < |s| ==> IsSpace(s[i]) }

  predicate AllLetters(s: string) { forall i :: 0 <= i < |s| ==> IsAlpha(s[i]) }

  /** The length of the longest prefix of `s` whose characters satisfy `p`. */
  function Span(s: string, p: char -> bool): (n: nat)
    ensures n <= |s| && forall i :: 0 <= i < n ==> p(s[i])
    ensures n < |s| ==> !p(s[n])
  {
    if s != [] && p(s[0]) then 1 + Span(s[1..], p) else 0
  }

  /** The number of spaces at the end of `s`. */
  function TrailingSpaces(s: string): (n: nat)
    ensures n <= |s| && forall i :: |s| - n <= i < |s| ==> IsSpace(s[i])
    ensures n < |s| ==> !IsSpace(s[|s| - n - 1])
  {
    if s != [] && IsSpace(s[|s| - 1]) then 1 + TrailingSpaces(s[..|s| - 1]) else 0
  }

  /** `input.trim()`: the text between the leading spaces (`Span`) and
      the trailing ones. */
  function Trim(s: string): (r: string)
    ensures var a := Span(s, IsSpace);
      && a + |r| <= |s| && r == s[a..a + |r|]
      && forall i :: a + |r| <= i < |s| ==> IsSpace(s[i])
    ensures r != [] ==> !IsSpace(r[0]) && !IsSpace(r[|r| - 1])
  {
    var a := Span(s, IsSpace);
    if a == |s| then []
    else
      var b := |s| - TrailingSpaces(s);
      s[a..b]
  }

  /** Text that neither starts nor ends with a space is its own trim. */
  lemma TrimClean(s: string)
    requires s != [] ==> !IsSpace(s[0]) && !IsSpace(s[|s| - 1])
    ensures Trim(s) == s
  {
  }

  lemma {:induction false} SpanAppend(a: string, b: string, p: char -> bool)
    requires forall i :: 0 <= i < |a| ==> p(a[i])
    requires b != [] ==> !p(b[0])
    ensures Span(a + b, p) == |a|
  {
    if a != [] {
      assert (a + b)[1..] == a[1..] + b;
      SpanAppend(a[1..], b, p);
    } else {
      assert a + b == b;
    }
  }

  /** The parts the size pattern captures: an optional sign, the integer
      digits, optional fraction digits, and a unit that may be preceded by
      spaces. */
  datatype SizeText = SizeText(sign: string, whole: string, frac: Option<string>, gap: string, unit: Option<string>)

  predicate WellFormedSize(p: SizeText) {
    && (p.sign == "" || p.sign == "+" || p.sign == "-")
    && |p.whole| > 0 && AllDigits(p.whole)
    && (p.frac.Some? ==> |p.frac.value| > 0 && AllDigits(p.frac.value))
    && AllSpace(p.gap)
    && (p.unit.None? ==> p.gap == "")
    && (p.unit.Some? ==> |p.unit.value| > 0 && AllLetters(p.unit.value))
  }

  function FracText(frac: Option<string>): string {
    if frac.Some? then "." + frac.value else ""
  }

  function UnitText(unit: Option<string>): string {
    if unit.Some? then unit.value else ""
  }

  function RenderSize(p: SizeText): string {
    p.sign + p.whole + FracText(p.frac) + p.gap + UnitText(p.unit)
  }

  /** The unit part `(?:\s*([a-zA-Z]+))?$`. */
  function ParseUnit(rest: string): (r: Option<(string, Option<string>)>)
    ensures r.Some? ==> AllSpace(r.value.0) && rest == r.value.0 + UnitText(r.value.1)
    ensures r.Some? && r.value.1.None? ==> r.value.0 == ""
    ensures r.Some? && r.value.1.Some? ==> |r.value.1.value| > 0 && AllLetters(r.value.1.value)
  {
    var g := Span(rest, IsSpace);
    assert rest == rest[..g] + rest[g..];
    if g == |rest| then (if g == 0 then Some(("", None)) else None)
    else if AllLetters(rest[g..]) then Some((rest[..g], Some(rest[g..])))
    else None
  }

  /** `\d+` at the start of `s`, and what follows it. */
  function ParseDigits(s: string): (r: Option<(string, string)>)
    ensures r.Some? ==> |r.value.0| > 0 && AllDigits(r.value.0) && s == r.value.0 + r.value.1
    ensures r.Some? && r.value.1 != [] ==> !IsDigit(r.value.1[0])
  {
    var w := Span(s, IsDigit);
    assert s == s[..w] + s[w..];
    if w == 0 then None else Some((s[..w], s[w..]))
  }

  lemma ParseDigitsRender(a: string, b: string)
    requires |a| > 0 && AllDigits(a) && (b != [] ==> !IsDigit(b[0]))
    ensures ParseDigits(a + b) == Some((a, b))
  {
    SpanAppend(a, b, IsDigit);
    assert (a + b)[..|a|] == a && (a + b)[|a|..] == b;
  }

  /** `(?:\.\d+)?` at the start of `s`, and what follows it. */
  function ParseFraction(s: string): (r: Option<(Option<string>, string)>)
    ensures r.Some? ==> s == FracText(r.value.0) + r.value.1
    ensures r.Some? && r.value.0.Some? ==> |r.value.0.value| > 0 && AllDigits(r.value.0.value)
  {
    if |s| > 0 && s[0] == '.' then
      match ParseDigits(s[1..])
      case None => None
      case Some((frac, rest)) =>
        assert s == "." + s[1..];
        Some((Some(frac), rest))
    else Some((None, s))
  }

  /** The number part `[+-]?\d+(?:\.\d+)?`, followed by what is left. */
  function ParseNumber(t: string): (r: Option<(string, string, Option<string>, string)>)
    ensures r.Some? ==> var (sign, whole, frac, rest) := r.value;
      && (sign == "" || sign == "+" || sign == "-")
      && |whole| > 0 && AllDigits(whole)
      && (frac.Some? ==> |frac.value| > 0 && AllDigits(frac.value))
      && t == sign + whole + FracText(frac) + rest
  {
    var signLen := if |t| > 0 && (t[0] == '+' || t[0] == '-') then 1 else 0;
    var digits := ParseDigits(t[signLen..]);
    if digits.None? then None
    else
      var fraction := ParseFraction(digits.value.1);
      if fraction.None? then None
      else
        Regroup(t, t[..signLen], t[signLen..], digits.value.0, fraction.value.0, fraction.value.1);
        Some((t[..signLen], digits.value.0, fraction.value.0, fraction.value.1))
  }

  lemma Regroup(t: string, sign: string, unsigned: string, whole: string, frac: Option<string>, rest: string)
    requires t == sign + unsigned
    requires unsigned == whole + (FracText(frac) + rest)
    ensures t == sign + whole + FracText(frac) + rest
  {
  }

  /** The match of the size pattern against trimmed text. */
  function ParseSize(t: string): (r: Option<SizeText>)
    ensures r.Some? ==> WellFormedSize(r.value) && RenderSize(r.value) == t
  {
    var number := ParseNumber(t);
    if number.None? then None
    else
      var (sign, whole, frac, rest) := number.value;
      var unit := ParseUnit(rest);
      if unit.None? then None
      else
        var p := SizeText(sign, whole, frac, unit.value.0, unit.value.1);
        RenderParts(p, t, rest);
        Some(p)
  }

  lemma RenderParts(p: SizeText, t: string, rest: string)
    requires t == p.sign + p.whole + FracText(p.frac) + rest
    requires rest == p.gap + UnitText(p.unit)
    ensures RenderSize(p) == t
  {
  }

  lemma {:induction false} ParseUnitRender(gap: string, unit: Option<string>)
    requires AllSpace(gap) && (unit.None? ==> gap == "")
    requires unit.Some? ==> |unit.value| > 0 && AllLetters(unit.value)
    ensures ParseUnit(gap + UnitText(unit)) == Some((gap, unit))
  {
    var rest := gap + UnitText(unit);
    if unit.Some? {
      SpanAppend(gap, unit.value, IsSpace);
      assert rest[..|gap|] == gap && rest[|gap|..] == unit.value;
    } else {
      assert rest == "";
    }
  }

  lemma ParseFractionRender(frac: Option<string>, rest: string)
    requires frac.Some? ==> |frac.value| > 0 && AllDigits(frac.value)
    requires rest != [] ==> !IsDigit(rest[0]) && rest[0] != '.'
    ensures ParseFraction(FracText(frac) + rest) == Some((frac, rest))
  {
    if frac.Some? {
      var s := FracText(frac) + rest;
      assert s[0] == '.' && s[1..] == frac.value + rest;
      ParseDigitsRender(frac.value, rest);
    } else {
      assert FracText(frac) + rest == rest;
    }
  }

  lemma RenderSign(p: SizeText, after: string)
    requires WellFormedSize(p)
    requires after == FracText(p.frac) + p.gap + UnitText(p.unit)
    ensures RenderSize(p) == p.sign + (p.whole + after)
    ensures RenderSize(p)[..|p.sign|] == p.sign && RenderSize(p)[|p.sign|..] == p.whole + after
    ensures RenderSize(p)[0] == '+' || RenderSize(p)[0] == '-' <==> p.sign != ""
  {
    var t := RenderSize(p);
    assert t == p.sign + (p.whole + after);
    assert t[|p.sign|] == p.whole[0];
  }

  lemma {:induction false} ParseNumberRender(p: SizeText)
    requires WellFormedSize(p)
    ensures ParseNumber(RenderSize(p)) == Some((p.sign, p.whole, p.frac, p.gap + UnitText(p.unit)))
  {
    var rest := p.gap + UnitText(p.unit);
    var after := FracText(p.frac) + rest;
    assert after == FracText(p.frac) + p.gap + UnitText(p.unit);
    RenderSign(p, after);
    assert rest != [] ==> IsSpace(rest[0]) || IsAlpha(rest[0]);
    ParseFractionRender(p.frac, rest);
    assert after != [] ==> after[0] == '.' || after[0] == rest[0];
    ParseDigitsRender(p.whole, after);
  }

  /** Every well-formed size text parses back into its own parts. */
  lemma {:induction false} ParseRenderSize(p: SizeText)
    requires WellFormedSize(p)
    ensures ParseSize(RenderSize(p)) == Some(p)
  {
    ParseNumberRender(p);
    ParseUnitRender(p.gap, p.unit);
  }

  function Pow(b: nat, e: nat): (r: nat)
    ensures b > 0 ==> r > 0
  {
    if e == 0 then 1 else b * Pow(b, e - 1)
  }

  /** The `sizeUnits` table, keyed by the upper-cased unit. */
  function UnitMultiplier(u: string): Option<nat> {
    if u == "" || u == "B" then Some(1)
    else if u == "K" || u == "KB" then Some(Pow(10, 3))
    else if u == "M" || u == "MB" then Some(Pow(10, 6))
    else if u == "G" || u == "GB" then Some(Pow(10, 9))
    else if u == "T" || u == "TB" then Some(Pow(10, 12))
    else if u == "P" || u == "PB" then Some(Pow(10, 15))
    else if u == "E" || u == "EB" then Some(Pow(10, 18))
    else if u == "KIB" then Some(Pow(1024, 1))
    else if u == "MIB" then Some(Pow(1024, 2))
    else if u == "GIB" then Some(Pow(1024, 3))
    else if u == "TIB" then Some(Pow(1024, 4))
    else if u == "PIB" then Some(Pow(1024, 5))
    else if u == "EIB" then Some(Pow(1024, 6))
    else None
  }

  /** `Math.ceil(x / d)` on exact values: the least integer at or above. */
  function CeilDiv(x: int, d: nat): (r: int)
    requires d > 0
    ensures (r - 1) * d < x <= r * d
  {
    -((-x) / d)
  }

  /** The decimal `sign whole.frac` as the numerator over `10^|frac|`. */
  function Numerator(p: SizeText): int
    requires WellFormedSize(p)
  {
    var digits := p.whole + UnitText(p.frac);
    assert AllDigits(digits);
    (if p.sign == "-" then -1 else 1) * DecimalValue(digits)
  }

  function Denominator(p: SizeText): nat {
    Pow(10, |UnitText(p.frac)|)
  }

  datatype SizeError = InvalidFormat(input: string) | UnknownUnit(unit: string)

  /** `sizeToBytes(input)` */
  function SizeToBytes(input: string): (r: Result<int, SizeError>)
    ensures r.Err? && r.error.InvalidFormat? <==> ParseSize(Trim(input)).None?
  {
    var t := Trim(input);
    match ParseSize(t)
    case None => Err(InvalidFormat(t))
    case Some(p) =>
      match UnitMultiplier(Upper(UnitText(p.unit)))
      case None => Err(UnknownUnit(UnitText(p.unit)))
      case Some(m) => Ok(CeilDiv(Numerator(p) * m, Denominator(p)))
  }

  /** A well-formed size text is its own trim. */
  lemma RenderTrimmed(p: SizeText)
    requires WellFormedSize(p)
    ensures Trim(RenderSize(p)) == RenderSize(p)
  {
    var t := RenderSize(p);
    var tail := FracText(p.frac) + p.gap + UnitText(p.unit);
    assert t == p.sign + p.whole + tail;
    var last := t[|t| - 1];
    assert t[|p.sign|] == p.whole[0];
    assert t[0] == if p.sign == "" then p.whole[0] else p.sign[0];
    if p.unit.Some? {
      assert last == p.unit.value[|p.unit.value| - 1];
    } else if p.frac.Some? {
      assert last == p.frac.value[|p.frac.value| - 1];
    } else {
      assert last == p.whole[|p.whole| - 1];
    }
    TrimClean(t);
  }

  /** The value of a size text: its exact number times its unit's
      multiplier, rounded up; a unit outside the table is an error. */
  lemma SizeOfText(p: SizeText)
    requires WellFormedSize(p)
    ensures var m := UnitMultiplier(Upper(UnitText(p.unit)));
      SizeToBytes(RenderSize(p)) ==
        if m.None? then Err(UnknownUnit(UnitText(p.unit)))
        else Ok(CeilDiv(Numerator(p) * m.value, Denominator(p)))
  {
    RenderTrimmed(p);
    ParseRenderSize(p);
  }

  /** The unit is looked up case-insensitively: two texts that differ only
      in the letter case of their units have the same size. */
  lemma UnitCaseInsensitive(p: SizeText, u: string)
    requires WellFormedSize(p) && p.unit.Some?
    requires |u| == |p.unit.value| && AllLetters(u) && Upper(u) == Upper(p.unit.value)
    ensures SizeToBytes(RenderSize(p.(unit := Some(u)))).Ok? == SizeToBytes(RenderSize(p)).Ok?
    ensures SizeToBytes(RenderSize(p.(unit := Some(u)))).Ok? ==>
      SizeToBytes(RenderSize(p.(unit := Some(u)))) == SizeToBytes(RenderSize(p))
  {
    SizeOfText(p);
    SizeOfText(p.(unit := Some(u)));
  }

  /** The size text of a whole number followed directly by a unit. */
  function WholeText(n: nat, u: string): (p: SizeText)
    requires u != [] ==> AllLetters(u)
    ensures WellFormedSize(p) && RenderSize(p) == DecimalString(n) + u
    ensures UnitText(p.unit) == u && Numerator(p) == n && Denominator(p) == 1
  {
    var p := SizeText("", DecimalString(n), None, "", if u == [] then None else Some(u));
    assert p.whole + UnitText(p.frac) == DecimalString(n);
    p
  }

  /** A whole number with a known unit is that number of units, exactly. */
  lemma SizeOfWhole(t: string, n: nat, u: string, m: nat)
    requires t == DecimalString(n) + u
    requires u != [] ==> AllLetters(u)
    requires UnitMultiplier(Upper(u)) == Some(m)
    ensures SizeToBytes(t) == Ok(n * m)
  {
    var p := WholeText(n, u);
    SizeOfText(p);
    WholeBytes(n, m, Numerator(p), Denominator(p));
  }

  /** A whole count of units needs no rounding. */
  lemma WholeBytes(n: nat, m: nat, num: int, den: nat)
    requires num == n && den == 1
    ensures CeilDiv(num * m, den) == n * m
  {
  }

  /** The disk server's default size: `8G` is eight billion bytes. */
  lemma DefaultDiskSize(t: string)
    requires t == "8G"
    ensures SizeToBytes(t) == Ok(8000000000)
  {
    GigaMultiplier();
    assert t == DecimalString(8) + "G";
    SizeOfWhole(t, 8, "G", 1000000000);
  }

  lemma GigaMultiplier()
    ensures UnitMultiplier(Upper("G")) == Some(1000000000)
  {
    assert Upper("G") == "G";
    assert Pow(10, 3) == 1000;
    assert Pow(10, 6) == 1000 * Pow(10, 3);
    assert Pow(10, 9) == 1000 * Pow(10, 6);
  }
}
