/** The part of JavaScript's number semantics the evaluator relies on: a double is
    either a real value or NaN, `parseFloat` reads the decimal literal at the front of
    a string, `Number` accepts a string only when all of it is one literal, and the
    four arithmetic operators propagate NaN. Rounding, infinities, exponents, signed
    zero and white space are not modelled. */
module JsNumber {
  import opened Wrappers

  /** A double as the evaluator sees it. */
  datatype Value = Num(r: real) | NaN

  predicate IsDigit(c: char)
  {
    '0' <= c <= '9'
  }

  function DigitOf(c: char): nat
  {
    if IsDigit(c) then c as int - '0' as int else 0
  }

  /** The first index at or after `i` that does not hold a digit. */
  function DigitsEnd(s: string, i: nat): (j: nat)
    requires i <= |s|
    ensures i <= j <= |s|
    ensures j < |s| ==> !IsDigit(s[j])
    decreases |s| - i
  {
    if i < |s| && IsDigit(s[i]) then DigitsEnd(s, i + 1) else i
  }

  /** The natural number the digits `s[lo..hi]` spell. */
  function DigitsValue(s: string, lo: nat, hi: nat): nat
    requires hi <= |s|
  {
    if hi <= lo then 0 else 10 * DigitsValue(s, lo, hi - 1) + DigitOf(s[hi - 1])
  }

  /** The fraction the digits `s[lo..hi]` spell after a decimal point, 0.d1d2...dk,
      by Horner's rule so that each step divides by ten. */
  function FractionValue(s: string, lo: nat, hi: nat): real
    requires hi <= |s|
    decreases hi - lo
  {
    if hi <= lo then 0.0 else (DigitOf(s[lo]) as real + FractionValue(s, lo + 1, hi)) / 10.0
  }

  /** Where the decimal literal at the front of a string lies: an optional sign before
      `intStart`, integer digits up to `intEnd`, then, when `point` holds, a point and
      fraction digits up to `fracEnd`; the literal ends at `fracEnd`. */
  datatype Literal = Literal(intStart: nat, intEnd: nat, point: bool, fracEnd: nat)

  predicate IsSign(c: char)
  {
    c == '+' || c == '-'
  }

  /** The longest decimal literal at the front of `s`. */
  function Scan(s: string): (l: Literal)
    ensures l.intStart <= l.intEnd <= l.fracEnd <= |s|
    ensures l.point ==> l.intEnd < l.fracEnd && s[l.intEnd] == '.'
    ensures !l.point ==> l.fracEnd == l.intEnd
  {
    var k := if |s| > 0 && IsSign(s[0]) then 1 else 0;
    var intEnd := DigitsEnd(s, k);
    if intEnd < |s| && s[intEnd] == '.' then
      Literal(k, intEnd, true, DigitsEnd(s, intEnd + 1))
    else
      Literal(k, intEnd, false, intEnd)
  }

  /** The number of digits the literal holds. */
  function DigitCount(l: Literal): nat
    requires l.intStart <= l.intEnd <= l.fracEnd
    requires l.point ==> l.intEnd < l.fracEnd
  {
    (l.intEnd - l.intStart) + (if l.point then l.fracEnd - l.intEnd - 1 else 0)
  }

  function LiteralValue(s: string, l: Literal): real
    requires l.intStart <= l.intEnd <= l.fracEnd <= |s|
    requires l.point ==> l.intEnd < l.fracEnd
  {
    var whole := DigitsValue(s, l.intStart, l.intEnd) as real;
    var fraction :=
      if l.point then FractionValue(s, l.intEnd + 1, l.fracEnd)
      else 0.0;
    if l.intStart == 1 && s[0] == '-' then -(whole + fraction) else whole + fraction
  }

  /** `parseFloat(s)`: the value of the literal at the front of `s`, or `None` (NaN)
      when that literal has no digit. Text after the literal is ignored. */
  function ParseFloat(s: string): Option<real>
  {
    var l := Scan(s);
    if DigitCount(l) > 0 then Some(LiteralValue(s, l)) else None
  }

  /** `Number(s)`: the empty string is 0; otherwise the whole of `s` has to be one
      literal with a digit, else the value is `None` (NaN). */
  function NumberOf(s: string): (r: Option<real>)
    ensures s == "" ==> r == Some(0.0)
    ensures s != "" && r.Some? ==> ParseFloat(s) == r
    ensures s != "" ==> (r.Some? <==> ParseFloat(s).Some? && Scan(s).fracEnd == |s|)
  {
    if s == "" then Some(0.0)
    else
      var l := Scan(s);
      if l.fracEnd == |s| && DigitCount(l) > 0 then Some(LiteralValue(s, l)) else None
  }

  /** `parseFloat` as a double. */
  function FloatValue(s: string): (v: Value)
    ensures v.Num? <==> ParseFloat(s).Some?
    ensures v.Num? ==> ParseFloat(s) == Some(v.r)
  {
    match ParseFloat(s)
    case Some(x) => Num(x)
    case None => NaN
  }

  function Add(a: Value, b: Value): (c: Value)
    ensures c.NaN? <==> a.NaN? || b.NaN?
    ensures c.Num? ==> c.r == a.r + b.r
  {
    if a.Num? && b.Num? then Num(a.r + b.r) else NaN
  }

  function Sub(a: Value, b: Value): (c: Value)
    ensures c.NaN? <==> a.NaN? || b.NaN?
    ensures c.Num? ==> c.r == a.r - b.r
  {
    if a.Num? && b.Num? then Num(a.r - b.r) else NaN
  }

  function Mul(a: Value, b: Value): (c: Value)
    ensures c.NaN? <==> a.NaN? || b.NaN?
    ensures c.Num? ==> c.r == a.r * b.r
  {
    if a.Num? && b.Num? then Num(a.r * b.r) else NaN
  }

  /** Division by a non-zero divisor; the evaluator never divides by zero. */
  function Div(a: Value, b: Value): (c: Value)
    requires b != Num(0.0)
    ensures c.NaN? <==> a.NaN? || b.NaN?
    ensures c.Num? ==> c.r * b.r == a.r
  {
    if a.Num? && b.Num? then Num(a.r / b.r) else NaN
  }

  // ------------------------------------------------------------- properties

  /** Everything `DigitsEnd` steps over is a digit. */
  lemma {:induction false} DigitsEndSpansDigits(s: string, i: nat, k: nat)
    requires i <= |s| && i <= k < DigitsEnd(s, i)
    ensures IsDigit(s[k])
    decreases |s| - i
  {
    if i < k {
      DigitsEndSpansDigits(s, i + 1, k);
    }
  }

  /** `Scan` reads the longest literal: every character it spans is a sign, a digit
      or the one point, and the character after it (if any) is no digit, nor a point
      when the literal has none. */
  lemma ScanIsLongest(s: string)
    ensures var l := Scan(s);
      && l.intStart == (if |s| > 0 && IsSign(s[0]) then 1 else 0)
      && (forall k :: l.intStart <= k < l.intEnd ==> IsDigit(s[k]))
      && (forall k :: l.intEnd < k < l.fracEnd ==> IsDigit(s[k]))
      && (l.fracEnd < |s| ==> !IsDigit(s[l.fracEnd]) && (!l.point ==> s[l.fracEnd] != '.'))
  {
    var l := Scan(s);
    forall k | l.intStart <= k < l.intEnd ensures IsDigit(s[k]) {
      DigitsEndSpansDigits(s, l.intStart, k);
    }
    forall k | l.intEnd < k < l.fracEnd ensures IsDigit(s[k]) {
      DigitsEndSpansDigits(s, l.intEnd + 1, k);
    }
  }

  /** `parseFloat` reads a number exactly when the literal at the front of the
      string holds a digit; a lone sign or point is NaN. */
  lemma ParseFloatNeedsDigit(s: string)
    ensures var l := Scan(s);
      ParseFloat(s).Some? <==> exists k :: l.intStart <= k < l.fracEnd && IsDigit(s[k])
  {
  }

  /** A non-empty string of digits is, for both readings, the number it spells. */
  lemma ParseDigits(s: string)
    requires s != "" && forall k :: 0 <= k < |s| ==> IsDigit(s[k])
    ensures ParseFloat(s) == Some(DigitsValue(s, 0, |s|) as real)
    ensures NumberOf(s) == Some(DigitsValue(s, 0, |s|) as real)
  {
  }

  /** The sentinel "NA" is not a number, for either reading. */
  lemma SentinelIsNaN()
    ensures ParseFloat("NA") == None && NumberOf("NA") == None
  {
  }
}
