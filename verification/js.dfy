/** The JavaScript values that reach the route handlers from JSON bodies,
    URL parameters and the session, and the two coercions the handlers apply
    to them: truthiness (`if (!x)`) and `Number(x)` / `isNaN(x)`.

    Numbers are integers in this model; `NaN` is a value of its own. */
module Js {
  import opened Base

  datatype Value = Undefined | Null | Bool(b: bool) | Num(n: int) | NaN | Str(s: string)

  /** JavaScript truthiness. */
  predicate Truthy(v: Value) {
    match v
    case Undefined => false
    case Null => false
    case Bool(b) => b
    case Num(n) => n != 0
    case NaN => false
    case Str(s) => s != ""
  }

  /** The falsy values are exactly `undefined`, `null`, `false`, `0`, `NaN`
      and the empty string. */
  lemma FalsyValues(v: Value)
    ensures !Truthy(v) <==> v in {Undefined, Null, Bool(false), Num(0), NaN, Str("")}
  {
  }

  predicate IsDigit(c: char) {
    '0' <= c <= '9'
  }

  predicate AllDigits(s: string) {
    forall i :: 0 <= i < |s| ==> IsDigit(s[i])
  }

  /** The value of a string of decimal digits, most significant first. */
  function DigitsValue(s: string): (n: nat)
    requires AllDigits(s)
  {
    if |s| == 0 then 0
    else DigitsValue(s[..|s| - 1]) * 10 + (s[|s| - 1] as int - '0' as int)
  }

  /** A signed decimal integer literal: an optional `+` or `-` followed by at
      least one digit. Anything else is not a number (`None`). */
  function ParseInteger(t: string): (r: Option<int>)
    ensures r.Some? ==> |t| > 0
  {
    if |t| > 1 && (t[0] == '-' || t[0] == '+') && AllDigits(t[1..]) then
      var magnitude: int := DigitsValue(t[1..]);
      Some(if t[0] == '-' then -magnitude else magnitude)
    else if |t| > 0 && AllDigits(t) then
      Some(DigitsValue(t))
    else
      None
  }

  /** `Number(s)` for a string: surrounding white space is ignored, a blank
      string is 0, an integer literal is its value, everything else is NaN. */
  function StringToNumber(s: string): (r: Option<int>) {
    var t := Trim(s);
    if t == "" then Some(0) else ParseInteger(t)
  }

  /** `Number(v)`; `None` stands for NaN. */
  function ToNumber(v: Value): (r: Option<int>) {
    match v
    case Undefined => None
    case Null => Some(0)
    case Bool(b) => Some(if b then 1 else 0)
    case Num(n) => Some(n)
    case NaN => None
    case Str(s) => StringToNumber(s)
  }

  /** The global `isNaN(v)`, which coerces its argument with `Number`. */
  predicate IsNaN(v: Value) {
    ToNumber(v).None?
  }

  /** `!Number(v)`: the coerced number is NaN or zero. */
  predicate NumberFalsy(v: Value) {
    ToNumber(v) == None || ToNumber(v) == Some(0)
  }

  /** The coerced value as a JavaScript number. */
  function AsNumber(v: Value): (r: Value)
    ensures r.Num? || r == NaN
  {
    match ToNumber(v)
    case Some(n) => Num(n)
    case None => NaN
  }

  /** Decimal digits of a natural number, most significant first. */
  function ShowNat(n: nat): (s: string)
    ensures |s| > 0 && AllDigits(s)
    ensures DigitsValue(s) == n
  {
    var d := ['0' + (n % 10) as char];
    if n < 10 then d
    else
      var s := ShowNat(n / 10) + d;
      assert s[..|s| - 1] == ShowNat(n / 10);
      s
  }

  /** `String(n)` for an integer. */
  function ShowInt(n: int): (s: string)
    ensures |s| > 0
  {
    if n < 0 then "-" + ShowNat(-n) else ShowNat(n)
  }

  /** A digit string is its own trim. */
  lemma DigitsTrim(s: string)
    requires AllDigits(s)
    ensures Trim(s) == s
  {
    forall i | 0 <= i < |s| ensures !IsSpace(s[i]) {
      assert IsDigit(s[i]);
    }
    TrimNoSpace(s);
  }

  /** A non-empty digit string parses as its value. */
  lemma DigitsParse(s: string)
    requires |s| > 0 && AllDigits(s)
    ensures ParseInteger(s) == Some(DigitsValue(s))
  {
    assert !(s[0] == '-' || s[0] == '+') by { assert IsDigit(s[0]); }
  }

  /** A digit string coerces to its value. */
  lemma DigitsToNumber(s: string)
    requires |s| > 0 && AllDigits(s)
    ensures StringToNumber(s) == Some(DigitsValue(s))
  {
    DigitsTrim(s);
    DigitsParse(s);
  }

  /** A minus sign followed by digits is its own trim. */
  lemma NegativeTrim(d: string)
    requires AllDigits(d)
    ensures Trim("-" + d) == "-" + d
  {
    var s := "-" + d;
    forall i | 0 <= i < |s| ensures !IsSpace(s[i]) {
      if i > 0 {
        assert s[i] == d[i - 1];
        assert IsDigit(d[i - 1]);
      }
    }
    TrimNoSpace(s);
  }

  /** A minus sign followed by digits parses as the negated value. */
  lemma NegativeParse(d: string)
    requires |d| > 0 && AllDigits(d)
    ensures ParseInteger("-" + d) == Some(0 - DigitsValue(d) as int)
  {
    assert ("-" + d)[1..] == d;
  }

  lemma NegativeRoundTrip(n: int)
    requires n < 0
    ensures StringToNumber(ShowInt(n)) == Some(n)
  {
    var d := ShowNat(-n);
    NegativeTrim(d);
    NegativeParse(d);
  }

  /** The decimal text of an integer has no blanks to trim. */
  lemma ShowIntTrimmed(n: int)
    ensures Trim(ShowInt(n)) == ShowInt(n)
  {
    if n >= 0 {
      var d := ShowNat(n);
      assert ShowInt(n) == d;
      DigitsTrim(d);
    } else {
      var d := ShowNat(-n);
      assert ShowInt(n) == "-" + d;
      NegativeTrim(d);
    }
  }

  /** `Number(String(n)) == n`: the decimal text of every integer coerces
      back to that integer. */
  lemma ShowIntRoundTrip(n: int)
    ensures ToNumber(Str(ShowInt(n))) == Some(n)
  {
    if n >= 0 {
      DigitsToNumber(ShowNat(n));
    } else {
      NegativeRoundTrip(n);
    }
  }

  /** The decimal text of an integer is not blank and reads back as that
      integer. */
  lemma ShowIntSearchable(n: int)
    ensures Trim(ShowInt(n)) != "" && StringToNumber(ShowInt(n)) == Some(n)
  {
    ShowIntTrimmed(n);
    ShowIntRoundTrip(n);
  }

  /** A number as decimal text, which is how form inputs and numeric
      columns reach the handlers: it coerces back to the number. */
  function DecimalText(n: int): (v: Value)
    ensures v.Str? && ToNumber(v) == Some(n)
  {
    ShowIntRoundTrip(n);
    Str(ShowInt(n))
  }

  /** `String(v)`, which is what a template literal writes for `${v}`: a
      string as itself, `undefined` and `null` as their names, a number in
      decimal that coerces back to it. */
  function TemplateText(v: Value): (s: string)
    ensures v.Str? ==> s == v.s
    ensures v == Undefined ==> s == "undefined"
    ensures v == Null ==> s == "null"
    ensures v.Num? ==> ToNumber(Str(s)) == Some(v.n)
  {
    match v
    case Undefined => "undefined"
    case Null => "null"
    case Bool(b) => if b then "true" else "false"
    case Num(n) => ShowIntRoundTrip(n); ShowInt(n)
    case NaN => "NaN"
    case Str(s) => s
  }

  /** What a value reads back as after `JSON.stringify` and `JSON.parse`:
      `NaN` is written as `null`, everything else as itself. */
  function ThroughJson(v: Value): (r: Value)
    ensures r != NaN
    ensures v != NaN ==> r == v
  {
    if v == NaN then Null else v
  }

  /** `a > b` on two `Date` objects, `None` standing for an Invalid Date:
      the comparison is on the time values, and NaN compares false. */
  predicate DateAfter(a: Option<int>, b: Option<int>) {
    a.Some? && b.Some? && a.value > b.value
  }

  /** `a >= b` on two `Date` objects, false when either is invalid. */
  predicate DateAtOrAfter(a: Option<int>, b: Option<int>) {
    a.Some? && b.Some? && a.value >= b.value
  }
}
