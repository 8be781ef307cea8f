/**
 The pieces of JavaScript semantics the controllers and pages rely on:
 truthiness of request-body values, `Number()` / `parseFloat()` and the
 comparisons made on their results, ASCII case folding (`toLowerCase`),
 `trim` and substring search (`includes`, a literal `$regex` with option `i`).
 */
module Js {
  import opened Options

  /** A JSON scalar as it arrives in a request body, or `undefined` when absent. */
  datatype Value = Undefined | Null | Bool(b: bool) | Num(n: real) | Str(s: string)

  /** JS truthiness: `undefined`, `null`, `false`, `0` and `""` are falsy. */
  predicate Truthy(v: Value) {
    match v
    case Undefined => false
    case Null => false
    case Bool(b) => b
    case Num(n) => n != 0.0
    case Str(s) => |s| > 0
  }

  /** `a || b` */
  function Or(a: Value, b: Value): Value {
    if Truthy(a) then a else b
  }

  /** `a || b` on two values: the first truthy one, else the second. */
  lemma OrPicksFirstTruthy(a: Value, b: Value)
    ensures Truthy(a) ==> Or(a, b) == a
    ensures !Truthy(a) ==> Or(a, b) == b
    ensures Truthy(Or(a, b)) <==> Truthy(a) || Truthy(b)
  {
  }

  // ---------------------------------------------------------------------
  // Numbers

  /** An IEEE double as far as the comparisons in the source can tell. */
  datatype Number = Finite(r: real) | NaN | Infinity | NegInfinity

  /** `String(v)` as a schema's String cast applies it; `undefined` and
      `null` are no string at all. How a number is written out is a parameter. */
  function StringOf(v: Value, renderNumber: real -> string): (r: Option<string>)
    ensures r.None? <==> v == Undefined || v == Null
    ensures v.Str? ==> r == Some(v.s)
  {
    match v
    case Undefined => None
    case Null => None
    case Bool(b) => Some(if b then "true" else "false")
    case Num(n) => Some(renderNumber(n))
    case Str(s) => Some(s)
  }

  /** JS `x <= 0`; every comparison with NaN is false. */
  predicate AtMostZero(x: Number) {
    match x
    case Finite(r) => r <= 0.0
    case NaN => false
    case Infinity => false
    case NegInfinity => true
  }

  /** How the runtime reads a string as a number. Decimal parsing is not
      part of this model, so both readings are parameters. */
  datatype NumberParsing = NumberParsing(number: string -> Number, parseFloat: string -> Number)

  /** `Number(v)`, the conversion `isNaN(v)` applies. */
  function ToNumber(v: Value, np: NumberParsing): Number {
    match v
    case Undefined => NaN
    case Null => Finite(0.0)
    case Bool(b) => if b then Finite(1.0) else Finite(0.0)
    case Num(n) => Finite(n)
    case Str(s) => np.number(s)
  }

  /** `parseFloat(v)`, which reads `String(v)`: "undefined", "null", "true"
      and "false" have no numeric prefix. */
  function ParseFloat(v: Value, np: NumberParsing): Number {
    match v
    case Num(n) => Finite(n)
    case Str(s) => np.parseFloat(s)
    case _ => NaN
  }

  /** JS `isNaN(v) || parseFloat(v) <= 0`: the weight guard of the pet controller. */
  predicate NotPositiveNumber(v: Value, np: NumberParsing) {
    ToNumber(v, np).NaN? || AtMostZero(ParseFloat(v, np))
  }

  /** For a JSON number the guard is exactly "not greater than zero"; for
      `true` it lets the value through although `parseFloat(true)` is NaN. */
  lemma NotPositiveNumberCases(v: Value, np: NumberParsing)
    ensures v.Num? ==> (NotPositiveNumber(v, np) <==> v.n <= 0.0)
    ensures v == Bool(true) ==> !NotPositiveNumber(v, np) && ParseFloat(v, np).NaN?
    ensures v == Undefined ==> NotPositiveNumber(v, np)
  {
  }

  // ---------------------------------------------------------------------
  // Characters and strings

  predicate IsUpper(c: char) { 'A' <= c <= 'Z' }
  predicate IsLower(c: char) { 'a' <= c <= 'z' }
  predicate IsDigit(c: char) { '0' <= c <= '9' }
  predicate IsAlphanumeric(c: char) { IsUpper(c) || IsLower(c) || IsDigit(c) }

  /** `toLowerCase` on one character; only ASCII letters are folded here. */
  function LowerChar(c: char): (r: char)
    ensures !IsUpper(r)
    ensures IsUpper(c) ==> r as int == c as int + 32
    ensures !IsUpper(c) ==> r == c
  {
    if IsUpper(c) then (c as int + 32) as char else c
  }

  /** `s.toLowerCase()` */
  function Lower(s: string): (r: string)
    ensures |r| == |s|
    ensures forall i :: 0 <= i < |s| ==> r[i] == LowerChar(s[i])
  {
    seq(|s|, i requires 0 <= i < |s| => LowerChar(s[i]))
  }

  /** Lower-casing twice is lower-casing once, and it distributes over `+`. */
  lemma LowerIdempotent(s: string)
    ensures Lower(Lower(s)) == Lower(s)
  {
  }

  /** A string without upper-case letters is its own lower-casing. */
  lemma LowerFixed(s: string)
    requires forall k :: 0 <= k < |s| ==> !IsUpper(s[k])
    ensures Lower(s) == s
  {
    assert forall k :: 0 <= k < |s| ==> Lower(s)[k] == s[k];
  }

  lemma LowerConcat(a: string, b: string)
    ensures Lower(a + b) == Lower(a) + Lower(b)
  {
  }

  /** ECMAScript WhiteSpace and LineTerminator code points, which `trim` removes. */
  predicate IsSpace(c: char) {
    c == ' ' || c == '\t' || c == '\n' || c == '\r'
    || c as int in {0x0B, 0x0C, 0xA0, 0x1680, 0x2028, 0x2029, 0x202F, 0x205F, 0x3000, 0xFEFF}
    || 0x2000 <= c as int <= 0x200A
  }

  function TrimStart(s: string): (r: string)
    ensures |r| <= |s| && r == s[|s| - |r|..]
    ensures forall i :: 0 <= i < |s| - |r| ==> IsSpace(s[i])
    ensures |r| > 0 ==> !IsSpace(r[0])
  {
    if |s| > 0 && IsSpace(s[0]) then TrimStart(s[1..]) else s
  }

  function TrimEnd(s: string): (r: string)
    ensures |r| <= |s| && r == s[..|r|]
    ensures forall i :: |r| <= i < |s| ==> IsSpace(s[i])
    ensures |r| > 0 ==> !IsSpace(r[|r| - 1])
  {
    if |s| > 0 && IsSpace(s[|s| - 1]) then TrimEnd(s[..|s| - 1]) else s
  }

  /** `s.trim()`: a slice of `s` that neither starts nor ends with white space,
      where everything cut off on either side is white space. */
  function Trim(s: string): (r: string)
    ensures |r| > 0 ==> !IsSpace(r[0]) && !IsSpace(r[|r| - 1])
    ensures exists i {:trigger s[i..]} :: 0 <= i <= |s| - |r| && r == s[i..i + |r|]
              && (forall k :: 0 <= k < i ==> IsSpace(s[k]))
              && (forall k :: i + |r| <= k < |s| ==> IsSpace(s[k]))
  {
    var t := TrimStart(s);
    var r := TrimEnd(t);
    var i := |s| - |t|;
    assert r == s[i..i + |r|];
    r
  }

  /** Every character of a trimmed string comes from the original. */
  lemma TrimChars(s: string)
    ensures forall k :: 0 <= k < |Trim(s)| ==> Trim(s)[k] in s
  {
    var t := TrimStart(s);
    var r := TrimEnd(t);
    forall k | 0 <= k < |r|
      ensures r[k] in s
    {
      assert r[k] == t[k] == s[|s| - |t| + k];
    }
  }


  /** Neither starts nor ends with white space. */
  predicate Trimmed(s: string) {
    |s| > 0 ==> !IsSpace(s[0]) && !IsSpace(s[|s| - 1])
  }

  /** Trimmed strings are exactly the ones `trim` leaves alone. */
  lemma TrimmedIsFixedPoint(s: string)
    ensures Trimmed(s) <==> Trim(s) == s
  {
    if Trimmed(s) && |s| > 0 {
      assert TrimStart(s) == s;
      assert TrimEnd(s) == s;
    }
  }

  /** Trimming a trimmed string changes nothing (the Pet schema trims again
      what the controller already trimmed). */
  lemma TrimIdempotent(s: string)
    ensures Trim(Trim(s)) == Trim(s)
  {
    var t := Trim(s);
    if |t| > 0 {
      assert TrimStart(t) == t;
      assert TrimEnd(t) == t;
    }
  }

  /** `hay.includes(needle)`, and a `$regex` query read as a literal substring. */
  predicate Contains(hay: string, needle: string) {
    exists i | 0 <= i <= |hay| :: needle <= hay[i..]
  }

  /** `$regex` with option `i` (literal pattern), or `a.toLowerCase().includes(b.toLowerCase())`. */
  predicate ContainsIgnoringCase(hay: string, needle: string) {
    Contains(Lower(hay), Lower(needle))
  }

  /** The empty string occurs everywhere; a longer string never occurs in a shorter one. */
  lemma ContainsBasics(hay: string, needle: string)
    ensures Contains(hay, "")
    ensures |needle| > |hay| ==> !Contains(hay, needle)
  {
    assert "" <= hay[0..];
  }

  /** Decimal rendering of a natural number (template-literal interpolation). */
  function NatToString(n: nat): (r: string)
    ensures |r| > 0
    ensures forall i :: 0 <= i < |r| ==> IsDigit(r[i])
  {
    if n < 10 then [DigitChar(n)] else NatToString(n / 10) + [DigitChar(n % 10)]
  }

  function DigitChar(d: nat): (c: char)
    requires d < 10
    ensures IsDigit(c)
  {
    ('0' as int + d) as char
  }
}
