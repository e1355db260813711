/**
 * The few JavaScript value semantics the link store depends on: the values
 * the Redis double keeps, their truthiness, parseInt with radix 10 and
 * String() of an integer (ECMAScript 2023, sections 19.2.5 and 6.1.6.1.20).
 */
module JsValues {
  import opened Wrappers

  /** A JavaScript number as parseInt and `+ 1` produce it; only integers occur here. */
  datatype Number = Finite(n: int) | NaN

  /** A value held by the store: a string, or the number literal the server writes. */
  datatype Value = Str(s: string) | Num(n: int)

  /** JavaScript truthiness: "" and 0 are falsy, every other string and number is truthy. */
  predicate Truthy(v: Value) {
    match v
    case Str(s) => s != ""
    case Num(n) => n != 0
  }

  /** Truthiness of a lookup that may have returned null. */
  predicate Present(v: Option<Value>) {
    v.Some? && Truthy(v.value)
  }

  predicate IsDigit(c: char) {
    '0' <= c <= '9'
  }

  /** WhiteSpace and LineTerminator code points, which parseInt skips at the front. */
  predicate IsSpace(c: char) {
    c == '\t' || c == '\U{000B}' || c == '\U{000C}' || c == ' ' || c == '\U{00A0}' || c == '\U{FEFF}'
    || c == '\n' || c == '\r' || c == '\U{2028}' || c == '\U{2029}'
    || c == '\U{1680}' || ('\U{2000}' <= c <= '\U{200A}') || c == '\U{202F}' || c == '\U{205F}' || c == '\U{3000}'
  }

  function DigitChar(d: nat): (c: char)
    requires d < 10
    ensures IsDigit(c)
  {
    ('0' as int + d) as char
  }

  function DigitValue(c: char): nat
    requires IsDigit(c)
  {
    c as int - '0' as int
  }

  predicate AllDigits(s: string) {
    forall i :: 0 <= i < |s| ==> IsDigit(s[i])
  }

  /** The value of a run of decimal digits, most significant first. */
  function DigitsValue(ds: string): nat
    requires AllDigits(ds)
  {
    if ds == [] then 0 else DigitsValue(ds[..|ds| - 1]) * 10 + DigitValue(ds[|ds| - 1])
  }

  /** The length of the longest prefix of `s` made of decimal digits. */
  function DigitRun(s: string): (k: nat)
    ensures k <= |s| && AllDigits(s[..k])
    ensures k < |s| ==> !IsDigit(s[k])
  {
    if s == [] || !IsDigit(s[0]) then 0
    else
      var k := 1 + DigitRun(s[1..]);
      assert s[..k] == [s[0]] + s[1..][..k - 1];
      k
  }

  /** `s` without its leading white space. */
  function TrimStart(s: string): (t: string)
    ensures t == [] || !IsSpace(t[0])
    ensures |t| <= |s| && t == s[|s| - |t|..]
  {
    if s != [] && IsSpace(s[0]) then TrimStart(s[1..]) else s
  }

  /** The value of the digits at the front of `u`, NaN if there are none. */
  function ParseUnsigned(u: string): Number {
    var k := DigitRun(u);
    if k == 0 then NaN else Finite(DigitsValue(u[..k]))
  }

  function Negate(x: Number): Number {
    match x
    case Finite(n) => Finite(-n)
    case NaN => NaN
  }

  /** parseInt(s, 10): skip white space, read an optional sign, then the leading digits. */
  function ParseInt10(s: string): Number {
    var t := TrimStart(s);
    if t != [] && t[0] == '-' then Negate(ParseUnsigned(t[1..]))
    else if t != [] && t[0] == '+' then ParseUnsigned(t[1..])
    else ParseUnsigned(t)
  }

  /** The decimal digits of n, without leading zeros. */
  function Digits(n: nat): string {
    if n < 10 then [DigitChar(n)] else Digits(n / 10) + [DigitChar(n % 10)]
  }

  /** String(n) for an integer n. */
  function DecimalString(n: int): string {
    if n < 0 then "-" + Digits(-n) else Digits(n)
  }

  /** String(x) for a number. */
  function NumberText(x: Number): string {
    match x
    case Finite(n) => DecimalString(n)
    case NaN => "NaN"
  }

  /** String(v) for a stored value. */
  function ValueText(v: Value): string {
    match v
    case Str(s) => s
    case Num(n) => DecimalString(n)
  }

  /** `x + 1` on a number. */
  function Plus1(x: Number): Number {
    match x
    case Finite(n) => Finite(n + 1)
    case NaN => NaN
  }

  lemma {:induction false} DigitsAreDigits(n: nat)
    ensures Digits(n) != [] && AllDigits(Digits(n))
    ensures DigitsValue(Digits(n)) == n
  {
    if n >= 10 {
      DigitsAreDigits(n / 10);
      var ds := Digits(n);
      assert ds[..|ds| - 1] == Digits(n / 10);
    }
  }

  /** A non-empty digit run parses to its value. */
  lemma ParseUnsignedRun(ds: string)
    requires ds != [] && AllDigits(ds)
    ensures ParseUnsigned(ds) == Finite(DigitsValue(ds))
  {
    assert DigitRun(ds) == |ds|;
    assert ds[..|ds|] == ds;
  }

  /** A non-empty digit run parses to its value. */
  lemma ParseDigitRun(ds: string)
    requires ds != [] && AllDigits(ds)
    ensures ParseInt10(ds) == Finite(DigitsValue(ds))
  {
    ParseUnsignedRun(ds);
    var c := ds[0];
    assert IsDigit(c);
    assert !IsSpace(c) && c != '-' && c != '+';
    assert TrimStart(ds) == ds;
  }

  /** A minus sign in front of a non-empty digit run negates its value. */
  lemma ParseNegativeRun(ds: string)
    requires ds != [] && AllDigits(ds)
    ensures ParseInt10("-" + ds) == Finite(-(DigitsValue(ds) as int))
  {
    ParseUnsignedRun(ds);
    var t := "-" + ds;
    assert TrimStart(t) == t by { assert !IsSpace(t[0]); }
    assert t[1..] == ds;
  }

  /** parseInt(String(n), 10) gives n back, for every integer n. */
  lemma ParseDecimalRoundTrip(n: int)
    ensures ParseInt10(DecimalString(n)) == Finite(n)
  {
    var m := if n < 0 then -n else n;
    DigitsAreDigits(m);
    if n < 0 {
      ParseNegativeRun(Digits(m));
    } else {
      ParseDigitRun(Digits(m));
    }
  }

  /** Once a counter text reads NaN it stays NaN. */
  lemma NaNStays()
    ensures ParseInt10(NumberText(NaN)) == NaN
  {
    assert TrimStart("NaN") == "NaN" by { assert !IsSpace('N'); }
    assert DigitRun("NaN") == 0 by { assert !IsDigit('N'); }
  }

  /** parseInt ignores leading white space. */
  lemma ParseSkipsSpace(c: char, s: string)
    requires IsSpace(c)
    ensures ParseInt10([c] + s) == ParseInt10(s)
  {
    assert ([c] + s)[1..] == s;
  }
}
