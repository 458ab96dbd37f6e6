/**
 The JavaScript values a form buffer holds, and the few JavaScript coercions the
 console's decisions depend on: `Number(v)`, `<` and `<=` against a number,
 `String(v) === 'true'`, `toLowerCase()` and `trim()`.
 */
module Values {

  datatype Option<+T> = None | Some(value: T) {

    /** `x ?? default` */
    function GetOr(default: T): T {
      if Some? then value else default
    }
  }

  /** A JavaScript number: finite, one of the two infinities, or NaN. */
  datatype JsNumber = Finite(x: real) | PosInfinity | NegInfinity | NaN

  /** A value stored under one key of a form. `''` is `Str("")`; `Obj` stands for
      a nested record or list (a related entity or a list of them). */
  datatype Value =
    | Undefined
    | Null
    | Num(n: JsNumber)
    | Str(s: string)
    | Bool(b: bool)
    | Obj

  /** A form buffer, an entity as received from the server, or a payload. */
  type Form = map<string, Value>

  /** Property access: a missing key reads as `undefined`. */
  function Get(form: Form, key: string): Value {
    if key in form then form[key] else Undefined
  }

  /** `Number(v)`. The conversion of a string is the given `parse`
      (JavaScript's StringToNumber); plain objects convert to NaN. */
  function ToNumber(v: Value, parse: string -> JsNumber): JsNumber {
    match v
    case Undefined => NaN
    case Null => Finite(0.0)
    case Num(n) => n
    case Str(s) => parse(s)
    case Bool(b) => Finite(if b then 1.0 else 0.0)
    case Obj => NaN
  }

  /** `n < m` for a finite right operand: false whenever `n` is NaN. */
  predicate Below(n: JsNumber, m: real) {
    match n
    case Finite(x) => x < m
    case NegInfinity => true
    case PosInfinity => false
    case NaN => false
  }

  /** `n <= m` for a finite right operand: false whenever `n` is NaN. */
  predicate AtMost(n: JsNumber, m: real) {
    match n
    case Finite(x) => x <= m
    case NegInfinity => true
    case PosInfinity => false
    case NaN => false
  }

  /** The values the console treats as "no value": undefined, null and `''`. */
  predicate IsBlank(v: Value) {
    v == Undefined || v == Null || v == Str("")
  }

  /** `String(v) === 'true'` */
  predicate StringIsTrue(v: Value) {
    v == Bool(true) || v == Str("true")
  }

  // ---------------------------------------------------------------------------
  // toLowerCase (ASCII letters)

  function LowerChar(c: char): char {
    if 'A' <= c <= 'Z' then (c as int + 32) as char else c
  }

  /** `s.toLowerCase()`, restricted to the ASCII letters. */
  function Lower(s: string): (r: string)
    ensures |r| == |s|
    ensures forall i :: 0 <= i < |s| ==> r[i] == LowerChar(s[i])
  {
    if s == [] then [] else [LowerChar(s[0])] + Lower(s[1..])
  }

  predicate IsLowerAsciiWord(w: string) {
    forall i :: 0 <= i < |w| ==> 'a' <= w[i] <= 'z'
  }

  /** `s` spells `w` with any letters in either case. */
  predicate SpellsIgnoringCase(s: string, w: string) {
    |s| == |w| && forall i :: 0 <= i < |s| ==> s[i] == w[i] || s[i] as int == w[i] as int - 32
  }

  /** Comparing a lowered role with a lower-case literal is a case-insensitive
      comparison: "CLIENTE", "Cliente" and "cliente" all match `cliente`. */
  lemma LowerMatchesLiteral(s: string, w: string)
    requires IsLowerAsciiWord(w)
    ensures Lower(s) == w <==> SpellsIgnoringCase(s, w)
  {
    if Lower(s) == w {
      forall i | 0 <= i < |s|
        ensures s[i] == w[i] || s[i] as int == w[i] as int - 32
      {
        assert Lower(s)[i] == LowerChar(s[i]);
      }
    }
    if SpellsIgnoringCase(s, w) {
      forall i | 0 <= i < |s|
        ensures Lower(s)[i] == w[i]
      {
        assert LowerChar(s[i]) == w[i];
      }
    }
  }

  // ---------------------------------------------------------------------------
  // trim

  /** The characters `String.prototype.trim` removes: the ECMAScript WhiteSpace
      and LineTerminator code points. */
  predicate IsJsWhitespace(c: char) {
    || c == '\t' || c == '\n' || c == '\U{000B}' || c == '\U{000C}' || c == '\r'
    || c == ' ' || c == '\U{00A0}' || c == '\U{1680}'
    || ('\U{2000}' <= c <= '\U{200A}')
    || c == '\U{2028}' || c == '\U{2029}' || c == '\U{202F}' || c == '\U{205F}'
    || c == '\U{3000}' || c == '\U{FEFF}'
  }

  predicate AllWhitespace(s: string) {
    forall i :: 0 <= i < |s| ==> IsJsWhitespace(s[i])
  }

  /** Drops the leading whitespace: the result is a suffix of `s` that is empty
      or starts with a non-whitespace character, and everything dropped was whitespace. */
  function TrimStart(s: string): (r: string)
    ensures |r| <= |s| && r == s[|s| - |r|..]
    ensures r != [] ==> !IsJsWhitespace(r[0])
    ensures AllWhitespace(s[..|s| - |r|])
  {
    if s != [] && IsJsWhitespace(s[0]) then TrimStart(s[1..]) else s
  }

  /** Drops the trailing whitespace: the result is a prefix of `s` that is empty
      or ends with a non-whitespace character, and everything dropped was whitespace. */
  function TrimEnd(s: string): (r: string)
    ensures |r| <= |s| && r == s[..|r|]
    ensures r != [] ==> !IsJsWhitespace(r[|r| - 1])
    ensures AllWhitespace(s[|r|..])
  {
    if s != [] && IsJsWhitespace(s[|s| - 1]) then TrimEnd(s[..|s| - 1]) else s
  }

  /** `s.trim()` */
  function Trim(s: string): string {
    TrimEnd(TrimStart(s))
  }

  /** `!s.trim()` holds exactly for the strings made only of whitespace
      (the empty string included). */
  lemma TrimEmptyIffWhitespace(s: string)
    ensures Trim(s) == "" <==> AllWhitespace(s)
  {
    var t := TrimStart(s);
    if Trim(s) == "" {
      assert AllWhitespace(t[0..]);
      assert t == [];
      assert s[..|s|] == s;
    }
  }
}
