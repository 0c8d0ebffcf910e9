/** The JavaScript values the screens handle, and the coercions they apply to them:
    truthiness, `??` and `||`, optional property access, and `String(v)` (which is also
    what a template literal does to an interpolated value). Numbers are integers. */
module Js {
  import opened Text

  datatype Option<+T> = None | Some(value: T)

  datatype Json =
    | Undefined
    | Null
    | Bool(b: bool)
    | Num(n: int)
    | Str(s: string)
    | Arr(elems: seq<Json>)
    | Obj(fields: map<string, Json>)

  /** A plain object as the API returns it: a missing key reads as `undefined`. */
  type Record = map<string, Json>

  predicate IsNullish(v: Json) {
    v.Undefined? || v.Null?
  }

  /** `false`, `0`, `""`, `null` and `undefined` are the falsy values (NaN is not modelled). */
  predicate IsFalsy(v: Json) {
    v.Undefined? || v.Null? || v == Bool(false) || v == Num(0) || v == Str("")
  }

  predicate IsTruthy(v: Json) {
    !IsFalsy(v)
  }

  /** `r[f]` on a plain object. */
  function Get(r: Record, f: string): Json {
    if f in r then r[f] else Undefined
  }

  /** `v?.f`: undefined on null/undefined, and on any value that is not an object. */
  function Prop(v: Json, f: string): (r: Json)
    ensures !v.Obj? ==> r == Undefined
  {
    if v.Obj? then Get(v.fields, f) else Undefined
  }

  /** `a ?? b` */
  function Coalesce(a: Json, b: Json): (r: Json)
    ensures IsNullish(a) ==> r == b
    ensures !IsNullish(a) ==> r == a
  {
    if IsNullish(a) then b else a
  }

  /** `a || b` */
  function Or(a: Json, b: Json): (r: Json)
    ensures IsTruthy(a) ==> r == a
    ensures IsFalsy(a) ==> r == b
  {
    if IsTruthy(a) then a else b
  }

  function DigitChar(d: nat): (c: char)
    requires d < 10
    ensures '0' <= c <= '9' && c as int - '0' as int == d
  {
    ('0' as int + d) as char
  }

  predicate IsDigit(c: char) {
    '0' <= c <= '9'
  }

  predicate AllDigits(s: string) {
    forall i :: 0 <= i < |s| ==> IsDigit(s[i])
  }

  /** The value of a string of decimal digits, most significant first. */
  function DigitsValue(s: string): nat
    requires AllDigits(s)
  {
    if s == [] then 0 else DigitsValue(s[..|s| - 1]) * 10 + (s[|s| - 1] as int - '0' as int)
  }

  function NatToString(n: nat): (s: string)
    ensures |s| >= 1
    ensures forall i :: 0 <= i < |s| ==> '0' <= s[i] <= '9'
  {
    if n < 10 then [DigitChar(n)] else NatToString(n / 10) + [DigitChar(n % 10)]
  }

  function IntToString(i: int): string {
    if i < 0 then "-" + NatToString(-i) else NatToString(i)
  }

  /** Reading back what `NatToString` writes gives the number. */
  lemma {:induction false} DigitsValueNatToString(n: nat)
    ensures DigitsValue(NatToString(n)) == n
  {
    if n >= 10 {
      DigitsValueNatToString(n / 10);
      var s := NatToString(n);
      assert s[..|s| - 1] == NatToString(n / 10);
    }
  }

  /** `Number(s)` for a text: surrounding whitespace ignored, "" is 0, an optionally signed
      run of decimal digits is its value; `None` stands for every other text (NaN, and the
      fractional, exponent and hexadecimal forms, which are not modelled). */
  function NumberOfString(s: string): (r: Option<int>)
    ensures AllWhitespace(s) ==> r == Some(0)
  {
    var t := Trim(s);
    if t == "" then Some(0)
    else if t[0] == '-' && |t| > 1 && AllDigits(t[1..]) then Some(-(DigitsValue(t[1..]) as int))
    else if t[0] == '+' && |t| > 1 && AllDigits(t[1..]) then Some(DigitsValue(t[1..]))
    else if AllDigits(t) then Some(DigitsValue(t))
    else None
  }

  lemma DigitIsNotWhitespace(c: char)
    requires IsDigit(c)
    ensures !IsWhitespace(c)
  {
  }

  lemma NumberOfDigits(n: nat, s: string)
    requires s == NatToString(n)
    ensures NumberOfString(s) == Some(n as int)
  {
    assert AllDigits(s);
    DigitIsNotWhitespace(s[0]);
    DigitIsNotWhitespace(s[|s| - 1]);
    TrimStartIdentity(s);
    TrimEndIdentity(s);
    DigitsValueNatToString(n);
    NumberOfUnsigned(s, n);
  }

  lemma NumberOfUnsigned(t: string, v: nat)
    requires t != [] && AllDigits(t) && DigitsValue(t) == v && TrimStart(t) == t && TrimEnd(t) == t
    ensures NumberOfString(t) == Some(v as int)
  {
    assert t[0] != '-' && t[0] != '+';
  }

  /** "-" followed by the digits of `v` reads as `-v`. */
  lemma NumberOfMinusDigits(digits: string, v: nat)
    requires digits != [] && AllDigits(digits) && DigitsValue(digits) == v
    ensures NumberOfString("-" + digits) == Some(-(v as int))
  {
    var s := "-" + digits;
    assert |s| > 1 && s[0] == '-' && s[1..] == digits;
    TrimStartIdentity(s);
    assert s[|s| - 1] == digits[|digits| - 1];
    DigitIsNotWhitespace(digits[|digits| - 1]);
    TrimEndIdentity(s);
    NumberOfSigned(s, digits, v);
  }

  lemma NumberOfSigned(t: string, digits: string, v: nat)
    requires |t| > 1 && t[0] == '-' && t[1..] == digits && TrimStart(t) == t && TrimEnd(t) == t
    requires AllDigits(digits) && DigitsValue(digits) == v
    ensures NumberOfString(t) == Some(-(v as int))
  {
  }

  /** `Number(String(n)) === n` for every integer. */
  lemma NumberOfIntToString(n: int)
    ensures NumberOfString(IntToString(n)) == Some(n)
  {
    if n < 0 {
      DigitsValueNatToString(-n);
      NumberOfMinusDigits(NatToString(-n), -n);
    } else {
      NumberOfDigits(n, IntToString(n));
    }
  }

  /** `String(v)`, and the text a template literal `${v}` inserts. Arrays join their
      elements with ",", writing null and undefined elements as "". */
  function ToStr(v: Json): string
    decreases v, 1
  {
    match v
    case Undefined => "undefined"
    case Null => "null"
    case Bool(b) => if b then "true" else "false"
    case Num(n) => IntToString(n)
    case Str(s) => s
    case Arr(es) => JoinFrom(v, 0)
    case Obj(_) => "[object Object]"
  }

  /** The elements of the array `v` from index `i` on, as `Array.prototype.join(",")` writes them. */
  function JoinFrom(v: Json, i: nat): string
    requires v.Arr? && i <= |v.elems|
    decreases v, 0, |v.elems| - i
  {
    if i == |v.elems| then ""
    else
      var e := v.elems[i];
      var text := if IsNullish(e) then "" else ToStr(e);
      if i + 1 == |v.elems| then text else text + "," + JoinFrom(v, i + 1)
  }

  /** `String(v ?? "")`: null and undefined become "", anything else its string form. */
  function NullishToEmpty(v: Json): (s: string)
    ensures IsNullish(v) ==> s == ""
    ensures v.Str? ==> s == v.s
  {
    if IsNullish(v) then "" else ToStr(v)
  }

  /** `String(v || "")`: every falsy value becomes "". */
  function FalsyToEmpty(v: Json): (s: string)
    ensures IsFalsy(v) ==> s == ""
    ensures v.Str? ==> s == v.s
  {
    if IsFalsy(v) then "" else ToStr(v)
  }

  /** `String(v || "")` and `String(v ?? "")` differ exactly on `false` and `0`. */
  lemma FalsyVersusNullish(v: Json)
    ensures FalsyToEmpty(v) != NullishToEmpty(v) <==> v == Bool(false) || v == Num(0)
  {
    if v == Num(0) {
      assert NullishToEmpty(v) == "0";
    }
  }
}
