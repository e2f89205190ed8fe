/** The JavaScript values the front end receives from parsed JSON responses (its `unknown`
    and `any`), and the few language operations the core applies to them: truthiness, `||`,
    `??`, property access, `String(v)`, `Number(v)`, `trim` and `toUpperCase`. */
module Js {

  datatype Option<+T> = None | Some(value: T) {
    /** The value, or `default` when there is none (the source's `?? default`). */
    function GetOr(default: T): T { if Some? then value else default }

    /** The first of `this` and `other` that holds a value. */
    function OrElse(other: Option<T>): Option<T> { if Some? then this else other }
  }

  /** The position of the first element satisfying `p`, or |s| when there is none. */
  function FirstWhere<T>(s: seq<T>, p: T -> bool): (k: nat)
    ensures k <= |s|
    ensures k < |s| ==> p(s[k])
    ensures forall i :: 0 <= i < k ==> !p(s[i])
  {
    if s == [] then 0
    else if p(s[0]) then 0
    else
      var k := FirstWhere(s[1..], p);
      assert forall i :: 1 <= i <= k ==> s[i] == s[1..][i - 1];
      1 + k
  }

  /** A finite number written in decimal notation: mantissa / 10^places. Every number a JSON
      text can denote is of this kind. */
  datatype Decimal = Decimal(mantissa: int, places: nat)

  /** A JavaScript number: finite, NaN, or an infinity. */
  datatype Num = Finite(d: Decimal) | NaN | Infinite(negative: bool)

  /** A JavaScript value as the core sees it. An object is its own enumerable properties. */
  datatype Value =
    | Undefined
    | Null
    | Bool(b: bool)
    | Number(n: Num)
    | Str(s: string)
    | Arr(items: seq<Value>)
    | Obj(fields: map<string, Value>)

  function Pow10(n: nat): (r: nat)
    ensures r >= 1
  {
    if n == 0 then 1 else 10 * Pow10(n - 1)
  }

  /** The mathematical value of a decimal. */
  function RealOf(d: Decimal): real
  {
    d.mantissa as real / Pow10(d.places) as real
  }

  function Zero(): Num { Finite(Decimal(0, 0)) }

  /** JavaScript truthiness: false, 0, NaN, "", null and undefined are falsy. */
  predicate Truthy(v: Value)
  {
    match v
    case Undefined => false
    case Null => false
    case Bool(b) => b
    case Number(n) => (n.Finite? && n.d.mantissa != 0) || n.Infinite?
    case Str(s) => s != ""
    case Arr(_) => true
    case Obj(_) => true
  }

  predicate Nullish(v: Value) { v.Undefined? || v.Null? }

  /** `a || b`. */
  function Or(a: Value, b: Value): Value
  {
    if Truthy(a) then a else b
  }

  /** `a ?? b`. */
  function Coalesce(a: Value, b: Value): Value
  {
    if Nullish(a) then b else a
  }

  /** `value && typeof value === 'object'`: the values the source's `toRecord` keeps. */
  predicate IsObject(v: Value) { v.Arr? || v.Obj? }

  /** What an awaited call settles to: the value it returned, or what it threw (an `Error` with
      its message, or any other value). */
  datatype Thrown = ErrorObject(message: string) | NonError
  datatype Outcome<+T> = Returned(value: T) | Threw(thrown: Thrown)

  /** `e instanceof Error ? e.message : fallback`. */
  function ErrorText(e: Thrown, fallback: string): (r: string)
    ensures e.ErrorObject? ==> r == e.message
    ensures e.NonError? ==> r == fallback
  {
    if e.ErrorObject? then e.message else fallback
  }

  /** `toRecord(v)[key]`, and `v?.[key]` on a value that is not nullish: the property of an
      object, undefined for everything else. On an array it is undefined too, because none of
      the keys the core reads is "length" or an index. */
  function Get(v: Value, key: string): Value
  {
    if v.Obj? && key in v.fields then v.fields[key] else Undefined
  }

  /** `v.key` as an expression: a TypeError on null or undefined, in V8's wording, and the
      property's value (undefined when absent) on anything else. */
  function ReadProperty(v: Value, key: string): (r: Outcome<Value>)
    ensures r.Threw? <==> Nullish(v)
    ensures r.Returned? ==> r.value == Get(v, key)
    ensures r.Threw? ==> r.thrown.ErrorObject? && r.thrown.message != ""
  {
    if Nullish(v) then
      Threw(ErrorObject("Cannot read properties of " + (if v.Null? then "null" else "undefined")
        + " (reading '" + key + "')"))
    else Returned(Get(v, key))
  }

  /** `Array.isArray(v) ? v[index] : null` with JavaScript's out-of-range read. */
  function ArrayAt(v: Value, index: nat): Value
  {
    if !v.Arr? then Null
    else if index < |v.items| then v.items[index]
    else Undefined
  }

  // ---------------------------------------------------------------------------------------
  // Strings

  /** The characters `String.prototype.trim` removes: WhiteSpace and LineTerminator. */
  predicate IsSpace(c: char)
  {
    || c == '\t' || c == '\n' || c == '\U{B}' || c == '\U{C}' || c == '\r' || c == ' '
    || c == '\U{A0}' || c == '\U{1680}' || ('\U{2000}' <= c <= '\U{200A}')
    || c == '\U{2028}' || c == '\U{2029}' || c == '\U{202F}' || c == '\U{205F}'
    || c == '\U{3000}' || c == '\U{FEFF}'
  }

  function TrimStart(s: string): (r: string)
    ensures |r| <= |s| && r == s[|s| - |r|..]
    ensures r != [] ==> !IsSpace(r[0])
    ensures forall i :: 0 <= i < |s| - |r| ==> IsSpace(s[i])
  {
    if s != [] && IsSpace(s[0]) then TrimStart(s[1..]) else s
  }

  function TrimEnd(s: string): (r: string)
    ensures |r| <= |s| && r == s[..|r|]
    ensures r != [] ==> !IsSpace(r[|r| - 1])
    ensures forall i :: |r| <= i < |s| ==> IsSpace(s[i])
  {
    if s != [] && IsSpace(s[|s| - 1]) then TrimEnd(s[..|s| - 1]) else s
  }

  /** `r` is the slice of `s` from `a` on, with only white space before it and after it. */
  predicate TrimmedAt(s: string, a: int, r: string)
  {
    && 0 <= a <= |s| - |r| && r == s[a..a + |r|]
    && (forall i :: 0 <= i < a ==> IsSpace(s[i]))
    && (forall i :: a + |r| <= i < |s| ==> IsSpace(s[i]))
  }

  /** `s.trim()`: `s` without its leading and trailing white space. */
  function Trim(s: string): (r: string)
    ensures |r| <= |s|
    ensures r != [] ==> !IsSpace(r[0]) && !IsSpace(r[|r| - 1])
    ensures r == [] <==> forall i :: 0 <= i < |s| ==> IsSpace(s[i])
  {
    var t := TrimStart(s);
    TrimEnd(t)
  }

  /** What `s.trim()` returns is a slice of `s` with only white space cut from either end. */
  lemma TrimSlice(s: string)
    ensures exists a :: TrimmedAt(s, a, Trim(s))
  {
    var t := TrimStart(s);
    TrimEndOfSuffix(s, t, TrimEnd(t));
    assert TrimmedAt(s, |s| - |t|, Trim(s));
  }

  lemma TrimEndOfSuffix(s: string, t: string, r: string)
    requires |t| <= |s| && t == s[|s| - |t|..]
    requires forall i :: 0 <= i < |s| - |t| ==> IsSpace(s[i])
    requires |r| <= |t| && r == t[..|r|]
    requires forall i :: |r| <= i < |t| ==> IsSpace(t[i])
    ensures TrimmedAt(s, |s| - |t|, r)
  {
    var a := |s| - |t|;
    assert forall i :: a + |r| <= i < |s| ==> s[i] == t[i - a];
  }

  /** A string that starts and ends with a character other than white space is its own trim. */
  lemma TrimOfTrimmed(s: string)
    requires s == [] || (!IsSpace(s[0]) && !IsSpace(s[|s| - 1]))
    ensures Trim(s) == s
  {
  }

  /** Upper case of one character, as `toUpperCase` gives it for ASCII letters and for the
      non-ASCII characters whose upper case is ASCII; every other character is kept. */
  function UpperChar(c: char): string
  {
    if 'a' <= c <= 'z' then [(c as int - 32) as char]
    else if c == '\U{131}' then "I"
    else if c == '\U{17F}' then "S"
    else if c == '\U{DF}' then "SS"
    else if c == '\U{FB00}' then "FF"
    else if c == '\U{FB01}' then "FI"
    else if c == '\U{FB02}' then "FL"
    else if c == '\U{FB03}' then "FFI"
    else if c == '\U{FB04}' then "FFL"
    else if c == '\U{FB05}' || c == '\U{FB06}' then "ST"
    else [c]
  }

  /** `s.toUpperCase()` (see UpperChar for the characters it covers). */
  function ToUpper(s: string): (r: string)
    ensures |r| >= |s|
  {
    if s == [] then [] else UpperChar(s[0]) + ToUpper(s[1..])
  }

  /** On ASCII letters and digits upper-casing maps each lower-case letter to its capital and
      keeps every other character. */
  lemma {:induction false} ToUpperLetters(s: string)
    requires forall i :: 0 <= i < |s| ==> 'a' <= s[i] <= 'z' || 'A' <= s[i] <= 'Z' || '0' <= s[i] <= '9'
    ensures |ToUpper(s)| == |s|
    ensures forall i :: 0 <= i < |s| ==>
      ToUpper(s)[i] == if 'a' <= s[i] <= 'z' then (s[i] as int - 32) as char else s[i]
  {
    if s != [] {
      ToUpperLetters(s[1..]);
    }
  }

  predicate IsPrefix(p: string, s: string) { |p| <= |s| && s[..|p|] == p }

  /** `s.includes(sub)`. */
  predicate Contains(s: string, sub: string)
  {
    IsPrefix(sub, s) || (s != [] && Contains(s[1..], sub))
  }

  /** `s.slice(-n)`: the last n characters, or all of `s` when it is shorter. */
  function SliceLast(s: string, n: nat): (r: string)
    ensures |r| == if |s| < n then |s| else n
    ensures r == s[|s| - |r|..]
  {
    if |s| <= n then s else s[|s| - n..]
  }

  // ---------------------------------------------------------------------------------------
  // Number to string: String(n)

  function Digit(n: nat): char
    requires n < 10
  {
    "0123456789"[n]
  }

  predicate IsDigit(c: char) { '0' <= c <= '9' }

  /** The decimal digits of n without leading zeros. */
  function NatText(n: nat): (s: string)
    ensures |s| > 0 && forall i :: 0 <= i < |s| ==> IsDigit(s[i])
  {
    if n < 10 then [Digit(n)] else NatText(n / 10) + [Digit(n % 10)]
  }

  /** `String(n)` for an integer n. */
  function IntText(n: int): (s: string)
    ensures |s| > 0 && (s[0] == '-' || IsDigit(s[0]))
  {
    if n < 0 then "-" + NatText(-n) else NatText(n)
  }

  /** The same decimal with every trailing zero after the decimal point dropped. */
  function Reduced(d: Decimal): (r: Decimal)
    ensures r.places <= d.places
    ensures r.places > 0 ==> r.mantissa % 10 != 0
    decreases d.places
  {
    if d.places > 0 && d.mantissa % 10 == 0 then Reduced(Decimal(d.mantissa / 10, d.places - 1)) else d
  }

  function ZeroPad(s: string, width: nat): (r: string)
    ensures |r| >= width && |r| >= |s|
    ensures r[|r| - |s|..] == s
    decreases width - |s|
  {
    if |s| >= width then s else ZeroPad("0" + s, width)
  }

  /** `String(x)` for a finite number: sign, integer digits and, when the number is not whole,
      a point and its fraction digits without trailing zeros. */
  function DecimalText(d: Decimal): (s: string)
    ensures |s| > 0 && (s[0] == '-' || IsDigit(s[0])) && IsDigit(s[|s| - 1])
  {
    var r := Reduced(d);
    var a: nat := if r.mantissa < 0 then -r.mantissa else r.mantissa;
    var p := Pow10(r.places);
    var whole: nat := Quotient(a, p);
    var frac: nat := a - whole * p;
    var sign := if r.mantissa < 0 then "-" else "";
    sign + NatText(whole) + (if r.places == 0 then "" else "." + ZeroPad(NatText(frac), r.places))
  }

  function Quotient(a: nat, p: nat): (q: nat)
    requires p >= 1
    ensures q * p <= a
  {
    a / p
  }

  function NumText(n: Num): string
  {
    match n
    case Finite(d) => DecimalText(d)
    case NaN => "NaN"
    case Infinite(neg) => if neg then "-Infinity" else "Infinity"
  }

  /** `String(v)`. */
  function ToJsString(v: Value): string
  {
    match v
    case Undefined => "undefined"
    case Null => "null"
    case Bool(b) => if b then "true" else "false"
    case Number(n) => NumText(n)
    case Str(s) => s
    case Arr(items) =>
      JoinComma(seq(|items|, i requires 0 <= i < |items| =>
        if Nullish(items[i]) then "" else ToJsString(items[i])))
    case Obj(_) => "[object Object]"
  }

  /** `parts.join(',')`. */
  function JoinComma(parts: seq<string>): string
  {
    if parts == [] then ""
    else if |parts| == 1 then parts[0]
    else JoinComma(parts[..|parts| - 1]) + "," + parts[|parts| - 1]
  }

  // ---------------------------------------------------------------------------------------
  // String to number: Number(s)

  function DigitValue(c: char): nat
    requires IsDigit(c)
  {
    c as int - '0' as int
  }

  predicate AllDigits(s: string) { forall i :: 0 <= i < |s| ==> IsDigit(s[i]) }

  function DigitsValue(s: string): nat
    requires AllDigits(s)
  {
    if s == [] then 0 else DigitsValue(s[..|s| - 1]) * 10 + DigitValue(s[|s| - 1])
  }

  /** The value of a hexadecimal, octal or binary digit, or `radix` when c is none. */
  function RadixDigit(c: char, radix: nat): nat
  {
    var v :=
      if '0' <= c <= '9' then c as int - '0' as int
      else if 'a' <= c <= 'f' then c as int - 'a' as int + 10
      else if 'A' <= c <= 'F' then c as int - 'A' as int + 10
      else radix;
    if v < radix then v else radix
  }

  function RadixValue(s: string, radix: nat): Option<nat>
  {
    if s == [] then Some(0)
    else
      var prefix := RadixValue(s[..|s| - 1], radix);
      var d := RadixDigit(s[|s| - 1], radix);
      if prefix.None? || d >= radix then None else Some(prefix.value * radix + d)
  }

  /** The first index at which p holds, or |s|. */
  function IndexWhere(s: string, p: char -> bool): (k: nat)
    ensures k <= |s|
    ensures k < |s| ==> p(s[k])
    ensures forall i :: 0 <= i < k ==> !p(s[i])
  {
    if s == [] then 0 else if p(s[0]) then 0 else 1 + IndexWhere(s[1..], p)
  }

  /** A decimal literal without sign: digits, an optional point with digits, an optional
      exponent; at least one digit before the exponent. */
  function UnsignedDecimal(b: string): Option<Decimal>
  {
    var e := IndexWhere(b, c => c == 'e' || c == 'E');
    var m := b[..e];
    var p := IndexWhere(m, c => c == '.');
    var intPart := m[..p];
    var fracPart := if p < |m| then m[p + 1..] else "";
    if !AllDigits(intPart) || !AllDigits(fracPart) || |intPart| + |fracPart| == 0 then None
    else
      var exponent := if e < |b| then Exponent(b[e + 1..]) else Some(0);
      if exponent.None? then None
      else
        var mant := DigitsValue(intPart + fracPart);
        var places := |fracPart|;
        var x := exponent.value;
        if x >= 0 then
          if x <= places then Some(Decimal(mant, places - x))
          else Some(Decimal(mant * Pow10(x - places), 0))
        else Some(Decimal(mant, places + (-x)))
  }

  function Exponent(x: string): Option<int>
  {
    var neg := x != [] && x[0] == '-';
    var digits := if x != [] && (x[0] == '-' || x[0] == '+') then x[1..] else x;
    if digits == [] || !AllDigits(digits) then None
    else
      var v: int := DigitsValue(digits);
      Some(if neg then -v else v)
  }

  /** `Number(s)` for a string: white space around it is ignored, the empty string is 0,
      and anything that is not a numeric literal is NaN. */
  function StringToNumber(s: string): Num
  {
    var t := Trim(s);
    if t == "" then Zero()
    else if t == "Infinity" || t == "+Infinity" then Infinite(false)
    else if t == "-Infinity" then Infinite(true)
    else if |t| > 2 && t[0] == '0' && (t[1] == 'x' || t[1] == 'X' || t[1] == 'o' || t[1] == 'O' || t[1] == 'b' || t[1] == 'B') then
      var radix := if t[1] == 'x' || t[1] == 'X' then 16 else if t[1] == 'o' || t[1] == 'O' then 8 else 2;
      var v := RadixValue(t[2..], radix);
      if v.Some? then Finite(Decimal(v.value, 0)) else NaN
    else
      var neg := t[0] == '-';
      var body := if t[0] == '-' || t[0] == '+' then t[1..] else t;
      var d := UnsignedDecimal(body);
      if d.None? then NaN
      else if neg then Finite(Decimal(-d.value.mantissa, d.value.places))
      else Finite(d.value)
  }

  /** `Number(v)`. Arrays and objects are NaN here (see the README). */
  function ToNumber(v: Value): Num
  {
    match v
    case Undefined => NaN
    case Null => Zero()
    case Bool(b) => if b then Finite(Decimal(1, 0)) else Zero()
    case Number(n) => n
    case Str(s) => StringToNumber(s)
    case Arr(_) => NaN
    case Obj(_) => NaN
  }

  /** `Math.round(x)`: the nearest integer, halves rounded toward +infinity. */
  function Round(x: real): (r: int)
    ensures r as real - 0.5 <= x < r as real + 0.5
  {
    (x + 0.5).Floor
  }

  /** `Math.round(n)` on a JavaScript number. */
  function RoundNum(n: Num): (r: Num)
    ensures n.Finite? <==> r.Finite?
    ensures n.Finite? ==> r.d.places == 0 && r.d.mantissa == Round(RealOf(n.d))
    ensures !n.Finite? ==> r == n
  {
    if n.Finite? then Finite(Decimal(Round(RealOf(n.d)), 0)) else n
  }

  // ---------------------------------------------------------------------------------------
  // String order

  /** Code-point lexicographic order, the fixed total order that stands in for
      `a.localeCompare(b) <= 0`. */
  predicate StrLe(a: string, b: string)
  {
    a == [] || (b != [] && (a[0] < b[0] || (a[0] == b[0] && StrLe(a[1..], b[1..]))))
  }

  lemma {:induction false} StrLeTotal(a: string, b: string)
    ensures StrLe(a, b) || StrLe(b, a)
  {
    if a != [] && b != [] && a[0] == b[0] {
      StrLeTotal(a[1..], b[1..]);
    }
  }

  lemma {:induction false} StrLeTransitive(a: string, b: string, c: string)
    requires StrLe(a, b) && StrLe(b, c)
    ensures StrLe(a, c)
  {
    if a != [] && b != [] && c != [] && a[0] == b[0] && b[0] == c[0] {
      StrLeTransitive(a[1..], b[1..], c[1..]);
    }
  }

  lemma {:induction false} StrLeAntisymmetric(a: string, b: string)
    requires StrLe(a, b) && StrLe(b, a)
    ensures a == b
  {
    if a != [] && b != [] {
      StrLeAntisymmetric(a[1..], b[1..]);
      assert a == [a[0]] + a[1..];
      assert b == [b[0]] + b[1..];
    }
  }
}
