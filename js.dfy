/** The slice of JavaScript value semantics the services rely on: truthiness,
    `||` fallbacks, strict equality, template-literal rendering, `Number(...)`
    and `parseInt(...)` on strings, and objects as string-keyed maps. */
module Js {

  datatype Option<+T> = None | Some(value: T)

  /** A JavaScript primitive. Numbers are restricted to integers; `NaN` is kept
      apart because it is falsy and unequal to itself. */
  datatype Value = Undefined | Null | Bool(b: bool) | Num(n: int) | NaN | Str(s: string)

  /** A plain object: property name to value. `a + b` on maps is `{...a, ...b}`. */
  type Record = map<string, Value>

  /** Property read: a missing property reads as `undefined`. */
  function Get(o: Record, key: string): (v: Value)
    ensures key !in o ==> v == Undefined
    ensures key in o ==> v == o[key]
  {
    if key in o then o[key] else Undefined
  }

  /** `!!v` */
  predicate Truthy(v: Value) {
    match v
    case Undefined => false
    case Null => false
    case Bool(b) => b
    case Num(n) => n != 0
    case NaN => false
    case Str(s) => s != ""
  }

  /** `a || b` */
  function Or(a: Value, b: Value): (r: Value)
    ensures Truthy(a) ==> r == a
    ensures !Truthy(a) ==> r == b
  {
    if Truthy(a) then a else b
  }

  /** `a === b` (NaN is unequal to everything, itself included). */
  predicate StrictEquals(a: Value, b: Value) {
    a == b && !a.NaN?
  }

  /** The characters JavaScript's `\s` matches, which are also the ones
      `String.prototype.trim` and `Number(...)` skip. */
  predicate IsSpace(c: char) {
    c == ' ' || c == '\t' || c == '\n' || c == '\r' || c == '\U{000B}' || c == '\U{000C}'
    || c == '\U{00A0}' || c == '\U{1680}' || ('\U{2000}' <= c <= '\U{200A}')
    || c == '\U{2028}' || c == '\U{2029}' || c == '\U{202F}' || c == '\U{205F}'
    || c == '\U{3000}' || c == '\U{FEFF}'
  }

  predicate IsDigit(c: char) {
    '0' <= c <= '9'
  }

  predicate AllDigits(s: string) {
    forall i :: 0 <= i < |s| ==> IsDigit(s[i])
  }

  function DigitValue(c: char): (d: nat)
    requires IsDigit(c)
    ensures d < 10
  {
    (c as int) - ('0' as int)
  }

  function DigitChar(d: nat): (c: char)
    requires d < 10
    ensures IsDigit(c) && DigitValue(c) == d
  {
    (('0' as int) + d) as char
  }

  /** The number a string of decimal digits denotes. */
  function DigitsValue(ds: string): nat
    requires AllDigits(ds)
  {
    if ds == [] then 0 else DigitsValue(ds[..|ds| - 1]) * 10 + DigitValue(ds[|ds| - 1])
  }

  /** Decimal rendering of a natural number, the way `String(n)` writes it. */
  function NatToDecimal(n: nat): (s: string)
    ensures |s| > 0 && AllDigits(s)
    ensures DigitsValue(s) == n
    ensures |s| > 1 ==> s[0] != '0'
  {
    if n < 10 then [DigitChar(n)]
    else
      var prefix := NatToDecimal(n / 10);
      var s := prefix + [DigitChar(n % 10)];
      assert s[..|s| - 1] == prefix;
      s
  }

  function IntToDecimal(n: int): (s: string)
    ensures |s| > 0
  {
    if n < 0 then "-" + NatToDecimal(-n) else NatToDecimal(n)
  }

  /** `String(v)`, which is also what `${v}` inserts into a template literal. */
  function ToStr(v: Value): string {
    match v
    case Undefined => "undefined"
    case Null => "null"
    case Bool(b) => if b then "true" else "false"
    case Num(n) => IntToDecimal(n)
    case NaN => "NaN"
    case Str(s) => s
  }

  function TrimStart(s: string): (t: string)
    ensures |t| <= |s| && t == s[|s| - |t|..]
    ensures t != [] ==> !IsSpace(t[0])
    ensures (forall i :: 0 <= i < |s| ==> !IsSpace(s[i])) ==> t == s
  {
    if s != [] && IsSpace(s[0]) then TrimStart(s[1..]) else s
  }

  function TrimEnd(s: string): (t: string)
    ensures |t| <= |s| && t == s[..|t|]
    ensures t != [] ==> !IsSpace(t[|t| - 1])
    ensures (forall i :: 0 <= i < |s| ==> !IsSpace(s[i])) ==> t == s
  {
    if s != [] && IsSpace(s[|s| - 1]) then TrimEnd(s[..|s| - 1]) else s
  }

  /** `s.trim()` */
  function Trim(s: string): string {
    TrimEnd(TrimStart(s))
  }

  /** A run of one or more decimal digits after an optional sign: the part of
      the numeric-string grammar the model keeps. */
  function SignedDigits(t: string): Option<int> {
    if |t| > 1 && t[0] == '-' && AllDigits(t[1..]) then Some(-(DigitsValue(t[1..]) as int))
    else if |t| > 1 && t[0] == '+' && AllDigits(t[1..]) then Some(DigitsValue(t[1..]))
    else if |t| > 0 && AllDigits(t) then Some(DigitsValue(t))
    else None
  }

  /** `Number(s)` for a string: surrounding white space is ignored, the empty
      string is 0, a signed run of decimal digits is its value, and anything
      else is NaN. */
  function StringToNumber(s: string): (v: Value)
    ensures v.Num? || v.NaN?
  {
    var t := Trim(s);
    if t == "" then Num(0)
    else match SignedDigits(t)
      case Some(n) => Num(n)
      case None => NaN
  }

  /** `Number(v)` / unary `+v`, which `*` and `<` apply to their operands. */
  function ToNumber(v: Value): (r: Value)
    ensures r.Num? || r.NaN?
  {
    match v
    case Undefined => NaN
    case Null => Num(0)
    case Bool(b) => Num(if b then 1 else 0)
    case Num(_) => v
    case NaN => NaN
    case Str(s) => StringToNumber(s)
  }

  /** The longest prefix of `s` made of decimal digits. */
  function DigitPrefix(s: string): (p: string)
    ensures |p| <= |s| && p == s[..|p|] && AllDigits(p)
    ensures |p| < |s| ==> !IsDigit(s[|p|])
  {
    if s != [] && IsDigit(s[0]) then [s[0]] + DigitPrefix(s[1..]) else []
  }

  predicate IsHexDigit(c: char) {
    IsDigit(c) || 'a' <= c <= 'f' || 'A' <= c <= 'F'
  }

  function HexDigitValue(c: char): (d: nat)
    requires IsHexDigit(c)
    ensures d < 16
  {
    if IsDigit(c) then DigitValue(c)
    else if 'a' <= c <= 'f' then (c as int) - ('a' as int) + 10
    else (c as int) - ('A' as int) + 10
  }

  /** The longest prefix of `s` made of hexadecimal digits. */
  function HexPrefix(s: string): (p: string)
    ensures |p| <= |s| && p == s[..|p|]
    ensures forall i :: 0 <= i < |p| ==> IsHexDigit(p[i])
    ensures |p| < |s| ==> !IsHexDigit(s[|p|])
  {
    if s != [] && IsHexDigit(s[0]) then [s[0]] + HexPrefix(s[1..]) else []
  }

  /** The number a string of hexadecimal digits denotes. */
  function HexValue(hs: string): nat
    requires forall i :: 0 <= i < |hs| ==> IsHexDigit(hs[i])
  {
    if hs == [] then 0 else HexValue(hs[..|hs| - 1]) * 16 + HexDigitValue(hs[|hs| - 1])
  }

  /** `0x` or `0X` at the start, which makes `parseInt` without a radix read
      hexadecimal. */
  predicate HexMarked(s: string) {
    |s| >= 2 && s[0] == '0' && (s[1] == 'x' || s[1] == 'X')
  }

  /** `parseInt(s)` with no radix: leading white space, an optional sign,
      then the longest run of hexadecimal digits after a `0x`/`0X` prefix
      and of decimal digits otherwise; NaN when the run is empty. */
  function ParseInt(s: string): (v: Value)
    ensures v.Num? || v.NaN?
  {
    var t := TrimStart(s);
    var negative := t != [] && t[0] == '-';
    var body := if t != [] && (t[0] == '-' || t[0] == '+') then t[1..] else t;
    var magnitude :=
      if HexMarked(body) then
        var hs := HexPrefix(body[2..]);
        if hs == [] then None else Some(HexValue(hs))
      else
        var ds := DigitPrefix(body);
        if ds == [] then None else Some(DigitsValue(ds));
    match magnitude
    case None => NaN
    case Some(m) => if negative then Num(-(m as int)) else Num(m)
  }

  /** Without a radix `parseInt` reads "-0x1f" as -31. */
  lemma {:induction false} ParseIntHexExample()
    ensures ParseInt("-0x1f") == Num(-31)
  {
    var s := "-0x1f";
    assert TrimStart(s) == s by { assert !IsSpace(s[0]); }
    var body := s[1..];
    assert body == "0x1f" && HexMarked(body);
    var hs := body[2..];
    assert hs == "1f";
    assert HexPrefix(hs) == hs by {
      assert hs[1..] == "f";
      assert HexPrefix("f") == "f" by { assert "f"[1..] == ""; }
    }
    assert HexValue(hs) == 31 by { assert hs[..1] == "1"; assert "1"[..0] == ""; }
  }

  /** A decimal run stops at the first character that is not a digit. */
  lemma {:induction false} ParseIntDecimalExample()
    ensures ParseInt("12ab") == Num(12)
  {
    var s := "12ab";
    assert TrimStart(s) == s by { assert !IsSpace(s[0]); }
    assert !HexMarked(s);
    assert DigitPrefix(s) == "12" by {
      assert s[1..] == "2ab";
      assert DigitPrefix("2ab") == "2" by { assert "2ab"[1..] == "ab"; }
    }
    assert DigitsValue("12") == 12 by { assert "12"[..1] == "1"; assert "1"[..0] == ""; }
  }

  lemma TrimWithoutSpace(s: string)
    requires forall i :: 0 <= i < |s| ==> !IsSpace(s[i])
    ensures Trim(s) == s
  {
    assert TrimStart(s) == s;
  }

  lemma DigitIsNotSpace(c: char)
    requires IsDigit(c)
    ensures !IsSpace(c)
  {
  }

  lemma NoSpaceInDecimal(n: int)
    ensures forall i :: 0 <= i < |IntToDecimal(n)| ==> !IsSpace(IntToDecimal(n)[i])
  {
    var s := IntToDecimal(n);
    var ds := NatToDecimal(if n < 0 then -n else n);
    forall i | 0 <= i < |s| ensures !IsSpace(s[i]) {
      if n >= 0 {
        DigitIsNotSpace(ds[i]);
      } else if i > 0 {
        assert s[i] == ds[i - 1];
        DigitIsNotSpace(ds[i - 1]);
      }
    }
  }

  lemma SignedDigitsOfDecimal(n: int)
    ensures SignedDigits(IntToDecimal(n)) == Some(n)
  {
    var s := IntToDecimal(n);
    if n < 0 {
      var ds := NatToDecimal(-n);
      assert s[1..] == ds;
      assert |s| > 1 && s[0] == '-' && AllDigits(s[1..]);
    } else {
      assert IsDigit(s[0]);
    }
  }

  /** A booking id rendered into a URL comes back as the same number:
      `Number(String(n)) === n`. */
  lemma NumberOfDecimal(n: int)
    ensures StringToNumber(IntToDecimal(n)) == Num(n)
  {
    var s := IntToDecimal(n);
    NoSpaceInDecimal(n);
    TrimWithoutSpace(s);
    SignedDigitsOfDecimal(n);
    assert |s| > 0;
    assert Trim(s) == s;
  }

  /** The longest digit prefix of a pure digit string is the whole string. */
  lemma {:induction false} DigitPrefixOfDigits(s: string)
    requires AllDigits(s)
    ensures DigitPrefix(s) == s
  {
    if s != [] {
      DigitPrefixOfDigits(s[1..]);
    }
  }

  /** `parseInt` of a count as node-postgres hands it over (the `bigint`
      text of `COUNT(*)`) is that count. */
  lemma ParseIntOfDecimal(n: nat)
    ensures ParseInt(NatToDecimal(n)) == Num(n)
  {
    var s := NatToDecimal(n);
    DigitIsNotSpace(s[0]);
    assert s[0] != '-' && s[0] != '+';
    assert !HexMarked(s) by { if |s| >= 2 { assert IsDigit(s[1]); } }
    DigitPrefixOfDigits(s);
  }
}
