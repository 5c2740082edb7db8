/**
 * The pieces of JavaScript semantics the application code leans on:
 * `null`/`undefined` (as `Option`), white space as `String.prototype.trim`
 * and `parseInt` see it, truthiness of strings, `parseInt(s)` without a
 * radix, and `String(n)` of a number.
 *
 * Numbers are modelled exactly, with at most two decimal places
 * (`Num(hundredths)`), or `NaN`; that covers every number the application
 * produces (page numbers, limits, prices).
 */
module Js {

  datatype Option<+T> = None | Some(value: T)

  /** ECMAScript WhiteSpace and LineTerminator code points (what `\s`,
      `trim` and `parseInt` skip). */
  predicate IsWhitespace(c: char) {
    || c == '\t' || c == '\n' || c == '\U{000B}' || c == '\U{000C}' || c == '\r'
    || c == ' ' || c == '\U{00A0}' || c == '\U{1680}'
    || ('\U{2000}' <= c <= '\U{200A}')
    || c == '\U{2028}' || c == '\U{2029}' || c == '\U{202F}' || c == '\U{205F}'
    || c == '\U{3000}' || c == '\U{FEFF}'
  }

  predicate AllWhitespace(s: string) {
    forall k :: 0 <= k < |s| ==> IsWhitespace(s[k])
  }

  /** A string is truthy exactly when it is not empty. */
  predicate Truthy(s: Option<string>) {
    s.Some? && s.value != ""
  }

  /** `s.trimStart()`: the suffix left after dropping leading white space. */
  function TrimStart(s: string): (r: string)
    ensures |r| <= |s| && r == s[|s| - |r|..]
    ensures AllWhitespace(s[..|s| - |r|])
    ensures r == [] || !IsWhitespace(r[0])
  {
    if s != [] && IsWhitespace(s[0]) then TrimStart(s[1..]) else s
  }

  /** `s.trimEnd()`: the prefix left after dropping trailing white space. */
  function TrimEnd(s: string): (r: string)
    ensures |r| <= |s| && r == s[..|r|]
    ensures AllWhitespace(s[|r|..])
    ensures r == [] || !IsWhitespace(r[|r| - 1])
  {
    if s != [] && IsWhitespace(s[|s| - 1]) then TrimEnd(s[..|s| - 1]) else s
  }

  /** `s.trim()` */
  function Trim(s: string): string {
    TrimEnd(TrimStart(s))
  }

  /** `!s.trim()` holds exactly when `s` is nothing but white space. */
  lemma TrimEmptyIff(s: string)
    ensures Trim(s) == "" <==> AllWhitespace(s)
  {
    var t := TrimStart(s);
    if Trim(s) == "" {
      assert AllWhitespace(t[0..]);
      assert t == [];
      assert s[..|s|] == s;
    } else {
      var r := Trim(s);
      assert r == t[..|r|] && t == s[|s| - |t|..];
      assert r[0] == s[|s| - |t|];
    }
  }

  /** The trimmed string has no white space at either end, so trimming again
      changes nothing. */
  lemma TrimIdempotent(s: string)
    ensures Trim(Trim(s)) == Trim(s)
  {
    var r := Trim(s);
    assert TrimStart(r) == r;
    assert TrimEnd(r) == r;
  }

  // ---------------------------------------------------------------------
  // Digits

  predicate IsDecDigit(c: char) { '0' <= c <= '9' }

  predicate IsRadixDigit(c: char, radix: int)
    requires radix == 10 || radix == 16
  {
    if radix == 10 then IsDecDigit(c)
    else IsDecDigit(c) || 'a' <= c <= 'f' || 'A' <= c <= 'F'
  }

  function DigitValue(c: char): (d: nat)
    requires IsRadixDigit(c, 16)
    ensures d < 16 && (IsDecDigit(c) ==> d < 10)
  {
    if IsDecDigit(c) then c as int - '0' as int
    else if 'a' <= c <= 'f' then c as int - 'a' as int + 10
    else c as int - 'A' as int + 10
  }

  function DigitChar(d: nat): (c: char)
    requires d < 10
    ensures IsDecDigit(c) && DigitValue(c) == d
  {
    ('0' as int + d) as char
  }

  /** Length of the longest prefix of `s` made of digits of `radix`. */
  function DigitRun(s: string, radix: int): (n: nat)
    requires radix == 10 || radix == 16
    ensures n <= |s|
    ensures forall k :: 0 <= k < n ==> IsRadixDigit(s[k], radix)
    ensures n < |s| ==> !IsRadixDigit(s[n], radix)
  {
    if s != [] && IsRadixDigit(s[0], radix) then 1 + DigitRun(s[1..], radix) else 0
  }

  /** Mathematical value of a digit string, most significant digit first. */
  function DigitsValue(s: string, radix: int): nat
    requires radix == 10 || radix == 16
    requires forall k :: 0 <= k < |s| ==> IsRadixDigit(s[k], radix)
  {
    if s == [] then 0
    else
      var last := s[|s| - 1];
      assert IsRadixDigit(last, radix);
      assert IsRadixDigit(last, 16);
      DigitsValue(s[..|s| - 1], radix) * radix + DigitValue(last)
  }

  /** Decimal digits of a natural number, without leading zeros. */
  function NatDigits(n: nat): (r: string)
    ensures |r| > 0
    ensures forall k :: 0 <= k < |r| ==> IsDecDigit(r[k])
  {
    if n < 10 then [DigitChar(n)] else NatDigits(n / 10) + [DigitChar(n % 10)]
  }

  /** `String(i)` for an integer `i`. */
  function IntToString(i: int): string {
    if i < 0 then "-" + NatDigits(-i) else NatDigits(i)
  }

  /** `parseInt(s)` with no radix (ECMAScript section 19.2.5): skip leading
      white space, take an optional sign, a `0x`/`0X` prefix switches to
      hexadecimal, then the longest run of digits; no digits gives NaN
      (`None`). Precision loss for very long inputs is not modelled. */
  function ParseInt(input: string): Option<int> {
    var s := TrimStart(input);
    if s != [] && s[0] == '-' then
      match ParseUnsigned(s[1..])
      case None => None
      case Some(v) => Some(-v)
    else if s != [] && s[0] == '+' then ParseUnsigned(s[1..])
    else ParseUnsigned(s)
  }

  predicate HasHexPrefix(u: string) {
    |u| >= 2 && u[0] == '0' && (u[1] == 'x' || u[1] == 'X')
  }

  function ParseUnsigned(u: string): Option<int> {
    if HasHexPrefix(u) then ParseDigits(u[2..], 16) else ParseDigits(u, 10)
  }

  /** The value of the longest digit prefix; `None` when there is none. */
  function ParseDigits(b: string, radix: int): Option<int>
    requires radix == 10 || radix == 16
  {
    var n := DigitRun(b, radix);
    if n == 0 then None
    else
      assert forall k :: 0 <= k < n ==> b[..n][k] == b[k];
      Some(DigitsValue(b[..n], radix))
  }

  lemma {:induction false} NatDigitsValue(n: nat)
    ensures DigitsValue(NatDigits(n), 10) == n
  {
    if n >= 10 {
      var d := NatDigits(n);
      assert d[..|d| - 1] == NatDigits(n / 10);
      NatDigitsValue(n / 10);
    }
  }

  lemma {:induction false} DigitRunAll(s: string)
    requires forall k :: 0 <= k < |s| ==> IsDecDigit(s[k])
    ensures DigitRun(s, 10) == |s|
  {
    if s != [] {
      DigitRunAll(s[1..]);
    }
  }

  lemma ParseUnsignedOfNatDigits(n: nat)
    ensures ParseUnsigned(NatDigits(n)) == Some(n)
  {
    var d := NatDigits(n);
    assert !HasHexPrefix(d) by {
      if |d| >= 2 { assert IsDecDigit(d[1]); }
    }
    DigitRunAll(d);
    assert d[..|d|] == d;
    NatDigitsValue(n);
  }

  /** `parseInt(String(i)) == i` for every integer. */
  lemma ParseIntOfIntToString(i: int)
    ensures ParseInt(IntToString(i)) == Some(i)
  {
    var s := IntToString(i);
    var d := NatDigits(if i < 0 then -i else i);
    assert !IsWhitespace(s[0]);
    assert TrimStart(s) == s;
    ParseUnsignedOfNatDigits(if i < 0 then -i else i);
    if i < 0 {
      assert s[1..] == d;
    } else {
      assert IsDecDigit(s[0]);
    }
  }

  // ---------------------------------------------------------------------
  // Numbers

  /** A JavaScript number: NaN, or an exact value with at most two decimal
      places, `hundredths / 100`. */
  datatype JsNumber = NaN | Num(hundredths: int)

  function FromInt(i: int): JsNumber { Num(100 * i) }

  predicate IsPositive(n: JsNumber) { n.Num? && n.hundredths > 0 }

  /** `String(n)`: shortest decimal text, no trailing fractional zeros. */
  function NumberToString(n: JsNumber): string {
    match n
    case NaN => "NaN"
    case Num(h) =>
      var a := if h < 0 then -h else h;
      var whole := NatDigits(a / 100);
      var frac := a % 100;
      var text :=
        if frac == 0 then whole
        else if frac % 10 == 0 then whole + "." + [DigitChar(frac / 10)]
        else whole + "." + [DigitChar(frac / 10), DigitChar(frac % 10)];
      if h < 0 then "-" + text else text
  }

  /** Whole numbers print as integers. */
  lemma FromIntToString(i: int)
    ensures NumberToString(FromInt(i)) == IntToString(i)
  {
    var h := 100 * i;
    var a := if h < 0 then -h else h;
    assert a % 100 == 0 && a / 100 == (if i < 0 then -i else i);
  }

  /** The JavaScript values that appear as object property values here. */
  datatype JsValue = Undefined | Null | Str(s: string) | Number(n: JsNumber) | Bool(b: bool)

  /** `String(v)` */
  function ToJsString(v: JsValue): string {
    match v
    case Undefined => "undefined"
    case Null => "null"
    case Str(s) => s
    case Number(n) => NumberToString(n)
    case Bool(b) => if b then "true" else "false"
  }

  /** A plain object as an ordered list of properties (JavaScript keeps string
      keys in insertion order); keys are distinct. */
  type Obj = seq<(string, JsValue)>

  function Keys(o: Obj): (ks: seq<string>)
    ensures |ks| == |o|
  {
    seq(|o|, k requires 0 <= k < |o| => o[k].0)
  }

  predicate DistinctKeys(o: Obj) {
    forall i, j :: 0 <= i < j < |o| ==> o[i].0 != o[j].0
  }

  /** `o[key]`, `None` when the key is absent. */
  function Get(o: Obj, key: string): (r: Option<JsValue>)
    ensures r.Some? <==> key in Keys(o)
    ensures r.Some? ==> (key, r.value) in o
  {
    if o == [] then None
    else
      assert Keys(o) == [o[0].0] + Keys(o[1..]);
      if o[0].0 == key then Some(o[0].1)
      else Get(o[1..], key)
  }

  /** `o[key] = v`: an existing key keeps its position, a new key goes last. */
  function Put(o: Obj, key: string, v: JsValue): (r: Obj)
    ensures key in Keys(o) ==> Keys(r) == Keys(o)
    ensures key !in Keys(o) ==> Keys(r) == Keys(o) + [key]
    ensures Get(r, key) == Some(v)
    ensures forall k :: k != key ==> Get(r, k) == Get(o, k)
  {
    if o == [] then [(key, v)]
    else
      assert Keys(o) == [o[0].0] + Keys(o[1..]);
      if o[0].0 == key then
        var r := [(key, v)] + o[1..];
        assert Keys(r) == [key] + Keys(o[1..]);
        r
      else
        var r := [o[0]] + Put(o[1..], key, v);
        assert Keys(r) == [o[0].0] + Keys(Put(o[1..], key, v));
        r
  }

  /** `delete o[key]` */
  function Delete(o: Obj, key: string): (r: Obj)
    ensures forall k :: k in Keys(r) <==> k in Keys(o) && k != key
    ensures forall k :: k != key ==> Get(r, k) == Get(o, k)
    ensures forall p :: p in r ==> p in o
  {
    if o == [] then []
    else
      assert Keys(o) == [o[0].0] + Keys(o[1..]);
      if o[0].0 == key then Delete(o[1..], key)
      else
        var r := [o[0]] + Delete(o[1..], key);
        assert Keys(r) == [o[0].0] + Keys(Delete(o[1..], key));
        r
  }

  // ---------------------------------------------------------------------
  // Searching in strings

  /** `pat` occurs in `s` at position `i`. */
  predicate OccursAt(s: string, pat: string, i: int) {
    0 <= i && i + |pat| <= |s| && s[i..i + |pat|] == pat
  }

  /** `s.indexOf(pat)`: the first position where `pat` occurs, or -1. */
  function IndexOf(s: string, pat: string): (i: int)
    ensures -1 <= i <= |s|
    ensures i >= 0 ==> OccursAt(s, pat, i)
    ensures forall j :: 0 <= j && (i < 0 || j < i) ==> !OccursAt(s, pat, j)
  {
    IndexFrom(s, pat, 0)
  }

  function IndexFrom(s: string, pat: string, from: nat): (i: int)
    requires forall j :: 0 <= j < from ==> !OccursAt(s, pat, j)
    ensures -1 <= i <= |s|
    ensures i >= 0 ==> OccursAt(s, pat, i)
    ensures forall j :: 0 <= j && (i < 0 || j < i) ==> !OccursAt(s, pat, j)
    decreases |s| - from
  {
    if from + |pat| > |s| then -1
    else if s[from..from + |pat|] == pat then from
    else IndexFrom(s, pat, from + 1)
  }

  /** `s.replace(pat, rep)` with a string pattern: only the first occurrence
      is replaced. */
  function ReplaceFirst(s: string, pat: string, rep: string): (r: string)
    ensures IndexOf(s, pat) < 0 ==> r == s
    ensures IndexOf(s, pat) >= 0 ==>
      r == s[..IndexOf(s, pat)] + rep + s[IndexOf(s, pat) + |pat|..]
  {
    var i := IndexOf(s, pat);
    if i < 0 then s else s[..i] + rep + s[i + |pat|..]
  }

  /** No entry of `s` repeats. */
  predicate Distinct<T(==)>(s: seq<T>) {
    forall i, j :: 0 <= i < j < |s| ==> s[i] != s[j]
  }

  /** The position of the first `c` in `s`, or -1. */
  function FirstIndex(s: string, c: char): (i: int)
    ensures i < 0 ==> c !in s
    ensures i >= 0 ==> i < |s| && s[i] == c && c !in s[..i]
  {
    if s == [] then -1
    else if s[0] == c then 0
    else
      var j := FirstIndex(s[1..], c);
      assert s == [s[0]] + s[1..];
      if j < 0 then -1
      else
        assert s[..j + 1] == [s[0]] + s[1..][..j];
        j + 1
  }

  /** `s.split(sep)` */
  function Split(s: string, sep: char): (parts: seq<string>)
    ensures |parts| >= 1
    decreases |s|
  {
    var i := FirstIndex(s, sep);
    if i < 0 then [s] else [s[..i]] + Split(s[i + 1..], sep)
  }

  /** `parts.join(sep)` */
  function Join(parts: seq<string>, sep: char): string {
    if parts == [] then ""
    else if |parts| == 1 then parts[0]
    else parts[0] + [sep] + Join(parts[1..], sep)
  }

  /** Splitting a join on a separator no part contains gives the parts. */
  lemma {:induction false} SplitJoin(parts: seq<string>, sep: char)
    requires parts != []
    requires forall p :: p in parts ==> sep !in p
    ensures Split(Join(parts, sep), sep) == parts
  {
    assert parts[0] in parts;
    if |parts| > 1 {
      var p := parts[0];
      var rest := Join(parts[1..], sep);
      var s := p + [sep] + rest;
      assert p in parts;
      assert s[|p|] == sep && s[..|p|] == p;
      var i := FirstIndex(s, sep);
      assert i == |p|;
      assert s[i + 1..] == rest;
      SplitJoin(parts[1..], sep);
      assert parts == [p] + parts[1..];
    }
  }
}
