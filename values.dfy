/**
 * JavaScript values as the SDK sees them, and the few language-level
 * conversions the SDK relies on: truthiness, `typeof`, `String(v)`,
 * `Number(v)`, `parseInt(v, 10)` and loose equality (`==`).
 *
 * Numbers are modelled as integers plus a separate `NaN`; fractional
 * numbers and infinities are not part of this model.
 */
module JsValues {

  datatype Option<+T> = None | Some(value: T)

  /** A JavaScript value. `Arr` is an array of values (the arrays the query
      string decoder builds); `Ref` is any other object, named by an identity
      and by its internal class tag ("Object", "Function", "Date", ...). */
  datatype Value =
    | Undefined
    | Null
    | Bool(b: bool)
    | Num(n: int)
    | NaN
    | Str(s: string)
    | Arr(items: seq<Value>)
    | Ref(id: nat, cls: string)

  /** How a JavaScript statement completes: normally with a value, or by
      throwing an exception (named by its message). */
  datatype Completion<+T> = Normal(value: T) | Throw(message: string)

  /** The own enumerable properties of a plain object. */
  type Dict = map<string, Value>

  /** An object with only the given keys kept. */
  function Restrict(d: Dict, keys: set<string>): (r: Dict)
    ensures r.Keys == d.Keys * keys
    ensures forall k :: k in r ==> r[k] == d[k]
  {
    map k | k in d && k in keys :: d[k]
  }

  /** A session is an object or nothing (null / undefined). */
  type Session = Option<Dict>

  predicate IsNullish(v: Value) {
    v.Undefined? || v.Null?
  }

  predicate IsObject(v: Value) {
    v.Arr? || v.Ref?
  }

  /** ToBoolean: what `if (v)`, `!v`, `a && b` and `a || b` test. */
  predicate Truthy(v: Value) {
    match v
    case Undefined => false
    case Null => false
    case Bool(b) => b
    case Num(n) => n != 0
    case NaN => false
    case Str(s) => s != ""
    case Arr(_) => true
    case Ref(_, _) => true
  }

  /** The `typeof` operator. */
  function TypeOf(v: Value): (t: string)
    ensures t == "function" <==> v.Ref? && v.cls == "Function"
    ensures t == "undefined" <==> v.Undefined?
    ensures t == "string" <==> v.Str?
    ensures t == "object" <==> v.Null? || v.Arr? || (v.Ref? && v.cls != "Function")
  {
    match v
    case Undefined => "undefined"
    case Null => "object"
    case Bool(_) => "boolean"
    case Num(_) => "number"
    case NaN => "number"
    case Str(_) => "string"
    case Arr(_) => "object"
    case Ref(_, cls) => if cls == "Function" then "function" else "object"
  }

  /** Property lookup `d[k]` on a plain object: a missing key reads as undefined. */
  function Get(d: Dict, k: string): Value {
    if k in d then d[k] else Undefined
  }

  // ---------------------------------------------------------------------
  // Strings of digits

  function DigitChar(d: nat): char
    requires d < 10
  {
    "0123456789"[d]
  }

  predicate IsDigit(c: char) {
    '0' <= c <= '9'
  }

  function DigitValue(c: char): nat
    requires IsDigit(c)
  {
    (c as int - '0' as int) as nat
  }

  /** Decimal digits of a natural number, most significant first. */
  function NatToDecimal(n: nat): (s: string)
    ensures |s| > 0
    ensures forall i :: 0 <= i < |s| ==> IsDigit(s[i])
  {
    if n < 10 then [DigitChar(n)] else NatToDecimal(n / 10) + [DigitChar(n % 10)]
  }

  function IntToDecimal(n: int): string {
    if n < 0 then "-" + NatToDecimal(-n) else NatToDecimal(n)
  }

  /** The value of a string of decimal digits. */
  function DigitsValue(s: string): nat
    requires forall i :: 0 <= i < |s| ==> IsDigit(s[i])
  {
    if s == [] then 0 else DigitsValue(s[..|s| - 1]) * 10 + DigitValue(s[|s| - 1])
  }

  lemma {:induction false} DecimalRoundTrip(n: nat)
    ensures DigitsValue(NatToDecimal(n)) == n
  {
    var s := NatToDecimal(n);
    if n >= 10 {
      DecimalRoundTrip(n / 10);
      assert s[..|s| - 1] == NatToDecimal(n / 10);
      assert DigitValue(s[|s| - 1]) == n % 10;
    } else {
      assert DigitValue(s[0]) == n;
    }
  }

  /** Length of the longest prefix of digits. */
  function DigitPrefix(s: string): (k: nat)
    ensures k <= |s|
    ensures forall i :: 0 <= i < k ==> IsDigit(s[i])
    ensures k < |s| ==> !IsDigit(s[k])
  {
    if s != [] && IsDigit(s[0]) then 1 + DigitPrefix(s[1..]) else 0
  }

  predicate IsSpace(c: char) {
    c == ' ' || c == '\t' || c == '\n' || c == '\r' || c == '\U{B}' || c == '\U{C}'
  }

  function TrimStart(s: string): (r: string)
    ensures |r| <= |s| && r == s[|s| - |r|..]
    ensures r == [] || !IsSpace(r[0])
  {
    if s != [] && IsSpace(s[0]) then
      var r := TrimStart(s[1..]);
      assert s[1..][|s| - 1 - |r|..] == s[|s| - |r|..];
      r
    else s
  }

  function TrimEnd(s: string): (r: string)
    ensures |r| <= |s| && r == s[..|r|]
    ensures r == [] || !IsSpace(r[|r| - 1])
  {
    if s != [] && IsSpace(s[|s| - 1]) then TrimEnd(s[..|s| - 1]) else s
  }

  /** An optionally signed run of digits, with nothing after it. */
  function SignedDigits(s: string): Option<int> {
    var neg := s != [] && s[0] == '-';
    var body := if s != [] && (s[0] == '-' || s[0] == '+') then s[1..] else s;
    if body != [] && DigitPrefix(body) == |body| then
      Some(if neg then -(DigitsValue(body) as int) else DigitsValue(body) as int)
    else None
  }

  // ---------------------------------------------------------------------
  // Conversions

  /** `String(v)`. Objects other than arrays print as "[object Class]". */
  function ToStr(v: Value): string
    decreases v, 1
  {
    match v
    case Undefined => "undefined"
    case Null => "null"
    case Bool(b) => if b then "true" else "false"
    case Num(n) => IntToDecimal(n)
    case NaN => "NaN"
    case Str(s) => s
    case Arr(items) => JoinElements(v, items)
    case Ref(_, cls) => "[object " + cls + "]"
  }

  /** `Array.prototype.join(',')`: null and undefined elements print as ''. */
  function JoinElements(a: Value, items: seq<Value>): string
    requires a.Arr? && items <= a.items
    decreases a, 0, |items|
  {
    if items == [] then ""
    else
      var last := items[|items| - 1];
      assert last in a.items;
      var tail := if IsNullish(last) then "" else ToStr(last);
      if |items| == 1 then tail else JoinElements(a, items[..|items| - 1]) + "," + tail
  }

  /** `Number(s)` for a string: surrounding white space is ignored, the empty
      string is 0, and only optionally signed decimal integers are read;
      every other spelling is NaN (None) here. */
  function StringToNumber(s: string): (r: Option<int>)
    ensures TrimEnd(TrimStart(s)) == "" ==> r == Some(0)
  {
    var t := TrimEnd(TrimStart(s));
    if t == "" then Some(0) else SignedDigits(t)
  }

  /** `Number(v)`; None is NaN. */
  function ToNumber(v: Value): Option<int> {
    match v
    case Undefined => None
    case Null => Some(0)
    case Bool(b) => Some(if b then 1 else 0)
    case Num(n) => Some(n)
    case NaN => None
    case Str(s) => StringToNumber(s)
    case Arr(_) => StringToNumber(ToStr(v))
    case Ref(_, _) => None
  }

  /** `parseInt(v, 10)`: leading white space, an optional sign and the
      longest run of digits; no digits at all gives NaN (None). */
  function ParseInt(v: Value): Option<int> {
    ParseIntText(ToStr(v))
  }

  /** `parseInt(s, 10)` on the text of a value. */
  function ParseIntText(text: string): Option<int> {
    var s := TrimStart(text);
    var neg := s != [] && s[0] == '-';
    var body := if s != [] && (s[0] == '-' || s[0] == '+') then s[1..] else s;
    WithSign(neg, LeadingDigits(body))
  }

  /** A run of digits read, negated after a minus sign; NaN (None) without digits. */
  function WithSign(neg: bool, digits: Option<nat>): Option<int> {
    match digits
    case None => None
    case Some(v) => Some(if neg then -(v as int) else v as int)
  }

  /** The value of the longest run of digits `body` starts with, if any. */
  function LeadingDigits(body: string): Option<nat> {
    var k := DigitPrefix(body);
    if k == 0 then None else Some(DigitsValue(body[..k]))
  }

  /** A text made of digits is read whole. */
  lemma LeadingAllDigits(digits: string)
    requires digits != [] && forall i :: 0 <= i < |digits| ==> IsDigit(digits[i])
    ensures LeadingDigits(digits) == Some(DigitsValue(digits))
  {
    AllDigitsPrefix(digits);
    WholePrefix(digits);
  }

  /** Reading back a number that was printed in decimal gives the number. */
  lemma ParseIntOfNumber(n: int)
    ensures ParseInt(Num(n)) == Some(n)
  {
    var m: nat := if n < 0 then -n else n;
    var digits := NatToDecimal(m);
    DecimalRoundTrip(m);
    if n < 0 {
      SignedText(digits);
      ParseSigned("-" + digits);
    } else {
      ParseUnsigned(digits);
    }
  }

  /** `parseInt` reads a run of digits whole. */
  lemma ParseUnsigned(digits: string)
    requires digits != [] && forall i :: 0 <= i < |digits| ==> IsDigit(digits[i])
    ensures ParseIntText(digits) == Some(DigitsValue(digits) as int)
  {
    ReadUnsigned(digits);
    LeadingAllDigits(digits);
  }

  /** A text starting with a digit is read without a sign. */
  lemma ReadUnsigned(t: string)
    requires t != [] && IsDigit(t[0])
    ensures ParseIntText(t) == WithSign(false, LeadingDigits(t))
  {
    TrimNoSpace(t);
  }

  /** A text starting with a minus sign is read as a negated run of digits. */
  lemma ReadSigned(t: string)
    requires t != [] && t[0] == '-'
    ensures ParseIntText(t) == WithSign(true, LeadingDigits(t[1..]))
  {
    TrimNoSpace(t);
  }

  /** `parseInt` reads a minus sign followed by a run of digits whole. */
  lemma ParseSigned(t: string)
    requires |t| > 1 && t[0] == '-' && forall i :: 1 <= i < |t| ==> IsDigit(t[i])
    ensures ParseIntText(t) == Some(-(DigitsValue(t[1..]) as int))
  {
    ReadSigned(t);
    LeadingAllDigits(t[1..]);
  }

  /** The text of a negative number: a minus sign, then the digits. */
  lemma SignedText(digits: string)
    ensures var t := "-" + digits; |t| == |digits| + 1 && t[0] == '-' && t[1..] == digits
  {
    var t := "-" + digits;
    assert t[1..] == digits;
  }

  lemma TrimNoSpace(s: string)
    requires s != [] && !IsSpace(s[0])
    ensures TrimStart(s) == s
  {
  }

  lemma WholePrefix(s: string)
    ensures s[..|s|] == s
  {
  }

  lemma AllDigitsPrefix(s: string)
    requires forall i :: 0 <= i < |s| ==> IsDigit(s[i])
    ensures DigitPrefix(s) == |s|
  {
  }

  /** A number as a JavaScript value: None is NaN. */
  function NumberValue(n: Option<int>): Value {
    match n
    case Some(x) => Num(x)
    case None => NaN
  }

  /** The abstract equality comparison `a == b`. Arrays have no identity in
      this model, so two arrays are never loosely equal. */
  predicate LooseEq(a: Value, b: Value) {
    if IsNullish(a) || IsNullish(b) then IsNullish(a) && IsNullish(b)
    else if IsObject(a) && IsObject(b) then a.Ref? && b.Ref? && a.id == b.id
    else
      var pa := if IsObject(a) then Str(ToStr(a)) else a;
      var pb := if IsObject(b) then Str(ToStr(b)) else b;
      if pa.Str? && pb.Str? then pa.s == pb.s
      else ToNumber(pa).Some? && ToNumber(pa) == ToNumber(pb)
  }

  // ---------------------------------------------------------------------
  // Strings

  /** `s.toLowerCase()` for the ASCII letters. */
  function Lower(s: string): (r: string)
    ensures |r| == |s|
  {
    if s == [] then []
    else [if 'A' <= s[0] <= 'Z' then (s[0] as int + 32) as char else s[0]] + Lower(s[1..])
  }

  predicate StartsWith(s: string, prefix: string) {
    |prefix| <= |s| && s[..|prefix|] == prefix
  }

  /** A string starts with any of its prefixes. */
  lemma StartsWithConcat(a: string, b: string)
    ensures StartsWith(a + b, a)
  {
    assert (a + b)[..|a|] == a;
  }

  /** Dropping the head of a concatenation leaves its tail. */
  lemma DropHead(a: string, b: string)
    ensures (a + b)[|a|..] == b
  {
  }

  /** `s.indexOf(t) >= 0`. */
  predicate Contains(s: string, t: string)
    decreases |s|
  {
    StartsWith(s, t) || (s != [] && Contains(s[1..], t))
  }

  /** `s.indexOf(c)` for a single character, -1 when absent. */
  function IndexOf(s: string, c: char): (i: int)
    ensures -1 <= i < |s|
    ensures i == -1 <==> c !in s
    ensures i >= 0 ==> s[i] == c && c !in s[..i]
  {
    if s == [] then -1
    else if s[0] == c then 0
    else var j := IndexOf(s[1..], c); if j < 0 then -1 else assert s[1..][..j] == s[1..j + 1]; j + 1
  }

  /** Text, a one-character separator and text: where each part lies. */
  lemma ConcatParts(a: string, j: string, q: string)
    requires |j| == 1
    ensures var t := a + j + q;
            |a| < |t| && t[..|a|] == a && t[|a|] == j[0] && t[|a| + 1..] == q
  {
    var t := a + j + q;
    assert t == a + (j + q);
  }

  /** `parts.join(sep)`. */
  function Join(parts: seq<string>, sep: string): string {
    if parts == [] then ""
    else if |parts| == 1 then parts[0]
    else parts[0] + sep + Join(parts[1..], sep)
  }

  /** A character in neither the pieces nor the separator is not in the joined text. */
  lemma {:induction false} JoinAvoids(parts: seq<string>, sep: string, c: char)
    requires c !in sep && forall i :: 0 <= i < |parts| ==> c !in parts[i]
    ensures c !in Join(parts, sep)
  {
    if |parts| > 1 {
      JoinAvoids(parts[1..], sep, c);
    }
  }

  /** Every character of a piece is in the joined text. */
  lemma {:induction false} JoinKeeps(parts: seq<string>, sep: string, i: nat, c: char)
    requires i < |parts| && c in parts[i]
    ensures c in Join(parts, sep)
  {
    if i > 0 {
      JoinKeeps(parts[1..], sep, i - 1, c);
    }
  }

  /** `s.split(c)` for a one-character separator: the pieces between the
      occurrences of c, so that joining them again gives s back. */
  function Split(s: string, c: char): (parts: seq<string>)
    ensures |parts| >= 1
    ensures Join(parts, [c]) == s
    ensures forall i :: 0 <= i < |parts| ==> c !in parts[i]
    ensures c !in s ==> parts == [s]
    ensures c in s ==> |parts| >= 2
    decreases |s|
  {
    var i := IndexOf(s, c);
    if i < 0 then [s]
    else
      var rest := Split(s[i + 1..], c);
      assert s == s[..i] + [c] + s[i + 1..];
      [s[..i]] + rest
  }

  /** Splitting undoes joining, as long as no piece holds the separator. */
  lemma {:induction false} SplitJoin(parts: seq<string>, c: char)
    requires |parts| >= 1
    requires forall i :: 0 <= i < |parts| ==> c !in parts[i]
    ensures Split(Join(parts, [c]), c) == parts
  {
    if |parts| > 1 {
      assert Join(parts, [c]) == parts[0] + [c] + Join(parts[1..], [c]);
      SplitFirst(parts[0], Join(parts[1..], [c]), c);
      SplitJoin(parts[1..], c);
      assert [parts[0]] + parts[1..] == parts;
    }
  }

  /** Splitting at a first separator that follows `a`. */
  lemma SplitFirst(a: string, rest: string, c: char)
    requires c !in a
    ensures Split(a + [c] + rest, c) == [a] + Split(rest, c)
  {
    var s := a + [c] + rest;
    var i := IndexOf(s, c);
    assert s[|a|] == c && s[..|a|] == a;
    assert i == |a|;
    assert s[i + 1..] == rest;
  }

  /** `s.split(c, 2)`: at most the first two pieces. */
  function SplitTwo(s: string, c: char): (pair: seq<string>)
    ensures 1 <= |pair| <= 2
    ensures pair[0] == Split(s, c)[0]
    ensures |pair| == 2 <==> c in s
    ensures |pair| == 2 ==> pair[1] == Split(s, c)[1]
  {
    var parts := Split(s, c);
    if c in s then parts[..2]
    else parts
  }
}
