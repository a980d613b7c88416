/**
 The JSON value model, writer and strict parser of the session context (sections 4 to 7 of RFC 8259,
 integers only). Text is a sequence of characters that stand for bytes.
 */
module SessionJson {
  import opened Wrappers
  import Lex

  datatype Value =
    | Null
    | Bool(boolean: bool)
    | Int(integer: int)
    | Str(str: string)
    | Arr(arr: seq<Value>)
    | Obj(obj: map<string, Value>)

  const MIN_INT64: int := -0x8000_0000_0000_0000
  const MAX_INT64: int := 0x7FFF_FFFF_FFFF_FFFF

  /** Every integer in the tree is an int64. */
  predicate InRange(v: Value) {
    match v
    case Int(i) => MIN_INT64 <= i <= MAX_INT64
    case Arr(vs) => forall i | 0 <= i < |vs| :: InRange(vs[i])
    case Obj(o) => forall k | k in o :: InRange(o[k])
    case _ => true
  }

  // --- writer ---

  function HexDigit(n: nat): char
    requires n < 16
  {
    "0123456789abcdef"[n]
  }

  /** One character of a string literal. */
  function Escaped(c: char): string {
    var n := c as int;
    if c == '"' then "\\\""
    else if c == '\\' then "\\\\"
    else if n == 8 then "\\b"
    else if n == 12 then "\\f"
    else if n == 10 then "\\n"
    else if n == 13 then "\\r"
    else if n == 9 then "\\t"
    else if n < 0x20 then ['\\', 'u', '0', '0', HexDigit(n / 16), HexDigit(n % 16)]
    else [c]
  }

  function EscapedText(s: string): string {
    if s == [] then [] else Escaped(s[0]) + EscapedText(s[1..])
  }

  function Quoted(s: string): string {
    ['"'] + (EscapedText(s) + ['"'])
  }

  function Digit(n: nat): char
    requires n < 10
  {
    '0' + n as char
  }

  function Decimal(n: nat): string {
    if n < 10 then [Digit(n)] else Decimal(n / 10) + [Digit(n % 10)]
  }

  function IntText(i: int): string {
    if i < 0 then ['-'] + Decimal(-i) else Decimal(i)
  }

  function Codes(s: string): seq<int> {
    seq(|s|, i requires 0 <= i < |s| => s[i] as int)
  }

  /** m comes before every other key of s in byte order. */
  predicate IsLeast(m: string, s: set<string>) {
    m in s && forall y <- s :: y != m ==> Lex.Less(Codes(m), Codes(y))
  }

  lemma CodesInjective(a: string, b: string)
    requires Codes(a) == Codes(b)
    ensures a == b
  {
    assert |a| == |Codes(a)| == |b|;
    forall i | 0 <= i < |a| ensures a[i] == b[i] {
      assert Codes(a)[i] == a[i] as int && Codes(b)[i] == b[i] as int;
    }
  }

  lemma LeastKey(s: set<string>)
    requires s != {}
    ensures exists m :: IsLeast(m, s)
  {
    var codes := set y | y in s :: Codes(y);
    var x :| x in s;
    assert Codes(x) in codes;
    Lex.LeastExists(codes, Codes(x));
    var c :| Lex.IsLeast(c, codes);
    var m :| m in s && Codes(m) == c;
    forall y | y in s && y != m ensures Lex.Less(Codes(m), Codes(y)) {
      if Codes(y) == Codes(m) { CodesInjective(y, m); }
      assert Codes(y) in codes;
    }
    assert IsLeast(m, s);
  }

  lemma LeastKeyUnique(s: set<string>, a: string, b: string)
    requires IsLeast(a, s) && IsLeast(b, s)
    ensures a == b
  {
    if a != b {
      hide Codes, Lex.Less;
      Lex.Transitive(Codes(a), Codes(b), Codes(a));
      Lex.Irreflexive(Codes(a));
    }
  }

  /** The keys of an object in the order in which it is iterated. */
  ghost function SortedKeys(s: set<string>): (ks: seq<string>)
    ensures forall k :: k in ks <==> k in s
    ensures forall i, j | 0 <= i < j < |ks| :: ks[i] != ks[j]
    decreases |s|
  {
    if s == {} then [] else
    LeastKey(s);
    var m :| IsLeast(m, s);
    [m] + SortedKeys(s - {m})
  }

  ghost function Text(v: Value): string
    decreases v
  {
    match v
    case Null => "null"
    case Bool(b) => if b then "true" else "false"
    case Int(i) => IntText(i)
    case Str(s) => Quoted(s)
    case Arr(vs) => ['['] + (ElementsText(v, 0) + [']'])
    case Obj(o) => ['{'] + (FieldsText(v, SortedKeys(o.Keys)) + ['}'])
  }

  /** The elements of an array from index i on, separated by commas. */
  ghost function ElementsText(v: Value, i: nat): string
    requires v.Arr? && i <= |v.arr|
    decreases v, |v.arr| - i
  {
    if i == |v.arr| then []
    else (if i == 0 then [] else [',']) + (Text(v.arr[i]) + ElementsText(v, i + 1))
  }

  ghost function FieldText(v: Value, k: string): string
    requires v.Obj? && k in v.obj
    decreases v, 0
  {
    Quoted(k) + ([':'] + Text(v.obj[k]))
  }

  /** The fields of an object for the keys ks, separated by commas. */
  ghost function FieldsText(v: Value, ks: seq<string>): string
    requires v.Obj? && forall k <- ks :: k in v.obj
    decreases v, |ks| + 1
  {
    if ks == [] then []
    else FieldText(v, ks[0]) + (if |ks| == 1 then [] else [','] + FieldsText(v, ks[1..]))
  }

  // --- parser, as a function of the text that is left ---

  datatype Parsed<+T> = Bad | Good(value: T, rest: string)

  predicate IsWs(c: char) {
    c == ' ' || c == '\t' || c == '\n' || c == '\r'
  }

  predicate IsDigit(c: char) {
    '0' <= c <= '9'
  }

  function SkipWs(s: string): (r: string)
    ensures |r| <= |s|
  {
    if s != [] && IsWs(s[0]) then SkipWs(s[1..]) else s
  }

  predicate StartsWith(s: string, c: char) {
    s != [] && s[0] == c
  }

  function HexValue(c: char): int {
    if '0' <= c <= '9' then c as int - '0' as int
    else if 'a' <= c <= 'f' then c as int - 'a' as int + 10
    else if 'A' <= c <= 'F' then c as int - 'A' as int + 10
    else -1
  }

  function Hex4(s: string): (r: Parsed<nat>)
    ensures r.Good? ==> r.value < 0x1_0000 && |r.rest| == |s| - 4
  {
    if |s| < 4 then Bad else
    var a, b, c, d := HexValue(s[0]), HexValue(s[1]), HexValue(s[2]), HexValue(s[3]);
    if a < 0 || b < 0 || c < 0 || d < 0 then Bad
    else Good(((a * 16 + b) * 16 + c) * 16 + d, s[4..])
  }

  /** A code point as its UTF-8 bytes. */
  function Utf8(cp: nat): string
    requires cp < 0x11_0000
  {
    if cp < 0x80 then [cp as char]
    else if cp < 0x800 then [(0xC0 + cp / 0x40) as char, (0x80 + cp % 0x40) as char]
    else if cp < 0x1_0000 then
      [(0xE0 + cp / 0x1000) as char, (0x80 + cp / 0x40 % 0x40) as char, (0x80 + cp % 0x40) as char]
    else
      [(0xF0 + cp / 0x4_0000) as char, (0x80 + cp / 0x1000 % 0x40) as char,
       (0x80 + cp / 0x40 % 0x40) as char, (0x80 + cp % 0x40) as char]
  }

  /** The four hex digits after a \\u, joined with a following low surrogate if they are a high one. */
  function CodePoint(s: string): (r: Parsed<nat>)
    ensures r.Good? ==> r.value < 0x11_0000 && |r.rest| < |s|
  {
    var h := Hex4(s);
    if h.Bad? then Bad
    else if 0xD800 <= h.value <= 0xDBFF then
      if |h.rest| < 6 || h.rest[0] != '\\' || h.rest[1] != 'u' then Good(0xFFFD, h.rest)
      else
        var lo := Hex4(h.rest[2..]);
        if lo.Bad? || lo.value < 0xDC00 || lo.value > 0xDFFF then Bad
        else Good(0x1_0000 + (h.value - 0xD800) * 0x400 + (lo.value - 0xDC00), lo.rest)
    else if 0xDC00 <= h.value <= 0xDFFF then Bad
    else h
  }

  /** The character a one-letter escape stands for. */
  function Unescaped(e: char): (r: string)
    ensures |r| <= 1
  {
    if e == '"' || e == '\\' || e == '/' then [e]
    else if e == 'b' then [8 as char]
    else if e == 'f' then [12 as char]
    else if e == 'n' then [10 as char]
    else if e == 'r' then [13 as char]
    else if e == 't' then [9 as char]
    else []
  }

  /** The rest of a string literal after its opening quote, appended to acc. */
  function ParseString(s: string, acc: string): (r: Parsed<string>)
    ensures r.Good? ==> |r.rest| < |s|
    decreases |s|
  {
    if s == [] then Bad
    else if s[0] == '"' then Good(acc, s[1..])
    else if s[0] == '\\' then
      if |s| < 2 then Bad
      else if s[1] == 'u' then
        var cp := CodePoint(s[2..]);
        if cp.Bad? then Bad else ParseString(cp.rest, acc + Utf8(cp.value))
      else if Unescaped(s[1]) == [] then Bad
      else ParseString(s[2..], acc + Unescaped(s[1]))
    else if s[0] as int < 0x20 then Bad
    else ParseString(s[1..], acc + [s[0]])
  }

  /** The number of leading digits. */
  function DigitRun(s: string): (n: nat)
    ensures n <= |s|
  {
    if s != [] && IsDigit(s[0]) then 1 + DigitRun(s[1..]) else 0
  }

  /** The value of a digit string, most significant digit first. */
  function DigitsValue(s: string): int {
    if s == [] then 0 else DigitsValue(s[..|s| - 1]) * 10 + (s[|s| - 1] as int - '0' as int)
  }

  function ParseNumber(s: string): (r: Parsed<Value>)
    ensures r.Good? ==> |r.rest| < |s|
  {
    var start := if StartsWith(s, '-') then 1 else 0;
    var n := DigitRun(s[start..]);
    if n == 0 then Bad else
    var rest := s[start + n..];
    if rest != [] && (rest[0] == '.' || rest[0] == 'e' || rest[0] == 'E') then Bad else
    var magnitude := DigitsValue(s[start..start + n]);
    var v := if start == 1 then -magnitude else magnitude;
    if MIN_INT64 <= v <= MAX_INT64 then Good(Int(v), rest) else Bad
  }

  function ParseLiteral(s: string, word: string, v: Value): (r: Parsed<Value>)
    requires word != []
    ensures r.Good? ==> |r.rest| < |s|
  {
    if |s| >= |word| && s[..|word|] == word then Good(v, s[|word|..]) else Bad
  }

  function ParseValue(s: string): (r: Parsed<Value>)
    ensures r.Good? ==> |r.rest| < |s|
    decreases |s|, 2
  {
    var t := SkipWs(s);
    if t == [] then Bad
    else if t[0] == '{' then ParseObject(t[1..])
    else if t[0] == '[' then ParseArray(t[1..])
    else if t[0] == '"' then
      var str := ParseString(t[1..], []);
      if str.Bad? then Bad else Good(Str(str.value), str.rest)
    else if t[0] == 't' then ParseLiteral(t, "true", Bool(true))
    else if t[0] == 'f' then ParseLiteral(t, "false", Bool(false))
    else if t[0] == 'n' then ParseLiteral(t, "null", Null)
    else ParseNumber(t)
  }

  function ParseArray(s: string): (r: Parsed<Value>)
    ensures r.Good? ==> |r.rest| < |s|
    decreases |s|, 4
  {
    var t := SkipWs(s);
    if StartsWith(t, ']') then Good(Arr([]), t[1..]) else ParseElements(t, [])
  }

  /** One or more elements and the closing bracket. */
  function ParseElements(s: string, acc: seq<Value>): (r: Parsed<Value>)
    ensures r.Good? ==> |r.rest| < |s|
    decreases |s|, 3
  {
    var v := ParseValue(s);
    if v.Bad? then Bad else
    var t := SkipWs(v.rest);
    if StartsWith(t, ']') then Good(Arr(acc + [v.value]), t[1..])
    else if StartsWith(t, ',') then ParseElements(t[1..], acc + [v.value])
    else Bad
  }

  function ParseObject(s: string): (r: Parsed<Value>)
    ensures r.Good? ==> |r.rest| < |s|
    decreases |s|, 4
  {
    var t := SkipWs(s);
    if StartsWith(t, '}') then Good(Obj(map[]), t[1..]) else ParseMembers(t, map[])
  }

  /** One or more members and the closing brace; the last of two equal keys wins. */
  function ParseMembers(s: string, acc: map<string, Value>): (r: Parsed<Value>)
    ensures r.Good? ==> |r.rest| < |s|
    decreases |s|, 3
  {
    var t := SkipWs(s);
    if !StartsWith(t, '"') then Bad else
    var key := ParseString(t[1..], []);
    if key.Bad? then Bad else
    var colon := SkipWs(key.rest);
    if !StartsWith(colon, ':') then Bad else
    var v := ParseValue(colon[1..]);
    if v.Bad? then Bad else
    var acc', u := acc[key.value := v.value], SkipWs(v.rest);
    if StartsWith(u, '}') then Good(Obj(acc'), u[1..])
    else if StartsWith(u, ',') then ParseMembers(u[1..], acc')
    else Bad
  }

  /** A whole text is one value and nothing but white space after it. */
  function ParseText(s: string): Option<Value> {
    var v := ParseValue(s);
    if v.Good? && SkipWs(v.rest) == [] then Some(v.value) else None
  }
}
