/** The imperative writer and the cursor-moving recursive-descent parser. */
module SessionJsonParser {
  import opened Wrappers
  import opened SessionJson

  // --- writer: appends to the output string ---

  method WriteEscaped(s: string, out: string) returns (r: string)
    ensures r == out + Quoted(s)
  {
    r := out + ['"'];
    for i := 0 to |s|
      invariant r + EscapedText(s[i..]) == out + ['"'] + EscapedText(s)
    {
      assert s[i..][1..] == s[i + 1..];
      assert (r + Escaped(s[i])) + EscapedText(s[i + 1..]) == r + EscapedText(s[i..]);
      r := r + Escaped(s[i]);
    }
    assert r + [] == r;
    r := r + ['"'];
    assert r == out + Quoted(s);
  }

  /** std::to_string: digits are produced from the least significant one. */
  method WriteInt(i: int, out: string) returns (r: string)
    ensures r == out + IntText(i)
  {
    var n: nat := if i < 0 then -i else i;
    var digits: string := [];
    ghost var all := Decimal(n);
    while n >= 10
      invariant n >= 0 && Decimal(n) + digits == all
      decreases n
    {
      assert (Decimal(n / 10) + [Digit(n % 10)]) + digits == Decimal(n / 10) + ([Digit(n % 10)] + digits);
      digits := [Digit(n % 10)] + digits;
      n := n / 10;
    }
    digits := [Digit(n)] + digits;
    r := out + (if i < 0 then ['-'] + digits else digits);
  }

  method WriteValue(v: Value, out: string) returns (r: string)
    ensures r == out + Text(v)
    decreases v
  {
    hide ElementsText, FieldsText, SortedKeys, IntText, Quoted;
    match v
    case Null => r := out + "null";
    case Bool(b) => r := out + (if b then "true" else "false");
    case Int(i) => r := WriteInt(i, out);
    case Str(s) => r := WriteEscaped(s, out);
    case Arr(vs) =>
      r := WriteElements(v, out + ['[']);
      r := r + [']'];
      assert r == out + (['['] + (ElementsText(v, 0) + [']']));
    case Obj(o) =>
      r := WriteFields(v, out + ['{']);
      r := r + ['}'];
      assert r == out + (['{'] + (FieldsText(v, SortedKeys(o.Keys)) + ['}']));
  }

  method WriteElements(v: Value, out: string) returns (r: string)
    requires v.Arr?
    ensures r == out + ElementsText(v, 0)
    decreases v, 0
  {
    hide Text, ElementsText;
    r := out;
    for i := 0 to |v.arr|
      invariant r + ElementsText(v, i) == out + ElementsText(v, 0)
    {
      ghost var before := r;
      if i > 0 { r := r + [',']; }
      r := WriteValue(v.arr[i], r);
      ElementsStep(v, i);
      assert r + ElementsText(v, i + 1) == before + ElementsText(v, i);
    }
    ElementsEnd(v);
    assert r + [] == r;
  }

  lemma ElementsStep(v: Value, i: nat)
    requires v.Arr? && i < |v.arr|
    ensures ElementsText(v, i) == (if i == 0 then [] else [',']) + (Text(v.arr[i]) + ElementsText(v, i + 1))
  {}

  lemma ElementsEnd(v: Value)
    requires v.Arr?
    ensures ElementsText(v, |v.arr|) == []
  {}

  /** Fields are visited in key order, as an ordered map is iterated. */
  method WriteFields(v: Value, out: string) returns (r: string)
    requires v.Obj?
    ensures r == out + FieldsText(v, SortedKeys(v.obj.Keys))
    decreases v, 0
  {
    hide Text, FieldsText, SortedKeys, Quoted, Separated, IsLeast, FieldText;
    r := out;
    var left := v.obj.Keys;
    var first := true;
    SeparatedStart(v);
    while left != {}
      invariant left <= v.obj.Keys
      invariant r + Separated(v, left, first) == out + FieldsText(v, SortedKeys(v.obj.Keys))
      decreases left
    {
      LeastKey(left);
      var k :| IsLeast(k, left);
      LeastIn(k, left);
      SeparatedStep(v, left, first, k);
      ghost var before := r;
      if !first { r := r + [',']; }
      r := WriteEscaped(k, r);
      r := r + [':'];
      r := WriteValue(v.obj[k], r);
      assert r + Separated(v, left - {k}, false) == before + Separated(v, left, first);
      left, first := left - {k}, false;
    }
    SeparatedEnd(v, first);
    assert r + [] == r;
  }

  /** What is still to be written: the remaining fields, after a comma unless nothing was written yet. */
  ghost function Separated(v: Value, left: set<string>, first: bool): string
    requires v.Obj? && left <= v.obj.Keys
  {
    if left == {} then [] else (if first then [] else [',']) + FieldsText(v, SortedKeys(left))
  }

  lemma SeparatedStart(v: Value)
    requires v.Obj?
    ensures Separated(v, v.obj.Keys, true) == FieldsText(v, SortedKeys(v.obj.Keys))
  {}

  lemma SeparatedEnd(v: Value, first: bool)
    requires v.Obj?
    ensures Separated(v, {}, first) == []
  {}

  lemma SeparatedStep(v: Value, left: set<string>, first: bool, k: string)
    requires v.Obj? && left <= v.obj.Keys && IsLeast(k, left)
    ensures k in v.obj
    ensures Separated(v, left, first)
            == (if first then [] else [',']) + (Quoted(k) + ([':'] + (Text(v.obj[k]) + Separated(v, left - {k}, false))))
  {
    hide Text, Quoted, SortedKeys, IsLeast;
    LeastIn(k, left);
    SortedStep(left, k);
    var rest := SortedKeys(left - {k});
    assert left - {k} == {} <==> rest == [] by { assert forall x :: x in rest <==> x in left - {k}; if rest != [] { assert rest[0] in rest; } }
    assert ([k] + rest)[1..] == rest;
    assert FieldsText(v, [k] + rest)
        == FieldText(v, k) + (if rest == [] then [] else [','] + FieldsText(v, rest));
  }

  lemma LeastIn(k: string, s: set<string>)
    requires IsLeast(k, s)
    ensures k in s
  {}

  lemma SortedStep(s: set<string>, m: string)
    requires IsLeast(m, s)
    ensures SortedKeys(s) == [m] + SortedKeys(s - {m})
  {
    var c := SortedKeys(s)[0];
    assert IsLeast(c, s);
    LeastKeyUnique(s, m, c);
  }

  // --- parser: a cursor into the text ---

  class Parser {
    const text: string
    var p: nat

    ghost predicate Valid()
      reads this
    {
      p <= |text|
    }

    /** What is left to read. */
    ghost function Left(): string
      reads this
      requires Valid()
    {
      text[p..]
    }

    constructor (text: string)
      ensures Valid() && this.text == text && Left() == text
    {
      this.text := text;
      p := 0;
    }

    method SkipSpace()
      requires Valid()
      modifies this
      ensures Valid() && p >= old(p) && Left() == SkipWs(old(Left()))
    {
      while p < |text| && IsWs(text[p])
        invariant Valid() && p >= old(p) && SkipWs(Left()) == SkipWs(old(Left()))
        decreases |text| - p
      {
        assert Left()[1..] == text[p + 1..];
        p := p + 1;
      }
    }

    method Consume(c: char) returns (found: bool)
      requires Valid()
      modifies this
      ensures Valid() && found == StartsWith(old(Left()), c)
      ensures if found then p == old(p) + 1 && Left() == old(Left())[1..] else p == old(p)
    {
      found := p < |text| && text[p] == c;
      if found { p := p + 1; }
    }

    method ParseHex4() returns (ok: bool, cp: nat)
      requires Valid()
      modifies this
      ensures Valid() && p >= old(p) && ok == Hex4(old(Left())).Good?
      ensures ok ==> Hex4(old(Left())) == Good(cp, Left())
    {
      ghost var s := Left();
      ok, cp := false, 0;
      if |text| - p < 4 { return; }
      for i := 0 to 4
        invariant p == old(p) && cp >= 0
        invariant forall j | 0 <= j < i :: HexValue(s[j]) >= 0
        invariant i == 1 ==> cp == HexValue(s[0])
        invariant i == 2 ==> cp == HexValue(s[0]) * 16 + HexValue(s[1])
        invariant i == 3 ==> cp == (HexValue(s[0]) * 16 + HexValue(s[1])) * 16 + HexValue(s[2])
        invariant i == 4 ==> cp == ((HexValue(s[0]) * 16 + HexValue(s[1])) * 16 + HexValue(s[2])) * 16 + HexValue(s[3])
        invariant i == 0 ==> cp == 0
      {
        var d := HexValue(text[p + i]);
        assert s[i] == text[p + i];
        if d < 0 { return; }
        cp := cp * 16 + d;
      }
      p := p + 4;
      ok := true;
    }

    method ParseCodePoint() returns (ok: bool, cp: nat)
      requires Valid()
      modifies this
      ensures Valid() && p >= old(p) && ok == CodePoint(old(Left())).Good?
      ensures ok ==> CodePoint(old(Left())) == Good(cp, Left())
    {
      hide Hex4;
      ok, cp := ParseHex4();
      if !ok { return; }
      if 0xD800 <= cp <= 0xDBFF {
        if |text| - p < 6 || text[p] != '\\' || text[p + 1] != 'u' {
          cp := 0xFFFD;
          return;
        }
        ghost var rest := Left();
        p := p + 2;
        assert Left() == rest[2..];
        var lo;
        ok, lo := ParseHex4();
        if !ok { return; }
        if lo < 0xDC00 || lo > 0xDFFF { ok := false; return; }
        cp := 0x1_0000 + (cp - 0xD800) * 0x400 + (lo - 0xDC00);
      } else if 0xDC00 <= cp <= 0xDFFF {
        ok := false;
      }
    }

    /** The cursor stands behind the opening quote. */
    method ParseStringBody() returns (ok: bool, out: string)
      requires Valid()
      modifies this
      ensures Valid() && p >= old(p) && ok == ParseString(old(Left()), []).Good?
      ensures ok ==> ParseString(old(Left()), []) == Good(out, Left())
    {
      hide CodePoint, Utf8, Unescaped;
      ok, out := false, [];
      ghost var all := ParseString(Left(), []);
      while p < |text|
        invariant Valid() && p >= old(p) && all == ParseString(Left(), out)
        decreases |text| - p
      {
        ghost var s := Left();
        var c := text[p];
        p := p + 1;
        assert Left() == s[1..];
        if c == '"' { ok := true; return; }
        if c == '\\' {
          if p >= |text| { break; }
          var e := text[p];
          p := p + 1;
          assert Left() == s[2..];
          if e == 'u' {
            var good, cp := ParseCodePoint();
            if !good { return; }
            out := out + Utf8(cp);
          } else {
            if Unescaped(e) == [] { return; }
            out := out + Unescaped(e);
          }
        } else if c as int < 0x20 {
          return;
        } else {
          out := out + [c];
        }
      }
    }

    method SkipDigits()
      requires Valid()
      modifies this
      ensures Valid() && p == old(p) + DigitRun(old(Left()))
    {
      while p < |text| && IsDigit(text[p])
        invariant Valid() && p >= old(p) && DigitRun(old(Left())) == (p - old(p)) + DigitRun(Left())
        decreases |text| - p
      {
        assert Left()[1..] == text[p + 1..];
        p := p + 1;
      }
    }

    /** An optional sign and digits; fractions, exponents and values outside int64 are refused. */
    method ParseNumberHere() returns (ok: bool, out: Value)
      requires Valid()
      modifies this
      ensures Valid() && p >= old(p) && ok == ParseNumber(old(Left())).Good?
      ensures ok ==> ParseNumber(old(Left())) == Good(out, Left())
    {
      hide DigitsValue, DigitRun;
      ok, out := false, Null;
      ghost var s := Left();
      var start := p;
      if p < |text| && text[p] == '-' { p := p + 1; }
      var digits := p;
      assert Left() == s[digits - start..];
      SkipDigits();
      assert Left() == s[p - start..];
      if p == digits { return; }
      if p < |text| && (text[p] == '.' || text[p] == 'e' || text[p] == 'E') { return; }
      assert text[digits..p] == s[digits - start..p - start];
      var magnitude := ParseDigits(text[digits..p]);
      var v := if digits > start then -magnitude else magnitude;
      if v < MIN_INT64 || v > MAX_INT64 { return; }
      ok, out := true, Int(v);
    }

    method ParseWord(word: string, v: Value) returns (ok: bool, out: Value)
      requires Valid() && word != []
      modifies this
      ensures Valid() && p >= old(p) && ok == ParseLiteral(old(Left()), word, v).Good?
      ensures ok ==> ParseLiteral(old(Left()), word, v) == Good(out, Left())
    {
      out := v;
      ok := |text| - p >= |word| && text[p..p + |word|] == word;
      assert |text| - p >= |word| ==> Left()[..|word|] == text[p..p + |word|];
      if ok {
        assert Left()[|word|..] == text[p + |word|..];
        p := p + |word|;
      }
    }

    method ParseValueHere() returns (ok: bool, out: Value)
      requires Valid()
      modifies this
      ensures Valid() && p >= old(p) && ok == ParseValue(old(Left())).Good?
      ensures ok ==> p > old(p) && ParseValue(old(Left())) == Good(out, Left())
      decreases |text| - p, 2
    {
      hide ParseString, ParseArray, ParseObject, ParseNumber, ParseLiteral, SkipWs;
      ok, out := false, Null;
      ghost var before := |text| - p;
      SkipSpace();
      if p >= |text| { return; }
      ghost var t := Left();
      var c := text[p];
      if c == '{' {
        p := p + 1;
        assert Left() == t[1..];
        ok, out := ParseObjectBody();
      } else if c == '[' {
        p := p + 1;
        assert Left() == t[1..];
        ok, out := ParseArrayBody();
      } else if c == '"' {
        p := p + 1;
        assert Left() == t[1..];
        var s;
        ok, s := ParseStringBody();
        out := Str(s);
      } else if c == 't' {
        ok, out := ParseWord("true", Bool(true));
      } else if c == 'f' {
        ok, out := ParseWord("false", Bool(false));
      } else if c == 'n' {
        ok, out := ParseWord("null", Null);
      } else {
        ok, out := ParseNumberHere();
      }
    }

    /** The cursor stands behind the opening bracket. */
    method ParseArrayBody() returns (ok: bool, out: Value)
      requires Valid()
      modifies this
      ensures Valid() && p >= old(p) && ok == ParseArray(old(Left())).Good?
      ensures ok ==> ParseArray(old(Left())) == Good(out, Left())
      decreases |text| - p, 4
    {
      hide ParseValue, SkipWs;
      ok, out := false, Null;
      ghost var start := Left();
      SkipSpace();
      var closed := Consume(']');
      if closed { return true, Arr([]); }
      var acc: seq<Value> := [];
      ghost var all := ParseElements(Left(), []);
      while true
        invariant Valid() && p >= old(p) && all == ParseElements(Left(), acc)
        decreases |text| - p
      {
        var good, v := ParseValueHere();
        if !good { return; }
        SkipSpace();
        closed := Consume(']');
        if closed { return true, Arr(acc + [v]); }
        var comma := Consume(',');
        if !comma { return; }
        acc := acc + [v];
      }
    }

    /** The cursor stands behind the opening brace. */
    method ParseObjectBody() returns (ok: bool, out: Value)
      requires Valid()
      modifies this
      ensures Valid() && p >= old(p) && ok == ParseObject(old(Left())).Good?
      ensures ok ==> ParseObject(old(Left())) == Good(out, Left())
      decreases |text| - p, 4
    {
      hide ParseValue, ParseString, SkipWs;
      ok, out := false, Null;
      SkipSpace();
      var closed := Consume('}');
      if closed { return true, Obj(map[]); }
      var acc: map<string, Value> := map[];
      ghost var all := ParseMembers(Left(), map[]);
      while true
        invariant Valid() && p >= old(p) && all == ParseMembers(Left(), acc)
        decreases |text| - p
      {
        SkipSpace();
        var quote := Consume('"');
        if !quote { return; }
        var good, key := ParseStringBody();
        if !good { return; }
        SkipSpace();
        var colon := Consume(':');
        if !colon { return; }
        var v;
        good, v := ParseValueHere();
        if !good { return; }
        acc := acc[key := v];
        SkipSpace();
        closed := Consume('}');
        if closed { return true, Obj(acc); }
        var comma := Consume(',');
        if !comma { return; }
      }
    }
  }

  /** std::stoll on a digit string. */
  method ParseDigits(s: string) returns (n: int)
    ensures n == DigitsValue(s)
  {
    n := 0;
    for i := 0 to |s|
      invariant n == DigitsValue(s[..i])
    {
      assert s[..i + 1][..i] == s[..i];
      n := n * 10 + (s[i] as int - '0' as int);
    }
    assert s[..|s|] == s;
  }

  /** Parse: one value, then nothing but white space. */
  method Parse(text: string) returns (out: Option<Value>)
    ensures out == ParseText(text)
  {
    hide ParseValue;
    var parser := new Parser(text);
    var ok, v := parser.ParseValueHere();
    if !ok { return None; }
    parser.SkipSpace();
    assert parser.Left() == [] <==> parser.p == |text|;
    out := if parser.p == |text| then Some(v) else None;
  }
}
