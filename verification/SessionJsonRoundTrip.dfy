/** Parsing a written value gives the value back. */
module SessionJsonRoundTrip {
  import opened Wrappers
  import opened SessionJson

  // --- numbers ---

  predicate AllDigits(s: string) {
    forall c <- s :: IsDigit(c)
  }

  lemma DigitFacts(n: nat)
    requires n < 10
    ensures IsDigit(Digit(n)) && Digit(n) as int - '0' as int == n
  {}

  lemma {:induction false} DecimalFacts(n: nat)
    ensures AllDigits(Decimal(n)) && Decimal(n) != [] && DigitsValue(Decimal(n)) == n
  {
    DigitFacts(n % 10);
    if n >= 10 {
      DecimalFacts(n / 10);
      var head := Decimal(n / 10);
      assert Decimal(n)[..|head|] == head;
    } else {
      assert DigitsValue([]) == 0;
      assert Decimal(n)[..0] == [];
    }
  }

  /** What may follow a number without being taken for part of it. */
  predicate EndsNumber(rest: string) {
    rest == [] || (!IsDigit(rest[0]) && rest[0] != '.' && rest[0] != 'e' && rest[0] != 'E')
  }

  lemma {:induction false} DigitRunOf(s: string, rest: string)
    requires AllDigits(s) && EndsNumber(rest)
    ensures DigitRun(s + rest) == |s|
  {
    if s == [] {
      assert s + rest == rest;
    } else {
      assert (s + rest)[1..] == s[1..] + rest;
      DigitRunOf(s[1..], rest);
    }
  }

  lemma NumberRoundTrip(i: int, rest: string)
    requires MIN_INT64 <= i <= MAX_INT64 && EndsNumber(rest)
    ensures ParseNumber(IntText(i) + rest) == Good(Int(i), rest)
  {
    hide Decimal, DigitsValue, ParseNumber, AllDigits, EndsNumber;
    var n := if i < 0 then -i else i;
    DecimalFacts(n);
    var d := Decimal(n);
    if i < 0 { SignedRoundTrip(['-'], d, i, rest); } else {
      assert [] + d == d;
      SignedRoundTrip([], d, i, rest);
    }
  }

  lemma SignedRoundTrip(sign: string, d: string, i: int, rest: string)
    requires MIN_INT64 <= i <= MAX_INT64 && EndsNumber(rest) && AllDigits(d) && d != []
    requires sign == (if i < 0 then ['-'] else []) && DigitsValue(d) == (if i < 0 then -i else i)
    ensures ParseNumber(sign + d + rest) == Good(Int(i), rest)
  {
    hide DigitsValue, DigitRun;
    DigitRunOf(d, rest);
    SignedSlices(sign, d, rest);
    assert d[0] in d;
  }

  lemma SignedSlices(sign: string, d: string, rest: string)
    ensures var s, n := sign + d + rest, |sign|;
            && s[n..] == d + rest && s[n..n + |d|] == d && s[n + |d|..] == rest
            && (sign != [] ==> s[0] == sign[0]) && (sign == [] && d != [] ==> s[0] == d[0])
  {}

  // --- strings ---

  lemma EscapeRoundTrip(c: char, rest: string, acc: string)
    ensures ParseString(Escaped(c) + rest, acc) == ParseString(rest, acc + [c])
  {
    var n := c as int;
    var s := Escaped(c) + rest;
    if c != '"' && c != '\\' && n < 0x20 && n != 8 && n != 12 && n != 10 && n != 13 && n != 9 {
      assert s[2..] == ['0', '0', HexDigit(n / 16), HexDigit(n % 16)] + rest;
      HexRoundTrip(n / 16);
      HexRoundTrip(n % 16);
      assert s[2..][4..] == rest;
      assert CodePoint(s[2..]) == Good(n, rest);
      assert Utf8(n) == [c];
    } else if |Escaped(c)| == 1 {
      assert s[1..] == rest;
    } else {
      assert s[2..] == rest;
      assert Unescaped(s[1]) == [c];
    }
  }

  lemma HexRoundTrip(n: nat)
    requires n < 16
    ensures HexValue(HexDigit(n)) == n
  {}

  lemma ClosingQuote(rest: string, acc: string)
    ensures ParseString(['"'] + rest, acc) == Good(acc, rest)
  {}

  lemma {:induction false} StringRoundTrip(s: string, rest: string, acc: string)
    ensures ParseString(EscapedText(s) + (['"'] + rest), acc) == Good(acc + s, rest)
  {
    hide Escaped, ParseString;
    if s == [] {
      assert EscapedText(s) + (['"'] + rest) == ['"'] + rest;
      ClosingQuote(rest, acc);
      assert acc + s == acc;
    } else {
      var tail := EscapedText(s[1..]) + (['"'] + rest);
      assert EscapedText(s) + (['"'] + rest) == Escaped(s[0]) + tail;
      EscapeRoundTrip(s[0], tail, acc);
      StringRoundTrip(s[1..], rest, acc + [s[0]]);
      assert acc + s == (acc + [s[0]]) + s[1..];
    }
  }

  // --- values ---

  /** The first character of a written value is not white space, so nothing is skipped before it. */
  lemma TextStart(v: Value)
    ensures Text(v) != [] && !IsWs(Text(v)[0])
    ensures match v
            case Null => Text(v)[0] == 'n'
            case Bool(b) => Text(v)[0] == if b then 't' else 'f'
            case Int(i) => Text(v)[0] == '-' || IsDigit(Text(v)[0])
            case Str(s) => Text(v)[0] == '"'
            case Arr(vs) => Text(v)[0] == '['
            case Obj(o) => Text(v)[0] == '{'
  {
    match v
    case Int(i) =>
      var d := Decimal(if i < 0 then -i else i);
      DecimalFacts(if i < 0 then -i else i);
      assert d[0] in d && Text(v) == IntText(i);
    case _ =>
  }

  lemma LiteralRoundTrip(word: string, v: Value, rest: string)
    requires word != []
    ensures ParseLiteral(word + rest, word, v) == Good(v, rest)
  {
    assert (word + rest)[..|word|] == word && (word + rest)[|word|..] == rest;
  }

  lemma {:induction false} ValueRoundTrip(v: Value, rest: string)
    requires InRange(v) && EndsNumber(rest)
    ensures ParseValue(Text(v) + rest) == Good(v, rest)
    decreases v
  {
    hide ParseString, ParseArray, ParseObject, ParseNumber, ParseLiteral, EscapedText, ElementsText, FieldsText,
         Decimal, ParseValue, IsWs, IsDigit, InRange;
    TextStart(v);
    match v
    case Null =>
      LiteralRoundTrip("null", v, rest);
      Dispatch(v, rest);
    case Bool(b) =>
      LiteralRoundTrip(if b then "true" else "false", v, rest);
      Dispatch(v, rest);
    case Int(i) =>
      IntRange(v);
      NumberRoundTrip(i, rest);
      Dispatch(v, rest);
    case Str(t) => StrRoundTrip(t, rest);
    case Arr(vs) =>
      ArrayRoundTrip(v, rest);
      Bracketed('[', ElementsText(v, 0), ']', rest);
      Dispatch(v, rest);
    case Obj(o) =>
      ObjectRoundTrip(v, rest);
      Bracketed('{', FieldsText(v, SortedKeys(o.Keys)), '}', rest);
      Dispatch(v, rest);
  }

  lemma IntRange(v: Value)
    requires v.Int? && InRange(v)
    ensures MIN_INT64 <= v.integer <= MAX_INT64
  {}

  lemma Bracketed(open: char, body: string, close: char, rest: string)
    ensures ([open] + (body + [close]) + rest)[1..] == body + ([close] + rest)
  {}

  /** The first character of a value's text decides how the text is read. */
  lemma Dispatch(v: Value, rest: string)
    requires !v.Str?
    ensures Text(v) != []
    ensures var s := Text(v) + rest;
            ParseValue(s) == match v
                             case Null => ParseLiteral(s, "null", v)
                             case Bool(b) => ParseLiteral(s, if b then "true" else "false", v)
                             case Int(_) => ParseNumber(s)
                             case Str(_) => Bad
                             case Arr(_) => ParseArray(s[1..])
                             case Obj(_) => ParseObject(s[1..])
  {
    hide ParseString, ParseArray, ParseObject, ParseNumber, ParseLiteral, Text;
    TextStart(v);
    assert SkipWs(Text(v) + rest) == Text(v) + rest;
  }

  lemma StrRoundTrip(t: string, rest: string)
    ensures ParseValue(Text(Str(t)) + rest) == Good(Str(t), rest)
  {
    hide ParseString, ParseArray, ParseObject, ParseNumber, ParseLiteral, EscapedText;
    var s := Text(Str(t)) + rest;
    TextStart(Str(t));
    assert SkipWs(s) == s;
    StringRoundTrip(t, rest, []);
    assert s[1..] == EscapedText(t) + (['"'] + rest);
    assert [] + t == t;
  }

  lemma {:induction false} ArrayRoundTrip(v: Value, rest: string)
    requires v.Arr? && InRange(v)
    ensures ParseArray(ElementsText(v, 0) + ([']'] + rest)) == Good(v, rest)
    decreases v, |v.arr| + 1
  {
    var s := ElementsText(v, 0) + ([']'] + rest);
    if v.arr == [] {
      assert s == [']'] + rest;
    } else {
      var t := Text(v.arr[0]) + (ElementsText(v, 1) + ([']'] + rest));
      assert s == t;
      TextStart(v.arr[0]);
      assert SkipWs(s) == s && s[0] != ']';
      ElementsRoundTrip(v, 0, rest);
    }
  }

  /** After the separator, the parser reads the remaining elements. */
  lemma {:induction false} ElementsRoundTrip(v: Value, i: nat, rest: string)
    requires v.Arr? && InRange(v) && i < |v.arr|
    ensures ParseElements(Text(v.arr[i]) + (ElementsText(v, i + 1) + ([']'] + rest)), v.arr[..i]) == Good(v, rest)
    decreases v, |v.arr| - i
  {
    var after := ElementsText(v, i + 1) + ([']'] + rest);
    assert v.arr[..i] + [v.arr[i]] == v.arr[..i + 1];
    if i + 1 == |v.arr| {
      assert after == [']'] + rest;
      ValueRoundTrip(v.arr[i], after);
      assert v.arr[..i + 1] == v.arr;
    } else {
      var t := Text(v.arr[i + 1]) + (ElementsText(v, i + 2) + ([']'] + rest));
      assert after == [','] + t;
      ValueRoundTrip(v.arr[i], after);
      assert after[1..] == t;
      ElementsRoundTrip(v, i + 1, rest);
    }
  }

  lemma {:induction false} ObjectRoundTrip(v: Value, rest: string)
    requires v.Obj? && InRange(v)
    ensures ParseObject(FieldsText(v, SortedKeys(v.obj.Keys)) + (['}'] + rest)) == Good(v, rest)
    decreases v, |v.obj| + 2
  {
    hide ParseMembers, Text, EscapedText, InRange, FieldsText, Collected;
    var ks := SortedKeys(v.obj.Keys);
    var s := FieldsText(v, ks) + (['}'] + rest);
    if ks == [] {
      assert s == ['}'] + rest by { FieldsStart(v, ks); }
      assert v.obj.Keys == {} && v.obj == map[];
    } else {
      FieldsStart(v, ks);
      assert SkipWs(s) == s && s[0] != '}';
      SortedKeysCover(v.obj);
      MembersRoundTrip(v, ks, map[], rest);
    }
  }

  lemma FieldsStart(v: Value, ks: seq<string>)
    requires v.Obj? && forall k <- ks :: k in v.obj
    ensures if ks == [] then FieldsText(v, ks) == [] else StartsWith(FieldsText(v, ks), '"')
  {
    if ks != [] { assert FieldText(v, ks[0])[0] == '"'; }
  }

  /** acc with the fields of o for the keys ks added one after the other. */
  ghost function Collected(acc: map<string, Value>, o: map<string, Value>, ks: seq<string>): map<string, Value>
    requires forall k <- ks :: k in o
    decreases |ks|
  {
    if ks == [] then acc else Collected(acc[ks[0] := o[ks[0]]], o, ks[1..])
  }

  lemma {:induction false} CollectedKeys(acc: map<string, Value>, o: map<string, Value>, ks: seq<string>)
    requires forall k <- ks :: k in o
    ensures forall k :: k in Collected(acc, o, ks) <==> k in acc || k in ks
    ensures forall k | k in Collected(acc, o, ks) ::
              Collected(acc, o, ks)[k] == if k in ks then o[k] else acc[k]
    decreases |ks|
  {
    if ks != [] { CollectedKeys(acc[ks[0] := o[ks[0]]], o, ks[1..]); }
  }

  lemma SortedKeysCover(o: map<string, Value>)
    ensures |SortedKeys(o.Keys)| == |o| && Collected(map[], o, SortedKeys(o.Keys)) == o
  {
    hide Collected, SortedKeys;
    var ks := SortedKeys(o.Keys);
    KeysCount(ks, o.Keys);
    CollectedKeys(map[], o, ks);
  }

  lemma {:induction false} KeysCount(ks: seq<string>, s: set<string>)
    requires forall k :: k in ks <==> k in s
    requires forall i, j | 0 <= i < j < |ks| :: ks[i] != ks[j]
    ensures |ks| == |s|
  {
    if ks == [] {
      assert s == {};
    } else {
      var rest := s - {ks[0]};
      forall k ensures k in ks[1..] <==> k in rest {
        if k in ks[1..] { var i :| 0 <= i < |ks[1..]| && ks[1..][i] == k; assert ks[i + 1] == k; }
      }
      KeysCount(ks[1..], rest);
    }
  }

  lemma {:induction false} MembersRoundTrip(v: Value, ks: seq<string>, acc: map<string, Value>, rest: string)
    requires v.Obj? && InRange(v) && ks != [] && |ks| <= |v.obj| && forall k <- ks :: k in v.obj
    ensures ParseMembers(FieldsText(v, ks) + (['}'] + rest), acc) == Good(Obj(Collected(acc, v.obj, ks)), rest)
    decreases v, |ks| + 1
  {
    hide ParseMembers, Text, Quoted, InRange;
    var k, end := ks[0], ['}'] + rest;
    var after := if |ks| == 1 then end else [','] + (FieldsText(v, ks[1..]) + end);
    assert FieldsText(v, ks) + end == Quoted(k) + ([':'] + (Text(v.obj[k]) + after));
    MemberStep(v, k, after, acc);
    if |ks| > 1 {
      MembersRoundTrip(v, ks[1..], acc[k := v.obj[k]], rest);
      assert after[1..] == FieldsText(v, ks[1..]) + end;
    }
  }

  /** One member: the key, the colon and the value are consumed, and the separator decides what follows. */
  lemma {:induction false} MemberStep(v: Value, k: string, after: string, acc: map<string, Value>)
    requires v.Obj? && InRange(v) && k in v.obj && after != [] && (after[0] == '}' || after[0] == ',')
    ensures ParseMembers(Quoted(k) + ([':'] + (Text(v.obj[k]) + after)), acc)
            == var acc' := acc[k := v.obj[k]];
               if after[0] == '}' then Good(Obj(acc'), after[1..]) else ParseMembers(after[1..], acc')
    decreases v, 0
  {
    hide ParseString, EscapedText, Text, ParseValue;
    var colon := [':'] + (Text(v.obj[k]) + after);
    var s := Quoted(k) + colon;
    assert s[1..] == EscapedText(k) + (['"'] + colon);
    StringRoundTrip(k, colon, []);
    assert [] + k == k;
    ValueRoundTrip(v.obj[k], after);
    assert colon[1..] == Text(v.obj[k]) + after;
    assert SkipWs(s) == s && SkipWs(colon) == colon && SkipWs(after) == after;
  }

  /** The whole round trip, for every value tree whose integers are int64. */
  lemma RoundTrip(v: Value)
    requires InRange(v)
    ensures ParseText(Text(v)) == Some(v)
  {
    ValueRoundTrip(v, []);
    assert Text(v) + [] == Text(v);
  }

  /** An integer outside int64 is not written by this model of the store, and would not be read back. */
  lemma OutOfRangeRejected(i: int)
    requires !(MIN_INT64 <= i <= MAX_INT64)
    ensures ParseText(IntText(i)) == None
  {
    hide Decimal, DigitsValue, DigitRun, Digit;
    var n := if i < 0 then -i else i;
    var d, s := Decimal(n), IntText(i);
    DecimalFacts(n);
    DigitRunOf(d, []);
    assert d + [] == d;
    var start := if i < 0 then 1 else 0;
    assert i >= 0 ==> s[0] == d[0] && d[0] in d;
    assert i < 0 ==> d[0] in d;
    assert s[start..] == d && s[start..start + |d|] == d;
    assert SkipWs(s) == s;
  }
}
