/** The texts that the parser accepts: exactly the spellings of a value, each read as that value. */
module JsonGrammar {
  import opened Wrappers
  import opened SessionJson
  import opened SessionJsonRoundTrip

  // --- spellings ---

  /** One unit of a string literal: a plain character, a two-character escape, or four hex digits, twice for a pair. */
  datatype Unit = Plain(c: char) | Short(e: char) | Hex(h: string) | Pair(hi: string, lo: string)

  /** A value as it is spelled, with the white space inside it. */
  datatype Node =
    | Word(word: string)
    | Number(negative: bool, digits: string)
    | Literal(units: seq<Unit>)
    | Array(blank: string, items: seq<Item>)
    | Object(blank: string, members: seq<Member>)

  /** A value between white space. */
  datatype Item = Item(before: string, node: Node, after: string)

  datatype Member = Member(before: string, key: seq<Unit>, after: string, item: Item)

  /** The two-character escapes and what they stand for. */
  const SHORT: map<char, char> :=
    map['"' := '"', '\\' := '\\', '/' := '/', 'b' := 8 as char, 'f' := 12 as char, 'n' := '\n', 'r' := '\r', 't' := '\t']

  function UnitText(u: Unit): string {
    match u
    case Plain(c) => [c]
    case Short(e) => ['\\', e]
    case Hex(h) => ['\\', 'u'] + h
    case Pair(hi, lo) => ['\\', 'u'] + hi + (['\\', 'u'] + lo)
  }

  function UnitsText(us: seq<Unit>): string {
    if us == [] then [] else UnitText(us[0]) + UnitsText(us[1..])
  }

  function LiteralText(us: seq<Unit>): string {
    ['"'] + (UnitsText(us) + ['"'])
  }

  function Spelled(n: Node): string
    decreases n
  {
    match n
    case Word(w) => w
    case Number(neg, digits) => (if neg then ['-'] else []) + digits
    case Literal(us) => LiteralText(us)
    case Array(blank, items) => ['['] + ((if items == [] then blank else ItemsText(items)) + [']'])
    case Object(blank, members) => ['{'] + ((if members == [] then blank else MembersText(members)) + ['}'])
  }

  function ItemText(i: Item): string
    decreases i
  {
    i.before + (Spelled(i.node) + i.after)
  }

  /** Items separated by commas. */
  function ItemsText(items: seq<Item>): string
    decreases items
  {
    if items == [] then [] else ItemText(items[0]) + (if |items| == 1 then [] else [','] + ItemsText(items[1..]))
  }

  function MemberText(m: Member): string
    decreases m
  {
    m.before + (LiteralText(m.key) + (m.after + ([':'] + ItemText(m.item))))
  }

  function MembersText(members: seq<Member>): string
    decreases members
  {
    if members == [] then [] else MemberText(members[0]) + (if |members| == 1 then [] else [','] + MembersText(members[1..]))
  }

  // --- what is well formed ---

  predicate Blank(s: string) {
    forall c <- s :: IsWs(c)
  }

  predicate FourHex(h: string) {
    |h| == 4 && forall c <- h :: HexValue(c) >= 0
  }

  function HexNumber(h: string): (r: nat)
    ensures r < 0x1_0000
  {
    if !FourHex(h) then 0 else
    assert h[0] in h && h[1] in h && h[2] in h && h[3] in h;
    ((HexValue(h[0]) * 16 + HexValue(h[1])) * 16 + HexValue(h[2])) * 16 + HexValue(h[3])
  }

  predicate High(v: nat) { 0xD800 <= v < 0xDC00 }

  predicate Low(v: nat) { 0xDC00 <= v < 0xE000 }

  /** Control characters must be escaped; surrogates come as a high one and a low one, or a high one before anything but
      another four-digit escape. */
  predicate UnitOk(u: Unit, next: string) {
    match u
    case Plain(c) => c as int >= 0x20 && c != '"' && c != '\\'
    case Short(e) => e in SHORT
    case Hex(h) => FourHex(h) && !Low(HexNumber(h)) && (High(HexNumber(h)) ==> !(['\\', 'u'] <= next))
    case Pair(hi, lo) => FourHex(hi) && FourHex(lo) && High(HexNumber(hi)) && Low(HexNumber(lo))
  }

  predicate UnitsOk(us: seq<Unit>) {
    us == [] || (UnitOk(us[0], UnitsText(us[1..])) && UnitsOk(us[1..]))
  }

  predicate NodeOk(n: Node)
    decreases n
  {
    match n
    case Word(w) => w in {"null", "true", "false"}
    case Number(neg, digits) => digits != [] && AllDigits(digits) && MIN_INT64 <= NumberOf(neg, digits) <= MAX_INT64
    case Literal(us) => UnitsOk(us)
    case Array(blank, items) => Blank(blank) && forall i | 0 <= i < |items| :: ItemOk(items[i])
    case Object(blank, members) => Blank(blank) && forall i | 0 <= i < |members| :: MemberOk(members[i])
  }

  predicate ItemOk(i: Item)
    decreases i
  {
    Blank(i.before) && NodeOk(i.node) && Blank(i.after)
  }

  predicate MemberOk(m: Member)
    decreases m
  {
    Blank(m.before) && UnitsOk(m.key) && Blank(m.after) && ItemOk(m.item)
  }

  // --- what is denoted ---

  function NumberOf(negative: bool, digits: string): int {
    if negative then -DigitsValue(digits) else DigitsValue(digits)
  }

  function UnitValue(u: Unit): string {
    match u
    case Plain(c) => [c]
    case Short(e) => if e in SHORT then [SHORT[e]] else []
    case Hex(h) => Utf8(if High(HexNumber(h)) then 0xFFFD else HexNumber(h))
    case Pair(hi, lo) =>
      if !High(HexNumber(hi)) || !Low(HexNumber(lo)) then []
      else Utf8(0x1_0000 + (HexNumber(hi) - 0xD800) * 0x400 + (HexNumber(lo) - 0xDC00))
  }

  function UnitsValue(us: seq<Unit>): string {
    if us == [] then [] else UnitValue(us[0]) + UnitsValue(us[1..])
  }

  function Denoted(n: Node): Value
    decreases n, 0
  {
    match n
    case Word(w) => if w == "null" then Null else Bool(w == "true")
    case Number(neg, digits) => Int(NumberOf(neg, digits))
    case Literal(us) => Str(UnitsValue(us))
    case Array(_, items) => Arr(seq(|items|, i requires 0 <= i < |items| => Denoted(items[i].node)))
    case Object(_, members) => Obj(Merged(map[], members))
  }

  /** The members added one after the other, the last of two equal keys winning. */
  function Merged(acc: map<string, Value>, members: seq<Member>): map<string, Value>
    decreases members, 0
  {
    if members == [] then acc else
    Merged(acc[UnitsValue(members[0].key) := Denoted(members[0].item.node)], members[1..])
  }

  function Values(items: seq<Item>): (vs: seq<Value>)
    ensures |vs| == |items|
  {
    seq(|items|, i requires 0 <= i < |items| => Denoted(items[i].node))
  }

  // --- every spelling is read ---

  lemma {:induction false} SkipBlank(w: string, t: string)
    requires Blank(w) && (t == [] || !IsWs(t[0]))
    ensures SkipWs(w + t) == t
  {
    if w == [] {
      assert w + t == t;
    } else {
      assert w[0] in w;
      assert (w + t)[1..] == w[1..] + t;
      SkipBlank(w[1..], t);
    }
  }

  lemma HexRead(h: string, more: string)
    requires FourHex(h)
    ensures Hex4(h + more) == Good(HexNumber(h), more)
  {
    assert h[0] in h && h[1] in h && h[2] in h && h[3] in h;
    assert (h + more)[4..] == more;
  }

  lemma LonePoint(h: string, more: string)
    requires FourHex(h) && !Low(HexNumber(h))
    requires High(HexNumber(h)) ==> |more| < 6 || more[0] != '\\' || more[1] != 'u'
    ensures CodePoint(h + more) == Good(if High(HexNumber(h)) then 0xFFFD else HexNumber(h), more)
  {
    hide HexNumber, FourHex, Hex4;
    HexRead(h, more);
  }

  lemma PairPoint(hi: string, lo: string, more: string)
    requires FourHex(hi) && FourHex(lo) && High(HexNumber(hi)) && Low(HexNumber(lo))
    ensures CodePoint(hi + (['\\', 'u'] + (lo + more)))
            == Good(0x1_0000 + (HexNumber(hi) - 0xD800) * 0x400 + (HexNumber(lo) - 0xDC00), more)
  {
    FourLong(lo);
    hide HexNumber, FourHex, Hex4;
    var after := ['\\', 'u'] + (lo + more);
    HexRead(hi, after);
    assert after[2..] == lo + more;
    HexRead(lo, more);
  }

  lemma Escape(x: string)
    ensures var e := ['\\', 'u'] + x; |e| == |x| + 2 && e[0] == '\\' && e[1] == 'u' && e[2..] == x
  {}

  lemma PairText(hi: string, lo: string, more: string)
    ensures UnitText(Pair(hi, lo)) + more == ['\\', 'u'] + (hi + (['\\', 'u'] + (lo + more)))
  {}

  lemma HexText(h: string, more: string)
    ensures UnitText(Hex(h)) + more == ['\\', 'u'] + (h + more)
  {}

  lemma CodeRead(u: Unit, next: string, rest: string)
    requires UnitOk(u, next) && (u.Hex? || u.Pair?)
    ensures var more := next + (['"'] + rest);
            var text := UnitText(u) + more;
            |text| > 2 && text[0] == '\\' && text[1] == 'u' && CodePoint(text[2..]).Good?
            && CodePoint(text[2..]).rest == more && Utf8(CodePoint(text[2..]).value) == UnitValue(u)
  {
    hide HexNumber, Utf8, CodePoint, UnitText;
    var more := next + (['"'] + rest);
    match u {
      case Hex(h) =>
        FourLong(h);
        if High(HexNumber(h)) { NoEscape(next, rest); }
        hide FourHex;
        LonePoint(h, more);
        HexText(h, more);
        Escape(h + more);
      case Pair(hi, lo) =>
        FourLong(hi);
        hide FourHex;
        PairPoint(hi, lo, more);
        PairText(hi, lo, more);
        Escape(hi + (['\\', 'u'] + (lo + more)));
    }
  }

  lemma FourLong(h: string)
    requires FourHex(h)
    ensures |h| == 4
  {}

  lemma NoEscape(next: string, rest: string)
    requires !(['\\', 'u'] <= next)
    ensures var more := next + (['"'] + rest); |more| < 6 || more[0] != '\\' || more[1] != 'u'
  {
    var more := next + (['"'] + rest);
    if |next| >= 2 {
      assert more[0] == next[0] && more[1] == next[1];
      assert next[..2] == [next[0], next[1]];
    }
  }

  lemma UnitRead(u: Unit, next: string, rest: string, acc: string)
    requires UnitOk(u, next)
    ensures var more := next + (['"'] + rest);
            ParseString(UnitText(u) + more, acc) == ParseString(more, acc + UnitValue(u))
  {
    hide CodePoint, Utf8, HexNumber, FourHex;
    var more := next + (['"'] + rest);
    var text := UnitText(u) + more;
    match u {
      case Plain(c) => assert text[1..] == more;
      case Short(e) => assert text[2..] == more;
      case Hex(h) => CodeRead(u, next, rest);
      case Pair(hi, lo) => CodeRead(u, next, rest);
    }
  }

  lemma {:induction false} UnitsRead(us: seq<Unit>, rest: string, acc: string)
    requires UnitsOk(us)
    ensures ParseString(UnitsText(us) + (['"'] + rest), acc) == Good(acc + UnitsValue(us), rest)
  {
    hide UnitOk, UnitText, UnitValue, ParseString;
    if us == [] {
      assert UnitsText(us) + (['"'] + rest) == ['"'] + rest;
      ClosingQuote(rest, acc);
      assert acc + [] == acc;
    } else {
      var next := UnitsText(us[1..]);
      assert UnitsText(us) + (['"'] + rest) == UnitText(us[0]) + (next + (['"'] + rest));
      UnitRead(us[0], next, rest, acc);
      UnitsRead(us[1..], rest, acc + UnitValue(us[0]));
      assert acc + UnitsValue(us) == (acc + UnitValue(us[0])) + UnitsValue(us[1..]);
    }
  }

  // --- values ---

  /** The first character tells what kind of value follows. */
  lemma NodeStart(n: Node)
    requires NodeOk(n)
    ensures Spelled(n) != [] && !IsWs(Spelled(n)[0])
    ensures match n
            case Word(w) => Spelled(n)[0] == w[0]
            case Number(neg, digits) => Spelled(n)[0] == '-' || IsDigit(Spelled(n)[0])
            case Literal(us) => Spelled(n)[0] == '"'
            case Array(_, _) => Spelled(n)[0] == '['
            case Object(_, _) => Spelled(n)[0] == '{'
  {
    match n
    case Number(neg, digits) => assert digits[0] in digits;
    case _ =>
  }

  lemma WordRead(n: Node, rest: string)
    requires n.Word? && NodeOk(n)
    ensures ParseValue(Spelled(n) + rest) == Good(Denoted(n), rest)
  {
    hide ParseString, ParseArray, ParseObject, ParseNumber, ParseLiteral;
    NodeStart(n);
    assert SkipWs(Spelled(n) + rest) == Spelled(n) + rest;
    LiteralRoundTrip(n.word, Denoted(n), rest);
  }

  lemma NumberRead(n: Node, rest: string)
    requires n.Number? && NodeOk(n) && EndsNumber(rest)
    ensures ParseValue(Spelled(n) + rest) == Good(Denoted(n), rest)
  {
    hide ParseString, ParseArray, ParseObject, ParseLiteral, DigitsValue, DigitRun, AllDigits, EndsNumber;
    NodeStart(n);
    var s := Spelled(n) + rest;
    assert SkipWs(s) == s;
    FirstDigit(n.digits);
    DigitRunOf(n.digits, rest);
    SignedSlices(if n.negative then ['-'] else [], n.digits, rest);
    EndsPlain(rest);
  }

  lemma FirstDigit(d: string)
    requires d != [] && AllDigits(d)
    ensures IsDigit(d[0])
  {
    assert d[0] in d;
  }

  lemma EndsPlain(rest: string)
    requires EndsNumber(rest)
    ensures rest != [] ==> rest[0] != '.' && rest[0] != 'e' && rest[0] != 'E'
  {}

  lemma QuoteRead(x: string)
    requires ParseString(x, []).Good?
    ensures ParseValue(['"'] + x) == Good(Str(ParseString(x, []).value), ParseString(x, []).rest)
  {
    hide ParseString, ParseArray, ParseObject, ParseNumber, ParseLiteral;
    var s := ['"'] + x;
    assert SkipWs(s) == s && s[1..] == x;
  }

  lemma LiteralRead(n: Node, rest: string)
    requires n.Literal? && NodeOk(n)
    ensures ParseValue(Spelled(n) + rest) == Good(Denoted(n), rest)
  {
    hide ParseString, ParseValue, UnitsText, UnitsValue;
    var x := UnitsText(n.units) + (['"'] + rest);
    UnitsRead(n.units, rest, []);
    QuoteRead(x);
    assert Spelled(n) + rest == ['"'] + x;
    assert [] + UnitsValue(n.units) == UnitsValue(n.units);
  }

  /** Leading white space does not change how a value is read. */
  lemma LeadingBlank(w: string, t: string)
    requires Blank(w) && t != [] && !IsWs(t[0])
    ensures ParseValue(w + t) == ParseValue(t)
  {
    hide ParseString, ParseArray, ParseObject, ParseNumber, ParseLiteral, Blank;
    SkipBlank(w, t);
    assert SkipWs(t) == t;
  }

  lemma {:induction false} NodeRead(n: Node, w: string, rest: string)
    requires NodeOk(n) && Blank(w) && EndsNumber(rest)
    ensures ParseValue(w + (Spelled(n) + rest)) == Good(Denoted(n), rest)
    decreases n
  {
    hide ParseValue, Blank, EndsNumber, Spelled, Denoted, NodeOk;
    NodeStart(n);
    LeadingBlank(w, Spelled(n) + rest);
    match n
    case Word(_) => WordRead(n, rest);
    case Number(_, _) => NumberRead(n, rest);
    case Literal(_) => LiteralRead(n, rest);
    case Array(_, _) => ArrayRead(n, rest);
    case Object(_, _) => ObjectRead(n, rest);
  }

  lemma {:induction false} ArrayRead(n: Node, rest: string)
    requires NodeOk(n) && n.Array?
    ensures ParseValue(Spelled(n) + rest) == Good(Denoted(n), rest)
    decreases n, 0
  {
    hide ParseString, ParseElements, ParseObject, ParseNumber, ParseLiteral, ItemsText, Blank;
    NodeStart(n);
    var s, end := Spelled(n) + rest, [']'] + rest;
    assert SkipWs(s) == s;
    if n.items == [] {
      assert s[1..] == n.blank + end;
      SkipBlank(n.blank, end);
      assert Denoted(n).arr == [];
    } else {
      assert s[1..] == ItemsText(n.items) + end;
      var first := n.items[0];
      assert ItemOk(first);
      NodeStart(first.node);
      var t := Spelled(first.node) + (ItemsTail(n.items) + end);
      ItemsParts(n.items, end);
      SkipBlank(first.before, t);
      NotClosing(first.node);
      BlankNothing();
      ItemsRead(n.items, [], [], rest);
      assert [] + t == t;
      assert [] + Values(n.items) == Values(n.items);
    }
  }

  lemma BlankNothing()
    ensures Blank([])
  {}

  lemma NotClosing(n: Node)
    requires NodeOk(n)
    ensures Spelled(n) != [] && Spelled(n)[0] != ']'
  {
    hide Spelled, NodeOk;
    NodeStart(n);
    WordStart(n);
  }

  lemma WordStart(n: Node)
    requires NodeOk(n)
    ensures n.Word? ==> n.word != [] && n.word[0] != ']'
  {}

  /** What follows the first item's value. */
  function ItemsTail(items: seq<Item>): string
    requires items != []
  {
    items[0].after + (if |items| == 1 then [] else [','] + ItemsText(items[1..]))
  }

  lemma ItemsParts(items: seq<Item>, end: string)
    requires items != []
    ensures ItemsText(items) + end == items[0].before + (Spelled(items[0].node) + (ItemsTail(items) + end))
  {
    hide Spelled;
  }

  lemma {:induction false} ItemsRead(items: seq<Item>, w: string, acc: seq<Value>, rest: string)
    requires items != [] && Blank(w) && forall i | 0 <= i < |items| :: ItemOk(items[i])
    ensures ParseElements(w + (Spelled(items[0].node) + (ItemsTail(items) + ([']'] + rest))), acc) == Good(Arr(acc + Values(items)), rest)
    decreases items
  {
    hide ParseValue, Spelled, Denoted, NodeOk, Blank, EndsNumber, ItemsText;
    var first, end := items[0], [']'] + rest;
    assert ItemOk(first);
    var more := if |items| == 1 then end else [','] + (ItemsText(items[1..]) + end);
    assert ItemsTail(items) + end == first.after + more;
    AfterBlank(first.after, more);
    NodeRead(first.node, w, first.after + more);
    SkipBlank(first.after, more);
    if |items| == 1 {
      assert acc + Values(items) == acc + [Denoted(first.node)];
    } else {
      assert more[1..] == ItemsText(items[1..]) + end;
      ItemsParts(items[1..], end);
      assert ItemOk(items[1]);
      ItemsRead(items[1..], items[1].before, acc + [Denoted(first.node)], rest);
      assert acc + Values(items) == acc + [Denoted(first.node)] + Values(items[1..]);
    }
  }

  lemma AfterBlank(w: string, more: string)
    requires Blank(w) && more != [] && more[0] in {',', ']', '}'}
    ensures EndsNumber(w + more) && !IsWs(more[0])
  {
    if w != [] { assert w[0] in w; }
  }

  lemma {:induction false} ObjectRead(n: Node, rest: string)
    requires NodeOk(n) && n.Object?
    ensures ParseValue(Spelled(n) + rest) == Good(Denoted(n), rest)
    decreases n, 0
  {
    hide ParseString, ParseElements, ParseArray, ParseMembers, ParseNumber, ParseLiteral, MembersText, Blank, UnitsText, Merged;
    NodeStart(n);
    var s, end := Spelled(n) + rest, ['}'] + rest;
    assert SkipWs(s) == s;
    if n.members == [] {
      assert s[1..] == n.blank + end;
      SkipBlank(n.blank, end);
      NoMembers();
    } else {
      assert s[1..] == MembersText(n.members) + end;
      var first := n.members[0];
      assert MemberOk(first);
      var t := LiteralText(first.key) + (MembersTail(n.members) + end);
      MembersParts(n.members, end);
      SkipBlank(first.before, t);
      BlankNothing();
      MembersRead(n.members, [], map[], rest);
      assert [] + t == t;
    }
  }

  lemma NoMembers()
    ensures Merged(map[], []) == map[]
  {}

  /** What follows the first member's key. */
  function MembersTail(members: seq<Member>): string
    requires members != []
  {
    members[0].after + ([':'] + (ItemText(members[0].item) + (if |members| == 1 then [] else [','] + MembersText(members[1..]))))
  }

  lemma MembersParts(members: seq<Member>, end: string)
    requires members != []
    ensures MembersText(members) + end == members[0].before + (LiteralText(members[0].key) + (MembersTail(members) + end))
  {
    hide ItemText, LiteralText;
    var m := members[0];
    var more := if |members| == 1 then [] else [','] + MembersText(members[1..]);
    assert MembersText(members) == MemberText(m) + more;
    hide MembersText;
    Regroup(m.before, LiteralText(m.key), m.after, ItemText(m.item), more, end);
  }

  lemma Regroup(b: string, k: string, a: string, v: string, more: string, end: string)
    ensures (b + (k + (a + ([':'] + v)))) + more + end == b + (k + ((a + ([':'] + (v + more))) + end))
  {}

  lemma {:induction false} MembersRead(members: seq<Member>, w: string, acc: map<string, Value>, rest: string)
    requires members != [] && Blank(w) && forall i | 0 <= i < |members| :: MemberOk(members[i])
    ensures ParseMembers(w + (LiteralText(members[0].key) + (MembersTail(members) + (['}'] + rest))), acc)
            == Good(Obj(Merged(acc, members)), rest)
    decreases members
  {
    hide ParseMembers, Denoted, MemberOk, ItemText, LiteralText, Blank, MembersText, MembersTail, Merged, UnitsValue;
    var first, end := members[0], ['}'] + rest;
    var more := if |members| == 1 then end else [','] + (MembersText(members[1..]) + end);
    MembersTailText(members, end);
    MemberRead(first, w, more, acc);
    MergedFirst(acc, members);
    if |members| > 1 {
      assert more[1..] == MembersText(members[1..]) + end;
      MembersParts(members[1..], end);
      MemberBlank(members[1]);
      MembersRead(members[1..], members[1].before, acc[UnitsValue(first.key) := Denoted(first.item.node)], rest);
    }
  }

  lemma MemberBlank(m: Member)
    requires MemberOk(m)
    ensures Blank(m.before)
  {}

  lemma MembersTailText(members: seq<Member>, end: string)
    requires members != []
    ensures var m, more := members[0], if |members| == 1 then end else [','] + (MembersText(members[1..]) + end);
            MembersTail(members) + end == m.after + ([':'] + (ItemText(m.item) + more))
  {
    hide ItemText, MembersText;
  }

  lemma MergedFirst(acc: map<string, Value>, members: seq<Member>)
    requires members != []
    ensures var acc' := acc[UnitsValue(members[0].key) := Denoted(members[0].item.node)];
            Merged(acc, members) == if |members| == 1 then acc' else Merged(acc', members[1..])
  {
    hide UnitsValue, Denoted;
  }

  /** One member is consumed, and the separator decides what follows. */
  lemma {:induction false} MemberRead(m: Member, w: string, more: string, acc: map<string, Value>)
    requires MemberOk(m) && Blank(w) && more != [] && (more[0] == ',' || more[0] == '}')
    ensures ParseMembers(w + (LiteralText(m.key) + (m.after + ([':'] + (ItemText(m.item) + more)))), acc)
            == var acc' := acc[UnitsValue(m.key) := Denoted(m.item.node)];
               if more[0] == '}' then Good(Obj(acc'), more[1..]) else ParseMembers(more[1..], acc')
    decreases m
  {
    hide ParseString, ParseValue, Spelled, Denoted, NodeOk, Blank, UnitsText, UnitsValue, EndsNumber, UnitsOk;
    var value := m.item.before + (Spelled(m.item.node) + (m.item.after + more));
    var colon := [':'] + value;
    assert [':'] + (ItemText(m.item) + more) == colon;
    var key := LiteralText(m.key) + (m.after + colon);
    SkipBlank(w, key);
    assert key[1..] == UnitsText(m.key) + (['"'] + (m.after + colon));
    UnitsRead(m.key, m.after + colon, []);
    assert [] + UnitsValue(m.key) == UnitsValue(m.key);
    SkipBlank(m.after, colon);
    AfterBlank(m.item.after, more);
    NodeRead(m.item.node, m.item.before, m.item.after + more);
    SkipBlank(m.item.after, more);
    assert colon[1..] == value;
  }

  /** Every spelling of a value, between any white space, is read as that value. */
  lemma SpellingRead(i: Item)
    requires ItemOk(i)
    ensures ParseText(ItemText(i)) == Some(Denoted(i.node))
  {
    hide ParseValue, Spelled, Denoted, NodeOk, Blank;
    BlankEnds(i.after);
    NodeRead(i.node, i.before, i.after);
    SkipBlank(i.after, []);
    assert i.after + [] == i.after;
  }

  lemma BlankEnds(w: string)
    requires Blank(w)
    ensures EndsNumber(w)
  {
    if w != [] { assert w[0] in w; }
  }

  // --- nothing else is read ---

  lemma {:induction false} SkipSpelled(s: string) returns (w: string)
    ensures Blank(w) && s == w + SkipWs(s)
  {
    hide Blank, IsWs;
    BlankNothing();
    if s != [] && IsWs(s[0]) {
      var more := SkipSpelled(s[1..]);
      w := [s[0]] + more;
      BlankMore(s[0], more);
      assert s == [s[0]] + s[1..];
    } else {
      w := [];
      assert [] + s == s;
    }
  }

  lemma BlankMore(c: char, more: string)
    requires IsWs(c) && Blank(more)
    ensures Blank([c] + more)
  {
    hide IsWs;
  }

  /** A text of well-formed units that starts like a four-digit escape has one. */
  lemma EscapeLong(us: seq<Unit>)
    requires UnitsOk(us) && ['\\', 'u'] <= UnitsText(us)
    ensures |UnitsText(us)| >= 6
  {
    hide HexNumber;
    assert UnitsText(us)[0] == '\\' && UnitsText(us)[1] == 'u';
    match us[0] {
      case Plain(c) => assert false;
      case Short(e) => assert false;
      case Hex(h) =>
      case Pair(hi, lo) =>
    }
  }

  /** A high surrogate alone is not followed by a four-digit escape. */
  lemma LoneSurrogate(us: seq<Unit>, rest: string)
    requires UnitsOk(us)
    requires var more := UnitsText(us) + (['"'] + rest); |more| < 6 || more[0] != '\\' || more[1] != 'u'
    ensures !(['\\', 'u'] <= UnitsText(us))
  {
    hide UnitsOk, UnitsText;
    if ['\\', 'u'] <= UnitsText(us) {
      EscapeLong(us);
      assert false;
    }
  }

  lemma HexSpelled(s: string)
    requires Hex4(s).Good?
    ensures |s| >= 4 && FourHex(s[..4]) && Hex4(s) == Good(HexNumber(s[..4]), s[4..])
  {
    assert s[..4] == [s[0], s[1], s[2], s[3]];
  }

  /** The unit that a four-digit escape was. */
  function CodeUnit(s: string): Unit
    requires CodePoint(s).Good?
  {
    var h := s[..4];
    if High(HexNumber(h)) && |s| >= 10 && s[4] == '\\' && s[5] == 'u' then Pair(h, s[6..10]) else Hex(h)
  }

  lemma CodeSpelled(s: string, us: seq<Unit>, rest: string)
    requires CodePoint(s).Good? && UnitsOk(us) && CodePoint(s).rest == UnitsText(us) + (['"'] + rest)
    ensures |s| >= 4 && UnitOk(CodeUnit(s), UnitsText(us))
    ensures ['\\', 'u'] + s == UnitText(CodeUnit(s)) + (UnitsText(us) + (['"'] + rest))
    ensures UnitValue(CodeUnit(s)) == Utf8(CodePoint(s).value)
  {
    hide HexNumber, FourHex, Hex4, Utf8, UnitsOk, UnitsText, UnitText;
    HexSpelled(s);
    var h, after, more := s[..4], s[4..], UnitsText(us) + (['"'] + rest);
    assert s == h + after;
    if High(HexNumber(h)) && |after| >= 6 && after[0] == '\\' && after[1] == 'u' {
      var lo := after[2..][..4];
      assert lo == s[6..10];
      LowSpelled(h, after, more);
      assert after == ['\\', 'u'] + after[2..];
      PairText(h, lo, more);
      PairPoint(h, lo, more);
    } else {
      if High(HexNumber(h)) { LoneSurrogate(us, rest); }
      HexText(h, more);
    }
  }

  lemma LowSpelled(h: string, after: string, more: string)
    requires FourHex(h) && High(HexNumber(h)) && |after| >= 6 && after[0] == '\\' && after[1] == 'u'
    requires CodePoint(h + after).Good? && CodePoint(h + after).rest == more
    ensures var lo := after[2..][..4]; FourHex(lo) && Low(HexNumber(lo)) && after[2..] == lo + more
  {
    hide HexNumber, FourHex, Hex4, Utf8;
    HexRead(h, after);
    HexSpelled(after[2..]);
    assert after[2..] == after[2..][..4] + after[2..][4..];
  }

  lemma {:induction false} StringSpelled(s: string, acc: string) returns (us: seq<Unit>)
    requires ParseString(s, acc).Good?
    ensures var r := ParseString(s, acc); UnitsOk(us) && s == UnitsText(us) + (['"'] + r.rest) && r.value == acc + UnitsValue(us)
    decreases |s|
  {
    hide CodePoint, Utf8, HexNumber, FourHex, UnitsText, UnitsOk, UnitsValue, UnitOk, UnitText, UnitValue, Unescaped;
    if s[0] == '"' {
      us := [];
      NoUnits();
      assert s == [] + (['"'] + s[1..]);
      assert acc + [] == acc;
    } else if s[0] == '\\' && s[1] == 'u' {
      var cp := CodePoint(s[2..]);
      var more := StringSpelled(cp.rest, acc + Utf8(cp.value));
      var rest := ParseString(s, acc).rest;
      CodeSpelled(s[2..], more, rest);
      us := OneMore(CodeUnit(s[2..]), more, rest, acc);
      assert s == ['\\', 'u'] + s[2..];
    } else if s[0] == '\\' {
      var more := StringSpelled(s[2..], acc + Unescaped(s[1]));
      ShortSpelled(s[1], UnitsText(more));
      us := OneMore(Short(s[1]), more, ParseString(s, acc).rest, acc);
      assert s == ['\\', s[1]] + s[2..];
    } else {
      var more := StringSpelled(s[1..], acc + [s[0]]);
      PlainSpelled(s[0], UnitsText(more));
      us := OneMore(Plain(s[0]), more, ParseString(s, acc).rest, acc);
      assert s == [s[0]] + s[1..];
    }
  }

  lemma NoUnits()
    ensures UnitsOk([]) && UnitsText([]) == [] && UnitsValue([]) == []
  {}

  lemma OneMore(u: Unit, more: seq<Unit>, rest: string, acc: string) returns (us: seq<Unit>)
    requires UnitsOk(more) && UnitOk(u, UnitsText(more))
    ensures us == [u] + more && UnitsOk(us)
    ensures UnitsText(us) + (['"'] + rest) == UnitText(u) + (UnitsText(more) + (['"'] + rest))
    ensures acc + UnitsValue(us) == (acc + UnitValue(u)) + UnitsValue(more)
  {
    hide UnitOk, UnitText, UnitValue;
    us := [u] + more;
    assert us[1..] == more;
  }

  lemma ShortSpelled(e: char, next: string)
    requires Unescaped(e) != [] && e != 'u'
    ensures UnitOk(Short(e), next) && UnitText(Short(e)) == ['\\', e] && UnitValue(Short(e)) == Unescaped(e)
  {}

  lemma PlainSpelled(c: char, next: string)
    requires c as int >= 0x20 && c != '"' && c != '\\'
    ensures UnitOk(Plain(c), next) && UnitText(Plain(c)) == [c] && UnitValue(Plain(c)) == [c]
  {}

  lemma {:induction false} ValueSpelled(s: string) returns (w: string, n: Node)
    requires ParseValue(s).Good?
    ensures var r := ParseValue(s); Blank(w) && NodeOk(n) && s == w + (Spelled(n) + r.rest) && Denoted(n) == r.value
    decreases |s|, 1
  {
    hide ParseString, ParseArray, ParseObject, ParseNumber, ParseLiteral, Blank, NodeOk, Spelled, Denoted;
    w := SkipSpelled(s);
    var t := SkipWs(s);
    if t[0] == '{' {
      n := ObjectSpelled(t);
    } else if t[0] == '[' {
      n := ArraySpelled(t);
    } else if t[0] == '"' {
      n := LiteralSpelled(t);
    } else if t[0] == 't' {
      n := WordSpelled(t, "true", Bool(true));
    } else if t[0] == 'f' {
      n := WordSpelled(t, "false", Bool(false));
    } else if t[0] == 'n' {
      n := WordSpelled(t, "null", Null);
    } else {
      n := NumberSpelled(t);
    }
  }

  lemma LiteralSpelled(t: string) returns (n: Node)
    requires t != [] && t[0] == '"' && ParseString(t[1..], []).Good?
    ensures var r := ParseString(t[1..], []); NodeOk(n) && t == Spelled(n) + r.rest && Denoted(n) == Str(r.value)
  {
    hide ParseString, UnitsOk, UnitsText, UnitsValue;
    var us := StringSpelled(t[1..], []);
    n := Literal(us);
    assert t == ['"'] + t[1..];
    assert [] + UnitsValue(us) == UnitsValue(us);
  }

  lemma WordSpelled(t: string, word: string, v: Value) returns (n: Node)
    requires word in {"null", "true", "false"} && ParseLiteral(t, word, v).Good?
    requires v == if word == "null" then Null else Bool(word == "true")
    ensures NodeOk(n) && t == Spelled(n) + ParseLiteral(t, word, v).rest && Denoted(n) == v == ParseLiteral(t, word, v).value
  {
    n := Word(word);
    assert t == t[..|word|] + t[|word|..];
  }

  lemma {:induction false} DigitRunSpelled(s: string)
    ensures AllDigits(s[..DigitRun(s)])
  {
    if s != [] && IsDigit(s[0]) {
      DigitRunSpelled(s[1..]);
      assert s[..DigitRun(s)] == [s[0]] + s[1..][..DigitRun(s[1..])];
    }
  }

  lemma NumberSpelled(t: string) returns (n: Node)
    requires ParseNumber(t).Good?
    ensures var r := ParseNumber(t); NodeOk(n) && t == Spelled(n) + r.rest && Denoted(n) == r.value
  {
    hide DigitRun, DigitsValue, AllDigits;
    var neg := StartsWith(t, '-');
    var start := if neg then 1 else 0;
    var d := DigitRun(t[start..]);
    DigitRunSpelled(t[start..]);
    var digits := t[start..start + d];
    assert t[start..][..d] == digits;
    n := Number(neg, digits);
    hide ParseNumber;
    SignedText(t, neg, start, d);
  }

  lemma SignedText(t: string, neg: bool, start: nat, d: nat)
    requires start + d <= |t| && start == (if neg then 1 else 0) && (neg ==> t[0] == '-')
    ensures t == (if neg then ['-'] else []) + t[start..start + d] + t[start + d..]
  {
  }

  /** Brackets around a text with white space before it. */
  lemma Enclosed(text: string, open: char, w: string, inner: string, close: char, rest: string)
    requires text != [] && text[0] == open && text[1..] == w + (inner + ([close] + rest))
    ensures text == ([open] + ((w + inner) + [close])) + rest
  {
    assert text == [open] + text[1..];
  }

  lemma {:induction false} ArraySpelled(text: string) returns (n: Node)
    requires text != [] && text[0] == '[' && ParseArray(text[1..]).Good?
    ensures var r := ParseArray(text[1..]); NodeOk(n) && text == Spelled(n) + r.rest && Denoted(n) == r.value
    decreases |text|, 0
  {
    hide ParseElements, ItemsText, Blank, ItemOk, Values, SkipWs;
    var s := text[1..];
    var t := SkipWs(s);
    var w := SkipSpelled(s);
    var rest := ParseArray(s).rest;
    if StartsWith(t, ']') {
      n := Array(w, []);
      assert t == [] + ([']'] + rest);
      Enclosed(text, '[', w, [], ']', rest);
      assert w + [] == w && Denoted(n).arr == [];
    } else {
      var items := ElementsSpelled(t, []);
      var first := items[0].(before := w + items[0].before);
      n := Array([], [first] + items[1..]);
      BlankNothing();
      Prefixed(w, items);
      Enclosed(text, '[', w, ItemsText(items), ']', rest);
      ArrayValues(n, items, first);
    }
  }

  lemma ArrayValues(n: Node, items: seq<Item>, first: Item)
    requires items != [] && first.node == items[0].node && n == Array([], [first] + items[1..])
    ensures Denoted(n) == Arr([] + Values(items))
  {
    assert Denoted(n).arr == Values(items) == [] + Values(items);
  }

  /** White space before the first item belongs to it. */
  lemma Prefixed(w: string, items: seq<Item>)
    requires items != [] && Blank(w) && forall i | 0 <= i < |items| :: ItemOk(items[i])
    ensures var all := [items[0].(before := w + items[0].before)] + items[1..];
            (forall i | 0 <= i < |all| :: ItemOk(all[i])) && ItemsText(all) == w + ItemsText(items)
  {
    hide ItemOk, ItemText, ItemsText;
    var first, more := items[0].(before := w + items[0].before), items[1..];
    var all := [first] + more;
    PrefixedItem(w, items[0]);
    forall i | 0 <= i < |all| ensures ItemOk(all[i]) {
      assert ItemOk(items[i]);
      if i > 0 { assert all[i] == items[i]; }
    }
    assert [items[0]] + more == items;
    PrefixedItems(w, items[0], first, more);
  }

  lemma PrefixedItems(w: string, item: Item, first: Item, more: seq<Item>)
    requires ItemText(first) == w + ItemText(item)
    ensures ItemsText([first] + more) == w + ItemsText([item] + more)
  {
    hide ItemText;
    assert ([first] + more)[1..] == more == ([item] + more)[1..];
  }

  lemma PrefixedItem(w: string, item: Item)
    requires Blank(w) && ItemOk(item)
    ensures var all := item.(before := w + item.before); ItemOk(all) && ItemText(all) == w + ItemText(item)
  {
    hide NodeOk, Spelled;
  }

  lemma {:induction false} ElementsSpelled(s: string, acc: seq<Value>) returns (items: seq<Item>)
    requires ParseElements(s, acc).Good?
    ensures items != [] && forall i | 0 <= i < |items| :: ItemOk(items[i])
    ensures var r := ParseElements(s, acc); s == ItemsText(items) + ([']'] + r.rest) && r.value == Arr(acc + Values(items))
    decreases |s|, 3
  {
    hide ParseElements, ItemsText, ItemText, ItemOk, Denoted, Values;
    var item, t := ElementSpelled(s, acc);
    if t[0] == ']' {
      items := [item];
      OneItem(item);
      assert t == [']'] + t[1..];
      FirstValue(acc, item, []);
    } else {
      var more := ElementsSpelled(t[1..], acc + [Denoted(item.node)]);
      items := [item] + more;
      MoreItems(item, more);
      FirstValue(acc, item, more);
      ItemsJoined(ItemText(item), t, ItemsText(more), ParseElements(s, acc).rest);
    }
  }

  lemma ItemsJoined(item: string, t: string, more: string, rest: string)
    requires t != [] && t[0] == ',' && t[1..] == more + ([']'] + rest)
    ensures item + t == (item + ([','] + more)) + ([']'] + rest)
  {
    assert t == [','] + t[1..];
  }

  lemma FirstValue(acc: seq<Value>, item: Item, more: seq<Item>)
    ensures acc + Values([item] + more) == acc + [Denoted(item.node)] + Values(more)
    ensures [item] + [] == [item] && Values([]) == []
  {
    hide Denoted;
    assert Values([item] + more) == [Denoted(item.node)] + Values(more);
  }

  /** One element and the separator behind it. */
  lemma {:induction false} ElementSpelled(s: string, acc: seq<Value>) returns (item: Item, t: string)
    requires ParseElements(s, acc).Good?
    ensures ItemOk(item) && s == ItemText(item) + t && t != [] && |t| < |s|
    ensures var acc' := acc + [Denoted(item.node)];
            if t[0] == ']' then ParseElements(s, acc) == Good(Arr(acc'), t[1..])
            else t[0] == ',' && ParseElements(s, acc) == ParseElements(t[1..], acc')
    decreases |s|, 2, 1
  {
    hide ParseValue, NodeOk, Denoted, Spelled, Blank;
    var w, n := ValueSpelled(s);
    var rest := ParseValue(s).rest;
    var after := SkipSpelled(rest);
    t := SkipWs(rest);
    item := Item(w, n, after);
    hide ParseElements;
    assert s == w + (Spelled(n) + (after + t));
  }

  lemma OneItem(item: Item)
    ensures ItemsText([item]) == ItemText(item)
  {
    hide ItemText;
  }

  lemma MoreItems(item: Item, more: seq<Item>)
    requires more != []
    ensures ItemsText([item] + more) == ItemText(item) + ([','] + ItemsText(more))
  {
    hide ItemText;
    assert ([item] + more)[1..] == more;
  }

  lemma {:induction false} ObjectSpelled(text: string) returns (n: Node)
    requires text != [] && text[0] == '{' && ParseObject(text[1..]).Good?
    ensures var r := ParseObject(text[1..]); NodeOk(n) && text == Spelled(n) + r.rest && Denoted(n) == r.value
    decreases |text|, 0
  {
    hide ParseMembers, MembersText, Blank, MemberOk, Merged, SkipWs;
    var s := text[1..];
    var t := SkipWs(s);
    var w := SkipSpelled(s);
    var rest := ParseObject(s).rest;
    if StartsWith(t, '}') {
      n := Object(w, []);
      NoMembers();
      assert t == [] + (['}'] + rest);
      Enclosed(text, '{', w, [], '}', rest);
      assert w + [] == w;
    } else {
      var members := MembersSpelled(t, map[]);
      var first := members[0].(before := w + members[0].before);
      n := Object([], [first] + members[1..]);
      BlankNothing();
      PrefixedMembers(w, members);
      Enclosed(text, '{', w, MembersText(members), '}', rest);
    }
  }

  lemma PrefixedMembers(w: string, members: seq<Member>)
    requires members != [] && Blank(w) && forall i | 0 <= i < |members| :: MemberOk(members[i])
    ensures var all := [members[0].(before := w + members[0].before)] + members[1..];
            (forall i | 0 <= i < |all| :: MemberOk(all[i])) && MembersText(all) == w + MembersText(members)
            && Merged(map[], all) == Merged(map[], members)
  {
    hide MemberOk, MemberText, MembersText, Merged;
    var first, more := members[0].(before := w + members[0].before), members[1..];
    var all := [first] + more;
    PrefixedMember(w, members[0]);
    forall i | 0 <= i < |all| ensures MemberOk(all[i]) {
      assert MemberOk(members[i]);
      if i > 0 { assert all[i] == members[i]; }
    }
    assert [members[0]] + more == members;
    PrefixedText(w, members[0], first, more);
    SameMerged(members[0], first, more);
  }

  lemma PrefixedText(w: string, m: Member, first: Member, more: seq<Member>)
    requires MemberText(first) == w + MemberText(m)
    ensures MembersText([first] + more) == w + MembersText([m] + more)
  {
    hide MemberText;
    assert ([first] + more)[1..] == more == ([m] + more)[1..];
  }

  lemma SameMerged(m: Member, first: Member, more: seq<Member>)
    requires m.key == first.key && m.item == first.item
    ensures Merged(map[], [first] + more) == Merged(map[], [m] + more)
  {
    hide Denoted, UnitsValue;
    assert ([first] + more)[1..] == more == ([m] + more)[1..];
  }

  lemma PrefixedMember(w: string, m: Member)
    requires Blank(w) && MemberOk(m)
    ensures var all := m.(before := w + m.before); MemberOk(all) && MemberText(all) == w + MemberText(m)
  {
    hide UnitsOk, ItemOk, LiteralText, ItemText;
  }

  lemma {:induction false} MembersSpelled(s: string, acc: map<string, Value>) returns (members: seq<Member>)
    requires ParseMembers(s, acc).Good?
    ensures members != [] && forall i | 0 <= i < |members| :: MemberOk(members[i])
    ensures var r := ParseMembers(s, acc);
            s == MembersText(members) + (['}'] + r.rest) && r.value == Obj(Merged(acc, members))
    decreases |s|, 3
  {
    hide ParseMembers, MembersText, MemberText, MemberOk, Denoted, Merged, UnitsValue;
    var m, t := MemberSpelled(s, acc);
    if t[0] == '}' {
      members := [m];
      OneMember(m, acc);
      assert t == ['}'] + t[1..];
    } else {
      var more := MembersSpelled(t[1..], acc[UnitsValue(m.key) := Denoted(m.item.node)]);
      members := [m] + more;
      MoreMembers(m, more, acc);
      var rest := ParseMembers(s, acc).rest;
      assert t == [','] + t[1..];
      assert s == (MemberText(m) + ([','] + MembersText(more))) + (['}'] + rest);
    }
  }

  /** One member and the separator behind it. */
  lemma {:induction false} MemberSpelled(s: string, acc: map<string, Value>) returns (m: Member, t: string)
    requires ParseMembers(s, acc).Good?
    ensures MemberOk(m) && s == MemberText(m) + t && t != [] && |t| < |s|
    ensures var acc' := acc[UnitsValue(m.key) := Denoted(m.item.node)];
            if t[0] == '}' then ParseMembers(s, acc) == Good(Obj(acc'), t[1..])
            else t[0] == ',' && ParseMembers(s, acc) == ParseMembers(t[1..], acc')
    decreases |s|, 2
  {
    hide ParseMembers, ParseValue, ParseString, NodeOk, Denoted, Spelled, Blank, UnitsOk, UnitsText, UnitsValue, SkipWs, MemberText;
    MembersUnfold(s, acc);
    var w := SkipSpelled(s);
    var quoted := SkipWs(s);
    var us := StringSpelled(quoted[1..], []);
    assert [] + UnitsValue(us) == UnitsValue(us);
    var key := ParseString(quoted[1..], []);
    var after := SkipSpelled(key.rest);
    var colon := SkipWs(key.rest);
    var before, n := ValueSpelled(colon[1..]);
    var v := ParseValue(colon[1..]);
    var blank := SkipSpelled(v.rest);
    t := SkipWs(v.rest);
    m := Member(w, us, after, Item(before, n, blank));
    assert quoted == ['"'] + quoted[1..] && colon == [':'] + colon[1..];
    MemberJoined(m, quoted, key.rest, colon, v.rest, t);
    Shorter(s, acc);
  }

  lemma MembersUnfold(s: string, acc: map<string, Value>)
    requires ParseMembers(s, acc).Good?
    ensures var quoted := SkipWs(s);
            && StartsWith(quoted, '"') && ParseString(quoted[1..], []).Good?
            && var key := ParseString(quoted[1..], []);
            var colon := SkipWs(key.rest);
            && StartsWith(colon, ':') && ParseValue(colon[1..]).Good?
            && var v := ParseValue(colon[1..]);
            var acc', u := acc[key.value := v.value], SkipWs(v.rest);
            if StartsWith(u, '}') then ParseMembers(s, acc) == Good(Obj(acc'), u[1..])
            else StartsWith(u, ',') && ParseMembers(s, acc) == ParseMembers(u[1..], acc')
  {
    hide ParseValue, ParseString, SkipWs;
  }

  /** What follows a member is shorter than the text. */
  lemma Shorter(s: string, acc: map<string, Value>)
    requires ParseMembers(s, acc).Good?
    ensures SkipWs(s) != [] && ParseString(SkipWs(s)[1..], []).Good?
    ensures var colon := SkipWs(ParseString(SkipWs(s)[1..], []).rest);
            colon != [] && |colon| < |s| && (ParseValue(colon[1..]).Good? ==> |SkipWs(ParseValue(colon[1..]).rest)| < |s|)
  {
    hide ParseMembers, ParseValue, ParseString, SkipWs;
    MembersUnfold(s, acc);
  }

  lemma MemberJoined(m: Member, quoted: string, afterKey: string, colon: string, afterValue: string, t: string)
    requires quoted == ['"'] + (UnitsText(m.key) + (['"'] + afterKey)) && afterKey == m.after + colon
    requires colon == [':'] + (m.item.before + (Spelled(m.item.node) + afterValue)) && afterValue == m.item.after + t
    ensures m.before + quoted == MemberText(m) + t
  {
    hide UnitsText, Spelled;
    var item := ItemText(m.item);
    assert colon == [':'] + (item + t);
    hide ItemText;
    assert quoted == LiteralText(m.key) + afterKey;
    hide LiteralText;
    assert m.before + quoted == m.before + (LiteralText(m.key) + (m.after + ([':'] + (item + t))));
  }

  lemma OneMember(m: Member, acc: map<string, Value>)
    ensures MembersText([m]) == MemberText(m) && Merged(acc, [m]) == acc[UnitsValue(m.key) := Denoted(m.item.node)]
  {
    hide MemberText, UnitsValue, Denoted;
    assert Merged(acc, [m]) == Merged(acc[UnitsValue(m.key) := Denoted(m.item.node)], []);
  }

  lemma MoreMembers(m: Member, more: seq<Member>, acc: map<string, Value>)
    requires more != []
    ensures MembersText([m] + more) == MemberText(m) + ([','] + MembersText(more))
    ensures Merged(acc, [m] + more) == Merged(acc[UnitsValue(m.key) := Denoted(m.item.node)], more)
  {
    hide MemberText, UnitsValue, Denoted;
    assert ([m] + more)[1..] == more;
  }

  /** The parser accepts a text as a value if and only if the text spells that value, with any white space around it. */
  lemma AcceptsSpellings(s: string, v: Value)
    ensures ParseText(s) == Some(v) <==> exists i :: ItemOk(i) && ItemText(i) == s && Denoted(i.node) == v
  {
    hide ParseValue, ItemOk, ItemText, Denoted;
    if i :| ItemOk(i) && ItemText(i) == s && Denoted(i.node) == v { SpellingRead(i); }
    if ParseText(s) == Some(v) { var i := TextSpelled(s); }
  }

  lemma TextSpelled(s: string) returns (i: Item)
    requires ParseText(s).Some?
    ensures ItemOk(i) && ItemText(i) == s && Denoted(i.node) == ParseText(s).value
  {
    hide ParseValue, NodeOk, Spelled, Denoted, Blank;
    var w, n := ValueSpelled(s);
    var after := SkipSpelled(ParseValue(s).rest);
    assert after + [] == after;
    i := Item(w, n, after);
  }
}
