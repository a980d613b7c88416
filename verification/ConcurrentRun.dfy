/**
 The concurrent comparison as interleaved atomic steps: two enumeration workers that insert into the match table
 (one shard critical section per step), classify what they matched, and hash tasks that finish in any order.
 */
module ConcurrentRun {
  import opened Wrappers
  import opened Bytes
  import opened Results
  import opened JournalStats
  import opened Classify
  import opened RunResult

  /** An unmatched entry in the table. */
  datatype Slot = Slot(source: bool, entry: FileEntry)

  datatype Pair = Pair(a: FileEntry, b: FileEntry)

  type Table = map<Path, Slot>

  datatype Outcome = Inserted | Replaced | MatchedPeer(peer: FileEntry)

  /** The atomic part of MatchTable::insert. */
  function InsertOutcome(t: Table, k: Path, source: bool): Outcome {
    if k !in t then Inserted
    else if t[k].source == source then Replaced
    else MatchedPeer(t[k].entry)
  }

  function AfterInsert(t: Table, k: Path, source: bool, e: FileEntry): Table {
    if k in t && t[k].source != source then t - {k} else t[k := Slot(source, e)]
  }

  /** The streams still to be enumerated, the table, what each worker holds between match and classification, the
      candidates not hashed yet, and the shared sink. */
  datatype State = State(
    srcLeft: seq<FileEntry>, dstLeft: seq<FileEntry>, table: Table,
    holdA: Option<Pair>, holdB: Option<Pair>, candidates: seq<Pair>, sink: Result)

  ghost function Start(a: seq<FileEntry>, b: seq<FileEntry>): State {
    State(a, b, map[], None, None, [], NOTHING)
  }

  ghost predicate Finished(s: State) {
    s.srcLeft == [] && s.dstLeft == [] && s.holdA == None && s.holdB == None && s.candidates == []
  }

  // --- steps ---

  ghost function EmitSource(cfg: Config, s: State): State
    requires s.srcLeft != [] && s.holdA == None
  {
    var e := s.srcLeft[0];
    var k := KeyOf(cfg, e);
    s.(srcLeft := s.srcLeft[1..], sink := s.sink.Add(SeenResult(true, e)), table := AfterInsert(s.table, k, true, e),
       holdA := var o := InsertOutcome(s.table, k, true); if o.MatchedPeer? then Some(Pair(e, o.peer)) else None)
  }

  ghost function EmitDest(cfg: Config, s: State): State
    requires s.dstLeft != [] && s.holdB == None
  {
    var e := s.dstLeft[0];
    var k := KeyOf(cfg, e);
    s.(dstLeft := s.dstLeft[1..], sink := s.sink.Add(SeenResult(false, e)), table := AfterInsert(s.table, k, false, e),
       holdB := var o := InsertOutcome(s.table, k, false); if o.MatchedPeer? then Some(Pair(o.peer, e)) else None)
  }

  /** Classification outside any table lock: a same-size file pair is queued, everything else is final. */
  ghost function Classified(cfg: Config, s: State, p: Pair): State {
    if IsCandidate(cfg, p.a, p.b) then s.(candidates := s.candidates + [p])
    else s.(sink := s.sink.Add(PairResult(cfg, p.a, p.b)))
  }

  ghost function ClassifySource(cfg: Config, s: State): State
    requires s.holdA.Some?
  {
    Classified(cfg, s.(holdA := None), s.holdA.value)
  }

  ghost function ClassifyDest(cfg: Config, s: State): State
    requires s.holdB.Some?
  {
    Classified(cfg, s.(holdB := None), s.holdB.value)
  }

  /** Some queued candidate is hashed. */
  ghost function HashTask(cfg: Config, s: State, i: nat): State
    requires i < |s.candidates|
  {
    var p := s.candidates[i];
    s.(candidates := s.candidates[..i] + s.candidates[i + 1..],
       sink := s.sink.Add(VerdictResult(p.a, p.b, HashVerdict(cfg, CandidateOf(p.a, p.b)))))
  }

  ghost predicate Step(cfg: Config, s: State, s': State) {
    || (s.srcLeft != [] && s.holdA == None && s' == EmitSource(cfg, s))
    || (s.dstLeft != [] && s.holdB == None && s' == EmitDest(cfg, s))
    || (s.holdA.Some? && s' == ClassifySource(cfg, s))
    || (s.holdB.Some? && s' == ClassifyDest(cfg, s))
    || exists i: nat | i < |s.candidates| :: s' == HashTask(cfg, s, i)
  }

  // --- what the run still owes ---

  function TreeOf(cfg: Config, left: seq<FileEntry>): Tree {
    if left == [] then map[] else TreeOf(cfg, left[1..])[KeyOf(cfg, left[0]) := left[0]]
  }

  /** Folded keys are unique within a stream. */
  ghost predicate UniqueKeys(cfg: Config, left: seq<FileEntry>) {
    left == [] || (KeyOf(cfg, left[0]) !in TreeOf(cfg, left[1..]) && UniqueKeys(cfg, left[1..]))
  }

  ghost function Stored(t: Table, source: bool): Tree {
    map k | k in t && t[k].source == source :: t[k].entry
  }

  /** The entries of one side that are not matched yet: stored ones and those still to come. */
  ghost function Open(cfg: Config, t: Table, source: bool, left: seq<FileEntry>): Tree {
    Stored(t, source) + TreeOf(cfg, left)
  }

  ghost function PairsSum(cfg: Config, ps: seq<Pair>): Result {
    if ps == [] then NOTHING else PairResult(cfg, ps[0].a, ps[0].b).Add(PairsSum(cfg, ps[1..]))
  }

  ghost function HeldSum(cfg: Config, h: Option<Pair>): Result {
    if h.None? then NOTHING else PairResult(cfg, h.value.a, h.value.b)
  }

  /** What is matched but not counted yet. */
  ghost function Owed(cfg: Config, s: State): Result {
    HeldSum(cfg, s.holdA).Add(HeldSum(cfg, s.holdB)).Add(PairsSum(cfg, s.candidates))
  }

  /** What the unmatched entries will still give. */
  ghost function Future(cfg: Config, s: State): Result {
    var a, b := Open(cfg, s.table, true, s.srcLeft), Open(cfg, s.table, false, s.dstLeft);
    Seen(TreeOf(cfg, s.srcLeft), TreeOf(cfg, s.dstLeft)).Add(Matched(cfg, a, b)).Add(OneSided(cfg, a, b))
  }

  /** The result the run is heading for. */
  ghost function Total(cfg: Config, s: State): Result {
    s.sink.Add(Owed(cfg, s)).Add(Future(cfg, s))
  }

  ghost predicate Inv(cfg: Config, s: State) {
    && UniqueKeys(cfg, s.srcLeft) && UniqueKeys(cfg, s.dstLeft)
    && Stored(s.table, true).Keys !! TreeOf(cfg, s.srcLeft).Keys
    && Stored(s.table, false).Keys !! TreeOf(cfg, s.dstLeft).Keys
    && forall p <- s.candidates :: IsCandidate(cfg, p.a, p.b)
  }

  // --- sums change as entries move ---

  lemma MatchedTake(cfg: Config, a: Tree, b: Tree, k: Path)
    requires k in a && k in b
    ensures Matched(cfg, a, b) == PairResult(cfg, a[k], b[k]).Add(Matched(cfg, a - {k}, b - {k}))
  {
    hide PairResult, Sum, Result.Add;
    var f, g, keys := PairAt(cfg, a, b), PairAt(cfg, a - {k}, b - {k}), a.Keys * b.Keys;
    SumTake(keys, f, k);
    assert keys - {k} == (a - {k}).Keys * (b - {k}).Keys;
    SumSame(keys - {k}, f, g);
  }

  lemma OneSidedTake(cfg: Config, a: Tree, b: Tree, k: Path)
    requires k in a && k in b
    ensures OneSided(cfg, a - {k}, b - {k}) == OneSided(cfg, a, b)
  {
    assert (a - {k}) - (b - {k}).Keys == a - b.Keys;
    assert (b - {k}) - (a - {k}).Keys == b - a.Keys;
  }

  lemma SeenTake(cfg: Config, source: bool, left: seq<FileEntry>)
    requires left != [] && UniqueKeys(cfg, left)
    ensures Sum(TreeOf(cfg, left).Keys, SeenAt(source, TreeOf(cfg, left)))
            == SeenResult(source, left[0]).Add(Sum(TreeOf(cfg, left[1..]).Keys, SeenAt(source, TreeOf(cfg, left[1..]))))
  {
    hide SeenResult, Sum, Result.Add;
    var k, t, rest := KeyOf(cfg, left[0]), TreeOf(cfg, left), TreeOf(cfg, left[1..]);
    SumTake(t.Keys, SeenAt(source, t), k);
    assert t.Keys - {k} == rest.Keys;
    SumSame(rest.Keys, SeenAt(source, t), SeenAt(source, rest));
  }

  lemma {:induction false} TreeKeys(cfg: Config, left: seq<FileEntry>)
    ensures forall k :: k in TreeOf(cfg, left) <==> exists i | 0 <= i < |left| :: KeyOf(cfg, left[i]) == k
  {
    if left != [] {
      TreeKeys(cfg, left[1..]);
      var t, rest := TreeOf(cfg, left), TreeOf(cfg, left[1..]);
      forall k ensures k in t <==> exists i | 0 <= i < |left| :: KeyOf(cfg, left[i]) == k {
        if k in rest {
          var i :| 0 <= i < |left[1..]| && KeyOf(cfg, left[1..][i]) == k;
          assert left[i + 1] == left[1..][i];
        }
        if i :| 0 <= i < |left| && KeyOf(cfg, left[i]) == k {
          if i > 0 { assert left[1..][i - 1] == left[i]; }
        }
      }
    }
  }

  /** Uniqueness, spelled out over positions. */
  lemma {:induction false} UniqueKeysMeans(cfg: Config, left: seq<FileEntry>)
    ensures UniqueKeys(cfg, left) <==> forall i, j | 0 <= i < j < |left| :: KeyOf(cfg, left[i]) != KeyOf(cfg, left[j])
  {
    if left != [] {
      var rest := left[1..];
      UniqueKeysMeans(cfg, rest);
      TreeKeys(cfg, rest);
      assert forall i | 0 <= i < |rest| :: rest[i] == left[i + 1];
      if UniqueKeys(cfg, left) {
        forall i, j | 0 <= i < j < |left| ensures KeyOf(cfg, left[i]) != KeyOf(cfg, left[j]) {
          assert left[j] == rest[j - 1];
          if i > 0 { assert left[i] == rest[i - 1]; }
        }
      } else if KeyOf(cfg, left[0]) in TreeOf(cfg, rest) {
        var i :| 0 <= i < |rest| && KeyOf(cfg, rest[i]) == KeyOf(cfg, left[0]);
        assert left[i + 1] == rest[i];
      } else {
        var i, j :| 0 <= i < j < |rest| && KeyOf(cfg, rest[i]) == KeyOf(cfg, rest[j]);
        assert left[i + 1] == rest[i] && left[j + 1] == rest[j];
      }
    }
  }

  lemma {:induction false} PairsTake(cfg: Config, ps: seq<Pair>, i: nat)
    requires i < |ps|
    ensures PairsSum(cfg, ps) == PairResult(cfg, ps[i].a, ps[i].b).Add(PairsSum(cfg, ps[..i] + ps[i + 1..]))
  {
    hide PairResult, Result.Add;
    if i == 0 {
      assert ps[..0] + ps[1..] == ps[1..];
    } else {
      PairsTake(cfg, ps[1..], i - 1);
      var rest := ps[1..][..i - 1] + ps[1..][i..];
      assert ps[..i] + ps[i + 1..] == [ps[0]] + rest;
      assert ([ps[0]] + rest)[1..] == rest;
      AddSwap(PairResult(cfg, ps[0].a, ps[0].b), PairResult(cfg, ps[i].a, ps[i].b), PairsSum(cfg, rest));
    }
  }

  lemma {:induction false} PairsAppend(cfg: Config, ps: seq<Pair>, p: Pair)
    ensures PairsSum(cfg, ps + [p]) == PairsSum(cfg, ps).Add(PairResult(cfg, p.a, p.b))
  {
    hide PairResult, Result.Add;
    assert (ps + [p])[|ps|] == p && (ps + [p])[..|ps|] + (ps + [p])[|ps| + 1..] == ps;
    PairsTake(cfg, ps + [p], |ps|);
    AddComm(PairResult(cfg, p.a, p.b), PairsSum(cfg, ps));
  }

  // --- every step keeps the invariant and the total ---

  lemma HashTaskKeeps(cfg: Config, s: State, i: nat)
    requires Inv(cfg, s) && i < |s.candidates|
    ensures Inv(cfg, HashTask(cfg, s, i)) && Total(cfg, HashTask(cfg, s, i)) == Total(cfg, s)
  {
    hide Result.Add, Future, PairResult, HeldSum, PairsSum, UniqueKeys, IsCandidate, VerdictResult;
    var p, s' := s.candidates[i], HashTask(cfg, s, i);
    CandidateResult(cfg, p);
    PairsTake(cfg, s.candidates, i);
    assert Future(cfg, s') == Future(cfg, s) by { SameFuture(cfg, s, s'); }
    MoveOwed(s.sink, HeldSum(cfg, s.holdA).Add(HeldSum(cfg, s.holdB)), PairResult(cfg, p.a, p.b), PairsSum(cfg, s'.candidates));
  }

  lemma CandidateResult(cfg: Config, p: Pair)
    ensures IsCandidate(cfg, p.a, p.b) ==>
              VerdictResult(p.a, p.b, HashVerdict(cfg, CandidateOf(p.a, p.b))) == PairResult(cfg, p.a, p.b)
  {
    hide HashVerdict, VerdictResult;
  }

  lemma SameFuture(cfg: Config, s: State, s': State)
    requires s'.table == s.table && s'.srcLeft == s.srcLeft && s'.dstLeft == s.dstLeft
    ensures Future(cfg, s') == Future(cfg, s)
  {
    hide Open, Seen, Matched, OneSided;
  }

  /** sink + (held + (p + rest)) == (sink + p) + (held + rest) */
  lemma MoveOwed(sink: Result, held: Result, p: Result, rest: Result)
    ensures sink.Add(held.Add(p.Add(rest))) == sink.Add(p).Add(held.Add(rest))
  {
    hide Result.Add;
    AddSwap(held, p, rest);
    AddAssoc(sink, p, held.Add(rest));
  }

  lemma ClassifiedKeeps(cfg: Config, s: State, p: Pair)
    requires Inv(cfg, s)
    ensures Inv(cfg, Classified(cfg, s, p))
    ensures Total(cfg, Classified(cfg, s, p)) == s.sink.Add(PairResult(cfg, p.a, p.b).Add(Owed(cfg, s))).Add(Future(cfg, s))
  {
    hide Result.Add, Future, PairResult, HeldSum, PairsSum, UniqueKeys, IsCandidate;
    var r := PairResult(cfg, p.a, p.b);
    var s' := Classified(cfg, s, p);
    SameFuture(cfg, s, s');
    if IsCandidate(cfg, p.a, p.b) {
      PairsAppend(cfg, s.candidates, p);
      var held, ps := HeldSum(cfg, s.holdA).Add(HeldSum(cfg, s.holdB)), PairsSum(cfg, s.candidates);
      AddComm(ps, r);
      AddSwap(held, r, ps);
    } else {
      AddAssoc(s.sink, r, Owed(cfg, s));
    }
  }

  lemma ClassifySourceKeeps(cfg: Config, s: State)
    requires Inv(cfg, s) && s.holdA.Some?
    ensures Inv(cfg, ClassifySource(cfg, s)) && Total(cfg, ClassifySource(cfg, s)) == Total(cfg, s)
  {
    hide Result.Add, Future, PairResult, PairsSum, Classified, Inv;
    var s0, p := s.(holdA := None), s.holdA.value;
    InvIgnoresHolds(cfg, s, s0);
    ClassifiedKeeps(cfg, s0, p);
    SameFuture(cfg, s, s0);
    var hb, ps, r := HeldSum(cfg, s.holdB), PairsSum(cfg, s.candidates), PairResult(cfg, p.a, p.b);
    AddNothing(hb);
    AddAssoc(r, hb, ps);
  }

  lemma ClassifyDestKeeps(cfg: Config, s: State)
    requires Inv(cfg, s) && s.holdB.Some?
    ensures Inv(cfg, ClassifyDest(cfg, s)) && Total(cfg, ClassifyDest(cfg, s)) == Total(cfg, s)
  {
    hide Result.Add, Future, PairResult, PairsSum, Classified, Inv;
    var s0, p := s.(holdB := None), s.holdB.value;
    InvIgnoresHolds(cfg, s, s0);
    ClassifiedKeeps(cfg, s0, p);
    SameFuture(cfg, s, s0);
    var ha, ps, r := HeldSum(cfg, s.holdA), PairsSum(cfg, s.candidates), PairResult(cfg, p.a, p.b);
    AddNothing(ha);
    AddComm(ha, r);
    AddAssoc(r, ha, ps);
  }

  lemma InvIgnoresHolds(cfg: Config, s: State, s0: State)
    requires Inv(cfg, s) && s0.(holdA := s.holdA, holdB := s.holdB) == s
    ensures Inv(cfg, s0)
  {
    hide UniqueKeys, IsCandidate;
  }

  // --- an emitted entry moves from its stream to the table, or with its peer to a worker ---

  ghost predicate SideInv(cfg: Config, t: Table, source: bool, left: seq<FileEntry>) {
    UniqueKeys(cfg, left) && Stored(t, source).Keys !! TreeOf(cfg, left).Keys
  }

  lemma OpenAfterInsert(cfg: Config, t: Table, source: bool, left: seq<FileEntry>, other: seq<FileEntry>)
    requires left != [] && SideInv(cfg, t, source, left) && SideInv(cfg, t, !source, other)
    ensures var k, e := KeyOf(cfg, left[0]), left[0];
            var t', o := AfterInsert(t, k, source, e), InsertOutcome(t, k, source);
            var own, opp := Open(cfg, t, source, left), Open(cfg, t, !source, other);
            var own', opp' := Open(cfg, t', source, left[1..]), Open(cfg, t', !source, other);
            && SideInv(cfg, t', source, left[1..]) && SideInv(cfg, t', !source, other)
            && o != Replaced
            && (if o.MatchedPeer? then k in own && own[k] == e && k in opp && opp[k] == o.peer && own' == own - {k} && opp' == opp - {k}
                else own' == own && opp' == opp)
  {
    hide AfterInsert, InsertOutcome, Stored, KeyOf;
    var k, e := KeyOf(cfg, left[0]), left[0];
    var rest, st, opp := TreeOf(cfg, left[1..]), Stored(t, source), Stored(t, !source);
    assert TreeOf(cfg, left) == rest[k := e] && k !in st && k !in rest;
    StoredAfterInsert(t, k, source, e);
    OverlayMoves(st, rest, k, e);
    OverlayLoses(opp, TreeOf(cfg, other), k);
  }

  /** The first streamed entry may as well be the last stored one. */
  lemma OverlayMoves(st: Tree, rest: Tree, k: Path, e: FileEntry)
    requires k !in st && k !in rest
    ensures (st + rest[k := e]) - {k} == st + rest && st[k := e] + rest == st + rest[k := e]
  {}

  lemma OverlayLoses(opp: Tree, other: Tree, k: Path)
    ensures k in opp && k !in other ==> (opp - {k}) + other == (opp + other) - {k}
  {}

  lemma StoredAfterInsert(t: Table, k: Path, source: bool, e: FileEntry)
    requires k !in Stored(t, source)
    ensures var t', o := AfterInsert(t, k, source, e), InsertOutcome(t, k, source);
            o != Replaced
            && (if o.MatchedPeer? then k in Stored(t, !source) && Stored(t, !source)[k] == o.peer
                                       && Stored(t', source) == Stored(t, source) && Stored(t', !source) == Stored(t, !source) - {k}
                else Stored(t', source) == Stored(t, source)[k := e] && Stored(t', !source) == Stored(t, !source))
  {}

  /** sink + o + ((e + sn) + m + one) == (sink + e) + o + (sn + m + one) */
  lemma CountSeen(sink: Result, o: Result, e: Result, sn: Result, m: Result, one: Result)
    ensures sink.Add(o).Add(e.Add(sn).Add(m).Add(one)) == sink.Add(e).Add(o).Add(sn.Add(m).Add(one))
  {
    hide Result.Add;
    AddAssoc(e, sn, m);
    AddAssoc(e, sn.Add(m), one);
    var f := sn.Add(m).Add(one);
    AddAssoc(sink, o, e.Add(f));
    AddSwap(o, e, f);
    AddAssoc(sink, e, o.Add(f));
    AddAssoc(sink.Add(e), o, f);
  }

  /** sink + o + (sn + (p + m) + one) == sink + (p + o) + (sn + m + one) */
  lemma MovePair(sink: Result, o: Result, p: Result, sn: Result, m: Result, one: Result)
    ensures sink.Add(o).Add(sn.Add(p.Add(m)).Add(one)) == sink.Add(p.Add(o)).Add(sn.Add(m).Add(one))
  {
    hide Result.Add;
    AddSwap(sn, p, m);
    CountSeen(sink, o, p, sn.Add(m), NOTHING, one);
    AddNothing(p.Add(sn.Add(m)));
    AddNothing(sn.Add(m));
    AddAssoc(sink, p, o);
  }

  lemma EmitSourceKeeps(cfg: Config, s: State)
    requires Inv(cfg, s) && s.srcLeft != [] && s.holdA == None
    ensures Inv(cfg, EmitSource(cfg, s)) && Total(cfg, EmitSource(cfg, s)) == Total(cfg, s)
  {
    hide Result.Add, PairResult, PairsSum, SeenResult, UniqueKeys, IsCandidate, Matched, OneSided, Open, AfterInsert, Sum;
    var e, s' := s.srcLeft[0], EmitSource(cfg, s);
    var k, o := KeyOf(cfg, e), InsertOutcome(s.table, KeyOf(cfg, e), true);
    OpenAfterInsert(cfg, s.table, true, s.srcLeft, s.dstLeft);
    SeenTake(cfg, true, s.srcLeft);
    var ta, ta', tb := TreeOf(cfg, s.srcLeft), TreeOf(cfg, s'.srcLeft), TreeOf(cfg, s.dstLeft);
    AddAssoc(SeenResult(true, e), Sum(ta'.Keys, SeenAt(true, ta')), Sum(tb.Keys, SeenAt(false, tb)));
    EmitTotal(cfg, s, s', SeenResult(true, e), Open(cfg, s.table, true, s.srcLeft), Open(cfg, s.table, false, s.dstLeft), k, o.MatchedPeer?);
  }

  lemma EmitDestKeeps(cfg: Config, s: State)
    requires Inv(cfg, s) && s.dstLeft != [] && s.holdB == None
    ensures Inv(cfg, EmitDest(cfg, s)) && Total(cfg, EmitDest(cfg, s)) == Total(cfg, s)
  {
    hide Result.Add, PairResult, PairsSum, SeenResult, UniqueKeys, IsCandidate, Matched, OneSided, Open, AfterInsert, Sum;
    var e, s' := s.dstLeft[0], EmitDest(cfg, s);
    var k, o := KeyOf(cfg, e), InsertOutcome(s.table, KeyOf(cfg, e), false);
    OpenAfterInsert(cfg, s.table, false, s.dstLeft, s.srcLeft);
    SeenTake(cfg, false, s.dstLeft);
    var ta, tb' := TreeOf(cfg, s.srcLeft), TreeOf(cfg, s'.dstLeft);
    AddSwap(Sum(ta.Keys, SeenAt(true, ta)), SeenResult(false, e), Sum(tb'.Keys, SeenAt(false, tb')));
    EmitTotal(cfg, s, s', SeenResult(false, e), Open(cfg, s.table, true, s.srcLeft), Open(cfg, s.table, false, s.dstLeft), k, o.MatchedPeer?);
  }

  /** The bookkeeping both emissions share. */
  lemma EmitTotal(cfg: Config, s: State, s': State, seen: Result, a: Tree, b: Tree, k: Path, matched: bool)
    requires a == Open(cfg, s.table, true, s.srcLeft) && b == Open(cfg, s.table, false, s.dstLeft)
    requires Seen(TreeOf(cfg, s.srcLeft), TreeOf(cfg, s.dstLeft))
             == seen.Add(Seen(TreeOf(cfg, s'.srcLeft), TreeOf(cfg, s'.dstLeft)))
    requires s'.sink == s.sink.Add(seen) && s'.candidates == s.candidates
    requires var a', b' := Open(cfg, s'.table, true, s'.srcLeft), Open(cfg, s'.table, false, s'.dstLeft);
             if matched then
               k in a && k in b && a' == a - {k} && b' == b - {k}
               && ((s.holdA == None && s'.holdA == Some(Pair(a[k], b[k])) && s'.holdB == s.holdB)
                   || (s.holdB == None && s'.holdB == Some(Pair(a[k], b[k])) && s'.holdA == s.holdA))
             else a' == a && b' == b && s'.holdA == s.holdA && s'.holdB == s.holdB
    ensures Total(cfg, s') == Total(cfg, s)
  {
    hide Result.Add, PairResult, PairsSum, Seen, Matched, OneSided, Open;
    var sn, m, one := Seen(TreeOf(cfg, s'.srcLeft), TreeOf(cfg, s'.dstLeft)), Matched(cfg, a, b), OneSided(cfg, a, b);
    var o := Owed(cfg, s);
    CountSeen(s.sink, o, seen, sn, m, one);
    if matched {
      var p := PairResult(cfg, a[k], b[k]);
      MatchedTake(cfg, a, b, k);
      OneSidedTake(cfg, a, b, k);
      MovePair(s'.sink, o, p, sn, Matched(cfg, a - {k}, b - {k}), one);
      HoldPair(cfg, s, s', p);
    }
  }

  lemma HoldPair(cfg: Config, s: State, s': State, p: Result)
    requires s'.candidates == s.candidates
    requires (s.holdA == None && s'.holdA.Some? && HeldSum(cfg, s'.holdA) == p && s'.holdB == s.holdB)
             || (s.holdB == None && s'.holdB.Some? && HeldSum(cfg, s'.holdB) == p && s'.holdA == s.holdA)
    ensures Owed(cfg, s') == p.Add(Owed(cfg, s))
  {
    hide Result.Add, PairResult, PairsSum;
    var ha, hb, ps := HeldSum(cfg, s.holdA), HeldSum(cfg, s.holdB), PairsSum(cfg, s.candidates);
    AddNothing(ha);
    AddNothing(hb);
    AddComm(ha, p);
    AddAssoc(p, hb, ps);
    AddAssoc(p, ha, ps);
  }

  // --- whole runs ---

  lemma StepKeeps(cfg: Config, s: State, s': State)
    requires Inv(cfg, s) && Step(cfg, s, s')
    ensures Inv(cfg, s') && Total(cfg, s') == Total(cfg, s)
  {
    hide Inv, Total, EmitSource, EmitDest, ClassifySource, ClassifyDest, HashTask;
    if s.srcLeft != [] && s.holdA == None && s' == EmitSource(cfg, s) { EmitSourceKeeps(cfg, s); }
    else if s.dstLeft != [] && s.holdB == None && s' == EmitDest(cfg, s) { EmitDestKeeps(cfg, s); }
    else if s.holdA.Some? && s' == ClassifySource(cfg, s) { ClassifySourceKeeps(cfg, s); }
    else if s.holdB.Some? && s' == ClassifyDest(cfg, s) { ClassifyDestKeeps(cfg, s); }
    else {
      var i: nat :| i < |s.candidates| && s' == HashTask(cfg, s, i);
      HashTaskKeeps(cfg, s, i);
    }
  }

  ghost predicate IsRun(cfg: Config, run: seq<State>) {
    |run| > 0 && forall i | 0 <= i < |run| - 1 :: Step(cfg, run[i], run[i + 1])
  }

  lemma {:induction false} RunKeeps(cfg: Config, run: seq<State>, n: nat)
    requires IsRun(cfg, run) && Inv(cfg, run[0]) && n < |run|
    ensures Inv(cfg, run[n]) && Total(cfg, run[n]) == Total(cfg, run[0])
  {
    hide Inv, Total, Step;
    if n > 0 {
      RunKeeps(cfg, run, n - 1);
      assert Step(cfg, run[n - 1], run[n - 1 + 1]);
      StepKeeps(cfg, run[n - 1], run[n]);
    }
  }

  lemma StartTotal(cfg: Config, a: seq<FileEntry>, b: seq<FileEntry>)
    requires UniqueKeys(cfg, a) && UniqueKeys(cfg, b)
    ensures Inv(cfg, Start(a, b))
    ensures Total(cfg, Start(a, b)) == Reference(cfg, TreeOf(cfg, a), TreeOf(cfg, b))
  {
    hide Result.Add, Seen, Matched, OneSided, UniqueKeys;
    AddNothing(NOTHING);
    assert Open(cfg, map[], true, a) == TreeOf(cfg, a);
    assert Open(cfg, map[], false, b) == TreeOf(cfg, b);
    AddNothing(Future(cfg, Start(a, b)));
  }

  lemma FinishedTotal(cfg: Config, s: State)
    requires Finished(s)
    ensures Total(cfg, s) == s.sink.Add(OneSided(cfg, Stored(s.table, true), Stored(s.table, false)))
  {
    hide Result.Add, OneSided, PairResult, SeenResult;
    var a, b := Stored(s.table, true), Stored(s.table, false);
    assert Open(cfg, s.table, true, s.srcLeft) == a && Open(cfg, s.table, false, s.dstLeft) == b;
    assert a.Keys * b.Keys == {};
    AddNothing(NOTHING);
    AddNothing(s.sink);
    AddNothing(OneSided(cfg, a, b));
  }

  /** Every stored entry sits under its own key. */
  ghost predicate Keyed(cfg: Config, t: Table) {
    forall k <- t :: KeyOf(cfg, t[k].entry) == k
  }

  lemma NothingKeyed(cfg: Config)
    ensures Keyed(cfg, map[])
  {}

  lemma {:induction false} RunKeyed(cfg: Config, run: seq<State>, n: nat)
    requires IsRun(cfg, run) && Keyed(cfg, run[0].table) && n < |run|
    ensures Keyed(cfg, run[n].table)
  {
    hide SeenResult, PairResult, VerdictResult, Result.Add;
    if n > 0 {
      RunKeyed(cfg, run, n - 1);
      assert Step(cfg, run[n - 1], run[n - 1 + 1]);
    }
  }

  /** Whatever the interleaving of the workers and the hash tasks: when all of them are finished, the sink together
      with the report on the entries left in the table is the reference result of the two trees. That report finds every
      entry under its own key. */
  lemma EveryScheduleAgrees(cfg: Config, a: seq<FileEntry>, b: seq<FileEntry>, run: seq<State>)
    requires UniqueKeys(cfg, a) && UniqueKeys(cfg, b)
    requires IsRun(cfg, run) && run[0] == Start(a, b) && Finished(run[|run| - 1])
    ensures var last := run[|run| - 1];
            && Keyed(cfg, last.table)
            && last.sink.Add(OneSided(cfg, Stored(last.table, true), Stored(last.table, false)))
               == Reference(cfg, TreeOf(cfg, a), TreeOf(cfg, b))
  {
    hide Total, Inv, Reference, OneSided, Result.Add, Keyed;
    StartTotal(cfg, a, b);
    NothingKeyed(cfg);
    RunKeyed(cfg, run, |run| - 1);
    RunKeeps(cfg, run, |run| - 1);
    FinishedTotal(cfg, run[|run| - 1]);
  }

  /** Each entry is emitted once, each match classified once, each candidate hashed once. */
  function Work(s: State): nat {
    3 * (|s.srcLeft| + |s.dstLeft|) + (if s.holdA.Some? then 2 else 0) + (if s.holdB.Some? then 2 else 0)
    + |s.candidates|
  }

  /** Every step uses up work, and as long as the run is not finished some step is possible: every run ends, and it
      ends finished. */
  lemma RunsFinish(cfg: Config, s: State)
    ensures forall s' | Step(cfg, s, s') :: Work(s') < Work(s)
    ensures !Finished(s) ==> exists s' :: Step(cfg, s, s')
  {
    hide SeenResult, PairResult, VerdictResult, Result.Add, AfterInsert, InsertOutcome;
    if !Finished(s) {
      if s.holdA.Some? { assert Step(cfg, s, ClassifySource(cfg, s)); }
      else if s.holdB.Some? { assert Step(cfg, s, ClassifyDest(cfg, s)); }
      else if s.srcLeft != [] { assert Step(cfg, s, EmitSource(cfg, s)); }
      else if s.dstLeft != [] { assert Step(cfg, s, EmitDest(cfg, s)); }
      else { assert Step(cfg, s, HashTask(cfg, s, 0)); }
    }
  }
}
