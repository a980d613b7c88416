/** The serial comparison: the destination is streamed against an index of the source. */
module FileComparator {
  import opened Wrappers
  import opened Bytes
  import opened Results
  import opened JournalStats
  import opened PartialRead
  import opened Classify
  import opened RunResult
  import opened PathOrder
  import opened ConcurrentRun
  import opened ConcurrentSink
  import opened MatchTable
  import opened ConcurrentComparer

  // --- what the serial report and the concurrent one have in common ---

  /** Counters and differences, without the captured rows: the serial comparison has no row observer. */
  ghost function Public(r: Result): Result {
    r.(captured := multiset{})
  }

  lemma PublicAdd(a: Result, b: Result)
    ensures Public(a.Add(b)) == Public(a).Add(Public(b))
  {
    hide Stats.Plus;
  }

  /** The serial report v, with the source entries seen, is the sink g of a concurrent run plus more. */
  ghost predicate Agree(seen: Result, v: Result, g: Result, more: Result) {
    Public(seen.Add(v)) == Public(g.Add(more))
  }

  lemma AgreeBoth(seen: Result, v: Result, g: Result, more: Result, r: Result)
    requires Agree(seen, v, g, more)
    ensures Agree(seen, v.Add(r), g.Add(r), more)
  {
    hide Result.Add, Public;
    AddAssoc(seen, v, r);
    AddAssoc(g, r, more);
    AddComm(r, more);
    AddAssoc(g, more, r);
    PublicAdd(seen.Add(v), r);
    PublicAdd(g.Add(more), r);
  }

  lemma AgreeMore(seen: Result, v: Result, g: Result, more: Result, r: Result)
    requires Agree(seen, v, g, more)
    ensures Agree(seen, v.Add(r), g, more.Add(r))
  {
    hide Result.Add, Public;
    AddAssoc(seen, v, r);
    AddAssoc(g, more, r);
    PublicAdd(seen.Add(v), r);
    PublicAdd(g.Add(more), r);
  }

  // --- extra entries: reported as they come, filtered at the end ---

  /** An extra entry when it arrives: counted and reported. */
  ghost function Arrived(e: FileEntry): Result {
    One(if e.isDirectory then ZERO.(extraDirs := 1) else ZERO.(extraFiles := 1), Some(ExtraRow(e)), None)
  }

  ghost function ArrivedSum(items: seq<Item>): Result {
    if items == [] then NOTHING else ArrivedSum(items[..|items| - 1]).Add(Arrived(items[|items| - 1].entry))
  }

  /** The rows that the final filter drops. */
  ghost predicate Redundant(cfg: Config, folded: set<Path>, r: FileResult) {
    r.status == Extra && r.isDirectory && HasBelow(folded, cfg.fold(r.relativePath))
  }

  ghost predicate Filtered(cfg: Config, folded: set<Path>, all: multiset<FileResult>, kept: multiset<FileResult>) {
    forall r :: kept[r] == if Redundant(cfg, folded, r) then 0 else all[r]
  }

  lemma FilteredAdd(cfg: Config, folded: set<Path>, a: multiset<FileResult>, a': multiset<FileResult>,
                    b: multiset<FileResult>, b': multiset<FileResult>)
    requires Filtered(cfg, folded, a, a') && Filtered(cfg, folded, b, b')
    ensures Filtered(cfg, folded, a + b, a' + b')
  {
    hide Redundant;
  }

  lemma FilteredSame(cfg: Config, folded: set<Path>, m: multiset<FileResult>)
    requires forall r <- m :: r.status != Extra
    ensures Filtered(cfg, folded, m, m)
  {
    hide HasBelow;
  }

  lemma ArrivedFiltered(cfg: Config, folded: set<Path>, e: FileEntry)
    ensures var kept := ExtraResult(e, HasBelow(folded, cfg.fold(e.relativePath)));
            Filtered(cfg, folded, Arrived(e).problems, kept.problems) && kept.stats == Arrived(e).stats
  {
    hide HasBelow;
  }

  /** Filtering what arrived gives what the reference reports about the extra entries. */
  lemma {:induction false} ArrivedSumFiltered(cfg: Config, t: Tree, items: seq<Item>)
    requires forall i | 0 <= i < |items| :: items[i].key in t && t[items[i].key] == items[i].entry
    ensures var kept := ItemsSum(items, ExtraAt(cfg, t));
            Filtered(cfg, FoldedPaths(cfg, t), ArrivedSum(items).problems, kept.problems)
            && kept.stats == ArrivedSum(items).stats
  {
    hide Stats.Plus, Arrived, ExtraResult, Filtered, FoldedPaths, HasBelow;
    var folded := FoldedPaths(cfg, t);
    if items == [] {
      FilteredSame(cfg, folded, multiset{});
    } else {
      var n := |items| - 1;
      var e := items[n].entry;
      ArrivedSumFiltered(cfg, t, items[..n]);
      ArrivedFiltered(cfg, folded, e);
      FilteredAdd(cfg, folded, ArrivedSum(items[..n]).problems, ItemsSum(items[..n], ExtraAt(cfg, t)).problems,
                  Arrived(e).problems, ExtraResult(e, HasBelow(folded, cfg.fold(e.relativePath))).problems);
    }
  }

  lemma PairNeverExtra(cfg: Config, a: FileEntry, b: FileEntry)
    ensures forall r <- PairResult(cfg, a, b).problems :: r.status != Extra
  {
    var v := PairVerdict(cfg, a, b);
    assert v.problem.Some? ==> v.problem.value.status != Extra by { hide Plan, EffectiveLevel; }
  }

  /** The final filter over all reported rows. */
  method FilterExtra(cfg: Config, folded: seq<Path>, ghost keys: set<Path>, problems: seq<FileResult>)
    returns (filtered: seq<FileResult>)
    requires Sorted(folded) && forall k :: k in folded <==> k in keys
    ensures Filtered(cfg, keys, multiset(problems), multiset(filtered))
  {
    filtered := [];
    hide HasBelow, Below;
    for i := 0 to |problems|
      invariant Filtered(cfg, keys, multiset(problems[..i]), multiset(filtered))
    {
      var r := problems[i];
      assert problems[..i + 1] == problems[..i] + [r];
      var redundantDir := false;
      if r.status == Extra && r.isDirectory {
        redundantDir := HasDescendant(folded, cfg.fold(r.relativePath));
        BelowKeys(folded, keys, cfg.fold(r.relativePath));
      }
      if !redundantDir { filtered := filtered + [r]; }
    }
    assert problems[..|problems|] == problems;
  }

  /** Entries of a map, each once. */
  method ItemsOfTree(t: Tree) returns (items: seq<Item>)
    ensures ItemsOf(items, t)
  {
    items := [];
    var left := t.Keys;
    while left != {}
      invariant left <= t.Keys && ItemsOf(items, t - left)
      decreases left
    {
      hide ItemsOf;
      var k :| k in left;
      ItemsAppend(items, t - left, Item(k, t[k]));
      assert (t - left)[k := t[k]] == t - (left - {k});
      items, left := items + [Item(k, t[k])], left - {k};
    }
    assert t - {} == t;
  }

  // --- the comparison ---

  /** The serial comparison as one particular schedule: the whole source is stored before the destination streams. */
  ghost function SerialStart(source: Tree, dst: seq<FileEntry>): State {
    State([], dst, map k | k in source :: Slot(true, source[k]), None, None, [], Sum(source.Keys, SeenAt(true, source)))
  }

  lemma SerialStartInv(cfg: Config, source: Tree, dst: seq<FileEntry>)
    requires UniqueKeys(cfg, dst)
    ensures var g := SerialStart(source, dst);
            Inv(cfg, g) && Stored(g.table, true) == source && Stored(g.table, false) == map[]
            && Open(cfg, g.table, true, []) == source && Open(cfg, g.table, false, dst) == TreeOf(cfg, dst)
  {
    hide SeenAt, Sum;
    assert UniqueKeys(cfg, []);
    var g := SerialStart(source, dst);
    assert Stored(g.table, true) == source && Stored(g.table, false) == map[];
  }

  lemma SerialStartTotal(cfg: Config, source: Tree, dst: seq<FileEntry>)
    requires UniqueKeys(cfg, dst)
    ensures var g := SerialStart(source, dst);
            Inv(cfg, g) && Total(cfg, g) == Reference(cfg, source, TreeOf(cfg, dst))
            && Stored(g.table, true) == source && Stored(g.table, false) == map[]
  {
    hide Result.Add, Matched, OneSided, UniqueKeys, SeenAt, Open, Inv, Stored;
    var g, b := SerialStart(source, dst), TreeOf(cfg, dst);
    SerialStartInv(cfg, source, dst);
    var sb := Sum(b.Keys, SeenAt(false, b));
    AddNothing(NOTHING);
    AddNothing(sb);
    CountSeen(NOTHING, NOTHING, g.sink, sb, Matched(cfg, source, b), OneSided(cfg, source, b));
    AddNothing(g.sink);
    AddNothing(Seen(source, b).Add(Matched(cfg, source, b)).Add(OneSided(cfg, source, b)));
  }

  class Serial {
    const cfg: Config
    const out: Sink
    /** The source entries that have not been matched. */
    var source: Tree
    var pendingHashes: seq<Pair>

    constructor (cfg: Config, source: Tree)
      ensures this.cfg == cfg && this.source == source && pendingHashes == [] && fresh(out) && out.Value() == NOTHING
    {
      this.cfg, this.source, pendingHashes := cfg, source, [];
      out := new Sink();
    }

    /** One streamed destination entry: it erases and meets its source entry, or it is extra. */
    method OnDest(e: FileEntry, extraFolded: seq<Path>) returns (folded: seq<Path>)
      modifies this, out
      ensures var k, seen := KeyOf(cfg, e), old(out.Value()).Add(SeenResult(false, e));
              if k in old(source) then
                var p := Pair(old(source)[k], e);
                && source == old(source) - {k} && folded == extraFolded
                && (if IsCandidate(cfg, p.a, p.b) then pendingHashes == old(pendingHashes) + [p] && out.Value() == seen
                    else pendingHashes == old(pendingHashes) && out.Value() == seen.Add(PairResult(cfg, p.a, p.b)))
              else
                && source == old(source) && pendingHashes == old(pendingHashes)
                && folded == extraFolded + [cfg.fold(e.relativePath)] && out.Value() == seen.Add(Arrived(e))
    {
      hide Result.Add, SeenResult, PairResult, IsCandidate, ExtraRow;
      out.CountEntry(false, e);
      var key := if cfg.caseSensitive then e.relativePath else cfg.fold(e.relativePath);
      folded := extraFolded;
      if key in source {
        var src := source[key];
        source := source - {key};
        pendingHashes := ClassifyMatched(cfg, src, e, out, pendingHashes);
      } else {
        folded := folded + [cfg.fold(e.relativePath)];
        ReportArrived(e);
      }
    }

    method ReportArrived(e: FileEntry)
      modifies out
      ensures out.Value() == old(out.Value()).Add(Arrived(e))
    {
      hide ExtraRow;
      if e.isDirectory { out.stats := out.stats.(extraDirs := out.stats.extraDirs + 1); }
      else { out.stats := out.stats.(extraFiles := out.stats.extraFiles + 1); }
      out.problems := out.problems + [ExtraRow(e)];
    }

    /** run, up to the final filter: the destination is streamed. Along with it goes the concurrent run in which the
        source worker has already finished. */
    method Stream(dst: seq<FileEntry>, ghost seen: Result)
      returns (extraFolded: seq<Path>, ghost extras: seq<Item>, ghost g: State)
      requires UniqueKeys(cfg, dst) && pendingHashes == [] && out.Value() == NOTHING
      requires seen == Sum(source.Keys, SeenAt(true, source))
      modifies this, out
      ensures Streamed(cfg, g, [], source, pendingHashes, extras, extraFolded)
      ensures Total(cfg, g) == Reference(cfg, old(source), TreeOf(cfg, dst))
      ensures Agree(seen, out.Value(), g.sink, ArrivedSum(extras))
    {
      hide Streamed, Agree, Total, Reference, Result.Add, SeenResult, PairResult, IsCandidate, Arrived;
      extraFolded, extras, g := [], [], SerialStart(source, dst);
      SerialStartTotal(cfg, source, dst);
      StreamStart(cfg, g, source, dst, seen);
      assert dst[0..] == dst;
      for i := 0 to |dst|
        invariant Streamed(cfg, g, dst[i..], source, pendingHashes, extras, extraFolded)
        invariant Total(cfg, g) == Reference(cfg, old(source), TreeOf(cfg, dst))
        invariant Agree(seen, out.Value(), g.sink, ArrivedSum(extras))
      {
        var e := dst[i];
        assert dst[i..][0] == e && dst[i..][1..] == dst[i + 1..];
        ghost var src, pend, v := source, pendingHashes, out.Value();
        StreamStep(cfg, g, dst[i..], source, pendingHashes, extras, extraFolded);
        StreamAgrees(cfg, seen, v, g, dst[i..], src, pend, extras, extraFolded);
        extraFolded := OnDest(e, extraFolded);
        var k := KeyOf(cfg, e);
        g := AfterDest(cfg, g);
        extras := if k in src then extras else extras + [Item(k, e)];
      }
    }

    /** The final filter: an extra directory with another extra entry below it is not reported. */
    method DropRedundant(extraFolded: seq<Path>, ghost seen: Result, ghost extras: seq<Item>, ghost g: State)
      requires Streamed(cfg, g, [], source, pendingHashes, extras, extraFolded)
      requires Agree(seen, out.Value(), g.sink, ArrivedSum(extras)) && seen.problems == multiset{}
      modifies out
      ensures Agree(seen, out.Value(), g.sink, Sum(Stored(g.table, false).Keys, ExtraAt(cfg, Stored(g.table, false))))
    {
      hide Agree, Inv, Sum, Stored, HasBelow, Stats.Plus;
      ghost var t, v := Stored(g.table, false), out.Value();
      FoldedMembers(cfg, t, extras, extraFolded);
      var sorted := SortKeys(extraFolded);
      SameMembers(sorted, extraFolded);
      out.problems := FilterExtra(cfg, sorted, FoldedPaths(cfg, t), out.problems);
      FilterAgrees(cfg, seen, v, g.sink, t, extras, multiset(out.problems));
      ItemsSumIsSum(extras, t, ExtraAt(cfg, t));
    }

    /** recordMissing: the source entries that are left. */
    method RecordMissing(ghost seen: Result, ghost g: State, ghost more: Result)
      requires Agree(seen, out.Value(), g.sink, more)
      modifies out
      ensures Agree(seen, out.Value(), g.sink, more.Add(Sum(source.Keys, MissingAt(source))))
    {
      hide Agree, Sum, Result.Add, MissingAt;
      var items := ItemsOfTree(source);
      ghost var v := out.Value();
      ReportMissing(items, source, out);
      AgreeMore(seen, v, g.sink, more, Sum(source.Keys, MissingAt(source)));
    }

    /** runHashing: every deferred candidate is hashed into the report. */
    method RunHashing(ghost seen: Result, ghost start: State, ghost more: Result) returns (ghost g: State)
      requires Inv(cfg, start) && start.candidates == pendingHashes && Agree(seen, out.Value(), start.sink, more)
      modifies out
      ensures g == start.(candidates := [], sink := g.sink) && Total(cfg, g) == Total(cfg, start)
      ensures Agree(seen, out.Value(), g.sink, more)
    {
      hide Agree, Total, Result.Add, VerdictResult, Inv;
      g := start;
      assert pendingHashes[0..] == pendingHashes;
      for i := 0 to |pendingHashes|
        invariant Inv(cfg, g) && g == start.(candidates := pendingHashes[i..], sink := g.sink)
        invariant Total(cfg, g) == Total(cfg, start) && Agree(seen, out.Value(), g.sink, more)
      {
        var p := pendingHashes[i];
        assert g.candidates[..0] + g.candidates[1..] == pendingHashes[i + 1..];
        HashTaskKeeps(cfg, g, 0);
        AgreeBoth(seen, out.Value(), g.sink, more, VerdictResult(p.a, p.b, HashVerdict(cfg, CandidateOf(p.a, p.b))));
        HashOneCandidateInto(cfg, p, out);
        g := HashTask(cfg, g, 0);
      }
    }

    /** The whole serial comparison: with the counters of the source index, its counters and its differences are the
        reference's, and so those of every concurrent schedule. */
    method Run(dst: seq<FileEntry>)
      requires UniqueKeys(cfg, dst) && pendingHashes == [] && out.Value() == NOTHING
      modifies this, out
      ensures var seen := Sum(old(source).Keys, SeenAt(true, old(source)));
              Public(seen.Add(out.Value())) == Public(Reference(cfg, old(source), TreeOf(cfg, dst)))
    {
      hide Total, Reference, Result.Add, Inv, Sum, SeenAt, MissingAt, ExtraAt, Stored, HasBelow, FoldedPaths;
      ghost var seen := Sum(source.Keys, SeenAt(true, source));
      SeenHasNoProblems(source.Keys, source);
      var folded;
      ghost var extras, g;
      folded, extras, g := Stream(dst, seen);
      DropRedundant(folded, seen, extras, g);
      ghost var extra := Stored(g.table, false);
      ghost var more := Sum(extra.Keys, ExtraAt(cfg, extra));
      RecordMissing(seen, g, more);
      AddComm(more, Sum(source.Keys, MissingAt(source)));
      OneSidedOfTable(cfg, g.table);
      var finished := RunHashing(seen, g, OneSided(cfg, source, extra));
      FinishedTotal(cfg, finished);
    }
  }

  /** How the serial state mirrors the concurrent one. */
  ghost predicate Streamed(cfg: Config, g: State, left: seq<FileEntry>, source: Tree, pending: seq<Pair>,
                           extras: seq<Item>, extraFolded: seq<Path>)
  {
    && Inv(cfg, g)
    && g.srcLeft == [] && g.dstLeft == left && g.holdA == None && g.holdB == None && g.candidates == pending
    && Stored(g.table, true) == source && ItemsOf(extras, Stored(g.table, false))
    && |extraFolded| == |extras|
    && (forall i | 0 <= i < |extras| :: extraFolded[i] == cfg.fold(extras[i].entry.relativePath))
    && (forall r <- g.sink.problems :: r.status != Extra)
  }

  /** The destination worker's emission, with the classification that follows a match. */
  ghost function AfterDest(cfg: Config, g: State): State
    requires g.dstLeft != [] && g.holdB == None
  {
    var g' := EmitDest(cfg, g);
    if g'.holdB.Some? then ClassifyDest(cfg, g') else g'
  }

  lemma StreamStart(cfg: Config, g: State, source: Tree, dst: seq<FileEntry>, seen: Result)
    requires g == SerialStart(source, dst) && Inv(cfg, g) && seen == g.sink
    requires Stored(g.table, true) == source && Stored(g.table, false) == map[]
    ensures Streamed(cfg, g, dst, source, [], [], []) && Agree(seen, NOTHING, g.sink, ArrivedSum([]))
  {
    hide Result.Add, SeenResult, Inv;
    SeenHasNoProblems(source.Keys, source);
  }

  lemma {:induction false} SeenHasNoProblems(s: set<Path>, t: Tree)
    ensures Sum(s, SeenAt(true, t)).problems == multiset{}
    decreases |s|
  {
    hide Stats.Plus, SideStats;
    if s != {} {
      var k :| k in s;
      SumTake(s, SeenAt(true, t), k);
      SeenHasNoProblems(s - {k}, t);
      assert SeenAt(true, t)(k).problems == multiset{};
    }
  }

  /** What AfterDest does to a state without source worker. */
  lemma DestEffect(cfg: Config, g: State)
    requires Inv(cfg, g) && g.dstLeft != [] && g.holdA == None && g.holdB == None
    ensures var e, g' := g.dstLeft[0], AfterDest(cfg, g);
            var k, a := KeyOf(cfg, e), Stored(g.table, true);
            && g'.srcLeft == g.srcLeft && g'.dstLeft == g.dstLeft[1..] && g'.holdA == None && g'.holdB == None
            && (if k in a then
                  var p := Pair(a[k], e);
                  && Stored(g'.table, true) == a - {k} && Stored(g'.table, false) == Stored(g.table, false)
                  && (if IsCandidate(cfg, p.a, p.b) then g'.candidates == g.candidates + [p] && g'.sink == g.sink.Add(SeenResult(false, e))
                      else g'.candidates == g.candidates
                           && g'.sink == g.sink.Add(SeenResult(false, e)).Add(PairResult(cfg, p.a, p.b)))
                else
                  && k !in Stored(g.table, false)
                  && Stored(g'.table, true) == a && Stored(g'.table, false) == Stored(g.table, false)[k := e]
                  && g'.candidates == g.candidates && g'.sink == g.sink.Add(SeenResult(false, e)))
  {
    hide SeenResult, PairResult, IsCandidate, Result.Add, UniqueKeys, AfterInsert, Stored;
    var e := g.dstLeft[0];
    var k := KeyOf(cfg, e);
    assert k in TreeOf(cfg, g.dstLeft);
    StoredAfterInsert(g.table, k, false, e);
    PeerOf(g.table, k);
  }

  lemma PeerOf(t: Table, k: Path)
    requires k !in Stored(t, false)
    ensures k in Stored(t, true) <==> InsertOutcome(t, k, false).MatchedPeer?
    ensures k in Stored(t, true) ==> InsertOutcome(t, k, false).peer == Stored(t, true)[k]
  {}

  lemma AfterDestKeeps(cfg: Config, g: State)
    requires Inv(cfg, g) && g.dstLeft != [] && g.holdB == None
    ensures Inv(cfg, AfterDest(cfg, g)) && Total(cfg, AfterDest(cfg, g)) == Total(cfg, g)
  {
    hide Inv, Total, EmitDest, ClassifyDest;
    EmitDestKeeps(cfg, g);
    if EmitDest(cfg, g).holdB.Some? { ClassifyDestKeeps(cfg, EmitDest(cfg, g)); }
  }

  lemma StreamStep(cfg: Config, g: State, left: seq<FileEntry>, source: Tree, pending: seq<Pair>, extras: seq<Item>,
                   extraFolded: seq<Path>)
    requires Streamed(cfg, g, left, source, pending, extras, extraFolded) && left != []
    ensures g.dstLeft == left && g.holdB == None
    ensures var e, g' := left[0], AfterDest(cfg, g);
            var k := KeyOf(cfg, e);
            && Total(cfg, g') == Total(cfg, g)
            && (if k in source then
                  var p := Pair(source[k], e);
                  Streamed(cfg, g', left[1..], source - {k}, if IsCandidate(cfg, p.a, p.b) then pending + [p] else pending,
                           extras, extraFolded)
                else
                  Streamed(cfg, g', left[1..], source, pending, extras + [Item(k, e)],
                           extraFolded + [cfg.fold(e.relativePath)]))
  {
    hide Inv, Total, AfterDest, SeenResult, PairResult, IsCandidate, ItemsOf, Stored;
    var e, g' := left[0], AfterDest(cfg, g);
    var k := KeyOf(cfg, e);
    AfterDestKeeps(cfg, g);
    DestEffect(cfg, g);
    NoExtraSeen(e);
    if k in source { PairNeverExtra(cfg, source[k], e); }
    else { ItemsAppend(extras, Stored(g.table, false), Item(k, e)); }
  }

  lemma NoExtraSeen(e: FileEntry)
    ensures SeenResult(false, e).problems == multiset{}
  {}

  lemma StreamAgrees(cfg: Config, seen: Result, v: Result, g: State, left: seq<FileEntry>, source: Tree, pending: seq<Pair>,
                     extras: seq<Item>, extraFolded: seq<Path>)
    requires Streamed(cfg, g, left, source, pending, extras, extraFolded) && left != []
    requires Agree(seen, v, g.sink, ArrivedSum(extras))
    ensures var e, g' := left[0], AfterDest(cfg, g);
            var k, v' := KeyOf(cfg, e), v.Add(SeenResult(false, e));
            if k !in source then Agree(seen, v'.Add(Arrived(e)), g'.sink, ArrivedSum(extras + [Item(k, e)]))
            else
              var p := Pair(source[k], e);
              Agree(seen, if IsCandidate(cfg, p.a, p.b) then v' else v'.Add(PairResult(cfg, p.a, p.b)), g'.sink, ArrivedSum(extras))
  {
    hide Inv, Agree, AfterDest, SeenResult, PairResult, IsCandidate, ItemsOf, Stored, Result.Add, Arrived;
    var e := left[0];
    var k, s := KeyOf(cfg, e), SeenResult(false, e);
    DestEffect(cfg, g);
    AgreeBoth(seen, v, g.sink, ArrivedSum(extras), s);
    if k in source {
      AgreeBoth(seen, v.Add(s), g.sink.Add(s), ArrivedSum(extras), PairResult(cfg, source[k], e));
    } else {
      AgreeMore(seen, v.Add(s), g.sink.Add(s), ArrivedSum(extras), Arrived(e));
      assert (extras + [Item(k, e)])[..|extras|] == extras;
    }
  }

  lemma OneSidedOfTable(cfg: Config, t: Table)
    ensures var a, b := Stored(t, true), Stored(t, false);
            OneSided(cfg, a, b) == Sum(a.Keys, MissingAt(a)).Add(Sum(b.Keys, ExtraAt(cfg, b)))
  {
    hide Sum, Result.Add;
    var a, b := Stored(t, true), Stored(t, false);
    assert a - b.Keys == a && b - a.Keys == b;
  }

  lemma FoldedMembers(cfg: Config, t: Tree, extras: seq<Item>, folded: seq<Path>)
    requires ItemsOf(extras, t) && |folded| == |extras|
    requires forall i | 0 <= i < |extras| :: folded[i] == cfg.fold(extras[i].entry.relativePath)
    ensures forall f :: f in folded <==> f in FoldedPaths(cfg, t)
  {
    forall f ensures f in folded <==> f in FoldedPaths(cfg, t) {
      if f in FoldedPaths(cfg, t) {
        var k :| k in t && cfg.fold(t[k].relativePath) == f;
        var i :| 0 <= i < |extras| && extras[i].key == k;
        assert folded[i] == f;
      }
      if f in folded { var i :| 0 <= i < |folded| && folded[i] == f; assert extras[i].key in t; }
    }
  }

  lemma FilterAgrees(cfg: Config, seen: Result, v: Result, g: Result, t: Tree, extras: seq<Item>, kept: multiset<FileResult>)
    requires ItemsOf(extras, t) && Agree(seen, v, g, ArrivedSum(extras))
    requires Filtered(cfg, FoldedPaths(cfg, t), v.problems, kept)
    requires seen.problems == multiset{} && forall r <- g.problems :: r.status != Extra
    ensures Agree(seen, v.(problems := kept), g, ItemsSum(extras, ExtraAt(cfg, t)))
  {
    hide Stats.Plus, FoldedPaths, Filtered, ArrivedSum, ItemsSum, ExtraAt;
    var folded, arrived, shown := FoldedPaths(cfg, t), ArrivedSum(extras), ItemsSum(extras, ExtraAt(cfg, t));
    forall i | 0 <= i < |extras| ensures extras[i].key in t {}
    ArrivedSumFiltered(cfg, t, extras);
    FilteredSame(cfg, folded, g.problems);
    FilteredAdd(cfg, folded, g.problems, g.problems, arrived.problems, shown.problems);
    assert v.problems == g.problems + arrived.problems by {
      assert Public(seen.Add(v)).problems == multiset{} + v.problems;
      assert Public(g.Add(arrived)).problems == g.problems + arrived.problems;
    }
    FilteredUnique(cfg, folded, v.problems, kept, g.problems + shown.problems);
  }

  lemma FilteredUnique(cfg: Config, folded: set<Path>, m: multiset<FileResult>, x: multiset<FileResult>, y: multiset<FileResult>)
    requires Filtered(cfg, folded, m, x) && Filtered(cfg, folded, m, y)
    ensures x == y
  {
    hide Redundant;
    forall r ensures x[r] == y[r] {}
  }
}
