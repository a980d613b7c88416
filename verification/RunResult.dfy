/** Results of a comparison as an order-free sum of contributions, one per key, and the reference result. */
module RunResult {
  import opened Wrappers
  import opened Bytes
  import opened Results
  import opened JournalStats
  import opened Classify

  /** Counters, reported differences and captured rows; the order of the latter two carries no meaning. */
  datatype Result = Result(stats: Stats, problems: multiset<FileResult>, captured: multiset<ClassifiedRow>) {
    ghost function Add(o: Result): Result {
      Result(stats.Plus(o.stats), problems + o.problems, captured + o.captured)
    }
  }

  ghost const NOTHING: Result := Result(ZERO, multiset{}, multiset{})

  lemma AddAssoc(a: Result, b: Result, c: Result)
    ensures a.Add(b).Add(c) == a.Add(b.Add(c))
  {
    hide Stats.Plus;
    PlusAssoc(a.stats, b.stats, c.stats);
  }

  lemma AddComm(a: Result, b: Result)
    ensures a.Add(b) == b.Add(a)
  {
    hide Stats.Plus;
    PlusComm(a.stats, b.stats);
  }

  lemma AddNothing(a: Result)
    ensures a.Add(NOTHING) == a && NOTHING.Add(a) == a
  {
    hide Stats.Plus;
    PlusZero(a.stats);
  }

  /** a + (b + c) == b + (a + c) */
  lemma AddSwap(a: Result, b: Result, c: Result)
    ensures a.Add(b.Add(c)) == b.Add(a.Add(c))
  {
    hide Result.Add;
    AddAssoc(a, b, c);
    AddAssoc(b, a, c);
    AddComm(a, b);
  }

  // --- sums over finite key sets ---

  ghost function Sum(s: set<Path>, f: Path -> Result): Result
    decreases |s|
  {
    if s == {} then NOTHING else
    var k :| k in s;
    f(k).Add(Sum(s - {k}, f))
  }

  /** Any key can be taken out of a sum. */
  lemma {:induction false} SumTake(s: set<Path>, f: Path -> Result, k: Path)
    requires k in s
    ensures Sum(s, f) == f(k).Add(Sum(s - {k}, f))
    decreases |s|
  {
    hide Result.Add;
    var first :| first in s && Sum(s, f) == f(first).Add(Sum(s - {first}, f));
    if first != k {
      SumTake(s - {first}, f, k);
      SumTake(s - {k}, f, first);
      assert s - {first} - {k} == s - {k} - {first};
      AddSwap(f(first), f(k), Sum(s - {first} - {k}, f));
    }
  }

  lemma {:induction false} SumSame(s: set<Path>, f: Path -> Result, g: Path -> Result)
    requires forall k <- s :: f(k) == g(k)
    ensures Sum(s, f) == Sum(s, g)
    decreases |s|
  {
    hide Result.Add;
    if s != {} {
      var k :| k in s;
      SumTake(s, f, k);
      SumTake(s, g, k);
      SumSame(s - {k}, f, g);
    }
  }

  lemma {:induction false} SumUnion(s: set<Path>, t: set<Path>, f: Path -> Result)
    requires s !! t
    ensures Sum(s + t, f) == Sum(s, f).Add(Sum(t, f))
    decreases |s|
  {
    hide Result.Add;
    if s == {} {
      assert s + t == t;
      AddNothing(Sum(t, f));
    } else {
      var k :| k in s;
      SumTake(s, f, k);
      SumTake(s + t, f, k);
      assert s + t - {k} == (s - {k}) + t;
      SumUnion(s - {k}, t, f);
      AddAssoc(f(k), Sum(s - {k}, f), Sum(t, f));
    }
  }

  lemma {:induction false} SumAdd(s: set<Path>, f: Path -> Result, g: Path -> Result)
    ensures Sum(s, k => f(k).Add(g(k))) == Sum(s, f).Add(Sum(s, g))
    decreases |s|
  {
    var h := (k: Path) => f(k).Add(g(k));
    if s == {} {
      AddNothing(NOTHING);
    } else {
      var k :| k in s;
      SumTake(s, f, k);
      SumTake(s, g, k);
      SumTake(s, h, k);
      SumAdd(s - {k}, f, g);
      hide Result.Add;
      AddMiddle(f(k), g(k), Sum(s - {k}, f), Sum(s - {k}, g));
    }
  }

  /** (a + b) + (c + d) == (a + c) + (b + d) */
  lemma AddMiddle(a: Result, b: Result, c: Result, d: Result)
    ensures a.Add(b).Add(c.Add(d)) == a.Add(c).Add(b.Add(d))
  {
    hide Result.Add;
    AddAssoc(a, b, c.Add(d));
    AddSwap(b, c, d);
    AddAssoc(a, c, b.Add(d));
  }

  // --- contributions ---

  ghost function One(stats: Stats, problem: Option<FileResult>, captured: Option<ClassifiedRow>): Result {
    Result(stats,
           if problem.Some? then multiset{problem.value} else multiset{},
           if captured.Some? then multiset{captured.value} else multiset{})
  }

  ghost function VerdictResult(a: FileEntry, b: FileEntry, v: Verdict): Result {
    One(RunCounters(v.status, v.isDirectory), v.problem, Some(PairCapture(a, b, v)))
  }

  /** What a matched pair contributes. */
  ghost function PairResult(cfg: Config, a: FileEntry, b: FileEntry): Result {
    VerdictResult(a, b, PairVerdict(cfg, a, b))
  }

  /** What an enumerated entry contributes by itself. */
  ghost function SeenResult(source: bool, e: FileEntry): Result {
    One(SideStats(source, Some(ObservedOf(e))), None, None)
  }

  /** k lies strictly below the directory d. */
  predicate Below(k: Path, d: Path) {
    d + [SEP] <= k
  }

  ghost predicate HasBelow(keys: set<Path>, d: Path) {
    exists k <- keys :: Below(k, d)
  }

  /** A source-only entry: always counted; reported unless it is a directory above another source-only entry. */
  ghost function MissingResult(e: FileEntry, hidden: bool): Result {
    if e.isDirectory then
      One(ZERO.(missingDirs := 1), if hidden then None else Some(MissingRow(e)), if hidden then None else Some(MissingCapture(e)))
    else One(ZERO.(missingFiles := 1), Some(MissingRow(e)), Some(MissingCapture(e)))
  }

  ghost function ExtraResult(e: FileEntry, hidden: bool): Result {
    if e.isDirectory then
      One(ZERO.(extraDirs := 1), if hidden then None else Some(ExtraRow(e)), if hidden then None else Some(ExtraCapture(e)))
    else One(ZERO.(extraFiles := 1), Some(ExtraRow(e)), Some(ExtraCapture(e)))
  }

  type Tree = map<Path, FileEntry>

  ghost function SeenAt(source: bool, t: Tree): Path -> Result {
    k => if k in t then SeenResult(source, t[k]) else NOTHING
  }

  ghost function PairAt(cfg: Config, a: Tree, b: Tree): Path -> Result {
    k => if k in a && k in b then PairResult(cfg, a[k], b[k]) else NOTHING
  }

  ghost function MissingAt(m: Tree): Path -> Result {
    k => if k in m then MissingResult(m[k], HasBelow(m.Keys, k)) else NOTHING
  }

  /** Extra directories are suppressed by the folded paths of the extra entries, whatever the case policy. */
  ghost function FoldedPaths(cfg: Config, m: Tree): set<Path> {
    set k | k in m :: cfg.fold(m[k].relativePath)
  }

  ghost function ExtraAt(cfg: Config, m: Tree): Path -> Result {
    k => if k in m then ExtraResult(m[k], HasBelow(FoldedPaths(cfg, m), cfg.fold(m[k].relativePath))) else NOTHING
  }

  /** The one-sided part of a result. */
  ghost function OneSided(cfg: Config, a: Tree, b: Tree): Result {
    var missing, extra := a - b.Keys, b - a.Keys;
    Sum(missing.Keys, MissingAt(missing)).Add(Sum(extra.Keys, ExtraAt(cfg, extra)))
  }

  /** What enumerating and matching two trees gives, before one-sided entries are reported. */
  ghost function Matched(cfg: Config, a: Tree, b: Tree): Result {
    Sum(a.Keys * b.Keys, PairAt(cfg, a, b))
  }

  ghost function Seen(a: Tree, b: Tree): Result {
    Sum(a.Keys, SeenAt(true, a)).Add(Sum(b.Keys, SeenAt(false, b)))
  }

  /** The reference: every entry is counted once on its side, every common key gets its pair's verdict, every other
      key is missing or extra. */
  ghost function Reference(cfg: Config, a: Tree, b: Tree): Result {
    Seen(a, b).Add(Matched(cfg, a, b)).Add(OneSided(cfg, a, b))
  }

  // --- every entry is counted under exactly one verdict ---

  /** The number of verdicts that the counters record. */
  function Verdicts(st: Stats): nat {
    st.identicalFiles + st.identicalDirs + st.missingFiles + st.missingDirs + st.extraFiles + st.extraDirs
    + st.sizeMismatch + st.contentMismatch + st.identicalPartialFiles + st.contentMismatchPartial
    + st.readErrors + st.accessDenied + st.changedDuringScan
  }

  lemma VerdictsAdd(a: Result, b: Result)
    ensures Verdicts(a.Add(b).stats) == Verdicts(a.stats) + Verdicts(b.stats)
  {}

  lemma {:induction false} SumVerdicts(s: set<Path>, f: Path -> Result, each: nat)
    requires forall k <- s :: Verdicts(f(k).stats) == each
    ensures Verdicts(Sum(s, f).stats) == |s| * each
    decreases |s|
  {
    hide Verdicts, Result.Add;
    if s == {} {
      assert Verdicts(ZERO) == 0 by { NoVerdicts(); }
    } else {
      var k :| k in s && Sum(s, f) == f(k).Add(Sum(s - {k}, f));
      VerdictsAdd(f(k), Sum(s - {k}, f));
      SumVerdicts(s - {k}, f, each);
      assert |s| * each == each + (|s| - 1) * each;
    }
  }

  lemma NoVerdicts()
    ensures Verdicts(ZERO) == 0 && Verdicts(NOTHING.stats) == 0
  {}

  lemma PairHasVerdict(cfg: Config, a: FileEntry, b: FileEntry)
    ensures Verdicts(PairResult(cfg, a, b).stats) == 1
  {
    hide PairVerdict;
    CounterIsOne(PairVerdict(cfg, a, b).status, PairVerdict(cfg, a, b).isDirectory);
  }

  lemma CounterIsOne(status: Status, isDirectory: bool)
    ensures Verdicts(RunCounters(status, isDirectory)) == 1
  {}

  lemma OneSidedVerdict(e: FileEntry, hidden: bool, source: bool)
    ensures Verdicts(MissingResult(e, hidden).stats) == 1 && Verdicts(ExtraResult(e, hidden).stats) == 1
    ensures Verdicts(SeenResult(source, e).stats) == 0
  {}

  lemma SeenVerdicts(a: Tree, b: Tree)
    ensures Verdicts(Seen(a, b).stats) == 0
  {
    hide Verdicts, Result.Add, SeenResult, Sum;
    NoVerdicts();
    forall e, src ensures Verdicts(SeenResult(src, e).stats) == 0 { OneSidedVerdict(e, false, src); }
    SumVerdicts(a.Keys, SeenAt(true, a), 0);
    SumVerdicts(b.Keys, SeenAt(false, b), 0);
    VerdictsAdd(Sum(a.Keys, SeenAt(true, a)), Sum(b.Keys, SeenAt(false, b)));
  }

  lemma MatchedVerdicts(cfg: Config, a: Tree, b: Tree)
    ensures Verdicts(Matched(cfg, a, b).stats) == |a.Keys * b.Keys|
  {
    hide Verdicts, PairResult, Sum;
    forall x, y ensures Verdicts(PairResult(cfg, x, y).stats) == 1 { PairHasVerdict(cfg, x, y); }
    SumVerdicts(a.Keys * b.Keys, PairAt(cfg, a, b), 1);
  }

  lemma OneSidedVerdicts(cfg: Config, a: Tree, b: Tree)
    ensures Verdicts(OneSided(cfg, a, b).stats) == |a.Keys - b.Keys| + |b.Keys - a.Keys|
  {
    hide Verdicts, Result.Add, MissingResult, ExtraResult, Sum, HasBelow, FoldedPaths;
    var missing, extra := a - b.Keys, b - a.Keys;
    forall e, h ensures Verdicts(MissingResult(e, h).stats) == 1 && Verdicts(ExtraResult(e, h).stats) == 1 {
      OneSidedVerdict(e, h, true);
    }
    SumVerdicts(missing.Keys, MissingAt(missing), 1);
    SumVerdicts(extra.Keys, ExtraAt(cfg, extra), 1);
    VerdictsAdd(Sum(missing.Keys, MissingAt(missing)), Sum(extra.Keys, ExtraAt(cfg, extra)));
    assert missing.Keys == a.Keys - b.Keys && extra.Keys == b.Keys - a.Keys;
  }

  /** Every path of the two trees is counted under exactly one verdict. */
  lemma CountedOnce(cfg: Config, a: Tree, b: Tree)
    ensures Verdicts(Reference(cfg, a, b).stats) == |a.Keys + b.Keys|
  {
    hide Verdicts, Result.Add, Seen, Matched, OneSided;
    SeenVerdicts(a, b);
    MatchedVerdicts(cfg, a, b);
    OneSidedVerdicts(cfg, a, b);
    VerdictsAdd(Seen(a, b), Matched(cfg, a, b));
    VerdictsAdd(Seen(a, b).Add(Matched(cfg, a, b)), OneSided(cfg, a, b));
    UnionParts(a.Keys, b.Keys);
  }

  lemma UnionParts(x: set<Path>, y: set<Path>)
    ensures |x + y| == |x * y| + |x - y| + |y - x|
  {
    assert x + y == x + (y - x) && x == x * y + (x - y);
  }

  // --- no difference stays hidden ---

  /** A directory that is suppressed has an entry strictly below it that is not. */
  lemma {:induction false} HiddenHasReported(keys: set<Path>, d: Path, k: Path)
    requires k in keys && Below(k, d)
    ensures exists r <- keys :: Below(r, d) && !HasBelow(keys, r)
    decreases set x | x in keys && |x| > |k|
  {
    if HasBelow(keys, k) {
      var r :| r in keys && Below(r, k);
      assert d + [SEP] <= r && |r| > |k|;
      var longer, rest := set x | x in keys && |x| > |k|, set x | x in keys && |x| > |r|;
      assert rest <= longer && r in longer && r !in rest;
      HiddenHasReported(keys, d, r);
    }
  }

  /** The row of every missing file, and of every missing directory without a missing entry below it, is reported;
      for any other missing directory the row of an entry strictly below it is. */
  lemma NothingMissingHidden(m: Tree, k: Path)
    requires k in m
    ensures exists r <- m.Keys :: (r == k || (m[k].isDirectory && Below(r, k)))
                                  && MissingRow(m[r]) in Sum(m.Keys, MissingAt(m)).problems
  {
    hide MissingRow, Sum;
    var r := k;
    if m[k].isDirectory && HasBelow(m.Keys, k) {
      var below :| below in m.Keys && Below(below, k);
      HiddenHasReported(m.Keys, k, below);
      r :| r in m.Keys && Below(r, k) && !HasBelow(m.Keys, r);
    }
    SumTake(m.Keys, MissingAt(m), r);
    assert MissingRow(m[r]) in MissingAt(m)(r).problems;
  }

  lemma NothingExtraHidden(cfg: Config, m: Tree, k: Path)
    requires k in m
    ensures exists r <- m.Keys :: (r == k || (m[k].isDirectory && Below(cfg.fold(m[r].relativePath), cfg.fold(m[k].relativePath))))
                                  && ExtraRow(m[r]) in Sum(m.Keys, ExtraAt(cfg, m)).problems
  {
    hide ExtraRow, Sum;
    var r, folded := k, FoldedPaths(cfg, m);
    if m[k].isDirectory && HasBelow(folded, cfg.fold(m[k].relativePath)) {
      var below :| below in folded && Below(below, cfg.fold(m[k].relativePath));
      HiddenHasReported(folded, cfg.fold(m[k].relativePath), below);
      var f :| f in folded && Below(f, cfg.fold(m[k].relativePath)) && !HasBelow(folded, f);
      r :| r in m && cfg.fold(m[r].relativePath) == f;
    }
    SumTake(m.Keys, ExtraAt(cfg, m), r);
    assert ExtraRow(m[r]) in ExtraAt(cfg, m)(r).problems;
  }
}
