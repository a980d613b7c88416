/** Which rows a comparison reports and captures, by the two trees: one per key at most, and what each of them says. */
module ReportMeaning {
  import opened Wrappers
  import opened Bytes
  import opened Results
  import opened JournalCodec
  import opened JournalStats
  import opened Classify
  import opened RunResult

  // --- which keys have rows ---

  /** A source-only entry that is reported: a file, or a directory without another source-only entry below. */
  ghost predicate MissingShown(a: Tree, b: Tree, k: Path) {
    k in a && k !in b && (a[k].isDirectory ==> forall x :: x in a && x !in b ==> !Below(x, k))
  }

  /** A destination-only entry that is reported; what lies below is decided by folded paths. */
  ghost predicate ExtraShown(cfg: Config, a: Tree, b: Tree, k: Path) {
    && k in b && k !in a
    && (b[k].isDirectory ==>
          forall x :: x in b && x !in a ==> !Below(cfg.fold(b[x].relativePath), cfg.fold(b[k].relativePath)))
  }

  // --- what the rows say ---

  predicate Undigested(r: FileResult) {
    r.hashSource == None && r.hashDest == None && r.percent == 100 && r.pattern == Edges
  }

  /** The row of a source-only entry: its path, its type, and the bytes that a copy would bring in. */
  predicate SaysMissing(r: FileResult, e: FileEntry) {
    && r.status == Missing && r.relativePath == e.relativePath && r.underSource && Undigested(r)
    && r.sizeSource == (if e.isDirectory then 0 else e.size) && r.sizeDest == 0
    && r.isDirectory == r.srcIsDirectory == e.isDirectory && !r.dstIsDirectory
    && r.reparseKind == r.srcReparseKind == e.reparseKind
  }

  /** The row of a destination-only entry. */
  predicate SaysExtra(r: FileResult, e: FileEntry) {
    && r.status == Extra && r.relativePath == e.relativePath && !r.underSource && Undigested(r)
    && r.sizeSource == 0 && r.sizeDest == e.size
    && r.isDirectory == r.dstIsDirectory == e.isDirectory && !r.srcIsDirectory
    && r.reparseKind == e.reparseKind && r.srcReparseKind == NotReparse
  }

  /** A captured row keeps the size, the modification time and the type of an entry. */
  predicate Saw(o: Option<Observed>, e: FileEntry) {
    o.Some? && o.value.size == e.size && o.value.mtime == e.mtime && o.value.isDirectory == e.isDirectory
  }

  predicate CapturesPair(row: ClassifiedRow, a: FileEntry, b: FileEntry, v: Verdict) {
    && row.path == b.relativePath && Saw(row.a, a) && Saw(row.b, b)
    && row.verdict == v.status && row.isDirectory == v.isDirectory
    && row.hashA == v.hashA && row.hashB == v.hashB && row.percent == v.percent && row.pattern == v.pattern
  }

  predicate CapturesOne(row: ClassifiedRow, e: FileEntry, source: bool) {
    && row.path == e.relativePath && row.isDirectory == e.isDirectory
    && row.verdict == (if source then Missing else Extra)
    && (if source then Saw(row.a, e) && row.b == None else row.a == None && Saw(row.b, e))
    && row.hashA == None && row.hashB == None && row.percent == 100 && row.pattern == Edges
  }

  // --- rows of a run ---

  ghost predicate Reports(cfg: Config, a: Tree, b: Tree, k: Path, r: FileResult) {
    || (k in a && k in b && PairVerdict(cfg, a[k], b[k]).problem == Some(r))
    || (MissingShown(a, b, k) && SaysMissing(r, a[k]))
    || (ExtraShown(cfg, a, b, k) && SaysExtra(r, b[k]))
  }

  ghost predicate Captures(cfg: Config, a: Tree, b: Tree, k: Path, row: ClassifiedRow) {
    || (k in a && k in b && CapturesPair(row, a[k], b[k], PairVerdict(cfg, a[k], b[k])))
    || (MissingShown(a, b, k) && CapturesOne(row, a[k], true))
    || (ExtraShown(cfg, a, b, k) && CapturesOne(row, b[k], false))
  }

  lemma PairMeans(cfg: Config, a: Tree, b: Tree, k: Path, r: FileResult, row: ClassifiedRow)
    requires k in a && k in b
    ensures r in PairAt(cfg, a, b)(k).problems <==> Reports(cfg, a, b, k, r)
    ensures row in PairAt(cfg, a, b)(k).captured <==> Captures(cfg, a, b, k, row)
  {
    hide PairVerdict, RunCounters, Below;
    var v := PairVerdict(cfg, a[k], b[k]);
    assert row == PairCapture(a[k], b[k], v) <==> CapturesPair(row, a[k], b[k], v);
    hide PairCapture, CapturesPair;
  }

  lemma MissingMeans(cfg: Config, a: Tree, b: Tree, k: Path, r: FileResult, row: ClassifiedRow)
    requires k in a && k !in b
    ensures r in MissingAt(a - b.Keys)(k).problems <==> Reports(cfg, a, b, k, r)
    ensures row in MissingAt(a - b.Keys)(k).captured <==> Captures(cfg, a, b, k, row)
  {
    hide Below;
    MissingHidden(a, b, k);
    assert r == MissingRow(a[k]) <==> SaysMissing(r, a[k]);
    assert row == MissingCapture(a[k]) <==> CapturesOne(row, a[k], true);
    hide MissingShown, HasBelow, MissingRow, MissingCapture, SaysMissing, CapturesOne;
  }

  lemma MissingHidden(a: Tree, b: Tree, k: Path)
    requires k in a && k !in b
    ensures MissingShown(a, b, k) <==> !(a[k].isDirectory && HasBelow((a - b.Keys).Keys, k))
  {
    hide Below;
  }

  lemma ExtraMeans(cfg: Config, a: Tree, b: Tree, k: Path, r: FileResult, row: ClassifiedRow)
    requires k !in a && k in b
    ensures r in ExtraAt(cfg, b - a.Keys)(k).problems <==> Reports(cfg, a, b, k, r)
    ensures row in ExtraAt(cfg, b - a.Keys)(k).captured <==> Captures(cfg, a, b, k, row)
  {
    hide Below, FoldedPaths;
    ExtraHidden(cfg, a, b, k);
    var m := b - a.Keys;
    assert m[k] == b[k];
    assert ExtraAt(cfg, m)(k) == ExtraResult(b[k], HasBelow(FoldedPaths(cfg, m), cfg.fold(b[k].relativePath)));
    assert r == ExtraRow(b[k]) <==> SaysExtra(r, b[k]);
    assert row == ExtraCapture(b[k]) <==> CapturesOne(row, b[k], false);
    hide ExtraShown, HasBelow, ExtraRow, ExtraCapture, SaysExtra, CapturesOne;
  }

  lemma ExtraHidden(cfg: Config, a: Tree, b: Tree, k: Path)
    requires k !in a && k in b
    ensures var m := b - a.Keys;
            ExtraShown(cfg, a, b, k) <==> !(b[k].isDirectory && HasBelow(FoldedPaths(cfg, m), cfg.fold(b[k].relativePath)))
  {
    hide Below;
    var m, d := b - a.Keys, cfg.fold(b[k].relativePath);
    assert forall x <- m :: m[x] == b[x];
    if HasBelow(FoldedPaths(cfg, m), d) {
      var p :| p in FoldedPaths(cfg, m) && Below(p, d);
      var x :| x in m && cfg.fold(m[x].relativePath) == p;
      assert x in b && x !in a && Below(cfg.fold(b[x].relativePath), d);
    } else {
      forall x | x in b && x !in a ensures !Below(cfg.fold(b[x].relativePath), d) {
        assert cfg.fold(m[x].relativePath) in FoldedPaths(cfg, m);
      }
    }
  }

  // --- sums ---

  lemma {:induction false} SumProblem(s: set<Path>, f: Path -> Result, r: FileResult)
    ensures r in Sum(s, f).problems <==> exists k <- s :: r in f(k).problems
    decreases |s|
  {
    hide Stats.Plus;
    if s != {} {
      var k :| k in s;
      SumTake(s, f, k);
      SumProblem(s - {k}, f, r);
      if j :| j in s && r in f(j).problems { assert j != k ==> j in s - {k}; }
    }
  }

  lemma {:induction false} SumCaptured(s: set<Path>, f: Path -> Result, row: ClassifiedRow)
    ensures row in Sum(s, f).captured <==> exists k <- s :: row in f(k).captured
    decreases |s|
  {
    hide Stats.Plus;
    if s != {} {
      var k :| k in s;
      SumTake(s, f, k);
      SumCaptured(s - {k}, f, row);
      if j :| j in s && row in f(j).captured { assert j != k ==> j in s - {k}; }
    }
  }

  /** Every reported row, and so what every schedule and the serial comparison report. */
  lemma ProblemsMean(cfg: Config, a: Tree, b: Tree, r: FileResult)
    ensures r in Reference(cfg, a, b).problems <==> exists k :: (k in a || k in b) && Reports(cfg, a, b, k, r)
  {
    hide Stats.Plus, PairAt, MissingAt, ExtraAt, Sum, SeenAt, Reports;
    var missing, extra := a - b.Keys, b - a.Keys;
    SumProblem(a.Keys, SeenAt(true, a), r);
    SumProblem(b.Keys, SeenAt(false, b), r);
    NothingSeen(a, b);
    SumProblem(a.Keys * b.Keys, PairAt(cfg, a, b), r);
    SumProblem(missing.Keys, MissingAt(missing), r);
    SumProblem(extra.Keys, ExtraAt(cfg, extra), r);
    forall k | k in a || k in b { ProblemAt(cfg, a, b, k, r); }
  }

  lemma ProblemAt(cfg: Config, a: Tree, b: Tree, k: Path, r: FileResult)
    requires k in a || k in b
    ensures Reports(cfg, a, b, k, r) <==>
            || (k in a.Keys * b.Keys && r in PairAt(cfg, a, b)(k).problems)
            || (k in (a - b.Keys).Keys && r in MissingAt(a - b.Keys)(k).problems)
            || (k in (b - a.Keys).Keys && r in ExtraAt(cfg, b - a.Keys)(k).problems)
  {
    hide PairAt, MissingAt, ExtraAt, Reports, Captures;
    var row: ClassifiedRow :| true;
    if k in a && k in b { PairMeans(cfg, a, b, k, r, row); }
    else if k in a { MissingMeans(cfg, a, b, k, r, row); }
    else { ExtraMeans(cfg, a, b, k, r, row); }
  }

  /** Every captured row, and so what a session's journal can hold. */
  lemma CapturedMeans(cfg: Config, a: Tree, b: Tree, row: ClassifiedRow)
    ensures row in Reference(cfg, a, b).captured <==> exists k :: (k in a || k in b) && Captures(cfg, a, b, k, row)
  {
    hide Stats.Plus, PairAt, MissingAt, ExtraAt, Sum, SeenAt, Captures;
    var missing, extra := a - b.Keys, b - a.Keys;
    SumCaptured(a.Keys, SeenAt(true, a), row);
    SumCaptured(b.Keys, SeenAt(false, b), row);
    NothingSeen(a, b);
    SumCaptured(a.Keys * b.Keys, PairAt(cfg, a, b), row);
    SumCaptured(missing.Keys, MissingAt(missing), row);
    SumCaptured(extra.Keys, ExtraAt(cfg, extra), row);
    forall k | k in a || k in b { CapturedAt(cfg, a, b, k, row); }
  }

  lemma CapturedAt(cfg: Config, a: Tree, b: Tree, k: Path, row: ClassifiedRow)
    requires k in a || k in b
    ensures Captures(cfg, a, b, k, row) <==>
            || (k in a.Keys * b.Keys && row in PairAt(cfg, a, b)(k).captured)
            || (k in (a - b.Keys).Keys && row in MissingAt(a - b.Keys)(k).captured)
            || (k in (b - a.Keys).Keys && row in ExtraAt(cfg, b - a.Keys)(k).captured)
  {
    hide PairAt, MissingAt, ExtraAt, Reports, Captures;
    var r: FileResult :| true;
    if k in a && k in b { PairMeans(cfg, a, b, k, r, row); }
    else if k in a { MissingMeans(cfg, a, b, k, r, row); }
    else { ExtraMeans(cfg, a, b, k, r, row); }
  }

  lemma NothingSeen(a: Tree, b: Tree)
    ensures forall k :: SeenAt(true, a)(k).problems == SeenAt(false, b)(k).problems == multiset{}
    ensures forall k :: SeenAt(true, a)(k).captured == SeenAt(false, b)(k).captured == multiset{}
  {
    hide SideStats;
  }

  // --- each once ---

  ghost predicate HasProblem(cfg: Config, a: Tree, b: Tree, k: Path) {
    (k in a && k in b && PairVerdict(cfg, a[k], b[k]).problem.Some?) || MissingShown(a, b, k) || ExtraShown(cfg, a, b, k)
  }

  ghost predicate HasCapture(cfg: Config, a: Tree, b: Tree, k: Path) {
    (k in a && k in b) || MissingShown(a, b, k) || ExtraShown(cfg, a, b, k)
  }

  lemma {:induction false} SumSizes(s: set<Path>, f: Path -> Result, p: set<Path>, c: set<Path>)
    requires forall k <- s :: |f(k).problems| == (if k in p then 1 else 0) && |f(k).captured| == (if k in c then 1 else 0)
    ensures |Sum(s, f).problems| == |s * p| && |Sum(s, f).captured| == |s * c|
    decreases |s|
  {
    hide Stats.Plus;
    if s == {} {
      assert s * p == {} && s * c == {};
    } else {
      var k :| k in s;
      SumTake(s, f, k);
      SumSizes(s - {k}, f, p, c);
      OneLess(s, p, k);
      OneLess(s, c, k);
    }
  }

  lemma OneLess(s: set<Path>, p: set<Path>, k: Path)
    requires k in s
    ensures |s * p| == |(s - {k}) * p| + (if k in p then 1 else 0)
  {
    if k in p { assert s * p == (s - {k}) * p + {k}; } else { assert s * p == (s - {k}) * p; }
  }

  ghost function ProblemKeys(cfg: Config, a: Tree, b: Tree): set<Path> {
    set k | k in a.Keys + b.Keys && HasProblem(cfg, a, b, k)
  }

  ghost function CaptureKeys(cfg: Config, a: Tree, b: Tree): set<Path> {
    set k | k in a.Keys + b.Keys && HasCapture(cfg, a, b, k)
  }

  lemma SizesAt(cfg: Config, a: Tree, b: Tree, k: Path)
    requires k in a || k in b
    ensures var c := if k in a && k in b then PairAt(cfg, a, b)(k)
                     else if k in a then MissingAt(a - b.Keys)(k) else ExtraAt(cfg, b - a.Keys)(k);
            && |c.problems| == (if HasProblem(cfg, a, b, k) then 1 else 0)
            && |c.captured| == (if HasCapture(cfg, a, b, k) then 1 else 0)
  {
    hide PairVerdict, RunCounters, Below, HasBelow, MissingShown, ExtraShown, FoldedPaths, PairCapture, MissingRow, MissingCapture,
         ExtraRow, ExtraCapture;
    if k in a && k in b {
      OneSidedNot(cfg, a, b, k);
    } else if k in a {
      OneSidedNot(cfg, a, b, k);
      MissingHidden(a, b, k);
    } else {
      OneSidedNot(cfg, a, b, k);
      ExtraHidden(cfg, a, b, k);
      var m := b - a.Keys;
      assert m[k] == b[k];
      assert ExtraAt(cfg, m)(k) == ExtraResult(b[k], HasBelow(FoldedPaths(cfg, m), cfg.fold(b[k].relativePath)));
    }
  }

  lemma OneSidedNot(cfg: Config, a: Tree, b: Tree, k: Path)
    ensures MissingShown(a, b, k) ==> k in a && k !in b
    ensures ExtraShown(cfg, a, b, k) ==> k !in a && k in b
  {
    hide Below;
  }

  lemma PairSizes(cfg: Config, a: Tree, b: Tree)
    ensures var keys, sum := a.Keys * b.Keys, Sum(a.Keys * b.Keys, PairAt(cfg, a, b));
            |sum.problems| == |keys * ProblemKeys(cfg, a, b)| && |sum.captured| == |keys * CaptureKeys(cfg, a, b)|
  {
    hide PairAt, Sum, HasProblem, HasCapture, Reference;
    forall k | k in a && k in b { SizesAt(cfg, a, b, k); }
    SumSizes(a.Keys * b.Keys, PairAt(cfg, a, b), ProblemKeys(cfg, a, b), CaptureKeys(cfg, a, b));
  }

  lemma MissingSizes(cfg: Config, a: Tree, b: Tree)
    ensures var keys, sum := a.Keys - b.Keys, Sum((a - b.Keys).Keys, MissingAt(a - b.Keys));
            |sum.problems| == |keys * ProblemKeys(cfg, a, b)| && |sum.captured| == |keys * CaptureKeys(cfg, a, b)|
  {
    hide PairAt, MissingAt, ExtraAt, Sum, HasProblem, HasCapture, Reference;
    forall k | k in a && k !in b { SizesAt(cfg, a, b, k); }
    assert (a - b.Keys).Keys == a.Keys - b.Keys;
    SumSizes(a.Keys - b.Keys, MissingAt(a - b.Keys), ProblemKeys(cfg, a, b), CaptureKeys(cfg, a, b));
  }

  lemma ExtraSizes(cfg: Config, a: Tree, b: Tree)
    ensures var keys, sum := b.Keys - a.Keys, Sum((b - a.Keys).Keys, ExtraAt(cfg, b - a.Keys));
            |sum.problems| == |keys * ProblemKeys(cfg, a, b)| && |sum.captured| == |keys * CaptureKeys(cfg, a, b)|
  {
    hide PairAt, MissingAt, ExtraAt, Sum, HasProblem, HasCapture, Reference;
    forall k | k !in a && k in b { SizesAt(cfg, a, b, k); }
    assert (b - a.Keys).Keys == b.Keys - a.Keys;
    SumSizes(b.Keys - a.Keys, ExtraAt(cfg, b - a.Keys), ProblemKeys(cfg, a, b), CaptureKeys(cfg, a, b));
  }

  lemma SeenSizes(a: Tree, b: Tree)
    ensures Seen(a, b).problems == multiset{} && Seen(a, b).captured == multiset{}
  {
    hide SeenAt, Sum;
    NothingSeen(a, b);
    SumSizes(a.Keys, SeenAt(true, a), {}, {});
    SumSizes(b.Keys, SeenAt(false, b), {}, {});
    assert a.Keys * {} == {} && b.Keys * {} == {};
  }

  /** As many rows are reported as keys have one, and as many captured: no key's row comes twice. */
  lemma RowsOnce(cfg: Config, a: Tree, b: Tree)
    ensures |Reference(cfg, a, b).problems| == |ProblemKeys(cfg, a, b)|
    ensures |Reference(cfg, a, b).captured| == |CaptureKeys(cfg, a, b)|
  {
    hide Stats.Plus, PairAt, MissingAt, ExtraAt, Sum, Seen, HasProblem, HasCapture;
    SeenSizes(a, b);
    PairSizes(cfg, a, b);
    MissingSizes(cfg, a, b);
    ExtraSizes(cfg, a, b);
    ThreeParts(a.Keys, b.Keys, ProblemKeys(cfg, a, b));
    ThreeParts(a.Keys, b.Keys, CaptureKeys(cfg, a, b));
  }

  lemma ThreeParts(x: set<Path>, y: set<Path>, p: set<Path>)
    requires p <= x + y
    ensures |p| == |x * y * p| + |(x - y) * p| + |(y - x) * p|
  {
    assert p == x * y * p + (x - y) * p + (y - x) * p;
  }
}
