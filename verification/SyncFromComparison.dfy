/** The rows of a complete full-content comparison are exactly what a plan needs. */
module SyncFromComparison {
  import opened Wrappers
  import opened Bytes
  import opened Results
  import opened JournalCodec
  import opened JournalStats
  import opened PartialRead
  import opened Classify
  import opened RunResult
  import opened SyncTree
  import opened SyncFs
  import opened LinkTargets
  import opened SyncExecutor
  import opened SyncConvergence
  import opened SyncSteps
  import opened SyncResult
  import opened SyncTotal
  import P = SyncPlan

  /** The index entry describes the node. */
  predicate Depicts(e: FileEntry, n: Node) {
    match n
    case File(data) => !e.isDirectory && e.reparseKind == NotReparse && e.size == |data|
    case Dir => e.isDirectory && e.reparseKind == NotReparse
    case Link(kind, target) => e.reparseKind == kind && kind != NotReparse && e.linkTarget == target && target != []
  }

  /** The index holds an entry for every node, under its folded path. */
  ghost predicate Indexes(cfg: Config, t: Tree, fs: Fs) {
    && t.Keys == fs.Keys
    && forall k <- t :: cfg.fold(t[k].relativePath) == k && P.Resolves(t[k].relativePath) && Depicts(t[k], fs[k])
  }

  /** The candidate's digests are those of the two files, which are read whole and do not change. */
  predicate Hashes(cfg: Config, c: Candidate, src: bytes, dst: bytes) {
    cfg.hashSource(c) == SideHash(Digested(cfg.sha(src)), false) && cfg.hashDest(c) == SideHash(Digested(cfg.sha(dst)), false)
  }

  /** The settings compare whole contents, and link targets relative to the two roots. */
  ghost predicate Compares(w: Setting, cfg: Config) {
    && cfg.mode == Content && cfg.percent >= 100
    && forall t: bytes :: cfg.normalizeSource(t) == ForCompare(w.env.fold, t, w.env.sourceRoot)
                          && cfg.normalizeDest(t) == ForCompare(w.env.fold, t, w.env.destRoot)
  }

  /** Where both sides have a file, the digests are those of the two contents, and these do not collide. */
  predicate HashedApart(cfg: Config, c: Candidate, s: Node, d: Node) {
    s.File? && d.File? ==> Hashes(cfg, c, s.data, d.data) && (cfg.sha(s.data) == cfg.sha(d.data) ==> s.data == d.data)
  }

  /** A full-content comparison of the two trees whose digests tell the compared contents apart. */
  ghost predicate FullContent(w: Setting, cfg: Config, a: Tree, b: Tree) {
    && Compares(w, cfg) && !cfg.caseSensitive && cfg.fold == w.env.fold
    && Indexes(cfg, a, w.env.source) && Indexes(cfg, b, w.dest)
    && forall k | k in a && k in b :: HashedApart(cfg, CandidateOf(a[k], b[k]), w.env.source[k], w.dest[k])
  }

  // --- one pair ---

  ghost predicate Pair(w: Setting, cfg: Config, k: Path, a: FileEntry, b: FileEntry) {
    && k in w.env.source && k in w.dest && Depicts(a, w.env.source[k]) && Depicts(b, w.dest[k])
    && (w.env.source[k].Link? ==> Supported(w.env.source[k].kind)) && (w.dest[k].Link? ==> Supported(w.dest[k].kind))
    && Compares(w, cfg)
  }

  /** The verdict on a pair has a row exactly when the nodes differ, and the row tells the truth about both sides. */
  lemma PairRow(w: Setting, cfg: Config, k: Path, a: FileEntry, b: FileEntry)
    requires Pair(w, cfg, k, a, b) && HashedApart(cfg, CandidateOf(a, b), w.env.source[k], w.dest[k])
    ensures var p := PairVerdict(cfg, a, b).problem;
            && (p.Some? <==> !Same(w, w.env.source[k], w.dest[k]))
            && (p.Some? ==> P.IsMismatch(p.value.status) && p.value.relativePath == b.relativePath
                            && SideIs(P.SourceSide(p.value), w.env.source[k]) && SideIs(P.DestSide(p.value), w.dest[k]))
  {
    hide PartialRead.Plan, EffectiveLevel, ForCompare;
    if IsLinkPair(a, b) { LinkRowTrue(w, cfg, k, a, b); }
    else if !a.isDirectory && !b.isDirectory && a.size == b.size { HashRowTrue(w, cfg, k, a, b); }
  }

  /** Two entries of which one is a link: a row exactly when they differ in type, in kind or in their targets as compared. */
  lemma LinkRowTrue(w: Setting, cfg: Config, k: Path, a: FileEntry, b: FileEntry)
    requires Pair(w, cfg, k, a, b) && IsLinkPair(a, b)
    ensures var p := LinkVerdict(cfg, a, b).problem;
            && (p.Some? <==> !Same(w, w.env.source[k], w.dest[k]))
            && (p.Some? ==> P.IsMismatch(p.value.status) && p.value.relativePath == b.relativePath
                            && SideIs(P.SourceSide(p.value), w.env.source[k]) && SideIs(P.DestSide(p.value), w.dest[k]))
  {}

  /** A link that cannot be read, or of an unsupported kind, is an error and never a mismatch, and nothing is planned for
      it: never a replacement by guess. */
  lemma UnreadableLinkSkipped(cfg: Config, fold: Path -> Path, a: FileEntry, b: FileEntry)
    requires IsLinkPair(a, b)
    ensures var v := LinkVerdict(cfg, a, b);
            var unreadable := Unsupported(a.reparseKind) || Unsupported(b.reparseKind)
                              || (a.reparseKind == b.reparseKind && (a.linkTarget == [] || b.linkTarget == []));
            && (v.status == ReadError <==> unreadable)
            && (unreadable ==> v.problem.Some? && P.RowDraft(fold, v.problem.value) == P.EMPTY.(skipped := [b.relativePath]))
  {}

  lemma HashRowTrue(w: Setting, cfg: Config, k: Path, a: FileEntry, b: FileEntry)
    requires Pair(w, cfg, k, a, b) && !IsLinkPair(a, b) && !a.isDirectory && !b.isDirectory
    requires HashedApart(cfg, CandidateOf(a, b), w.env.source[k], w.dest[k])
    ensures var p := HashVerdict(cfg, CandidateOf(a, b)).problem;
            && (p.Some? <==> !Same(w, w.env.source[k], w.dest[k]))
            && (p.Some? ==> P.IsMismatch(p.value.status) && p.value.relativePath == b.relativePath
                            && SideIs(P.SourceSide(p.value), w.env.source[k]) && SideIs(P.DestSide(p.value), w.dest[k]))
  {
    hide PartialRead.Plan, EffectiveLevel, ForCompare;
  }

  // --- rows of sums ---

  lemma {:induction false} SumProblems(s: set<Path>, f: Path -> Result, r: FileResult)
    ensures r in Sum(s, f).problems <==> exists k <- s :: r in f(k).problems
    decreases |s|
  {
    hide Stats.Plus;
    if s != {} {
      var k :| k in s;
      SumTake(s, f, k);
      SumProblems(s - {k}, f, r);
      if j :| j in s && r in f(j).problems { assert j != k ==> j in s - {k}; }
    }
  }

  /** Where a reported row comes from. */
  lemma ReferenceRows(cfg: Config, a: Tree, b: Tree, r: FileResult)
    ensures var missing, extra := a - b.Keys, b - a.Keys;
            r in Reference(cfg, a, b).problems <==>
            || (exists k <- a.Keys * b.Keys :: r in PairAt(cfg, a, b)(k).problems)
            || (exists k <- missing.Keys :: r in MissingAt(missing)(k).problems)
            || (exists k <- extra.Keys :: r in ExtraAt(cfg, extra)(k).problems)
  {
    hide Stats.Plus, PairAt, MissingAt, ExtraAt, Sum, SeenAt;
    var missing, extra := a - b.Keys, b - a.Keys;
    SumProblems(a.Keys, SeenAt(true, a), r);
    SumProblems(b.Keys, SeenAt(false, b), r);
    NothingSeen(a, b, r);
    SumProblems(a.Keys * b.Keys, PairAt(cfg, a, b), r);
    SumProblems(missing.Keys, MissingAt(missing), r);
    SumProblems(extra.Keys, ExtraAt(cfg, extra), r);
  }

  lemma NothingSeen(a: Tree, b: Tree, r: FileResult)
    ensures forall k :: r !in SeenAt(true, a)(k).problems && r !in SeenAt(false, b)(k).problems
  {
    hide SideStats;
  }

  // --- the rows of a comparison report everything, truly ---

  lemma PairAtKey(w: Setting, cfg: Config, a: Tree, b: Tree, k: Path)
    requires Sound(w) && FullContent(w, cfg, a, b) && k in a && k in b
    ensures Pair(w, cfg, k, a[k], b[k]) && cfg.fold(b[k].relativePath) == k && P.Resolves(b[k].relativePath)
    ensures HashedApart(cfg, CandidateOf(a[k], b[k]), w.env.source[k], w.dest[k])
  {
    hide P.Resolves, TreeOk, FoldOk, Hashes, Depicts, Compares, HashedApart;
  }

  lemma PairProblem(cfg: Config, a: Tree, b: Tree, k: Path, r: FileResult)
    requires k in a && k in b
    ensures r in PairAt(cfg, a, b)(k).problems <==> PairVerdict(cfg, a[k], b[k]).problem == Some(r)
  {
    hide PairVerdict, RunCounters, PairCapture;
  }

  lemma MissingProblem(m: Tree, k: Path, r: FileResult)
    requires k in m
    ensures r in MissingAt(m)(k).problems <==> r == MissingRow(m[k]) && !(m[k].isDirectory && HasBelow(m.Keys, k))
  {
    hide HasBelow, MissingRow, MissingCapture;
  }

  lemma ExtraProblem(cfg: Config, m: Tree, k: Path, r: FileResult)
    requires k in m && (forall x <- m :: cfg.fold(m[x].relativePath) == x)
    ensures r in ExtraAt(cfg, m)(k).problems <==> r == ExtraRow(m[k]) && !(m[k].isDirectory && HasBelow(m.Keys, k))
  {
    assert FoldedPaths(cfg, m) == m.Keys;
    hide HasBelow, ExtraRow, ExtraCapture, FoldedPaths;
  }

  /** Every reported row is true. */
  lemma RowsTrue(w: Setting, cfg: Config, a: Tree, b: Tree, r: FileResult)
    requires Sound(w) && FullContent(w, cfg, a, b) && r in Reference(cfg, a, b).problems
    ensures RowTrue(w, r)
  {
    hide P.Resolves, TreeOk, FoldOk, Hashes, Reference, HasBelow, Same, PairVerdict, SideIs, PairAt, MissingAt, ExtraAt;
    var missing, extra := a - b.Keys, b - a.Keys;
    ReferenceRows(cfg, a, b, r);
    if k :| k in a.Keys * b.Keys && r in PairAt(cfg, a, b)(k).problems {
      PairAtKey(w, cfg, a, b, k);
      PairProblem(cfg, a, b, k, r);
      PairRow(w, cfg, k, a[k], b[k]);
    } else if k :| k in missing.Keys && r in MissingAt(missing)(k).problems {
      MissingProblem(missing, k, r);
      OneSidedRow(a[k], w.env.source[k]);
    } else {
      var k :| k in extra.Keys && r in ExtraAt(cfg, extra)(k).problems;
      ExtraProblem(cfg, extra, k, r);
      OneSidedRow(b[k], w.dest[k]);
    }
  }

  lemma OneSidedRow(e: FileEntry, n: Node)
    requires Depicts(e, n)
    ensures SideIs(P.SourceSide(MissingRow(e)), n) && SideIs(P.DestSide(ExtraRow(e)), n)
  {}

  /** Differing entries of both sides. */
  lemma MismatchReported(w: Setting, cfg: Config, a: Tree, b: Tree, rows: seq<FileResult>, k: Path)
    requires Sound(w) && FullContent(w, cfg, a, b) && multiset(rows) == Reference(cfg, a, b).problems
    requires k in w.env.source && k in w.dest && !Same(w, w.env.source[k], w.dest[k])
    ensures HasRow(w, rows, k, Mismatches())
  {
    hide P.Resolves, TreeOk, FoldOk, Hashes, Reference, Same, PairVerdict, SideIs, PairAt, MissingAt, ExtraAt;
    PairAtKey(w, cfg, a, b, k);
    PairRow(w, cfg, k, a[k], b[k]);
    var r := PairVerdict(cfg, a[k], b[k]).problem.value;
    PairProblem(cfg, a, b, k, r);
    ReferenceRows(cfg, a, b, r);
    assert r in multiset(rows);
  }

  lemma MissingReported(w: Setting, cfg: Config, a: Tree, b: Tree, rows: seq<FileResult>, k: Path)
    requires Sound(w) && FullContent(w, cfg, a, b) && multiset(rows) == Reference(cfg, a, b).problems
    requires k in w.env.source && k !in w.dest
    requires w.env.source[k] != Dir || !HasBelow(w.env.source.Keys - w.dest.Keys, k)
    ensures HasRow(w, rows, k, Is(Missing))
  {
    hide P.Resolves, Hashes, Reference, HasBelow, PairAt, MissingAt, ExtraAt, FoldOk, NameOk, Below;
    var missing := a - b.Keys;
    assert missing.Keys == w.env.source.Keys - w.dest.Keys;
    if w.env.source[k] != Dir { LeafNotAbove(w.env.source, k, missing.Keys); }
    var r := MissingRow(a[k]);
    MissingProblem(missing, k, r);
    ReferenceRows(cfg, a, b, r);
    assert r in multiset(rows);
  }

  lemma ExtraReported(w: Setting, cfg: Config, a: Tree, b: Tree, rows: seq<FileResult>, k: Path)
    requires Sound(w) && FullContent(w, cfg, a, b) && multiset(rows) == Reference(cfg, a, b).problems
    requires k in w.dest && k !in w.env.source
    requires w.dest[k] != Dir || !HasBelow(w.dest.Keys - w.env.source.Keys, k)
    ensures HasRow(w, rows, k, Is(Extra))
  {
    hide P.Resolves, Hashes, Reference, HasBelow, PairAt, MissingAt, ExtraAt, FoldOk, NameOk, Below;
    var extra := b - a.Keys;
    assert extra.Keys == w.dest.Keys - w.env.source.Keys;
    if w.dest[k] != Dir { LeafNotAbove(w.dest, k, extra.Keys); }
    var r := ExtraRow(b[k]);
    ExtraProblem(cfg, extra, k, r);
    ReferenceRows(cfg, a, b, r);
    assert r in multiset(rows);
  }

  lemma LeafNotAbove(fs: Fs, k: Path, keys: set<Path>)
    requires TreeOk(fs) && k in fs && fs[k] != Dir && keys <= fs.Keys
    ensures !HasBelow(keys, k)
  {
    hide Below, NameOk;
  }

  /** The rows of a complete full-content comparison report the differences of the two trees: a plan built from them
      converges. */
  lemma ComparisonReports(w: Setting, cfg: Config, a: Tree, b: Tree, rows: seq<FileResult>)
    requires Sound(w) && FullContent(w, cfg, a, b) && multiset(rows) == Reference(cfg, a, b).problems
    ensures Reports(w, rows)
  {
    hide Sound, FullContent, Reference, RowTrue, HasRow, HasBelow, Same;
    forall r | r in rows ensures RowTrue(w, r) {
      assert r in multiset(rows);
      RowsTrue(w, cfg, a, b, r);
    }
    var src, dst := w.env.source, w.dest;
    forall k | k in src && k in dst && !Same(w, src[k], dst[k]) ensures HasRow(w, rows, k, Mismatches()) {
      MismatchReported(w, cfg, a, b, rows, k);
    }
    forall k | k in src && k !in dst && (src[k] != Dir || !HasBelow(src.Keys - dst.Keys, k)) ensures HasRow(w, rows, k, Is(Missing)) {
      MissingReported(w, cfg, a, b, rows, k);
    }
    forall k | k in dst && k !in src && (dst[k] != Dir || !HasBelow(dst.Keys - src.Keys, k)) ensures HasRow(w, rows, k, Is(Extra)) {
      ExtraReported(w, cfg, a, b, rows, k);
    }
  }

  /** From the comparison to the end of the run: unless something outside goes wrong, nothing fails and the destination
      holds exactly the source's entries, except for the doomed directories, all of them equal but for the links that are not
      carried over. */
  lemma UntroubledSync(w: Setting, cfg: Config, a: Tree, b: Tree, rows: seq<FileResult>, plan: P.Plan,
                       states: seq<Fs>, r: Report, k: Path)
    requires Sound(w) && FullContent(w, cfg, a, b) && multiset(rows) == Reference(cfg, a, b).problems
    requires P.Compiles(w.env.fold, rows, plan) && Linkable(w)
    requires Reported(w.env, plan.Actions(), Allowed(plan), states, r, false) && states[0] == w.dest
    ensures r.failedCount == 0 && !r.cancelled && |states| > 0
    ensures var end := states[|states| - 1];
            && (k in end <==> k in w.env.source && !Doomed(w, k))
            && (k in end ==> end[k] == Final(w, k) && (!w.env.source[k].Link? ==> Same(w, w.env.source[k], end[k])))
            && (k in end && Rooted(w.env) ==> (Same(w, w.env.source[k], end[k]) <==> Carried(w.env, w.env.source[k])))
  {
    hide Sound, FullContent, Reference, Reports, P.Compiles, Linkable, Reported, WholeRun, Doomed, Same, Final, Carried, Rooted;
    ComparisonReports(w, cfg, a, b, rows);
    ReportedStates(w.env, plan.Actions(), Allowed(plan), states, r);
    NoFailures(w, rows, plan, states, r);
    Converges(w, rows, plan, states, k);
  }

  lemma ReportedStates(env: Env, actions: seq<P.Action>, allowed: set<Path>, states: seq<Fs>, r: Report)
    requires Reported(env, actions, allowed, states, r, false)
    ensures |states| > 0
  {
    hide Executed, Explained, Counted;
  }

  // --- a comparison that meets all this ---

  /** C:\A and D:\B */
  const SOURCE_ROOT: bytes := [0x43, 0x3A, SEP, 0x41]
  const DEST_ROOT: bytes := [0x44, 0x3A, SEP, 0x42]

  /** A digest for the example. */
  function FirstByte(x: bytes): Digest {
    seq(32, i => if x == [] then 0 else x[0])
  }

  /** A file f on both sides, with the one-byte contents 1 and 2. */
  ghost function TwoFiles(): Setting {
    Setting(Env(p => p, map[[102] := File([1])], SOURCE_ROOT, DEST_ROOT), map[[102] := File([2])])
  }

  ghost function FileF(): FileEntry {
    FileEntry([102], 1, 0, 0, 0, false, NotReparse, [])
  }

  ghost function TwoFilesConfig(): Config {
    var env := TwoFiles().env;
    Config(Content, false, env.fold, t => ForCompare(env.fold, t, env.sourceRoot), t => ForCompare(env.fold, t, env.destRoot),
           FirstByte, c => SideHash(Digested(FirstByte([1])), false), c => SideHash(Digested(FirstByte([2])), false),
           false, 100, Edges)
  }

  /** Two files of the same size and different contents: the assumptions are met, and the comparison reports the pair. */
  lemma TwoFilesCompared()
    ensures var w, cfg, t: Tree := TwoFiles(), TwoFilesConfig(), map[[102] := FileF()];
            && Sound(w) && Rooted(w.env) && FullContent(w, cfg, t, t) && !Same(w, w.env.source[[102]], w.dest[[102]])
            && exists r :: r in Reference(cfg, t, t).problems && r.status == ContentMismatch && r.relativePath == [102]
  {
    hide Reference, PairVerdict, RootOk, TwoFilesConfig, Sound, FullContent, Pair, HashedApart;
    var w, cfg, t: Tree := TwoFiles(), TwoFilesConfig(), map[[102] := FileF()];
    TwoFilesSound();
    TwoFilesPair();
    PairRow(w, cfg, [102], FileF(), FileF());
    var r := PairVerdict(cfg, FileF(), FileF()).problem.value;
    OnlyContent();
    PairProblem(cfg, t, t, [102], r);
    assert [102] in t.Keys * t.Keys;
    ReferenceRows(cfg, t, t, r);
  }

  lemma TwoFilesSound()
    ensures Sound(TwoFiles()) && Rooted(TwoFiles().env)
  {
    hide TreeOk, Rooted;
    OneName(102);
    ExampleRoots(TwoFiles().env);
    assert FoldOk(TwoFiles().env.fold);
  }

  lemma ExampleRoots(env: Env)
    requires env.sourceRoot == SOURCE_ROOT && env.destRoot == DEST_ROOT && forall p :: env.fold(p) == p
    ensures Rooted(env)
  {
    hide NormalRoot;
    assert SOURCE_ROOT[0] == 0x43 && DEST_ROOT[0] == 0x44 && SURROGATE[0] == 0x3C;
    AlreadyNormal(SOURCE_ROOT);
    AlreadyNormal(DEST_ROOT);
  }

  lemma TwoFilesPair()
    ensures var w, cfg, t: Tree := TwoFiles(), TwoFilesConfig(), map[[102] := FileF()];
            && FullContent(w, cfg, t, t) && Pair(w, cfg, [102], FileF(), FileF())
            && HashedApart(cfg, CandidateOf(FileF(), FileF()), w.env.source[[102]], w.dest[[102]])
  {
    hide ForCompare, P.Resolves;
    OneName(102);
    assert FirstByte([1])[0] != FirstByte([2])[0];
  }

  lemma OnlyContent()
    ensures var p := PairVerdict(TwoFilesConfig(), FileF(), FileF()).problem;
            p.Some? ==> p.value.status == ContentMismatch
  {
    hide ForCompare;
  }

  /** A tree of one entry with a name of one character. */
  lemma OneName(c: u8)
    requires c != SEP && c != 0x2F && c != 0x2E
    ensures forall n: Node :: TreeOk(map[[c] := n])
    ensures P.Resolves([c])
  {
    var d: Path := [c];
    forall p ensures !Below(d, p) {
      BelowMeans(d, p);
      assert d[0] != SEP;
    }
    assert NameOk(d);
    assert P.Resolves(d) by {
      assert P.IsComponent(d, 0, 1);
      P.OnlyComponent(d, 0, 1);
    }
  }

  // --- the exceptions are real ---

  /** A directory d that is empty on the source and holds one file on the destination. */
  ghost function EmptyAgainstFile(): Setting {
    var d: Path := [100];
    var x: Path := [100, SEP, 120];
    Setting(Env(p => p, map[d := Dir], SOURCE_ROOT, DEST_ROOT), map[d := Dir, x := File([])])
  }

  /** The comparison reports only the extra file; the plan built from that row is sound, and d is doomed although the
      source has it. */
  lemma SharedEmptyDirDoomed(rows: seq<FileResult>, r: FileResult)
    requires r == ExtraRow(FileEntry([100, SEP, 120], 0, 0, 0, 0, false, NotReparse, [])) && rows == [r]
    ensures var w := EmptyAgainstFile(); Sound(w) && Reports(w, rows) && Doomed(w, [100]) && [100] in w.env.source
  {
    hide Sound, Reports, Doomed;
    ExampleTrees();
    ExampleReports(rows, r);
    ExampleDoomed();
  }

  lemma ExampleReports(rows: seq<FileResult>, r: FileResult)
    requires r == ExtraRow(FileEntry([100, SEP, 120], 0, 0, 0, 0, false, NotReparse, [])) && rows == [r]
    ensures Reports(EmptyAgainstFile(), rows)
  {
    var d: Path := [100];
    var x: Path := [100, SEP, 120];
    assert Below(x, d) by { BelowMeans(x, d); }
    assert RowTrue(EmptyAgainstFile(), r) by { ExampleResolves(); }
    assert r in rows;
  }

  lemma ExampleDoomed()
    ensures Doomed(EmptyAgainstFile(), [100]) && [100] in EmptyAgainstFile().env.source
  {
    var w := EmptyAgainstFile();
    var d: Path := [100];
    var x: Path := [100, SEP, 120];
    assert Below(x, d) by { BelowMeans(x, d); }
    assert !Below(d, d) && !Below(d, x) by { BelowMeans(d, d); BelowMeans(d, x); }
    assert SharedOverExtra(w, d);
  }

  lemma ExampleTrees()
    ensures Sound(EmptyAgainstFile())
  {
    var d: Path := [100];
    var x: Path := [100, SEP, 120];
    forall p | Below(x, p) ensures p == d {
      BelowMeans(x, p);
      assert x[|p|] == SEP;
      assert |p| == 1 && p == x[..1];
    }
    forall p ensures !Below(d, p) {
      BelowMeans(d, p);
      assert d[0] != SEP;
    }
    assert NameOk(d) && NameOk(x);
    assert FoldOk(EmptyAgainstFile().env.fold);
  }

  lemma ExampleResolves()
    ensures P.Resolves([100, SEP, 120])
  {
    var x: Path := [100, SEP, 120];
    assert P.IsComponent(x, 0, 1) && P.IsComponent(x, 2, 3);
    P.OnlyComponent(x, 0, 1);
    P.OnlyComponent(x, 2, 3);
  }

  /** An empty directory d on the destination, nothing on the source. */
  ghost function DirAgainstNothing(): Setting {
    Setting(Env(p => p, map[], SOURCE_ROOT, DEST_ROOT), map[[100] := Dir])
  }

  /** A teardown that is stopped from outside is reported as skipped, not as failed: a run may end without failure or
      cancellation and leave a directory that only the destination has. */
  lemma StoppedTeardownStays(rows: seq<FileResult>, r: FileResult, plan: P.Plan) returns (states: seq<Fs>, report: Report)
    requires r == ExtraRow(FileEntry([100], 0, 0, 0, 0, true, NotReparse, [])) && rows == [r]
    requires P.Compiles(DirAgainstNothing().env.fold, rows, plan)
    ensures var w := DirAgainstNothing();
            && Planned(w, rows, plan) && |states| > 0 && states[0] == w.dest
            && Reported(w.env, plan.Actions(), Allowed(plan), states, report, true)
            && report.failedCount == 0 && !report.cancelled && [100] in states[|states| - 1] && [100] !in w.env.source
  {
    hide P.Compiles, P.Plan.Actions, Sound, Reports, Reported;
    var w := DirAgainstNothing();
    NothingAgainstDir(rows, r);
    OneName(100);
    OnlyTeardowns(rows, r, plan);
    states, report := SkippedRun(w.env, plan.Actions(), Allowed(plan), w.dest);
  }

  lemma OnlyTeardowns(rows: seq<FileResult>, r: FileResult, plan: P.Plan)
    requires Planned(DirAgainstNothing(), rows, plan)
    ensures forall a <- plan.Actions() :: a.op == P.DirDelete
  {
    hide Planned, P.Plan.Actions;
    forall a | a in plan.Actions() ensures a.op == P.DirDelete { ActionsTrue(DirAgainstNothing(), rows, plan, a); }
  }

  /** A run in which every action is a teardown that is stopped before it removes anything. */
  lemma SkippedRun(env: Env, actions: seq<P.Action>, allowed: set<Path>, fs: Fs) returns (states: seq<Fs>, r: Report)
    requires TreeOk(fs) && forall a <- actions :: a.op == P.DirDelete
    ensures Reported(env, actions, allowed, states, r, true) && r.failedCount == 0 && !r.cancelled
    ensures |states| > 0 && states[0] == fs && states[|states| - 1] == fs
  {
    hide TreeOk, Guarded, CountOf;
    var n := |actions|;
    states := seq(n + 1, i => fs);
    var items := seq(n, i => Skip);
    r := Report(items, 0, 0, n, false, false);
    assert items[..n] == items;
    AllSkips(items);
    forall i | 0 <= i < n ensures Ran(env, actions[i], allowed, states[i], states[i + 1], items[i]) {
      assert actions[i] in actions;
      GuardedNothing(fs, env.fold(actions[i].rel), allowed);
    }
  }

  lemma {:induction false} AllSkips(items: seq<Outcome>)
    requires forall i | 0 <= i < |items| :: items[i] == Skip
    ensures CountOf(items, Skip) == |items| && CountOf(items, Done) == 0
  {
    if items != [] { AllSkips(items[..|items| - 1]); }
  }

  lemma NothingAgainstDir(rows: seq<FileResult>, r: FileResult)
    requires r == ExtraRow(FileEntry([100], 0, 0, 0, 0, true, NotReparse, [])) && rows == [r]
    ensures Sound(DirAgainstNothing()) && Reports(DirAgainstNothing(), rows)
  {
    OneName(100);
    assert FoldOk(DirAgainstNothing().env.fold);
    assert r in rows;
  }
}
