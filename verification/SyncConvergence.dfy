/** Executing a plan without failures makes the destination equal to the source, up to one kind of empty directory. */
module SyncConvergence {
  import opened Wrappers
  import opened Bytes
  import opened Results
  import opened Classify
  import opened RunResult
  import opened SyncTree
  import opened SyncFs
  import opened LinkTargets
  import opened SyncExecutor
  import P = SyncPlan

  /** The source side and the destination before the run. */
  datatype Setting = Setting(env: Env, dest: Fs)

  /** The targets of a source and a destination link compare equal. */
  predicate SameTarget(env: Env, s: bytes, d: bytes) {
    ForCompare(env.fold, d, env.destRoot) == ForCompare(env.fold, s, env.sourceRoot)
  }

  /** Same type, same content, and for links the same kind and targets that compare equal. */
  predicate Same(w: Setting, s: Node, d: Node) {
    match s
    case File(data) => d.File? && d.data == data
    case Dir => d.Dir?
    case Link(kind, target) => d.Link? && d.kind == kind && SameTarget(w.env, target, d.target)
  }

  predicate SideIs(s: P.OneSide, n: Node) {
    match n
    case File(_) => s.kind == NotReparse && !s.isDir
    case Dir => s.kind == NotReparse && s.isDir
    case Link(kind, _) => s.kind == kind && kind != NotReparse
  }

  // --- what a complete comparison reports ---

  ghost predicate RowTrue(w: Setting, r: FileResult) {
    var k, src, dst := w.env.fold(r.relativePath), w.env.source, w.dest;
    && P.Resolves(r.relativePath)
    && (if r.status == Missing then k in src && k !in dst && SideIs(P.SourceSide(r), src[k])
        else if r.status == Extra then k in dst && k !in src && SideIs(P.DestSide(r), dst[k])
        else P.IsMismatch(r.status) && k in src && k in dst && !Same(w, src[k], dst[k])
             && SideIs(P.SourceSide(r), src[k]) && SideIs(P.DestSide(r), dst[k]))
  }

  ghost predicate HasRow(w: Setting, rows: seq<FileResult>, k: Path, status: Status -> bool) {
    exists r <- rows :: w.env.fold(r.relativePath) == k && status(r.status)
  }

  function Mismatches(): Status -> bool { s => P.IsMismatch(s) }
  function Is(x: Status): Status -> bool { s => s == x }

  /** The rows are true, and every difference is among them; a one-sided directory only if nothing one-sided is below. */
  ghost predicate Reports(w: Setting, rows: seq<FileResult>) {
    var src, dst := w.env.source, w.dest;
    && (forall r <- rows :: RowTrue(w, r))
    && (forall k <- src :: k in dst && !Same(w, src[k], dst[k]) ==> HasRow(w, rows, k, Mismatches()))
    && (forall k <- src :: k !in dst && (src[k] != Dir || !HasBelow(src.Keys - dst.Keys, k)) ==> HasRow(w, rows, k, Is(Missing)))
    && (forall k <- dst :: k !in src && (dst[k] != Dir || !HasBelow(dst.Keys - src.Keys, k)) ==> HasRow(w, rows, k, Is(Extra)))
  }

  /** Both trees are trees with supported links only, and paths fold character by character. */
  ghost predicate Sound(w: Setting) {
    && TreeOk(w.env.source) && TreeOk(w.dest) && FoldOk(w.env.fold)
    && (forall k <- w.env.source :: w.env.source[k].Link? ==> Supported(w.env.source[k].kind))
    && (forall k <- w.dest :: w.dest[k].Link? ==> Supported(w.dest[k].kind))
  }

  // --- the links that never become equal ---

  /** The roots are paths that the program can use. */
  predicate Rooted(env: Env) {
    RootOk(env.fold, env.sourceRoot) && RootOk(env.fold, env.destRoot)
  }

  /** A source link that points below the destination root, and not below the source root, is not carried over. */
  predicate Carried(env: Env, n: Node) {
    n.Link? ==> Inside(env.fold, n.target, env.sourceRoot) || !Inside(env.fold, n.target, env.destRoot)
  }

  /** Such a link differs from every destination entry, before and after any run: every comparison reports it. */
  lemma NotCarried(w: Setting, s: Node, d: Node)
    requires FoldOk(w.env.fold) && Rooted(w.env) && !Carried(w.env, s)
    ensures !Same(w, s, d)
  {
    hide RootOk, FoldOk, Inside, ForCompare;
    if d.Link? { NeverEqual(w.env.fold, s.target, w.env.sourceRoot, w.env.destRoot, d.target); }
  }

  lemma UncarriedReported(w: Setting, rows: seq<FileResult>, k: Path)
    requires Sound(w) && Rooted(w.env) && Reports(w, rows) && k in w.env.source && k in w.dest && !Carried(w.env, w.env.source[k])
    ensures HasRow(w, rows, k, Mismatches())
  {
    hide Rooted, Carried, Same, RowTrue, HasRow, HasBelow, TreeOk, FoldOk;
    NotCarried(w, w.env.source[k], w.dest[k]);
  }

  // --- the directories that do not survive ---

  /** Nothing of the source at or below d but directories that the destination shares, each with a destination-only
      entry below it. */
  ghost predicate Doomed(w: Setting, d: Path) {
    var src, dst := w.env.source, w.dest;
    d in src && forall e <- src :: AtOrBelow(e, d) ==> SharedOverExtra(w, e)
  }

  ghost predicate SharedOverExtra(w: Setting, e: Path) {
    var src, dst := w.env.source, w.dest;
    e in src && src[e] == Dir && e in dst && dst[e] == Dir && exists x <- dst :: x !in src && Below(x, e)
  }

  lemma DoomedBelow(w: Setting, d: Path, e: Path)
    requires Doomed(w, d) && e in w.env.source && AtOrBelow(e, d)
    ensures Doomed(w, e)
  {
    hide SharedOverExtra;
    forall f | f in w.env.source && AtOrBelow(f, e) ensures SharedOverExtra(w, f) {
      if f != e { BelowTrans(f, e, d); }
    }
  }

  /** A destination directory that the run removes. */
  ghost predicate Vanishes(w: Setting, p: Path) {
    p in w.dest && w.dest[p] == Dir && (p !in w.env.source || Doomed(w, p))
  }

  // --- what the plan contains ---

  ghost predicate Planned(w: Setting, rows: seq<FileResult>, plan: P.Plan) {
    Sound(w) && Reports(w, rows) && P.Compiles(w.env.fold, rows, plan)
  }

  ghost function Allowed(plan: P.Plan): set<Path> {
    set x | x in plan.extraFoldedRels
  }

  predicate Has(d: P.Draft, a: P.Action) {
    a in d.creates || a in d.deletes || a in d.deleteDirs || a in d.fileWrites || a in d.linkWrites
  }

  ghost predicate FromRow(fold: Path -> Path, r: FileResult, a: P.Action) {
    P.Resolves(r.relativePath) && Has(P.RowDraft(fold, r), a)
  }

  ghost predicate ListedBy(fold: Path -> Path, r: FileResult, k: Path) {
    P.Resolves(r.relativePath) && k in P.RowDraft(fold, r).listed
  }

  /** An action of the draft comes from one row, and every row's actions are in the draft. */
  lemma {:induction false} DraftRow(fold: Path -> Path, rows: seq<FileResult>, a: P.Action)
    ensures Has(P.RowsDraft(fold, rows), a) <==> exists r <- rows :: FromRow(fold, r, a)
  {
    hide P.RowDraft, P.Resolves;
    if rows != [] {
      var n := |rows| - 1;
      DraftRow(fold, rows[..n], a);
      assert rows[n] in rows;
      if r :| r in rows && FromRow(fold, r, a) { assert r in rows[..n] || r == rows[n]; }
    }
  }

  lemma {:induction false} DraftListed(fold: Path -> Path, rows: seq<FileResult>, k: Path)
    ensures k in P.RowsDraft(fold, rows).listed <==> exists r <- rows :: ListedBy(fold, r, k)
  {
    hide P.RowDraft, P.Resolves;
    if rows != [] {
      var n := |rows| - 1;
      DraftListed(fold, rows[..n], k);
      assert rows[n] in rows;
      if r :| r in rows && ListedBy(fold, r, k) { assert r in rows[..n] || r == rows[n]; }
    }
  }

  /** The destination side of k is absent or differs. */
  ghost predicate Differs(w: Setting, k: Path) {
    k in w.env.source && (k in w.dest ==> !Same(w, w.env.source[k], w.dest[k]))
  }

  /** What holds of the path of every planned action. */
  ghost predicate ActionTrue(w: Setting, a: P.Action) {
    var k, src, dst := w.env.fold(a.rel), w.env.source, w.dest;
    match a.op
    case FileCopy => Differs(w, k) && src[k].File?
    case FileReplace => Differs(w, k) && src[k].File?
    case LinkCreate => Differs(w, k) && src[k].Link? && src[k].kind == a.linkKind
    case LinkReplace => Differs(w, k) && src[k].Link? && src[k].kind == a.linkKind && k in dst
    case DirCreate => Differs(w, k) && src[k] == Dir
    case FileDelete => k in dst && k !in src && dst[k].File?
    case LinkDelete => k in dst && k !in src && dst[k].Link?
    case DirDelete => k in dst && dst[k] == Dir
  }

  lemma RowActionTrue(w: Setting, r: FileResult, a: P.Action)
    requires RowTrue(w, r) && FromRow(w.env.fold, r, a)
    ensures ActionTrue(w, a) && a.rel == r.relativePath
  {
    hide P.Resolves;
  }

  lemma AncestorTrue(w: Setting, r: FileResult, d: Path)
    requires FoldOk(w.env.fold) && RowTrue(w, r) && P.AncestorOfExtra(d, r)
    ensures var x := w.env.fold(r.relativePath); x in w.dest && x !in w.env.source && Below(x, w.env.fold(d))
  {
    FoldBelow(w.env.fold, r.relativePath, d);
    hide P.Resolves, FoldOk, SideIs, P.Unplannable;
  }

  lemma ScheduledTrue(w: Setting, rows: seq<FileResult>, d: Path)
    requires Sound(w) && Reports(w, rows) && P.Scheduled(w.env.fold, rows, d)
    ensures exists x <- w.dest :: x !in w.env.source && Below(x, w.env.fold(d))
    ensures ActionTrue(w, P.ScheduledAction(d))
  {
    hide Reports, P.Claimed, FoldOk, NameOk, P.AncestorOfExtra, RowTrue, P.RowsDraft, Below;
    var r :| r in rows && P.AncestorOfExtra(d, r);
    RowIsTrue(w, rows, r);
    AncestorTrue(w, r, d);
  }

  lemma ActionsTrue(w: Setting, rows: seq<FileResult>, plan: P.Plan, a: P.Action)
    requires Planned(w, rows, plan) && a in plan.Actions()
    ensures ActionTrue(w, a)
  {
    hide Sound, Reports, P.RowDraft, P.Scheduled, ActionTrue, P.Ordered, P.Summed, FromRow;
    var fold := w.env.fold;
    DraftRow(fold, rows, a);
    if Has(P.RowsDraft(fold, rows), a) {
      var r :| r in rows && FromRow(fold, r, a);
      RowIsTrue(w, rows, r);
      RowActionTrue(w, r, a);
    } else {
      ScheduledTrue(w, rows, a.rel);
    }
  }

  lemma RowIsTrue(w: Setting, rows: seq<FileResult>, r: FileResult)
    requires Reports(w, rows) && r in rows
    ensures RowTrue(w, r)
  {
    hide RowTrue, HasRow, HasBelow;
  }

  /** Whatever may be removed by a teardown is, or lies above, a destination-only entry. */
  lemma AllowedAboveExtra(w: Setting, rows: seq<FileResult>, plan: P.Plan, e: Path)
    requires Planned(w, rows, plan) && e in Allowed(plan)
    ensures exists x <- w.dest :: x !in w.env.source && AtOrBelow(x, e)
  {
    hide Sound, Reports, P.RowDraft, P.Scheduled, P.Ordered, P.Summed, P.RowsDraft, ListedBy, ActionTrue, Below;
    var fold := w.env.fold;
    DraftListed(fold, rows, e);
    if e in P.RowsDraft(fold, rows).listed {
      var r :| r in rows && ListedBy(fold, r, e);
      RowIsTrue(w, rows, r);
      ListedTrue(w, r, e);
    } else {
      var d :| P.Scheduled(fold, rows, d) && fold(d) == e;
      ScheduledTrue(w, rows, d);
    }
  }

  lemma ListedTrue(w: Setting, r: FileResult, k: Path)
    requires RowTrue(w, r) && ListedBy(w.env.fold, r, k)
    ensures k in w.dest && k !in w.env.source && r.status == Extra && w.env.fold(r.relativePath) == k
  {
    hide P.Resolves;
  }

  // --- every difference has its action ---

  function GroupFor(d: P.Draft, op: P.SyncOp): seq<P.Action> {
    match op
    case DirCreate => d.creates
    case FileDelete => d.deletes
    case LinkDelete => d.deletes
    case DirDelete => d.deleteDirs
    case FileCopy => d.fileWrites
    case FileReplace => d.fileWrites
    case LinkCreate => d.linkWrites
    case LinkReplace => d.linkWrites
  }

  function PlanGroup(p: P.Plan, op: P.SyncOp): seq<P.Action> {
    match op
    case DirCreate => p.createDirs
    case FileDelete => p.deletes
    case LinkDelete => p.deletes
    case DirDelete => p.deleteDirs
    case FileCopy => p.fileWrites
    case FileReplace => p.fileWrites
    case LinkCreate => p.linkWrites
    case LinkReplace => p.linkWrites
  }

  lemma {:induction false} RowInGroup(fold: Path -> Path, rows: seq<FileResult>, r: FileResult, op: P.SyncOp, a: P.Action)
    requires r in rows && P.Resolves(r.relativePath) && a in GroupFor(P.RowDraft(fold, r), op)
    ensures a in GroupFor(P.RowsDraft(fold, rows), op)
  {
    hide P.RowDraft, P.Resolves;
    var n := |rows| - 1;
    if r != rows[n] {
      assert r in rows[..n];
      RowInGroup(fold, rows[..n], r, op, a);
    }
  }

  /** An action that a row asks for is in its group of the plan. */
  lemma RowPlanned(w: Setting, rows: seq<FileResult>, plan: P.Plan, r: FileResult, a: P.Action)
    requires Planned(w, rows, plan) && r in rows && P.Resolves(r.relativePath) && a in GroupFor(P.RowDraft(w.env.fold, r), a.op)
    ensures a in PlanGroup(plan, a.op)
  {
    hide Sound, Reports, P.RowDraft, P.Scheduled, P.Ordered, P.Summed, P.Resolves, P.RowsDraft;
    RowInGroup(w.env.fold, rows, r, a.op, a);
  }

  lemma WritePlanned(w: Setting, rows: seq<FileResult>, plan: P.Plan, k: Path)
    requires Planned(w, rows, plan) && Differs(w, k)
    requires k in w.dest || w.env.source[k] != Dir || !HasBelow(w.env.source.Keys - w.dest.Keys, k)
    ensures exists a: P.Action :: a in PlanGroup(plan, a.op) && w.env.fold(a.rel) == k && Writes(w.env.source[k], a.op)
  {
    hide Sound, Reports, P.RowDraft, P.Compiles, P.Resolves, RowTrue, PlanGroup, HasBelow;
    var r := DifferenceRow(w, rows, k);
    var a := WriteOf(w, r);
    RowPlanned(w, rows, plan, r, a);
  }

  /** The operations that reproduce a source entry. */
  predicate Writes(n: Node, op: P.SyncOp) {
    match n
    case File(_) => op == P.FileCopy || op == P.FileReplace
    case Link(_, _) => op == P.LinkCreate || op == P.LinkReplace
    case Dir => op == P.DirCreate
  }

  lemma DifferenceRow(w: Setting, rows: seq<FileResult>, k: Path) returns (r: FileResult)
    requires Reports(w, rows) && Differs(w, k)
    requires k in w.dest || w.env.source[k] != Dir || !HasBelow(w.env.source.Keys - w.dest.Keys, k)
    ensures r in rows && RowTrue(w, r) && w.env.fold(r.relativePath) == k && (r.status == Missing || P.IsMismatch(r.status))
  {
    hide RowTrue, HasBelow, P.IsMismatch, Same;
    if k in w.dest {
      r :| r in rows && w.env.fold(r.relativePath) == k && Mismatches()(r.status);
    } else {
      r :| r in rows && w.env.fold(r.relativePath) == k && Is(Missing)(r.status);
    }
  }

  /** The write that a row asks for. */
  lemma WriteOf(w: Setting, r: FileResult) returns (a: P.Action)
    requires Sound(w) && RowTrue(w, r) && r.status != Extra
    ensures P.Resolves(r.relativePath) && a in GroupFor(P.RowDraft(w.env.fold, r), a.op) && a.rel == r.relativePath
    ensures w.env.fold(r.relativePath) in w.env.source && Writes(w.env.source[w.env.fold(r.relativePath)], a.op)
  {
    hide P.Resolves, FoldOk, TreeOk;
    var src := P.SourceSide(r);
    var missing := r.status == Missing;
    var x := P.Write(r.relativePath, src, if missing then P.FileCopy else P.FileReplace, if missing then P.LinkCreate else P.LinkReplace);
    a := if x.creates != [] then x.creates[0] else if x.fileWrites != [] then x.fileWrites[0] else x.linkWrites[0];
  }

  /** A destination-only file or link is deleted. */
  lemma DeletePlanned(w: Setting, rows: seq<FileResult>, plan: P.Plan, x: Path)
    requires Planned(w, rows, plan) && x in w.dest && x !in w.env.source && w.dest[x] != Dir
    ensures exists a <- plan.deletes :: w.env.fold(a.rel) == x
  {
    hide Sound, Reports, P.RowDraft, P.Compiles, P.Resolves, RowTrue, HasBelow;
    var r := RowOfExtra(w, rows, x);
    var a := RemoveOf(w, r);
    RowPlanned(w, rows, plan, r, a);
  }

  lemma RowOfExtra(w: Setting, rows: seq<FileResult>, x: Path) returns (r: FileResult)
    requires Reports(w, rows) && x in w.dest && x !in w.env.source
    requires w.dest[x] != Dir || !HasBelow(w.dest.Keys - w.env.source.Keys, x)
    ensures r in rows && RowTrue(w, r) && w.env.fold(r.relativePath) == x && r.status == Extra
  {
    hide RowTrue, HasBelow, P.IsMismatch, Same;
    r :| r in rows && w.env.fold(r.relativePath) == x && Is(Extra)(r.status);
  }

  lemma RemoveOf(w: Setting, r: FileResult) returns (a: P.Action)
    requires Sound(w) && RowTrue(w, r) && r.status == Extra
    ensures P.Resolves(r.relativePath) && a in GroupFor(P.RowDraft(w.env.fold, r), a.op) && a.rel == r.relativePath
    ensures w.env.fold(r.relativePath) in w.dest
    ensures if w.dest[w.env.fold(r.relativePath)] == Dir then a.op == P.DirDelete else a.op == P.FileDelete || a.op == P.LinkDelete
    ensures ListedBy(w.env.fold, r, w.env.fold(r.relativePath)) && !P.Unplannable(P.DestSide(r))
  {
    hide P.Resolves, FoldOk, TreeOk;
    var x := P.Remove(r.relativePath, P.DestSide(r));
    a := if x.deletes != [] then x.deletes[0] else x.deleteDirs[0];
  }

  /** The teardown of a directory is planned, and the directory is listed for teardowns. */
  ghost predicate TornDown(w: Setting, plan: P.Plan, p: Path) {
    p in Allowed(plan) && exists a <- plan.deleteDirs :: w.env.fold(a.rel) == p
  }

  /** An extra directory with a row of its own. */
  lemma ExtraDirTornDown(w: Setting, rows: seq<FileResult>, plan: P.Plan, r: FileResult)
    requires Planned(w, rows, plan) && r in rows && RowTrue(w, r) && r.status == Extra
    requires w.env.fold(r.relativePath) in w.dest && w.dest[w.env.fold(r.relativePath)] == Dir
    ensures TornDown(w, plan, w.env.fold(r.relativePath))
  {
    hide Sound, Reports, P.RowDraft, P.Compiles, P.Resolves, RowTrue;
    var k := w.env.fold(r.relativePath);
    var a := RemoveOf(w, r);
    RowPlanned(w, rows, plan, r, a);
    ListedPlanned(w, rows, plan, r, k);
  }

  lemma ListedPlanned(w: Setting, rows: seq<FileResult>, plan: P.Plan, r: FileResult, k: Path)
    requires Planned(w, rows, plan) && r in rows && ListedBy(w.env.fold, r, k)
    ensures k in Allowed(plan)
  {
    hide Sound, Reports, P.Scheduled, P.Ordered, P.Summed, P.RowsDraft, ListedBy;
    DraftListed(w.env.fold, rows, k);
  }

  /** No row but an extra one lies at or below a vanishing directory. */
  lemma VanishingUnclaimed(w: Setting, rows: seq<FileResult>, p: Path)
    requires Sound(w) && Reports(w, rows) && Vanishes(w, p)
    ensures !P.Claimed(w.env.fold, rows, p)
  {
    hide Reports, FoldOk, NameOk, RowTrue, SideIs, P.Resolves;
    forall q | q in rows && P.Claims(q) ensures !AtOrBelow(w.env.fold(q.relativePath), p) {
      RowIsTrue(w, rows, q);
      ClaimInSource(w, q);
    }
  }

  lemma ClaimInSource(w: Setting, q: FileResult)
    requires RowTrue(w, q) && q.status != Extra
    ensures var k := w.env.fold(q.relativePath); k in w.env.source && !SharedOverExtra(w, k)
  {
    hide P.Resolves;
  }

  /** A vanishing directory above a reported extra entry. */
  lemma AncestorTornDown(w: Setting, rows: seq<FileResult>, plan: P.Plan, p: Path, r: FileResult)
    requires Planned(w, rows, plan) && Vanishes(w, p) && r in rows && RowTrue(w, r) && r.status == Extra
    requires Below(w.env.fold(r.relativePath), p)
    ensures TornDown(w, plan, p)
  {
    hide Reports, P.RowDraft, P.Compiles, P.Resolves, RowTrue, NameOk, FoldOk, Vanishes, Below;
    var fold := w.env.fold;
    var d := FoldAbove(fold, r.relativePath, p);
    DirNotRoot(w, p);
    var remove := RemoveOf(w, r);
    assert P.AncestorOfExtra(d, r);
    VanishingUnclaimed(w, rows, p);
    AncestorDecided(w, rows, plan, d);
  }

  lemma DirNotRoot(w: Setting, p: Path)
    requires Sound(w) && Vanishes(w, p)
    ensures p != []
  {}

  /** An unclaimed ancestor of an extra row is torn down, by its own row or as scheduled. */
  lemma AncestorDecided(w: Setting, rows: seq<FileResult>, plan: P.Plan, d: Path)
    requires Planned(w, rows, plan) && P.AboveExtra(rows, d) && !P.Claimed(w.env.fold, rows, w.env.fold(d))
    ensures TornDown(w, plan, w.env.fold(d))
  {
    hide Sound, Reports, P.RowDraft, P.Ordered, P.Summed, P.AboveExtra, P.Claimed, P.RowsDraft, RowTrue, FromRow;
    var fold := w.env.fold;
    if P.Scheduled(fold, rows, d) {
      assert P.ScheduledAction(d) in plan.deleteDirs;
      assert P.ScheduledKey(fold, rows, fold(d));
    } else {
      var a :| a in P.RowsDraft(fold, rows).deleteDirs && a.rel == d;
      DraftRow(fold, rows, a);
      var r :| r in rows && FromRow(fold, r, a);
      RowIsTrue(w, rows, r);
      UnclaimedIsExtra(w, rows, r, a);
      ExtraTornDown(w, rows, plan, r, a);
    }
  }

  lemma UnclaimedIsExtra(w: Setting, rows: seq<FileResult>, r: FileResult, a: P.Action)
    requires r in rows && RowTrue(w, r) && FromRow(w.env.fold, r, a) && !P.Claimed(w.env.fold, rows, w.env.fold(a.rel))
    ensures r.status == Extra && a.rel == r.relativePath
  {
    hide P.Resolves, SideIs, Below;
    assert P.Claims(r) ==> P.Claimed(w.env.fold, rows, w.env.fold(r.relativePath));
  }

  lemma ExtraTornDown(w: Setting, rows: seq<FileResult>, plan: P.Plan, r: FileResult, a: P.Action)
    requires Planned(w, rows, plan) && r in rows && RowTrue(w, r) && r.status == Extra && a.rel == r.relativePath
    requires a in plan.deleteDirs
    ensures TornDown(w, plan, w.env.fold(a.rel))
  {
    hide Sound, Reports, P.RowDraft, P.Compiles, P.Resolves, RowTrue;
    var remove := RemoveOf(w, r);
    ListedPlanned(w, rows, plan, r, w.env.fold(r.relativePath));
  }

  lemma VanishPlanned(w: Setting, rows: seq<FileResult>, plan: P.Plan, p: Path)
    requires Planned(w, rows, plan) && Vanishes(w, p)
    ensures TornDown(w, plan, p)
  {
    hide Sound, Reports, P.Compiles, RowTrue, TornDown, Below;
    var extras := w.dest.Keys - w.env.source.Keys;
    if HasBelow(extras, p) {
      var x :| x in extras && Below(x, p);
      HiddenHasReported(extras, p, x);
      var k :| k in extras && Below(k, p) && !HasBelow(extras, k);
      hide Vanishes;
      var r := RowOfExtra(w, rows, k);
      AncestorTornDown(w, rows, plan, p, r);
    } else {
      if p in w.env.source {
        DoomedHasExtra(w, p);
        assert false;
      }
      var r := RowOfExtra(w, rows, p);
      ExtraDirTornDown(w, rows, plan, r);
    }
  }

  lemma DoomedHasExtra(w: Setting, p: Path)
    requires Doomed(w, p)
    ensures HasBelow(w.dest.Keys - w.env.source.Keys, p)
  {
    hide Below;
    assert SharedOverExtra(w, p);
    var x :| x in w.dest && x !in w.env.source && Below(x, p);
    assert x in w.dest.Keys - w.env.source.Keys;
  }
}
