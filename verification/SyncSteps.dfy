/** What one executed action does to the entries that matter for convergence. */
module SyncSteps {
  import opened Wrappers
  import opened Bytes
  import opened Results
  import opened Classify
  import opened RunResult
  import opened SyncTree
  import opened SyncFs
  import opened LinkTargets
  import opened SyncExecutor
  import opened SyncConvergence
  import P = SyncPlan

  /** A planned action that ended without failure. */
  ghost predicate Clean(w: Setting, rows: seq<FileResult>, plan: P.Plan, a: P.Action, was: Fs, now: Fs) {
    && Planned(w, rows, plan) && a in plan.Actions() && TreeOk(was)
    && (Ran(w.env, a, Allowed(plan), was, now, Done) || Ran(w.env, a, Allowed(plan), was, now, Skip))
  }

  /** A teardown that went through, or that something unexpected stopped. */
  ghost predicate Justified(w: Setting, plan: P.Plan, a: P.Action, was: Fs, now: Fs) {
    Ran(w.env, a, Allowed(plan), was, now, Done) || Unexpected(was, w.env.fold(a.rel), Allowed(plan))
  }

  predicate IsWrite(op: P.SyncOp) {
    op == P.FileCopy || op == P.FileReplace || op == P.LinkCreate || op == P.LinkReplace
  }

  predicate IsDelete(op: P.SyncOp) {
    op == P.FileDelete || op == P.LinkDelete
  }

  /** What a write leaves in place of a source file or link. */
  function Mirror(w: Setting, k: Path): Node
    requires k in w.env.source
  {
    match w.env.source[k]
    case Link(kind, target) => Link(kind, w.env.Rebase(target))
    case n => n
  }

  /** What a run leaves in place of a source entry: what was there if it compared equal, else what is written. */
  function Final(w: Setting, k: Path): Node
    requires k in w.env.source
  {
    if k in w.dest && Same(w, w.env.source[k], w.dest[k]) then w.dest[k] else Mirror(w, k)
  }

  /** It compares equal to the source entry, if and only if that entry is carried over. */
  lemma FinalSame(w: Setting, k: Path)
    requires FoldOk(w.env.fold) && k in w.env.source
    ensures !w.env.source[k].Link? ==> Same(w, w.env.source[k], Final(w, k))
    ensures Rooted(w.env) ==> (Same(w, w.env.source[k], Final(w, k)) <==> Carried(w.env, w.env.source[k]))
  {
    hide RootOk, FoldOk, Inside, ForCompare, Rebased;
    if Rooted(w.env) {
      if !Carried(w.env, w.env.source[k]) { NotCarried(w, w.env.source[k], Final(w, k)); }
      else if w.env.source[k].Link? { RebaseConverges(w.env.fold, w.env.source[k].target, w.env.sourceRoot, w.env.destRoot); }
    }
  }

  /** The shape of a clean step, by kind of action. */
  ghost predicate Stepped(w: Setting, plan: P.Plan, a: P.Action, was: Fs, now: Fs) {
    var k := w.env.fold(a.rel);
    && TreeOk(was) && TreeOk(now)
    && (if IsDelete(a.op) then now == was - {k} && k in w.dest && k !in w.env.source
        else if a.op == P.DirDelete then Guarded(was, now, k, Allowed(plan))
        else Around(was, now, k) && Differs(w, k) && k in now && now[k] == Mirror(w, k)
             && (a.op == P.DirCreate <==> w.env.source[k] == Dir))
  }

  lemma StepShape(w: Setting, rows: seq<FileResult>, plan: P.Plan, a: P.Action, was: Fs, now: Fs)
    requires Clean(w, rows, plan, a, was, now)
    ensures Stepped(w, plan, a, was, now)
  {
    hide Planned, TreeOk, Around, Guarded, Unexpected, AtOrBelow, Same;
    ActionsTrue(w, rows, plan, a);
    if a.op == P.DirDelete { GuardedKeeps(was, now, w.env.fold(a.rel), Allowed(plan)); }
    if a.op == P.DirCreate || IsWrite(a.op) { AroundTree(was, now, w.env.fold(a.rel)); }
  }

  /** A teardown removes an entry only if a destination-only entry is there or below. */
  lemma RemovedAboveExtra(w: Setting, rows: seq<FileResult>, plan: P.Plan, was: Fs, now: Fs, dir: Path, p: Path)
    requires Planned(w, rows, plan) && Guarded(was, now, dir, Allowed(plan)) && p in was && p !in now
    ensures exists x <- w.dest :: x !in w.env.source && AtOrBelow(x, p)
  {
    hide Planned, Below, TreeOk, Allowed;
    var e := p;
    if p !in Allowed(plan) {
      e :| e in was && e !in now && Below(e, p) && e in Allowed(plan);
    }
    AllowedAboveExtra(w, rows, plan, e);
    var x :| x in w.dest && x !in w.env.source && AtOrBelow(x, e);
    if e != p {
      if x != e { BelowTrans(x, e, p); }
    }
  }

  /** Ancestors of source entries are source directories. */
  lemma AboveSource(w: Setting, k: Path, p: Path)
    requires Sound(w) && k in w.env.source && Below(k, p)
    ensures p in w.env.source && w.env.source[p] == Dir
  {
    hide FoldOk, NameOk, Below;
  }

  /** Nothing that is in neither tree ever appears. */
  ghost predicate OnlyKnown(w: Setting, fs: Fs) {
    forall p <- fs :: p in w.dest || p in w.env.source
  }

  lemma StepOnlyKnown(w: Setting, plan: P.Plan, a: P.Action, was: Fs, now: Fs)
    requires Sound(w) && Stepped(w, plan, a, was, now) && OnlyKnown(w, was)
    ensures OnlyKnown(w, now)
  {
    hide Sound, Below, TreeOk, Same, Emptied, Mirror;
    var k := w.env.fold(a.rel);
    forall p | p in now && p !in was ensures p in w.dest || p in w.env.source {
      if p != k { AboveSource(w, k, p); }
    }
  }

  /** Links stay of supported kinds. */
  ghost predicate SupportedLinks(fs: Fs) {
    forall p <- fs :: fs[p].Link? ==> Supported(fs[p].kind)
  }

  lemma StepSupportedLinks(w: Setting, plan: P.Plan, a: P.Action, was: Fs, now: Fs)
    requires Sound(w) && Stepped(w, plan, a, was, now) && SupportedLinks(was)
    ensures SupportedLinks(now)
  {
    hide FoldOk, Below, TreeOk, Same, Emptied;
  }

  /** A file or link that is the same on both sides stays as it is. */
  lemma StepKeepsSame(w: Setting, rows: seq<FileResult>, plan: P.Plan, a: P.Action, was: Fs, now: Fs, k: Path)
    requires Planned(w, rows, plan) && Stepped(w, plan, a, was, now)
    requires k in w.env.source && k in w.dest && Same(w, w.env.source[k], w.dest[k]) && w.env.source[k] != Dir
    requires k in was && was[k] == w.dest[k]
    ensures k in now && now[k] == w.dest[k]
  {
    hide Planned, Below, TreeOk, Mirror;
    if k !in now && a.op == P.DirDelete {
      RemovedAboveExtra(w, rows, plan, was, now, w.env.fold(a.rel), k);
      var x :| x in w.dest && x !in w.env.source && AtOrBelow(x, k);
      AboveDest(w, rows, plan, x, k);
      assert false;
    }
  }

  lemma AboveDest(w: Setting, rows: seq<FileResult>, plan: P.Plan, x: Path, k: Path)
    requires Planned(w, rows, plan) && x in w.dest && Below(x, k)
    ensures k in w.dest && w.dest[k] == Dir
  {
    hide Reports, P.Compiles, FoldOk, NameOk, Below;
  }

  /** Once written, a source file or link stays. */
  lemma StepKeepsWritten(w: Setting, plan: P.Plan, a: P.Action, was: Fs, now: Fs, k: Path)
    requires Stepped(w, plan, a, was, now) && IsWrite(a.op)
    requires k in w.env.source && k in was && was[k] == Mirror(w, k)
    ensures k in now && now[k] == Mirror(w, k)
  {
    hide Below, TreeOk, Same, Mirror;
  }

  /** What only the destination had does not come back. */
  lemma StepStaysGone(w: Setting, plan: P.Plan, a: P.Action, was: Fs, now: Fs, x: Path)
    requires Sound(w) && Stepped(w, plan, a, was, now) && x !in was
    requires x !in w.env.source || (Doomed(w, x) && a.op != P.DirCreate)
    ensures x !in now
  {
    hide Sound, Below, TreeOk, Same, Emptied, Mirror, Doomed;
    var k := w.env.fold(a.rel);
    if x in now {
      if x in w.env.source { DoomedNotWritten(w, x, k); }
      if x != k { AboveSource(w, k, x); }
      assert false;
    }
  }

  lemma DoomedNotWritten(w: Setting, d: Path, k: Path)
    requires Doomed(w, d) && k in w.env.source && w.env.source[k] != Dir
    ensures !AtOrBelow(k, d)
  {
    hide Below;
    if AtOrBelow(k, d) { assert false; }
  }

  /** A source directory with nothing destination-only below it. */
  ghost predicate Safe(w: Setting, e: Path) {
    e in w.env.source && w.env.source[e] == Dir && forall x <- w.dest :: x !in w.env.source ==> !Below(x, e)
  }

  lemma StepKeepsSafe(w: Setting, rows: seq<FileResult>, plan: P.Plan, a: P.Action, was: Fs, now: Fs, e: Path)
    requires Planned(w, rows, plan) && Stepped(w, plan, a, was, now) && Safe(w, e) && e in was && was[e] == Dir
    ensures e in now && now[e] == Dir
  {
    hide Planned, Below, TreeOk, Same, Emptied;
    if e !in now && a.op == P.DirDelete {
      RemovedAboveExtra(w, rows, plan, was, now, w.env.fold(a.rel), e);
      assert false;
    }
  }

  /** When destination-only files and links are gone, the teardown of a vanishing directory goes through. */
  lemma StepTearsDown(w: Setting, rows: seq<FileResult>, plan: P.Plan, a: P.Action, was: Fs, now: Fs)
    requires Clean(w, rows, plan, a, was, now) && a.op == P.DirDelete && Vanishes(w, w.env.fold(a.rel))
    requires OnlyKnown(w, was) && SupportedLinks(was) && Justified(w, plan, a, was, now)
    requires forall q <- was :: q !in w.env.source ==> w.dest[q] == Dir
    ensures w.env.fold(a.rel) !in now
  {
    hide Planned, Below, TreeOk, Same, Emptied, Guarded;
    var p := w.env.fold(a.rel);
    assert Planned(w, rows, plan);
    forall q | q in was && AtOrBelow(q, p) ensures q in Allowed(plan) {
      InsideVanishes(w, rows, plan, was, p, q);
      VanishPlanned(w, rows, plan, q);
    }
  }

  lemma InsideVanishes(w: Setting, rows: seq<FileResult>, plan: P.Plan, was: Fs, p: Path, q: Path)
    requires Planned(w, rows, plan) && Vanishes(w, p) && q in was && AtOrBelow(q, p) && OnlyKnown(w, was)
    requires q !in w.env.source ==> w.dest[q] == Dir
    ensures Vanishes(w, q)
  {
    hide Reports, P.Compiles, FoldOk, NameOk, Below, SharedOverExtra;
    if q in w.env.source {
      if q != p { AboveSource(w, q, p); }
      DoomedBelow(w, p, q);
      assert SharedOverExtra(w, q);
      SharedIsDir(w, q);
    }
  }

  lemma SharedIsDir(w: Setting, q: Path)
    requires SharedOverExtra(w, q)
    ensures q in w.dest && w.dest[q] == Dir && q in w.env.source && w.env.source[q] == Dir
  {}
}
