/** A run that meets no trouble from outside has no failures: every action of a compiled plan finds what it needs. */
module SyncTotal {
  import opened Wrappers
  import opened Bytes
  import opened Results
  import opened Classify
  import opened RunResult
  import opened SyncTree
  import opened SyncFs
  import opened SyncExecutor
  import opened SyncConvergence
  import opened SyncSteps
  import opened SyncResult
  import P = SyncPlan

  /** Every source link can be created: it has a target, and a junction's target is absolute. */
  ghost predicate Linkable(w: Setting) {
    forall k <- w.env.source :: w.env.source[k].Link? ==>
      w.env.source[k].target != [] && (w.env.source[k].kind == Junction ==> IsAbsolute(w.env.source[k].target))
  }

  // --- paths of actions ---

  /** What is above a path within the root is a path within the root. */
  lemma AncestorResolves(rel: Path, d: Path)
    requires P.Resolves(rel) && P.IsAncestor(d, rel)
    ensures P.Resolves(d)
  {
    var n := |d|;
    BelowMeans(rel, d);
    assert d == rel[..n] && rel[n] == SEP;
    if P.IsSep(d[n - 1]) {
      P.EmptyComponent(rel, n - 1);
      assert false;
    }
    forall i, j | 0 <= i <= j <= n && P.IsComponent(d, i, j) ensures P.ComponentOk(d[i..j]) {
      assert P.IsComponent(rel, i, j) && rel[i..j] == d[i..j];
    }
  }

  lemma ActionResolves(w: Setting, rows: seq<FileResult>, plan: P.Plan, a: P.Action)
    requires Planned(w, rows, plan) && a in plan.Actions()
    ensures P.Resolves(a.rel)
  {
    hide Sound, Reports, P.RowDraft, P.Resolves, P.RowsDraft, P.Claimed, P.Ordered, P.Summed, RowTrue, ActionTrue, P.AncestorOfExtra, P.IsAncestor;
    var fold := w.env.fold;
    DraftRow(fold, rows, a);
    if Has(P.RowsDraft(fold, rows), a) {
      var r :| r in rows && FromRow(fold, r, a);
      RowIsTrue(w, rows, r);
      RowActionTrue(w, r, a);
    } else {
      var r :| r in rows && P.AncestorOfExtra(a.rel, r);
      AncestorOfResolves(a.rel, r);
    }
  }

  lemma AncestorOfResolves(d: Path, r: FileResult)
    requires P.AncestorOfExtra(d, r)
    ensures P.Resolves(d)
  {
    hide P.Resolves, P.IsAncestor, P.Unplannable;
    AncestorResolves(r.relativePath, d);
  }

  // --- what a run has made of the destination so far ---

  /** Until the writes start, an entry is a directory or what the destination had. */
  ghost predicate Untouched(w: Setting, fs: Fs) {
    forall p <- fs :: fs[p] == Dir || (p in w.dest && fs[p] == w.dest[p])
  }

  lemma StepUntouched(w: Setting, plan: P.Plan, a: P.Action, was: Fs, now: Fs)
    requires Stepped(w, plan, a, was, now) && Untouched(w, was) && !IsWrite(a.op)
    ensures Untouched(w, now)
  {
    hide TreeOk, Below, Same, Emptied;
  }

  lemma {:induction false} UntouchedAt(w: Setting, rows: seq<FileResult>, plan: P.Plan, states: seq<Fs>, i: nat)
    requires CleanRun(w, rows, plan, states) && i < |states| && i <= EndTeardowns(plan)
    ensures Untouched(w, states[i])
  {
    hide CleanRun, Sound, Planned, Clean, Stepped, EndCreates, EndDeletes, EndTeardowns;
    RunLength(w, rows, plan, states);
    if i > 0 {
      hide Untouched;
      UntouchedAt(w, rows, plan, states, i - 1);
      StepAt(w, rows, plan, states, i - 1);
      StepUntouched(w, plan, plan.Actions()[i - 1], states[i - 1], states[i]);
    }
  }

  /** Where the source has a directory there is a directory, or what the destination had there. */
  ghost predicate DirPlaces(w: Setting, fs: Fs) {
    forall p <- fs :: p in w.env.source && w.env.source[p] == Dir ==> fs[p] == Dir || (p in w.dest && fs[p] == w.dest[p])
  }

  lemma StepDirPlaces(w: Setting, plan: P.Plan, a: P.Action, was: Fs, now: Fs)
    requires Stepped(w, plan, a, was, now) && DirPlaces(w, was)
    ensures DirPlaces(w, now)
  {
    hide TreeOk, Below, Same, Emptied;
  }

  lemma {:induction false} DirPlacesAt(w: Setting, rows: seq<FileResult>, plan: P.Plan, states: seq<Fs>, i: nat)
    requires CleanRun(w, rows, plan, states) && i < |states|
    ensures DirPlaces(w, states[i])
  {
    hide CleanRun, Sound, Planned, Clean, Stepped, EndCreates, EndDeletes, EndTeardowns;
    RunLength(w, rows, plan, states);
    if i > 0 {
      hide DirPlaces;
      DirPlacesAt(w, rows, plan, states, i - 1);
      StepAt(w, rows, plan, states, i - 1);
      StepDirPlaces(w, plan, plan.Actions()[i - 1], states[i - 1], states[i]);
    }
  }

  // --- the order inside the groups ---

  /** Creations go from the shortest path to the longest. */
  lemma CreateOrder(w: Setting, rows: seq<FileResult>, plan: P.Plan, i: nat, j: nat)
    requires Planned(w, rows, plan) && i < EndCreates(plan) && j < EndCreates(plan)
    requires |plan.Actions()[i].rel| < |plan.Actions()[j].rel|
    ensures i < j
  {
    hide Sound, Reports, P.RowsDraft, P.Summed, P.Scheduled, P.ScheduledKey;
    assert plan.Actions()[i] == plan.createDirs[i] && plan.Actions()[j] == plan.createDirs[j];
  }

  /** Teardowns go from the longest path to the shortest. */
  lemma TeardownOrder(w: Setting, rows: seq<FileResult>, plan: P.Plan, i: nat, j: nat)
    requires Planned(w, rows, plan)
    requires EndDeletes(plan) <= i < EndTeardowns(plan) && EndDeletes(plan) <= j < EndTeardowns(plan)
    requires |plan.Actions()[i].rel| > |plan.Actions()[j].rel|
    ensures i < j
  {
    hide Sound, Reports, P.RowsDraft, P.Summed, P.Scheduled, P.ScheduledKey;
    var n := EndDeletes(plan);
    assert plan.Actions()[i] == plan.deleteDirs[i - n] && plan.Actions()[j] == plan.deleteDirs[j - n];
  }

  // --- nothing blocks the way ---

  /** A source directory in place of a file or link is created before anything that lies below it. */
  lemma ConflictCreated(w: Setting, rows: seq<FileResult>, plan: P.Plan, states: seq<Fs>, p: Path, i: nat)
    requires CleanRun(w, rows, plan, states) && i < |states| && p in w.dest && w.dest[p] != Dir
    requires p in w.env.source && w.env.source[p] == Dir
    requires EndCreates(plan) <= i || (i < |plan.Actions()| && |plan.Actions()[i].rel| > |p|)
    ensures p in states[i] && states[i][p] == Dir
  {
    hide CleanRun, Planned, EndCreates, EndDeletes, EndTeardowns, HasBelow;
    RunLength(w, rows, plan, states);
    hide Sound;
    EndsInside(plan);
    Ends(plan);
    var j := CreateAt(w, rows, plan, p);
    FoldLength(w, plan.Actions()[j].rel);
    if i < EndCreates(plan) { CreateOrder(w, rows, plan, j, i); }
    CreatedAfter(w, rows, plan, states, p, j, i);
  }

  lemma FoldLength(w: Setting, rel: Path)
    requires Sound(w)
    ensures |w.env.fold(rel)| == |rel|
  {
    hide TreeOk;
  }

  /** Above an action of the source side there are only directories. */
  lemma SourceReachable(w: Setting, rows: seq<FileResult>, plan: P.Plan, states: seq<Fs>, i: nat)
    requires CleanRun(w, rows, plan, states) && i < |states| && i < |plan.Actions()|
    requires w.env.fold(plan.Actions()[i].rel) in w.env.source
    ensures Reachable(states[i], w.env.fold(plan.Actions()[i].rel))
  {
    hide CleanRun, Planned, Sound, EndCreates, EndDeletes, EndTeardowns, Below;
    RunLength(w, rows, plan, states);
    var k := w.env.fold(plan.Actions()[i].rel);
    DirPlacesAt(w, rows, plan, states, i);
    forall p | p in states[i] && Below(k, p) ensures states[i][p] == Dir {
      AboveSource(w, k, p);
      BelowMeans(k, p);
      FoldLength(w, plan.Actions()[i].rel);
      if states[i][p] != Dir { ConflictCreated(w, rows, plan, states, p, i); }
    }
  }

  /** Above a removal there are only directories. */
  lemma DestReachable(w: Setting, rows: seq<FileResult>, plan: P.Plan, states: seq<Fs>, k: Path, i: nat)
    requires CleanRun(w, rows, plan, states) && i < |states| && i <= EndTeardowns(plan) && k in w.dest
    ensures Reachable(states[i], k)
  {
    hide CleanRun, Planned, Sound, EndCreates, EndDeletes, EndTeardowns, Below;
    RunLength(w, rows, plan, states);
    UntouchedAt(w, rows, plan, states, i);
    forall p | p in states[i] && Below(k, p) ensures states[i][p] == Dir {
      AboveDest(w, rows, plan, k, p);
    }
  }

  // --- the place of a write is ready ---

  /** Once the teardowns are over, nothing is below the place of a source file or link. */
  lemma NothingUnder(w: Setting, rows: seq<FileResult>, plan: P.Plan, states: seq<Fs>, k: Path, i: nat)
    requires CleanRun(w, rows, plan, states) && EndTeardowns(plan) <= i < |states| && Thorough(w, plan, states)
    requires k in w.env.source && w.env.source[k] != Dir
    ensures forall q <- states[i] :: !Below(q, k)
  {
    hide CleanRun, Planned, Sound, EndCreates, EndDeletes, EndTeardowns, Below, Doomed;
    RunLength(w, rows, plan, states);
    Ends(plan);
    KnownAt(w, rows, plan, states, i);
    forall q | q in states[i] ensures !Below(q, k) {
      if Below(q, k) {
        if q in w.env.source { AboveSource(w, q, k); }
        if w.dest[q] == Dir { VanishedAfter(w, rows, plan, states, q, i); } else { ExtrasGone(w, rows, plan, states, q, i); }
        assert false;
      }
    }
  }

  lemma PlaceYields(w: Setting, rows: seq<FileResult>, plan: P.Plan, states: seq<Fs>, k: Path, i: nat)
    requires CleanRun(w, rows, plan, states) && EndTeardowns(plan) <= i < |states| && Thorough(w, plan, states)
    requires k in w.env.source && w.env.source[k] != Dir
    ensures Yields(states[i], k)
  {
    hide CleanRun, EndTeardowns, Below, OnlyKnown;
    KnownAt(w, rows, plan, states, i);
    NothingUnder(w, rows, plan, states, k, i);
  }

  // --- a link to replace is still there ---

  /** Something in the way of a source entry is not listed for teardowns. */
  lemma ConflictNotAllowed(w: Setting, rows: seq<FileResult>, plan: P.Plan, k: Path)
    requires Planned(w, rows, plan) && Differs(w, k) && k in w.dest
    ensures k !in Allowed(plan)
  {
    hide Sound, Reports, P.RowDraft, P.Ordered, P.Summed, P.RowsDraft, P.AboveExtra, ListedBy, RowTrue, HasBelow, Same, P.Resolves, Below;
    var fold := w.env.fold;
    DraftListed(fold, rows, k);
    if k in P.RowsDraft(fold, rows).listed {
      var r :| r in rows && ListedBy(fold, r, k);
      RowIsTrue(w, rows, r);
      ListedTrue(w, r, k);
    }
    var r := DifferenceRow(w, rows, k);
    RowClaims(w, rows, r);
  }

  lemma RowClaims(w: Setting, rows: seq<FileResult>, r: FileResult)
    requires r in rows && RowTrue(w, r) && (r.status == Missing || P.IsMismatch(r.status))
    ensures P.Claimed(w.env.fold, rows, w.env.fold(r.relativePath))
  {
    hide P.Resolves, SideIs, Same, Below;
    assert P.Claims(r);
  }

  /** When a teardown starts, everything listed below a place that it could empty has been torn down or deleted. */
  lemma NothingListedUnder(w: Setting, rows: seq<FileResult>, plan: P.Plan, states: seq<Fs>, k: Path, e: Path, i: nat)
    requires CleanRun(w, rows, plan, states) && EndDeletes(plan) <= i < EndTeardowns(plan) && i < |states| && i < |plan.Actions()|
    requires k in w.env.source && w.env.source[k] != Dir && |plan.Actions()[i].rel| <= |k| && Below(e, k)
    requires Thorough(w, plan, states)
    ensures e !in states[i]
  {
    hide CleanRun, Planned, Sound, EndCreates, EndDeletes, EndTeardowns, Below, Doomed;
    RunLength(w, rows, plan, states);
    if e in states[i] {
      KnownAt(w, rows, plan, states, i);
      if e in w.env.source { AboveSource(w, e, k); }
      if w.dest[e] != Dir {
        ExtrasGone(w, rows, plan, states, e, i);
      } else {
        var j := TeardownAt(w, rows, plan, e);
        FoldLength(w, plan.Actions()[j].rel);
        BelowMeans(e, k);
        TeardownOrder(w, rows, plan, j, i);
        TornDownAfter(w, rows, plan, states, e, j, i);
      }
      assert false;
    }
  }

  /** A teardown leaves what is in the way of a source file or link. */
  lemma TeardownKeeps(w: Setting, rows: seq<FileResult>, plan: P.Plan, states: seq<Fs>, k: Path, i: nat)
    requires CleanRun(w, rows, plan, states) && EndDeletes(plan) <= i < EndTeardowns(plan) && i < |states| - 1
    requires Differs(w, k) && w.env.source[k] != Dir && k in w.dest && k in states[i] && Thorough(w, plan, states)
    ensures k in states[i + 1]
  {
    hide CleanRun, Planned, Sound, Clean, EndCreates, EndDeletes, EndTeardowns, Below, TreeOk, Same, Allowed;
    RunLength(w, rows, plan, states);
    StepAt(w, rows, plan, states, i);
    if k !in states[i + 1] {
      Ends(plan);
      ConflictNotAllowed(w, rows, plan, k);
      var rel := plan.Actions()[i].rel;
      FoldLength(w, rel);
      BelowMeans(k, w.env.fold(rel));
      var e :| e in states[i] && e !in states[i + 1] && Below(e, k) && e in Allowed(plan);
      NothingListedUnder(w, rows, plan, states, k, e, i);
    }
  }

  lemma OtherKeeps(w: Setting, plan: P.Plan, a: P.Action, was: Fs, now: Fs, k: Path)
    requires Stepped(w, plan, a, was, now) && a.op != P.DirDelete && k in w.env.source && k in was
    ensures k in now
  {
    hide TreeOk, Below, Same, Mirror;
  }

  lemma {:induction false} ConflictStays(w: Setting, rows: seq<FileResult>, plan: P.Plan, states: seq<Fs>, k: Path, i: nat)
    requires CleanRun(w, rows, plan, states) && i < |states| && Thorough(w, plan, states)
    requires Differs(w, k) && w.env.source[k] != Dir && k in w.dest
    ensures k in states[i]
  {
    hide CleanRun, Planned, Sound, Clean, Stepped, EndCreates, EndDeletes, EndTeardowns, Same;
    RunLength(w, rows, plan, states);
    if i > 0 {
      ConflictStays(w, rows, plan, states, k, i - 1);
      StepAt(w, rows, plan, states, i - 1);
      var a := plan.Actions()[i - 1];
      if a.op == P.DirDelete {
        TeardownKeeps(w, rows, plan, states, k, i - 1);
      } else {
        OtherKeeps(w, plan, a, states[i - 1], states[i], k);
      }
    }
  }

  // --- every action can go through ---

  lemma WriteCan(w: Setting, rows: seq<FileResult>, plan: P.Plan, states: seq<Fs>, i: nat)
    requires CleanRun(w, rows, plan, states) && EndTeardowns(plan) <= i < |states| && i < |plan.Actions()| && Linkable(w)
    requires Thorough(w, plan, states)
    requires IsWrite(plan.Actions()[i].op)
    ensures Can(w.env, plan.Actions()[i], states[i])
  {
    hide CleanRun, Planned, Sound, EndCreates, EndDeletes, EndTeardowns, Same, Yields, Reachable, P.Resolves, IsAbsolute;
    RunLength(w, rows, plan, states);
    var a := plan.Actions()[i];
    ActionsTrue(w, rows, plan, a);
    ActionResolves(w, rows, plan, a);
    SourceReachable(w, rows, plan, states, i);
    PlaceYields(w, rows, plan, states, w.env.fold(a.rel), i);
    if a.op == P.LinkReplace { ConflictStays(w, rows, plan, states, w.env.fold(a.rel), i); }
  }

  lemma CreateCan(w: Setting, rows: seq<FileResult>, plan: P.Plan, states: seq<Fs>, i: nat)
    requires CleanRun(w, rows, plan, states) && i < |states| && i < |plan.Actions()| && plan.Actions()[i].op == P.DirCreate
    ensures Can(w.env, plan.Actions()[i], states[i])
  {
    hide CleanRun, Planned, Sound, EndCreates, EndDeletes, EndTeardowns, Same, Yields, Reachable, P.Resolves, OnlyKnown;
    RunLength(w, rows, plan, states);
    var a := plan.Actions()[i];
    ActionsTrue(w, rows, plan, a);
    ActionResolves(w, rows, plan, a);
    SourceReachable(w, rows, plan, states, i);
    KnownAt(w, rows, plan, states, i);
  }

  /** A symbolic link to a file is the only kind that a file deletion removes; the plan deletes links as links. */
  lemma RemoveCan(w: Setting, rows: seq<FileResult>, plan: P.Plan, states: seq<Fs>, i: nat)
    requires CleanRun(w, rows, plan, states) && i < |states| && i < EndTeardowns(plan) && i < |plan.Actions()|
    requires IsDelete(plan.Actions()[i].op) || plan.Actions()[i].op == P.DirDelete
    ensures Can(w.env, plan.Actions()[i], states[i])
  {
    hide CleanRun, Planned, Sound, EndCreates, EndDeletes, EndTeardowns, Same, Yields, Reachable, P.Resolves, OnlyKnown;
    RunLength(w, rows, plan, states);
    var a := plan.Actions()[i];
    var k := w.env.fold(a.rel);
    ActionsTrue(w, rows, plan, a);
    ActionResolves(w, rows, plan, a);
    DestReachable(w, rows, plan, states, k, i);
    UntouchedAt(w, rows, plan, states, i);
    KnownAt(w, rows, plan, states, i);
    if k in states[i] && a.op != P.DirDelete { ExtraAsIs(w, rows, plan, states, k, i); }
  }

  lemma NextCan(w: Setting, rows: seq<FileResult>, plan: P.Plan, states: seq<Fs>, i: nat)
    requires CleanRun(w, rows, plan, states) && i < |states| && i < |plan.Actions()| && Linkable(w) && Thorough(w, plan, states)
    ensures Can(w.env, plan.Actions()[i], states[i])
  {
    hide CleanRun, Sound, Reports, P.Compiles, Linkable, Can, EndCreates, EndDeletes, EndTeardowns;
    RunLength(w, rows, plan, states);
    OpAt(w.env.fold, rows, plan, i);
    Ends(plan);
    if plan.Actions()[i].op == P.DirCreate { CreateCan(w, rows, plan, states, i); }
    else if i < EndTeardowns(plan) { RemoveCan(w, rows, plan, states, i); }
    else { WriteCan(w, rows, plan, states, i); }
  }

  // --- whole runs ---

  /** As long as nothing failed the run is clean, and then the next action does not fail either. */
  lemma {:induction false} PrefixClean(w: Setting, rows: seq<FileResult>, plan: P.Plan, states: seq<Fs>, r: Report, n: nat)
    requires Planned(w, rows, plan) && Reported(w.env, plan.Actions(), Allowed(plan), states, r, false) && states[0] == w.dest
    requires Linkable(w) && n < |states|
    ensures CleanRun(w, rows, plan, states[..n + 1]) && Thorough(w, plan, states[..n + 1])
    ensures forall i | 0 <= i < n :: r.items[i] == Done || r.items[i] == Skip
  {
    hide Planned, Ran, TreeOk, Can, Linkable, Counted, Unexpected;
    if n > 0 {
      PrefixClean(w, rows, plan, states, r, n - 1);
      NextCan(w, rows, plan, states[..n], n - 1);
      assert r.items[n - 1] == Done || r.items[n - 1] == Skip;
    }
  }

  lemma {:induction false} NoneFailed(items: seq<Outcome>)
    requires forall i | 0 <= i < |items| :: items[i] == Done || items[i] == Skip
    ensures CountOf(items, Done) + CountOf(items, Skip) == |items|
  {
    if items != [] { NoneFailed(items[..|items| - 1]); }
  }

  /** Unless something outside goes wrong, no action of a compiled plan fails: the order of the groups, and the order by
      path length inside them, clear every place before it is needed. */
  lemma NoFailures(w: Setting, rows: seq<FileResult>, plan: P.Plan, states: seq<Fs>, r: Report)
    requires Planned(w, rows, plan) && Reported(w.env, plan.Actions(), Allowed(plan), states, r, false) && states[0] == w.dest
    requires Linkable(w)
    ensures r.failedCount == 0 && !r.cancelled && WholeRun(w, rows, plan, states) && Thorough(w, plan, states)
  {
    hide Planned, Executed, Explained, CleanRun, CountOf, Linkable;
    PrefixClean(w, rows, plan, states, r, |states| - 1);
    assert states[..|states|] == states;
    NoneFailed(r.items[..|states| - 1]);
  }
}
