/** The destination after a clean run of a plan. */
module SyncResult {
  import opened Wrappers
  import opened Bytes
  import opened Results
  import opened Classify
  import opened RunResult
  import opened SyncTree
  import opened SyncFs
  import opened LinkTargets
  import opened SyncExecutor
  import opened SyncConvergence
  import opened SyncSteps
  import P = SyncPlan

  // --- the order of a plan ---

  ghost predicate OpsOk(d: P.Draft) {
    && (forall a <- d.creates :: a.op == P.DirCreate) && (forall a <- d.deletes :: IsDelete(a.op))
    && (forall a <- d.deleteDirs :: a.op == P.DirDelete)
    && (forall a <- d.fileWrites :: IsWrite(a.op)) && (forall a <- d.linkWrites :: IsWrite(a.op))
  }

  lemma RowOps(fold: Path -> Path, r: FileResult)
    ensures OpsOk(P.RowDraft(fold, r))
  {}

  lemma {:induction false} DraftOps(fold: Path -> Path, rows: seq<FileResult>)
    ensures OpsOk(P.RowsDraft(fold, rows))
  {
    hide P.RowDraft, P.Resolves;
    if rows != [] {
      DraftOps(fold, rows[..|rows| - 1]);
      RowOps(fold, rows[|rows| - 1]);
    }
  }

  lemma PlanOps(fold: Path -> Path, rows: seq<FileResult>, plan: P.Plan)
    requires P.Compiles(fold, rows, plan)
    ensures (forall a <- plan.createDirs :: a.op == P.DirCreate) && (forall a <- plan.deletes :: IsDelete(a.op))
    ensures forall a <- plan.deleteDirs :: a.op == P.DirDelete
    ensures (forall a <- plan.fileWrites :: IsWrite(a.op)) && (forall a <- plan.linkWrites :: IsWrite(a.op))
  {
    hide P.RowsDraft, P.Ordered, P.Summed, P.Scheduled, IsDelete, IsWrite;
    DraftOps(fold, rows);
  }

  /** Where the groups end. */
  function EndCreates(plan: P.Plan): nat { |plan.createDirs| }
  function EndDeletes(plan: P.Plan): nat { EndCreates(plan) + |plan.deletes| }
  function EndTeardowns(plan: P.Plan): nat { EndDeletes(plan) + |plan.deleteDirs| }

  lemma OpAt(fold: Path -> Path, rows: seq<FileResult>, plan: P.Plan, i: nat)
    requires P.Compiles(fold, rows, plan) && i < |plan.Actions()|
    ensures var op := plan.Actions()[i].op;
            if i < EndCreates(plan) then op == P.DirCreate
            else if i < EndDeletes(plan) then IsDelete(op)
            else if i < EndTeardowns(plan) then op == P.DirDelete
            else IsWrite(op)
  {
    hide P.Compiles, IsDelete, IsWrite;
    PlanOps(fold, rows, plan);
  }

  /** Where the action of a group is. */
  lemma Located(plan: P.Plan, a: P.Action)
    ensures a in plan.createDirs ==> exists i | 0 <= i < EndCreates(plan) :: plan.Actions()[i] == a
    ensures a in plan.deletes ==> exists i | EndCreates(plan) <= i < EndDeletes(plan) :: plan.Actions()[i] == a
    ensures a in plan.deleteDirs ==> exists i | EndDeletes(plan) <= i < EndTeardowns(plan) :: plan.Actions()[i] == a
    ensures a in plan.fileWrites || a in plan.linkWrites ==> exists i | EndTeardowns(plan) <= i < |plan.Actions()| :: plan.Actions()[i] == a
  {
    if a in plan.createDirs { var j :| 0 <= j < |plan.createDirs| && plan.createDirs[j] == a; assert plan.Actions()[j] == a; }
    if a in plan.deletes { var j :| 0 <= j < |plan.deletes| && plan.deletes[j] == a; assert plan.Actions()[EndCreates(plan) + j] == a; }
    if a in plan.deleteDirs { var j :| 0 <= j < |plan.deleteDirs| && plan.deleteDirs[j] == a; assert plan.Actions()[EndDeletes(plan) + j] == a; }
    if a in plan.fileWrites { var j :| 0 <= j < |plan.fileWrites| && plan.fileWrites[j] == a; assert plan.Actions()[EndTeardowns(plan) + j] == a; }
    if a in plan.linkWrites {
      var j :| 0 <= j < |plan.linkWrites| && plan.linkWrites[j] == a;
      assert plan.Actions()[EndTeardowns(plan) + |plan.fileWrites| + j] == a;
    }
  }

  // --- clean runs ---

  /** The first actions of the plan were executed and none failed. */
  ghost predicate CleanRun(w: Setting, rows: seq<FileResult>, plan: P.Plan, states: seq<Fs>) {
    && Planned(w, rows, plan) && 0 < |states| <= |plan.Actions()| + 1 && states[0] == w.dest
    && forall i | 0 <= i < |states| - 1 :: Clean(w, rows, plan, plan.Actions()[i], states[i], states[i + 1])
  }

  /** All of them. */
  ghost predicate WholeRun(w: Setting, rows: seq<FileResult>, plan: P.Plan, states: seq<Fs>) {
    CleanRun(w, rows, plan, states) && |states| == |plan.Actions()| + 1
  }

  /** Every teardown of the run went through or was stopped by something unexpected. */
  ghost predicate Thorough(w: Setting, plan: P.Plan, states: seq<Fs>) {
    forall i | 0 <= i < |states| - 1 && i < |plan.Actions()| && plan.Actions()[i].op == P.DirDelete ::
      Justified(w, plan, plan.Actions()[i], states[i], states[i + 1])
  }

  /** A report without failure or cancellation stands for a clean run. */
  lemma ReportedClean(w: Setting, rows: seq<FileResult>, plan: P.Plan, states: seq<Fs>, r: Report, trouble: bool)
    requires Planned(w, rows, plan) && Reported(w.env, plan.Actions(), Allowed(plan), states, r, trouble) && states[0] == w.dest
    requires r.failedCount == 0 && !r.cancelled
    ensures WholeRun(w, rows, plan, states) && (!trouble ==> Thorough(w, plan, states))
    ensures forall i | 0 <= i < |plan.Actions()| ::
              r.items[i] == Skip || Ran(w.env, plan.Actions()[i], Allowed(plan), states[i], states[i + 1], Done)
  {
    hide Planned, Ran, TreeOk, Unexpected, Can;
    var n := |plan.Actions()|;
    assert r.items[..n] == r.items;
    AllCounted(r.items);
    forall i | 0 <= i < n ensures Clean(w, rows, plan, plan.Actions()[i], states[i], states[i + 1]) {
      assert r.items[i] == Done || r.items[i] == Skip;
    }
  }

  lemma {:induction false} AllCounted(items: seq<Outcome>)
    ensures CountOf(items, Done) + CountOf(items, Skip) <= |items|
    ensures CountOf(items, Done) + CountOf(items, Skip) == |items| ==> forall i | 0 <= i < |items| :: items[i] == Done || items[i] == Skip
  {
    if items != [] { AllCounted(items[..|items| - 1]); }
  }

  lemma StepAt(w: Setting, rows: seq<FileResult>, plan: P.Plan, states: seq<Fs>, i: nat)
    requires CleanRun(w, rows, plan, states) && i < |states| - 1
    ensures i < |plan.Actions()|
    ensures Sound(w) && Planned(w, rows, plan) && Clean(w, rows, plan, plan.Actions()[i], states[i], states[i + 1])
    ensures Stepped(w, plan, plan.Actions()[i], states[i], states[i + 1])
    ensures var op := plan.Actions()[i].op;
            if i < EndCreates(plan) then op == P.DirCreate
            else if i < EndDeletes(plan) then IsDelete(op)
            else if i < EndTeardowns(plan) then op == P.DirDelete
            else IsWrite(op)
  {
    hide Sound, Reports, P.Compiles, Clean, Stepped, EndCreates, EndDeletes, EndTeardowns, IsDelete, IsWrite;
    OpAt(w.env.fold, rows, plan, i);
    StepShape(w, rows, plan, plan.Actions()[i], states[i], states[i + 1]);
  }

  lemma {:induction false} KnownAt(w: Setting, rows: seq<FileResult>, plan: P.Plan, states: seq<Fs>, i: nat)
    requires CleanRun(w, rows, plan, states) && i < |states|
    ensures OnlyKnown(w, states[i]) && SupportedLinks(states[i])
  {
    if i == 0 {
      hide Sound, Planned, Clean;
      RunLength(w, rows, plan, states);
      KnownStart(w);
    } else {
      hide CleanRun, Sound, Planned, Clean, Stepped, OnlyKnown, SupportedLinks;
      KnownAt(w, rows, plan, states, i - 1);
      RunLength(w, rows, plan, states);
      StepAt(w, rows, plan, states, i - 1);
      StepOnlyKnown(w, plan, plan.Actions()[i - 1], states[i - 1], states[i]);
      StepSupportedLinks(w, plan, plan.Actions()[i - 1], states[i - 1], states[i]);
    }
  }

  lemma KnownStart(w: Setting)
    requires Sound(w)
    ensures OnlyKnown(w, w.dest) && SupportedLinks(w.dest)
  {
    hide FoldOk, TreeOk;
  }

  lemma RunLength(w: Setting, rows: seq<FileResult>, plan: P.Plan, states: seq<Fs>)
    requires CleanRun(w, rows, plan, states)
    ensures 0 < |states| <= |plan.Actions()| + 1 && states[0] == w.dest && Planned(w, rows, plan) && Sound(w)
  {
    hide Clean, Reports, P.Compiles, Sound;
  }

  // --- files and links ---

  lemma {:induction false} SameAt(w: Setting, rows: seq<FileResult>, plan: P.Plan, states: seq<Fs>, k: Path, i: nat)
    requires CleanRun(w, rows, plan, states) && i < |states|
    requires k in w.env.source && k in w.dest && Same(w, w.env.source[k], w.dest[k]) && w.env.source[k] != Dir
    ensures k in states[i] && states[i][k] == w.dest[k]
  {
    hide CleanRun, Sound, Planned, Clean, Stepped, Same;
    RunLength(w, rows, plan, states);
    if i > 0 {
      SameAt(w, rows, plan, states, k, i - 1);
      StepAt(w, rows, plan, states, i - 1);
      StepKeepsSame(w, rows, plan, plan.Actions()[i - 1], states[i - 1], states[i], k);
    }
  }

  lemma {:induction false} WrittenAfter(w: Setting, rows: seq<FileResult>, plan: P.Plan, states: seq<Fs>, k: Path, j: nat, i: nat)
    requires CleanRun(w, rows, plan, states) && EndTeardowns(plan) <= j < i < |states|
    requires k in w.env.source && w.env.fold(plan.Actions()[j].rel) == k
    ensures k in states[i] && states[i][k] == Mirror(w, k)
    decreases i
  {
    hide CleanRun, Sound, Planned, Clean, EndTeardowns, EndDeletes, EndCreates, Mirror;
    RunLength(w, rows, plan, states);
    if i == j + 1 {
      StepAt(w, rows, plan, states, j);
      WriteMirrors(w, plan, plan.Actions()[j], states[j], states[i]);
    } else {
      hide Stepped;
      WrittenAfter(w, rows, plan, states, k, j, i - 1);
      StepAt(w, rows, plan, states, i - 1);
      Ends(plan);
      StepKeepsWritten(w, plan, plan.Actions()[i - 1], states[i - 1], states[i], k);
    }
  }

  lemma Ends(plan: P.Plan)
    ensures EndCreates(plan) <= EndDeletes(plan) <= EndTeardowns(plan)
  {}

  lemma WriteMirrors(w: Setting, plan: P.Plan, a: P.Action, was: Fs, now: Fs)
    requires Stepped(w, plan, a, was, now) && !IsDelete(a.op) && a.op != P.DirDelete
    ensures var k := w.env.fold(a.rel); k in w.env.source && k in now && now[k] == Mirror(w, k)
  {
    hide TreeOk, Around, Mirror;
  }

  lemma WriteAtEnd(w: Setting, rows: seq<FileResult>, plan: P.Plan, states: seq<Fs>, k: Path)
    requires WholeRun(w, rows, plan, states) && Differs(w, k) && w.env.source[k] != Dir
    ensures |states| > 0 && k in states[|states| - 1] && states[|states| - 1][k] == Mirror(w, k)
  {
    hide CleanRun, Planned, EndTeardowns, EndDeletes, EndCreates, Sound, Same, Mirror, HasBelow;
    RunLength(w, rows, plan, states);
    WritePlanned(w, rows, plan, k);
    var a: P.Action :| a in PlanGroup(plan, a.op) && w.env.fold(a.rel) == k && Writes(w.env.source[k], a.op);
    Located(plan, a);
    var j :| EndTeardowns(plan) <= j < |plan.Actions()| && plan.Actions()[j] == a;
    WrittenAfter(w, rows, plan, states, k, j, |states| - 1);
  }

  /** Every source file and link ends up in the destination. */
  lemma FilesAtEnd(w: Setting, rows: seq<FileResult>, plan: P.Plan, states: seq<Fs>, k: Path)
    requires WholeRun(w, rows, plan, states) && k in w.env.source && w.env.source[k] != Dir
    ensures var end := states[|states| - 1]; k in end && end[k] == Final(w, k)
  {
    hide CleanRun, Planned, Sound, Same, Mirror;
    RunLength(w, rows, plan, states);
    if Differs(w, k) {
      WriteAtEnd(w, rows, plan, states, k);
    } else {
      SameAt(w, rows, plan, states, k, |states| - 1);
    }
  }

  // --- what only the destination had ---

  lemma {:induction false} GoneAfter(w: Setting, rows: seq<FileResult>, plan: P.Plan, states: seq<Fs>, x: Path, j: nat, i: nat)
    requires CleanRun(w, rows, plan, states) && j <= i < |states| && x !in states[j]
    requires x !in w.env.source || (Doomed(w, x) && EndCreates(plan) <= j)
    ensures x !in states[i]
    decreases i
  {
    hide CleanRun, Sound, Planned, Clean, Stepped, Doomed, EndCreates, EndDeletes, EndTeardowns;
    if i > j {
      GoneAfter(w, rows, plan, states, x, j, i - 1);
      RunLength(w, rows, plan, states);
      StepAt(w, rows, plan, states, i - 1);
      StepStaysGone(w, plan, plan.Actions()[i - 1], states[i - 1], states[i], x);
    }
  }

  /** What only the destination had is, while it is there, what the destination had. */
  lemma ExtraAsIs(w: Setting, rows: seq<FileResult>, plan: P.Plan, states: seq<Fs>, k: Path, i: nat)
    requires CleanRun(w, rows, plan, states) && i < |states| && k in w.dest && k !in w.env.source && k in states[i]
    ensures states[i][k] == w.dest[k]
    decreases i
  {
    hide CleanRun, Sound, Planned, Clean, Stepped, EndCreates, EndDeletes, EndTeardowns;
    RunLength(w, rows, plan, states);
    if i > 0 {
      StepAt(w, rows, plan, states, i - 1);
      ExtraCameFrom(w, plan, plan.Actions()[i - 1], states[i - 1], states[i], k);
      ExtraAsIs(w, rows, plan, states, k, i - 1);
    }
  }

  lemma ExtraCameFrom(w: Setting, plan: P.Plan, a: P.Action, was: Fs, now: Fs, k: Path)
    requires Sound(w) && Stepped(w, plan, a, was, now) && k !in w.env.source && k in now
    ensures k in was && now[k] == was[k]
  {
    hide Sound, Below, TreeOk, Same, Emptied, Mirror;
    var x := w.env.fold(a.rel);
    if k !in was { AboveSource(w, x, k); }
  }

  /** After the deletes no destination-only file or link is left. */
  lemma ExtrasGone(w: Setting, rows: seq<FileResult>, plan: P.Plan, states: seq<Fs>, x: Path, i: nat)
    requires CleanRun(w, rows, plan, states) && EndDeletes(plan) <= i < |states|
    requires x in w.dest && x !in w.env.source && w.dest[x] != Dir
    ensures x !in states[i]
  {
    hide CleanRun, Sound, Planned, Clean, EndCreates, EndDeletes, EndTeardowns;
    RunLength(w, rows, plan, states);
    DeletePlanned(w, rows, plan, x);
    var a :| a in plan.deletes && w.env.fold(a.rel) == x;
    Located(plan, a);
    Ends(plan);
    var j :| EndCreates(plan) <= j < EndDeletes(plan) && plan.Actions()[j] == a;
    EndsInside(plan);
    StepAt(w, rows, plan, states, j);
    DeleteRemoves(w, plan, a, states[j], states[j + 1]);
    GoneAfter(w, rows, plan, states, x, j + 1, i);
  }

  lemma EndsInside(plan: P.Plan)
    ensures EndTeardowns(plan) <= |plan.Actions()|
  {}

  lemma DeleteRemoves(w: Setting, plan: P.Plan, a: P.Action, was: Fs, now: Fs)
    requires Stepped(w, plan, a, was, now) && IsDelete(a.op)
    ensures w.env.fold(a.rel) !in now
  {
    hide TreeOk;
  }

  /** The teardown of a vanishing directory goes through, and the directory stays away. */
  lemma TornDownAfter(w: Setting, rows: seq<FileResult>, plan: P.Plan, states: seq<Fs>, p: Path, j: nat, i: nat)
    requires CleanRun(w, rows, plan, states) && Vanishes(w, p) && EndDeletes(plan) <= j < EndTeardowns(plan) && j < i < |states|
    requires j < |plan.Actions()| && w.env.fold(plan.Actions()[j].rel) == p
    requires Justified(w, plan, plan.Actions()[j], states[j], states[j + 1])
    ensures p !in states[i]
  {
    hide CleanRun, Sound, Planned, Clean, Stepped, EndCreates, EndDeletes, EndTeardowns, Doomed, Justified;
    RunLength(w, rows, plan, states);
    Ends(plan);
    StepAt(w, rows, plan, states, j);
    KnownAt(w, rows, plan, states, j);
    forall q | q in states[j] && q !in w.env.source ensures w.dest[q] == Dir {
      if w.dest[q] != Dir {
        ExtrasGone(w, rows, plan, states, q, j);
        assert false;
      }
    }
    StepTearsDown(w, rows, plan, plan.Actions()[j], states[j], states[j + 1]);
    GoneAfter(w, rows, plan, states, p, j + 1, i);
  }

  /** Where the teardown of a vanishing directory is. */
  lemma TeardownAt(w: Setting, rows: seq<FileResult>, plan: P.Plan, p: Path) returns (j: nat)
    requires Planned(w, rows, plan) && Vanishes(w, p)
    ensures EndDeletes(plan) <= j < EndTeardowns(plan) && j < |plan.Actions()| && w.env.fold(plan.Actions()[j].rel) == p
    ensures plan.Actions()[j].op == P.DirDelete
  {
    hide Planned, EndCreates, EndDeletes, EndTeardowns, Vanishes;
    VanishPlanned(w, rows, plan, p);
    var a :| a in plan.deleteDirs && w.env.fold(a.rel) == p;
    Located(plan, a);
    EndsInside(plan);
    j :| EndDeletes(plan) <= j < EndTeardowns(plan) && plan.Actions()[j] == a;
    TeardownOp(w, rows, plan, j);
  }

  lemma TeardownOp(w: Setting, rows: seq<FileResult>, plan: P.Plan, j: nat)
    requires Planned(w, rows, plan) && EndDeletes(plan) <= j < EndTeardowns(plan) && j < |plan.Actions()|
    ensures plan.Actions()[j].op == P.DirDelete
  {
    hide Sound, Reports, P.Compiles, EndCreates, EndDeletes, EndTeardowns, IsDelete, IsWrite;
    OpAt(w.env.fold, rows, plan, j);
    Ends(plan);
  }

  /** After teardowns that nothing outside stopped, no vanishing directory is left. */
  lemma VanishedAfter(w: Setting, rows: seq<FileResult>, plan: P.Plan, states: seq<Fs>, p: Path, i: nat)
    requires CleanRun(w, rows, plan, states) && Vanishes(w, p) && EndTeardowns(plan) <= i < |states| && Thorough(w, plan, states)
    ensures p !in states[i]
  {
    hide CleanRun, Planned, EndCreates, EndDeletes, EndTeardowns, Vanishes, Justified;
    RunLength(w, rows, plan, states);
    var j := TeardownAt(w, rows, plan, p);
    hide P.Plan.Actions;
    TornDownAfter(w, rows, plan, states, p, j, i);
  }

  // --- source directories ---

  lemma {:induction false} SafeFrom(w: Setting, rows: seq<FileResult>, plan: P.Plan, states: seq<Fs>, e: Path, j: nat, i: nat)
    requires CleanRun(w, rows, plan, states) && Safe(w, e) && j <= i < |states| && e in states[j] && states[j][e] == Dir
    ensures e in states[i] && states[i][e] == Dir
    decreases i
  {
    hide CleanRun, Sound, Planned, Clean, Stepped, Safe;
    if i > j {
      SafeFrom(w, rows, plan, states, e, j, i - 1);
      RunLength(w, rows, plan, states);
      StepAt(w, rows, plan, states, i - 1);
      StepKeepsSafe(w, rows, plan, plan.Actions()[i - 1], states[i - 1], states[i], e);
    }
  }

  /** A created directory stays. */
  lemma CreatedAfter(w: Setting, rows: seq<FileResult>, plan: P.Plan, states: seq<Fs>, e: Path, j: nat, i: nat)
    requires CleanRun(w, rows, plan, states) && Differs(w, e) && w.env.source[e] == Dir
    requires j < EndCreates(plan) && j < i < |states| && j < |plan.Actions()| && w.env.fold(plan.Actions()[j].rel) == e
    ensures e in states[i] && states[i][e] == Dir
  {
    hide CleanRun, Sound, Planned, Clean, EndCreates, EndDeletes, EndTeardowns, Safe;
    RunLength(w, rows, plan, states);
    StepAt(w, rows, plan, states, j);
    WriteMirrors(w, plan, plan.Actions()[j], states[j], states[j + 1]);
    DifferentDirIsSafe(w, e);
    SafeFrom(w, rows, plan, states, e, j + 1, i);
  }

  lemma CreateAt(w: Setting, rows: seq<FileResult>, plan: P.Plan, e: Path) returns (j: nat)
    requires Planned(w, rows, plan) && Differs(w, e) && w.env.source[e] == Dir
    requires e in w.dest || !HasBelow(w.env.source.Keys - w.dest.Keys, e)
    ensures j < EndCreates(plan) && j < |plan.Actions()| && w.env.fold(plan.Actions()[j].rel) == e
  {
    hide Planned, EndCreates, EndDeletes, EndTeardowns, HasBelow;
    WritePlanned(w, rows, plan, e);
    var a: P.Action :| a in PlanGroup(plan, a.op) && w.env.fold(a.rel) == e && Writes(w.env.source[e], a.op);
    Located(plan, a);
    Ends(plan);
    EndsInside(plan);
    j :| 0 <= j < EndCreates(plan) && plan.Actions()[j] == a;
  }

  /** A source directory that the destination lacks, or has as something else, is created and stays. */
  lemma CreatedAtEnd(w: Setting, rows: seq<FileResult>, plan: P.Plan, states: seq<Fs>, e: Path)
    requires WholeRun(w, rows, plan, states) && Differs(w, e) && w.env.source[e] == Dir
    requires e in w.dest || !HasBelow(w.env.source.Keys - w.dest.Keys, e)
    ensures e in states[|states| - 1] && states[|states| - 1][e] == Dir
  {
    hide CleanRun, Planned, Sound, EndCreates, EndDeletes, EndTeardowns, HasBelow, Same;
    RunLength(w, rows, plan, states);
    EndsInside(plan);
    Ends(plan);
    var j := CreateAt(w, rows, plan, e);
    CreatedAfter(w, rows, plan, states, e, j, |states| - 1);
  }

  lemma DifferentDirIsSafe(w: Setting, e: Path)
    requires Sound(w) && Differs(w, e) && w.env.source[e] == Dir
    ensures Safe(w, e)
  {
    hide FoldOk, NameOk, Below;
  }

  /** A missing source directory is there at the end, created itself or above something that is. */
  lemma MissingAtEnd(w: Setting, rows: seq<FileResult>, plan: P.Plan, states: seq<Fs>, e: Path)
    requires WholeRun(w, rows, plan, states) && e in w.env.source && e !in w.dest && w.env.source[e] == Dir
    ensures e in states[|states| - 1] && states[|states| - 1][e] == Dir
  {
    hide CleanRun, Sound, Planned, Clean, Below, Same;
    var missing := w.env.source.Keys - w.dest.Keys;
    if HasBelow(missing, e) {
      var x :| x in missing && Below(x, e);
      HiddenHasReported(missing, e, x);
      var r :| r in missing && Below(r, e) && !HasBelow(missing, r);
      if w.env.source[r] == Dir { CreatedAtEnd(w, rows, plan, states, r); } else { FilesAtEnd(w, rows, plan, states, r); }
      AboveAtEnd(w, rows, plan, states, r, e);
    } else {
      CreatedAtEnd(w, rows, plan, states, e);
    }
  }

  lemma AboveAtEnd(w: Setting, rows: seq<FileResult>, plan: P.Plan, states: seq<Fs>, r: Path, e: Path)
    requires CleanRun(w, rows, plan, states) && r in states[|states| - 1] && Below(r, e)
    ensures e in states[|states| - 1] && states[|states| - 1][e] == Dir
  {
    hide Below;
    EndIsTree(w, rows, plan, states);
    hide CleanRun, NameOk;
  }

  lemma EndIsTree(w: Setting, rows: seq<FileResult>, plan: P.Plan, states: seq<Fs>)
    requires CleanRun(w, rows, plan, states)
    ensures TreeOk(states[|states| - 1])
  {
    TreeAt(w, rows, plan, states, |states| - 1);
  }

  lemma TreeAt(w: Setting, rows: seq<FileResult>, plan: P.Plan, states: seq<Fs>, i: nat)
    requires CleanRun(w, rows, plan, states) && i < |states|
    ensures TreeOk(states[i])
  {
    hide CleanRun, Clean, Planned, TreeOk, FoldOk, Stepped, EndCreates, EndDeletes, EndTeardowns;
    RunLength(w, rows, plan, states);
    if i > 0 {
      StepAt(w, rows, plan, states, i - 1);
      SteppedTree(w, plan, plan.Actions()[i - 1], states[i - 1], states[i]);
    }
  }

  lemma SteppedTree(w: Setting, plan: P.Plan, a: P.Action, was: Fs, now: Fs)
    requires Stepped(w, plan, a, was, now)
    ensures TreeOk(now)
  {
    hide TreeOk;
  }

  /** A shared directory without destination-only entries below it stays. */
  lemma SharedAtEnd(w: Setting, rows: seq<FileResult>, plan: P.Plan, states: seq<Fs>, e: Path)
    requires WholeRun(w, rows, plan, states) && e in w.env.source && w.env.source[e] == Dir && e in w.dest && w.dest[e] == Dir
    requires !SharedOverExtra(w, e)
    ensures e in states[|states| - 1] && states[|states| - 1][e] == Dir
  {
    hide CleanRun, Below;
    RunLength(w, rows, plan, states);
    assert Safe(w, e);
    SafeFrom(w, rows, plan, states, e, 0, |states| - 1);
  }

  /** Every source directory that is not doomed is there at the end. */
  lemma DirsAtEnd(w: Setting, rows: seq<FileResult>, plan: P.Plan, states: seq<Fs>, d: Path)
    requires WholeRun(w, rows, plan, states) && d in w.env.source && w.env.source[d] == Dir && !Doomed(w, d)
    ensures d in states[|states| - 1] && states[|states| - 1][d] == Dir
  {
    hide CleanRun, Below, SharedOverExtra, HasBelow;
    var e :| e in w.env.source && AtOrBelow(e, d) && !SharedOverExtra(w, e);
    if w.env.source[e] != Dir { FilesAtEnd(w, rows, plan, states, e); }
    else if e !in w.dest { MissingAtEnd(w, rows, plan, states, e); }
    else if w.dest[e] != Dir { CreatedAtEnd(w, rows, plan, states, e); }
    else { SharedAtEnd(w, rows, plan, states, e); }
    if e != d { AboveAtEnd(w, rows, plan, states, e, d); }
  }

  // --- convergence ---

  /** What is there at the end was on the source side, and is not doomed, unless it is a directory whose teardown did not
      go through. */
  lemma Leftover(w: Setting, rows: seq<FileResult>, plan: P.Plan, states: seq<Fs>, k: Path) returns (j: nat)
    requires WholeRun(w, rows, plan, states) && k in states[|states| - 1] && (k !in w.env.source || Doomed(w, k))
    ensures Vanishes(w, k) && states[|states| - 1][k] == Dir && j < |plan.Actions()| && plan.Actions()[j].op == P.DirDelete
    ensures w.env.fold(plan.Actions()[j].rel) == k && j < |states| - 1
    ensures !Justified(w, plan, plan.Actions()[j], states[j], states[j + 1])
  {
    hide CleanRun, Below, Sound, Planned, EndCreates, EndDeletes, EndTeardowns, SupportedLinks, SharedOverExtra, Justified;
    var n := |states| - 1;
    RunLength(w, rows, plan, states);
    KnownAt(w, rows, plan, states, n);
    Ends(plan);
    EndsInside(plan);
    if Doomed(w, k) { SharedIsDir(w, k); }
    if w.dest[k] != Dir {
      ExtrasGone(w, rows, plan, states, k, n);
      assert false;
    }
    DirOrDest(w, rows, plan, states, k, n);
    j := TeardownAt(w, rows, plan, k);
    hide P.Plan.Actions;
    if Justified(w, plan, plan.Actions()[j], states[j], states[j + 1]) {
      TornDownAfter(w, rows, plan, states, k, j, n);
      assert false;
    }
  }

  /** Where the destination had a directory and no file or link is written, there is a directory. */
  lemma {:induction false} DirOrDest(w: Setting, rows: seq<FileResult>, plan: P.Plan, states: seq<Fs>, k: Path, i: nat)
    requires CleanRun(w, rows, plan, states) && i < |states| && k in w.dest && w.dest[k] == Dir && k in states[i]
    requires k in w.env.source ==> w.env.source[k] == Dir
    ensures states[i][k] == Dir
  {
    hide CleanRun, Sound, Planned, Clean, Stepped, EndCreates, EndDeletes, EndTeardowns;
    RunLength(w, rows, plan, states);
    if i > 0 {
      StepAt(w, rows, plan, states, i - 1);
      if k in states[i - 1] { DirOrDest(w, rows, plan, states, k, i - 1); }
      StepDirStays(w, plan, plan.Actions()[i - 1], states[i - 1], states[i], k);
    }
  }

  lemma StepDirStays(w: Setting, plan: P.Plan, a: P.Action, was: Fs, now: Fs, k: Path)
    requires Stepped(w, plan, a, was, now) && k in now && (k in was ==> was[k] == Dir)
    requires k in w.env.source ==> w.env.source[k] == Dir
    ensures now[k] == Dir
  {
    hide TreeOk, Below, Same, Emptied;
  }

  lemma NothingElse(w: Setting, rows: seq<FileResult>, plan: P.Plan, states: seq<Fs>, k: Path)
    requires WholeRun(w, rows, plan, states) && Thorough(w, plan, states) && k in states[|states| - 1]
    ensures k in w.env.source && !Doomed(w, k)
  {
    hide WholeRun, Doomed, Justified, P.Plan.Actions;
    if k !in w.env.source || Doomed(w, k) { var j := Leftover(w, rows, plan, states, k); }
  }

  /** When every action of the plan was executed, none failed, and no teardown was stopped from outside, the destination
      holds exactly the source's entries, except for the doomed directories: shared directories of whose source content
      nothing is left but shared directories above destination-only entries. An entry that compared equal is as it was,
      any other is written as the source has it, links with their targets rebased. All of them compare equal, but for the
      links that are not carried over. */
  lemma Converges(w: Setting, rows: seq<FileResult>, plan: P.Plan, states: seq<Fs>, k: Path)
    requires WholeRun(w, rows, plan, states) && Thorough(w, plan, states)
    ensures |states| > 0
    ensures var end := states[|states| - 1];
            && (k in end <==> k in w.env.source && !Doomed(w, k))
            && (k in end ==> end[k] == Final(w, k) && (!w.env.source[k].Link? ==> Same(w, w.env.source[k], end[k])))
            && (k in end && Rooted(w.env) ==> (Same(w, w.env.source[k], end[k]) <==> Carried(w.env, w.env.source[k])))
  {
    hide CleanRun, Doomed, Planned, Thorough, Final, Same, Carried, Rooted, TreeOk, FoldOk;
    RunLength(w, rows, plan, states);
    if k in states[|states| - 1] { NothingElse(w, rows, plan, states, k); }
    if k in w.env.source && !Doomed(w, k) {
      if w.env.source[k] != Dir { FilesAtEnd(w, rows, plan, states, k); } else {
        DirsAtEnd(w, rows, plan, states, k);
        DirFinal(w, k);
      }
      FinalSame(w, k);
    }
  }

  lemma DirFinal(w: Setting, k: Path)
    requires k in w.env.source && w.env.source[k] == Dir
    ensures Final(w, k) == Dir
  {}

  /** Whatever stopped teardowns, a run without failure leaves every source file and link with every directory above it,
      and no file or link that only the destination had. */
  lemma FilesConverge(w: Setting, rows: seq<FileResult>, plan: P.Plan, states: seq<Fs>, k: Path)
    requires WholeRun(w, rows, plan, states)
    ensures |states| > 0
    ensures var end := states[|states| - 1];
            && (k in w.env.source && w.env.source[k] != Dir ==> k in end && end[k] == Final(w, k))
            && (k in w.env.source && w.env.source[k].File? ==> end[k] == w.env.source[k])
            && (k in w.env.source && w.env.source[k] != Dir && Rooted(w.env) ==>
                  (Same(w, w.env.source[k], end[k]) <==> Carried(w.env, w.env.source[k])))
            && (k in w.env.source && w.env.source[k] != Dir ==> forall p | Below(k, p) :: p in end && end[p] == Dir)
            && (k in end && end[k] != Dir ==> k in w.env.source)
  {
    hide CleanRun, Doomed, TreeOk, FoldOk, Planned, Same, Below, Justified, Vanishes, P.Plan.Actions, Final, Carried, Rooted;
    RunLength(w, rows, plan, states);
    if k in states[|states| - 1] && k !in w.env.source { var j := Leftover(w, rows, plan, states, k); }
    if k in w.env.source && w.env.source[k] != Dir {
      FilesAtEnd(w, rows, plan, states, k);
      FinalSame(w, k);
      if w.env.source[k].File? { FileFinal(w, k); }
      forall p | Below(k, p) ensures p in states[|states| - 1] && states[|states| - 1][p] == Dir {
        AboveAtEnd(w, rows, plan, states, k, p);
      }
    }
  }

  lemma FileFinal(w: Setting, k: Path)
    requires k in w.env.source && w.env.source[k].File?
    ensures Final(w, k) == w.env.source[k]
  {}

  /** A report without failure or cancellation promises directories too, except those whose teardown it lists as skipped;
      and such a teardown was stopped from outside. */
  lemma LeftoverReported(w: Setting, rows: seq<FileResult>, plan: P.Plan, states: seq<Fs>, r: Report, trouble: bool, k: Path)
    returns (j: nat)
    requires Planned(w, rows, plan) && Reported(w.env, plan.Actions(), Allowed(plan), states, r, trouble) && states[0] == w.dest
    requires r.failedCount == 0 && !r.cancelled
    requires k in states[|states| - 1] && (k !in w.env.source || Doomed(w, k))
    ensures trouble && Vanishes(w, k) && states[|states| - 1][k] == Dir
    ensures j < |r.items| && j < |plan.Actions()| && r.items[j] == Skip
    ensures plan.Actions()[j].op == P.DirDelete && w.env.fold(plan.Actions()[j].rel) == k
  {
    hide WholeRun, Doomed, Vanishes, Planned, Ran, Unexpected, Executed, Explained, Counted, P.Plan.Actions;
    ReportedClean(w, rows, plan, states, r, trouble);
    j := Leftover(w, rows, plan, states, k);
  }

  lemma FinalAgain(w: Setting, again: Setting, k: Path)
    requires again.env == w.env && k in w.env.source
    requires if k in again.dest then again.dest[k] == Final(w, k) else w.env.source[k] == Dir
    ensures Final(again, k) == Final(w, k)
  {
    hide ForCompare, Rebased;
  }

  /** A second comparison and run over the result leave the destination with exactly the source's entries. Only links
      that are not carried over compare different, and those are written again by every run. */
  lemma TwoRunsEqual(w: Setting, rows: seq<FileResult>, plan: P.Plan, states: seq<Fs>,
                     again: Setting, rows2: seq<FileResult>, plan2: P.Plan, states2: seq<Fs>, k: Path)
    requires WholeRun(w, rows, plan, states) && Thorough(w, plan, states)
    requires |states| > 0 && again == w.(dest := states[|states| - 1])
    requires WholeRun(again, rows2, plan2, states2) && Thorough(again, plan2, states2)
    ensures |states2| > 0
    ensures var end := states2[|states2| - 1];
            && (k in end <==> k in w.env.source)
            && (k in end ==> end[k] == Final(w, k) && (!w.env.source[k].Link? ==> Same(w, w.env.source[k], end[k])))
            && (k in end && Rooted(w.env) ==> (Same(w, w.env.source[k], end[k]) <==> Carried(w.env, w.env.source[k])))
  {
    hide WholeRun, Below, Thorough, Rooted, Carried, ForCompare, Rebased;
    Converges(w, rows, plan, states, k);
    Converges(again, rows2, plan2, states2, k);
    if k in w.env.source {
      if Doomed(w, k) { SharedIsDir(w, k); }
      FinalAgain(w, again, k);
    }
    if Doomed(again, k) {
      assert SharedOverExtra(again, k);
      var x :| x in again.dest && x !in w.env.source;
      NothingElse(w, rows, plan, states, x);
      assert false;
    }
  }
}
