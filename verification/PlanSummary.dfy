/** What the summary of a sync plan says, by the rows and by the actions of the plan. */
module PlanSummary {
  import opened Bytes
  import opened Results
  import opened Classify
  import opened RunResult
  import opened SyncTree
  import opened SyncPlan
  import SyncExecutor

  /** A side that is no link, or one that can be recreated. */
  predicate Plain(kind: ReparseKind) {
    kind == NotReparse || kind == SymlinkFile || kind == SymlinkDir || kind == Junction
  }

  /** The row gets actions: its path resolves, its status can be planned, and so can every side it has. */
  predicate Plannable(r: FileResult, resolves: bool) {
    && resolves
    && match r.status
       case Missing => Plain(r.srcReparseKind)
       case Extra => Plain(r.reparseKind)
       case SizeMismatch => Plain(r.srcReparseKind) && Plain(r.reparseKind)
       case ContentMismatch => Plain(r.srcReparseKind) && Plain(r.reparseKind)
       case ContentMismatchPartial => Plain(r.srcReparseKind) && Plain(r.reparseKind)
       case _ => false
  }

  /** The row asks for a file to be copied in full: the source has a plain file, and the destination nothing or something else. */
  ghost predicate WritesFile(r: FileResult) {
    Plannable(r, Resolves(r.relativePath)) && r.status != Extra && r.srcReparseKind == NotReparse && !r.srcIsDirectory
  }

  ghost function BytesAsked(rows: seq<FileResult>): nat {
    if rows == [] then 0 else
    var r := rows[|rows| - 1];
    BytesAsked(rows[..|rows| - 1]) + (if WritesFile(r) then r.sizeSource else 0)
  }

  ghost function PathsSkipped(rows: seq<FileResult>): seq<Path> {
    if rows == [] then [] else
    var r := rows[|rows| - 1];
    PathsSkipped(rows[..|rows| - 1]) + (if Plannable(r, Resolves(r.relativePath)) then [] else [r.relativePath])
  }

  /** The positions of the actions of one kind. */
  function With(actions: seq<Action>, op: SyncOp): set<int> {
    set i | 0 <= i < |actions| && actions[i].op == op
  }

  function BytesOf(actions: seq<Action>): nat {
    if actions == [] then 0 else
    var a := actions[|actions| - 1];
    BytesOf(actions[..|actions| - 1]) + (if a.op == FileCopy || a.op == FileReplace then a.bytes else 0)
  }

  // --- counters ---

  ghost predicate Counts(s: Summary, actions: seq<Action>) {
    && s.copyFiles == |With(actions, FileCopy)| && s.replaceFiles == |With(actions, FileReplace)|
    && s.deleteFiles == |With(actions, FileDelete)| && s.createDirs == |With(actions, DirCreate)|
    && s.deleteDirs == |With(actions, DirDelete)| && s.createLinks == |With(actions, LinkCreate)|
    && s.replaceLinks == |With(actions, LinkReplace)| && s.deleteLinks == |With(actions, LinkDelete)|
  }

  lemma WithOne(actions: seq<Action>, op: SyncOp)
    requires actions != []
    ensures var n := |actions| - 1;
            |With(actions, op)| == |With(actions[..n], op)| + (if actions[n].op == op then 1 else 0)
  {
    var n := |actions| - 1;
    var before, after := With(actions[..n], op), With(actions, op);
    forall i ensures i in after <==> i in before || (i == n && actions[n].op == op) {
      if 0 <= i < n { assert actions[..n][i] == actions[i]; }
    }
    hide With;
    assert n !in before;
    assert after == if actions[n].op == op then before + {n} else before;
  }

  lemma {:induction false} SummedMeans(actions: seq<Action>)
    ensures Counts(Summed(actions), actions) && Summed(actions).bytesToCopy == BytesOf(actions)
  {
    hide With;
    if actions == [] {
      forall op ensures With([], op) == {} { NoneWith(op); }
    } else {
      var n := |actions| - 1;
      SummedMeans(actions[..n]);
      forall op { WithOne(actions, op); }
      OneMore(Summed(actions[..n]), actions);
    }
  }

  lemma NoneWith(op: SyncOp)
    ensures With([], op) == {}
  {}

  lemma OneMore(s: Summary, actions: seq<Action>)
    requires actions != [] && Counts(s, actions[..|actions| - 1])
    ensures Counts(s.Plus(Counted(actions[|actions| - 1])), actions)
  {
    hide With;
    forall op { WithOne(actions, op); }
  }

  // --- bytes ---

  lemma {:induction false} BytesConcat(a: seq<Action>, b: seq<Action>)
    ensures BytesOf(a + b) == BytesOf(a) + BytesOf(b)
  {
    if b == [] {
      assert a + b == a;
    } else {
      var n := |b| - 1;
      assert (a + b)[..|a| + n] == a + b[..n];
      BytesConcat(a, b[..n]);
    }
  }

  lemma {:induction false} NoBytes(actions: seq<Action>)
    requires forall a <- actions :: a.op != FileCopy && a.op != FileReplace
    ensures BytesOf(actions) == 0
  {
    if actions != [] {
      assert actions[|actions| - 1] in actions;
      NoBytes(actions[..|actions| - 1]);
    }
  }

  /** Only the file writes of a draft carry bytes to copy. */
  ghost predicate Grouped(d: Draft) {
    && (forall a <- d.creates :: a.op == DirCreate) && (forall a <- d.deletes :: a.op == FileDelete || a.op == LinkDelete)
    && (forall a <- d.deleteDirs :: a.op == DirDelete) && (forall a <- d.linkWrites :: a.op == LinkCreate || a.op == LinkReplace)
  }

  lemma RowGrouped(fold: Path -> Path, r: FileResult)
    ensures Grouped(RowDraft(fold, r))
  {}

  /** What one row asks for. */
  lemma RowMeans(fold: Path -> Path, r: FileResult)
    requires Resolves(r.relativePath)
    ensures BytesOf(RowDraft(fold, r).fileWrites) == if WritesFile(r) then r.sizeSource else 0
    ensures RowDraft(fold, r).skipped == if Plannable(r, true) then [] else [r.relativePath]
  {
    hide Resolves;
  }

  lemma NotWritten(r: FileResult)
    requires !Resolves(r.relativePath)
    ensures !WritesFile(r)
  {
    hide Resolves;
  }

  lemma {:induction false} RowsMean(fold: Path -> Path, rows: seq<FileResult>)
    ensures var d := RowsDraft(fold, rows);
            Grouped(d) && BytesOf(d.fileWrites) == BytesAsked(rows) && d.skipped == PathsSkipped(rows)
  {
    hide Resolves, RowDraft, BytesOf, WritesFile;
    if rows == [] {
      NoBytes([]);
    } else {
      var n := |rows| - 1;
      RowsMean(fold, rows[..n]);
      RowGrouped(fold, rows[n]);
      if Resolves(rows[n].relativePath) {
        RowMeans(fold, rows[n]);
        BytesConcat(RowsDraft(fold, rows[..n]).fileWrites, RowDraft(fold, rows[n]).fileWrites);
      } else {
        NotWritten(rows[n]);
        NoBytes([]);
        BytesConcat(RowsDraft(fold, rows[..n]).fileWrites, []);
      }
    }
  }

  /** The summary of a compiled plan: every counter is the number of its actions, and the bytes are those of the source files
      of all rows that ask for a file to be written. Every other row is skipped by name. */
  lemma SummaryMeans(fold: Path -> Path, rows: seq<FileResult>, p: Plan)
    requires Compiles(fold, rows, p)
    ensures Counts(p.summary, p.Actions())
    ensures p.summary.bytesToCopy == BytesAsked(rows)
    ensures p.skipped == PathsSkipped(rows)
  {
    hide Counts, RowsDraft, Ordered, Scheduled, ScheduledKey, Summed, BytesOf;
    SummedMeans(p.Actions());
    RowsMean(fold, rows);
    NoBytes(p.createDirs);
    NoBytes(p.deletes);
    NoBytes(p.deleteDirs);
    NoBytes(p.linkWrites);
    BytesConcat(p.createDirs, p.deletes);
    BytesConcat(p.createDirs + p.deletes, p.deleteDirs);
    BytesConcat(p.createDirs + p.deletes + p.deleteDirs, p.fileWrites);
    BytesConcat(p.createDirs + p.deletes + p.deleteDirs + p.fileWrites, p.linkWrites);
  }

  /** The run of a compiled plan is blocked before it starts exactly when those rows ask for more than a known free space. */
  lemma BlockedMeans(fold: Path -> Path, rows: seq<FileResult>, p: Plan, free: nat)
    requires Compiles(fold, rows, p)
    ensures SyncExecutor.Blocked(p, free) <==> 0 < free < BytesAsked(rows)
  {
    hide Compiles, BytesAsked, Counts, PathsSkipped;
    SummaryMeans(fold, rows, p);
  }
}
