/** Compiling comparison rows into an ordered plan that makes the destination equal to the source. */
module SyncPlan {
  import opened Wrappers
  import opened Bytes
  import opened Results
  import opened Classify
  import opened RunResult
  import opened PathOrder
  import opened SyncTree
  import Lex

  datatype SyncOp = FileCopy | FileReplace | FileDelete | DirCreate | DirDelete | LinkCreate | LinkReplace | LinkDelete

  datatype Action = Action(op: SyncOp, rel: Path, isDirectory: bool, linkKind: ReparseKind, bytes: nat)

  /** One side of a row; bytes only for the source side. */
  datatype OneSide = OneSide(isDir: bool, kind: ReparseKind, bytes: nat)

  function MakeAction(op: SyncOp, rel: Path, s: OneSide): Action {
    Action(op, rel, s.isDir, s.kind, s.bytes)
  }

  // --- containment ---

  predicate IsSep(c: u8) {
    c == SEP || c == 0x2F
  }

  /** A component may be neither empty nor a dot name. */
  predicate ComponentOk(c: Path) {
    c != [] && c != [0x2E] && c != [0x2E, 0x2E]
  }

  /** ResolveWithinRoot gives a path: relative, no drive, no trailing separator, only proper components. */
  ghost predicate Resolves(rel: Path) {
    && rel != [] && !(|rel| >= 2 && rel[1] == 0x3A) && !IsSep(rel[0]) && !IsSep(rel[|rel| - 1])
    && forall i, j | 0 <= i <= j <= |rel| :: IsComponent(rel, i, j) ==> ComponentOk(rel[i..j])
  }

  /** rel[i..j] is a whole component. */
  ghost predicate IsComponent(rel: Path, i: nat, j: nat)
    requires i <= j <= |rel|
  {
    (i == 0 || IsSep(rel[i - 1])) && (j == |rel| || IsSep(rel[j])) && forall x | i <= x < j :: !IsSep(rel[x])
  }

  method ResolveWithinRoot(rel: Path) returns (ok: bool)
    ensures ok <==> Resolves(rel)
  {
    if rel == [] { return false; }
    if |rel| >= 2 && rel[1] == 0x3A { return false; }
    if IsSep(rel[0]) || IsSep(rel[|rel| - 1]) { return false; }
    var i := 0;
    while i < |rel|
      invariant 0 <= i <= |rel| + 1 && (0 < i <= |rel| ==> IsSep(rel[i - 1])) && i != |rel|
      invariant forall s, t | 0 <= s <= t <= |rel| && s < i :: IsComponent(rel, s, t) ==> ComponentOk(rel[s..t])
      decreases |rel| + 1 - i
    {
      var j := i;
      while j < |rel| && !IsSep(rel[j])
        invariant i <= j <= |rel| && forall x | i <= x < j :: !IsSep(rel[x])
      {
        j := j + 1;
      }
      assert IsComponent(rel, i, j);
      if !ComponentOk(rel[i..j]) { return false; }
      OnlyComponent(rel, i, j);
      i := j + 1;
    }
    ok := true;
  }

  lemma OnlyComponent(rel: Path, i: nat, j: nat)
    requires i <= j <= |rel| && IsComponent(rel, i, j)
    ensures forall s, t | 0 <= s <= t <= |rel| && i <= s <= j :: IsComponent(rel, s, t) ==> s == i && t == j
  {
    forall s, t | 0 <= s <= t <= |rel| && i <= s <= j && IsComponent(rel, s, t) ensures s == i && t == j {
      if s > i { assert false; }
      if t != j { assert false; }
    }
  }

  lemma ResolvesNameOk(rel: Path)
    requires Resolves(rel)
    ensures NameOk(rel)
  {
    forall i | 0 <= i < |rel| - 1 && rel[i] == SEP ensures rel[i + 1] != SEP {
      if rel[i + 1] == SEP {
        EmptyComponent(rel, i);
        assert false;
      }
    }
  }

  lemma EmptyComponent(rel: Path, i: nat)
    requires i < |rel| - 1 && IsSep(rel[i]) && IsSep(rel[i + 1])
    ensures !Resolves(rel)
  {
    assert IsComponent(rel, i + 1, i + 1) && rel[i + 1..i + 1] == [];
  }

  // --- what a row asks for ---

  datatype Draft = Draft(
    creates: seq<Action>, deletes: seq<Action>, deleteDirs: seq<Action>, fileWrites: seq<Action>, linkWrites: seq<Action>,
    skipped: seq<Path>, listed: seq<Path>)
  {
    function Add(o: Draft): Draft {
      Draft(creates + o.creates, deletes + o.deletes, deleteDirs + o.deleteDirs, fileWrites + o.fileWrites,
            linkWrites + o.linkWrites, skipped + o.skipped, listed + o.listed)
    }
  }

  const EMPTY: Draft := Draft([], [], [], [], [], [], [])

  predicate Unplannable(s: OneSide) {
    s.kind != NotReparse && !Supported(s.kind)
  }

  function SourceSide(r: FileResult): OneSide {
    OneSide(r.srcIsDirectory, r.srcReparseKind, r.sizeSource)
  }

  function DestSide(r: FileResult): OneSide {
    OneSide(r.dstIsDirectory, r.reparseKind, 0)
  }

  /** Writing the source side: a link is recreated, a directory is created, a file is copied. */
  function Write(rel: Path, src: OneSide, file: SyncOp, link: SyncOp): Draft {
    if src.kind != NotReparse then EMPTY.(linkWrites := [MakeAction(link, rel, src)])
    else if src.isDir then EMPTY.(creates := [MakeAction(DirCreate, rel, src)])
    else EMPTY.(fileWrites := [MakeAction(file, rel, src)])
  }

  /** Removing the destination side. */
  function Remove(rel: Path, dst: OneSide): Draft {
    if dst.kind != NotReparse then EMPTY.(deletes := [MakeAction(LinkDelete, rel, dst)])
    else if dst.isDir then EMPTY.(deleteDirs := [MakeAction(DirDelete, rel, dst)])
    else EMPTY.(deletes := [MakeAction(FileDelete, rel, dst)])
  }

  predicate IsMismatch(s: Status) {
    s == SizeMismatch || s == ContentMismatch || s == ContentMismatchPartial
  }

  /** The actions of one row. A directory in the way of a file or link is torn down first; files and links in the way
      are given up by the writes themselves. */
  function RowDraft(fold: Path -> Path, r: FileResult): Draft {
    var rel, src, dst := r.relativePath, SourceSide(r), DestSide(r);
    if r.status == Missing then
      if Unplannable(src) then EMPTY.(skipped := [rel]) else Write(rel, src, FileCopy, LinkCreate)
    else if r.status == Extra then
      if Unplannable(dst) then EMPTY.(skipped := [rel]) else Remove(rel, dst).(listed := [fold(rel)])
    else if IsMismatch(r.status) then
      if Unplannable(src) || Unplannable(dst) then EMPTY.(skipped := [rel])
      else
        var inTheWay := dst.kind == NotReparse && dst.isDir && (src.kind != NotReparse || !src.isDir);
        var clear := if inTheWay then [MakeAction(DirDelete, rel, dst)] else [];
        Write(rel, src, FileReplace, LinkReplace).(deleteDirs := clear)
    else EMPTY.(skipped := [rel])
  }

  ghost function RowsDraft(fold: Path -> Path, rows: seq<FileResult>): Draft {
    if rows == [] then EMPTY else
    var r := rows[|rows| - 1];
    RowsDraft(fold, rows[..|rows| - 1]).Add(if Resolves(r.relativePath) then RowDraft(fold, r) else EMPTY.(skipped := [r.relativePath]))
  }

  // --- the summary ---

  datatype Summary = Summary(
    copyFiles: nat, replaceFiles: nat, deleteFiles: nat, createDirs: nat, deleteDirs: nat,
    createLinks: nat, replaceLinks: nat, deleteLinks: nat, bytesToCopy: nat)
  {
    function Plus(o: Summary): Summary {
      Summary(copyFiles + o.copyFiles, replaceFiles + o.replaceFiles, deleteFiles + o.deleteFiles, createDirs + o.createDirs,
              deleteDirs + o.deleteDirs, createLinks + o.createLinks, replaceLinks + o.replaceLinks,
              deleteLinks + o.deleteLinks, bytesToCopy + o.bytesToCopy)
    }
  }

  const NO_SUMMARY: Summary := Summary(0, 0, 0, 0, 0, 0, 0, 0, 0)

  /** What one action adds to the summary. */
  function Counted(a: Action): Summary {
    match a.op
    case FileCopy => NO_SUMMARY.(copyFiles := 1, bytesToCopy := a.bytes)
    case FileReplace => NO_SUMMARY.(replaceFiles := 1, bytesToCopy := a.bytes)
    case FileDelete => NO_SUMMARY.(deleteFiles := 1)
    case DirCreate => NO_SUMMARY.(createDirs := 1)
    case DirDelete => NO_SUMMARY.(deleteDirs := 1)
    case LinkCreate => NO_SUMMARY.(createLinks := 1)
    case LinkReplace => NO_SUMMARY.(replaceLinks := 1)
    case LinkDelete => NO_SUMMARY.(deleteLinks := 1)
  }

  function Summed(actions: seq<Action>): Summary {
    if actions == [] then NO_SUMMARY else
    var n := |actions| - 1;
    Summed(actions[..n]).Plus(Counted(actions[n]))
  }

  lemma {:induction false} SummedConcat(a: seq<Action>, b: seq<Action>)
    ensures Summed(a + b) == Summed(a).Plus(Summed(b))
  {
    hide Counted;
    if b == [] {
      assert a + b == a;
    } else {
      var n := |b| - 1;
      assert (a + b)[..|a| + n] == a + b[..n];
      SummedConcat(a, b[..n]);
    }
  }

  function SummaryOf(d: Draft): Summary {
    Summed(d.creates).Plus(Summed(d.deletes)).Plus(Summed(d.deleteDirs)).Plus(Summed(d.fileWrites)).Plus(Summed(d.linkWrites))
  }

  /** Wherever an action is pushed, the summary of the groups grows by its own counters. */
  lemma SummaryPush(d: Draft, a: Action)
    ensures SummaryOf(d.Add(Single(a))) == SummaryOf(d).Plus(Counted(a))
  {
    hide Counted, Summed;
    forall s: seq<Action> ensures Summed(s + [a]) == Summed(s).Plus(Counted(a)) && s + [] == s { SummedOne(s, a); }
  }

  lemma SummedOne(s: seq<Action>, a: Action)
    ensures Summed(s + [a]) == Summed(s).Plus(Counted(a))
  {
    hide Counted, Summary.Plus;
    assert (s + [a])[..|s|] == s;
  }

  lemma EmptySummary()
    ensures SummaryOf(EMPTY) == NO_SUMMARY
  {
    hide Summary.Plus;
    assert Summed([]) == NO_SUMMARY;
    NothingPlus(NO_SUMMARY);
  }

  lemma NothingPlus(s: Summary)
    ensures s.Plus(NO_SUMMARY) == s
  {}

  /** The group an action belongs to. */
  function Single(a: Action): Draft {
    match a.op
    case DirCreate => EMPTY.(creates := [a])
    case FileDelete => EMPTY.(deletes := [a])
    case LinkDelete => EMPTY.(deletes := [a])
    case DirDelete => EMPTY.(deleteDirs := [a])
    case FileCopy => EMPTY.(fileWrites := [a])
    case FileReplace => EMPTY.(fileWrites := [a])
    case LinkCreate => EMPTY.(linkWrites := [a])
    case LinkReplace => EMPTY.(linkWrites := [a])
  }

  // --- building the groups ---

  /** The groups as they are filled, with the summary kept alongside. */
  class Planner {
    const fold: Path -> Path
    var createDirs: seq<Action>
    var deletes: seq<Action>
    var deleteDirs: seq<Action>
    var fileWrites: seq<Action>
    var linkWrites: seq<Action>
    var skipped: seq<Path>
    var extraFoldedRels: seq<Path>
    var summary: Summary
    /** Ancestors of extra entries, and the folded paths of all other rows. */
    var dirAncestors: seq<Path>
    var nonExtraRels: seq<Path>

    ghost function Now(): Draft
      reads this
    {
      Draft(createDirs, deletes, deleteDirs, fileWrites, linkWrites, skipped, extraFoldedRels)
    }

    ghost predicate Valid()
      reads this
    {
      summary == SummaryOf(Now())
    }

    constructor (fold: Path -> Path)
      ensures Valid() && Now() == EMPTY && this.fold == fold && dirAncestors == [] && nonExtraRels == []
    {
      this.fold := fold;
      createDirs, deletes, deleteDirs, fileWrites, linkWrites := [], [], [], [], [];
      skipped, extraFoldedRels, summary := [], [], NO_SUMMARY;
      dirAncestors, nonExtraRels := [], [];
      new;
      hide Summary.Plus, Summed;
      EmptySummary();
    }

    ghost function Rest(): (seq<Path>, seq<Path>)
      reads this
    {
      (dirAncestors, nonExtraRels)
    }

    method Tally(a: Action)
      modifies this`summary
      ensures summary == old(summary).Plus(Counted(a))
    {
      match a.op
      case FileCopy => summary := summary.(copyFiles := summary.copyFiles + 1, bytesToCopy := summary.bytesToCopy + a.bytes);
      case FileReplace => summary := summary.(replaceFiles := summary.replaceFiles + 1, bytesToCopy := summary.bytesToCopy + a.bytes);
      case FileDelete => summary := summary.(deleteFiles := summary.deleteFiles + 1);
      case DirCreate => summary := summary.(createDirs := summary.createDirs + 1);
      case DirDelete => summary := summary.(deleteDirs := summary.deleteDirs + 1);
      case LinkCreate => summary := summary.(createLinks := summary.createLinks + 1);
      case LinkReplace => summary := summary.(replaceLinks := summary.replaceLinks + 1);
      case LinkDelete => summary := summary.(deleteLinks := summary.deleteLinks + 1);
    }

    /** The tally and the push that every action goes through. */
    method Push(a: Action)
      requires Valid()
      modifies this
      ensures Valid() && Now() == old(Now()).Add(Single(a)) && Rest() == old(Rest())
    {
      hide Counted, Summary.Plus, SummaryOf;
      SummaryPush(Now(), a);
      Tally(a);
      match a.op {
        case DirCreate => createDirs := createDirs + [a];
        case FileDelete => deletes := deletes + [a];
        case LinkDelete => deletes := deletes + [a];
        case DirDelete => deleteDirs := deleteDirs + [a];
        case FileCopy => fileWrites := fileWrites + [a];
        case FileReplace => fileWrites := fileWrites + [a];
        case LinkCreate => linkWrites := linkWrites + [a];
        case LinkReplace => linkWrites := linkWrites + [a];
      }
      assert Now() == old(Now()).Add(Single(a));
    }

    method Skip(rel: Path)
      requires Valid()
      modifies this`skipped
      ensures Valid() && Now() == old(Now()).Add(EMPTY.(skipped := [rel]))
    {
      hide Summary.Plus, Summed;
      skipped := skipped + [rel];
    }

    /** The path becomes deletable by the guarded teardown. */
    method List(rel: Path)
      requires Valid()
      modifies this`extraFoldedRels
      ensures Valid() && Now() == old(Now()).Add(EMPTY.(listed := [fold(rel)]))
    {
      hide Summary.Plus, Summed;
      extraFoldedRels := extraFoldedRels + [fold(rel)];
    }

    /** The source side exists, the destination side is absent. */
    method AppendMissingLike(rel: Path, src: OneSide)
      requires Valid()
      modifies this
      ensures Rest() == old(Rest())
      ensures Valid() && Now() == old(Now()).Add(
                           if Unplannable(src) then EMPTY.(skipped := [rel]) else Write(rel, src, FileCopy, LinkCreate))
    {
      hide Valid;
      if !Supported(src.kind) && src.kind != NotReparse {
        Skip(rel);
        return;
      }
      if src.kind != NotReparse { Push(MakeAction(LinkCreate, rel, src)); }
      else if src.isDir { Push(MakeAction(DirCreate, rel, src)); }
      else { Push(MakeAction(FileCopy, rel, src)); }
    }

    /** The destination side exists, the source side is absent: it becomes deletable. */
    method AppendExtraLike(rel: Path, dst: OneSide)
      requires Valid() && NameOk(rel)
      modifies this
      ensures nonExtraRels == old(nonExtraRels)
      ensures forall d :: d in dirAncestors <==> d in old(dirAncestors) || (!Unplannable(dst) && IsAncestor(d, rel))
      ensures Valid() && Now() == old(Now()).Add(
                           if Unplannable(dst) then EMPTY.(skipped := [rel]) else Remove(rel, dst).(listed := [fold(rel)]))
    {
      hide Valid;
      if !Supported(dst.kind) && dst.kind != NotReparse {
        Skip(rel);
        return;
      }
      List(rel);
      if dst.kind != NotReparse { Push(MakeAction(LinkDelete, rel, dst)); }
      else if dst.isDir { Push(MakeAction(DirDelete, rel, dst)); }
      else { Push(MakeAction(FileDelete, rel, dst)); }
      var dirs := AncestorsOf(rel);
      AddAncestors(dirs);
    }

    method AddAncestors(dirs: seq<Path>)
      requires Valid()
      modifies this`dirAncestors
      ensures Valid() && Now() == old(Now()) && dirAncestors == old(dirAncestors) + dirs
    {
      hide SummaryOf;
      dirAncestors := dirAncestors + dirs;
    }

    /** Both sides exist and differ: the source side decides what is written. */
    method AppendMismatchReplace(rel: Path, src: OneSide, dst: OneSide)
      requires Valid()
      modifies this
      ensures Rest() == old(Rest())
      ensures Valid() && Now() == old(Now()).Add(
                           if Unplannable(src) || Unplannable(dst) then EMPTY.(skipped := [rel])
                           else
                             var inTheWay := dst.kind == NotReparse && dst.isDir && (src.kind != NotReparse || !src.isDir);
                             var clear := if inTheWay then [MakeAction(DirDelete, rel, dst)] else [];
                             Write(rel, src, FileReplace, LinkReplace).(deleteDirs := clear))
    {
      hide Valid;
      if !Supported(src.kind) && src.kind != NotReparse {
        Skip(rel);
        return;
      }
      if !Supported(dst.kind) && dst.kind != NotReparse {
        Skip(rel);
        return;
      }
      var srcLink, dstLink := src.kind != NotReparse, dst.kind != NotReparse;
      if srcLink {
        if !dstLink && dst.isDir { Push(MakeAction(DirDelete, rel, dst)); }
        Push(MakeAction(LinkReplace, rel, src));
        return;
      }
      if src.isDir {
        Push(MakeAction(DirCreate, rel, src));
        return;
      }
      if !dstLink && dst.isDir { Push(MakeAction(DirDelete, rel, dst)); }
      Push(MakeAction(FileReplace, rel, src));
    }

    /** One row of the comparison. */
    method OnRow(r: FileResult)
      requires Valid()
      modifies this
      ensures Valid()
      ensures Now() == old(Now()).Add(
                         if Resolves(r.relativePath) then RowDraft(fold, r) else EMPTY.(skipped := [r.relativePath]))
      ensures nonExtraRels == old(nonExtraRels) + (if Claims(r) then [fold(r.relativePath)] else [])
      ensures forall d :: d in dirAncestors <==> d in old(dirAncestors) || AncestorOfExtra(d, r)
    {
      hide Valid, Write, Remove, Draft.Add, IsAncestor;
      var inside := ResolveWithinRoot(r.relativePath);
      if !inside {
        Skip(r.relativePath);
        return;
      }
      ResolvesNameOk(r.relativePath);
      if r.status != Extra { Claim(r.relativePath); }
      match r.status
      case Missing => AppendMissingLike(r.relativePath, SourceSide(r));
      case Extra => AppendExtraLike(r.relativePath, DestSide(r));
      case SizeMismatch => AppendMismatchReplace(r.relativePath, SourceSide(r), DestSide(r));
      case ContentMismatch => AppendMismatchReplace(r.relativePath, SourceSide(r), DestSide(r));
      case ContentMismatchPartial => AppendMismatchReplace(r.relativePath, SourceSide(r), DestSide(r));
      case _ => Skip(r.relativePath);
    }

    /** The draft of the rows, with the scheduled ones among some candidates added. */
    ghost predicate Extended(rows: seq<FileResult>, candidates: seq<Action>)
      reads this
    {
      var d := RowsDraft(fold, rows);
      && Now() == d.(deleteDirs := deleteDirs, listed := extraFoldedRels)
      && (forall a :: a in deleteDirs <==> a in d.deleteDirs || (a in candidates && Scheduled(fold, rows, a.rel)))
      && (forall k :: k in extraFoldedRels <==> k in d.listed || ScheduledIn(fold, rows, candidates, k))
    }

    /** The loop over the ancestors of extra entries. */
    method ScheduleAncestors(rows: seq<FileResult>) returns (ghost candidates: seq<Action>)
      requires Valid() && Now() == RowsDraft(fold, rows) && Gathered(fold, rows, dirAncestors, nonExtraRels)
      modifies this
      ensures Valid() && Extended(rows, candidates)
      ensures forall a :: a in candidates <==> AboveExtra(rows, a.rel) && a == ScheduledAction(a.rel)
    {
      hide Valid, Extended, RowsDraft, Scheduled, AboveExtra, Claims;
      var claims := SortUnique(nonExtraRels);
      var todo := Candidates(rows);
      candidates := todo;
      ExtendedStart(rows);
      assert todo[..0] == [];
      for i := 0 to |todo|
        invariant Valid() && Extended(rows, todo[..i])
      {
        assert todo[i] in todo;
        Decide(rows, todo, i, claims);
      }
      assert todo[..|todo|] == todo;
    }

    method Candidates(rows: seq<FileResult>) returns (todo: seq<Action>)
      requires Gathered(fold, rows, dirAncestors, nonExtraRels)
      ensures forall a :: a in todo <==> AboveExtra(rows, a.rel) && a == ScheduledAction(a.rel)
    {
      hide AboveExtra, Claims;
      var dirs := SortUnique(dirAncestors);
      todo := CandidatesOf(dirs);
      todo := SortByLength(todo, true);
    }

    /** One candidate: torn down unless the source side claims it or it is scheduled already. */
    method Decide(rows: seq<FileResult>, todo: seq<Action>, i: nat, claims: seq<Path>)
      requires Valid() && i < |todo| && Extended(rows, todo[..i]) && Sorted(claims)
      requires AboveExtra(rows, todo[i].rel) && forall a <- todo :: a == ScheduledAction(a.rel)
      requires forall k :: k in claims <==> exists r <- rows :: Claims(r) && fold(r.relativePath) == k
      modifies this
      ensures Valid() && Extended(rows, todo[..i + 1])
    {
      hide Valid, RowsDraft, Scheduled, AboveExtra, Claims, ScheduledIn, Claimed, Sorted;
      var dir := todo[i].rel;
      var claimed := IsClaimedBySource(claims, fold(dir));
      ClaimedMeans(fold, rows, claims, dir, claimed);
      var known := Knows(dir);
      ExtendedStep(rows, todo, i, known, claimed);
      if !claimed && !known {
        Push(ScheduledAction(dir));
        List(dir);
      }
    }

    lemma ExtendedStart(rows: seq<FileResult>)
      requires Now() == RowsDraft(fold, rows)
      ensures Extended(rows, [])
    {
      hide RowsDraft, Scheduled;
    }

    /** Deciding one more candidate: it is scheduled exactly when it is pushed or was there already. */
    lemma ExtendedStep(rows: seq<FileResult>, todo: seq<Action>, i: nat, known: bool, claimed: bool)
      requires i < |todo| && Extended(rows, todo[..i]) && AboveExtra(rows, todo[i].rel)
      requires forall a <- todo :: a == ScheduledAction(a.rel)
      requires known <==> exists a <- deleteDirs :: a.rel == todo[i].rel
      requires claimed <==> Claimed(fold, rows, fold(todo[i].rel))
      ensures var c, pushed := todo[i], !claimed && !known;
              var d, dd := RowsDraft(fold, rows), if pushed then deleteDirs + [c] else deleteDirs;
              var ll := if pushed then extraFoldedRels + [fold(c.rel)] else extraFoldedRels;
              && (forall a :: a in dd <==> a in d.deleteDirs || (a in todo[..i + 1] && Scheduled(fold, rows, a.rel)))
              && (forall k :: k in ll <==> k in d.listed || ScheduledIn(fold, rows, todo[..i + 1], k))
    {
      hide RowsDraft, AboveExtra, Claimed;
      assert todo[..i + 1] == todo[..i] + [todo[i]];
      assert todo[i] in todo;
    }

    /** The final sorts and the concatenation of the groups. */
    method Emit(rows: seq<FileResult>, ghost candidates: seq<Action>) returns (plan: Plan)
      requires Valid() && Extended(rows, candidates)
      requires forall a :: a in candidates <==> AboveExtra(rows, a.rel) && a == ScheduledAction(a.rel)
      ensures Compiles(fold, rows, plan)
    {
      hide RowsDraft, AboveExtra, Summed, Counted, Summary.Plus, Claimed, Ordered;
      var creates := SortByLength(createDirs, false);
      var dirs := SortByLength(deleteDirs, true);
      plan := Plan(creates, deletes, dirs, fileWrites, linkWrites, summary, skipped, extraFoldedRels);
      SummedAll(plan);
      ListedMeans(rows, candidates);
    }

    lemma ListedMeans(rows: seq<FileResult>, candidates: seq<Action>)
      requires forall a :: a in candidates <==> AboveExtra(rows, a.rel) && a == ScheduledAction(a.rel)
      ensures forall k :: ScheduledIn(fold, rows, candidates, k) <==> ScheduledKey(fold, rows, k)
    {
      hide RowsDraft, AboveExtra, Claimed;
      forall k ensures ScheduledIn(fold, rows, candidates, k) <==> ScheduledKey(fold, rows, k) {
        if ScheduledKey(fold, rows, k) {
          var x :| Scheduled(fold, rows, x) && fold(x) == k;
          assert ScheduledAction(x) in candidates && ScheduledAction(x).rel == x;
        }
      }
    }

    method Knows(dir: Path) returns (known: bool)
      ensures known <==> exists a <- deleteDirs :: a.rel == dir
    {
      for j := 0 to |deleteDirs|
        invariant forall x | 0 <= x < j :: deleteDirs[x].rel != dir
      {
        if deleteDirs[j].rel == dir { return true; }
      }
      known := false;
    }

    method Claim(rel: Path)
      requires Valid()
      modifies this`nonExtraRels
      ensures Valid() && Now() == old(Now()) && nonExtraRels == old(nonExtraRels) + [fold(rel)]
    {
      hide SummaryOf;
      nonExtraRels := nonExtraRels + [fold(rel)];
    }
  }

  /** A row that the source side claims its path with. */
  ghost predicate Claims(r: FileResult) {
    Resolves(r.relativePath) && r.status != Extra
  }

  ghost predicate AncestorOfExtra(d: Path, r: FileResult) {
    Resolves(r.relativePath) && r.status == Extra && !Unplannable(DestSide(r)) && IsAncestor(d, r.relativePath)
  }

  // --- ancestors of extra entries ---

  /** dir is a proper ancestor of rel. */
  predicate IsAncestor(dir: Path, rel: Path) {
    dir != [] && Below(rel, dir)
  }

  /** The prefixes of a path before each of its separators. */
  method AncestorsOf(rel: Path) returns (dirs: seq<Path>)
    requires NameOk(rel)
    ensures forall d :: d in dirs <==> IsAncestor(d, rel)
  {
    dirs := [];
    hide NameOk;
    for pos := 0 to |rel|
      invariant forall d :: d in dirs <==> |d| < pos && IsAncestor(d, rel)
    {
      hide Below;
      forall d: Path | |d| == pos { BelowMeans(rel, d); }
      if rel[pos] == SEP {
        FirstIsName(rel, pos);
        BelowMeans(rel, rel[..pos]);
        dirs := dirs + [rel[..pos]];
      }
    }
    forall d: Path { BelowMeans(rel, d); }
  }

  lemma FirstIsName(rel: Path, pos: nat)
    requires NameOk(rel) && pos < |rel| && rel[pos] == SEP
    ensures pos > 0
  {}

  /** A sorted list contains the directory or a path below it. */
  method IsClaimedBySource(sortedNonExtra: seq<Path>, dir: Path) returns (claimed: bool)
    requires Sorted(sortedNonExtra)
    ensures claimed <==> exists r <- sortedNonExtra :: AtOrBelow(r, dir)
  {
    hide Lex.Less, Below;
    var at := LowerBound(sortedNonExtra, dir);
    if at < |sortedNonExtra| && sortedNonExtra[at] == dir {
      assert AtOrBelow(sortedNonExtra[at], dir);
      return true;
    }
    forall i | 0 <= i < |sortedNonExtra| ensures sortedNonExtra[i] != dir {
      if sortedNonExtra[i] == dir {
        Lex.Irreflexive(dir);
        if at < |sortedNonExtra| { Lex.Trichotomy(sortedNonExtra[at], dir); }
        assert false;
      }
    }
    claimed := HasDescendant(sortedNonExtra, dir);
    if claimed {
      var i :| 0 <= i < |sortedNonExtra| && Below(sortedNonExtra[i], dir);
      assert AtOrBelow(sortedNonExtra[i], dir);
    } else {
      forall r | r in sortedNonExtra ensures !AtOrBelow(r, dir) {
        var i :| 0 <= i < |sortedNonExtra| && sortedNonExtra[i] == r;
      }
    }
  }

  /** std::sort and std::unique. */
  method SortUnique(paths: seq<Path>) returns (r: seq<Path>)
    ensures Sorted(r) && (forall k :: k in r <==> k in paths)
    ensures forall i, j | 0 <= i < j < |r| :: r[i] != r[j]
  {
    hide Lex.Less;
    var sorted := SortKeys(paths);
    SameElements(sorted, paths);
    r := [];
    for i := 0 to |sorted|
      invariant forall k :: k in r <==> k in sorted[..i]
      invariant forall x, y | 0 <= x < y < |r| :: r[x] != r[y]
      invariant forall x, y | 0 <= x < y < |r| :: !Lex.Less(r[y], r[x])
      invariant r != [] ==> i > 0 && r[|r| - 1] == sorted[i - 1]
      invariant r == [] ==> i == 0
    {
      assert sorted[..i + 1] == sorted[..i] + [sorted[i]];
      if r == [] || r[|r| - 1] != sorted[i] {
        forall x | 0 <= x < |r| ensures !Lex.Less(sorted[i], r[x]) && r[x] != sorted[i] {
          assert r[x] in sorted[..i];
          var y :| 0 <= y < i && sorted[y] == r[x];
          if r[x] == sorted[i] {
            Between(sorted, y, i - 1, i);
            assert false;
          }
        }
        r := r + [sorted[i]];
      }
    }
    assert sorted[..|sorted|] == sorted;
  }

  /** Equal ends enclose equal elements. */
  lemma Between(sorted: seq<Path>, y: nat, m: nat, i: nat)
    requires Sorted(sorted) && y <= m < i < |sorted| && sorted[y] == sorted[i]
    ensures sorted[m] == sorted[i]
  {
    hide Lex.Less;
    Lex.Trichotomy(sorted[m], sorted[i]);
  }

  lemma SameElements(a: seq<Path>, b: seq<Path>)
    requires multiset(a) == multiset(b)
    ensures forall k :: k in a <==> k in b
  {
    forall k ensures k in a <==> k in b { assert k in a <==> k in multiset(a); assert k in b <==> k in multiset(b); }
  }

  // --- ordering by length ---

  function SortKey(a: Action, deepFirst: bool): int {
    if deepFirst then -|a.rel| else |a.rel|
  }

  ghost predicate Ordered(actions: seq<Action>, deepFirst: bool) {
    forall i, j | 0 <= i < j < |actions| :: SortKey(actions[i], deepFirst) <= SortKey(actions[j], deepFirst)
  }

  /** std::sort by path length, as an insertion sort. */
  method SortByLength(actions: seq<Action>, deepFirst: bool) returns (r: seq<Action>)
    ensures Ordered(r, deepFirst) && (forall a :: a in r <==> a in actions) && Summed(r) == Summed(actions)
  {
    hide Summed, SortKey;
    r := [];
    assert actions[..0] == [];
    for i := 0 to |actions|
      invariant Ordered(r, deepFirst) && (forall a :: a in r <==> a in actions[..i]) && Summed(r) == Summed(actions[..i])
    {
      var a := actions[i];
      assert actions[..i + 1] == actions[..i] + [a];
      SummedOne(actions[..i], a);
      var at := |r|;
      while at > 0 && SortKey(r[at - 1], deepFirst) > SortKey(a, deepFirst)
        invariant 0 <= at <= |r|
        invariant forall j | at <= j < |r| :: SortKey(r[j], deepFirst) > SortKey(a, deepFirst)
      {
        at := at - 1;
      }
      InsertOrdered(r, a, at, deepFirst);
      SummedInsert(r, a, at);
      r := r[..at] + [a] + r[at..];
    }
    assert actions[..|actions|] == actions;
  }

  lemma InsertOrdered(r: seq<Action>, a: Action, at: nat, deepFirst: bool)
    requires at <= |r| && Ordered(r, deepFirst)
    requires at > 0 ==> SortKey(r[at - 1], deepFirst) <= SortKey(a, deepFirst)
    requires forall j | at <= j < |r| :: SortKey(r[j], deepFirst) > SortKey(a, deepFirst)
    ensures Ordered(r[..at] + [a] + r[at..], deepFirst)
    ensures forall x :: x in r[..at] + [a] + r[at..] <==> x in r || x == a
  {
    hide SortKey;
    var s := r[..at] + [a] + r[at..];
    forall i, j | 0 <= i < j < |s| ensures SortKey(s[i], deepFirst) <= SortKey(s[j], deepFirst) {
      if j < at { assert s[i] == r[i] && s[j] == r[j]; }
      else if j == at { assert s[i] == r[i]; }
      else {
        assert s[j] == r[j - 1];
        if i < at { assert s[i] == r[i]; } else if i > at { assert s[i] == r[i - 1]; }
      }
    }
    assert r == r[..at] + r[at..];
  }

  lemma SummedInsert(r: seq<Action>, a: Action, at: nat)
    requires at <= |r|
    ensures Summed(r[..at] + [a] + r[at..]) == Summed(r).Plus(Counted(a))
  {
    hide Counted, Summed;
    SummedConcat(r[..at] + [a], r[at..]);
    SummedOne(r[..at], a);
    SummedConcat(r[..at], r[at..]);
    assert r == r[..at] + r[at..];
  }

  // --- the plan ---

  datatype Plan = Plan(
    createDirs: seq<Action>, deletes: seq<Action>, deleteDirs: seq<Action>, fileWrites: seq<Action>, linkWrites: seq<Action>,
    summary: Summary, skipped: seq<Path>, extraFoldedRels: seq<Path>)
  {
    /** The actions in execution order. */
    function Actions(): seq<Action> {
      createDirs + deletes + deleteDirs + fileWrites + linkWrites
    }
  }

  /** A path of the source side is at or below the directory. */
  ghost predicate Claimed(fold: Path -> Path, rows: seq<FileResult>, dir: Path) {
    exists r <- rows :: Claims(r) && AtOrBelow(fold(r.relativePath), dir)
  }

  ghost predicate AboveExtra(rows: seq<FileResult>, d: Path) {
    exists r <- rows :: AncestorOfExtra(d, r)
  }

  function ScheduledAction(d: Path): Action {
    Action(DirDelete, d, true, NotReparse, 0)
  }

  /** The ancestors of extra entries that are torn down too: those that the source side does not claim and that no row
      schedules already. */
  ghost predicate Scheduled(fold: Path -> Path, rows: seq<FileResult>, d: Path) {
    && AboveExtra(rows, d) && !Claimed(fold, rows, fold(d))
    && !(exists a <- RowsDraft(fold, rows).deleteDirs :: a.rel == d)
  }

  ghost predicate ScheduledKey(fold: Path -> Path, rows: seq<FileResult>, k: Path) {
    exists x :: Scheduled(fold, rows, x) && fold(x) == k
  }

  ghost predicate ScheduledIn(fold: Path -> Path, rows: seq<FileResult>, candidates: seq<Action>, k: Path) {
    exists a <- candidates :: Scheduled(fold, rows, a.rel) && fold(a.rel) == k
  }

  ghost predicate Compiles(fold: Path -> Path, rows: seq<FileResult>, p: Plan) {
    var d := RowsDraft(fold, rows);
    && (forall a :: a in p.createDirs <==> a in d.creates) && Ordered(p.createDirs, false)
    && p.deletes == d.deletes && p.fileWrites == d.fileWrites && p.linkWrites == d.linkWrites && p.skipped == d.skipped
    && (forall a :: a in p.deleteDirs <==> a in d.deleteDirs || (Scheduled(fold, rows, a.rel) && a == ScheduledAction(a.rel)))
    && Ordered(p.deleteDirs, true)
    && (forall k :: k in p.extraFoldedRels <==> k in d.listed || ScheduledKey(fold, rows, k))
    && p.summary == Summed(p.Actions())
  }

  ghost predicate Gathered(fold: Path -> Path, rows: seq<FileResult>, ancestors: seq<Path>, nonExtra: seq<Path>) {
    && (forall d :: d in ancestors <==> AboveExtra(rows, d))
    && (forall k :: k in nonExtra <==> exists r <- rows :: Claims(r) && fold(r.relativePath) == k)
  }

  lemma GatheredStep(fold: Path -> Path, rows: seq<FileResult>, r: FileResult, anc: seq<Path>, non: seq<Path>, anc': seq<Path>, non': seq<Path>)
    requires Gathered(fold, rows, anc, non)
    requires forall d :: d in anc' <==> d in anc || AncestorOfExtra(d, r)
    requires non' == non + (if Claims(r) then [fold(r.relativePath)] else [])
    ensures Gathered(fold, rows + [r], anc', non')
  {
    hide AncestorOfExtra, Claims;
    forall d ensures d in anc' <==> AboveExtra(rows + [r], d) {
      if AboveExtra(rows + [r], d) { var x :| x in rows + [r] && AncestorOfExtra(d, x); assert x in rows || x == r; }
      if d in anc { var x :| x in rows && AncestorOfExtra(d, x); assert x in rows + [r]; }
      if AncestorOfExtra(d, r) { assert r in rows + [r]; }
    }
    forall k ensures k in non' <==> exists x <- rows + [r] :: Claims(x) && fold(x.relativePath) == k {
      if x :| x in rows + [r] && Claims(x) && fold(x.relativePath) == k { assert x in rows || x == r; }
      if k in non { var x :| x in rows && Claims(x) && fold(x.relativePath) == k; assert x in rows + [r]; }
      if Claims(r) { assert r in rows + [r]; }
    }
  }

  /** BuildSyncPlan. */
  method BuildSyncPlan(rows: seq<FileResult>, fold: Path -> Path) returns (plan: Plan)
    ensures Compiles(fold, rows, plan)
  {
    hide Gathered, Planner.Valid, RowDraft, Resolves, Claims, AncestorOfExtra, Compiles, Summed, Scheduled, Draft.Add;
    var p := new Planner(fold);
    assert Gathered(fold, [], [], []) by { GatheredNothing(fold); }
    assert rows[..0] == [];
    for i := 0 to |rows|
      invariant p.Valid() && p.fold == fold && fresh(p) && p.Now() == RowsDraft(fold, rows[..i])
      invariant Gathered(fold, rows[..i], p.dirAncestors, p.nonExtraRels)
    {
      ghost var anc, non := p.dirAncestors, p.nonExtraRels;
      p.OnRow(rows[i]);
      assert rows[..i + 1] == rows[..i] + [rows[i]] && rows[..i + 1][..i] == rows[..i];
      GatheredStep(fold, rows[..i], rows[i], anc, non, p.dirAncestors, p.nonExtraRels);
    }
    assert rows[..|rows|] == rows;
    ghost var candidates := p.ScheduleAncestors(rows);
    plan := p.Emit(rows, candidates);
  }

  method CandidatesOf(dirs: seq<Path>) returns (actions: seq<Action>)
    ensures forall a :: a in actions <==> a.rel in dirs && a == ScheduledAction(a.rel)
  {
    actions := [];
    for i := 0 to |dirs|
      invariant forall a :: a in actions <==> a.rel in dirs[..i] && a == ScheduledAction(a.rel)
    {
      assert dirs[..i + 1] == dirs[..i] + [dirs[i]];
      actions := actions + [ScheduledAction(dirs[i])];
    }
    assert dirs[..|dirs|] == dirs;
  }

  lemma ClaimedMeans(fold: Path -> Path, rows: seq<FileResult>, claims: seq<Path>, dir: Path, claimed: bool)
    requires forall k :: k in claims <==> exists r <- rows :: Claims(r) && fold(r.relativePath) == k
    requires claimed <==> exists k <- claims :: AtOrBelow(k, fold(dir))
    ensures claimed <==> Claimed(fold, rows, fold(dir))
  {
    hide AtOrBelow, Claims;
    if claimed {
      var k :| k in claims && AtOrBelow(k, fold(dir));
      var r :| r in rows && Claims(r) && fold(r.relativePath) == k;
    }
    if Claimed(fold, rows, fold(dir)) {
      var r :| r in rows && Claims(r) && AtOrBelow(fold(r.relativePath), fold(dir));
      assert fold(r.relativePath) in claims;
    }
  }

  lemma GatheredNothing(fold: Path -> Path)
    ensures Gathered(fold, [], [], [])
  {}

  lemma SummedAll(p: Plan)
    ensures Summed(p.Actions())
            == Summed(p.createDirs).Plus(Summed(p.deletes)).Plus(Summed(p.deleteDirs)).Plus(Summed(p.fileWrites)).Plus(Summed(p.linkWrites))
  {
    hide Summary.Plus, Summed;
    SummedConcat(p.createDirs, p.deletes);
    SummedConcat(p.createDirs + p.deletes, p.deleteDirs);
    SummedConcat(p.createDirs + p.deletes + p.deleteDirs, p.fileWrites);
    SummedConcat(p.createDirs + p.deletes + p.deleteDirs + p.fileWrites, p.linkWrites);
  }
}
