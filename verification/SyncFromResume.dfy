/** Plans built from the rows of a resumed run: rebuilt rows of directories are planned as files. */
module SyncFromResume {
  import opened Wrappers
  import opened Bytes
  import opened Results
  import opened JournalCodec
  import opened JournalStats
  import opened Classify
  import opened RunResult
  import opened ResumePlan
  import opened ResumeEqualsFresh
  import opened SyncTree
  import opened SyncFs
  import opened SyncExecutor
  import P = SyncPlan

  /** A fresh row of a missing directory asks for the directory; the row rebuilt for its reused record asks for a file
      copy, which is never done while the source has a directory there. */
  lemma MissingDirectoryCopied(e: JournalEntry, a: FileEntry, env: Env, allowed: set<Path>, was: Fs, now: Fs)
    requires e.verdict == Missing && StillValid(e, Some(a), None) && a.isDirectory && a.reparseKind == NotReparse
    requires env.fold(e.path) in env.source && env.source[env.fold(e.path)] == Dir
    ensures var copy := P.MakeAction(P.FileCopy, e.path, P.OneSide(false, NotReparse, e.sizeA));
            && P.RowDraft(env.fold, MissingRow(a)).creates == [P.MakeAction(P.DirCreate, a.relativePath, P.OneSide(true, NotReparse, 0))]
            && P.RowDraft(env.fold, ReusedFileResult(e)) == P.EMPTY.(fileWrites := [copy])
            && !Ran(env, copy, allowed, was, now, Done) && !Can(env, copy, was)
  {
    hide Around;
  }

  /** A fresh row of an extra directory asks for its teardown; the rebuilt row asks for a file deletion, which is never
      done while the destination has a directory there. */
  lemma ExtraDirectoryDeletedAsFile(e: JournalEntry, b: FileEntry, env: Env, allowed: set<Path>, was: Fs, now: Fs)
    requires e.verdict == Extra && StillValid(e, None, Some(b)) && b.isDirectory && b.reparseKind == NotReparse
    requires env.fold(e.path) in was && was[env.fold(e.path)] == Dir
    ensures var delete := P.MakeAction(P.FileDelete, e.path, P.OneSide(false, NotReparse, 0));
            && P.RowDraft(env.fold, ExtraRow(b)).deleteDirs == [P.MakeAction(P.DirDelete, b.relativePath, P.OneSide(true, NotReparse, 0))]
            && P.RowDraft(env.fold, ReusedFileResult(e)) == P.EMPTY.(deletes := [delete], listed := [env.fold(e.path)])
            && !Ran(env, delete, allowed, was, now, Done) && !Can(env, delete, was)
  {
    hide TreeOk;
  }

  /** The rows of files ask for the same actions, fresh or rebuilt. */
  lemma FileRowsPlannedAlike(fold: Path -> Path, e: JournalEntry, a: FileEntry)
    requires !a.isDirectory && a.reparseKind == NotReparse && a.relativePath == e.path
    ensures e.verdict == Missing && StillValid(e, Some(a), None) ==> P.RowDraft(fold, ReusedFileResult(e)) == P.RowDraft(fold, MissingRow(a))
    ensures e.verdict == Extra && StillValid(e, None, Some(a)) ==> P.RowDraft(fold, ReusedFileResult(e)) == P.RowDraft(fold, ExtraRow(a))
  {
    hide P.RowDraft, ReusedFileResult, MissingRow, ExtraRow;
    if e.verdict == Missing && StillValid(e, Some(a), None) { ReusedMissingIsFresh(e, a); }
    if e.verdict == Extra && StillValid(e, None, Some(a)) { ReusedExtraIsFresh(e, a); }
  }

  /** Such a record is reused: an empty directory that only the source has, then and now. */
  lemma MissingDirectoryReused(cfg: Config) returns (inp: Input, k: Path)
    requires HashesByVersion(cfg) && cfg.caseSensitive
    ensures Sound(inp) && inp.cfg == cfg && inp.errorDirsA == [] && inp.errorDirsB == [] && k in Reusables(inp)
    ensures Record(inp, k).verdict == Missing && k in inp.a && inp.a[k].isDirectory && StillValid(Record(inp, k), Some(inp.a[k]), None)
    ensures ReusedFileResult(Record(inp, k)) != MissingRow(inp.a[k])
  {
    k := [97];
    var dir := FileEntry(k, 0, 7, 0, 0, true, NotReparse, []);
    var e := ToJournalEntry(MissingCapture(dir));
    inp := Input(cfg, [e], map[k := dir], map[], [], []);
    assert WasCaptured(cfg, e);
    assert LastAt(cfg, [e]) == map[k := 0] by { assert [e][..0] == []; }
    assert Fated(inp, k) == Reused;
    ReusedMissingIsFresh(e, dir);
  }
}
