/** What a checkpoint saves about the rows it declares. */
module CheckpointMeaning {
  import opened Wrappers
  import opened Bytes
  import opened Results
  import opened JournalStats
  import opened SessionContext
  import opened CounterMeaning
  import Checkpointer

  /** The progress of a side in the saved context: the files, directories and bytes that its entries of the captured rows add
      to the reused ones. */
  ghost predicate ProgressOf(p: SideProgress, files: nat, dirs: nat, size: nat, rows: seq<ClassifiedRow>, side: int -> Option<Observed>) {
    var all := Positions(|rows|);
    && p.files == files + |Present(all, side, false)| && p.dirs == dirs + |Present(all, side, true)|
    && p.size == size + TotalOf(Present(all, side, false), SizeAt(side))
  }

  /** The saved context of reused and captured rows, field by field. */
  lemma SavedContextMeans(fixed: Session, state: SessionState, reused: Stats, rows: seq<ClassifiedRow>, seqNo: nat, at: nat, millis: nat)
    ensures var c := Checkpointer.ContextAt(fixed, state, AddRows(reused, rows), seqNo, at, millis);
            && ProgressOf(c.progressA, reused.sourceFiles, reused.sourceDirs, reused.bytesSource, rows, Captured(rows).a)
            && ProgressOf(c.progressB, reused.destFiles, reused.destDirs, reused.bytesDest, rows, Captured(rows).b)
            && c.state == state && c.seqNo == seqNo && c.atUnix == at && c.runMillis == millis
            && c.(state := fixed.state, progressA := fixed.progressA, progressB := fixed.progressB, stats := fixed.stats,
                  seqNo := fixed.seqNo, atUnix := fixed.atUnix, runMillis := fixed.runMillis) == fixed
    ensures exists now :: Checkpointer.ContextAt(fixed, state, AddRows(reused, rows), seqNo, at, millis).stats == reused.Plus(now)
                          && Tallies(now, Positions(|rows|), Captured(rows), false)
  {
    hide VerdictsTally, ErrorsTally, TotalOf, Present, Positions, Captured, AddRows;
    RowCountersMean(reused, rows);
    var now := AddRows(ZERO, rows);
    assert AddRows(reused, rows) == reused.Plus(now) && Tallies(now, Positions(|rows|), Captured(rows), false);
  }
}
