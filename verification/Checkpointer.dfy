/** The checkpoint procedure of a scan: rows move from the capture sink to the pending queue to the journal. */
module Checkpointer {
  import opened Wrappers
  import opened Bytes
  import opened Results
  import opened JournalCodec
  import opened JournalReplay
  import opened JournalStats
  import opened SessionContext
  import opened SessionDisk
  import opened SessionStore

  /** The context of a checkpoint: the run's fixed fields, the counters so far and the moment. */
  function ContextAt(fixed: Session, state: SessionState, st: Stats, seqNo: nat, at: nat, millis: nat): Session {
    fixed.(state := state,
           progressA := SideProgress(st.sourceFiles, st.sourceDirs, st.bytesSource),
           progressB := SideProgress(st.destFiles, st.destDirs, st.bytesDest),
           stats := st, seqNo := seqNo, atUnix := at, runMillis := millis)
  }

  class Checkpoints {
    const files: SessionFiles
    const fixed: Session
    const journalName: string

    var sink: seq<ClassifiedRow>
    var pending: seq<JournalEntry>
    var stats: Stats
    var seqNo: nat
    var bootstrapped: bool
    var hadError: bool

    ghost const reused: seq<JournalEntry>
    ghost const reusedStats: Stats
    /** Every captured row taken so far, in take order. */
    ghost var taken: seq<ClassifiedRow>
    /** The rows whose checkpoint succeeded. */
    ghost var declared: seq<JournalEntry>
    /** The rows of the last failed attempt, a prefix of pending, which may have reached the journal. */
    ghost var attempted: seq<JournalEntry>

    /** Every row is in exactly one of declared journal, pending and sink, in order: the reused rows and the rows
        taken are the declared ones followed by the pending ones. The counters are those of the reused and taken
        rows. The files do not exist yet, or are coherent with the declared rows. */
    ghost predicate Valid()
      reads this, files, files.table
    {
      && files.Valid()
      && AllFit(pending) && AllFit(JournalRows(sink))
      && reused + JournalRows(taken) == declared + pending
      && stats == AddRows(reusedStats, taken)
      && attempted <= pending
      && (bootstrapped ==> Coherent(files.disk, declared, attempted))
      && (!bootstrapped ==> declared == [] && Fresh(files.disk))
    }

    /** A run starts with the reused rows pending and their counters accumulated. */
    constructor (files: SessionFiles, fixed: Session, journalName: string, reused: seq<JournalEntry>, reusedStats: Stats)
      requires files.Valid() && Fresh(files.disk) && AllFit(reused)
      ensures Valid() && this.files == files && this.reused == reused && taken == [] && declared == [] && sink == []
      ensures this.fixed == fixed && this.journalName == journalName && this.reusedStats == reusedStats
    {
      this.files, this.fixed, this.journalName := files, fixed, journalName;
      sink, pending, stats, seqNo := [], reused, reusedStats, 0;
      bootstrapped, hadError := false, false;
      this.reused, this.reusedStats := reused, reusedStats;
      taken, declared, attempted := [], [], [];
    }

    /** The comparer finalizes a row. */
    method OnRow(row: ClassifiedRow)
      requires Valid() && Fits(ToJournalEntry(row))
      modifies this
      ensures Valid() && sink == old(sink) + [row] && taken == old(taken) && pending == old(pending)
      ensures declared == old(declared) && bootstrapped == old(bootstrapped) && seqNo == old(seqNo)
      ensures stats == old(stats) && attempted == old(attempted) && hadError == old(hadError)
    {
      hide Fits, Coherent, Fresh, ToJournalEntry, AddRows;
      JournalRowsConcat(sink, [row]);
      assert JournalRows([row]) == [ToJournalEntry(row)];
      sink := sink + [row];
    }

    /** rowSink.take(): every buffered row becomes pending and is counted. */
    method TakeRows()
      requires Valid()
      modifies this
      ensures Valid() && sink == [] && taken == old(taken) + old(sink)
      ensures declared == old(declared) && bootstrapped == old(bootstrapped) && seqNo == old(seqNo)
      ensures attempted == old(attempted) && |pending| == |old(pending)| + |old(sink)|
      ensures hadError == old(hadError)
    {
      hide Fits, Coherent, Fresh, ToJournalEntry, AddRows, RowStats, JournalRows, EntryStats, Stats.Plus;
      var rows := sink;
      NoRows();
      assert rows[..0] == [] && old(taken) + rows[..0] == old(taken);
      for i := 0 to |rows|
        invariant pending == old(pending) + JournalRows(rows[..i])
        invariant stats == AddRows(reusedStats, old(taken) + rows[..i])
        invariant sink == old(sink) && taken == old(taken) && attempted == old(attempted)
        invariant declared == old(declared) && bootstrapped == old(bootstrapped) && seqNo == old(seqNo)
        invariant hadError == old(hadError)
      {
        var e := ToJournalEntry(rows[i]);
        assert rows[..i + 1] == rows[..i] + [rows[i]];
        JournalRowsConcat(rows[..i], [rows[i]]);
        AddOneRow(reusedStats, old(taken) + rows[..i], rows[i]);
        assert old(taken) + rows[..i + 1] == (old(taken) + rows[..i]) + [rows[i]];
        stats := AccumulateJournalStats(stats, e, rows[i].a, rows[i].b);
        pending := pending + [e];
      }
      assert rows[..|rows|] == rows;
      JournalRowsConcat(old(taken), rows);
      taken := taken + rows;
      sink := [];
      assert declared + pending == (declared + old(pending)) + JournalRows(rows);
    }

    /** All rows this run has to account for once the sink is taken. */
    ghost function Everything(): seq<JournalEntry>
      reads this
    {
      reused + JournalRows(taken)
    }

    /** doCheckpoint: take the captured rows, then persist every pending row: the first time by a full save, later
        by an append. On failure the rows stay queued for the next attempt; on success all rows of the run are
        declared, loading the files gives exactly them, and the persisted counters are theirs. */
    method DoCheckpoint(state: SessionState, force: bool, at: nat, millis: nat) returns (io: Io)
      requires Valid()
      requires ReaderAccepts(ContextAt(fixed, state, AddRows(reusedStats, taken + sink), seqNo, at, millis),
                             TrailerFor(reused + JournalRows(taken + sink)))
      modifies this, files
      ensures taken == old(taken) + old(sink) && sink == []
      ensures io != Crashed ==> Valid() && Everything() == declared + pending
      ensures io == Done ==> pending == [] && declared == Everything()
      ensures io == Done && (force || |old(pending)| + |old(sink)| > 0) ==>
                bootstrapped && ExactlySaved(files.disk, ContextAt(fixed, state, AddRows(reusedStats, taken), old(seqNo), at, millis), Everything())
      ensures io == Done && !force && |old(pending)| + |old(sink)| == 0 ==> files.disk == old(files.disk) && seqNo == old(seqNo)
      ensures io == Done && (force || |old(pending)| + |old(sink)| > 0) ==> seqNo == old(seqNo) + 1
      ensures io != Done ==> seqNo == old(seqNo)
      ensures hadError <==> old(hadError) || io == Failed
      ensures io == Failed ==> declared == old(declared) && hadError && bootstrapped == old(bootstrapped)
      ensures io == Crashed && old(bootstrapped) ==> Recovers(files.disk, old(declared), Everything())
      ensures io == Crashed && !old(bootstrapped) ==>
                Fresh(files.disk) || Recovers(files.disk, Everything(), Everything())
      ensures io == Done || files.faults > old(files.faults)
    {
      hide Coherent, Recovers, ExactlySaved, Fresh, AllFit, JournalRows, AddRows, ContextAt, ReaderAccepts,
           Appended, Saved, LoadContext, ContextText, TrailerFor, Extended, JournalOf, Appendable;
      TakeRows();
      if pending == [] && !force { return Done; }
      var ctx := ContextAt(fixed, state, stats, seqNo, at, millis);
      ghost var d, decl, tried := files.disk, declared, attempted;
      if !bootstrapped {
        assert decl + pending == pending;
        io := files.SaveSession(ctx, journalName, pending);
        SaveOutcome(d, pending, ctx, journalName, files.disk, io);
      } else {
        PendingAppendable(d, decl, tried, pending);
        io := files.AppendJournal(ctx, journalName, pending);
        AppendOutcome(d, decl, tried, pending, ctx, journalName, files.disk, io);
        if io != Crashed { attempted := pending; }
      }
      if io == Failed { hadError := true; }
      if io != Done { return; }
      declared := declared + pending;
      attempted := [];
      NothingFits();
      pending := [];
      assert declared + [] == declared;
      bootstrapped := true;
      seqNo := seqNo + 1;
    }
  }

  lemma NothingFits()
    ensures AllFit([])
  {}

  lemma SaveOutcome(d: Disk, rows: seq<JournalEntry>, s: Session, journalName: string, d': Disk, io: Io)
    requires Fresh(d) && AllFit(rows) && ReaderAccepts(s, TrailerFor(rows))
    requires Saved(d, JournalOf(rows), ContextText(s, journalName, TrailerFor(rows)), d', io)
    ensures io == Done ==> Coherent(d', rows, []) && ExactlySaved(d', s, rows)
    ensures io == Failed ==> Fresh(d')
    ensures io == Crashed ==> Fresh(d') || Recovers(d', rows, rows)
  {
    hide Coherent, Recovers, ExactlySaved, Fresh, AllFit, ReaderAccepts, Saved, LoadContext;
    SaveBootstraps(d, rows, s, journalName, d', io);
    assert rows + [] == rows;
    if Coherent(d', rows, []) { CoherentLoads(d', rows, []); }
    if io == Done { CoherentIsExact(d', s, rows); }
  }

  lemma AppendOutcome(d: Disk, decl: seq<JournalEntry>, tried: seq<JournalEntry>, rows: seq<JournalEntry>,
                      s: Session, journalName: string, d': Disk, io: Io)
    requires Coherent(d, decl, tried) && tried <= rows && AllFit(rows) && ReaderAccepts(s, TrailerFor(decl + rows))
    requires var c := LoadContext(d);
             if c.NoContext? then d' == d && io == Failed
             else Appended(d, c.trailer, JournalOf(rows),
                           ContextText(s, journalName, Extended(c.trailer, |rows|, JournalOf(rows))), d', io)
    ensures io == Done ==> Coherent(d', decl + rows, []) && ExactlySaved(d', s, decl + rows)
    ensures io == Failed ==> Coherent(d', decl, rows)
    ensures io == Crashed ==> Recovers(d', decl, decl + rows)
  {
    hide Recovers, ExactlySaved, AllFit, ReaderAccepts, Appended, LoadContext, TrailerFor, Extended;
    ExtendedTrailer(decl, rows);
    AppendKeepsCoherent(d, decl, tried, rows, s, journalName, d', io);
    hide Coherent;
    if io == Crashed { CrashedCallLoads(d', decl, rows); }
    if io == Done { CoherentIsExact(d', s, decl + rows); }
  }

  /** Loading the files gives back exactly the rows and the context that were saved. */
  ghost predicate ExactlySaved(d: Disk, s: Session, rows: seq<JournalEntry>) {
    LoadOf(d).Opened? && LoadOf(d).rows == rows && LoadOf(d).session == s
    && !LoadOf(d).truncated && !LoadOf(d).newerRows
    && LoadContext(d).Context? && LoadContext(d).trailer == TrailerFor(rows)
  }

  lemma CoherentIsExact(d: Disk, s: Session, rows: seq<JournalEntry>)
    requires Coherent(d, rows, []) && LoadContext(d).session == s
    ensures ExactlySaved(d, s, rows)
  {
    hide LoadOf, LoadContext, CrcOf, RecordOf, Fits;
    LoadOfCoherent(d, rows, []);
    assert rows + [] == rows && JournalOf(rows) + JournalOf([]) == JournalOf(rows);
    assert LoadOf(d).rows == rows && d.journal.value == JournalOf(rows);
  }

  lemma NoRows()
    ensures AllFit(JournalRows([])) && JournalRows([]) == []
  {}

  lemma AddOneRow(st: Stats, rows: seq<ClassifiedRow>, r: ClassifiedRow)
    ensures AddRows(st, rows + [r]) == AddRows(st, rows).Plus(EntryStats(r.verdict, r.isDirectory, r.a, r.b))
    ensures ToJournalEntry(r).verdict == r.verdict && ToJournalEntry(r).isDirectory == r.isDirectory
    ensures JournalRows([r]) == [ToJournalEntry(r)]
  {
    hide Stats.Plus, EntryStats;
    assert (rows + [r])[..|rows|] == rows;
  }
}
