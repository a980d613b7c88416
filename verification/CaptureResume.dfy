/** Resuming from what a comparison captured: over the same trees, exactly the settled keys are taken over. */
module CaptureResume {
  import opened Wrappers
  import opened Bytes
  import opened Results
  import opened JournalCodec
  import opened JournalStats
  import opened PartialRead
  import opened Classify
  import opened RunResult
  import opened FileIndex
  import opened ResumePlan
  import opened ResumeMeaning
  import opened ReportMeaning

  /** The journal is what a comparison of the two trees captured, in any order. */
  ghost predicate OfRun(inp: Input, rows: seq<ClassifiedRow>) {
    && KeyedTree(inp.cfg, inp.a) && KeyedTree(inp.cfg, inp.b)
    && inp.journal == JournalRows(rows) && multiset(rows) == Reference(inp.cfg, inp.a, inp.b).captured
  }

  /** The path under which a key's row is captured. */
  ghost function PathOf(inp: Input, k: Path): Path
    requires k in inp.a || k in inp.b
  {
    if k in inp.b then inp.b[k].relativePath else inp.a[k].relativePath
  }

  /** The comparison came to a verdict about versions that the row records in full: no error, no directory or directory link
      against something else, no directory suppressed in favour of an entry below. */
  ghost predicate Recordable(inp: Input, k: Path) {
    if k in inp.a && k in inp.b then
      var v := PairVerdict(inp.cfg, inp.a[k], inp.b[k]);
      && v.status !in {ReadError, AccessDenied, ChangedDuringScan}
      && inp.a[k].isDirectory == inp.b[k].isDirectory == v.isDirectory
    else MissingShown(inp.a, inp.b, k) || ExtraShown(inp.cfg, inp.a, inp.b, k)
  }

  lemma PairStatus(cfg: Config, a: FileEntry, b: FileEntry)
    ensures PairVerdict(cfg, a, b).status != Missing && PairVerdict(cfg, a, b).status != Extra
  {
    hide PartialRead.Plan, EffectiveLevel;
  }

  /** A captured row belongs to the key of its path, and what it records is unchanged exactly when it can be. */
  lemma RowAtKey(inp: Input, k: Path, row: ClassifiedRow)
    requires KeyedTree(inp.cfg, inp.a) && KeyedTree(inp.cfg, inp.b)
    requires (k in inp.a || k in inp.b) && Captures(inp.cfg, inp.a, inp.b, k, row)
    ensures row.path == PathOf(inp, k) && KeyOfPath(inp.cfg, row.path) == k
  {
    hide PairVerdict, Below;
  }

  lemma RowUnchanged(inp: Input, k: Path, row: ClassifiedRow, i: nat)
    requires KeyedTree(inp.cfg, inp.a) && KeyedTree(inp.cfg, inp.b)
    requires (k in inp.a || k in inp.b) && Captures(inp.cfg, inp.a, inp.b, k, row)
    requires i < |inp.journal| && inp.journal[i] == ToJournalEntry(row) && KeyAt(inp, i) == k
    ensures Unchanged(inp, i) <==> Recordable(inp, k)
  {
    hide PairVerdict, Below, KeyOfPath;
    if k in inp.a && k in inp.b { PairStatus(inp.cfg, inp.a[k], inp.b[k]); }
  }

  lemma RecordIsCaptured(inp: Input, rows: seq<ClassifiedRow>, i: nat)
    requires OfRun(inp, rows) && i < |inp.journal|
    ensures |rows| == |inp.journal| && inp.journal[i] == ToJournalEntry(rows[i])
    ensures var k := KeyAt(inp, i);
            (k in inp.a || k in inp.b) && Captures(inp.cfg, inp.a, inp.b, k, rows[i]) && inp.journal[i].path == PathOf(inp, k)
  {
    hide Captures, Reference, KeyOfPath, KeyedTree;
    assert rows[i] in multiset(rows);
    CapturedMeans(inp.cfg, inp.a, inp.b, rows[i]);
    var k :| (k in inp.a || k in inp.b) && Captures(inp.cfg, inp.a, inp.b, k, rows[i]);
    RowAtKey(inp, k, rows[i]);
  }

  lemma RecordExists(inp: Input, rows: seq<ClassifiedRow>, k: Path)
    requires OfRun(inp, rows) && (k in inp.a || k in inp.b) && Recordable(inp, k)
    ensures k in LastAt(inp.cfg, inp.journal)
  {
    hide Reference, KeyOfPath, KeyedTree, LastAt, Captures, Recordable;
    var row := RowFor(inp, k);
    CapturedMeans(inp.cfg, inp.a, inp.b, row);
    assert row in multiset(rows);
    var i :| 0 <= i < |rows| && rows[i] == row;
    RowAtKey(inp, k, row);
    LastAtIsLast(inp.cfg, inp.journal, i);
  }

  lemma RowFor(inp: Input, k: Path) returns (row: ClassifiedRow)
    requires (k in inp.a || k in inp.b) && Recordable(inp, k)
    ensures Captures(inp.cfg, inp.a, inp.b, k, row)
  {
    hide PairVerdict, Below;
    row := if k in inp.a && k in inp.b then PairCapture(inp.a[k], inp.b[k], PairVerdict(inp.cfg, inp.a[k], inp.b[k]))
    else if k in inp.a then MissingCapture(inp.a[k]) else ExtraCapture(inp.b[k]);
  }

  /** Nothing has changed since the run: exactly the keys whose rows are recordable and lie under no errored directory leave
      the remainders, whatever the order of the journal; and no such plan is refused. */
  lemma UnchangedTreesKept(inp: Input, rows: seq<ClassifiedRow>, k: Path)
    requires OfRun(inp, rows)
    ensures Kept(inp, k) <==> (k in inp.a || k in inp.b) && Recordable(inp, k) && !UnderErrors(inp, PathOf(inp, k))
    ensures forall i: nat :: !Refuses(inp, i)
  {
    hide OfRun, Recordable, Captures, UnderErrors, KeyOfPath, LastAt, IsLast, Unchanged, ToJournalEntry, Refuses;
    if k in LastAt(inp.cfg, inp.journal) {
      var i := LastAt(inp.cfg, inp.journal)[k];
      LastMeans(inp, k, i);
      RecordIsCaptured(inp, rows, i);
      KeptByRow(inp, rows, k, i);
    }
    if i: nat :| i < |inp.journal| && Keeps(inp, i) && KeyAt(inp, i) == k {
      RecordIsCaptured(inp, rows, i);
      KeptByRow(inp, rows, k, i);
    }
    if (k in inp.a || k in inp.b) && Recordable(inp, k) { RecordExists(inp, rows, k); }
    forall i: nat ensures !Refuses(inp, i) { NotRefused(inp, rows, i); }
  }

  lemma NotRefused(inp: Input, rows: seq<ClassifiedRow>, i: nat)
    requires OfRun(inp, rows)
    ensures !Refuses(inp, i)
  {
    hide OfRun, Captures, UnderErrors, KeyOfPath, ToJournalEntry;
    if i < |inp.journal| { RecordIsCaptured(inp, rows, i); }
  }

  lemma KeptByRow(inp: Input, rows: seq<ClassifiedRow>, k: Path, i: nat)
    requires OfRun(inp, rows) && i < |inp.journal| && |rows| == |inp.journal| && IsLast(inp, i) && KeyAt(inp, i) == k
    requires (k in inp.a || k in inp.b) && Captures(inp.cfg, inp.a, inp.b, k, rows[i]) && inp.journal[i].path == PathOf(inp, k)
    requires inp.journal[i] == ToJournalEntry(rows[i])
    ensures Keeps(inp, i) <==> Recordable(inp, k) && !UnderErrors(inp, PathOf(inp, k))
  {
    hide Recordable, Captures, UnderErrors, KeyOfPath, Unchanged, ToJournalEntry, Reference;
    RowUnchanged(inp, k, rows[i], i);
  }
}
