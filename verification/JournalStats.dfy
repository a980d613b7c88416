/** Captured rows, their journal form and the counters that a journaled row stands for. */
module JournalStats {
  import opened Wrappers
  import opened Bytes
  import opened Results
  import opened JournalCodec

  /** One side's entry as far as a captured row needs it. */
  datatype Observed = Observed(size: u64, mtime: u64, isDirectory: bool)

  datatype ClassifiedRow = ClassifiedRow(
    path: Path, a: Option<Observed>, b: Option<Observed>, verdict: Status,
    hashA: Option<Digest>, hashB: Option<Digest>, percent: i32, pattern: PartialPattern, isDirectory: bool)

  function SizeOf(o: Option<Observed>): u64 {
    if o.Some? then o.value.size else 0
  }

  function MtimeOf(o: Option<Observed>): u64 {
    if o.Some? then o.value.mtime else 0
  }

  function ToJournalEntry(r: ClassifiedRow): JournalEntry {
    JournalEntry(r.path, SizeOf(r.a), MtimeOf(r.a), r.hashA, SizeOf(r.b), MtimeOf(r.b), r.hashB,
                 r.verdict, r.percent, r.pattern, r.isDirectory)
  }

  /** What one side contributes to the file, directory and byte counters. */
  function SideStats(source: bool, o: Option<Observed>): Stats {
    if o.None? then ZERO
    else if source then
      if o.value.isDirectory then ZERO.(sourceDirs := 1) else ZERO.(sourceFiles := 1, bytesSource := o.value.size)
    else
      if o.value.isDirectory then ZERO.(destDirs := 1) else ZERO.(destFiles := 1, bytesDest := o.value.size)
  }

  /** What a verdict contributes; error verdicts are never reused and add nothing. */
  function VerdictStats(verdict: Status, isDirectory: bool): Stats {
    match verdict
    case Identical => if isDirectory then ZERO.(identicalDirs := 1) else ZERO.(identicalFiles := 1)
    case IdenticalPartial => ZERO.(identicalPartialFiles := 1)
    case SizeMismatch => ZERO.(sizeMismatch := 1)
    case ContentMismatch => ZERO.(contentMismatch := 1)
    case ContentMismatchPartial => ZERO.(contentMismatchPartial := 1)
    case Missing => if isDirectory then ZERO.(missingDirs := 1) else ZERO.(missingFiles := 1)
    case Extra => if isDirectory then ZERO.(extraDirs := 1) else ZERO.(extraFiles := 1)
    case ReadError => ZERO
    case AccessDenied => ZERO
    case ChangedDuringScan => ZERO
  }

  function EntryStats(verdict: Status, isDirectory: bool, a: Option<Observed>, b: Option<Observed>): Stats {
    SideStats(true, a).Plus(SideStats(false, b)).Plus(VerdictStats(verdict, isDirectory))
  }

  method CountSide(st: Stats, source: bool, o: Option<Observed>) returns (r: Stats)
    ensures r == st.Plus(SideStats(source, o))
  {
    r := st;
    if o.None? { return; }
    if source {
      if o.value.isDirectory { r := r.(sourceDirs := r.sourceDirs + 1); }
      else { r := r.(sourceFiles := r.sourceFiles + 1, bytesSource := r.bytesSource + o.value.size); }
    } else {
      if o.value.isDirectory { r := r.(destDirs := r.destDirs + 1); }
      else { r := r.(destFiles := r.destFiles + 1, bytesDest := r.bytesDest + o.value.size); }
    }
  }

  method CountVerdict(st: Stats, verdict: Status, isDirectory: bool) returns (r: Stats)
    ensures r == st.Plus(VerdictStats(verdict, isDirectory))
  {
    r := st;
    match verdict
    case Identical =>
      if isDirectory { r := r.(identicalDirs := r.identicalDirs + 1); }
      else { r := r.(identicalFiles := r.identicalFiles + 1); }
    case IdenticalPartial => r := r.(identicalPartialFiles := r.identicalPartialFiles + 1);
    case SizeMismatch => r := r.(sizeMismatch := r.sizeMismatch + 1);
    case ContentMismatch => r := r.(contentMismatch := r.contentMismatch + 1);
    case ContentMismatchPartial => r := r.(contentMismatchPartial := r.contentMismatchPartial + 1);
    case Missing =>
      if isDirectory { r := r.(missingDirs := r.missingDirs + 1); }
      else { r := r.(missingFiles := r.missingFiles + 1); }
    case Extra =>
      if isDirectory { r := r.(extraDirs := r.extraDirs + 1); }
      else { r := r.(extraFiles := r.extraFiles + 1); }
    case ReadError =>
    case AccessDenied =>
    case ChangedDuringScan =>
  }

  /** AccumulateJournalStats: the counters of both sides, then the one of the verdict. */
  method AccumulateJournalStats(st: Stats, e: JournalEntry, a: Option<Observed>, b: Option<Observed>)
    returns (r: Stats)
    ensures r == st.Plus(EntryStats(e.verdict, e.isDirectory, a, b))
  {
    hide SideStats, VerdictStats, Stats.Plus;
    r := CountSide(st, true, a);
    r := CountSide(r, false, b);
    r := CountVerdict(r, e.verdict, e.isDirectory);
    PlusAssoc(st, SideStats(true, a), SideStats(false, b));
    PlusAssoc(st, SideStats(true, a).Plus(SideStats(false, b)), VerdictStats(e.verdict, e.isDirectory));
  }

  function RowStats(r: ClassifiedRow): Stats {
    EntryStats(r.verdict, r.isDirectory, r.a, r.b)
  }

  function JournalRows(rows: seq<ClassifiedRow>): (es: seq<JournalEntry>)
    ensures |es| == |rows|
  {
    seq(|rows|, i requires 0 <= i < |rows| => ToJournalEntry(rows[i]))
  }

  /** The counters of rows added to st, in order. */
  function AddRows(st: Stats, rows: seq<ClassifiedRow>): Stats {
    if rows == [] then st else AddRows(st, rows[..|rows| - 1]).Plus(RowStats(rows[|rows| - 1]))
  }

  lemma {:induction false} AddRowsConcat(st: Stats, a: seq<ClassifiedRow>, b: seq<ClassifiedRow>)
    ensures AddRows(AddRows(st, a), b) == AddRows(st, a + b)
  {
    hide RowStats, Stats.Plus;
    if b == [] {
      assert a + b == a;
    } else {
      var n := |b| - 1;
      assert (a + b)[..|a| + n] == a + b[..n];
      AddRowsConcat(st, a, b[..n]);
    }
  }

  lemma JournalRowsConcat(a: seq<ClassifiedRow>, b: seq<ClassifiedRow>)
    ensures JournalRows(a + b) == JournalRows(a) + JournalRows(b)
  {}
}
