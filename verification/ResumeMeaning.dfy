/** What a resume plan keeps and what it verifies again, by the journal's last records and the two trees. */
module ResumeMeaning {
  import opened Wrappers
  import opened Bytes
  import opened Results
  import opened JournalCodec
  import opened JournalStats
  import opened Classify
  import opened RunResult
  import opened FileIndex
  import opened ResumePlan

  // --- records, spelled out ---

  ghost function KeyAt(inp: Input, i: nat): Path
    requires i < |inp.journal|
  {
    KeyOfPath(inp.cfg, inp.journal[i].path)
  }

  /** No later record has the same key. */
  ghost predicate IsLast(inp: Input, i: nat) {
    i < |inp.journal| && forall j :: i < j < |inp.journal| ==> KeyAt(inp, j) != KeyAt(inp, i)
  }

  ghost function Journaled(inp: Input): set<Path> {
    set i | 0 <= i < |inp.journal| :: KeyAt(inp, i)
  }

  /** A directory whose listing had errors, on either side, is the path itself or above it. */
  ghost predicate UnderErrors(inp: Input, rel: Path) {
    exists d: Path :: (d in inp.errorDirsA || d in inp.errorDirsB) && (d == [] || rel == d || Below(rel, d))
  }

  /** One present side is as it was saved: the type, and for files the size and the modification time. */
  ghost predicate AsSaved(t: Tree, k: Path, dir: bool, size: u64, mtime: u64) {
    k in t ==> t[k].isDirectory == dir && (dir || (t[k].size == size && t[k].mtime == mtime))
  }

  /** The record is about versions, not about an error, and both sides are as it says. */
  ghost predicate Unchanged(inp: Input, i: nat)
    requires i < |inp.journal|
  {
    var e, k := inp.journal[i], KeyAt(inp, i);
    && e.verdict !in {ReadError, AccessDenied, ChangedDuringScan}
    && (k in inp.a <==> e.verdict != Extra) && (k in inp.b <==> e.verdict != Missing)
    && AsSaved(inp.a, k, e.isDirectory, e.sizeA, e.mtimeA) && AsSaved(inp.b, k, e.isDirectory, e.sizeB, e.mtimeB)
  }

  /** The record is taken over. */
  ghost predicate Keeps(inp: Input, i: nat) {
    IsLast(inp, i) && Unchanged(inp, i) && !UnderErrors(inp, inp.journal[i].path)
  }

  /** The record's path is gone from both sides, which an errored listing leaves unproved. */
  ghost predicate Refuses(inp: Input, i: nat) {
    IsLast(inp, i) && KeyAt(inp, i) !in inp.a && KeyAt(inp, i) !in inp.b && UnderErrors(inp, inp.journal[i].path)
  }

  ghost predicate Kept(inp: Input, k: Path) {
    exists i: nat :: i < |inp.journal| && Keeps(inp, i) && KeyAt(inp, i) == k
  }

  ghost function KeptKeys(inp: Input): set<Path> {
    set i: nat | i < |inp.journal| && Keeps(inp, i) :: KeyAt(inp, i)
  }

  ghost function ErrorRecords(inp: Input): set<Path> {
    set i: nat | i < |inp.journal| && IsLast(inp, i) && inp.journal[i].verdict in {ReadError, AccessDenied, ChangedDuringScan} :: KeyAt(inp, i)
  }

  // --- the map of last records ---

  lemma LastMeans(inp: Input, k: Path, i: nat)
    requires i < |inp.journal|
    ensures var last := LastAt(inp.cfg, inp.journal);
            k in last && last[k] == i <==> KeyAt(inp, i) == k && IsLast(inp, i)
  {
    hide LastAt, KeyOfPath;
    var last := LastAt(inp.cfg, inp.journal);
    LastAtIsLast(inp.cfg, inp.journal, i);
    if k in last && last[k] == i {
      forall j | i < j < |inp.journal| ensures KeyAt(inp, j) != k {
        LastAtIsLast(inp.cfg, inp.journal, j);
      }
    }
    assert KeyAt(inp, last[KeyAt(inp, i)]) == KeyAt(inp, i);
  }

  lemma JournaledMeans(inp: Input)
    ensures Journaled(inp) == LastAt(inp.cfg, inp.journal).Keys
  {
    hide LastAt, KeyOfPath;
    var last := LastAt(inp.cfg, inp.journal);
    forall i: nat | i < |inp.journal| ensures KeyAt(inp, i) in last {
      LastAtIsLast(inp.cfg, inp.journal, i);
    }
    forall k | k in last ensures k in Journaled(inp) {
      assert KeyAt(inp, last[k]) == k;
    }
  }

  lemma InErrorMeans(inp: Input, rel: Path)
    ensures InError(inp, rel) <==> UnderErrors(inp, rel)
  {
    hide AtOrUnder, Below;
    forall d: Path { AtOrUnderMeans(rel, d); }
  }

  /** The fate of a journaled key, by its last record and the trees. */
  lemma FatedMeans(inp: Input, k: Path, i: nat)
    requires i < |inp.journal| && IsLast(inp, i) && KeyAt(inp, i) == k
    ensures k in LastAt(inp.cfg, inp.journal) && LastAt(inp.cfg, inp.journal)[k] == i
    ensures Fated(inp, k) == Reused <==> Keeps(inp, i)
    ensures Fated(inp, k) == Refused <==> Refuses(inp, i)
    ensures Fated(inp, k) == Dropped <==> k !in inp.a && k !in inp.b && !Refuses(inp, i)
  {
    hide LastAt, KeyOfPath, InError, UnderErrors;
    LastMeans(inp, k, i);
    InErrorMeans(inp, inp.journal[i].path);
  }

  lemma KeptMeans(inp: Input, k: Path)
    ensures k in KeptKeys(inp) <==> k in KeysOf(inp, Reused, |inp.journal|)
    ensures k in KeptKeys(inp) <==> Kept(inp, k)
  {
    hide LastAt, KeyOfPath, Fated, Keeps, KeysOf;
    var last := LastAt(inp.cfg, inp.journal);
    KeysMember(inp, Reused, |inp.journal|, k);
    if i: nat :| i < |inp.journal| && Keeps(inp, i) && KeyAt(inp, i) == k {
      KeepsLast(inp, i);
      FatedMeans(inp, k, i);
    }
    if k in last {
      LastMeans(inp, k, last[k]);
      FatedMeans(inp, k, last[k]);
    }
  }

  lemma KeepsLast(inp: Input, i: nat)
    requires Keeps(inp, i)
    ensures i < |inp.journal| && IsLast(inp, i)
  {
    hide Unchanged, UnderErrors;
  }

  // --- remainders ---

  /** A key leaves both remainders if and only if its last record is kept; everything else that is present stays, as it is
      now, whether or not the journal has it. */
  lemma RemaindersMean(inp: Input, p: Progress, k: Path)
    requires PlanOf(inp, p)
    ensures if Kept(inp, k) then (k in inp.a || k in inp.b) && k !in p.a && k !in p.b
            else (k in p.a <==> k in inp.a) && (k in p.b <==> k in inp.b)
    ensures (k in p.a ==> k in inp.a && p.a[k] == inp.a[k]) && (k in p.b ==> k in inp.b && p.b[k] == inp.b[k])
  {
    hide PlanOf, KeptKeys, KeysOf, Keeps;
    PlanTrees(inp, p);
    KeptMeans(inp, k);
    if Kept(inp, k) {
      var i: nat :| i < |inp.journal| && Keeps(inp, i) && KeyAt(inp, i) == k;
      KeepsPresent(inp, i);
    }
  }

  lemma PlanTrees(inp: Input, p: Progress)
    requires PlanOf(inp, p)
    ensures var reused := KeysOf(inp, Reused, |inp.journal|); p.a == inp.a - reused && p.b == inp.b - reused
  {
    hide ReusedRows, RowsShown, Sum, ErrorKeys, Consumed, KeysOf, RowAt;
  }

  lemma KeepsPresent(inp: Input, i: nat)
    requires Keeps(inp, i)
    ensures KeyAt(inp, i) in inp.a || KeyAt(inp, i) in inp.b
  {
    hide UnderErrors, IsLast, KeyOfPath, AsSaved;
  }

  /** The kept records, in journal order, each once. */
  lemma EntriesMean(inp: Input, p: Progress) returns (at: seq<nat>)
    requires PlanOf(inp, p)
    ensures forall j, l :: 0 <= j < l < |at| ==> at[j] < at[l]
    ensures forall i: nat :: i in at <==> Keeps(inp, i)
    ensures |p.entries| == |at| && forall j :: 0 <= j < |at| ==> at[j] < |inp.journal| && p.entries[j] == inp.journal[at[j]]
  {
    hide Keeps, ReusedRows, RowsShown, Sum, ErrorKeys, Consumed, KeysOf;
    at := FirstEntries(inp, |inp.journal|);
    forall i: nat | Keeps(inp, i) ensures i < |inp.journal| { KeepsLast(inp, i); }
  }

  /** Increasing positions: those of the kept records among the first n. */
  ghost predicate KeptPositions(inp: Input, n: nat, at: seq<nat>) {
    && (forall j, l :: 0 <= j < l < |at| ==> at[j] < at[l])
    && (forall i: nat :: i in at <==> i < n && Keeps(inp, i))
  }

  ghost predicate RecordsAt(inp: Input, n: nat, at: seq<nat>, es: seq<JournalEntry>) {
    n <= |inp.journal| && |es| == |at| && forall j :: 0 <= j < |at| ==> at[j] < n && es[j] == inp.journal[at[j]]
  }

  lemma {:induction false} FirstEntries(inp: Input, n: nat) returns (at: seq<nat>)
    requires n <= |inp.journal|
    ensures KeptPositions(inp, n, at) && RecordsAt(inp, n, at, ReusedRows(inp, n))
  {
    hide Keeps, ReusedRows, KeptPositions, RecordsAt;
    if n == 0 {
      at := [];
      NoEntries(inp);
    } else {
      var before := FirstEntries(inp, n - 1);
      EntryStep(inp, n - 1);
      at := if Keeps(inp, n - 1) then before + [n - 1] else before;
      PositionStep(inp, n - 1, before);
      RecordStep(inp, n - 1, before, ReusedRows(inp, n - 1));
      assert ReusedRows(inp, n - 1) + [] == ReusedRows(inp, n - 1);
    }
  }

  lemma PositionStep(inp: Input, n: nat, at: seq<nat>)
    requires KeptPositions(inp, n, at)
    ensures KeptPositions(inp, n + 1, if Keeps(inp, n) then at + [n] else at)
  {
    hide Keeps;
    forall l | 0 <= l < |at| ensures at[l] in at {}
    forall i: nat ensures i in at + [n] <==> i in at || i == n {}
  }

  lemma RecordStep(inp: Input, n: nat, at: seq<nat>, es: seq<JournalEntry>)
    requires n < |inp.journal| && RecordsAt(inp, n, at, es)
    ensures RecordsAt(inp, n + 1, at, es) && RecordsAt(inp, n + 1, at + [n], es + [inp.journal[n]])
  {}

  lemma NoEntries(inp: Input)
    ensures ReusedRows(inp, 0) == [] && KeptPositions(inp, 0, []) && RecordsAt(inp, 0, [], [])
  {}

  lemma EntryStep(inp: Input, n: nat)
    requires n < |inp.journal|
    ensures ReusedRows(inp, n + 1) == ReusedRows(inp, n) + (if Keeps(inp, n) then [inp.journal[n]] else [])
  {
    hide LastAt, Fated, KeyOfPath, UnderErrors, Unchanged;
    var k := KeyAt(inp, n);
    LastMeans(inp, k, n);
    if IsLast(inp, n) { FatedMeans(inp, k, n); }
  }

  /** The reused differences, in order: a rebuilt row for every kept record of a verdict other than the two identical ones. */
  lemma ProblemsMean(inp: Input, p: Progress) returns (at: seq<nat>)
    requires PlanOf(inp, p)
    ensures forall j, l :: 0 <= j < l < |at| ==> at[j] < at[l]
    ensures forall i: nat :: i in at <==> i < |p.entries| && p.entries[i].verdict !in {Identical, IdenticalPartial}
    ensures |p.problems| == |at|
    ensures forall j :: 0 <= j < |at| ==> at[j] < |p.entries| && p.problems[j] == ReusedFileResult(p.entries[at[j]])
  {
    hide ReusedRows, RowsShown, Sum, ErrorKeys, Consumed, KeysOf, RowAt, ReusedFileResult;
    at := FirstProblems(p.entries, |p.entries|);
    assert p.entries[..|p.entries|] == p.entries;
  }

  ghost predicate ShownPositions(es: seq<JournalEntry>, n: nat, at: seq<nat>)
    requires n <= |es|
  {
    && (forall j, l :: 0 <= j < l < |at| ==> at[j] < at[l])
    && (forall i: nat :: i in at <==> i < n && es[i].verdict !in {Identical, IdenticalPartial})
  }

  ghost predicate RebuiltAt(es: seq<JournalEntry>, at: seq<nat>, rows: seq<FileResult>) {
    |rows| == |at| && forall j :: 0 <= j < |at| ==> at[j] < |es| && rows[j] == ReusedFileResult(es[at[j]])
  }

  lemma {:induction false} FirstProblems(es: seq<JournalEntry>, n: nat) returns (at: seq<nat>)
    requires n <= |es|
    ensures ShownPositions(es, n, at) && RebuiltAt(es, at, RowsShown(es[..n]))
  {
    hide ShownPositions, RebuiltAt, ReusedFileResult, RowsShown;
    if n == 0 {
      at := [];
      NoProblems(es);
    } else {
      var before := FirstProblems(es, n - 1);
      at := if es[n - 1].verdict !in {Identical, IdenticalPartial} then before + [n - 1] else before;
      ShownStep(es, n - 1, before);
      RowStep(es, n - 1, before, RowsShown(es[..n - 1]));
    }
  }

  lemma NoProblems(es: seq<JournalEntry>)
    ensures ShownPositions(es, 0, []) && RebuiltAt(es, [], RowsShown(es[..0]))
  {}

  lemma ShownStep(es: seq<JournalEntry>, n: nat, at: seq<nat>)
    requires n < |es| && ShownPositions(es, n, at)
    ensures ShownPositions(es, n + 1, if es[n].verdict !in {Identical, IdenticalPartial} then at + [n] else at)
  {
    forall l | 0 <= l < |at| ensures at[l] in at {}
    forall i: nat ensures i in at + [n] <==> i in at || i == n {}
  }

  lemma RowStep(es: seq<JournalEntry>, n: nat, at: seq<nat>, rows: seq<FileResult>)
    requires n < |es| && RebuiltAt(es, at, rows) && rows == RowsShown(es[..n])
    ensures var shown := es[n].verdict !in {Identical, IdenticalPartial};
            RebuiltAt(es, if shown then at + [n] else at, RowsShown(es[..n + 1]))
  {
    hide ReusedFileResult;
    assert es[..n + 1][..n] == es[..n];
    assert rows + [] == rows;
  }

  // --- refusal and counts ---

  /** No plan is made if and only if the last record of some path finds it gone from both sides with an errored directory at
      or above it. */
  lemma RefusedMeans(inp: Input)
    ensures KeysOf(inp, Refused, |inp.journal|) != {} <==> exists i: nat :: Refuses(inp, i)
  {
    hide LastAt, KeyOfPath, Fated, UnderErrors, KeysOf;
    var last, refused := LastAt(inp.cfg, inp.journal), KeysOf(inp, Refused, |inp.journal|);
    if refused != {} {
      var k :| k in refused;
      KeysMember(inp, Refused, |inp.journal|, k);
      LastMeans(inp, k, last[k]);
      FatedMeans(inp, k, last[k]);
    }
    if i: nat :| Refuses(inp, i) {
      FatedMeans(inp, KeyAt(inp, i), i);
      KeysMember(inp, Refused, |inp.journal|, KeyAt(inp, i));
    }
  }

  /** The counters of a plan that is made: kept keys, journaled keys gone from both sides, records of errors, and everything
      that is verified again: journaled keys once, other entries side by side. */
  lemma CountsMean(inp: Input, p: Progress)
    requires PlanOf(inp, p) && forall i: nat :: !Refuses(inp, i)
    ensures p.reused == |p.entries| == |KeptKeys(inp)|
    ensures p.dropped == |Journaled(inp) - inp.a.Keys - inp.b.Keys|
    ensures p.errors == |ErrorRecords(inp)|
    ensures p.stale == |(p.a.Keys + p.b.Keys) * Journaled(inp)| + |inp.a.Keys - Journaled(inp)| + |inp.b.Keys - Journaled(inp)|
  {
    hide PlanOf, Refuses, KeptKeys, KeysOf, Journaled, ErrorKeys, ErrorRecords, Consumed, ReusedRows;
    PlanCounts(inp, p);
    AllKept(inp);
    AllDropped(inp);
    AllReverified(inp, p);
    AllErrors(inp);
    EntriesCounted(inp, |inp.journal|);
    SameKeys(inp.a, Consumed(inp, |inp.journal|), Journaled(inp));
    SameKeys(inp.b, Consumed(inp, |inp.journal|), Journaled(inp));
  }

  lemma PlanCounts(inp: Input, p: Progress)
    requires PlanOf(inp, p)
    ensures var n := |inp.journal|;
            && p.entries == ReusedRows(inp, n) && p.reused == |KeysOf(inp, Reused, n)|
            && p.dropped == |KeysOf(inp, Dropped, n)| && p.errors == |ErrorKeys(inp, n)|
            && p.stale == |KeysOf(inp, Reverified, n)| + |inp.a - Consumed(inp, n)| + |inp.b - Consumed(inp, n)|
  {
    hide KeysOf, ErrorKeys, Consumed, ReusedRows, RowsShown, Sum, RowAt;
  }

  lemma AllKept(inp: Input)
    ensures KeptKeys(inp) == KeysOf(inp, Reused, |inp.journal|)
  {
    hide KeptKeys, KeysOf;
    forall k ensures k in KeptKeys(inp) <==> k in KeysOf(inp, Reused, |inp.journal|) { KeptMeans(inp, k); }
  }

  lemma SameKeys(t: Tree, consumed: set<Path>, keys: set<Path>)
    requires consumed == keys
    ensures |t - consumed| == |t.Keys - keys|
  {
    assert (t - consumed).Keys == t.Keys - keys;
  }

  lemma AllDropped(inp: Input)
    requires forall i: nat :: !Refuses(inp, i)
    ensures KeysOf(inp, Dropped, |inp.journal|) == Journaled(inp) - inp.a.Keys - inp.b.Keys
    ensures Consumed(inp, |inp.journal|) == Journaled(inp)
  {
    hide LastAt, KeyOfPath, Fated, Refuses, KeysOf, Journaled;
    JournaledMeans(inp);
    var last := LastAt(inp.cfg, inp.journal);
    forall k | k in last ensures Fated(inp, k) == Dropped <==> k !in inp.a && k !in inp.b {
      LastMeans(inp, k, last[k]);
      FatedMeans(inp, k, last[k]);
    }
    forall k { KeysMember(inp, Dropped, |inp.journal|, k); }
  }

  lemma AllReverified(inp: Input, p: Progress)
    requires PlanOf(inp, p) && forall i: nat :: !Refuses(inp, i)
    ensures KeysOf(inp, Reverified, |inp.journal|) == (p.a.Keys + p.b.Keys) * Journaled(inp)
  {
    hide LastAt, KeysOf, Journaled, PlanOf, Refuses;
    PlanTrees(inp, p);
    RefusedMeans(inp);
    AllDropped(inp);
    forall k ensures k in KeysOf(inp, Reverified, |inp.journal|) <==> (k in p.a || k in p.b) && k in Journaled(inp) {
      ReverifiedMeans(inp, k);
    }
  }

  lemma ReverifiedMeans(inp: Input, k: Path)
    requires KeysOf(inp, Refused, |inp.journal|) == {} && Consumed(inp, |inp.journal|) == Journaled(inp)
    requires KeysOf(inp, Dropped, |inp.journal|) == Journaled(inp) - inp.a.Keys - inp.b.Keys
    ensures k in KeysOf(inp, Reverified, |inp.journal|)
       <==> (k in inp.a || k in inp.b) && k in Journaled(inp) && k !in KeysOf(inp, Reused, |inp.journal|)
  {
    hide LastAt, KeysOf, Journaled, Fated;
    JournaledMeans(inp);
    KeysMember(inp, Reverified, |inp.journal|, k);
    KeysMember(inp, Dropped, |inp.journal|, k);
    if k in inp.a || k in inp.b { FateAtEnd(inp, k); }
  }

  lemma AllErrors(inp: Input)
    ensures ErrorKeys(inp, |inp.journal|) == ErrorRecords(inp)
  {
    hide LastAt, KeyOfPath;
    var last := LastAt(inp.cfg, inp.journal);
    forall i: nat | i < |inp.journal| { LastMeans(inp, KeyAt(inp, i), i); }
    forall k | k in ErrorKeys(inp, |inp.journal|) ensures k in ErrorRecords(inp) {
      LastMeans(inp, k, last[k]);
    }
  }

  lemma {:induction false} EntriesCounted(inp: Input, n: nat)
    requires n <= |inp.journal|
    ensures |ReusedRows(inp, n)| == |KeysOf(inp, Reused, n)|
  {
    hide LastAt, KeyOfPath, Fated, KeysOf;
    if n == 0 {
      forall k { KeysMember(inp, Reused, 0, k); }
      assert KeysOf(inp, Reused, 0) == {};
    } else {
      EntriesCounted(inp, n - 1);
      LastAtIsLast(inp.cfg, inp.journal, n - 1);
      KeysStep(inp, Reused, n - 1);
    }
  }
}
