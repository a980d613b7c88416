/** A resumed run counts what a fresh run would: the reused rows and the comparison of the remainders together. */
module ResumeEqualsFresh {
  import opened Wrappers
  import opened Bytes
  import opened Results
  import opened JournalCodec
  import opened JournalStats
  import opened PartialRead
  import opened Classify
  import opened RunResult
  import opened FileIndex
  import opened ResumePlan

  ghost predicate ReparseFree(t: Tree) {
    forall k <- t :: t[k].reparseKind == NotReparse
  }

  /** Digests, and whether a file changes while it is read, are determined by path, size and modification time. */
  ghost predicate HashesByVersion(cfg: Config) {
    forall c: Candidate, c': Candidate ::
      KeyOfPath(cfg, c.path) == KeyOfPath(cfg, c'.path) && c == c'.(path := c.path)
      ==> cfg.hashSource(c) == cfg.hashSource(c') && cfg.hashDest(c) == cfg.hashDest(c')
  }

  ghost predicate IsPairRecord(cfg: Config, e: JournalEntry, a: FileEntry, b: FileEntry) {
    && a.reparseKind == NotReparse && b.reparseKind == NotReparse && KeyOf(cfg, a) == KeyOf(cfg, b)
    && e == ToJournalEntry(PairCapture(a, b, PairVerdict(cfg, a, b)))
  }

  /** The record is a row that an earlier comparison with these settings captured. */
  ghost predicate WasCaptured(cfg: Config, e: JournalEntry) {
    || (exists a, b :: IsPairRecord(cfg, e, a, b))
    || (exists x: FileEntry :: e == ToJournalEntry(MissingCapture(x)))
    || (exists x: FileEntry :: e == ToJournalEntry(ExtraCapture(x)))
  }

  /** A row that can be reused although the type of a side changed: a mixed file and directory pair is recorded without
      its per-side types, as a size mismatch whose sizes do not show why. */
  predicate TypeBlind(cfg: Config, e: JournalEntry) {
    e.verdict == SizeMismatch && (cfg.mode == Presence || e.sizeA == e.sizeB)
  }

  // --- what a fresh run counts for one key ---

  function FreshVerdict(cfg: Config, a: Option<FileEntry>, b: Option<FileEntry>): Stats {
    if a.Some? && b.Some? then
      var v := PairVerdict(cfg, a.value, b.value);
      RunCounters(v.status, v.isDirectory)
    else if a.Some? then VerdictStats(Missing, a.value.isDirectory)
    else if b.Some? then VerdictStats(Extra, b.value.isDirectory)
    else ZERO
  }

  function FreshCounters(cfg: Config, a: Option<FileEntry>, b: Option<FileEntry>): Stats {
    SideStats(true, Observe(a)).Plus(SideStats(false, Observe(b))).Plus(FreshVerdict(cfg, a, b))
  }

  ghost function FreshAt(cfg: Config, a: Tree, b: Tree): Path -> Result {
    k => One(FreshCounters(cfg, At(a, k), At(b, k)), None, None)
  }

  // --- a reused row counts what the fresh run counts for its key ---

  /** The same version gives the same verdict. */
  lemma SameVersionSameVerdict(cfg: Config, a: FileEntry, b: FileEntry, a0: FileEntry, b0: FileEntry)
    requires HashesByVersion(cfg) && KeyOf(cfg, b) == KeyOf(cfg, b0)
    requires a.size == a0.size && a.mtime == a0.mtime && b.size == b0.size && b.mtime == b0.mtime
    requires !a.isDirectory && !b.isDirectory && !a0.isDirectory && !b0.isDirectory
    requires a.reparseKind == NotReparse && b.reparseKind == NotReparse && a0.reparseKind == NotReparse && b0.reparseKind == NotReparse
    ensures PairVerdict(cfg, a, b).status == PairVerdict(cfg, a0, b0).status && !PairVerdict(cfg, a, b).isDirectory
  {
    hide PartialRead.Plan, EffectiveLevel;
    var c, c0 := CandidateOf(a, b), CandidateOf(a0, b0);
    assert c0 == c.(path := c0.path);
    assert cfg.hashSource(c) == cfg.hashSource(c0) && cfg.hashDest(c) == cfg.hashDest(c0);
  }

  lemma ReusedPair(cfg: Config, e: JournalEntry, a: FileEntry, b: FileEntry, a0: FileEntry, b0: FileEntry)
    requires HashesByVersion(cfg) && IsPairRecord(cfg, e, a0, b0) && StillValid(e, Some(a), Some(b))
    requires a.reparseKind == NotReparse && b.reparseKind == NotReparse && KeyOf(cfg, b) == KeyOf(cfg, b0)
    ensures var v := PairVerdict(cfg, a, b);
            if TypeBlind(cfg, e) then v.status != SizeMismatch && e.verdict == SizeMismatch
            else v.status == e.verdict && v.isDirectory == e.isDirectory
  {
    hide HashesByVersion, HashVerdict, LinkVerdict, MismatchRow;
    HashNeverMismatch(cfg, CandidateOf(a, b));
    HashNeverMismatch(cfg, CandidateOf(a0, b0));
    if !a.isDirectory && !b.isDirectory && !a0.isDirectory && !b0.isDirectory {
      SameVersionSameVerdict(cfg, a, b, a0, b0);
    }
  }

  lemma HashNeverMismatch(cfg: Config, c: Candidate)
    ensures HashVerdict(cfg, c).status != SizeMismatch && !HashVerdict(cfg, c).isDirectory
  {
    hide PartialRead.Plan, EffectiveLevel;
  }

  /** What is assumed of a resume: plain trees, every entry under its key, rows captured under the same settings. */
  ghost predicate Sound(inp: Input) {
    && HashesByVersion(inp.cfg) && ReparseFree(inp.a) && ReparseFree(inp.b)
    && KeyedTree(inp.cfg, inp.a) && KeyedTree(inp.cfg, inp.b)
    && forall e <- inp.journal :: WasCaptured(inp.cfg, e)
  }

  ghost function Reusables(inp: Input): set<Path> {
    KeysOf(inp, Reused, |inp.journal|)
  }

  lemma ReusedVerdict(inp: Input, k: Path)
    requires Sound(inp) && k in Reusables(inp) && k in inp.a && k in inp.b
    ensures var e, v := Record(inp, k), PairVerdict(inp.cfg, inp.a[k], inp.b[k]);
            && !IsErrorVerdict(e.verdict)
            && (if TypeBlind(inp.cfg, e) then v.status != SizeMismatch && e.verdict == SizeMismatch
                else v.status == e.verdict && v.isDirectory == e.isDirectory)
  {
    hide HashesByVersion, PairVerdict, PairCapture, InError, LastAt, TypeBlind;
    var e := Record(inp, k);
    assert e in inp.journal;
    assert StillValid(e, Some(inp.a[k]), Some(inp.b[k]));
    var a0, b0 :| IsPairRecord(inp.cfg, e, a0, b0) by { CapturedPair(inp.cfg, e); }
    PairPath(a0, b0, PairVerdict(inp.cfg, a0, b0));
    ReusedPair(inp.cfg, e, inp.a[k], inp.b[k], a0, b0);
  }

  lemma PairPath(a: FileEntry, b: FileEntry, v: Verdict)
    ensures ToJournalEntry(PairCapture(a, b, v)).path == b.relativePath
  {}

  lemma CapturedPair(cfg: Config, e: JournalEntry)
    requires WasCaptured(cfg, e) && e.verdict != Missing && e.verdict != Extra
    ensures exists a, b :: IsPairRecord(cfg, e, a, b)
  {
    hide IsPairRecord;
  }

  /** The counters of a reused row are the fresh ones, unless its record is blind to types. */
  lemma ReusedCounters(inp: Input, k: Path)
    requires Sound(inp) && k in Reusables(inp)
    ensures var row, now := RowAt(inp)(k).stats, FreshAt(inp.cfg, inp.a, inp.b)(k).stats;
            if TypeBlind(inp.cfg, Record(inp, k)) then row.sizeMismatch > now.sizeMismatch else row == now
  {
    hide Sound, LastAt, InError, PairVerdict, Stats.Plus, SideStats, WasCaptured;
    var e, a, b := Record(inp, k), At(inp.a, k), At(inp.b, k);
    assert StillValid(e, a, b);
    if a.Some? && b.Some? {
      ReusedVerdict(inp, k);
      var v := PairVerdict(inp.cfg, a.value, b.value);
      NonErrorCounter(v.status, v.isDirectory, e.verdict, e.isDirectory);
      MismatchCount(SideStats(true, Observe(a)), SideStats(false, Observe(b)), VerdictStats(e.verdict, e.isDirectory),
                    RunCounters(v.status, v.isDirectory));
    }
  }

  lemma NonErrorCounter(status: Status, isDirectory: bool, verdict: Status, directory: bool)
    ensures status == verdict && isDirectory == directory && !IsErrorVerdict(status) ==>
              RunCounters(status, isDirectory) == VerdictStats(verdict, directory)
    ensures status != SizeMismatch ==> RunCounters(status, isDirectory).sizeMismatch == 0
    ensures verdict == SizeMismatch ==> VerdictStats(verdict, directory).sizeMismatch == 1
  {}

  lemma MismatchCount(a: Stats, b: Stats, v: Stats, w: Stats)
    ensures v.sizeMismatch > w.sizeMismatch ==> a.Plus(b).Plus(v).sizeMismatch > a.Plus(b).Plus(w).sizeMismatch
  {}

  // --- sums of counters ---

  lemma {:induction false} SameStats(s: set<Path>, f: Path -> Result, g: Path -> Result)
    requires forall k <- s :: f(k).stats == g(k).stats
    ensures Sum(s, f).stats == Sum(s, g).stats
    decreases |s|
  {
    hide Stats.Plus;
    if s != {} {
      var k :| k in s;
      SumTake(s, f, k);
      SumTake(s, g, k);
      SameStats(s - {k}, f, g);
    }
  }

  lemma {:induction false} MoreMismatches(s: set<Path>, f: Path -> Result, g: Path -> Result)
    requires forall k <- s :: f(k).stats.sizeMismatch >= g(k).stats.sizeMismatch
    ensures Sum(s, f).stats.sizeMismatch >= Sum(s, g).stats.sizeMismatch
    ensures (exists k <- s :: f(k).stats.sizeMismatch > g(k).stats.sizeMismatch)
            ==> Sum(s, f).stats.sizeMismatch > Sum(s, g).stats.sizeMismatch
    decreases |s|
  {
    if s != {} {
      var k :| k in s;
      SumTake(s, f, k);
      SumTake(s, g, k);
      MoreMismatches(s - {k}, f, g);
      MismatchAdd(f(k), Sum(s - {k}, f));
      MismatchAdd(g(k), Sum(s - {k}, g));
      hide Result.Add, Sum;
      if j :| j in s && f(j).stats.sizeMismatch > g(j).stats.sizeMismatch {
        assert j != k ==> j in s - {k};
      }
    }
  }

  lemma MismatchAdd(a: Result, b: Result)
    ensures a.Add(b).stats.sizeMismatch == a.stats.sizeMismatch + b.stats.sizeMismatch
  {}

  /** Keys without a contribution can be added to a sum. */
  lemma {:induction false} PadSum(s: set<Path>, all: set<Path>, f: Path -> Result)
    requires s <= all && forall k <- all - s :: f(k) == NOTHING
    ensures Sum(all, f) == Sum(s, f)
    decreases |all - s|
  {
    hide Result.Add;
    if all <= s {
      assert all == s;
    } else {
      var k :| k in all && k !in s;
      SumTake(all, f, k);
      AddNothing(Sum(all - {k}, f));
      assert all - {k} - s == (all - s) - {k};
      PadSum(s, all - {k}, f);
    }
  }

  // --- the fresh run as one sum over all keys ---

  lemma ReferenceCounters(cfg: Config, a: Tree, b: Tree)
    ensures Reference(cfg, a, b).stats == Sum(a.Keys + b.Keys, FreshAt(cfg, a, b)).stats
  {
    hide Result.Add, Sum, PairResult, SeenResult, MissingResult, ExtraResult, HasBelow, FoldedPaths, FreshCounters;
    var keys, missing, extra := a.Keys + b.Keys, a - b.Keys, b - a.Keys;
    var sa, sb, p, m, x := SeenAt(true, a), SeenAt(false, b), PairAt(cfg, a, b), MissingAt(missing), ExtraAt(cfg, extra);
    PadSum(a.Keys, keys, sa);
    PadSum(b.Keys, keys, sb);
    PadSum(a.Keys * b.Keys, keys, p);
    PadSum(missing.Keys, keys, m);
    PadSum(extra.Keys, keys, x);
    var seen, one := (k: Path) => sa(k).Add(sb(k)), (k: Path) => m(k).Add(x(k));
    var first := (k: Path) => seen(k).Add(p(k));
    var all := (k: Path) => first(k).Add(one(k));
    SumAdd(keys, sa, sb);
    SumAdd(keys, m, x);
    SumAdd(keys, seen, p);
    SumAdd(keys, first, one);
    forall k | k in keys ensures all(k).stats == FreshAt(cfg, a, b)(k).stats { ReferenceAtKey(cfg, a, b, k); }
    SameStats(keys, all, FreshAt(cfg, a, b));
  }

  lemma ReferenceAtKey(cfg: Config, a: Tree, b: Tree, k: Path)
    requires k in a || k in b
    ensures var missing, extra := a - b.Keys, b - a.Keys;
            SeenAt(true, a)(k).Add(SeenAt(false, b)(k)).Add(PairAt(cfg, a, b)(k)).Add(MissingAt(missing)(k).Add(ExtraAt(cfg, extra)(k))).stats
            == FreshAt(cfg, a, b)(k).stats
  {
    hide Stats.Plus, HasBelow, FoldedPaths, PairVerdict, SideStats, RunCounters, MissingRow, ExtraRow, MissingCapture, ExtraCapture, PairCapture;
    var missing, extra := a - b.Keys, b - a.Keys;
    var sa, sb, v := SideStats(true, Observe(At(a, k))), SideStats(false, Observe(At(b, k))), FreshVerdict(cfg, At(a, k), At(b, k));
    assert SeenAt(true, a)(k).stats == sa && SeenAt(false, b)(k).stats == sb by { NoSide(); }
    PlusZero(sa.Plus(sb));
    PlusZero(v);
    PlusZero(ZERO);
    if k in a && k in b {
      assert PairAt(cfg, a, b)(k).stats == v;
      PlusZero(sa.Plus(sb).Plus(v));
    } else {
      OneSidedCounters(cfg, missing, extra, k);
    }
  }

  lemma NoSide()
    ensures SideStats(true, None) == ZERO && SideStats(false, None) == ZERO
  {}

  lemma OneSidedCounters(cfg: Config, missing: Tree, extra: Tree, k: Path)
    ensures MissingAt(missing)(k).stats == if k in missing then VerdictStats(Missing, missing[k].isDirectory) else ZERO
    ensures ExtraAt(cfg, extra)(k).stats == if k in extra then VerdictStats(Extra, extra[k].isDirectory) else ZERO
  {
    hide HasBelow, FoldedPaths, ExtraRow, ExtraCapture, MissingRow, MissingCapture;
    if k in extra {
      ExtraCounters(extra[k], HasBelow(FoldedPaths(cfg, extra), cfg.fold(extra[k].relativePath)));
    }
  }

  lemma ExtraCounters(e: FileEntry, hidden: bool)
    ensures ExtraResult(e, hidden).stats == VerdictStats(Extra, e.isDirectory)
  {}

  // --- resumed equals fresh ---

  lemma RemainderCounters(inp: Input)
    ensures var r := Reusables(inp);
            Reference(inp.cfg, inp.a, inp.b).stats
            == Sum(r, FreshAt(inp.cfg, inp.a, inp.b)).stats.Plus(Reference(inp.cfg, inp.a - r, inp.b - r).stats)
  {
    var r, keys := Reusables(inp), inp.a.Keys + inp.b.Keys;
    hide Sum, Reference, FreshAt, Stats.Plus, FreshCounters, Reusables;
    var a, b := inp.a - r, inp.b - r;
    ReusablesPresent(inp);
    ReferenceCounters(inp.cfg, inp.a, inp.b);
    ReferenceCounters(inp.cfg, a, b);
    assert a.Keys + b.Keys == keys - r && r + (keys - r) == keys;
    SumUnion(r, keys - r, FreshAt(inp.cfg, inp.a, inp.b));
    forall k | k in keys - r ensures FreshAt(inp.cfg, inp.a, inp.b)(k) == FreshAt(inp.cfg, a, b)(k) {
      SameAtKey(inp.cfg, inp.a, inp.b, r, k);
    }
    SameStats(keys - r, FreshAt(inp.cfg, inp.a, inp.b), FreshAt(inp.cfg, a, b));
  }

  lemma ReusablesJournaled(inp: Input)
    ensures Reusables(inp) <= LastAt(inp.cfg, inp.journal).Keys
  {
    hide LastAt, FateOf, InError;
  }

  lemma ReusablesPresent(inp: Input)
    ensures Reusables(inp) <= inp.a.Keys + inp.b.Keys
  {
    hide LastAt, StillValid, InError;
  }

  lemma SameAtKey(cfg: Config, a: Tree, b: Tree, r: set<Path>, k: Path)
    requires k !in r
    ensures FreshAt(cfg, a - r, b - r)(k) == FreshAt(cfg, a, b)(k)
  {
    hide FreshCounters;
  }

  /** Every counter of the reused rows plus the comparison of the remainders is the counter of a fresh run, exactly when
      no reused record is blind to types. */
  lemma ResumedEqualsFresh(inp: Input)
    requires Sound(inp)
    ensures var r := Reusables(inp);
            Sum(r, RowAt(inp)).stats.Plus(Reference(inp.cfg, inp.a - r, inp.b - r).stats) == Reference(inp.cfg, inp.a, inp.b).stats
            <==> forall k <- r :: !TypeBlind(inp.cfg, Record(inp, k))
  {
    var r := Reusables(inp);
    ReusablesJournaled(inp);
    hide Sum, Reference, Stats.Plus, Reusables, RowAt, FreshAt, Sound, Record, TypeBlind, LastAt;
    RemainderCounters(inp);
    var rows, now, rest := RowAt(inp), FreshAt(inp.cfg, inp.a, inp.b), Reference(inp.cfg, inp.a - r, inp.b - r).stats;
    forall k | k in r
      ensures if TypeBlind(inp.cfg, Record(inp, k)) then rows(k).stats.sizeMismatch > now(k).stats.sizeMismatch
              else rows(k).stats == now(k).stats
    {
      ReusedCounters(inp, k);
    }
    if forall k <- r :: !TypeBlind(inp.cfg, Record(inp, k)) {
      SameStats(r, rows, now);
    } else {
      MoreMismatches(r, rows, now);
      PlusMismatch(Sum(r, rows).stats, Sum(r, now).stats, rest);
    }
  }

  lemma PlusMismatch(x: Stats, y: Stats, z: Stats)
    ensures x.sizeMismatch > y.sizeMismatch ==> x.Plus(z) != y.Plus(z)
  {}

  /** The condition is not always met: a directory recorded against a file, and replaced by an empty file with the
      directory's modification time, is reused as a size mismatch of two files that a fresh run finds identical. */
  lemma TypeBlindReuse(cfg: Config)
    returns (inp: Input)
    requires HashesByVersion(cfg) && cfg.caseSensitive && cfg.mode == Size
    ensures Sound(inp) && inp.cfg == cfg && inp.errorDirsA == [] && inp.errorDirsB == []
    ensures exists k <- Reusables(inp) :: TypeBlind(cfg, Record(inp, k)) && PairVerdict(cfg, inp.a[k], inp.b[k]).status == Identical
  {
    var k: Path := [97];
    var was := FileEntry(k, 0, 7, 0, 0, true, NotReparse, []);
    var now := was.(isDirectory := false);
    var e := ToJournalEntry(PairCapture(was, now, PairVerdict(cfg, was, now)));
    inp := Input(cfg, [e], map[k := now], map[k := now], [], []);
    assert IsPairRecord(cfg, e, was, now);
    assert LastAt(cfg, [e]) == map[k := 0] by { assert [e][..0] == []; }
    assert Fated(inp, k) == Reused;
    assert k in Reusables(inp);
  }

  // --- rebuilt rows ---

  /** The row that a fresh run reports for a key that both sides have, and the row rebuilt for its reused record: the same,
      or none in both cases, if and only if the record is not blind to types, the path is spelled as it was, and contents
      were not compared against a snapshot. */
  lemma ReusedRowIsFresh(cfg: Config, e: JournalEntry, a: FileEntry, b: FileEntry, a0: FileEntry, b0: FileEntry)
    requires HashesByVersion(cfg) && IsPairRecord(cfg, e, a0, b0) && StillValid(e, Some(a), Some(b))
    requires a.reparseKind == NotReparse && b.reparseKind == NotReparse && KeyOf(cfg, b) == KeyOf(cfg, b0)
    ensures PairVerdict(cfg, a, b).problem == (if ShowsRow(e) then Some(ReusedFileResult(e)) else None)
            <==> !TypeBlind(cfg, e) && (ShowsRow(e) ==> b.relativePath == e.path && (cfg.offline ==> e.verdict == SizeMismatch))
  {
    hide HashesByVersion, HashVerdict, LinkVerdict, ReusedFileResult, MismatchRow;
    ReusedPair(cfg, e, a, b, a0, b0);
    RowStatus(cfg, a, b);
    ReusedStatus(e);
    if !TypeBlind(cfg, e) && ShowsRow(e) { SameRow(cfg, e, a, b, a0, b0); }
  }

  /** A row carries the verdict, and matches have none. */
  lemma RowStatus(cfg: Config, a: FileEntry, b: FileEntry)
    ensures var v := PairVerdict(cfg, a, b);
            && (v.problem.Some? <==> v.status != Identical && v.status != IdenticalPartial)
            && (v.problem.Some? ==> v.problem.value.status == v.status)
  {
    hide PartialRead.Plan, EffectiveLevel;
  }

  lemma ReusedStatus(e: JournalEntry)
    requires !IsErrorVerdict(e.verdict)
    ensures ReusedFileResult(e).status == if e.verdict == IdenticalPartial then Identical else e.verdict
  {}

  lemma SameRow(cfg: Config, e: JournalEntry, a: FileEntry, b: FileEntry, a0: FileEntry, b0: FileEntry)
    requires HashesByVersion(cfg) && IsPairRecord(cfg, e, a0, b0) && StillValid(e, Some(a), Some(b))
    requires a.reparseKind == NotReparse && b.reparseKind == NotReparse && KeyOf(cfg, b) == KeyOf(cfg, b0)
    requires !TypeBlind(cfg, e) && ShowsRow(e)
    ensures PairVerdict(cfg, a, b).problem == Some(ReusedFileResult(e))
            <==> b.relativePath == e.path && (cfg.offline ==> e.verdict == SizeMismatch)
  {
    hide PartialRead.Plan, EffectiveLevel, HashesByVersion;
    PairPath(a0, b0, PairVerdict(cfg, a0, b0));
    HashNeverMismatch(cfg, CandidateOf(a0, b0));
    if a0.isDirectory == b0.isDirectory {
      SameHashes(cfg, CandidateOf(a, b), CandidateOf(a0, b0));
    }
  }

  lemma SameHashes(cfg: Config, c: Candidate, c0: Candidate)
    requires HashesByVersion(cfg) && KeyOfPath(cfg, c.path) == KeyOfPath(cfg, c0.path)
    ensures c == c0.(path := c.path) ==> cfg.hashSource(c) == cfg.hashSource(c0) && cfg.hashDest(c) == cfg.hashDest(c0)
  {
    if c == c0.(path := c.path) { assert c0 == c.(path := c0.path); }
  }

  /** A rebuilt one-sided row is the fresh row if and only if it is not a directory's and the path is spelled as it was:
      a record keeps one type flag, and the rebuilt row says nothing of the types per side. */
  lemma ReusedMissingIsFresh(e: JournalEntry, a: FileEntry)
    requires e.verdict == Missing && StillValid(e, Some(a), None) && a.reparseKind == NotReparse
    ensures MissingRow(a) == ReusedFileResult(e) <==> !e.isDirectory && a.relativePath == e.path
  {}

  lemma ReusedExtraIsFresh(e: JournalEntry, b: FileEntry)
    requires e.verdict == Extra && StillValid(e, None, Some(b)) && b.reparseKind == NotReparse
    ensures ExtraRow(b) == ReusedFileResult(e) <==> !e.isDirectory && b.relativePath == e.path
  {}
}
