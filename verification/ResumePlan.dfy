/** Splitting a loaded journal against two fresh trees: what is reused, what is verified again, what is dropped. */
module ResumePlan {
  import opened Wrappers
  import opened Bytes
  import opened Results
  import opened JournalCodec
  import opened JournalStats
  import opened Classify
  import opened RunResult
  import opened ConcurrentRun
  import opened FileIndex

  predicate IsErrorVerdict(v: Status) {
    v == ReadError || v == AccessDenied || v == ChangedDuringScan
  }

  /** rel is the directory itself or lies below it; the empty directory is the root, above everything. */
  predicate AtOrUnder(rel: Path, dir: Path) {
    if dir == [] then true
    else if |rel| < |dir| then false
    else if rel[..|dir|] != dir then false
    else |rel| == |dir| || rel[|dir|] == SEP
  }

  lemma AtOrUnderMeans(rel: Path, dir: Path)
    ensures AtOrUnder(rel, dir) <==> dir == [] || rel == dir || Below(rel, dir)
  {
    if |rel| > |dir| {
      assert rel[..|dir| + 1] == rel[..|dir|] + [rel[|dir|]];
      assert Below(rel, dir) <==> rel[..|dir| + 1] == dir + [SEP];
    } else if |rel| == |dir| {
      assert rel[..|dir|] == rel;
    }
  }

  method UnderAnyErrorDir(rel: Path, dirs: seq<Path>) returns (under: bool)
    ensures under <==> exists d <- dirs :: AtOrUnder(rel, d)
  {
    for i := 0 to |dirs|
      invariant forall j | 0 <= j < i :: !AtOrUnder(rel, dirs[j])
    {
      if AtOrUnder(rel, dirs[i]) { return true; }
    }
    under := false;
  }

  function FingerprintStale(savedSize: u64, savedMtime: u64, curSize: u64, curMtime: u64): bool {
    savedSize != curSize || savedMtime != curMtime
  }

  /** A loaded journal, two fresh trees, and the directories whose listings had errors. */
  datatype Input = Input(cfg: Config, journal: seq<JournalEntry>, a: Tree, b: Tree, errorDirsA: seq<Path>, errorDirsB: seq<Path>)

  function KeyOfPath(cfg: Config, p: Path): Path {
    if cfg.caseSensitive then p else cfg.fold(p)
  }

  /** The position of the last record of every journaled key. */
  function LastAt(cfg: Config, journal: seq<JournalEntry>): (m: map<Path, nat>)
    ensures forall k <- m :: m[k] < |journal| && KeyOfPath(cfg, journal[m[k]].path) == k
  {
    if journal == [] then map[] else
    var n := |journal| - 1;
    LastAt(cfg, journal[..n])[KeyOfPath(cfg, journal[n].path) := n]
  }

  lemma {:induction false} LastAtIsLast(cfg: Config, journal: seq<JournalEntry>, i: nat)
    requires i < |journal|
    ensures var k := KeyOfPath(cfg, journal[i].path); k in LastAt(cfg, journal) && LastAt(cfg, journal)[k] >= i
  {
    if i < |journal| - 1 { LastAtIsLast(cfg, journal[..|journal| - 1], i); }
  }

  datatype Fate = Reused | Reverified | Dropped | Refused

  /** The recorded version is still the current one: presence as the verdict implies, types, and for files size and
      modification time on every present side. */
  predicate StillValid(e: JournalEntry, a: Option<FileEntry>, b: Option<FileEntry>) {
    && !IsErrorVerdict(e.verdict)
    && (a.Some? <==> e.verdict != Extra) && (b.Some? <==> e.verdict != Missing)
    && (a.Some? ==> a.value.isDirectory == e.isDirectory
                    && (e.isDirectory || (e.sizeA == a.value.size && e.mtimeA == a.value.mtime)))
    && (b.Some? ==> b.value.isDirectory == e.isDirectory
                    && (e.isDirectory || (e.sizeB == b.value.size && e.mtimeB == b.value.mtime)))
  }

  ghost function FateOf(e: JournalEntry, a: Option<FileEntry>, b: Option<FileEntry>, inError: bool): Fate {
    if a.None? && b.None? then if inError then Refused else Dropped
    else if StillValid(e, a, b) && !inError then Reused
    else Reverified
  }

  ghost predicate InError(inp: Input, rel: Path) {
    (exists d <- inp.errorDirsA :: AtOrUnder(rel, d)) || (exists d <- inp.errorDirsB :: AtOrUnder(rel, d))
  }

  ghost function Record(inp: Input, k: Path): JournalEntry
    requires k in LastAt(inp.cfg, inp.journal)
  {
    inp.journal[LastAt(inp.cfg, inp.journal)[k]]
  }

  ghost function Fated(inp: Input, k: Path): Fate
    requires k in LastAt(inp.cfg, inp.journal)
  {
    var e := Record(inp, k);
    FateOf(e, At(inp.a, k), At(inp.b, k), InError(inp, e.path))
  }

  /** The journaled keys of one fate whose last record is among the first n. */
  ghost function KeysOf(inp: Input, fate: Fate, n: nat): set<Path> {
    var last := LastAt(inp.cfg, inp.journal);
    set k | k in last && last[k] < n && Fated(inp, k) == fate
  }

  ghost function ErrorKeys(inp: Input, n: nat): set<Path> {
    var last := LastAt(inp.cfg, inp.journal);
    set k | k in last && last[k] < n && IsErrorVerdict(Record(inp, k).verdict)
  }

  ghost function Consumed(inp: Input, n: nat): set<Path> {
    var last := LastAt(inp.cfg, inp.journal);
    set k | k in last && last[k] < n
  }

  /** The reused records, in journal order. */
  ghost function ReusedRows(inp: Input, n: nat): seq<JournalEntry>
    requires n <= |inp.journal|
  {
    if n == 0 then [] else
    var e, last := inp.journal[n - 1], LastAt(inp.cfg, inp.journal);
    var k := KeyOfPath(inp.cfg, e.path);
    ReusedRows(inp, n - 1) + (if k in last && last[k] == n - 1 && Fated(inp, k) == Reused then [e] else [])
  }

  function Observe(e: Option<FileEntry>): Option<Observed> {
    if e.Some? then Some(ObservedOf(e.value)) else None
  }

  /** What a journaled row counts for, given the current entries of its key. */
  function RowCounters(e: JournalEntry, a: Option<FileEntry>, b: Option<FileEntry>): Stats {
    EntryStats(e.verdict, e.isDirectory, Observe(a), Observe(b))
  }

  ghost function RowAt(inp: Input): Path -> Result {
    k => if k in LastAt(inp.cfg, inp.journal) then One(RowCounters(Record(inp, k), At(inp.a, k), At(inp.b, k)), None, None)
         else NOTHING
  }

  // --- rebuilt rows ---

  /** The row of a reused difference, rebuilt from its record. */
  function ReusedFileResult(e: JournalEntry): FileResult {
    var r := FileResult(Identical, e.path, false, 0, 0, e.isDirectory, NotReparse, false, NotReparse, false,
                        None, None, 100, Edges);
    match e.verdict
    case Missing => r.(status := Missing, underSource := true, sizeSource := e.sizeA)
    case Extra => r.(status := Extra, sizeDest := e.sizeB)
    case SizeMismatch => r.(status := SizeMismatch, sizeSource := e.sizeA, sizeDest := e.sizeB, isDirectory := false)
    case ContentMismatch =>
      r.(status := ContentMismatch, underSource := true, sizeSource := e.sizeA, sizeDest := e.sizeB,
         hashSource := e.hashA, hashDest := e.hashB, isDirectory := false)
    case ContentMismatchPartial =>
      r.(status := ContentMismatchPartial, underSource := true, sizeSource := e.sizeA, sizeDest := e.sizeB,
         hashSource := e.hashA, hashDest := e.hashB, percent := e.percent, pattern := e.pattern,
         isDirectory := false)
    case _ => r
  }

  predicate ShowsRow(e: JournalEntry) {
    e.verdict != Identical && e.verdict != IdenticalPartial
  }

  function RowsShown(es: seq<JournalEntry>): seq<FileResult> {
    if es == [] then [] else
    var n := |es| - 1;
    RowsShown(es[..n]) + (if ShowsRow(es[n]) then [ReusedFileResult(es[n])] else [])
  }

  // --- planning ---

  /** The plan as it is built, with the folded keys already decided. */
  class Plan {
    const cfg: Config
    const remainderA: Index
    const remainderB: Index
    var reusedEntries: seq<JournalEntry>
    var reusedProblems: seq<FileResult>
    var reusedStats: Stats
    var reused: nat
    var stale: nat
    var droppedBothGone: nat
    var errorRows: nat
    var consumed: set<Path>

    ghost predicate Valid()
      reads this, remainderA, remainderB
    {
      remainderA != remainderB && remainderA.Valid() && remainderB.Valid()
      && remainderA.cfg == cfg && remainderB.cfg == cfg
    }

    ghost function Now(): Progress
      reads this, remainderA, remainderB
    {
      Progress(remainderA.entries, remainderB.entries, reusedEntries, reusedProblems, reusedStats,
               reused, stale, droppedBothGone, errorRows, consumed)
    }

    constructor (cfg: Config)
      ensures Valid() && this.cfg == cfg && fresh(remainderA) && fresh(remainderB)
      ensures remainderA.entries == map[] && remainderB.entries == map[]
      ensures reusedEntries == [] && reusedProblems == [] && reusedStats == ZERO && consumed == {}
      ensures reused == 0 && stale == 0 && droppedBothGone == 0 && errorRows == 0
    {
      hide Index.Valid;
      this.cfg := cfg;
      remainderA := new Index(cfg);
      remainderB := new Index(cfg);
      reusedEntries, reusedProblems, reusedStats, consumed := [], [], ZERO, {};
      reused, stale, droppedBothGone, errorRows := 0, 0, 0, 0;
    }

    /** The current entries of a path go to the remainder. */
    method Route(curA: Option<FileEntry>, curB: Option<FileEntry>)
      requires Valid()
      modifies this`stale, remainderA, remainderB
      ensures Valid() && stale == old(stale) + 1
      ensures remainderA.entries == Added(cfg, old(remainderA.entries), curA)
      ensures remainderB.entries == Added(cfg, old(remainderB.entries), curB)
    {
      hide Index.Valid;
      stale := stale + 1;
      if curA.Some? { remainderA.AddEntry(curA.value); }
      if curB.Some? { remainderB.AddEntry(curB.value); }
    }

    /** One journaled record, the last of its path, with its current entries. */
    method OnRecord(e: JournalEntry, curA: Option<FileEntry>, curB: Option<FileEntry>, inErrA: bool, inErrB: bool)
      returns (ok: bool)
      requires Valid()
      modifies this, remainderA, remainderB
      ensures Valid() && ok == (FateOf(e, curA, curB, inErrA || inErrB) != Refused)
      ensures consumed == old(consumed) + {KeyOfPath(cfg, e.path)}
      ensures var fate := FateOf(e, curA, curB, inErrA || inErrB);
              ok ==>
              && remainderA.entries == (if fate == Reverified then Added(cfg, old(remainderA.entries), curA) else old(remainderA.entries))
              && remainderB.entries == (if fate == Reverified then Added(cfg, old(remainderB.entries), curB) else old(remainderB.entries))
              && stale == old(stale) + (if fate == Reverified then 1 else 0)
              && droppedBothGone == old(droppedBothGone) + (if fate == Dropped then 1 else 0)
              && errorRows == old(errorRows) + (if IsErrorVerdict(e.verdict) then 1 else 0)
              && reused == old(reused) + (if fate == Reused then 1 else 0)
              && reusedEntries == old(reusedEntries) + (if fate == Reused then [e] else [])
              && reusedProblems == old(reusedProblems) + (if fate == Reused && ShowsRow(e) then [ReusedFileResult(e)] else [])
              && reusedStats == (if fate == Reused then old(reusedStats).Plus(RowCounters(e, curA, curB)) else old(reusedStats))
    {
      hide Index.Valid, EntryStats, Stats.Plus, ReusedFileResult, Added;
      consumed := consumed + {KeyOfPath(cfg, e.path)};
      if IsErrorVerdict(e.verdict) {
        errorRows := errorRows + 1;
        if curA.None? && curB.None? {
          if inErrA || inErrB { return false; }
          droppedBothGone := droppedBothGone + 1;
          return true;
        }
        Route(curA, curB);
        return true;
      }
      var expectA, expectB := e.verdict != Extra, e.verdict != Missing;
      if curA.None? && curB.None? {
        if inErrA || inErrB { return false; }
        droppedBothGone := droppedBothGone + 1;
        return true;
      }
      if curA.Some? != expectA || curB.Some? != expectB {
        Route(curA, curB);
        return true;
      }
      if inErrA || inErrB {
        Route(curA, curB);
        return true;
      }
      var moved := IsStale(e, curA, curB);
      if moved {
        Route(curA, curB);
        return true;
      }
      reused := reused + 1;
      reusedEntries := reusedEntries + [e];
      reusedStats := AccumulateJournalStats(reusedStats, e, Observe(curA), Observe(curB));
      if e.verdict != Identical && e.verdict != IdenticalPartial {
        reusedProblems := reusedProblems + [ReusedFileResult(e)];
      }
      ok := true;
    }

    /** The body of the loop over the journal, for a record that is the last of its path. */
    method OnJournaled(currentA: Index, currentB: Index, errorDirsA: seq<Path>, errorDirsB: seq<Path>, e: JournalEntry,
                       ghost inp: Input, ghost n: nat, ghost k: Path)
      returns (ok: bool)
      requires Valid() && currentA != remainderA && currentA != remainderB && currentB != remainderA && currentB != remainderB
      requires inp == Input(cfg, inp.journal, currentA.entries, currentB.entries, errorDirsA, errorDirsB)
      requires currentA.cfg == cfg && currentB.cfg == cfg && Decides(inp, n, k) && e == inp.journal[n]
      modifies this, remainderA, remainderB
      ensures Valid() && ok == (Fated(inp, k) != Refused) && (ok ==> Now() == Next(inp, n, old(Now()), k))
    {
      hide Valid, Added, RowCounters, StillValid, ReusedFileResult, LastAt, AtOrUnder, Stats.Plus, IsErrorVerdict;
      var curA := currentA.Find(e.path);
      var curB := currentB.Find(e.path);
      var inErrA := UnderAnyErrorDir(e.path, errorDirsA);
      var inErrB := UnderAnyErrorDir(e.path, errorDirsB);
      ok := OnRecord(e, curA, curB, inErrA, inErrB);
    }
  }

  ghost function Unseen(current: Tree, consumed: set<Path>): Tree {
    current - consumed
  }

  /** Current paths that the journal never saw are verified too. */
  method PickUpUnseen(current: Tree, consumed: set<Path>, remainder: Index) returns (added: nat)
    requires remainder.Valid() && KeyedTree(remainder.cfg, current)
    modifies remainder
    ensures remainder.Valid() && remainder.entries == old(remainder.entries) + Unseen(current, consumed)
    ensures added == |Unseen(current, consumed)|
  {
    hide Index.Valid;
    ghost var start, unseen := remainder.entries, current - consumed;
    var left := current.Keys;
    added := 0;
    assert unseen - left == map[];
    while left != {}
      invariant left <= current.Keys && remainder.Valid()
      invariant remainder.entries == start + (unseen - left) && added == |unseen - left|
      decreases left
    {
      var k :| k in left;
      var e := current[k];
      var key := if remainder.cfg.caseSensitive then e.relativePath else remainder.cfg.fold(e.relativePath);
      UnseenStep(start, unseen, left, k, current);
      if key !in consumed {
        remainder.AddEntry(e);
        added := added + 1;
      }
      left := left - {k};
    }
    assert unseen - {} == unseen;
  }

  /** An entry, if there is one, added under its key. */
  ghost function Added(cfg: Config, t: Tree, e: Option<FileEntry>): Tree {
    if e.Some? then t[KeyOf(cfg, e.value) := e.value] else t
  }

  lemma UnseenStep(start: Tree, unseen: Tree, left: set<Path>, k: Path, current: Tree)
    requires k in left && unseen.Keys <= current.Keys && forall x <- unseen :: unseen[x] == current[x]
    requires k in current
    ensures start + (unseen - (left - {k})) == if k in unseen then (start + (unseen - left))[k := current[k]] else start + (unseen - left)
    ensures |unseen - (left - {k})| == |unseen - left| + (if k in unseen then 1 else 0)
  {
    var m := unseen - left;
    assert unseen - (left - {k}) == if k in unseen then m[k := current[k]] else m;
    OneMore(m, k, current[k]);
    OverlayUpdate(start, m, k, current[k]);
  }

  lemma OverlayUpdate(start: Tree, m: Tree, k: Path, e: FileEntry)
    ensures start + m[k := e] == (start + m)[k := e]
  {}

  /** The type is checked before size and modification time; directories stop there. */
  method IsStale(e: JournalEntry, curA: Option<FileEntry>, curB: Option<FileEntry>) returns (stale: bool)
    requires !IsErrorVerdict(e.verdict) && (curA.Some? || curB.Some?)
    requires (curA.Some? <==> e.verdict != Extra) && (curB.Some? <==> e.verdict != Missing)
    ensures stale <==> !StillValid(e, curA, curB)
  {
    if (curA.Some? && curA.value.isDirectory != e.isDirectory) || (curB.Some? && curB.value.isDirectory != e.isDirectory) {
      return true;
    }
    if e.isDirectory { return false; }
    if curA.Some? && curB.Some? {
      return FingerprintStale(e.sizeA, e.mtimeA, curA.value.size, curA.value.mtime)
             || FingerprintStale(e.sizeB, e.mtimeB, curB.value.size, curB.value.mtime);
    }
    if curA.Some? { return FingerprintStale(e.sizeA, e.mtimeA, curA.value.size, curA.value.mtime); }
    stale := FingerprintStale(e.sizeB, e.mtimeB, curB.value.size, curB.value.mtime);
  }

  // --- the plan after the first n records ---

  datatype Progress = Progress(
    a: Tree, b: Tree, entries: seq<JournalEntry>, problems: seq<FileResult>, stats: Stats,
    reused: nat, stale: nat, dropped: nat, errors: nat, consumed: set<Path>)

  ghost function Restrict(t: Tree, keys: set<Path>): Tree {
    map k | k in t && k in keys :: t[k]
  }

  ghost predicate PlannedTrees(inp: Input, n: nat, s: Progress) {
    s.a == Restrict(inp.a, KeysOf(inp, Reverified, n)) && s.b == Restrict(inp.b, KeysOf(inp, Reverified, n))
  }

  ghost predicate PlannedRows(inp: Input, n: nat, s: Progress)
    requires n <= |inp.journal|
  {
    && s.entries == ReusedRows(inp, n) && s.problems == RowsShown(s.entries)
    && s.stats == Sum(KeysOf(inp, Reused, n), RowAt(inp)).stats
  }

  ghost predicate PlannedCounts(inp: Input, n: nat, s: Progress) {
    && s.reused == |KeysOf(inp, Reused, n)| && s.stale == |KeysOf(inp, Reverified, n)|
    && s.dropped == |KeysOf(inp, Dropped, n)| && s.errors == |ErrorKeys(inp, n)|
    && s.consumed == Consumed(inp, n) && KeysOf(inp, Refused, n) == {}
  }

  ghost predicate Planned(inp: Input, n: nat, s: Progress)
    requires n <= |inp.journal|
  {
    PlannedTrees(inp, n, s) && PlannedRows(inp, n, s) && PlannedCounts(inp, n, s)
  }

  /** The key decided by the n-th record, if that record is the last of its path. */
  lemma KeysStep(inp: Input, fate: Fate, n: nat)
    requires n < |inp.journal|
    ensures var k, last := KeyOfPath(inp.cfg, inp.journal[n].path), LastAt(inp.cfg, inp.journal);
            if k in last && last[k] == n then
              KeysStepAt(inp, fate, n, k)
            else KeysOf(inp, fate, n + 1) == KeysOf(inp, fate, n)
  {
    hide LastAt, KeyOfPath, Fated, KeysOf, KeysStepAt;
    var k, last := KeyOfPath(inp.cfg, inp.journal[n].path), LastAt(inp.cfg, inp.journal);
    var before, after := KeysOf(inp, fate, n), KeysOf(inp, fate, n + 1);
    forall x ensures x in after <==> x in before || (x == k && k in last && last[k] == n && Fated(inp, k) == fate) {
      KeysMember(inp, fate, n, x);
      KeysMember(inp, fate, n + 1, x);
    }
    KeysMember(inp, fate, n, k);
    if k in last && last[k] == n {
      assert after == if Fated(inp, k) == fate then before + {k} else before;
      StepSize(inp, fate, n, k);
    } else {
      assert after == before;
    }
  }

  ghost predicate KeysStepAt(inp: Input, fate: Fate, n: nat, k: Path)
    requires k in LastAt(inp.cfg, inp.journal)
  {
    && k !in KeysOf(inp, fate, n)
    && KeysOf(inp, fate, n + 1) == (if Fated(inp, k) == fate then KeysOf(inp, fate, n) + {k} else KeysOf(inp, fate, n))
    && |KeysOf(inp, fate, n + 1)| == |KeysOf(inp, fate, n)| + (if Fated(inp, k) == fate then 1 else 0)
  }

  lemma StepSize(inp: Input, fate: Fate, n: nat, k: Path)
    requires k in LastAt(inp.cfg, inp.journal) && k !in KeysOf(inp, fate, n)
    requires KeysOf(inp, fate, n + 1) == if Fated(inp, k) == fate then KeysOf(inp, fate, n) + {k} else KeysOf(inp, fate, n)
    ensures KeysStepAt(inp, fate, n, k)
  {
    hide LastAt, Fated, KeysOf;
  }

  lemma KeysMember(inp: Input, fate: Fate, n: nat, x: Path)
    ensures var last := LastAt(inp.cfg, inp.journal);
            x in KeysOf(inp, fate, n) <==> x in last && last[x] < n && Fated(inp, x) == fate
  {
    hide LastAt, Fated;
  }

  lemma ErrorKeysStep(inp: Input, n: nat)
    requires n < |inp.journal|
    ensures var k, last := KeyOfPath(inp.cfg, inp.journal[n].path), LastAt(inp.cfg, inp.journal);
            if k in last && last[k] == n then
              k !in ErrorKeys(inp, n)
              && ErrorKeys(inp, n + 1) == (if IsErrorVerdict(inp.journal[n].verdict) then ErrorKeys(inp, n) + {k} else ErrorKeys(inp, n))
              && |ErrorKeys(inp, n + 1)| == |ErrorKeys(inp, n)| + (if IsErrorVerdict(inp.journal[n].verdict) then 1 else 0)
            else ErrorKeys(inp, n + 1) == ErrorKeys(inp, n)
  {
    hide LastAt, KeyOfPath, IsErrorVerdict;
  }

  lemma ConsumedStep(inp: Input, n: nat)
    requires n < |inp.journal|
    ensures var k, last := KeyOfPath(inp.cfg, inp.journal[n].path), LastAt(inp.cfg, inp.journal);
            Consumed(inp, n + 1) == if k in last && last[k] == n then Consumed(inp, n) + {k} else Consumed(inp, n)
  {
    hide LastAt, KeyOfPath;
  }

  lemma PlannedSkip(inp: Input, n: nat, s: Progress)
    requires n < |inp.journal| && Planned(inp, n, s)
    requires var k, last := KeyOfPath(inp.cfg, inp.journal[n].path), LastAt(inp.cfg, inp.journal); k in last && last[k] != n
    ensures Planned(inp, n + 1, s)
  {
    hide KeysOf, ErrorKeys, Consumed, Fated, RowAt, LastAt;
    forall fate { KeysStep(inp, fate, n); }
    ErrorKeysStep(inp, n);
    ConsumedStep(inp, n);
  }

  /** What OnRecord makes of the plan. */
  ghost function After(cfg: Config, s: Progress, e: JournalEntry, a: Option<FileEntry>, b: Option<FileEntry>, fate: Fate): Progress {
    var s' := s.(consumed := s.consumed + {KeyOfPath(cfg, e.path)}, errors := s.errors + (if IsErrorVerdict(e.verdict) then 1 else 0));
    match fate
    case Reverified => s'.(a := Added(cfg, s.a, a), b := Added(cfg, s.b, b), stale := s.stale + 1)
    case Dropped => s'.(dropped := s.dropped + 1)
    case Refused => s'
    case Reused =>
      s'.(reused := s.reused + 1, entries := s.entries + [e], stats := s.stats.Plus(RowCounters(e, a, b)),
          problems := s.problems + (if ShowsRow(e) then [ReusedFileResult(e)] else []))
  }

  lemma RestrictStep(cfg: Config, t: Tree, keys: set<Path>, k: Path)
    requires KeyedTree(cfg, t)
    ensures Restrict(t, keys + {k}) == Added(cfg, Restrict(t, keys), At(t, k))
  {}

  ghost predicate Decides(inp: Input, n: nat, k: Path) {
    && n < |inp.journal| && k == KeyOfPath(inp.cfg, inp.journal[n].path)
    && k in LastAt(inp.cfg, inp.journal) && LastAt(inp.cfg, inp.journal)[k] == n
  }

  ghost function Next(inp: Input, n: nat, s: Progress, k: Path): Progress
    requires Decides(inp, n, k)
  {
    After(inp.cfg, s, inp.journal[n], At(inp.a, k), At(inp.b, k), Fated(inp, k))
  }

  lemma PlannedRecord(inp: Input, n: nat, s: Progress, k: Path)
    requires Decides(inp, n, k) && Planned(inp, n, s) && KeyedTree(inp.cfg, inp.a) && KeyedTree(inp.cfg, inp.b)
    requires Fated(inp, k) != Refused
    ensures Planned(inp, n + 1, Next(inp, n, s, k))
  {
    hide PlannedTrees, PlannedRows, PlannedCounts, Next, Decides, Fated;
    NextTrees(inp, n, s, k);
    NextCounts(inp, n, s, k);
  }

  lemma NextTrees(inp: Input, n: nat, s: Progress, k: Path)
    requires Decides(inp, n, k) && Planned(inp, n, s) && KeyedTree(inp.cfg, inp.a) && KeyedTree(inp.cfg, inp.b)
    ensures PlannedTrees(inp, n + 1, Next(inp, n, s, k)) && PlannedRows(inp, n + 1, Next(inp, n, s, k))
  {
    hide KeysOf, PlannedCounts, Fated, LastAt, Restrict, Added, Stats.Plus, RowCounters, ReusedFileResult, KeyedTree, KeyOfPath,
         Sum, At, RowsShown, ShowsRow, IsErrorVerdict, RowAt;
    KeysStep(inp, Reverified, n);
    KeysStep(inp, Reused, n);
    RestrictStep(inp.cfg, inp.a, KeysOf(inp, Reverified, n), k);
    RestrictStep(inp.cfg, inp.b, KeysOf(inp, Reverified, n), k);
    if Fated(inp, k) == Reused { ReusedStep(inp, n, s, k); }
  }

  lemma NextCounts(inp: Input, n: nat, s: Progress, k: Path)
    requires Decides(inp, n, k) && PlannedCounts(inp, n, s) && Fated(inp, k) != Refused
    ensures PlannedCounts(inp, n + 1, Next(inp, n, s, k))
  {
    hide KeysOf, ErrorKeys, Consumed, Fated, LastAt, Added, Stats.Plus, RowCounters, ReusedFileResult, KeyOfPath, At, ShowsRow,
         IsErrorVerdict;
    forall fate { KeysStep(inp, fate, n); }
    ErrorKeysStep(inp, n);
    ConsumedStep(inp, n);
  }

  lemma ReusedStep(inp: Input, n: nat, s: Progress, k: Path)
    requires n < |inp.journal| && k == KeyOfPath(inp.cfg, inp.journal[n].path)
    requires k in LastAt(inp.cfg, inp.journal) && LastAt(inp.cfg, inp.journal)[k] == n && Fated(inp, k) == Reused
    requires k !in KeysOf(inp, Reused, n) && KeysOf(inp, Reused, n + 1) == KeysOf(inp, Reused, n) + {k}
    ensures var e := inp.journal[n];
            && Sum(KeysOf(inp, Reused, n + 1), RowAt(inp)).stats
               == Sum(KeysOf(inp, Reused, n), RowAt(inp)).stats.Plus(RowCounters(e, At(inp.a, k), At(inp.b, k)))
            && ReusedRows(inp, n + 1) == ReusedRows(inp, n) + [e]
            && RowsShown(ReusedRows(inp, n) + [e]) == RowsShown(ReusedRows(inp, n)) + (if ShowsRow(e) then [ReusedFileResult(e)] else [])
  {
    hide KeysOf, Fated, LastAt, Stats.Plus, RowCounters, ReusedFileResult, KeyOfPath, Sum, At;
    var keys, e := KeysOf(inp, Reused, n), inp.journal[n];
    SumTake(keys + {k}, RowAt(inp), k);
    assert keys + {k} - {k} == keys;
    PlusComm(RowCounters(e, At(inp.a, k), At(inp.b, k)), Sum(keys, RowAt(inp)).stats);
    assert (ReusedRows(inp, n) + [e])[..|ReusedRows(inp, n)|] == ReusedRows(inp, n);
  }

  // --- the whole plan ---

  /** Where the last record of every path is. */
  method IndexJournal(cfg: Config, journal: seq<JournalEntry>) returns (lastIndex: map<Path, nat>)
    ensures lastIndex == LastAt(cfg, journal)
  {
    lastIndex := map[];
    for i := 0 to |journal|
      invariant lastIndex == LastAt(cfg, journal[..i])
    {
      assert journal[..i + 1][..i] == journal[..i];
      lastIndex := lastIndex[KeyOfPath(cfg, journal[i].path) := i];
    }
    assert journal[..|journal|] == journal;
  }

  /** The plan is refused exactly when a journaled path is gone from both sides inside an errored subtree. */
  method PlanResume(cfg: Config, journal: seq<JournalEntry>, currentA: Index, currentB: Index,
                    errorDirsA: seq<Path>, errorDirsB: seq<Path>)
    returns (plan: Option<Plan>)
    requires currentA.Valid() && currentB.Valid() && currentA.cfg == cfg && currentB.cfg == cfg
    ensures var inp, n := Input(cfg, journal, currentA.entries, currentB.entries, errorDirsA, errorDirsB), |journal|;
            && (plan.None? <==> KeysOf(inp, Refused, n) != {})
            && (plan.Some? ==> PlanOf(inp, plan.value.Now()))
  {
    hide Planned, KeysOf, LastAt, PlanOf, Index.Valid, Plan.Valid, WithUnseen, KeyedTree;
    currentA.EntriesKeyed();
    currentB.EntriesKeyed();
    ghost var inp := Input(cfg, journal, currentA.entries, currentB.entries, errorDirsA, errorDirsB);
    var p := new Plan(cfg);
    var lastIndex := IndexJournal(cfg, journal);
    PlannedStart(inp);
    var ok := ReadJournal(p, journal, lastIndex, currentA, currentB, errorDirsA, errorDirsB, inp);
    if !ok { return None; }
    PlannedFinal(inp, p.Now());
    AddUnseen(p, currentA.entries, currentB.entries);
    plan := Some(p);
  }

  ghost predicate InputsOf(inp: Input, p: Plan, currentA: Index, currentB: Index)
    reads p, currentA, currentB
  {
    && inp.cfg == p.cfg && currentA.cfg == p.cfg && currentB.cfg == p.cfg
    && inp.a == currentA.entries && inp.b == currentB.entries
    && currentA != p.remainderA && currentA != p.remainderB && currentB != p.remainderA && currentB != p.remainderB
    && KeyedTree(inp.cfg, inp.a) && KeyedTree(inp.cfg, inp.b)
  }

  /** The loop over the journal. */
  method ReadJournal(p: Plan, journal: seq<JournalEntry>, lastIndex: map<Path, nat>, currentA: Index, currentB: Index,
                     errorDirsA: seq<Path>, errorDirsB: seq<Path>, ghost inp: Input)
    returns (ok: bool)
    requires p.Valid() && InputsOf(inp, p, currentA, currentB)
    requires inp.journal == journal && inp.errorDirsA == errorDirsA && inp.errorDirsB == errorDirsB
    requires lastIndex == LastAt(p.cfg, journal) && Planned(inp, 0, p.Now())
    modifies p, p.remainderA, p.remainderB
    ensures p.Valid() && ok == (KeysOf(inp, Refused, |journal|) == {}) && (ok ==> Planned(inp, |journal|, p.Now()))
  {
    hide Planned, KeysOf, Fated, After, LastAt, Next, Plan.Valid, FateOf, KeyedTree;
    for i := 0 to |journal|
      invariant p.Valid() && Planned(inp, i, p.Now())
    {
      var e := journal[i];
      var k := KeyOfPath(p.cfg, e.path);
      LastAtIsLast(p.cfg, journal, i);
      ghost var before := p.Now();
      if lastIndex[k] != i {
        PlannedSkip(inp, i, before);
        continue;
      }
      ok := p.OnJournaled(currentA, currentB, errorDirsA, errorDirsB, e, inp, i, k);
      if !ok {
        RefusedStays(inp, k, i);
        return false;
      }
      PlannedRecord(inp, i, before, k);
    }
    PlannedEnd(inp, p.Now());
    ok := true;
  }

  /** The two loops over the current trees. */
  method AddUnseen(p: Plan, treeA: Tree, treeB: Tree)
    requires p.Valid() && KeyedTree(p.cfg, treeA) && KeyedTree(p.cfg, treeB)
    modifies p`stale, p.remainderA, p.remainderB
    ensures p.Now() == WithUnseen(old(p.Now()), treeA, treeB)
  {
    hide Index.Valid, KeyedTree, Unseen;
    var a, b, consumed := p.remainderA, p.remainderB, p.consumed;
    ghost var wasA, wasB := a.entries, b.entries;
    var unseenA := PickUpUnseen(treeA, consumed, a);
    var unseenB := PickUpUnseen(treeB, consumed, b);
    p.stale := p.stale + unseenA + unseenB;
    assert a.entries == wasA + Unseen(treeA, consumed) && b.entries == wasB + Unseen(treeB, consumed);
  }

  ghost function WithUnseen(s: Progress, a: Tree, b: Tree): Progress {
    var ua, ub := Unseen(a, s.consumed), Unseen(b, s.consumed);
    s.(a := s.a + ua, b := s.b + ub, stale := s.stale + |ua| + |ub|)
  }

  /** The finished plan: the reused keys leave both trees and everything else that is present goes to the remainders, so
      both sides of a key always go the same way; the counters count keys, and every reused row is counted once. */
  ghost predicate PlanOf(inp: Input, p: Progress) {
    var n := |inp.journal|;
    var reused := KeysOf(inp, Reused, n);
    && p.a == inp.a - reused && p.b == inp.b - reused
    && p.entries == ReusedRows(inp, n) && p.problems == RowsShown(p.entries)
    && p.stats == Sum(reused, RowAt(inp)).stats && p.reused == |reused|
    && p.dropped == |KeysOf(inp, Dropped, n)| && p.errors == |ErrorKeys(inp, n)|
    && p.stale == |KeysOf(inp, Reverified, n)| + |inp.a - Consumed(inp, n)| + |inp.b - Consumed(inp, n)|
  }

  lemma PlannedFinal(inp: Input, s: Progress)
    requires Planned(inp, |inp.journal|, s)
    ensures PlanOf(inp, WithUnseen(s, inp.a, inp.b))
  {
    hide KeysOf, Consumed, ErrorKeys, ReusedRows, RowsShown, Sum, RowAt, Restrict;
    PlannedEnd(inp, s);
  }

  lemma PlannedStart(inp: Input)
    ensures Planned(inp, 0, Progress(map[], map[], [], [], ZERO, 0, 0, 0, 0, {}))
  {
    forall fate ensures KeysOf(inp, fate, 0) == {} {}
    assert ErrorKeys(inp, 0) == {} && Consumed(inp, 0) == {};
  }

  lemma RefusedStays(inp: Input, k: Path, n: nat)
    requires Decides(inp, n, k) && Fated(inp, k) == Refused
    ensures k in KeysOf(inp, Refused, |inp.journal|)
  {
    hide FateOf, InError;
  }

  /** With the unseen paths, exactly the reused keys are left out of the remainders. */
  lemma PlannedEnd(inp: Input, s: Progress)
    requires Planned(inp, |inp.journal|, s)
    ensures KeysOf(inp, Refused, |inp.journal|) == {} && s.consumed == Consumed(inp, |inp.journal|)
    ensures s.a + (inp.a - s.consumed) == inp.a - KeysOf(inp, Reused, |inp.journal|)
    ensures s.b + (inp.b - s.consumed) == inp.b - KeysOf(inp, Reused, |inp.journal|)
  {
    hide PlannedRows, PlannedCounts, KeysOf, Consumed, Restrict, LastAt;
    var n := |inp.journal|;
    NoRefused(inp, s);
    forall k | k in inp.a || k in inp.b { FateAtEnd(inp, k); }
    RestEnd(inp.a, KeysOf(inp, Reverified, n), s.consumed, KeysOf(inp, Reused, n));
    RestEnd(inp.b, KeysOf(inp, Reverified, n), s.consumed, KeysOf(inp, Reused, n));
  }

  lemma NoRefused(inp: Input, s: Progress)
    requires Planned(inp, |inp.journal|, s)
    ensures KeysOf(inp, Refused, |inp.journal|) == {} && s.consumed == Consumed(inp, |inp.journal|)
  {
    hide PlannedTrees, PlannedRows, KeysOf, Consumed, ErrorKeys;
  }

  /** Every key that is present is reused, verified again, or unseen by the journal. */
  lemma FateAtEnd(inp: Input, k: Path)
    requires (k in inp.a || k in inp.b) && KeysOf(inp, Refused, |inp.journal|) == {}
    ensures var n := |inp.journal|;
            if k in Consumed(inp, n) then k in KeysOf(inp, Reused, n) <==> k !in KeysOf(inp, Reverified, n)
            else k !in KeysOf(inp, Reused, n) && k !in KeysOf(inp, Reverified, n)
  {
    hide KeysOf, LastAt, StillValid, InError;
    forall fate { KeysMember(inp, fate, |inp.journal|, k); }
  }

  lemma RestEnd(t: Tree, verify: set<Path>, consumed: set<Path>, reused: set<Path>)
    requires forall k <- t :: if k in consumed then k in reused <==> k !in verify else k !in reused && k !in verify
    ensures Restrict(t, verify) + (t - consumed) == t - reused
  {}
}
