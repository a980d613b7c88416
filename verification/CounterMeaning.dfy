/** What every counter counts: the keys with one verdict, the entries of one side, the bytes of their files. */
module CounterMeaning {
  import opened Wrappers
  import opened Bytes
  import opened Results
  import opened JournalCodec
  import opened JournalStats
  import opened Classify
  import opened RunResult
  import opened FileIndex
  import opened ResumePlan
  import opened ResumeEqualsFresh

  // --- totals over finite sets ---

  ghost function TotalOf<T(!new)>(s: set<T>, size: T -> nat): nat
    decreases |s|
  {
    if s == {} then 0 else
    var k :| k in s;
    size(k) + TotalOf(s - {k}, size)
  }

  lemma {:induction false} TotalTake<T(!new)>(s: set<T>, size: T -> nat, k: T)
    requires k in s
    ensures TotalOf(s, size) == size(k) + TotalOf(s - {k}, size)
    decreases |s|
  {
    var first :| first in s && TotalOf(s, size) == size(first) + TotalOf(s - {first}, size);
    if first != k {
      TotalTake(s - {first}, size, k);
      TotalTake(s - {k}, size, first);
      assert s - {first} - {k} == s - {k} - {first};
    }
  }

  // --- what is counted ---

  /** The rows to count: their verdicts, their types, and what each side observed. */
  datatype Rows<!T(!new)> = Rows(verdict: T -> Status, dir: T -> bool, a: T -> Option<Observed>, b: T -> Option<Observed>)

  ghost function Having<T(!new)>(keys: set<T>, verdict: T -> Status, s: Status): set<T> {
    set k | k in keys && verdict(k) == s
  }

  ghost function HavingType<T(!new)>(keys: set<T>, r: Rows<T>, s: Status, dir: bool): set<T> {
    set k | k in keys && r.verdict(k) == s && r.dir(k) == dir
  }

  /** The keys at which a side has a file, or a directory. */
  ghost function Present<T(!new)>(keys: set<T>, side: T -> Option<Observed>, dir: bool): set<T> {
    set k | k in keys && side(k).Some? && side(k).value.isDirectory == dir
  }

  ghost function SizeAt<T(!new)>(side: T -> Option<Observed>): T -> nat {
    k => if side(k).Some? then side(k).value.size else 0
  }

  /** The counter of every verdict is the number of its keys; matches and one-sided entries by type. */
  ghost predicate VerdictsTally<T(!new)>(st: Stats, keys: set<T>, r: Rows<T>) {
    && st.identicalFiles == |HavingType(keys, r, Identical, false)| && st.identicalDirs == |HavingType(keys, r, Identical, true)|
    && st.missingFiles == |HavingType(keys, r, Missing, false)| && st.missingDirs == |HavingType(keys, r, Missing, true)|
    && st.extraFiles == |HavingType(keys, r, Extra, false)| && st.extraDirs == |HavingType(keys, r, Extra, true)|
    && st.sizeMismatch == |Having(keys, r.verdict, SizeMismatch)|
    && st.contentMismatch == |Having(keys, r.verdict, ContentMismatch)|
    && st.identicalPartialFiles == |Having(keys, r.verdict, IdenticalPartial)|
    && st.contentMismatchPartial == |Having(keys, r.verdict, ContentMismatchPartial)|
  }

  /** A run counts its errors; rows of a journal are counted without theirs. */
  ghost predicate ErrorsTally<T(!new)>(st: Stats, keys: set<T>, r: Rows<T>, errors: bool) {
    && st.readErrors == (if errors then |Having(keys, r.verdict, ReadError)| else 0)
    && st.accessDenied == (if errors then |Having(keys, r.verdict, AccessDenied)| else 0)
    && st.changedDuringScan == (if errors then |Having(keys, r.verdict, ChangedDuringScan)| else 0)
  }

  /** The counters of the sides are the numbers of their files and directories, and the bytes of their files. */
  ghost predicate SidesTally<T(!new)>(st: Stats, keys: set<T>, r: Rows<T>) {
    && st.sourceFiles == |Present(keys, r.a, false)| && st.sourceDirs == |Present(keys, r.a, true)|
    && st.destFiles == |Present(keys, r.b, false)| && st.destDirs == |Present(keys, r.b, true)|
    && st.bytesSource == TotalOf(Present(keys, r.a, false), SizeAt(r.a))
    && st.bytesDest == TotalOf(Present(keys, r.b, false), SizeAt(r.b))
  }

  ghost predicate Tallies<T(!new)>(st: Stats, keys: set<T>, r: Rows<T>, errors: bool) {
    VerdictsTally(st, keys, r) && ErrorsTally(st, keys, r, errors) && SidesTally(st, keys, r)
  }

  // --- one key more ---

  function Contribution(errors: bool, verdict: Status, dir: bool, a: Option<Observed>, b: Option<Observed>): Stats {
    SideStats(true, a).Plus(SideStats(false, b)).Plus(VerdictPart(errors, verdict, dir))
  }

  lemma HavingMore<T(!new)>(keys: set<T>, k: T, verdict: T -> Status, s: Status)
    requires k !in keys
    ensures |Having(keys + {k}, verdict, s)| == |Having(keys, verdict, s)| + (if verdict(k) == s then 1 else 0)
  {
    assert Having(keys + {k}, verdict, s) == if verdict(k) == s then Having(keys, verdict, s) + {k} else Having(keys, verdict, s);
  }

  lemma HavingTypeMore<T(!new)>(keys: set<T>, k: T, r: Rows<T>, s: Status, dir: bool)
    requires k !in keys
    ensures |HavingType(keys + {k}, r, s, dir)| == |HavingType(keys, r, s, dir)| + (if r.verdict(k) == s && r.dir(k) == dir then 1 else 0)
  {
    if r.verdict(k) == s && r.dir(k) == dir {
      assert HavingType(keys + {k}, r, s, dir) == HavingType(keys, r, s, dir) + {k};
    } else {
      assert HavingType(keys + {k}, r, s, dir) == HavingType(keys, r, s, dir);
    }
  }

  lemma PresentMore<T(!new)>(keys: set<T>, k: T, side: T -> Option<Observed>, dir: bool)
    requires k !in keys
    ensures var more := side(k).Some? && side(k).value.isDirectory == dir;
            && |Present(keys + {k}, side, dir)| == |Present(keys, side, dir)| + (if more then 1 else 0)
            && TotalOf(Present(keys + {k}, side, dir), SizeAt(side))
               == TotalOf(Present(keys, side, dir), SizeAt(side)) + (if more then SizeAt(side)(k) else 0)
  {
    var before, after := Present(keys, side, dir), Present(keys + {k}, side, dir);
    if side(k).Some? && side(k).value.isDirectory == dir {
      assert after == before + {k} && after - {k} == before;
      TotalTake(after, SizeAt(side), k);
    } else {
      assert after == before;
    }
  }

  function OneIf(c: bool): nat { if c then 1 else 0 }

  function VerdictPart(errors: bool, v: Status, dir: bool): Stats {
    if errors then RunCounters(v, dir) else VerdictStats(v, dir)
  }

  /** The counters of one verdict: its own is one, every other is zero. */
  ghost predicate OnlyVerdict(x: Stats, errors: bool, v: Status, dir: bool) {
    && x.identicalFiles == OneIf(v == Identical && !dir) && x.identicalDirs == OneIf(v == Identical && dir)
    && x.missingFiles == OneIf(v == Missing && !dir) && x.missingDirs == OneIf(v == Missing && dir)
    && x.extraFiles == OneIf(v == Extra && !dir) && x.extraDirs == OneIf(v == Extra && dir)
    && x.sizeMismatch == OneIf(v == SizeMismatch) && x.contentMismatch == OneIf(v == ContentMismatch)
    && x.identicalPartialFiles == OneIf(v == IdenticalPartial) && x.contentMismatchPartial == OneIf(v == ContentMismatchPartial)
    && x.readErrors == OneIf(errors && v == ReadError) && x.accessDenied == OneIf(errors && v == AccessDenied)
    && x.changedDuringScan == OneIf(errors && v == ChangedDuringScan)
  }

  ghost predicate NoVerdict(x: Stats) {
    && x.identicalFiles == x.identicalDirs == x.missingFiles == x.missingDirs == x.extraFiles == x.extraDirs == 0
    && x.sizeMismatch == x.contentMismatch == x.identicalPartialFiles == x.contentMismatchPartial == 0
    && x.readErrors == x.accessDenied == x.changedDuringScan == 0
  }

  /** The counters of two sides. */
  ghost predicate OnlySides(x: Stats, a: Option<Observed>, b: Option<Observed>) {
    && x.sourceFiles == OneIf(a.Some? && !a.value.isDirectory) && x.sourceDirs == OneIf(a.Some? && a.value.isDirectory)
    && x.destFiles == OneIf(b.Some? && !b.value.isDirectory) && x.destDirs == OneIf(b.Some? && b.value.isDirectory)
    && x.bytesSource == (if a.Some? && !a.value.isDirectory then a.value.size else 0)
    && x.bytesDest == (if b.Some? && !b.value.isDirectory then b.value.size else 0)
  }

  lemma VerdictPartMeans(errors: bool, v: Status, dir: bool)
    ensures OnlyVerdict(VerdictPart(errors, v, dir), errors, v, dir) && OnlySides(VerdictPart(errors, v, dir), None, None)
  {
    hide VerdictPart;
    TypedPart(errors, v, dir);
    UntypedPart(errors, v, dir);
    ErrorPart(errors, v, dir);
    SidesPart(errors, v, dir);
  }

  lemma TypedPart(errors: bool, v: Status, dir: bool)
    ensures var x := VerdictPart(errors, v, dir);
            && x.identicalFiles == OneIf(v == Identical && !dir) && x.identicalDirs == OneIf(v == Identical && dir)
            && x.missingFiles == OneIf(v == Missing && !dir) && x.missingDirs == OneIf(v == Missing && dir)
            && x.extraFiles == OneIf(v == Extra && !dir) && x.extraDirs == OneIf(v == Extra && dir)
  {}

  lemma UntypedPart(errors: bool, v: Status, dir: bool)
    ensures var x := VerdictPart(errors, v, dir);
            && x.sizeMismatch == OneIf(v == SizeMismatch) && x.contentMismatch == OneIf(v == ContentMismatch)
            && x.identicalPartialFiles == OneIf(v == IdenticalPartial) && x.contentMismatchPartial == OneIf(v == ContentMismatchPartial)
  {}

  lemma ErrorPart(errors: bool, v: Status, dir: bool)
    ensures var x := VerdictPart(errors, v, dir);
            && x.readErrors == OneIf(errors && v == ReadError) && x.accessDenied == OneIf(errors && v == AccessDenied)
            && x.changedDuringScan == OneIf(errors && v == ChangedDuringScan)
  {}

  lemma SidesPart(errors: bool, v: Status, dir: bool)
    ensures OnlySides(VerdictPart(errors, v, dir), None, None)
  {
    hide VerdictPart;
    SourcePart(errors, v, dir);
    DestPart(errors, v, dir);
  }

  lemma SourcePart(errors: bool, v: Status, dir: bool)
    ensures var x := VerdictPart(errors, v, dir); x.sourceFiles == x.sourceDirs == x.bytesSource == 0
  {}

  lemma DestPart(errors: bool, v: Status, dir: bool)
    ensures var x := VerdictPart(errors, v, dir); x.destFiles == x.destDirs == x.bytesDest == 0
  {}

  lemma SourcePartMeans(o: Option<Observed>)
    ensures NoVerdict(SideStats(true, o)) && OnlySides(SideStats(true, o), o, None)
  {
    if o.Some? {
      if o.value.isDirectory {} else {}
    }
  }

  lemma DestPartMeans(o: Option<Observed>)
    ensures NoVerdict(SideStats(false, o)) && OnlySides(SideStats(false, o), None, o)
  {
    if o.Some? {
      if o.value.isDirectory {} else {}
    }
  }

  lemma VerdictsPartsAdd(x: Stats, y: Stats, z: Stats, errors: bool, v: Status, dir: bool)
    requires NoVerdict(x) && NoVerdict(y) && OnlyVerdict(z, errors, v, dir)
    ensures OnlyVerdict(x.Plus(y).Plus(z), errors, v, dir)
  {
    hide OneIf;
  }

  lemma SidesPartsAdd(x: Stats, y: Stats, z: Stats, a: Option<Observed>, b: Option<Observed>)
    requires OnlySides(x, a, None) && OnlySides(y, None, b) && OnlySides(z, None, None)
    ensures OnlySides(x.Plus(y).Plus(z), a, b)
  {}

  /** What one row adds. */
  lemma ContributionMeans(errors: bool, v: Status, dir: bool, a: Option<Observed>, b: Option<Observed>)
    ensures OnlyVerdict(Contribution(errors, v, dir, a, b), errors, v, dir) && OnlySides(Contribution(errors, v, dir, a, b), a, b)
  {
    hide OnlyVerdict, OnlySides, NoVerdict, SideStats, RunCounters, VerdictStats, Stats.Plus;
    VerdictPartMeans(errors, v, dir);
    SourcePartMeans(a);
    DestPartMeans(b);
    VerdictsPartsAdd(SideStats(true, a), SideStats(false, b), VerdictPart(errors, v, dir), errors, v, dir);
    SidesPartsAdd(SideStats(true, a), SideStats(false, b), VerdictPart(errors, v, dir), a, b);
  }

  lemma VerdictsMore<T(!new)>(st: Stats, keys: set<T>, k: T, r: Rows<T>, errors: bool)
    requires k !in keys && VerdictsTally(st, keys, r) && ErrorsTally(st, keys, r, errors)
    ensures var now := st.Plus(Contribution(errors, r.verdict(k), r.dir(k), r.a(k), r.b(k)));
            VerdictsTally(now, keys + {k}, r) && ErrorsTally(now, keys + {k}, r, errors)
  {
    hide Having, HavingType, Contribution, OnlySides;
    ContributionMeans(errors, r.verdict(k), r.dir(k), r.a(k), r.b(k));
    HavingTypeMore(keys, k, r, Identical, false);
    HavingTypeMore(keys, k, r, Identical, true);
    HavingTypeMore(keys, k, r, Missing, false);
    HavingTypeMore(keys, k, r, Missing, true);
    HavingTypeMore(keys, k, r, Extra, false);
    HavingTypeMore(keys, k, r, Extra, true);
    HavingMore(keys, k, r.verdict, SizeMismatch);
    HavingMore(keys, k, r.verdict, ContentMismatch);
    HavingMore(keys, k, r.verdict, IdenticalPartial);
    HavingMore(keys, k, r.verdict, ContentMismatchPartial);
    HavingMore(keys, k, r.verdict, ReadError);
    HavingMore(keys, k, r.verdict, AccessDenied);
    HavingMore(keys, k, r.verdict, ChangedDuringScan);
  }

  lemma SidesMore<T(!new)>(st: Stats, keys: set<T>, k: T, r: Rows<T>, errors: bool)
    requires k !in keys && SidesTally(st, keys, r)
    ensures SidesTally(st.Plus(Contribution(errors, r.verdict(k), r.dir(k), r.a(k), r.b(k))), keys + {k}, r)
  {
    hide Present, Contribution, TotalOf, OnlyVerdict;
    ContributionMeans(errors, r.verdict(k), r.dir(k), r.a(k), r.b(k));
    PresentMore(keys, k, r.a, false);
    PresentMore(keys, k, r.a, true);
    PresentMore(keys, k, r.b, false);
    PresentMore(keys, k, r.b, true);
  }

  lemma NothingTallied<T(!new)>(r: Rows<T>, errors: bool)
    ensures Tallies(ZERO, {}, r, errors)
  {
    forall s ensures Having({}, r.verdict, s) == {} {}
    forall s, dir ensures HavingType({}, r, s, dir) == {} {}
    forall dir ensures Present({}, r.a, dir) == {} && Present({}, r.b, dir) == {} {}
  }

  lemma {:induction false} SumTallies(s: set<Path>, f: Path -> Result, r: Rows<Path>, errors: bool)
    requires forall k <- s :: f(k).stats == Contribution(errors, r.verdict(k), r.dir(k), r.a(k), r.b(k))
    ensures Tallies(Sum(s, f).stats, s, r, errors)
    decreases |s|
  {
    hide VerdictsTally, ErrorsTally, SidesTally, Contribution, Stats.Plus;
    if s == {} {
      NothingTallied(r, errors);
    } else {
      var k :| k in s;
      SumTake(s, f, k);
      SumTallies(s - {k}, f, r, errors);
      PlusComm(f(k).stats, Sum(s - {k}, f).stats);
      VerdictsMore(Sum(s - {k}, f).stats, s - {k}, k, r, errors);
      SidesMore(Sum(s - {k}, f).stats, s - {k}, k, r, errors);
      assert s - {k} + {k} == s;
    }
  }

  // --- the counters of a run ---

  /** What a fresh run finds at a key: the verdict on the pair, or that one side lacks it. */
  ghost function Found(cfg: Config, a: Tree, b: Tree): Rows<Path> {
    Rows(k => if k in a && k in b then PairVerdict(cfg, a[k], b[k]).status else if k in a then Missing else Extra,
         k => if k in a && k in b then PairVerdict(cfg, a[k], b[k]).isDirectory
              else if k in a then a[k].isDirectory else k in b && b[k].isDirectory,
         k => if k in a then Some(ObservedOf(a[k])) else None,
         k => if k in b then Some(ObservedOf(b[k])) else None)
  }

  /** Every counter of a run, and so of every schedule and of the serial comparison. */
  lemma RunCountersMean(cfg: Config, a: Tree, b: Tree)
    ensures Tallies(Reference(cfg, a, b).stats, a.Keys + b.Keys, Found(cfg, a, b), true)
  {
    hide Tallies, Reference, Sum;
    ReferenceCounters(cfg, a, b);
    forall k | k in a.Keys + b.Keys
      ensures var r := Found(cfg, a, b);
              FreshAt(cfg, a, b)(k).stats == Contribution(true, r.verdict(k), r.dir(k), r.a(k), r.b(k))
    {
      FoundContributes(cfg, a, b, k);
    }
    SumTallies(a.Keys + b.Keys, FreshAt(cfg, a, b), Found(cfg, a, b), true);
  }

  lemma FoundContributes(cfg: Config, a: Tree, b: Tree, k: Path)
    requires k in a || k in b
    ensures var r := Found(cfg, a, b);
            FreshAt(cfg, a, b)(k).stats == Contribution(true, r.verdict(k), r.dir(k), r.a(k), r.b(k))
  {
    hide PairVerdict, SideStats, Stats.Plus, VerdictStats;
  }

  ghost function OfType(t: Tree, dir: bool): set<Path> {
    set k | k in t && t[k].isDirectory == dir
  }

  ghost function SizeIn(t: Tree): Path -> nat {
    k => if k in t then t[k].size else 0
  }

  /** The counters of the sides, by the trees alone. */
  lemma SideCountersMean(cfg: Config, a: Tree, b: Tree)
    ensures var st := Reference(cfg, a, b).stats;
            && st.sourceFiles == |OfType(a, false)| && st.sourceDirs == |OfType(a, true)|
            && st.destFiles == |OfType(b, false)| && st.destDirs == |OfType(b, true)|
            && st.bytesSource == TotalOf(OfType(a, false), SizeIn(a)) && st.bytesDest == TotalOf(OfType(b, false), SizeIn(b))
  {
    hide VerdictsTally, ErrorsTally, Reference, TotalOf;
    RunCountersMean(cfg, a, b);
    var keys, r := a.Keys + b.Keys, Found(cfg, a, b);
    forall dir ensures Present(keys, r.a, dir) == OfType(a, dir) && Present(keys, r.b, dir) == OfType(b, dir) {}
    SameTotal(Present(keys, r.a, false), SizeAt(r.a), SizeIn(a));
    SameTotal(Present(keys, r.b, false), SizeAt(r.b), SizeIn(b));
  }

  lemma {:induction false} SameTotal<T(!new)>(s: set<T>, f: T -> nat, g: T -> nat)
    requires forall k <- s :: f(k) == g(k)
    ensures TotalOf(s, f) == TotalOf(s, g)
    decreases |s|
  {
    if s != {} {
      var k :| k in s;
      TotalTake(s, f, k);
      TotalTake(s, g, k);
      SameTotal(s - {k}, f, g);
    }
  }

  // --- the counters of reused rows ---

  /** What the reused records say of their keys, with the entries as they are now. */
  ghost function Recorded(inp: Input): Rows<Path> {
    var last := LastAt(inp.cfg, inp.journal);
    Rows(k => if k in last then inp.journal[last[k]].verdict else Identical,
         k => k in last && inp.journal[last[k]].isDirectory,
         k => if k in inp.a then Some(ObservedOf(inp.a[k])) else None,
         k => if k in inp.b then Some(ObservedOf(inp.b[k])) else None)
  }

  /** Every counter that a resume plan starts with counts reused keys; no errors are among them. */
  lemma ReusedCountersMean(inp: Input, p: Progress)
    requires PlanOf(inp, p)
    ensures Tallies(p.stats, Reusables(inp), Recorded(inp), false)
  {
    hide Tallies, Sum, PlanOf, LastAt;
    ReusedSum(inp, p);
    ReusablesJournaled(inp);
    forall k | k in Reusables(inp)
      ensures var r := Recorded(inp);
              RowAt(inp)(k).stats == Contribution(false, r.verdict(k), r.dir(k), r.a(k), r.b(k))
    {
      hide SideStats, VerdictStats, Stats.Plus, Reusables;
    }
    SumTallies(Reusables(inp), RowAt(inp), Recorded(inp), false);
  }

  lemma ReusedSum(inp: Input, p: Progress)
    requires PlanOf(inp, p)
    ensures p.stats == Sum(Reusables(inp), RowAt(inp)).stats
  {
    hide Sum, RowAt, KeysOf, ErrorKeys, Consumed, ReusedRows, RowsShown;
  }

  // --- the counters of captured rows ---

  /** Captured rows, by position. */
  ghost function Captured(rows: seq<ClassifiedRow>): Rows<int> {
    Rows(i => if 0 <= i < |rows| then rows[i].verdict else Identical,
         i => 0 <= i < |rows| && rows[i].isDirectory,
         i => if 0 <= i < |rows| then rows[i].a else None,
         i => if 0 <= i < |rows| then rows[i].b else None)
  }

  ghost function Positions(n: nat): (s: set<int>)
    ensures forall i :: i in s <==> 0 <= i < n
  {
    if n == 0 then {} else Positions(n - 1) + {n - 1}
  }

  lemma {:induction false} FirstRowsMean(rows: seq<ClassifiedRow>, n: nat)
    requires n <= |rows|
    ensures Tallies(AddRows(ZERO, rows[..n]), Positions(n), Captured(rows), false)
  {
    hide VerdictsTally, ErrorsTally, SidesTally, Stats.Plus, SideStats, VerdictStats;
    if n == 0 {
      NothingTallied(Captured(rows), false);
    } else {
      FirstRowsMean(rows, n - 1);
      assert rows[..n][..n - 1] == rows[..n - 1];
      var st := AddRows(ZERO, rows[..n - 1]);
      VerdictsMore(st, Positions(n - 1), n - 1, Captured(rows), false);
      SidesMore(st, Positions(n - 1), n - 1, Captured(rows), false);
    }
  }

  /** The counters of captured rows count the rows, from whatever counters they start. */
  lemma RowCountersMean(st: Stats, rows: seq<ClassifiedRow>)
    ensures AddRows(st, rows) == st.Plus(AddRows(ZERO, rows))
    ensures Tallies(AddRows(ZERO, rows), Positions(|rows|), Captured(rows), false)
  {
    hide Tallies;
    FirstRowsMean(rows, |rows|);
    assert rows[..|rows|] == rows;
    StartsAnywhere(st, rows);
  }

  lemma {:induction false} StartsAnywhere(st: Stats, rows: seq<ClassifiedRow>)
    ensures AddRows(st, rows) == st.Plus(AddRows(ZERO, rows))
  {
    hide RowStats, Stats.Plus;
    if rows == [] {
      PlusZero(st);
    } else {
      var n := |rows| - 1;
      StartsAnywhere(st, rows[..n]);
      PlusAssoc(st, AddRows(ZERO, rows[..n]), RowStats(rows[n]));
    }
  }
}
