/** The bodies that the concurrent comparison runs: per entry, per batch of candidates, and at the end. */
module ConcurrentComparer {
  import opened Wrappers
  import opened Bytes
  import opened Results
  import opened JournalStats
  import opened Classify
  import opened RunResult
  import opened PathOrder
  import opened ConcurrentRun
  import opened ConcurrentSink
  import opened MatchTable

  const HASH_BATCH_SIZE: nat := 256

  /** onEntry: count the entry, insert it, and classify the pair if its peer was there. The emission step and, for
      a match, the classification step of the run, on the real table and sink. */
  method OnEntry(cfg: Config, source: bool, e: FileEntry, table: Matches, sink: Sink, candidates: seq<Pair>)
    returns (queued: seq<Pair>)
    requires table.Valid()
    modifies table, sink
    ensures table.Valid() && table.table == AfterInsert(old(table.table), KeyOf(cfg, e), source, e)
    ensures var o := InsertOutcome(old(table.table), KeyOf(cfg, e), source);
            var seen := old(sink.Value()).Add(SeenResult(source, e));
            if !o.MatchedPeer? then queued == candidates && sink.Value() == seen
            else
              var p := if source then Pair(e, o.peer) else Pair(o.peer, e);
              if IsCandidate(cfg, p.a, p.b) then queued == candidates + [p] && sink.Value() == seen
              else queued == candidates && sink.Value() == seen.Add(PairResult(cfg, p.a, p.b))
  {
    hide Result.Add, PairResult, SeenResult, AfterInsert, IsCandidate;
    sink.CountEntry(source, e);
    var key := if cfg.caseSensitive then e.relativePath else cfg.fold(e.relativePath);
    var outcome := table.Insert(key, source, e);
    if !outcome.MatchedPeer? { return candidates; }
    var a, b := if source then e else outcome.peer, if source then outcome.peer else e;
    queued := ClassifyMatched(cfg, a, b, sink, candidates);
  }

  /** FlushHashCandidates: batches are cut from the end until nothing is pending; every candidate is submitted once. */
  method FlushHashCandidates(pending: seq<Pair>, submitted: seq<Pair>) returns (r: seq<Pair>)
    ensures multiset(r) == multiset(submitted) + multiset(pending)
  {
    var left := pending;
    r := submitted;
    while left != []
      invariant multiset(r) + multiset(left) == multiset(submitted) + multiset(pending)
      decreases |left|
    {
      var n := if |left| < HASH_BATCH_SIZE then |left| else HASH_BATCH_SIZE;
      var start := |left| - n;
      assert left == left[..start] + left[start..];
      r := r + left[start..];
      left := left[..start];
    }
  }

  // --- what is left in the table ---

  datatype Item = Item(key: Path, entry: FileEntry)

  ghost predicate ItemsOf(items: seq<Item>, t: Tree) {
    && (forall i, j | 0 <= i < j < |items| :: items[i].key != items[j].key)
    && (forall k :: k in t <==> exists i | 0 <= i < |items| :: items[i].key == k)
    && (forall i | 0 <= i < |items| :: t[items[i].key] == items[i].entry)
  }

  ghost function ItemsSum(items: seq<Item>, f: Path -> Result): Result {
    if items == [] then NOTHING else ItemsSum(items[..|items| - 1], f).Add(f(items[|items| - 1].key))
  }

  lemma {:induction false} ItemsSumIsSum(items: seq<Item>, t: Tree, f: Path -> Result)
    requires ItemsOf(items, t)
    ensures ItemsSum(items, f) == Sum(t.Keys, f)
  {
    hide Result.Add;
    if items == [] {
      assert t.Keys == {};
    } else {
      var n := |items| - 1;
      var last := items[n];
      assert items[n].key in t;
      ItemsDrop(items, t);
      ItemsSumIsSum(items[..n], t - {last.key}, f);
      SumTake(t.Keys, f, last.key);
      assert (t - {last.key}).Keys == t.Keys - {last.key};
      AddComm(f(last.key), Sum(t.Keys - {last.key}, f));
    }
  }

  lemma ItemsDrop(items: seq<Item>, t: Tree)
    requires ItemsOf(items, t) && items != []
    ensures var n := |items| - 1; ItemsOf(items[..n], t - {items[n].key})
  {
    var n := |items| - 1;
    var rest, t' := items[..n], t - {items[n].key};
    forall k ensures k in t' <==> exists i | 0 <= i < |rest| :: rest[i].key == k {
      if k in t' {
        var i :| 0 <= i < |items| && items[i].key == k;
        assert rest[i].key == k;
      }
      if i :| 0 <= i < |rest| && rest[i].key == k { assert items[i].key == k; }
    }
  }

  lemma ItemsStep(items: seq<Item>, i: nat, f: Path -> Result)
    requires i < |items|
    ensures ItemsSum(items[..i + 1], f) == ItemsSum(items[..i], f).Add(f(items[i].key))
  {
    assert items[..i + 1][..i] == items[..i];
  }

  /** The keys of items, sorted. */
  method SortedKeysOf(items: seq<Item>, ghost t: Tree) returns (keys: seq<Path>)
    requires ItemsOf(items, t)
    ensures Sorted(keys) && forall k :: k in keys <==> k in t
  {
    keys := [];
    for i := 0 to |items|
      invariant |keys| == i && forall j | 0 <= j < i :: keys[j] == items[j].key
    {
      keys := keys + [items[i].key];
    }
    ghost var unsorted := keys;
    forall k ensures k in unsorted <==> k in t {
      if k in t { var i :| 0 <= i < |items| && items[i].key == k; assert unsorted[i] == k; }
      if k in unsorted { var i :| 0 <= i < |unsorted| && unsorted[i] == k; assert items[i].key == k; }
    }
    keys := SortKeys(keys);
    SameMembers(keys, unsorted);
  }

  lemma SameMembers(a: seq<Path>, b: seq<Path>)
    requires multiset(a) == multiset(b)
    ensures forall k :: k in a <==> k in b
  {
    forall k ensures k in a <==> k in b { assert k in a <==> k in multiset(a); assert k in b <==> k in multiset(b); }
  }

  // --- missing entries, in two passes ---

  /** First pass: everything is counted, files are reported. */
  ghost function MissingFirst(t: Tree): Path -> Result {
    k => if k !in t then NOTHING
         else if t[k].isDirectory then One(ZERO.(missingDirs := 1), None, None) else MissingResult(t[k], false)
  }

  /** Second pass: directories without a missing entry below them are reported. */
  ghost function MissingSecond(t: Tree): Path -> Result {
    k => if k in t && t[k].isDirectory && !HasBelow(t.Keys, k)
         then One(ZERO, Some(MissingRow(t[k])), Some(MissingCapture(t[k]))) else NOTHING
  }

  lemma MissingPasses(t: Tree)
    ensures Sum(t.Keys, MissingAt(t)) == Sum(t.Keys, MissingFirst(t)).Add(Sum(t.Keys, MissingSecond(t)))
  {
    hide Sum, MissingRow, MissingCapture, HasBelow;
    var f, g := MissingFirst(t), MissingSecond(t);
    var h := (k: Path) => f(k).Add(g(k));
    forall k | k in t ensures MissingAt(t)(k) == h(k) {
      if t[k].isDirectory {
        PassesOfDirectory(MissingRow(t[k]), MissingCapture(t[k]));
        AddNothing(One(ZERO.(missingDirs := 1), None, None));
      } else {
        AddNothing(MissingResult(t[k], false));
      }
    }
    SumSame(t.Keys, MissingAt(t), h);
    SumAdd(t.Keys, f, g);
  }

  lemma PassesOfDirectory(row: FileResult, captured: ClassifiedRow)
    ensures One(ZERO.(missingDirs := 1), None, None).Add(One(ZERO, Some(row), Some(captured)))
            == One(ZERO.(missingDirs := 1), Some(row), Some(captured))
  {}

  method ReportMissing(items: seq<Item>, ghost t: Tree, out: Sink)
    requires ItemsOf(items, t)
    modifies out
    ensures out.Value() == old(out.Value()).Add(Sum(t.Keys, MissingAt(t)))
  {
    hide Result.Add, Sum, MissingRow, MissingCapture, HasBelow, ItemsSum, Below, MissingAt;
    var sourceKeys := SortedKeysOf(items, t);
    ghost var start := out.Value();
    ghost var first, second := MissingFirst(t), MissingSecond(t);
    EmptySums(first, start);
    assert items[..0] == [];
    for i := 0 to |items|
      invariant out.Value() == start.Add(ItemsSum(items[..i], first))
    {
      var e := items[i].entry;
      ItemsStep(items, i, first);
      AddAssoc(start, ItemsSum(items[..i], first), first(items[i].key));
      out.AddMissingCount(e);
    }
    assert items[..|items|] == items;
    ghost var middle := out.Value();
    EmptySums(second, middle);
    for i := 0 to |items|
      invariant out.Value() == middle.Add(ItemsSum(items[..i], second))
    {
      var e := items[i].entry;
      ItemsStep(items, i, second);
      AddAssoc(middle, ItemsSum(items[..i], second), second(items[i].key));
      AddNothing(out.Value());
      if e.isDirectory {
        var hidden := HasDescendant(sourceKeys, items[i].key);
        BelowKeys(sourceKeys, t.Keys, items[i].key);
        if !hidden { out.Report(MissingRow(e), MissingCapture(e)); }
      }
    }
    ItemsSumIsSum(items, t, first);
    ItemsSumIsSum(items, t, second);
    AddAssoc(start, ItemsSum(items, first), ItemsSum(items, second));
    MissingPasses(t);
  }

  lemma EmptySums(f: Path -> Result, r: Result)
    ensures ItemsSum([], f) == NOTHING && r.Add(NOTHING) == r
  {
    AddNothing(r);
  }

  lemma BelowKeys(keys: seq<Path>, s: set<Path>, d: Path)
    requires forall k :: k in keys <==> k in s
    ensures HasBelow(s, d) <==> exists i | 0 <= i < |keys| :: Below(keys[i], d)
  {
    hide Below;
    if HasBelow(s, d) {
      var k :| k in s && Below(k, d);
      var i :| 0 <= i < |keys| && keys[i] == k;
    }
    if i :| 0 <= i < |keys| && Below(keys[i], d) { assert keys[i] in s; }
  }

  // --- extra entries, in one pass ---

  method FoldedPathsOf(cfg: Config, items: seq<Item>, ghost t: Tree) returns (keys: seq<Path>)
    requires ItemsOf(items, t)
    ensures Sorted(keys) && forall k :: k in keys <==> k in FoldedPaths(cfg, t)
  {
    keys := [];
    for i := 0 to |items|
      invariant |keys| == i && forall j | 0 <= j < i :: keys[j] == cfg.fold(items[j].entry.relativePath)
    {
      keys := keys + [cfg.fold(items[i].entry.relativePath)];
    }
    ghost var unsorted := keys;
    forall f ensures f in unsorted <==> f in FoldedPaths(cfg, t) {
      if f in FoldedPaths(cfg, t) {
        var k :| k in t && cfg.fold(t[k].relativePath) == f;
        var i :| 0 <= i < |items| && items[i].key == k;
        assert unsorted[i] == f;
      }
      if f in unsorted { var i :| 0 <= i < |unsorted| && unsorted[i] == f; assert items[i].key in t; }
    }
    keys := SortKeys(keys);
    SameMembers(keys, unsorted);
  }

  method ReportExtra(cfg: Config, items: seq<Item>, ghost t: Tree, out: Sink)
    requires ItemsOf(items, t)
    modifies out
    ensures out.Value() == old(out.Value()).Add(Sum(t.Keys, ExtraAt(cfg, t)))
  {
    hide Result.Add, Sum, HasBelow, ItemsSum, Below, FoldedPaths, ExtraResult;
    var folded := FoldedPathsOf(cfg, items, t);
    ghost var start, f := out.Value(), ExtraAt(cfg, t);
    EmptySums(f, start);
    assert items[..0] == [];
    for i := 0 to |items|
      invariant out.Value() == start.Add(ItemsSum(items[..i], f))
    {
      var e := items[i].entry;
      ItemsStep(items, i, f);
      AddAssoc(start, ItemsSum(items[..i], f), f(items[i].key));
      var dirKey := cfg.fold(e.relativePath);
      BelowKeys(folded, FoldedPaths(cfg, t), dirKey);
      var hidden := false;
      if e.isDirectory { hidden := HasDescendant(folded, dirKey); }
      ExtraIgnoresHidden(e, HasBelow(FoldedPaths(cfg, t), dirKey));
      out.AddExtra(e, hidden);
    }
    assert items[..|items|] == items;
    ItemsSumIsSum(items, t, f);
  }

  lemma ExtraIgnoresHidden(e: FileEntry, hidden: bool)
    ensures ExtraResult(e, hidden) == ExtraResult(e, e.isDirectory && hidden)
  {}

  /** finalizeMissingExtra: what is left in the table is split by side; source entries are missing, destination
      entries are extra. */
  method FinalizeMissingExtra(cfg: Config, table: Matches, out: Sink)
    requires table.Valid() && Keyed(cfg, table.table)
    modifies out
    ensures out.Value() == old(out.Value()).Add(OneSided(cfg, Stored(table.table, true), Stored(table.table, false)))
  {
    hide Result.Add, Sum, Matches.Valid, MissingAt, ExtraAt;
    var remaining;
    ghost var keys;
    remaining, keys := table.Remaining();
    var src, dst := SplitSides(cfg, remaining, keys, table.table);
    ghost var a, b := Stored(table.table, true), Stored(table.table, false);
    ghost var start := out.Value();
    ReportMissing(src, a, out);
    ReportExtra(cfg, dst, b, out);
    AddAssoc(start, Sum(a.Keys, MissingAt(a)), Sum(b.Keys, ExtraAt(cfg, b)));
    assert a - b.Keys == a && b - a.Keys == b;
  }

  method SplitSides(cfg: Config, remaining: seq<Slot>, ghost keys: seq<Path>, ghost t: Table)
    returns (src: seq<Item>, dst: seq<Item>)
    requires Listing(t, keys, remaining) && Keyed(cfg, t)
    ensures ItemsOf(src, Stored(t, true)) && ItemsOf(dst, Stored(t, false))
  {
    src, dst := [], [];
    SidesStart(t, keys);
    for i := 0 to |remaining|
      invariant ItemsOf(src, Listed(t, keys[..i], true)) && ItemsOf(dst, Listed(t, keys[..i], false))
    {
      hide ItemsOf, Listed;
      var e := remaining[i].entry;
      var key := if cfg.caseSensitive then e.relativePath else cfg.fold(e.relativePath);
      NextListed(cfg, t, keys, remaining, i);
      if remaining[i].source {
        ItemsAppend(src, Listed(t, keys[..i], true), Item(key, e));
        src := src + [Item(key, e)];
      } else {
        ItemsAppend(dst, Listed(t, keys[..i], false), Item(key, e));
        dst := dst + [Item(key, e)];
      }
    }
    SidesEnd(t, keys, remaining);
  }

  /** The entries of one side among the listed keys. */
  ghost function Listed(t: Table, ks: seq<Path>, source: bool): Tree {
    map k | k in t && k in ks && t[k].source == source :: t[k].entry
  }

  lemma SidesStart(t: Table, keys: seq<Path>)
    ensures ItemsOf([], Listed(t, keys[..0], true)) && ItemsOf([], Listed(t, keys[..0], false))
  {}

  lemma SidesEnd(t: Table, keys: seq<Path>, slots: seq<Slot>)
    requires Listing(t, keys, slots)
    ensures |keys| == |slots|
    ensures Listed(t, keys[..|slots|], true) == Stored(t, true) && Listed(t, keys[..|slots|], false) == Stored(t, false)
  {
    assert keys[..|slots|] == keys;
  }

  lemma NextListed(cfg: Config, t: Table, keys: seq<Path>, slots: seq<Slot>, i: nat)
    requires Listing(t, keys, slots) && Keyed(cfg, t) && i < |slots|
    ensures var k, slot := keys[i], slots[i];
            KeyOf(cfg, slot.entry) == k
            && Listed(t, keys[..i + 1], slot.source) == Listed(t, keys[..i], slot.source)[k := slot.entry]
            && Listed(t, keys[..i + 1], !slot.source) == Listed(t, keys[..i], !slot.source)
            && k !in Listed(t, keys[..i], slot.source)
  {
    assert keys[..i + 1] == keys[..i] + [keys[i]];
    assert keys[i] in keys;
  }

  lemma ItemsAppend(items: seq<Item>, t: Tree, it: Item)
    requires ItemsOf(items, t) && it.key !in t
    ensures ItemsOf(items + [it], t[it.key := it.entry])
  {
    var r, t' := items + [it], t[it.key := it.entry];
    assert r[|items|] == it && forall i | 0 <= i < |items| :: r[i] == items[i] && items[i].key in t;
    forall k ensures k in t' <==> exists i | 0 <= i < |r| :: r[i].key == k {
      if k in t { var i :| 0 <= i < |items| && items[i].key == k; assert r[i].key == k; }
    }
  }
}
