/** The index of one side: one record per key, the last one wins, with running counts. */
module FileIndex {
  import opened Wrappers
  import opened Bytes
  import opened Results
  import opened JournalCodec
  import opened JournalStats
  import opened Classify
  import opened RunResult
  import opened ConcurrentRun

  datatype Totals = Totals(files: int, dirs: int, bytes: int) {
    function Plus(o: Totals): Totals {
      Totals(files + o.files, dirs + o.dirs, bytes + o.bytes)
    }
  }

  /** Every entry sits under its own key. */
  ghost predicate KeyedTree(cfg: Config, t: Tree) {
    forall k <- t :: KeyOf(cfg, t[k]) == k
  }

  function TotalsOf(e: FileEntry): Totals {
    if e.isDirectory then Totals(0, 1, 0) else Totals(1, 0, e.size)
  }

  /** The counts of a whole tree, as a comparison would count them on its source side. */
  ghost function TreeTotals(t: Tree): Totals {
    SourceTotals(Sum(t.Keys, SeenAt(true, t)))
  }

  ghost function SourceTotals(r: Result): Totals {
    Totals(r.stats.sourceFiles, r.stats.sourceDirs, r.stats.bytesSource)
  }

  lemma SourceTotalsAdd(a: Result, b: Result)
    ensures SourceTotals(a.Add(b)) == SourceTotals(a).Plus(SourceTotals(b))
  {}

  lemma SourceTotalsSeen(e: FileEntry)
    ensures SourceTotals(SeenResult(true, e)) == TotalsOf(e)
  {}

  /** Taking an entry out takes its own counts out. */
  lemma TotalsWithout(t: Tree, k: Path)
    requires k in t
    ensures TreeTotals(t) == TreeTotals(t - {k}).Plus(TotalsOf(t[k]))
  {
    hide Sum, Result.Add, SourceTotals, SeenResult, TotalsOf;
    SumTake(t.Keys, SeenAt(true, t), k);
    assert t.Keys - {k} == (t - {k}).Keys;
    SumSame((t - {k}).Keys, SeenAt(true, t), SeenAt(true, t - {k}));
    SourceTotalsAdd(SeenResult(true, t[k]), Sum(t.Keys - {k}, SeenAt(true, t)));
    SourceTotalsSeen(t[k]);
  }

  lemma TotalsWith(t: Tree, k: Path, e: FileEntry)
    ensures TreeTotals(t[k := e]) == TreeTotals(t - {k}).Plus(TotalsOf(e))
  {
    TotalsWithout(t[k := e], k);
    assert t[k := e] - {k} == t - {k};
  }

  class Index {
    const cfg: Config
    var entries: Tree
    var hashes: map<Path, Digest>
    var stats: Totals
    var collisions: nat

    /** The counts of the entries that were erased: erasing does not touch the counters. */
    ghost var erased: Totals

    ghost predicate Valid()
      reads this
    {
      && KeyedTree(cfg, entries)
      && stats == TreeTotals(entries).Plus(erased)
      && erased.files >= 0 && erased.dirs >= 0 && erased.bytes >= 0
    }

    constructor (cfg: Config)
      ensures Valid() && this.cfg == cfg && entries == map[] && hashes == map[] && collisions == 0
      ensures stats == Totals(0, 0, 0) && erased == Totals(0, 0, 0)
    {
      this.cfg, entries, hashes, collisions := cfg, map[], map[], 0;
      stats, erased := Totals(0, 0, 0), Totals(0, 0, 0);
    }

    lemma EntriesKeyed()
      requires Valid()
      ensures KeyedTree(cfg, entries)
    {}

    function Key(relativePath: Path): Path {
      if cfg.caseSensitive then relativePath else cfg.fold(relativePath)
    }

    /** addEntry: an entry whose key is taken replaces the older record, and the counts follow the kept record. */
    method AddEntry(e: FileEntry)
      requires Valid()
      modifies this
      ensures Valid() && entries == old(entries)[KeyOf(cfg, e) := e] && hashes == old(hashes) && erased == old(erased)
      ensures collisions == old(collisions) + (if KeyOf(cfg, e) in old(entries) then 1 else 0)
      ensures 0 <= stats.files && 0 <= stats.dirs && 0 <= stats.bytes
    {
      hide TreeTotals;
      var k := Key(e.relativePath);
      ghost var t := entries;
      TotalsWith(t, k, e);
      if k in entries {
        collisions := collisions + 1;
        TotalsWithout(t, k);
        var prev := entries[k];
        if prev.isDirectory { stats := stats.(dirs := stats.dirs - 1); }
        else { stats := stats.(files := stats.files - 1, bytes := stats.bytes - prev.size); }
      } else {
        assert t - {k} == t;
      }
      entries := entries[k := e];
      if e.isDirectory { stats := stats.(dirs := stats.dirs + 1); }
      else { stats := stats.(files := stats.files + 1, bytes := stats.bytes + e.size); }
      TotalsNotNegative(entries);
    }

    method Find(relativePath: Path) returns (found: Option<FileEntry>)
      ensures found == At(entries, Key(relativePath))
    {
      var k := Key(relativePath);
      found := if k in entries then Some(entries[k]) else None;
    }

    /** tryErase: the entry is handed over; the counters keep describing everything that was added. */
    method TryErase(relativePath: Path) returns (found: Option<FileEntry>)
      requires Valid()
      modifies this
      ensures Valid() && found == At(old(entries), Key(relativePath)) && entries == old(entries) - {Key(relativePath)}
      ensures stats == old(stats) && hashes == old(hashes) && collisions == old(collisions)
    {
      hide TreeTotals;
      var k := Key(relativePath);
      assert k !in entries ==> entries - {k} == entries;
      if k !in entries { return None; }
      TotalsWithout(entries, k);
      found := Some(entries[k]);
      erased := erased.Plus(TotalsOf(entries[k]));
      entries := entries - {k};
    }

    /** The digest kept for a path. */
    function HashOf(relativePath: Path): Option<Digest>
      reads this
    {
      At(hashes, Key(relativePath))
    }

    /** setHash: afterwards the digest of every path with the same key is this one, and of any other path what it was. */
    method SetHash(relativePath: Path, digest: Digest)
      requires Valid()
      modifies this`hashes
      ensures Valid() && hashes == old(hashes)[Key(relativePath) := digest]
      ensures forall q: Path :: HashOf(q) == if Key(q) == Key(relativePath) then Some(digest) else old(HashOf(q))
    {
      hide TreeTotals;
      hashes := hashes[Key(relativePath) := digest];
    }

    /** getHash. */
    method GetHash(relativePath: Path) returns (digest: Option<Digest>)
      ensures digest == HashOf(relativePath)
    {
      var k := Key(relativePath);
      digest := if k in hashes then Some(hashes[k]) else None;
    }

    /** build, for an enumeration that delivers these entries. */
    method Build(found: seq<FileEntry>)
      requires Valid()
      modifies this
      ensures Valid() && entries == LastWins(cfg, found) && stats == TreeTotals(entries) && hashes == map[]
      ensures collisions + |entries| == |found|
    {
      hide TreeTotals, Index.Valid;
      Clear();
      for i := 0 to |found|
        invariant Valid() && entries == LastWins(cfg, found[..i]) && erased == Totals(0, 0, 0) && hashes == map[]
        invariant collisions + |entries| == i
      {
        assert found[..i + 1][..i] == found[..i];
        OneMore(entries, KeyOf(cfg, found[i]), found[i]);
        AddEntry(found[i]);
      }
      assert found[..|found|] == found;
      Exact();
    }

    method Clear()
      modifies this
      ensures Valid() && entries == map[] && hashes == map[] && collisions == 0 && erased == Totals(0, 0, 0)
    {
      entries, hashes, collisions := map[], map[], 0;
      stats, erased := Totals(0, 0, 0), Totals(0, 0, 0);
      NoTotals();
    }

    /** As long as nothing was erased the counters are the totals of the map. */
    lemma Exact()
      requires Valid() && erased == Totals(0, 0, 0)
      ensures stats == TreeTotals(entries)
    {
      hide TreeTotals;
    }
  }

  lemma NoTotals()
    ensures TreeTotals(map[]) == Totals(0, 0, 0)
  {}

  lemma OneMore(t: Tree, k: Path, e: FileEntry)
    ensures |t[k := e]| == |t| + (if k in t then 0 else 1)
  {
    assert t[k := e].Keys == t.Keys + {k};
  }

  lemma {:induction false} TotalsNotNegative(t: Tree)
    ensures TreeTotals(t).files >= 0 && TreeTotals(t).dirs >= 0 && TreeTotals(t).bytes >= 0
  {}

  function At<V>(m: map<Path, V>, k: Path): Option<V> {
    if k in m then Some(m[k]) else None
  }

  /** The index of a stream: per key the last entry. */
  function LastWins(cfg: Config, found: seq<FileEntry>): Tree {
    if found == [] then map[] else LastWins(cfg, found[..|found| - 1])[KeyOf(cfg, found[|found| - 1]) := found[|found| - 1]]
  }

  /** An entry is in the index exactly when no later one has its key. */
  lemma {:induction false} LastWinsMeans(cfg: Config, found: seq<FileEntry>, i: nat)
    requires i < |found|
    ensures KeyOf(cfg, found[i]) in LastWins(cfg, found)
    ensures (forall j | i < j < |found| :: KeyOf(cfg, found[j]) != KeyOf(cfg, found[i]))
            ==> LastWins(cfg, found)[KeyOf(cfg, found[i])] == found[i]
  {
    if i < |found| - 1 { LastWinsMeans(cfg, found[..|found| - 1], i); }
  }
}
