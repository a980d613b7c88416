/** The sharded match table: every entry is stored under its key, or meets and removes its peer. */
module MatchTable {
  import opened Wrappers
  import opened Bytes
  import opened Results
  import opened Classify
  import opened RunResult
  import opened ConcurrentRun
  import Bits

  /** FNV-1a, 64 bits. */
  function Fnv(key: Path, h: nat): (r: nat)
    requires h < 0x1_0000_0000_0000_0000
    ensures r < 0x1_0000_0000_0000_0000
    decreases |key|
  {
    if key == [] then h
    else Fnv(key[1..], Bits.Xor(h, key[0]) * 1_099_511_628_211 % 0x1_0000_0000_0000_0000)
  }

  function ShardOf(key: Path, n: nat): (i: nat)
    requires n > 0
    ensures i < n
  {
    Fnv(key, 1_469_598_103_934_665_603) % n
  }

  /** t is the union of the shards, and every key is in its own shard only. */
  ghost predicate Partition(shards: seq<Table>, t: Table) {
    && |shards| > 0
    && (forall k <- t :: k in shards[ShardOf(k, |shards|)])
    && (forall i | 0 <= i < |shards| :: forall k <- shards[i] ::
          ShardOf(k, |shards|) == i && k in t && t[k] == shards[i][k])
  }

  lemma PartitionSet(shards: seq<Table>, t: Table, k: Path, slot: Slot)
    requires Partition(shards, t)
    ensures var i := ShardOf(k, |shards|);
            (k in shards[i] <==> k in t) && Partition(shards[i := shards[i][k := slot]], t[k := slot])
  {
    hide ShardOf;
  }

  lemma PartitionDrop(shards: seq<Table>, t: Table, k: Path)
    requires Partition(shards, t)
    ensures var i := ShardOf(k, |shards|); Partition(shards[i := shards[i] - {k}], t - {k})
  {
    hide ShardOf;
  }

  class Matches {
    var shards: seq<Table>
    var pending: nat
    var pendingSource: nat
    var pendingDest: nat

    /** The union of the shards. */
    ghost var table: Table

    /** The shards partition the table and the counters are the numbers of stored entries. */
    ghost predicate Valid()
      reads this
    {
      && |shards| > 0 && Partition(shards, table)
      && pending == |table|
      && pendingSource == |Stored(table, true)| && pendingDest == |Stored(table, false)|
    }

    constructor (shardBits: nat)
      ensures Valid() && table == map[]
    {
      shards := seq(Bits.Pow2(shardBits), i => map[]);
      pending, pendingSource, pendingDest := 0, 0, 0;
      table := map[];
    }

    /** insert, without the throttle: store, replace, or remove and return the peer from the other side. */
    method Insert(key: Path, source: bool, e: FileEntry) returns (outcome: Outcome)
      requires Valid()
      modifies this
      ensures Valid()
      ensures outcome == InsertOutcome(old(table), key, source) && table == AfterInsert(old(table), key, source, e)
    {
      hide Partition, Stored, ShardOf;
      var i := ShardOf(key, |shards|);
      var shard := shards[i];
      PartitionSet(shards, table, key, Slot(source, e));
      PartitionDrop(shards, table, key);
      ShardAgrees(shards, table, key);
      if key !in shard {
        StoreNew(table, key, source, e);
        shards := shards[i := shard[key := Slot(source, e)]];
        pending := pending + 1;
        if source { pendingSource := pendingSource + 1; } else { pendingDest := pendingDest + 1; }
        table := table[key := Slot(source, e)];
        return Inserted;
      }
      if shard[key].source == source {
        StoreAgain(table, key, e);
        shards := shards[i := shard[key := Slot(source, e)]];
        table := table[key := Slot(source, e)];
        return Replaced;
      }
      var peer := shard[key];
      StoreDrop(table, key);
      shards := shards[i := shard - {key}];
      pending := pending - 1;
      if peer.source { pendingSource := pendingSource - 1; } else { pendingDest := pendingDest - 1; }
      table := table - {key};
      outcome := MatchedPeer(peer.entry);
    }

    /** remaining: every stored entry once, shard by shard. */
    method Remaining() returns (out: seq<Slot>, ghost keys: seq<Path>)
      requires Valid()
      ensures Listing(table, keys, out)
    {
      hide Listing, Partition, UpTo;
      out, keys := [], [];
      UpToEnds(table, |shards|);
      for i := 0 to |shards|
        invariant Listing(UpTo(table, |shards|, i), keys, out)
      {
        var some;
        ghost var ks;
        some, ks := ListShard(shards[i]);
        UpToStep(shards, table, i);
        ListingUnion(UpTo(table, |shards|, i), shards[i], keys, ks, out, some);
        out, keys := out + some, keys + ks;
      }
    }
  }

  lemma UpToStep(shards: seq<Table>, t: Table, i: nat)
    requires Partition(shards, t) && i < |shards|
    ensures UpTo(t, |shards|, i).Keys !! shards[i].Keys
    ensures UpTo(t, |shards|, i) + shards[i] == UpTo(t, |shards|, i + 1)
  {
    hide ShardOf;
    var n := |shards|;
    forall k ensures k in UpTo(t, n, i + 1) <==> k in UpTo(t, n, i) || k in shards[i] {
      if k in t && ShardOf(k, n) == i { assert k in shards[i]; }
    }
  }

  lemma UpToEnds(t: Table, n: nat)
    requires n > 0
    ensures UpTo(t, n, n) == t && Listing(UpTo(t, n, 0), [], [])
  {
    hide ShardOf;
    assert UpTo(t, n, 0) == map[];
  }

  /** The part of t that lives in the first i of n shards. */
  ghost function UpTo(t: Table, n: nat, i: nat): Table
    requires n > 0
  {
    map k | k in t && ShardOf(k, n) < i :: t[k]
  }

  /** keys enumerates the keys of t, each once, and slots their slots. */
  ghost predicate Listing(t: Table, keys: seq<Path>, slots: seq<Slot>) {
    && |slots| == |keys|
    && (forall i, j | 0 <= i < j < |keys| :: keys[i] != keys[j])
    && (forall k :: k in keys <==> k in t)
    && (forall i | 0 <= i < |keys| :: slots[i] == t[keys[i]])
  }

  method ListShard(shard: Table) returns (out: seq<Slot>, ghost keys: seq<Path>)
    ensures Listing(shard, keys, out)
  {
    out, keys := [], [];
    var left := shard.Keys;
    while left != {}
      invariant left <= shard.Keys
      invariant Listing(shard - left, keys, out)
      decreases left
    {
      var k :| k in left;
      ListingUnion(shard - left, map[k := shard[k]], keys, [k], out, [shard[k]]);
      assert (shard - left) + map[k := shard[k]] == shard - (left - {k});
      out, keys, left := out + [shard[k]], keys + [k], left - {k};
    }
    assert shard - {} == shard;
  }

  lemma ListingUnion(t: Table, u: Table, ks: seq<Path>, ls: seq<Path>, xs: seq<Slot>, ys: seq<Slot>)
    requires Listing(t, ks, xs) && Listing(u, ls, ys) && t.Keys !! u.Keys
    ensures Listing(t + u, ks + ls, xs + ys)
  {
    forall i, j | 0 <= i < j < |ks + ls| ensures (ks + ls)[i] != (ks + ls)[j] {
      if i < |ks| <= j { assert ks[i] in t.Keys && ls[j - |ks|] in u.Keys; }
    }
    forall i | 0 <= i < |ks + ls| ensures (xs + ys)[i] == (t + u)[(ks + ls)[i]] {
      if i < |ks| { assert ks[i] in t && ks[i] !in u; } else { assert ls[i - |ks|] in u; }
    }
  }

  lemma ShardAgrees(shards: seq<Table>, t: Table, k: Path)
    requires Partition(shards, t)
    ensures k in t ==> k in shards[ShardOf(k, |shards|)] && shards[ShardOf(k, |shards|)][k] == t[k]
  {
    hide ShardOf;
  }

  lemma StoreNew(t: Table, k: Path, source: bool, e: FileEntry)
    requires k !in t
    ensures var t' := t[k := Slot(source, e)];
            |t'| == |t| + 1 && |Stored(t', source)| == |Stored(t, source)| + 1 && |Stored(t', !source)| == |Stored(t, !source)|
  {
    var t' := t[k := Slot(source, e)];
    assert Stored(t', source) == Stored(t, source)[k := e];
    AddSize(t, k, Slot(source, e));
    AddSize(Stored(t, source), k, e);
    assert Stored(t', !source) == Stored(t, !source);
  }

  lemma StoreAgain(t: Table, k: Path, e: FileEntry)
    requires k in t
    ensures var t' := t[k := Slot(t[k].source, e)];
            |t'| == |t| && |Stored(t', true)| == |Stored(t, true)| && |Stored(t', false)| == |Stored(t, false)|
  {
    var t' := t[k := Slot(t[k].source, e)];
    assert t'.Keys == t.Keys;
    assert Stored(t', true).Keys == Stored(t, true).Keys && Stored(t', false).Keys == Stored(t, false).Keys;
  }

  lemma AddSize<V>(m: map<Path, V>, k: Path, v: V)
    requires k !in m
    ensures |m[k := v]| == |m| + 1
  {
    assert m[k := v].Keys == m.Keys + {k};
  }

  lemma DropSize<V>(m: map<Path, V>, k: Path)
    requires k in m
    ensures |m - {k}| == |m| - 1 && |m| > 0
  {
    assert (m - {k}).Keys == m.Keys - {k};
  }

  lemma StoreDrop(t: Table, k: Path)
    requires k in t
    ensures var side := t[k].source;
            |t - {k}| == |t| - 1 && |Stored(t - {k}, side)| == |Stored(t, side)| - 1
            && |Stored(t - {k}, !side)| == |Stored(t, !side)| && |Stored(t, side)| > 0
  {
    var side, u := t[k].source, t - {k};
    DropSize(t, k);
    assert Stored(u, side) == Stored(t, side) - {k};
    DropSize(Stored(t, side), k);
    assert Stored(u, !side) == Stored(t, !side);
  }
}
