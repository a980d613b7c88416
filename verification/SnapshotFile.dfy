/** Writing an index to a snapshot file and loading it back, call by call. */
module SnapshotFile {
  import opened Wrappers
  import opened Bytes
  import opened Results
  import opened JournalCodec
  import opened Classify
  import opened RunResult
  import opened FileIndex
  import opened Snapshot

  // --- writing ---

  function Joined(pieces: seq<bytes>): bytes {
    if pieces == [] then [] else pieces[0] + Joined(pieces[1..])
  }

  /** The output stream. A write that fails may leave a part of its bytes; the stream stays bad. */
  class Writer {
    var out: bytes
    var good: bool

    constructor ()
      ensures out == [] && good
    {
      out, good := [], true;
    }

    method Put(piece: bytes) returns (ok: bool)
      requires good
      modifies this
      ensures ok == good && old(out) <= out <= old(out) + piece && (ok ==> out == old(out) + piece)
    {
      ok := *;
      var n: nat :| n <= |piece|;
      if ok { n := |piece|; }
      assert piece[..|piece|] == piece;
      out, good := out + piece[..n], ok;
    }

    /** A chain of writes, given up at the first that fails. */
    method PutAll(pieces: seq<bytes>) returns (ok: bool)
      requires good
      modifies this
      ensures ok == good && old(out) <= out <= old(out) + Joined(pieces) && (ok ==> out == old(out) + Joined(pieces))
    {
      ok := true;
      for i := 0 to |pieces|
        invariant ok && good && old(out) <= out && out + Joined(pieces[i..]) == old(out) + Joined(pieces)
      {
        assert pieces[i..][1..] == pieces[i + 1..];
        ghost var before := out;
        ok := Put(pieces[i]);
        PrefixInside(out, before, pieces[i], Joined(pieces[i + 1..]));
        if !ok { return; }
      }
    }
  }

  /** One entry, and the digest that the index has for it. */
  method PutRecord(w: Writer, e: FileEntry, hash: Option<Digest>) returns (ok: bool)
    requires w.good
    modifies w
    ensures ok == w.good && old(w.out) <= w.out <= old(w.out) + RecordText(Record(e, hash))
    ensures ok ==> w.out == old(w.out) + RecordText(Record(e, hash))
  {
    hide EntryPieces, RecordText, Joined;
    EntryJoined(e, hash);
    ghost var start, head := w.out, Joined(EntryPieces(e, hash.Some?));
    ok := w.PutAll(EntryPieces(e, hash.Some?));
    PrefixInside(w.out, start, head, HashBytes(hash));
    if ok && hash.Some? { ok := w.Put(hash.value); }
    assert start + (head + HashBytes(hash)) == (start + head) + HashBytes(hash);
  }

  lemma PrefixInside(out: bytes, before: bytes, piece: bytes, more: bytes)
    requires out <= before + piece
    ensures out <= before + (piece + more) && (out == before + piece ==> out + more == before + (piece + more))
  {
    assert before + (piece + more) == (before + piece) + more;
  }

  function HeaderPieces(caseSensitive: bool, root: bytes, counts: Totals, size: nat): seq<bytes> {
    [Le(MAGIC, 4), Le(VERSION, 4), [Flag(caseSensitive)], Size64(root), root,
     Le(counts.files % LIMIT64, 8), Le(counts.dirs % LIMIT64, 8), Le(counts.bytes % LIMIT64, 8), Le(size % LIMIT64, 8)]
  }

  function EntryPieces(e: FileEntry, hasHash: bool): seq<bytes> {
    [Size64(e.relativePath), e.relativePath, Le(e.size, 8), Le(e.mtime, 8), Le(e.attributes, 4), Le(e.fileId, 8),
     [Flag(e.isDirectory)], [Flag(hasHash)], [KindToU8(e.reparseKind)], Size64(e.linkTarget), e.linkTarget]
  }

  lemma JoinedFirst(p: seq<bytes>, k: nat)
    requires k < |p|
    ensures Joined(p[k..]) == p[k] + Joined(p[k + 1..])
  {
    assert p[k..][1..] == p[k + 1..];
  }

  lemma HeaderJoined(caseSensitive: bool, root: bytes, counts: Totals, size: nat)
    ensures Joined(HeaderPieces(caseSensitive, root, counts, size)) == HeaderText(caseSensitive, root, counts, size)
  {
    hide Joined, Le;
    var p := HeaderPieces(caseSensitive, root, counts, size);
    assert p[0..] == p && p[9..] == [];
    assert Joined(p[9..]) == [] by { NothingJoined(); }
    JoinedFirst(p, 0);
    JoinedFirst(p, 1);
    JoinedFirst(p, 2);
    JoinedFirst(p, 3);
    JoinedFirst(p, 4);
    JoinedFirst(p, 5);
    JoinedFirst(p, 6);
    JoinedFirst(p, 7);
    JoinedFirst(p, 8);
    assert Joined(p[8..]) == p[8] + [] == p[8];
    assert Joined(p[5..]) == CountsText(counts, size);
    TextFirst(root, CountsText(counts, size));
  }

  lemma NothingJoined()
    ensures Joined([]) == []
  {}

  lemma JoinedEleven(p: seq<bytes>)
    requires |p| == 11
    ensures Joined(p) == p[0] + (p[1] + (p[2] + (p[3] + (p[4] + (p[5] + (p[6] + (p[7] + (p[8] + (p[9] + p[10])))))))))
  {
    hide Joined;
    assert p[0..] == p && p[11..] == [];
    NothingJoined();
    JoinedFirst(p, 0);
    JoinedFirst(p, 1);
    JoinedFirst(p, 2);
    JoinedFirst(p, 3);
    JoinedFirst(p, 4);
    JoinedFirst(p, 5);
    JoinedFirst(p, 6);
    JoinedFirst(p, 7);
    JoinedFirst(p, 8);
    JoinedFirst(p, 9);
    JoinedFirst(p, 10);
    assert p[10] + [] == p[10];
  }

  lemma EntryJoined(e: FileEntry, hash: Option<Digest>)
    ensures Joined(EntryPieces(e, hash.Some?)) + HashBytes(hash) == RecordText(Record(e, hash))
  {
    hide Joined, Le, Text, Size64, FieldsText;
    var r := Record(e, hash);
    var path, fields, target := Text(e.relativePath), FieldsText(r), Text(e.linkTarget);
    JoinedEleven(EntryPieces(e, hash.Some?));
    FieldsGrouped(r, target);
    TextFirst(e.linkTarget, []);
    assert e.linkTarget + [] == e.linkTarget && target + [] == target;
    TextFirst(e.relativePath, fields + target);
    Regroup(path, fields, target, HashBytes(hash));
  }

  lemma FieldsGrouped(r: Record, rest: bytes)
    ensures var e := r.entry;
            Le(e.size, 8) + (Le(e.mtime, 8) + (Le(e.attributes, 4) + (Le(e.fileId, 8)
            + ([Flag(e.isDirectory)] + ([Flag(r.hash.Some?)] + ([KindToU8(e.reparseKind)] + rest)))))) == FieldsText(r) + rest
  {
    hide Le, KindToU8, Flag;
    var e := r.entry;
    FieldsJoined(Le(e.size, 8), Le(e.mtime, 8), Le(e.attributes, 4), Le(e.fileId, 8), [Flag(e.isDirectory)],
                 [Flag(r.hash.Some?)], [KindToU8(e.reparseKind)], rest);
  }

  lemma TextFirst(s: bytes, rest: bytes)
    ensures Size64(s) + (s + rest) == Text(s) + rest
  {}

  lemma Regroup(a: bytes, b: bytes, c: bytes, d: bytes)
    ensures (a + (b + c)) + d == a + (b + (c + d))
  {}

  lemma FieldsJoined(a: bytes, b: bytes, c: bytes, d: bytes, e: bytes, f: bytes, g: bytes, rest: bytes)
    requires |e| == 1 && |f| == 1 && |g| == 1
    ensures a + (b + (c + (d + (e + (f + (g + rest)))))) == (a + (b + (c + (d + [e[0], f[0], g[0]])))) + rest
  {
    assert e + (f + (g + rest)) == [e[0], f[0], g[0]] + rest;
  }

  /** The map's entries in the order of its iteration. */
  method Iterate(entries: Tree) returns (order: seq<Path>)
    ensures Lists(order, entries)
  {
    order := [];
    var left := entries.Keys;
    while left != {}
      invariant left <= entries.Keys && (forall k :: k in order <==> k in entries && k !in left)
      invariant forall i, j | 0 <= i < j < |order| :: order[i] != order[j]
      decreases left
    {
      var k :| k in left;
      order := order + [k];
      left := left - {k};
    }
  }

  lemma RecordsTextConcat(rs: seq<Record>, more: seq<Record>)
    ensures RecordsText(rs + more) == RecordsText(rs) + RecordsText(more)
  {
    hide RecordText;
    if rs == [] {
      assert rs + more == more;
    } else {
      assert (rs + more)[1..] == rs[1..] + more;
      RecordsTextConcat(rs[1..], more);
    }
  }

  /** The records written so far, with one more, are the beginning of all records. */
  lemma NextRecord(order: seq<Path>, entries: Tree, hashes: map<Path, Digest>, i: nat)
    requires i < |order| && forall k <- order :: k in entries
    ensures var rs, r := RecordsOf(order[..i], entries, hashes), Record(entries[order[i]], At(hashes, order[i]));
            && RecordsText(RecordsOf(order[..i + 1], entries, hashes)) == RecordsText(rs) + RecordText(r)
  {
    hide RecordText;
    var r := Record(entries[order[i]], At(hashes, order[i]));
    assert order[..i + 1][..i] == order[..i];
    RecordsTextConcat(RecordsOf(order[..i], entries, hashes), [r]);
    assert RecordsText([r]) == RecordText(r) + [];
  }

  lemma {:induction false} RecordsPrefix(order: seq<Path>, entries: Tree, hashes: map<Path, Digest>, i: nat)
    requires i <= |order| && forall k <- order :: k in entries
    ensures RecordsText(RecordsOf(order[..i], entries, hashes)) <= RecordsText(RecordsOf(order, entries, hashes))
    decreases |order| - i
  {
    hide RecordText, RecordsText, RecordsOf;
    if i == |order| {
      assert order[..i] == order;
    } else {
      NextRecord(order, entries, hashes, i);
      RecordsPrefix(order, entries, hashes, i + 1);
    }
  }

  ghost function IndexText(index: Index, root: bytes, order: seq<Path>): bytes
    reads index
    requires forall k <- order :: k in index.entries
  {
    ImageText(Image(index.cfg.caseSensitive, root, RecordsOf(order, index.entries, index.hashes)), index.stats)
  }

  /** WriteSnapshot: the header, then every entry with the digest that the index has for it. Success means the whole
      text; a failure leaves no file or a beginning of the text. */
  method WriteSnapshot(index: Index, root: bytes) returns (ok: bool, file: Option<bytes>, ghost order: seq<Path>, ghost fault: bool)
    requires index.Valid()
    ensures Lists(order, index.entries) && (ok <==> !fault)
    ensures ok ==> file == Some(IndexText(index, root, order))
    ensures file.Some? ==> file.value <= IndexText(index, root, order)
  {
    hide RecordsOf, RecordsText, HeaderText, Index.Valid, KeyedTree, EntryPieces, HeaderPieces, Joined, RecordText;
    var entries, hashes := index.entries, index.hashes;
    index.EntriesKeyed();
    var listed := Iterate(entries);
    order, fault := listed, false;
    ListedSize(listed, entries.Keys);
    RecordsCount(listed, entries, hashes);
    var created: bool := *;
    if !created {
      fault := true;
      return false, None, order, fault;
    }
    var w := new Writer();
    ghost var header := HeaderText(index.cfg.caseSensitive, root, index.stats, |entries|);
    HeaderJoined(index.cfg.caseSensitive, root, index.stats, |entries|);
    ok := w.PutAll(HeaderPieces(index.cfg.caseSensitive, root, index.stats, |entries|));
    if !ok {
      fault := true;
      return ok, Some(w.out), order, fault;
    }
    assert RecordsText(RecordsOf(listed[..0], entries, hashes)) == [] by { NothingWritten(entries, hashes); }
    for i := 0 to |listed|
      invariant w.good && w.out == header + RecordsText(RecordsOf(listed[..i], entries, hashes))
    {
      var e := entries[listed[i]];
      var hash := index.GetHash(e.relativePath);
      KeyIs(index, entries, listed[i]);
      Beginning(header, listed, entries, hashes, i);
      ghost var before := w.out;
      ok := PutRecord(w, e, hash);
      if !ok {
        Within(w.out, before + RecordText(Record(e, hash)), header + RecordsText(RecordsOf(listed, entries, hashes)));
        fault := true;
        return ok, Some(w.out), order, fault;
      }
    }
    assert listed[..|listed|] == listed;
    ok := *;
    fault := !ok;
    file := Some(w.out);
  }

  lemma Beginning(header: bytes, order: seq<Path>, entries: Tree, hashes: map<Path, Digest>, i: nat)
    requires i < |order| && forall k <- order :: k in entries
    ensures var r := Record(entries[order[i]], At(hashes, order[i]));
            var upTo := header + RecordsText(RecordsOf(order[..i], entries, hashes)) + RecordText(r);
            && upTo == header + RecordsText(RecordsOf(order[..i + 1], entries, hashes))
            && upTo <= header + RecordsText(RecordsOf(order, entries, hashes))
  {
    hide RecordText, RecordsText, RecordsOf;
    NextRecord(order, entries, hashes, i);
    RecordsPrefix(order, entries, hashes, i + 1);
  }

  lemma Within(a: bytes, b: bytes, c: bytes)
    requires a <= b <= c
    ensures a <= c
  {}

  lemma KeyIs(index: Index, entries: Tree, k: Path)
    requires KeyedTree(index.cfg, entries) && k in entries
    ensures index.Key(entries[k].relativePath) == k
  {}

  lemma NothingWritten(entries: Tree, hashes: map<Path, Digest>)
    ensures RecordsText(RecordsOf([], entries, hashes)) == []
  {}

  lemma {:induction false} RecordsCount(order: seq<Path>, entries: Tree, hashes: map<Path, Digest>)
    requires forall k <- order :: k in entries
    ensures |RecordsOf(order, entries, hashes)| == |order|
  {
    if order != [] { RecordsCount(order[..|order| - 1], entries, hashes); }
  }

  // --- reading ---

  /** The input stream. A read past the end, or an implausible length, makes it invalid for good; the value of such a
      read is padded. */
  class Reader {
    var rest: bytes
    var valid: bool

    constructor (file: bytes)
      ensures rest == file && valid
    {
      rest, valid := file, true;
    }

    method GetBytes(n: nat) returns (b: bytes)
      modifies this
      ensures |b| == n
      ensures if old(valid) && n <= |old(rest)| then valid && b == old(rest)[..n] && rest == old(rest)[n..] else !valid
    {
      if valid && n <= |rest| {
        b, rest := rest[..n], rest[n..];
      } else {
        b := if valid then rest + seq(n - |rest|, i => 0) else seq(n, i => 0);
        rest, valid := [], false;
      }
    }

    method GetU8() returns (v: u8)
      modifies this
      ensures if old(valid) && 1 <= |old(rest)| then valid && v == old(rest)[0] && rest == old(rest)[1..] else !valid
    {
      var b := GetBytes(1);
      v := b[0];
    }

    method GetU32() returns (v: u32)
      modifies this
      ensures if old(valid) && 4 <= |old(rest)| then valid && v == U32Of(old(rest)[..4]) && rest == old(rest)[4..] else !valid
    {
      var b := GetBytes(4);
      v := U32Of(b);
    }

    method GetU64() returns (v: u64)
      modifies this
      ensures if old(valid) && 8 <= |old(rest)| then valid && v == U64Of(old(rest)[..8]) && rest == old(rest)[8..] else !valid
    {
      var b := GetBytes(8);
      v := U64Of(b);
    }

    method GetStr() returns (ok: bool, s: bytes)
      modifies this
      ensures ok == valid && ok == (old(valid) && TextAt(old(rest)).Some?)
      ensures ok ==> TextAt(old(rest)) == Some((s, rest))
    {
      var n := GetU64();
      if !valid || n > MAX_PATH_LEN {
        valid := false;
        return false, [];
      }
      ghost var b := old(rest);
      if n <= |rest| { assert b[8..][..n] == b[8..8 + n] && b[8..][n..] == b[8 + n..]; }
      s := GetBytes(n);
      ok := valid;
    }

    /** The fixed-width fields between the path and the link target; version 1 has no kind. */
    method GetFields(path: Path, version: u32) returns (e: FileEntry, hasHash: bool)
      modifies this
      ensures valid == (old(valid) && |old(rest)| >= FieldsSize(version))
      ensures valid ==> var f := old(rest);
                        e == EntryAt(path, f, version, []) && hasHash == (f[29] != 0) && rest == f[FieldsSize(version)..]
    {
      hide U64Of, U32Of, U8ToKind;
      ghost var f := rest;
      var size := GetU64();
      var mtime := GetU64();
      var attributes := GetU32();
      var fileId := GetU64();
      var isDirectory := GetU8();
      var flag := GetU8();
      e := FileEntry(path, size, mtime, attributes, fileId, isDirectory != 0, NotReparse, []);
      hasHash := flag != 0;
      if valid { FieldsSliced(f); }
      if version >= 2 {
        var kind := GetU8();
        e := e.(reparseKind := U8ToKind(kind));
      }
    }

    /** One entry up to its digest. */
    method GetEntry(version: u32) returns (ok: bool, e: FileEntry, hasHash: bool)
      modifies this
      ensures ok == valid && ok == (old(valid) && HeadAt(old(rest), version).Some?)
      ensures ok ==> HeadAt(old(rest), version) == Some((e, hasHash, rest))
    {
      hide TextAt, U64Of, U32Of, U8ToKind;
      var path;
      ok, path := GetStr();
      e, hasHash := FileEntry(path, 0, 0, 0, 0, false, NotReparse, []), false;
      if !ok { return; }
      e, hasHash := GetFields(path, version);
      if version >= 2 {
        var target;
        ok, target := GetStr();
        if !ok { return; }
        e := e.(linkTarget := target);
      }
      ok := valid;
    }
  }

  lemma FieldsSliced(f: bytes)
    requires |f| >= 30
    ensures f[8..][..8] == f[8..16] && f[8..][8..][..4] == f[16..20] && f[8..][8..][4..][..8] == f[20..28]
    ensures f[8..][8..][4..][8..][0] == f[28] && f[8..][8..][4..][8..][1..][0] == f[29]
    ensures f[8..][8..][4..][8..][1..][1..] == f[30..] && (|f| >= 31 ==> f[30..][0] == f[30] && f[30..][1..] == f[31..])
  {}

  /** ReadSnapshot: accepted exactly when the bytes hold an image; the index is rebuilt with the image's case policy, one
      record after the other, and its counters are recomputed from its entries. */
  method ReadSnapshot(cfg: Config, file: Option<bytes>) returns (loaded: Option<Index>, root: bytes)
    ensures loaded.Some? <==> file.Some? && ImageAt(file.value).Some?
    ensures loaded.Some? ==>
              var m, index := ImageAt(file.value).value.0, loaded.value;
              && fresh(index) && index.Valid() && index.cfg == cfg.(caseSensitive := m.caseSensitive) && root == m.root
              && index.entries == LastWins(index.cfg, EntriesOf(m.records))
              && index.hashes == HashesOf(index.cfg, m.records) && index.stats == TreeTotals(index.entries)
  {
    hide TextAt, HeadAt, HashAt, RecordsAt, LastWins, HashesOf, Index.Valid, TreeTotals, U64Of, U32Of, KeyOf, EntriesOf;
    root := [];
    if file.None? { return None, root; }
    var r := new Reader(file.value);
    ghost var b := file.value;
    var magic := r.GetU32();
    if magic != MAGIC { return None, root; }
    var version := r.GetU32();
    if |b| >= 8 { assert b[4..][..4] == b[4..8]; }
    if version != 1 && version != VERSION { return None, root; }
    var caseFlag := r.GetU8();
    if r.valid { HeaderSliced(b); }
    var ok;
    ok, root := r.GetStr();
    if !ok { return None, root; }
    ghost var t := r.rest;
    var files := r.GetU64();
    var dirs := r.GetU64();
    var total := r.GetU64();
    var count := r.GetU64();
    if |t| >= 32 { CountsSliced(t); }
    if !r.valid || count > MAX_ENTRIES { return None, root; }
    var index := new Index(cfg.(caseSensitive := caseFlag != 0));
    var complete, done := ReadRecords(r, index, version, count);
    if !complete { return None, root; }
    index.Exact();
    loaded := Some(index);
  }

  lemma HeaderSliced(b: bytes)
    requires |b| >= 9
    ensures b[4..][..4] == b[4..8] && b[4..][4..][0] == b[8] && b[4..][4..][1..] == b[9..]
  {}

  lemma CountsSliced(t: bytes)
    requires |t| >= 32
    ensures t[8..][8..][8..][..8] == t[24..32] && t[8..][8..][8..][8..] == t[32..]
  {}

  /** The loop over the records. */
  method ReadRecords(r: Reader, index: Index, version: u32, count: nat) returns (ok: bool, ghost done: seq<Record>)
    requires r.valid && index.Valid() && index.entries == map[] && index.hashes == map[] && index.erased == Totals(0, 0, 0)
    modifies r, index
    ensures ok == RecordsAt(old(r.rest), version, count).Some? && index.Valid() && index.erased == Totals(0, 0, 0)
    ensures ok ==> RecordsAt(old(r.rest), version, count).value.0 == done
                   && index.entries == LastWins(index.cfg, EntriesOf(done)) && index.hashes == HashesOf(index.cfg, done)
  {
    hide HeadAt, Index.Valid, KeyOf, LastWins, HashesOf, EntriesOf, RecordsAt;
    ghost var start := r.rest;
    done := [];
    NothingLoaded(index.cfg);
    NothingRead(RecordsAt(start, version, count));
    for i := 0 to count
      invariant r.valid && index.Valid() && index.erased == Totals(0, 0, 0)
      invariant Continues(RecordsAt(start, version, count), done, RecordsAt(r.rest, version, count - i))
      invariant index.entries == LastWins(index.cfg, EntriesOf(done)) && index.hashes == HashesOf(index.cfg, done)
    {
      ghost var at := r.rest;
      NextRecordAt(at, version, count - i, RecordsAt(start, version, count), done);
      var good, e, hasHash := r.GetEntry(version);
      if !good { return false, done; }
      index.AddEntry(e);
      var hash: Option<Digest> := None;
      if hasHash {
        var digest := r.GetBytes(32);
        if !r.valid { return false, done; }
        hash := Some(digest);
        KeyAgrees(index, e);
        index.SetHash(e.relativePath, digest);
      }
      LoadedOne(index.cfg, done, Record(e, hash));
      done := done + [Record(e, hash)];
    }
    NothingLeft(r.rest, version, done);
    ok := true;
  }

  lemma KeyAgrees(index: Index, e: FileEntry)
    ensures index.Key(e.relativePath) == KeyOf(index.cfg, e)
  {}

  lemma NothingRead(all: Option<(seq<Record>, bytes)>)
    ensures Continues(all, [], all)
  {
    if all.Some? { assert [] + all.value.0 == all.value.0; }
  }

  lemma NothingLeft(b: bytes, version: u32, done: seq<Record>)
    ensures RecordsAt(b, version, 0) == Some(([], b)) && done + [] == done
  {}

  /** all is what has been read followed by what is still to be read. */
  ghost predicate Continues(all: Option<(seq<Record>, bytes)>, done: seq<Record>, more: Option<(seq<Record>, bytes)>) {
    all == if more.None? then None else Some((done + more.value.0, more.value.1))
  }

  lemma NextRecordAt(at: bytes, version: u32, n: nat, all: Option<(seq<Record>, bytes)>, done: seq<Record>)
    requires n > 0 && Continues(all, done, RecordsAt(at, version, n))
    ensures RecordAt(at, version).None? ==> all.None?
    ensures RecordAt(at, version).Some? ==>
              Continues(all, done + [RecordAt(at, version).value.0], RecordsAt(RecordAt(at, version).value.1, version, n - 1))
  {
    hide RecordAt;
    var more := RecordsAt(at, version, n);
    if more.Some? {
      var rest := RecordsAt(RecordAt(at, version).value.1, version, n - 1).value.0;
      assert done + ([RecordAt(at, version).value.0] + rest) == (done + [RecordAt(at, version).value.0]) + rest;
    }
  }

  lemma NothingLoaded(cfg: Config)
    ensures LastWins(cfg, EntriesOf([])) == map[] && HashesOf(cfg, []) == map[]
  {}

  lemma LoadedOne(cfg: Config, done: seq<Record>, r: Record)
    ensures LastWins(cfg, EntriesOf(done + [r])) == LastWins(cfg, EntriesOf(done))[KeyOf(cfg, r.entry) := r.entry]
    ensures HashesOf(cfg, done + [r])
            == if r.hash.Some? then HashesOf(cfg, done)[KeyOf(cfg, r.entry) := r.hash.value] else HashesOf(cfg, done)
  {
    hide KeyOf;
    assert (done + [r])[..|done|] == done;
    var es := EntriesOf(done + [r]);
    assert es == EntriesOf(done) + [r.entry];
    assert es[..|done|] == EntriesOf(done);
  }
}
