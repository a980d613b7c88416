/** The binary snapshot of an index: its text, and what a reader makes of any bytes. */
module Snapshot {
  import opened Wrappers
  import opened Bytes
  import opened Results
  import opened JournalCodec
  import opened Classify
  import opened RunResult
  import opened ConcurrentRun
  import opened FileIndex

  const MAGIC: u32 := 0x4953_5642
  const VERSION: u32 := 2
  const MAX_PATH_LEN: nat := 0x100_0000
  const MAX_ENTRIES: nat := 0x8000_0000
  const LIMIT64: nat := 0x1_0000_0000_0000_0000

  datatype Record = Record(entry: FileEntry, hash: Option<Digest>)

  datatype Image = Image(caseSensitive: bool, root: bytes, records: seq<Record>)

  // --- writing ---

  function Flag(b: bool): u8 {
    if b then 1 else 0
  }

  function KindToU8(k: ReparseKind): u8 {
    match k
    case NotReparse => 0
    case SymlinkFile => 1
    case SymlinkDir => 2
    case Junction => 3
    case OtherReparse => 4
    case UnknownReparse => 5
  }

  /** A kind out of range counts as unreadable: it is never synced. */
  function U8ToKind(v: u8): ReparseKind {
    match v
    case 0 => NotReparse
    case 1 => SymlinkFile
    case 2 => SymlinkDir
    case 3 => Junction
    case 4 => OtherReparse
    case _ => UnknownReparse
  }

  function Size64(s: bytes): bytes {
    Le(|s| % LIMIT64, 8)
  }

  function Text(s: bytes): bytes {
    Size64(s) + s
  }

  function FieldsText(r: Record): bytes {
    var e := r.entry;
    Le(e.size, 8) + (Le(e.mtime, 8) + (Le(e.attributes, 4) + (Le(e.fileId, 8)
    + [Flag(e.isDirectory), Flag(r.hash.Some?), KindToU8(e.reparseKind)])))
  }

  function RecordText(r: Record): bytes {
    Text(r.entry.relativePath) + (FieldsText(r) + (Text(r.entry.linkTarget) + HashBytes(r.hash)))
  }

  function RecordsText(rs: seq<Record>): bytes {
    if rs == [] then [] else RecordText(rs[0]) + RecordsText(rs[1..])
  }

  /** The counters are written for information only. */
  function CountsText(counts: Totals, size: nat): bytes {
    Le(counts.files % LIMIT64, 8) + (Le(counts.dirs % LIMIT64, 8) + (Le(counts.bytes % LIMIT64, 8) + Le(size % LIMIT64, 8)))
  }

  function HeaderText(caseSensitive: bool, root: bytes, counts: Totals, size: nat): bytes {
    Le(MAGIC, 4) + (Le(VERSION, 4) + ([Flag(caseSensitive)] + (Text(root) + CountsText(counts, size))))
  }

  function ImageText(m: Image, counts: Totals): bytes {
    HeaderText(m.caseSensitive, m.root, counts, |m.records|) + RecordsText(m.records)
  }

  // --- reading ---

  /** A length above the sanity bound is corrupt. */
  function TextAt(b: bytes): Option<(bytes, bytes)> {
    if |b| < 8 then None else
    var n := U64Of(b[..8]);
    if n > MAX_PATH_LEN || |b| - 8 < n then None else Some((b[8..8 + n], b[8 + n..]))
  }

  /** Version 1 has neither a kind nor a target. */
  function FieldsSize(version: u32): nat {
    if version >= 2 then 31 else 30
  }

  function EntryAt(path: Path, f: bytes, version: u32, target: bytes): FileEntry
    requires |f| >= FieldsSize(version)
  {
    FileEntry(path, U64Of(f[..8]), U64Of(f[8..16]), U32Of(f[16..20]), U64Of(f[20..28]), f[28] != 0,
              if version >= 2 then U8ToKind(f[30]) else NotReparse, target)
  }

  function TargetAt(f: bytes, version: u32): Option<(bytes, bytes)>
    requires |f| >= FieldsSize(version)
  {
    if version >= 2 then TextAt(f[31..]) else Some(([], f[30..]))
  }

  function HashAt(b: bytes, hasHash: bool): Option<(Option<Digest>, bytes)> {
    if !hasHash then Some((None, b)) else if |b| < 32 then None else Some((Some(b[..32]), b[32..]))
  }

  /** A record up to its digest: the entry, whether a digest follows, and the rest. */
  function HeadAt(b: bytes, version: u32): Option<(FileEntry, bool, bytes)> {
    var path := TextAt(b);
    if path.None? || |path.value.1| < FieldsSize(version) then None else
    var f := path.value.1;
    var target := TargetAt(f, version);
    if target.None? then None
    else Some((EntryAt(path.value.0, f, version, target.value.0), f[29] != 0, target.value.1))
  }

  function RecordAt(b: bytes, version: u32): Option<(Record, bytes)> {
    var head := HeadAt(b, version);
    if head.None? then None else
    var hash := HashAt(head.value.2, head.value.1);
    if hash.None? then None else Some((Record(head.value.0, hash.value.0), hash.value.1))
  }

  function RecordsAt(b: bytes, version: u32, n: nat): Option<(seq<Record>, bytes)> {
    if n == 0 then Some(([], b)) else
    var first := RecordAt(b, version);
    if first.None? then None else
    var more := RecordsAt(first.value.1, version, n - 1);
    if more.None? then None else Some(([first.value.0] + more.value.0, more.value.1))
  }

  /** What the reader accepts, and what follows it. */
  function ImageAt(b: bytes): Option<(Image, bytes)> {
    if |b| < 9 || U32Of(b[..4]) != MAGIC then None else
    var version := U32Of(b[4..8]);
    if version != 1 && version != VERSION then None else
    var root := TextAt(b[9..]);
    if root.None? || |root.value.1| < 32 then None else
    var t := root.value.1;
    if U64Of(t[24..32]) > MAX_ENTRIES then None else
    var rs := RecordsAt(t[32..], version, U64Of(t[24..32]));
    if rs.None? then None else Some((Image(b[8] != 0, root.value.0, rs.value.0), rs.value.1))
  }

  // --- what is written is read back ---

  /** Sizes that a machine can hold. */
  predicate InMemory(m: Image) {
    |m.root| < LIMIT64 && |m.records| < LIMIT64
    && forall r <- m.records :: |r.entry.relativePath| < LIMIT64 && |r.entry.linkTarget| < LIMIT64
  }

  predicate EntryFits(e: FileEntry) {
    |e.relativePath| <= MAX_PATH_LEN && |e.linkTarget| <= MAX_PATH_LEN
  }

  predicate RecordFits(r: Record) {
    EntryFits(r.entry)
  }

  /** The bounds that the reader checks and the writer does not. */
  predicate WithinBounds(m: Image) {
    |m.root| <= MAX_PATH_LEN && |m.records| <= MAX_ENTRIES && forall r <- m.records :: RecordFits(r)
  }

  lemma TextRead(s: bytes, rest: bytes)
    requires |s| < LIMIT64
    ensures TextAt(Text(s) + rest) == if |s| <= MAX_PATH_LEN then Some((s, rest)) else None
  {
    hide Le, U64Of;
    var b := Text(s) + rest;
    U64RoundTrip(|s|);
    assert b[..8] == Le(|s|, 8);
    assert b[8..8 + |s|] == s && b[8 + |s|..] == rest;
  }

  lemma FieldsRead(r: Record, rest: bytes)
    ensures var f, e := FieldsText(r) + rest, r.entry;
            && |f| >= 31 && EntryAt(e.relativePath, f, VERSION, e.linkTarget) == e && f[31..] == rest
            && (f[29] != 0 <==> r.hash.Some?)
  {
    hide Le, U64Of, U32Of;
    var f, e := FieldsText(r) + rest, r.entry;
    U64RoundTrip(e.size);
    U64RoundTrip(e.mtime);
    U32RoundTrip(e.attributes);
    U64RoundTrip(e.fileId);
    assert f[..8] == Le(e.size, 8);
    assert f[8..16] == Le(e.mtime, 8);
    assert f[16..20] == Le(e.attributes, 4);
    assert f[20..28] == Le(e.fileId, 8);
  }

  lemma RecordRead(r: Record, rest: bytes)
    requires |r.entry.relativePath| < LIMIT64 && |r.entry.linkTarget| < LIMIT64
    ensures RecordAt(RecordText(r) + rest, VERSION) == if RecordFits(r) then Some((r, rest)) else None
  {
    hide Text, FieldsText, TextAt, EntryAt;
    var e, hash := r.entry, HashBytes(r.hash) + rest;
    var target := Text(e.linkTarget) + hash;
    var fields := FieldsText(r) + target;
    assert RecordText(r) + rest == Text(e.relativePath) + fields;
    TextRead(e.relativePath, fields);
    FieldsRead(r, target);
    TextRead(e.linkTarget, hash);
    if r.hash.Some? { assert hash[..32] == r.hash.value && hash[32..] == rest; }
    else { assert hash == rest; }
  }

  lemma {:induction false} RecordsRead(rs: seq<Record>, rest: bytes)
    requires forall r <- rs :: |r.entry.relativePath| < LIMIT64 && |r.entry.linkTarget| < LIMIT64
    ensures RecordsAt(RecordsText(rs) + rest, VERSION, |rs|)
            == if forall r <- rs :: RecordFits(r) then Some((rs, rest)) else None
  {
    hide RecordText, RecordAt, RecordFits;
    if rs == [] {
      assert RecordsText(rs) + rest == rest;
    } else {
      var more := RecordsText(rs[1..]) + rest;
      assert RecordsText(rs) + rest == RecordText(rs[0]) + more;
      RecordRead(rs[0], more);
      RecordsRead(rs[1..], rest);
      assert rs == [rs[0]] + rs[1..];
    }
  }

  lemma CountsRead(counts: Totals, size: nat, rest: bytes)
    requires size < LIMIT64
    ensures var t := CountsText(counts, size) + rest;
            |t| >= 32 && U64Of(t[24..32]) == size && t[32..] == rest
  {
    hide Le, U64Of;
    var t := CountsText(counts, size) + rest;
    U64RoundTrip(size);
    assert t[24..32] == Le(size, 8);
  }

  /** Reading a written image gives it back, with whatever follows, if and only if it is within the reader's bounds;
      otherwise it is rejected. */
  lemma ImageRead(m: Image, counts: Totals, rest: bytes)
    requires InMemory(m)
    ensures ImageAt(ImageText(m, counts) + rest) == if WithinBounds(m) then Some((m, rest)) else None
  {
    hide Text, TextAt, CountsText, RecordsText, RecordsAt, Le, U64Of, U32Of;
    var records := RecordsText(m.records) + rest;
    var t := CountsText(counts, |m.records|) + records;
    var b := ImageText(m, counts) + rest;
    U32RoundTrip(MAGIC);
    U32RoundTrip(VERSION);
    HeaderParts(m, counts, rest);
    TextRead(m.root, t);
    CountsRead(counts, |m.records|, records);
    RecordsRead(m.records, rest);
  }

  lemma HeaderParts(m: Image, counts: Totals, rest: bytes)
    ensures var b := ImageText(m, counts) + rest;
            && |b| >= 9 && b[..4] == Le(MAGIC, 4) && b[4..8] == Le(VERSION, 4) && b[8] == Flag(m.caseSensitive)
            && b[9..] == Text(m.root) + (CountsText(counts, |m.records|) + (RecordsText(m.records) + rest))
  {
    hide Text, CountsText, RecordsText, Le;
  }

  // --- no proper prefix is accepted ---

  lemma TextExtends(b: bytes, x: bytes)
    requires TextAt(b).Some?
    ensures TextAt(b + x) == Some((TextAt(b).value.0, TextAt(b).value.1 + x))
  {
    hide U64Of;
    var n := U64Of(b[..8]);
    assert (b + x)[..8] == b[..8] && (b + x)[8..8 + n] == b[8..8 + n] && (b + x)[8 + n..] == b[8 + n..] + x;
  }

  lemma FieldsExtend(path: Path, f: bytes, version: u32, target: bytes, x: bytes)
    requires |f| >= FieldsSize(version)
    ensures EntryAt(path, f + x, version, target) == EntryAt(path, f, version, target) && (f + x)[29] == f[29]
    ensures (f + x)[FieldsSize(version)..] == f[FieldsSize(version)..] + x
  {
    hide U64Of, U32Of;
    var g := f + x;
    assert g[..8] == f[..8] && g[8..16] == f[8..16] && g[16..20] == f[16..20] && g[20..28] == f[20..28];
  }

  lemma HashExtends(b: bytes, hasHash: bool, x: bytes)
    requires HashAt(b, hasHash).Some?
    ensures HashAt(b + x, hasHash) == Some((HashAt(b, hasHash).value.0, HashAt(b, hasHash).value.1 + x))
  {
    if hasHash { assert (b + x)[..32] == b[..32] && (b + x)[32..] == b[32..] + x; }
  }

  lemma HeadExtends(b: bytes, version: u32, x: bytes)
    requires HeadAt(b, version).Some?
    ensures var h := HeadAt(b, version).value; HeadAt(b + x, version) == Some((h.0, h.1, h.2 + x))
  {
    hide TextAt, EntryAt;
    var path := TextAt(b).value;
    var f := path.1;
    TextExtends(b, x);
    FieldsExtend(path.0, f, version, TargetAt(f, version).value.0, x);
    if version >= 2 { TextExtends(f[31..], x); }
  }

  lemma RecordExtends(b: bytes, version: u32, x: bytes)
    requires RecordAt(b, version).Some?
    ensures RecordAt(b + x, version) == Some((RecordAt(b, version).value.0, RecordAt(b, version).value.1 + x))
  {
    hide HeadAt, HashAt;
    HeadExtends(b, version, x);
    HashExtends(HeadAt(b, version).value.2, HeadAt(b, version).value.1, x);
  }

  lemma {:induction false} RecordsExtend(b: bytes, version: u32, n: nat, x: bytes)
    requires RecordsAt(b, version, n).Some?
    ensures RecordsAt(b + x, version, n) == Some((RecordsAt(b, version, n).value.0, RecordsAt(b, version, n).value.1 + x))
    decreases n
  {
    hide RecordAt;
    if n > 0 {
      RecordExtends(b, version, x);
      RecordsExtend(RecordAt(b, version).value.1, version, n - 1, x);
    }
  }

  /** Bytes after an accepted image do not change what is read. */
  lemma ImageExtends(b: bytes, x: bytes)
    requires ImageAt(b).Some?
    ensures ImageAt(b + x) == Some((ImageAt(b).value.0, ImageAt(b).value.1 + x))
  {
    hide TextAt, RecordsAt, U64Of, U32Of;
    var g := b + x;
    assert g[..4] == b[..4] && g[4..8] == b[4..8] && g[9..] == b[9..] + x;
    TextExtends(b[9..], x);
    var t := TextAt(b[9..]).value.1;
    assert (t + x)[24..32] == t[24..32] && (t + x)[32..] == t[32..] + x;
    RecordsExtend(t[32..], U32Of(b[4..8]), U64Of(t[24..32]), x);
  }

  /** Every proper prefix of a written image is rejected. */
  lemma PrefixRejected(m: Image, counts: Totals, n: nat)
    requires InMemory(m) && n < |ImageText(m, counts)|
    ensures ImageAt(ImageText(m, counts)[..n]) == None
  {
    hide ImageText, ImageAt, WithinBounds;
    var b := ImageText(m, counts);
    if ImageAt(b[..n]).Some? {
      ImageExtends(b[..n], b[n..]);
      assert b[..n] + b[n..] == b == b + [];
      ImageRead(m, counts, []);
      assert false;
    }
  }

  // --- an index and its records ---

  ghost predicate Lists(order: seq<Path>, entries: Tree) {
    && (forall k :: k in order <==> k in entries)
    && forall i, j | 0 <= i < j < |order| :: order[i] != order[j]
  }

  /** The records in the order of iteration. Digests of paths without an entry are not written. */
  function RecordsOf(order: seq<Path>, entries: Tree, hashes: map<Path, Digest>): seq<Record>
    requires forall k <- order :: k in entries
  {
    if order == [] then [] else
    var n := |order| - 1;
    RecordsOf(order[..n], entries, hashes) + [Record(entries[order[n]], At(hashes, order[n]))]
  }

  function EntriesOf(rs: seq<Record>): (r: seq<FileEntry>)
    ensures |r| == |rs|
  {
    if rs == [] then [] else EntriesOf(rs[..|rs| - 1]) + [rs[|rs| - 1].entry]
  }

  /** setHash for every record that has a digest, in order. */
  function HashesOf(cfg: Config, rs: seq<Record>): map<Path, Digest> {
    if rs == [] then map[] else
    var r, before := rs[|rs| - 1], HashesOf(cfg, rs[..|rs| - 1]);
    if r.hash.Some? then before[KeyOf(cfg, r.entry) := r.hash.value] else before
  }

  lemma {:induction false} Rebuilding(cfg: Config, order: seq<Path>, entries: Tree, hashes: map<Path, Digest>)
    requires KeyedTree(cfg, entries) && forall k <- order :: k in entries
    ensures var rs := RecordsOf(order, entries, hashes);
            && |rs| == |order|
            && (forall k :: k in LastWins(cfg, EntriesOf(rs)) <==> k in order)
            && (forall k <- order :: LastWins(cfg, EntriesOf(rs))[k] == entries[k])
            && (forall k :: k in HashesOf(cfg, rs) <==> k in order && k in hashes)
            && (forall k <- HashesOf(cfg, rs) :: HashesOf(cfg, rs)[k] == hashes[k])
  {
    hide KeyOf;
    if order != [] {
      var n := |order| - 1;
      var rs := RecordsOf(order, entries, hashes);
      Rebuilding(cfg, order[..n], entries, hashes);
      assert rs[..n] == RecordsOf(order[..n], entries, hashes);
      assert EntriesOf(rs)[..n] == EntriesOf(rs[..n]);
      assert order == order[..n] + [order[n]];
    }
  }

  /** The records of an index rebuild it: the same entry under every key, and the digest of every entry that has one. */
  lemma Rebuilt(cfg: Config, order: seq<Path>, entries: Tree, hashes: map<Path, Digest>)
    requires KeyedTree(cfg, entries) && Lists(order, entries)
    ensures var rs := RecordsOf(order, entries, hashes);
            && |rs| == |entries| && LastWins(cfg, EntriesOf(rs)) == entries
            && (forall k :: At(HashesOf(cfg, rs), k) == if k in entries then At(hashes, k) else None)
  {
    hide LastWins, HashesOf, EntriesOf, KeyedTree;
    Rebuilding(cfg, order, entries, hashes);
    ListedSize(order, entries.Keys);
  }

  lemma {:induction false} RecordsHold(order: seq<Path>, entries: Tree, hashes: map<Path, Digest>)
    requires forall k <- order :: k in entries
    ensures |RecordsOf(order, entries, hashes)| == |order|
    ensures forall i | 0 <= i < |order| :: RecordsOf(order, entries, hashes)[i].entry == entries[order[i]]
  {
    if order != [] {
      var n := |order| - 1;
      RecordsHold(order[..n], entries, hashes);
      assert forall i | 0 <= i < n :: order[..n][i] == order[i];
    }
  }

  /** A snapshot of an index reads back as the same case policy, root, entries and digests if and only if its strings and
      its number of entries are within the reader's bounds; otherwise the reader rejects what the writer wrote. */
  lemma SnapshotRoundTrip(cfg: Config, root: bytes, order: seq<Path>, entries: Tree, hashes: map<Path, Digest>, counts: Totals)
    requires KeyedTree(cfg, entries) && Lists(order, entries)
    requires var m := Image(cfg.caseSensitive, root, RecordsOf(order, entries, hashes)); InMemory(m)
    ensures var read := ImageAt(ImageText(Image(cfg.caseSensitive, root, RecordsOf(order, entries, hashes)), counts));
            && (read.Some? <==> |root| <= MAX_PATH_LEN && |entries| <= MAX_ENTRIES && forall k <- entries :: EntryFits(entries[k]))
            && (read.Some? ==>
                  var m := read.value.0;
                  && m.caseSensitive == cfg.caseSensitive && m.root == root && LastWins(cfg, EntriesOf(m.records)) == entries
                  && forall k :: At(HashesOf(cfg, m.records), k) == if k in entries then At(hashes, k) else None)
  {
    hide ImageAt, ImageText, RecordsOf, LastWins, EntriesOf, HashesOf, KeyedTree;
    var m := Image(cfg.caseSensitive, root, RecordsOf(order, entries, hashes));
    ImageRead(m, counts, []);
    assert ImageText(m, counts) + [] == ImageText(m, counts);
    Rebuilt(cfg, order, entries, hashes);
    RecordsHold(order, entries, hashes);
    BoundsMean(m, order, entries);
  }

  lemma BoundsMean(m: Image, order: seq<Path>, entries: Tree)
    requires Lists(order, entries) && |m.records| == |order| == |entries|
    requires forall i | 0 <= i < |order| :: m.records[i].entry == entries[order[i]]
    ensures WithinBounds(m) <==> |m.root| <= MAX_PATH_LEN && |entries| <= MAX_ENTRIES && forall k <- entries :: EntryFits(entries[k])
  {
    hide EntryFits;
    if forall r <- m.records :: RecordFits(r) {
      forall k | k in entries ensures EntryFits(entries[k]) {
        var i :| 0 <= i < |order| && order[i] == k;
        assert m.records[i] in m.records;
      }
    }
    if forall k <- entries :: EntryFits(entries[k]) {
      forall r | r in m.records ensures RecordFits(r) {
        var i :| 0 <= i < |m.records| && m.records[i] == r;
        assert order[i] in entries;
      }
    }
  }

  lemma {:induction false} ListedSize(order: seq<Path>, keys: set<Path>)
    requires (forall k :: k in order <==> k in keys) && forall i, j | 0 <= i < j < |order| :: order[i] != order[j]
    ensures |order| == |keys|
  {
    if order == [] {
      assert keys == {};
    } else {
      var n := |order| - 1;
      assert order == order[..n] + [order[n]];
      assert order[n] !in order[..n];
      ListedSize(order[..n], keys - {order[n]});
    }
  }
}
