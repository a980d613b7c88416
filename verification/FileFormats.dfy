/** The bytes of the stored formats, place by place. */
module FileFormats {
  import opened Wrappers
  import opened Bytes
  import opened Results
  import opened JournalCodec
  import opened JournalReplay
  import Crc32
  import RunList
  import Snapshot
  import FileIndex
  import SessionJson

  /** The verdicts and patterns in the order of their codes. */
  const VERDICTS: seq<Status> :=
    [Identical, Missing, Extra, SizeMismatch, ContentMismatch, IdenticalPartial, ContentMismatchPartial,
     ReadError, AccessDenied, ChangedDuringScan]
  const PATTERNS: seq<PartialPattern> := [Edges, Center, Random]

  lemma CodesMean(s: Status, p: PartialPattern)
    ensures StatusToU8(s) < |VERDICTS| && VERDICTS[StatusToU8(s)] == s
    ensures PatternToU8(p) < |PATTERNS| && PATTERNS[PatternToU8(p)] == p
  {}

  predicate HasDigest(b: bytes, at: nat, h: Option<Digest>) {
    h.Some? ==> at + 32 <= |b| && b[at..at + 32] == h.value
  }

  /** One side starts at a place: size, modification time, and the digest if there is one. */
  predicate HasSide(b: bytes, at: nat, size: u64, mtime: u64, h: Option<Digest>) {
    at + 16 <= |b| && FromLe(b[at..at + 8]) == size && FromLe(b[at + 8..at + 16]) == mtime && HasDigest(b, at + 16, h)
  }

  /** The payload of a row whose path length fits its field. */
  lemma PayloadLayout(e: JournalEntry)
    requires |e.path| < 0x1_0000_0000
    ensures var p, n := PayloadOf(e), |e.path|;
            var sideB := n + 27 + (if e.hashA.Some? then 32 else 0);
            && |p| == sideB + 16 + (if e.hashB.Some? then 32 else 0)
            && FromLe(p[..4]) == n && p[4..n + 4] == e.path
            && p[n + 4] < |VERDICTS| && VERDICTS[p[n + 4]] == e.verdict
            && (p[n + 5] % 2 == 1 <==> e.hashA.Some?) && (p[n + 5] / 2 % 2 == 1 <==> e.hashB.Some?)
            && (p[n + 5] / 4 == 1 <==> e.isDirectory) && p[n + 5] < 8
            && p[n + 6] < |PATTERNS| && PATTERNS[p[n + 6]] == e.pattern
            && FromLe(p[n + 7..n + 11]) == e.percent % 0x1_0000_0000
            && HasSide(p, n + 11, e.sizeA, e.mtimeA, e.hashA) && HasSide(p, sideB, e.sizeB, e.mtimeB, e.hashB)
  {
    hide Le, FromLe, EncodeSide, HasSide, StatusToU8, PatternToU8;
    var p, n := PayloadOf(e), |e.path|;
    var a, b := EncodeSide(e.sizeA, e.mtimeA, e.hashA), EncodeSide(e.sizeB, e.mtimeB, e.hashB);
    CodesMean(e.verdict, e.pattern);
    Pow256Values();
    LeRoundTrip(n, 4);
    LeRoundTrip(I32ToU32(e.percent), 4);
    assert p[..4] == Le(n, 4) && p[4..n + 4] == e.path;
    assert p[n + 7..n + 11] == Le(I32ToU32(e.percent), 4);
    assert p == p[..n + 11] + a + b;
    SideLayout(p[..n + 11], e.sizeA, e.mtimeA, e.hashA, b);
    SideLayout(p[..n + 11] + a, e.sizeB, e.mtimeB, e.hashB, []);
    assert p[..n + 11] + a + b + [] == p;
  }

  lemma SideLayout(before: bytes, size: u64, mtime: u64, h: Option<Digest>, after: bytes)
    ensures var side := EncodeSide(size, mtime, h);
            |side| == 16 + (if h.Some? then 32 else 0) && HasSide(before + side + after, |before|, size, mtime, h)
  {
    hide Le, FromLe;
    var at, b := |before|, before + EncodeSide(size, mtime, h) + after;
    Pow256Values();
    LeRoundTrip(size, 8);
    LeRoundTrip(mtime, 8);
    assert b[at..at + 8] == Le(size, 8) && b[at + 8..at + 16] == Le(mtime, 8);
  }

  /** The frame of a record: the letters BVSJ, the payload's length and checksum, the payload. */
  lemma RecordLayout(e: JournalEntry)
    requires Fits(e)
    ensures var r, p := RecordOf(e), PayloadOf(e);
            && |r| == 12 + |p| && r[..4] == [0x42, 0x56, 0x53, 0x4A]
            && FromLe(r[4..8]) == |p| && FromLe(r[8..12]) == Crc32.Of(p) && r[12..] == p
  {
    hide Le, FromLe, PayloadOf, Frame;
    FrameLayout(PayloadOf(e), CrcOf(PayloadOf(e)));
  }

  lemma FrameLayout(p: bytes, crc: u32)
    requires |p| < 0x1_0000_0000
    ensures var r := Frame(p, crc);
            && |r| == 12 + |p| && r[..4] == [0x42, 0x56, 0x53, 0x4A]
            && FromLe(r[4..8]) == |p| && FromLe(r[8..12]) == crc && r[12..] == p
  {
    hide Le, FromLe;
    Letters();
    Pow256Values();
    LeRoundTrip(|p|, 4);
    LeRoundTrip(crc, 4);
    var r := Frame(p, crc);
    assert r[..4] == Le(RECORD_MAGIC, 4) && r[4..8] == Le(|p|, 4) && r[8..12] == Le(crc, 4) && r[12..] == p;
  }

  lemma Letters()
    ensures Le(RECORD_MAGIC, 4) == [0x42, 0x56, 0x53, 0x4A]
  {
    assert Le(RECORD_MAGIC, 4) == [0x42] + Le(0x4A_5356, 3);
    assert Le(0x4A_5356, 3) == [0x56] + Le(0x4A53, 2);
    assert Le(0x4A53, 2) == [0x53] + Le(0x4A, 1);
  }

  // --- snapshots ---

  /** The kinds of entries in the order of their codes. */
  const KINDS: seq<ReparseKind> := [NotReparse, SymlinkFile, SymlinkDir, Junction, OtherReparse, UnknownReparse]

  /** The fixed fields of a snapshot's record. */
  lemma FieldsLayout(r: Snapshot.Record)
    ensures var f, e := Snapshot.FieldsText(r), r.entry;
            && |f| == 31 && FromLe(f[..8]) == e.size && FromLe(f[8..16]) == e.mtime
            && FromLe(f[16..20]) == e.attributes && FromLe(f[20..28]) == e.fileId
            && f[28] == (if e.isDirectory then 1 else 0) && f[29] == (if r.hash.Some? then 1 else 0)
            && f[30] < |KINDS| && KINDS[f[30]] == e.reparseKind
  {
    hide Le, FromLe;
    var f, e := Snapshot.FieldsText(r), r.entry;
    Pow256Values();
    LeRoundTrip(e.size, 8);
    LeRoundTrip(e.mtime, 8);
    LeRoundTrip(e.attributes, 4);
    LeRoundTrip(e.fileId, 8);
    assert f[..8] == Le(e.size, 8) && f[8..16] == Le(e.mtime, 8) && f[16..20] == Le(e.attributes, 4) && f[20..28] == Le(e.fileId, 8);
  }

  /** A whole record: path, fixed fields, link target and digest, both texts behind their lengths. */
  lemma SnapshotRecordLayout(r: Snapshot.Record)
    requires |r.entry.relativePath| < Snapshot.LIMIT64 && |r.entry.linkTarget| < Snapshot.LIMIT64
    ensures var t, n, m := Snapshot.RecordText(r), |r.entry.relativePath|, |r.entry.linkTarget|;
            && |t| == n + 47 + m + (if r.hash.Some? then 32 else 0)
            && FromLe(t[..8]) == n && t[8..n + 8] == r.entry.relativePath && t[n + 8..n + 39] == Snapshot.FieldsText(r)
            && FromLe(t[n + 39..n + 47]) == m && t[n + 47..n + 47 + m] == r.entry.linkTarget
            && (r.hash.Some? ==> t[n + 47 + m..] == r.hash.value)
  {
    hide Le, FromLe, Snapshot.FieldsText;
    var t, n, m := Snapshot.RecordText(r), |r.entry.relativePath|, |r.entry.linkTarget|;
    Pow256Values();
    FieldsLayout(r);
    LeRoundTrip(n, 8);
    LeRoundTrip(m, 8);
    assert t[..8] == Le(n, 8) && t[n + 39..n + 47] == Le(m, 8);
  }

  /** The header: the letters BVSI, version 2, the case policy, the root behind its length, and four counters. */
  lemma SnapshotHeaderLayout(m: Snapshot.Image, counts: FileIndex.Totals)
    requires |m.root| < Snapshot.LIMIT64 && |m.records| < Snapshot.LIMIT64
    ensures var t, n := Snapshot.ImageText(m, counts), |m.root|;
            && |t| >= n + 49 && t[..4] == [0x42, 0x56, 0x53, 0x49] && FromLe(t[4..8]) == 2
            && t[8] == (if m.caseSensitive then 1 else 0) && FromLe(t[9..17]) == n && t[17..n + 17] == m.root
            && FromLe(t[n + 41..n + 49]) == |m.records| && t[n + 49..] == Snapshot.RecordsText(m.records)
  {
    hide Le, FromLe, Snapshot.RecordsText;
    var t, n := Snapshot.ImageText(m, counts), |m.root|;
    SnapshotLetters();
    Pow256Values();
    LeRoundTrip(2, 4);
    LeRoundTrip(n, 8);
    LeRoundTrip(|m.records|, 8);
    assert t[..4] == Le(Snapshot.MAGIC, 4) && t[4..8] == Le(Snapshot.VERSION, 4) && t[9..17] == Le(n, 8);
    assert t[n + 41..n + 49] == Le(|m.records|, 8);
  }

  lemma SnapshotLetters()
    ensures Le(Snapshot.MAGIC, 4) == [0x42, 0x56, 0x53, 0x49]
  {
    assert Le(Snapshot.MAGIC, 4) == [0x42] + Le(0x49_5356, 3);
    assert Le(0x49_5356, 3) == [0x56] + Le(0x4953, 2);
    assert Le(0x4953, 2) == [0x53] + Le(0x49, 1);
  }

  // --- texts and run lists ---

  /** The escapes of section 7 of RFC 8259: the two-character forms, six characters for other control characters, and every
      other character as it is. */
  lemma EscapesMean(c: char)
    ensures c == '\n' ==> SessionJson.Escaped(c) == ['\\', 'n']
    ensures c == '\r' ==> SessionJson.Escaped(c) == ['\\', 'r']
    ensures c == '\t' ==> SessionJson.Escaped(c) == ['\\', 't']
    ensures c as int == 0x08 ==> SessionJson.Escaped(c) == ['\\', 'b']
    ensures c as int == 0x0C ==> SessionJson.Escaped(c) == ['\\', 'f']
    ensures c == '"' || c == '\\' ==> SessionJson.Escaped(c) == ['\\', c]
    ensures c as int >= 0x20 && c != '"' && c != '\\' ==> SessionJson.Escaped(c) == [c]
    ensures var e := SessionJson.Escaped(c);
            c as int < 0x20 && c as int !in {0x08, 0x09, 0x0A, 0x0C, 0x0D} ==>
              |e| == 6 && e[..4] == ['\\', 'u', '0', '0']
              && 16 * SessionJson.HexValue(e[4]) + SessionJson.HexValue(e[5]) == c as int
  {}

  /** Two runs as NTFS stores them: 0x18 clusters at 0x5634, and 0x10 more that start 0x20 before those. */
  lemma TwoRuns()
    ensures RunList.Decoded([0x21, 0x18, 0x34, 0x56, 0x11, 0x10, 0xE0, 0x00], 0, 0)
            == [RunList.Extent(0, 0x5634, 0x18), RunList.Extent(0x18, 0x5614, 0x10)]
  {
    var b: bytes := [0x21, 0x18, 0x34, 0x56, 0x11, 0x10, 0xE0, 0x00];
    SecondRun();
    TwoBytes(b[2..4]);
    OneByte(b[1..2]);
    assert b[4..] == [0x11, 0x10, 0xE0, 0x00];
    hide FromLe, Pow256;
    assert b[2..4] == [0x34, 0x56];
  }

  lemma SecondRun()
    ensures RunList.Decoded([0x11, 0x10, 0xE0, 0x00], 0x18, 0x5634) == [RunList.Extent(0x18, 0x5614, 0x10)]
  {
    var c: bytes := [0x11, 0x10, 0xE0, 0x00];
    OneByte(c[1..2]);
    OneByte(c[2..3]);
    assert c[3..] == [0x00];
    assert Pow256(1) == 256;
    hide FromLe;
  }

  lemma OneByte(b: bytes)
    requires |b| == 1
    ensures FromLe(b) == b[0]
  {
    assert b[1..] == [];
  }

  lemma TwoBytes(b: bytes)
    requires |b| == 2
    ensures FromLe(b) == b[0] as int + 0x100 * b[1] as int
  {
    OneByte(b[1..]);
  }
}
