/** The binary records of the session journal: payload codec, framing and replay. */
module JournalCodec {
  import opened Wrappers
  import opened Bytes
  import opened Results
  import Crc32

  type Digest = d: bytes | |d| == 32 witness seq(32, i => 0)

  /** One finalized row. A digest exists exactly when the source's hasHash flag is set. */
  datatype JournalEntry = JournalEntry(
    path: Path,
    sizeA: u64, mtimeA: u64, hashA: Option<Digest>,
    sizeB: u64, mtimeB: u64, hashB: Option<Digest>,
    verdict: Status, percent: i32, pattern: PartialPattern, isDirectory: bool)

  const RECORD_MAGIC: u32 := 0x4A53_5642
  const HEADER_SIZE: nat := 12

  // --- enumerations and signed fields ---

  function StatusToU8(s: Status): u8 {
    match s
    case Identical => 0
    case Missing => 1
    case Extra => 2
    case SizeMismatch => 3
    case ContentMismatch => 4
    case IdenticalPartial => 5
    case ContentMismatchPartial => 6
    case ReadError => 7
    case AccessDenied => 8
    case ChangedDuringScan => 9
  }

  function U8ToStatus(v: u8): Option<Status> {
    match v
    case 0 => Some(Identical)
    case 1 => Some(Missing)
    case 2 => Some(Extra)
    case 3 => Some(SizeMismatch)
    case 4 => Some(ContentMismatch)
    case 5 => Some(IdenticalPartial)
    case 6 => Some(ContentMismatchPartial)
    case 7 => Some(ReadError)
    case 8 => Some(AccessDenied)
    case 9 => Some(ChangedDuringScan)
    case _ => None
  }

  function PatternToU8(p: PartialPattern): u8 {
    match p case Edges => 0 case Center => 1 case Random => 2
  }

  function U8ToPattern(v: u8): Option<PartialPattern> {
    match v case 0 => Some(Edges) case 1 => Some(Center) case 2 => Some(Random) case _ => None
  }

  function FlagsOf(e: JournalEntry): u8 {
    (if e.hashA.Some? then 1 else 0) + (if e.hashB.Some? then 2 else 0) + (if e.isDirectory then 4 else 0)
  }

  /** Two's complement in 32 bits. */
  function I32ToU32(v: i32): u32 {
    if v < 0 then v + 0x1_0000_0000 else v
  }

  function U32ToI32(v: u32): i32 {
    if v >= 0x8000_0000 then v - 0x1_0000_0000 else v
  }

  // --- the payload ---

  function HashBytes(h: Option<Digest>): bytes {
    if h.Some? then h.value else []
  }

  /** One side: size, mtime and the digest if there is one. */
  function EncodeSide(size: u64, mtime: u64, hash: Option<Digest>): bytes {
    Le(size, 8) + (Le(mtime, 8) + HashBytes(hash))
  }

  /** Everything after the path. */
  function EncodeTail(e: JournalEntry): bytes {
    [StatusToU8(e.verdict), FlagsOf(e), PatternToU8(e.pattern)]
    + (Le(I32ToU32(e.percent), 4)
       + (EncodeSide(e.sizeA, e.mtimeA, e.hashA) + EncodeSide(e.sizeB, e.mtimeB, e.hashB)))
  }

  /** The payload; the path length is cut to its 32-bit field. */
  function PayloadOf(e: JournalEntry): bytes {
    Le(|e.path| % 0x1_0000_0000, 4) + (e.path + EncodeTail(e))
  }

  /** Reads size, mtime and the announced digest; the rest of the input follows. */
  function DecodeSide(b: bytes, hasHash: bool): Option<(u64, u64, Option<Digest>, bytes)> {
    if |b| < 16 then None else
    if !hasHash then Some((U64Of(b[..8]), U64Of(b[8..16]), None, b[16..]))
    else if |b| < 48 then None
    else Some((U64Of(b[..8]), U64Of(b[8..16]), Some(b[16..48]), b[48..]))
  }

  function DecodeTail(path: Path, r: bytes): Option<JournalEntry> {
    if |r| < 7 then None else
    var flags, percent := r[1], U32ToI32(U32Of(r[3..7]));
    var verdict, pattern := U8ToStatus(r[0]), U8ToPattern(r[2]);
    if verdict.None? || pattern.None? || flags >= 8 then None else
    var a := DecodeSide(r[7..], flags % 2 == 1);
    if a.None? then None else
    var b := DecodeSide(a.value.3, flags / 2 % 2 == 1);
    if b.None? || b.value.3 != [] then None else
    Some(JournalEntry(path, a.value.0, a.value.1, a.value.2, b.value.0, b.value.1, b.value.2,
                      verdict.value, percent, pattern.value, flags / 4 == 1))
  }

  function EntryOf(p: bytes): Option<JournalEntry> {
    if |p| < 4 then None else
    var n := U32Of(p[..4]);
    if |p| - 4 < n then None else
    DecodeTail(p[4..4 + n], p[4 + n..])
  }

  lemma EnumRoundTrip(s: Status, p: PartialPattern, v: i32)
    ensures U8ToStatus(StatusToU8(s)) == Some(s)
    ensures U8ToPattern(PatternToU8(p)) == Some(p)
    ensures U32ToI32(I32ToU32(v)) == v
  {}

  lemma DecodeSideOfEncode(size: u64, mtime: u64, hash: Option<Digest>, rest: bytes)
    ensures DecodeSide(EncodeSide(size, mtime, hash) + rest, hash.Some?) == Some((size, mtime, hash, rest))
  {
    hide Le, U64Of;
    U64RoundTrip(size);
    U64RoundTrip(mtime);
    var b := EncodeSide(size, mtime, hash) + rest;
    assert b[..8] == Le(size, 8);
    assert b[8..16] == Le(mtime, 8);
    if hash.Some? {
      assert b[16..48] == hash.value;
      assert b[48..] == rest;
    } else {
      assert b[16..] == rest;
    }
  }

  lemma DecodeTailOfEncode(e: JournalEntry)
    ensures DecodeTail(e.path, EncodeTail(e)) == Some(e)
  {
    hide Le, EncodeSide, DecodeSide, U32Of;
    var b := EncodeSide(e.sizeB, e.mtimeB, e.hashB);
    var sides := EncodeSide(e.sizeA, e.mtimeA, e.hashA) + b;
    var r := EncodeTail(e);
    assert r[3..7] == Le(I32ToU32(e.percent), 4);
    assert r[7..] == sides;
    U32RoundTrip(I32ToU32(e.percent));
    EnumRoundTrip(e.verdict, e.pattern, e.percent);
    DecodeSideOfEncode(e.sizeA, e.mtimeA, e.hashA, b);
    DecodeSideOfEncode(e.sizeB, e.mtimeB, e.hashB, []);
    assert b + [] == b;
  }

  /** Decoding an encoded entry gives it back exactly when the path length fits its field. */
  lemma DecodeOfEncode(e: JournalEntry)
    ensures EntryOf(PayloadOf(e)) == Some(e) <==> |e.path| < 0x1_0000_0000
  {
    hide Le, EncodeTail, DecodeTail, U32Of;
    var p := PayloadOf(e);
    var cut := |e.path| % 0x1_0000_0000;
    U32RoundTrip(cut);
    assert p[..4] == Le(cut, 4);
    if |e.path| < 0x1_0000_0000 {
      assert p[4..4 + cut] == e.path && p[4 + cut..] == EncodeTail(e);
      DecodeTailOfEncode(e);
    } else {
      DecodedPath(p[4..4 + cut], p[4 + cut..]);
    }
  }

  lemma DecodedPath(path: Path, r: bytes)
    ensures DecodeTail(path, r).Some? ==> DecodeTail(path, r).value.path == path
  {}

  lemma EncodeSideOfDecode(b: bytes, hasHash: bool)
    requires DecodeSide(b, hasHash).Some?
    ensures var (size, mtime, hash, rest) := DecodeSide(b, hasHash).value;
            b == EncodeSide(size, mtime, hash) + rest && hash.Some? == hasHash
  {
    assert b == b[..8] + (b[8..16] + b[16..]);
    if hasHash { assert b[16..] == b[16..48] + b[48..]; }
  }

  lemma EncodeTailOfDecode(path: Path, r: bytes)
    requires DecodeTail(path, r).Some?
    ensures EncodeTail(DecodeTail(path, r).value) == r && DecodeTail(path, r).value.path == path
  {
    hide Le, EncodeSide, DecodeSide, U32Of;
    var e := DecodeTail(path, r).value;
    EncodeSideOfDecode(r[7..], r[1] % 2 == 1);
    var rest := DecodeSide(r[7..], r[1] % 2 == 1).value.3;
    EncodeSideOfDecode(rest, r[1] / 2 % 2 == 1);
    assert FlagsOf(e) == r[1];
    SignRoundTrip(U32Of(r[3..7]));
    EnumInverse(r[0], r[2]);
    assert r == [r[0], r[1], r[2]] + (r[3..7] + r[7..]);
    var b := EncodeSide(e.sizeB, e.mtimeB, e.hashB);
    assert rest == b + [] == b;
  }

  lemma SignRoundTrip(v: u32)
    ensures I32ToU32(U32ToI32(v)) == v
  {}

  lemma EnumInverse(s: u8, p: u8)
    ensures U8ToStatus(s).Some? ==> StatusToU8(U8ToStatus(s).value) == s
    ensures U8ToPattern(p).Some? ==> PatternToU8(U8ToPattern(p).value) == p
  {}

  /** No two payloads decode to one entry: a successful decode re-encodes to the same bytes. */
  lemma EncodeOfDecode(p: bytes)
    requires EntryOf(p).Some?
    ensures PayloadOf(EntryOf(p).value) == p
  {
    hide Le, EncodeTail, DecodeTail, U32Of;
    var n := U32Of(p[..4]);
    EncodeTailOfDecode(p[4..4 + n], p[4 + n..]);
    assert p == p[..4] + (p[4..4 + n] + p[4 + n..]);
  }

  // --- the imperative encoder and the cursor-based decoder ---

  /** The store's byte cursor: what is left to read and whether every read so far succeeded. */
  class Reader {
    var rest: bytes
    var ok: bool

    constructor (data: bytes)
      ensures rest == data && ok
    {
      rest, ok := data, true;
    }

    /** take, u8, u32 and u64 consume exactly their width, or nothing and clear ok. */
    method TakeBytes(n: nat) returns (good: bool, b: bytes)
      modifies this
      ensures good == (n <= |old(rest)|)
      ensures good ==> b == old(rest)[..n] && rest == old(rest)[n..] && ok == old(ok)
      ensures !good ==> b == [] && rest == old(rest) && !ok
    {
      if |rest| < n {
        ok := false;
        return false, [];
      }
      good, b, rest := true, rest[..n], rest[n..];
    }

    method TakeU32() returns (good: bool, v: u32)
      modifies this
      ensures good == (4 <= |old(rest)|)
      ensures good ==> v == U32Of(old(rest)[..4]) && rest == old(rest)[4..] && ok == old(ok)
      ensures !good ==> rest == old(rest) && !ok
    {
      var b;
      good, b := TakeBytes(4);
      v := if good then U32Of(b) else 0;
    }

    method TakeU64() returns (good: bool, v: u64)
      modifies this
      ensures good == (8 <= |old(rest)|)
      ensures good ==> v == U64Of(old(rest)[..8]) && rest == old(rest)[8..] && ok == old(ok)
      ensures !good ==> rest == old(rest) && !ok
    {
      var b;
      good, b := TakeBytes(8);
      v := if good then U64Of(b) else 0;
    }

    /** One side of an entry: size, mtime and the digest when the flag announced it. */
    method TakeSide(hasHash: bool) returns (good: bool, size: u64, mtime: u64, hash: Option<Digest>)
      modifies this
      ensures good == DecodeSide(old(rest), hasHash).Some?
      ensures good ==> DecodeSide(old(rest), hasHash) == Some((size, mtime, hash, rest))
    {
      hash, mtime := None, 0;
      ghost var start := rest;
      good, size := TakeU64();
      if !good { return; }
      good, mtime := TakeU64();
      if !good { return; }
      assert start[8..][..8] == start[8..16] && start[8..][8..] == start[16..];
      if hasHash {
        var b;
        good, b := TakeBytes(32);
        if !good { return; }
        hash := Some(b);
        assert start[16..][..32] == start[16..48] && start[16..][32..] == start[48..];
      }
    }
  }

  method AppendSide(out: bytes, size: u64, mtime: u64, hash: Option<Digest>) returns (r: bytes)
    ensures r == out + EncodeSide(size, mtime, hash)
  {
    hide Le;
    r := PutU64(out, size);
    r := PutU64(r, mtime);
    if hash.Some? { r := r + hash.value; }
  }

  method EncodePayload(e: JournalEntry) returns (payload: bytes)
    ensures payload == PayloadOf(e)
  {
    hide *;
    payload := PutU32([], |e.path| % 0x1_0000_0000);
    payload := payload + e.path;
    ghost var head := payload;
    payload := payload + [StatusToU8(e.verdict)];
    var flags: u8 := 0;
    if e.hashA.Some? { flags := flags + 1; }
    if e.hashB.Some? { flags := flags + 2; }
    if e.isDirectory { flags := flags + 4; }
    payload := payload + [flags];
    payload := payload + [PatternToU8(e.pattern)];
    payload := PutU32(payload, I32ToU32(e.percent));
    payload := AppendSide(payload, e.sizeA, e.mtimeA, e.hashA);
    payload := AppendSide(payload, e.sizeB, e.mtimeB, e.hashB);
    PayloadParts(e, flags);
    assert payload == head + EncodeTail(e);
    assert payload == Le(|e.path| % 0x1_0000_0000, 4) + (e.path + EncodeTail(e));
  }

  lemma PayloadParts(e: JournalEntry, flags: u8)
    requires flags == (if e.hashA.Some? then 1 else 0) + (if e.hashB.Some? then 2 else 0)
                      + (if e.isDirectory then 4 else 0)
    ensures PayloadOf(e) == Le(|e.path| % 0x1_0000_0000, 4) + (e.path + EncodeTail(e))
    ensures EncodeTail(e) == [StatusToU8(e.verdict)] + [flags] + [PatternToU8(e.pattern)]
                             + Le(I32ToU32(e.percent), 4)
                             + EncodeSide(e.sizeA, e.mtimeA, e.hashA) + EncodeSide(e.sizeB, e.mtimeB, e.hashB)
  {
    hide Le, EncodeSide;
  }

  method DecodePayload(data: bytes) returns (out: Option<JournalEntry>)
    ensures out == EntryOf(data)
  {
    hide U32Of, DecodeSide, U8ToPattern, U8ToStatus, U32ToI32;
    var r := new Reader(data);
    var good, n := r.TakeU32();
    if !good { return None; }
    if |r.rest| < n { return None; }
    var path;
    good, path := r.TakeBytes(n);
    assert path == data[4..4 + n] && r.rest == data[4 + n..];
    ghost var tail := r.rest;
    var meta, percent;
    good, meta := r.TakeBytes(3);
    if !good { return None; }
    good, percent := r.TakeU32();
    if !good { return None; }
    assert tail[3..][..4] == tail[3..7] && r.rest == tail[7..];
    var verdict := U8ToStatus(meta[0]);
    if verdict.None? { return None; }
    var pattern := U8ToPattern(meta[2]);
    if pattern.None? { return None; }
    var flags := meta[1];
    if flags >= 8 { return None; }
    var sizeA, mtimeA, hashA, sizeB, mtimeB, hashB;
    good, sizeA, mtimeA, hashA := r.TakeSide(flags % 2 == 1);
    if !good { return None; }
    good, sizeB, mtimeB, hashB := r.TakeSide(flags / 2 % 2 == 1);
    if !good { return None; }
    if r.rest != [] { return None; }
    out := Some(JournalEntry(path, sizeA, mtimeA, hashA, sizeB, mtimeB, hashB,
                             verdict.value, U32ToI32(percent), pattern.value, flags / 4 == 1));
  }
}
