/** Framing of journal records and the replay loop of the session loader. */
module JournalReplay {
  import opened Wrappers
  import opened Bytes
  import opened JournalCodec
  import Bits
  import Crc32

  /** magic, payload length, payload checksum, payload; the length is cut to its 32-bit field. */
  function Frame(payload: bytes, crc: u32): bytes {
    Le(RECORD_MAGIC, 4) + (Le(|payload| % 0x1_0000_0000, 4) + (Le(crc, 4) + payload))
  }

  function CrcOf(data: bytes): (r: u32) {
    Crc32.OfBound(data);
    Crc32.Of(data)
  }

  /** The stored checksum carried on over more data. */
  function ContinueCrc(crc: u32, data: bytes): (r: u32) {
    ContinueBound(crc, data);
    Crc32.Final(Crc32.Update(Bits.Xor(crc, Crc32.MASK), data))
  }

  lemma ContinueBound(crc: u32, data: bytes)
    ensures Crc32.Final(Crc32.Update(Bits.Xor(crc, Crc32.MASK), data)) < 0x1_0000_0000
  {
    hide Bits.Xor, Crc32.Update, Crc32.Final;
    Crc32.Pow2Of32();
    Bits.XorBound(crc, Crc32.MASK, 32);
    Crc32.UpdateBound(Bits.Xor(crc, Crc32.MASK), data);
    Crc32.FinalBound(Crc32.Update(Bits.Xor(crc, Crc32.MASK), data));
  }

  function RecordOf(e: JournalEntry): bytes {
    Frame(PayloadOf(e), CrcOf(PayloadOf(e)))
  }

  function JournalOf(es: seq<JournalEntry>): bytes {
    if es == [] then [] else RecordOf(es[0]) + JournalOf(es[1..])
  }

  /** The record's length field can hold its payload length. */
  predicate Fits(e: JournalEntry) {
    |PayloadOf(e)| < 0x1_0000_0000
  }

  predicate AllFit(es: seq<JournalEntry>) {
    forall e <- es :: Fits(e)
  }

  /** The first record of a journal and the bytes after it, if it is whole and valid. */
  function Head(j: bytes): (r: Option<(JournalEntry, bytes)>)
    ensures r.Some? ==> |r.value.1| < |j|
  {
    if |j| < HEADER_SIZE then None else
    var magic, len, crc := U32Of(j[..4]), U32Of(j[4..8]), U32Of(j[8..12]);
    if magic != RECORD_MAGIC || |j| - HEADER_SIZE < len then None else
    var payload := j[12..12 + len];
    if CrcOf(payload) != crc then None else
    var e := EntryOf(payload);
    if e.None? then None else Some((e.value, j[12 + len..]))
  }

  datatype Scanned = Scanned(rows: seq<JournalEntry>, tailBad: bool)

  /** All leading valid records, and whether anything else follows them. */
  function Scan(j: bytes): Scanned
    decreases |j|
  {
    if j == [] then Scanned([], false) else
    var h := Head(j);
    if h.None? then Scanned([], true) else
    var rest := Scan(h.value.1);
    Scanned([h.value.0] + rest.rows, rest.tailBad)
  }

  // --- concatenations of records ---

  lemma {:induction false} JournalOfConcat(a: seq<JournalEntry>, b: seq<JournalEntry>)
    ensures JournalOf(a + b) == JournalOf(a) + JournalOf(b)
  {
    if a == [] {
      assert a + b == b;
    } else {
      assert (a + b)[1..] == a[1..] + b;
      JournalOfConcat(a[1..], b);
    }
  }

  lemma FrameParts(payload: bytes, crc: u32, rest: bytes)
    ensures var j := Frame(payload, crc) + rest;
            |Frame(payload, crc)| == 12 + |payload|
            && j[..4] == Le(RECORD_MAGIC, 4) && j[4..8] == Le(|payload| % 0x1_0000_0000, 4)
            && j[8..12] == Le(crc, 4) && j[12..12 + |payload|] == payload && j[12 + |payload|..] == rest
  {
    hide Le;
  }

  /** A payload of fitting length behind its checksum is read back, and a payload that does not match the
      checksum, or does not decode, is a bad record. */
  lemma HeadOfFrame(payload: bytes, crc: u32, rest: bytes)
    requires |payload| < 0x1_0000_0000
    ensures Head(Frame(payload, crc) + rest)
            == if CrcOf(payload) == crc && EntryOf(payload).Some?
               then Some((EntryOf(payload).value, rest)) else None
  {
    hide Le, CrcOf, EntryOf, U32Of, Frame;
    FrameParts(payload, crc, rest);
    U32RoundTrip(RECORD_MAGIC);
    U32RoundTrip(|payload|);
    U32RoundTrip(crc);
  }

  lemma HeadOfRecord(e: JournalEntry, rest: bytes)
    requires Fits(e)
    ensures Head(RecordOf(e) + rest) == Some((e, rest)) && |RecordOf(e)| > 12
  {
    hide CrcOf, EntryOf, PayloadOf, Head, Frame;
    HeadOfFrame(PayloadOf(e), CrcOf(PayloadOf(e)), rest);
    PayloadLength(e);
    DecodeOfEncode(e);
    FrameParts(PayloadOf(e), CrcOf(PayloadOf(e)), rest);
  }

  lemma PayloadLength(e: JournalEntry)
    ensures |PayloadOf(e)| > |e.path|
  {}

  /** A record that was cut short is never taken for a whole one. */
  lemma HeadOfTorn(e: JournalEntry, n: nat)
    requires Fits(e) && n < |RecordOf(e)|
    ensures Head(RecordOf(e)[..n]).None?
  {
    hide Le, CrcOf, EntryOf, PayloadOf, U32Of, Frame;
    var payload, r := PayloadOf(e), RecordOf(e);
    FrameParts(payload, CrcOf(payload), []);
    assert r + [] == r;
    U32RoundTrip(|payload|);
    if n >= 12 { assert r[..n][4..8] == r[4..8]; }
  }

  lemma {:induction false} ScanOfJournal(es: seq<JournalEntry>, tail: bytes)
    requires AllFit(es)
    ensures Scan(JournalOf(es) + tail) == Scanned(es + Scan(tail).rows, Scan(tail).tailBad)
  {
    hide Head, Fits, RecordOf, Scan;
    if es == [] {
      assert JournalOf(es) + tail == tail && es + Scan(tail).rows == Scan(tail).rows;
    } else {
      var rest := JournalOf(es[1..]) + tail;
      assert JournalOf(es) + tail == RecordOf(es[0]) + rest;
      HeadOfRecord(es[0], rest);
      ScanCons(RecordOf(es[0]) + rest, es[0], rest);
      ScanOfJournal(es[1..], tail);
      assert es + Scan(tail).rows == [es[0]] + (es[1..] + Scan(tail).rows);
    }
  }

  lemma ScanCons(j: bytes, e: JournalEntry, rest: bytes)
    requires Head(j) == Some((e, rest))
    ensures Scan(j) == Scanned([e] + Scan(rest).rows, Scan(rest).tailBad)
  {
    assert j != [];
  }

  /** How many leading records of es lie whole within the first n bytes of their journal. */
  function WholeRecords(es: seq<JournalEntry>, n: nat): (k: nat)
    ensures k <= |es|
  {
    if es == [] || |RecordOf(es[0])| > n then 0
    else 1 + WholeRecords(es[1..], n - |RecordOf(es[0])|)
  }

  /** It is the largest number of records that fit. */
  lemma {:induction false} WholeRecordsFit(es: seq<JournalEntry>, n: nat)
    ensures var k := WholeRecords(es, n);
            |JournalOf(es[..k])| <= n && (k < |es| ==> n < |JournalOf(es[..k + 1])|)
  {
    hide RecordOf;
    if es != [] {
      var size, k := |RecordOf(es[0])|, WholeRecords(es, n);
      if size > n {
        assert es[..1][1..] == [] && JournalOf(es[..1]) == RecordOf(es[0]) + [];
      } else {
        WholeRecordsFit(es[1..], n - size);
        assert es[..k][1..] == es[1..][..k - 1];
        if k < |es| { assert es[..k + 1][1..] == es[1..][..k]; }
      }
    }
  }

  /** Replay of any byte prefix of a journal: exactly the records that fit whole, and a bad tail exactly
      when the cut is not on a record boundary. */
  lemma {:induction false} ScanOfPrefix(es: seq<JournalEntry>, n: nat)
    requires AllFit(es) && n <= |JournalOf(es)|
    ensures var k := WholeRecords(es, n);
            Scan(JournalOf(es)[..n]) == Scanned(es[..k], n != |JournalOf(es[..k])|)
  {
    hide Head, Fits, RecordOf;
    if es == [] {
      assert es[..0] == [];
    } else {
      var r := RecordOf(es[0]);
      var j, k := JournalOf(es)[..n], WholeRecords(es, n);
      if |r| > n {
        assert j == r[..n];
        HeadOfTorn(es[0], n);
        assert es[..0] == [];
      } else {
        var rest := JournalOf(es[1..])[..n - |r|];
        assert j == r + rest;
        HeadOfRecord(es[0], rest);
        ScanOfPrefix(es[1..], n - |r|);
        assert es[..k] == [es[0]] + es[1..][..k - 1];
        assert es[..k][1..] == es[1..][..k - 1];
      }
    }
  }

  /** Corruption of at most four consecutive payload bytes of one record: replay returns exactly the rows
      before that record and reports the tail. */
  lemma CorruptionStopsReplay(before: seq<JournalEntry>, e: JournalEntry, pre: bytes, w: bytes, w': bytes,
                              post: bytes, rest: bytes)
    requires AllFit(before) && Fits(e) && PayloadOf(e) == pre + w + post
    requires |w| == |w'| <= 4 && w != w'
    ensures Scan(JournalOf(before) + (Frame(pre + w' + post, CrcOf(PayloadOf(e))) + rest)) == Scanned(before, true)
  {
    hide Head, Frame;
    Crc32.BurstDetected(pre, w, w', post);
    HeadOfFrame(pre + w' + post, CrcOf(PayloadOf(e)), rest);
    FrameParts(pre + w' + post, CrcOf(PayloadOf(e)), rest);
    ScanOfJournal(before, Frame(pre + w' + post, CrcOf(PayloadOf(e))) + rest);
    assert before + [] == before;
  }

  // --- the imperative encoder and the replay loop ---

  /** EncodeRecord appends one framed record. */
  method EncodeRecord(table: array<nat>, e: JournalEntry, out: bytes) returns (r: bytes)
    requires Crc32.IsTable(table[..])
    ensures r == out + RecordOf(e)
  {
    hide Le, PayloadOf, CrcOf;
    var payload := EncodePayload(e);
    r := PutU32(out, RECORD_MAGIC);
    r := PutU32(r, |payload| % 0x1_0000_0000);
    var crc := ComputeCrc(table, payload);
    r := PutU32(r, crc);
    r := r + payload;
    assert r == out + Frame(payload, crc);
  }

  method ComputeCrc(table: array<nat>, data: bytes) returns (crc: u32)
    requires Crc32.IsTable(table[..])
    ensures crc == CrcOf(data)
  {
    var reg := Crc32.UpdateByTable(table, Crc32.MASK, data);
    Crc32.OfBound(data);
    crc := Crc32.Final(reg);
  }

  method EncodeRecords(table: array<nat>, es: seq<JournalEntry>) returns (out: bytes)
    requires Crc32.IsTable(table[..])
    ensures out == JournalOf(es)
  {
    hide RecordOf;
    out := [];
    for i := 0 to |es|
      invariant out == JournalOf(es[..i])
    {
      out := EncodeRecord(table, es[i], out);
      assert es[..i + 1] == es[..i] + [es[i]];
      JournalOfConcat(es[..i], [es[i]]);
      assert JournalOf([es[i]]) == RecordOf(es[i]) + [];
    }
    assert es[..|es|] == es;
  }

  /** One step of the loader's loop: the record at the offset, if it is whole and valid. */
  method ReadRecord(table: array<nat>, journal: bytes, off: nat) returns (e: Option<JournalEntry>, size: nat)
    requires Crc32.IsTable(table[..]) && off < |journal|
    ensures e.Some? <==> Head(journal[off..]).Some?
    ensures e.Some? ==> off + size <= |journal| && Head(journal[off..]) == Some((e.value, journal[off + size..]))
  {
    hide CrcOf, EntryOf, U32Of;
    ghost var here := journal[off..];
    e, size := None, 0;
    if |journal| - off < HEADER_SIZE { return; }
    var h := new Reader(journal[off..off + HEADER_SIZE]);
    var g, magic := h.TakeU32();
    var len, crc;
    g, len := h.TakeU32();
    g, crc := h.TakeU32();
    HeaderSlices(journal, off);
    if magic != RECORD_MAGIC { return; }
    if |journal| - off - HEADER_SIZE < len { return; }
    var payload := journal[off + HEADER_SIZE..off + HEADER_SIZE + len];
    assert payload == here[12..12 + len] && here[12 + len..] == journal[off + HEADER_SIZE + len..];
    var actual := ComputeCrc(table, payload);
    if actual != crc { return; }
    e := DecodePayload(payload);
    size := HEADER_SIZE + len;
  }

  /** The loader's loop: stop at the first short read, bad magic, length overrun, checksum mismatch or
      undecodable payload, and keep everything before it. */
  method Replay(table: array<nat>, journal: bytes) returns (rows: seq<JournalEntry>, tailBad: bool)
    requires Crc32.IsTable(table[..])
    ensures Scanned(rows, tailBad) == Scan(journal)
  {
    hide Head, Scan;
    var off := 0;
    rows, tailBad := [], false;
    assert journal[0..] == journal;
    while off < |journal|
      invariant off <= |journal| && !tailBad
      invariant Scan(journal).rows == rows + Scan(journal[off..]).rows
      invariant Scan(journal).tailBad == Scan(journal[off..]).tailBad
      decreases |journal| - off
    {
      var e, size := ReadRecord(table, journal, off);
      if e.None? {
        ScanBad(journal[off..]);
        assert rows + [] == rows;
        return rows, true;
      }
      ScanCons(journal[off..], e.value, journal[off + size..]);
      assert rows + ([e.value] + Scan(journal[off + size..]).rows) == (rows + [e.value]) + Scan(journal[off + size..]).rows;
      rows := rows + [e.value];
      off := off + size;
    }
    assert journal[off..] == [];
    ScanEmpty();
    assert rows + [] == rows;
  }

  lemma ScanBad(j: bytes)
    requires j != [] && Head(j).None?
    ensures Scan(j) == Scanned([], true)
  {}

  lemma ScanEmpty()
    ensures Scan([]) == Scanned([], false)
  {}

  lemma HeaderSlices(j: bytes, off: nat)
    requires off + 12 <= |j|
    ensures var h, here := j[off..off + 12], j[off..];
            h[..4] == here[..4] && h[4..][..4] == here[4..8] && h[4..][4..][..4] == here[8..12]
  {}
}
