/** What a loaded session means in terms of the files' contents, and which damage loading always reports. */
module LoadMeaning {
  import opened Wrappers
  import opened Bytes
  import opened JournalCodec
  import opened JournalReplay
  import opened SessionContext
  import opened SessionDisk
  import Crc32

  // --- which context is loaded ---

  /** The main context if it parses, else the previous one if that does; otherwise loading is refused. */
  lemma ContextLoaded(d: Disk)
    ensures var main := d.main.Some? && ParseContext(d.main.value).Loaded?;
            var prev := d.prev.Some? && ParseContext(d.prev.value).Loaded?;
            && (LoadOf(d).Opened? <==> main || prev)
            && (main ==> LoadOf(d).session == ParseContext(d.main.value).session && !LoadOf(d).fellBack
                         && LoadContext(d).Context? && LoadContext(d).trailer == ParseContext(d.main.value).trailer)
            && (!main && prev ==> LoadOf(d).session == ParseContext(d.prev.value).session && LoadOf(d).fellBack
                                  && LoadContext(d).Context? && LoadContext(d).trailer == ParseContext(d.prev.value).trailer)
            && (LoadOf(d).Refused? ==> (LoadOf(d).error == IoError <==> d.main.None? && d.prev.None?))
  {
    hide ParseContext, Scan, DeclaredSize, CrcOf;
  }

  // --- what the rows are ---

  /** The rows found are the journal's leading records, byte for byte, and nothing follows them unless the tail is bad. */
  lemma {:induction false} ScanReencodes(j: bytes)
    ensures var rows := Scan(j).rows; AllFit(rows) && JournalOf(rows) <= j && (!Scan(j).tailBad <==> j == JournalOf(rows))
    decreases |j|
  {
    hide RecordOf, Head, Fits;
    if j != [] && Head(j).Some? {
      var (e, rest) := Head(j).value;
      HeadReencodes(j);
      ScanReencodes(rest);
      var rows := Scan(rest).rows;
      assert ([e] + rows)[1..] == rows;
      RecordAndRest(RecordOf(e), JournalOf(rows), rest, j);
    }
  }

  lemma RecordAndRest(r: bytes, more: bytes, rest: bytes, j: bytes)
    requires j == r + rest && more <= rest
    ensures r + more <= j && (j == r + more <==> rest == more)
  {
    if j == r + more { assert rest == j[|r|..] == more; }
  }

  lemma HeadReencodes(j: bytes)
    requires Head(j).Some?
    ensures var (e, rest) := Head(j).value; Fits(e) && j == RecordOf(e) + rest
  {
    hide Head, CrcOf, EntryOf, PayloadOf, U32Of, Le;
    HeadParts(j);
    var payload := j[12..12 + U32Of(j[4..8])];
    EncodeOfDecode(payload);
    U32Le(j[..4]);
    U32Le(j[4..8]);
    U32Le(j[8..12]);
    FrameSplit(j, |payload|);
  }

  lemma HeadParts(j: bytes)
    requires Head(j).Some?
    ensures |j| >= 12 && U32Of(j[..4]) == RECORD_MAGIC
    ensures var len := U32Of(j[4..8]);
            && 12 + len <= |j| && CrcOf(j[12..12 + len]) == U32Of(j[8..12])
            && EntryOf(j[12..12 + len]) == Some(Head(j).value.0) && Head(j).value.1 == j[12 + len..]
  {
    hide CrcOf, EntryOf, U32Of;
  }

  lemma U32Le(b: bytes)
    requires |b| == 4
    ensures Le(U32Of(b), 4) == b
  {
    hide Le;
  }

  lemma FrameSplit(j: bytes, len: nat)
    requires 12 + len <= |j|
    ensures j == (j[..4] + (j[4..8] + (j[8..12] + j[12..12 + len]))) + j[12 + len..]
  {}

  /** The first n records of a journal of whole records. */
  lemma FirstRecordsSize(rows: seq<JournalEntry>, n: nat, j: bytes)
    requires AllFit(rows) && n <= |rows| && JournalOf(rows) <= j
    ensures DeclaredSize(j, n) == |JournalOf(rows[..n])| && j[..DeclaredSize(j, n)] == JournalOf(rows[..n])
  {
    hide DeclaredSize, RecordOf, Fits;
    JournalOfConcat(rows[..n], rows[n..]);
    assert rows == rows[..n] + rows[n..];
    var first := JournalOf(rows[..n]);
    assert first <= JournalOf(rows) <= j;
    DeclaredSizeOf(rows[..n], j[|first|..]);
    assert j == first + j[|first|..];
  }

  /** With a journal: the session is intact if and only if the journal is the rows' records and nothing else, at least the
      declared number of them, and the records declared have at least the declared size and exactly the declared checksum.
      Newer rows are reported if and only if an intact journal has more than the declared number. */
  lemma IntactMeans(d: Disk)
    requires LoadOf(d).Opened? && d.journal.Some?
    ensures LoadContext(d).Context?
    ensures var out, j, t := LoadOf(d), d.journal.value, LoadContext(d).trailer;
            && JournalOf(out.rows) <= j
            && (!out.truncated <==>
                  && j == JournalOf(out.rows) && t.records <= |out.rows|
                  && |JournalOf(out.rows[..t.records])| >= t.size && CrcOf(JournalOf(out.rows[..t.records])) == t.crc)
            && (out.newerRows <==> !out.truncated && |out.rows| > t.records)
  {
    hide LoadContext, Scan, DeclaredSize, CrcOf, JournalOf, AllFit;
    var j, t := d.journal.value, LoadContext(d).trailer;
    ScanReencodes(j);
    if t.records <= |Scan(j).rows| { FirstRecordsSize(Scan(j).rows, t.records, j); }
  }

  /** Without a journal there are no rows, and that is intact if and only if none were declared. */
  lemma MissingJournalMeans(d: Disk)
    requires LoadOf(d).Opened? && d.journal.None?
    ensures LoadContext(d).Context?
    ensures var out, t := LoadOf(d), LoadContext(d).trailer;
            out.rows == [] && !out.newerRows && (!out.truncated <==> t.records == 0 && t.size == 0)
  {
    hide LoadContext;
  }

  /** The rows found do not stop early: no other list of rows has records that go further into the journal. */
  lemma {:induction false} RowsAreMaximal(j: bytes, rows: seq<JournalEntry>)
    requires AllFit(rows) && JournalOf(rows) <= j
    ensures rows <= Scan(j).rows
  {
    hide Scan, JournalOf, AllFit;
    ScanOfJournal(rows, j[|JournalOf(rows)|..]);
    assert j == JournalOf(rows) + j[|JournalOf(rows)|..];
  }

  // --- damage inside the declared records ---

  /** Two byte strings of one length that agree outside four consecutive places. */
  predicate Burst(j: bytes, j': bytes, at: int) {
    |j| == |j'| && forall i | 0 <= i < |j| && !(at <= i < at + 4) :: j[i] == j'[i]
  }

  lemma BurstRest(j: bytes, j': bytes, at: int, n: nat)
    requires Burst(j, j', at) && n <= |j|
    ensures Burst(j[n..], j'[n..], at - n) && Burst(j[..n], j'[..n], at)
  {}

  /** A burst that changes something changes the checksum. */
  lemma BurstChangesCrc(x: bytes, y: bytes, at: int)
    requires Burst(x, y, at) && x != y
    ensures CrcOf(x) != CrcOf(y)
  {
    var lo := if at < 0 then 0 else at;
    var hi := if at + 4 > |x| then |x| else at + 4;
    assert lo >= hi ==> x == y;
    var pre, post := x[..lo], x[hi..];
    assert y[..lo] == pre && y[hi..] == post;
    assert x == pre + x[lo..hi] + post && y == pre + y[lo..hi] + post;
    Crc32.BurstDetected(pre, x[lo..hi], y[lo..hi], post);
  }

  /** No payload is the beginning of another one. */
  lemma PayloadsPrefixFree(p: bytes, q: bytes)
    requires p <= q && EntryOf(p).Some? && EntryOf(q).Some?
    ensures p == q
  {
    hide DecodeTail, U32Of;
    var n := U32Of(p[..4]);
    assert q[..4] == p[..4] && q[4..4 + n] == p[4..4 + n];
    TailsPrefixFree(p[4..4 + n], p[4 + n..], q[4 + n..]);
    assert p == p[..4 + n] + p[4 + n..] && q == q[..4 + n] + q[4 + n..];
  }

  lemma TailsPrefixFree(path: bytes, r: bytes, s: bytes)
    requires r <= s && DecodeTail(path, r).Some? && DecodeTail(path, s).Some?
    ensures r == s
  {
    hide U64Of, U32Of;
    assert s[7..][..|r| - 7] == r[7..];
    assert r[1] == s[1];
  }

  /** A record whose frame length was damaged is not taken for a record. */
  lemma LengthDamaged(e: JournalEntry, rest: bytes, j': bytes, at: int)
    requires Fits(e) && Burst(RecordOf(e) + rest, j', at) && j'[4..8] != (RecordOf(e) + rest)[4..8]
    ensures Head(j').None?
  {
    hide Le, CrcOf, PayloadOf, U32Of, EntryOf, Frame;
    var j, p := RecordOf(e) + rest, PayloadOf(e);
    FrameParts(p, CrcOf(p), rest);
    U32RoundTrip(|p|);
    assert exists i :: 4 <= i < 8 && j[i] != j'[i];
    assert forall i | 12 <= i < |j| :: j[i] == j'[i];
    if Head(j').Some? {
      var len := U32Of(j'[4..8]);
      var q := j'[12..12 + len];
      assert q == j[12..12 + len];
      assert EntryOf(p) == Some(e) by {
        PayloadLength(e);
        DecodeOfEncode(e);
      }
      if len <= |p| { assert q <= p; PayloadsPrefixFree(q, p); } else { assert p <= q; PayloadsPrefixFree(p, q); }
      assert false;
    }
  }

  lemma BurstLength(j: bytes, j': bytes, at: int)
    requires Burst(j, j', at)
    ensures |j'| == |j|
  {}

  /** Damaged in one burst, the declared records keep their frames if they are found at all. */
  lemma {:induction false} DamagedFrames(decl: seq<JournalEntry>, tail: bytes, j': bytes, at: int)
    requires AllFit(decl) && Burst(JournalOf(decl) + tail, j', at) && |Scan(j').rows| >= |decl|
    ensures DeclaredSize(j', |decl|) == |JournalOf(decl)|
  {
    hide RecordOf, Head, FrameSize, Burst, Fits;
    if decl != [] {
      var r, more := RecordOf(decl[0]), JournalOf(decl[1..]) + tail;
      assert JournalOf(decl) + tail == r + more;
      BurstLength(r + more, j', at);
      FrameKept(decl[0], more, j', at);
      assert (r + more)[|r|..] == more;
      BurstRest(r + more, j', at, |r|);
      ScanCons(j', Head(j').value.0, j'[|r|..]);
      DamagedFrames(decl[1..], tail, j'[|r|..], at - |r|);
    }
  }

  /** A damaged record that is still taken for one has its old frame. */
  lemma FrameKept(e: JournalEntry, rest: bytes, j': bytes, at: int)
    requires Fits(e) && Burst(RecordOf(e) + rest, j', at) && Head(j').Some?
    ensures |RecordOf(e)| <= |j'| && FrameSize(j') == Some(|RecordOf(e)|) && Head(j').value.1 == j'[|RecordOf(e)|..]
  {
    hide Le, CrcOf, PayloadOf, U32Of, EntryOf, Frame;
    var p := PayloadOf(e);
    FrameParts(p, CrcOf(p), rest);
    U32RoundTrip(|p|);
    if j'[4..8] != (RecordOf(e) + rest)[4..8] { LengthDamaged(e, rest, j', at); }
  }

  /** Damage to at most four consecutive bytes of the declared records is always reported, wherever it falls: in a
      payload, in a checksum, or in the framing. */
  lemma DamageReported(d: Disk, d': Disk, decl: seq<JournalEntry>, pend: seq<JournalEntry>, at: nat)
    requires Coherent(d, decl, pend) && d' == d.(journal := d'.journal) && d'.journal.Some?
    requires Burst(d.journal.value, d'.journal.value, at) && d'.journal != d.journal
    requires d.journal.value[|JournalOf(decl)|..] == d'.journal.value[|JournalOf(decl)|..]
    ensures LoadOf(d').Opened? && LoadOf(d').truncated
  {
    hide ParseContext, CrcOf, JournalOf, AllFit, Scan, DeclaredSize, Burst;
    var j, j', base := d.journal.value, d'.journal.value, JournalOf(decl);
    BurstLength(j, j', at);
    assert j == base + j[|base|..];
    if |Scan(j').rows| >= |decl| {
      DamagedFrames(decl, j[|base|..], j', at);
      BurstRest(j, j', at, |base|);
      assert j' == j'[..|base|] + j'[|base|..];
      BurstChangesCrc(base, j'[..|base|], at);
    }
  }
}
