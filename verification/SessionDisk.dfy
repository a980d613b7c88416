/** The files of one session and what the loader makes of them. */
module SessionDisk {
  import opened Wrappers
  import opened Bytes
  import opened JournalCodec
  import opened JournalReplay
  import opened SessionContext

  /** .bvss, .bvss.tmp, .bvss.prev, .bvj and .bvj.tmp next to one base path. */
  datatype Disk = Disk(
    main: Option<string>, mainTmp: Option<string>, prev: Option<string>,
    journal: Option<bytes>, journalTmp: Option<bytes>)

  datatype SessionError = IoError | Corrupt(error: ContextError)

  datatype ContextLoad = Context(session: Session, trailer: Trailer, fellBack: bool) | NoContext(error: SessionError)

  /** The main context if it is there and valid, else the previous one. */
  function LoadContext(d: Disk): ContextLoad {
    if d.main.None? then
      if d.prev.None? then NoContext(IoError) else FromText(d.prev.value, true)
    else
      var c := FromText(d.main.value, false);
      if c.Context? || d.prev.None? then c else FromText(d.prev.value, true)
  }

  function FromText(text: string, fellBack: bool): ContextLoad {
    var p := ParseContext(text);
    if p.Rejected? then NoContext(Corrupt(p.error)) else Context(p.session, p.trailer, fellBack)
  }

  datatype LoadOutcome =
    | Opened(session: Session, rows: seq<JournalEntry>, truncated: bool, newerRows: bool, fellBack: bool)
    | Refused(error: SessionError)

  /** The size of the leading frame by its header alone. */
  function FrameSize(j: bytes): (r: Option<nat>)
    ensures r.Some? ==> 0 < r.value <= |j|
  {
    if |j| < HEADER_SIZE || U32Of(j[..4]) != RECORD_MAGIC then None else
    var len := U32Of(j[4..8]);
    if |j| - HEADER_SIZE < len then None else Some(HEADER_SIZE + len)
  }

  /** The number of bytes that the first n frames take. */
  function DeclaredSize(j: bytes, n: nat): (r: nat)
    ensures r <= |j|
    decreases n
  {
    if n == 0 || j == [] || FrameSize(j).None? then 0
    else var size := FrameSize(j).value; size + DeclaredSize(j[size..], n - 1)
  }

  /** What LoadSession returns for a disk. */
  function LoadOf(d: Disk): LoadOutcome {
    var c := LoadContext(d);
    if c.NoContext? then Refused(c.error)
    else if d.journal.None? then
      Opened(c.session, [], c.trailer.records != 0 || c.trailer.size != 0, false, c.fellBack)
    else
      var j, t := d.journal.value, c.trailer;
      var scanned := Scan(j);
      if scanned.tailBad || |scanned.rows| < t.records then Opened(c.session, scanned.rows, true, false, c.fellBack)
      else
        var size := DeclaredSize(j, t.records);
        var bad := size < t.size || CrcOf(j[..size]) != t.crc;
        Opened(c.session, scanned.rows, bad, !bad && |scanned.rows| > t.records, c.fellBack)
  }

  /** The trailer that describes exactly the rows of decl. */
  function TrailerFor(decl: seq<JournalEntry>): Trailer {
    Trailer(|decl|, |JournalOf(decl)|, CrcOf(JournalOf(decl)))
  }

  /** Between two calls of the store: the context that would be loaded declares exactly decl, and the journal
      holds decl followed by some prefix of the bytes of the rows that are still pending. */
  ghost predicate Coherent(d: Disk, decl: seq<JournalEntry>, pend: seq<JournalEntry>) {
    && LoadContext(d).Context? && LoadContext(d).trailer == TrailerFor(decl)
    && (d.main.Some? ==> ParseContext(d.main.value).Loaded?)
    && AllFit(decl) && AllFit(pend)
    && d.journal.Some? && JournalOf(decl) <= d.journal.value <= JournalOf(decl) + JournalOf(pend)
  }

  // --- loading a coherent disk ---

  lemma {:induction false} DeclaredSizeOf(decl: seq<JournalEntry>, tail: bytes)
    requires AllFit(decl)
    ensures DeclaredSize(JournalOf(decl) + tail, |decl|) == |JournalOf(decl)|
  {
    hide RecordOf, Fits, FrameSize;
    if decl != [] {
      var rest := JournalOf(decl[1..]) + tail;
      var j := RecordOf(decl[0]) + rest;
      assert JournalOf(decl) + tail == j;
      FrameSizeOf(decl[0], rest);
      assert j[|RecordOf(decl[0])|..] == rest;
      DeclaredSizeOf(decl[1..], tail);
    }
  }

  lemma FrameSizeOf(e: JournalEntry, rest: bytes)
    requires Fits(e)
    ensures FrameSize(RecordOf(e) + rest) == Some(|RecordOf(e)|) && RecordOf(e) != []
  {
    hide Le, CrcOf, PayloadOf, U32Of, Frame;
    FrameParts(PayloadOf(e), CrcOf(PayloadOf(e)), rest);
    U32RoundTrip(RECORD_MAGIC);
    U32RoundTrip(|PayloadOf(e)|);
  }

  /** Whatever was torn or left over after the declared rows, loading succeeds with a prefix of the rows handed
      in, in order, that contains every declared row; it is reported as truncated exactly when the journal ends
      inside a record, and as newer exactly when whole undeclared rows were found. */
  lemma LoadOfCoherent(d: Disk, decl: seq<JournalEntry>, pend: seq<JournalEntry>)
    requires Coherent(d, decl, pend)
    ensures LoadOf(d).Opened? && decl <= LoadOf(d).rows <= decl + pend
    ensures LoadOf(d).session == LoadContext(d).session
    ensures LoadOf(d).truncated <==> d.journal.value != JournalOf(LoadOf(d).rows)
    ensures !LoadOf(d).truncated ==> (LoadOf(d).newerRows <==> LoadOf(d).rows != decl)
  {
    hide CrcOf, Scan, DeclaredSize, LoadContext, JournalOf, AllFit, ParseContext;
    ScanBetween(d.journal.value, decl, pend);
  }

  /** Scanning bytes between the records of decl and those of decl and pend. */
  lemma ScanBetween(j: bytes, decl: seq<JournalEntry>, pend: seq<JournalEntry>)
    requires AllFit(decl) && AllFit(pend) && JournalOf(decl) <= j <= JournalOf(decl) + JournalOf(pend)
    ensures var rows, base := Scan(j).rows, JournalOf(decl);
            && decl <= rows <= decl + pend && (Scan(j).tailBad <==> j != JournalOf(rows))
            && |rows| >= |decl| && (|rows| == |decl| <==> rows == decl)
            && DeclaredSize(j, |decl|) == |base| && j[..|base|] == base
  {
    hide CrcOf, Scan, DeclaredSize, RecordOf, Fits, WholeRecords;
    var all := decl + pend;
    JournalOfConcat(decl, pend);
    assert j == JournalOf(all)[..|j|];
    ScanOfPrefix(all, |j|);
    var k := WholeRecords(all, |j|);
    DeclaredFits(j, decl, pend);
    hide JournalOf;
    FirstRecords(all, k, j);
    DeclaredSizeOf(decl, j[|JournalOf(decl)|..]);
    assert j == JournalOf(decl) + j[|JournalOf(decl)|..];
    assert all[..k][..|decl|] == decl;
  }

  /** Every record of decl is whole. */
  lemma DeclaredFits(j: bytes, decl: seq<JournalEntry>, pend: seq<JournalEntry>)
    requires |JournalOf(decl)| <= |j|
    ensures |decl| <= WholeRecords(decl + pend, |j|)
  {
    hide JournalOf, WholeRecords;
    var all := decl + pend;
    WholeRecordsFit(all, |j|);
    var k := WholeRecords(all, |j|);
    assert all[..|decl|] == decl;
    if k < |decl| {
      LongerJournal(all, k + 1, |decl|);
      assert false;
    }
  }

  lemma FirstRecords(all: seq<JournalEntry>, k: nat, j: bytes)
    requires k <= |all| && j <= JournalOf(all)
    ensures |j| == |JournalOf(all[..k])| <==> j == JournalOf(all[..k])
  {
    hide JournalOf;
    JournalOfConcat(all[..k], all[k..]);
    assert all == all[..k] + all[k..];
  }

  lemma LongerJournal(es: seq<JournalEntry>, i: nat, k: nat)
    requires i <= k <= |es|
    ensures |JournalOf(es[..i])| <= |JournalOf(es[..k])|
  {
    assert es[..k] == es[..i] + es[i..k];
    JournalOfConcat(es[..i], es[i..k]);
  }
}
