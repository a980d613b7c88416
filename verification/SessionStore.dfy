/**
 The crash-safe session store: atomic writes through a temporary file, rotation of the previous context,
 append with orphan reconciliation, and loading. Every file step may succeed, fail or be the last one before
 a crash; a write or an append that does not succeed may leave any prefix of its bytes.
 */
module SessionStore {
  import opened Wrappers
  import opened Bytes
  import opened JournalCodec
  import opened JournalReplay
  import opened SessionContext
  import opened SessionDisk
  import Bits
  import Crc32

  datatype Io = Done | Failed | Crashed

  // --- what an operation may leave behind ---

  ghost predicate SameContexts(d: Disk, d': Disk) {
    d'.main == d.main && d'.prev == d.prev
  }

  /** The main context was moved to .prev and the new one is not in place. */
  ghost predicate Rotated(d: Disk, d': Disk) {
    d.main.Some? && d'.main == None && d'.prev == d.main
  }

  /** The new context is in place and the replaced one, if any, is .prev. */
  ghost predicate Committed(d: Disk, d': Disk, text: string) {
    d'.main == Some(text) && d'.prev == (if d.main.Some? then d.main else d.prev)
  }

  ghost predicate ContextWritten(d: Disk, d': Disk, text: string, io: Io) {
    match io
    case Done => Committed(d, d', text)
    case Failed => SameContexts(d, d') || Rotated(d, d')
    case Crashed => SameContexts(d, d') || Rotated(d, d') || Committed(d, d', text)
  }

  /** An append of add to the first size bytes that stopped somewhere. */
  ghost predicate TornAppend(j: bytes, size: nat, add: bytes, j': bytes) {
    size <= |j| && (j' == j || (j[..size] <= j' <= j[..size] + add))
  }

  /** The bytes after the declared size are a prefix of what is about to be appended. */
  ghost predicate Reconciles(j: bytes, size: nat, add: bytes) {
    size <= |j| && j[size..] <= add
  }

  /** Everything AppendJournal can leave behind when the loaded context declares t. */
  ghost predicate Appended(d: Disk, t: Trailer, add: bytes, text: string, d': Disk, io: Io) {
    if d.journal.None? then
      if t.records != 0 || t.size != 0 || add != [] then d' == d && io == Failed
      else d'.journal == d.journal && ContextWritten(d, d', text, io)
    else
      var j := d.journal.value;
      if !Reconciles(j, t.size, add) then d' == d && io == Failed
      else
        || (io != Done && SameContexts(d, d') && d'.journal.Some? && TornAppend(j, t.size, add, d'.journal.value))
        || (d'.journal == Some(j[..t.size] + add) && ContextWritten(d, d', text, io))
  }

  /** The files admit an append of add: there is a context, and the journal has no bytes past the declared ones but a
      prefix of add. */
  ghost predicate Appendable(d: Disk, add: bytes) {
    var c := LoadContext(d);
    && c.Context?
    && (if d.journal.None? then c.trailer.records == 0 && c.trailer.size == 0 && add == []
        else Reconciles(d.journal.value, c.trailer.size, add))
  }

  /** The trailer after appending records whose bytes are add. */
  function Extended(t: Trailer, records: nat, add: bytes): Trailer {
    Trailer(t.records + records, t.size + |add|, ContinueCrc(t.crc, add))
  }

  /** Everything SaveSession can leave behind. */
  ghost predicate Saved(d: Disk, journal: bytes, text: string, d': Disk, io: Io) {
    || (io != Done && SameContexts(d, d'))
    || (d'.journal == Some(journal) && ContextWritten(d, d', text, io))
  }

  // --- the store ---

  class SessionFiles {
    var disk: Disk
    /** How many file steps did not succeed so far. */
    ghost var faults: nat
    /** The checksum table, built once. */
    const table: array<nat>

    ghost predicate Valid()
      reads this, table
    {
      Crc32.IsTable(table[..])
    }

    constructor (disk: Disk)
      ensures Valid() && this.disk == disk && faults == 0 && fresh(table)
    {
      var t := Crc32.BuildTable();
      this.disk, faults := disk, 0;
      this.table := t;
    }

    // --- single file steps with any outcome ---

    method WriteMainTmp(text: string) returns (io: Io)
      modifies this
      ensures disk == old(disk).(mainTmp := disk.mainTmp)
      ensures io == Done ==> disk.mainTmp == Some(text)
      ensures if io == Done then faults == old(faults) else faults > old(faults)
    {
      io := *;
      if io != Done { faults := faults + 1; }
      var started: bool := *;
      var n: nat :| n <= |text|;
      if io == Done { n := |text|; }
      if io == Done || started { disk := disk.(mainTmp := Some(text[..n])); }
      assert text[..|text|] == text;
    }

    method WriteJournalTmp(data: bytes) returns (io: Io)
      modifies this
      ensures disk == old(disk).(journalTmp := disk.journalTmp)
      ensures io == Done ==> disk.journalTmp == Some(data)
      ensures if io == Done then faults == old(faults) else faults > old(faults)
    {
      io := *;
      if io != Done { faults := faults + 1; }
      var started: bool := *;
      var n: nat :| n <= |data|;
      if io == Done { n := |data|; }
      if io == Done || started { disk := disk.(journalTmp := Some(data[..n])); }
      assert data[..|data|] == data;
    }

    /** A rename that fails changes nothing; a crash falls before or after it. */
    method RotateMain() returns (io: Io)
      requires disk.main.Some?
      modifies this
      ensures io == Done ==> disk == old(disk).(main := None, prev := old(disk).main)
      ensures io == Failed ==> disk == old(disk)
      ensures disk == old(disk) || disk == old(disk).(main := None, prev := old(disk).main)
      ensures if io == Done then faults == old(faults) else faults > old(faults)
    {
      io := *;
      if io != Done { faults := faults + 1; }
      var moved: bool := *;
      if io == Done || (io == Crashed && moved) { disk := disk.(main := None, prev := disk.main); }
    }

    method RenameMainTmp() returns (io: Io)
      modifies this
      ensures io == Done ==> disk == old(disk).(main := old(disk).mainTmp, mainTmp := None)
      ensures io == Failed ==> disk == old(disk)
      ensures disk == old(disk) || disk == old(disk).(main := old(disk).mainTmp, mainTmp := None)
      ensures if io == Done then faults == old(faults) else faults > old(faults)
    {
      io := *;
      if io != Done { faults := faults + 1; }
      var moved: bool := *;
      if io == Done || (io == Crashed && moved) { disk := disk.(main := disk.mainTmp, mainTmp := None); }
    }

    method RenameJournalTmp() returns (io: Io)
      modifies this
      ensures io == Done ==> disk == old(disk).(journal := old(disk).journalTmp, journalTmp := None)
      ensures io == Failed ==> disk == old(disk)
      ensures disk == old(disk) || disk == old(disk).(journal := old(disk).journalTmp, journalTmp := None)
      ensures if io == Done then faults == old(faults) else faults > old(faults)
    {
      io := *;
      if io != Done { faults := faults + 1; }
      var moved: bool := *;
      if io == Done || (io == Crashed && moved) { disk := disk.(journal := disk.journalTmp, journalTmp := None); }
    }

    /** Removing a temporary file is best effort; only a crash matters to the caller. */
    method RemoveMainTmp() returns (crashed: bool)
      modifies this
      ensures disk == old(disk).(mainTmp := disk.mainTmp)
      ensures faults == old(faults)
    {
      crashed := *;
      var removed: bool := *;
      if removed { disk := disk.(mainTmp := None); }
    }

    method RemoveJournalTmp() returns (crashed: bool)
      modifies this
      ensures disk == old(disk).(journalTmp := disk.journalTmp)
      ensures faults == old(faults)
    {
      crashed := *;
      var removed: bool := *;
      if removed { disk := disk.(journalTmp := None); }
    }

    method TruncateJournal(size: nat) returns (io: Io)
      requires disk.journal.Some? && size <= |disk.journal.value|
      modifies this
      ensures io == Done ==> disk == old(disk).(journal := Some(old(disk).journal.value[..size]))
      ensures io == Failed ==> disk == old(disk)
      ensures disk == old(disk) || disk == old(disk).(journal := Some(old(disk).journal.value[..size]))
      ensures if io == Done then faults == old(faults) else faults > old(faults)
    {
      io := *;
      if io != Done { faults := faults + 1; }
      var cut: bool := *;
      if io == Done || (io == Crashed && cut) { disk := disk.(journal := Some(disk.journal.value[..size])); }
    }

    method AppendBytes(add: bytes) returns (io: Io)
      requires disk.journal.Some?
      modifies this
      ensures disk == old(disk).(journal := disk.journal) && disk.journal.Some?
      ensures io == Done ==> disk.journal.value == old(disk).journal.value + add
      ensures old(disk).journal.value <= disk.journal.value <= old(disk).journal.value + add
      ensures if io == Done then faults == old(faults) else faults > old(faults)
    {
      io := *;
      if io != Done { faults := faults + 1; }
      var n: nat :| n <= |add|;
      if io == Done { n := |add|; }
      disk := disk.(journal := Some(disk.journal.value + add[..n]));
    }

    // --- WriteAtomic ---

    /** Temporary file, rotation of an existing context to .prev, rename into place. */
    method WriteContext(text: string) returns (io: Io)
      modifies this
      ensures disk.journal == old(disk).journal && disk.journalTmp == old(disk).journalTmp
      ensures ContextWritten(old(disk), disk, text, io)
      ensures if io == Done then faults == old(faults) else faults > old(faults)
    {
      io := WriteMainTmp(text);
      if io != Done { return; }
      if disk.main.Some? {
        io := RotateMain();
        if io == Failed {
          var crashed := RemoveMainTmp();
          if crashed { io := Crashed; }
        }
        if io != Done { return; }
      }
      io := RenameMainTmp();
      if io == Failed {
        var crashed := RemoveMainTmp();
        if crashed { io := Crashed; }
      }
    }

    method WriteJournal(data: bytes) returns (io: Io)
      modifies this
      ensures SameContexts(old(disk), disk)
      ensures io == Done ==> disk.journal == Some(data)
      ensures if io == Done then faults == old(faults) else faults > old(faults)
    {
      io := WriteJournalTmp(data);
      if io != Done { return; }
      io := RenameJournalTmp();
      if io == Failed {
        var crashed := RemoveJournalTmp();
        if crashed { io := Crashed; }
      }
    }

    // --- the public operations ---

    /** The journal first, then the context that declares it. */
    method SaveSession(s: Session, journalName: string, rows: seq<JournalEntry>) returns (io: Io)
      requires Valid()
      modifies this
      ensures Valid()
      ensures Saved(old(disk), JournalOf(rows), ContextText(s, journalName, TrailerFor(rows)), disk, io)
      ensures if io == Done then faults == old(faults) else faults > old(faults)
    {
      var data := EncodeRecords(table, rows);
      io := WriteJournal(data);
      if io != Done { return; }
      var crc := ComputeCrc(table, data);
      var text := BuildContext(s, journalName, Trailer(|rows|, |data|, crc));
      io := WriteContext(text);
    }

    /** Any byte past the declared size must be an orphan of an earlier append of the same rows: it is compared
        with the bytes about to be written and cut off. Anything else is an error that touches nothing. */
    method ReconcileTail(size: nat, add: bytes) returns (io: Io)
      requires disk.journal.Some?
      modifies this
      ensures disk == old(disk).(journal := disk.journal)
      ensures io == Done ==> Reconciles(old(disk).journal.value, size, add)
                             && disk.journal == Some(old(disk).journal.value[..size])
      ensures io == Failed ==> disk == old(disk)
      ensures disk == old(disk) || (Reconciles(old(disk).journal.value, size, add)
                                    && disk.journal == Some(old(disk).journal.value[..size]))
      ensures !Reconciles(old(disk).journal.value, size, add) ==> io == Failed
      ensures faults >= old(faults) && (io == Done ==> faults == old(faults))
      ensures io != Done ==> faults > old(faults) || !Reconciles(old(disk).journal.value, size, add)
    {
      var j := disk.journal.value;
      if |j| < size { return Failed; }
      if |j| > size {
        var tail := |j| - size;
        if add == [] || tail > |add| || j[size..] != add[..tail] { return Failed; }
        io := TruncateJournal(size);
      } else {
        assert j[..size] == j && j[size..] == [];
        io := Done;
      }
    }

    /** Reconcile the journal with the declared size, append the rows, then write the context that declares
        them; the checksum is carried on without reading the old bytes. */
    method AppendJournal(s: Session, journalName: string, rows: seq<JournalEntry>) returns (io: Io)
      requires Valid()
      modifies this
      ensures Valid()
      ensures var c := LoadContext(old(disk));
              if c.NoContext? then disk == old(disk) && io == Failed
              else Appended(old(disk), c.trailer, JournalOf(rows),
                            ContextText(s, journalName, Extended(c.trailer, |rows|, JournalOf(rows))), disk, io)
      ensures faults >= old(faults) && (io == Done ==> faults == old(faults) && Appendable(old(disk), JournalOf(rows)))
      ensures io != Done ==> faults > old(faults) || !Appendable(old(disk), JournalOf(rows))
    {
      hide LoadContext, ContextText, Extended, Reconciles, JournalOf, ContinueCrc;
      var c := LoadContext(disk);
      if c.NoContext? { return Failed; }
      var t := c.trailer;
      var add := EncodeRecords(table, rows);
      if disk.journal.None? {
        if t.records != 0 || t.size != 0 || add != [] { return Failed; }
      } else {
        io := ReconcileTail(t.size, add);
        if io != Done {
          KeptBytes(old(disk).journal.value, t.size, add);
          return;
        }
        ghost var kept := old(disk).journal.value[..t.size];
        if add != [] {
          io := AppendBytes(add);
          if io != Done { return; }
        } else {
          assert kept + add == kept;
        }
        assert disk.journal == Some(old(disk).journal.value[..t.size] + add);
      }
      var crc := ContinueStored(t.crc, add);
      var text := BuildContext(s, journalName, Trailer(t.records + |rows|, t.size + |add|, crc));
      ExtendedIs(t, |rows|, add);
      io := WriteContext(text);
    }

    /** The context, main or previous, and the replayed journal, cross-checked against the trailer. */
    method LoadSession() returns (out: LoadOutcome)
      requires Valid()
      ensures out == LoadOf(disk)
    {
      hide LoadContext, Scan, CrcOf, FrameSize;
      var c := LoadContext(disk);
      if c.NoContext? { return Refused(c.error); }
      var t := c.trailer;
      if disk.journal.None? {
        return Opened(c.session, [], t.records != 0 || t.size != 0, false, c.fellBack);
      }
      var j := disk.journal.value;
      var rows, tailBad := Replay(table, j);
      if tailBad || |rows| < t.records { return Opened(c.session, rows, true, false, c.fellBack); }
      var scan, i := 0, 0;
      while i < t.records && scan < |j|
        invariant 0 <= scan <= |j| && 0 <= i <= t.records
        invariant scan + DeclaredSize(j[scan..], t.records - i) == DeclaredSize(j, t.records)
        decreases t.records - i
      {
        var size := FrameSize(j[scan..]);
        if size.None? { break; }
        assert j[scan..][size.value..] == j[scan + size.value..];
        scan := scan + size.value;
        i := i + 1;
      }
      assert scan == DeclaredSize(j, t.records);
      var check := ComputeCrc(table, j[..scan]);
      var bad := scan < t.size || check != t.crc;
      out := Opened(c.session, rows, bad, !bad && |rows| > t.records, c.fellBack);
    }

    /** Crc32Final of the register restored from the stored checksum and run over the addition. */
    method ContinueStored(crc: u32, add: bytes) returns (r: u32)
      requires Valid()
      ensures r == ContinueCrc(crc, add)
    {
      ContinueBound(crc, add);
      var reg := Crc32.UpdateByTable(table, Bits.Xor(crc, Crc32.MASK), add);
      r := Crc32.Final(reg);
    }
  }

  lemma KeptBytes(j: bytes, size: nat, add: bytes)
    ensures Reconciles(j, size, add) ==> TornAppend(j, size, add, j) && TornAppend(j, size, add, j[..size])
  {}

  lemma ExtendedIs(t: Trailer, records: nat, add: bytes)
    ensures Extended(t, records, add) == Trailer(t.records + records, t.size + |add|, ContinueCrc(t.crc, add))
  {}

  // --- every operation keeps a coherent disk coherent ---

  /** A written context is the one that is loaded from then on. */
  lemma WrittenContext(d: Disk, d': Disk, s: Session, journalName: string, t: Trailer, io: Io)
    requires ContextWritten(d, d', ContextText(s, journalName, t), io) && ReaderAccepts(s, t)
    requires LoadContext(d).Context? && (d.main.Some? ==> ParseContext(d.main.value).Loaded?)
    ensures LoadContext(d').Context? && (d'.main.Some? ==> ParseContext(d'.main.value).Loaded?)
    ensures io == Done ==> LoadContext(d').trailer == t && LoadContext(d').session == s
    ensures io == Failed ==> LoadContext(d').trailer == LoadContext(d).trailer
    ensures io == Crashed ==> LoadContext(d').trailer == t || LoadContext(d').trailer == LoadContext(d).trailer
  {
    hide ContextText, ParseContext, ReaderAccepts;
    ContextTextRoundTrip(s, journalName, t);
  }

  lemma ExtendedTrailer(decl: seq<JournalEntry>, rows: seq<JournalEntry>)
    ensures Extended(TrailerFor(decl), |rows|, JournalOf(rows)) == TrailerFor(decl + rows)
  {
    hide CrcOf, JournalOf, ContinueCrc;
    JournalOfConcat(decl, rows);
    CrcContinues(JournalOf(decl), JournalOf(rows));
  }

  lemma CrcContinues(a: bytes, b: bytes)
    ensures ContinueCrc(CrcOf(a), b) == CrcOf(a + b)
  {
    Crc32.Continue(a, b);
  }

  /** AppendJournal with every pending row, from a coherent disk: after success the rows are declared; after a
      failure the old rows still are, and the new ones are pending; after a crash it is one of the two. */
  lemma AppendKeepsCoherent(d: Disk, decl: seq<JournalEntry>, pend: seq<JournalEntry>, rows: seq<JournalEntry>,
                            s: Session, journalName: string, d': Disk, io: Io)
    requires Coherent(d, decl, pend) && pend <= rows && AllFit(rows) && ReaderAccepts(s, TrailerFor(decl + rows))
    requires Appended(d, TrailerFor(decl), JournalOf(rows), ContextText(s, journalName, TrailerFor(decl + rows)), d', io)
    ensures io == Done ==> Coherent(d', decl + rows, []) && LoadContext(d').session == s
    ensures io == Failed ==> Coherent(d', decl, rows)
    ensures io == Crashed ==> Coherent(d', decl, rows) || Coherent(d', decl + rows, [])
  {
    hide ContextText, ParseContext, ReaderAccepts, CrcOf, LoadContext, JournalOf, AllFit, Fits;
    var base, add, j, text := JournalOf(decl), JournalOf(rows), d.journal.value, ContextText(s, journalName, TrailerFor(decl + rows));
    RowBytes(decl, pend, rows);
    assert j[..|base|] == base && j[|base|..] <= add;
    if d'.journal == Some(j[..|base|] + add) && ContextWritten(d, d', text, io) {
      WrittenContext(d, d', s, journalName, TrailerFor(decl + rows), io);
      assert base + add <= base + add;
      assert JournalOf(decl + rows) + JournalOf([]) == JournalOf(decl + rows);
    } else {
      SameContextsLoad(d, d');
    }
  }

  /** Whatever an earlier attempt left behind, the next append of the pending rows is admitted. */
  lemma PendingAppendable(d: Disk, decl: seq<JournalEntry>, pend: seq<JournalEntry>, rows: seq<JournalEntry>)
    requires Coherent(d, decl, pend) && pend <= rows && AllFit(rows)
    ensures Appendable(d, JournalOf(rows))
  {
    hide LoadContext, CrcOf, JournalOf, AllFit, Fits, ParseContext;
    RowBytes(decl, pend, rows);
    PrefixOfTail(JournalOf(decl), JournalOf(pend), JournalOf(rows), d.journal.value);
  }

  lemma PrefixOfTail(base: bytes, pend: bytes, add: bytes, j: bytes)
    requires base <= j <= base + pend && pend <= add
    ensures |base| <= |j| && j[|base|..] <= add
  {}

  lemma RowBytes(decl: seq<JournalEntry>, pend: seq<JournalEntry>, rows: seq<JournalEntry>)
    requires pend <= rows && AllFit(decl) && AllFit(rows)
    ensures JournalOf(pend) <= JournalOf(rows) && AllFit(decl + rows)
    ensures JournalOf(decl + rows) == JournalOf(decl) + JournalOf(rows) && JournalOf([]) == [] && AllFit([])
  {
    hide Fits, RecordOf;
    JournalOfConcat(decl, rows);
    JournalOfConcat(pend, rows[|pend|..]);
    assert rows == pend + rows[|pend|..];
  }

  lemma SameContextsLoad(d: Disk, d': Disk)
    requires SameContexts(d, d')
    ensures LoadContext(d') == LoadContext(d)
  {}

  /** No context at all: the session was not bootstrapped yet. */
  ghost predicate Fresh(d: Disk) {
    d.main == None && d.prev == None
  }

  /** The first SaveSession over a base without session files. */
  lemma SaveBootstraps(d: Disk, rows: seq<JournalEntry>, s: Session, journalName: string, d': Disk, io: Io)
    requires Fresh(d) && AllFit(rows) && ReaderAccepts(s, TrailerFor(rows))
    requires Saved(d, JournalOf(rows), ContextText(s, journalName, TrailerFor(rows)), d', io)
    ensures io == Done ==> Coherent(d', rows, []) && LoadContext(d').session == s
    ensures io == Failed ==> Fresh(d')
    ensures io == Crashed ==> Fresh(d') || Coherent(d', rows, [])
  {
    hide ContextText, ParseContext, ReaderAccepts, CrcOf;
    ContextTextRoundTrip(s, journalName, TrailerFor(rows));
    assert JournalOf(rows) + JournalOf([]) == JournalOf(rows);
  }

  // --- crash safety over whole runs ---

  /** One call of AppendJournal: the rows passed, the context written with them, and how it ended. */
  datatype Attempt = Attempt(session: Session, rows: seq<JournalEntry>, after: Disk, io: Io)

  /** What is declared, and what is still pending, once a call has returned. */
  function DeclaredAfter(decl: seq<JournalEntry>, c: Attempt): seq<JournalEntry> {
    if c.io == Done then decl + c.rows else decl
  }

  function PendingAfter(c: Attempt): seq<JournalEntry> {
    if c.io == Done then [] else c.rows
  }

  /** One call that passes every row not yet declared. */
  ghost predicate Call(d: Disk, journalName: string, decl: seq<JournalEntry>, pend: seq<JournalEntry>, c: Attempt) {
    && pend <= c.rows && AllFit(c.rows) && ReaderAccepts(c.session, TrailerFor(decl + c.rows))
    && Appended(d, TrailerFor(decl), JournalOf(c.rows),
                ContextText(c.session, journalName, TrailerFor(decl + c.rows)), c.after, c.io)
  }

  /** A run of such calls. Nothing is called after a crash. */
  ghost predicate Run(d: Disk, journalName: string, decl: seq<JournalEntry>, pend: seq<JournalEntry>, calls: seq<Attempt>)
    decreases |calls|
  {
    calls == [] ||
    var c := calls[0];
    && Call(d, journalName, decl, pend, c)
    && (c.io == Crashed ==> |calls| == 1)
    && (c.io != Crashed ==> Run(c.after, journalName, DeclaredAfter(decl, c), PendingAfter(c), calls[1..]))
  }

  /** The rows whose declaration was acknowledged by a successful call. */
  function Acknowledged(decl: seq<JournalEntry>, calls: seq<Attempt>): seq<JournalEntry>
    decreases |calls|
  {
    if calls == [] then decl else Acknowledged(DeclaredAfter(decl, calls[0]), calls[1..])
  }

  /** All rows handed in so far, each once and in order. */
  function HandedIn(decl: seq<JournalEntry>, pend: seq<JournalEntry>, calls: seq<Attempt>): seq<JournalEntry>
    decreases |calls|
  {
    if calls == [] then decl + pend
    else HandedIn(DeclaredAfter(decl, calls[0]), PendingAfter(calls[0]), calls[1..])
  }

  function LastDisk(d: Disk, calls: seq<Attempt>): Disk {
    if calls == [] then d else calls[|calls| - 1].after
  }

  /** What loading must give back: everything acknowledged and declared, nothing that was not handed in. */
  ghost predicate Recovers(d: Disk, acknowledged: seq<JournalEntry>, handedIn: seq<JournalEntry>) {
    && LoadOf(d).Opened?
    && acknowledged <= LoadOf(d).rows <= handedIn
    && LoadContext(d).trailer.records <= |LoadOf(d).rows|
  }

  /** Whatever fails and wherever the run crashes, loading then succeeds, returns a prefix of the rows handed in,
      in order, and that prefix contains every row whose declaration was acknowledged and every row that the
      surviving context declares. */
  lemma {:induction false} CrashSafety(d: Disk, journalName: string, decl: seq<JournalEntry>, pend: seq<JournalEntry>,
                                       calls: seq<Attempt>)
    requires Coherent(d, decl, pend) && Run(d, journalName, decl, pend, calls)
    ensures Recovers(LastDisk(d, calls), Acknowledged(decl, calls), HandedIn(decl, pend, calls))
    decreases |calls|
  {
    hide Call, Coherent, Recovers;
    if calls == [] {
      CoherentLoads(d, decl, pend);
    } else {
      var c := calls[0];
      CallKeepsCoherent(d, journalName, decl, pend, c);
      if c.io == Crashed {
        CrashedCallLoads(c.after, decl, c.rows);
        assert calls[1..] == [];
      } else {
        CrashSafety(c.after, journalName, DeclaredAfter(decl, c), PendingAfter(c), calls[1..]);
      }
    }
  }

  lemma CallKeepsCoherent(d: Disk, journalName: string, decl: seq<JournalEntry>, pend: seq<JournalEntry>, c: Attempt)
    requires Coherent(d, decl, pend) && Call(d, journalName, decl, pend, c)
    ensures c.io != Crashed ==> Coherent(c.after, DeclaredAfter(decl, c), PendingAfter(c))
    ensures c.io == Crashed ==> Coherent(c.after, decl, c.rows) || Coherent(c.after, decl + c.rows, [])
  {
    hide Coherent, Appended, ReaderAccepts, ContextText;
    AppendKeepsCoherent(d, decl, pend, c.rows, c.session, journalName, c.after, c.io);
  }

  lemma CrashedCallLoads(d: Disk, decl: seq<JournalEntry>, rows: seq<JournalEntry>)
    requires Coherent(d, decl, rows) || Coherent(d, decl + rows, [])
    ensures Recovers(d, decl, decl + rows)
  {
    hide LoadContext, LoadOf, Coherent;
    if Coherent(d, decl, rows) {
      CoherentLoads(d, decl, rows);
    } else {
      CoherentLoads(d, decl + rows, []);
      assert (decl + rows) + [] == decl + rows;
    }
  }

  lemma CoherentLoads(d: Disk, decl: seq<JournalEntry>, pend: seq<JournalEntry>)
    requires Coherent(d, decl, pend)
    ensures Recovers(d, decl, decl + pend)
  {
    hide LoadContext, LoadOf, CrcOf;
    LoadOfCoherent(d, decl, pend);
  }
}
