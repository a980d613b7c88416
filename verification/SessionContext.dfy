/** The session context: its fields, their JSON form and the validating reader. */
module SessionContext {
  import opened Wrappers
  import opened Bytes
  import opened Results
  import opened SessionJson
  import SessionJsonRoundTrip
  import SessionJsonParser

  const SCHEMA_VERSION: nat := 1
  /** Ten years in milliseconds. */
  const MAX_RUN_MILLIS: nat := 315_360_000_000

  datatype SessionState = InProgress | Checkpointed | Interrupted | Completed

  datatype SideProgress = SideProgress(files: nat, dirs: nat, size: nat)

  datatype Session = Session(
    schemaVersion: u32, sessionId: string, createdAt: nat, sourceA: string, sourceB: string,
    mode: ScanMode, caseSensitive: bool, backend: string,
    requested: i32, effective: i32, pattern: PartialPattern, patternRandom: bool, hashThreads: u32,
    state: SessionState, progressA: SideProgress, progressB: SideProgress, stats: Stats,
    seqNo: nat, atUnix: nat, runMillis: nat)

  /** What the context declares about the journal. */
  datatype Trailer = Trailer(records: nat, size: nat, crc: u32)

  datatype ContextError = CorruptHeader | MagicMismatch | VersionMismatch

  datatype Parsed = Loaded(session: Session, trailer: Trailer) | Rejected(error: ContextError)

  // --- building ---

  /** The cast of a 64-bit counter to the signed integers of the JSON model. */
  function Int64(v: nat): (r: int)
    ensures MIN_INT64 <= r <= MAX_INT64
    ensures r == v <==> v <= MAX_INT64
    ensures v <= MAX_INT64 || r < 0 || v > MAX_INT64 - MIN_INT64
  {
    var w := v % 0x1_0000_0000_0000_0000;
    if w <= MAX_INT64 then w else w - 0x1_0000_0000_0000_0000
  }

  function ModeName(m: ScanMode): string {
    match m case Presence => "presence" case Size => "size" case Content => "content"
  }

  function PatternName(p: PartialPattern): string {
    match p case Edges => "edges" case Center => "center" case Random => "random"
  }

  function StateName(s: SessionState): string {
    match s
    case InProgress => "in_progress"
    case Checkpointed => "checkpointed"
    case Interrupted => "interrupted"
    case Completed => "completed"
  }

  function Num(v: nat): Value {
    Int(Int64(v))
  }

  function SideValue(p: SideProgress): Value {
    Obj(map["files" := Num(p.files), "dirs" := Num(p.dirs), "bytes" := Num(p.size)])
  }

  function StatsValue(st: Stats): Value {
    Obj(map[
      "sourceFiles" := Num(st.sourceFiles), "sourceDirs" := Num(st.sourceDirs),
      "destFiles" := Num(st.destFiles), "destDirs" := Num(st.destDirs),
      "identicalFiles" := Num(st.identicalFiles), "identicalDirs" := Num(st.identicalDirs),
      "missingFiles" := Num(st.missingFiles), "missingDirs" := Num(st.missingDirs),
      "extraFiles" := Num(st.extraFiles), "extraDirs" := Num(st.extraDirs),
      "sizeMismatch" := Num(st.sizeMismatch), "contentMismatch" := Num(st.contentMismatch),
      "identicalPartialFiles" := Num(st.identicalPartialFiles),
      "contentMismatchPartial" := Num(st.contentMismatchPartial),
      "readErrors" := Num(st.readErrors), "accessDenied" := Num(st.accessDenied),
      "changedDuringScan" := Num(st.changedDuringScan),
      "bytesSource" := Num(st.bytesSource), "bytesDest" := Num(st.bytesDest)])
  }

  function VerifyValue(s: Session): Value {
    Obj(map["requested" := Int(s.requested), "effective" := Int(s.effective),
            "pattern" := Str(PatternName(s.pattern)), "random" := Bool(s.patternRandom)])
  }

  function SettingsValue(s: Session): Value {
    Obj(map["mode" := Str(ModeName(s.mode)), "caseSensitive" := Bool(s.caseSensitive),
            "backend" := Str(s.backend), "verify" := VerifyValue(s), "hashThreads" := Num(s.hashThreads)])
  }

  function CheckpointValue(s: Session): Value {
    Obj(map["seq" := Num(s.seqNo), "at" := Num(s.atUnix)])
  }

  function JournalValue(t: Trailer, journalName: string): Value {
    Obj(map["file" := Str(journalName), "records" := Num(t.records), "bytes" := Num(t.size), "crc32" := Num(t.crc)])
  }

  function ContextValue(s: Session, journalName: string, t: Trailer): Value {
    Obj(map[
      "magic" := Str("BVSS"), "schema" := Num(s.schemaVersion),
      "sessionId" := Str(s.sessionId), "createdAt" := Num(s.createdAt),
      "sourceA" := Str(s.sourceA), "sourceB" := Str(s.sourceB),
      "settings" := SettingsValue(s), "state" := Str(StateName(s.state)),
      "progressA" := SideValue(s.progressA), "progressB" := SideValue(s.progressB),
      "stats" := StatsValue(s.stats), "checkpoint" := CheckpointValue(s),
      "runMillis" := Num(s.runMillis), "journal" := JournalValue(t, journalName)])
  }

  /** The text of the context file. */
  ghost function ContextText(s: Session, journalName: string, t: Trailer): string {
    Text(ContextValue(s, journalName, t))
  }

  method BuildContext(s: Session, journalName: string, t: Trailer) returns (text: string)
    ensures text == ContextText(s, journalName, t)
  {
    text := SessionJsonParser.WriteValue(ContextValue(s, journalName, t), []);
  }

  // --- reading ---

  function Find(v: Value, k: string): Option<Value> {
    if v.Obj? && k in v.obj then Some(v.obj[k]) else None
  }

  /** The string under a key, or the empty string if there is none. */
  function StringOr(v: Value, k: string): string {
    var f := Find(v, k);
    if f.Some? && f.value.Str? then f.value.str else ""
  }

  function GetNat(v: Value, k: string): Option<nat> {
    var f := Find(v, k);
    if f.Some? && f.value.Int? && f.value.integer >= 0 then Some(f.value.integer) else None
  }

  function GetBool(v: Value, k: string): Option<bool> {
    var f := Find(v, k);
    if f.Some? && f.value.Bool? then Some(f.value.boolean) else None
  }

  function ModeOf(s: string): Option<ScanMode> {
    if s == "presence" then Some(Presence) else if s == "size" then Some(Size)
    else if s == "content" then Some(Content) else None
  }

  function PatternOf(s: string): Option<PartialPattern> {
    if s == "edges" then Some(Edges) else if s == "center" then Some(Center)
    else if s == "random" then Some(Random) else None
  }

  function StateOf(s: string): Option<SessionState> {
    if s == "in_progress" then Some(InProgress) else if s == "checkpointed" then Some(Checkpointed)
    else if s == "interrupted" then Some(Interrupted) else if s == "completed" then Some(Completed) else None
  }

  function SideOf(f: Option<Value>): Option<SideProgress> {
    if f.None? then None else
    var a, b, c := GetNat(f.value, "files"), GetNat(f.value, "dirs"), GetNat(f.value, "bytes");
    if a.None? || b.None? || c.None? then None else Some(SideProgress(a.value, b.value, c.value))
  }

  predicate HasNat(v: Value, k: string) {
    GetNat(v, k).Some?
  }

  function NatAt(v: Value, k: string): nat
    requires HasNat(v, k)
  {
    GetNat(v, k).value
  }

  predicate HasStats(v: Value) {
    && HasNat(v, "sourceFiles") && HasNat(v, "sourceDirs") && HasNat(v, "destFiles")
    && HasNat(v, "destDirs") && HasNat(v, "identicalFiles") && HasNat(v, "identicalDirs")
    && HasNat(v, "missingFiles") && HasNat(v, "missingDirs") && HasNat(v, "extraFiles")
    && HasNat(v, "extraDirs") && HasNat(v, "sizeMismatch") && HasNat(v, "contentMismatch")
    && HasNat(v, "identicalPartialFiles") && HasNat(v, "contentMismatchPartial") && HasNat(v, "readErrors")
    && HasNat(v, "accessDenied") && HasNat(v, "changedDuringScan") && HasNat(v, "bytesSource")
    && HasNat(v, "bytesDest")
  }

  /** All counters or nothing: a half-present block is corruption. */
  function StatsOf(f: Option<Value>): Option<Stats> {
    if f.None? || !HasStats(f.value) then None else
    var v := f.value;
    Some(Stats(
          NatAt(v, "sourceFiles"), NatAt(v, "sourceDirs"), NatAt(v, "destFiles"),
          NatAt(v, "destDirs"), NatAt(v, "identicalFiles"), NatAt(v, "identicalDirs"),
          NatAt(v, "missingFiles"), NatAt(v, "missingDirs"), NatAt(v, "extraFiles"),
          NatAt(v, "extraDirs"), NatAt(v, "sizeMismatch"), NatAt(v, "contentMismatch"),
          NatAt(v, "identicalPartialFiles"), NatAt(v, "contentMismatchPartial"), NatAt(v, "readErrors"),
          NatAt(v, "accessDenied"), NatAt(v, "changedDuringScan"), NatAt(v, "bytesSource"),
          NatAt(v, "bytesDest")))
  }

  datatype Verify = Verify(requested: i32, effective: i32, pattern: PartialPattern, patternRandom: bool,
                           hashThreads: u32)

  /** settings.verify and settings.hashThreads. */
  function VerifyOf(settings: Value): Option<Verify> {
    var f := Find(settings, "verify");
    if f.None? || !f.value.Obj? then None else
    var pattern := PatternOf(StringOr(f.value, "pattern"));
    if pattern.None? then None else
    var requested, effective := GetNat(f.value, "requested"), GetNat(f.value, "effective");
    var random, threads := GetBool(f.value, "random"), GetNat(settings, "hashThreads");
    if requested.None? || effective.None? || random.None? || threads.None? then None
    else if requested.value > 100 || effective.value > 100 || threads.value > 4096 then None
    else Some(Verify(requested.value, effective.value, pattern.value, random.value, threads.value))
  }

  function TrailerOf(f: Option<Value>): Option<Trailer> {
    if f.None? || !f.value.Obj? then None else
    var records, size, crc := GetNat(f.value, "records"), GetNat(f.value, "bytes"), GetNat(f.value, "crc32");
    if records.None? || size.None? || crc.None? || crc.value > 0xFFFF_FFFF then None
    else Some(Trailer(records.value, size.value, crc.value))
  }

  /** The optional cumulative run time. */
  function RunMillisOf(root: Value): Option<nat> {
    if Find(root, "runMillis").None? then Some(0) else
    var v := GetNat(root, "runMillis");
    if v.None? || v.value > MAX_RUN_MILLIS then None else Some(v.value)
  }

  /** The validating reader, on the value tree: every required field must be there with its type and range. */
  function ContextOf(root: Value): Parsed {
    var magic, schema := Find(root, "magic"), Find(root, "schema");
    if magic.None? || !magic.value.Str? then Rejected(CorruptHeader)
    else if magic.value.str != "BVSS" then Rejected(MagicMismatch)
    else if schema.None? || !schema.value.Int? || schema.value.integer < 1 then Rejected(CorruptHeader)
    else if schema.value.integer > SCHEMA_VERSION then Rejected(VersionMismatch)
    else
      var sessionId, createdAt := StringOr(root, "sessionId"), GetNat(root, "createdAt");
      var a, b, settings := Find(root, "sourceA"), Find(root, "sourceB"), Find(root, "settings");
      if createdAt.None? || sessionId == "" then Rejected(CorruptHeader)
      else if a.None? || !a.value.Str? || b.None? || !b.value.Str? then Rejected(CorruptHeader)
      else if settings.None? || !settings.value.Obj? then Rejected(CorruptHeader)
      else
        var mode, cs := ModeOf(StringOr(settings.value, "mode")), GetBool(settings.value, "caseSensitive");
        var backend, verify := StringOr(settings.value, "backend"), VerifyOf(settings.value);
        var state := StateOf(StringOr(root, "state"));
        if mode.None? || cs.None? || backend == "" || verify.None? || state.None? then Rejected(CorruptHeader) else
        var pa, pb := SideOf(Find(root, "progressA")), SideOf(Find(root, "progressB"));
        var stats, cp := StatsOf(Find(root, "stats")), Find(root, "checkpoint");
        if pa.None? || pb.None? || stats.None? || cp.None? then Rejected(CorruptHeader) else
        var seqNo, at := GetNat(cp.value, "seq"), GetNat(cp.value, "at");
        var millis, trailer := RunMillisOf(root), TrailerOf(Find(root, "journal"));
        if seqNo.None? || at.None? then Rejected(CorruptHeader)
        else if millis.None? || trailer.None? then Rejected(CorruptHeader)
        else
          var v := verify.value;
          Loaded(Session(schema.value.integer, sessionId, createdAt.value, a.value.str, b.value.str,
                         mode.value, cs.value, backend, v.requested, v.effective, v.pattern, v.patternRandom,
                         v.hashThreads, state.value, pa.value, pb.value, stats.value, seqNo.value, at.value,
                         millis.value),
                 trailer.value)
  }

  /** The reader on the file text. */
  function ParseContext(text: string): Parsed {
    var root := ParseText(text);
    if root.None? || !root.value.Obj? then Rejected(CorruptHeader) else ContextOf(root.value)
  }

  // --- the round trip ---

  predicate SideInRange(p: SideProgress) {
    p.files <= MAX_INT64 && p.dirs <= MAX_INT64 && p.size <= MAX_INT64
  }

  predicate StatsInRange(st: Stats) {
    && st.sourceFiles <= MAX_INT64 && st.sourceDirs <= MAX_INT64 && st.destFiles <= MAX_INT64
    && st.destDirs <= MAX_INT64 && st.identicalFiles <= MAX_INT64 && st.identicalDirs <= MAX_INT64
    && st.missingFiles <= MAX_INT64 && st.missingDirs <= MAX_INT64 && st.extraFiles <= MAX_INT64
    && st.extraDirs <= MAX_INT64 && st.sizeMismatch <= MAX_INT64 && st.contentMismatch <= MAX_INT64
    && st.identicalPartialFiles <= MAX_INT64 && st.contentMismatchPartial <= MAX_INT64
    && st.readErrors <= MAX_INT64 && st.accessDenied <= MAX_INT64 && st.changedDuringScan <= MAX_INT64
    && st.bytesSource <= MAX_INT64 && st.bytesDest <= MAX_INT64
  }

  /** The fields lie in the ranges that the reader accepts. */
  predicate ReaderAccepts(s: Session, t: Trailer) {
    && s.schemaVersion == SCHEMA_VERSION && s.sessionId != "" && s.createdAt <= MAX_INT64
    && s.backend != "" && 0 <= s.requested <= 100 && 0 <= s.effective <= 100 && s.hashThreads <= 4096
    && SideInRange(s.progressA) && SideInRange(s.progressB) && StatsInRange(s.stats)
    && s.seqNo <= MAX_INT64 && s.atUnix <= MAX_INT64 && s.runMillis <= MAX_RUN_MILLIS
    && t.records <= MAX_INT64 && t.size <= MAX_INT64
  }

  lemma NamesRoundTrip(m: ScanMode, p: PartialPattern, s: SessionState)
    ensures ModeOf(ModeName(m)) == Some(m)
    ensures PatternOf(PatternName(p)) == Some(p)
    ensures StateOf(StateName(s)) == Some(s)
  {}

  lemma SideRoundTrip(p: SideProgress)
    ensures SideOf(Some(SideValue(p))) == Some(p) <==> SideInRange(p)
  {
    hide Int64;
  }

  /** The counter under a key is read back exactly when it is an int64. */
  predicate ReadsBack(v: Value, k: string, n: nat) {
    (n <= MAX_INT64 ==> HasNat(v, k)) && (HasNat(v, k) ==> (NatAt(v, k) == n <==> n <= MAX_INT64))
  }

  lemma NumField(v: Value, k: string, n: nat)
    requires v.Obj? && k in v.obj && v.obj[k] == Num(n)
    ensures ReadsBack(v, k, n)
  {
    hide Int64;
  }

  lemma StatsFields1(st: Stats)
    ensures ReadsBack(StatsValue(st), "sourceFiles", st.sourceFiles)
    ensures ReadsBack(StatsValue(st), "sourceDirs", st.sourceDirs)
    ensures ReadsBack(StatsValue(st), "destFiles", st.destFiles)
    ensures ReadsBack(StatsValue(st), "destDirs", st.destDirs)
    ensures ReadsBack(StatsValue(st), "identicalFiles", st.identicalFiles)
  {
    hide Int64, ReadsBack;
    var v := StatsValue(st);
    NumField(v, "sourceFiles", st.sourceFiles);
    NumField(v, "sourceDirs", st.sourceDirs);
    NumField(v, "destFiles", st.destFiles);
    NumField(v, "destDirs", st.destDirs);
    NumField(v, "identicalFiles", st.identicalFiles);
  }

  lemma StatsFields2(st: Stats)
    ensures ReadsBack(StatsValue(st), "identicalDirs", st.identicalDirs)
    ensures ReadsBack(StatsValue(st), "missingFiles", st.missingFiles)
    ensures ReadsBack(StatsValue(st), "missingDirs", st.missingDirs)
    ensures ReadsBack(StatsValue(st), "extraFiles", st.extraFiles)
    ensures ReadsBack(StatsValue(st), "extraDirs", st.extraDirs)
  {
    hide Int64, ReadsBack;
    var v := StatsValue(st);
    NumField(v, "identicalDirs", st.identicalDirs);
    NumField(v, "missingFiles", st.missingFiles);
    NumField(v, "missingDirs", st.missingDirs);
    NumField(v, "extraFiles", st.extraFiles);
    NumField(v, "extraDirs", st.extraDirs);
  }

  lemma StatsFields3(st: Stats)
    ensures ReadsBack(StatsValue(st), "sizeMismatch", st.sizeMismatch)
    ensures ReadsBack(StatsValue(st), "contentMismatch", st.contentMismatch)
    ensures ReadsBack(StatsValue(st), "identicalPartialFiles", st.identicalPartialFiles)
    ensures ReadsBack(StatsValue(st), "contentMismatchPartial", st.contentMismatchPartial)
    ensures ReadsBack(StatsValue(st), "readErrors", st.readErrors)
  {
    hide Int64, ReadsBack;
    var v := StatsValue(st);
    NumField(v, "sizeMismatch", st.sizeMismatch);
    NumField(v, "contentMismatch", st.contentMismatch);
    NumField(v, "identicalPartialFiles", st.identicalPartialFiles);
    NumField(v, "contentMismatchPartial", st.contentMismatchPartial);
    NumField(v, "readErrors", st.readErrors);
  }

  lemma StatsFields4(st: Stats)
    ensures ReadsBack(StatsValue(st), "accessDenied", st.accessDenied)
    ensures ReadsBack(StatsValue(st), "changedDuringScan", st.changedDuringScan)
    ensures ReadsBack(StatsValue(st), "bytesSource", st.bytesSource)
    ensures ReadsBack(StatsValue(st), "bytesDest", st.bytesDest)
  {
    hide Int64, ReadsBack;
    var v := StatsValue(st);
    NumField(v, "accessDenied", st.accessDenied);
    NumField(v, "changedDuringScan", st.changedDuringScan);
    NumField(v, "bytesSource", st.bytesSource);
    NumField(v, "bytesDest", st.bytesDest);
  }

  lemma StatsRoundTrip(st: Stats)
    ensures StatsOf(Some(StatsValue(st))) == Some(st) <==> StatsInRange(st)
  {
    hide StatsValue, HasNat, NatAt;
    StatsFields1(st);
    StatsFields2(st);
    StatsFields3(st);
    StatsFields4(st);
  }

  lemma TrailerRoundTrip(t: Trailer, journalName: string)
    ensures TrailerOf(Some(JournalValue(t, journalName))) == Some(t) <==> t.records <= MAX_INT64 && t.size <= MAX_INT64
  {
    hide Int64;
  }

  lemma VerifyRoundTrip(s: Session)
    ensures VerifyOf(SettingsValue(s)) == Some(Verify(s.requested, s.effective, s.pattern, s.patternRandom, s.hashThreads))
            <==> 0 <= s.requested <= 100 && 0 <= s.effective <= 100 && s.hashThreads <= 4096
  {
    hide Int64, PatternOf, PatternName;
    NamesRoundTrip(s.mode, s.pattern, s.state);
  }

  lemma ContextFields(s: Session, journalName: string, t: Trailer)
    ensures var root := ContextValue(s, journalName, t);
            root.Obj? && Find(root, "magic") == Some(Str("BVSS")) && Find(root, "schema") == Some(Num(s.schemaVersion))
            && StringOr(root, "sessionId") == s.sessionId && GetNat(root, "createdAt") == NatOf(s.createdAt)
            && Find(root, "sourceA") == Some(Str(s.sourceA)) && Find(root, "sourceB") == Some(Str(s.sourceB))
            && Find(root, "settings") == Some(SettingsValue(s))
  {
    hide Int64, SettingsValue, SideValue, StatsValue, CheckpointValue, JournalValue, StateName;
  }

  lemma ContextBlocks(s: Session, journalName: string, t: Trailer)
    ensures var root := ContextValue(s, journalName, t);
            StringOr(root, "state") == StateName(s.state)
            && Find(root, "progressA") == Some(SideValue(s.progressA))
            && Find(root, "progressB") == Some(SideValue(s.progressB))
            && Find(root, "stats") == Some(StatsValue(s.stats))
            && Find(root, "checkpoint") == Some(CheckpointValue(s))
            && (RunMillisOf(root) == Some(s.runMillis) <==> s.runMillis <= MAX_RUN_MILLIS)
            && Find(root, "journal") == Some(JournalValue(t, journalName))
  {
    hide Int64, SettingsValue, SideValue, StatsValue, CheckpointValue, JournalValue, StateName;
  }

  /** What the reader makes of a counter. */
  function NatOf(v: nat): Option<nat> {
    if Int64(v) >= 0 then Some(Int64(v)) else None
  }

  lemma SmallFields(s: Session)
    ensures StringOr(SettingsValue(s), "mode") == ModeName(s.mode)
    ensures GetBool(SettingsValue(s), "caseSensitive") == Some(s.caseSensitive)
    ensures StringOr(SettingsValue(s), "backend") == s.backend && SettingsValue(s).Obj?
    ensures GetNat(CheckpointValue(s), "seq") == NatOf(s.seqNo) && GetNat(CheckpointValue(s), "at") == NatOf(s.atUnix)
  {
    hide Int64, VerifyValue, ModeName;
  }

  /** The reader gives back what was built exactly when every field lies in its range. */
  lemma ContextRoundTrip(s: Session, journalName: string, t: Trailer)
    ensures ContextOf(ContextValue(s, journalName, t)) == Loaded(s, t) <==> ReaderAccepts(s, t)
  {
    hide *;
    ContextFields(s, journalName, t);
    ContextBlocks(s, journalName, t);
    SmallFields(s);
    SideRoundTrip(s.progressA);
    SideRoundTrip(s.progressB);
    StatsRoundTrip(s.stats);
    TrailerRoundTrip(t, journalName);
    VerifyRoundTrip(s);
    NamesRoundTrip(s.mode, s.pattern, s.state);
    Assemble(ContextValue(s, journalName, t), s, t);
  }

  /** The reader's decision from the blocks it looks up. */
  lemma Assemble(root: Value, s: Session, t: Trailer)
    requires Find(root, "magic") == Some(Str("BVSS")) && Find(root, "schema") == Some(Num(s.schemaVersion))
    requires StringOr(root, "sessionId") == s.sessionId && GetNat(root, "createdAt") == NatOf(s.createdAt)
    requires Find(root, "sourceA") == Some(Str(s.sourceA)) && Find(root, "sourceB") == Some(Str(s.sourceB))
    requires Find(root, "settings") == Some(SettingsValue(s)) && SettingsValue(s).Obj?
    requires StringOr(SettingsValue(s), "mode") == ModeName(s.mode) && ModeOf(ModeName(s.mode)) == Some(s.mode)
    requires GetBool(SettingsValue(s), "caseSensitive") == Some(s.caseSensitive)
    requires StringOr(SettingsValue(s), "backend") == s.backend
    requires VerifyOf(SettingsValue(s)) == Some(Verify(s.requested, s.effective, s.pattern, s.patternRandom, s.hashThreads))
             <==> 0 <= s.requested <= 100 && 0 <= s.effective <= 100 && s.hashThreads <= 4096
    requires StringOr(root, "state") == StateName(s.state) && StateOf(StateName(s.state)) == Some(s.state)
    requires SideOf(Find(root, "progressA")) == Some(s.progressA) <==> SideInRange(s.progressA)
    requires SideOf(Find(root, "progressB")) == Some(s.progressB) <==> SideInRange(s.progressB)
    requires StatsOf(Find(root, "stats")) == Some(s.stats) <==> StatsInRange(s.stats)
    requires Find(root, "checkpoint") == Some(CheckpointValue(s))
    requires GetNat(CheckpointValue(s), "seq") == NatOf(s.seqNo) && GetNat(CheckpointValue(s), "at") == NatOf(s.atUnix)
    requires RunMillisOf(root) == Some(s.runMillis) <==> s.runMillis <= MAX_RUN_MILLIS
    requires TrailerOf(Find(root, "journal")) == Some(t) <==> t.records <= MAX_INT64 && t.size <= MAX_INT64
    ensures ContextOf(root) == Loaded(s, t) <==> ReaderAccepts(s, t)
  {
    hide Int64, Find, StringOr, GetNat, GetBool, SettingsValue, CheckpointValue, ModeName, ModeOf, StateName, StateOf,
         VerifyOf, SideOf, StatsOf, TrailerOf, RunMillisOf, SideInRange, StatsInRange;
  }

  /** The file text that BuildContext wrote is read back, trailer included. */
  lemma ContextTextRoundTrip(s: Session, journalName: string, t: Trailer)
    ensures ParseContext(ContextText(s, journalName, t)) == Loaded(s, t) <==> ReaderAccepts(s, t)
  {
    ContextRoundTrip(s, journalName, t);
    ContextInRange(s, journalName, t);
    hide *;
    TextOf(s, journalName, t);
    SessionJsonRoundTrip.RoundTrip(ContextValue(s, journalName, t));
    ParseOf(ContextText(s, journalName, t), ContextValue(s, journalName, t));
  }

  lemma TextOf(s: Session, journalName: string, t: Trailer)
    ensures ContextText(s, journalName, t) == Text(ContextValue(s, journalName, t)) && ContextValue(s, journalName, t).Obj?
  {
    hide Text, StatsValue, SettingsValue, SideValue, CheckpointValue, JournalValue;
  }

  lemma ParseOf(text: string, root: Value)
    requires ParseText(text) == Some(root) && root.Obj?
    ensures ParseContext(text) == ContextOf(root)
  {
    hide ContextOf, ParseText;
  }

  lemma ContextInRange(s: Session, journalName: string, t: Trailer)
    ensures InRange(ContextValue(s, journalName, t))
  {
    hide Int64;
    BlocksInRange(s, journalName, t);
    hide StatsValue, SideValue, SettingsValue, CheckpointValue, JournalValue;
    assert forall n: nat :: InRange(Num(n));
  }

  lemma StatsValueInRange(st: Stats)
    ensures InRange(StatsValue(st))
  {
    hide Int64;
  }

  lemma SettingsInRange(s: Session)
    ensures InRange(SettingsValue(s))
  {
    hide Int64;
    assert InRange(VerifyValue(s));
  }

  lemma BlocksInRange(s: Session, journalName: string, t: Trailer)
    ensures InRange(StatsValue(s.stats)) && InRange(SideValue(s.progressA)) && InRange(SideValue(s.progressB))
    ensures InRange(SettingsValue(s)) && InRange(CheckpointValue(s)) && InRange(JournalValue(t, journalName))
  {
    hide Int64, StatsValue, SettingsValue;
    StatsValueInRange(s.stats);
    SettingsInRange(s);
  }
}
