/** The context file field by field: which texts are accepted, and as what. */
module ContextMeaning {
  import opened Wrappers
  import opened Bytes
  import opened Results
  import opened SessionJson
  import opened SessionContext

  /** The object has the field with this value. */
  predicate Has(v: Value, k: string, w: Value) {
    v.Obj? && k in v.obj && v.obj[k] == w
  }

  predicate HasInt(v: Value, k: string, n: int) {
    Has(v, k, Int(n)) && n >= 0
  }

  predicate HasObj(v: Value, k: string) {
    v.Obj? && k in v.obj && v.obj[k].Obj?
  }

  predicate SaysSide(v: Value, p: SideProgress) {
    HasInt(v, "files", p.files) && HasInt(v, "dirs", p.dirs) && HasInt(v, "bytes", p.size)
  }

  predicate SaysStats(v: Value, st: Stats) {
    && HasInt(v, "sourceFiles", st.sourceFiles) && HasInt(v, "sourceDirs", st.sourceDirs)
    && HasInt(v, "destFiles", st.destFiles) && HasInt(v, "destDirs", st.destDirs)
    && HasInt(v, "identicalFiles", st.identicalFiles) && HasInt(v, "identicalDirs", st.identicalDirs)
    && HasInt(v, "missingFiles", st.missingFiles) && HasInt(v, "missingDirs", st.missingDirs)
    && HasInt(v, "extraFiles", st.extraFiles) && HasInt(v, "extraDirs", st.extraDirs)
    && HasInt(v, "sizeMismatch", st.sizeMismatch) && HasInt(v, "contentMismatch", st.contentMismatch)
    && HasInt(v, "identicalPartialFiles", st.identicalPartialFiles)
    && HasInt(v, "contentMismatchPartial", st.contentMismatchPartial)
    && HasInt(v, "readErrors", st.readErrors) && HasInt(v, "accessDenied", st.accessDenied)
    && HasInt(v, "changedDuringScan", st.changedDuringScan)
    && HasInt(v, "bytesSource", st.bytesSource) && HasInt(v, "bytesDest", st.bytesDest)
  }

  const MODES: map<string, ScanMode> := map["presence" := Presence, "size" := Size, "content" := Content]
  const PATTERNS: map<string, PartialPattern> := map["edges" := Edges, "center" := Center, "random" := Random]
  const STATES: map<string, SessionState> :=
    map["in_progress" := InProgress, "checkpointed" := Checkpointed, "interrupted" := Interrupted, "completed" := Completed]

  /** The string under a key is the name of this value. */
  predicate HasName<T(==)>(v: Value, k: string, names: map<string, T>, t: T) {
    v.Obj? && k in v.obj && v.obj[k].Str? && v.obj[k].str in names && names[v.obj[k].str] == t
  }

  predicate SaysVerify(settings: Value, s: Verify) {
    && HasObj(settings, "verify")
    && HasInt(settings.obj["verify"], "requested", s.requested) && s.requested <= 100
    && HasInt(settings.obj["verify"], "effective", s.effective) && s.effective <= 100
    && HasName(settings.obj["verify"], "pattern", PATTERNS, s.pattern) && Has(settings.obj["verify"], "random", Bool(s.patternRandom))
    && HasInt(settings, "hashThreads", s.hashThreads) && s.hashThreads <= 4096
  }

  predicate SaysTrailer(v: Value, t: Trailer) {
    && HasObj(v, "journal")
    && HasInt(v.obj["journal"], "records", t.records) && HasInt(v.obj["journal"], "bytes", t.size)
    && HasInt(v.obj["journal"], "crc32", t.crc)
  }

  // --- the parts ---

  lemma NatMeans(v: Value, k: string, n: nat)
    ensures GetNat(v, k) == Some(n) <==> HasInt(v, k, n)
  {}

  lemma IntMeans(v: Value, k: string, n: int)
    ensures GetNat(v, k).Some? && GetNat(v, k).value == n <==> HasInt(v, k, n)
  {}

  lemma SideMeans(f: Option<Value>, p: SideProgress)
    ensures SideOf(f) == Some(p) <==> f.Some? && SaysSide(f.value, p)
  {
    hide GetNat, HasInt;
    if f.Some? {
      NatMeans(f.value, "files", p.files);
      NatMeans(f.value, "dirs", p.dirs);
      NatMeans(f.value, "bytes", p.size);
    }
  }

  lemma NamesMean(v: Value, k: string, m: ScanMode, p: PartialPattern, s: SessionState)
    ensures ModeOf(StringOr(v, k)) == Some(m) <==> HasName(v, k, MODES, m)
    ensures PatternOf(StringOr(v, k)) == Some(p) <==> HasName(v, k, PATTERNS, p)
    ensures StateOf(StringOr(v, k)) == Some(s) <==> HasName(v, k, STATES, s)
  {}

  lemma StatsMeans(f: Option<Value>, st: Stats)
    ensures StatsOf(f) == Some(st) <==> f.Some? && SaysStats(f.value, st)
  {
    hide GetNat, HasInt;
    if f.Some? {
      NatMeans(f.value, "sourceFiles", st.sourceFiles);
      NatMeans(f.value, "sourceDirs", st.sourceDirs);
      NatMeans(f.value, "destFiles", st.destFiles);
      NatMeans(f.value, "destDirs", st.destDirs);
      NatMeans(f.value, "identicalFiles", st.identicalFiles);
      NatMeans(f.value, "identicalDirs", st.identicalDirs);
      NatMeans(f.value, "missingFiles", st.missingFiles);
      NatMeans(f.value, "missingDirs", st.missingDirs);
      NatMeans(f.value, "extraFiles", st.extraFiles);
      NatMeans(f.value, "extraDirs", st.extraDirs);
      NatMeans(f.value, "sizeMismatch", st.sizeMismatch);
      NatMeans(f.value, "contentMismatch", st.contentMismatch);
      NatMeans(f.value, "identicalPartialFiles", st.identicalPartialFiles);
      NatMeans(f.value, "contentMismatchPartial", st.contentMismatchPartial);
      NatMeans(f.value, "readErrors", st.readErrors);
      NatMeans(f.value, "accessDenied", st.accessDenied);
      NatMeans(f.value, "changedDuringScan", st.changedDuringScan);
      NatMeans(f.value, "bytesSource", st.bytesSource);
      NatMeans(f.value, "bytesDest", st.bytesDest);
    }
  }

  lemma VerifyMeans(settings: Value, s: Verify)
    ensures VerifyOf(settings) == Some(s) <==> SaysVerify(settings, s)
  {
    hide GetNat, HasInt, PatternOf, HasName;
    NatMeans(settings, "hashThreads", s.hashThreads);
    if HasObj(settings, "verify") {
      var v := settings.obj["verify"];
      IntMeans(v, "requested", s.requested);
      IntMeans(v, "effective", s.effective);
      NamesMean(v, "pattern", Content, s.pattern, Completed);
    }
  }

  lemma TrailerMeans(root: Value, t: Trailer)
    ensures TrailerOf(Find(root, "journal")) == Some(t) <==> SaysTrailer(root, t)
  {
    hide GetNat, HasInt;
    if HasObj(root, "journal") {
      var v := root.obj["journal"];
      NatMeans(v, "records", t.records);
      NatMeans(v, "bytes", t.size);
      NatMeans(v, "crc32", t.crc);
    }
  }

  // --- the whole context ---

  predicate SaysHead(root: Value, s: Session) {
    && Has(root, "magic", Str("BVSS")) && Has(root, "schema", Int(1)) && s.schemaVersion == 1
    && Has(root, "sessionId", Str(s.sessionId)) && s.sessionId != "" && HasInt(root, "createdAt", s.createdAt)
    && Has(root, "sourceA", Str(s.sourceA)) && Has(root, "sourceB", Str(s.sourceB))
  }

  predicate SaysSettings(root: Value, s: Session) {
    && HasObj(root, "settings") && HasName(root.obj["settings"], "mode", MODES, s.mode)
    && Has(root.obj["settings"], "caseSensitive", Bool(s.caseSensitive))
    && Has(root.obj["settings"], "backend", Str(s.backend)) && s.backend != ""
    && SaysVerify(root.obj["settings"], Verify(s.requested, s.effective, s.pattern, s.patternRandom, s.hashThreads))
    && HasName(root, "state", STATES, s.state)
  }

  predicate SaysProgress(root: Value, s: Session) {
    && root.Obj? && "progressA" in root.obj && SaysSide(root.obj["progressA"], s.progressA)
    && "progressB" in root.obj && SaysSide(root.obj["progressB"], s.progressB)
    && "stats" in root.obj && SaysStats(root.obj["stats"], s.stats)
    && "checkpoint" in root.obj && HasInt(root.obj["checkpoint"], "seq", s.seqNo) && HasInt(root.obj["checkpoint"], "at", s.atUnix)
    && (if "runMillis" in root.obj then HasInt(root, "runMillis", s.runMillis) && s.runMillis <= MAX_RUN_MILLIS else s.runMillis == 0)
  }

  /** The first thing that is wrong decides the error: a string in place of the magic word, then a newer schema. */
  lemma ErrorsMean(root: Value)
    ensures ContextOf(root) == Rejected(MagicMismatch) <==>
            root.Obj? && "magic" in root.obj && root.obj["magic"].Str? && root.obj["magic"].str != "BVSS"
    ensures ContextOf(root) == Rejected(VersionMismatch) <==>
            Has(root, "magic", Str("BVSS")) && "schema" in root.obj && root.obj["schema"].Int? && root.obj["schema"].integer > 1
  {
    hide SideOf, StatsOf, VerifyOf, TrailerOf, RunMillisOf, GetNat, StringOr, GetBool, ModeOf, StateOf;
  }

  lemma MillisMeans(root: Value, n: nat)
    requires root.Obj?
    ensures RunMillisOf(root) == Some(n) <==>
            if "runMillis" in root.obj then HasInt(root, "runMillis", n) && n <= MAX_RUN_MILLIS else n == 0
  {}

  /** A context is accepted, and as what: exactly if every field is there under its name, with its type and range. */
  lemma ContextMeans(root: Value, s: Session, t: Trailer)
    ensures ContextOf(root) == Loaded(s, t) <==>
            SaysHead(root, s) && SaysSettings(root, s) && SaysProgress(root, s) && SaysTrailer(root, t)
  {
    hide SideOf, StatsOf, VerifyOf, TrailerOf, RunMillisOf, GetNat, ModeOf, StateOf, HasInt, HasName, SaysSide, SaysStats, SaysVerify,
         SaysTrailer;
    if root.Obj? {
      NatMeans(root, "createdAt", s.createdAt);
      NamesMean(root, "state", Content, Edges, s.state);
      SideMeans(Find(root, "progressA"), s.progressA);
      SideMeans(Find(root, "progressB"), s.progressB);
      StatsMeans(Find(root, "stats"), s.stats);
      TrailerMeans(root, t);
      MillisMeans(root, s.runMillis);
      if HasObj(root, "settings") {
        var v := root.obj["settings"];
        NamesMean(v, "mode", s.mode, Edges, Completed);
        VerifyMeans(v, Verify(s.requested, s.effective, s.pattern, s.patternRandom, s.hashThreads));
      }
      if "checkpoint" in root.obj {
        NatMeans(root.obj["checkpoint"], "seq", s.seqNo);
        NatMeans(root.obj["checkpoint"], "at", s.atUnix);
      }
    }
  }
}
