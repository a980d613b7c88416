/** The verdict on a matched pair of entries, and the report rows of every kind of difference. */
module Classify {
  import opened Wrappers
  import opened Bytes
  import opened Results
  import opened JournalCodec
  import opened JournalStats
  import opened PartialRead

  /** One reported difference. The absolute path is the relative one under the source or the destination root. */
  datatype FileResult = FileResult(
    status: Status, relativePath: Path, underSource: bool, sizeSource: nat, sizeDest: nat,
    isDirectory: bool, reparseKind: ReparseKind,
    srcIsDirectory: bool, srcReparseKind: ReparseKind, dstIsDirectory: bool,
    hashSource: Option<Digest>, hashDest: Option<Digest>, percent: i32, pattern: PartialPattern)

  /** A same-size file pair whose contents have to be compared. */
  datatype Candidate = Candidate(path: Path, sizeSource: u64, sizeDest: u64, srcMtime: u64, dstMtime: u64)

  datatype Hashed = Digested(digest: Digest) | Unreadable | Denied

  /** What hashing one side of a candidate gave, and whether the file had changed since it was enumerated. */
  datatype SideHash = SideHash(result: Hashed, changed: bool)

  /** A run: its settings, and the outside world as functions of the entries. */
  datatype Config = Config(
    mode: ScanMode, caseSensitive: bool, fold: Path -> Path,
    normalizeSource: bytes -> bytes, normalizeDest: bytes -> bytes, sha: bytes -> Digest,
    hashSource: Candidate -> SideHash, hashDest: Candidate -> SideHash,
    offline: bool, percent: i32, pattern: PartialPattern)

  /** The key that pairs entries of the two sides. */
  function KeyOf(cfg: Config, e: FileEntry): Path {
    if cfg.caseSensitive then e.relativePath else cfg.fold(e.relativePath)
  }

  /** A verdict, the difference to report if there is one, and what the captured row carries. */
  datatype Verdict = Verdict(
    status: Status, isDirectory: bool, problem: Option<FileResult>,
    hashA: Option<Digest>, hashB: Option<Digest>, percent: i32, pattern: PartialPattern)

  function Plain(status: Status, isDirectory: bool, problem: Option<FileResult>): Verdict {
    Verdict(status, isDirectory, problem, None, None, 100, Edges)
  }

  // --- links ---

  predicate IsLinkPair(a: FileEntry, b: FileEntry) {
    a.reparseKind != NotReparse || b.reparseKind != NotReparse
  }

  predicate Unsupported(k: ReparseKind) {
    k == UnknownReparse || k == OtherReparse
  }

  function LinkRow(status: Status, a: FileEntry, b: FileEntry): FileResult {
    FileResult(status, b.relativePath, false, 0, 0, false, b.reparseKind,
               a.isDirectory, a.reparseKind, b.isDirectory, None, None, 100, Edges)
  }

  /** Links are compared by kind and target, never by content. */
  function LinkVerdict(cfg: Config, a: FileEntry, b: FileEntry): Verdict {
    if Unsupported(a.reparseKind) || Unsupported(b.reparseKind) then
      Plain(ReadError, false, Some(LinkRow(ReadError, a, b)))
    else if a.reparseKind != b.reparseKind then
      Plain(SizeMismatch, false,
            Some(LinkRow(SizeMismatch, a, b).(sizeSource := a.size, sizeDest := b.size, isDirectory := a.isDirectory)))
    else if a.linkTarget == [] || b.linkTarget == [] then
      Plain(ReadError, false, Some(LinkRow(ReadError, a, b)))
    else
      var ta, tb := cfg.normalizeSource(a.linkTarget), cfg.normalizeDest(b.linkTarget);
      if ta == tb then Plain(Identical, a.isDirectory && b.isDirectory, None)
      else
        Plain(ContentMismatch, false,
              Some(LinkRow(ContentMismatch, a, b).(
                     isDirectory := a.isDirectory, sizeSource := |ta|, sizeDest := |tb|,
                     hashSource := Some(cfg.sha(ta)), hashDest := Some(cfg.sha(tb)))))
  }

  // --- content ---

  function CandidateOf(a: FileEntry, b: FileEntry): Candidate {
    Candidate(b.relativePath, a.size, b.size, a.mtime, b.mtime)
  }

  /** The pair is decided by the hash phase. */
  predicate IsCandidate(cfg: Config, a: FileEntry, b: FileEntry) {
    !IsLinkPair(a, b) && !a.isDirectory && !b.isDirectory && cfg.mode == Content && a.size == b.size
  }

  /** The row of a candidate, before digests and level are filled in. */
  function HashRow(c: Candidate, status: Status, underSource: bool): FileResult {
    FileResult(status, c.path, underSource, c.sizeSource, c.sizeDest, false, NotReparse,
               false, NotReparse, false, None, None, 100, Edges)
  }

  function DigestOf(h: Hashed): Option<Digest> {
    if h.Digested? then Some(h.digest) else None
  }

  function PlanFor(cfg: Config, c: Candidate): ReadPlan {
    if !cfg.offline && cfg.percent < 100 then Plan(c.sizeSource, cfg.percent, cfg.pattern) else FULL
  }

  /** The verdict of the hash phase: a changed file decides first, then equal or different digests under the level
      that was actually applied, then read errors. */
  function HashVerdict(cfg: Config, c: Candidate): Verdict {
    var plan := PlanFor(cfg, c);
    var eff := EffectiveLevel(plan, cfg.percent, cfg.pattern);
    var src, dst := cfg.hashSource(c), cfg.hashDest(c);
    if (!cfg.offline && src.changed) || dst.changed then
      Plain(ChangedDuringScan, false, Some(HashRow(c, ChangedDuringScan, !dst.changed)))
    else if src.result.Digested? && dst.result.Digested? then
      var ha, hb := Some(src.result.digest), Some(dst.result.digest);
      if src.result.digest == dst.result.digest then
        if plan.isFullRead then Verdict(Identical, false, None, ha, hb, 100, Edges)
        else Verdict(IdenticalPartial, false, None, ha, hb, eff.percent, eff.pattern)
      else
        var status := if plan.isFullRead then ContentMismatch else ContentMismatchPartial;
        var pct, pat := if plan.isFullRead then 100 else eff.percent, if plan.isFullRead then Edges else eff.pattern;
        var row := HashRow(c, status, !cfg.offline).(hashSource := ha, hashDest := hb, percent := pct, pattern := pat);
        Verdict(status, false, Some(row), ha, hb, pct, pat)
    else
      var status := if src.result.Denied? || dst.result.Denied? then AccessDenied else ReadError;
      var ha, hb := DigestOf(src.result), DigestOf(dst.result);
      var row := HashRow(c, status, !src.result.Digested? && dst.result.Digested?).(hashSource := ha, hashDest := hb);
      Verdict(status, false, Some(row), ha, hb, 100, Edges)
  }

  // --- pairs ---

  function MismatchRow(a: FileEntry, b: FileEntry): FileResult {
    FileResult(SizeMismatch, b.relativePath, false, a.size, b.size, a.isDirectory, NotReparse,
               a.isDirectory, NotReparse, b.isDirectory, None, None, 100, Edges)
  }

  /** The verdict on a matched pair, under every mode. */
  function PairVerdict(cfg: Config, a: FileEntry, b: FileEntry): Verdict {
    if IsLinkPair(a, b) then LinkVerdict(cfg, a, b)
    else if a.isDirectory && b.isDirectory then Plain(Identical, true, None)
    else if a.isDirectory != b.isDirectory then Plain(SizeMismatch, false, Some(MismatchRow(a, b)))
    else if cfg.mode == Presence then Plain(Identical, false, None)
    else if a.size != b.size then Plain(SizeMismatch, false, Some(MismatchRow(a, b)))
    else if cfg.mode == Size then Plain(Identical, false, None)
    else HashVerdict(cfg, CandidateOf(a, b))
  }

  function ObservedOf(e: FileEntry): Observed {
    Observed(e.size, e.mtime, e.isDirectory)
  }

  /** The captured row of a matched pair. */
  function PairCapture(a: FileEntry, b: FileEntry, v: Verdict): ClassifiedRow {
    ClassifiedRow(b.relativePath, Some(ObservedOf(a)), Some(ObservedOf(b)), v.status, v.hashA, v.hashB,
                  v.percent, v.pattern, v.isDirectory)
  }

  /** The counter a verdict bumps while a run goes on; error verdicts have counters of their own. */
  function RunCounters(status: Status, isDirectory: bool): Stats {
    match status
    case ReadError => ZERO.(readErrors := 1)
    case AccessDenied => ZERO.(accessDenied := 1)
    case ChangedDuringScan => ZERO.(changedDuringScan := 1)
    case _ => VerdictStats(status, isDirectory)
  }

  // --- one-sided entries ---

  function MissingRow(e: FileEntry): FileResult {
    FileResult(Missing, e.relativePath, true, if e.isDirectory then 0 else e.size, 0, e.isDirectory, e.reparseKind,
               e.isDirectory, e.reparseKind, false, None, None, 100, Edges)
  }

  function ExtraRow(e: FileEntry): FileResult {
    FileResult(Extra, e.relativePath, false, 0, e.size, e.isDirectory, e.reparseKind,
               false, NotReparse, e.isDirectory, None, None, 100, Edges)
  }

  function MissingCapture(e: FileEntry): ClassifiedRow {
    ClassifiedRow(e.relativePath, Some(ObservedOf(e)), None, Missing, None, None, 100, Edges, e.isDirectory)
  }

  function ExtraCapture(e: FileEntry): ClassifiedRow {
    ClassifiedRow(e.relativePath, None, Some(ObservedOf(e)), Extra, None, None, 100, Edges, e.isDirectory)
  }
}
