/** The shared result sink, and the classification and hashing of matched pairs that write to it. */
module ConcurrentSink {
  import opened Wrappers
  import opened Bytes
  import opened Results
  import opened JournalStats
  import opened PartialRead
  import opened Classify
  import opened RunResult
  import opened ConcurrentRun

  class Sink {
    var stats: Stats
    var problems: seq<FileResult>
    /** Rows given to the row observer. */
    var captured: seq<ClassifiedRow>

    ghost function Value(): Result
      reads this
    {
      Result(stats, multiset(problems), multiset(captured))
    }

    constructor ()
      ensures Value() == NOTHING && problems == [] && captured == []
    {
      stats, problems, captured := ZERO, [], [];
    }

    /** Bump the counter of a verdict. */
    method Count(status: Status, isDirectory: bool)
      modifies this
      ensures stats == old(stats).Plus(RunCounters(status, isDirectory))
      ensures problems == old(problems) && captured == old(captured)
    {
      match status
      case ReadError => stats := stats.(readErrors := stats.readErrors + 1);
      case AccessDenied => stats := stats.(accessDenied := stats.accessDenied + 1);
      case ChangedDuringScan => stats := stats.(changedDuringScan := stats.changedDuringScan + 1);
      case _ => stats := CountVerdict(stats, status, isDirectory);
    }

    /** Bump the verdict's counter, append the problem if there is one, and show the row to the observer. */
    method Finish(a: FileEntry, b: FileEntry, v: Verdict)
      modifies this
      ensures Value() == old(Value()).Add(VerdictResult(a, b, v))
    {
      hide Stats.Plus, RunCounters, PairCapture;
      Count(v.status, v.isDirectory);
      if v.problem.Some? { problems := problems + [v.problem.value]; }
      captured := captured + [PairCapture(a, b, v)];
    }

    /** One entry was enumerated on one side. */
    method CountEntry(source: bool, e: FileEntry)
      modifies this
      ensures Value() == old(Value()).Add(SeenResult(source, e))
      ensures problems == old(problems) && captured == old(captured)
    {
      hide Stats.Plus, SideStats;
      stats := CountSide(stats, source, Some(ObservedOf(e)));
    }

    /** A source-only entry: directories are only counted here, files are reported at once. */
    method AddMissingCount(e: FileEntry)
      modifies this
      ensures Value() == old(Value()).Add(if e.isDirectory then One(ZERO.(missingDirs := 1), None, None) else MissingResult(e, false))
    {
      hide MissingRow, MissingCapture;
      if e.isDirectory {
        stats := stats.(missingDirs := stats.missingDirs + 1);
      } else {
        stats := stats.(missingFiles := stats.missingFiles + 1);
        problems := problems + [MissingRow(e)];
        captured := captured + [MissingCapture(e)];
      }
    }

    /** A destination-only entry: always counted, reported unless it is hidden by an entry below it. */
    method AddExtra(e: FileEntry, hidden: bool)
      modifies this
      ensures Value() == old(Value()).Add(ExtraResult(e, e.isDirectory && hidden))
    {
      hide ExtraRow, ExtraCapture;
      if e.isDirectory { stats := stats.(extraDirs := stats.extraDirs + 1); }
      else { stats := stats.(extraFiles := stats.extraFiles + 1); }
      if e.isDirectory && hidden { return; }
      problems := problems + [ExtraRow(e)];
      captured := captured + [ExtraCapture(e)];
    }

    method Report(row: FileResult, shown: ClassifiedRow)
      modifies this
      ensures Value() == old(Value()).Add(One(ZERO, Some(row), Some(shown)))
    {
      problems := problems + [row];
      captured := captured + [shown];
    }
  }

  /** ClassifyMatched: links by kind and target, then types, then the mode; a same-size file pair in Content mode
      is not final and is queued. */
  method ClassifyMatched(cfg: Config, a: FileEntry, b: FileEntry, sink: Sink, candidates: seq<Pair>)
    returns (queued: seq<Pair>)
    modifies sink
    ensures if IsCandidate(cfg, a, b) then queued == candidates + [Pair(a, b)] && sink.Value() == old(sink.Value())
            else queued == candidates && sink.Value() == old(sink.Value()).Add(PairResult(cfg, a, b))
  {
    hide VerdictResult, Result.Add, LinkVerdict, HashVerdict, MismatchRow;
    queued := candidates;
    if a.reparseKind != NotReparse || b.reparseKind != NotReparse {
      var v := DecideLinks(cfg, a, b);
      sink.Finish(a, b, v);
    } else if a.isDirectory && b.isDirectory {
      sink.Finish(a, b, Plain(Identical, true, None));
    } else if a.isDirectory != b.isDirectory {
      sink.Finish(a, b, Plain(SizeMismatch, false, Some(MismatchRow(a, b))));
    } else {
      match cfg.mode
      case Presence => sink.Finish(a, b, Plain(Identical, false, None));
      case Size =>
        if a.size == b.size { sink.Finish(a, b, Plain(Identical, false, None)); }
        else { sink.Finish(a, b, Plain(SizeMismatch, false, Some(MismatchRow(a, b)))); }
      case Content =>
        if a.size == b.size { queued := candidates + [Pair(a, b)]; }
        else { sink.Finish(a, b, Plain(SizeMismatch, false, Some(MismatchRow(a, b)))); }
    }
  }

  /** TryClassifyLinks, for a pair of which at least one side is a link. */
  method DecideLinks(cfg: Config, a: FileEntry, b: FileEntry) returns (v: Verdict)
    ensures v == LinkVerdict(cfg, a, b)
  {
    var row := LinkRow(Identical, a, b);
    if Unsupported(a.reparseKind) || Unsupported(b.reparseKind) {
      return Plain(ReadError, false, Some(row.(status := ReadError)));
    }
    if a.reparseKind != b.reparseKind {
      row := row.(status := SizeMismatch, sizeSource := a.size, sizeDest := b.size, isDirectory := a.isDirectory);
      return Plain(SizeMismatch, false, Some(row));
    }
    if a.linkTarget == [] || b.linkTarget == [] {
      return Plain(ReadError, false, Some(row.(status := ReadError)));
    }
    var ta, tb := cfg.normalizeSource(a.linkTarget), cfg.normalizeDest(b.linkTarget);
    if ta == tb { return Plain(Identical, a.isDirectory && b.isDirectory, None); }
    row := row.(status := ContentMismatch, isDirectory := a.isDirectory, sizeSource := |ta|, sizeDest := |tb|,
                hashSource := Some(cfg.sha(ta)), hashDest := Some(cfg.sha(tb)));
    v := Plain(ContentMismatch, false, Some(row));
  }

  /** HashOneCandidateInto, uncancelled: both sides are hashed under one plan and the outcome is folded in. */
  method HashOneCandidateInto(cfg: Config, p: Pair, sink: Sink)
    modifies sink
    ensures sink.Value() == old(sink.Value()).Add(VerdictResult(p.a, p.b, HashVerdict(cfg, CandidateOf(p.a, p.b))))
  {
    hide VerdictResult, Result.Add;
    var c := CandidateOf(p.a, p.b);
    var v := DecideHash(cfg, c);
    sink.Finish(p.a, p.b, v);
  }

  method DecideHash(cfg: Config, c: Candidate) returns (v: Verdict)
    ensures v == HashVerdict(cfg, c)
  {
    hide Plan;
    var plan := if !cfg.offline && cfg.percent < 100 then Plan(c.sizeSource, cfg.percent, cfg.pattern) else FULL;
    var eff := EffectiveLevel(plan, cfg.percent, cfg.pattern);
    var src := cfg.hashSource(c);
    var changed := !cfg.offline && src.changed;
    var dst := cfg.hashDest(c);
    if changed || dst.changed {
      return Plain(ChangedDuringScan, false, Some(HashRow(c, ChangedDuringScan, !dst.changed)));
    }
    var ha, hb := DigestOf(src.result), DigestOf(dst.result);
    if src.result.Digested? && dst.result.Digested? {
      if src.result.digest == dst.result.digest {
        if plan.isFullRead { return Verdict(Identical, false, None, ha, hb, 100, Edges); }
        return Verdict(IdenticalPartial, false, None, ha, hb, eff.percent, eff.pattern);
      }
      var row := HashRow(c, ContentMismatch, !cfg.offline).(hashSource := ha, hashDest := hb);
      if plan.isFullRead { return Verdict(ContentMismatch, false, Some(row), ha, hb, 100, Edges); }
      row := row.(status := ContentMismatchPartial, percent := eff.percent, pattern := eff.pattern);
      return Verdict(ContentMismatchPartial, false, Some(row), ha, hb, eff.percent, eff.pattern);
    }
    var denied := src.result.Denied? || dst.result.Denied?;
    var status := if denied then AccessDenied else ReadError;
    var row := HashRow(c, status, !src.result.Digested? && dst.result.Digested?).(hashSource := ha, hashDest := hb);
    v := Verdict(status, false, Some(row), ha, hb, 100, Edges);
  }
}
