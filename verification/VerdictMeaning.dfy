/** What the verdict on a pair means, without naming the functions that compute it. */
module VerdictMeaning {
  import opened Wrappers
  import opened Bytes
  import opened Results
  import opened JournalCodec
  import opened JournalStats
  import opened PartialRead
  import opened Classify

  // --- pairs of plain entries ---

  /** The status of a pair of plain entries by their types, their sizes and the mode; only same-size file pairs of a
      content comparison are left to their bytes. */
  lemma PlainPairMeans(cfg: Config, a: FileEntry, b: FileEntry)
    requires !IsLinkPair(a, b)
    ensures var v := PairVerdict(cfg, a, b);
            var files := !a.isDirectory && !b.isDirectory;
            var hashed := files && a.size == b.size && cfg.mode == Content;
            && (v.status == SizeMismatch <==> a.isDirectory != b.isDirectory || (files && a.size != b.size && cfg.mode != Presence))
            && (!hashed && v.status != SizeMismatch ==> v.status == Identical)
            && (v.isDirectory <==> a.isDirectory && b.isDirectory)
            && (v.problem.Some? <==> v.status != Identical && v.status != IdenticalPartial)
            && (v.problem.Some? ==> v.problem.value.status == v.status && v.problem.value.relativePath == b.relativePath
                                    && v.problem.value.sizeSource == a.size && v.problem.value.sizeDest == b.size)
            && (hashed ==> v == HashVerdict(cfg, CandidateOf(a, b)))
            && (!hashed ==> v.hashA == None && v.hashB == None && v.percent == 100)
  {
    hide PartialRead.Plan, EffectiveLevel;
  }

  // --- pairs with a link ---

  predicate Recreatable(k: ReparseKind) {
    k != UnknownReparse && k != OtherReparse
  }

  /** Links are compared by kind and then by normalised target, each side by its own root; what cannot be recreated or read is
      an error. Neither sizes nor bytes nor the mode matter. */
  lemma LinkPairMeans(cfg: Config, a: FileEntry, b: FileEntry)
    requires IsLinkPair(a, b)
    ensures var v := PairVerdict(cfg, a, b);
            var known, sameKind := Recreatable(a.reparseKind) && Recreatable(b.reparseKind), a.reparseKind == b.reparseKind;
            var readable := a.linkTarget != [] && b.linkTarget != [];
            var sameTarget := cfg.normalizeSource(a.linkTarget) == cfg.normalizeDest(b.linkTarget);
            && (v.status == SizeMismatch <==> known && !sameKind)
            && (v.status == Identical <==> known && sameKind && readable && sameTarget)
            && (v.status == ContentMismatch <==> known && sameKind && readable && !sameTarget)
            && (v.status == ReadError <==> !known || (sameKind && !readable))
            && (v.isDirectory <==> v.status == Identical && a.isDirectory && b.isDirectory)
            && v.hashA == None && v.hashB == None && v.percent == 100 && v.pattern == Edges
  {}

  /** The row of such a pair: both kinds and types; a digest of each normalised target where the targets differ. */
  lemma LinkRowMeans(cfg: Config, a: FileEntry, b: FileEntry)
    requires IsLinkPair(a, b)
    ensures var v := PairVerdict(cfg, a, b);
            && (v.problem.None? <==> v.status == Identical)
            && (v.problem.Some? ==>
                  var r := v.problem.value;
                  && r.status == v.status && r.relativePath == b.relativePath && !r.underSource
                  && r.srcReparseKind == a.reparseKind && r.reparseKind == b.reparseKind
                  && r.srcIsDirectory == a.isDirectory && r.dstIsDirectory == b.isDirectory
                  && (r.hashSource == if v.status == ContentMismatch then Some(cfg.sha(cfg.normalizeSource(a.linkTarget))) else None)
                  && (r.hashDest == if v.status == ContentMismatch then Some(cfg.sha(cfg.normalizeDest(b.linkTarget))) else None))
  {}

  // --- pairs decided by their bytes ---

  /** Both sides were read, and neither had changed; a snapshot's side cannot change. */
  predicate Settled(cfg: Config, c: Candidate) {
    (cfg.offline || !cfg.hashSource(c).changed) && !cfg.hashDest(c).changed
  }

  predicate BothRead(cfg: Config, c: Candidate) {
    cfg.hashSource(c).result.Digested? && cfg.hashDest(c).result.Digested?
  }

  predicate SameDigest(cfg: Config, c: Candidate)
    requires BothRead(cfg, c)
  {
    cfg.hashSource(c).result.digest == cfg.hashDest(c).result.digest
  }

  /** Less than the whole file is read: a live run with a percentage below 100, of which the blocks, at least one, do not
      cover a file of more than 2 MiB. */
  predicate ReadInPart(cfg: Config, c: Candidate) {
    !cfg.offline && cfg.percent < 100 && c.sizeSource > 2 * MIB
    && Wanted(c.sizeSource, if cfg.percent < 1 then 1 else cfg.percent) * MIB < c.sizeSource
  }

  /** Which status a candidate gets: every status if and only if its own condition holds. */
  lemma HashStatusMeans(cfg: Config, c: Candidate)
    requires c.sizeSource < TWO63
    ensures var s := HashVerdict(cfg, c).status;
            var compared := Settled(cfg, c) && BothRead(cfg, c);
            var denied := cfg.hashSource(c).result.Denied? || cfg.hashDest(c).result.Denied?;
            && (s == ChangedDuringScan <==> !Settled(cfg, c))
            && (s == AccessDenied <==> Settled(cfg, c) && denied)
            && (s == ReadError <==> Settled(cfg, c) && !BothRead(cfg, c) && !denied)
            && (s == Identical <==> compared && SameDigest(cfg, c) && !ReadInPart(cfg, c))
            && (s == IdenticalPartial <==> compared && SameDigest(cfg, c) && ReadInPart(cfg, c))
            && (s == ContentMismatch <==> compared && !SameDigest(cfg, c) && !ReadInPart(cfg, c))
            && (s == ContentMismatchPartial <==> compared && !SameDigest(cfg, c) && ReadInPart(cfg, c))
  {
    hide PartialRead.Plan, EffectiveLevel, Wanted;
    PlanForMeans(cfg, c);
  }

  /** Which level and which digests are recorded: the requested level where less than the whole file was read, a random
      pattern as the edges it stands for, and 100 percent otherwise; the digests that were obtained. */
  lemma HashRecordMeans(cfg: Config, c: Candidate)
    requires c.sizeSource < TWO63
    ensures var v := HashVerdict(cfg, c);
            var compared := Settled(cfg, c) && BothRead(cfg, c);
            && (compared && ReadInPart(cfg, c) ==>
                  v.percent == cfg.percent && v.pattern == (if cfg.pattern == Center then Center else Edges))
            && (!(compared && ReadInPart(cfg, c)) ==> v.percent == 100 && v.pattern == Edges)
            && (v.hashA.Some? <==> Settled(cfg, c) && cfg.hashSource(c).result.Digested?)
            && (v.hashB.Some? <==> Settled(cfg, c) && cfg.hashDest(c).result.Digested?)
            && (v.hashA.Some? ==> v.hashA.value == cfg.hashSource(c).result.digest)
            && (v.hashB.Some? ==> v.hashB.value == cfg.hashDest(c).result.digest)
            && !v.isDirectory
  {
    hide PartialRead.Plan, Wanted;
    PlanForMeans(cfg, c);
  }

  /** Which row is reported: none for equal digests; otherwise with the candidate's sizes and the verdict's digests and
      level, under the root of the side that changed, could not be read, or serves as the reference. */
  lemma HashRowMeans(cfg: Config, c: Candidate)
    requires c.sizeSource < TWO63
    ensures var v := HashVerdict(cfg, c);
            && (v.problem.None? <==> v.status == Identical || v.status == IdenticalPartial)
            && (v.problem.Some? ==>
                  var r := v.problem.value;
                  && r.status == v.status && r.relativePath == c.path && r.sizeSource == c.sizeSource && r.sizeDest == c.sizeDest
                  && r.hashSource == v.hashA && r.hashDest == v.hashB && r.percent == v.percent && r.pattern == v.pattern
                  && !r.isDirectory && !r.srcIsDirectory && !r.dstIsDirectory
                  && r.srcReparseKind == NotReparse && r.reparseKind == NotReparse
                  && (r.underSource <==> match v.status
                                         case ChangedDuringScan => !cfg.hashDest(c).changed
                                         case ReadError => !cfg.hashSource(c).result.Digested? && cfg.hashDest(c).result.Digested?
                                         case AccessDenied => !cfg.hashSource(c).result.Digested? && cfg.hashDest(c).result.Digested?
                                         case _ => !cfg.offline))
  {
    hide PartialRead.Plan, Wanted;
    PlanForMeans(cfg, c);
  }

  /** The plan of a candidate: a partial one if and only if less than the whole file is read, and then of exactly the wanted
      number of MiB. */
  lemma PlanForMeans(cfg: Config, c: Candidate)
    requires c.sizeSource < TWO63
    ensures PlanFor(cfg, c).isFullRead <==> !ReadInPart(cfg, c)
    ensures ReadInPart(cfg, c) ==>
              var p := if cfg.percent < 1 then 1 else cfg.percent;
              GoodBlocks(PlanFor(cfg, c), c.sizeSource, Wanted(c.sizeSource, p), cfg.pattern)
  {
    hide Target, RoundHalfUp, GoodBlocks, WholeMibs;
    if !cfg.offline && cfg.percent < 100 {
      var p := if cfg.percent < 1 then 1 else cfg.percent;
      assert PartialRead.Plan(c.sizeSource, cfg.percent, cfg.pattern) == PartialRead.Plan(c.sizeSource, p, cfg.pattern);
      PlanShape(c.sizeSource, p, cfg.pattern);
    }
  }

  /** Of a file of the candidate's size, the plan covers everything, or exactly the wanted number of MiB and not all. */
  lemma CoverageMeans(cfg: Config, c: Candidate, file: bytes)
    requires |file| == c.sizeSource && c.sizeSource < TWO63
    ensures !ReadInPart(cfg, c) ==> Covered(file, PlanFor(cfg, c)) == file
    ensures ReadInPart(cfg, c) ==>
              |Covered(file, PlanFor(cfg, c))| == Wanted(c.sizeSource, if cfg.percent < 1 then 1 else cfg.percent) * MIB < |file|
  {
    hide PlanFor, Wanted;
    PlanForMeans(cfg, c);
  }

  // --- from digests to contents ---

  /** The digests are those of the covered bytes of the two files, and those bytes do not collide. */
  predicate HashesCovered(cfg: Config, c: Candidate, src: bytes, dst: bytes) {
    var x, y := Covered(src, PlanFor(cfg, c)), Covered(dst, PlanFor(cfg, c));
    && cfg.hashSource(c) == SideHash(Digested(cfg.sha(x)), false) && cfg.hashDest(c) == SideHash(Digested(cfg.sha(y)), false)
    && (cfg.sha(x) == cfg.sha(y) ==> x == y)
  }

  /** Two files of one size: the full verdicts say whether they are equal, the partial ones whether their planned parts
      are; equal files are never reported as different. */
  lemma VerdictOnContents(cfg: Config, c: Candidate, src: bytes, dst: bytes)
    requires |src| == |dst| == c.sizeSource && c.sizeSource < TWO63 && HashesCovered(cfg, c, src, dst)
    ensures var s, plan := HashVerdict(cfg, c).status, PlanFor(cfg, c);
            && (s == Identical || s == ContentMismatch || s == IdenticalPartial || s == ContentMismatchPartial)
            && (s == Identical ==> src == dst) && (s == ContentMismatch ==> src != dst)
            && (s == IdenticalPartial ==> Covered(src, plan) == Covered(dst, plan))
            && (s == ContentMismatchPartial ==> src != dst)
            && (src == dst ==> s == Identical || s == IdenticalPartial)
  {
    hide HashVerdict, PlanFor, Covered, ReadInPart;
    HashStatusMeans(cfg, c);
    CoverageMeans(cfg, c, src);
    CoverageMeans(cfg, c, dst);
  }
}
