/**
 The match table with its locks, its counters and its one-sided throttle, as atomic micro-steps of two workers over the
 concurrent run: shard locks, one condition variable with its mutex, the wake-up predicate read flag by flag, and the
 counters updated one after the other inside the shard's critical section.
 */
module Backpressure {
  import opened Wrappers
  import opened Bytes
  import opened Results
  import opened Classify
  import opened RunResult
  import opened ConcurrentRun
  import opened MatchTable

  datatype Setup = Setup(cfg: Config, highWater: nat, shardOf: Path -> nat)

  /** Where a worker is in insert or setSideDone; source only: the throttle park, from WantCv to Woken. */
  datatype PC =
    | Idle
    | WantCv | EvalPending | EvalDone | EvalCancel | Asleep | Woken
    | WantShard | InShard
    | StoredEntry | Tallied | Erased(peer: bool) | Untallied(peer: bool) | Leaving(matched: bool)
    | WantNotify | Notifying | Classifying
    | Finishing | WantNotifyAll | NotifyingAll | Finished

  datatype Worker = Worker(pc: PC, key: Path)

  datatype Machine = Machine(
    run: ConcurrentRun.State, src: Worker, dst: Worker, pending: int, pendingSource: int, pendingDest: int,
    sourceDone: bool, destDone: bool, cancel: bool)

  ghost function Start(a: seq<FileEntry>, b: seq<FileEntry>): Machine {
    Machine(ConcurrentRun.Start(a, b), Worker(Idle, []), Worker(Idle, []), 0, 0, 0, false, false, false)
  }

  /** The worker holds the mutex of the condition variable. */
  predicate HoldsCv(pc: PC) {
    pc.EvalPending? || pc.EvalDone? || pc.EvalCancel? || pc.Notifying? || pc.NotifyingAll?
  }

  /** The worker holds the lock of its key's shard. */
  predicate HoldsShard(pc: PC) {
    pc.InShard? || pc.StoredEntry? || pc.Tallied? || pc.Erased? || pc.Untallied? || pc.Leaving?
  }

  predicate Parking(pc: PC) {
    pc.WantCv? || pc.EvalPending? || pc.EvalDone? || pc.EvalCancel? || pc.Asleep? || pc.Woken?
  }

  /** The worker has an entry that is not in the table yet. */
  predicate Inserting(pc: PC) {
    Parking(pc) || pc.WantShard? || pc.InShard?
  }

  /** The worker has taken a peer out of the table and not classified the pair. */
  predicate Carrying(pc: PC) {
    pc.Erased? || pc.Untallied? || pc == Leaving(true) || pc.WantNotify? || pc.Notifying? || pc.Classifying?
  }

  predicate Ending(pc: PC) {
    pc.Finishing? || pc.WantNotifyAll? || pc.NotifyingAll? || pc.Finished?
  }

  ghost function Of(s: Machine, source: bool): Worker {
    if source then s.src else s.dst
  }

  ghost function Left(s: Machine, source: bool): seq<FileEntry> {
    if source then s.run.srcLeft else s.run.dstLeft
  }

  ghost function Hold(s: Machine, source: bool): Option<Pair> {
    if source then s.run.holdA else s.run.holdB
  }

  ghost function At(s: Machine, source: bool, pc: PC): Machine {
    if source then s.(src := s.src.(pc := pc)) else s.(dst := s.dst.(pc := pc))
  }

  /** notify_one and notify_all: only the source worker ever sleeps. */
  ghost function Notify(s: Machine): Machine {
    if s.src.pc.Asleep? then At(s, true, Woken) else s
  }

  ghost function Tally(s: Machine, side: bool, n: int): Machine {
    if side then s.(pendingSource := s.pendingSource + n) else s.(pendingDest := s.pendingDest + n)
  }

  ghost predicate ShardTaken(p: Setup, s: Machine, source: bool) {
    HoldsShard(Of(s, !source).pc) && p.shardOf(Of(s, !source).key) == p.shardOf(Of(s, source).key)
  }

  ghost function DoneOf(s: Machine, source: bool): bool {
    if source then s.sourceDone else s.destDone
  }

  /** A worker has the entries, the pair and the flag that its place calls for. */
  ghost predicate Fits(cfg: Config, source: bool, w: Worker, left: seq<FileEntry>, hold: Option<Pair>, done: bool, cancel: bool) {
    && (Inserting(w.pc) ==> left != [] && w.key == KeyOf(cfg, left[0]))
    && (hold.Some? <==> Carrying(w.pc))
    && (Parking(w.pc) ==> source)
    && (Ending(w.pc) ==> left == [] || cancel)
    && (done <==> Ending(w.pc) && !w.pc.Finishing?)
  }

  ghost predicate Shape(p: Setup, s: Machine, source: bool) {
    Fits(p.cfg, source, Of(s, source), Left(s, source), Hold(s, source), DoneOf(s, source), s.cancel)
  }

  /** The find under the shard lock, and what it leads to. */
  ghost function Found(p: Setup, s: Machine, source: bool): Machine
    requires Shape(p, s, source) && Of(s, source).pc.InShard?
  {
    var o := InsertOutcome(s.run.table, Of(s, source).key, source);
    var pc := if o.Inserted? then StoredEntry else if o.Replaced? then Leaving(false) else Erased(!source);
    At(s.(run := if source then EmitSource(p.cfg, s.run) else EmitDest(p.cfg, s.run)), source, pc)
  }

  predicate Throttling(pc: PC) {
    pc.Idle? || Parking(pc)
  }

  predicate InSection(pc: PC) {
    pc.WantShard? || (HoldsShard(pc) && !pc.InShard?)
  }

  predicate Releasing(pc: PC) {
    pc.WantNotify? || pc.Notifying? || Ending(pc)
  }

  /** insert before the shard lock: the throttle, its predicate evaluated under the mutex, and the park. */
  ghost function Throttle(p: Setup, s: Machine, source: bool): Option<Machine>
    requires Shape(p, s, source) && Throttling(Of(s, source).pc)
  {
    var other := Of(s, !source).pc;
    match Of(s, source).pc
    case Idle =>
      if Left(s, source) == [] || s.cancel then Some(At(s, source, Finishing))
      else
        var w := Worker(if source && s.pending >= p.highWater then WantCv else WantShard, KeyOf(p.cfg, Left(s, source)[0]));
        Some(if source then s.(src := w) else s.(dst := w))
    case WantCv => if HoldsCv(other) then None else Some(At(s, source, EvalPending))
    case EvalPending => Some(At(s, source, if s.pending < p.highWater then WantShard else EvalDone))
    case EvalDone => Some(At(s, source, if s.destDone then WantShard else EvalCancel))
    case EvalCancel => Some(At(s, source, if s.cancel then WantShard else Asleep))
    case Asleep => None
    case Woken => if HoldsCv(other) then None else Some(At(s, source, EvalPending))
  }

  /** The rest of insert's critical section, after the find. */
  ghost function Section(p: Setup, s: Machine, source: bool): Option<Machine>
    requires InSection(Of(s, source).pc)
  {
    match Of(s, source).pc
    case WantShard => if ShardTaken(p, s, source) then None else Some(At(s, source, InShard))
    case StoredEntry => Some(At(s.(pending := s.pending + 1), source, Tallied))
    case Tallied => Some(At(Tally(s, source, 1), source, Leaving(false)))
    case Erased(peer) => Some(At(s.(pending := s.pending - 1), source, Untallied(peer)))
    case Untallied(peer) => Some(At(Tally(s, peer, -1), source, Leaving(true)))
    case Leaving(matched) => Some(At(s, source, if matched then WantNotify else Idle))
  }

  ghost function ClassifyHeld(p: Setup, s: Machine, source: bool): Machine
    requires Shape(p, s, source) && Of(s, source).pc.Classifying?
  {
    At(s.(run := if source then ClassifySource(p.cfg, s.run) else ClassifyDest(p.cfg, s.run)), source, Idle)
  }

  /** The notification after a match, and setSideDone. */
  ghost function Release(p: Setup, s: Machine, source: bool): Option<Machine>
    requires Shape(p, s, source) && Releasing(Of(s, source).pc)
  {
    var other := Of(s, !source).pc;
    match Of(s, source).pc
    case WantNotify => if HoldsCv(other) then None else Some(At(s, source, Notifying))
    case Notifying => Some(At(Notify(s), source, Classifying))
    case Finishing =>
      Some(At(if source then s.(sourceDone := true) else s.(destDone := true), source, WantNotifyAll))
    case WantNotifyAll => if HoldsCv(other) then None else Some(At(s, source, NotifyingAll))
    case NotifyingAll => Some(At(Notify(s), source, Finished))
    case Finished => None
  }

  /** The next micro-step of a worker; none when it waits for a lock or a notification, or has finished. */
  ghost function Advance(p: Setup, s: Machine, source: bool): Option<Machine>
    requires Shape(p, s, source)
  {
    var pc := Of(s, source).pc;
    if Throttling(pc) then Throttle(p, s, source)
    else if pc.InShard? then Some(Found(p, s, source))
    else if InSection(pc) then Section(p, s, source)
    else if pc.Classifying? then Some(ClassifyHeld(p, s, source))
    else Release(p, s, source)
  }

  // --- the invariant ---

  ghost predicate Locks(p: Setup, s: Machine) {
    && !(HoldsCv(s.src.pc) && HoldsCv(s.dst.pc))
    && (HoldsShard(s.src.pc) && HoldsShard(s.dst.pc) ==> p.shardOf(s.src.key) != p.shardOf(s.dst.key))
  }

  /** An entry stored inside a critical section stays where it is until the section ends. */
  ghost predicate Owns(s: Machine, source: bool) {
    var w := Of(s, source);
    w.pc.StoredEntry? || w.pc.Tallied? ==> w.key in s.run.table && s.run.table[w.key].source == source
  }

  ghost function Count(t: Table, side: bool): nat {
    |Stored(t, side)|
  }

  /** How far pending is behind the table because of a worker inside its critical section. */
  function Lag(pc: PC): int {
    if pc.StoredEntry? then 1 else if pc.Erased? then -1 else 0
  }

  function SideLag(pc: PC, source: bool, side: bool): int {
    if (pc.StoredEntry? || pc.Tallied?) && source == side then 1
    else if (pc.Erased? || pc.Untallied?) && pc.peer == side then -1
    else 0
  }

  ghost predicate Counters(s: Machine) {
    && s.pending == Count(s.run.table, true) + Count(s.run.table, false) - Lag(s.src.pc) - Lag(s.dst.pc)
    && s.pendingSource == Count(s.run.table, true) - SideLag(s.src.pc, true, true) - SideLag(s.dst.pc, false, true)
    && s.pendingDest == Count(s.run.table, false) - SideLag(s.src.pc, true, false) - SideLag(s.dst.pc, false, false)
  }

  /** Until the destination is done or the run is cancelled the stored source entries stay within the mark, with room
      for the entry that has passed the throttle. */
  ghost predicate Bounded(p: Setup, s: Machine) {
    s.destDone || s.cancel ||
    Count(s.run.table, true) + (if s.src.pc.WantShard? || s.src.pc.InShard? then 1 else 0) <= p.highWater
  }

  /** The destination has lowered pending, or set its flag, and has not notified yet. */
  predicate WillNotify(pc: PC) {
    pc.Untallied? || pc == Leaving(true) || pc.WantNotify? || pc.Notifying? || pc.WantNotifyAll? || pc.NotifyingAll?
  }

  /** No wake-up is lost. */
  ghost predicate Wakes(p: Setup, s: Machine) {
    && (s.pending < p.highWater && (s.src.pc.EvalDone? || s.src.pc.EvalCancel? || s.src.pc.Asleep?) ==> WillNotify(s.dst.pc))
    && (s.destDone && (s.src.pc.EvalCancel? || s.src.pc.Asleep?) ==> WillNotify(s.dst.pc))
  }

  ghost predicate Places(p: Setup, s: Machine) {
    Shape(p, s, true) && Shape(p, s, false) && Locks(p, s) && Owns(s, true) && Owns(s, false)
  }

  ghost predicate Inv(p: Setup, s: Machine) {
    Places(p, s) && Counters(s) && Bounded(p, s) && Wakes(p, s)
  }

  // --- runs ---

  /** A worker's micro-step, a hash task that finishes, a cancellation, or a spurious wake-up. Shape, which makes the
      micro-steps defined, holds throughout every run. */
  ghost predicate Step(p: Setup, s: Machine, s': Machine) {
    && Shape(p, s, true) && Shape(p, s, false)
    && (|| Advance(p, s, true) == Some(s') || Advance(p, s, false) == Some(s')
        || (exists i: nat | i < |s.run.candidates| :: s' == s.(run := HashTask(p.cfg, s.run, i)))
        || (!s.cancel && s' == s.(cancel := true))
        || (s.src.pc.Asleep? && s' == At(s, true, Woken)))
  }

  // --- every micro-step keeps the invariant ---

  /** A worker that is about to check the throttle sees at least the stored source entries. */
  lemma PendingCoversSource(s: Machine)
    requires Owns(s, false) && Counters(s) && Throttling(s.src.pc)
    ensures Count(s.run.table, true) <= s.pending
  {
    if s.dst.pc.StoredEntry? { assert s.dst.key in Stored(s.run.table, false); }
  }

  predicate Quiet(pc: PC) {
    !pc.StoredEntry? && !pc.Tallied? && !pc.Erased? && !pc.Untallied?
  }

  /** Moves outside the critical sections leave the counters alone. */
  lemma SameCounters(s: Machine, s': Machine)
    requires Counters(s) && s'.run.table == s.run.table
    requires s'.pending == s.pending && s'.pendingSource == s.pendingSource && s'.pendingDest == s.pendingDest
    requires s'.src.pc == s.src.pc || (Quiet(s.src.pc) && Quiet(s'.src.pc))
    requires s'.dst.pc == s.dst.pc || (Quiet(s.dst.pc) && Quiet(s'.dst.pc))
    ensures Counters(s')
  {
    hide Count;
  }

  lemma ThrottleShape(p: Setup, s: Machine, source: bool)
    requires Shape(p, s, source) && Throttling(Of(s, source).pc) && Throttle(p, s, source).Some?
    ensures Shape(p, Throttle(p, s, source).value, source)
  {
    hide KeyOf, SeenResult, PairResult, Result.Add, IsCandidate;
  }

  lemma ThrottleLocks(p: Setup, s: Machine, source: bool)
    requires Places(p, s) && Throttling(Of(s, source).pc) && Throttle(p, s, source).Some?
    ensures Locks(p, Throttle(p, s, source).value)
  {
    hide KeyOf, Count, SeenResult, PairResult, Result.Add, IsCandidate, Shape, Owns;
  }

  lemma ThrottleOwns(p: Setup, s: Machine, source: bool, side: bool)
    requires Places(p, s) && Throttling(Of(s, source).pc) && Throttle(p, s, source).Some?
    ensures Owns(Throttle(p, s, source).value, side)
  {
    hide KeyOf, Count, SeenResult, PairResult, Result.Add, IsCandidate, Locks, ShardTaken, Fits;
  }

  lemma ThrottleCounters(p: Setup, s: Machine, source: bool)
    requires Shape(p, s, source) && Counters(s) && Throttling(Of(s, source).pc) && Throttle(p, s, source).Some?
    ensures Counters(Throttle(p, s, source).value)
  {
    hide KeyOf, Count, SeenResult, PairResult, Result.Add, IsCandidate, Fits, Counters;
    SameCounters(s, Throttle(p, s, source).value);
  }

  lemma ThrottleBounded(p: Setup, s: Machine, source: bool)
    requires Shape(p, s, source) && Owns(s, false) && Counters(s) && Bounded(p, s) && Throttling(Of(s, source).pc) && Throttle(p, s, source).Some?
    ensures Bounded(p, Throttle(p, s, source).value)
  {
    hide KeyOf, Count, SeenResult, PairResult, Result.Add, IsCandidate, Owns, Counters, Shape;
    if source { PendingCoversSource(s); }
  }

  lemma ThrottleWakes(p: Setup, s: Machine, source: bool)
    requires Shape(p, s, true) && Shape(p, s, false) && Locks(p, s) && Wakes(p, s) && Throttling(Of(s, source).pc) && Throttle(p, s, source).Some?
    ensures Wakes(p, Throttle(p, s, source).value)
  {
    hide KeyOf, Count, SeenResult, PairResult, Result.Add, IsCandidate, Owns;
  }

  lemma SectionShape(p: Setup, s: Machine, source: bool)
    requires Shape(p, s, source) && InSection(Of(s, source).pc) && Section(p, s, source).Some?
    ensures Shape(p, Section(p, s, source).value, source)
  {
    hide KeyOf, SeenResult, PairResult, Result.Add, IsCandidate;
  }

  lemma SectionLocks(p: Setup, s: Machine, source: bool)
    requires Places(p, s) && InSection(Of(s, source).pc) && Section(p, s, source).Some?
    ensures Locks(p, Section(p, s, source).value)
  {
    hide KeyOf, Count, SeenResult, PairResult, Result.Add, IsCandidate, Shape, Owns;
  }

  lemma SectionOwns(p: Setup, s: Machine, source: bool, side: bool)
    requires Places(p, s) && InSection(Of(s, source).pc) && Section(p, s, source).Some?
    ensures Owns(Section(p, s, source).value, side)
  {
    hide KeyOf, Count, SeenResult, PairResult, Result.Add, IsCandidate, Locks, ShardTaken, Fits;
  }

  ghost function Tallies(s: Machine, side: bool): int {
    if side then s.pendingSource else s.pendingDest
  }

  lemma SectionFrame(p: Setup, s: Machine, source: bool)
    requires InSection(Of(s, source).pc) && Section(p, s, source).Some?
    ensures var s' := Section(p, s, source).value;
            && Of(s', !source) == Of(s, !source) && s'.run == s.run && s'.cancel == s.cancel
            && s'.pending + Lag(Of(s', source).pc) == s.pending + Lag(Of(s, source).pc)
  {
  }

  lemma SectionTally(p: Setup, s: Machine, source: bool, side: bool)
    requires InSection(Of(s, source).pc) && Section(p, s, source).Some?
    ensures var s' := Section(p, s, source).value;
            Tallies(s', side) + SideLag(Of(s', source).pc, source, side) == Tallies(s, side) + SideLag(Of(s, source).pc, source, side)
  {
    hide Lag, ShardTaken;
  }

  lemma SectionCounters(p: Setup, s: Machine, source: bool)
    requires Counters(s) && InSection(Of(s, source).pc) && Section(p, s, source).Some?
    ensures Counters(Section(p, s, source).value)
  {
    hide Lag, SideLag, Count, Section, ShardTaken, InSection;
    SectionFrame(p, s, source);
    SectionTally(p, s, source, true);
    SectionTally(p, s, source, false);
  }

  lemma SectionBounded(p: Setup, s: Machine, source: bool)
    requires Shape(p, s, source) && Owns(s, false) && Counters(s) && Bounded(p, s) && InSection(Of(s, source).pc) && Section(p, s, source).Some?
    ensures Bounded(p, Section(p, s, source).value)
  {
    hide KeyOf, Count, SeenResult, PairResult, Result.Add, IsCandidate, Owns, Counters, Shape;
  }

  lemma SectionWakes(p: Setup, s: Machine, source: bool)
    requires Shape(p, s, true) && Shape(p, s, false) && Locks(p, s) && Wakes(p, s) && InSection(Of(s, source).pc) && Section(p, s, source).Some?
    ensures Wakes(p, Section(p, s, source).value)
  {
    hide KeyOf, Count, SeenResult, PairResult, Result.Add, IsCandidate, Owns;
  }

  lemma ReleaseShape(p: Setup, s: Machine, source: bool)
    requires Shape(p, s, source) && Releasing(Of(s, source).pc) && Release(p, s, source).Some?
    ensures Shape(p, Release(p, s, source).value, source)
  {
    hide KeyOf, SeenResult, PairResult, Result.Add, IsCandidate;
  }

  lemma ReleaseLocks(p: Setup, s: Machine, source: bool)
    requires Places(p, s) && Releasing(Of(s, source).pc) && Release(p, s, source).Some?
    ensures Locks(p, Release(p, s, source).value)
  {
    hide KeyOf, Count, SeenResult, PairResult, Result.Add, IsCandidate, Shape, Owns;
  }

  lemma ReleaseOwns(p: Setup, s: Machine, source: bool, side: bool)
    requires Places(p, s) && Releasing(Of(s, source).pc) && Release(p, s, source).Some?
    ensures Owns(Release(p, s, source).value, side)
  {
    hide KeyOf, Count, SeenResult, PairResult, Result.Add, IsCandidate, Locks, ShardTaken, Fits;
  }

  lemma ReleaseCounters(p: Setup, s: Machine, source: bool)
    requires Shape(p, s, source) && Counters(s) && Releasing(Of(s, source).pc) && Release(p, s, source).Some?
    ensures Counters(Release(p, s, source).value)
  {
    hide KeyOf, Count, SeenResult, PairResult, Result.Add, IsCandidate, Fits, Counters;
    SameCounters(s, Release(p, s, source).value);
  }

  lemma ReleaseBounded(p: Setup, s: Machine, source: bool)
    requires Shape(p, s, source) && Owns(s, false) && Counters(s) && Bounded(p, s) && Releasing(Of(s, source).pc) && Release(p, s, source).Some?
    ensures Bounded(p, Release(p, s, source).value)
  {
    hide KeyOf, Count, SeenResult, PairResult, Result.Add, IsCandidate, Owns, Counters, Shape;
  }

  lemma ReleaseWakes(p: Setup, s: Machine, source: bool)
    requires Shape(p, s, true) && Shape(p, s, false) && Locks(p, s) && Wakes(p, s) && Releasing(Of(s, source).pc) && Release(p, s, source).Some?
    ensures Wakes(p, Release(p, s, source).value)
  {
    hide KeyOf, Count, SeenResult, PairResult, Result.Add, IsCandidate, Owns;
  }

  lemma ClassifyShape(p: Setup, s: Machine, source: bool)
    requires Shape(p, s, source) && Of(s, source).pc.Classifying?
    ensures Shape(p, ClassifyHeld(p, s, source), source)
  {
    hide KeyOf, SeenResult, PairResult, Result.Add, IsCandidate;
  }

  lemma ClassifyLocks(p: Setup, s: Machine, source: bool)
    requires Places(p, s) && Of(s, source).pc.Classifying?
    ensures Locks(p, ClassifyHeld(p, s, source))
  {
    hide KeyOf, Count, SeenResult, PairResult, Result.Add, IsCandidate, Shape, Owns;
  }

  lemma ClassifyOwns(p: Setup, s: Machine, source: bool, side: bool)
    requires Places(p, s) && Of(s, source).pc.Classifying?
    ensures Owns(ClassifyHeld(p, s, source), side)
  {
    hide KeyOf, Count, SeenResult, PairResult, Result.Add, IsCandidate, Locks, ShardTaken, Fits;
  }

  lemma ClassifyCounters(p: Setup, s: Machine, source: bool)
    requires Shape(p, s, source) && Counters(s) && Of(s, source).pc.Classifying?
    ensures Counters(ClassifyHeld(p, s, source))
  {
    hide KeyOf, Count, SeenResult, PairResult, Result.Add, IsCandidate, Fits, Counters;
    SameCounters(s, ClassifyHeld(p, s, source));
  }

  lemma ClassifyBounded(p: Setup, s: Machine, source: bool)
    requires Shape(p, s, source) && Owns(s, false) && Counters(s) && Bounded(p, s) && Of(s, source).pc.Classifying?
    ensures Bounded(p, ClassifyHeld(p, s, source))
  {
    hide KeyOf, Count, SeenResult, PairResult, Result.Add, IsCandidate, Owns, Counters, Shape;
  }

  lemma ClassifyWakes(p: Setup, s: Machine, source: bool)
    requires Shape(p, s, true) && Shape(p, s, false) && Locks(p, s) && Wakes(p, s) && Of(s, source).pc.Classifying?
    ensures Wakes(p, ClassifyHeld(p, s, source))
  {
    hide KeyOf, Count, SeenResult, PairResult, Result.Add, IsCandidate, Owns;
  }

  lemma ThrottleOtherShape(p: Setup, s: Machine, source: bool)
    requires Shape(p, s, true) && Shape(p, s, false) && Throttling(Of(s, source).pc) && Throttle(p, s, source).Some?
    ensures Shape(p, Throttle(p, s, source).value, !source)
  {
    hide KeyOf, SeenResult, PairResult, Result.Add, IsCandidate, AfterInsert, InsertOutcome, ShardTaken, Fits;
  }

  lemma SectionOtherShape(p: Setup, s: Machine, source: bool)
    requires Shape(p, s, true) && Shape(p, s, false) && InSection(Of(s, source).pc) && Section(p, s, source).Some?
    ensures Shape(p, Section(p, s, source).value, !source)
  {
    hide KeyOf, SeenResult, PairResult, Result.Add, IsCandidate, AfterInsert, InsertOutcome, ShardTaken, Fits;
  }

  lemma ReleaseOtherShape(p: Setup, s: Machine, source: bool)
    requires Shape(p, s, true) && Shape(p, s, false) && Releasing(Of(s, source).pc) && Release(p, s, source).Some?
    ensures Shape(p, Release(p, s, source).value, !source)
  {
    hide KeyOf, SeenResult, PairResult, Result.Add, IsCandidate, AfterInsert, InsertOutcome, ShardTaken;
  }

  lemma ClassifyOtherShape(p: Setup, s: Machine, source: bool)
    requires Shape(p, s, true) && Shape(p, s, false) && Of(s, source).pc.Classifying?
    ensures Shape(p, ClassifyHeld(p, s, source), !source)
  {
    hide KeyOf, SeenResult, PairResult, Result.Add, IsCandidate, AfterInsert, InsertOutcome, ShardTaken, Fits;
  }

  lemma FoundOtherShape(p: Setup, s: Machine, source: bool)
    requires Shape(p, s, true) && Shape(p, s, false) && Of(s, source).pc.InShard?
    ensures Shape(p, Found(p, s, source), !source)
  {
    hide KeyOf, SeenResult, PairResult, Result.Add, IsCandidate, AfterInsert, InsertOutcome, ShardTaken, Fits;
  }

  lemma FoundShape(p: Setup, s: Machine, source: bool)
    requires Shape(p, s, source) && Of(s, source).pc.InShard?
    ensures Shape(p, Found(p, s, source), source)
  {
    hide KeyOf, SeenResult, PairResult, Result.Add, IsCandidate, AfterInsert;
  }

  /** Only the find under the shard lock changes the table, at the worker's own key. */
  lemma FoundTable(p: Setup, s: Machine, source: bool)
    requires Shape(p, s, source) && Of(s, source).pc.InShard?
    ensures Found(p, s, source).run.table == AfterInsert(s.run.table, Of(s, source).key, source, Left(s, source)[0])
    ensures var s' := Found(p, s, source);
            Of(s', !source) == Of(s, !source) && Of(s', source).key == Of(s, source).key
            && s'.pending == s.pending && s'.pendingSource == s.pendingSource && s'.pendingDest == s.pendingDest
            && s'.destDone == s.destDone && s'.cancel == s.cancel
    ensures var o := InsertOutcome(s.run.table, Of(s, source).key, source);
            Of(Found(p, s, source), source).pc == (if o.Inserted? then StoredEntry else if o.Replaced? then Leaving(false) else Erased(!source))
  {
    hide KeyOf, SeenResult, PairResult, Result.Add, IsCandidate, AfterInsert, InsertOutcome;
  }

  lemma FoundLocks(p: Setup, s: Machine, source: bool)
    requires Places(p, s) && Of(s, source).pc.InShard?
    ensures Locks(p, Found(p, s, source))
  {
    FoundTable(p, s, source);
    hide Found, KeyOf, Count, Shape, Owns, AfterInsert, InsertOutcome;
  }

  lemma FoundOwns(p: Setup, s: Machine, source: bool, side: bool)
    requires Places(p, s) && Of(s, source).pc.InShard?
    ensures Owns(Found(p, s, source), side)
  {
    FoundTable(p, s, source);
    hide Found, KeyOf, Fits;
  }

  lemma FoundCount(p: Setup, s: Machine, source: bool)
    requires Shape(p, s, source) && Of(s, source).pc.InShard?
    ensures var s', o := Found(p, s, source), InsertOutcome(s.run.table, Of(s, source).key, source);
            && Count(s'.run.table, source) == Count(s.run.table, source) + (if o.Inserted? then 1 else 0)
            && Count(s'.run.table, !source) == Count(s.run.table, !source) - (if o.MatchedPeer? then 1 else 0)
  {
    FoundTable(p, s, source);
    hide Found, KeyOf, Stored, AfterInsert, InsertOutcome;
    CountAfterInsert(s.run.table, Of(s, source).key, source, Left(s, source)[0]);
  }

  lemma CountAfterInsert(t: Table, k: Path, source: bool, e: FileEntry)
    ensures var t', o := AfterInsert(t, k, source, e), InsertOutcome(t, k, source);
            |Stored(t', source)| == |Stored(t, source)| + (if o.Inserted? then 1 else 0)
            && |Stored(t', !source)| == |Stored(t, !source)| - (if o.MatchedPeer? then 1 else 0)
  {
    hide Stored;
    if k !in t { StoreNew(t, k, source, e); }
    else if t[k].source == source { StoreAgain(t, k, e); }
    else { StoreDrop(t, k); }
  }

  lemma FoundCounters(p: Setup, s: Machine, source: bool)
    requires Shape(p, s, source) && Counters(s) && Of(s, source).pc.InShard?
    ensures Counters(Found(p, s, source))
  {
    FoundTable(p, s, source);
    FoundCount(p, s, source);
    hide Found, KeyOf, Count, AfterInsert, InsertOutcome, Fits;
  }

  lemma FoundBounded(p: Setup, s: Machine, source: bool)
    requires Shape(p, s, source) && Bounded(p, s) && Of(s, source).pc.InShard?
    ensures Bounded(p, Found(p, s, source))
  {
    FoundTable(p, s, source);
    FoundCount(p, s, source);
    hide Found, KeyOf, Count, AfterInsert, InsertOutcome, Fits;
  }

  lemma FoundWakes(p: Setup, s: Machine, source: bool)
    requires Shape(p, s, source) && Wakes(p, s) && Of(s, source).pc.InShard?
    ensures Wakes(p, Found(p, s, source))
  {
    FoundTable(p, s, source);
    hide Found, KeyOf, AfterInsert, InsertOutcome, Fits;
  }

  lemma AdvanceKeeps(p: Setup, s: Machine, source: bool)
    requires Inv(p, s) && Advance(p, s, source).Some?
    ensures Inv(p, Advance(p, s, source).value)
  {
    hide Fits, Locks, Owns, Counters, Bounded, Wakes, Throttle, Found, Section, ClassifyHeld, Release;
    var pc := Of(s, source).pc;
    if Throttling(pc) {
      ThrottleShape(p, s, source); ThrottleOtherShape(p, s, source); ThrottleLocks(p, s, source);
      ThrottleOwns(p, s, source, true); ThrottleOwns(p, s, source, false);
      ThrottleCounters(p, s, source); ThrottleBounded(p, s, source); ThrottleWakes(p, s, source);
    } else if pc.InShard? {
      FoundShape(p, s, source); FoundOtherShape(p, s, source); FoundLocks(p, s, source);
      FoundOwns(p, s, source, true); FoundOwns(p, s, source, false);
      FoundCounters(p, s, source); FoundBounded(p, s, source); FoundWakes(p, s, source);
    } else if InSection(pc) {
      SectionShape(p, s, source); SectionOtherShape(p, s, source); SectionLocks(p, s, source);
      SectionOwns(p, s, source, true); SectionOwns(p, s, source, false);
      SectionCounters(p, s, source); SectionBounded(p, s, source); SectionWakes(p, s, source);
    } else if pc.Classifying? {
      ClassifyShape(p, s, source); ClassifyOtherShape(p, s, source); ClassifyLocks(p, s, source);
      ClassifyOwns(p, s, source, true); ClassifyOwns(p, s, source, false);
      ClassifyCounters(p, s, source); ClassifyBounded(p, s, source); ClassifyWakes(p, s, source);
    } else {
      ReleaseShape(p, s, source); ReleaseOtherShape(p, s, source); ReleaseLocks(p, s, source);
      ReleaseOwns(p, s, source, true); ReleaseOwns(p, s, source, false);
      ReleaseCounters(p, s, source); ReleaseBounded(p, s, source); ReleaseWakes(p, s, source);
    }
  }

  lemma EnvironmentKeeps(p: Setup, s: Machine, s': Machine)
    requires Inv(p, s)
    requires (s' == s.(run := s'.run) && s'.run == s.run.(candidates := s'.run.candidates, sink := s'.run.sink))
             || s' == s.(cancel := true) || (s.src.pc.Asleep? && s' == At(s, true, Woken))
    ensures Inv(p, s')
  {
    hide KeyOf, Count;
  }

  /** Every step keeps the invariant. */
  lemma StepKeepsInv(p: Setup, s: Machine, s': Machine)
    requires Inv(p, s) && Step(p, s, s')
    ensures Inv(p, s')
  {
    if Advance(p, s, true) == Some(s') { AdvanceKeeps(p, s, true); }
    else if Advance(p, s, false) == Some(s') { AdvanceKeeps(p, s, false); }
    else { hide Inv, Advance; EnvironmentKeeps(p, s, s'); }
  }

  // --- what the invariant says ---

  lemma OwnedCounts(s: Machine, source: bool)
    requires Owns(s, source)
    ensures Of(s, source).pc.StoredEntry? || Of(s, source).pc.Tallied? ==> Count(s.run.table, source) >= 1
  {
    var w := Of(s, source);
    if w.pc.StoredEntry? || w.pc.Tallied? { assert w.key in Stored(s.run.table, source); }
  }

  lemma SidesAddUp(t: Table)
    ensures |t| == Count(t, true) + Count(t, false)
  {
    var a, b := Stored(t, true).Keys, Stored(t, false).Keys;
    assert t.Keys == a + b && a !! b;
  }

  /** Outside critical sections the counters are the numbers of stored entries; they are never negative anywhere, and
      a decrement never meets a zero. */
  lemma CountersExact(p: Setup, s: Machine)
    requires Inv(p, s)
    ensures Quiet(s.src.pc) && Quiet(s.dst.pc) ==>
              s.pending == |s.run.table| && s.pendingSource == |Stored(s.run.table, true)| && s.pendingDest == |Stored(s.run.table, false)|
    ensures s.pending >= 0 && s.pendingSource >= 0 && s.pendingDest >= 0
    ensures forall source :: Of(s, source).pc.Erased? ==> s.pending > 0
    ensures forall source :: Of(s, source).pc.Untallied? ==> Tallies(s, Of(s, source).pc.peer) > 0
  {
    SidesAddUp(s.run.table);
    OwnedCounts(s, true);
    OwnedCounts(s, false);
    hide Stored, Owns, Fits, Wakes, Bounded;
  }

  /** Until the destination is done or the run is cancelled, no more than highWater source entries are stored. */
  lemma SourceStaysBounded(p: Setup, s: Machine)
    requires Inv(p, s) && !s.destDone && !s.cancel
    ensures |Stored(s.run.table, true)| <= p.highWater
  {
    hide Stored;
  }

  /** A sleeping source whose wake condition holds is about to be notified by the destination. */
  lemma NoLostWakeup(p: Setup, s: Machine)
    requires Inv(p, s) && s.src.pc.Asleep? && (s.pending < p.highWater || s.destDone)
    ensures WillNotify(s.dst.pc)
  {
  }

  /** The source parks only when the mark is reached, and goes on only with room in the table, the destination done or the
      run cancelled; the destination never parks. */
  lemma ParksAtMark(p: Setup, s: Machine, s': Machine)
    requires Inv(p, s) && Step(p, s, s')
    ensures !Parking(s.src.pc) && Parking(s'.src.pc) ==> s.pending >= p.highWater && !s.cancel
    ensures Parking(s.src.pc) && !Parking(s'.src.pc) ==> s.pending < p.highWater || s.destDone || s.cancel
    ensures !Parking(s'.dst.pc)
  {
    hide Locks, Owns, Counters, Bounded, Wakes, Advance, HashTask;
    if Advance(p, s, true) == Some(s') { SourceParks(p, s); }
    else if Advance(p, s, false) == Some(s') { DestMoves(p, s); }
  }

  lemma SourceParks(p: Setup, s: Machine)
    requires Shape(p, s, true) && Shape(p, s, false) && Advance(p, s, true).Some?
    ensures var s' := Advance(p, s, true).value;
            && (!Parking(s.src.pc) && Parking(s'.src.pc) ==> s.pending >= p.highWater && !s.cancel)
            && (Parking(s.src.pc) && !Parking(s'.src.pc) ==> s.pending < p.highWater || s.destDone || s.cancel)
            && s'.dst == s.dst
  {
    hide KeyOf, SeenResult, PairResult, Result.Add, IsCandidate, EmitSource, ClassifySource, InsertOutcome;
  }

  lemma DestMoves(p: Setup, s: Machine)
    requires Shape(p, s, true) && Shape(p, s, false) && Advance(p, s, false).Some?
    ensures var s' := Advance(p, s, false).value; !Parking(s'.dst.pc) && (s'.src == s.src || (Parking(s.src.pc) && Parking(s'.src.pc)))
  {
    hide KeyOf, SeenResult, PairResult, Result.Add, IsCandidate, EmitDest, ClassifyDest, InsertOutcome;
  }

  /** As long as a worker has not finished, some worker can take a step. */
  lemma NeverStuck(p: Setup, s: Machine)
    requires Inv(p, s) && !(s.src.pc.Finished? && s.dst.pc.Finished?)
    ensures Advance(p, s, true).Some? || Advance(p, s, false).Some?
  {
    hide KeyOf, Count, Found, ClassifyHeld, Counters, Bounded;
  }

  // --- every run ends ---

  /** How many moves a place is away from the end of its entry; the moves before the find are used up with the entry. */
  function Rank(pc: PC): nat {
    match pc
    case Idle => 10 case WantCv => 9 case Woken => 8 case EvalPending => 7 case EvalDone => 6 case EvalCancel => 5
    case Asleep => 4 case WantShard => 3 case InShard => 2
    case Erased(_) => 17 case Untallied(_) => 16 case Leaving(matched) => if matched then 15 else 12
    case WantNotify => 14 case Notifying => 13 case Classifying => 12
    case StoredEntry => 14 case Tallied => 13
    case Finishing => 3 case WantNotifyAll => 2 case NotifyingAll => 1 case Finished => 0
  }

  function WorkerMeasure(pc: PC, left: nat): nat {
    40 * left + Rank(pc)
  }

  /** A destination step may wake the source, which costs it at most four moves. */
  ghost function Measure(s: Machine): nat {
    8 * WorkerMeasure(s.dst.pc, |s.run.dstLeft|) + WorkerMeasure(s.src.pc, |s.run.srcLeft|) + |s.run.candidates|
    + (if s.cancel then 0 else 1)
  }

  lemma FoundMeasure(p: Setup, s: Machine, source: bool)
    requires Shape(p, s, source) && Of(s, source).pc.InShard?
    ensures Measure(Found(p, s, source)) < Measure(s)
  {
    hide KeyOf, SeenResult, PairResult, Result.Add, AfterInsert, InsertOutcome;
  }

  lemma ClassifyMeasure(p: Setup, s: Machine, source: bool)
    requires Shape(p, s, source) && Of(s, source).pc.Classifying?
    ensures Measure(ClassifyHeld(p, s, source)) < Measure(s)
  {
    hide KeyOf, SeenResult, PairResult, Result.Add, IsCandidate;
  }

  lemma ThrottleMeasure(p: Setup, s: Machine, source: bool)
    requires Shape(p, s, source) && Throttling(Of(s, source).pc) && Throttle(p, s, source).Some?
    ensures Measure(Throttle(p, s, source).value) < Measure(s)
  {
    hide KeyOf;
  }

  /** A worker's own progress outweighs the wake-up that it may cause. */
  lemma RankMeasure(s: Machine, s': Machine, source: bool)
    requires s'.run == s.run && s'.cancel == s.cancel && Rank(Of(s', source).pc) < Rank(Of(s, source).pc)
    requires Rank(Of(s', !source).pc) <= Rank(Of(s, !source).pc) + (if source then 0 else 4)
    ensures Measure(s') < Measure(s)
  {
    hide Rank;
  }

  lemma SectionMeasure(p: Setup, s: Machine, source: bool)
    requires InSection(Of(s, source).pc) && Section(p, s, source).Some?
    ensures Measure(Section(p, s, source).value) < Measure(s)
  {
    hide Measure, ShardTaken, Lag;
    SectionRank(p, s, source);
    hide Section, Rank;
    SectionFrame(p, s, source);
    RankMeasure(s, Section(p, s, source).value, source);
  }

  lemma SectionRank(p: Setup, s: Machine, source: bool)
    requires InSection(Of(s, source).pc) && Section(p, s, source).Some?
    ensures Rank(Of(Section(p, s, source).value, source).pc) < Rank(Of(s, source).pc)
  {
    hide ShardTaken;
  }

  lemma ReleaseMeasure(p: Setup, s: Machine, source: bool)
    requires Shape(p, s, source) && Releasing(Of(s, source).pc) && Release(p, s, source).Some?
    ensures Measure(Release(p, s, source).value) < Measure(s)
  {
    hide Measure, Fits;
    ReleaseRank(p, s, source);
    ReleaseFrame(p, s, source);
    hide Release, Rank;
    RankMeasure(s, Release(p, s, source).value, source);
  }

  lemma ReleaseRank(p: Setup, s: Machine, source: bool)
    requires Shape(p, s, source) && Releasing(Of(s, source).pc) && Release(p, s, source).Some?
    ensures Rank(Of(Release(p, s, source).value, source).pc) < Rank(Of(s, source).pc)
  {
    hide Fits;
  }

  /** A notification costs a sleeping source at most four moves. */
  lemma ReleaseFrame(p: Setup, s: Machine, source: bool)
    requires Shape(p, s, source) && Releasing(Of(s, source).pc) && Release(p, s, source).Some?
    ensures var s' := Release(p, s, source).value;
            && s'.run == s.run && s'.cancel == s.cancel
            && Rank(Of(s', !source).pc) <= Rank(Of(s, !source).pc) + (if source then 0 else 4)
  {
    hide Fits;
  }

  /** The source wakes up without having been notified. */
  ghost predicate Spurious(s: Machine, s': Machine) {
    s.src.pc.Asleep? && s' == At(s, true, Woken)
  }

  /** Every step but a spurious wake-up brings the end nearer, and that one costs four moves. */
  lemma StepsRunOut(p: Setup, s: Machine, s': Machine)
    requires Step(p, s, s')
    ensures if Spurious(s, s') then Measure(s') == Measure(s) + 4 else Measure(s') < Measure(s)
  {
    if Spurious(s, s') { WakeMeasure(s); } else { OwnMeasure(p, s, s'); }
  }

  lemma WakeMeasure(s: Machine)
    requires s.src.pc.Asleep?
    ensures Measure(At(s, true, Woken)) == Measure(s) + 4
  {}

  lemma OwnMeasure(p: Setup, s: Machine, s': Machine)
    requires Step(p, s, s') && !Spurious(s, s')
    ensures Measure(s') < Measure(s)
  {
    hide Fits, Measure, Throttle, Found, Section, ClassifyHeld, Release, HashTask;
    if source :| Advance(p, s, source) == Some(s') {
      var pc := Of(s, source).pc;
      if Throttling(pc) { ThrottleMeasure(p, s, source); }
      else if pc.InShard? { FoundMeasure(p, s, source); }
      else if InSection(pc) { SectionMeasure(p, s, source); }
      else if pc.Classifying? { ClassifyMeasure(p, s, source); }
      else { ReleaseMeasure(p, s, source); }
    } else {
      EnvironmentMeasure(p, s, s');
    }
  }

  lemma EnvironmentMeasure(p: Setup, s: Machine, s': Machine)
    ensures !s.cancel && s' == s.(cancel := true) ==> Measure(s') < Measure(s)
    ensures (exists i: nat | i < |s.run.candidates| :: s' == s.(run := HashTask(p.cfg, s.run, i))) ==> Measure(s') < Measure(s)
  {
    hide Result.Add, VerdictResult;
  }

  ghost predicate IsThrottledRun(p: Setup, run: seq<Machine>) {
    |run| > 0 && forall i | 0 <= i < |run| - 1 :: Step(p, run[i], run[i + 1])
  }

  ghost function Wakeups(run: seq<Machine>): nat {
    if |run| <= 1 then 0 else
    var n := |run| - 1;
    Wakeups(run[..n]) + (if Spurious(run[n - 1], run[n]) then 1 else 0)
  }

  /** A run spends its measure step by step; a spurious wake-up is a step that gives back four. */
  lemma {:induction false} RunSpends(p: Setup, run: seq<Machine>)
    requires IsThrottledRun(p, run)
    ensures |run| - 1 + Measure(run[|run| - 1]) <= Measure(run[0]) + 5 * Wakeups(run)
  {
    hide Measure, Step, Spurious;
    if |run| > 1 {
      var n := |run| - 1;
      RunSpends(p, run[..n]);
      assert Step(p, run[n - 1], run[n - 1 + 1]);
      StepsRunOut(p, run[n - 1], run[n]);
    }
  }

  lemma {:induction false} InvAlong(p: Setup, run: seq<Machine>, n: nat)
    requires IsThrottledRun(p, run) && Inv(p, run[0]) && n < |run|
    ensures Inv(p, run[n])
  {
    hide Inv, Step;
    if n > 0 {
      InvAlong(p, run, n - 1);
      assert Step(p, run[n - 1], run[n - 1 + 1]);
      StepKeepsInv(p, run[n - 1], run[n]);
    }
  }

  /** A run over two finite streams is no longer than the streams and its spurious wake-ups allow, and one that cannot be
      extended has both workers finished. */
  lemma ThrottledRunEnds(p: Setup, a: seq<FileEntry>, b: seq<FileEntry>, run: seq<Machine>)
    requires IsThrottledRun(p, run) && run[0] == Start(a, b)
    ensures |run| - 1 <= 40 * |a| + 320 * |b| + 91 + 5 * Wakeups(run)
    ensures var last := run[|run| - 1];
            (forall s' :: !Step(p, last, s')) ==> last.src.pc.Finished? && last.dst.pc.Finished?
  {
    hide Wakeups, Fits, Advance, Locks, Owns, Counters, Bounded, Wakes;
    RunSpends(p, run);
    StartMeasure(a, b);
    StartInv(p, a, b);
    InvAlong(p, run, |run| - 1);
    var last := run[|run| - 1];
    if !(last.src.pc.Finished? && last.dst.pc.Finished?) {
      NeverStuck(p, last);
      var source :| Advance(p, last, source).Some?;
      assert Step(p, last, Advance(p, last, source).value);
    }
  }

  lemma StartMeasure(a: seq<FileEntry>, b: seq<FileEntry>)
    ensures Measure(Start(a, b)) == 40 * |a| + 320 * |b| + 91
  {}

  // --- the throttle does not change what is computed ---

  /** A micro-step leaves the concurrent run alone or is one of its steps. */
  lemma StepRefines(p: Setup, s: Machine, s': Machine)
    requires Step(p, s, s')
    ensures s'.run == s.run || ConcurrentRun.Step(p.cfg, s.run, s'.run)
  {
    hide Fits, Advance, ConcurrentRun.Step, HashTask;
    if Advance(p, s, true) == Some(s') { AdvanceRefines(p, s, true); }
    else if Advance(p, s, false) == Some(s') { AdvanceRefines(p, s, false); }
    else if i: nat :| i < |s.run.candidates| && s' == s.(run := HashTask(p.cfg, s.run, i)) { HashRefines(p.cfg, s.run, i); }
  }

  lemma AdvanceRefines(p: Setup, s: Machine, source: bool)
    requires Shape(p, s, source) && Advance(p, s, source).Some?
    ensures var s' := Advance(p, s, source).value; s'.run == s.run || ConcurrentRun.Step(p.cfg, s.run, s'.run)
  {
    hide KeyOf, EmitSource, EmitDest, ClassifySource, ClassifyDest, HashTask, InsertOutcome;
  }

  lemma HashRefines(cfg: Config, s: ConcurrentRun.State, i: nat)
    requires i < |s.candidates|
    ensures ConcurrentRun.Step(cfg, s, HashTask(cfg, s, i))
  {
    hide KeyOf, EmitSource, EmitDest, ClassifySource, ClassifyDest, HashTask;
  }

  lemma StartInv(p: Setup, a: seq<FileEntry>, b: seq<FileEntry>)
    ensures Inv(p, Start(a, b))
  {
    hide KeyOf;
    assert Stored(map[], true) == map[] && Stored(map[], false) == map[];
  }

  lemma {:induction false} ThrottledRunKeeps(p: Setup, run: seq<Machine>, n: nat)
    requires IsThrottledRun(p, run) && Inv(p, run[0]) && ConcurrentRun.Inv(p.cfg, run[0].run) && n < |run|
    ensures Inv(p, run[n]) && ConcurrentRun.Inv(p.cfg, run[n].run)
    ensures Total(p.cfg, run[n].run) == Total(p.cfg, run[0].run)
  {
    hide Inv, ConcurrentRun.Inv, Total, Step, ConcurrentRun.Step, Fits;
    if n > 0 {
      ThrottledRunKeeps(p, run, n - 1);
      assert Step(p, run[n - 1], run[n - 1 + 1]);
      StepKeepsInv(p, run[n - 1], run[n]);
      StepRefines(p, run[n - 1], run[n]);
      if run[n].run != run[n - 1].run { StepKeeps(p.cfg, run[n - 1].run, run[n].run); }
    }
  }

  /** Whatever the micro-steps interleave to, a throttled run that ends uncancelled reports the reference result. */
  lemma ThrottledRunAgrees(p: Setup, a: seq<FileEntry>, b: seq<FileEntry>, run: seq<Machine>)
    requires UniqueKeys(p.cfg, a) && UniqueKeys(p.cfg, b)
    requires IsThrottledRun(p, run) && run[0] == Start(a, b)
    requires var last := run[|run| - 1];
             last.src.pc.Finished? && last.dst.pc.Finished? && last.run.candidates == [] && !last.cancel
    ensures var end := run[|run| - 1].run;
            end.sink.Add(OneSided(p.cfg, Stored(end.table, true), Stored(end.table, false)))
            == Reference(p.cfg, TreeOf(p.cfg, a), TreeOf(p.cfg, b))
  {
    hide Total, ConcurrentRun.Inv, Reference, OneSided, Result.Add, UniqueKeys, Step, Locks, Owns, Counters, Bounded, Wakes;
    StartInv(p, a, b);
    StartTotal(p.cfg, a, b);
    ThrottledRunKeeps(p, run, |run| - 1);
    FinishedTotal(p.cfg, run[|run| - 1].run);
  }
}
