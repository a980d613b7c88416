/** Which byte ranges of a file a partial verification hashes, and the chunked read loop that feeds them. */
module PartialRead {
  import opened Bytes
  import opened Results

  const MIB: nat := 1_048_576
  const FULL_READ_THRESHOLD: nat := 2_097_152
  const CHUNK: nat := 1_048_576
  const TWO63: nat := 0x8000_0000_0000_0000
  const TWO64: nat := 0x1_0000_0000_0000_0000

  datatype ReadPlan = ReadPlan(off1: nat, len1: nat, off2: nat, len2: nat, isFullRead: bool)

  const FULL: ReadPlan := ReadPlan(0, 0, 0, 0, true)

  /** Rounded number of MiB, by the split that keeps 64-bit products small. */
  function Target(size: nat, percent: nat): nat {
    var d := 100 * MIB;
    var q, r := size / d, size % d;
    var t := q * percent + (r * percent + d / 2) / d;
    if t == 0 then 1 else t
  }

  /** The number of MiB blocks that cover the file; the 64-bit sum may wrap. */
  function WholeMibs(size: u64): nat {
    (size + MIB - 1) % TWO64 / MIB
  }

  function CenterPlan(size: nat, target: nat): ReadPlan
    requires target <= size / MIB
  {
    var before := (size / MIB - target + 1) / 2;
    ReadPlan(before * MIB, target * MIB, 0, 0, false)
  }

  function EdgesPlan(size: nat, target: nat): ReadPlan
    requires target * MIB <= size
  {
    var head, tail := (target + 1) / 2, target / 2;
    if tail == 0 then ReadPlan(0, head * MIB, 0, 0, false)
    else ReadPlan(0, head * MIB, size - tail * MIB, tail * MIB, false)
  }

  /** ComputePartialReadPlan. */
  function Plan(size: u64, percent: int, pattern: PartialPattern): ReadPlan {
    if size <= FULL_READ_THRESHOLD || percent >= 100 then FULL else
    var target := Target(size, if percent < 1 then 1 else percent);
    if target >= WholeMibs(size) then FULL
    else
      BelowWhole(size, target);
      if pattern == Center then CenterPlan(size, target) else EdgesPlan(size, target)
  }

  datatype EffectiveVerify = EffectiveVerify(percent: i32, pattern: PartialPattern)

  function EffectiveLevel(plan: ReadPlan, requested: i32, pattern: PartialPattern): EffectiveVerify {
    if plan.isFullRead then EffectiveVerify(100, Edges)
    else EffectiveVerify(requested, if pattern == Random then Edges else pattern)
  }

  /** A target below the covering block count leaves room for that many whole blocks. */
  lemma BelowWhole(size: u64, target: nat)
    requires target < WholeMibs(size)
    ensures target <= size / MIB && target * MIB <= size && target * MIB != size
  {}

  // --- the arithmetic of the plan ---

  /** Round half up of size * percent / (100 MiB). */
  function RoundHalfUp(size: nat, percent: nat): nat {
    (size * percent + 50 * MIB) / (100 * MIB)
  }

  /** The split formula is the rounded quotient, at least one. */
  lemma TargetIsRounded(size: nat, percent: nat)
    ensures Target(size, percent) == if RoundHalfUp(size, percent) == 0 then 1 else RoundHalfUp(size, percent)
  {
    var d := 100 * MIB;
    var q, r := size / d, size % d;
    var low := r * percent + 50 * MIB;
    assert size * percent == (q * percent) * d + r * percent by {
      assert size == q * d + r;
      DistributeSplit(q, d, r, percent);
    }
    DivShift(q * percent, d, low);
  }

  lemma DistributeSplit(q: nat, d: nat, r: nat, p: nat)
    ensures (q * d + r) * p == (q * p) * d + r * p
  {}

  lemma DivShift(a: nat, d: nat, low: nat)
    requires d > 0
    ensures (a * d + low) / d == a + low / d
  {
    var x, y := (a * d + low) / d, a + low / d;
    assert low == d * (low / d) + low % d;
    assert a * d + low == d * y + low % d;
    assert a * d + low == d * x + (a * d + low) % d;
    NoMultipleBetween(d, x - y);
  }

  lemma NoMultipleBetween(d: nat, k: int)
    requires 0 < d * k + d && d * k < d
    ensures k == 0
  {}

  /** For every file size below 2^63 no intermediate value of the plan reaches 2^64. */
  lemma NoOverflow(size: nat, percent: nat)
    requires size < TWO63 && 1 <= percent <= 99
    ensures var d := 100 * MIB; var q, r := size / d, size % d;
            q * percent < TWO64 && r * percent + d / 2 < TWO64
            && q * percent + (r * percent + d / 2) / d < TWO64 && size + MIB - 1 < TWO64
  {
    var q, r := size / 104_857_600, size % 104_857_600;
    assert q <= 87_960_930_222 && r < 104_857_600;
    SmallProduct(q, percent, 87_960_930_222);
    SmallProduct(r, percent, 104_857_600);
    assert (r * percent + 52_428_800) / 104_857_600 <= r * percent + 52_428_800;
  }

  lemma SmallProduct(x: nat, p: nat, bound: nat)
    requires x <= bound && p <= 99
    ensures x * p <= bound * 99
  {}

  /** Blocks inside the file, in order, without overlap, target MiB in total; one block in the centre, with as many whole
      MiB before as behind or one more, or a head and a tail of which the head has the odd MiB and the tail ends the file. */
  predicate GoodBlocks(p: ReadPlan, size: nat, target: nat, pattern: PartialPattern) {
    && p.len1 > 0 && p.len1 + p.len2 == target * MIB
    && p.off1 + p.len1 <= size
    && (p.len2 > 0 ==> p.off1 + p.len1 <= p.off2 && p.off2 + p.len2 == size)
    && (pattern == Center ==> p.len2 == 0 && Centred(p, size))
    && (pattern != Center ==> p.off1 == 0 && (p.len1 == p.len2 || p.len1 == p.len2 + MIB))
  }

  /** Before the block lie whole MiB; behind it as many or one less, and the fraction that ends the file. */
  predicate Centred(p: ReadPlan, size: nat) {
    var behind := size - (p.off1 + p.len1) - size % MIB;
    p.off1 % MIB == 0 && (behind == p.off1 || behind == p.off1 - MIB)
  }

  lemma CenterBlocks(size: nat, target: nat)
    requires 0 < target <= size / MIB
    ensures GoodBlocks(CenterPlan(size, target), size, target, Center)
  {
    var before := (size / MIB - target + 1) / 2;
    assert (before + target) * MIB <= size / MIB * MIB <= size;
    assert size == size / MIB * MIB + size % MIB;
  }

  lemma EdgesBlocks(size: nat, target: nat, pattern: PartialPattern)
    requires 0 < target && target * MIB <= size && pattern != Center
    ensures GoodBlocks(EdgesPlan(size, target), size, target, pattern)
  {}

  /** The number of MiB to read: the rounded quotient, at least one. */
  function Wanted(size: nat, percent: nat): nat {
    if RoundHalfUp(size, percent) == 0 then 1 else RoundHalfUp(size, percent)
  }

  /** A plan is a full read exactly when the file is small or the wanted blocks would cover it; otherwise it reads
      exactly the wanted number of MiB in good blocks. */
  lemma PlanShape(size: nat, percent: nat, pattern: PartialPattern)
    requires size < TWO63 && 1 <= percent <= 99
    ensures var p, t := Plan(size, percent, pattern), Wanted(size, percent);
            && (p.isFullRead <==> size <= FULL_READ_THRESHOLD || t * MIB >= size)
            && (!p.isFullRead ==> GoodBlocks(p, size, t, pattern))
  {
    hide Target, RoundHalfUp, GoodBlocks, WholeMibs;
    TargetIsRounded(size, percent);
    var t := Target(size, percent);
    SumFits(size);
    WholeCovers(size, t);
    if size > FULL_READ_THRESHOLD && t < WholeMibs(size) {
      BelowWhole(size, t);
      if pattern == Center { CenterBlocks(size, t); } else { EdgesBlocks(size, t, pattern); }
    }
  }

  lemma SumFits(size: nat)
    requires size < TWO63
    ensures size + MIB - 1 < TWO64
  {}

  lemma WholeCovers(size: nat, t: nat)
    requires size + MIB - 1 < TWO64
    ensures t >= WholeMibs(size) <==> t * MIB >= size
  {}

  // --- the read loop ---

  datatype HashStatus = HashOk | HashReadError | NoAccess | HashCancelled

  /** The bytes of one block of a file as it is now; a shorter file ends the block early. */
  function Block(file: bytes, off: nat, len: nat): bytes {
    if off >= |file| then [] else file[off..if off + len <= |file| then off + len else |file|]
  }

  /** What the digest has to cover: the whole file, or the planned blocks; the end of the file ends everything. */
  function Covered(file: bytes, plan: ReadPlan): bytes {
    if plan.isFullRead then file
    else
      var first := Block(file, plan.off1, plan.len1);
      if |first| < plan.len1 then first else first + Block(file, plan.off2, plan.len2)
  }

  /** The hashing loop over an open file: any read may be short, fail, or find the run cancelled. */
  class HashLoop {
    const file: bytes
    var pos: nat
    /** What the hash context has been fed. */
    var fed: bytes
    var complete: bool
    var cancelled: bool

    constructor (file: bytes)
      ensures this.file == file && pos == 0 && fed == [] && complete && !cancelled
    {
      this.file := file;
      pos, fed, complete, cancelled := 0, [], true, false;
    }

    /** One chunk of at most budget bytes; false stops the loop. */
    method StreamChunk(budget: nat) returns (more: bool, left: nat)
      requires budget > 0 && complete && !cancelled
      modifies this
      ensures left <= budget && (cancelled ==> !complete)
      ensures complete ==> pos == old(pos) + (budget - left) && fed == old(fed) + Block(file, old(pos), budget - left)
      ensures complete && more ==> left < budget && pos <= |file| && !cancelled
      ensures complete && !more ==> left == budget && pos >= |file| && !cancelled
      ensures !complete ==> !more
    {
      left := budget;
      var cancelNow: bool := *;
      if cancelNow {
        cancelled, complete := true, false;
        return false, left;
      }
      var failed: bool := *;
      if failed {
        complete := false;
        return false, left;
      }
      var want := if budget < CHUNK then budget else CHUNK;
      var read := 0;
      if pos < |file| {
        var most := if want < |file| - pos then want else |file| - pos;
        read :| 1 <= read <= most;
      }
      left := budget - read;
      if read == 0 {
        assert fed == fed + Block(file, pos, 0);
        return false, left;
      }
      var hashFailed: bool := *;
      if hashFailed {
        complete := false;
        return false, left;
      }
      assert Block(file, pos, read) == file[pos..pos + read];
      fed := fed + file[pos..pos + read];
      pos := pos + read;
      more := true;
    }

    /** Streams one budget; whatever is left over means the end of the file was reached. */
    method StreamBudget(budget: nat) returns (left: nat)
      requires complete && !cancelled
      modifies this
      ensures left <= budget && (cancelled ==> !complete)
      ensures complete ==> fed == old(fed) + Block(file, old(pos), budget)
      ensures complete ==> (left == 0 <==> |Block(file, old(pos), budget)| == budget)
    {
      left := budget;
      ghost var start := pos;
      var more := true;
      assert fed == fed + Block(file, start, 0);
      while left > 0 && more
        invariant left <= budget && (cancelled ==> !complete) && (!complete ==> !more)
        invariant complete ==> pos == start + (budget - left) && fed == old(fed) + Block(file, start, budget - left)
        invariant complete && !more ==> pos >= |file|
        invariant complete && left < budget ==> pos <= |file|
        decreases left, more
      {
        ghost var before, at := fed, pos;
        more, left := StreamChunk(left);
        if complete { BlockConcat(file, start, at - start, pos - at); }
      }
    }

    /** Sha256FileFromHandle: the whole file, or each planned block in turn. */
    method Run(plan: ReadPlan) returns (status: HashStatus)
      requires pos == 0 && fed == [] && complete && !cancelled && |file| < TWO64
      modifies this
      ensures status == HashOk ==> fed == Covered(file, plan)
      ensures status == HashOk || status == HashReadError || status == HashCancelled
    {
      if plan.isFullRead {
        var left := StreamBudget(TWO64 - 1);
        assert complete ==> fed == [] + Block(file, 0, TWO64 - 1) == file;
      } else {
        var left := 0;
        if plan.len1 > 0 {
          var seekFailed: bool := *;
          if seekFailed { complete := false; }
          else {
            pos := plan.off1;
            left := StreamBudget(plan.len1);
          }
        }
        assert complete ==> fed == Block(file, plan.off1, plan.len1);
        ghost var first := fed;
        if complete && left == 0 {
          if plan.len2 > 0 {
            var seekFailed: bool := *;
            if seekFailed { complete := false; }
            else {
              pos := plan.off2;
              left := StreamBudget(plan.len2);
            }
          } else {
            assert Block(file, plan.off2, 0) == [];
          }
        }
      }
      var finished: bool := *;
      status := if cancelled then HashCancelled else if complete && finished then HashOk else HashReadError;
    }
  }

  lemma BlockConcat(file: bytes, off: nat, a: nat, b: nat)
    requires off + a <= |file| || b == 0
    ensures Block(file, off, a) + Block(file, off + a, b) == Block(file, off, a + b)
  {}

  /** On an unchanged file, the bytes hashed are exactly the planned ranges, in order. */
  lemma CoveredIsPlanned(file: bytes, percent: nat, pattern: PartialPattern)
    requires |file| < TWO63 && 1 <= percent <= 99
    ensures var p := Plan(|file|, percent, pattern);
            if p.isFullRead then Covered(file, p) == file
            else p.off1 + p.len1 <= |file| && (p.len2 > 0 ==> p.off2 <= |file|)
                 && Covered(file, p) == file[p.off1..p.off1 + p.len1] + (if p.len2 > 0 then file[p.off2..] else [])
  {
    hide Plan, RoundHalfUp;
    PlanShape(|file|, percent, pattern);
    var p := Plan(|file|, percent, pattern);
    if !p.isFullRead {
      assert Block(file, p.off1, p.len1) == file[p.off1..p.off1 + p.len1];
      if p.len2 > 0 { assert Block(file, p.off2, p.len2) == file[p.off2..]; }
    }
  }
}
