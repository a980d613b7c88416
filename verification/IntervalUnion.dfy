/** The exact union of time intervals, and how long two sides were active at the same time. */
module IntervalUnion {
  import opened Wrappers

  type Tick = nat

  /** Disjoint half-open segments, by their start. */
  type Segments = map<Tick, Tick>

  ghost function Ticks(start: Tick, end: Tick): (ticks: set<Tick>)
    ensures forall t :: t in ticks <==> start <= t < end
    ensures |ticks| == if start < end then end - start else 0
    decreases end
  {
    if end <= start then {} else Ticks(start, end - 1) + {end - 1}
  }

  ghost function Cover(segs: Segments): set<Tick> {
    set k, t | k in segs && t in Ticks(k, segs[k]) :: t
  }

  /** Segments are not empty, and one ends before the next begins: sorted, disjoint and not touching. */
  ghost predicate Apart(segs: Segments) {
    && (forall k <- segs :: k < segs[k])
    && (forall j, k | j in segs && k in segs && j < k :: segs[j] < k)
  }

  lemma CoverWithout(segs: Segments, k: Tick)
    requires k in segs
    ensures Cover(segs) == Cover(segs - {k}) + Ticks(k, segs[k])
  {
    hide Ticks;
    var rest := segs - {k};
    forall t ensures t in Cover(segs) <==> t in Cover(rest) || t in Ticks(k, segs[k]) {
      if t in Cover(segs) { var j :| j in segs && t in Ticks(j, segs[j]); assert j != k ==> j in rest; }
      if t in Cover(rest) { var j :| j in rest && t in Ticks(j, rest[j]); assert j in segs; }
    }
  }

  lemma OthersElsewhere(segs: Segments, k: Tick)
    requires Apart(segs) && k in segs
    ensures Cover(segs - {k}) !! Ticks(k, segs[k])
  {
    hide Ticks;
    var rest := segs - {k};
    forall t | t in Cover(rest) ensures t !in Ticks(k, segs[k]) {
      var j :| j in rest && t in Ticks(j, rest[j]);
      assert j in segs && segs[j] == rest[j] && j != k;
    }
  }

  lemma UnionSize(a: set<Tick>, b: set<Tick>)
    requires a !! b
    ensures |a + b| == |a| + |b|
  {}

  lemma ApartWithout(segs: Segments, k: Tick)
    requires Apart(segs)
    ensures Apart(segs - {k})
  {
    var rest := segs - {k};
    assert forall j <- rest :: j in segs && segs[j] == rest[j];
  }

  /** Erasing a segment uncovers exactly its ticks. */
  lemma EraseCover(segs: Segments, k: Tick)
    requires Apart(segs) && k in segs
    ensures Apart(segs - {k}) && Cover(segs) == Cover(segs - {k}) + Ticks(k, segs[k]) && k < segs[k]
    ensures |Cover(segs)| == |Cover(segs - {k})| + (segs[k] - k)
  {
    hide Ticks, Cover;
    CoverWithout(segs, k);
    OthersElsewhere(segs, k);
    ApartWithout(segs, k);
    UnionSize(Cover(segs - {k}), Ticks(k, segs[k]));
  }

  /** Adding a segment away from all others covers exactly its ticks. */
  lemma EmplaceCover(segs: Segments, start: Tick, end: Tick)
    requires Apart(segs) && start < end && forall k <- segs :: segs[k] < start || end < k
    ensures Apart(segs[start := end]) && Cover(segs[start := end]) == Cover(segs) + Ticks(start, end)
    ensures |Cover(segs[start := end])| == |Cover(segs)| + (end - start)
  {
    hide Ticks, Cover, Apart;
    StartIsFree(segs, start, end);
    ApartWith(segs, start, end);
    var more := segs[start := end];
    assert more - {start} == segs;
    EraseCover(more, start);
  }

  lemma StartIsFree(segs: Segments, start: Tick, end: Tick)
    requires Apart(segs) && start < end && forall k <- segs :: segs[k] < start || end < k
    ensures start !in segs
  {}

  lemma ApartWith(segs: Segments, start: Tick, end: Tick)
    requires Apart(segs) && start < end && forall k <- segs :: segs[k] < start || end < k
    ensures Apart(segs[start := end])
  {
    var more := segs[start := end];
    forall j, k | j in more && k in more && j < k ensures more[j] < k {
      if j != start && k != start { assert segs[j] < k; }
    }
  }

  /** std::map::lower_bound: the first segment that starts at x or later. */
  method LowerBound(segs: Segments, x: Tick) returns (at: Option<Tick>)
    ensures at.None? ==> forall k <- segs :: k < x
    ensures at.Some? ==> at.value in segs && at.value >= x && forall k <- segs :: k >= x ==> at.value <= k
  {
    at := None;
    var left := segs.Keys;
    while left != {}
      invariant left <= segs.Keys
      invariant at.None? ==> forall k <- segs :: k !in left ==> k < x
      invariant at.Some? ==> at.value in segs && at.value >= x && forall k <- segs :: k !in left && k >= x ==> at.value <= k
      decreases left
    {
      var k :| k in left;
      if k >= x && (at.None? || k < at.value) { at := Some(k); }
      left := left - {k};
    }
  }

  /** std::prev of a lower bound: the last segment that starts before x. */
  method Previous(segs: Segments, x: Tick) returns (at: Option<Tick>)
    ensures at.None? ==> forall k <- segs :: k >= x
    ensures at.Some? ==> at.value in segs && at.value < x && forall k <- segs :: k < x ==> k <= at.value
  {
    at := None;
    var left := segs.Keys;
    while left != {}
      invariant left <= segs.Keys
      invariant at.None? ==> forall k <- segs :: k !in left ==> k >= x
      invariant at.Some? ==> at.value in segs && at.value < x && forall k <- segs :: k !in left && k < x ==> k <= at.value
      decreases left
    {
      var k :| k in left;
      if k < x && (at.None? || k > at.value) { at := Some(k); }
      left := left - {k};
    }
  }

  class Union {
    var segs: Segments
    var total: nat

    /** The running total is the number of ticks covered. */
    ghost predicate Valid()
      reads this
    {
      Apart(segs) && total == |Cover(segs)|
    }

    constructor ()
      ensures Valid() && segs == map[] && Cover(segs) == {}
    {
      segs, total := map[], 0;
      new;
      assert Cover(segs) == {};
    }

    /** insert: the interval is merged with every segment that it overlaps or touches. */
    method Insert(start0: Tick, end: Tick)
      requires Valid()
      modifies this
      ensures Valid() && Cover(segs) == old(Cover(segs)) + Ticks(start0, end)
    {
      hide Cover, Apart, Ticks;
      if end <= start0 {
        assert Ticks(start0, end) == {};
        return;
      }
      ghost var goal := Cover(segs) + Ticks(start0, end);
      var start := start0;
      var prev := Previous(segs, start);
      if prev.Some? && segs[prev.value] >= start {
        start := prev.value;
        if segs[start] >= end {
          CoveredAlready(segs, start, start0, end);
          return;
        }
        EraseCover(segs, start);
        total := total - (segs[start] - start);
        Joined(segs, start, start0, end);
        segs := segs - {start};
      } else {
        EarlierApart(segs, start, prev);
      }
      Absorb(start, end, goal);
    }

    /** The loop of insert: segments that start no later than the growing end are taken in. */
    method Absorb(start: Tick, end: Tick, ghost goal: set<Tick>)
      requires Valid() && start < end && Cover(segs) + Ticks(start, end) == goal
      requires forall k <- segs :: k < start ==> segs[k] < start
      modifies this
      ensures Valid() && Cover(segs) == goal
    {
      hide Cover, Ticks, Apart;
      var segEnd := end;
      var it := LowerBound(segs, start);
      while it.Some? && it.value <= segEnd
        invariant Valid() && start < segEnd && Cover(segs) + Ticks(start, segEnd) == goal
        invariant forall k <- segs :: k < start ==> segs[k] < start
        invariant it.None? ==> forall k <- segs :: k < start
        invariant it.Some? ==> it.value in segs && it.value >= start && forall k <- segs :: k >= start ==> it.value <= k
        decreases |segs|
      {
        var k := it.value;
        EraseCover(segs, k);
        Taken(start, segEnd, k, segs[k]);
        Fewer(segs, k);
        total := total - (segs[k] - k);
        if segs[k] > segEnd { segEnd := segs[k]; }
        segs := segs - {k};
        it := LowerBound(segs, start);
      }
      EmplaceCover(segs, start, segEnd);
      segs := segs[start := segEnd];
      total := total + (segEnd - start);
    }

    method Length() returns (n: nat)
      requires Valid()
      ensures n == |Cover(segs)|
    {
      n := total;
    }
  }

  /** When the last segment before start ends before it, so do all earlier ones. */
  lemma EarlierApart(segs: Segments, start: Tick, prev: Option<Tick>)
    requires Apart(segs)
    requires prev.None? ==> forall k <- segs :: k >= start
    requires prev.Some? ==> prev.value in segs && prev.value < start && (forall k <- segs :: k < start ==> k <= prev.value)
                            && segs[prev.value] < start
    ensures forall k <- segs :: k < start ==> segs[k] < start
  {}

  lemma CoveredAlready(segs: Segments, k: Tick, start: Tick, end: Tick)
    requires k in segs && k <= start && end <= segs[k]
    ensures Cover(segs) == Cover(segs) + Ticks(start, end)
  {
    hide Ticks;
    forall t | t in Ticks(start, end) ensures t in Cover(segs) { assert t in Ticks(k, segs[k]); }
  }

  lemma Joined(segs: Segments, k: Tick, start: Tick, end: Tick)
    requires Apart(segs) && k in segs && k < start <= segs[k] < end
    ensures Cover(segs) + Ticks(start, end) == Cover(segs - {k}) + Ticks(k, end)
    ensures forall j <- segs - {k} :: j < k ==> (segs - {k})[j] < k
  {
    hide Ticks, Cover;
    EraseCover(segs, k);
    JoinTicks(k, segs[k], start, end);
  }

  lemma JoinTicks(k: Tick, e: Tick, start: Tick, end: Tick)
    requires k < start <= e < end
    ensures Ticks(k, end) == Ticks(k, e) + Ticks(start, end)
  {
    hide Ticks;
  }

  lemma Taken(start: Tick, segEnd: Tick, k: Tick, e: Tick)
    requires start <= k <= segEnd && k < e
    ensures Ticks(k, e) + Ticks(start, segEnd) == Ticks(start, if e > segEnd then e else segEnd)
  {
    hide Ticks;
  }

  lemma Fewer(segs: Segments, k: Tick)
    requires k in segs
    ensures |segs - {k}| == |segs| - 1
  {
    assert (segs - {k}).Keys == segs.Keys - {k};
  }

  /** The three unions of a profiled run: one per side, and both together. */
  class Activity {
    const unionA: Union
    const unionB: Union
    const unionAB: Union

    ghost predicate Valid()
      reads this, unionA, unionB, unionAB
    {
      && unionA != unionB && unionA != unionAB && unionB != unionAB
      && unionA.Valid() && unionB.Valid() && unionAB.Valid()
      && Cover(unionAB.segs) == Cover(unionA.segs) + Cover(unionB.segs)
    }

    constructor ()
      ensures Valid() && fresh(unionA) && fresh(unionB) && fresh(unionAB)
    {
      unionA := new Union();
      unionB := new Union();
      unionAB := new Union();
    }

    /** A file of one side was active from start to end. */
    method Record(sideA: bool, start: Tick, end: Tick)
      requires Valid()
      modifies unionA, unionB, unionAB
      ensures Valid()
      ensures Cover(unionA.segs) == old(Cover(unionA.segs)) + (if sideA then Ticks(start, end) else {})
      ensures Cover(unionB.segs) == old(Cover(unionB.segs)) + (if sideA then {} else Ticks(start, end))
    {
      hide Cover, Ticks, Apart;
      if sideA { unionA.Insert(start, end); } else { unionB.Insert(start, end); }
      unionAB.Insert(start, end);
    }

    /** The overlap computed from the three lengths is exactly the number of ticks when both sides were active. */
    method Overlap() returns (ticks: int)
      requires Valid()
      ensures ticks == |Cover(unionA.segs) * Cover(unionB.segs)| && ticks >= 0
    {
      var ua := unionA.Length();
      var ub := unionB.Length();
      var uab := unionAB.Length();
      InclusionExclusion(Cover(unionA.segs), Cover(unionB.segs));
      var overlap := ua + ub - uab;
      ticks := if overlap > 0 then overlap else 0;
    }
  }

  lemma InclusionExclusion(a: set<Tick>, b: set<Tick>)
    ensures |a| + |b| - |a + b| == |a * b|
  {
    assert a + b == a + (b - a) && b == (b - a) + a * b;
  }
}
