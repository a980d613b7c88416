/** Space-Saving heavy hitters: the directories that cost most hashing time, in bounded memory. */
module DirTiming {
  import opened Wrappers
  import opened Bytes
  import opened Results

  datatype Counter = Counter(est: real, err: real)

  type Counters = map<Path, Counter>

  ghost function SumEst(m: Counters): real
    decreases |m|
  {
    if m == map[] then 0.0 else
    var k :| k in m;
    Smaller(m, k);
    m[k].est + SumEst(m - {k})
  }

  lemma Smaller(m: Counters, k: Path)
    requires k in m
    ensures |m - {k}| == |m| - 1
  {
    assert (m - {k}).Keys == m.Keys - {k};
  }

  lemma {:induction false} SumTake(m: Counters, k: Path)
    requires k in m
    ensures SumEst(m) == m[k].est + SumEst(m - {k})
    decreases |m|
  {
    var f :| f in m && SumEst(m) == m[f].est + SumEst(m - {f});
    if f != k {
      Smaller(m, f);
      Smaller(m, k);
      SumTake(m - {f}, k);
      SumTake(m - {k}, f);
      assert m - {f} - {k} == m - {k} - {f};
    }
  }

  lemma SumSet(m: Counters, k: Path, c: Counter)
    ensures SumEst(m[k := c]) == c.est + SumEst(m - {k})
  {
    SumTake(m[k := c], k);
    assert m[k := c] - {k} == m - {k};
  }

  /** n times v. */
  ghost function Times(n: nat, v: real): real {
    if n == 0 then 0.0 else Times(n - 1, v) + v
  }

  lemma {:induction false} TimesIsProduct(n: nat, v: real)
    ensures Times(n, v) == n as real * v
  {
    if n > 0 {
      TimesIsProduct(n - 1, v);
      Distribute((n - 1) as real, v);
    }
  }

  lemma Distribute(x: real, v: real)
    ensures x * v + v == (x + 1.0) * v
  {}

  /** Estimates of at least v each. */
  lemma {:induction false} SumAtLeast(m: Counters, v: real)
    requires forall k <- m :: m[k].est >= v
    ensures SumEst(m) >= Times(|m|, v)
    decreases |m|
  {
    hide SumEst;
    if m == map[] {
      NoSum();
    } else {
      var k :| k in m;
      Smaller(m, k);
      SumTake(m, k);
      SumAtLeast(m - {k}, v);
    }
  }

  lemma NoSum()
    ensures SumEst(map[]) == 0.0
  {}

  ghost function TrueSum(fed: map<Path, real>, d: Path): real {
    if d in fed then fed[d] else 0.0
  }

  /** The true sum of a tracked directory is at most its estimate, and misses it by at most the error. */
  ghost predicate Within(m: Counters, fed: map<Path, real>) {
    forall d <- m :: m[d].err >= 0.0 && m[d].est - m[d].err <= TrueSum(fed, d) <= m[d].est
  }

  /** The true sum of any other directory is at most every estimate, or nothing while there is room. */
  ghost predicate Covered(m: Counters, fed: map<Path, real>, counters: nat) {
    forall x :: x !in m ==> TrueSum(fed, x) == 0.0 || (|m| >= counters && BelowAll(m, TrueSum(fed, x)))
  }

  ghost predicate BelowAll(m: Counters, v: real) {
    forall d <- m :: v <= m[d].est
  }

  /** The estimates add up to what was fed, and bound the true sums. */
  ghost predicate Bounds(m: Counters, total: real, fed: map<Path, real>, counters: nat) {
    && |m| <= counters && total == SumEst(m) && Within(m, fed) && Covered(m, fed, counters)
    && forall d :: TrueSum(fed, d) >= 0.0
  }

  /** No error while there is room, and none above any estimate after that. */
  ghost predicate Errors(m: Counters, counters: nat) {
    forall d <- m :: m[d].est >= 0.0 && (|m| < counters ==> m[d].err == 0.0) && BelowAll(m, m[d].err)
  }

  /** A ranked directory. */
  datatype Entry = Entry(dir: Path, seconds: real)

  /** One run side of the profiler. */
  class HashTop {
    const displayN: nat
    const counters: nat
    var tracked: Counters
    var total: real

    /** What was really fed for each directory. */
    ghost var fed: map<Path, real>

    ghost predicate Valid()
      reads this
    {
      Bounds(tracked, total, fed, counters) && Errors(tracked, counters)
    }

    constructor (displayN: nat, counters: nat)
      ensures Valid() && this.displayN == displayN && this.counters == counters && fed == map[] && total == 0.0
    {
      this.displayN, this.counters := displayN, counters;
      tracked, total, fed := map[], 0.0, map[];
    }

    /** add: a known directory grows; a new one takes a free counter, or the place of the smallest estimate, whose value
        it starts from. */
    method Add(dir: Path, seconds: real)
      requires Valid()
      modifies this
      ensures Valid()
      ensures var takes := counters != 0 && displayN != 0 && seconds >= 0.0;
              && fed == (if takes then old(fed)[dir := TrueSum(old(fed), dir) + seconds] else old(fed))
              && total == old(total) + (if takes then seconds else 0.0)
    {
      hide Bounds, TrueSum, Errors;
      if counters == 0 || displayN == 0 || seconds < 0.0 { return; }
      ghost var was := fed;
      fed := fed[dir := TrueSum(fed, dir) + seconds];
      TrueAfter(was, dir, seconds);
      total := total + seconds;
      if dir in tracked {
        Grown(tracked, total - seconds, was, fed, counters, dir, seconds);
        GrownErrors(tracked, counters, dir, seconds);
        tracked := tracked[dir := tracked[dir].(est := tracked[dir].est + seconds)];
        return;
      }
      if |tracked| < counters {
        Admitted(tracked, total - seconds, was, fed, counters, dir, seconds);
        AdmittedErrors(tracked, counters, dir, seconds);
        tracked := tracked[dir := Counter(seconds, 0.0)];
        return;
      }
      var m := Minimum();
      var mine := tracked[m].est;
      Evicted(tracked, total - seconds, was, fed, counters, dir, seconds, m);
      EvictedErrors(tracked, counters, dir, seconds, m);
      tracked := (tracked - {m})[dir := Counter(mine + seconds, mine)];
    }

    /** top: the directories in descending order of estimate, cut to the number that is displayed. */
    method Top() returns (out: seq<Entry>)
      ensures displayN == 0 ==> out == []
      ensures displayN != 0 ==> Ranked(tracked, out, displayN)
    {
      hide Ranks, Ranked;
      out := [];
      if displayN == 0 { return; }
      var left := tracked.Keys;
      assert tracked - left == map[];
      RanksNothing();
      while left != {}
        invariant left <= tracked.Keys && Ranks(tracked - left, out)
        decreases left
      {
        var k :| k in left;
        RanksDescend(tracked - left, out);
        var at := Position(out, tracked[k].est);
        assert (tracked - left)[k := tracked[k]] == tracked - (left - {k});
        InsertRanked(tracked - left, out, k, tracked[k], at);
        out := out[..at] + [Entry(k, tracked[k].est)] + out[at..];
        left := left - {k};
      }
      assert tracked - {} == tracked;
      Cut(tracked, out, displayN);
      if |out| > displayN { out := out[..displayN]; }
    }

    /** The scan for the smallest estimate. */
    method Minimum() returns (m: Path)
      requires tracked != map[]
      ensures m in tracked && forall d <- tracked :: tracked[m].est <= tracked[d].est
    {
      m :| m in tracked;
      var left := tracked.Keys;
      while left != {}
        invariant left <= tracked.Keys && m in tracked
        invariant forall d <- tracked :: d !in left ==> tracked[m].est <= tracked[d].est
        decreases left
      {
        var i :| i in left;
        if tracked[i].est < tracked[m].est { m := i; }
        left := left - {i};
      }
    }
  }

  ghost predicate Fed(was: map<Path, real>, fed: map<Path, real>, dir: Path, seconds: real) {
    seconds >= 0.0 && forall d :: TrueSum(fed, d) == TrueSum(was, d) + (if d == dir then seconds else 0.0)
  }

  lemma TrueAfter(fed: map<Path, real>, dir: Path, seconds: real)
    requires seconds >= 0.0
    ensures Fed(fed, fed[dir := TrueSum(fed, dir) + seconds], dir, seconds)
  {}

  lemma SetSize(m: Counters, k: Path, c: Counter)
    ensures |m[k := c]| == |m| + (if k in m then 0 else 1)
  {
    assert m[k := c].Keys == m.Keys + {k};
  }

  /** A known directory. */
  lemma Grown(m: Counters, total: real, was: map<Path, real>, fed: map<Path, real>, counters: nat, dir: Path, seconds: real)
    requires Bounds(m, total, was, counters) && Fed(was, fed, dir, seconds) && dir in m
    ensures Bounds(m[dir := m[dir].(est := m[dir].est + seconds)], total + seconds, fed, counters)
  {
    hide TrueSum, SumEst;
    var c := m[dir].(est := m[dir].est + seconds);
    SumTake(m, dir);
    SumSet(m, dir, c);
    SetSize(m, dir, c);
    assert m[dir := c].Keys == m.Keys;
    forall v | BelowAll(m, v) ensures BelowAll(m[dir := c], v) {}
    hide BelowAll;
  }

  /** A free counter. */
  lemma Admitted(m: Counters, total: real, was: map<Path, real>, fed: map<Path, real>, counters: nat, dir: Path, seconds: real)
    requires Bounds(m, total, was, counters) && Fed(was, fed, dir, seconds) && dir !in m && |m| < counters
    ensures Bounds(m[dir := Counter(seconds, 0.0)], total + seconds, fed, counters)
  {
    hide TrueSum, BelowAll, SumEst;
    SumSet(m, dir, Counter(seconds, 0.0));
    SetSize(m, dir, Counter(seconds, 0.0));
    assert m - {dir} == m;
  }

  /** The place of the smallest estimate. */
  lemma Evicted(m: Counters, total: real, was: map<Path, real>, fed: map<Path, real>, counters: nat, dir: Path, seconds: real, min: Path)
    requires Bounds(m, total, was, counters) && Fed(was, fed, dir, seconds) && dir !in m && |m| >= counters
    requires min in m && forall d <- m :: m[min].est <= m[d].est
    ensures var mine := m[min].est; Bounds((m - {min})[dir := Counter(mine + seconds, mine)], total + seconds, fed, counters)
  {
    hide TrueSum, SumEst;
    var mine := m[min].est;
    var c := Counter(mine + seconds, mine);
    EvictedSums(m, dir, c, min);
    EvictedBounds(m, was, fed, counters, dir, seconds, min);
  }

  lemma EvictedSums(m: Counters, dir: Path, c: Counter, min: Path)
    requires min in m && dir !in m
    ensures SumEst((m - {min})[dir := c]) == SumEst(m) - m[min].est + c.est && |(m - {min})[dir := c]| == |m|
  {
    hide SumEst;
    SumTake(m, min);
    Smaller(m, min);
    SumSet(m - {min}, dir, c);
    SetSize(m - {min}, dir, c);
    assert m - {min} - {dir} == m - {min};
  }

  lemma EvictedBounds(m: Counters, was: map<Path, real>, fed: map<Path, real>, counters: nat, dir: Path, seconds: real, min: Path)
    requires Within(m, was) && Covered(m, was, counters) && Fed(was, fed, dir, seconds) && dir !in m && |m| >= counters
    requires forall d :: TrueSum(was, d) >= 0.0
    requires min in m && forall d <- m :: m[min].est <= m[d].est
    ensures var mine := m[min].est;
            var m' := (m - {min})[dir := Counter(mine + seconds, mine)];
            Within(m', fed) && forall x :: x !in m' ==> BelowAll(m', TrueSum(fed, x))
  {
    hide TrueSum;
    var mine := m[min].est;
    var m' := (m - {min})[dir := Counter(mine + seconds, mine)];
    assert mine >= TrueSum(was, min);
    forall x | x !in m' ensures BelowAll(m', TrueSum(fed, x)) {
      assert TrueSum(fed, x) == TrueSum(was, x);
      if x != min { assert TrueSum(was, x) == 0.0 || BelowAll(m, TrueSum(was, x)); }
    }
    assert TrueSum(was, dir) == 0.0 || BelowAll(m, TrueSum(was, dir));
  }

  lemma GrownErrors(m: Counters, counters: nat, dir: Path, seconds: real)
    requires Errors(m, counters) && dir in m && seconds >= 0.0
    ensures Errors(m[dir := m[dir].(est := m[dir].est + seconds)], counters)
  {
    SetSize(m, dir, m[dir].(est := m[dir].est + seconds));
  }

  lemma AdmittedErrors(m: Counters, counters: nat, dir: Path, seconds: real)
    requires Errors(m, counters) && dir !in m && |m| < counters && seconds >= 0.0
    ensures Errors(m[dir := Counter(seconds, 0.0)], counters)
  {
    SetSize(m, dir, Counter(seconds, 0.0));
  }

  lemma EvictedErrors(m: Counters, counters: nat, dir: Path, seconds: real, min: Path)
    requires Errors(m, counters) && dir !in m && |m| >= counters && seconds >= 0.0
    requires min in m && forall d <- m :: m[min].est <= m[d].est
    ensures Errors((m - {min})[dir := Counter(m[min].est + seconds, m[min].est)], counters)
  {
    var c := Counter(m[min].est + seconds, m[min].est);
    Smaller(m, min);
    SetSize(m - {min}, dir, c);
    assert forall d <- m :: BelowAll(m, m[d].err);
  }

  /** An error is at most an equal share of everything fed. */
  lemma ErrorSmall(m: Counters, total: real, fed: map<Path, real>, counters: nat, d: Path)
    requires Bounds(m, total, fed, counters) && Errors(m, counters) && d in m
    ensures m[d].err * counters as real <= total
  {
    hide SumEst, Covered, TrueSum;
    SumAtLeast(m, if |m| < counters then 0.0 else m[d].err);
    TimesIsProduct(|m|, if |m| < counters then 0.0 else m[d].err);
  }

  // --- what the ranking shows ---

  ghost predicate Descending(out: seq<Entry>) {
    forall i, j | 0 <= i < j < |out| :: out[i].seconds >= out[j].seconds
  }

  /** Every directory once, with its estimate. */
  ghost predicate Lists(m: Counters, out: seq<Entry>) {
    && |out| == |m|
    && (forall i | 0 <= i < |out| :: out[i].dir in m && out[i].seconds == m[out[i].dir].est)
    && (forall i, j | 0 <= i < j < |out| :: out[i].dir != out[j].dir)
    && (forall d <- m :: exists i | 0 <= i < |out| :: out[i].dir == d)
  }

  ghost predicate Ranks(m: Counters, out: seq<Entry>) {
    Descending(out) && Lists(m, out)
  }

  /** The first n of the ranking. */
  ghost predicate Ranked(m: Counters, out: seq<Entry>, n: nat) {
    exists all: seq<Entry> :: Ranks(m, all) && out == all[..if |all| > n then n else |all|]
  }

  lemma RanksNothing()
    ensures Ranks(map[], [])
  {}

  lemma RanksDescend(m: Counters, out: seq<Entry>)
    requires Ranks(m, out)
    ensures Descending(out)
  {}

  /** Behind every larger or equal estimate. */
  method Position(out: seq<Entry>, est: real) returns (at: nat)
    requires Descending(out)
    ensures at <= |out| && (forall i | 0 <= i < at :: out[i].seconds >= est) && forall i | at <= i < |out| :: out[i].seconds < est
  {
    at := |out|;
    while at > 0 && out[at - 1].seconds < est
      invariant 0 <= at <= |out| && forall i | at <= i < |out| :: out[i].seconds < est
    {
      at := at - 1;
    }
  }

  lemma InsertDescending(out: seq<Entry>, e: Entry, at: nat)
    requires Descending(out) && at <= |out|
    requires (forall i | 0 <= i < at :: out[i].seconds >= e.seconds) && forall i | at <= i < |out| :: out[i].seconds < e.seconds
    ensures Descending(out[..at] + [e] + out[at..])
  {
    var r := out[..at] + [e] + out[at..];
    forall i, j | 0 <= i < j < |r| ensures r[i].seconds >= r[j].seconds {
      if j < at { assert r[i] == out[i] && r[j] == out[j]; }
      else if j == at { assert r[i] == out[i]; }
      else {
        assert r[j] == out[j - 1];
        if i < at { assert r[i] == out[i]; } else if i > at { assert r[i] == out[i - 1]; }
      }
    }
  }

  lemma ListsInsert(m: Counters, out: seq<Entry>, k: Path, c: Counter, at: nat)
    requires Lists(m, out) && k !in m && at <= |out|
    ensures Lists(m[k := c], out[..at] + [Entry(k, c.est)] + out[at..])
  {
    SetSize(m, k, c);
    StillDistinct(m, out, k, c, at);
    StillAll(m, out, k, c, at);
    var r, m' := out[..at] + [Entry(k, c.est)] + out[at..], m[k := c];
    forall i | 0 <= i < |r| ensures r[i].dir in m' && r[i].seconds == m'[r[i].dir].est {
      if i < at { assert r[i] == out[i]; } else if i > at { assert r[i] == out[i - 1]; }
    }
  }

  lemma StillDistinct(m: Counters, out: seq<Entry>, k: Path, c: Counter, at: nat)
    requires Lists(m, out) && k !in m && at <= |out|
    ensures var r := out[..at] + [Entry(k, c.est)] + out[at..]; forall i, j | 0 <= i < j < |r| :: r[i].dir != r[j].dir
  {
    var r := out[..at] + [Entry(k, c.est)] + out[at..];
    forall i, j | 0 <= i < j < |r| ensures r[i].dir != r[j].dir {
      if j < at { assert r[i] == out[i] && r[j] == out[j]; }
      else if j == at { assert r[i] == out[i]; }
      else {
        assert r[j] == out[j - 1];
        if i < at { assert r[i] == out[i]; } else if i > at { assert r[i] == out[i - 1]; }
      }
    }
  }

  lemma StillAll(m: Counters, out: seq<Entry>, k: Path, c: Counter, at: nat)
    requires Lists(m, out) && k !in m && at <= |out|
    ensures var r := out[..at] + [Entry(k, c.est)] + out[at..]; forall d | d in m || d == k :: exists i | 0 <= i < |r| :: r[i].dir == d
  {
    var r := out[..at] + [Entry(k, c.est)] + out[at..];
    assert r[at].dir == k;
    forall d | d in m ensures exists i | 0 <= i < |r| :: r[i].dir == d {
      var i :| 0 <= i < |out| && out[i].dir == d;
      assert r[if i < at then i else i + 1].dir == d;
    }
  }

  lemma InsertRanked(m: Counters, out: seq<Entry>, k: Path, c: Counter, at: nat)
    requires Ranks(m, out) && k !in m && at <= |out|
    requires (forall i | 0 <= i < at :: out[i].seconds >= c.est) && forall i | at <= i < |out| :: out[i].seconds < c.est
    ensures Ranks(m[k := c], out[..at] + [Entry(k, c.est)] + out[at..])
  {
    hide Lists, Descending;
    InsertDescending(out, Entry(k, c.est), at);
    ListsInsert(m, out, k, c, at);
  }

  lemma Cut(m: Counters, all: seq<Entry>, n: nat)
    requires Ranks(m, all)
    ensures Ranked(m, if |all| > n then all[..n] else all, n)
  {
    hide Ranks;
    assert all[..|all|] == all;
  }

  lemma {:induction false} SumSub(m: Counters, keys: set<Path>)
    requires keys <= m.Keys && forall d <- m :: m[d].est >= 0.0
    ensures SumEst(m) >= SumEst(map d | d in keys :: m[d])
    decreases |m|
  {
    hide SumEst;
    var sub := map d | d in keys :: m[d];
    if m.Keys <= keys {
      assert sub == m;
    } else {
      var k :| k in m.Keys && k !in keys;
      SumTake(m, k);
      Smaller(m, k);
      SumSub(m - {k}, keys);
      assert (map d | d in keys :: (m - {k})[d]) == sub;
    }
  }

  /** Every directory whose true sum exceeds a counters-th of the total is tracked. */
  lemma HeavyTracked(m: Counters, total: real, fed: map<Path, real>, counters: nat, d: Path)
    requires Bounds(m, total, fed, counters) && TrueSum(fed, d) * counters as real > total
    ensures d in m
  {
    hide SumEst, TrueSum;
    var v := TrueSum(fed, d);
    if d !in m {
      AllPositive(m, fed);
      SumAtLeast(m, 0.0);
      TimesIsProduct(|m|, 0.0);
      if v == 0.0 {
        Nothing(counters as real);
      } else {
        SumAtLeast(m, v);
        TimesIsProduct(counters, v);
      }
      assert false;
    }
  }

  lemma AllPositive(m: Counters, fed: map<Path, real>)
    requires Within(m, fed) && forall d :: TrueSum(fed, d) >= 0.0
    ensures forall d <- m :: m[d].est >= 0.0
  {
    hide TrueSum;
  }

  lemma Nothing(x: real)
    ensures 0.0 * x == 0.0 && x * 0.0 == 0.0
  {}

  /** Every directory whose true sum exceeds a displayN-th of the total is shown, as long as no more are displayed than
      are counted. */
  lemma HeavyShown(m: Counters, total: real, fed: map<Path, real>, counters: nat, out: seq<Entry>, n: nat, d: Path)
    requires Bounds(m, total, fed, counters) && 0 < n <= counters && Ranked(m, out, n)
    requires TrueSum(fed, d) * n as real > total
    ensures exists i | 0 <= i < |out| :: out[i].dir == d
  {
    hide SumEst, TrueSum, Covered;
    var v := TrueSum(fed, d);
    MoreCounters(v, n, counters, total);
    HeavyTracked(m, total, fed, counters, d);
    var all: seq<Entry> :| Ranks(m, all) && out == all[..if |all| > n then n else |all|];
    var j :| 0 <= j < |all| && all[j].dir == d;
    if j >= |out| {
      Unshown(m, all, n, j, v);
      TimesIsProduct(n, v);
      assert false;
    }
    assert out[j].dir == d;
  }

  lemma MoreCounters(v: real, n: nat, counters: nat, total: real)
    requires v >= 0.0 && n <= counters && v * n as real > total
    ensures v * counters as real > total
  {
    var x, y := n as real, counters as real;
    assert y >= x;
    Monotone(v, x, y);
  }

  lemma Monotone(v: real, x: real, y: real)
    requires v >= 0.0 && y >= x
    ensures v * y >= v * x
  {}

  /** If the j-th directory is cut off, the n before it have at least its estimate. */
  lemma Unshown(m: Counters, all: seq<Entry>, n: nat, j: nat, v: real)
    requires Ranks(m, all) && n <= j < |all| && all[j].seconds >= v >= 0.0 && forall d <- m :: m[d].est >= 0.0
    ensures SumEst(m) >= Times(n, v)
  {
    hide SumEst;
    var keys := FirstDirs(all, n);
    DistinctKeys(all, n);
    FirstDirsIn(all, n);
    var sub := map d | d in keys :: m[d];
    assert sub.Keys == keys;
    SumSub(m, keys);
    SumAtLeast(sub, v);
  }

  ghost function FirstDirs(all: seq<Entry>, n: nat): set<Path>
    requires n <= |all|
  {
    if n == 0 then {} else FirstDirs(all, n - 1) + {all[n - 1].dir}
  }

  lemma {:induction false} FirstDirsIn(all: seq<Entry>, n: nat)
    requires n <= |all|
    ensures forall d <- FirstDirs(all, n) :: exists i | 0 <= i < n :: all[i].dir == d
  {
    if n > 0 {
      FirstDirsIn(all, n - 1);
      forall d | d in FirstDirs(all, n) ensures exists i | 0 <= i < n :: all[i].dir == d {
        if d == all[n - 1].dir { assert all[n - 1].dir == d; }
        else { assert d in FirstDirs(all, n - 1); }
      }
    }
  }

  lemma {:induction false} DistinctKeys(all: seq<Entry>, n: nat)
    requires n <= |all| && forall i, j | 0 <= i < j < |all| :: all[i].dir != all[j].dir
    ensures |FirstDirs(all, n)| == n
  {
    if n > 0 {
      DistinctKeys(all, n - 1);
      FirstDirsIn(all, n - 1);
      var last, fewer := all[n - 1].dir, FirstDirs(all, n - 1);
      if last in fewer { assert false; }
    }
  }
}
