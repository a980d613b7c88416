/** The guarded recursive delete, over a destination tree that changes only through these calls. */
module SyncFs {
  import opened Wrappers
  import opened Bytes
  import opened Results
  import opened RunResult
  import opened SyncTree

  /** skipped: unexpected content, the directory is left in place; hard: an error that is reported as a failure. */
  datatype DeleteOutcome = Deleted | Skipped | Cancelled | Failed

  /** A directory on the way down, and whether something inside was removed during this run. */
  datatype Frame = Frame(rel: Path, dirty: bool)

  class Disk {
    var tree: Fs

    /** Whether a call failed for outside reasons, or the user cancelled. */
    ghost var trouble: bool

    constructor (tree: Fs)
      ensures this.tree == tree && !trouble
    {
      this.tree, trouble := tree, false;
    }

    /** FindFirstFile, FindNextFile: the entries of a directory, in some order. */
    method List(dir: Path) returns (children: seq<Path>)
      ensures forall c :: c in children <==> c in tree && IsChild(c, dir)
      ensures forall i, j | 0 <= i < j < |children| :: children[i] != children[j]
    {
      children := [];
      var left := tree.Keys;
      while left != {}
        invariant left <= tree.Keys
        invariant forall c :: c in children <==> c in tree && c !in left && IsChild(c, dir)
        invariant forall i, j | 0 <= i < j < |children| :: children[i] != children[j]
        decreases left
      {
        hide IsChild;
        var k :| k in left;
        if IsChild(k, dir) { children := children + [k]; }
        left := left - {k};
      }
    }
  }

  /** Nothing above the path is a file or a link. */
  ghost predicate Reachable(fs: Fs, k: Path) {
    forall p <- fs :: Below(k, p) ==> fs[p] == Dir
  }

  /** CheckParentChain: no component above the path is a file or a link; the walk stops at the first absent one. */
  method CheckParentChain(disk: Disk, k: Path) returns (ok: bool)
    requires TreeOk(disk.tree)
    ensures ok <==> Reachable(disk.tree, k)
  {
    hide TreeOk, Below;
    for i := 0 to |k|
      invariant forall p <- disk.tree :: |p| < i && Below(k, p) ==> disk.tree[p] == Dir
    {
      AncestorAt(k, i);
      if k[i] == SEP && i > 0 {
        var cur := k[..i];
        if cur !in disk.tree {
          NothingDeeper(disk.tree, k, cur);
          return true;
        }
        if disk.tree[cur] != Dir { return false; }
      }
      NotRoot(disk.tree);
    }
    forall p | p in disk.tree && Below(k, p) ensures |p| < |k| { BelowMeans(k, p); }
    ok := true;
  }

  lemma NotRoot(fs: Fs)
    requires TreeOk(fs)
    ensures [] !in fs
  {}

  lemma AncestorAt(k: Path, i: nat)
    requires i < |k|
    ensures k[i] == SEP ==> Below(k, k[..i])
    ensures forall p: Path | |p| == i && Below(k, p) :: p == k[..i] && k[i] == SEP
  {
    BelowMeans(k, k[..i]);
    forall p: Path | |p| == i && Below(k, p) ensures p == k[..i] && k[i] == SEP { BelowMeans(k, p); }
  }

  lemma NothingDeeper(fs: Fs, k: Path, cur: Path)
    requires TreeOk(fs) && cur !in fs && Below(k, cur)
    ensures forall p <- fs :: Below(k, p) ==> |p| < |cur|
  {
    hide Below, NameOk;
    forall p | p in fs && Below(k, p) ensures |p| < |cur| {
      if |p| >= |cur| { BelowBoth(k, cur, p); }
    }
  }

  // --- what a teardown may do ---

  /** now is was with some entries at or below dir removed: listed files and links, and directories that are listed or
      had something listed inside removed. */
  ghost predicate Guarded(was: Fs, now: Fs, dir: Path, allowed: set<Path>) {
    && TreeOk(now) && now.Keys <= was.Keys && (forall k <- now :: now[k] == was[k])
    && (forall k <- was :: k !in now ==> AtOrBelow(k, dir) && (k in allowed || (was[k] == Dir && Emptied(was, now, allowed, k))))
  }

  /** Something listed below d was removed. */
  ghost predicate Emptied(was: Fs, now: Fs, allowed: set<Path>, d: Path) {
    exists k <- was :: k !in now && Below(k, d) && k in allowed
  }

  /** An entry at or below dir that stops the teardown: not listed, or a link of an unsupported kind. */
  ghost predicate Unexpected(was: Fs, dir: Path, allowed: set<Path>) {
    exists k <- was :: AtOrBelow(k, dir) && (k !in allowed || (was[k].Link? && !Supported(was[k].kind)))
  }

  /** The frames lead from dir down, each below the one before it. */
  ghost predicate Chain(stack: seq<Frame>, dir: Path) {
    && (stack != [] ==> stack[0].rel == dir)
    && (forall i | 0 <= i < |stack| - 1 :: Below(stack[i + 1].rel, stack[i].rel))
  }

  lemma {:induction false} ChainBelow(stack: seq<Frame>, dir: Path, i: nat, j: nat)
    requires Chain(stack, dir) && i <= j < |stack|
    ensures AtOrBelow(stack[j].rel, stack[i].rel) && AtOrBelow(stack[j].rel, dir)
  {
    hide Below;
    if i < j {
      ChainBelow(stack, dir, i, j - 1);
      BelowTrans(stack[j].rel, stack[j - 1].rel, stack[i].rel);
      BelowTrans(stack[j].rel, stack[j - 1].rel, dir);
    } else if j > 0 {
      ChainBelow(stack, dir, 0, j - 1);
      BelowTrans(stack[j].rel, stack[j - 1].rel, dir);
    }
  }

  lemma GuardedNothing(fs: Fs, dir: Path, allowed: set<Path>)
    requires TreeOk(fs)
    ensures Guarded(fs, fs, dir, allowed)
  {}

  /** One more entry removed. */
  lemma GuardedRemove(was: Fs, now: Fs, dir: Path, allowed: set<Path>, k: Path)
    requires TreeOk(was) && Guarded(was, now, dir, allowed) && k in now && AtOrBelow(k, dir)
    requires k in allowed || (was[k] == Dir && Emptied(was, now, allowed, k))
    requires forall q <- now :: !Below(q, k)
    ensures Guarded(was, now - {k}, dir, allowed)
  {
    hide NameOk, Below, AtOrBelow, TreeOk;
    RemoveLeaf(now, k);
    forall d | Emptied(was, now, allowed, d) ensures Emptied(was, now - {k}, allowed, d) {
      var q :| q in was && q !in now && Below(q, d) && q in allowed;
    }
  }

  /** One pass over a directory's listing: files and links are removed in turn until something stops the teardown or a
      subdirectory is met. `was` is the tree before the teardown, `top` the directory to tear down. */
  method ClearChildren(disk: Disk, dir: Path, dirty: bool, allowed: set<Path>, ghost was: Fs, ghost top: Path)
    returns (stop: Option<DeleteOutcome>, descend: Option<Path>, removed: bool)
    requires TreeOk(was) && Guarded(was, disk.tree, top, allowed) && AtOrBelow(dir, top)
    requires dirty ==> Emptied(was, disk.tree, allowed, dir)
    modifies disk
    ensures Guarded(was, disk.tree, top, allowed) && disk.tree.Keys <= old(disk.tree.Keys)
    ensures forall k <- old(disk.tree) :: old(disk.tree[k]) == Dir ==> k in disk.tree && disk.tree[k] == Dir
    ensures removed ==> Emptied(was, disk.tree, allowed, dir)
    ensures old(disk.trouble) ==> disk.trouble
    ensures stop.Some? ==> stop.value != Deleted && (disk.trouble || (stop.value == Skipped && Unexpected(was, top, allowed)))
    ensures stop.None? && descend.Some? ==>
              descend.value in disk.tree && disk.tree[descend.value] == Dir && IsChild(descend.value, dir)
    ensures stop.None? && descend.None? ==> forall c <- disk.tree :: !IsChild(c, dir)
  {
    hide NameOk, Guarded, Emptied, Unexpected, IsChild, TreeOk;
    stop, descend, removed := None, None, dirty;
    var unreadable: bool := *;
    if unreadable {
      disk.trouble := true;
      return Some(Skipped), None, removed;
    }
    var children := disk.List(dir);
    ghost var start := disk.tree;
    for i := 0 to |children|
      invariant Guarded(was, disk.tree, top, allowed) && disk.tree.Keys <= start.Keys
      invariant forall k <- start :: k in disk.tree ==> disk.tree[k] == start[k]
      invariant forall k <- start :: start[k] == Dir ==> k in disk.tree
      invariant forall j | i <= j < |children| :: children[j] in disk.tree
      invariant forall j | 0 <= j < i :: children[j] !in disk.tree
      invariant removed ==> Emptied(was, disk.tree, allowed, dir)
      invariant old(disk.trouble) ==> disk.trouble
    {
      var cancel: bool := *;
      if cancel {
        disk.trouble := true;
        return Some(Cancelled), None, removed;
      }
      var c := children[i];
      var node := disk.tree[c];
      ChildPlace(was, disk.tree, c, dir, top, allowed);
      if node == Dir { return None, Some(c), removed; }
      if c !in allowed || (node.Link? && !Supported(node.kind)) {
        Stopped(was, top, allowed, c);
        return Some(Skipped), None, removed;
      }
      var fault: bool := *;
      if fault {
        disk.trouble := true;
        return Some(if node.File? then Failed else Skipped), None, removed;
      }
      GuardedRemove(was, disk.tree, top, allowed, c);
      RemovedBelow(was, disk.tree, allowed, dir, c);
      disk.tree := disk.tree - {c};
      removed := true;
    }
  }

  lemma ChildPlace(was: Fs, now: Fs, c: Path, dir: Path, top: Path, allowed: set<Path>)
    requires Guarded(was, now, top, allowed) && c in now && IsChild(c, dir) && AtOrBelow(dir, top)
    ensures AtOrBelow(c, top) && Below(c, dir) && c in was && was[c] == now[c]
    ensures now[c] != Dir ==> forall q <- now :: !Below(q, c)
  {
    hide TreeOk, NameOk;
    BelowTrans(c, dir, top);
    if now[c] != Dir { LeafHasNothingBelow(now, c); }
  }

  lemma Stopped(was: Fs, top: Path, allowed: set<Path>, k: Path)
    requires k in was && AtOrBelow(k, top) && (k !in allowed || (was[k].Link? && !Supported(was[k].kind)))
    ensures Unexpected(was, top, allowed)
  {}

  lemma RemovedBelow(was: Fs, now: Fs, allowed: set<Path>, dir: Path, c: Path)
    requires c in was && Below(c, dir) && (c in allowed || Emptied(was, now, allowed, c))
    ensures Emptied(was, now - {c}, allowed, dir)
  {
    hide Below;
    if c !in allowed {
      var k :| k in was && k !in now && Below(k, c) && k in allowed;
      BelowTrans(k, c, dir);
    }
  }

  /** The state of a teardown between two visits. */
  ghost predicate Walking(was: Fs, now: Fs, dir: Path, allowed: set<Path>, stack: seq<Frame>, longest: nat) {
    && Chain(stack, dir) && Guarded(was, now, dir, allowed)
    && (forall i | 0 <= i < |stack| ::
          stack[i].rel in now && now[stack[i].rel] == Dir && |stack[i].rel| <= longest
          && (stack[i].dirty ==> Emptied(was, now, allowed, stack[i].rel)))
    && (stack == [] ==> forall k <- now :: !AtOrBelow(k, dir))
  }

  /** How deep the walk can still descend. */
  ghost function Room(stack: seq<Frame>, longest: nat): int {
    if stack == [] then 0 else longest - |stack[|stack| - 1].rel|
  }

  /** One visit of the top frame. The listing is taken afresh; the walk ends up one level deeper, or one level up with
      the directory removed. */
  method Visit(disk: Disk, dir: Path, allowed: set<Path>, stack: seq<Frame>, ghost was: Fs, ghost longest: nat)
    returns (stop: Option<DeleteOutcome>, next: seq<Frame>)
    requires TreeOk(was) && Walking(was, disk.tree, dir, allowed, stack, longest) && stack != []
    requires longest == Longest(was)
    modifies disk
    ensures Guarded(was, disk.tree, dir, allowed)
    ensures old(disk.trouble) ==> disk.trouble
    ensures stop.Some? ==> stop.value != Deleted && (disk.trouble || (stop.value == Skipped && Unexpected(was, dir, allowed)))
    ensures stop.None? ==> Walking(was, disk.tree, dir, allowed, next, longest) && Room(stack, longest) >= 0
    ensures stop.None? ==> |disk.tree| < |old(disk.tree)| || (|disk.tree| == |old(disk.tree)| && Room(next, longest) < Room(stack, longest))
    ensures stop.None? ==> Room(next, longest) >= 0
  {
    hide NameOk, Guarded, Emptied, Unexpected, IsChild, TreeOk, Chain, Below, AtOrBelow, Walking, Room;
    var n := |stack| - 1;
    var top := stack[n];
    WalkTop(was, disk.tree, dir, allowed, stack, longest);
    ghost var before := disk.tree;
    var descend, dirty;
    stop, descend, dirty := ClearChildren(disk, top.rel, top.dirty, allowed, was, dir);
    next := stack[n := Frame(top.rel, dirty)];
    if stop.Some? { return stop, next; }
    WalkCleared(was, before, disk.tree, dir, allowed, stack, dirty, longest);
    if descend.Some? {
      WalkDown(was, disk.tree, dir, allowed, next, descend.value, longest);
      next := next + [Frame(descend.value, false)];
      return None, next;
    }
    if top.rel !in allowed && !dirty {
      TopStops(was, disk.tree, dir, allowed, top.rel);
      return Some(Skipped), next;
    }
    var cancel: bool := *;
    if cancel {
      disk.trouble := true;
      return Some(Cancelled), next;
    }
    var fault: bool := *;
    if fault {
      disk.trouble := true;
      return Some(Skipped), next;
    }
    WalkUp(was, disk.tree, dir, allowed, next, longest);
    disk.tree := disk.tree - {top.rel};
    next := Popped(next);
  }

  function Popped(stack: seq<Frame>): seq<Frame>
    requires stack != []
  {
    var n := |stack| - 1;
    if n == 0 then [] else stack[..n][n - 1 := stack[n - 1].(dirty := true)]
  }

  lemma WalkTop(was: Fs, now: Fs, dir: Path, allowed: set<Path>, stack: seq<Frame>, longest: nat)
    requires Walking(was, now, dir, allowed, stack, longest) && stack != []
    ensures var top := stack[|stack| - 1];
            && Guarded(was, now, dir, allowed) && AtOrBelow(top.rel, dir) && top.rel in now && now[top.rel] == Dir
            && (top.dirty ==> Emptied(was, now, allowed, top.rel)) && Room(stack, longest) >= 0
  {
    hide Guarded, Emptied, AtOrBelow, Chain;
    ChainBelow(stack, dir, |stack| - 1, |stack| - 1);
  }

  lemma WalkCleared(was: Fs, before: Fs, now: Fs, dir: Path, allowed: set<Path>, stack: seq<Frame>, dirty: bool, longest: nat)
    requires Walking(was, before, dir, allowed, stack, longest) && stack != []
    requires Guarded(was, now, dir, allowed) && now.Keys <= before.Keys
    requires forall k <- before :: before[k] == Dir ==> k in now && now[k] == Dir
    requires dirty ==> Emptied(was, now, allowed, stack[|stack| - 1].rel)
    ensures var n := |stack| - 1;
            Walking(was, now, dir, allowed, stack[n := Frame(stack[n].rel, dirty)], longest)
            && Room(stack[n := Frame(stack[n].rel, dirty)], longest) == Room(stack, longest)
    ensures |now| <= |before|
  {
    hide Guarded, Emptied, AtOrBelow, Chain;
    var n := |stack| - 1;
    StillEmptied(was, before, allowed, now, stack);
    Fewer(before, now);
    ChainUpdate(stack[n := Frame(stack[n].rel, dirty)], n, dirty, dir, stack[n], stack);
  }

  lemma WalkDown(was: Fs, now: Fs, dir: Path, allowed: set<Path>, stack: seq<Frame>, c: Path, longest: nat)
    requires Walking(was, now, dir, allowed, stack, longest) && stack != [] && longest == Longest(was)
    requires c in now && now[c] == Dir && IsChild(c, stack[|stack| - 1].rel)
    ensures var next := stack + [Frame(c, false)];
            Walking(was, now, dir, allowed, next, longest) && 0 <= Room(next, longest) < Room(stack, longest)
  {
    hide Guarded, Emptied, AtOrBelow, Chain, IsChild;
    Deeper(stack, dir, c);
    GuardedTree(was, now, dir, allowed, c);
  }

  lemma WalkUp(was: Fs, now: Fs, dir: Path, allowed: set<Path>, stack: seq<Frame>, longest: nat)
    requires TreeOk(was) && Walking(was, now, dir, allowed, stack, longest) && stack != []
    requires var top := stack[|stack| - 1]; (top.rel in allowed || top.dirty) && forall c <- now :: !IsChild(c, top.rel)
    ensures var after := now - {stack[|stack| - 1].rel};
            && Walking(was, after, dir, allowed, Popped(stack), longest) && Room(Popped(stack), longest) >= 0
            && Guarded(was, after, dir, allowed) && |after| < |now|
  {
    hide Guarded, Emptied, AtOrBelow, Chain, IsChild, TreeOk;
    TopRemoved(was, now, dir, allowed, stack);
    ChainPop(stack, dir);
  }

  /** The guarded teardown of one directory. Whatever its outcome, every file and link removed was listed, and every
      directory removed was listed or had something listed removed inside; if it reports success the directory and everything
      below it are gone; it is skipped for an unlisted entry, an unsupported link, or a listing, a link or a directory
      removal that failed. */
  method DeleteDirGuarded(disk: Disk, dir: Path, allowed: set<Path>) returns (out: DeleteOutcome)
    requires TreeOk(disk.tree)
    modifies disk
    ensures Guarded(old(disk.tree), disk.tree, dir, allowed)
    ensures out == Deleted ==> forall k <- disk.tree :: !AtOrBelow(k, dir)
    ensures out == Skipped ==> disk.trouble || Unexpected(old(disk.tree), dir, allowed)
    ensures dir == [] ==> out == Failed && disk.tree == old(disk.tree)
    ensures old(disk.trouble) ==> disk.trouble
    ensures out == Cancelled ==> disk.trouble
    ensures out == Failed ==> disk.trouble || dir == [] || !Reachable(old(disk.tree), dir)
                              || (dir in old(disk.tree) && old(disk.tree[dir]) != Dir)
  {
    hide NameOk, Guarded, Emptied, Unexpected, TreeOk, Chain, AtOrBelow, Room;
    ghost var was := disk.tree;
    GuardedNothing(was, dir, allowed);
    var chain := CheckParentChain(disk, dir);
    if !chain { return Failed; }
    if dir == [] { return Failed; }
    var unreadable: bool := *;
    if unreadable {
      disk.trouble := true;
      return Failed;
    }
    if dir !in disk.tree {
      GoneAlready(was, dir);
      return Deleted;
    }
    if disk.tree[dir] != Dir { return Failed; }
    var stack := [Frame(dir, false)];
    ChainOfOne(dir);
    ghost var longest := Longest(was);
    WalkStarts(was, dir, allowed, longest);
    while stack != []
      invariant Walking(was, disk.tree, dir, allowed, stack, longest) && Room(stack, longest) >= 0
      invariant Guarded(was, disk.tree, dir, allowed) && (old(disk.trouble) ==> disk.trouble)
      decreases |disk.tree|, Room(stack, longest)
    {
      hide Walking;
      var cancel: bool := *;
      if cancel {
        disk.trouble := true;
        return Cancelled;
      }
      var stop, next := Visit(disk, dir, allowed, stack, was, longest);
      if stop.Some? { return stop.value; }
      stack := next;
    }
    out := Deleted;
  }

  lemma WalkStarts(was: Fs, dir: Path, allowed: set<Path>, longest: nat)
    requires TreeOk(was) && dir in was && was[dir] == Dir && longest == Longest(was)
    ensures Walking(was, was, dir, allowed, [Frame(dir, false)], longest) && Room([Frame(dir, false)], longest) >= 0
  {
    hide NameOk, Below, Emptied;
    GuardedNothing(was, dir, allowed);
  }

  lemma ChainOfOne(dir: Path)
    ensures Chain([Frame(dir, false)], dir)
  {}

  lemma GoneAlready(fs: Fs, dir: Path)
    requires TreeOk(fs) && dir !in fs
    ensures forall k <- fs :: !AtOrBelow(k, dir)
  {
    hide NameOk, Below;
  }

  ghost function Longest(fs: Fs): (n: nat)
    ensures forall k <- fs :: |k| <= n
    decreases |fs|
  {
    if fs == map[] then 0 else
    var k :| k in fs;
    Shrinks(fs, k);
    var rest := Longest(fs - {k});
    if |k| > rest then |k| else rest
  }

  lemma Shrinks(fs: Fs, k: Path)
    requires k in fs
    ensures |fs - {k}| == |fs| - 1
  {
    assert (fs - {k}).Keys == fs.Keys - {k};
  }

  lemma Fewer(before: Fs, now: Fs)
    requires now.Keys <= before.Keys
    ensures |now| <= |before|
  {
    FewerKeys(now.Keys, before.Keys);
    assert |now| == |now.Keys| && |before| == |before.Keys|;
  }

  lemma {:induction false} FewerKeys(a: set<Path>, b: set<Path>)
    requires a <= b
    ensures |a| <= |b|
  {
    assert b == a + (b - a);
  }

  lemma StillEmptied(was: Fs, before: Fs, allowed: set<Path>, now: Fs, stack: seq<Frame>)
    requires now.Keys <= before.Keys
    requires forall i | 0 <= i < |stack| :: stack[i].dirty ==> Emptied(was, before, allowed, stack[i].rel)
    ensures forall i | 0 <= i < |stack| :: stack[i].dirty ==> Emptied(was, now, allowed, stack[i].rel)
  {
    hide Below;
    forall d | Emptied(was, before, allowed, d) ensures Emptied(was, now, allowed, d) {
      var k :| k in was && k !in before && Below(k, d) && k in allowed;
    }
  }

  lemma ChainUpdate(stack: seq<Frame>, n: nat, dirty: bool, dir: Path, top: Frame, s: seq<Frame>)
    requires n < |s| && s[n] == top && stack == s[n := Frame(top.rel, dirty)] && Chain(s, dir)
    ensures Chain(stack, dir)
  {
    hide Below;
    assert forall i | 0 <= i < |stack| :: stack[i].rel == s[i].rel;
  }

  lemma Deeper(stack: seq<Frame>, dir: Path, c: Path)
    requires stack != [] && Chain(stack, dir) && IsChild(c, stack[|stack| - 1].rel)
    ensures Chain(stack + [Frame(c, false)], dir) && |c| > |stack[|stack| - 1].rel|
  {
    hide Below;
  }

  lemma TopStops(was: Fs, now: Fs, dir: Path, allowed: set<Path>, top: Path)
    requires Guarded(was, now, dir, allowed) && top in now && AtOrBelow(top, dir) && top !in allowed
    ensures Unexpected(was, dir, allowed)
  {
    hide TreeOk, AtOrBelow, Emptied;
  }

  lemma TopRemoved(was: Fs, now: Fs, dir: Path, allowed: set<Path>, stack: seq<Frame>)
    requires TreeOk(was) && Guarded(was, now, dir, allowed) && Chain(stack, dir) && stack != []
    requires forall i | 0 <= i < |stack| :: stack[i].rel in now && now[stack[i].rel] == Dir
    requires forall i | 0 <= i < |stack| :: stack[i].dirty ==> Emptied(was, now, allowed, stack[i].rel)
    requires var top := stack[|stack| - 1]; (top.rel in allowed || top.dirty) && forall c <- now :: !IsChild(c, top.rel)
    ensures var n, after := |stack| - 1, now - {stack[|stack| - 1].rel};
            && Guarded(was, after, dir, allowed) && Chain(stack[..n], dir)
            && (forall i | 0 <= i < n :: stack[i].rel in after && after[stack[i].rel] == Dir)
            && (forall i | 0 <= i < n :: stack[i].dirty ==> Emptied(was, after, allowed, stack[i].rel))
            && (n > 0 ==> Emptied(was, after, allowed, stack[n - 1].rel) && Chain(stack[..n][n - 1 := stack[n - 1].(dirty := true)], dir))
            && (n == 0 ==> forall k <- after :: !AtOrBelow(k, dir))
            && |after| < |now|
  {
    hide TreeOk, Guarded, Emptied, IsChild, Below, Chain;
    var n, top := |stack| - 1, stack[|stack| - 1].rel;
    Shrinks(now, top);
    GuardedTree(was, now, dir, allowed, top);
    NoChildrenNothingBelow(now, top);
    ChainBelow(stack, dir, n, n);
    GuardedRemove(was, now, dir, allowed, top);
    StillEmptied(was, now, allowed, now - {top}, stack);
    forall i | 0 <= i < n ensures stack[i].rel != top {
      ChainStrict(stack, dir, i, n);
    }
    ChainPop(stack, dir);
    if n > 0 {
      ChainStrict(stack, dir, n - 1, n);
      RemovedBelow(was, now, allowed, stack[n - 1].rel, top);
    }
  }

  lemma ChainStrict(stack: seq<Frame>, dir: Path, i: nat, j: nat)
    requires Chain(stack, dir) && i < j < |stack|
    ensures Below(stack[j].rel, stack[i].rel) && stack[j].rel != stack[i].rel
  {
    hide Below;
    ChainBelow(stack, dir, i, j - 1);
    BelowTrans(stack[j].rel, stack[j - 1].rel, stack[i].rel);
    BelowMeans(stack[j].rel, stack[i].rel);
  }

  lemma ChainPop(stack: seq<Frame>, dir: Path)
    requires Chain(stack, dir) && stack != []
    ensures var n := |stack| - 1;
            && Chain(stack[..n], dir) && (n == 0 ==> stack[n].rel == dir)
            && (n > 0 ==> Chain(stack[..n][n - 1 := stack[n - 1].(dirty := true)], dir))
  {
    hide Below;
  }

  lemma GuardedTree(was: Fs, now: Fs, dir: Path, allowed: set<Path>, k: Path)
    requires Guarded(was, now, dir, allowed) && k in now
    ensures TreeOk(now) && k in was && was[k] == now[k]
  {
    hide TreeOk, Emptied;
  }
}
