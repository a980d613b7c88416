/** Executing a plan action by action against the live destination. */
module SyncExecutor {
  import opened Wrappers
  import opened Bytes
  import opened Results
  import opened RunResult
  import opened SyncTree
  import opened SyncFs
  import opened LinkTargets
  import P = SyncPlan

  /** The source tree, the folding of paths, and the absolute paths of the two roots. */
  datatype Env = Env(fold: Path -> Path, source: Fs, sourceRoot: bytes, destRoot: bytes) {
    /** A source link's target as it is written into the destination. */
    function Rebase(target: bytes): bytes {
      Rebased(fold, target, sourceRoot, destRoot)
    }
  }

  datatype Outcome = Done | Skip | Fail | Cancel

  // --- what actions may do ---

  /** Everything but k is as before, except for new directories above k. */
  ghost predicate Around(was: Fs, now: Fs, k: Path) {
    && TreeOk(now)
    && (forall p <- was :: p != k ==> p in now && now[p] == was[p])
    && (forall p <- now :: p != k && p !in was ==> now[p] == Dir && Below(k, p))
  }

  /** Directories were added at k and above it, and nothing else changed. */
  ghost predicate Grown(was: Fs, now: Fs, k: Path) {
    && TreeOk(now)
    && (forall p <- was :: p in now && now[p] == was[p])
    && (forall p <- now :: p !in was ==> now[p] == Dir && AtOrBelow(k, p))
  }

  /** The effect of an action that reports an outcome. */
  ghost predicate Ran(env: Env, a: P.Action, allowed: set<Path>, was: Fs, now: Fs, o: Outcome) {
    var k := env.fold(a.rel);
    match o
    case Done =>
      (match a.op
       case FileCopy => WroteFile(env, k, was, now)
       case FileReplace => WroteFile(env, k, was, now)
       case LinkCreate => WroteLink(env, a, k, was, now)
       case LinkReplace => WroteLink(env, a, k, was, now)
       case DirCreate => Around(was, now, k) && k in now && now[k] == Dir
       case FileDelete => now == was - {k} && TreeOk(now) && (k in was ==> was[k] != Dir)
       case LinkDelete => now == was - {k} && TreeOk(now) && (k in was ==> was[k] != Dir)
       case DirDelete => Guarded(was, now, k, allowed) && forall p <- now :: !AtOrBelow(p, k))
    case Skip => a.op == P.DirDelete && Guarded(was, now, k, allowed)
    case _ => TreeOk(now)
  }

  ghost predicate WroteFile(env: Env, k: Path, was: Fs, now: Fs) {
    Around(was, now, k) && k in env.source && env.source[k].File? && k in now && now[k] == env.source[k]
  }

  ghost predicate WroteLink(env: Env, a: P.Action, k: Path, was: Fs, now: Fs) {
    Around(was, now, k) && k in env.source && env.source[k].Link?
    && k in now && now[k] == Link(a.linkKind, env.Rebase(env.source[k].target))
  }

  /** The place can be given up for a file or a link: it is free, a file, a supported link or an empty directory. */
  ghost predicate Yields(fs: Fs, k: Path) {
    k in fs ==> match fs[k]
                case File(_) => true
                case Link(kind, _) => Supported(kind)
                case Dir => forall q <- fs :: !Below(q, k)
  }

  /** What an action needs of the two trees to go through without outside trouble. */
  ghost predicate Can(env: Env, a: P.Action, fs: Fs) {
    var k := env.fold(a.rel);
    && P.Resolves(a.rel) && Reachable(fs, k)
    && (match a.op
        case FileCopy => Yields(fs, k) && k in env.source && env.source[k].File?
        case FileReplace => Yields(fs, k) && k in env.source && env.source[k].File?
        case LinkCreate => Yields(fs, k) && CanLink(env, a, k)
        case LinkReplace => Yields(fs, k) && CanLink(env, a, k) && k in fs
        case DirCreate => k in fs && fs[k].Link? ==> Supported(fs[k].kind)
        case FileDelete => k in fs ==> fs[k].File? || (fs[k].Link? && fs[k].kind == SymlinkFile)
        case LinkDelete => k in fs ==> fs[k].Link? && Supported(fs[k].kind)
        case DirDelete => k in fs ==> fs[k] == Dir)
  }

  /** The outcome follows from the trees alone: a teardown is skipped for something unexpected, and any other action that
      is not done could not go through. */
  ghost predicate Excused(env: Env, a: P.Action, allowed: set<Path>, fs: Fs, o: Outcome) {
    match o
    case Done => true
    case Skip => Unexpected(fs, env.fold(a.rel), allowed)
    case _ => !Can(env, a, fs)
  }

  ghost predicate CanLink(env: Env, a: P.Action, k: Path) {
    k in env.source && env.source[k].Link? && env.source[k].target != []
    && (a.linkKind == Junction ==> IsAbsolute(env.source[k].target))
  }

  lemma GrownNothing(fs: Fs, k: Path)
    requires TreeOk(fs)
    ensures Grown(fs, fs, k)
  {}

  lemma GrownMore(was: Fs, mid: Fs, k: Path, p: Path)
    requires Grown(was, mid, k) && p !in mid && AtOrBelow(k, p) && TreeOk(mid[p := Dir])
    ensures Grown(was, mid[p := Dir], k)
  {
    hide TreeOk, AtOrBelow;
  }

  // --- directory creation ---

  /** CreateDirectory, component by component; a file or a link in the way is an error. */
  method CreateDirAll(disk: Disk, k: Path) returns (ok: bool)
    requires TreeOk(disk.tree) && (k == [] || NameOk(k))
    modifies disk
    ensures Grown(old(disk.tree), disk.tree, k)
    ensures ok && k != [] ==> k in disk.tree && disk.tree[k] == Dir
    ensures ok ==> forall p | p != [] && Below(k, p) :: p in disk.tree && disk.tree[p] == Dir
    ensures old(disk.trouble) ==> disk.trouble
    ensures !ok ==> disk.trouble || exists p <- old(disk.tree) :: AtOrBelow(k, p) && old(disk.tree)[p] != Dir
  {
    hide TreeOk, NameOk, Below, Grown;
    ghost var was := disk.tree;
    GrownNothing(was, k);
    NothingAbove(k);
    for i := 1 to |k| + 1
      invariant Grown(was, disk.tree, k) && TreeOk(disk.tree) && (old(disk.trouble) ==> disk.trouble)
      invariant forall p: Path | 0 < |p| < i && AtOrBelow(k, p) :: p in disk.tree && disk.tree[p] == Dir
    {
      if i == |k| || k[i] == SEP {
        var cur := k[..i];
        PrefixPlace(k, i);
        if cur !in disk.tree {
          var fault: bool := *;
          if fault {
            disk.trouble := true;
            return false;
          }
          AddDir(was, disk.tree, k, cur);
          disk.tree := disk.tree[cur := Dir];
        } else if disk.tree[cur] != Dir {
          GrownKept(was, disk.tree, k, cur);
          return false;
        }
      }
      PrefixOnly(k, i);
    }
    AllPrefixes(k, disk.tree);
    ok := true;
  }

  lemma GrownKept(was: Fs, now: Fs, k: Path, p: Path)
    requires Grown(was, now, k) && p in now && now[p] != Dir
    ensures p in was && was[p] == now[p]
  {
    hide TreeOk, Below;
  }

  lemma NothingAbove(k: Path)
    ensures k == [] ==> forall p: Path :: !Below(k, p)
  {}

  /** The prefix before a separator, and the whole, are ancestors; their own ancestors are shorter prefixes. */
  lemma PrefixPlace(k: Path, i: nat)
    requires 0 < i <= |k| && NameOk(k) && (i == |k| || k[i] == SEP)
    ensures AtOrBelow(k, k[..i]) && NameOk(k[..i])
    ensures forall p | Below(k[..i], p) :: 0 < |p| < i && AtOrBelow(k, p)
  {
    if i < |k| { BelowMeans(k, k[..i]); assert k[i - 1] != SEP; }
    forall p | Below(k[..i], p) ensures 0 < |p| < i && AtOrBelow(k, p) {
      BelowMeans(k[..i], p);
      BelowTrans2(k, k[..i], p);
    }
  }

  lemma BelowTrans2(k: Path, m: Path, p: Path)
    requires AtOrBelow(k, m) && Below(m, p)
    ensures AtOrBelow(k, p)
  {
    if k != m { BelowTrans(k, m, p); }
  }

  lemma PrefixOnly(k: Path, i: nat)
    requires 0 < i <= |k|
    ensures forall p: Path | |p| == i && AtOrBelow(k, p) :: p == k[..i] && (i == |k| || k[i] == SEP)
  {
    forall p: Path | |p| == i && AtOrBelow(k, p) ensures p == k[..i] && (i == |k| || k[i] == SEP) {
      BelowMeans(k, p);
    }
  }

  lemma AllPrefixes(k: Path, fs: Fs)
    requires forall p: Path | 0 < |p| < |k| + 1 && AtOrBelow(k, p) :: p in fs && fs[p] == Dir
    ensures k != [] ==> k in fs && fs[k] == Dir
    ensures forall p | p != [] && Below(k, p) :: p in fs && fs[p] == Dir
  {
    forall p | p != [] && Below(k, p) ensures p in fs && fs[p] == Dir { BelowMeans(k, p); }
  }

  lemma AddDir(was: Fs, now: Fs, k: Path, cur: Path)
    requires Grown(was, now, k) && TreeOk(now) && cur !in now && NameOk(cur) && AtOrBelow(k, cur)
    requires forall p | Below(cur, p) :: p in now && now[p] == Dir
    ensures TreeOk(now[cur := Dir]) && Grown(was, now[cur := Dir], k)
  {
    hide NameOk;
    GoneAlready(now, cur);
    AddLeaf(now, cur, Dir);
    GrownMore(was, now, k, cur);
  }

  /** The directory part of a path; empty directly below the root. */
  method ParentOf(k: Path) returns (parent: Path)
    requires NameOk(k)
    ensures parent == [] || (NameOk(parent) && Below(k, parent))
    ensures forall p | Below(k, p) :: p != [] && AtOrBelow(parent, p)
  {
    hide NameOk;
    var slash := |k|;
    while slash > 0 && k[slash - 1] != SEP
      invariant 0 <= slash <= |k| && forall j | slash <= j < |k| :: k[j] != SEP
    {
      slash := slash - 1;
    }
    LastSeparator(k, slash);
    if slash == 0 { return []; }
    parent := k[..slash - 1];
    PrefixPlace(k, slash - 1);
    BelowMeans(k, parent);
  }

  lemma LastSeparator(k: Path, slash: nat)
    requires NameOk(k) && slash <= |k| && (slash > 0 ==> k[slash - 1] == SEP) && forall j | slash <= j < |k| :: k[j] != SEP
    ensures slash == 0 || slash > 1
    ensures forall p | Below(k, p) :: p != [] && slash > 0 && AtOrBelow(k[..slash - 1], p)
  {
    forall p | Below(k, p) ensures p != [] && slash > 0 && AtOrBelow(k[..slash - 1], p) {
      BelowMeans(k, p);
      if |p| < slash - 1 { BelowMeans(k[..slash - 1], p); } else { assert p == k[..slash - 1]; }
    }
  }

  /** EnsureParentDirs. */
  method EnsureParentDirs(disk: Disk, k: Path) returns (ok: bool)
    requires TreeOk(disk.tree) && NameOk(k)
    modifies disk
    ensures TreeOk(disk.tree) && Around(old(disk.tree), disk.tree, k)
    ensures (k in disk.tree) == (k in old(disk.tree)) && (k in disk.tree ==> disk.tree[k] == old(disk.tree[k]))
    ensures ok ==> forall p | Below(k, p) :: p in disk.tree && disk.tree[p] == Dir
    ensures old(disk.trouble) ==> disk.trouble
    ensures !ok ==> disk.trouble || !Reachable(old(disk.tree), k)
  {
    hide NameOk, TreeOk, Below, Grown, Around;
    var parent := ParentOf(k);
    ghost var was := disk.tree;
    ok := CreateDirAll(disk, parent);
    ParentGrown(was, disk.tree, k, parent);
    if !ok { ParentBlocked(was, k, parent); }
  }

  lemma ParentBlocked(was: Fs, k: Path, parent: Path)
    requires TreeOk(was) && (parent == [] || Below(k, parent))
    ensures (exists p <- was :: AtOrBelow(parent, p) && was[p] != Dir) ==> !Reachable(was, k)
  {
    hide TreeOk, Below;
    if p :| p in was && AtOrBelow(parent, p) && was[p] != Dir {
      NotRoot(was);
      if parent == [] {
        BelowMeans([], p);
        assert false;
      }
      if p != parent { BelowTrans(k, parent, p); }
    }
  }

  lemma ParentGrown(was: Fs, now: Fs, k: Path, parent: Path)
    requires Grown(was, now, parent) && (parent == [] || Below(k, parent)) && NameOk(k)
    ensures TreeOk(now) && Around(was, now, k)
    ensures (k in now) == (k in was) && (k in now ==> now[k] == was[k])
  {
    hide TreeOk;
    forall p | p in now && p !in was ensures Below(k, p) && p != k {
      BelowMeans(parent, p);
      if parent == [] {
        GrownAtRoot(was, now, p);
        assert false;
      }
      if p != parent { BelowTrans(k, parent, p); }
      BelowMeans(k, p);
    }
  }

  lemma GrownAtRoot(was: Fs, now: Fs, p: Path)
    requires Grown(was, now, [])
    ensures p in now ==> p in was
  {
    hide Below;
    if p in now && p !in was {
      BelowMeans([], p);
    }
  }

  // --- writing files ---

  /** RemoveDirectory: only an empty directory goes. */
  method RemoveDirectory(disk: Disk, k: Path) returns (ok: bool)
    requires TreeOk(disk.tree) && k in disk.tree && disk.tree[k] == Dir
    modifies disk
    ensures TreeOk(disk.tree) && disk.tree == (if ok then old(disk.tree) - {k} else old(disk.tree))
    ensures old(disk.trouble) ==> disk.trouble
    ensures !ok ==> disk.trouble || exists q <- disk.tree :: Below(q, k)
  {
    hide TreeOk, Below;
    var children := disk.List(k);
    if children != [] {
      assert children[0] in children;
      return false;
    }
    var fault: bool := *;
    if fault {
      disk.trouble := true;
      return false;
    }
    NoChildrenNothingBelow(disk.tree, k);
    RemoveLeaf(disk.tree, k);
    disk.tree := disk.tree - {k};
    ok := true;
  }

  /** Unlink a link, or delete a file. */
  method Unlink(disk: Disk, k: Path) returns (ok: bool)
    requires TreeOk(disk.tree) && k in disk.tree && disk.tree[k] != Dir
    modifies disk
    ensures TreeOk(disk.tree) && disk.tree == (if ok then old(disk.tree) - {k} else old(disk.tree))
    ensures old(disk.trouble) ==> disk.trouble
    ensures !ok ==> disk.trouble
  {
    hide TreeOk;
    var fault: bool := *;
    if fault {
      disk.trouble := true;
      return false;
    }
    LeafHasNothingBelow(disk.tree, k);
    RemoveLeaf(disk.tree, k);
    disk.tree := disk.tree - {k};
    ok := true;
  }

  /** PrepareFileDest: a link or an empty directory gives way to the file. */
  method PrepareFileDest(disk: Disk, k: Path) returns (ok: bool)
    requires TreeOk(disk.tree)
    modifies disk
    ensures TreeOk(disk.tree)
    ensures if ok then disk.tree == Cleared(old(disk.tree), k) else disk.tree == old(disk.tree)
    ensures old(disk.trouble) ==> disk.trouble
    ensures !ok ==> disk.trouble || !Yields(old(disk.tree), k)
  {
    hide TreeOk, Below;
    if k !in disk.tree { return true; }
    match disk.tree[k]
    case File(_) => ok := true;
    case Link(kind, _) =>
      if !Supported(kind) { return false; }
      ok := Unlink(disk, k);
    case Dir => ok := RemoveDirectory(disk, k);
  }

  /** The place is free or holds a file. */
  function Cleared(fs: Fs, k: Path): Fs {
    if k in fs && !fs[k].File? then fs - {k} else fs
  }

  /** Parents made, place cleared, entry written. */
  lemma Written(was: Fs, mid: Fs, clear: Fs, k: Path, n: Node)
    requires TreeOk(was) && Around(was, mid, k) && NameOk(k) && TreeOk(clear)
    requires forall p | Below(k, p) :: p in mid && mid[p] == Dir
    requires clear == mid - {k} || (clear == mid && (k in mid ==> mid[k].File?))
    ensures Around(was, clear[k := n], k)
  {
    hide NameOk, TreeOk;
    forall p | Below(k, p) ensures p in clear && clear[p] == Dir { BelowMeans(k, p); }
    if k in clear { LeafHasNothingBelow(clear, k); } else { GoneAlready(clear, k); }
    AddLeaf(clear, k, n);
  }

  /** RunCopy. A failed copy may leave anything in the file's place. */
  method RunCopy(disk: Disk, env: Env, k: Path) returns (o: Outcome, diskFull: bool)
    requires TreeOk(disk.tree) && NameOk(k)
    modifies disk
    ensures TreeOk(disk.tree) && o != Skip && (o == Done ==> WroteFile(env, k, old(disk.tree), disk.tree))
    ensures diskFull ==> o == Fail
    ensures old(disk.trouble) ==> disk.trouble
    ensures o != Done ==> disk.trouble || !Reachable(old(disk.tree), k) || !Yields(old(disk.tree), k)
                          || k !in env.source || !env.source[k].File?
  {
    hide TreeOk, NameOk, Below, Around, Reachable;
    diskFull := false;
    ghost var was := disk.tree;
    var parents := EnsureParentDirs(disk, k);
    if !parents { return Fail, false; }
    ghost var mid := disk.tree;
    AroundYields(was, mid, k);
    var ready := PrepareFileDest(disk, k);
    if !ready { return Fail, false; }
    if k !in env.source || !env.source[k].File? { return Fail, false; }
    var copied: bool := *;
    if !copied {
      var left: bytes := *;
      Written(was, mid, disk.tree, k, File(left));
      AroundTree(was, disk.tree[k := File(left)], k);
      var touched, cancelled, full: bool := *, *, *;
      disk.trouble := true;
      if touched { disk.tree := disk.tree[k := File(left)]; }
      if cancelled { return Cancel, false; }
      return Fail, full;
    }
    Written(was, mid, disk.tree, k, env.source[k]);
    AroundTree(was, disk.tree[k := env.source[k]], k);
    disk.tree := disk.tree[k := env.source[k]];
    o := Done;
  }

  /** New directories above a place do not change what is there or below. */
  lemma AroundYields(was: Fs, mid: Fs, k: Path)
    requires Around(was, mid, k) && (k in mid) == (k in was) && (k in mid ==> mid[k] == was[k])
    ensures Yields(was, k) ==> Yields(mid, k)
  {
    hide TreeOk, Below;
    if k in was && was[k] == Dir && Yields(was, k) {
      forall q | q in mid ensures !Below(q, k) {
        if Below(q, k) && q !in was { NotBothBelow(k, q); }
        if q == k { BelowMeans(k, k); }
      }
    }
  }

  lemma NotBothBelow(k: Path, q: Path)
    requires Below(q, k)
    ensures !Below(k, q)
  {
    BelowMeans(q, k);
    BelowMeans(k, q);
  }

  lemma AroundTree(was: Fs, now: Fs, k: Path)
    requires Around(was, now, k)
    ensures TreeOk(now)
  {
    hide TreeOk;
  }

  // --- links ---

  predicate IsAbsolute(target: bytes) {
    |target| >= 2 && target[1] == 0x3A
  }

  /** RunLink: the old object is removed, then the link is created from the live source target. */
  method RunLink(disk: Disk, env: Env, a: P.Action, k: Path, replace: bool) returns (o: Outcome)
    requires TreeOk(disk.tree) && NameOk(k)
    modifies disk
    ensures TreeOk(disk.tree) && (o == Done || o == Fail) && (o == Done ==> WroteLink(env, a, k, old(disk.tree), disk.tree))
    ensures old(disk.trouble) ==> disk.trouble
    ensures o == Fail ==> disk.trouble || !Reachable(old(disk.tree), k) || !Yields(old(disk.tree), k) || !CanLink(env, a, k)
                          || (replace && k !in old(disk.tree))
  {
    hide TreeOk, NameOk, Below, Around, Reachable;
    ghost var was := disk.tree;
    if k !in env.source || !env.source[k].Link? || env.source[k].target == [] { return Fail; }
    var target := env.source[k].target;
    if a.linkKind == Junction && !IsAbsolute(target) { return Fail; }
    var parents := EnsureParentDirs(disk, k);
    if !parents { return Fail; }
    ghost var mid := disk.tree;
    AroundYields(was, mid, k);
    if replace || k in disk.tree {
      if k !in disk.tree { return Fail; }
      var ok;
      if disk.tree[k] == Dir { ok := RemoveDirectory(disk, k); }
      else if disk.tree[k].Link? && !Supported(disk.tree[k].kind) { ok := false; }
      else { ok := Unlink(disk, k); }
      if !ok { return Fail; }
    }
    var fault: bool := *;
    if fault {
      disk.trouble := true;
      return Fail;
    }
    var link := Link(a.linkKind, env.Rebase(target));
    assert disk.tree == mid - {k} by { if k !in mid { assert mid - {k} == mid; } }
    Written(was, mid, disk.tree, k, link);
    AroundTree(was, disk.tree[k := link], k);
    disk.tree := disk.tree[k := link];
    o := Done;
  }

  // --- deletes and directories ---

  /** DeleteFile, for a file or a file link; an absent path is fine. */
  method DeleteFileOne(disk: Disk, k: Path) returns (ok: bool)
    requires TreeOk(disk.tree)
    modifies disk
    ensures TreeOk(disk.tree)
    ensures if ok then disk.tree == old(disk.tree) - {k} && (k in old(disk.tree) ==> old(disk.tree[k]) != Dir)
            else disk.tree == old(disk.tree)
    ensures old(disk.trouble) ==> disk.trouble
    ensures !ok ==> disk.trouble || !Reachable(old(disk.tree), k)
                    || (k in old(disk.tree) && (old(disk.tree[k]) == Dir || (old(disk.tree[k]).Link? && old(disk.tree[k]).kind != SymlinkFile)))
  {
    hide TreeOk;
    var chain := CheckParentChain(disk, k);
    if !chain { return false; }
    if k !in disk.tree {
      assert disk.tree - {k} == disk.tree;
      return true;
    }
    if disk.tree[k] == Dir || (disk.tree[k].Link? && disk.tree[k].kind != SymlinkFile) { return false; }
    ok := Unlink(disk, k);
  }

  method DeleteLinkAt(disk: Disk, k: Path) returns (ok: bool)
    requires TreeOk(disk.tree)
    modifies disk
    ensures TreeOk(disk.tree)
    ensures if ok then disk.tree == old(disk.tree) - {k} && (k in old(disk.tree) ==> old(disk.tree[k]) != Dir)
            else disk.tree == old(disk.tree)
    ensures old(disk.trouble) ==> disk.trouble
    ensures !ok ==> disk.trouble || !Reachable(old(disk.tree), k)
                    || (k in old(disk.tree) && (!old(disk.tree[k]).Link? || !Supported(old(disk.tree[k]).kind)))
  {
    hide TreeOk;
    var chain := CheckParentChain(disk, k);
    if !chain { return false; }
    if k !in disk.tree {
      assert disk.tree - {k} == disk.tree;
      return true;
    }
    if !disk.tree[k].Link? || !Supported(disk.tree[k].kind) { return false; }
    ok := Unlink(disk, k);
  }

  /** DirCreate: a file or a link in the way is deleted first. */
  method RunDirCreate(disk: Disk, k: Path) returns (ok: bool)
    requires TreeOk(disk.tree) && NameOk(k)
    modifies disk
    ensures TreeOk(disk.tree)
    ensures ok ==> Around(old(disk.tree), disk.tree, k) && k in disk.tree && disk.tree[k] == Dir
    ensures old(disk.trouble) ==> disk.trouble
    ensures !ok ==> disk.trouble || !Reachable(old(disk.tree), k)
                    || (k in old(disk.tree) && old(disk.tree[k]).Link? && !Supported(old(disk.tree[k]).kind))
  {
    hide TreeOk, Grown, Around;
    ghost var was := disk.tree;
    if k in disk.tree && disk.tree[k] != Dir {
      var clear;
      match disk.tree[k] {
        case File(_) => clear := DeleteFileOne(disk, k);
        case Link(kind, _) => if Supported(kind) { clear := Unlink(disk, k); } else { clear := false; }
      }
      if !clear { return false; }
    }
    ghost var mid := disk.tree;
    assert (mid == was && (k in was ==> was[k] == Dir)) || mid == was - {k};
    ok := CreateDirAll(disk, k);
    GrownAround(was, mid, disk.tree, k);
    if !ok { DirBlocked(was, mid, k); }
  }

  lemma DirBlocked(was: Fs, mid: Fs, k: Path)
    requires (mid == was && (k in was ==> was[k] == Dir)) || mid == was - {k}
    ensures (exists p <- mid :: AtOrBelow(k, p) && mid[p] != Dir) ==> !Reachable(was, k)
  {
    hide Below;
  }

  lemma GrownAround(was: Fs, mid: Fs, now: Fs, k: Path)
    requires Grown(mid, now, k) && (mid == was || mid == was - {k})
    ensures TreeOk(now) && Around(was, now, k)
  {
    hide TreeOk, Below;
  }

  /** One action of a plan. */
  method RunAction(disk: Disk, env: Env, a: P.Action, allowed: set<Path>) returns (o: Outcome, diskFull: bool)
    requires TreeOk(disk.tree) && FoldOk(env.fold)
    modifies disk
    ensures TreeOk(disk.tree) && Ran(env, a, allowed, old(disk.tree), disk.tree, o)
    ensures diskFull ==> StoppedByDisk(a, o)
    ensures old(disk.trouble) ==> disk.trouble
    ensures disk.trouble || Excused(env, a, allowed, old(disk.tree), o)
  {
    hide TreeOk, Around, Guarded, Unexpected, WroteFile, WroteLink, AtOrBelow, NameOk, FoldOk, P.Resolves, Reachable, Yields, CanLink;
    diskFull := false;
    var inside := P.ResolveWithinRoot(a.rel);
    if !inside { return Fail, false; }
    var k := env.fold(a.rel);
    P.ResolvesNameOk(a.rel);
    FoldNameOk(env.fold, a.rel);
    match a.op
    case FileCopy => o, diskFull := RunCopy(disk, env, k);
    case FileReplace => o, diskFull := RunCopy(disk, env, k);
    case LinkCreate => o := RunLink(disk, env, a, k, false);
    case LinkReplace => o := RunLink(disk, env, a, k, true);
    case DirCreate =>
      var ok := RunDirCreate(disk, k);
      o := if ok then Done else Fail;
    case FileDelete =>
      var ok := DeleteFileOne(disk, k);
      o := if ok then Done else Fail;
    case LinkDelete =>
      var ok := DeleteLinkAt(disk, k);
      o := if ok then Done else Fail;
    case DirDelete =>
      var out := DeleteDirGuarded(disk, k, allowed);
      GuardedKeeps(old(disk.tree), disk.tree, k, allowed);
      match out
      case Deleted => o := Done;
      case Skipped => o := Skip;
      case Cancelled => o := Cancel;
      case Failed => o := Fail;
  }

  lemma GuardedKeeps(was: Fs, now: Fs, k: Path, allowed: set<Path>)
    requires Guarded(was, now, k, allowed)
    ensures TreeOk(now)
  {
    hide TreeOk, Emptied;
  }

  // --- whole plans ---

  datatype Report = Report(items: seq<Outcome>, doneCount: nat, failedCount: nat, skippedCount: nat, cancelled: bool, diskFullAbort: bool)

  function CountOf(items: seq<Outcome>, o: Outcome): nat {
    if items == [] then 0 else CountOf(items[..|items| - 1], o) + (if items[|items| - 1] == o then 1 else 0)
  }

  /** The run went through the first n actions: states[i] is the tree before action i. */
  ghost predicate Executed(env: Env, actions: seq<P.Action>, allowed: set<Path>, states: seq<Fs>, items: seq<Outcome>, n: nat) {
    && n <= |actions| && |states| == n + 1 && |items| >= n
    && forall i | 0 <= i < n :: TreeOk(states[i]) && Ran(env, actions[i], allowed, states[i], states[i + 1], items[i])
  }

  /** Unless there was outside trouble, every outcome follows from the trees that the action met. */
  ghost predicate Explained(env: Env, actions: seq<P.Action>, allowed: set<Path>, states: seq<Fs>, items: seq<Outcome>, n: nat, trouble: bool)
    requires n <= |actions| && n <= |states| && n <= |items|
  {
    forall i | 0 <= i < n :: trouble || Excused(env, actions[i], allowed, states[i], items[i])
  }

  /** The report counts the items so far; done, skipped and failed ones are all of them. */
  ghost predicate Counted(r: Report, n: nat) {
    && |r.items| >= n && r.doneCount == CountOf(r.items[..n], Done) && r.skippedCount == CountOf(r.items[..n], Skip)
    && r.doneCount + r.skippedCount + r.failedCount == n
  }

  /** A file write that found the disk full. */
  predicate StoppedByDisk(a: P.Action, o: Outcome) {
    (a.op == P.FileCopy || a.op == P.FileReplace) && o == Fail
  }

  /** More bytes to copy than the free space, where that is known. */
  predicate Blocked(plan: P.Plan, free: nat) {
    free > 0 && plan.summary.bytesToCopy > free
  }

  /** The run's outcome: what was executed, and the rest reported as cancelled. */
  ghost predicate Reported(env: Env, actions: seq<P.Action>, allowed: set<Path>, states: seq<Fs>, r: Report, trouble: bool) {
    var n := |states| - 1;
    && n >= 0 && Executed(env, actions, allowed, states, r.items, n) && Counted(r, n) && |r.items| == |actions|
    && Explained(env, actions, allowed, states, r.items, n, trouble)
    && (r.cancelled || n == |actions|) && (r.cancelled ==> trouble)
    && (r.diskFullAbort ==> r.cancelled && n > 0 && StoppedByDisk(actions[n - 1], r.items[n - 1]))
    && forall i | n <= i < |r.items| :: r.items[i] == Cancel
  }

  function Finished(r: Report, o: Outcome): Report {
    r.(items := r.items + [o],
       doneCount := r.doneCount + (if o == Done then 1 else 0),
       skippedCount := r.skippedCount + (if o == Skip then 1 else 0),
       failedCount := r.failedCount + (if o == Done || o == Skip then 0 else 1))
  }

  /** ExecutePlan: independent failures are collected; a cancellation or a full disk ends the run, and every action that
      was not run is reported as cancelled. Nothing runs if the bytes to copy exceed the free space. */
  method ExecutePlan(disk: Disk, env: Env, plan: P.Plan, free: nat) returns (report: Report, ghost states: seq<Fs>)
    requires TreeOk(disk.tree) && FoldOk(env.fold)
    modifies disk
    ensures TreeOk(disk.tree) && |states| > 0 && states[0] == old(disk.tree) && states[|states| - 1] == disk.tree
    ensures Blocked(plan, free) <==> report.diskFullAbort && !report.cancelled
    ensures if Blocked(plan, free) then |states| == 1 && report.items == [Fail] && report.failedCount == 1
            else Reported(env, plan.Actions(), (set x | x in plan.extraFoldedRels), states, report, disk.trouble)
  {
    hide TreeOk, FoldOk, Reported;
    if plan.summary.bytesToCopy > 0 {
      if free > 0 && plan.summary.bytesToCopy > free {
        return Report([Fail], 0, 1, 0, false, true), [disk.tree];
      }
    }
    report, states := RunActions(disk, env, plan.Actions(), (set x | x in plan.extraFoldedRels));
  }

  method RunActions(disk: Disk, env: Env, actions: seq<P.Action>, allowed: set<Path>) returns (report: Report, ghost states: seq<Fs>)
    requires TreeOk(disk.tree) && FoldOk(env.fold)
    modifies disk
    ensures TreeOk(disk.tree) && |states| > 0 && states[0] == old(disk.tree) && states[|states| - 1] == disk.tree
    ensures Reported(env, actions, allowed, states, report, disk.trouble) && (report.diskFullAbort ==> report.cancelled)
  {
    hide TreeOk, Ran, FoldOk, Executed, Explained, Counted, CountOf, Excused;
    states := [disk.tree];
    report := Report([], 0, 0, 0, false, false);
    NothingYet(env, actions, allowed, states, report);
    for i := 0 to |actions|
      invariant Executed(env, actions, allowed, states, report.items, i) && Counted(report, i) && TreeOk(disk.tree)
      invariant |report.items| == i && |states| == i + 1 && states[0] == old(disk.tree) && states[i] == disk.tree
      invariant Explained(env, actions, allowed, states, report.items, i, disk.trouble) && !report.cancelled && !report.diskFullAbort
    {
      var cancel: bool := *;
      if cancel {
        StillExplained(env, actions, allowed, states, report.items, i, disk.trouble);
        disk.trouble := true;
        report := AbortRemaining(env, actions, allowed, states, report, false);
        return;
      }
      ghost var trouble := disk.trouble;
      var o, diskFull := RunAction(disk, env, actions[i], allowed);
      OneMoreItem(env, actions, allowed, states, report, o, disk.tree);
      OneMoreExplained(env, actions, allowed, states, report, o, disk.tree, trouble, disk.trouble);
      states := states + [disk.tree];
      report := Finished(report, o);
      if diskFull || (actions[i].op == P.DirDelete && o == Cancel) {
        StillExplained(env, actions, allowed, states, report.items, i + 1, disk.trouble);
        disk.trouble := true;
        report := AbortRemaining(env, actions, allowed, states, report, diskFull);
        return;
      }
    }
  }

  lemma NothingYet(env: Env, actions: seq<P.Action>, allowed: set<Path>, states: seq<Fs>, r: Report)
    requires |states| == 1 && r == Report([], 0, 0, 0, false, false)
    ensures Executed(env, actions, allowed, states, r.items, 0) && Counted(r, 0)
    ensures Explained(env, actions, allowed, states, r.items, 0, false) && Explained(env, actions, allowed, states, r.items, 0, true)
  {}

  lemma StillExplained(env: Env, actions: seq<P.Action>, allowed: set<Path>, states: seq<Fs>, items: seq<Outcome>, n: nat, trouble: bool)
    requires n <= |actions| && n <= |states| && n <= |items| && Explained(env, actions, allowed, states, items, n, trouble)
    ensures Explained(env, actions, allowed, states, items, n, true)
  {}

  lemma OneMoreExplained(env: Env, actions: seq<P.Action>, allowed: set<Path>, states: seq<Fs>, r: Report, o: Outcome, now: Fs,
                         before: bool, trouble: bool)
    requires |r.items| < |actions| && |states| == |r.items| + 1 && Explained(env, actions, allowed, states, r.items, |r.items|, before)
    requires trouble || Excused(env, actions[|r.items|], allowed, states[|r.items|], o)
    requires before ==> trouble
    ensures Explained(env, actions, allowed, states + [now], Finished(r, o).items, |r.items| + 1, trouble)
  {
    hide Excused;
  }

  lemma OneMoreItem(env: Env, actions: seq<P.Action>, allowed: set<Path>, states: seq<Fs>, r: Report, o: Outcome, now: Fs)
    requires var i := |r.items|;
             && i < |actions| && Executed(env, actions, allowed, states, r.items, i) && Counted(r, i)
             && TreeOk(states[i]) && Ran(env, actions[i], allowed, states[i], now, o)
    ensures var i := |r.items|;
            Executed(env, actions, allowed, states + [now], Finished(r, o).items, i + 1) && Counted(Finished(r, o), i + 1)
  {
    hide TreeOk, Ran;
    var items := r.items + [o];
    assert items[..|items|] == items && items[..|r.items|] == r.items == r.items[..|r.items|];
  }

  method AbortRemaining(ghost env: Env, actions: seq<P.Action>, ghost allowed: set<Path>, ghost states: seq<Fs>, r: Report, diskFull: bool)
    returns (report: Report)
    requires |r.items| <= |actions| && |states| == |r.items| + 1
    requires Executed(env, actions, allowed, states, r.items, |r.items|) && Counted(r, |r.items|)
    requires Explained(env, actions, allowed, states, r.items, |r.items|, true)
    requires diskFull ==> r.items != [] && StoppedByDisk(actions[|r.items| - 1], r.items[|r.items| - 1])
    ensures Reported(env, actions, allowed, states, report, true) && report.cancelled && report.diskFullAbort == diskFull
  {
    hide TreeOk, Ran, CountOf, Excused;
    report := r;
    for i := |r.items| to |actions|
      invariant report == r.(items := report.items)
      invariant |report.items| == i && report.items[..|r.items|] == r.items
      invariant forall j | |r.items| <= j < i :: report.items[j] == Cancel
    {
      report := report.(items := report.items + [Cancel]);
    }
    report := report.(cancelled := true, diskFullAbort := diskFull);
    assert r.items[..|r.items|] == r.items;
    assert forall i | 0 <= i < |r.items| :: report.items[i] == r.items[i];
  }
}
