/** Link targets and the two roots: the form in which targets are compared, and the form in which they are written. */
module LinkTargets {
  import opened Bytes
  import opened Results
  import opened RunResult
  import opened SyncTree

  /** \\?\ and \\?\UNC\ */
  const LONG: bytes := [SEP, SEP, 0x3F, SEP]
  const LONG_UNC: bytes := [SEP, SEP, 0x3F, SEP, 0x55, 0x4E, 0x43, SEP]

  /** <root>, which no file is named: < and > are not allowed in names. */
  const SURROGATE: bytes := [0x3C, 0x72, 0x6F, 0x6F, 0x74, 0x3E]

  // --- normal forms ---

  function WithoutPrefix(s: bytes): bytes {
    if LONG_UNC <= s then [SEP, SEP] + s[8..] else if LONG <= s then s[4..] else s
  }

  function Trimmed(s: bytes): bytes {
    if |s| > 3 && s[|s| - 1] == SEP then Trimmed(s[..|s| - 1]) else s
  }

  function NormalRoot(s: bytes): bytes {
    if s == [] then [] else
    var t := Trimmed(WithoutPrefix(s));
    if t == [SEP, SEP] then [SEP] else t
  }

  /** NormalizeRoot: no long-path prefix and no trailing separators, but never less than a root form. */
  method NormalizeRoot(root: bytes) returns (s: bytes)
    ensures s == NormalRoot(root)
    ensures |s| > 3 ==> s[|s| - 1] != SEP
  {
    if root == [] { return root; }
    s := root;
    if LONG_UNC <= s { s := [SEP, SEP] + s[8..]; }
    else if LONG <= s { s := s[4..]; }
    while |s| > 3 && s[|s| - 1] == SEP
      invariant Trimmed(s) == Trimmed(WithoutPrefix(root))
    {
      s := s[..|s| - 1];
    }
    if s == [SEP, SEP] { s := [SEP]; }
  }

  lemma {:induction false} TrimmedEnds(s: bytes)
    ensures Trimmed(s) <= s && (|Trimmed(s)| > 3 ==> Trimmed(s)[|Trimmed(s)| - 1] != SEP)
  {
    if |s| > 3 && s[|s| - 1] == SEP { TrimmedEnds(s[..|s| - 1]); }
  }

  /** A normal form has no trailing separator beyond the root forms, and is never two separators. */
  lemma NormalEnds(s: bytes)
    ensures var n := NormalRoot(s); (|n| > 3 ==> n[|n| - 1] != SEP) && n != [SEP, SEP] && |n| <= |s|
  {
    TrimmedEnds(WithoutPrefix(s));
  }

  /** A text without prefix and trailing separator is its own normal form. */
  lemma AlreadyNormal(s: bytes)
    requires |s| > 3 && s[|s| - 1] != SEP && !(LONG <= s)
    ensures NormalRoot(s) == s
  {
    assert LONG_UNC[..4] == LONG && s[..4] <= s;
  }

  // --- inside a root ---

  /** What follows the root in a target below it. Where folding keeps lengths, the target is then longer than the root. */
  function SplitInside(fold: Path -> Path, target: bytes, root: bytes): bytes {
    var n, t := NormalRoot(root), NormalRoot(target);
    var fn, ft := fold(n), fold(t);
    if n == [] || t == [] || |ft| <= |fn| || ft[..|fn|] != fn || ft[|fn|] != SEP || |t| <= |n| then [] else t[|n| + 1..]
  }

  /** SplitInsideRoot: the rest of a target below the root, whatever the case; empty for any other target. */
  method SplitInsideRoot(fold: Path -> Path, target: bytes, root: bytes) returns (rel: bytes)
    requires FoldOk(fold)
    ensures rel == SplitInside(fold, target, root)
  {
    hide NormalRoot;
    var nRoot := NormalizeRoot(root);
    var nTarget := NormalizeRoot(target);
    if nRoot == [] || nTarget == [] { return []; }
    var fRoot, fTarget := fold(nRoot), fold(nTarget);
    FoldLengths(fold, nRoot);
    FoldLengths(fold, nTarget);
    if |fTarget| <= |fRoot| { return []; }
    if fTarget[..|fRoot|] != fRoot { return []; }
    if fTarget[|fRoot|] != SEP { return []; }
    rel := nTarget[|nRoot| + 1..];
  }

  lemma FoldLengths(fold: Path -> Path, s: bytes)
    requires FoldOk(fold)
    ensures |fold(s)| == |s|
  {}

  /** The target lies below the root. */
  predicate Inside(fold: Path -> Path, target: bytes, root: bytes) {
    SplitInside(fold, target, root) != []
  }

  /** A target below a root is, normalised and up to case, the root, a separator and the rest. */
  lemma InsideMeans(fold: Path -> Path, target: bytes, root: bytes)
    requires FoldOk(fold)
    ensures var n, t := NormalRoot(root), NormalRoot(target);
            Inside(fold, target, root) <==>
            n != [] && |t| > |n| + 1 && t[|n|] == SEP && fold(t[..|n|]) == fold(n)
  {
    hide NormalRoot, FoldOk;
    var n, t := NormalRoot(root), NormalRoot(target);
    FoldLengths(fold, n);
    FoldLengths(fold, t);
    if |t| > |n| { FoldTake(fold, t, |n|); }
  }

  lemma FoldTake(fold: Path -> Path, t: bytes, i: nat)
    requires FoldOk(fold) && i < |t|
    ensures fold(t)[..i] == fold(t[..i]) && |fold(t)| == |t| && (fold(t)[i] == SEP <==> t[i] == SEP)
  {}

  // --- comparing and writing ---

  /** NormalizeLinkTargetForCompare: a target below the own root by its place under it, any other verbatim. */
  function ForCompare(fold: Path -> Path, target: bytes, ownRoot: bytes): bytes {
    var rel := SplitInside(fold, target, ownRoot);
    if rel != [] then SURROGATE + ([SEP] + rel) else target
  }

  /** RebaseLinkTargetForWrite: a target below one root moves below the other. */
  function Rebased(fold: Path -> Path, target: bytes, fromRoot: bytes, toRoot: bytes): bytes {
    var rel, n := SplitInside(fold, target, fromRoot), NormalRoot(toRoot);
    if rel == [] || n == [] then target else n + ([SEP] + rel)
  }

  /** A root as the program can use it: normalised it is more than a single character, has no long-path prefix left, and
      does not start like the surrogate. */
  predicate RootOk(fold: Path -> Path, root: bytes) {
    var n := NormalRoot(root);
    |n| >= 2 && !([SEP, SEP, 0x3F] <= n) && !(fold(SURROGATE) <= fold(n))
  }

  /** A rebased target is at the same place below the new root. */
  lemma RebasedInside(fold: Path -> Path, target: bytes, fromRoot: bytes, toRoot: bytes)
    requires FoldOk(fold) && RootOk(fold, fromRoot) && RootOk(fold, toRoot) && Inside(fold, target, fromRoot)
    ensures SplitInside(fold, Rebased(fold, target, fromRoot, toRoot), toRoot) == SplitInside(fold, target, fromRoot)
  {
    hide NormalRoot, FoldOk;
    var rel, n := SplitInside(fold, target, fromRoot), NormalRoot(toRoot);
    InsideMeans(fold, target, fromRoot);
    NormalEnds(target);
    NormalEnds(toRoot);
    var out := n + ([SEP] + rel);
    assert rel[|rel| - 1] == NormalRoot(target)[|NormalRoot(target)| - 1];
    NoPrefix(n, rel);
    AlreadyNormal(out);
    assert out[..|n|] == n && out[|n|] == SEP && out[|n| + 1..] == rel;
    FoldTake(fold, out, |n|);
  }

  lemma NoPrefix(n: bytes, rel: bytes)
    requires |n| >= 2 && !([SEP, SEP, 0x3F] <= n) && n != [SEP, SEP]
    ensures !(LONG <= n + ([SEP] + rel))
  {
    var s := n + ([SEP] + rel);
    assert s[0] == n[0] && s[1] == n[1] && LONG[0] == SEP && LONG[1] == SEP && LONG[2] == 0x3F;
    assert |n| == 2 ==> n == [n[0], n[1]];
    assert |n| > 2 ==> n[..3] == [n[0], n[1], n[2]] && s[2] == n[2];
  }

  lemma RestEnds(fold: Path -> Path, target: bytes, root: bytes)
    requires FoldOk(fold) && Inside(fold, target, root) && |NormalRoot(root)| >= 2
    ensures var rel := SplitInside(fold, target, root); rel != [] && rel[|rel| - 1] != SEP
  {
    hide NormalRoot, FoldOk;
    InsideMeans(fold, target, root);
    NormalEnds(target);
  }

  /** Nothing spelled with the surrogate lies below a root. */
  lemma SurrogateOutside(fold: Path -> Path, rel: bytes, root: bytes)
    requires FoldOk(fold) && RootOk(fold, root) && rel != [] && rel[|rel| - 1] != SEP
    ensures !Inside(fold, SURROGATE + ([SEP] + rel), root)
  {
    hide NormalRoot, FoldOk, SplitInside;
    var t, n := SURROGATE + ([SEP] + rel), NormalRoot(root);
    assert t[0] == 0x3C;
    AlreadyNormal(t);
    InsideMeans(fold, t, root);
    if Inside(fold, t, root) {
      assert forall i | 0 <= i < 6 :: t[i] == SURROGATE[i] && t[i] != SEP;
      assert |n| >= 6 && t[..|n|][..6] == SURROGATE;
      if |n| == 6 { FoldWhole(fold, t[..6], n); } else { FoldTake(fold, t[..|n|], 6); }
      assert false;
    }
  }

  lemma FoldWhole(fold: Path -> Path, s: bytes, n: bytes)
    requires FoldOk(fold) && fold(s) == fold(n)
    ensures fold(s) <= fold(n)
  {}

  /** A written target compares equal to the source's target, if and only if the source's target is below the source root
      or is not below the destination root. */
  lemma RebaseConverges(fold: Path -> Path, target: bytes, fromRoot: bytes, toRoot: bytes)
    requires FoldOk(fold) && RootOk(fold, fromRoot) && RootOk(fold, toRoot)
    ensures ForCompare(fold, Rebased(fold, target, fromRoot, toRoot), toRoot) == ForCompare(fold, target, fromRoot)
            <==> Inside(fold, target, fromRoot) || !Inside(fold, target, toRoot)
  {
    hide SplitInside, NormalRoot, FoldOk;
    if Inside(fold, target, fromRoot) {
      RebasedInside(fold, target, fromRoot, toRoot);
    } else if Inside(fold, target, toRoot) {
      NeverEqual(fold, target, fromRoot, toRoot, target);
    }
  }

  /** A source target below the destination root but not below the source root compares equal to no target at all. */
  lemma NeverEqual(fold: Path -> Path, target: bytes, fromRoot: bytes, toRoot: bytes, other: bytes)
    requires FoldOk(fold) && RootOk(fold, toRoot) && Inside(fold, target, toRoot) && !Inside(fold, target, fromRoot)
    ensures ForCompare(fold, other, toRoot) != ForCompare(fold, target, fromRoot)
  {
    hide SplitInside, FoldOk;
    if Inside(fold, other, toRoot) {
      RestEnds(fold, other, toRoot);
      SurrogateOutside(fold, SplitInside(fold, other, toRoot), toRoot);
    }
  }

  /** Source root C:\A, destination root D:\B, and a link of the source to D:\B\x: it is written unchanged, and compares
      different from itself. */
  lemma LinkIntoDestination() returns (fromRoot: bytes, toRoot: bytes, target: bytes)
    ensures fromRoot == [0x43, 0x3A, SEP, 0x41] && toRoot == [0x44, 0x3A, SEP, 0x42] && target == toRoot + [SEP, 0x78]
    ensures var fold: Path -> Path := p => p;
            && FoldOk(fold) && RootOk(fold, fromRoot) && RootOk(fold, toRoot)
            && Rebased(fold, target, fromRoot, toRoot) == target
            && ForCompare(fold, target, toRoot) != ForCompare(fold, target, fromRoot)
  {
    hide NormalRoot, SplitInside;
    fromRoot, toRoot := [0x43, 0x3A, SEP, 0x41], [0x44, 0x3A, SEP, 0x42];
    target := toRoot + [SEP, 0x78];
    var fold: Path -> Path := p => p;
    assert fromRoot[0] == 0x43 && toRoot[0] == 0x44 && target[0] == 0x44 && SURROGATE[0] == 0x3C;
    assert LONG[0] == SEP && [SEP, SEP, 0x3F][0] == SEP;
    AlreadyNormal(fromRoot);
    AlreadyNormal(toRoot);
    AlreadyNormal(target);
    assert target[..4] == toRoot && fold(target[..4]) == toRoot && fold(fromRoot) == fromRoot;
    assert FoldOk(fold);
    InsideMeans(fold, target, fromRoot);
    InsideMeans(fold, target, toRoot);
    RebaseConverges(fold, target, fromRoot, toRoot);
  }
}
