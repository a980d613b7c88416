/** A directory tree as a map from folded relative paths to files, directories and links. */
module SyncTree {
  import opened Bytes
  import opened Results
  import opened RunResult

  datatype Node = File(data: bytes) | Dir | Link(kind: ReparseKind, target: bytes)

  type Fs = map<Path, Node>

  predicate Supported(k: ReparseKind) {
    k == SymlinkFile || k == SymlinkDir || k == Junction
  }

  /** Components are separated by single backslashes. */
  predicate NameOk(k: Path) {
    && k != [] && k[0] != SEP && k[|k| - 1] != SEP
    && forall i | 0 <= i < |k| - 1 :: k[i] == SEP ==> k[i + 1] != SEP
  }

  predicate AtOrBelow(k: Path, d: Path) {
    k == d || Below(k, d)
  }

  /** Everything above an entry is a real directory. */
  ghost predicate TreeOk(fs: Fs) {
    && (forall k <- fs :: NameOk(k))
    && (forall k, p | k in fs && Below(k, p) :: p in fs && fs[p] == Dir)
  }

  /** c sits directly in d. */
  predicate IsChild(c: Path, d: Path) {
    Below(c, d) && |c| > |d| + 1 && forall i | |d| < i < |c| :: c[i] != SEP
  }

  lemma BelowMeans(k: Path, d: Path)
    ensures Below(k, d) <==> |k| > |d| && k[..|d|] == d && k[|d|] == SEP
  {
    if |k| > |d| {
      assert k[..|d| + 1] == k[..|d|] + [k[|d|]];
      assert d + [SEP] <= k <==> k[..|d| + 1] == d + [SEP];
    }
  }

  lemma BelowTrans(k: Path, p: Path, d: Path)
    requires Below(k, p) && AtOrBelow(p, d)
    ensures Below(k, d)
  {
    if p != d { assert d + [SEP] <= p <= p + [SEP] <= k; }
  }

  /** Two directories above the same entry are one above the other. */
  lemma BelowBoth(k: Path, p: Path, d: Path)
    requires AtOrBelow(k, p) && AtOrBelow(k, d) && |p| <= |d|
    ensures AtOrBelow(d, p)
  {
    BelowMeans(k, p);
    BelowMeans(k, d);
    BelowMeans(d, p);
    if |p| < |d| {
      assert d == k[..|d|] && d[..|p|] == k[..|p|];
      assert d[|p|] == k[|p|];
    } else {
      assert p == k[..|p|] && d == k[..|d|];
    }
  }

  /** An entry below a directory is, or is below, one of the directory's children. */
  lemma {:induction false} ChildTowards(k: Path, d: Path) returns (c: Path)
    requires Below(k, d) && NameOk(k)
    ensures IsChild(c, d) && AtOrBelow(k, c)
  {
    BelowMeans(k, d);
    var i := |d| + 1;
    assert i < |k| && k[i] != SEP;
    while i < |k| && k[i] != SEP
      invariant |d| + 1 <= i <= |k|
      invariant forall j | |d| < j < i :: k[j] != SEP
      invariant i == |d| + 1 ==> k[i] != SEP
    {
      i := i + 1;
    }
    c := k[..i];
    BelowMeans(c, d);
    assert c[..|d|] == k[..|d|];
    if i < |k| { BelowMeans(k, c); }
  }

  /** A directory of a tree without children has nothing below it. */
  lemma NoChildrenNothingBelow(fs: Fs, d: Path)
    requires TreeOk(fs) && forall c <- fs :: !IsChild(c, d)
    ensures forall k <- fs :: !Below(k, d)
  {
    hide IsChild, Below, NameOk;
    forall k | k in fs ensures !Below(k, d) {
      if Below(k, d) {
        var c := ChildTowards(k, d);
        assert false;
      }
    }
  }

  /** Removing an entry with nothing below it keeps the tree a tree. */
  lemma RemoveLeaf(fs: Fs, k: Path)
    requires TreeOk(fs) && forall q <- fs :: !Below(q, k)
    ensures TreeOk(fs - {k})
  {
    hide Below, NameOk;
  }

  /** Only directories have entries below them. */
  lemma LeafHasNothingBelow(fs: Fs, k: Path)
    requires TreeOk(fs) && k in fs && fs[k] != Dir
    ensures forall q <- fs :: !Below(q, k)
  {
    hide Below, NameOk;
  }

  /** Adding an entry whose ancestors are directories, in a free place or over a file or link. */
  lemma AddLeaf(fs: Fs, k: Path, n: Node)
    requires TreeOk(fs) && NameOk(k) && forall p | Below(k, p) :: p in fs && fs[p] == Dir
    requires k in fs && n != Dir ==> forall q <- fs :: !Below(q, k)
    requires k !in fs ==> forall q <- fs :: !Below(q, k)
    ensures TreeOk(fs[k := n])
  {
    hide NameOk;
    forall q, p | q in fs[k := n] && Below(q, p) ensures p in fs[k := n] && fs[k := n][p] == Dir {
      if q == k && p == k { BelowMeans(k, k); }
    }
  }

  /** Case folding works character by character: it keeps lengths, separators and prefixes. */
  ghost predicate FoldOk(fold: Path -> Path) {
    forall rel: Path ::
      && |fold(rel)| == |rel|
      && (forall i | 0 <= i < |rel| :: fold(rel)[i] == SEP <==> rel[i] == SEP)
      && (forall i | 0 <= i <= |rel| :: fold(rel[..i]) == fold(rel)[..i])
  }

  lemma FoldNameOk(fold: Path -> Path, rel: Path)
    requires FoldOk(fold) && NameOk(rel)
    ensures NameOk(fold(rel))
  {}

  /** What is above a path is, folded, what is above the folded path. */
  lemma FoldBelow(fold: Path -> Path, rel: Path, d: Path)
    requires FoldOk(fold) && Below(rel, d)
    ensures Below(fold(rel), fold(d))
  {
    BelowMeans(rel, d);
    assert fold(rel[..|d|]) == fold(rel)[..|d|];
    BelowMeans(fold(rel), fold(d));
  }

  lemma FoldAbove(fold: Path -> Path, rel: Path, p: Path) returns (d: Path)
    requires FoldOk(fold) && Below(fold(rel), p)
    ensures Below(rel, d) && fold(d) == p && |d| == |p|
  {
    BelowMeans(fold(rel), p);
    d := rel[..|p|];
    assert fold(rel)[|p|] == SEP;
    BelowMeans(rel, d);
  }
}
