/** Sorted key lists and the binary search that finds whether a directory has an entry below it. */
module PathOrder {
  import opened Bytes
  import opened Results
  import opened RunResult
  import Lex

  /** No later key comes before an earlier one. */
  ghost predicate Sorted(keys: seq<Path>) {
    forall i, j | 0 <= i < j < |keys| :: !Lex.Less(keys[j], keys[i])
  }

  /** Everything between a prefix and one of its extensions has that prefix. */
  lemma {:induction false} BetweenPrefix(p: Path, x: Path, y: Path)
    requires p <= y && !Lex.Less(x, p) && !Lex.Less(y, x)
    ensures p <= x
    decreases |p|
  {
    if p != [] {
      assert y[0] == p[0] && x != [];
      assert x[0] == p[0];
      BetweenPrefix(p[1..], x[1..], y[1..]);
      assert x == [x[0]] + x[1..] && p == [p[0]] + p[1..];
    }
  }

  lemma {:induction false} PrefixNotLess(p: Path, x: Path)
    requires p <= x
    ensures !Lex.Less(x, p)
    decreases |p|
  {
    if p != [] { PrefixNotLess(p[1..], x[1..]); }
  }

  /** A key that is not below x puts every later key there too. */
  lemma NotLessUp(x: Path, a: Path, b: Path)
    requires !Lex.Less(a, x) && !Lex.Less(b, a)
    ensures !Lex.Less(b, x)
  {
    if Lex.Less(b, x) {
      Lex.Trichotomy(a, b);
      if Lex.Less(a, b) { Lex.Transitive(a, b, x); }
      assert false;
    }
  }

  lemma LessDown(x: Path, a: Path, b: Path)
    requires Lex.Less(b, x) && !Lex.Less(b, a)
    ensures Lex.Less(a, x)
  {
    Lex.Trichotomy(a, b);
    if Lex.Less(a, b) { Lex.Transitive(a, b, x); }
  }

  /** std::lower_bound. */
  method LowerBound(keys: seq<Path>, x: Path) returns (at: nat)
    requires Sorted(keys)
    ensures at <= |keys|
    ensures forall i | 0 <= i < at :: Lex.Less(keys[i], x)
    ensures forall i | at <= i < |keys| :: !Lex.Less(keys[i], x)
  {
    hide Lex.Less;
    var lo, hi := 0, |keys|;
    while lo < hi
      invariant 0 <= lo <= hi <= |keys|
      invariant forall i | 0 <= i < lo :: Lex.Less(keys[i], x)
      invariant forall i | hi <= i < |keys| :: !Lex.Less(keys[i], x)
    {
      var mid := (lo + hi) / 2;
      if Lex.Less(keys[mid], x) {
        forall i | lo <= i <= mid ensures Lex.Less(keys[i], x) {
          if i < mid { LessDown(x, keys[i], keys[mid]); }
        }
        lo := mid + 1;
      } else {
        forall i | mid <= i < hi ensures !Lex.Less(keys[i], x) {
          if mid < i { NotLessUp(x, keys[mid], keys[i]); }
        }
        hi := mid;
      }
    }
    at := lo;
  }

  /** HasDescendant: on a sorted list, true exactly when some key lies strictly below the directory. */
  method HasDescendant(keys: seq<Path>, dir: Path) returns (found: bool)
    requires Sorted(keys)
    ensures found <==> exists i | 0 <= i < |keys| :: Below(keys[i], dir)
  {
    hide Lex.Less;
    var prefix := dir + [SEP];
    var at := LowerBound(keys, prefix);
    found := at < |keys| && |keys[at]| >= |prefix| && keys[at][..|prefix|] == prefix;
    assert found <==> at < |keys| && prefix <= keys[at];
    if i :| 0 <= i < |keys| && Below(keys[i], dir) {
      PrefixNotLess(prefix, keys[i]);
      if at < i { BetweenPrefix(prefix, keys[at], keys[i]); }
    }
  }

  /** Sorting by insertion: the result is sorted and has the same keys. */
  method SortKeys(keys: seq<Path>) returns (r: seq<Path>)
    ensures Sorted(r) && multiset(r) == multiset(keys)
  {
    hide Lex.Less;
    r := [];
    for i := 0 to |keys|
      invariant Sorted(r) && multiset(r) == multiset(keys[..i])
    {
      var at := LowerBound(r, keys[i]);
      ghost var before := r;
      assert r == r[..at] + r[at..];
      r := r[..at] + [keys[i]] + r[at..];
      InsertSorted(before, keys[i], at);
      assert keys[..i + 1] == keys[..i] + [keys[i]];
    }
    assert keys[..|keys|] == keys;
  }

  lemma InsertSorted(r: seq<Path>, x: Path, at: nat)
    requires Sorted(r) && at <= |r|
    requires forall i | 0 <= i < at :: Lex.Less(r[i], x)
    requires forall i | at <= i < |r| :: !Lex.Less(r[i], x)
    ensures Sorted(r[..at] + [x] + r[at..])
  {
    hide Lex.Less;
    var s := r[..at] + [x] + r[at..];
    forall i, j | 0 <= i < j < |s| ensures !Lex.Less(s[j], s[i]) {
      if j == at {
        NotBoth(r[i], x);
      } else if j < at {
        assert s[j] == r[j] && s[i] == r[i];
      } else {
        assert s[j] == r[j - 1];
        if i < at { assert s[i] == r[i]; } else if i > at { assert s[i] == r[i - 1]; }
      }
    }
  }

  lemma NotBoth(a: Path, b: Path)
    ensures !(Lex.Less(a, b) && Lex.Less(b, a))
  {
    if Lex.Less(a, b) && Lex.Less(b, a) {
      Lex.Transitive(a, b, a);
      Lex.Irreflexive(a);
      assert false;
    }
  }
}
