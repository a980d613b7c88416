/** Lexicographic order on code-unit strings, and enumeration of a finite set of strings in that order. */
module Lex {
  predicate Less(a: seq<int>, b: seq<int>)
    decreases |b|
  {
    b != [] && (a == [] || a[0] < b[0] || (a[0] == b[0] && Less(a[1..], b[1..])))
  }

  lemma {:induction false} Irreflexive(a: seq<int>)
    ensures !Less(a, a)
  {
    if a != [] { Irreflexive(a[1..]); }
  }

  lemma {:induction false} Trichotomy(a: seq<int>, b: seq<int>)
    ensures a == b || Less(a, b) || Less(b, a)
    decreases |b|
  {
    if a != [] && b != [] && a[0] == b[0] {
      Trichotomy(a[1..], b[1..]);
      if a[1..] == b[1..] { assert a == [a[0]] + a[1..] == b; }
    }
  }

  lemma {:induction false} Transitive(a: seq<int>, b: seq<int>, c: seq<int>)
    requires Less(a, b) && Less(b, c)
    ensures Less(a, c)
    decreases |c|
  {
    if a != [] && a[0] == b[0] == c[0] { Transitive(a[1..], b[1..], c[1..]); }
  }

  /** m comes before every other element of s. */
  predicate IsLeast(m: seq<int>, s: set<seq<int>>) {
    m in s && forall y <- s :: y != m ==> Less(m, y)
  }

  lemma {:induction false} LeastExists(s: set<seq<int>>, x: seq<int>)
    requires x in s
    ensures exists m :: IsLeast(m, s)
  {
    hide Less;
    var r := s - {x};
    if r == {} {
      assert s == {x} && IsLeast(x, s);
    } else {
      var z :| z in r;
      LeastExists(r, z);
      var m :| IsLeast(m, r);
      Trichotomy(m, x);
      if Less(m, x) {
        assert IsLeast(m, s);
      } else {
        forall y | y in s && y != x ensures Less(x, y) {
          if y != m { Transitive(x, m, y); }
        }
        assert IsLeast(x, s);
      }
    }
  }
}
