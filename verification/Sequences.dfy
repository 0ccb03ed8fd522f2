/** Ordered parts of a sequence. */
module Sequences {
  predicate EndsIn<T(==)>(s: seq<T>, d: seq<T>) {
    |d| <= |s| && s[|s| - |d|..] == d
  }

  /** `a` is what is left of `b` after deleting some of its elements. */
  ghost predicate Subsequence<T>(a: seq<T>, b: seq<T>) {
    if a == [] then true
    else if b == [] then false
    else
      var x, y := a[..|a| - 1], b[..|b| - 1];
      (a[|a| - 1] == b[|b| - 1] && Subsequence(x, y)) || Subsequence(a, y)
  }

  lemma {:induction false} SubsequenceElements<T>(a: seq<T>, b: seq<T>)
    requires Subsequence(a, b)
    ensures forall x | x in a :: x in b
  {
    if a != [] && b != [] {
      var x, y := a[..|a| - 1], b[..|b| - 1];
      if a[|a| - 1] == b[|b| - 1] && Subsequence(x, y) {
        SubsequenceElements(x, y);
        assert a == x + [a[|a| - 1]];
      } else {
        SubsequenceElements(a, y);
      }
    }
  }

  lemma {:induction false} SubsequenceTransitive<T>(a: seq<T>, b: seq<T>, c: seq<T>)
    requires Subsequence(a, b) && Subsequence(b, c)
    ensures Subsequence(a, c)
    decreases |b| + |c|
  {
    if a != [] && b != [] && c != [] {
      var x, y, z := a[..|a| - 1], b[..|b| - 1], c[..|c| - 1];
      if b[|b| - 1] == c[|c| - 1] && Subsequence(y, z) {
        if a[|a| - 1] == b[|b| - 1] && Subsequence(x, y) {
          SubsequenceTransitive(x, y, z);
        } else {
          SubsequenceTransitive(a, y, z);
        }
      } else {
        SubsequenceTransitive(a, b, z);
      }
    }
  }

  lemma SubsequenceGrows<T>(a: seq<T>, b: seq<T>, x: T)
    requires Subsequence(a, b)
    ensures Subsequence(a + [x], b + [x])
  {
    assert (a + [x])[..|a|] == a && (b + [x])[..|b|] == b;
  }

  lemma {:induction false} SubsequenceReflexive<T>(a: seq<T>)
    ensures Subsequence(a, a)
  {
    if a != [] {
      SubsequenceReflexive(a[..|a| - 1]);
    }
  }

  /** Deleting the end as well leaves less. */
  lemma {:induction false} SubsequenceFront<T>(a: seq<T>, more: seq<T>, b: seq<T>)
    requires Subsequence(a + more, b)
    ensures Subsequence(a, b)
    decreases |more| + |b|
  {
    if more == [] {
      assert a + more == a;
    } else if a != [] {
      var all := a + more;
      assert all[..|all| - 1] == a + more[..|more| - 1];
      if all[|all| - 1] == b[|b| - 1] && Subsequence(all[..|all| - 1], b[..|b| - 1]) {
        SubsequenceFront(a, more[..|more| - 1], b[..|b| - 1]);
        SubsequenceWider(a, b);
      } else {
        SubsequenceFront(a, more, b[..|b| - 1]);
        SubsequenceWider(a, b);
      }
    }
  }

  lemma SubsequenceWider<T>(a: seq<T>, b: seq<T>)
    requires b != [] && Subsequence(a, b[..|b| - 1])
    ensures Subsequence(a, b)
  {
  }
}
