/** Sorting with a comparison function, as Go's `sort` package does it, and sums over a sequence
    that do not depend on its order. */
module Sorting {
  import opened Bytes

  type Less<!T> = (T, T) -> bool

  function Insert<T>(x: T, s: seq<T>, less: Less<T>): seq<T> {
    if s == [] || !less(s[0], x) then [x] + s else [s[0]] + Insert(x, s[1..], less)
  }

  /** `sort.SliceStable`. */
  function StableSort<T>(s: seq<T>, less: Less<T>): seq<T> {
    if s == [] then [] else Insert(s[0], StableSort(s[1..], less), less)
  }

  ghost predicate Sorted<T>(s: seq<T>, less: Less<T>) {
    forall i, j | 0 <= i < j < |s| :: less(s[i], s[j])
  }

  ghost predicate StrictOrder<T(!new)>(less: Less<T>) {
    && (forall x :: !less(x, x))
    && forall x, y, z :: less(x, y) && less(y, z) ==> less(x, z)
  }

  lemma {:induction false} InsertIsPermutation<T>(x: T, s: seq<T>, less: Less<T>)
    ensures multiset(Insert(x, s, less)) == multiset([x]) + multiset(s)
  {
    if s != [] && less(s[0], x) {
      InsertIsPermutation(x, s[1..], less);
      assert s == [s[0]] + s[1..];
    }
  }

  lemma {:induction false} StableSortIsPermutation<T>(s: seq<T>, less: Less<T>)
    ensures multiset(StableSort(s, less)) == multiset(s)
  {
    if s != [] {
      StableSortIsPermutation(s[1..], less);
      InsertIsPermutation(s[0], StableSort(s[1..], less), less);
      assert s == [s[0]] + s[1..];
    }
  }

  /** Inserting keeps the order `finer`, when `finer` decides what `less` leaves open by putting the
      new element first. */
  lemma {:induction false} InsertKeepsSorted<T(!new)>(x: T, s: seq<T>, less: Less<T>, finer: Less<T>)
    requires StrictOrder(finer) && Sorted(s, finer)
    requires forall y | y in s :: if less(y, x) then finer(y, x) else finer(x, y)
    ensures Sorted(Insert(x, s, less), finer)
    decreases s
  {
    if s != [] && less(s[0], x) {
      InsertKeepsSorted(x, s[1..], less, finer);
      var r := Insert(x, s[1..], less);
      InsertIsPermutation(x, s[1..], less);
      forall j | 0 <= j < |r| ensures finer(s[0], r[j]) {
        assert r[j] in multiset(r);
        if r[j] != x {
          var k :| 0 <= k < |s[1..]| && s[1..][k] == r[j];
          assert s[k + 1] == r[j];
        } else {
          assert s[0] in s;
        }
      }
    } else if s != [] {
      assert s[0] in s;
      forall j | 0 < j < |s| ensures finer(x, s[j]) {
        assert finer(s[0], s[j]);
      }
    }
  }

  /** A stable sort by `less` sorts by every finer order that breaks ties by position. */
  lemma {:induction false} StableSortSorts<T(!new)>(s: seq<T>, less: Less<T>, finer: Less<T>)
    requires StrictOrder(finer)
    requires forall i, j | 0 <= i < j < |s| :: if less(s[j], s[i]) then finer(s[j], s[i]) else finer(s[i], s[j])
    ensures Sorted(StableSort(s, less), finer)
    decreases s
  {
    if s != [] {
      StableSortSorts(s[1..], less, finer);
      var t := StableSort(s[1..], less);
      StableSortIsPermutation(s[1..], less);
      forall y | y in t ensures if less(y, s[0]) then finer(y, s[0]) else finer(s[0], y) {
        assert y in multiset(t);
        var k :| 0 <= k < |s[1..]| && s[1..][k] == y;
        assert s[k + 1] == y;
      }
      InsertKeepsSorted(s[0], t, less, finer);
    }
  }

  /** Where the first element of `s` stands in a permutation `t`, and that the rest of `s` is a
      permutation of the rest of `t`. */
  lemma TakeOut<T>(s: seq<T>, t: seq<T>) returns (k: nat)
    requires s != [] && multiset(s) == multiset(t)
    ensures k < |t| && t[k] == s[0]
    ensures multiset(s[1..]) == multiset(t[..k] + t[k + 1..])
  {
    assert s[0] in multiset(t);
    k :| 0 <= k < |t| && t[k] == s[0];
    var u := [s[0]] + (t[..k] + t[k + 1..]);
    assert t == t[..k] + [s[0]] + t[k + 1..];
    assert u[1..] == t[..k] + t[k + 1..];
    TailsAgree(s, u);
  }

  lemma HeadIsLeast<T(!new)>(s: seq<T>, x: T, less: Less<T>)
    requires Sorted(s, less) && x in s
    ensures x == s[0] || less(s[0], x)
  {
  }

  lemma TailsAgree<T>(s: seq<T>, t: seq<T>)
    requires |s| > 0 && |t| > 0 && s[0] == t[0] && multiset(s) == multiset(t)
    ensures multiset(s[1..]) == multiset(t[1..])
  {
    assert s == [s[0]] + s[1..] && t == [t[0]] + t[1..];
    assert multiset(s[1..]) == multiset(s) - multiset([s[0]]);
    assert multiset(t[1..]) == multiset(t) - multiset([s[0]]);
  }

  /** There is only one way to put the same elements in strict order. */
  lemma {:induction false} SortedIsUnique<T(!new)>(s: seq<T>, t: seq<T>, less: Less<T>)
    requires StrictOrder(less) && Sorted(s, less) && Sorted(t, less)
    requires multiset(s) == multiset(t)
    ensures s == t
    decreases s
  {
    assert |multiset(s)| == |s| && |multiset(t)| == |t|;
    if s != [] {
      assert s[0] in multiset(t) && t[0] in multiset(s);
      HeadIsLeast(s, t[0], less);
      HeadIsLeast(t, s[0], less);
      TailsAgree(s, t);
      SortedIsUnique(s[1..], t[1..], less);
      assert s == [s[0]] + s[1..] && t == [t[0]] + t[1..];
    }
  }

  // ---- sums ----

  function Sum<T>(s: seq<T>, f: T -> nat): nat {
    if s == [] then 0 else f(s[0]) + Sum(s[1..], f)
  }

  lemma {:induction false} SumAppend<T>(a: seq<T>, b: seq<T>, f: T -> nat)
    ensures Sum(a + b, f) == Sum(a, f) + Sum(b, f)
  {
    if a == [] {
      assert a + b == b;
    } else {
      assert (a + b)[1..] == a[1..] + b;
      SumAppend(a[1..], b, f);
    }
  }

  lemma SumWithout<T>(t: seq<T>, k: nat, f: T -> nat)
    requires k < |t|
    ensures Sum(t, f) == f(t[k]) + Sum(t[..k] + t[k + 1..], f)
  {
    SumAppend(t[..k], t[k + 1..], f);
    SumAppend(t[..k], t[k..], f);
    assert t == t[..k] + t[k..] && t[k..][1..] == t[k + 1..];
  }

  lemma {:induction false} SumIgnoresOrder<T>(s: seq<T>, t: seq<T>, f: T -> nat)
    requires multiset(s) == multiset(t)
    ensures Sum(s, f) == Sum(t, f)
    decreases s
  {
    assert |multiset(s)| == |s| && |multiset(t)| == |t|;
    if s != [] {
      var k := TakeOut(s, t);
      SumIgnoresOrder(s[1..], t[..k] + t[k + 1..], f);
      SumWithout(t, k, f);
    }
  }

  // ---- byte-wise comparison of strings ----

  predicate LexLess(a: Text, b: Text) {
    b != [] && (a == [] || a[0] < b[0] || (a[0] == b[0] && LexLess(a[1..], b[1..])))
  }

  lemma {:induction false} LexTotal(a: Text, b: Text)
    ensures !(LexLess(a, b) && LexLess(b, a))
    ensures a == b || LexLess(a, b) || LexLess(b, a)
  {
    if a != [] && b != [] && a[0] == b[0] {
      LexTotal(a[1..], b[1..]);
      assert a == [a[0]] + a[1..] && b == [b[0]] + b[1..];
    }
  }

  lemma {:induction false} LexTransitive(a: Text, b: Text, c: Text)
    requires LexLess(a, b) && LexLess(b, c)
    ensures LexLess(a, c)
  {
    if a != [] && a[0] == b[0] == c[0] {
      LexTransitive(a[1..], b[1..], c[1..]);
    }
  }

  /** Behind what two texts have in common the smaller one ends or has the smaller byte. */
  lemma {:induction false} LexLessIff(a: Text, b: Text)
    ensures LexLess(a, b) <==>
      exists k: nat | k <= |a| && k < |b| :: a[..k] == b[..k] && (k == |a| || a[k] < b[k])
  {
    if a != [] && b != [] && a[0] == b[0] {
      LexLessIff(a[1..], b[1..]);
      if k: nat :| k <= |a| && k < |b| && a[..k] == b[..k] && (k == |a| || a[k] < b[k]) {
        assert k > 0;
        assert a[1..][..k - 1] == a[..k][1..] == b[..k][1..] == b[1..][..k - 1];
      }
      if j: nat :| j <= |a[1..]| && j < |b[1..]| && a[1..][..j] == b[1..][..j] && (j == |a[1..]| || a[1..][j] < b[1..][j]) {
        assert a[..j + 1] == [a[0]] + a[1..][..j] && b[..j + 1] == [b[0]] + b[1..][..j];
      }
    } else if b != [] {
      assert a[..0] == b[..0];
      forall k: nat | 0 < k <= |a| && k < |b| ensures a[..k] != b[..k] {
        assert a[..k][0] == a[0] && b[..k][0] == b[0];
      }
    }
  }
}
