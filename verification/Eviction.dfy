/** How eviction splits a session's runs (internal/session/summarize.go), and that the split is the
    ordered, minimal one when run ids are non-empty and pairwise distinct. */
module Eviction {
  import opened Bytes
  import opened Sequences
  import opened Compaction

  /** The runs whose id is among `ids` (`want`), or is not, in their original order. */
  function Select(runs: seq<Run>, ids: set<Text>, want: bool): seq<Run> {
    if runs == [] then []
    else
      var r := runs[|runs| - 1];
      Select(runs[..|runs| - 1], ids, want) + if (r.id in ids) == want then [r] else []
  }

  function IdSet(ids: seq<Text>): set<Text> {
    set id | id in ids
  }

  function Evicted(runs: seq<Run>, target: int): seq<Run> {
    Select(runs, IdSet(DropIds(runs, target)), true)
  }

  function Remaining(runs: seq<Run>, target: int): seq<Run> {
    Select(runs, IdSet(DropIds(runs, target)), false)
  }

  // ---- the split is a partition that keeps the order ----

  lemma SelectLast(runs: seq<Run>, ids: set<Text>, want: bool)
    requires runs != []
    ensures var front, r := runs[..|runs| - 1], runs[|runs| - 1];
      var picked := if (r.id in ids) == want then [r] else [];
      && Select(runs, ids, want) == Select(front, ids, want) + picked
      && TotalChars(Select(runs, ids, want)) == TotalChars(Select(front, ids, want)) + TotalChars(picked)
      && TotalChars(picked) == if (r.id in ids) == want then RunChars(r) else 0
  {
    hide RunChars;
    var r := runs[|runs| - 1];
    var picked := if (r.id in ids) == want then [r] else [];
    TotalCharsAppend(Select(runs[..|runs| - 1], ids, want), picked);
    assert [r][..0] == [];
  }

  lemma {:induction false} SelectIsPartition(runs: seq<Run>, ids: set<Text>)
    ensures multiset(Select(runs, ids, true)) + multiset(Select(runs, ids, false)) == multiset(runs)
  {
    if runs != [] {
      hide Select, TotalChars, RunChars;
      SelectIsPartition(runs[..|runs| - 1], ids);
      assert runs == runs[..|runs| - 1] + [runs[|runs| - 1]];
      SelectLast(runs, ids, true);
      SelectLast(runs, ids, false);
    }
  }

  lemma {:induction false} SelectSplitsTotal(runs: seq<Run>, ids: set<Text>)
    ensures TotalChars(Select(runs, ids, true)) + TotalChars(Select(runs, ids, false)) == TotalChars(runs)
  {
    hide RunChars;
    if runs != [] {
      SelectSplitsTotal(runs[..|runs| - 1], ids);
      SelectLast(runs, ids, true);
      SelectLast(runs, ids, false);
    }
  }

  lemma {:induction false} SelectIsSubsequence(runs: seq<Run>, ids: set<Text>, want: bool)
    ensures Subsequence(Select(runs, ids, want), runs)
  {
    if runs != [] {
      var front := runs[..|runs| - 1];
      SelectIsSubsequence(front, ids, want);
      var s, t := Select(front, ids, want), Select(runs, ids, want);
      if t != s {
        assert t[..|t| - 1] == s;
      }
    }
  }

  lemma {:induction false} SelectChooses(runs: seq<Run>, ids: set<Text>, want: bool)
    ensures forall r :: r in Select(runs, ids, want) <==> r in runs && (r.id in ids) == want
  {
    if runs != [] {
      SelectChooses(runs[..|runs| - 1], ids, want);
      assert runs == runs[..|runs| - 1] + [runs[|runs| - 1]];
    }
  }

  // ---- sizes by position ----

  function SumIn(runs: seq<Run>, d: set<int>, n: nat): nat
    requires n <= |runs|
  {
    if n == 0 then 0 else SumIn(runs, d, n - 1) + if n - 1 in d then RunChars(runs[n - 1]) else 0
  }

  lemma {:induction false} SumInMore(runs: seq<Run>, d: set<int>, i: int, n: nat)
    requires n <= |runs| && i !in d
    ensures SumIn(runs, d + {i}, n) == SumIn(runs, d, n) + if 0 <= i < n then RunChars(runs[i]) else 0
  {
    if n > 0 {
      SumInMore(runs, d, i, n - 1);
    }
  }

  lemma {:induction false} SumInMonotone(runs: seq<Run>, d: set<int>, e: set<int>, n: nat)
    requires n <= |runs| && d <= e
    ensures SumIn(runs, d, n) <= SumIn(runs, e, n)
  {
    if n > 0 {
      SumInMonotone(runs, d, e, n - 1);
    }
  }

  function At(w: seq<nat>): set<int> {
    set i | i in w
  }

  lemma {:induction false} SumAtIsSumIn(runs: seq<Run>, w: seq<nat>)
    requires Inside(w, |runs|) && forall a, b | 0 <= a < b < |w| :: w[a] != w[b]
    ensures SumAt(runs, w) == SumIn(runs, At(w), |runs|)
  {
    hide RunChars;
    if w == [] {
      assert At(w) == {};
      NothingIn(runs, |runs|);
    } else {
      SumAtIsSumIn(runs, w[1..]);
      assert w == [w[0]] + w[1..];
      assert At(w) == At(w[1..]) + {w[0]};
      SumInMore(runs, At(w[1..]), w[0], |runs|);
    }
  }

  lemma {:induction false} NothingIn(runs: seq<Run>, n: nat)
    requires n <= |runs|
    ensures SumIn(runs, {}, n) == 0
  {
    if n > 0 {
      NothingIn(runs, n - 1);
    }
  }

  function PositionsOf(runs: seq<Run>, ids: set<Text>): set<int> {
    set i | 0 <= i < |runs| && runs[i].id in ids
  }

  lemma {:induction false} SelectedTotal(runs: seq<Run>, ids: set<Text>, n: nat)
    requires n <= |runs|
    ensures TotalChars(Select(runs[..n], ids, true)) == SumIn(runs, PositionsOf(runs, ids), n)
  {
    hide *;
    if n == 0 {
      SelectedNone(runs, ids);
    } else {
      SelectedTotal(runs, ids, n - 1);
      assert runs[..n][..n - 1] == runs[..n - 1];
      SelectLast(runs[..n], ids, true);
      SumInLast(runs, ids, n);
    }
  }

  lemma SelectedNone(runs: seq<Run>, ids: set<Text>)
    ensures TotalChars(Select(runs[..0], ids, true)) == SumIn(runs, PositionsOf(runs, ids), 0)
  {
  }

  lemma SumInLast(runs: seq<Run>, ids: set<Text>, n: nat)
    requires 0 < n <= |runs|
    ensures var d := PositionsOf(runs, ids);
      SumIn(runs, d, n) == SumIn(runs, d, n - 1) + if runs[n - 1].id in ids then RunChars(runs[n - 1]) else 0
  {
    hide RunChars;
  }

  // ---- ids ----

  ghost predicate DistinctIds(runs: seq<Run>) {
    && (forall i | 0 <= i < |runs| :: runs[i].id != [])
    && forall i, j | 0 <= i < j < |runs| :: runs[i].id != runs[j].id
  }

  lemma {:induction false} IdsAtAre(runs: seq<Run>, w: seq<nat>)
    requires Inside(w, |runs|)
    ensures forall id :: id in IdsAt(runs, w) <==> exists k :: 0 <= k < |w| && runs[w[k]].id == id && id != []
  {
    if w != [] {
      IdsAtAre(runs, w[1..]);
      assert forall k | 1 <= k < |w| :: w[k] == w[1..][k - 1];
    }
  }

  /** With distinct ids, dropping by id gives up exactly the positions the walk chose. */
  lemma DistinctIdsMeanPositions(runs: seq<Run>, target: int)
    requires DistinctIds(runs)
    ensures PositionsOf(runs, IdSet(DropIds(runs, target))) == At(Given(runs, target))
  {
    hide Given;
    var w := Given(runs, target);
    WalkStaysInside(runs, target);
    IdsAtAre(runs, w);
    forall i ensures i in PositionsOf(runs, IdSet(DropIds(runs, target))) <==> i in At(w) {
      if i in At(w) {
        var k :| 0 <= k < |w| && w[k] == i;
        assert runs[w[k]].id in IdsAt(runs, w);
      }
    }
  }

  /** Non-empty ids in front of the last run are enough for every chosen position to go. */
  lemma NonEmptyIdsCoverPositions(runs: seq<Run>, target: int)
    requires forall i | 0 <= i < |runs| - 1 :: runs[i].id != []
    ensures At(Given(runs, target)) <= PositionsOf(runs, IdSet(DropIds(runs, target)))
  {
    hide Given;
    var w := Given(runs, target);
    WalkStaysInside(runs, target);
    IdsAtAre(runs, w);
    forall i | i in At(w) ensures i in PositionsOf(runs, IdSet(DropIds(runs, target))) {
      var k :| 0 <= k < |w| && w[k] == i;
      assert runs[w[k]].id in IdsAt(runs, w);
    }
  }

  // ---- what the walk guarantees, in terms of positions ----

  lemma AllGiven(runs: seq<Run>, w: seq<nat>)
    ensures (forall s | s in Order(runs) :: s.idx == |runs| - 1 || s.idx in w)
      ==> forall i | 0 <= i < |runs| - 1 :: i in w
  {
    hide ScoreRun, Order;
    OrderCovers(runs);
    if forall s | s in Order(runs) :: s.idx == |runs| - 1 || s.idx in w {
      forall i | 0 <= i < |runs| - 1 ensures i in w {
        var s := Scores(runs)[i];
        assert s in Order(runs) && s.idx == i;
      }
    }
  }

  lemma GivenFacts(runs: seq<Run>, target: int)
    requires runs != []
    ensures var w := Given(runs, target);
      && Inside(w, |runs| - 1)
      && (forall a, b | 0 <= a < b < |w| :: WeakerRun(runs, w[a], w[b]))
      && TakesWeakest(runs, Order(runs), w)
      && (TotalChars(runs) - SumAt(runs, w) <= target || forall i | 0 <= i < |runs| - 1 :: i in w)
      && (w != [] ==> TotalChars(runs) - SumAt(runs, w[..|w| - 1]) > target)
  {
    hide RunChars, Order, OrderOf, TakesWeakest, Walk, WeakerRun;
    OrderCovers(runs);
    OrderIsOrdered(runs);
    if TotalChars(runs) > target {
      WalkAscends(runs, Order(runs), TotalChars(runs), target);
      WalkTakesWeakest(runs, Order(runs), TotalChars(runs), target);
      WalkStopsInTime(runs, Order(runs), TotalChars(runs), target);
      AllGiven(runs, Given(runs, target));
    } else {
      TakesNothing(runs, Order(runs));
    }
  }

  // ---- main results ----

  /** The positions of the runs that go. */
  function Gone(runs: seq<Run>, target: int): set<int> {
    PositionsOf(runs, IdSet(DropIds(runs, target)))
  }

  lemma OnlyLastRemains(runs: seq<Run>, ids: set<Text>)
    requires runs != [] && runs[|runs| - 1].id !in ids
    requires forall i | 0 <= i < |runs| - 1 :: runs[i].id in ids
    ensures Select(runs, ids, false) == [runs[|runs| - 1]]
  {
    NoneSelected(runs[..|runs| - 1], ids);
  }

  lemma {:induction false} NoneSelected(runs: seq<Run>, ids: set<Text>)
    requires forall i | 0 <= i < |runs| :: runs[i].id in ids
    ensures Select(runs, ids, false) == []
  {
    if runs != [] {
      NoneSelected(runs[..|runs| - 1], ids);
    }
  }

  /** What is given up, by total size: nothing more than what went remains to be accounted for. */
  lemma RemainingTotal(runs: seq<Run>, target: int)
    requires DistinctIds(runs) && runs != []
    ensures Inside(Given(runs, target), |runs|)
    ensures TotalChars(Remaining(runs, target)) == TotalChars(runs) - SumAt(runs, Given(runs, target))
    ensures |runs| - 1 !in Gone(runs, target)
  {
    hide Given, RunChars, WeakerRun, TakesWeakest, Order;
    GivenFacts(runs, target);
    var w, ids := Given(runs, target), IdSet(DropIds(runs, target));
    assert forall a, b | 0 <= a < b < |w| :: w[a] != w[b] by {
      WeakerIsIrreflexive(runs);
    }
    SumAtIsSumIn(runs, w);
    DistinctIdsMeanPositions(runs, target);
    SelectedTotal(runs, ids, |runs|);
    assert runs[..|runs|] == runs;
    SelectSplitsTotal(runs, ids);
  }

  lemma WeakerIsIrreflexive(runs: seq<Run>)
    ensures forall i, j | 0 <= i < |runs| && 0 <= j < |runs| && WeakerRun(runs, i, j) :: i != j
  {
    hide ScoreRun;
  }

  /** The newest run always stays, and stays last. */
  lemma LatestRunStays(runs: seq<Run>, target: int)
    requires DistinctIds(runs) && runs != []
    ensures var kept := Remaining(runs, target);
      kept != [] && kept[|kept| - 1] == runs[|runs| - 1]
  {
    hide DropIds;
    RemainingTotal(runs, target);
  }

  /** What stays fits the target, or is the newest run alone. */
  lemma RemainingFits(runs: seq<Run>, target: int)
    requires DistinctIds(runs) && runs != []
    ensures TotalChars(Remaining(runs, target)) <= target || Remaining(runs, target) == [runs[|runs| - 1]]
  {
    hide DropIds, Given, RunChars, TakesWeakest, WeakerRun, Order;
    RemainingTotal(runs, target);
    GivenFacts(runs, target);
    DistinctIdsMeanPositions(runs, target);
    var w := Given(runs, target);
    if forall i | 0 <= i < |runs| - 1 :: i in w {
      forall i | 0 <= i < |runs| - 1 ensures runs[i].id in IdSet(DropIds(runs, target)) {
        assert i in w && i in At(w) && i in Gone(runs, target);
      }
      OnlyLastRemains(runs, IdSet(DropIds(runs, target)));
    }
  }

  /** Every run that goes comes before every run that stays, by score and then by position, the
      newest run aside. */
  lemma WeakestGoFirst(runs: seq<Run>, target: int, i: nat, j: nat)
    requires DistinctIds(runs)
    ensures i in Gone(runs, target) && j < |runs| - 1 && j !in Gone(runs, target)
      ==> (i < |runs|
           && (ScoreRun(runs[i]) < ScoreRun(runs[j]) || (ScoreRun(runs[i]) == ScoreRun(runs[j]) && i < j)))
  {
    hide DropIds, Given, RunChars, ScoreRun, Order;
    if i in Gone(runs, target) && j < |runs| - 1 && j !in Gone(runs, target) {
      GivenFacts(runs, target);
      DistinctIdsMeanPositions(runs, target);
      OrderCovers(runs);
      var w := Given(runs, target);
      var k :| 0 <= k < |w| && w[k] == i;
      var s := Scores(runs)[j];
      assert s in Order(runs) && s.idx == j;
      assert j !in At(w) && j !in w;
    }
  }

  /** No run goes needlessly: with the strongest of those that went put back, the session would not
      fit. */
  lemma EvictionIsMinimal(runs: seq<Run>, target: int) returns (strongest: nat)
    requires DistinctIds(runs) && Evicted(runs, target) != []
    ensures strongest in Gone(runs, target) && strongest < |runs|
    ensures forall i: nat | i in Gone(runs, target) :: i == strongest || WeakerRun(runs, i, strongest)
    ensures TotalChars(Remaining(runs, target)) + RunChars(runs[strongest]) > target
  {
    hide DropIds, Given, RunChars, ScoreRun, WeakerRun, TakesWeakest, Order;
    assert runs != [];
    GivenFacts(runs, target);
    DistinctIdsMeanPositions(runs, target);
    RemainingTotal(runs, target);
    var w := Given(runs, target);
    SelectChooses(runs, IdSet(DropIds(runs, target)), true);
    assert w != [] by {
      var r := Evicted(runs, target)[0];
      assert r in runs;
      var i :| 0 <= i < |runs| && runs[i] == r;
      assert i in Gone(runs, target);
    }
    strongest := w[|w| - 1];
    assert strongest in w && strongest in At(w);
    forall i: nat | i in Gone(runs, target) ensures i == strongest || WeakerRun(runs, i, strongest) {
      var k :| 0 <= k < |w| && w[k] == i;
    }
    SumAtLast(runs, w);
  }

  lemma {:induction false} SumAtLast(runs: seq<Run>, w: seq<nat>)
    requires Inside(w, |runs|) && w != []
    ensures SumAt(runs, w) == SumAt(runs, w[..|w| - 1]) + RunChars(runs[w[|w| - 1]])
  {
    hide RunChars;
    if |w| > 1 {
      SumAtLast(runs, w[1..]);
      assert w[1..][..|w| - 2] == w[..|w| - 1][1..];
    }
  }
}
