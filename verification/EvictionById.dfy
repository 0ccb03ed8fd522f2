/** Runs are dropped by id (internal/session/compaction.go, summarize.go). For any runs, whatever their
    ids: exactly which of them go, and exactly when the newest stays and the budget is met. */
module EvictionById {
  import opened Wrappers
  import opened Bytes
  import opened Compaction
  import opened Eviction
  import opened Summary
  import opened SessionStore

  // ---- which positions the walk chooses ----

  /** The runs the walk meets before position `i`. */
  function WeakerThan(runs: seq<Run>, i: nat): set<int>
    requires i < |runs|
  {
    set j | 0 <= j < |runs| - 1 && WeakerRun(runs, j, i)
  }

  /** What is left of the total size when every run weaker than `i` is given up. */
  function LeftAt(runs: seq<Run>, i: nat): int
    requires i < |runs|
  {
    TotalChars(runs) - SumIn(runs, WeakerThan(runs, i), |runs|)
  }

  lemma {:induction false} SumInAtMostTotal(runs: seq<Run>, d: set<int>, n: nat)
    requires n <= |runs|
    ensures SumIn(runs, d, n) <= TotalChars(runs[..n])
  {
    hide RunChars;
    if n > 0 {
      SumInAtMostTotal(runs, d, n - 1);
      assert runs[..n][..n - 1] == runs[..n - 1];
    }
  }

  /** A run outside a set of positions is not counted in its total. */
  lemma SumInMisses(runs: seq<Run>, d: set<int>, k: nat)
    requires k < |runs| && k !in d
    ensures SumIn(runs, d, |runs|) + RunChars(runs[k]) <= TotalChars(runs)
  {
    hide RunChars, TotalChars;
    SumInMore(runs, d, k, |runs|);
    SumInAtMostTotal(runs, d + {k}, |runs|);
    assert runs[..|runs|] == runs;
  }

  /** Positions that hold empty runs may be left out of a total. */
  lemma {:induction false} SumInSkips(runs: seq<Run>, d: set<int>, e: set<int>, n: nat)
    requires n <= |runs|
    requires forall k | 0 <= k < n && k in d && k !in e :: RunChars(runs[k]) == 0
    ensures SumIn(runs, d, n) <= SumIn(runs, e, n)
  {
    hide RunChars;
    if n > 0 {
      SumInSkips(runs, d, e, n - 1);
    }
  }

  lemma {:induction false} SumOfAll(runs: seq<Run>, d: set<int>, n: nat)
    requires n <= |runs| && forall k | 0 <= k < n :: k in d
    ensures SumIn(runs, d, n) == TotalChars(runs[..n])
  {
    hide RunChars;
    if n > 0 {
      SumOfAll(runs, d, n - 1);
      assert runs[..n][..n - 1] == runs[..n - 1];
    }
  }

  lemma WeakerIsOneSided(runs: seq<Run>, i: nat, j: nat)
    requires i < |runs| && j < |runs|
    ensures !(WeakerRun(runs, i, j) && WeakerRun(runs, j, i))
  {
    hide ScoreRun;
  }

  lemma WeakerOrNot(runs: seq<Run>, w: seq<nat>, i: nat, k: nat)
    requires i < |runs| - 1 && i !in w && k < |w| && TakesWeakest(runs, Order(runs), w)
    ensures w[k] < |runs| && WeakerRun(runs, w[k], i)
  {
    hide ScoreRun, Order, Weaker;
    OrderCovers(runs);
    var s := Scores(runs)[i];
    assert s in Order(runs) && s.idx == i;
  }

  lemma GivenSum(runs: seq<Run>, target: int)
    requires runs != []
    ensures Inside(Given(runs, target), |runs|)
    ensures var w := Given(runs, target); SumAt(runs, w) == SumIn(runs, At(w), |runs|)
  {
    hide Given, RunChars, TakesWeakest, WeakerRun, Order;
    GivenFacts(runs, target);
    var w := Given(runs, target);
    assert forall a, b | 0 <= a < b < |w| :: w[a] != w[b] by {
      WeakerIsIrreflexive(runs);
    }
    SumAtIsSumIn(runs, w);
  }

  lemma ChosenIsOver(runs: seq<Run>, target: int, i: nat)
    requires i < |runs| - 1
    ensures i in Given(runs, target) ==> LeftAt(runs, i) > target
  {
    hide Given, RunChars, TotalChars, TakesWeakest, Order, SumIn, WeakerRun;
    if i !in Given(runs, target) {
      return;
    }
    GivenFacts(runs, target);
    GivenSum(runs, target);
    var w := Given(runs, target);
    var k :| 0 <= k < |w| && w[k] == i;
    var front, last := w[..|w| - 1], w[|w| - 1];
    assert forall a, b | 0 <= a < b < |front| :: front[a] != front[b] by {
      WeakerIsIrreflexive(runs);
    }
    SumAtIsSumIn(runs, front);
    forall j | j in WeakerThan(runs, i) ensures j in At(front) {
      if j !in w {
        WeakerOrNot(runs, w, j, k);
        WeakerIsOneSided(runs, i, j);
      } else {
        var n :| 0 <= n < |w| && w[n] == j;
        if n == |w| - 1 {
          WeakerIsIrreflexive(runs);
          WeakerIsOneSided(runs, i, j);
        }
        assert n < |front| && front[n] == j;
      }
    }
    SumInMonotone(runs, WeakerThan(runs, i), At(front), |runs|);
  }

  lemma NotChosenFits(runs: seq<Run>, target: int, i: nat)
    requires i < |runs| - 1
    ensures i !in Given(runs, target) ==> LeftAt(runs, i) <= target
  {
    hide Given, RunChars, TotalChars, TakesWeakest, Order, SumIn, WeakerRun;
    if i in Given(runs, target) {
      return;
    }
    GivenFacts(runs, target);
    GivenSum(runs, target);
    var w := Given(runs, target);
    forall j | j in At(w) ensures j in WeakerThan(runs, i) {
      var k :| 0 <= k < |w| && w[k] == j;
      WeakerOrNot(runs, w, i, k);
    }
    SumInMonotone(runs, At(w), WeakerThan(runs, i), |runs|);
  }

  /** The walk chooses a run exactly when what is left without the weaker ones is over the target. */
  lemma ChosenIff(runs: seq<Run>, target: int, i: nat)
    requires i < |runs| - 1
    ensures i in Given(runs, target) <==> LeftAt(runs, i) > target
  {
    hide Given, LeftAt;
    ChosenIsOver(runs, target, i);
    NotChosenFits(runs, target, i);
  }

  // ---- which runs go ----

  /** An earlier run with this id is over the target. */
  ghost predicate ChosenId(runs: seq<Run>, target: int, id: Text) {
    exists i | 0 <= i < |runs| - 1 :: runs[i].id == id && LeftAt(runs, i) > target
  }

  /** A run goes exactly when it has an id and the walk chooses an earlier run with that id. */
  lemma GoneIff(runs: seq<Run>, target: int, k: nat)
    requires k < |runs|
    ensures k in Gone(runs, target) <==> runs[k].id != [] && ChosenId(runs, target, runs[k].id)
  {
    hide Given, LeftAt;
    var w := Given(runs, target);
    WalkStaysInside(runs, target);
    IdsAtAre(runs, w);
    var id := runs[k].id;
    if k in Gone(runs, target) {
      var n :| 0 <= n < |w| && runs[w[n]].id == id;
      ChosenIff(runs, target, w[n]);
    }
    if id != [] && ChosenId(runs, target, id) {
      var i :| 0 <= i < |runs| - 1 && runs[i].id == id && LeftAt(runs, i) > target;
      ChosenIff(runs, target, i);
      var n :| 0 <= n < |w| && w[n] == i;
      assert runs[w[n]].id == id;
    }
  }

  lemma RemainingIs(runs: seq<Run>, target: int)
    ensures TotalChars(Remaining(runs, target)) == TotalChars(runs) - SumIn(runs, Gone(runs, target), |runs|)
  {
    hide DropIds, TotalChars, Select, SumIn;
    var ids := IdSet(DropIds(runs, target));
    SelectedTotal(runs, ids, |runs|);
    assert runs[..|runs|] == runs;
    SelectSplitsTotal(runs, ids);
  }

  // ---- the newest run ----

  /** For every target: the newest run is kept exactly when it has no id, or no earlier run that has
      the same id is over the target once the weaker ones are gone. */
  lemma LatestKeptAt(runs: seq<Run>, target: int)
    requires runs != []
    ensures var id := runs[|runs| - 1].id;
      |runs| - 1 !in Gone(runs, target) <==>
        id == [] || forall i | 0 <= i < |runs| - 1 && runs[i].id == id :: LeftAt(runs, i) <= target
  {
    hide Gone, LeftAt;
    GoneIff(runs, target, |runs| - 1);
  }

  lemma NewestIsLeft(runs: seq<Run>, i: nat)
    requires i < |runs|
    ensures LeftAt(runs, i) >= RunChars(runs[|runs| - 1])
  {
    hide RunChars, TotalChars, WeakerRun, SumIn;
    SumInMisses(runs, WeakerThan(runs, i), |runs| - 1);
  }

  ghost predicate NewestAlwaysKept(runs: seq<Run>) {
    forall target: nat :: |runs| - 1 !in Gone(runs, target)
  }

  /** The promise that the newest run is never dropped, over all targets: it holds exactly when that
      run has no id, or nothing is left wherever an earlier run has the same id; for a newest run that
      is not empty, exactly when no earlier run has its id. */
  lemma LatestKeptIff(runs: seq<Run>)
    requires runs != []
    ensures var id := runs[|runs| - 1].id;
      && (NewestAlwaysKept(runs)
          <==> id == [] || forall i | 0 <= i < |runs| - 1 && runs[i].id == id :: LeftAt(runs, i) <= 0)
      && (RunChars(runs[|runs| - 1]) > 0 ==>
            (NewestAlwaysKept(runs) <==> id == [] || forall i | 0 <= i < |runs| - 1 :: runs[i].id != id))
  {
    hide Gone, LeftAt, RunChars;
    LatestKeptAt(runs, 0);
    forall target: nat ensures |runs| - 1 !in Gone(runs, 0) ==> |runs| - 1 !in Gone(runs, target) {
      LatestKeptAt(runs, target);
    }
    forall i: nat | i < |runs| ensures LeftAt(runs, i) >= RunChars(runs[|runs| - 1]) {
      NewestIsLeft(runs, i);
    }
  }

  // ---- the budget ----

  /** What remains fits, or everything but the newest run is gone. */
  ghost predicate BudgetMet(runs: seq<Run>, target: int) {
    TotalChars(Remaining(runs, target)) <= target || forall i | 0 <= i < |runs| - 1 :: i in Gone(runs, target)
  }

  /** The positions of the runs that have an id and share it with an earlier run over the target. */
  ghost function GoneById(runs: seq<Run>, target: int): set<int> {
    set k | 0 <= k < |runs| && runs[k].id != [] && ChosenId(runs, target, runs[k].id)
  }

  /** For every target: the budget is met exactly when the runs that do not go by their id are within
      it, or every earlier run goes. */
  lemma BudgetMetAt(runs: seq<Run>, target: int)
    ensures var gone := GoneById(runs, target);
      BudgetMet(runs, target)
      <==> TotalChars(runs) - SumIn(runs, gone, |runs|) <= target || forall i | 0 <= i < |runs| - 1 :: i in gone
  {
    hide Gone, ChosenId, TotalChars, SumIn, Remaining;
    forall k: nat | k < |runs| ensures k in Gone(runs, target) <==> k in GoneById(runs, target) {
      GoneIff(runs, target, k);
    }
    assert Gone(runs, target) == GoneById(runs, target) by {
      GoneInside(runs, target);
    }
    RemainingIs(runs, target);
  }

  lemma GoneInside(runs: seq<Run>, target: int)
    ensures forall k | k in Gone(runs, target) :: 0 <= k < |runs|
  {
    hide DropIds;
  }

  /** The earlier runs without an id are empty, and so is the newest unless it shares an id with an
      earlier run. */
  ghost predicate OnlyEmptyStay(runs: seq<Run>)
    requires runs != []
  {
    && (forall i | 0 <= i < |runs| - 1 && runs[i].id == [] :: RunChars(runs[i]) == 0)
    && (var newest := runs[|runs| - 1];
        RunChars(newest) == 0 || (newest.id != [] && exists i | 0 <= i < |runs| - 1 :: runs[i].id == newest.id))
  }

  lemma FitsWithNonEmptyIds(runs: seq<Run>, target: int)
    requires runs != [] && forall i | 0 <= i < |runs| - 1 :: runs[i].id != []
    ensures TotalChars(Remaining(runs, target)) <= target
      || forall i | 0 <= i < |runs| - 1 :: i in Gone(runs, target)
  {
    hide Given, RunChars, TakesWeakest, WeakerRun, Order, DropIds;
    GivenFacts(runs, target);
    NonEmptyIdsCoverPositions(runs, target);
    var w := Given(runs, target);
    assert Inside(w, |runs|);
    assert forall a, b | 0 <= a < b < |w| :: w[a] != w[b] by {
      WeakerIsIrreflexive(runs);
    }
    SumAtIsSumIn(runs, w);
    SumInMonotone(runs, At(w), Gone(runs, target), |runs|);
    SelectedTotal(runs, IdSet(DropIds(runs, target)), |runs|);
    assert runs[..|runs|] == runs;
    SelectSplitsTotal(runs, IdSet(DropIds(runs, target)));
    forall i | 0 <= i < |runs| - 1 && i in w ensures i in Gone(runs, target) {
      assert i in At(w);
    }
  }

  lemma FitsWithoutIds(runs: seq<Run>, target: nat)
    requires runs != [] && OnlyEmptyStay(runs)
    ensures TotalChars(Remaining(runs, target)) <= target
  {
    hide Given, Gone, RunChars, TotalChars, TakesWeakest, WeakerRun, Order, LeftAt, SumIn, Remaining;
    GivenFacts(runs, target);
    GivenSum(runs, target);
    RemainingIs(runs, target);
    var w, gone := Given(runs, target), Gone(runs, target);
    forall i: nat | i in w && i !in gone ensures RunChars(runs[i]) == 0 {
      ChosenIff(runs, target, i);
      GoneIff(runs, target, i);
    }
    if forall i | 0 <= i < |runs| - 1 :: i in w {
      var all := PositionsOf(runs, set r | r in runs :: r.id);
      forall k | 0 <= k < |runs| && k !in gone ensures RunChars(runs[k]) == 0 {
        if k == |runs| - 1 && RunChars(runs[k]) != 0 {
          var i :| 0 <= i < |runs| - 1 && runs[i].id == runs[k].id;
          ChosenIff(runs, target, i);
          GoneIff(runs, target, k);
        }
      }
      SumInSkips(runs, all, gone, |runs|);
      SumOfAll(runs, all, |runs|);
      assert runs[..|runs|] == runs;
    } else {
      SumInSkips(runs, At(w), gone, |runs|);
    }
  }

  lemma NothingLeftAtZero(runs: seq<Run>)
    requires runs != []
    ensures TotalChars(Remaining(runs, 0)) == 0 ==> OnlyEmptyStay(runs)
  {
    hide Gone, RunChars, TotalChars, LeftAt, SumIn, Remaining;
    RemainingIs(runs, 0);
    if TotalChars(Remaining(runs, 0)) != 0 {
      return;
    }
    forall k: nat | k < |runs| && k !in Gone(runs, 0) ensures RunChars(runs[k]) == 0 {
      SumInMisses(runs, Gone(runs, 0), k);
    }
    forall i | 0 <= i < |runs| - 1 && runs[i].id == [] ensures RunChars(runs[i]) == 0 {
      GoneIff(runs, 0, i);
    }
    GoneIff(runs, 0, |runs| - 1);
  }

  /** The promise that the budget is met as far as dropping earlier runs can, over all targets: it
      holds exactly when every earlier run has an id, or only empty runs stay behind. */
  lemma BudgetKeptIff(runs: seq<Run>)
    requires runs != []
    ensures (forall target: nat :: BudgetMet(runs, target))
       <==> (forall i | 0 <= i < |runs| - 1 :: runs[i].id != []) || OnlyEmptyStay(runs)
  {
    hide Gone, RunChars, TotalChars, Remaining, OnlyEmptyStay;
    if forall i | 0 <= i < |runs| - 1 :: runs[i].id != [] {
      forall target: nat ensures BudgetMet(runs, target) {
        FitsWithNonEmptyIds(runs, target);
      }
    } else if OnlyEmptyStay(runs) {
      forall target: nat ensures BudgetMet(runs, target) {
        FitsWithoutIds(runs, target);
      }
    } else {
      var e :| 0 <= e < |runs| - 1 && runs[e].id == [];
      GoneIff(runs, 0, e);
      if BudgetMet(runs, 0) {
        NothingLeftAtZero(runs);
      }
    }
  }

  // ---- sessions that break the promises ----

  /** A run with a prompt and nothing else. */
  function PromptOnly(id: Text, prompt: Text): Run {
    Run(id, prompt, [], None)
  }

  lemma TwoRuns(a: Run, b: Run)
    ensures TotalChars([a, b]) == RunChars(a) + RunChars(b)
    ensures LeftAt([a, b], 0) == RunChars(a) + RunChars(b)
  {
    hide RunChars, ScoreRun;
    assert [a, b][..1] == [a] && [a][..0] == [];
    assert TotalChars([a]) == RunChars(a);
    WeakerIsOneSided([a, b], 0, 0);
    assert WeakerThan([a, b], 0) == {};
    NothingIn([a, b], 2);
  }

  /** Two runs share an id and are over the service's budget together: both go, the newest included,
      and the session is left without a run. */
  lemma RepeatedIdLosesNewest(id: Text, first: Text, second: Text)
    requires id != [] && |first| + |second| > SESSION_BUDGET_CHARS
    ensures var runs := [PromptOnly(id, first), PromptOnly(id, second)];
      Remaining(runs, SESSION_BUDGET_CHARS) == [] && Compacted(Doc(runs, []), SESSION_BUDGET_CHARS).runs == []
  {
    hide LeftAt, DropIds, Fold;
    var runs := [PromptOnly(id, first), PromptOnly(id, second)];
    TwoRuns(runs[0], runs[1]);
    GoneIff(runs, SESSION_BUDGET_CHARS, 0);
    GoneIff(runs, SESSION_BUDGET_CHARS, 1);
    NoneSelected(runs, IdSet(DropIds(runs, SESSION_BUDGET_CHARS)));
    SelectIsPartition(runs, IdSet(DropIds(runs, SESSION_BUDGET_CHARS)));
    assert runs[0] in multiset(runs);
  }

  /** An earlier run without an id is never dropped: the session stays over the service's budget,
      however little the newest run takes. */
  lemma EmptyIdExceedsBudget(id: Text, first: Text, second: Text)
    requires |first| + |second| > SESSION_BUDGET_CHARS
    ensures var runs := [PromptOnly([], first), PromptOnly(id, second)];
      && Remaining(runs, SESSION_BUDGET_CHARS) == runs
      && TotalChars(runs) > SESSION_BUDGET_CHARS
      && !BudgetMet(runs, SESSION_BUDGET_CHARS)
  {
    hide LeftAt, DropIds;
    var runs := [PromptOnly([], first), PromptOnly(id, second)];
    TwoRuns(runs[0], runs[1]);
    GoneIff(runs, SESSION_BUDGET_CHARS, 0);
    GoneIff(runs, SESSION_BUDGET_CHARS, 1);
    AllSelected(runs, IdSet(DropIds(runs, SESSION_BUDGET_CHARS)));
  }

  lemma {:induction false} AllSelected(runs: seq<Run>, ids: set<Text>)
    requires forall i | 0 <= i < |runs| :: runs[i].id !in ids
    ensures Select(runs, ids, false) == runs
  {
    if runs != [] {
      AllSelected(runs[..|runs| - 1], ids);
      assert runs == runs[..|runs| - 1] + [runs[|runs| - 1]];
    }
  }
}
