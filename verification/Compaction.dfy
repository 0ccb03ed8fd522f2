/** Progressive compaction of a session's runs (internal/session/compaction.go): which runs go, and
    why that choice is the greedy one and no larger than it has to be. */
module Compaction {
  import opened Wrappers
  import opened Bytes
  import opened Sorting
  import opened Importance

  /** The fields of a run document the session layer reads. `agents` lists the string outputs in the
      order one iteration of the map visits them. */
  datatype Run = Run(id: Text, prompt: Text, agents: seq<Entry>, final: Option<Text>)

  const FINAL_NAME: Text := Ascii("_final")

  function WithoutName(es: seq<Entry>, name: Text): seq<Entry> {
    if es == [] then []
    else (if es[0].name == name then [] else [es[0]]) + WithoutName(es[1..], name)
  }

  /** `agentOutputs`: the final answer takes the place of an agent that has its name. */
  function AgentOutputs(run: Run): seq<Entry> {
    match run.final
    case None => run.agents
    case Some(f) => WithoutName(run.agents, FINAL_NAME) + [Entry(FINAL_NAME, f)]
  }

  function ScoreRun(run: Run): real {
    var outputs := AgentOutputs(run);
    if outputs == [] then 0.1 else AverageImportance(Ranked(outputs))
  }

  function RunChars(run: Run): nat {
    |run.prompt| + Sum(run.agents, TextLen) + match run.final case None => 0 case Some(f) => |f|
  }

  function TotalChars(runs: seq<Run>): nat {
    if runs == [] then 0 else TotalChars(runs[..|runs| - 1]) + RunChars(runs[|runs| - 1])
  }

  lemma TotalCharsAppend(runs: seq<Run>, more: seq<Run>)
    requires |more| <= 1
    ensures TotalChars(runs + more) == TotalChars(runs) + TotalChars(more)
  {
    hide RunChars;
    if |more| == 1 {
      assert (runs + more)[..|runs|] == runs && more[..0] == [];
    } else {
      assert runs + more == runs;
    }
  }

  // ---- the greedy walk ----

  datatype IdxScore = IdxScore(idx: nat, score: real)

  predicate LowerScore(a: IdxScore, b: IdxScore) {
    a.score < b.score
  }

  /** Score ascending, then position. */
  predicate Weaker(a: IdxScore, b: IdxScore) {
    a.score < b.score || (a.score == b.score && a.idx < b.idx)
  }

  function Scores(runs: seq<Run>): seq<IdxScore> {
    seq(|runs|, i requires 0 <= i < |runs| => IdxScore(i, ScoreRun(runs[i])))
  }

  function Order(runs: seq<Run>): seq<IdxScore> {
    StableSort(Scores(runs), LowerScore)
  }

  /** The positions given up, in the order they are given up: everything but the last run, until
      what remains fits. */
  function Walk(runs: seq<Run>, order: seq<IdxScore>, total: int, target: int): seq<nat>
    requires forall s | s in order :: s.idx < |runs|
    decreases order
  {
    if order == [] then []
    else
      var i := order[0].idx;
      assert order[0] in order;
      if i == |runs| - 1 then Walk(runs, order[1..], total, target)
      else if total <= target then []
      else [i] + Walk(runs, order[1..], total - RunChars(runs[i]), target)
  }

  predicate Inside(at: seq<nat>, n: int) {
    forall k | 0 <= k < |at| :: at[k] < n
  }

  function IdsAt(runs: seq<Run>, at: seq<nat>): seq<Text>
    requires Inside(at, |runs|)
  {
    if at == [] then []
    else (if runs[at[0]].id == [] then [] else [runs[at[0]].id]) + IdsAt(runs, at[1..])
  }

  /** The positions `RunsToDrop` gives up. */
  function Given(runs: seq<Run>, target: int): seq<nat> {
    if runs == [] || TotalChars(runs) <= target then []
    else
      OrderCovers(runs);
      Walk(runs, Order(runs), TotalChars(runs), target)
  }

  function DropIds(runs: seq<Run>, target: int): seq<Text> {
    WalkStaysInside(runs, target);
    IdsAt(runs, Given(runs, target))
  }

  lemma OrderCovers(runs: seq<Run>)
    ensures multiset(Order(runs)) == multiset(Scores(runs))
    ensures Sorted(Order(runs), Weaker)
    ensures forall s | s in Order(runs) :: s.idx < |runs| && s == Scores(runs)[s.idx]
    ensures forall i | 0 <= i < |runs| :: Scores(runs)[i] in Order(runs)
  {
    hide ScoreRun;
    var all := Scores(runs);
    StableSortIsPermutation(all, LowerScore);
    StableSortSorts(all, LowerScore, Weaker);
    forall s | s in Order(runs) ensures s.idx < |runs| && s == all[s.idx] {
      assert s in multiset(all);
    }
    forall i | 0 <= i < |runs| ensures all[i] in Order(runs) {
      assert all[i] in multiset(all);
    }
  }

  lemma WalkStep(runs: seq<Run>, order: seq<IdxScore>, total: int, target: int)
    requires forall s | s in order :: s.idx < |runs|
    requires order != [] && Inside(Walk(runs, order, total, target), |runs|)
    ensures var i := order[0].idx;
      var all := Walk(runs, order, total, target);
      if i == |runs| - 1 then all == Walk(runs, order[1..], total, target)
      else if total <= target then all == []
      else
        var rest := Walk(runs, order[1..], total - RunChars(runs[i]), target);
        && all == [i] + rest
        && Inside(rest, |runs|)
        && IdsAt(runs, all) == (if runs[i].id == [] then [] else [runs[i].id]) + IdsAt(runs, rest)
  {
    hide RunChars;
    var i := order[0].idx;
    if i != |runs| - 1 && total > target {
      var all, rest := Walk(runs, order, total, target), Walk(runs, order[1..], total - RunChars(runs[i]), target);
      assert all[1..] == rest;
      assert forall k | 0 <= k < |rest| :: rest[k] == all[k + 1];
    }
  }

  lemma EmptyWalk(runs: seq<Run>, total: int, target: int)
    ensures Walk(runs, [], total, target) == [] && IdsAt(runs, []) == []
  {
  }

  /** `RunsToDrop`. */
  method RunsToDrop(runs: seq<Run>, targetChars: int) returns (drop: seq<Text>)
    ensures drop == DropIds(runs, targetChars)
  {
    hide Walk, IdsAt, ScoreRun, RunChars, StableSort;
    WalkStaysInside(runs, targetChars);
    EmptyWalk(runs, TotalChars(runs), targetChars);
    if |runs| == 0 {
      return [];
    }
    var scoredRuns: seq<IdxScore> := [];
    var total := 0;
    for i := 0 to |runs|
      invariant scoredRuns == Scores(runs[..i])
      invariant total == TotalChars(runs[..i])
    {
      scoredRuns := scoredRuns + [IdxScore(i, ScoreRun(runs[i]))];
      assert runs[..i + 1][..i] == runs[..i];
      total := total + RunChars(runs[i]);
    }
    assert runs[..|runs|] == runs;
    if total <= targetChars {
      return [];
    }
    scoredRuns := StableSort(scoredRuns, LowerScore);
    OrderCovers(runs);
    var last := |runs| - 1;
    drop := [];
    var n := 0;
    while n < |scoredRuns|
      invariant 0 <= n <= |scoredRuns|
      invariant Inside(Walk(runs, scoredRuns[n..], total, targetChars), |runs|)
      invariant drop + IdsAt(runs, Walk(runs, scoredRuns[n..], total, targetChars)) == DropIds(runs, targetChars)
    {
      var s := scoredRuns[n];
      assert scoredRuns[n..][1..] == scoredRuns[n + 1..];
      WalkStep(runs, scoredRuns[n..], total, targetChars);
      if s.idx == last {
        n := n + 1;
        continue;
      }
      if total <= targetChars {
        break;
      }
      var id := runs[s.idx].id;
      if id != [] {
        drop := drop + [id];
      }
      total := total - RunChars(runs[s.idx]);
      n := n + 1;
    }
    if n == |scoredRuns| {
      EmptyWalk(runs, total, targetChars);
    }
  }

  // ---- what the walk gives up ----

  lemma {:induction false} WalkIsInside(runs: seq<Run>, order: seq<IdxScore>, total: int, target: int)
    requires forall s | s in order :: s.idx < |runs|
    ensures Inside(Walk(runs, order, total, target), |runs| - 1)
    decreases order
  {
    hide RunChars;
    if order != [] {
      assert order[0] in order;
      var i := order[0].idx;
      WalkIsInside(runs, order[1..], if i == |runs| - 1 then total else total - RunChars(runs[i]), target);
    }
  }

  lemma WalkStaysInside(runs: seq<Run>, target: int)
    ensures Inside(Given(runs, target), |runs| - 1)
  {
    OrderCovers(runs);
    WalkIsInside(runs, Order(runs), TotalChars(runs), target);
  }

  predicate WeakerRun(runs: seq<Run>, i: nat, j: nat)
    requires i < |runs| && j < |runs|
  {
    Weaker(Scores(runs)[i], Scores(runs)[j])
  }

  function SumAt(runs: seq<Run>, at: seq<nat>): nat
    requires Inside(at, |runs|)
  {
    if at == [] then 0 else RunChars(runs[at[0]]) + SumAt(runs, at[1..])
  }

  /** A sorted list of scores, each standing for its run. */
  ghost predicate OrderOf(runs: seq<Run>, order: seq<IdxScore>) {
    && Sorted(order, Weaker)
    && forall s | s in order :: s.idx < |runs| && s == Scores(runs)[s.idx]
  }

  lemma OrderIsOrdered(runs: seq<Run>)
    ensures OrderOf(runs, Order(runs))
  {
    OrderCovers(runs);
  }

  lemma OrderTail(runs: seq<Run>, order: seq<IdxScore>)
    requires OrderOf(runs, order) && order != []
    ensures OrderOf(runs, order[1..])
    ensures order[0] in order && forall s | s in order[1..] :: s in order && Weaker(order[0], s)
  {
    forall s | s in order[1..] ensures s in order && Weaker(order[0], s) {
      var k :| 0 <= k < |order[1..]| && order[1..][k] == s;
      assert order[k + 1] == s;
    }
  }

  /** Runs are given up weakest first. */
  lemma {:induction false} WalkAscends(runs: seq<Run>, order: seq<IdxScore>, total: int, target: int)
    requires OrderOf(runs, order)
    ensures var w := Walk(runs, order, total, target);
      && Inside(w, |runs| - 1)
      && (forall k | 0 <= k < |w| :: Scores(runs)[w[k]] in order)
      && (forall a, b | 0 <= a < b < |w| :: WeakerRun(runs, w[a], w[b]))
    decreases order
  {
    hide RunChars, ScoreRun, Weaker;
    WalkIsInside(runs, order, total, target);
    if order != [] {
      OrderTail(runs, order);
      var i := order[0].idx;
      WalkAscends(runs, order[1..], if i == |runs| - 1 then total else total - RunChars(runs[i]), target);
    }
  }

  /** Every position in `w` is weaker than every score of `order` not given up, the last run's
      aside. */
  ghost predicate TakesWeakest(runs: seq<Run>, order: seq<IdxScore>, w: seq<nat>) {
    forall k, s | 0 <= k < |w| && s in order && s.idx != |runs| - 1 && s.idx !in w ::
      w[k] < |runs| && Weaker(Scores(runs)[w[k]], s)
  }

  lemma TakesOneMore(runs: seq<Run>, order: seq<IdxScore>, rest: seq<nat>)
    requires OrderOf(runs, order) && order != []
    requires TakesWeakest(runs, order[1..], rest)
    ensures TakesWeakest(runs, order, [order[0].idx] + rest)
  {
    hide ScoreRun, Weaker;
    OrderTail(runs, order);
    var w := [order[0].idx] + rest;
    forall k, s | 0 <= k < |w| && s in order && s.idx != |runs| - 1 && s.idx !in w
      ensures w[k] < |runs| && Weaker(Scores(runs)[w[k]], s)
    {
      assert w[0] in w;
      var n :| 0 <= n < |order| && order[n] == s;
      assert s == order[1..][n - 1] && s in order[1..];
      if k > 0 {
        assert w[k] == rest[k - 1];
      }
    }
  }

  lemma TakesNothing(runs: seq<Run>, order: seq<IdxScore>)
    ensures TakesWeakest(runs, order, [])
  {
  }

  lemma TakesSameWithoutLast(runs: seq<Run>, order: seq<IdxScore>, w: seq<nat>)
    requires order != [] && order[0].idx == |runs| - 1
    requires TakesWeakest(runs, order[1..], w)
    ensures TakesWeakest(runs, order, w)
  {
    hide ScoreRun, Weaker;
    assert order == [order[0]] + order[1..];
  }

  /** Everything given up is weaker than everything kept, the last run aside. */
  lemma {:induction false} WalkTakesWeakest(runs: seq<Run>, order: seq<IdxScore>, total: int, target: int)
    requires OrderOf(runs, order)
    ensures TakesWeakest(runs, order, Walk(runs, order, total, target))
    decreases order
  {
    hide RunChars, Scores, Weaker, TakesWeakest;
    if order == [] {
      TakesNothing(runs, order);
    } else {
      OrderTail(runs, order);
      var i := order[0].idx;
      if i == |runs| - 1 {
        WalkTakesWeakest(runs, order[1..], total, target);
        TakesSameWithoutLast(runs, order, Walk(runs, order[1..], total, target));
      } else if total > target {
        WalkTakesWeakest(runs, order[1..], total - RunChars(runs[i]), target);
        TakesOneMore(runs, order, Walk(runs, order[1..], total - RunChars(runs[i]), target));
      } else {
        TakesNothing(runs, order);
      }
    }
  }

  lemma SumAtCons(runs: seq<Run>, i: nat, rest: seq<nat>)
    requires i < |runs| && Inside([i] + rest, |runs|) && Inside(rest, |runs|)
    ensures SumAt(runs, [i] + rest) == RunChars(runs[i]) + SumAt(runs, rest)
  {
    hide RunChars;
    assert ([i] + rest)[1..] == rest;
  }

  /** `w` leaves at most the target or takes every score but the last run's, and without its last
      position it would not. */
  ghost predicate StopsInTime(runs: seq<Run>, order: seq<IdxScore>, total: int, target: int, w: seq<nat>) {
    && Inside(w, |runs|)
    && (total - SumAt(runs, w) <= target || forall s | s in order :: s.idx == |runs| - 1 || s.idx in w)
    && (w != [] ==> Inside(w[..|w| - 1], |runs|) && total - SumAt(runs, w[..|w| - 1]) > target)
  }

  lemma StopsAtOnce(runs: seq<Run>, order: seq<IdxScore>, total: int, target: int)
    requires order == [] || total <= target
    ensures StopsInTime(runs, order, total, target, [])
  {
  }

  lemma StopsWithoutLast(runs: seq<Run>, order: seq<IdxScore>, total: int, target: int, w: seq<nat>)
    requires order != [] && order[0].idx == |runs| - 1
    requires StopsInTime(runs, order[1..], total, target, w)
    ensures StopsInTime(runs, order, total, target, w)
  {
    hide SumAt;
    assert order == [order[0]] + order[1..];
  }

  lemma StopsOneLater(runs: seq<Run>, order: seq<IdxScore>, total: int, target: int, rest: seq<nat>)
    requires order != [] && order[0].idx < |runs| && total > target
    requires StopsInTime(runs, order[1..], total - RunChars(runs[order[0].idx]), target, rest)
    ensures StopsInTime(runs, order, total, target, [order[0].idx] + rest)
  {
    hide SumAt, RunChars;
    var i := order[0].idx;
    var w := [i] + rest;
    assert order == [order[0]] + order[1..];
    assert i in w && forall k | k in rest :: k in w;
    assert forall k | 0 <= k < |w| :: w[k] == if k == 0 then i else rest[k - 1];
    SumAtCons(runs, i, rest);
    if rest == [] {
      assert w[..0] == [];
      NoneGiven(runs);
    } else {
      assert w[..|w| - 1] == [i] + rest[..|rest| - 1];
      SumAtCons(runs, i, rest[..|rest| - 1]);
    }
  }

  lemma NoneGiven(runs: seq<Run>)
    ensures SumAt(runs, []) == 0
  {
  }

  /** The walk goes on until the rest fits or only the last run is left, and no further. */
  lemma {:induction false} WalkStopsInTime(runs: seq<Run>, order: seq<IdxScore>, total: int, target: int)
    requires OrderOf(runs, order)
    ensures StopsInTime(runs, order, total, target, Walk(runs, order, total, target))
    decreases order
  {
    hide RunChars, Scores, Weaker, StopsInTime, SumAt;
    if order == [] {
      StopsAtOnce(runs, order, total, target);
    } else {
      OrderTail(runs, order);
      var i := order[0].idx;
      if i == |runs| - 1 {
        WalkStopsInTime(runs, order[1..], total, target);
        StopsWithoutLast(runs, order, total, target, Walk(runs, order[1..], total, target));
      } else if total > target {
        WalkStopsInTime(runs, order[1..], total - RunChars(runs[i]), target);
        StopsOneLater(runs, order, total, target, Walk(runs, order[1..], total - RunChars(runs[i]), target));
      } else {
        StopsAtOnce(runs, order, total, target);
      }
    }
  }
}
