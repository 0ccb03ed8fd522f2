/** What holds of a session after any history of appended runs, hooks being set and saves failing
    (internal/session/store.go). */
module SessionHistory {
  import opened Bytes
  import opened Sequences
  import opened Utf8
  import opened Compaction
  import opened Eviction
  import opened Summary
  import opened SessionStore

  datatype Step = SetHook(on: bool) | Append(sessionId: Text, run: Run, saved: bool)

  function Next(st: State, step: Step): State {
    match step
    case SetHook(on) => st.(hooked := on)
    case Append(id, run, saved) => AfterAppend(st, id, run, saved)
  }

  const EMPTY_STORE: State := State(map[], false, [], [])

  function After(steps: seq<Step>): State {
    if steps == [] then EMPTY_STORE else Next(After(steps[..|steps| - 1]), steps[|steps| - 1])
  }

  /** The runs appended to one session, in order. */
  function AppendedTo(steps: seq<Step>, id: Text): seq<Run> {
    if steps == [] then []
    else
      var s := steps[|steps| - 1];
      AppendedTo(steps[..|steps| - 1], id) + if s.Append? && s.sessionId == id then [s.run] else []
  }

  /** The runs of one session among hand-offs, in order. */
  function RunsOf(handoffs: seq<Handoff>, id: Text): seq<Run> {
    if handoffs == [] then []
    else
      var h := handoffs[|handoffs| - 1];
      RunsOf(handoffs[..|handoffs| - 1], id) + if h.sessionId == id then h.runs else []
  }

  lemma RunsOfMore(handoffs: seq<Handoff>, h: Handoff, id: Text)
    ensures RunsOf(handoffs + [h], id) == RunsOf(handoffs, id) + if h.sessionId == id then h.runs else []
    ensures RunsOf(handoffs + [], id) == RunsOf(handoffs, id)
  {
    assert (handoffs + [h])[..|handoffs|] == handoffs;
    assert handoffs + [] == handoffs;
  }

  // ---- subsequences ----

  lemma {:induction false} SubsequenceKeepsDistinct(a: seq<Run>, b: seq<Run>)
    requires Subsequence(a, b) && DistinctIds(b)
    ensures DistinctIds(a)
  {
    if a != [] && b != [] {
      var x, y := a[..|a| - 1], b[..|b| - 1];
      if a[|a| - 1] == b[|b| - 1] && Subsequence(x, y) {
        SubsequenceKeepsDistinct(x, y);
        SubsequenceElements(x, y);
        forall i | 0 <= i < |x| ensures a[i].id != a[|a| - 1].id {
          assert x[i] in x && x[i] in y;
          var j :| 0 <= j < |y| && y[j] == x[i];
          assert b[j] == x[i];
        }
      } else {
        SubsequenceKeepsDistinct(a, y);
      }
    }
  }

  // ---- one appended run ----

  const SUMMARY_LIMIT: nat := SUMMARY_MAX_CHARS + |SUMMARY_MARKER|

  /** What a session's document keeps to, given the runs appended so far, whatever their ids. */
  ghost predicate Kept(doc: Doc, appended: seq<Run>) {
    Subsequence(doc.runs, appended) && |doc.summary| <= SUMMARY_LIMIT
  }

  /** What it keeps to besides when the ids are distinct. */
  ghost predicate KeptLatest(doc: Doc, appended: seq<Run>) {
    && (appended != [] ==> doc.runs != [] && doc.runs[|doc.runs| - 1] == appended[|appended| - 1])
    && (TotalChars(doc.runs) <= SESSION_BUDGET_CHARS || |doc.runs| == 1)
  }

  /** Whatever the ids: compaction keeps the order, and splits the runs into kept and evicted ones. */
  lemma CompactionSplits(doc: Doc, target: int)
    ensures var kept := Compacted(doc, target);
      && Subsequence(kept.runs, doc.runs)
      && multiset(kept.runs) + multiset(EvictedFrom(doc, target)) == multiset(doc.runs)
      && |kept.summary| <= if |doc.summary| < SUMMARY_LIMIT then SUMMARY_LIMIT else |doc.summary|
  {
    hide DropIds, Fold, IdSet, Select, Subsequence;
    SubsequenceReflexive(doc.runs);
    var runs, ids := doc.runs, IdSet(DropIds(doc.runs, target));
    SelectIsSubsequence(runs, ids, false);
    SelectIsPartition(runs, ids);
    SummaryIsBounded(doc.summary, EvictedFrom(doc, target));
  }

  lemma CompactionKeeps(doc: Doc, target: int)
    requires DistinctIds(doc.runs) && doc.runs != []
    ensures var kept := Compacted(doc, target);
      && kept.runs != [] && kept.runs[|kept.runs| - 1] == doc.runs[|doc.runs| - 1]
      && (TotalChars(kept.runs) <= target || |kept.runs| == 1)
  {
    hide DropIds, Fold, TotalChars, IdSet, Select, Given;
    var runs, ids := doc.runs, IdSet(DropIds(doc.runs, target));
    LatestRunStays(runs, target);
    RemainingFits(runs, target);
    if Evicted(runs, target) == [] {
      EverythingStays(runs, ids);
    }
  }

  lemma {:induction false} EverythingStays(runs: seq<Run>, ids: set<Text>)
    requires Select(runs, ids, true) == []
    ensures Select(runs, ids, false) == runs
  {
    if runs != [] {
      EverythingStays(runs[..|runs| - 1], ids);
    }
  }

  // ---- over whole histories ----

  /** What the last step of a history does to one session. */
  lemma LastStep(steps: seq<Step>, id: Text)
    requires steps != []
    ensures var front, s := steps[..|steps| - 1], steps[|steps| - 1];
      var st, st' := After(front), After(steps);
      var mine := s.Append? && s.sessionId == id;
      var grown := if mine then WithRun(DocOf(st.docs, id), s.run) else NEW_SESSION;
      var evicted := if mine then EvictedFrom(grown, SESSION_BUDGET_CHARS) else [];
      var told := mine && s.saved && st.hooked;
      && DocOf(st'.docs, id) == (if mine then Compacted(grown, SESSION_BUDGET_CHARS) else DocOf(st.docs, id))
      && RunsOf(st'.handed, id) == (if told then RunsOf(st.handed, id) + evicted else RunsOf(st.handed, id))
      && RunsOf(st'.lost, id) == (if told || !mine then RunsOf(st.lost, id) else RunsOf(st.lost, id) + evicted)
      && AppendedTo(steps, id) == if mine then AppendedTo(front, id) + [s.run] else AppendedTo(front, id)
  {
    hide Compacted, EvictedFrom, RunsOf;
    var st, s := After(steps[..|steps| - 1]), steps[|steps| - 1];
    if s.Append? {
      var h := Handoff(s.sessionId, EvictedFrom(WithRun(DocOf(st.docs, s.sessionId), s.run), SESSION_BUDGET_CHARS));
      RunsOfMore(st.handed, h, id);
      RunsOfMore(st.lost, h, id);
    }
  }

  lemma EmptyHistory(id: Text)
    ensures var st := After([]);
      && AppendedTo([], id) == [] && RunsOf(st.handed, id) == [] && RunsOf(st.lost, id) == []
      && DocOf(st.docs, id).runs == [] && Kept(DocOf(st.docs, id), []) && KeptLatest(DocOf(st.docs, id), [])
      && WellFormed(DocOf(st.docs, id).summary)
  {
  }

  /** Over any history: a session's stored runs are a subsequence of those appended, and its summary
      stays within its cap. */
  lemma {:induction false} StoredInOrder(steps: seq<Step>, id: Text)
    ensures Kept(DocOf(After(steps).docs, id), AppendedTo(steps, id))
  {
    hide *;
    if steps == [] {
      EmptyHistory(id);
    } else {
      var front, s := steps[..|steps| - 1], steps[|steps| - 1];
      LastStep(steps, id);
      StoredInOrder(front, id);
      if s.Append? && s.sessionId == id {
        OneMoreStored(DocOf(After(front).docs, id), AppendedTo(front, id), s.run);
      }
    }
  }

  lemma OneMoreStored(doc: Doc, appended: seq<Run>, run: Run)
    requires Kept(doc, appended)
    ensures Kept(Compacted(WithRun(doc, run), SESSION_BUDGET_CHARS), appended + [run])
  {
    hide Compacted, EvictedFrom, Subsequence;
    SubsequenceGrows(doc.runs, appended, run);
    var grown := WithRun(doc, run);
    CompactionSplits(grown, SESSION_BUDGET_CHARS);
    SubsequenceTransitive(Compacted(grown, SESSION_BUDGET_CHARS).runs, grown.runs, appended + [run]);
  }

  /** Over any history in which a session's runs carry distinct non-empty ids: the newest is stored,
      as the last, and the stored runs fit the budget unless only one is left. */
  lemma {:induction false} SessionStaysInShape(steps: seq<Step>, id: Text)
    requires DistinctIds(AppendedTo(steps, id))
    ensures KeptLatest(DocOf(After(steps).docs, id), AppendedTo(steps, id))
  {
    hide *;
    if steps == [] {
      EmptyHistory(id);
    } else {
      var front, s := steps[..|steps| - 1], steps[|steps| - 1];
      LastStep(steps, id);
      if s.Append? && s.sessionId == id {
        StoredInOrder(front, id);
        OneMoreRun(DocOf(After(front).docs, id), AppendedTo(front, id), s.run);
      } else {
        SessionStaysInShape(front, id);
      }
    }
  }

  lemma OneMoreRun(doc: Doc, appended: seq<Run>, run: Run)
    requires Kept(doc, appended) && DistinctIds(appended + [run])
    ensures KeptLatest(Compacted(WithRun(doc, run), SESSION_BUDGET_CHARS), appended + [run])
  {
    hide Compacted, TotalChars, DistinctIds, Subsequence;
    SubsequenceGrows(doc.runs, appended, run);
    SubsequenceKeepsDistinct(doc.runs + [run], appended + [run]);
    CompactionKeeps(WithRun(doc, run), SESSION_BUDGET_CHARS);
  }

  /** Nothing is invented and nothing disappears unaccounted for: what is stored, what the hook was
      handed and what was lost make up exactly what was appended, whatever the ids. */
  lemma {:induction false} RunsAreConserved(steps: seq<Step>, id: Text)
    ensures var st := After(steps);
      multiset(DocOf(st.docs, id).runs) + multiset(RunsOf(st.handed, id)) + multiset(RunsOf(st.lost, id))
        == multiset(AppendedTo(steps, id))
  {
    hide *;
    if steps == [] {
      EmptyHistory(id);
    } else {
      var front, s := steps[..|steps| - 1], steps[|steps| - 1];
      LastStep(steps, id);
      RunsAreConserved(front, id);
      if s.Append? && s.sessionId == id {
        CompactionConserves(DocOf(After(front).docs, id), s.run);
        var st, st' := After(front), After(steps);
        var evicted := EvictedFrom(WithRun(DocOf(st.docs, id), s.run), SESSION_BUDGET_CHARS);
        assert multiset(AppendedTo(steps, id)) == multiset(AppendedTo(front, id)) + multiset{s.run};
        Balance(multiset(DocOf(st.docs, id).runs), multiset(RunsOf(st.handed, id)), multiset(RunsOf(st.lost, id)),
                multiset(DocOf(st'.docs, id).runs), multiset(RunsOf(st'.handed, id)), multiset(RunsOf(st'.lost, id)),
                multiset(evicted), multiset{s.run});
      }
    }
  }

  /** A run comes in, some runs move on: the total grows by the run that came in. */
  lemma Balance<T>(stored: multiset<T>, handed: multiset<T>, lost: multiset<T>,
                   stored': multiset<T>, handed': multiset<T>, lost': multiset<T>,
                   moved: multiset<T>, arrived: multiset<T>)
    requires stored' + moved == stored + arrived
    requires handed' + lost' == handed + lost + moved
    ensures stored' + handed' + lost' == stored + handed + lost + arrived
  {
    forall x ensures (stored' + handed' + lost')[x] == (stored + handed + lost + arrived)[x] {
      assert (stored' + moved)[x] == (stored + arrived)[x];
      assert (handed' + lost')[x] == (handed + lost + moved)[x];
    }
  }

  lemma CompactionConserves(doc: Doc, run: Run)
    ensures var grown := WithRun(doc, run);
      multiset(Compacted(grown, SESSION_BUDGET_CHARS).runs) + multiset(EvictedFrom(grown, SESSION_BUDGET_CHARS))
        == multiset(doc.runs) + multiset{run}
  {
    hide Compacted, EvictedFrom;
    CompactionSplits(WithRun(doc, run), SESSION_BUDGET_CHARS);
  }

  /** Stored plus handed-off runs are all the appended runs exactly when no eviction was lost. */
  lemma ConservedIffNothingLost(steps: seq<Step>, id: Text)
    ensures var st := After(steps);
      multiset(DocOf(st.docs, id).runs) + multiset(RunsOf(st.handed, id)) == multiset(AppendedTo(steps, id))
        <==> RunsOf(st.lost, id) == []
  {
    hide After, AppendedTo, RunsOf;
    RunsAreConserved(steps, id);
    var st := After(steps);
    var lost := RunsOf(st.lost, id);
    assert |multiset(lost)| == |lost|;
    assert multiset(lost) == multiset(AppendedTo(steps, id))
      - (multiset(DocOf(st.docs, id).runs) + multiset(RunsOf(st.handed, id)));
  }

  /** No run is in two places, or in one of them twice: each is stored, handed off or lost once. */
  lemma EachRunOnce(steps: seq<Step>, id: Text, r: Run)
    requires DistinctIds(AppendedTo(steps, id)) && r in AppendedTo(steps, id)
    ensures var st := After(steps);
      multiset(DocOf(st.docs, id).runs)[r] + multiset(RunsOf(st.handed, id))[r]
        + multiset(RunsOf(st.lost, id))[r] == 1
  {
    hide After, AppendedTo, RunsOf;
    RunsAreConserved(steps, id);
    DistinctOnce(AppendedTo(steps, id), r);
  }

  lemma {:induction false} DistinctOnce(runs: seq<Run>, r: Run)
    requires DistinctIds(runs)
    ensures multiset(runs)[r] == if r in runs then 1 else 0
  {
    if runs != [] {
      var front, x := runs[..|runs| - 1], runs[|runs| - 1];
      DistinctOnce(front, r);
      assert runs == front + [x];
      assert x !in front;
    }
  }

  /** With the hook set first and every save succeeding, nothing is ever lost. */
  lemma {:induction false} NothingLost(steps: seq<Step>)
    requires |steps| > 0 && steps[0] == SetHook(true)
    requires forall s | s in steps[1..] :: s.Append? && s.saved
    ensures After(steps).hooked && After(steps).lost == []
  {
    hide Compacted, EvictedFrom;
    var front := steps[..|steps| - 1];
    if |steps| == 1 {
      assert After(front) == EMPTY_STORE && After(steps) == Next(EMPTY_STORE, steps[0]);
    } else {
      assert forall s | s in front[1..] :: s in steps[1..];
      NothingLost(front);
      var s := steps[|steps| - 1];
      assert s == steps[1..][|steps| - 2] && s in steps[1..];
      assert After(steps) == Next(After(front), s);
    }
  }

  /** The summary stays well-formed text as long as agent names are. */
  lemma {:induction false} SummaryStaysWellFormed(steps: seq<Step>, id: Text)
    requires forall r | r in AppendedTo(steps, id) :: NamesWellFormed(r)
    ensures WellFormed(DocOf(After(steps).docs, id).summary)
  {
    hide *;
    if steps == [] {
      EmptyHistory(id);
    } else {
      var front, s := steps[..|steps| - 1], steps[|steps| - 1];
      LastStep(steps, id);
      SummaryStaysWellFormed(front, id);
      if s.Append? && s.sessionId == id {
        StoredInOrder(front, id);
        FoldedStaysWellFormed(DocOf(After(front).docs, id), AppendedTo(front, id), s.run);
      }
    }
  }

  lemma FoldedStaysWellFormed(doc: Doc, appended: seq<Run>, run: Run)
    requires Kept(doc, appended) && WellFormed(doc.summary)
    requires forall r | r in appended + [run] :: NamesWellFormed(r)
    ensures WellFormed(Compacted(WithRun(doc, run), SESSION_BUDGET_CHARS).summary)
  {
    hide Remaining, Evicted, Fold, WellFormed, NamesWellFormed, Subsequence;
    SubsequenceGrows(doc.runs, appended, run);
    SubsequenceElements(doc.runs + [run], appended + [run]);
    var evicted := EvictedFrom(WithRun(doc, run), SESSION_BUDGET_CHARS);
    EvictedArePart(doc.runs + [run], SESSION_BUDGET_CHARS);
    FoldIsWellFormed(doc.summary, evicted);
  }

  lemma EvictedArePart(runs: seq<Run>, target: int)
    ensures forall r | r in Evicted(runs, target) :: r in runs
  {
    hide DropIds, IdSet;
    SelectChooses(runs, IdSet(DropIds(runs, target)), true);
  }
}
