/** The summary of a session over whole histories (internal/session/store.go, summarize.go): it is made
    of the digests of everything that was evicted. */
module SummaryHistory {
  import opened Bytes
  import opened Utf8
  import opened Compaction
  import opened Eviction
  import opened Summary
  import opened SessionStore
  import opened SessionHistory
  import opened SummaryRolls
  import Sequences

  /** What a step evicts from one session. */
  function EvictedBy(st: State, step: Step, id: Text): seq<Run> {
    if step.Append? && step.sessionId == id
    then EvictedFrom(WithRun(DocOf(st.docs, id), step.run), SESSION_BUDGET_CHARS) else []
  }

  /** All runs evicted from one session so far, in the order of their evictions. */
  function EvictedSoFar(steps: seq<Step>, id: Text): seq<Run> {
    if steps == [] then []
    else
      var front := steps[..|steps| - 1];
      EvictedSoFar(front, id) + EvictedBy(After(front), steps[|steps| - 1], id)
  }

  lemma CompactedSummary(doc: Doc, target: int)
    ensures Compacted(doc, target).summary
      == if EvictedFrom(doc, target) == [] then doc.summary else Fold(doc.summary, EvictedFrom(doc, target))
  {
    hide EvictedFrom, Remaining, Fold;
  }

  lemma EvictedAreGrown(doc: Doc, target: int)
    ensures forall r | r in EvictedFrom(doc, target) :: r in doc.runs
  {
    hide Evicted;
    EvictedArePart(doc.runs, target);
  }

  lemma StoredAreAppended(steps: seq<Step>, id: Text)
    ensures forall r | r in DocOf(After(steps).docs, id).runs :: r in AppendedTo(steps, id)
  {
    hide After, AppendedTo, Sequences.Subsequence;
    StoredInOrder(steps, id);
    Sequences.SubsequenceElements(DocOf(After(steps).docs, id).runs, AppendedTo(steps, id));
  }

  lemma {:induction false} EvictedAreAppended(steps: seq<Step>, id: Text)
    ensures forall r | r in EvictedSoFar(steps, id) :: r in AppendedTo(steps, id)
  {
    hide After, EvictedFrom, Compacted, RunsOf;
    if steps != [] {
      var front, s := steps[..|steps| - 1], steps[|steps| - 1];
      EvictedAreAppended(front, id);
      LastStep(steps, id);
      StoredAreAppended(front, id);
      if s.Append? && s.sessionId == id {
        EvictedAreGrown(WithRun(DocOf(After(front).docs, id), s.run), SESSION_BUDGET_CHARS);
      }
    }
  }

  /** The summary of a step. */
  lemma StepSummary(steps: seq<Step>, id: Text)
    requires steps != []
    ensures var front := steps[..|steps| - 1];
      var before, evicted := DocOf(After(front).docs, id).summary, EvictedBy(After(front), steps[|steps| - 1], id);
      DocOf(After(steps).docs, id).summary == if evicted == [] then before else Fold(before, evicted)
  {
    hide After, EvictedFrom, Compacted, RunsOf, Fold;
    var front, s := steps[..|steps| - 1], steps[|steps| - 1];
    LastStep(steps, id);
    if s.Append? && s.sessionId == id {
      CompactedSummary(WithRun(DocOf(After(front).docs, id), s.run), SESSION_BUDGET_CHARS);
    }
  }

  /** Over any history: as long as the digests of everything evicted from a session fit the cap together,
      its summary is those digests, in the order of the evictions, one per line; however many
      compactions there were, none is forgotten. */
  lemma {:induction false} SummaryRemembers(steps: seq<Step>, id: Text)
    requires forall r | r in AppendedTo(steps, id) :: NamesWellFormed(r)
    requires |Rolled([], EvictedSoFar(steps, id))| <= 6000
    ensures DocOf(After(steps).docs, id).summary == Rolled([], EvictedSoFar(steps, id))
  {
    hide Rolled, Fold, EvictedBy, NamesWellFormed, After;
    NothingIsSound();
    if steps == [] {
      RolledNone([]);
      EmptySummary(id);
    } else {
      var front := steps[..|steps| - 1];
      var a, b := EvictedSoFar(front, id), EvictedBy(After(front), steps[|steps| - 1], id);
      RolledInTurn([], a, b);
      FrontIsAppended(steps, id);
      SummaryRemembers(front, id);
      StepSummary(steps, id);
      assert a + [] == a;
      EvictedAreAppended(steps, id);
      assert forall r | r in b :: r in a + b;
      if b != [] {
        EvictedAreAppended(front, id);
        RolledIsSound([], a);
        FoldRollsOn(Rolled([], a), b);
      }
    }
  }

  lemma EmptySummary(id: Text)
    ensures DocOf(After([]).docs, id).summary == []
  {
  }

  lemma FrontIsAppended(steps: seq<Step>, id: Text)
    requires steps != []
    ensures forall r | r in AppendedTo(steps[..|steps| - 1], id) :: r in AppendedTo(steps, id)
  {
  }

  /** When nothing was lost, what was evicted is what the hook was handed, in the same order. */
  lemma {:induction false} EvictedAreHanded(steps: seq<Step>, id: Text)
    ensures var st := After(steps); RunsOf(st.lost, id) == [] ==> EvictedSoFar(steps, id) == RunsOf(st.handed, id)
  {
    hide After, EvictedFrom, Compacted, RunsOf;
    if steps == [] {
      EmptyHistory(id);
    } else {
      EvictedAreHanded(steps[..|steps| - 1], id);
      LastStep(steps, id);
    }
  }
}
