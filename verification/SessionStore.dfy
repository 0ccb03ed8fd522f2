/** The session store (internal/session/store.go): appending a run, compacting the session and
    handing evicted runs on, over whole histories of calls. */
module SessionStore {
  import opened Bytes
  import opened Compaction
  import opened Eviction
  import opened Summary

  const SESSION_BUDGET_CHARS := 32000

  /** What a session document holds. */
  datatype Doc = Doc(runs: seq<Run>, summary: Text)

  /** The argument of one call of the eviction hook. */
  datatype Handoff = Handoff(sessionId: Text, runs: seq<Run>)

  const NEW_SESSION: Doc := Doc([], [])

  // ---- specification ----

  function EvictedFrom(doc: Doc, target: int): seq<Run> {
    if |doc.runs| <= 1 then [] else Evicted(doc.runs, target)
  }

  function Compacted(doc: Doc, target: int): Doc {
    var evicted := EvictedFrom(doc, target);
    if evicted == [] then doc
    else Doc(Remaining(doc.runs, target), Fold(doc.summary, evicted))
  }

  function WithRun(doc: Doc, run: Run): Doc {
    Doc(doc.runs + [run], doc.summary)
  }

  /** The store as a value. `lost` lists evictions nobody was told of: their save failed or no hook
      was set. */
  datatype State = State(docs: map<Text, Doc>, hooked: bool, handed: seq<Handoff>, lost: seq<Handoff>)

  function DocOf(docs: map<Text, Doc>, id: Text): Doc {
    if id in docs then docs[id] else NEW_SESSION
  }

  function AfterAppend(st: State, id: Text, run: Run, saved: bool): State {
    var doc := WithRun(DocOf(st.docs, id), run);
    var evicted := EvictedFrom(doc, SESSION_BUDGET_CHARS);
    var news := if evicted == [] then [] else [Handoff(id, evicted)];
    var told := saved && st.hooked;
    State(st.docs[id := Compacted(doc, SESSION_BUDGET_CHARS)], st.hooked,
          st.handed + (if told then news else []), st.lost + (if told then [] else news))
  }

  // ---- the session document and the store ----

  class Session {
    var runs: seq<Run>
    var summary: Text

    ghost function View(): Doc
      reads this
    {
      Doc(runs, summary)
    }

    constructor ()
      ensures View() == NEW_SESSION
    {
      runs, summary := [], [];
    }

    method Append(run: Run) returns (evicted: seq<Run>)
      modifies this
      ensures evicted == EvictedFrom(WithRun(old(View()), run), SESSION_BUDGET_CHARS)
      ensures View() == Compacted(WithRun(old(View()), run), SESSION_BUDGET_CHARS)
    {
      hide EvictedFrom, Compacted;
      runs := runs + [run];
      evicted := Compact(SESSION_BUDGET_CHARS);
    }

    /** `compactSession`. */
    method Compact(targetChars: int) returns (evicted: seq<Run>)
      modifies this
      ensures evicted == EvictedFrom(old(View()), targetChars)
      ensures View() == Compacted(old(View()), targetChars)
    {
      hide DropIds, Fold;
      if |runs| <= 1 {
        return [];
      }
      var dropIds := RunsToDrop(runs, targetChars);
      if |dropIds| == 0 {
        assert IdSet(dropIds) == {};
        NothingSelected(runs);
        return [];
      }
      var dropSet := IdSet(dropIds);
      var kept: seq<Run> := [];
      var dropped: seq<Run> := [];
      for n := 0 to |runs|
        invariant runs == old(runs) && summary == old(summary)
        invariant dropped == Select(runs[..n], dropSet, true)
        invariant kept == Select(runs[..n], dropSet, false)
      {
        assert runs[..n + 1][..n] == runs[..n];
        if runs[n].id in dropSet {
          dropped := dropped + [runs[n]];
          assert kept + [] == kept;
        } else {
          kept := kept + [runs[n]];
          assert dropped + [] == dropped;
        }
      }
      assert runs[..|runs|] == runs;
      if |dropped| == 0 {
        return [];
      }
      summary := FoldSummary(summary, dropped);
      runs := kept;
      return dropped;
    }
  }

  lemma {:induction false} NothingSelected(runs: seq<Run>)
    ensures Select(runs, {}, true) == []
  {
    if runs != [] {
      NothingSelected(runs[..|runs| - 1]);
    }
  }

  class Store {
    var doc: map<Text, Session>
    var onEvict: bool
    var handed: seq<Handoff>
    ghost var lost: seq<Handoff>

    /** Different ids name different documents. */
    ghost predicate Valid()
      reads this
    {
      forall a, b | a in doc && b in doc && a != b :: doc[a] != doc[b]
    }

    ghost function View(): State
      reads this, doc.Values
    {
      State(map id | id in doc :: doc[id].View(), onEvict, handed, lost)
    }

    constructor ()
      ensures Valid() && View() == State(map[], false, [], [])
    {
      doc, onEvict, handed, lost := map[], false, [], [];
    }

    /** `SetEvictHook`. */
    method SetEvictHook(on: bool)
      requires Valid()
      modifies this`onEvict
      ensures Valid() && View() == old(View()).(hooked := on)
    {
      onEvict := on;
    }

    /** `AppendRun`. `saved` says whether persisting the document succeeds. */
    method AppendRun(sessionId: Text, run: Run, saved: bool) returns (ok: bool)
      requires Valid()
      modifies this, doc.Values
      ensures Valid() && forall id | id in doc :: doc[id] in old(doc.Values) || fresh(doc[id])
      ensures ok == saved
      ensures View() == AfterAppend(old(View()), sessionId, run, saved)
    {
      hide EvictedFrom, Compacted, DocOf;
      var evicted := AppendLocked(sessionId, run);
      HandOff(sessionId, evicted, saved);
      return saved;
    }

    /** The part of `AppendRun` under the lock. */
    method AppendLocked(sessionId: Text, run: Run) returns (evicted: seq<Run>)
      requires Valid()
      modifies this`doc, doc.Values
      ensures Valid() && (forall id | id in doc :: doc[id] in old(doc.Values) || fresh(doc[id]))
      ensures var grown := WithRun(DocOf(old(View()).docs, sessionId), run);
        && evicted == EvictedFrom(grown, SESSION_BUDGET_CHARS)
        && View().docs == old(View()).docs[sessionId := Compacted(grown, SESSION_BUDGET_CHARS)]
    {
      hide EvictedFrom, Compacted, DocOf, WithRun;
      var sess;
      sess, evicted := AppendTo(sessionId, run);
      doc := doc[sessionId := sess];
      DocsUpdated(old(View()).docs, sessionId);
    }

    /** The document of the session, with the run in it; the others are left alone. */
    method AppendTo(sessionId: Text, run: Run) returns (sess: Session, evicted: seq<Run>)
      requires Valid()
      modifies doc.Values
      ensures if sessionId in doc then sess == doc[sessionId] else fresh(sess)
      ensures Others(old(View()).docs, sessionId, sess)
      ensures var grown := WithRun(DocOf(old(View()).docs, sessionId), run);
        && evicted == EvictedFrom(grown, SESSION_BUDGET_CHARS)
        && sess.View() == Compacted(grown, SESSION_BUDGET_CHARS)
    {
      hide EvictedFrom, Compacted, DocOf, WithRun;
      sess := Fetch(sessionId);
      evicted := sess.Append(run);
    }

    lemma DocsUpdated(docs: map<Text, Doc>, sessionId: Text)
      requires sessionId in doc && Others(docs, sessionId, doc[sessionId])
      ensures View().docs == docs[sessionId := doc[sessionId].View()]
    {
    }

    /** The part of `AppendRun` outside it. */
    method HandOff(sessionId: Text, evicted: seq<Run>, saved: bool)
      modifies this`handed, this`lost
      ensures var news := if evicted == [] then [] else [Handoff(sessionId, evicted)];
        View() == old(View()).(handed := old(handed) + (if saved && onEvict then news else []),
                               lost := old(lost) + (if saved && onEvict then [] else news))
    {
      if saved && onEvict && |evicted| > 0 {
        handed := handed + [Handoff(sessionId, evicted)];
      } else if |evicted| > 0 {
        lost := lost + [Handoff(sessionId, evicted)];
      }
    }

    /** Every other document still is what it was. */
    ghost predicate Others(docs: map<Text, Doc>, sessionId: Text, sess: Session)
      reads this, doc.Values
    {
      && (forall id | id in doc && id != sessionId :: id in docs && doc[id] != sess && doc[id].View() == docs[id])
      && forall id | id in docs :: id in doc
    }

    /** The document of a session, a new one if there is none yet. */
    method Fetch(sessionId: Text) returns (sess: Session)
      requires Valid()
      ensures sess.View() == DocOf(View().docs, sessionId)
      ensures if sessionId in doc then sess == doc[sessionId] else fresh(sess)
    {
      if sessionId in doc {
        return doc[sessionId];
      }
      sess := new Session();
    }
  }
}
