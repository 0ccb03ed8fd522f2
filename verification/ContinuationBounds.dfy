/** What a continuation prompt promises: its length, what survives verbatim, and that it depends on
    the session alone. */
module ContinuationBounds {
  import opened Wrappers
  import opened Bytes
  import opened Utf8
  import opened Sorting
  import opened Importance
  import opened SessionText
  import opened Compaction
  import opened SessionStore
  import opened Continuation

  /** Room for the marker of a text that exceeds its budget. */
  function MarkerRoom(len: nat, budget: nat): nat {
    if len > budget then |CompactionMarker(len - budget)| else 0
  }

  predicate Known(docs: map<Text, Doc>, sessionId: Text) {
    sessionId in docs && docs[sessionId].runs != []
  }

  lemma TrimBlockFits(s: Text, budget: nat)
    ensures |TrimBlock(s, budget)| <= budget + MarkerRoom(|s|, budget)
  {
    TrimBlockBound(s, budget);
  }

  // ---- the length ----

  /** The prompt stays within its budget, up to the heading and the two markers a refit adds. */
  lemma ContinuationIsBounded(docs: map<Text, Doc>, sessionId: Text, followup: Text, p: Policy)
    requires MaxChars(p) >= 0 && Known(docs, sessionId)
    ensures var max := MaxChars(p);
      var budget := FollowupBudget(followup, max);
      var built := Assembled(docs[sessionId], p, followup, max, true);
      |ContinuationFor(docs, sessionId, followup, p).prompt|
        <= max + |Heading(FOLLOWUP)| + MarkerRoom(|built|, max - budget) + MarkerRoom(|followup|, budget)
    ensures p.contextTokens > 0 ==> MaxChars(p) == 4 * p.contextTokens
    ensures p.contextTokens <= 0 && p.contextChars.Some? ==> MaxChars(p) == p.contextChars.value
    ensures p.contextTokens <= 0 && p.contextChars.None? ==> MaxChars(p) == 24000
  {
    BudgetIs(p);
    hide MaxChars, Assembled, Parts, AnyOver, AnyLong, TrimBlock, MarkerRoom, Heading;
    var max := MaxChars(p);
    var budget := FollowupBudget(followup, max);
    var built := Assembled(docs[sessionId], p, followup, max, true);
    TrimBlockFits(built, max - budget);
    TrimBlockFits(followup, budget);
  }

  lemma BudgetIs(p: Policy)
    ensures p.contextTokens > 0 ==> MaxChars(p) == 4 * p.contextTokens
    ensures p.contextTokens <= 0 && p.contextChars.Some? ==> MaxChars(p) == p.contextChars.value
    ensures p.contextTokens <= 0 && p.contextChars.None? ==> MaxChars(p) == 24000
  {
  }

  // ---- the follow-up ----

  lemma AssembledEnds(doc: Doc, p: Policy, followup: Text, max: nat)
    requires doc.runs != []
    ensures var front := INTRO + Rendered(Parts(doc, p, max), true)
        + Section(NOTES, Notes(ByName(Latest(doc).agents), Target(p)));
      Assembled(doc, p, followup, max, true) == front + (Section(FOLLOWUP, followup) + OUTRO)
  {
    hide *;
    hide INTRO, OUTRO;
    AssembledIs(doc, p, followup, max, true);
    Regroup(INTRO + Rendered(Parts(doc, p, max), true), Section(NOTES, Notes(ByName(Latest(doc).agents), Target(p))),
            Section(FOLLOWUP, followup) + OUTRO);
  }

  lemma AssembledIs(doc: Doc, p: Policy, followup: Text, max: nat, trimmed: bool)
    requires doc.runs != []
    ensures Assembled(doc, p, followup, max, trimmed) == INTRO + Rendered(Parts(doc, p, max), trimmed)
      + (Section(NOTES, Notes(ByName(Latest(doc).agents), Target(p))) + (Section(FOLLOWUP, followup) + OUTRO))
  {
  }

  /** A follow-up of at most a quarter of the budget is in the prompt as it was given, behind its
      heading; only the fixed closing line may come after it. */
  lemma FollowupSurvives(docs: map<Text, Doc>, sessionId: Text, followup: Text, p: Policy) returns (front: Text, back: Text)
    requires MaxChars(p) >= 0 && Known(docs, sessionId)
    requires 0 < |followup| <= MaxChars(p) / 4
    ensures ContinuationFor(docs, sessionId, followup, p).prompt == front + (Heading(FOLLOWUP) + followup + back)
    ensures back == [] || back == OUTRO
  {
    hide MaxChars, Assembled, Parts, AnyOver, AnyLong, TrimBlock, Heading, Rendered, Notes, ByName, Target;
    var doc := docs[sessionId];
    var max := MaxChars(p);
    var built := Assembled(doc, p, followup, max, true);
    if |built| > max {
      front := TrimBlock(built, max - |followup|);
      back := [];
      Whole(followup);
      Regroup(front, Heading(FOLLOWUP), followup);
      assert Heading(FOLLOWUP) + followup + [] == Heading(FOLLOWUP) + followup;
    } else {
      AssembledEnds(doc, p, followup, max);
      front := INTRO + Rendered(Parts(doc, p, max), true) + Section(NOTES, Notes(ByName(Latest(doc).agents), Target(p)));
      back := OUTRO;
    }
  }

  lemma Whole(s: Text)
    ensures TrimBlock(s, |s|) == s
  {
  }

  // ---- what an unused compaction means ----

  lemma {:induction false} NothingTrimmed(parts: seq<Part>)
    requires !AnyOver(parts)
    ensures Rendered(parts, true) == Rendered(parts, false)
  {
    hide TrimBlock, Section;
    if parts != [] {
      var last := parts[|parts| - 1];
      assert last in parts && |last.body| <= last.budget;
      forall part | part in parts[..|parts| - 1] ensures |part.body| <= part.budget {
        assert part in parts;
      }
      NothingTrimmed(parts[..|parts| - 1]);
      TrimBlockBound(last.body, last.budget);
    }
  }

  /** When no compaction is reported, the prompt is within budget and is put together from the whole
      summary, original request, final answer and target answer, as far as they are included. */
  lemma UnusedMeansVerbatim(docs: map<Text, Doc>, sessionId: Text, followup: Text, p: Policy)
    requires MaxChars(p) >= 0 && Known(docs, sessionId)
    requires !ContinuationFor(docs, sessionId, followup, p).used
    ensures ContinuationFor(docs, sessionId, followup, p).prompt
      == Assembled(docs[sessionId], p, followup, MaxChars(p), false)
    ensures |ContinuationFor(docs, sessionId, followup, p).prompt| <= MaxChars(p)
  {
    hide MaxChars, Parts, AnyOver, AnyLong, Rest, Rendered, INTRO;
    NothingTrimmed(Parts(docs[sessionId], p, MaxChars(p)));
  }

  // ---- the order of the agents ----

  lemma NameLessIsStrict()
    ensures StrictOrder(NameLess)
  {
    forall x: Entry ensures !NameLess(x, x) {
      LexTotal(x.name, x.name);
    }
    forall x: Entry, y: Entry, z: Entry | NameLess(x, y) && NameLess(y, z) ensures NameLess(x, z) {
      LexTransitive(x.name, y.name, z.name);
    }
  }

  lemma ByNameSorts(agents: seq<Entry>)
    requires DistinctNames(agents)
    ensures Sorted(ByName(agents), NameLess) && multiset(ByName(agents)) == multiset(agents)
  {
    NameLessIsStrict();
    forall i, j | 0 <= i < j < |agents| ensures NameLess(agents[j], agents[i]) || NameLess(agents[i], agents[j]) {
      LexTotal(agents[i].name, agents[j].name);
    }
    StableSortSorts(agents, NameLess, NameLess);
    StableSortIsPermutation(agents, NameLess);
  }

  lemma ByNameIgnoresOrder(a: seq<Entry>, b: seq<Entry>)
    requires DistinctNames(a) && DistinctNames(b) && multiset(a) == multiset(b)
    ensures ByName(a) == ByName(b)
  {
    ByNameSorts(a);
    ByNameSorts(b);
    NameLessIsStrict();
    SortedIsUnique(ByName(a), ByName(b), NameLess);
  }

  lemma {:induction false} AnswerIsAnEntry(agents: seq<Entry>, name: Text)
    ensures var answer := AnswerOf(agents, name);
      match answer
      case None => forall e | e in agents :: e.name != name
      case Some(text) => Entry(name, text) in agents
  {
    if agents != [] && agents[0].name != name {
      AnswerIsAnEntry(agents[1..], name);
    }
  }

  lemma AnswerIgnoresOrder(a: seq<Entry>, b: seq<Entry>, name: Text)
    requires DistinctNames(a) && DistinctNames(b) && multiset(a) == multiset(b)
    ensures AnswerOf(a, name) == AnswerOf(b, name)
  {
    AnswerIsAnEntry(a, name);
    AnswerIsAnEntry(b, name);
    forall e ensures e in a <==> e in b {
      assert e in a <==> e in multiset(a);
      assert e in b <==> e in multiset(b);
    }
  }

  /** Two documents that differ at most in the order the latest run's agents are visited. */
  ghost predicate SameUpToOrder(d: Doc, e: Doc) {
    && d.summary == e.summary && d.runs != [] && e.runs != []
    && d.runs[0].prompt == e.runs[0].prompt && Latest(d).final == Latest(e).final
    && DistinctNames(Latest(d).agents) && DistinctNames(Latest(e).agents)
    && multiset(Latest(d).agents) == multiset(Latest(e).agents)
  }

  /** The continuation is a function of the session: map iteration order does not show. */
  lemma ContinuationIgnoresOrder(docs: map<Text, Doc>, sessionId: Text, doc: Doc, followup: Text, p: Policy)
    requires MaxChars(p) >= 0 && Known(docs, sessionId) && SameUpToOrder(docs[sessionId], doc)
    ensures ContinuationFor(docs, sessionId, followup, p) == ContinuationFor(docs[sessionId := doc], sessionId, followup, p)
  {
    hide MaxChars, Built, DistinctNames;
    SameBuilt(docs[sessionId], doc, followup, p, MaxChars(p));
  }

  lemma SameParts(d: Doc, e: Doc, p: Policy, max: nat)
    requires SameUpToOrder(d, e)
    ensures Parts(d, p, max) == Parts(e, p, max)
  {
    hide AnswerOf, With, Target, Includes, Ascii, DistinctNames, TargetTitle;
    AnswerIgnoresOrder(Latest(d).agents, Latest(e).agents, Target(p));
  }

  lemma SameRest(d: Doc, e: Doc, p: Policy, followup: Text)
    requires SameUpToOrder(d, e)
    ensures Rest(d, p, followup) == Rest(e, p, followup)
    ensures ByName(Latest(d).agents) == ByName(Latest(e).agents)
  {
    hide ByName, Notes, Section, Target, DistinctNames;
    ByNameIgnoresOrder(Latest(d).agents, Latest(e).agents);
  }

  lemma SameBuilt(d: Doc, e: Doc, followup: Text, p: Policy, max: nat)
    requires SameUpToOrder(d, e)
    ensures Built(d, p, followup, max) == Built(e, p, followup, max)
  {
    hide Parts, Rest, ByName, Rendered, AnyOver, AnyLong, Refitted, DistinctNames;
    SameParts(d, e, p, max);
    SameRest(d, e, p, followup);
  }

  // ---- well-formed text ----

  ghost predicate RunWellFormed(run: Run) {
    && WellFormed(run.prompt) && (run.final.Some? ==> WellFormed(run.final.value))
    && forall e | e in run.agents :: WellFormed(e.name) && WellFormed(e.text)
  }

  ghost predicate DocWellFormed(doc: Doc) {
    WellFormed(doc.summary) && forall run | run in doc.runs :: RunWellFormed(run)
  }

  lemma SectionWellFormed(title: Text, body: Text)
    requires WellFormed(title) && WellFormed(body)
    ensures WellFormed(Heading(title)) && WellFormed(Section(title, body))
  {
    hide WellFormed, Ascii;
    var hashes := BLANK_LINE + Ascii("## ");
    AsciiWellFormed(hashes);
    AsciiWellFormed([LF]);
    WellFormedConcat(hashes, title);
    WellFormedConcat(hashes + title, [LF]);
    WellFormedConcat(Heading(title), body);
    AsciiWellFormed([]);
  }

  lemma {:induction false} RenderedWellFormed(parts: seq<Part>)
    requires forall part | part in parts :: WellFormed(part.title) && WellFormed(part.body)
    ensures WellFormed(Rendered(parts, true))
  {
    hide WellFormed, Section, TrimBlock;
    if parts == [] {
      AsciiWellFormed([]);
    } else {
      var init, last := parts[..|parts| - 1], parts[|parts| - 1];
      assert last in parts;
      RenderedWellFormed(init);
      TrimBlockWellFormed(last.body, last.budget);
      SectionWellFormed(last.title, TrimBlock(last.body, last.budget));
      WellFormedConcat(Rendered(init, true), Section(last.title, TrimBlock(last.body, last.budget)));
    }
  }

  lemma NoteWellFormed(e: Entry, target: Text)
    requires WellFormed(e.name)
    ensures WellFormed(Note(e, target))
  {
    hide WellFormed, Ascii, FirstLinesOf;
    AsciiWellFormed([]);
    AsciiWellFormed(Ascii("- "));
    AsciiWellFormed(Ascii(": "));
    AsciiWellFormed([LF]);
    WellFormedConcat(Ascii("- "), e.name);
    WellFormedConcat(Ascii("- ") + e.name, Ascii(": "));
    FirstLinesBound(e.text, NOTE_LINES, NOTE_CHARS);
    var lines := FirstLinesOf(e.text, NOTE_LINES, NOTE_CHARS);
    WellFormedConcat(Ascii("- ") + e.name + Ascii(": "), lines);
    WellFormedConcat(Ascii("- ") + e.name + Ascii(": ") + lines, [LF]);
  }

  lemma {:induction false} NotesWellFormed(es: seq<Entry>, target: Text)
    requires forall e | e in es :: WellFormed(e.name)
    ensures WellFormed(Notes(es, target))
  {
    hide WellFormed, Note;
    if es == [] {
      AsciiWellFormed([]);
    } else {
      NotesWellFormed(es[..|es| - 1], target);
      NoteWellFormed(es[|es| - 1], target);
      WellFormedConcat(Notes(es[..|es| - 1], target), Note(es[|es| - 1], target));
    }
  }

  lemma PartsWellFormed(doc: Doc, p: Policy, max: nat)
    requires doc.runs != [] && DocWellFormed(doc) && WellFormed(Target(p))
    ensures forall part | part in Parts(doc, p, max) :: WellFormed(part.title) && WellFormed(part.body)
  {
    hide WellFormed, Ascii, Includes, Target;
    hide SUMMARY, ORIGINAL, FINAL;
    AsciiWellFormed([]);
    AsciiWellFormed(SUMMARY_TITLE);
    AsciiWellFormed(ORIGINAL_TITLE);
    AsciiWellFormed(FINAL_TITLE);
    AsciiWellFormed(Ascii("Previous "));
    AsciiWellFormed(Ascii(" answer"));
    WellFormedConcat(Ascii("Previous "), Target(p));
    WellFormedConcat(Ascii("Previous ") + Target(p), Ascii(" answer"));
    assert RunWellFormed(doc.runs[0]) && RunWellFormed(Latest(doc));
    AnswerIsAnEntry(Latest(doc).agents, Target(p));
  }

  lemma RestWellFormed(doc: Doc, p: Policy, followup: Text)
    requires doc.runs != [] && DocWellFormed(doc) && WellFormed(Target(p)) && WellFormed(followup)
    ensures WellFormed(Rest(doc, p, followup))
  {
    hide WellFormed, Ascii, Section, Notes;
    var agents := Latest(doc).agents;
    assert RunWellFormed(Latest(doc));
    StableSortIsPermutation(agents, NameLess);
    forall e | e in ByName(agents) ensures WellFormed(e.name) {
      assert e in multiset(ByName(agents));
    }
    var notes := Notes(ByName(agents), Target(p));
    NotesWellFormed(ByName(agents), Target(p));
    AsciiWellFormed(NOTES);
    AsciiWellFormed(FOLLOWUP);
    AsciiWellFormed(OUTRO);
    SectionWellFormed(NOTES, notes);
    SectionWellFormed(FOLLOWUP, followup);
    WellFormedConcat(Section(FOLLOWUP, followup), OUTRO);
    WellFormedConcat(Section(NOTES, notes), Section(FOLLOWUP, followup) + OUTRO);
  }

  /** Trimming never breaks a character: well-formed context gives a well-formed prompt. */
  lemma ContinuationIsWellFormed(docs: map<Text, Doc>, sessionId: Text, followup: Text, p: Policy)
    requires MaxChars(p) >= 0 && WellFormed(followup) && WellFormed(Target(p))
    requires Known(docs, sessionId) ==> DocWellFormed(docs[sessionId])
    ensures WellFormed(ContinuationFor(docs, sessionId, followup, p).prompt)
  {
    hide WellFormed, MaxChars, Parts, Rest, Rendered, AnyOver, AnyLong, TrimBlock, Heading, Target, DocWellFormed, IsAscii;
    if Known(docs, sessionId) {
      var doc, max := docs[sessionId], MaxChars(p);
      PartsWellFormed(doc, p, max);
      RenderedWellFormed(Parts(doc, p, max));
      RestWellFormed(doc, p, followup);
      IntroIsAscii();
      AsciiWellFormed(INTRO);
      WellFormedConcat(INTRO, Rendered(Parts(doc, p, max), true));
      WellFormedConcat(INTRO + Rendered(Parts(doc, p, max), true), Rest(doc, p, followup));
      RefittedWellFormed(Assembled(doc, p, followup, max, true), followup, max);
    }
  }

  lemma IntroIsAscii()
    ensures IsAscii(INTRO)
  {
  }

  lemma RefittedWellFormed(built: Text, followup: Text, max: nat)
    requires WellFormed(built) && WellFormed(followup)
    ensures WellFormed(Refitted(built, followup, max))
  {
    hide WellFormed, TrimBlock, Heading;
    var budget := FollowupBudget(followup, max);
    TrimBlockWellFormed(built, max - budget);
    TrimBlockWellFormed(followup, budget);
    AsciiWellFormed(FOLLOWUP);
    AsciiWellFormed([]);
    SectionWellFormed(FOLLOWUP, []);
    WellFormedConcat(TrimBlock(built, max - budget), Heading(FOLLOWUP));
    WellFormedConcat(TrimBlock(built, max - budget) + Heading(FOLLOWUP), TrimBlock(followup, budget));
  }
}
