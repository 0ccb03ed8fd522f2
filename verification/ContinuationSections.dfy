/** What stands where in a continuation prompt (internal/session/context.go), read off the session: the
    summary, the first request, the last final answer and the target agent's answer, each under its
    heading, and when the compaction flag goes up. */
module ContinuationSections {
  import opened Wrappers
  import opened Bytes
  import opened Importance
  import opened SessionText
  import opened Compaction
  import opened SessionStore
  import opened Continuation
  import opened ContinuationBounds
  import opened NoteCuts

  /** A text under its heading; an empty one, or one left out by the policy, is not shown at all. */
  function Shown(on: bool, title: string, name: Text, more: string, text: Text): Text {
    if on && text != [] then [LF, LF] + Ascii("## ") + (Ascii(title) + name + Ascii(more)) + [LF] + text else []
  }

  predicate Wanted(p: Policy, name: Text) {
    p.included.None? || name in p.included.value
  }

  /** The four texts a prompt may show, in its order. */
  datatype Texts = Texts(summary: Text, request: Text, final: Text, answer: Text)

  /** The texts as the session has them: `answer` is what the latest run's target agent said, if it ran. */
  ghost predicate Reads(doc: Doc, p: Policy, t: Texts)
    requires doc.runs != []
  {
    var first, latest := doc.runs[0], doc.runs[|doc.runs| - 1];
    var target := if p.targetAgent == [] then Ascii("programmer") else p.targetAgent;
    && t.summary == doc.summary
    && t.request == first.prompt
    && (latest.final.Some? ==> t.final == latest.final.value) && (latest.final.None? ==> t.final == [])
    && (forall e | e in latest.agents && e.name == target :: t.answer == e.text)
    && ((forall e | e in latest.agents :: e.name != target) ==> t.answer == [])
  }

  /** What comes behind the opening line: the texts, each cut to its share by `cut`. */
  function Sections(p: Policy, t: Texts, cut: (Text, nat) -> Text, max: nat): Text {
    var target := if p.targetAgent == [] then Ascii("programmer") else p.targetAgent;
    Shown(Wanted(p, Ascii("summary")), "Earlier session summary", [], "", cut(t.summary, max / 3))
    + Shown(Wanted(p, Ascii("original_prompt")), "Original user request", [], "", cut(t.request, max / 5))
    + Shown(Wanted(p, Ascii("final")), "Previous final answer", [], "", cut(t.final, max / 4))
    + Shown(Wanted(p, target), "Previous ", target, " answer", cut(t.answer, max / 2))
  }

  // ---- one section ----

  lemma ShownIs(title: Text, a: string, name: Text, b: string, text: Text)
    requires title == Ascii(a) + name + Ascii(b)
    ensures Section(title, text) == Shown(true, a, name, b, text)
  {
    hide Ascii;
    var hashes := Ascii("## ");
    Regroup([LF, LF], hashes, title);
  }

  lemma PlainTitle(a: string)
    ensures Ascii(a) == Ascii(a) + [] + Ascii("")
  {
  }

  /** One more part, shown or not. */
  lemma PartShown(before: seq<Part>, on: bool, title: Text, a: string, name: Text, b: string, body: Text, budget: nat, trimmed: bool)
    requires title == Ascii(a) + name + Ascii(b)
    ensures Rendered(With(before, on, Part(title, body, budget)), trimmed)
      == Rendered(before, trimmed) + Shown(on, a, name, b, if trimmed then TrimBlock(body, budget) else body)
  {
    hide TrimBlock, Section, Shown;
    var part := Part(title, body, budget);
    var text := if trimmed then TrimBlock(body, budget) else body;
    if on {
      assert (before + [part])[..|before|] == before;
      ShownIs(title, a, name, b, text);
    } else {
      NotShown(a, name, b, text);
      assert Rendered(before, trimmed) + [] == Rendered(before, trimmed);
    }
  }

  lemma NotShown(a: string, name: Text, b: string, text: Text)
    ensures Shown(false, a, name, b, text) == []
    ensures forall on :: Shown(on, a, name, b, []) == []
  {
  }

  lemma NothingRendered(trimmed: bool)
    ensures Rendered([], trimmed) == []
  {
  }

  // ---- all sections ----

  function Cut(s: Text, budget: nat): Text {
    TrimBlock(s, budget)
  }

  function Uncut(s: Text, budget: nat): Text {
    s
  }

  lemma SameCut(s: Text, budget: nat)
    ensures Cut(s, budget) == TrimBlock(s, budget) && Uncut(s, budget) == s
    ensures Cut([], budget) == []
  {
  }

  /** The model's parts of the answer, with or without the target agent. */
  lemma AnswerIs(doc: Doc, p: Policy, t: Texts)
    requires doc.runs != [] && Reads(doc, p, t)
    ensures match AnswerOf(Latest(doc).agents, Target(p)) case None => t.answer == [] case Some(a) => t.answer == a
  {
    hide Ascii, AnswerOf;
    AnswerIsAnEntry(Latest(doc).agents, Target(p));
  }

  /** The first two parts. */
  function FrontParts(doc: Doc, p: Policy, max: nat): seq<Part>
    requires doc.runs != []
  {
    With(With([], Includes(p, SUMMARY) && doc.summary != [], Part(SUMMARY_TITLE, doc.summary, max / 3)),
         Includes(p, ORIGINAL), Part(ORIGINAL_TITLE, doc.runs[0].prompt, max / 5))
  }

  lemma FrontShown(doc: Doc, p: Policy, t: Texts, max: nat, trimmed: bool)
    requires doc.runs != [] && Reads(doc, p, t)
    ensures var cut := if trimmed then Cut else Uncut;
      Rendered(FrontParts(doc, p, max), trimmed)
      == Shown(Wanted(p, SUMMARY), "Earlier session summary", [], "", cut(t.summary, max / 3))
       + Shown(Wanted(p, ORIGINAL), "Original user request", [], "", cut(t.request, max / 5))
  {
    hide TrimBlock, Shown, Ascii, Rendered, AnswerOf;
    NothingRendered(trimmed);
    PlainTitle("Earlier session summary");
    PlainTitle("Original user request");
    SameCut(t.summary, max / 3);
    SameCut(t.request, max / 5);
    var on := Includes(p, SUMMARY) && doc.summary != [];
    var one := With([], on, Part(SUMMARY_TITLE, doc.summary, max / 3));
    PartShown([], on, SUMMARY_TITLE, "Earlier session summary", [], "", doc.summary, max / 3, trimmed);
    NotShown("Earlier session summary", [], "", doc.summary);
    PartShown(one, Includes(p, ORIGINAL), ORIGINAL_TITLE, "Original user request", [], "", doc.runs[0].prompt, max / 5, trimmed);
  }

  lemma PartsShown(doc: Doc, p: Policy, t: Texts, max: nat, trimmed: bool)
    requires doc.runs != [] && Reads(doc, p, t)
    ensures Rendered(Parts(doc, p, max), trimmed) == Sections(p, t, if trimmed then Cut else Uncut, max)
  {
    hide TrimBlock, Shown, Ascii, Rendered, AnswerOf;
    FrontShown(doc, p, t, max, trimmed);
    AnswerIs(doc, p, t);
    PlainTitle("Previous final answer");
    SameCut(t.final, max / 4);
    SameCut(t.answer, max / 2);
    var two := FrontParts(doc, p, max);
    var latest := Latest(doc);
    var three := With(two, Includes(p, FINAL), Part(FINAL_TITLE, FinalText(latest), max / 4));
    PartShown(two, Includes(p, FINAL), FINAL_TITLE, "Previous final answer", [], "", FinalText(latest), max / 4, trimmed);
    NotShown("Previous ", Target(p), " answer", t.answer);
    match AnswerOf(latest.agents, Target(p))
    case None =>
      assert Rendered(three, trimmed) + [] == Rendered(three, trimmed);
    case Some(answer) =>
      PartShown(three, Includes(p, Target(p)), TargetTitle(p), "Previous ", Target(p), " answer", answer, max / 2, trimmed);
  }

  // ---- the prompt ----

  /** The whole prompt before it is refitted. */
  function Laid(p: Policy, t: Texts, cut: (Text, nat) -> Text, notes: Text, followup: Text): Text
    requires MaxChars(p) >= 0
  {
    INTRO + Sections(p, t, cut, MaxChars(p))
    + (Shown(true, "Other previous agent notes", [], "", notes)
       + (Shown(true, "User follow-up", [], "", followup) + OUTRO))
  }

  lemma AssembledIsLaid(doc: Doc, p: Policy, t: Texts, followup: Text, trimmed: bool)
    requires MaxChars(p) >= 0 && doc.runs != [] && Reads(doc, p, t)
    ensures var notes := Notes(ByName(Latest(doc).agents), Target(p));
      Assembled(doc, p, followup, MaxChars(p), trimmed) == Laid(p, t, if trimmed then Cut else Uncut, notes, followup)
  {
    var notes := Notes(ByName(Latest(doc).agents), Target(p));
    NotesShown(notes, followup);
    AssembledIs(doc, p, followup, MaxChars(p), trimmed);
    PartsShown(doc, p, t, MaxChars(p), trimmed);
    hide MaxChars, Reads, Parts, Rendered, Sections, Notes, ByName, Target, Section, Shown, Ascii, Assembled;
    hide INTRO, OUTRO, NOTES, FOLLOWUP;
  }

  lemma NotesShown(notes: Text, followup: Text)
    ensures Section(NOTES, notes) == Shown(true, "Other previous agent notes", [], "", notes)
    ensures Section(FOLLOWUP, followup) == Shown(true, "User follow-up", [], "", followup)
  {
    hide Section, Shown, Ascii;
    PlainTitle("Other previous agent notes");
    PlainTitle("User follow-up");
    ShownIs(NOTES, "Other previous agent notes", [], "", notes);
    ShownIs(FOLLOWUP, "User follow-up", [], "", followup);
  }

  /** With the flag unused the prompt is the opening line, the four texts verbatim, each that is wanted
      and not empty under its own heading and in this order, the notes, the follow-up and the closing
      line. */
  lemma TextsStandVerbatim(docs: map<Text, Doc>, sessionId: Text, followup: Text, p: Policy, t: Texts) returns (notes: Text)
    requires MaxChars(p) >= 0 && Known(docs, sessionId) && Reads(docs[sessionId], p, t)
    requires !ContinuationFor(docs, sessionId, followup, p).used
    ensures ContinuationFor(docs, sessionId, followup, p).prompt == Laid(p, t, Uncut, notes, followup)
  {
    hide MaxChars, Reads, Laid, Assembled, Notes, ByName, Target;
    var doc := docs[sessionId];
    notes := Notes(ByName(Latest(doc).agents), Target(p));
    UnusedMeansVerbatim(docs, sessionId, followup, p);
    AssembledIsLaid(doc, p, t, followup, false);
  }

  /** One of the four: whether it is wanted, its title and its text. */
  function Wish(p: Policy, t: Texts, k: nat): (bool, Text, Text)
    requires k < 4
  {
    var target := if p.targetAgent == [] then Ascii("programmer") else p.targetAgent;
    if k == 0 then (Wanted(p, Ascii("summary")), Ascii("Earlier session summary"), t.summary)
    else if k == 1 then (Wanted(p, Ascii("original_prompt")), Ascii("Original user request"), t.request)
    else if k == 2 then (Wanted(p, Ascii("final")), Ascii("Previous final answer"), t.final)
    else (Wanted(p, target), Ascii("Previous ") + target + Ascii(" answer"), t.answer)
  }

  lemma PlainShown(a: string, text: Text)
    ensures text != [] ==> Shown(true, a, [], "", text) == [LF, LF] + Ascii("## ") + Ascii(a) + [LF] + text
  {
    hide Ascii;
    PlainTitle(a);
  }

  /** So each wanted text stands under its heading, as the session has it. */
  lemma TextStands(docs: map<Text, Doc>, sessionId: Text, followup: Text, p: Policy, t: Texts, k: nat)
      returns (front: Text, back: Text)
    requires MaxChars(p) >= 0 && Known(docs, sessionId) && Reads(docs[sessionId], p, t)
    requires !ContinuationFor(docs, sessionId, followup, p).used
    requires k < 4 && Wish(p, t, k).0 && Wish(p, t, k).2 != []
    ensures ContinuationFor(docs, sessionId, followup, p).prompt
      == front + ([LF, LF] + Ascii("## ") + Wish(p, t, k).1 + [LF] + Wish(p, t, k).2) + back
  {
    hide MaxChars, Reads, Wish, Laid, ContinuationFor, Ascii;
    var notes := TextsStandVerbatim(docs, sessionId, followup, p, t);
    front, back := LaidAround(p, t, notes, followup, k);
  }

  lemma LaidAround(p: Policy, t: Texts, notes: Text, followup: Text, k: nat) returns (front: Text, back: Text)
    requires MaxChars(p) >= 0 && k < 4 && Wish(p, t, k).0 && Wish(p, t, k).2 != []
    ensures Laid(p, t, Uncut, notes, followup)
      == front + ([LF, LF] + Ascii("## ") + Wish(p, t, k).1 + [LF] + Wish(p, t, k).2) + back
  {
    WishIsShown(p, t, k);
    hide MaxChars, Shown, Ascii, Wanted, Wish;
    hide INTRO, OUTRO;
    var target := if p.targetAgent == [] then Ascii("programmer") else p.targetAgent;
    var a := Shown(Wanted(p, Ascii("summary")), "Earlier session summary", [], "", t.summary);
    var b := Shown(Wanted(p, Ascii("original_prompt")), "Original user request", [], "", t.request);
    var c := Shown(Wanted(p, Ascii("final")), "Previous final answer", [], "", t.final);
    var d := Shown(Wanted(p, target), "Previous ", target, " answer", t.answer);
    front, back := Around(INTRO, a, b, c, d, Shown(true, "Other previous agent notes", [], "", notes)
      + (Shown(true, "User follow-up", [], "", followup) + OUTRO), k);
  }

  lemma TargetShown(target: Text, text: Text)
    ensures text != [] ==>
      Shown(true, "Previous ", target, " answer", text)
        == [LF, LF] + Ascii("## ") + (Ascii("Previous ") + target + Ascii(" answer")) + [LF] + text
  {
    hide Ascii;
  }

  lemma WishIsShown(p: Policy, t: Texts, k: nat)
    requires k < 4 && Wish(p, t, k).0 && Wish(p, t, k).2 != []
    ensures var target := if p.targetAgent == [] then Ascii("programmer") else p.targetAgent;
      [LF, LF] + Ascii("## ") + Wish(p, t, k).1 + [LF] + Wish(p, t, k).2
      == if k == 0 then Shown(Wanted(p, Ascii("summary")), "Earlier session summary", [], "", t.summary)
         else if k == 1 then Shown(Wanted(p, Ascii("original_prompt")), "Original user request", [], "", t.request)
         else if k == 2 then Shown(Wanted(p, Ascii("final")), "Previous final answer", [], "", t.final)
         else Shown(Wanted(p, target), "Previous ", target, " answer", t.answer)
  {
    hide Shown, Ascii, Wanted;
    PlainShown("Earlier session summary", t.summary);
    PlainShown("Original user request", t.request);
    PlainShown("Previous final answer", t.final);
    TargetShown(if p.targetAgent == [] then Ascii("programmer") else p.targetAgent, t.answer);
  }

  lemma Around(intro: Text, a: Text, b: Text, c: Text, d: Text, rest: Text, k: nat) returns (front: Text, back: Text)
    requires k < 4
    ensures intro + (a + b + c + d) + rest == front + (if k == 0 then a else if k == 1 then b else if k == 2 then c else d) + back
  {
    if k == 0 {
      front, back := intro, b + c + d + rest;
    } else if k == 1 {
      front, back := intro + a, c + d + rest;
    } else if k == 2 {
      front, back := intro + a + b, d + rest;
    } else {
      front, back := intro + a + b + c, rest;
    }
  }

  // ---- the flag ----

  lemma OverMore(before: seq<Part>, on: bool, part: Part)
    ensures AnyOver(With(before, on, part)) <==> AnyOver(before) || (on && |part.body| > part.budget)
  {
    if on {
      assert part in before + [part];
      assert forall q | q in before :: q in before + [part];
    }
  }

  lemma PartsOver(doc: Doc, p: Policy, t: Texts, max: nat)
    requires doc.runs != [] && Reads(doc, p, t)
    ensures var target := if p.targetAgent == [] then Ascii("programmer") else p.targetAgent;
      AnyOver(Parts(doc, p, max)) <==>
        || (Wanted(p, Ascii("summary")) && |t.summary| > max / 3)
        || (Wanted(p, Ascii("original_prompt")) && |t.request| > max / 5)
        || (Wanted(p, Ascii("final")) && |t.final| > max / 4)
        || (Wanted(p, target) && |t.answer| > max / 2)
  {
    hide Ascii, AnswerOf, AnyOver, With, TargetTitle;
    AnswerIs(doc, p, t);
    var latest := Latest(doc);
    NothingOver();
    var summary := Part(SUMMARY_TITLE, doc.summary, max / 3);
    var one := With([], Includes(p, SUMMARY) && doc.summary != [], summary);
    var original := Part(ORIGINAL_TITLE, doc.runs[0].prompt, max / 5);
    var two := With(one, Includes(p, ORIGINAL), original);
    var final := Part(FINAL_TITLE, FinalText(latest), max / 4);
    OverMore([], Includes(p, SUMMARY) && doc.summary != [], summary);
    OverMore(one, Includes(p, ORIGINAL), original);
    OverMore(two, Includes(p, FINAL), final);
    match AnswerOf(latest.agents, Target(p))
    case None =>
    case Some(answer) =>
      OverMore(With(two, Includes(p, FINAL), final), Includes(p, Target(p)), Part(TargetTitle(p), answer, max / 2));
  }

  lemma NothingOver()
    ensures !AnyOver([])
  {
  }

  /** The flag goes up exactly when the prompt had to be refitted, a wanted text is over its share of the
      budget, or another agent's answer is over 900 bytes. */
  lemma UsedIff(docs: map<Text, Doc>, sessionId: Text, followup: Text, p: Policy, t: Texts)
    requires MaxChars(p) >= 0 && Known(docs, sessionId) && Reads(docs[sessionId], p, t)
    ensures var doc, max := docs[sessionId], MaxChars(p);
      var target := if p.targetAgent == [] then Ascii("programmer") else p.targetAgent;
      var notes := Notes(ByName(Latest(doc).agents), Target(p));
      ContinuationFor(docs, sessionId, followup, p).used <==>
        || |Laid(p, t, Cut, notes, followup)| > max
        || (Wanted(p, Ascii("summary")) && |t.summary| > max / 3)
        || (Wanted(p, Ascii("original_prompt")) && |t.request| > max / 5)
        || (Wanted(p, Ascii("final")) && |t.final| > max / 4)
        || (Wanted(p, target) && |t.answer| > max / 2)
        || (exists e | e in Latest(doc).agents :: e.name != target && |e.text| > 900)
  {
    hide MaxChars, Reads, Laid, Assembled, Notes, ByName, Parts, AnyOver, Ascii, Wanted, Refitted;
    var doc := docs[sessionId];
    AssembledIsLaid(doc, p, t, followup, true);
    PartsOver(doc, p, t, MaxChars(p));
    forall e: Entry ensures e in Latest(doc).agents <==> e in ByName(Latest(doc).agents) {
      SameAgents(Latest(doc).agents, e);
    }
  }

  /** Used or not, the prompt is the texts cut to their shares, or, when that is over the budget, head and
      tail of it with the follow-up once more, which may take a quarter of the budget. */
  lemma PromptIsLaidOut(docs: map<Text, Doc>, sessionId: Text, followup: Text, p: Policy, t: Texts) returns (notes: Text)
    requires MaxChars(p) >= 0 && Known(docs, sessionId) && Reads(docs[sessionId], p, t)
    ensures var max, laid := MaxChars(p), Laid(p, t, Cut, notes, followup);
      var quarter := if |followup| < max / 4 then |followup| else max / 4;
      ContinuationFor(docs, sessionId, followup, p).prompt
        == if |laid| <= max then laid
           else TrimBlock(laid, max - quarter) + ([LF, LF] + Ascii("## ") + Ascii("User follow-up") + [LF])
                + TrimBlock(followup, quarter)
  {
    hide MaxChars, Reads, Laid, Assembled, Notes, ByName, Parts, AnyOver, AnyLong, TrimBlock, Target, Ascii;
    var doc := docs[sessionId];
    notes := Notes(ByName(Latest(doc).agents), Target(p));
    AssembledIsLaid(doc, p, t, followup, true);
  }
}
