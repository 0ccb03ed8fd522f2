/** The prompt of a follow-up turn (internal/session/context.go): sections of earlier context, each
    trimmed to its share of a budget, refitted as a whole when they are still too long. */
module Continuation {
  import opened Wrappers
  import opened Bytes
  import opened Sorting
  import opened Importance
  import opened SessionText
  import opened Compaction
  import opened SessionStore

  /** What a caller may set; absent fields have defaults. */
  datatype Policy = Policy(contextTokens: int, contextChars: Option<int>, targetAgent: Text,
                           included: Option<seq<Text>>)

  datatype Continuation = Continuation(prompt: Text, used: bool)

  const CHARS_PER_TOKEN := 4
  const DEFAULT_CONTEXT_CHARS := 24000
  const NOTE_LINES := 3
  const NOTE_CHARS := 900

  const SUMMARY: Text := Ascii("summary")
  const ORIGINAL: Text := Ascii("original_prompt")
  const FINAL: Text := Ascii("final")
  const PROGRAMMER: Text := Ascii("programmer")
  const FOLLOWUP: Text := Ascii("User follow-up")
  const NOTES: Text := Ascii("Other previous agent notes")
  const SUMMARY_TITLE: Text := Ascii("Earlier session summary")
  const ORIGINAL_TITLE: Text := Ascii("Original user request")
  const FINAL_TITLE: Text := Ascii("Previous final answer")

  const INTRO: Text := Ascii("You are continuing an existing Matrix Swarm session. ")
    + Ascii("Use the prior context below, then answer the new follow-up. ")
    + Ascii("Do not restart from scratch unless the follow-up asks you to.") + [LF]

  const OUTRO: Text := BLANK_LINE
    + Ascii("Continue from the previous answer. Add concrete detail and preserve useful prior work.")

  /** `resolveCharBudget`: a token budget wins over a byte budget. */
  function MaxChars(p: Policy): int {
    if p.contextTokens > 0 then p.contextTokens * CHARS_PER_TOKEN
    else match p.contextChars case Some(n) => n case None => DEFAULT_CONTEXT_CHARS
  }

  function Target(p: Policy): Text {
    if p.targetAgent == [] then PROGRAMMER else p.targetAgent
  }

  predicate Includes(p: Policy, name: Text) {
    match p.included case None => true case Some(names) => name in names
  }

  // ---- specification ----

  function Heading(title: Text): Text {
    BLANK_LINE + Ascii("## ") + title + [LF]
  }

  /** `appendSection`: an empty body has no section. */
  function Section(title: Text, body: Text): Text {
    if body == [] then [] else Heading(title) + body
  }

  /** A section that is trimmed to a budget. */
  datatype Part = Part(title: Text, body: Text, budget: nat)

  function Rendered(parts: seq<Part>, trimmed: bool): Text {
    if parts == [] then []
    else
      var last := parts[|parts| - 1];
      Rendered(parts[..|parts| - 1], trimmed)
      + Section(last.title, if trimmed then TrimBlock(last.body, last.budget) else last.body)
  }

  predicate AnyOver(parts: seq<Part>) {
    exists part | part in parts :: |part.body| > part.budget
  }

  function AnswerOf(agents: seq<Entry>, name: Text): Option<Text> {
    if agents == [] then None else if agents[0].name == name then Some(agents[0].text) else AnswerOf(agents[1..], name)
  }

  function Latest(doc: Doc): Run
    requires doc.runs != []
  {
    doc.runs[|doc.runs| - 1]
  }

  /** `before`, followed by a part that is only there when `on`. */
  function With(before: seq<Part>, on: bool, part: Part): seq<Part> {
    if on then before + [part] else before
  }

  function FinalText(run: Run): Text {
    match run.final case None => [] case Some(f) => f
  }

  function TargetTitle(p: Policy): Text {
    Ascii("Previous ") + Target(p) + Ascii(" answer")
  }

  /** The trimmed sections, in the order they are written. */
  function Parts(doc: Doc, p: Policy, max: nat): seq<Part>
    requires doc.runs != []
  {
    var summary := With([], Includes(p, SUMMARY) && doc.summary != [], Part(SUMMARY_TITLE, doc.summary, max / 3));
    var original := With(summary, Includes(p, ORIGINAL), Part(ORIGINAL_TITLE, doc.runs[0].prompt, max / 5));
    var final := With(original, Includes(p, FINAL), Part(FINAL_TITLE, FinalText(Latest(doc)), max / 4));
    match AnswerOf(Latest(doc).agents, Target(p))
    case None => final
    case Some(answer) => With(final, Includes(p, Target(p)), Part(TargetTitle(p), answer, max / 2))
  }

  predicate NameLess(a: Entry, b: Entry) {
    LexLess(a.name, b.name)
  }

  function ByName(agents: seq<Entry>): seq<Entry> {
    StableSort(agents, NameLess)
  }

  /** The line of one other agent. */
  function Note(e: Entry, target: Text): Text {
    if e.name == target then []
    else Ascii("- ") + e.name + Ascii(": ") + FirstLinesOf(e.text, NOTE_LINES, NOTE_CHARS) + [LF]
  }

  function Notes(es: seq<Entry>, target: Text): Text {
    if es == [] then [] else Notes(es[..|es| - 1], target) + Note(es[|es| - 1], target)
  }

  predicate AnyLong(es: seq<Entry>, target: Text) {
    exists e | e in es :: e.name != target && |e.text| > NOTE_CHARS
  }

  /** Everything behind the trimmed sections. */
  function Rest(doc: Doc, p: Policy, followup: Text): Text
    requires doc.runs != []
  {
    Section(NOTES, Notes(ByName(Latest(doc).agents), Target(p))) + (Section(FOLLOWUP, followup) + OUTRO)
  }

  function Assembled(doc: Doc, p: Policy, followup: Text, max: nat, trimmed: bool): Text
    requires doc.runs != []
  {
    INTRO + Rendered(Parts(doc, p, max), trimmed) + Rest(doc, p, followup)
  }

  function FollowupBudget(followup: Text, max: nat): nat {
    if |followup| < max / 4 then |followup| else max / 4
  }

  function Refitted(built: Text, followup: Text, max: nat): Text {
    var budget := FollowupBudget(followup, max);
    TrimBlock(built, max - budget) + Heading(FOLLOWUP) + TrimBlock(followup, budget)
  }

  function Built(doc: Doc, p: Policy, followup: Text, max: nat): Continuation
    requires doc.runs != []
  {
    var built := Assembled(doc, p, followup, max, true);
    var cut := AnyOver(Parts(doc, p, max)) || AnyLong(ByName(Latest(doc).agents), Target(p));
    if |built| > max then Continuation(Refitted(built, followup, max), true) else Continuation(built, cut)
  }

  function ContinuationFor(docs: map<Text, Doc>, sessionId: Text, followup: Text, p: Policy): Continuation
    requires MaxChars(p) >= 0
  {
    if sessionId !in docs || docs[sessionId].runs == [] then Continuation(followup, false)
    else Built(docs[sessionId], p, followup, MaxChars(p))
  }

  // ---- the builder ----

  /** One trimmed section: what is written and whether the flag goes up. */
  method AppendTrimmed(b: Text, compacted: bool, ghost parts: seq<Part>, title: Text, body: Text, budget: nat)
    returns (b': Text, compacted': bool)
    requires b == INTRO + Rendered(parts, true) && compacted == AnyOver(parts)
    ensures var grown := parts + [Part(title, body, budget)];
      b' == INTRO + Rendered(grown, true) && compacted' == AnyOver(grown)
  {
    hide TrimBlock;
    ghost var part := Part(title, body, budget);
    compacted' := compacted || |body| > budget;
    var trimmed := TrimBlock(body, budget);
    b' := b;
    if trimmed != [] {
      b' := b' + (Heading(title) + trimmed);
    }
    assert (parts + [part])[..|parts|] == parts;
    assert part in parts + [part];
    Regroup(INTRO, Rendered(parts, true), Section(title, trimmed));
    assert b' == b + Section(title, trimmed);
  }

  method OtherNotes(agents: seq<Entry>, target: Text) returns (notes: Text, long: bool)
    ensures notes == Notes(ByName(agents), target) && long == AnyLong(ByName(agents), target)
  {
    hide FirstLinesOf, AnyLong, ByName, Notes, Ascii;
    var sorted := ByName(agents);
    notes, long := [], false;
    NoNotes(target);
    for i := 0 to |sorted|
      invariant notes == Notes(sorted[..i], target) && long == AnyLong(sorted[..i], target)
    {
      var e := sorted[i];
      assert sorted[..i + 1] == sorted[..i] + [e];
      OneMoreNote(sorted[..i], e, target);
      if e.name == target {
        assert notes + [] == notes;
        continue;
      }
      long := long || |e.text| > NOTE_CHARS;
      var lines := FirstLines(e.text, NOTE_LINES, NOTE_CHARS);
      notes := notes + (Ascii("- ") + e.name + Ascii(": ") + lines + [LF]);
    }
    assert sorted[..|sorted|] == sorted;
  }

  /** The part of `buildContinuation` that writes the trimmed sections. */
  method TrimmedSections(doc: Doc, p: Policy, maxChars: nat) returns (b: Text, compacted: bool)
    requires doc.runs != []
    ensures b == INTRO + Rendered(Parts(doc, p, maxChars), true)
    ensures compacted == AnyOver(Parts(doc, p, maxChars))
  {
    hide INTRO, Rendered, AnyOver, AnswerOf, FinalText, Includes, Target, TargetTitle;
    var prev := Latest(doc);
    NoParts();
    b, compacted := INTRO, false;
    ghost var parts: seq<Part> := [];
    if Includes(p, SUMMARY) && doc.summary != [] {
      b, compacted := AppendTrimmed(b, compacted, parts, SUMMARY_TITLE, doc.summary, maxChars / 3);
      parts := parts + [Part(SUMMARY_TITLE, doc.summary, maxChars / 3)];
    }
    if Includes(p, ORIGINAL) {
      b, compacted := AppendTrimmed(b, compacted, parts, ORIGINAL_TITLE, doc.runs[0].prompt, maxChars / 5);
      parts := parts + [Part(ORIGINAL_TITLE, doc.runs[0].prompt, maxChars / 5)];
    }
    if Includes(p, FINAL) {
      b, compacted := AppendTrimmed(b, compacted, parts, FINAL_TITLE, FinalText(prev), maxChars / 4);
      parts := parts + [Part(FINAL_TITLE, FinalText(prev), maxChars / 4)];
    }
    var answer := AnswerOf(prev.agents, Target(p));
    if Includes(p, Target(p)) && answer.Some? {
      b, compacted := AppendTrimmed(b, compacted, parts, TargetTitle(p), answer.value, maxChars / 2);
      parts := parts + [Part(TargetTitle(p), answer.value, maxChars / 2)];
    }
    assert parts == Parts(doc, p, maxChars);
  }

  /** `buildContinuation`. */
  method BuildContinuation(docs: map<Text, Doc>, sessionId: Text, followup: Text, p: Policy) returns (c: Continuation)
    requires MaxChars(p) >= 0
    ensures c == ContinuationFor(docs, sessionId, followup, p)
  {
    hide MaxChars, TrimBlock, Rendered, Parts, AnyOver, AnyLong, Notes, ByName, Section, Heading, Ascii;
    if sessionId !in docs || docs[sessionId].runs == [] {
      return Continuation(followup, false);
    }
    var doc := docs[sessionId];
    var maxChars := MaxChars(p);
    var b, compacted := TrimmedSections(doc, p, maxChars);
    var notes, long := OtherNotes(Latest(doc).agents, Target(p));
    compacted := compacted || long;
    b := b + (Section(NOTES, notes) + (Section(FOLLOWUP, followup) + OUTRO));
    if |b| > maxChars {
      var budget := maxChars / 4;
      if |followup| < budget {
        budget := |followup|;
      }
      b := TrimBlock(b, maxChars - budget) + Heading(FOLLOWUP) + TrimBlock(followup, budget);
      compacted := true;
    }
    return Continuation(b, compacted);
  }

  lemma NoNotes(target: Text)
    ensures !AnyLong([], target) && Notes([], target) == []
  {
  }

  lemma OneMoreNote(es: seq<Entry>, e: Entry, target: Text)
    ensures Notes(es + [e], target) == Notes(es, target) + Note(e, target)
    ensures AnyLong(es + [e], target) <==> AnyLong(es, target) || (e.name != target && |e.text| > NOTE_CHARS)
  {
    hide Note;
    assert (es + [e])[..|es|] == es;
    assert e in es + [e] && forall d | d in es :: d in es + [e];
  }

  lemma NoParts()
    ensures INTRO == INTRO + Rendered([], true) && !AnyOver([])
  {
  }
}
