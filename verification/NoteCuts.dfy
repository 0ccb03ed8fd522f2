/** The notes of other agents in a continuation prompt (internal/session/context.go, text.go): exactly
    when one is written whole, and that the compaction flag does not tell. */
module NoteCuts {
  import opened Wrappers
  import opened Bytes
  import opened Utf8
  import opened Importance
  import opened SessionText
  import opened Sorting
  import opened Compaction
  import opened SessionStore
  import opened Continuation
  import opened ContinuationBounds

  // ---- where the first lines end ----

  lemma {:induction false} NewlinesGrow(s: Text, j: nat)
    requires j <= |s|
    ensures Newlines(s[..j]) <= Newlines(s)
  {
    if j == |s| {
      assert s[..j] == s;
    } else {
      assert s[..|s| - 1][..j] == s[..j];
      NewlinesGrow(s[..|s| - 1], j);
    }
  }

  /** A prefix with `n` newlines ends in one. */
  lemma {:induction false} NewlineReached(s: Text, n: nat) returns (j: nat)
    requires 0 < n <= Newlines(s)
    ensures 0 < j <= |s| && s[j - 1] == LF && Newlines(s[..j]) >= n
  {
    var init := s[..|s| - 1];
    if Newlines(init) >= n {
      j := NewlineReached(init, n);
      assert s[..j] == init[..j];
    } else {
      j := |s|;
      assert s[..j] == s;
    }
  }

  /** The copy goes on in front of place `c`: it has room there, and no last line ends before. */
  predicate GoesOnTo(s: Text, c: nat, maxLines: nat, maxChars: nat)
    requires c <= |s|
  {
    c <= maxChars && (c == 0 || Newlines(s[..c - 1]) < maxLines)
  }

  lemma NoEarlierCut(s: Text, c: nat, maxLines: nat, maxChars: nat)
    requires c <= |s| && maxLines > 0 && GoesOnTo(s, c, maxLines, maxChars)
    ensures forall j | 0 <= j < c :: !LineCutAt(s, j, maxLines, maxChars)
  {
    forall j | 0 <= j < c ensures !LineCutAt(s, j, maxLines, maxChars) {
      NewlinesGrow(s[..c - 1], j);
      assert s[..c - 1][..j] == s[..j];
    }
  }

  lemma EarlierCut(s: Text, c: nat, maxLines: nat, maxChars: nat) returns (j: nat)
    requires c <= |s| && maxLines > 0 && !GoesOnTo(s, c, maxLines, maxChars)
    ensures j < c && LineCutAt(s, j, maxLines, maxChars)
  {
    if c > maxChars {
      j := maxChars;
    } else {
      j := NewlineReached(s[..c - 1], maxLines);
      assert s[..c - 1][..j] == s[..j];
    }
  }

  /** The copy ends at `c` exactly when it goes on to there and no further. */
  lemma LineCutIsAt(s: Text, c: nat, maxLines: nat, maxChars: nat)
    requires c <= |s| && maxLines > 0
    ensures LineCut(s, 0, maxLines, maxChars) == c
      <==> LineCutAt(s, c, maxLines, maxChars) && GoesOnTo(s, c, maxLines, maxChars)
  {
    hide LineCutAt, GoesOnTo;
    if GoesOnTo(s, c, maxLines, maxChars) {
      NoEarlierCut(s, c, maxLines, maxChars);
    } else {
      var j := EarlierCut(s, c, maxLines, maxChars);
    }
  }

  // ---- when the first lines are the text ----

  lemma FloorAtLineFeed(s: Text, k: nat)
    requires WellFormed(s) && k <= |s| && Floor(s, k) < |s| && s[Floor(s, k)] == LF
    ensures Floor(s, k) == k
  {
    hide WellFormed;
    var f := Floor(s, k);
    BoundariesAreDense(s, k);
    BoundarySplits(s, f);
    RuneEndsAtBoundary(s[f..]);
    assert RuneLen(s[f..]) == 1;
    assert f + 1 < |s| ==> s[f..][1] == s[f + 1];
    assert Boundary(s, f + 1);
  }

  /** Only well-formed text can come through whole, and it does so exactly when the copy takes all of
      it or leaves off just what the marker puts back. */
  lemma FirstLinesWholeIff(s: Text, maxLines: nat, maxChars: nat)
    ensures var k := LineCut(s, 0, maxLines, maxChars);
      FirstLinesOf(s, maxLines, maxChars) == s <==> WellFormed(s) && (k == |s| || s[k..] == LINES_MARKER)
  {
    hide WellFormed, ToValid, LineCut, Floor;
    hide LINES_MARKER;
    var k := LineCut(s, 0, maxLines, maxChars);
    FirstLinesBound(s, maxLines, maxChars);
    if WellFormed(s) && k < |s| {
      CutHead(s, k);
      var f := Floor(s, k);
      MarkerOpens();
      if s[..f] + LINES_MARKER == s {
        assert s[f..] == LINES_MARKER;
        FloorAtLineFeed(s, k);
      }
      if s[k..] == LINES_MARKER {
        BoundaryIsFloor(s, k);
        assert s == s[..k] + s[k..];
      }
    }
  }

  lemma MarkerOpens()
    ensures |LINES_MARKER| > 0 && LINES_MARKER[0] == LF
  {
  }

  lemma BoundaryIsFloor(s: Text, k: nat)
    requires k < |s| && s[k..] == LINES_MARKER
    ensures Floor(s, k) == k
  {
    MarkerOpens();
    assert s[k] == s[k..][0];
  }

  /** The text is short and no line ends after the last one allowed. */
  predicate Uncut(text: Text) {
    |text| <= NOTE_CHARS && (text == [] || Newlines(text[..|text| - 1]) < NOTE_LINES)
  }

  /** The text ends in the very marker, just where the note is cut off. */
  predicate EndsAsCut(text: Text) {
    var c := |text| - |LINES_MARKER|;
    && c >= 0 && text[c..] == LINES_MARKER
    && ((0 < c <= NOTE_CHARS && text[c - 1] == LF && Newlines(text[..c]) == NOTE_LINES)
        || (c == NOTE_CHARS && Newlines(text[..c]) < NOTE_LINES))
  }

  lemma NewlinesLast(s: Text, c: nat)
    requires 0 < c <= |s|
    ensures Newlines(s[..c]) == Newlines(s[..c - 1]) + if s[c - 1] == LF then 1 else 0
  {
    assert s[..c][..c - 1] == s[..c - 1];
  }

  /** A note is the agent's text exactly when the text is well-formed and either is not cut or ends as
      the cut leaves it. */
  lemma NoteIsWholeIff(text: Text)
    ensures FirstLinesOf(text, NOTE_LINES, NOTE_CHARS) == text
      <==> WellFormed(text) && (Uncut(text) || EndsAsCut(text))
  {
    hide WellFormed, LineCut, FirstLinesOf, Newlines;
    hide LINES_MARKER;
    FirstLinesWholeIff(text, NOTE_LINES, NOTE_CHARS);
    LineCutIsAt(text, |text|, NOTE_LINES, NOTE_CHARS);
    var k := LineCut(text, 0, NOTE_LINES, NOTE_CHARS);
    var c := |text| - |LINES_MARKER|;
    MarkerOpens();
    if c >= 0 {
      LineCutIsAt(text, c, NOTE_LINES, NOTE_CHARS);
      if c > 0 {
        NewlinesLast(text, c);
      }
      assert text[..0] == [] && Newlines([]) == 0 by {
        NoNewlines();
      }
    }
  }

  lemma NoNewlines()
    ensures Newlines([]) == 0
  {
  }

  // ---- the notes of a prompt ----

  ghost predicate Other(e: Entry, doc: Doc, p: Policy)
    requires doc.runs != []
  {
    e in Latest(doc).agents && e.name != Target(p)
  }

  /** Every other agent of the latest run is noted with its whole answer. */
  ghost predicate NotesWhole(doc: Doc, p: Policy)
    requires doc.runs != []
  {
    forall e | Other(e, doc, p) :: FirstLinesOf(e.text, NOTE_LINES, NOTE_CHARS) == e.text
  }

  /** An unused flag promises that nothing was cut. Of the notes of other agents that is true exactly
      when they are well-formed and have no line after the third, or end as the cut leaves them. */
  lemma UnusedMeansWholeNotesIff(docs: map<Text, Doc>, sessionId: Text, followup: Text, p: Policy)
    requires MaxChars(p) >= 0 && Known(docs, sessionId)
    requires !ContinuationFor(docs, sessionId, followup, p).used
    ensures var doc := docs[sessionId];
      && (forall e | Other(e, doc, p) :: |e.text| <= NOTE_CHARS)
      && (NotesWhole(doc, p) <==> forall e | Other(e, doc, p) :: WellFormed(e.text) && (Uncut(e.text) || EndsAsCut(e.text)))
  {
    hide MaxChars, Assembled, Parts, AnyOver, FirstLinesOf, WellFormed, Uncut, EndsAsCut, ByName, Target;
    var doc := docs[sessionId];
    forall e | Other(e, doc, p) ensures |e.text| <= NOTE_CHARS {
      SameAgents(Latest(doc).agents, e);
    }
    forall e: Entry
      ensures FirstLinesOf(e.text, NOTE_LINES, NOTE_CHARS) == e.text
        <==> WellFormed(e.text) && (Uncut(e.text) || EndsAsCut(e.text))
    {
      NoteIsWholeIff(e.text);
    }
  }

  lemma SameAgents(agents: seq<Entry>, e: Entry)
    ensures e in agents <==> e in ByName(agents)
  {
    StableSortIsPermutation(agents, NameLess);
    assert e in agents <==> e in multiset(agents);
    assert e in ByName(agents) <==> e in multiset(ByName(agents));
  }

  lemma {:induction false} NotesSplit(es: seq<Entry>, target: Text, e: Entry) returns (front: Text, back: Text)
    requires e in es
    ensures Notes(es, target) == front + Note(e, target) + back
  {
    hide Note;
    var init, last := es[..|es| - 1], es[|es| - 1];
    if e == last {
      front, back := Notes(init, target), [];
    } else {
      front, back := NotesSplit(init, target, e);
      Regroup(front + Note(e, target), back, Note(last, target));
      back := back + Note(last, target);
    }
  }

  lemma UnusedIsAssembled(docs: map<Text, Doc>, sessionId: Text, followup: Text, p: Policy)
    requires MaxChars(p) >= 0 && Known(docs, sessionId)
    requires !ContinuationFor(docs, sessionId, followup, p).used
    ensures ContinuationFor(docs, sessionId, followup, p).prompt
      == Assembled(docs[sessionId], p, followup, MaxChars(p), true)
  {
    hide MaxChars, Assembled, Refitted, Parts, AnyOver, AnyLong, ByName, Target;
  }

  /** With the flag unused the prompt has the note of every other agent in it: the agent's name and the
      first lines of its answer. */
  lemma NoteInPrompt(docs: map<Text, Doc>, sessionId: Text, followup: Text, p: Policy, e: Entry)
      returns (front: Text, back: Text)
    requires MaxChars(p) >= 0 && Known(docs, sessionId) && Other(e, docs[sessionId], p)
    requires !ContinuationFor(docs, sessionId, followup, p).used
    ensures ContinuationFor(docs, sessionId, followup, p).prompt
      == front + (Ascii("- ") + e.name + Ascii(": ") + FirstLinesOf(e.text, NOTE_LINES, NOTE_CHARS) + [LF]) + back
  {
    UnusedIsAssembled(docs, sessionId, followup, p);
    hide MaxChars, ContinuationFor, Assembled, Parts, FirstLinesOf, ByName, Target, Rendered, Notes, Section, Ascii, Note;
    hide INTRO, OUTRO, NOTES, FOLLOWUP;
    var doc, max := docs[sessionId], MaxChars(p);
    SameAgents(Latest(doc).agents, e);
    AssembledIs(doc, p, followup, max, true);
    NoteIs(e, Target(p));
    var f, b := NotesSplit(ByName(Latest(doc).agents), Target(p), e);
    front, back := Inside(INTRO + Rendered(Parts(doc, p, max), true), f, Note(e, Target(p)), b, Section(FOLLOWUP, followup) + OUTRO);
  }

  lemma NoteIs(e: Entry, target: Text)
    requires e.name != target
    ensures var note := Note(e, target);
      note != [] && note == Ascii("- ") + e.name + Ascii(": ") + FirstLinesOf(e.text, NOTE_LINES, NOTE_CHARS) + [LF]
  {
  }

  lemma Inside(lead: Text, f: Text, note: Text, b: Text, end: Text) returns (front: Text, back: Text)
    requires note != []
    ensures lead + (Section(NOTES, f + note + b) + end) == front + note + back
  {
    hide Heading;
    var heading := Heading(NOTES);
    front, back := lead + heading + f, b + end;
    Regroup(lead, heading + (f + note + b), end);
    Regroup(heading, f + note, b);
    Regroup(heading, f, note);
    Regroup(lead, heading + f + note + b, end);
    Regroup(lead, heading + f + note, b);
    Regroup(lead, heading + f, note);
    Regroup(lead, heading, f);
    Regroup(lead + heading + f + note, b, end);
  }

  // ---- a cut that goes unreported ----

  /** Three empty lines and a letter. */
  const FOUR_LINES: Text := [LF, LF, LF, 97]

  function CriticSession(id: Text, prompt: Text): Doc {
    Doc([Run(id, prompt, [Entry(Ascii("critic"), FOUR_LINES)], None)], [])
  }

  lemma FourLinesAreCut()
    ensures FirstLinesOf(FOUR_LINES, NOTE_LINES, NOTE_CHARS) == [LF, LF, LF] + LINES_MARKER
    ensures [LF, LF, LF] + LINES_MARKER != FOUR_LINES
  {
    hide LineCut, ToValid, Newlines;
    hide LINES_MARKER;
    var s := FOUR_LINES;
    assert s[..0] == [] && s[..3] == [LF, LF, LF];
    NoNewlines();
    NewlinesLast(s, 1);
    NewlinesLast(s, 2);
    NewlinesLast(s, 3);
    LineCutIsAt(s, 3, NOTE_LINES, NOTE_CHARS);
    assert LineCut(s, 0, NOTE_LINES, NOTE_CHARS) == 3;
    AsciiWellFormed(s[..3]);
    ToValidIsWellFormed(s[..3]);
    assert FirstLinesOf(s, NOTE_LINES, NOTE_CHARS) == ToValid(s[..3]) + LINES_MARKER;
    MarkerIsLong();
  }

  lemma MarkerIsLong()
    ensures |LINES_MARKER| > 1
  {
  }

  lemma OneAgent(e: Entry)
    ensures ByName([e]) == [e]
  {
    StableSortIsPermutation([e], NameLess);
    var sorted := ByName([e]);
    assert |multiset(sorted)| == |multiset([e])| == 1;
    assert sorted[0] in multiset(sorted);
  }

  lemma FixedTexts()
    ensures |INTRO| <= 200 && |OUTRO| <= 200 && |Heading(NOTES)| <= 50 && |Heading(FOLLOWUP)| <= 50
    ensures |LINES_MARKER| <= 50 && PROGRAMMER != Ascii("critic")
  {
    assert Ascii("critic")[0] == 99 && PROGRAMMER[0] == 112;
  }

  lemma CriticPromptFits(id: Text, prompt: Text, followup: Text)
    requires |followup| <= 20000
    ensures var doc, p := CriticSession(id, prompt), Policy(0, None, [], Some([]));
      && Other(Latest(doc).agents[0], doc, p)
      && Parts(doc, p, DEFAULT_CONTEXT_CHARS) == [] && !AnyLong(ByName(Latest(doc).agents), Target(p))
      && |Assembled(doc, p, followup, DEFAULT_CONTEXT_CHARS, true)| <= DEFAULT_CONTEXT_CHARS
  {
    var doc, p := CriticSession(id, prompt), Policy(0, None, [], Some([]));
    var e := Entry(Ascii("critic"), FOUR_LINES);
    FixedTexts();
    OneAgent(e);
    CriticNote();
    hide Heading, FirstLinesOf, ByName, Notes, Ascii;
    hide INTRO, OUTRO, LINES_MARKER, NOTES, FOLLOWUP, PROGRAMMER;
  }

  lemma CriticNote()
    ensures |Notes([Entry(Ascii("critic"), FOUR_LINES)], PROGRAMMER)| <= 100
  {
    hide Heading, FirstLinesOf, ByName, Notes, Note, Ascii;
    hide INTRO, OUTRO, LINES_MARKER, NOTES, FOLLOWUP, PROGRAMMER;
    var e := Entry(Ascii("critic"), FOUR_LINES);
    FixedTexts();
    FourLinesAreCut();
    OneNote(e, PROGRAMMER);
    NoteIs(e, PROGRAMMER);
    assert |Ascii("- ")| == 2 && |Ascii(": ")| == 2 && |Ascii("critic")| == 6;
    assert |Note(e, PROGRAMMER)| <= 100;
  }

  lemma OneNote(e: Entry, target: Text)
    ensures Notes([e], target) == Note(e, target)
  {
    hide Note;
    assert [e][..0] == [];
    assert [] + Note(e, target) == Note(e, target);
  }

  /** A session whose only other agent answered in four lines: its note is cut, and the flag says that
      nothing was. */
  lemma CutNoteGoesUnreported(sessionId: Text, id: Text, prompt: Text, followup: Text) returns (front: Text, back: Text)
    requires |followup| <= 20000
    ensures var c := ContinuationFor(map[sessionId := CriticSession(id, prompt)], sessionId, followup, Policy(0, None, [], Some([])));
      && !c.used
      && c.prompt == front + (Ascii("- ") + Ascii("critic") + Ascii(": ") + ([LF, LF, LF] + LINES_MARKER) + [LF]) + back
  {
    hide Assembled, Parts, AnyLong, ByName, FirstLinesOf;
    hide LINES_MARKER, FOUR_LINES;
    var p, doc := Policy(0, None, [], Some([])), CriticSession(id, prompt);
    var docs := map[sessionId := doc];
    FourLinesAreCut();
    assert Known(docs, sessionId) && MaxChars(p) == DEFAULT_CONTEXT_CHARS;
    CriticPromptFits(id, prompt, followup);
    front, back := NoteInPrompt(docs, sessionId, followup, p, Latest(doc).agents[0]);
  }
}
