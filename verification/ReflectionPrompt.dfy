/** What reflection asks and what it keeps (internal/reflect/reflect.go, pass.go): every episode of a
    window stands in the prompt, and every valid lesson of the answer goes to the sink. */
module ReflectionPrompt {
  import opened Wrappers
  import opened Bytes
  import opened Cursor
  import opened Reflection
  import opened ReflectionScheduler
  import opened ReflectionRuns

  // ---- the prompt ----

  /** The part of the prompt for the episode at place `i`: its number, its digest and a blank line. */
  function EpisodePart(i: nat, digest: Text): Text {
    Ascii("## Episode ") + Decimal(i + 1) + [LF] + digest + BLANK_LINE
  }

  function Parts(eps: seq<Row>, maxChars: int, seams: Seams): (parts: seq<Text>)
    ensures |parts| == |eps|
  {
    seq(|eps|, i requires 0 <= i < |eps| => EpisodePart(i, seams.salient(eps[i], if maxChars <= 0 then 800 else maxChars)))
  }

  /** The prompt is the parts of its episodes in order, and nothing else. */
  lemma {:induction false} PromptIsItsParts(eps: seq<Row>, maxChars: int, seams: Seams)
    ensures Prompt(eps, maxChars, seams) == Concat(Parts(eps, maxChars, seams))
  {
    hide Concat, Ascii, Decimal;
    if eps == [] {
      ConcatCons([]);
    } else {
      var n := |eps| - 1;
      var parts := Parts(eps, maxChars, seams);
      PromptIsItsParts(eps[..n], maxChars, seams);
      assert parts[..n] == Parts(eps[..n], maxChars, seams);
      assert parts == parts[..n] + [parts[n]];
      ConcatAppend(parts[..n], [parts[n]]);
      ConcatOne(parts[n]);
      PartBehind(Prompt(eps[..n], maxChars, seams), n, seams.salient(eps[n], if maxChars <= 0 then 800 else maxChars));
    }
  }

  lemma PartBehind(front: Text, n: nat, digest: Text)
    ensures front + Ascii("## Episode ") + Decimal(n + 1) + [LF] + digest + BLANK_LINE == front + EpisodePart(n, digest)
  {
    hide Ascii, Decimal;
    Regroup(front, Ascii("## Episode ") + Decimal(n + 1) + [LF] + digest, BLANK_LINE);
    Regroup(front, Ascii("## Episode ") + Decimal(n + 1) + [LF], digest);
    Regroup(front, Ascii("## Episode ") + Decimal(n + 1), [LF]);
    Regroup(front, Ascii("## Episode "), Decimal(n + 1));
  }

  /** Every episode's digest stands in the prompt under its own number, behind the parts of the episodes
      before it and in front of the parts of those after it. */
  lemma EpisodeStands(eps: seq<Row>, i: nat, maxChars: int, seams: Seams) returns (front: Text, back: Text)
    requires i < |eps|
    ensures Prompt(eps, maxChars, seams) == front
      + (Ascii("## Episode ") + Decimal(i + 1) + [LF] + seams.salient(eps[i], if maxChars <= 0 then 800 else maxChars) + BLANK_LINE)
      + back
    ensures front == Concat(Parts(eps, maxChars, seams)[..i]) && back == Concat(Parts(eps, maxChars, seams)[i + 1..])
  {
    hide Concat, Ascii, Decimal, Prompt;
    var parts := Parts(eps, maxChars, seams);
    PromptIsItsParts(eps, maxChars, seams);
    front, back := Concat(parts[..i]), Concat(parts[i + 1..]);
    assert parts == parts[..i] + ([parts[i]] + parts[i + 1..]);
    ConcatAppend(parts[..i], [parts[i]] + parts[i + 1..]);
    ConcatAppend([parts[i]], parts[i + 1..]);
    ConcatOne(parts[i]);
    Regroup(front, parts[i], back);
  }

  // ---- the episodes of a window ----

  /** The rows that are not reflection records, counted. */
  lemma {:induction false} EpisodesCount(rows: seq<Row>)
    ensures |Episodes(rows)| == |set k: nat | k < |rows| && Source(rows[k]) != Ascii("reflection")|
  {
    hide Ascii, Source;
    if rows != [] {
      var n := |rows| - 1;
      EpisodesCount(rows[..n]);
      var here := set k: nat | k < |rows| && Source(rows[k]) != REFLECTION;
      var before := set k: nat | k < n && Source(rows[..n][k]) != REFLECTION;
      assert here == before + if Source(rows[n]) != REFLECTION then {n} else {};
    }
  }

  /** Each of them is at the place its predecessors leave for it. */
  lemma {:induction false} EpisodeAt(rows: seq<Row>, k: nat)
    requires k < |rows| && Source(rows[k]) != REFLECTION
    ensures var i := |Episodes(rows[..k])|; i < |Episodes(rows)| && Episodes(rows)[i] == rows[k]
  {
    hide Source;
    var n := |rows| - 1;
    if k < n {
      EpisodeAt(rows[..n], k);
      assert rows[..n][..k] == rows[..k];
    }
  }

  /** The cap keeps the most recent episodes, as many as it allows. */
  lemma CapKeepsLatest(eps: seq<Row>, cap: int)
    ensures var kept := Capped(eps, cap);
      && |kept| == (if 0 < cap < |eps| then cap else |eps|)
      && forall i | 0 <= i < |kept| :: kept[i] == eps[|eps| - |kept| + i]
  {
  }

  // ---- what a tick asks ----

  lemma {:induction false} PromptsAre(ws: seq<Window>, maxChars: int, seams: Seams)
    ensures |Prompts(ws, maxChars, seams)| == |ws|
    ensures forall k | 0 <= k < |ws| :: Prompts(ws, maxChars, seams)[k] == Prompt(ws[k].sent, maxChars, seams)
  {
    hide Prompt;
    if ws != [] {
      PromptsAre(ws[..|ws| - 1], maxChars, seams);
    }
  }

  lemma TickWindow(s: State, readable: bool, answer: Answer, write: Write, cap: int)
    requires s.phase.Idle? && s.windows == [] && s.cursor <= |s.log|
    ensures var loaded := LoadedFrom(s.cursor, readable);
      var eps := Episodes(s.log[loaded..]);
      var ws := Ticked(s, readable, answer, write, cap).windows;
      if eps == [] then ws == [] else |ws| == 1 && ws[0].sent == Capped(eps, cap)
  {
    hide Episodes, Capped, Overflow, Saved, OfferedBy, ResultOf;
  }

  /** A tick asks about every row it reads that is not a reflection record, as far as the cap allows: the
      one text it sends has the row's digest under the number of its place among them. */
  lemma TickAsksAbout(s: State, readable: bool, answer: Answer, write: Write, cap: int, maxChars: int, seams: Seams, k: nat)
      returns (front: Text, back: Text, n: nat)
    requires s.phase.Idle? && s.windows == [] && s.cursor <= |s.log|
    requires LoadedFrom(s.cursor, readable) <= k < |s.log| && Source(s.log[k]) != REFLECTION
    requires cap <= 0 || |Episodes(s.log[k..])| <= cap
    ensures Prompts(Ticked(s, readable, answer, write, cap).windows, maxChars, seams)
      == [front + (Ascii("## Episode ") + Decimal(n) + [LF]
                   + seams.salient(s.log[k], if maxChars <= 0 then 800 else maxChars) + BLANK_LINE) + back]
    ensures var before := |Episodes(s.log[LoadedFrom(s.cursor, readable)..k])|;
      cap <= 0 ==> n == before + 1
  {
    hide Episodes, Source, Prompt, Prompts, Ticked, Capped, Ascii, Decimal;
    var loaded := LoadedFrom(s.cursor, readable);
    var rows := s.log[loaded..];
    var eps := Episodes(rows);
    EpisodeAt(rows, k - loaded);
    assert rows[..k - loaded] == s.log[loaded..k] && rows[k - loaded] == s.log[k];
    assert s.log[loaded..|s.log|] == rows && s.log[k..|s.log|] == s.log[k..];
    EpisodesSplit(s.log, loaded, k, |s.log|);
    var i := |Episodes(s.log[loaded..k])|;
    TickWindow(s, readable, answer, write, cap);
    CapKeepsLatest(eps, cap);
    var kept := Capped(eps, cap);
    var at := i - (|eps| - |kept|);
    assert 0 <= at < |kept| && kept[at] == s.log[k];
    front, back := EpisodeStands(kept, at, maxChars, seams);
    n := at + 1;
    PromptsAre(Ticked(s, readable, answer, write, cap).windows, maxChars, seams);
  }

  /** Over every run with the cap off, whatever fails: of each row below the saved cursor that is not a
      reflection record, the digest stands in a text the completer was sent. */
  lemma EveryDigestIsAsked(log0: seq<Row>, c0: nat, steps: seq<Step>, cap: int, maxChars: int, seams: Seams, k: nat)
      returns (w: nat, i: nat, front: Text, back: Text)
    requires c0 <= |log0| && cap <= 0
    requires var s := Run(Start(log0, c0), steps, cap);
      c0 <= k < s.cursor && k < |s.log| && Source(s.log[k]) != REFLECTION
    ensures var s := Run(Start(log0, c0), steps, cap);
      && w < |Prompts(s.windows, maxChars, seams)|
      && Prompts(s.windows, maxChars, seams)[w]
        == front + (Ascii("## Episode ") + Decimal(i + 1) + [LF]
                    + seams.salient(s.log[k], if maxChars <= 0 then 800 else maxChars) + BLANK_LINE) + back
  {
    hide Episodes, Source, Prompt, Prompts, Run, Ascii, Decimal;
    NoEpisodeIsMissed(log0, c0, steps, cap, k);
    var s := Run(Start(log0, c0), steps, cap);
    var window :| window in s.windows && window.from <= k < window.next && s.log[k] in window.sent;
    w :| 0 <= w < |s.windows| && s.windows[w] == window;
    i :| 0 <= i < |window.sent| && window.sent[i] == s.log[k];
    front, back := EpisodeStands(window.sent, i, maxChars, seams);
    PromptsAre(s.windows, maxChars, seams);
  }

  // ---- the answer ----

  /** `[` and `]` inside the array do not matter: the decoder gets everything from the first opening to
      the last closing bracket, and there is nothing to decode without both in that order. */
  lemma ParsedPart(front: Text, mid: Text, back: Text, seams: Seams)
    requires (forall i | 0 <= i < |front| :: front[i] != 91) && forall i | 0 <= i < |back| :: back[i] != 93
    ensures ParseLessons(front + ([91] + mid + [93]) + back, seams) == seams.decode([91] + mid + [93])
  {
    hide Index, LastByte;
    var inner := [91] + mid + [93];
    var raw := front + inner + back;
    assert raw[|front|] == 91 && raw[|front| + |inner| - 1] == 93;
    assert OccursAt(raw, [91], |front|) by { assert raw[|front|..|front| + 1] == [raw[|front|]]; }
    forall j | 0 <= j < |front| ensures !OccursAt(raw, [91], j) {
      assert raw[j..j + 1] == [raw[j]] && raw[j] == front[j];
    }
    IndexIsFirst(raw, [91], |front|);
    assert forall j | |front| + |inner| <= j < |raw| :: raw[j] == back[j - |front| - |inner|];
    assert LastByte(raw, 93) == |front| + |inner| - 1;
    assert raw[|front|..|front| + |inner|] == inner;
  }

  lemma NothingToParse(raw: Text, seams: Seams)
    requires forall i, j | 0 <= i <= j < |raw| :: raw[i] != 91 || raw[j] != 93
    ensures ParseLessons(raw, seams) == None
  {
    hide Index, LastByte;
    var start, end := Index(raw, [91]), LastByte(raw, 93);
    if start >= 0 {
      assert raw[start..start + 1] == [raw[start]];
    }
  }

  ghost predicate Valid(l: Lesson) {
    l.kind in {Ascii("fact"), Ascii("preference"), Ascii("procedure")} && TrimSpace(l.text) != []
  }

  lemma ValidIs(l: Lesson)
    ensures ValidLesson(l) <==> Valid(l)
  {
    hide Ascii, TrimSpace;
  }

  function Clipped(l: Lesson): Lesson {
    Lesson(l.kind, TrimSpace(l.text), TrimSpace(l.id))
  }

  lemma LastIsOffered(lessons: seq<Lesson>)
    requires lessons != []
    ensures var n := |lessons| - 1;
      Offered(lessons) == Offered(lessons[..n]) + if Valid(lessons[n]) then [Clipped(lessons[n])] else []
  {
    hide Valid, ValidLesson, TrimSpace;
    ValidIs(lessons[|lessons| - 1]);
  }

  /** As many lessons are offered as are valid. */
  lemma {:induction false} ValidAreCounted(lessons: seq<Lesson>)
    ensures |Offered(lessons)| == |set k: nat | k < |lessons| && Valid(lessons[k])|
  {
    if lessons != [] {
      hide Valid, Offered, Clipped;
      var n := |lessons| - 1;
      ValidAreCounted(lessons[..n]);
      LastIsOffered(lessons);
      OneMoreValid(lessons);
    }
  }

  lemma OneMoreValid(lessons: seq<Lesson>)
    requires lessons != []
    ensures var n := |lessons| - 1;
      |set k: nat | k < |lessons| && Valid(lessons[k])|
        == |set k: nat | k < n && Valid(lessons[..n][k])| + if Valid(lessons[n]) then 1 else 0
  {
    hide Valid;
    var n := |lessons| - 1;
    var here := set k: nat | k < |lessons| && Valid(lessons[k]);
    var before := set k: nat | k < n && Valid(lessons[..n][k]);
    assert here == before + if Valid(lessons[n]) then {n} else {};
  }

  /** Every valid lesson is offered, trimmed, at the place the valid ones before it leave for it. */
  lemma {:induction false} ValidIsOffered(lessons: seq<Lesson>, k: nat)
    requires k < |lessons| && Valid(lessons[k])
    ensures var i := |Offered(lessons[..k])|;
      && i < |Offered(lessons)|
      && Offered(lessons)[i] == Lesson(lessons[k].kind, TrimSpace(lessons[k].text), TrimSpace(lessons[k].id))
  {
    hide Valid, Offered, TrimSpace;
    var n := |lessons| - 1;
    LastIsOffered(lessons);
    if k < n {
      ValidIsOffered(lessons[..n], k);
      assert lessons[..n][..k] == lessons[..k];
    }
  }

  /** As many lessons are counted as stored as calls of the sink went well. */
  lemma {:induction false} SuccessesCount(ok: nat -> bool, from: nat, n: nat)
    ensures Successes(ok, from, n) == |set j: nat | from <= j < from + n && ok(j)|
  {
    if n > 0 {
      SuccessesCount(ok, from, n - 1);
      OneMoreCall(ok, from, n);
    } else {
      assert (set j: nat | from <= j < from + n && ok(j)) == {};
    }
  }

  lemma OneMoreCall(ok: nat -> bool, from: nat, n: nat)
    requires n > 0
    ensures |set j: nat | from <= j < from + n && ok(j)|
      == |set j: nat | from <= j < from + n - 1 && ok(j)| + if ok(from + n - 1) then 1 else 0
  {
    var here := set j: nat | from <= j < from + n && ok(j);
    var before := set j: nat | from <= j < from + n - 1 && ok(j);
    assert here == before + if ok(from + n - 1) then {from + n - 1} else {};
  }

  /** A usable completion counts the episodes, the lessons proposed and the calls of the sink that went
      well; one that is blank, or has nothing to decode, counts nothing. */
  lemma OutcomeCounts(n: nat, raw: Text, seams: Seams, ok: nat -> bool, puts: nat)
    ensures TrimSpace(raw) == [] || ParseLessons(raw, seams) == None ==> Outcome(n, raw, seams, ok, puts) == None
    ensures forall ls | TrimSpace(raw) != [] && ParseLessons(raw, seams) == Some(ls) ::
      Outcome(n, raw, seams, ok, puts)
        == Some(Result(n, |ls|, |set j: nat | puts <= j < puts + |Offered(ls)| && ok(j)|))
  {
    hide TrimSpace, ParseLessons, Offered;
    forall ls | TrimSpace(raw) != [] && ParseLessons(raw, seams) == Some(ls)
      ensures Outcome(n, raw, seams, ok, puts)
        == Some(Result(n, |ls|, |set j: nat | puts <= j < puts + |Offered(ls)| && ok(j)|))
    {
      SuccessesCount(ok, puts, |Offered(ls)|);
    }
  }
}
