/** The rolling extractive summary of a session (internal/session/summarize.go). */
module Summary {
  import opened Wrappers
  import opened Bytes
  import opened Sequences
  import opened Utf8
  import opened Sorting
  import opened Importance
  import opened SessionText
  import opened Compaction

  const SUMMARY_MAX_CHARS := 6000
  const RUN_DIGEST_MAX_CHARS := 600
  const BULLET: Text := [0xE2, 0x80, 0xA2, 32]
  const SUMMARY_MARKER: Text := Ascii("[...earlier summary compacted...]") + [LF]

  // ---- digests ----

  function Lookup(es: seq<Entry>, name: Text): Text {
    if es == [] then [] else if es[0].name == name then es[0].text else Lookup(es[1..], name)
  }

  function AskLine(run: Run, maxChars: nat): Text {
    if run.prompt == [] then []
    else BULLET + Ascii("ask: ") + FirstLinesOf(run.prompt, 1, maxChars / 3) + [LF]
  }

  function OutputLine(name: Text, outputs: seq<Entry>, maxChars: nat): Text {
    BULLET + (if name == FINAL_NAME then Ascii("final") else name) + Ascii(": ")
      + FirstLinesOf(Lookup(outputs, name), 2, maxChars / 2) + [LF]
  }

  /** Output lines are added, strongest first, until the digest is long enough. */
  function AddOutputs(b: Text, ranked: seq<Scored>, outputs: seq<Entry>, maxChars: nat): Text
    decreases ranked
  {
    if ranked == [] then b
    else
      var longer := b + OutputLine(ranked[0].name, outputs, maxChars);
      if |longer| >= maxChars then longer else AddOutputs(longer, ranked[1..], outputs, maxChars)
  }

  function DigestText(run: Run, maxChars: nat): Text {
    AddOutputs(AskLine(run, maxChars), Ranked(AgentOutputs(run)), AgentOutputs(run), maxChars)
  }

  function Digest(run: Run, maxChars: nat): Text {
    TrimSpace(TrimBlock(DigestText(run, maxChars), maxChars))
  }

  /** `digestRun`. */
  method DigestRun(run: Run, maxChars: nat) returns (d: Text)
    ensures d == Digest(run, maxChars)
  {
    hide FirstLinesOf, TrimBlock, TrimSpace, Ranked, AskLine, OutputLine, AgentOutputs;
    var b := AskLine(run, maxChars);
    var outputs := AgentOutputs(run);
    var ranked := Ranked(outputs);
    var n := 0;
    while n < |ranked|
      invariant 0 <= n <= |ranked|
      invariant AddOutputs(b, ranked[n..], outputs, maxChars) == DigestText(run, maxChars)
    {
      assert ranked[n..][1..] == ranked[n + 1..];
      b := b + OutputLine(ranked[n].name, outputs, maxChars);
      n := n + 1;
      if |b| >= maxChars {
        break;
      }
    }
    assert b == DigestText(run, maxChars);
    d := TrimSpace(TrimBlock(b, maxChars));
  }

  // ---- a run is its map of agents, not the order the map is visited in ----

  ghost predicate SameRun(a: Run, b: Run) {
    && a.id == b.id && a.prompt == b.prompt && a.final == b.final
    && multiset(a.agents) == multiset(b.agents)
    && DistinctNames(a.agents) && DistinctNames(b.agents)
  }

  lemma {:induction false} WithoutNameCounts(es: seq<Entry>, name: Text, e: Entry)
    ensures multiset(WithoutName(es, name))[e] == if e.name == name then 0 else multiset(es)[e]
  {
    if es != [] {
      WithoutNameCounts(es[1..], name, e);
      assert es == [es[0]] + es[1..];
    }
  }

  lemma {:induction false} WithoutNameIsPart(es: seq<Entry>, name: Text)
    ensures forall e | e in WithoutName(es, name) :: e in es && e.name != name
  {
    if es != [] {
      WithoutNameIsPart(es[1..], name);
      assert es == [es[0]] + es[1..];
    }
  }

  lemma {:induction false} WithoutNameDistinct(es: seq<Entry>, name: Text)
    requires DistinctNames(es)
    ensures DistinctNames(WithoutName(es, name))
  {
    if es != [] {
      WithoutNameDistinct(es[1..], name);
      WithoutNameIsPart(es[1..], name);
      forall e | e in WithoutName(es[1..], name) ensures e.name != es[0].name {
        var k :| 0 <= k < |es[1..]| && es[1..][k] == e;
        assert es[k + 1] == e;
      }
    }
  }

  lemma WithoutNamePermutes(a: seq<Entry>, b: seq<Entry>, name: Text)
    requires multiset(a) == multiset(b)
    ensures multiset(WithoutName(a, name)) == multiset(WithoutName(b, name))
  {
    forall e ensures multiset(WithoutName(a, name))[e] == multiset(WithoutName(b, name))[e] {
      WithoutNameCounts(a, name, e);
      WithoutNameCounts(b, name, e);
    }
  }

  lemma FinalOutputsDistinct(es: seq<Entry>, name: Text, text: Text)
    requires DistinctNames(es)
    ensures DistinctNames(WithoutName(es, name) + [Entry(name, text)])
  {
    WithoutNameDistinct(es, name);
    WithoutNameIsPart(es, name);
    var others := WithoutName(es, name);
    assert forall i | 0 <= i < |others| :: others[i] in others;
  }

  lemma OutputsPermute(a: Run, b: Run)
    requires SameRun(a, b)
    ensures multiset(AgentOutputs(a)) == multiset(AgentOutputs(b))
    ensures DistinctNames(AgentOutputs(a)) && DistinctNames(AgentOutputs(b))
  {
    hide WithoutName, DistinctNames;
    if a.final.Some? {
      var f := a.final.value;
      FinalOutputsDistinct(a.agents, FINAL_NAME, f);
      FinalOutputsDistinct(b.agents, FINAL_NAME, f);
      WithoutNamePermutes(a.agents, b.agents, FINAL_NAME);
    }
  }

  lemma {:induction false} LookupFinds(es: seq<Entry>, e: Entry)
    requires DistinctNames(es) && e in es
    ensures Lookup(es, e.name) == e.text
  {
    if es[0] != e {
      var k :| 0 <= k < |es| && es[k] == e;
      assert es[1..][k - 1] == e;
      LookupFinds(es[1..], e);
    }
  }

  lemma LookupIgnoresOrder(a: seq<Entry>, b: seq<Entry>, name: Text)
    requires DistinctNames(a) && DistinctNames(b) && multiset(a) == multiset(b)
    requires exists e :: e in a && e.name == name
    ensures Lookup(a, name) == Lookup(b, name)
  {
    var e :| e in a && e.name == name;
    assert e in multiset(b);
    LookupFinds(a, e);
    LookupFinds(b, e);
  }

  lemma {:induction false} AddOutputsIgnoresOrder(t: Text, ranked: seq<Scored>, a: seq<Entry>, b: seq<Entry>, maxChars: nat)
    requires DistinctNames(a) && DistinctNames(b) && multiset(a) == multiset(b)
    requires forall s | s in ranked :: exists e :: e in a && e.name == s.name
    ensures AddOutputs(t, ranked, a, maxChars) == AddOutputs(t, ranked, b, maxChars)
    decreases ranked
  {
    hide FirstLinesOf, Lookup;
    if ranked != [] {
      assert ranked[0] in ranked;
      LookupIgnoresOrder(a, b, ranked[0].name);
      AddOutputsIgnoresOrder(t + OutputLine(ranked[0].name, a, maxChars), ranked[1..], a, b, maxChars);
    }
  }

  lemma RankedNames(outputs: seq<Entry>)
    ensures forall s | s in Ranked(outputs) :: exists e :: e in outputs && e.name == s.name
  {
    if outputs != [] {
      var all := ScoreAll(outputs, AverageLen(outputs));
      StableSortIsPermutation(all, Before);
      forall s | s in Ranked(outputs) ensures exists e :: e in outputs && e.name == s.name {
        assert s in multiset(all);
        var i :| 0 <= i < |all| && all[i] == s;
        assert outputs[i] in outputs;
      }
    }
  }

  /** Score, size and digest of a run do not depend on the order its agents are visited in. */
  lemma RunIgnoresAgentOrder(a: Run, b: Run, maxChars: nat)
    requires SameRun(a, b)
    ensures ScoreRun(a) == ScoreRun(b) && RunChars(a) == RunChars(b)
    ensures Digest(a, maxChars) == Digest(b, maxChars)
  {
    hide Ranked, AgentOutputs, TrimBlock, TrimSpace, AddOutputs;
    OutputsPermute(a, b);
    RankIgnoresOrder(AgentOutputs(a), AgentOutputs(b));
    SumIgnoresOrder(a.agents, b.agents, TextLen);
    assert |multiset(AgentOutputs(a))| == |AgentOutputs(a)| && |multiset(AgentOutputs(b))| == |AgentOutputs(b)|;
    RankedNames(AgentOutputs(a));
    AddOutputsIgnoresOrder(AskLine(a, maxChars), Ranked(AgentOutputs(a)), AgentOutputs(a), AgentOutputs(b), maxChars);
  }

  // ---- folding digests into the summary ----

  /** `strings.Join(parts, "\n")`. */
  function JoinLines(parts: seq<Text>): Text {
    if parts == [] then []
    else if |parts| == 1 then parts[0]
    else JoinLines(parts[..|parts| - 1]) + [LF] + parts[|parts| - 1]
  }

  /** The existing summary and the non-empty digests of the dropped runs, oldest first. */
  function Parts(existing: Text, dropped: seq<Run>): seq<Text> {
    if dropped == [] then (if existing == [] then [] else [existing])
    else
      var d := Digest(dropped[|dropped| - 1], RUN_DIGEST_MAX_CHARS);
      Parts(existing, dropped[..|dropped| - 1]) + if d == [] then [] else [d]
  }

  /** Only the most recent part of a text that has grown too long. */
  function Capped(out: Text): Text {
    if |out| > SUMMARY_MAX_CHARS then SUMMARY_MARKER + ToValid(out[|out| - SUMMARY_MAX_CHARS..]) else out
  }

  function Fold(existing: Text, dropped: seq<Run>): Text {
    TrimSpace(Capped(JoinLines(Parts(existing, dropped))))
  }

  /** `foldSummary`. */
  method FoldSummary(existing: Text, dropped: seq<Run>) returns (out: Text)
    ensures out == Fold(existing, dropped)
  {
    hide Digest, TrimSpace;
    var parts: seq<Text> := [];
    if existing != [] {
      parts := parts + [existing];
    }
    for n := 0 to |dropped|
      invariant parts == Parts(existing, dropped[..n])
    {
      assert dropped[..n + 1][..n] == dropped[..n];
      var d := DigestRun(dropped[n], RUN_DIGEST_MAX_CHARS);
      if d != [] {
        parts := parts + [d];
      }
    }
    assert dropped[..|dropped|] == dropped;
    out := JoinLines(parts);
    if |out| > SUMMARY_MAX_CHARS {
      out := SUMMARY_MARKER + ToValid(out[|out| - SUMMARY_MAX_CHARS..]);
    }
    out := TrimSpace(out);
  }

  /** However much is folded in, the summary stays within its cap and the marker. */
  lemma SummaryIsBounded(existing: Text, dropped: seq<Run>)
    ensures |Fold(existing, dropped)| <= SUMMARY_MAX_CHARS + |SUMMARY_MARKER|
  {
    hide JoinLines, Parts, TrimSpace;
  }

  // ---- everything in a summary is well-formed ----

  ghost predicate NamesWellFormed(run: Run) {
    forall e | e in run.agents :: WellFormed(e.name)
  }

  lemma LineWellFormed(title: Text, body: Text)
    requires WellFormed(title) && WellFormed(body)
    ensures WellFormed(BULLET + title + body + [LF])
  {
    assert RuneLen(BULLET) == 3 && RuneLen(BULLET[3..]) == 1 && BULLET[3..][1..] == [];
    assert WellFormed(BULLET);
    WellFormedConcat(BULLET, title);
    WellFormedConcat(BULLET + title, body);
    AsciiWellFormed([LF]);
    WellFormedConcat(BULLET + title + body, [LF]);
  }

  lemma OutputLineWellFormed(name: Text, outputs: seq<Entry>, maxChars: nat)
    requires WellFormed(name)
    ensures WellFormed(OutputLine(name, outputs, maxChars))
  {
    hide WellFormed, FirstLinesOf, Lookup;
    var shown, colon := if name == FINAL_NAME then Ascii("final") else name, Ascii(": ");
    var body := FirstLinesOf(Lookup(outputs, name), 2, maxChars / 2);
    AsciiWellFormed(Ascii("final"));
    AsciiWellFormed(colon);
    WellFormedConcat(shown, colon);
    FirstLinesBound(Lookup(outputs, name), 2, maxChars / 2);
    LineWellFormed(shown + colon, body);
    Regroup(BULLET, shown, colon);
  }

  lemma {:induction false} AddOutputsWellFormed(b: Text, ranked: seq<Scored>, outputs: seq<Entry>, maxChars: nat)
    requires WellFormed(b) && forall s | s in ranked :: WellFormed(s.name)
    ensures WellFormed(AddOutputs(b, ranked, outputs, maxChars))
    decreases ranked
  {
    hide WellFormed, OutputLine;
    if ranked != [] {
      assert ranked[0] in ranked;
      var line := OutputLine(ranked[0].name, outputs, maxChars);
      OutputLineWellFormed(ranked[0].name, outputs, maxChars);
      WellFormedConcat(b, line);
      AddOutputsWellFormed(b + line, ranked[1..], outputs, maxChars);
    }
  }

  lemma AskLineWellFormed(run: Run, maxChars: nat)
    ensures WellFormed(AskLine(run, maxChars))
  {
    hide WellFormed, FirstLinesOf;
    AsciiWellFormed([]);
    AsciiWellFormed(Ascii("ask: "));
    FirstLinesBound(run.prompt, 1, maxChars / 3);
    LineWellFormed(Ascii("ask: "), FirstLinesOf(run.prompt, 1, maxChars / 3));
  }

  lemma OutputNamesWellFormed(run: Run)
    requires NamesWellFormed(run)
    ensures forall s | s in Ranked(AgentOutputs(run)) :: WellFormed(s.name)
  {
    hide WellFormed, Ranked;
    var outputs := AgentOutputs(run);
    AsciiWellFormed(FINAL_NAME);
    forall e | e in outputs ensures WellFormed(e.name) {
      if run.final.Some? && e in WithoutName(run.agents, FINAL_NAME) {
        WithoutNameIsPart(run.agents, FINAL_NAME);
      }
    }
    RankedNames(outputs);
  }

  lemma DigestWellFormed(run: Run, maxChars: nat)
    requires NamesWellFormed(run)
    ensures WellFormed(Digest(run, maxChars)) && Trimmed(Digest(run, maxChars))
  {
    hide WellFormed, TrimBlock, TrimSpace, AddOutputs, AskLine, Ranked;
    AskLineWellFormed(run, maxChars);
    OutputNamesWellFormed(run);
    AddOutputsWellFormed(AskLine(run, maxChars), Ranked(AgentOutputs(run)), AgentOutputs(run), maxChars);
    TrimBlockWellFormed(DigestText(run, maxChars), maxChars);
    TrimSpaceWellFormed(TrimBlock(DigestText(run, maxChars), maxChars));
    TrimSpaceTrims(TrimBlock(DigestText(run, maxChars), maxChars));
  }

  lemma {:induction false} PartsWellFormed(existing: Text, dropped: seq<Run>)
    requires WellFormed(existing) && forall r | r in dropped :: NamesWellFormed(r)
    ensures forall p | p in Parts(existing, dropped) :: WellFormed(p)
  {
    hide WellFormed, Digest, NamesWellFormed;
    if dropped != [] {
      var r := dropped[|dropped| - 1];
      assert r in dropped;
      DigestWellFormed(r, RUN_DIGEST_MAX_CHARS);
      PartsWellFormed(existing, dropped[..|dropped| - 1]);
    }
  }

  lemma {:induction false} JoinLinesWellFormed(parts: seq<Text>)
    requires forall p | p in parts :: WellFormed(p)
    ensures WellFormed(JoinLines(parts))
  {
    hide WellFormed;
    AsciiWellFormed([]);
    AsciiWellFormed([LF]);
    if parts != [] {
      var front, d := parts[..|parts| - 1], parts[|parts| - 1];
      assert d in parts;
      JoinLinesWellFormed(front);
      WellFormedConcat(JoinLines(front), [LF]);
      WellFormedConcat(JoinLines(front) + [LF], d);
    }
  }

  /** Folding keeps the summary well-formed, so it stays so however often runs are evicted. */
  lemma FoldIsWellFormed(existing: Text, dropped: seq<Run>)
    requires WellFormed(existing) && forall r | r in dropped :: NamesWellFormed(r)
    ensures WellFormed(Fold(existing, dropped))
  {
    hide WellFormed, Parts, JoinLines, ToValid, TrimSpace;
    var out := JoinLines(Parts(existing, dropped));
    PartsWellFormed(existing, dropped);
    JoinLinesWellFormed(Parts(existing, dropped));
    AsciiWellFormed(SUMMARY_MARKER);
    if |out| > SUMMARY_MAX_CHARS {
      ToValidIsWellFormed(out[|out| - SUMMARY_MAX_CHARS..]);
      WellFormedConcat(SUMMARY_MARKER, ToValid(out[|out| - SUMMARY_MAX_CHARS..]));
    }
    TrimSpaceWellFormed(Capped(out));
  }

  // ---- the newest digest survives ----

  lemma TrailingSpaceBehind(p: Text, d: Text)
    requires d != [] && WellFormed(d) && TrailingSpace(d) == 0
    ensures TrailingSpace(p + d) == 0
  {
    var s, n := p + d, |p| + |d|;
    assert s[n - 1] == d[|d| - 1];
    if |d| >= 2 { assert s[n - 2] == d[|d| - 2]; }
    if |d| >= 3 { assert s[n - 3] == d[|d| - 3]; }
    if |d| == 2 { assert RuneLen(d) > 0 && WellFormed(d[RuneLen(d)..]); }
    if |d| == 1 { assert RuneLen(d) == 1; }
  }

  lemma {:induction false} TrimLeftBehind(p: Text, d: Text)
    requires d != [] && WellFormed(p) && LeadingSpace(d) == 0
    ensures EndsIn(TrimLeft(p + d), d)
  {
    var n := LeadingSpace(p + d);
    if p == [] {
      assert p + d == d;
    } else if n > 0 {
      LeadingSpaceIsRune(p, d);
      assert (p + d)[n..] == p[n..] + d;
      TrimLeftBehind(p[n..], d);
    }
  }

  lemma LeadingSpaceIsRune(p: Text, d: Text)
    requires p != [] && WellFormed(p) && LeadingSpace(p + d) > 0
    ensures LeadingSpace(p + d) == RuneLen(p)
  {
    RuneLenLocal(p, d);
  }

  /** White space around a text does not reach into trimmed text at its end. */
  lemma TrimSpaceKeepsEnd(p: Text, d: Text)
    requires d != [] && WellFormed(p) && WellFormed(d) && Trimmed(d)
    ensures EndsIn(TrimSpace(p + d), d)
  {
    hide WellFormed, LeadingSpace, TrailingSpace;
    TrimLeftBehind(p, d);
    var l := TrimLeft(p + d);
    var q := l[..|l| - |d|];
    assert l == q + d;
    TrailingSpaceBehind(q, d);
    assert TrimRight(l) == l;
  }

  /** A cut in front of `d` keeps `d` whole and leaves whole characters in front of it. */
  lemma CutInFront(p: Text, d: Text, cut: nat) returns (c: nat)
    requires WellFormed(p) && WellFormed(d) && cut <= |p|
    ensures c <= |p| && WellFormed(p[c..]) && ToValid((p + d)[cut..]) == p[c..] + d
  {
    hide WellFormed, ToValid;
    WellFormedConcat(p, d);
    CutTail(p + d, cut);
    SeamIsBoundary(p, d);
    c := Ceil(p + d, cut);
    assert c <= |p|;
    assert Boundary(p, c) by { assert Boundary(p + d, c); }
    BoundarySplits(p, c);
    assert (p + d)[c..] == p[c..] + d;
  }

  lemma CappedKeepsEnd(p: Text, d: Text) returns (q: Text)
    requires WellFormed(p) && WellFormed(d) && |d| <= SUMMARY_MAX_CHARS
    ensures WellFormed(q) && Capped(p + d) == q + d
  {
    hide WellFormed, ToValid;
    q := p;
    if |p + d| > SUMMARY_MAX_CHARS {
      var c := CutInFront(p, d, |p + d| - SUMMARY_MAX_CHARS);
      AsciiWellFormed(SUMMARY_MARKER);
      WellFormedConcat(SUMMARY_MARKER, p[c..]);
      Regroup(SUMMARY_MARKER, p[c..], d);
      q := SUMMARY_MARKER + p[c..];
    }
  }

  lemma {:induction false} PartsEndIn(existing: Text, dropped: seq<Run>, k: nat)
    requires k < |dropped|
    ensures var parts, d := Parts(existing, dropped), Digest(dropped[k], RUN_DIGEST_MAX_CHARS);
      d != [] && (forall j | k < j < |dropped| :: Digest(dropped[j], RUN_DIGEST_MAX_CHARS) == [])
      ==> parts != [] && parts[|parts| - 1] == d
  {
    hide Digest;
    if k < |dropped| - 1 {
      PartsEndIn(existing, dropped[..|dropped| - 1], k);
    }
  }

  /** The digest of the newest evicted run that has one survives whole, at the end of the summary,
      as long as it fits the cap by itself. */
  lemma NewestDigestSurvives(existing: Text, dropped: seq<Run>, k: nat)
    requires WellFormed(existing) && forall r | r in dropped :: NamesWellFormed(r)
    requires k < |dropped| && 0 < |Digest(dropped[k], RUN_DIGEST_MAX_CHARS)| <= SUMMARY_MAX_CHARS
    requires forall j | k < j < |dropped| :: Digest(dropped[j], RUN_DIGEST_MAX_CHARS) == []
    ensures EndsIn(Fold(existing, dropped), Digest(dropped[k], RUN_DIGEST_MAX_CHARS))
  {
    hide WellFormed, Digest, Parts, TrimSpace, Capped, NamesWellFormed, EndsIn, Trimmed;
    var d := Digest(dropped[k], RUN_DIGEST_MAX_CHARS);
    assert dropped[k] in dropped;
    DigestWellFormed(dropped[k], RUN_DIGEST_MAX_CHARS);
    PartsEndIn(existing, dropped, k);
    PartsWellFormed(existing, dropped);
    var parts := Parts(existing, dropped);
    var front := parts[..|parts| - 1];
    JoinLinesWellFormed(front);
    AsciiWellFormed([LF]);
    AsciiWellFormed([]);
    WellFormedConcat(JoinLines(front), [LF]);
    var p := if |parts| == 1 then [] else JoinLines(front) + [LF];
    assert JoinLines(parts) == p + d;
    var q := CappedKeepsEnd(p, d);
    TrimSpaceKeepsEnd(q, d);
  }
}
