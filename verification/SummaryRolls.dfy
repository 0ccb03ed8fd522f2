/** That the rolling summary rolls (internal/session/summarize.go): what is folded in goes behind what is
    there, nothing is left out while it fits, and over the cap the oldest part goes. */
module SummaryRolls {
  import opened Wrappers
  import opened Bytes
  import opened Utf8
  import opened Importance
  import opened SessionText
  import opened Compaction
  import opened Summary
  import Sorting

  // ---- the text of a summary, put together all at once ----

  function Digests(dropped: seq<Run>): (ds: seq<Text>)
    ensures |ds| == |dropped|
  {
    seq(|dropped|, i requires 0 <= i < |dropped| => Digest(dropped[i], 600))
  }

  /** Every digest that is not empty, each behind a newline, in the order of the runs. */
  function Lines(dropped: seq<Run>): Text {
    Concat(seq(|dropped|, i requires 0 <= i < |dropped| =>
      if Digest(dropped[i], 600) == [] then [] else [LF] + Digest(dropped[i], 600)))
  }

  /** The existing summary and those lines; without a summary the first newline is not needed. */
  function Rolled(existing: Text, dropped: seq<Run>): Text {
    if existing == [] && Lines(dropped) != [] then Lines(dropped)[1..] else existing + Lines(dropped)
  }

  lemma LinesMore(dropped: seq<Run>)
    requires dropped != []
    ensures var d := Digest(dropped[|dropped| - 1], 600);
      Lines(dropped) == Lines(dropped[..|dropped| - 1]) + if d == [] then [] else [LF] + d
  {
    hide Concat, Digest;
    var n := |dropped| - 1;
    var all := seq(|dropped|, i requires 0 <= i < |dropped| =>
      if Digest(dropped[i], 600) == [] then [] else [LF] + Digest(dropped[i], 600));
    var init := seq(n, i requires 0 <= i < n =>
      if Digest(dropped[..n][i], 600) == [] then [] else [LF] + Digest(dropped[..n][i], 600));
    assert all == init + [all[n]];
    ConcatAppend(init, [all[n]]);
    ConcatOne(all[n]);
  }

  lemma NoLines()
    ensures Lines([]) == []
  {
  }

  lemma RolledMore(existing: Text, dropped: seq<Run>)
    requires dropped != []
    ensures var d, before := Digest(dropped[|dropped| - 1], 600), Rolled(existing, dropped[..|dropped| - 1]);
      Rolled(existing, dropped) == if d == [] then before else if before == [] then d else before + [LF] + d
  {
    hide Lines, Digest;
    LinesMore(dropped);
    var init, d := dropped[..|dropped| - 1], Digest(dropped[|dropped| - 1], 600);
    LinesStart(init);
    if d != [] {
      if existing == [] && Lines(init) != [] {
        CutSum(Lines(init), [LF] + d, 1);
        Regroup(Lines(init)[1..], [LF], d);
      } else {
        Regroup(existing + Lines(init), [LF], d);
        Regroup(existing, Lines(init), [LF] + d);
      }
    } else {
      assert Lines(init) + [] == Lines(init);
    }
  }

  /** The first line holds more than its newline. */
  lemma {:induction false} LinesStart(dropped: seq<Run>)
    ensures Lines(dropped) == [] || |Lines(dropped)| > 1
  {
    hide Lines, Digest;
    if dropped == [] {
      NoLines();
    } else {
      LinesStart(dropped[..|dropped| - 1]);
      LinesMore(dropped);
    }
  }

  lemma JoinMore(parts: seq<Text>, d: Text)
    ensures JoinLines(parts + [d]) == if parts == [] then d else JoinLines(parts) + [LF] + d
  {
    assert (parts + [d])[..|parts|] == parts;
  }

  lemma RolledNone(existing: Text)
    ensures Rolled(existing, []) == existing
  {
    assert existing + [] == existing;
  }

  /** What the parts are joined to. */
  lemma {:induction false} JoinedIsRolled(existing: Text, dropped: seq<Run>)
    ensures JoinLines(Parts(existing, dropped)) == Rolled(existing, dropped)
    ensures Parts(existing, dropped) == [] <==> Rolled(existing, dropped) == []
  {
    hide Digest, Rolled, JoinLines;
    if dropped == [] {
      RolledNone(existing);
      JoinMore([], existing);
      assert [] + [existing] == [existing];
      JoinNothing();
    } else {
      var init, d := dropped[..|dropped| - 1], Digest(dropped[|dropped| - 1], 600);
      JoinedIsRolled(existing, init);
      RolledMore(existing, dropped);
      JoinMore(Parts(existing, init), d);
      assert Parts(existing, init) + [] == Parts(existing, init);
    }
  }

  lemma JoinNothing()
    ensures JoinLines([]) == []
  {
  }

  // ---- its ends ----

  lemma LeadingInFront(s: Text, t: Text)
    requires s != [] && WellFormed(s) && LeadingSpace(s) == 0
    ensures LeadingSpace(s + t) == 0
  {
    assert RuneLen(s) > 0;
    RuneLenLocal(s, t);
    assert forall i | 0 <= i < |s| :: (s + t)[i] == s[i];
  }

  ghost predicate Sound(s: Text) {
    WellFormed(s) && Trimmed(s)
  }

  lemma NothingIsSound()
    ensures Sound([])
  {
  }

  lemma SoundMore(s: Text, d: Text)
    requires Sound(s) && Sound(d) && s != [] && d != []
    ensures Sound(s + [LF] + d)
  {
    hide WellFormed, LeadingSpace, TrailingSpace;
    AsciiWellFormed([LF]);
    WellFormedConcat(s, [LF]);
    WellFormedConcat(s + [LF], d);
    Regroup(s, [LF], d);
    LeadingInFront(s, [LF] + d);
    TrailingSpaceBehind(s + [LF], d);
  }

  lemma {:induction false} RolledIsSound(existing: Text, dropped: seq<Run>)
    requires Sound(existing) && forall r | r in dropped :: NamesWellFormed(r)
    ensures Sound(Rolled(existing, dropped))
  {
    hide Sound, Digest, Rolled, NamesWellFormed;
    if dropped == [] {
      RolledNone(existing);
    } else {
      var n := |dropped| - 1;
      assert dropped[n] in dropped;
      RolledIsSound(existing, dropped[..n]);
      RolledMore(existing, dropped);
      DigestIsSound(dropped[n]);
      if Rolled(existing, dropped[..n]) != [] && Digest(dropped[n], 600) != [] {
        SoundMore(Rolled(existing, dropped[..n]), Digest(dropped[n], 600));
      }
    }
  }

  lemma DigestIsSound(run: Run)
    requires NamesWellFormed(run)
    ensures Sound(Digest(run, 600))
  {
    hide WellFormed, Digest, Trimmed;
    DigestWellFormed(run, 600);
  }

  lemma FoldIs(existing: Text, dropped: seq<Run>)
    ensures Fold(existing, dropped) == TrimSpace(Capped(Rolled(existing, dropped)))
  {
    hide Capped, TrimSpace, Rolled, Parts, JoinLines;
    JoinedIsRolled(existing, dropped);
  }

  /** The fold of well-formed input is sound, so it may be folded on. */
  lemma FoldIsSound(existing: Text, dropped: seq<Run>)
    requires Sound(existing) && forall r | r in dropped :: NamesWellFormed(r)
    ensures Sound(Fold(existing, dropped))
  {
    hide WellFormed, Capped, TrimSpace, Rolled, Trimmed, NamesWellFormed;
    FoldIsWellFormed(existing, dropped);
    FoldIs(existing, dropped);
    TrimSpaceTrims(Capped(Rolled(existing, dropped)));
  }

  // ---- folding while it fits ----

  /** While it fits the cap, the existing summary starts the new one, and all digests follow it, each
      behind a newline, in the order of the dropped runs; a first summary starts with the first of them. */
  lemma FoldRollsOn(existing: Text, dropped: seq<Run>)
    requires Sound(existing) && forall r | r in dropped :: NamesWellFormed(r)
    requires |Rolled(existing, dropped)| <= 6000
    ensures existing != [] ==> Fold(existing, dropped) == existing + Lines(dropped)
    ensures existing == [] && Lines(dropped) != [] ==> [LF] + Fold(existing, dropped) == Lines(dropped)
    ensures existing == [] && Lines(dropped) == [] ==> Fold(existing, dropped) == []
    ensures Fold(existing, dropped) == Rolled(existing, dropped)
  {
    hide WellFormed, TrimSpace, Lines, Trimmed, NamesWellFormed;
    FoldIs(existing, dropped);
    RolledIsSound(existing, dropped);
    TrimSpaceTrims(Rolled(existing, dropped));
    if existing == [] && Lines(dropped) != [] {
      LinesOpen(dropped);
    }
  }

  lemma {:induction false} LinesOpen(dropped: seq<Run>)
    requires Lines(dropped) != []
    ensures Lines(dropped)[0] == LF
  {
    hide Lines, Digest;
    if dropped == [] {
      NoLines();
    } else {
      LinesMore(dropped);
      var init := dropped[..|dropped| - 1];
      if Lines(init) != [] {
        LinesOpen(init);
      }
    }
  }

  lemma {:induction false} RolledInTurn(existing: Text, a: seq<Run>, b: seq<Run>)
    ensures Rolled(Rolled(existing, a), b) == Rolled(existing, a + b)
    ensures |Rolled(existing, a)| <= |Rolled(existing, a + b)|
  {
    hide Digest, Rolled;
    if b == [] {
      RolledNone(Rolled(existing, a));
      assert a + b == a;
    } else {
      var init := b[..|b| - 1];
      RolledInTurn(existing, a, init);
      RolledMore(Rolled(existing, a), b);
      RolledMore(existing, a + b);
      assert (a + b)[..|a + b| - 1] == a + init;
    }
  }

  /** Folding some runs and later others is folding them all at once, while it fits the cap. */
  lemma FoldInTurn(existing: Text, a: seq<Run>, b: seq<Run>)
    requires Sound(existing) && forall r | r in a + b :: NamesWellFormed(r)
    requires |Rolled(existing, a + b)| <= 6000
    ensures Fold(Fold(existing, a), b) == Fold(existing, a + b)
  {
    hide Sound, Rolled, Fold, Lines, NamesWellFormed;
    RolledInTurn(existing, a, b);
    assert forall r | r in a :: r in a + b;
    assert forall r | r in b :: r in a + b;
    FoldRollsOn(existing, a);
    FoldRollsOn(existing, a + b);
    RolledIsSound(existing, a);
    FoldRollsOn(Rolled(existing, a), b);
  }

  // ---- folding over the cap ----

  lemma TrailingSpaceTail(q: Text, s: Text, c: nat)
    requires c + 3 <= |s| && TrailingSpace(s) == 0
    ensures TrailingSpace(q + s[c..]) == 0
  {
    var t := q + s[c..];
    var m, n := |t|, |s|;
    assert t[m - 1] == s[n - 1] && t[m - 2] == s[n - 2] && t[m - 3] == s[n - 3];
  }

  lemma MarkerOpens(s: Text)
    ensures LeadingSpace(SUMMARY_MARKER + s) == 0
  {
    assert (SUMMARY_MARKER + s)[0] == 91;
  }

  /** Over the cap the summary is the marker and the whole characters of the last 6000 bytes of the same
      text: only a character that the cut splits is missing. */
  lemma FoldKeepsTail(existing: Text, dropped: seq<Run>) returns (c: nat)
    requires Sound(existing) && forall r | r in dropped :: NamesWellFormed(r)
    requires |Rolled(existing, dropped)| > 6000
    ensures var s := Rolled(existing, dropped);
      && |s| - 6000 <= c <= |s| - 6000 + 3 && WellFormed(s[c..])
      && (forall i | |s| - 6000 <= i < c :: Cont(s[i]))
      && Fold(existing, dropped) == SUMMARY_MARKER + s[c..]
  {
    hide WellFormed, TrimSpace, ToValid, Rolled, NamesWellFormed, LeadingSpace, TrailingSpace;
    hide SUMMARY_MARKER;
    FoldIs(existing, dropped);
    RolledIsSound(existing, dropped);
    var s := Rolled(existing, dropped);
    CutTail(s, |s| - 6000);
    c := Ceil(s, |s| - 6000);
    forall i | |s| - 6000 <= i < c ensures Cont(s[i]) {
      assert !Boundary(s, i);
    }
    TrailingSpaceTail(SUMMARY_MARKER, s, c);
    MarkerOpens(s[c..]);
    TrimSpaceTrims(SUMMARY_MARKER + s[c..]);
  }

  // ---- what a digest lists ----

  /** The outputs of a run are its agents' and, in place of one of that name, its final answer. */
  lemma OutputsAre(run: Run, e: Entry)
    ensures e in AgentOutputs(run) <==>
      || (run.final.Some? && e == Entry(Ascii("_final"), run.final.value))
      || (e in run.agents && (run.final.None? || e.name != Ascii("_final")))
  {
    hide Ascii;
    WithoutNameKeeps(run.agents, FINAL_NAME, e);
  }

  lemma {:induction false} WithoutNameKeeps(es: seq<Entry>, name: Text, e: Entry)
    ensures e in WithoutName(es, name) <==> e in es && e.name != name
  {
    if es != [] {
      WithoutNameKeeps(es[1..], name, e);
      assert es == [es[0]] + es[1..];
    }
  }

  /** The first line of a digest. */
  function Ask(run: Run, maxChars: nat): Text {
    if run.prompt == [] then []
    else [0xE2, 0x80, 0xA2, 32] + Ascii("ask: ") + FirstLinesOf(run.prompt, 1, maxChars / 3) + [LF]
  }

  /** The line of one output. */
  function Told(e: Entry, maxChars: nat): Text {
    [0xE2, 0x80, 0xA2, 32] + (if e.name == Ascii("_final") then Ascii("final") else e.name) + Ascii(": ")
      + FirstLinesOf(e.text, 2, maxChars / 2) + [LF]
  }

  lemma ToldIs(outputs: seq<Entry>, e: Entry, maxChars: nat)
    requires DistinctNames(outputs) && e in outputs
    ensures OutputLine(e.name, outputs, maxChars) == Told(e, maxChars)
  {
    hide FirstLinesOf, Ascii, Lookup;
    LookupFinds(outputs, e);
  }

  /** Lines go on, strongest output first, until the text is long enough or nothing is left. */
  lemma {:induction false} AddedLines(b: Text, ranked: seq<Scored>, outputs: seq<Entry>, maxChars: nat) returns (lines: seq<Text>)
    requires DistinctNames(outputs)
    ensures var all := AddOutputs(b, ranked, outputs, maxChars);
      && |lines| <= |ranked| && all == b + Concat(lines)
      && (|lines| == |ranked| || |all| >= maxChars)
      && (forall k | 0 < k < |lines| :: |b + Concat(lines[..k])| < maxChars)
      && forall i, e | 0 <= i < |lines| && e in outputs && e.name == ranked[i].name :: lines[i] == Told(e, maxChars)
    decreases ranked
  {
    hide Concat, OutputLine, Told, DistinctNames;
    if ranked == [] {
      lines := [];
      ConcatCons(lines);
      assert b + [] == b;
    } else {
      var line := OutputLine(ranked[0].name, outputs, maxChars);
      forall e | e in outputs && e.name == ranked[0].name ensures line == Told(e, maxChars) {
        ToldIs(outputs, e, maxChars);
      }
      var more := [];
      if |b + line| < maxChars {
        more := AddedLines(b + line, ranked[1..], outputs, maxChars);
      }
      lines := [line] + more;
      LinesAhead(b, line, more);
      ConcatCons([]);
      assert b + line + [] == b + line;
    }
  }

  lemma LinesAhead(b: Text, line: Text, more: seq<Text>)
    ensures b + Concat([line] + more) == b + line + Concat(more)
    ensures forall k | 0 < k <= |more| + 1 :: b + Concat(([line] + more)[..k]) == b + line + Concat(more[..k - 1])
  {
    hide Concat;
    ConcatOne(line);
    ConcatAppend([line], more);
    Regroup(b, line, Concat(more));
    forall k | 0 < k <= |more| + 1
      ensures b + Concat(([line] + more)[..k]) == b + line + Concat(more[..k - 1])
    {
      assert ([line] + more)[..k] == [line] + more[..k - 1];
      ConcatAppend([line], more[..k - 1]);
      Regroup(b, line, Concat(more[..k - 1]));
    }
  }

  /** A digest is the run's request and the first lines of its outputs, one line for each, strongest
      first, until it is long enough; then the whole is trimmed to its cap. */
  lemma DigestLists(run: Run, maxChars: nat) returns (lines: seq<Text>)
    requires DistinctNames(run.agents)
    ensures var ranked, text := Ranked(AgentOutputs(run)), Ask(run, maxChars) + Concat(lines);
      && Digest(run, maxChars) == TrimSpace(TrimBlock(text, maxChars))
      && |lines| <= |ranked| && (|lines| == |ranked| || |text| >= maxChars)
      && (forall k | 0 < k < |lines| :: |Ask(run, maxChars) + Concat(lines[..k])| < maxChars)
      && forall i, e | 0 <= i < |lines| && e in AgentOutputs(run) && e.name == ranked[i].name :: lines[i] == Told(e, maxChars)
  {
    hide Concat, Ranked, TrimSpace, TrimBlock, Told, WithoutName, DistinctNames, FirstLinesOf, AddOutputs;
    if run.final.Some? {
      FinalOutputsDistinct(run.agents, FINAL_NAME, run.final.value);
    }
    lines := AddedLines(AskLine(run, maxChars), Ranked(AgentOutputs(run)), AgentOutputs(run), maxChars);
  }

  /** Every output of the run is ranked exactly once. */
  lemma AllAreRanked(run: Run, e: Entry)
    requires DistinctNames(run.agents) && e in AgentOutputs(run)
    ensures |Ranked(AgentOutputs(run))| == |AgentOutputs(run)|
    ensures exists s | s in Ranked(AgentOutputs(run)) :: s.name == e.name
  {
    hide ImportanceScore;
    var outputs := AgentOutputs(run);
    var all := ScoreAll(outputs, AverageLen(outputs));
    Sorted(all);
    var i :| 0 <= i < |outputs| && outputs[i] == e;
    assert all[i] in multiset(all);
    assert all[i] in Ranked(outputs);
  }

  lemma Sorted(all: seq<Scored>)
    ensures multiset(Sorting.StableSort(all, Before)) == multiset(all)
    ensures |Sorting.StableSort(all, Before)| == |all|
  {
    Sorting.StableSortIsPermutation(all, Before);
    assert |multiset(Sorting.StableSort(all, Before))| == |multiset(all)|;
  }
}
