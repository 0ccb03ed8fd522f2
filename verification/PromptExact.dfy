/** What the synthesizer's prompts keep of the promises made for them (internal/synthesis/budget.go,
    assemble.go). */
module PromptExact {
  import opened Wrappers
  import opened Bytes
  import opened Sequences
  import opened Utf8
  import opened Allocation
  import opened PromptBudget
  import opened AssembleFit
  import opened AssembleBounds
  import opened AssembleExact
  import opened AssembleAscii
  import opened SynthesisPrompt

  ghost predicate OfService(w: Wording) {
    w == PIPELINE || w == CASCADE || w == STREAM
  }

  ghost predicate InputWellFormed(userPrompt: Text, blocks: seq<Block>) {
    WellFormed(userPrompt) && forall i | 0 <= i < |blocks| :: WellFormed(blocks[i].name) && WellFormed(blocks[i].body)
  }

  /** What a prompt asks to fit: all of it, or its parts cut to fixed caps when they leave no room. */
  function PromptLen(userPrompt: Text, blocks: seq<Block>, w: Wording, tokens: Option<int>, synth: Option<Synth>): nat {
    AskedLen(Prefix(userPrompt, w), Headers(blocks, w), Bodies(blocks), w.footer, EffectiveMaxPromptChars(tokens, synth))
  }

  // ---- wordings ----

  lemma DashIsWellFormed()
    ensures WellFormed(DASH)
  {
    assert RuneLen(DASH) == 3 && DASH[3..] == [];
  }

  lemma DashedIsWellFormed(a: Text, b: Text)
    requires IsAscii(a) && IsAscii(b)
    ensures WellFormed(a + DASH + b)
  {
    hide WellFormed;
    DashIsWellFormed();
    AsciiWellFormed(a);
    AsciiWellFormed(b);
    WellFormedConcat(a, DASH);
    WellFormedConcat(a + DASH, b);
  }

  lemma EndsWithStop(a: Text, b: string)
    requires b != "" && b[|b| - 1] == '.'
    ensures (a + Ascii(b))[|a + Ascii(b)| - 1] == 46
  {
  }

  lemma DashedFooterFacts(instruction: string)
    ensures var footer := DashedFooter(instruction); WellFormed(footer) && footer != [] && footer[|footer| - 1] == 46
  {
    hide WellFormed;
    DashedIsWellFormed(STRONGEST + Ascii(instruction), Ascii(" write the final answer directly."));
    EndsWithStop(STRONGEST + Ascii(instruction) + DASH, " write the final answer directly.");
  }

  lemma WordingFacts(w: Wording)
    requires OfService(w)
    ensures WellFormed(w.intro) && WellFormed(w.kind) && WellFormed(w.footer)
    ensures w.footer != [] && w.footer[|w.footer| - 1] == 46
  {
    hide WellFormed, Ascii;
    AsciiWellFormed(w.intro);
    AsciiWellFormed(w.kind);
    DashedFooterFacts("Do not enumerate the stages ");
    DashedFooterFacts("Do not enumerate the responders ");
    StreamFooter();
  }

  lemma StreamFooter()
    ensures WellFormed(STREAM.footer) && STREAM.footer != [] && STREAM.footer[|STREAM.footer| - 1] == 46
  {
    hide WellFormed;
    AsciiWellFormed(STREAM.footer);
    EndsWithStop(INTEGRATE, "Resolve contradictions, drop redundancy. Write the final answer directly.");
  }

  lemma HeaderWellFormed(n: nat, b: Block, w: Wording)
    requires WellFormed(b.name) && WellFormed(w.kind)
    ensures WellFormed(Header(n, b, w))
  {
    hide WellFormed, Ascii;
    var dashes, number, open, close := Ascii("\n--- "), Decimal(n), Ascii(" ("), Ascii(") ---\n");
    AsciiWellFormed([]);
    AsciiWellFormed([32]);
    AsciiWellFormed(dashes);
    AsciiWellFormed(number);
    AsciiWellFormed(open);
    AsciiWellFormed(close);
    WellFormedConcat(w.kind, [32]);
    var kind := if w.kind == [] then [] else w.kind + [32];
    WellFormedConcat(dashes, kind);
    WellFormedConcat(dashes + kind, number);
    WellFormedConcat(dashes + kind + number, open);
    WellFormedConcat(dashes + kind + number + open, b.name);
    WellFormedConcat(dashes + kind + number + open + b.name, close);
  }

  lemma PrefixWellFormed(userPrompt: Text, w: Wording)
    requires WellFormed(userPrompt) && WellFormed(w.intro)
    ensures WellFormed(Prefix(userPrompt, w))
  {
    hide WellFormed, Ascii;
    var opening := Ascii("Original user request:\n<<<\n");
    AsciiWellFormed(opening);
    WellFormedConcat(opening, userPrompt);
    WellFormedConcat(opening + userPrompt, w.intro);
  }

  lemma PromptPartsWellFormed(userPrompt: Text, blocks: seq<Block>, w: Wording)
    requires OfService(w) && InputWellFormed(userPrompt, blocks)
    ensures PartsWellFormed(Prefix(userPrompt, w), Headers(blocks, w), Bodies(blocks), w.footer)
  {
    hide WellFormed, OfService, Header, Prefix;
    WordingFacts(w);
    PrefixWellFormed(userPrompt, w);
    forall i | 0 <= i < |blocks| ensures WellFormed(Headers(blocks, w)[i]) {
      HeaderWellFormed(i + 1, blocks[i], w);
    }
  }

  // ---- the promises ----

  /** A prompt of well-formed text is within its budget exactly when what it asks to fit is, and exactly
      then it still ends in its footer. */
  lemma PromptPromisesKeptIff(userPrompt: Text, blocks: seq<Block>, w: Wording, tokens: Option<int>, synth: Option<Synth>)
    requires OfService(w) && InputWellFormed(userPrompt, blocks)
    ensures var budget, prompt := EffectiveMaxPromptChars(tokens, synth), Prompt(userPrompt, blocks, w, tokens, synth);
      var fits := PromptLen(userPrompt, blocks, w, tokens, synth) <= budget;
      (|prompt| <= budget <==> fits) && (EndsIn(prompt, w.footer) <==> fits)
  {
    hide Fitted, AskedLen, EndsIn, PartsWellFormed, OfService, Prefix, Headers, Bodies;
    var budget := EffectiveMaxPromptChars(tokens, synth);
    PromptPartsWellFormed(userPrompt, blocks, w);
    WordingFacts(w);
    WithinBudgetIff(Prefix(userPrompt, w), Headers(blocks, w), Bodies(blocks), w.footer, budget);
    OrdinaryFooterKeptIff(Prefix(userPrompt, w), Headers(blocks, w), Bodies(blocks), w.footer, budget);
  }

  // ---- prompts that break them ----

  /** The fixed parts of a streamed prompt. */
  function StreamParts(userPrompt: Text, blocks: seq<Block>): nat {
    Overhead(Prefix(userPrompt, STREAM), Headers(blocks, STREAM), STREAM.footer)
  }

  lemma StreamLengths()
    ensures |STREAM.footer| == 148 && |STREAM.intro| == 40 && STREAM.kind == []
  {
  }

  lemma PrefixLen(userPrompt: Text)
    ensures |Prefix(userPrompt, STREAM)| == 67 + |userPrompt|
  {
    StreamLengths();
  }

  lemma SmallHeaderLen(n: nat, b: Block)
    requires n < 10
    ensures |Header(n, b, STREAM)| == 14 + |b.name|
  {
    StreamLengths();
  }

  lemma TotalOfOne(x: nat)
    ensures Total([x]) == x
  {
    assert [x][..0] == [];
  }

  lemma TotalOfTwo(x: nat, y: nat)
    ensures Total([x, y]) == x + y
  {
    assert [x, y][..1] == [x];
    TotalOfOne(x);
  }

  lemma OneBlockParts(userPrompt: Text, b: Block)
    ensures StreamParts(userPrompt, [b]) == 229 + |userPrompt| + |b.name|
    ensures Total(Lens(Bodies([b]))) == |b.body|
  {
    hide Header, Prefix, Total;
    StreamLengths();
    PrefixLen(userPrompt);
    SmallHeaderLen(1, b);
    assert Lens(Headers([b], STREAM)) == [14 + |b.name|] && Lens(Bodies([b])) == [|b.body|];
    TotalOfOne(14 + |b.name|);
    TotalOfOne(|b.body|);
  }

  /** Any well-formed contribution that is too long for a small synthesizer takes the streamed prompt
      over its budget and costs it its footer: here at the smallest budget of 1024. */
  lemma LongContributionBreaksPromises(b: Block)
    requires WellFormed(b.name) && WellFormed(b.body) && |b.name| <= 700 && |b.body| >= 800
    ensures var prompt := Prompt([], [b], STREAM, Some(256), None);
      && EffectiveMaxPromptChars(Some(256), None) == 1024
      && |prompt| > 1024 && !EndsIn(prompt, STREAM.footer)
  {
    hide Prompt, WellFormed, EndsIn, Prefix, Headers;
    AsciiWellFormed([]);
    OneBlockParts([], b);
    PromptPromisesKeptIff([], [b], STREAM, Some(256), None);
  }

  lemma TwoBlockParts(userPrompt: Text, a: Block, b: Block)
    ensures StreamParts(userPrompt, [a, b]) == 243 + |userPrompt| + |a.name| + |b.name|
    ensures Lens(Bodies([a, b])) == [|a.body|, |b.body|] && Total(Lens(Bodies([a, b]))) == |a.body| + |b.body|
    ensures Lens(Headers([a, b], STREAM)) == [14 + |a.name|, 14 + |b.name|]
  {
    hide Header, Prefix, Total;
    StreamLengths();
    PrefixLen(userPrompt);
    SmallHeaderLen(1, a);
    SmallHeaderLen(2, b);
    assert Lens(Headers([a, b], STREAM)) == [14 + |a.name|, 14 + |b.name|];
    assert Lens(Bodies([a, b])) == [|a.body|, |b.body|];
    TotalOfTwo(14 + |a.name|, 14 + |b.name|);
    TotalOfTwo(|a.body|, |b.body|);
  }

  lemma TwoEqualShares(room: nat)
    requires 0 < room < 256
    ensures Total([200, 200]) == 400 && Allot(room, [200, 200]) == [128, 128]
  {
    var lens := [200, 200];
    TotalOfTwo(200, 200);
    assert room * 200 / 400 < 128;
    assert Shares(room, lens, 400) == [128, 128];
    assert [128, 128][..1] == [128] && [128][..0] == [];
    assert Claimed(lens, [128, 128]) == 256;
  }

  /** ASCII input alone does not give the greatest length: a streamed prompt at the smallest budget with
      two contributions of 200 bytes, and a request that puts the cut into the second one's ellipsis. */
  lemma AsciiPromptCanBeShorter(userPrompt: Text, a: Block, b: Block)
    requires IsAscii(userPrompt) && IsAscii(a.name) && IsAscii(a.body) && IsAscii(b.name) && IsAscii(b.body)
    requires |userPrompt| == 620 && |a.name| == |b.name| == 1 && |a.body| == |b.body| == 200
    ensures |Prompt(userPrompt, [a, b], STREAM, Some(256), None)| < 1024 - 1 + |TRUNC_MARKER|
  {
    hide Prompt, Fitted, InEllipsis, IsAscii, Allot, Prefix, Headers, Bodies;
    var headers, bodies := Headers([a, b], STREAM), Bodies([a, b]);
    var prefix, footer := Prefix(userPrompt, STREAM), STREAM.footer;
    TwoBlockParts(userPrompt, a, b);
    TwoEqualShares(1024 - 865);
    StreamIsAscii(userPrompt, a, b);
    PrefixLen(userPrompt);
    AsciiResultIsLongestIff(prefix, headers, bodies, footer, 1024);
    CutInEllipsis(687);
    ResultIsBounded(prefix, headers, bodies, footer, 1024);
    PromptIs(userPrompt, [a, b]);
  }

  lemma PromptIs(userPrompt: Text, blocks: seq<Block>)
    ensures Prompt(userPrompt, blocks, STREAM, Some(256), None)
      == Fitted(Prefix(userPrompt, STREAM), Headers(blocks, STREAM), Bodies(blocks), STREAM.footer, 1024)
  {
    hide Fitted;
  }

  lemma CutInEllipsis(start: nat)
    requires start == 687
    ensures Matching([15, 15], [200, 200], [128, 128])
    ensures InEllipsis(start, [15, 15], [200, 200], [128, 128], 2, 1023)
  {
    MarkerEnd();
    var h, l, a := [15, 15], [200, 200], [128, 128];
    assert BlocksEnd(start, h, l, a, 0) == start;
    assert BlocksEnd(start, h, l, a, 1) == start + 15 + 174;
    assert MarkerAt(start, h, l, a, 1) == 1018;
  }

  lemma StreamIsAscii(userPrompt: Text, a: Block, b: Block)
    requires IsAscii(userPrompt) && IsAscii(a.name) && IsAscii(a.body) && IsAscii(b.name) && IsAscii(b.body)
    ensures IsAscii(Prefix(userPrompt, STREAM)) && AllAscii(Headers([a, b], STREAM))
    ensures AllAscii(Bodies([a, b])) && IsAscii(STREAM.footer)
  {
  }
}
