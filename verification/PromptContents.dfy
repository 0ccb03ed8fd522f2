/** What stands in a synthesizer prompt (internal/synthesis/budget.go, assemble.go, tiered.go): every
    contribution under its own header, whole when everything fits and cut to its allotment otherwise. */
module PromptContents {
  import opened Wrappers
  import opened Bytes
  import opened Utf8
  import opened Allocation
  import opened PromptBudget
  import opened AssembleFit
  import opened AssembleBounds
  import opened SynthesisPrompt
  import opened PairwiseReduction

  // ---- joining ----

  /** Header and body of each contribution, one after the other. */
  function Pieces(headers: seq<Text>, bodies: seq<Text>): (pieces: seq<Text>)
    requires |headers| == |bodies|
    ensures |pieces| == |bodies|
  {
    seq(|bodies|, i requires 0 <= i < |bodies| => headers[i] + bodies[i])
  }

  lemma {:induction false} BlocksArePieces(headers: seq<Text>, bodies: seq<Text>)
    requires |headers| == |bodies|
    ensures Blocks(headers, bodies) == Concat(Pieces(headers, bodies))
  {
    hide Concat;
    if bodies == [] {
      ConcatCons([]);
    } else {
      var n := |bodies| - 1;
      BlocksArePieces(headers[..n], bodies[..n]);
      var pieces := Pieces(headers, bodies);
      assert pieces[..n] == Pieces(headers[..n], bodies[..n]);
      assert pieces == pieces[..n] + [pieces[n]];
      ConcatAppend(pieces[..n], [pieces[n]]);
      ConcatOne(pieces[n]);
      Regroup(Blocks(headers[..n], bodies[..n]), headers[n], bodies[n]);
    }
  }

  /** What is joined is the prefix, every header with its body behind it, in order, and the footer. */
  lemma JoinIsPieces(prefix: Text, headers: seq<Text>, bodies: seq<Text>, footer: Text)
    requires |headers| == |bodies|
    ensures Join(prefix, headers, bodies, footer) == prefix + Concat(Pieces(headers, bodies)) + footer
  {
    hide Concat, Blocks;
    BlocksArePieces(headers, bodies);
  }

  // ---- a prompt that fits ----

  /** The header of contribution `i`: its number, behind the kind when there is one, and its name. */
  function Label(i: nat, name: Text, kind: Text): Text {
    Ascii("\n--- ") + (if kind == [] then Decimal(i + 1) else kind + [32] + Decimal(i + 1)) + Ascii(" (") + name + Ascii(") ---\n")
  }

  /** The request, every contribution under its label with nothing left out, and the footer. */
  function Whole(userPrompt: Text, blocks: seq<Block>, w: Wording): Text {
    Ascii("Original user request:\n<<<\n") + userPrompt + w.intro
    + Concat(seq(|blocks|, i requires 0 <= i < |blocks| => Label(i, blocks[i].name, w.kind) + blocks[i].body))
    + w.footer
  }

  function Emptied(blocks: seq<Block>): (empty: seq<Block>)
    ensures |empty| == |blocks|
  {
    seq(|blocks|, i requires 0 <= i < |blocks| => Block(blocks[i].name, []))
  }

  lemma HeaderIsLabel(i: nat, b: Block, w: Wording)
    ensures Header(i + 1, b, w) == Label(i, b.name, w.kind)
  {
    hide Ascii, Decimal;
    if w.kind != [] {
      Regroup(Ascii("\n--- "), w.kind + [32], Decimal(i + 1));
    }
    assert Ascii("\n--- ") + [] == Ascii("\n--- ");
  }

  lemma WholeIsJoin(userPrompt: Text, blocks: seq<Block>, w: Wording)
    ensures Whole(userPrompt, blocks, w) == Join(Prefix(userPrompt, w), Headers(blocks, w), Bodies(blocks), w.footer)
  {
    hide Header, Label, Concat, Ascii, Join;
    JoinIsPieces(Prefix(userPrompt, w), Headers(blocks, w), Bodies(blocks), w.footer);
    forall i | 0 <= i < |blocks| ensures Header(i + 1, blocks[i], w) == Label(i, blocks[i].name, w.kind) {
      HeaderIsLabel(i, blocks[i], w);
    }
    assert Pieces(Headers(blocks, w), Bodies(blocks))
      == seq(|blocks|, i requires 0 <= i < |blocks| => Label(i, blocks[i].name, w.kind) + blocks[i].body);
  }

  lemma {:induction false} NoBodiesNoLength(parts: seq<Text>)
    requires forall i | 0 <= i < |parts| :: parts[i] == []
    ensures Total(Lens(parts)) == 0
  {
    if parts != [] {
      TotalOfLens(parts);
      NoBodiesNoLength(parts[..|parts| - 1]);
    }
  }

  /** What a prompt takes besides its bodies. */
  lemma OverheadIsWholeEmptied(userPrompt: Text, blocks: seq<Block>, w: Wording)
    ensures |Whole(userPrompt, Emptied(blocks), w)| == Overhead(Prefix(userPrompt, w), Headers(blocks, w), w.footer)
  {
    hide Header, Join, Whole, Ascii, Total, Lens;
    var empty := Emptied(blocks);
    WholeIsJoin(userPrompt, empty, w);
    forall i | 0 <= i < |blocks| ensures Header(i + 1, empty[i], w) == Header(i + 1, blocks[i], w) {
      HeaderOfName(i + 1, empty[i], blocks[i], w);
    }
    assert Headers(empty, w) == Headers(blocks, w);
    JoinLen(Prefix(userPrompt, w), Headers(empty, w), Bodies(empty), w.footer);
    NoBodiesNoLength(Bodies(empty));
  }

  lemma HeaderOfName(n: nat, a: Block, b: Block, w: Wording)
    requires a.name == b.name
    ensures Header(n, a, w) == Header(n, b, w)
  {
  }

  /** When the whole fits the budget, and its fixed parts leave more than 16 bytes of it, the prompt is the
      whole: every contribution stands in full under its own label, in order. */
  lemma FittingPromptIsWhole(userPrompt: Text, blocks: seq<Block>, w: Wording, tokens: Option<int>, synth: Option<Synth>)
    requires |Whole(userPrompt, blocks, w)| <= EffectiveMaxPromptChars(tokens, synth)
    requires |Whole(userPrompt, Emptied(blocks), w)| + 16 < EffectiveMaxPromptChars(tokens, synth)
    ensures Prompt(userPrompt, blocks, w, tokens, synth) == Whole(userPrompt, blocks, w)
  {
    hide Whole, Fitted, EffectiveMaxPromptChars, Join;
    WholeIsJoin(userPrompt, blocks, w);
    OverheadIsWholeEmptied(userPrompt, blocks, w);
    FittingContentIsVerbatim(Prefix(userPrompt, w), Headers(blocks, w), Bodies(blocks), w.footer,
                             EffectiveMaxPromptChars(tokens, synth));
  }

  // ---- a prompt that does not fit ----

  /** A body is left alone within its allotment and otherwise cut to it, with the marker behind. */
  ghost predicate IsCut(cut: Text, body: Text, allotted: nat) {
    if |body| <= allotted then cut == body
    else exists k | allotted - 4 <= k < allotted :: 0 <= k <= |body| && WellFormed(body[..k]) && cut == body[..k] + TRUNC_MARKER
  }

  lemma TruncatedIsCut(body: Text, allotted: nat)
    requires WellFormed(body) && allotted > 80
    ensures IsCut(TruncateNote(body, allotted), body, allotted)
  {
    hide WellFormed, ToValid;
    if |body| > allotted {
      var k := TruncateNoteKeepsHead(body, allotted);
      assert allotted - 4 <= k < allotted && k <= |body|;
    }
  }

  /** In the trim branch every contribution still stands under its label, in order, left alone or cut to
      its allotment; then the whole is cut once more. */
  lemma TrimmedPromptKeepsAll(prefix: Text, headers: seq<Text>, bodies: seq<Text>, footer: Text, maxTotal: nat)
      returns (cuts: seq<Text>)
    requires Overflows(prefix, headers, bodies, footer, maxTotal) && AllWellFormed(bodies)
    ensures Total(Lens(bodies)) > 0 && |cuts| == |bodies| == |Allot(maxTotal - Overhead(prefix, headers, footer), Lens(bodies))|
    ensures forall i | 0 <= i < |cuts| ::
      IsCut(cuts[i], bodies[i], Allot(maxTotal - Overhead(prefix, headers, footer), Lens(bodies))[i])
    ensures Fitted(prefix, headers, bodies, footer, maxTotal)
      == TruncateNote(prefix + Concat(Pieces(headers, cuts)) + footer, maxTotal)
  {
    hide Concat, WellFormed, Overhead, TruncateNote, IsCut, Allot, Total;
    TotalIsMore(prefix, headers, bodies, footer, maxTotal);
    var room := maxTotal - Overhead(prefix, headers, footer);
    var alloc := Allot(room, Lens(bodies));
    AllotmentUsesRoom(room, Lens(bodies));
    cuts := FittedBodies(prefix, headers, bodies, footer, maxTotal);
    forall i | 0 <= i < |cuts| ensures IsCut(cuts[i], bodies[i], alloc[i]) {
      assert bodies[i] in bodies;
      TruncatedIsCut(bodies[i], alloc[i]);
    }
    JoinIsPieces(prefix, headers, cuts, footer);
  }

  /** With no room for the bodies the prefix is cut to a third of the budget and every body to 256 bytes;
      they still stand in order, and then the whole is cut. */
  lemma CrampedPromptKeepsHeads(prefix: Text, headers: seq<Text>, bodies: seq<Text>, footer: Text, maxTotal: nat)
      returns (front: Text, cuts: seq<Text>)
    requires |headers| == |bodies| && maxTotal <= Overhead(prefix, headers, footer) + 16
    requires WellFormed(prefix) && AllWellFormed(bodies) && maxTotal / 3 > 80
    ensures IsCut(front, prefix, maxTotal / 3)
    ensures |cuts| == |bodies| && forall i | 0 <= i < |cuts| :: IsCut(cuts[i], bodies[i], 256)
    ensures Fitted(prefix, headers, bodies, footer, maxTotal)
      == TruncateNote(front + Concat(Pieces(headers, cuts)) + footer, maxTotal)
  {
    hide Concat, WellFormed, Overhead, TruncateNote, IsCut, Join;
    front, cuts := TruncateNote(prefix, maxTotal / 3), Short(bodies);
    TruncatedIsCut(prefix, maxTotal / 3);
    forall i | 0 <= i < |cuts| ensures IsCut(cuts[i], bodies[i], 256) {
      assert bodies[i] in bodies;
      TruncatedIsCut(bodies[i], 256);
    }
    JoinIsPieces(front, headers, cuts, footer);
  }

  lemma TotalIsMore(prefix: Text, headers: seq<Text>, bodies: seq<Text>, footer: Text, maxTotal: nat)
    requires Overflows(prefix, headers, bodies, footer, maxTotal)
    ensures Overhead(prefix, headers, footer) < maxTotal < TotalLen(prefix, headers, bodies, footer)
    ensures Total(Lens(bodies)) > maxTotal - Overhead(prefix, headers, footer) > 0
  {
    hide Overhead;
  }

  // ---- merging two contributions ----

  /** Both contributions, the first in front of the second. */
  lemma WholeOfTwo(userPrompt: Text, a: Block, b: Block, w: Wording)
    ensures Whole(userPrompt, [a, b], w)
      == Ascii("Original user request:\n<<<\n") + userPrompt + w.intro
         + ((Label(0, a.name, w.kind) + a.body) + (Label(1, b.name, w.kind) + b.body)) + w.footer
  {
    hide Label, Concat, Ascii;
    var pieces := seq(2, i requires 0 <= i < 2 => Label(i, [a, b][i].name, w.kind) + [a, b][i].body);
    assert pieces == [pieces[0]] + [pieces[1]];
    ConcatAppend([pieces[0]], [pieces[1]]);
    ConcatOne(pieces[0]);
    ConcatOne(pieces[1]);
  }

  /** A merge is one call, with a prompt that has both of the blocks it merges, the left one first, in full
      whenever they fit; and what it makes of them is the answer to that call. */
  lemma MergeAsksAboutBoth(t: Tree, s: Setting, calls: seq<Text>)
    requires t.Merge? && Called(t, s, calls)
    ensures var w := if s.pipelineLabels then PIPELINE else CASCADE;
      var a, b := BlockOf(t.left, s), BlockOf(t.right, s);
      var whole := Ascii("Original user request:\n<<<\n") + s.userPrompt + w.intro
        + ((Label(0, a.name, w.kind) + a.body) + (Label(1, b.name, w.kind) + b.body)) + w.footer;
      && t.call < |calls|
      && BlockOf(t, s) == Block(t.name, s.reply(t.call, calls[t.call]))
      && (|whole| <= EffectiveMaxPromptChars(s.tokens, Some(s.synth))
          && |whole| - |a.body| - |b.body| + 16 < EffectiveMaxPromptChars(s.tokens, Some(s.synth))
          ==> calls[t.call] == whole)
  {
    hide Label, Ascii, EffectiveMaxPromptChars, Prompt, Whole;
    hide PIPELINE, CASCADE;
    var w := if s.pipelineLabels then PIPELINE else CASCADE;
    var a, b := BlockOf(t.left, s), BlockOf(t.right, s);
    WholeOfTwo(s.userPrompt, a, b, w);
    WholeOfTwo(s.userPrompt, Block(a.name, []), Block(b.name, []), w);
    assert Emptied([a, b]) == [Block(a.name, []), Block(b.name, [])];
    if |Whole(s.userPrompt, [a, b], w)| <= EffectiveMaxPromptChars(s.tokens, Some(s.synth))
       && |Whole(s.userPrompt, [a, b], w)| - |a.body| - |b.body| + 16 < EffectiveMaxPromptChars(s.tokens, Some(s.synth)) {
      FittingPromptIsWhole(s.userPrompt, [a, b], w, s.tokens, Some(s.synth));
    }
  }
}
