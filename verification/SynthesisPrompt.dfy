/** The synthesizer prompt built from labelled contributions (internal/synthesis/budget.go). */
module SynthesisPrompt {
  import opened Wrappers
  import opened Bytes
  import opened PromptBudget
  import opened AssembleFit
  import AssembleBounds

  /** One labelled contribution. */
  datatype Block = Block(name: Text, body: Text)

  /** How a prompt is worded: its introduction, the kind of contribution (empty for the numbered
      stream form) and its footer. */
  datatype Wording = Wording(intro: Text, kind: Text, footer: Text)

  const DASH: Text := [0xE2, 0x80, 0x94]

  const INTEGRATE: Text := Ascii("\n\nProduce ONE consolidated answer that integrates the above contributions. ")

  const STRONGEST: Text := INTEGRATE
    + Ascii("Resolve contradictions, drop redundancy, and keep only the strongest material. ")

  function DashedFooter(instruction: string): Text {
    STRONGEST + Ascii(instruction) + DASH + Ascii(" write the final answer directly.")
  }

  const PIPELINE: Wording := Wording(
    Ascii("\n>>>\n\nThe following agents produced staged outputs:\n"), Ascii("Stage"),
    DashedFooter("Do not enumerate the stages "))

  const CASCADE: Wording := Wording(
    Ascii("\n>>>\n\nThe following agents responded in parallel:\n"), Ascii("Response"),
    DashedFooter("Do not enumerate the responders "))

  const STREAM: Wording := Wording(
    Ascii("\n>>>\n\nThe following agents contributed:\n"), [],
    INTEGRATE + Ascii("Resolve contradictions, drop redundancy. Write the final answer directly."))

  function Prefix(userPrompt: Text, w: Wording): Text {
    Ascii("Original user request:\n<<<\n") + userPrompt + w.intro
  }

  function Header(n: nat, b: Block, w: Wording): Text {
    Ascii("\n--- ") + (if w.kind == [] then [] else w.kind + [32]) + Decimal(n) + Ascii(" (") + b.name + Ascii(") ---\n")
  }

  function Headers(blocks: seq<Block>, w: Wording): (headers: seq<Text>)
    ensures |headers| == |blocks|
  {
    seq(|blocks|, i requires 0 <= i < |blocks| => Header(i + 1, blocks[i], w))
  }

  function Bodies(blocks: seq<Block>): (bodies: seq<Text>)
    ensures |bodies| == |blocks|
  {
    seq(|blocks|, i requires 0 <= i < |blocks| => blocks[i].body)
  }

  function Prompt(userPrompt: Text, blocks: seq<Block>, w: Wording, tokens: Option<int>, synth: Option<Synth>): Text {
    Fitted(Prefix(userPrompt, w), Headers(blocks, w), Bodies(blocks), w.footer, EffectiveMaxPromptChars(tokens, synth))
  }

  /** `buildPrompt`. */
  method BuildPrompt(userPrompt: Text, blocks: seq<Block>, w: Wording, tokens: Option<int>, synth: Option<Synth>)
    returns (prompt: Text)
    ensures prompt == Prompt(userPrompt, blocks, w, tokens, synth)
  {
    hide Fitted, Header, FittedBodies, Overflows;
    var headers: array<Text> := new Text[|blocks|];
    var bodies: array<Text> := new Text[|blocks|];
    for i := 0 to |blocks|
      invariant forall k | 0 <= k < i :: headers[k] == Header(k + 1, blocks[k], w) && bodies[k] == blocks[k].body
    {
      headers[i] := Header(i + 1, blocks[i], w);
      bodies[i] := blocks[i].body;
    }
    assert headers[..] == Headers(blocks, w) && bodies[..] == Bodies(blocks);
    prompt := Assemble(Prefix(userPrompt, w), headers[..], bodies, w.footer, EffectiveMaxPromptChars(tokens, synth));
  }

  /** Every prompt fits its budget up to the marker, and the budget lies in a fixed range. */
  lemma PromptIsBounded(userPrompt: Text, blocks: seq<Block>, w: Wording, tokens: Option<int>, synth: Option<Synth>)
    ensures |Prompt(userPrompt, blocks, w, tokens, synth)|
      <= EffectiveMaxPromptChars(tokens, synth) + |TRUNC_MARKER| - 1
      < MAX_PROMPT_CHARS + |TRUNC_MARKER|
  {
    hide Fitted;
    AssembleBounds.ResultIsBounded(Prefix(userPrompt, w), Headers(blocks, w), Bodies(blocks), w.footer,
                                   EffectiveMaxPromptChars(tokens, synth));
  }
}
