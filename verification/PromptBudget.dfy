/** The synthesizer's prompt budget and truncation to it (internal/synthesis/budget.go). */
module PromptBudget {
  import opened Wrappers
  import opened Bytes
  import opened Utf8

  /** Two newlines and a note that opens with an ellipsis character. */
  const TRUNC_MARKER: Text :=
    [LF, LF, 91, 0xE2, 0x80, 0xA6] + Ascii("truncated for synthesizer context budget]")

  const MIN_PROMPT_CHARS := 1024
  const MAX_PROMPT_CHARS := 1048576

  /** The fields of the synthesizer agent the budget is derived from. */
  datatype Synth = Synth(contextWindow: int, maxTokens: int)

  function Clamp(v: int, lo: int, hi: int): int {
    if v < lo then lo else if v > hi then hi else v
  }

  /** `EffectiveMaxPromptChars`. `tokens` is the environment override when it is set and a number. */
  function EffectiveMaxPromptChars(tokens: Option<int>, synth: Option<Synth>): (chars: nat)
    ensures MIN_PROMPT_CHARS <= chars <= MAX_PROMPT_CHARS
    ensures chars % 4 == 0
    ensures tokens.Some? && 256 <= tokens.value <= 262144 ==> chars == 4 * tokens.value
    ensures var given := tokens.Some? && 256 <= tokens.value <= 262144;
      var derived := synth.Some? && synth.value.contextWindow >= 512;
      !given && !derived ==> chars == 5600
  {
    if tokens.Some? && 256 <= tokens.value <= 262144 then tokens.value * 4
    else if synth.Some? && synth.value.contextWindow >= 512 then
      var ctx := synth.value.contextWindow;
      var mt := if synth.value.maxTokens < 1 then 1 else synth.value.maxTokens;
      if ctx <= mt + 768 + 64 then 256 * 4
      else Clamp(ctx - mt - 768, 256, 262144) * 4
    else 1400 * 4
  }

  /** Without an override a window of at least 512 tokens is shared out: what the budget takes, in tokens
      of four bytes, the completion and the reserve of 768 make up the window, whenever the rest is between
      256 and 262144 tokens; otherwise the budget is the nearer of the two. */
  lemma WindowIsShared(tokens: Option<int>, window: int, maxTokens: int)
    requires (tokens.Some? ==> tokens.value < 256 || tokens.value > 262144) && window >= 512
    ensures var chars := EffectiveMaxPromptChars(tokens, Some(Synth(window, maxTokens)));
      var completion := if maxTokens < 1 then 1 else maxTokens;
      var rest := window - completion - 768;
      && (256 <= rest <= 262144 ==> chars / 4 + completion + 768 == window)
      && (rest < 256 ==> chars == 1024) && (rest > 262144 ==> chars == 1048576)
  {
  }

  /** A wider window never makes the budget smaller, and a longer completion never larger. */
  lemma BudgetFollowsWindow(tokens: Option<int>, window: int, wider: int, maxTokens: int, fewer: int)
    requires 512 <= window <= wider && fewer <= maxTokens
    ensures EffectiveMaxPromptChars(tokens, Some(Synth(window, maxTokens)))
      <= EffectiveMaxPromptChars(tokens, Some(Synth(wider, fewer)))
  {
  }

  /** `truncateNote`: the text cut to its cap, with a marker unless the cap is tiny. */
  function TruncateNote(s: Text, maxChars: nat): Text {
    if |s| <= maxChars then s
    else if maxChars <= 80 then ToValid(s[..maxChars])
    else ToValid(s[..maxChars - 1]) + TRUNC_MARKER
  }

  /** The marker can take a cut text over its cap, never by more than all but one of its bytes. */
  lemma TruncateNoteBound(s: Text, maxChars: nat)
    ensures |TruncateNote(s, maxChars)| <= maxChars + |TRUNC_MARKER| - 1
    ensures maxChars <= 80 ==> |TruncateNote(s, maxChars)| <= maxChars
  {
    assert |TRUNC_MARKER| >= 1;
  }

  lemma MarkerWellFormed()
    ensures WellFormed(TRUNC_MARKER) && |TRUNC_MARKER| > 6
  {
    var tail := Ascii("truncated for synthesizer context budget]");
    AsciiWellFormed([LF, LF, 91]);
    assert RuneLen([0xE2, 0x80, 0xA6]) == 3 && [0xE2, 0x80, 0xA6][3..] == [];
    AsciiWellFormed(tail);
    WellFormedConcat([LF, LF, 91], [0xE2, 0x80, 0xA6]);
    WellFormedConcat([LF, LF, 91] + [0xE2, 0x80, 0xA6], tail);
    assert [LF, LF, 91] + [0xE2, 0x80, 0xA6] == [LF, LF, 91, 0xE2, 0x80, 0xA6];
  }

  /** Cut well-formed text is its whole characters in front of the cut, then the marker; it stays
      well-formed and is longer than the cap. */
  lemma TruncateNoteKeepsHead(s: Text, maxChars: nat) returns (k: nat)
    requires WellFormed(s) && 80 < maxChars < |s|
    ensures maxChars - 4 <= k <= maxChars - 1 && WellFormed(s[..k])
    ensures k == maxChars - 1 <==> Boundary(s, maxChars - 1)
    ensures k == Floor(s, maxChars - 1)
    ensures TruncateNote(s, maxChars) == s[..k] + TRUNC_MARKER
    ensures WellFormed(TruncateNote(s, maxChars)) && |TruncateNote(s, maxChars)| > maxChars
  {
    hide WellFormed, ToValid;
    k := Floor(s, maxChars - 1);
    CutHead(s, maxChars - 1);
    BoundariesAreDense(s, maxChars - 1);
    MarkerWellFormed();
    WellFormedConcat(s[..k], TRUNC_MARKER);
  }
}
