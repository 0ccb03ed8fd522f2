/** Tiered synthesis: contributions merged two at a time, round by round
    (internal/synthesis/tiered.go). */
module PairwiseReduction {
  import opened Wrappers
  import opened Bytes
  import opened PromptBudget
  import opened SynthesisPrompt

  const ROUND_CAP := 64

  /** What the reduction is given besides its blocks. `reply(n, prompt)` is the caller's answer to the
      call number `n`, made with `prompt`. */
  datatype Setting = Setting(reply: (nat, Text) -> Text, userPrompt: Text, pipelineLabels: bool,
                             tokens: Option<int>, synth: Synth)

  function MergePrompt(s: Setting, blocks: seq<Block>): Text {
    Prompt(s.userPrompt, blocks, if s.pipelineLabels then PIPELINE else CASCADE, s.tokens, Some(s.synth))
  }

  function MergeName(round: nat, place: nat): Text {
    Ascii("merge_r") + Decimal(round) + Ascii("_") + Decimal(place)
  }

  // ---- merge trees ----

  /** How a block came about: it was given, or call number `call` merged two others into it. */
  datatype Tree = Leaf(block: Block) | Merge(name: Text, left: Tree, right: Tree, call: nat)

  function BlockOf(t: Tree, s: Setting): Block {
    match t
    case Leaf(b) => b
    case Merge(name, l, r, call) => Block(name, s.reply(call, MergePrompt(s, [BlockOf(l, s), BlockOf(r, s)])))
  }

  function Leaves(t: Tree): seq<Block> {
    match t
    case Leaf(b) => [b]
    case Merge(_, l, r, _) => Leaves(l) + Leaves(r)
  }

  function Depth(t: Tree): nat {
    match t
    case Leaf(_) => 0
    case Merge(_, l, r, _) => 1 + if Depth(l) > Depth(r) then Depth(l) else Depth(r)
  }

  function AllLeaves(ts: seq<Tree>): seq<Block> {
    if ts == [] then [] else Leaves(ts[0]) + AllLeaves(ts[1..])
  }

  function BlocksOf(ts: seq<Tree>, s: Setting): seq<Block> {
    seq(|ts|, i requires 0 <= i < |ts| => BlockOf(ts[i], s))
  }

  function Given(blocks: seq<Block>): seq<Tree> {
    seq(|blocks|, i requires 0 <= i < |blocks| => Leaf(blocks[i]))
  }

  /** One round: neighbours are merged, an odd one at the end is carried over. */
  function Round(ts: seq<Tree>, round: nat, place: nat, call: nat): seq<Tree> {
    if |ts| <= 1 then ts
    else [Merge(MergeName(round, place), ts[0], ts[1], call)] + Round(ts[2..], round, place + 1, call + 1)
  }

  /** The rounds after `round`, up to the cap: the code stops once the round just finished is past
      the cap. */
  function Rounds(ts: seq<Tree>, round: nat, call: nat): seq<Tree>
    requires round <= ROUND_CAP + 1
    decreases ROUND_CAP + 1 - round
  {
    if |ts| <= 1 || round > ROUND_CAP then ts
    else Rounds(Round(ts, round + 1, 0, call), round + 1, call + |ts| / 2)
  }

  /** Every merge of the tree was the call it is numbered with. */
  ghost predicate Called(t: Tree, s: Setting, calls: seq<Text>) {
    match t
    case Leaf(_) => true
    case Merge(_, l, r, call) =>
      && call < |calls| && calls[call] == MergePrompt(s, [BlockOf(l, s), BlockOf(r, s)])
      && Called(l, s, calls) && Called(r, s, calls)
  }

  ghost predicate AllCalled(ts: seq<Tree>, s: Setting, calls: seq<Text>) {
    forall t | t in ts :: Called(t, s, calls)
  }

  /** How many merges of the tree have the call number `i`. */
  function Numbered(t: Tree, i: nat): nat {
    match t
    case Leaf(_) => 0
    case Merge(_, l, r, call) => Numbered(l, i) + Numbered(r, i) + if call == i then 1 else 0
  }

  function AllNumbered(ts: seq<Tree>, i: nat): nat {
    if ts == [] then 0 else Numbered(ts[0], i) + AllNumbered(ts[1..], i)
  }

  // ---- the code ----

  /** `ReducePairwise`. `calls` are the prompts the caller was called with, in order, and `round` is
      how many rounds were made. */
  method ReducePairwise(s: Setting, blocks: seq<Block>) returns (out: Text, calls: seq<Text>, round: nat)
    ensures round == if CeilLog2(|blocks|) <= ROUND_CAP + 1 then CeilLog2(|blocks|) else ROUND_CAP + 1
    ensures blocks == [] ==> out == [] && calls == []
    ensures |blocks| == 1 ==> calls == [MergePrompt(s, blocks)] && out == s.reply(0, MergePrompt(s, blocks))
    ensures |blocks| >= 2 ==>
      var ts := Rounds(Given(blocks), 0, 0);
      |ts| >= 1 && out == BlockOf(ts[0], s).body && |calls| == |blocks| - |ts| && AllCalled(ts, s, calls)
  {
    hide MergePrompt, MergeName, Round, Rounds, BlockOf, Called, AllCalled;
    if |blocks| == 0 {
      return [], [], 0;
    }
    if |blocks| == 1 {
      var prompt := MergePrompt(s, blocks[..1]);
      assert blocks[..1] == blocks;
      return s.reply(0, prompt), [prompt], 0;
    }
    var left := blocks;
    ghost var ts := Given(blocks);
    GivenFacts(blocks, s);
    calls := [];
    round := 0;
    while |left| > 1
      invariant round <= ROUND_CAP
      invariant round + CeilLog2(|left|) == CeilLog2(|blocks|)
      invariant |ts| >= 1 && left == BlocksOf(ts, s)
      invariant |calls| == |blocks| - |ts| && AllCalled(ts, s, calls)
      invariant Rounds(ts, round, |calls|) == Rounds(Given(blocks), 0, 0)
      decreases |left|
    {
      round := round + 1;
      ghost var after := Round(ts, round, 0, |calls|);
      RoundHalves(ts, round, 0, |calls|);
      RoundsStep(ts, round - 1, |calls|);
      left, calls := OneRound(s, left, round, calls, ts);
      ts := after;
      if round > ROUND_CAP {
        break;
      }
    }
    RoundsStop(ts, round, |calls|);
    out := left[0].body;
  }

  lemma RoundsStep(ts: seq<Tree>, round: nat, call: nat)
    requires |ts| > 1 && round <= ROUND_CAP
    ensures Rounds(ts, round, call) == Rounds(Round(ts, round + 1, 0, call), round + 1, call + |ts| / 2)
  {
    hide Round;
  }

  lemma RoundsStop(ts: seq<Tree>, round: nat, call: nat)
    requires round <= ROUND_CAP + 1
    ensures |ts| <= 1 || round > ROUND_CAP ==> Rounds(ts, round, call) == ts
  {
  }

  /** The inner loop of a round. */
  method OneRound(s: Setting, blocks: seq<Block>, round: nat, before: seq<Text>, ghost ts: seq<Tree>)
    returns (next: seq<Block>, calls: seq<Text>)
    requires blocks == BlocksOf(ts, s) && AllCalled(ts, s, before)
    ensures var after := Round(ts, round, 0, |before|);
      && next == BlocksOf(after, s)
      && |calls| == |before| + |ts| - |after|
      && AllCalled(after, s, calls)
  {
    hide MergePrompt, MergeName, BlockOf, Called, Round;
    next, calls := [], before;
    ghost var done: seq<Tree> := [];
    var i := 0;
    while i < |blocks|
      invariant i <= |blocks| && (i < |blocks| ==> i % 2 == 0)
      invariant next == BlocksOf(done, s)
      invariant |calls| + |done| == |before| + i
      invariant AllCalled(done, s, calls) && AllCalled(ts, s, calls)
      invariant i < |blocks| ==> |done| * 2 == i
      invariant done + Round(ts[i..], round, |done|, |calls|) == Round(ts, round, 0, |before|)
      decreases |blocks| - i
    {
      RoundStep(ts[i..], round, |done|, |calls|, done);
      assert ts[i] in ts;
      if i + 1 < |blocks| {
        assert ts[i + 1] in ts;
        var pair := [blocks[i], blocks[i + 1]];
        ghost var t := Merge(MergeName(round, |done|), ts[i], ts[i + 1], |calls|);
        var prompt := MergePrompt(s, pair);
        var merged := s.reply(|calls|, prompt);
        MergedBlock(t, s, calls);
        StillCalled(ts, s, calls, prompt);
        StillCalled(done, s, calls, prompt);
        next := next + [Block(MergeName(round, |next|), merged)];
        calls := calls + [prompt];
        done := done + [t];
        assert ts[i..][2..] == ts[i + 2..];
        i := i + 2;
      } else {
        next := next + [blocks[i]];
        done := done + [ts[i]];
        assert ts[i + 1..] == [];
        NoTrees(round, |done|, |calls|);
        i := i + 1;
      }
    }
    assert ts[i..] == [];
    NoTrees(round, |done|, |calls|);
    assert done + [] == done;
  }

  lemma GivenFacts(blocks: seq<Block>, s: Setting)
    ensures BlocksOf(Given(blocks), s) == blocks
    ensures AllCalled(Given(blocks), s, [])
  {
  }

  lemma NoTrees(round: nat, place: nat, call: nat)
    ensures Round([], round, place, call) == []
  {
  }

  lemma RoundStep(ts: seq<Tree>, round: nat, place: nat, call: nat, done: seq<Tree>)
    requires ts != []
    ensures done + Round(ts, round, place, call) ==
      if |ts| == 1 then done + [ts[0]]
      else done + [Merge(MergeName(round, place), ts[0], ts[1], call)] + Round(ts[2..], round, place + 1, call + 1)
  {
    if |ts| > 1 {
      Regroup(done, [Merge(MergeName(round, place), ts[0], ts[1], call)], Round(ts[2..], round, place + 1, call + 1));
    }
  }

  lemma MergedBlock(t: Tree, s: Setting, calls: seq<Text>)
    requires t.Merge? && t.call == |calls| && Called(t.left, s, calls) && Called(t.right, s, calls)
    ensures var prompt := MergePrompt(s, [BlockOf(t.left, s), BlockOf(t.right, s)]);
      && BlockOf(t, s) == Block(t.name, s.reply(t.call, prompt))
      && Called(t, s, calls + [prompt])
  {
    hide MergePrompt;
    var prompt := MergePrompt(s, [BlockOf(t.left, s), BlockOf(t.right, s)]);
    CalledStays(t.left, s, calls, prompt);
    CalledStays(t.right, s, calls, prompt);
  }

  lemma {:induction false} CalledStays(t: Tree, s: Setting, calls: seq<Text>, more: Text)
    requires Called(t, s, calls)
    ensures Called(t, s, calls + [more])
  {
    hide MergePrompt, BlockOf;
    if t.Merge? {
      CalledStays(t.left, s, calls, more);
      CalledStays(t.right, s, calls, more);
    }
  }

  lemma StillCalled(ts: seq<Tree>, s: Setting, calls: seq<Text>, more: Text)
    requires AllCalled(ts, s, calls)
    ensures AllCalled(ts, s, calls + [more])
  {
    forall t | t in ts ensures Called(t, s, calls + [more]) {
      CalledStays(t, s, calls, more);
    }
  }

  // ---- shape of the reduction ----

  lemma {:induction false} RoundHalves(ts: seq<Tree>, round: nat, place: nat, call: nat)
    ensures |Round(ts, round, place, call)| == (|ts| + 1) / 2
    decreases ts
  {
    if |ts| > 1 {
      RoundHalves(ts[2..], round, place + 1, call + 1);
    }
  }

  lemma {:induction false} RoundKeepsLeaves(ts: seq<Tree>, round: nat, place: nat, call: nat)
    ensures AllLeaves(Round(ts, round, place, call)) == AllLeaves(ts)
    decreases ts
  {
    if |ts| > 1 {
      hide MergeName;
      RoundKeepsLeaves(ts[2..], round, place + 1, call + 1);
      var t := Merge(MergeName(round, place), ts[0], ts[1], call);
      var rest := Round(ts[2..], round, place + 1, call + 1);
      assert ([t] + rest)[1..] == rest && ts[1..][1..] == ts[2..];
      Regroup(Leaves(ts[0]), Leaves(ts[1]), AllLeaves(ts[2..]));
    }
  }

  ghost predicate DepthAtMost(ts: seq<Tree>, d: nat) {
    forall i | 0 <= i < |ts| :: Depth(ts[i]) <= d
  }

  lemma {:induction false} RoundDeepensByOne(ts: seq<Tree>, round: nat, place: nat, call: nat, d: nat)
    requires DepthAtMost(ts, d)
    ensures DepthAtMost(Round(ts, round, place, call), d + 1)
    decreases ts
  {
    if |ts| > 1 {
      hide MergeName;
      RoundDeepensByOne(ts[2..], round, place + 1, call + 1, d);
    }
  }

  function Pow2(k: nat): nat {
    if k == 0 then 1 else 2 * Pow2(k - 1)
  }

  /** The number of halvings, rounding up, that take `n` to one. */
  function CeilLog2(n: nat): nat {
    if n <= 1 then 0 else 1 + CeilLog2((n + 1) / 2)
  }

  lemma {:induction false} CeilLog2IsLogarithm(n: nat, k: nat)
    ensures CeilLog2(n) <= k <==> n <= Pow2(k)
    decreases k
  {
    if n > 1 && k > 0 {
      CeilLog2IsLogarithm((n + 1) / 2, k - 1);
    } else {
      PowPositive(k);
    }
  }

  lemma {:induction false} PowPositive(k: nat)
    ensures Pow2(k) >= 1
  {
    if k > 0 {
      PowPositive(k - 1);
    }
  }

  lemma {:induction false} RoundsShape(ts: seq<Tree>, round: nat, call: nat, d: nat)
    requires ts != [] && round <= ROUND_CAP + 1 && DepthAtMost(ts, d)
    ensures var r, left := Rounds(ts, round, call), ROUND_CAP + 1 - round;
      && r != []
      && (|r| == 1 <==> CeilLog2(|ts|) <= left)
      && AllLeaves(r) == AllLeaves(ts)
      && DepthAtMost(r, d + if CeilLog2(|ts|) <= left then CeilLog2(|ts|) else left)
    decreases ROUND_CAP + 1 - round
  {
    hide Round, Rounds, AllLeaves, DepthAtMost;
    RoundsStop(ts, round, call);
    if |ts| > 1 && round <= ROUND_CAP {
      RoundsStep(ts, round, call);
      var next := Round(ts, round + 1, 0, call);
      RoundHalves(ts, round + 1, 0, call);
      RoundKeepsLeaves(ts, round + 1, 0, call);
      RoundDeepensByOne(ts, round + 1, 0, call, d);
      RoundsShape(next, round + 1, call + |ts| / 2, d + 1);
    }
  }

  lemma {:induction false} GivenLeaves(blocks: seq<Block>)
    ensures AllLeaves(Given(blocks)) == blocks
  {
    if blocks != [] {
      GivenLeaves(blocks[1..]);
      assert Given(blocks)[1..] == Given(blocks[1..]);
    }
  }

  // ---- the call numbers ----

  lemma {:induction false} RoundNumbers(ts: seq<Tree>, round: nat, place: nat, call: nat, i: nat)
    ensures AllNumbered(Round(ts, round, place, call), i)
      == AllNumbered(ts, i) + if call <= i < call + |ts| / 2 then 1 else 0
    decreases ts
  {
    if |ts| > 1 {
      hide MergeName;
      RoundNumbers(ts[2..], round, place + 1, call + 1, i);
      var t := Merge(MergeName(round, place), ts[0], ts[1], call);
      var rest := Round(ts[2..], round, place + 1, call + 1);
      assert ([t] + rest)[1..] == rest && ts[1..][1..] == ts[2..];
    }
  }

  lemma {:induction false} RoundsNumber(ts: seq<Tree>, round: nat, call: nat, i: nat)
    requires round <= ROUND_CAP + 1
    ensures var r := Rounds(ts, round, call);
      && |r| <= |ts|
      && AllNumbered(r, i) == AllNumbered(ts, i) + if call <= i < call + (|ts| - |r|) then 1 else 0
    decreases ROUND_CAP + 1 - round
  {
    hide Round, Rounds, AllNumbered;
    RoundsStop(ts, round, call);
    if |ts| > 1 && round <= ROUND_CAP {
      RoundsStep(ts, round, call);
      RoundHalves(ts, round + 1, 0, call);
      RoundNumbers(ts, round + 1, 0, call, i);
      RoundsNumber(Round(ts, round + 1, 0, call), round + 1, call + |ts| / 2, i);
    }
  }

  lemma {:induction false} GivenNumbers(blocks: seq<Block>, i: nat)
    ensures AllNumbered(Given(blocks), i) == 0
  {
    if blocks != [] {
      GivenNumbers(blocks[1..], i);
      assert Given(blocks)[1..] == Given(blocks[1..]);
    }
  }

  // ---- main results ----

  /** Each of the calls made is the call of exactly one merge, and there is no other call number, capped
      or not. */
  lemma EachCallOnce(blocks: seq<Block>, i: nat)
    ensures var ts := Rounds(Given(blocks), 0, 0);
      |ts| <= |blocks| && AllNumbered(ts, i) == if i < |blocks| - |ts| then 1 else 0
  {
    hide Rounds, AllNumbered;
    RoundsNumber(Given(blocks), 0, 0, i);
    GivenNumbers(blocks, i);
  }

  /** Two or more blocks reduce to one tree exactly when there are no more than two to the power of
      one more than the cap; below that no block is lost. */
  lemma CapLosesNothingIff(blocks: seq<Block>)
    requires |blocks| >= 2
    ensures |Rounds(Given(blocks), 0, 0)| == 1 <==> |blocks| <= Pow2(ROUND_CAP + 1)
  {
    hide Rounds;
    RoundsShape(Given(blocks), 0, 0, 0);
    CeilLog2IsLogarithm(|blocks|, ROUND_CAP + 1);
  }

  /** Up to that many blocks end in one tree whose leaves, left to right, are the blocks, each once,
      and whose depth is at most the logarithm of their number. */
  lemma ReductionIsBalanced(blocks: seq<Block>)
    requires 2 <= |blocks| <= Pow2(ROUND_CAP + 1)
    ensures var ts := Rounds(Given(blocks), 0, 0);
      |ts| == 1 && Leaves(ts[0]) == blocks && Depth(ts[0]) <= CeilLog2(|blocks|)
  {
    hide Rounds;
    RoundsShape(Given(blocks), 0, 0, 0);
    CeilLog2IsLogarithm(|blocks|, ROUND_CAP + 1);
    GivenLeaves(blocks);
    var ts := Rounds(Given(blocks), 0, 0);
    assert AllLeaves(ts[1..]) == [] && Leaves(ts[0]) + [] == Leaves(ts[0]);
  }
}
