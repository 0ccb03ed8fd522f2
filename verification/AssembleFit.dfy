/** Fitting a prefix, labelled bodies and a footer into a budget (internal/synthesis/assemble.go). */
module AssembleFit {
  import opened Bytes
  import opened Allocation
  import opened PromptBudget

  function Lens(parts: seq<Text>): seq<nat> {
    seq(|parts|, i requires 0 <= i < |parts| => |parts[i]|)
  }

  function Blocks(headers: seq<Text>, bodies: seq<Text>): Text
    requires |headers| == |bodies|
  {
    if bodies == [] then []
    else Blocks(headers[..|headers| - 1], bodies[..|bodies| - 1]) + headers[|headers| - 1] + bodies[|bodies| - 1]
  }

  function Join(prefix: Text, headers: seq<Text>, bodies: seq<Text>, footer: Text): Text
    requires |headers| == |bodies|
  {
    prefix + Blocks(headers, bodies) + footer
  }

  function Overhead(prefix: Text, headers: seq<Text>, footer: Text): nat {
    |prefix| + |footer| + Total(Lens(headers))
  }

  function TotalLen(prefix: Text, headers: seq<Text>, bodies: seq<Text>, footer: Text): nat {
    Overhead(prefix, headers, footer) + Total(Lens(bodies))
  }

  /** Every body cut to its allotment. */
  function CutBodies(bodies: seq<Text>, alloc: seq<nat>): (cut: seq<Text>)
    requires |bodies| == |alloc|
    ensures |cut| == |bodies|
  {
    seq(|bodies|, i requires 0 <= i < |bodies| => TruncateNote(bodies[i], alloc[i]))
  }

  function Short(bodies: seq<Text>): (short: seq<Text>)
    ensures |short| == |bodies|
  {
    seq(|bodies|, i requires 0 <= i < |bodies| => TruncateNote(bodies[i], 256))
  }

  lemma {:induction false} TotalOfLens(parts: seq<Text>)
    requires parts != []
    ensures Total(Lens(parts)) == Total(Lens(parts[..|parts| - 1])) + |parts[|parts| - 1]|
  {
    assert Lens(parts)[..|parts| - 1] == Lens(parts[..|parts| - 1]);
  }

  lemma {:induction false} BlocksLen(headers: seq<Text>, bodies: seq<Text>)
    requires |headers| == |bodies|
    ensures |Blocks(headers, bodies)| == Total(Lens(headers)) + Total(Lens(bodies))
  {
    if bodies != [] {
      hide Total, Lens;
      var h, b := headers[..|headers| - 1], bodies[..|bodies| - 1];
      BlocksLen(h, b);
      TotalOfLens(headers);
      TotalOfLens(bodies);
    } else {
      assert Lens(headers) == [] && Lens(bodies) == [];
    }
  }

  lemma JoinLen(prefix: Text, headers: seq<Text>, bodies: seq<Text>, footer: Text)
    requires |headers| == |bodies|
    ensures |Join(prefix, headers, bodies, footer)| == TotalLen(prefix, headers, bodies, footer)
  {
    BlocksLen(headers, bodies);
  }

  // ---- the three ways to fit ----

  function Aggressive(prefix: Text, headers: seq<Text>, bodies: seq<Text>, footer: Text, maxTotal: nat): Text
    requires |headers| == |bodies|
  {
    TruncateNote(Join(TruncateNote(prefix, maxTotal / 3), headers, Short(bodies), footer), maxTotal)
  }

  /** The bodies after the trim branch. */
  function FittedBodies(prefix: Text, headers: seq<Text>, bodies: seq<Text>, footer: Text, maxTotal: nat): (cut: seq<Text>)
    requires |headers| == |bodies| && Overhead(prefix, headers, footer) < maxTotal
    requires TotalLen(prefix, headers, bodies, footer) > maxTotal
    ensures |cut| == |bodies|
  {
    var room := maxTotal - Overhead(prefix, headers, footer);
    var alloc := Allot(room, Lens(bodies));
    AllotmentUsesRoom(room, Lens(bodies));
    CutBodies(bodies, alloc)
  }

  function Fitted(prefix: Text, headers: seq<Text>, bodies: seq<Text>, footer: Text, maxTotal: nat): Text {
    if |headers| != |bodies| then prefix + footer
    else if maxTotal <= Overhead(prefix, headers, footer) + 16 then
      Aggressive(prefix, headers, bodies, footer, maxTotal)
    else if TotalLen(prefix, headers, bodies, footer) <= maxTotal then Join(prefix, headers, bodies, footer)
    else
      TruncateNote(Join(prefix, headers, FittedBodies(prefix, headers, bodies, footer, maxTotal), footer), maxTotal)
  }

  /** Whether the trim branch is taken. */
  predicate Overflows(prefix: Text, headers: seq<Text>, bodies: seq<Text>, footer: Text, maxTotal: nat) {
    && |headers| == |bodies|
    && Overhead(prefix, headers, footer) + 16 < maxTotal < TotalLen(prefix, headers, bodies, footer)
  }

  // ---- the code ----

  method TotalLength(prefix: Text, headers: seq<Text>, bodies: seq<Text>, footer: Text) returns (t: nat)
    requires |headers| == |bodies|
    ensures t == TotalLen(prefix, headers, bodies, footer)
  {
    t := |prefix| + |footer|;
    for n := 0 to |bodies|
      invariant t == |prefix| + |footer| + Total(Lens(headers[..n])) + Total(Lens(bodies[..n]))
    {
      TotalOfLens(headers[..n + 1]);
      TotalOfLens(bodies[..n + 1]);
      assert headers[..n + 1][..n] == headers[..n] && bodies[..n + 1][..n] == bodies[..n];
      t := t + |headers[n]| + |bodies[n]|;
    }
    assert headers[..|headers|] == headers && bodies[..|bodies|] == bodies;
  }

  method JoinAll(prefix: Text, headers: seq<Text>, bodies: seq<Text>, footer: Text) returns (out: Text)
    requires |headers| == |bodies|
    ensures out == Join(prefix, headers, bodies, footer)
  {
    out := prefix;
    for n := 0 to |bodies|
      invariant out == prefix + Blocks(headers[..n], bodies[..n])
    {
      assert headers[..n + 1][..n] == headers[..n] && bodies[..n + 1][..n] == bodies[..n];
      Regroup(prefix, Blocks(headers[..n], bodies[..n]) + headers[n], bodies[n]);
      Regroup(prefix, Blocks(headers[..n], bodies[..n]), headers[n]);
      out := out + headers[n] + bodies[n];
    }
    assert headers[..|headers|] == headers && bodies[..|bodies|] == bodies;
    out := out + footer;
  }

  /** Slack is handed to the bodies that still want more. */
  method Redistributed(lens: seq<nat>, alloc: seq<nat>, slack: nat) returns (r: seq<nat>)
    requires |lens| == |alloc|
    ensures r == Redistribute(lens, alloc, slack)
  {
    hide Redistribute, Extra;
    r := alloc;
    var left: nat := slack;
    var n := 0;
    assert alloc[..0] == [] && lens[0..] == lens && alloc[0..] == alloc;
    while n < |lens|
      invariant 0 <= n <= |lens| == |r|
      invariant r[n..] == alloc[n..]
      invariant r[..n] + Redistribute(lens[n..], alloc[n..], left) == Redistribute(lens, alloc, slack)
    {
      if left == 0 {
        break;
      }
      ghost var front, extra := r[..n], Extra(lens[n], alloc[n], left);
      assert r[n] == r[n..][0] == alloc[n];
      OneAllotment(lens, alloc, n, left, front);
      var more := if lens[n] > r[n] then Min(left, lens[n] - r[n]) else 0;
      ExtraIs(lens[n], alloc[n], left);
      r := r[n := r[n] + more];
      left := left - more;
      n := n + 1;
      assert r[..n] == front + [alloc[n - 1] + extra];
    }
    assert r == r[..n] + r[n..];
    DoneSharing(lens[n..], alloc[n..], left);
  }

  lemma ExtraIs(len: nat, alloc: nat, slack: nat)
    ensures Extra(len, alloc, slack) == if len > alloc then Min(slack, len - alloc) else 0
  {
  }

  lemma DoneSharing(lens: seq<nat>, alloc: seq<nat>, slack: nat)
    requires |lens| == |alloc| && (lens == [] || slack == 0)
    ensures Redistribute(lens, alloc, slack) == alloc
  {
  }

  lemma OneAllotment(lens: seq<nat>, alloc: seq<nat>, n: nat, slack: nat, front: seq<nat>)
    requires n < |lens| == |alloc|
    ensures var extra := Extra(lens[n], alloc[n], slack);
      front + Redistribute(lens[n..], alloc[n..], slack)
        == front + [alloc[n] + extra] + Redistribute(lens[n + 1..], alloc[n + 1..], slack - extra)
  {
    hide Redistribute, Extra;
    RedistributeStep(lens[n..], alloc[n..], slack);
    assert lens[n..][1..] == lens[n + 1..] && alloc[n..][1..] == alloc[n + 1..];
    var extra := Extra(lens[n], alloc[n], slack);
    Regroup(front, [alloc[n] + extra], Redistribute(lens[n + 1..], alloc[n + 1..], slack - extra));
  }

  /** `assembleFit`. The trim branch cuts the bodies in place. */
  method Assemble(prefix: Text, headers: seq<Text>, bodies: array<Text>, footer: Text, maxTotal: nat) returns (out: Text)
    modifies bodies
    ensures out == Fitted(prefix, headers, old(bodies[..]), footer, maxTotal)
    ensures bodies[..] == if Overflows(prefix, headers, old(bodies[..]), footer, maxTotal)
                          then FittedBodies(prefix, headers, old(bodies[..]), footer, maxTotal) else old(bodies[..])
  {
    hide Blocks, TruncateNote, Allot, Join, Total, Aggressive;
    ghost var was := bodies[..];
    if bodies.Length != |headers| {
      return prefix + footer;
    }
    var overhead := OverheadLoop(prefix, headers, footer);
    if maxTotal <= overhead + 16 {
      out := AggressiveTrim(prefix, headers, bodies[..], footer, maxTotal);
      return;
    }
    var total := TotalLength(prefix, headers, bodies[..], footer);
    if total <= maxTotal {
      out := JoinAll(prefix, headers, bodies[..], footer);
      return;
    }
    var room := maxTotal - overhead;
    var alloc := AllotLoop(room, Lens(bodies[..]));
    AllotmentUsesRoom(room, Lens(was));
    TrimInPlace(bodies, alloc);
    out := JoinAll(prefix, headers, bodies[..], footer);
    Untrimmed(out, maxTotal);
    if |out| > maxTotal {
      out := TruncateNote(out, maxTotal);
    }
  }

  method OverheadLoop(prefix: Text, headers: seq<Text>, footer: Text) returns (overhead: nat)
    ensures overhead == Overhead(prefix, headers, footer)
  {
    overhead := |prefix| + |footer|;
    for n := 0 to |headers|
      invariant overhead == |prefix| + |footer| + Total(Lens(headers[..n]))
    {
      TotalOfLens(headers[..n + 1]);
      assert headers[..n + 1][..n] == headers[..n];
      overhead := overhead + |headers[n]|;
    }
    assert headers[..|headers|] == headers;
  }

  /** The branch for a budget smaller than the fixed parts. */
  method AggressiveTrim(prefix: Text, headers: seq<Text>, bodies: seq<Text>, footer: Text, maxTotal: nat)
    returns (out: Text)
    requires |headers| == |bodies|
    ensures out == Aggressive(prefix, headers, bodies, footer, maxTotal)
  {
    hide TruncateNote;
    out := TruncateNote(prefix, maxTotal / 3);
    ghost var front := out;
    for n := 0 to |bodies|
      invariant out == front + Blocks(headers[..n], Short(bodies[..n]))
    {
      assert headers[..n + 1][..n] == headers[..n];
      assert Short(bodies[..n + 1])[..n] == Short(bodies[..n]);
      Regroup(front, Blocks(headers[..n], Short(bodies[..n])) + headers[n], TruncateNote(bodies[n], 256));
      Regroup(front, Blocks(headers[..n], Short(bodies[..n])), headers[n]);
      out := out + headers[n] + TruncateNote(bodies[n], 256);
    }
    assert headers[..|headers|] == headers && bodies[..|bodies|] == bodies;
    out := TruncateNote(out + footer, maxTotal);
  }

  /** Every body over its allotment is cut, in place. */
  method TrimInPlace(bodies: array<Text>, alloc: seq<nat>)
    requires bodies.Length == |alloc|
    modifies bodies
    ensures bodies[..] == CutBodies(old(bodies[..]), alloc)
  {
    hide TruncateNote;
    ghost var was := bodies[..];
    for n := 0 to bodies.Length
      invariant forall i | 0 <= i < n :: bodies[i] == TruncateNote(was[i], alloc[i])
      invariant forall i | n <= i < bodies.Length :: bodies[i] == was[i]
    {
      Untrimmed(bodies[n], alloc[n]);
      if |bodies[n]| > alloc[n] {
        bodies[n] := TruncateNote(bodies[n], alloc[n]);
      }
    }
  }

  lemma Untrimmed(s: Text, maxChars: nat)
    ensures |s| <= maxChars ==> TruncateNote(s, maxChars) == s
  {
  }

  /** The allotments: floored proportional shares, then the slack. */
  method AllotLoop(room: nat, lens: seq<nat>) returns (alloc: seq<nat>)
    requires Total(lens) > 0
    ensures alloc == Allot(room, lens)
  {
    var totalBody := Total(lens);
    alloc := [];
    var claimed := 0;
    for n := 0 to |lens|
      invariant alloc == Shares(room, lens[..n], totalBody)
      invariant claimed == Claimed(lens[..n], alloc)
    {
      var share := Share(room, lens[n], totalBody);
      assert lens[..n + 1][..n] == lens[..n] && (alloc + [share])[..n] == alloc;
      alloc := alloc + [share];
      claimed := claimed + Min(lens[n], alloc[n]);
    }
    assert lens[..|lens|] == lens;
    alloc := Redistributed(lens, alloc, Slack(room, claimed));
  }
}
