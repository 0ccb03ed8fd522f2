/** What `assembleFit` promises about its result (internal/synthesis/assemble.go, budget.go). */
module AssembleBounds {
  import opened Bytes
  import opened Utf8
  import opened Allocation
  import opened PromptBudget
  import opened AssembleFit

  ghost predicate AllWellFormed(parts: seq<Text>) {
    forall i | 0 <= i < |parts| :: WellFormed(parts[i])
  }

  /** Content that fits is returned as it is. */
  lemma FittingContentIsVerbatim(prefix: Text, headers: seq<Text>, bodies: seq<Text>, footer: Text, maxTotal: nat)
    requires |headers| == |bodies| && Overhead(prefix, headers, footer) + 16 < maxTotal
    requires |Join(prefix, headers, bodies, footer)| <= maxTotal
    ensures Fitted(prefix, headers, bodies, footer, maxTotal) == Join(prefix, headers, bodies, footer)
  {
    JoinLen(prefix, headers, bodies, footer);
  }

  /** With a header for every body, no result is longer than the budget and all but one byte of the
      marker; without, the result is prefix and footer at any length. */
  lemma ResultIsBounded(prefix: Text, headers: seq<Text>, bodies: seq<Text>, footer: Text, maxTotal: nat)
    ensures |headers| == |bodies| ==>
      |Fitted(prefix, headers, bodies, footer, maxTotal)| <= maxTotal + |TRUNC_MARKER| - 1
    ensures |headers| != |bodies| ==> Fitted(prefix, headers, bodies, footer, maxTotal) == prefix + footer
  {
    hide TruncateNote, Join, FittedBodies, Short;
    MarkerWellFormed();
    if |headers| != |bodies| {
      return;
    }
    JoinLen(prefix, headers, bodies, footer);
    if maxTotal <= Overhead(prefix, headers, footer) + 16 {
      TruncateNoteBound(Join(TruncateNote(prefix, maxTotal / 3), headers, Short(bodies), footer), maxTotal);
    } else if Overflows(prefix, headers, bodies, footer, maxTotal) {
      TruncateNoteBound(Join(prefix, headers, FittedBodies(prefix, headers, bodies, footer, maxTotal), footer), maxTotal);
    }
  }

  // ---- the trim branch ----

  lemma CutBodyLen(b: Text, alloc: nat)
    requires WellFormed(b) && alloc >= FLOOR_CHARS
    ensures WellFormed(TruncateNote(b, alloc))
    ensures |TruncateNote(b, alloc)| >= Min(|b|, alloc)
    ensures |b| > alloc ==> |TruncateNote(b, alloc)| > alloc
  {
    hide WellFormed, TruncateNote;
    if |b| > alloc {
      var k := TruncateNoteKeepsHead(b, alloc);
    } else {
      Untrimmed(b, alloc);
    }
  }

  /** The cut bodies take at least what they were allotted, and more once one of them is cut. */
  lemma {:induction false} CutBodiesTotal(bodies: seq<Text>, alloc: seq<nat>)
    requires |bodies| == |alloc| && AllWellFormed(bodies)
    requires forall i | 0 <= i < |alloc| :: alloc[i] >= FLOOR_CHARS
    ensures var claimed := Claimed(Lens(bodies), alloc);
      && Total(Lens(CutBodies(bodies, alloc))) >= claimed
      && (Total(Lens(bodies)) > claimed ==> Total(Lens(CutBodies(bodies, alloc))) > claimed)
    ensures AllWellFormed(CutBodies(bodies, alloc))
  {
    hide *;
    if bodies == [] {
      NoBodies();
      assert alloc == [];
    } else {
      var front, b := bodies[..|bodies| - 1], bodies[|bodies| - 1];
      var share, a := alloc[..|alloc| - 1], alloc[|alloc| - 1];
      WellFormedFront(bodies);
      CutBodiesTotal(front, share);
      CutBodyLen(b, a);
      TotalOfLens(bodies);
      LastBody(bodies, alloc);
      TotalOfLens(CutBodies(bodies, alloc));
      ClaimedAtMostTotal(Lens(front), share);
      MinAtMost(|b|, a);
      WellFormedMore(CutBodies(front, share), TruncateNote(b, a));
      assert CutBodies(bodies, alloc) == CutBodies(front, share) + [TruncateNote(b, a)];
    }
  }

  lemma NoBodies()
    ensures Claimed(Lens([]), []) == 0 == Total(Lens(CutBodies([], []))) == Total(Lens([]))
    ensures AllWellFormed(CutBodies([], []))
  {
  }

  lemma MinAtMost(a: nat, b: nat)
    ensures Min(a, b) <= a && (a > b ==> Min(a, b) == b) && (a <= b ==> Min(a, b) == a)
  {
  }

  lemma WellFormedFront(parts: seq<Text>)
    requires parts != [] && AllWellFormed(parts)
    ensures AllWellFormed(parts[..|parts| - 1]) && WellFormed(parts[|parts| - 1])
  {
  }

  lemma WellFormedMore(parts: seq<Text>, part: Text)
    requires AllWellFormed(parts) && WellFormed(part)
    ensures AllWellFormed(parts + [part])
  {
  }

  lemma LastBody(bodies: seq<Text>, alloc: seq<nat>)
    requires |bodies| == |alloc| && bodies != []
    ensures var front, share := bodies[..|bodies| - 1], alloc[..|alloc| - 1];
      var b, a := bodies[|bodies| - 1], alloc[|alloc| - 1];
      && |Lens(front)| == |share| && |Lens(bodies)| == |alloc|
      && CutBodies(bodies, alloc)[..|front|] == CutBodies(front, share)
      && CutBodies(bodies, alloc)[|front|] == TruncateNote(b, a)
      && Claimed(Lens(bodies), alloc) == Claimed(Lens(front), share) + Min(|b|, a)
  {
    hide TruncateNote;
    assert Lens(bodies)[..|bodies| - 1] == Lens(bodies[..|bodies| - 1]);
  }

  /** In the trim branch the bodies always exceed the room, and so does what is left of them: the
      cuts add more in markers than they take away, and the final cut is always made. */
  lemma TrimmedStillOverflows(prefix: Text, headers: seq<Text>, bodies: seq<Text>, footer: Text, maxTotal: nat)
    requires Overflows(prefix, headers, bodies, footer, maxTotal) && AllWellFormed(bodies)
    ensures Total(Lens(bodies)) > maxTotal - Overhead(prefix, headers, footer)
    ensures var cut := FittedBodies(prefix, headers, bodies, footer, maxTotal);
      && AllWellFormed(cut) && |cut| == |bodies|
      && |Join(prefix, headers, cut, footer)| > maxTotal
  {
    hide Total, Allot, WellFormed, TruncateNote, Join, CutBodies, Claimed;
    var room := maxTotal - Overhead(prefix, headers, footer);
    var alloc := Allot(room, Lens(bodies));
    AllotmentUsesRoom(room, Lens(bodies));
    CutBodiesTotal(bodies, alloc);
    var cut := FittedBodies(prefix, headers, bodies, footer, maxTotal);
    CutBodiesSize(bodies, alloc);
    JoinLen(prefix, headers, cut, footer);
  }

  lemma CutBodiesSize(bodies: seq<Text>, alloc: seq<nat>)
    requires |bodies| == |alloc|
    ensures |CutBodies(bodies, alloc)| == |bodies|
  {
  }

  lemma {:induction false} BlocksWellFormed(headers: seq<Text>, bodies: seq<Text>)
    requires |headers| == |bodies| && AllWellFormed(headers) && AllWellFormed(bodies)
    ensures WellFormed(Blocks(headers, bodies))
  {
    hide WellFormed;
    if bodies == [] {
      AsciiWellFormed([]);
    } else {
      var h, b := headers[..|headers| - 1], bodies[..|bodies| - 1];
      BlocksWellFormed(h, b);
      WellFormedConcat(Blocks(h, b), headers[|headers| - 1]);
      WellFormedConcat(Blocks(h, b) + headers[|headers| - 1], bodies[|bodies| - 1]);
    }
  }

  lemma JoinIsWellFormed(prefix: Text, headers: seq<Text>, bodies: seq<Text>, footer: Text)
    requires |headers| == |bodies| && WellFormed(prefix) && WellFormed(footer)
    requires AllWellFormed(headers) && AllWellFormed(bodies)
    ensures WellFormed(Join(prefix, headers, bodies, footer))
    ensures WellFormed(Blocks(headers, bodies) + footer)
    ensures Join(prefix, headers, bodies, footer) == prefix + (Blocks(headers, bodies) + footer)
  {
    hide WellFormed, Blocks;
    BlocksWellFormed(headers, bodies);
    WellFormedConcat(Blocks(headers, bodies), footer);
    WellFormedConcat(prefix, Blocks(headers, bodies) + footer);
    Regroup(prefix, Blocks(headers, bodies), footer);
  }

  /** Where the final cut of the trim branch falls. */
  function FinalText(prefix: Text, headers: seq<Text>, bodies: seq<Text>, footer: Text, maxTotal: nat): Text
    requires Overflows(prefix, headers, bodies, footer, maxTotal)
  {
    Join(prefix, headers, FittedBodies(prefix, headers, bodies, footer, maxTotal), footer)
  }

  /** A trim-branch result on well-formed text is the assembled text up to the character boundary in
      front of the budget's last byte, then the marker. It starts with the whole prefix, and it has
      exactly the budget's length and all but one byte of the marker iff that cut falls between
      characters. */
  lemma TrimBranchResult(prefix: Text, headers: seq<Text>, bodies: seq<Text>, footer: Text, maxTotal: nat)
    returns (k: nat)
    requires Overflows(prefix, headers, bodies, footer, maxTotal) && maxTotal > 80
    requires WellFormed(prefix) && WellFormed(footer) && AllWellFormed(headers) && AllWellFormed(bodies)
    ensures var s, out := FinalText(prefix, headers, bodies, footer, maxTotal), Fitted(prefix, headers, bodies, footer, maxTotal);
      && maxTotal - 4 <= k <= maxTotal - 1 < |s|
      && out == s[..k] + TRUNC_MARKER
      && WellFormed(out)
      && prefix <= out
      && (|out| == maxTotal - 1 + |TRUNC_MARKER| <==> Boundary(s, maxTotal - 1))
  {
    hide Total, WellFormed, TruncateNote, Join, FittedBodies, Boundary;
    TrimmedStillOverflows(prefix, headers, bodies, footer, maxTotal);
    var cut := FittedBodies(prefix, headers, bodies, footer, maxTotal);
    var s := Join(prefix, headers, cut, footer);
    JoinIsWellFormed(prefix, headers, cut, footer);
    k := TruncateNoteKeepsHead(s, maxTotal);
    var rest := Blocks(headers, cut) + footer;
    SeamIsBoundary(prefix, rest);
    assert |prefix| <= k by {
      assert |prefix| + 16 < maxTotal;
      FloorAfterBoundary(s, maxTotal - 1, |prefix|);
    }
    assert s[..k][..|prefix|] == prefix;
  }

  lemma FloorAfterBoundary(s: Text, k: nat, b: nat)
    requires b <= k <= |s| && Boundary(s, b)
    ensures b <= Floor(s, k)
  {
  }
}
