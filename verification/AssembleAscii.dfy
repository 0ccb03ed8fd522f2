/** How long a trim-branch result is for ASCII input, in terms of lengths
    (internal/synthesis/assemble.go). */
module AssembleAscii {
  import opened Bytes
  import opened Utf8
  import opened Allocation
  import opened PromptBudget
  import opened AssembleFit
  import opened AssembleBounds

  ghost predicate AllAscii(parts: seq<Text>) {
    forall i | 0 <= i < |parts| :: IsAscii(parts[i])
  }

  /** The length of an ASCII body once it is cut to its allotment. */
  function CutLen(len: nat, alloc: nat): nat
    requires alloc > 0
  {
    if len <= alloc then len else alloc - 1 + |TRUNC_MARKER|
  }

  ghost predicate Matching(headers: seq<nat>, lens: seq<nat>, alloc: seq<nat>) {
    |headers| == |lens| == |alloc| && forall i | 0 <= i < |alloc| :: alloc[i] > 80
  }

  /** Where the first `n` blocks end, behind a prefix of length `start`. */
  function BlocksEnd(start: nat, headers: seq<nat>, lens: seq<nat>, alloc: seq<nat>, n: nat): nat
    requires Matching(headers, lens, alloc) && n <= |lens|
  {
    if n == 0 then start
    else BlocksEnd(start, headers, lens, alloc, n - 1) + headers[n - 1] + CutLen(lens[n - 1], alloc[n - 1])
  }

  /** Where the marker of body `i` starts when the body is cut. */
  function MarkerAt(start: nat, headers: seq<nat>, lens: seq<nat>, alloc: seq<nat>, i: nat): int
    requires Matching(headers, lens, alloc) && i < |lens|
  {
    BlocksEnd(start, headers, lens, alloc, i) + headers[i] + alloc[i] - 1
  }

  /** Byte `p` is the second or third byte of the ellipsis in the marker of one of the first `n`
      bodies. */
  ghost predicate InEllipsis(start: nat, headers: seq<nat>, lens: seq<nat>, alloc: seq<nat>, n: nat, p: int)
    requires Matching(headers, lens, alloc) && n <= |lens|
  {
    exists i | 0 <= i < n ::
      lens[i] > alloc[i] && 4 <= p - MarkerAt(start, headers, lens, alloc, i) <= 5
  }

  predicate ContAt(s: Text, p: int) {
    0 <= p < |s| && Cont(s[p])
  }

  lemma ContInSum(a: Text, b: Text, p: int)
    ensures ContAt(a + b, p) <==> ContAt(a, p) || ContAt(b, p - |a|)
  {
  }

  lemma AsciiHasNone(s: Text, p: int)
    requires IsAscii(s)
    ensures !ContAt(s, p)
  {
  }

  lemma MarkerHasTwo(p: int)
    ensures ContAt(TRUNC_MARKER, p) <==> 4 <= p <= 5
  {
    var front, tail := [LF, LF, 91, 0xE2, 0x80, 0xA6], Ascii("truncated for synthesizer context budget]");
    AsciiHasNone(tail, p - 6);
    ContInSum(front, tail, p);
  }

  lemma CutAsciiBody(b: Text, alloc: nat, p: int)
    requires IsAscii(b) && alloc > 80
    ensures |TruncateNote(b, alloc)| == CutLen(|b|, alloc)
    ensures ContAt(TruncateNote(b, alloc), p) <==> |b| > alloc && 4 <= p - (alloc - 1) <= 5
  {
    hide ToValid, ContAt;
    hide TRUNC_MARKER;
    if |b| > alloc {
      var front := b[..alloc - 1];
      AsciiWellFormed(front);
      ToValidIsWellFormed(front);
      AsciiHasNone(front, p);
      MarkerHasTwo(p - |front|);
      ContInSum(front, TRUNC_MARKER, p);
    } else {
      AsciiHasNone(b, p);
    }
  }

  ghost predicate AsciiParts(headers: seq<Text>, bodies: seq<Text>, alloc: seq<nat>) {
    && |headers| == |bodies| == |alloc| && AllAscii(headers) && AllAscii(bodies)
    && forall i | 0 <= i < |alloc| :: alloc[i] > 80
  }

  /** The continuation bytes behind the prefix are those of the ellipses of the cut bodies. */
  lemma {:induction false} ContInBlocks(start: Text, headers: seq<Text>, bodies: seq<Text>, alloc: seq<nat>, n: nat, p: int)
    requires IsAscii(start) && AsciiParts(headers, bodies, alloc) && n <= |bodies|
    ensures var h, l := Lens(headers), Lens(bodies);
      var s := start + Blocks(headers[..n], CutBodies(bodies, alloc)[..n]);
      && |s| == BlocksEnd(|start|, h, l, alloc, n)
      && (ContAt(s, p) <==> InEllipsis(|start|, h, l, alloc, n, p))
  {
    hide *;
    PartsMatch(headers, bodies, alloc);
    var cut := CutBodies(bodies, alloc);
    if n == 0 {
      NoBlocks(start, headers, cut);
      NoEllipsis(|start|, Lens(headers), Lens(bodies), alloc, p);
      AsciiHasNone(start, p);
    } else {
      ContInBlocks(start, headers, bodies, alloc, n - 1, p);
      OneBlockMore(start, headers, bodies, alloc, n, p);
      OneEllipsisMore(|start|, Lens(headers), Lens(bodies), alloc, n, p);
    }
  }

  lemma PartsMatch(headers: seq<Text>, bodies: seq<Text>, alloc: seq<nat>)
    requires AsciiParts(headers, bodies, alloc)
    ensures Matching(Lens(headers), Lens(bodies), alloc) && |headers| == |bodies| == |alloc|
    ensures |CutBodies(bodies, alloc)| == |bodies|
    ensures |Lens(headers)| == |headers| && |Lens(bodies)| == |bodies|
    ensures forall i | 0 <= i < |bodies| :: Lens(headers)[i] == |headers[i]| && Lens(bodies)[i] == |bodies[i]|
  {
  }

  lemma NoBlocks(start: Text, headers: seq<Text>, cut: seq<Text>)
    requires |headers| == |cut|
    ensures start + Blocks(headers[..0], cut[..0]) == start
  {
  }

  lemma NoEllipsis(start: nat, headers: seq<nat>, lens: seq<nat>, alloc: seq<nat>, p: int)
    requires Matching(headers, lens, alloc)
    ensures BlocksEnd(start, headers, lens, alloc, 0) == start && !InEllipsis(start, headers, lens, alloc, 0, p)
  {
  }

  lemma OneEllipsisMore(start: nat, headers: seq<nat>, lens: seq<nat>, alloc: seq<nat>, n: nat, p: int)
    requires Matching(headers, lens, alloc) && 0 < n <= |lens|
    ensures BlocksEnd(start, headers, lens, alloc, n)
      == BlocksEnd(start, headers, lens, alloc, n - 1) + headers[n - 1] + CutLen(lens[n - 1], alloc[n - 1])
    ensures InEllipsis(start, headers, lens, alloc, n, p) <==>
      || InEllipsis(start, headers, lens, alloc, n - 1, p)
      || (lens[n - 1] > alloc[n - 1]
          && 4 <= p - (BlocksEnd(start, headers, lens, alloc, n - 1) + headers[n - 1] + alloc[n - 1] - 1) <= 5)
  {
    hide CutLen;
    assert BlocksEnd(start, headers, lens, alloc, n - 1) + headers[n - 1] + alloc[n - 1] - 1
      == MarkerAt(start, headers, lens, alloc, n - 1);
  }

  lemma OneBlockMore(start: Text, headers: seq<Text>, bodies: seq<Text>, alloc: seq<nat>, n: nat, p: int)
    requires AsciiParts(headers, bodies, alloc) && 0 < n <= |bodies|
    ensures var cut := CutBodies(bodies, alloc);
      var before, s := start + Blocks(headers[..n - 1], cut[..n - 1]), start + Blocks(headers[..n], cut[..n]);
      var h, b, a := headers[n - 1], bodies[n - 1], alloc[n - 1];
      && |s| == |before| + |h| + CutLen(|b|, a)
      && (ContAt(s, p) <==> ContAt(before, p) || (|b| > a && 4 <= p - (|before| + |h| + a - 1) <= 5))
  {
    hide TruncateNote, CutLen, ContAt;
    var cut := CutBodies(bodies, alloc);
    var h, c := headers[n - 1], cut[n - 1];
    var blocks := Blocks(headers[..n - 1], cut[..n - 1]);
    assert headers[..n][..n - 1] == headers[..n - 1] && cut[..n][..n - 1] == cut[..n - 1];
    Regroup(start, blocks + h, c);
    Regroup(start, blocks, h);
    CutAsciiBody(bodies[n - 1], alloc[n - 1], p - (|start + blocks| + |h|));
    ContInSum(start + blocks + h, c, p);
    ContInSum(start + blocks, h, p);
    AsciiHasNone(h, p - |start + blocks|);
  }

  /** The allotments of the trim branch. */
  function AllotmentOf(prefix: Text, headers: seq<Text>, bodies: seq<Text>, footer: Text, maxTotal: nat): seq<nat>
    requires Overflows(prefix, headers, bodies, footer, maxTotal)
  {
    Allot(maxTotal - Overhead(prefix, headers, footer), Lens(bodies))
  }

  lemma AllotmentMatches(prefix: Text, headers: seq<Text>, bodies: seq<Text>, footer: Text, maxTotal: nat)
    requires Overflows(prefix, headers, bodies, footer, maxTotal)
    ensures Matching(Lens(headers), Lens(bodies), AllotmentOf(prefix, headers, bodies, footer, maxTotal))
    ensures FittedBodies(prefix, headers, bodies, footer, maxTotal)
      == CutBodies(bodies, AllotmentOf(prefix, headers, bodies, footer, maxTotal))
  {
    hide Allot, Total, TruncateNote;
    AllotmentUsesRoom(maxTotal - Overhead(prefix, headers, footer), Lens(bodies));
  }

  lemma ContInFinalText(prefix: Text, headers: seq<Text>, bodies: seq<Text>, footer: Text, maxTotal: nat, p: nat)
    requires Overflows(prefix, headers, bodies, footer, maxTotal)
    requires IsAscii(prefix) && AllAscii(headers) && AllAscii(bodies) && IsAscii(footer)
    ensures Matching(Lens(headers), Lens(bodies), AllotmentOf(prefix, headers, bodies, footer, maxTotal))
    ensures ContAt(FinalText(prefix, headers, bodies, footer, maxTotal), p) <==>
      InEllipsis(|prefix|, Lens(headers), Lens(bodies),
                 AllotmentOf(prefix, headers, bodies, footer, maxTotal), |Lens(bodies)|, p)
  {
    hide ContAt, Allot, Total, TruncateNote, FittedBodies, Blocks, InEllipsis, CutBodies, BlocksEnd, Matching;
    hide AllotmentOf, AllAscii;
    var alloc := AllotmentOf(prefix, headers, bodies, footer, maxTotal);
    AllotmentMatches(prefix, headers, bodies, footer, maxTotal);
    AreAsciiParts(headers, bodies, alloc);
    var cut := CutBodies(bodies, alloc);
    ContInBlocks(prefix, headers, bodies, alloc, |bodies|, p);
    assert headers[..|bodies|] == headers && cut[..|bodies|] == cut;
    ContInSum(prefix + Blocks(headers, cut), footer, p);
    AsciiHasNone(footer, p - |prefix + Blocks(headers, cut)|);
  }

  lemma AreAsciiParts(headers: seq<Text>, bodies: seq<Text>, alloc: seq<nat>)
    requires Matching(Lens(headers), Lens(bodies), alloc) && AllAscii(headers) && AllAscii(bodies)
    ensures AsciiParts(headers, bodies, alloc)
  {
  }

  /** For ASCII input a trim-branch result is as long as it can be exactly when the byte at the cut is
      not inside the ellipsis of a body's marker: at offset 4 or 5 behind the prefix, the earlier
      headers and cut bodies, the body's own header and what is left of it. */
  lemma AsciiResultIsLongestIff(prefix: Text, headers: seq<Text>, bodies: seq<Text>, footer: Text, maxTotal: nat)
    requires Overflows(prefix, headers, bodies, footer, maxTotal) && maxTotal > 80
    requires IsAscii(prefix) && AllAscii(headers) && AllAscii(bodies) && IsAscii(footer)
    ensures Matching(Lens(headers), Lens(bodies), AllotmentOf(prefix, headers, bodies, footer, maxTotal))
    ensures |Fitted(prefix, headers, bodies, footer, maxTotal)| == maxTotal - 1 + |TRUNC_MARKER| <==>
      !InEllipsis(|prefix|, Lens(headers), Lens(bodies),
                  AllotmentOf(prefix, headers, bodies, footer, maxTotal), |Lens(bodies)|, maxTotal - 1)
  {
    hide Fitted, Overflows, InEllipsis, FinalText, WellFormed, AllotmentOf, Matching, Lens;
    AsciiIsWellFormed(prefix, headers, bodies, footer);
    var k := TrimBranchResult(prefix, headers, bodies, footer, maxTotal);
    ContInFinalText(prefix, headers, bodies, footer, maxTotal, maxTotal - 1);
  }

  lemma AsciiIsWellFormed(prefix: Text, headers: seq<Text>, bodies: seq<Text>, footer: Text)
    requires IsAscii(prefix) && AllAscii(headers) && AllAscii(bodies) && IsAscii(footer)
    ensures WellFormed(prefix) && AllWellFormed(headers) && AllWellFormed(bodies) && WellFormed(footer)
  {
    hide WellFormed;
    AsciiWellFormed(prefix);
    AsciiWellFormed(footer);
    forall i | 0 <= i < |headers| ensures WellFormed(headers[i]) {
      AsciiWellFormed(headers[i]);
    }
    forall i | 0 <= i < |bodies| ensures WellFormed(bodies[i]) {
      AsciiWellFormed(bodies[i]);
    }
  }
}
