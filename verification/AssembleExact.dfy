/** Exactly when `assembleFit` keeps the budget and the footer (internal/synthesis/assemble.go). */
module AssembleExact {
  import opened Bytes
  import opened Sequences
  import opened Utf8
  import opened Allocation
  import opened PromptBudget
  import opened AssembleFit
  import opened AssembleBounds

  ghost predicate PartsWellFormed(prefix: Text, headers: seq<Text>, bodies: seq<Text>, footer: Text) {
    WellFormed(prefix) && AllWellFormed(headers) && AllWellFormed(bodies) && WellFormed(footer)
  }

  // ---- lengths ----

  /** How long a well-formed text is once it is truncated to a cap. */
  function TruncatedLen(s: Text, cap: nat): nat {
    if |s| <= cap then |s| else if cap <= 80 then Floor(s, cap) else Floor(s, cap - 1) + |TRUNC_MARKER|
  }

  function ShortLens(bodies: seq<Text>): (lens: seq<nat>)
    ensures |lens| == |bodies|
  {
    seq(|bodies|, i requires 0 <= i < |bodies| => TruncatedLen(bodies[i], 256))
  }

  /** What is asked to fit: everything, or in the aggressive branch the parts cut to their fixed caps;
      prefix and footer alone when headers and bodies do not match. */
  function AskedLen(prefix: Text, headers: seq<Text>, bodies: seq<Text>, footer: Text, maxTotal: nat): nat {
    if |headers| != |bodies| then |prefix| + |footer|
    else if maxTotal <= Overhead(prefix, headers, footer) + 16 then
      TruncatedLen(prefix, maxTotal / 3) + Total(Lens(headers)) + Total(ShortLens(bodies)) + |footer|
    else TotalLen(prefix, headers, bodies, footer)
  }

  lemma TruncatedIs(s: Text, cap: nat)
    requires WellFormed(s)
    ensures |TruncateNote(s, cap)| == TruncatedLen(s, cap) && WellFormed(TruncateNote(s, cap))
  {
    hide WellFormed, ToValid;
    if |s| > cap {
      if cap <= 80 {
        CutHead(s, cap);
      } else {
        var k := TruncateNoteKeepsHead(s, cap);
      }
    }
  }

  lemma ShortIs(bodies: seq<Text>)
    requires AllWellFormed(bodies)
    ensures Lens(Short(bodies)) == ShortLens(bodies) && AllWellFormed(Short(bodies))
  {
    hide WellFormed, TruncateNote, TruncatedLen;
    forall i | 0 <= i < |bodies|
      ensures |TruncateNote(bodies[i], 256)| == TruncatedLen(bodies[i], 256) && WellFormed(TruncateNote(bodies[i], 256))
    {
      TruncatedIs(bodies[i], 256);
    }
  }

  // ---- the final cut ----

  /** The text the final cut is applied to. */
  function Uncut(prefix: Text, headers: seq<Text>, bodies: seq<Text>, footer: Text, maxTotal: nat): Text
    requires |headers| == |bodies|
  {
    if maxTotal <= Overhead(prefix, headers, footer) + 16 then
      Join(TruncateNote(prefix, maxTotal / 3), headers, Short(bodies), footer)
    else if TotalLen(prefix, headers, bodies, footer) <= maxTotal then Join(prefix, headers, bodies, footer)
    else FinalText(prefix, headers, bodies, footer, maxTotal)
  }

  lemma FittedIsCut(prefix: Text, headers: seq<Text>, bodies: seq<Text>, footer: Text, maxTotal: nat)
    requires |headers| == |bodies|
    ensures Fitted(prefix, headers, bodies, footer, maxTotal)
      == TruncateNote(Uncut(prefix, headers, bodies, footer, maxTotal), maxTotal)
  {
    hide Join, FittedBodies, Short, Total, ToValid;
    JoinLen(prefix, headers, bodies, footer);
  }

  lemma UncutEndsInFooter(prefix: Text, headers: seq<Text>, bodies: seq<Text>, footer: Text, maxTotal: nat)
    requires |headers| == |bodies|
    ensures EndsIn(Uncut(prefix, headers, bodies, footer, maxTotal), footer)
  {
    hide Blocks, FittedBodies, Short, Total, TruncateNote;
  }

  /** The final cut is made exactly when what is asked to fit does not. */
  lemma CutIff(prefix: Text, headers: seq<Text>, bodies: seq<Text>, footer: Text, maxTotal: nat)
    requires |headers| == |bodies| && PartsWellFormed(prefix, headers, bodies, footer)
    ensures var s := Uncut(prefix, headers, bodies, footer, maxTotal);
      WellFormed(s) && (|s| > maxTotal <==> AskedLen(prefix, headers, bodies, footer, maxTotal) > maxTotal)
  {
    hide Join, FittedBodies, Short, Total, TruncateNote, TruncatedLen, WellFormed, ShortLens, Lens;
    if maxTotal <= Overhead(prefix, headers, footer) + 16 {
      var front := TruncateNote(prefix, maxTotal / 3);
      TruncatedIs(prefix, maxTotal / 3);
      ShortIs(bodies);
      JoinIsWellFormed(front, headers, Short(bodies), footer);
      JoinLen(front, headers, Short(bodies), footer);
    } else if TotalLen(prefix, headers, bodies, footer) <= maxTotal {
      JoinIsWellFormed(prefix, headers, bodies, footer);
      JoinLen(prefix, headers, bodies, footer);
    } else {
      TrimmedStillOverflows(prefix, headers, bodies, footer, maxTotal);
      JoinIsWellFormed(prefix, headers, FittedBodies(prefix, headers, bodies, footer, maxTotal), footer);
    }
  }

  // ---- the budget ----

  /** The promise of a result no longer than the budget, for well-formed text: it is kept exactly when
      what is asked to fit does, or the budget is too small for a marker. */
  lemma WithinBudgetIff(prefix: Text, headers: seq<Text>, bodies: seq<Text>, footer: Text, maxTotal: nat)
    requires PartsWellFormed(prefix, headers, bodies, footer)
    ensures |Fitted(prefix, headers, bodies, footer, maxTotal)| <= maxTotal <==>
      || AskedLen(prefix, headers, bodies, footer, maxTotal) <= maxTotal
      || (|headers| == |bodies| && maxTotal <= 80)
  {
    hide Uncut, AskedLen, TruncateNote, WellFormed, Fitted;
    if |headers| != |bodies| {
      Unmatched(prefix, headers, bodies, footer, maxTotal);
    } else {
      var s := Uncut(prefix, headers, bodies, footer, maxTotal);
      FittedIsCut(prefix, headers, bodies, footer, maxTotal);
      CutIff(prefix, headers, bodies, footer, maxTotal);
      if |s| <= maxTotal {
        Untrimmed(s, maxTotal);
      } else if maxTotal <= 80 {
        TruncateNoteBound(s, maxTotal);
      } else {
        var k := TruncateNoteKeepsHead(s, maxTotal);
      }
    }
  }

  lemma Unmatched(prefix: Text, headers: seq<Text>, bodies: seq<Text>, footer: Text, maxTotal: nat)
    requires |headers| != |bodies|
    ensures Fitted(prefix, headers, bodies, footer, maxTotal) == prefix + footer
    ensures AskedLen(prefix, headers, bodies, footer, maxTotal) == |prefix| + |footer|
  {
  }

  // ---- the footer ----

  /** Behind a cut text ends in `footer` exactly if its marker does, or the footer goes on where the
      marker starts. */
  lemma EndsBehindMarker(head: Text, footer: Text)
    ensures EndsIn(head + TRUNC_MARKER, footer) <==>
      || EndsIn(TRUNC_MARKER, footer)
      || (EndsIn(footer, TRUNC_MARKER) && EndsIn(head, footer[..|footer| - |TRUNC_MARKER|]))
  {
    hide TRUNC_MARKER;
    SuffixOfSum(head, TRUNC_MARKER, footer);
  }

  lemma SuffixOfSum(a: Text, b: Text, d: Text)
    ensures EndsIn(a + b, d) <==> EndsIn(b, d) || (EndsIn(d, b) && EndsIn(a, d[..|d| - |b|]))
  {
    var s := a + b;
    if |d| <= |b| {
      assert s[|s| - |d|..] == b[|b| - |d|..];
      if |d| == |b| {
        assert d[..0] == [] && d[0..] == d && b[0..] == b && a[|a|..] == [];
      }
    } else if |d| <= |s| {
      var x, y := d[..|d| - |b|], d[|d| - |b|..];
      assert d == x + y;
      assert s[|s| - |d|..] == a[|a| - |x|..] + b;
      assert a[|a| - |x|..] + b == x + y <==> a[|a| - |x|..] == x && b == y by {
        SplitsAt(a[|a| - |x|..], b, x, y);
      }
    }
  }

  lemma SplitsAt(a: Text, b: Text, x: Text, y: Text)
    requires |a| == |x|
    ensures a + b == x + y <==> a == x && b == y
  {
    if a + b == x + y {
      assert a == (a + b)[..|a|] && x == (x + y)[..|x|];
      assert b == (a + b)[|a|..] && y == (x + y)[|x|..];
    }
  }

  /** The promise that the footer is preserved, for well-formed text and budgets that have room for a
      marker: it is kept exactly when nothing is cut, or the footer looks like the marker's end; and
      always when headers and bodies do not match. */
  lemma FooterKeptIff(prefix: Text, headers: seq<Text>, bodies: seq<Text>, footer: Text, maxTotal: nat)
    requires PartsWellFormed(prefix, headers, bodies, footer) && maxTotal > 80
    ensures |headers| != |bodies| ==> EndsIn(Fitted(prefix, headers, bodies, footer, maxTotal), footer)
    ensures |headers| == |bodies| ==>
      var asked := AskedLen(prefix, headers, bodies, footer, maxTotal);
      var s := Uncut(prefix, headers, bodies, footer, maxTotal);
      (EndsIn(Fitted(prefix, headers, bodies, footer, maxTotal), footer) <==>
        || asked <= maxTotal
        || EndsIn(TRUNC_MARKER, footer)
        || (EndsIn(footer, TRUNC_MARKER)
            && EndsIn(s[..Floor(s, if |s| < maxTotal then |s| else maxTotal - 1)], footer[..|footer| - |TRUNC_MARKER|])))
  {
    hide Uncut, AskedLen, TruncateNote, WellFormed, Fitted, EndsIn, Floor;
    hide TRUNC_MARKER;
    if |headers| != |bodies| {
      Unmatched(prefix, headers, bodies, footer, maxTotal);
      EndsInPart(prefix, footer);
    } else {
      var s := Uncut(prefix, headers, bodies, footer, maxTotal);
      FittedIsCut(prefix, headers, bodies, footer, maxTotal);
      CutIff(prefix, headers, bodies, footer, maxTotal);
      if |s| <= maxTotal {
        Untrimmed(s, maxTotal);
        UncutEndsInFooter(prefix, headers, bodies, footer, maxTotal);
      } else {
        var k := TruncateNoteKeepsHead(s, maxTotal);
        EndsBehindMarker(s[..k], footer);
      }
    }
  }

  lemma EndsInPart(a: Text, b: Text)
    ensures EndsIn(a + b, b)
  {
  }

  /** For a footer whose last byte is not the marker's, as all of the service's: it is preserved exactly
      when what is asked to fit does. */
  lemma OrdinaryFooterKeptIff(prefix: Text, headers: seq<Text>, bodies: seq<Text>, footer: Text, maxTotal: nat)
    requires |headers| == |bodies| && PartsWellFormed(prefix, headers, bodies, footer) && maxTotal > 80
    requires footer != [] && footer[|footer| - 1] != 93
    ensures EndsIn(Fitted(prefix, headers, bodies, footer, maxTotal), footer) <==>
      AskedLen(prefix, headers, bodies, footer, maxTotal) <= maxTotal
  {
    hide Uncut, AskedLen, WellFormed, Fitted, Floor;
    FooterKeptIff(prefix, headers, bodies, footer, maxTotal);
    MarkerEnd();
    EndsAlike(TRUNC_MARKER, footer);
    EndsAlike(footer, TRUNC_MARKER);
  }

  lemma EndsAlike(s: Text, d: Text)
    requires s != [] && d != []
    ensures EndsIn(s, d) ==> s[|s| - 1] == d[|d| - 1]
  {
    if EndsIn(s, d) {
      assert s[|s| - |d|..][|d| - 1] == s[|s| - 1];
    }
  }

  lemma MarkerEnd()
    ensures |TRUNC_MARKER| == 47 && TRUNC_MARKER[46] == 93
  {
  }

  // ---- why the text has to be well-formed ----

  /** Bodies that are not well-formed can leave so little when they are cut that the final cut is not
      made: 300 stray continuation bytes vanish but for the marker. */
  lemma IllFormedCanFit(body: Text, footer: Text)
    requires |body| == 300 && |footer| == 4 && forall i | 0 <= i < |body| :: Cont(body[i])
    ensures Overflows([], [[]], [body], footer, 200)
    ensures Fitted([], [[]], [body], footer, 200) == TRUNC_MARKER + footer
  {
    hide ToValid, WellFormed, Allot;
    OneBodyOverflows(body, footer);
    OneBodyAllotment(body);
    MarkerEnd();
    StrayContinuations(body[..195], 195);
    assert body[..195][195..] == [] && ToValid([]) == [] by { AsciiWellFormed([]); ToValidIsWellFormed([]); }
    assert [] + TRUNC_MARKER == TRUNC_MARKER;
    assert FittedBodies([], [[]], [body], footer, 200) == [TRUNC_MARKER];
    assert Blocks([[]], [TRUNC_MARKER]) == TRUNC_MARKER by { assert Blocks([], []) + [] + TRUNC_MARKER == TRUNC_MARKER; }
    assert [] + TRUNC_MARKER + footer == TRUNC_MARKER + footer;
    Untrimmed(TRUNC_MARKER + footer, 200);
  }

  lemma OneBodyOverflows(body: Text, footer: Text)
    requires |body| == 300 && |footer| == 4
    ensures Overflows([], [[]], [body], footer, 200) && Overhead([], [[]], footer) == 4
  {
    assert Lens([[]])[..0] == [] && Lens([body])[..0] == [];
    assert Total(Lens([body])) == 300;
  }

  lemma OneBodyAllotment(body: Text)
    requires |body| == 300
    ensures Total(Lens([body])) == 300 && Allot(196, Lens([body])) == [196]
  {
    var lens := Lens([body]);
    assert lens == [300] && lens[..0] == [];
    assert Total(lens) == 300;
    assert 196 * 300 / 300 == 196;
    assert Shares(196, lens, 300) == [196];
    assert Claimed(lens, [196]) == 196 by { assert [196][..0] == []; }
  }
}
