/** Byte-budgeted trimming of session text (internal/session/text.go). */
module SessionText {
  import opened Bytes
  import opened Utf8

  function CompactionMarker(omitted: nat): (m: Text)
    ensures IsAscii(m)
  {
    BLANK_LINE + Ascii("[...compacted: omitted ") + Decimal(omitted) + Ascii(" chars...]") + BLANK_LINE
  }

  const LINES_MARKER: Text := [LF] + Ascii("[...compacted...]")

  function Around(front: Text, omitted: nat, back: Text): Text {
    front + CompactionMarker(omitted) + back
  }

  /** `trimBlock`: the head (two thirds) and the tail around a marker; a tiny budget just cuts. */
  function TrimBlock(s: Text, maxChars: nat): Text {
    if |s| <= maxChars then s
    else if maxChars < 256 then ToValid(s[..maxChars])
    else
      var head := maxChars * 2 / 3;
      var tail := maxChars - head;
      Around(ToValid(s[..head]), |s| - maxChars, ToValid(s[|s| - tail..]))
  }

  lemma TrimBlockBound(s: Text, maxChars: nat)
    ensures |s| <= maxChars ==> TrimBlock(s, maxChars) == s
    ensures |s| > maxChars ==> |TrimBlock(s, maxChars)| <= maxChars + |CompactionMarker(|s| - maxChars)|
  {
  }

  /** A tiny budget keeps the whole characters in front of the cut, at most three bytes short. */
  lemma TinyBudgetKeepsHead(s: Text, maxChars: nat)
    requires WellFormed(s) && maxChars < |s| && maxChars < 256
    ensures var k := Floor(s, maxChars);
      && maxChars - 3 <= k <= maxChars
      && TrimBlock(s, maxChars) == s[..k]
      && WellFormed(s[..k])
  {
    CutHead(s, maxChars);
  }

  /** A larger budget keeps whole characters at both ends, each at most three bytes short, that do
      not overlap. */
  lemma TrimBlockKeepsEnds(s: Text, maxChars: nat) returns (h: nat, t: nat)
    requires WellFormed(s) && maxChars < |s| && maxChars >= 256
    ensures maxChars * 2 / 3 - 3 <= h <= maxChars * 2 / 3
    ensures var cut := |s| - (maxChars - maxChars * 2 / 3); h < cut <= t <= cut + 3 && t <= |s|
    ensures WellFormed(s[..h]) && WellFormed(s[t..])
    ensures TrimBlock(s, maxChars) == Around(s[..h], |s| - maxChars, s[t..])
  {
    hide ToValid, WellFormed, Around;
    var head := maxChars * 2 / 3;
    var cut := |s| - (maxChars - head);
    h := HeadCut(s, head);
    t := TailCut(s, cut);
    AroundCongruence(ToValid(s[..head]), s[..h], |s| - maxChars, ToValid(s[cut..]), s[t..]);
  }

  lemma AroundCongruence(a: Text, b: Text, omitted: nat, c: Text, d: Text)
    requires a == b && c == d
    ensures Around(a, omitted, c) == Around(b, omitted, d)
  {
  }

  lemma HeadCut(s: Text, head: nat) returns (h: nat)
    requires WellFormed(s) && head <= |s|
    ensures head - 3 <= h <= head && WellFormed(s[..h]) && ToValid(s[..head]) == s[..h]
  {
    CutHead(s, head);
    h := Floor(s, head);
  }

  lemma TailCut(s: Text, cut: nat) returns (t: nat)
    requires WellFormed(s) && cut <= |s|
    ensures cut <= t <= cut + 3 && t <= |s| && WellFormed(s[t..]) && ToValid(s[cut..]) == s[t..]
  {
    CutTail(s, cut);
    t := Ceil(s, cut);
  }

  lemma Middle(a: Text, b: Text, c: Text)
    ensures (a + b + c)[|a|..|a| + |b|] == b
  {
  }

  /** The number in the marker reads back as the number of bytes over the budget. */
  lemma MarkerTellsOmitted(omitted: nat)
    ensures var m, open := CompactionMarker(omitted), |BLANK_LINE| + |Ascii("[...compacted: omitted ")|;
      FromDecimal(m[open..open + |Decimal(omitted)|]) == omitted
  {
    hide Ascii, Decimal, FromDecimal;
    var opening := BLANK_LINE + Ascii("[...compacted: omitted ");
    var closing := Ascii(" chars...]") + BLANK_LINE;
    Regroup(opening + Decimal(omitted), Ascii(" chars...]"), BLANK_LINE);
    Middle(opening, Decimal(omitted), closing);
    DecimalRoundTrip(omitted);
  }

  lemma JoinWellFormed(a: Text, marker: Text, b: Text)
    requires IsAscii(marker)
    ensures WellFormed(ToValid(a) + marker + ToValid(b))
  {
    ToValidIsWellFormed(a);
    ToValidIsWellFormed(b);
    AsciiWellFormed(marker);
    WellFormedConcat(ToValid(a), marker);
    WellFormedConcat(ToValid(a) + marker, ToValid(b));
  }

  lemma TrimBlockWellFormed(s: Text, maxChars: nat)
    requires WellFormed(s)
    ensures WellFormed(TrimBlock(s, maxChars))
  {
    hide ToValid, WellFormed;
    if |s| > maxChars {
      if maxChars < 256 {
        ToValidIsWellFormed(s[..maxChars]);
      } else {
        var head := maxChars * 2 / 3;
        JoinWellFormed(s[..head], CompactionMarker(|s| - maxChars), s[|s| - (maxChars - head)..]);
      }
    }
  }

  // ---- the first lines ----

  function Newlines(s: Text): nat {
    if s == [] then 0 else Newlines(s[..|s| - 1]) + if s[|s| - 1] == LF then 1 else 0
  }

  /** The copy ends after `k` bytes: at the end, at the byte cap, or behind the last line allowed. */
  predicate LineCutAt(s: Text, k: nat, maxLines: nat, maxChars: nat)
    requires k <= |s|
  {
    k == |s| || k >= maxChars || (k > 0 && s[k - 1] == LF && Newlines(s[..k]) >= maxLines)
  }

  /** The first place from `k` on where the copy ends. */
  function LineCut(s: Text, k: nat, maxLines: nat, maxChars: nat): (r: nat)
    requires k <= |s|
    ensures k <= r <= |s| && LineCutAt(s, r, maxLines, maxChars)
    ensures forall j | k <= j < r :: !LineCutAt(s, j, maxLines, maxChars)
    decreases |s| - k
  {
    if LineCutAt(s, k, maxLines, maxChars) then k else LineCut(s, k + 1, maxLines, maxChars)
  }

  function FirstLinesOf(s: Text, maxLines: nat, maxChars: nat): Text {
    var k := LineCut(s, 0, maxLines, maxChars);
    ToValid(s[..k]) + if k < |s| then LINES_MARKER else []
  }

  /** `firstLines`. */
  method FirstLines(s: Text, maxLines: nat, maxChars: nat) returns (res: Text)
    ensures res == FirstLinesOf(s, maxLines, maxChars)
  {
    var out: Text := [];
    var lines := 0;
    var n := 0;
    while n < |s|
      invariant 0 <= n <= |s| && out == s[..n] && lines == Newlines(s[..n])
      invariant LineCut(s, 0, maxLines, maxChars) == LineCut(s, n, maxLines, maxChars)
      invariant n > 0 && s[n - 1] == LF ==> lines < maxLines
    {
      if |out| >= maxChars {
        assert LineCutAt(s, n, maxLines, maxChars);
        break;
      }
      assert s[..n + 1][..n] == s[..n];
      assert !LineCutAt(s, n, maxLines, maxChars);
      out := out + [s[n]];
      n := n + 1;
      assert LineCut(s, 0, maxLines, maxChars) == LineCut(s, n, maxLines, maxChars);
      if s[n - 1] == LF {
        lines := lines + 1;
        if lines >= maxLines {
          break;
        }
      }
    }
    assert LineCutAt(s, n, maxLines, maxChars);
    assert n == LineCut(s, 0, maxLines, maxChars) && out == s[..n];
    res := ToValid(out);
    assert res + [] == res;
    if |s| > |out| {
      res := res + LINES_MARKER;
    }
  }

  lemma FirstLinesBound(s: Text, maxLines: nat, maxChars: nat)
    ensures |FirstLinesOf(s, maxLines, maxChars)| <= maxChars + |LINES_MARKER|
    ensures WellFormed(FirstLinesOf(s, maxLines, maxChars))
    ensures WellFormed(s) && LineCut(s, 0, maxLines, maxChars) == |s| ==> FirstLinesOf(s, maxLines, maxChars) == s
  {
    hide ToValid, WellFormed, LineCut;
    var k := LineCut(s, 0, maxLines, maxChars);
    assert k > 0 ==> !LineCutAt(s, k - 1, maxLines, maxChars);
    ToValidIsWellFormed(s[..k]);
    AsciiWellFormed(LINES_MARKER);
    AsciiWellFormed([]);
    WellFormedConcat(ToValid(s[..k]), if k < |s| then LINES_MARKER else []);
    if k == |s| {
      assert s[..k] == s;
      ToValidIsWellFormed(s);
      assert s + [] == s;
    }
  }
}
