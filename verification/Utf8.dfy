/** UTF-8 as section 4 of RFC 3629 defines it, and what `strings.ToValidUTF8(s, "")` leaves of a
    string that was cut at an arbitrary byte. */
module Utf8 {
  import opened Bytes

  predicate Cont(b: Byte) {
    0x80 <= b <= 0xBF
  }

  predicate Rune2(a: Byte, b: Byte) {
    0xC2 <= a <= 0xDF && Cont(b)
  }

  predicate Rune3(a: Byte, b: Byte, c: Byte) {
    && 0xE0 <= a <= 0xEF
    && Cont(b) && Cont(c)
    && (a == 0xE0 ==> 0xA0 <= b)
    && (a == 0xED ==> b <= 0x9F)
  }

  predicate Rune4(a: Byte, b: Byte, c: Byte, d: Byte) {
    && 0xF0 <= a <= 0xF4
    && Cont(b) && Cont(c) && Cont(d)
    && (a == 0xF0 ==> 0x90 <= b)
    && (a == 0xF4 ==> b <= 0x8F)
  }

  /** The size of the well-formed character at the front of `s`, 0 when there is none. */
  function RuneLen(s: Text): (n: nat)
    ensures n <= 4 && n <= |s|
    ensures n > 0 ==> !Cont(s[0])
    ensures forall i | 1 <= i < n :: Cont(s[i])
  {
    if |s| >= 1 && s[0] < 0x80 then 1
    else if |s| >= 2 && Rune2(s[0], s[1]) then 2
    else if |s| >= 3 && Rune3(s[0], s[1], s[2]) then 3
    else if |s| >= 4 && Rune4(s[0], s[1], s[2], s[3]) then 4
    else 0
  }

  predicate WellFormed(s: Text) {
    s == [] || (RuneLen(s) > 0 && WellFormed(s[RuneLen(s)..]))
  }

  /** `strings.ToValidUTF8(s, "")`: a byte at which no well-formed character starts is deleted. */
  function ToValid(s: Text): (t: Text)
    ensures |t| <= |s|
  {
    var n := RuneLen(s);
    if s == [] then [] else if n > 0 then s[..n] + ToValid(s[n..]) else ToValid(s[1..])
  }

  lemma RuneLenLocal(s: Text, t: Text)
    requires RuneLen(s) > 0
    ensures RuneLen(s + t) == RuneLen(s)
  {
    assert forall i | 0 <= i < |s| :: (s + t)[i] == s[i];
  }

  lemma {:induction false} WellFormedConcat(s: Text, t: Text)
    requires WellFormed(s) && WellFormed(t)
    ensures WellFormed(s + t)
  {
    if s == [] {
      assert s + t == t;
    } else {
      RuneLenLocal(s, t);
      var n := RuneLen(s);
      assert (s + t)[n..] == s[n..] + t;
      WellFormedConcat(s[n..], t);
    }
  }

  lemma {:induction false} AsciiWellFormed(s: Text)
    requires IsAscii(s)
    ensures WellFormed(s)
  {
    if s != [] {
      assert RuneLen(s) == 1;
      AsciiWellFormed(s[1..]);
    }
  }

  /** Whatever goes in, well-formed text comes out; well-formed text comes out as it went in. */
  lemma {:induction false} ToValidIsWellFormed(s: Text)
    ensures WellFormed(ToValid(s))
    ensures ToValid(s) == s <==> WellFormed(s)
  {
    if s != [] {
      var n := RuneLen(s);
      if n > 0 {
        ToValidIsWellFormed(s[n..]);
        assert s == s[..n] + s[n..];
        assert RuneLen(s[..n]) == n;
        RuneLenLocal(s[..n], ToValid(s[n..]));
        assert ToValid(s)[n..] == ToValid(s[n..]);
      } else {
        ToValidIsWellFormed(s[1..]);
      }
    }
  }

  lemma {:induction false} StrayContinuations(s: Text, k: nat)
    requires k <= |s|
    requires forall i | 0 <= i < k :: Cont(s[i])
    ensures ToValid(s) == ToValid(s[k..])
  {
    if k > 0 {
      assert RuneLen(s) == 0;
      StrayContinuations(s[1..], k - 1);
      assert s[1..][k - 1..] == s[k..];
    } else {
      assert s[0..] == s;
    }
  }

  lemma BrokenRune(s: Text, k: nat)
    requires k < RuneLen(s)
    ensures ToValid(s[..k]) == []
  {
    if k > 0 {
      var t := s[..k];
      assert RuneLen(t) == 0;
      StrayContinuations(t[1..], k - 1);
      assert t[1..][k - 1..] == [];
    }
  }

  /** Valid text in front stays in front. */
  lemma {:induction false} ToValidPrefix(s: Text, t: Text)
    requires WellFormed(s)
    ensures ToValid(s + t) == s + ToValid(t)
  {
    hide RuneLen;
    if s == [] {
      assert s + t == t;
    } else {
      RuneLenLocal(s, t);
      var n := RuneLen(s);
      assert (s + t)[n..] == s[n..] + t && (s + t)[..n] == s[..n];
      ToValidPrefix(s[n..], t);
      Regroup(s[..n], s[n..], ToValid(t));
      assert s == s[..n] + s[n..];
    }
  }

  // ---- cutting at a byte ----

  /** Byte `i` does not lie inside a character. */
  predicate Boundary(s: Text, i: nat)
    requires i <= |s|
  {
    i == |s| || !Cont(s[i])
  }

  /** The nearest boundary at or before byte `k`. */
  function Floor(s: Text, k: nat): (b: nat)
    requires k <= |s|
    ensures b <= k
    ensures forall i | b < i <= k :: !Boundary(s, i)
    ensures Boundary(s, b) || b == 0
  {
    if Boundary(s, k) || k == 0 then k else Floor(s, k - 1)
  }

  /** The nearest boundary at or after byte `k`. */
  function Ceil(s: Text, k: nat): (b: nat)
    requires k <= |s|
    ensures k <= b <= |s|
    ensures forall i | k <= i < b :: !Boundary(s, i)
    ensures Boundary(s, b)
    decreases |s| - k
  {
    if Boundary(s, k) then k else Ceil(s, k + 1)
  }

  lemma RuneEndsAtBoundary(s: Text)
    requires WellFormed(s) && s != []
    ensures Boundary(s, RuneLen(s))
  {
    var n := RuneLen(s);
    assert WellFormed(s[n..]);
    if n < |s| {
      assert RuneLen(s[n..]) > 0;
      assert s[n] == s[n..][0];
    }
  }

  lemma RuneAlone(s: Text)
    requires RuneLen(s) > 0
    ensures RuneLen(s[..RuneLen(s)]) == RuneLen(s)
    ensures WellFormed(s[..RuneLen(s)])
  {
    var n := RuneLen(s);
    assert RuneLen(s[..n]) == n;
    assert s[..n][n..] == [];
  }

  /** The character at the front of well-formed text. */
  lemma FirstRune(s: Text)
    requires WellFormed(s) && s != []
    ensures RuneLen(s) > 0 && WellFormed(s[RuneLen(s)..])
  {
    hide RuneLen;
  }

  /** Cutting well-formed text at a boundary leaves two well-formed pieces. */
  lemma {:induction false} BoundarySplits(s: Text, k: nat)
    requires WellFormed(s) && k <= |s| && Boundary(s, k)
    ensures WellFormed(s[..k]) && WellFormed(s[k..])
  {
    hide WellFormed, RuneLen;
    if k == 0 {
      assert s[0..] == s && s[..0] == [];
      NothingIsWellFormed();
    } else {
      FirstRune(s);
      var n := RuneLen(s);
      assert k >= n;
      var rest := s[n..];
      assert k < |s| ==> rest[k - n] == s[k];
      BoundarySplits(rest, k - n);
      CutTwice(s, n, k, |s|);
      CutTwice(s, n, n, k);
      RuneAlone(s);
      WellFormedConcat(s[..n], s[n..k]);
      assert s[..k] == s[..n] + s[n..k];
    }
  }

  lemma NothingIsWellFormed()
    ensures WellFormed([])
  {
  }

  /** Well-formed text starts at a boundary. */
  lemma StartsAtBoundary(s: Text)
    requires WellFormed(s)
    ensures Boundary(s, 0)
  {
    if s != [] { assert RuneLen(s) > 0; }
  }

  /** No more than three bytes lie between neighbouring boundaries of well-formed text. */
  lemma BoundariesAreDense(s: Text, k: nat)
    requires WellFormed(s) && k <= |s|
    ensures Boundary(s, Floor(s, k))
    ensures k - 3 <= Floor(s, k) && Ceil(s, k) <= k + 3
    ensures ToValid(s[Floor(s, k)..k]) == []
  {
    hide RuneLen, ToValid;
    StartsAtBoundary(s);
    var f := Floor(s, k);
    if f < k {
      var r := s[f..];
      BoundarySplits(s, f);
      var n := RuneLen(r);
      RuneEndsAtBoundary(r);
      assert Boundary(s, f + n) by { if f + n < |s| { assert s[f + n] == r[n]; } }
      BrokenRune(r, k - f);
      assert r[..k - f] == s[f..k];
    } else if k < |s| {
      assert Ceil(s, k) == k;
    }
  }

  /** A byte cut of well-formed text, made valid, is the text up to the boundary before the cut. */
  lemma CutHead(s: Text, k: nat)
    requires WellFormed(s) && k <= |s|
    ensures ToValid(s[..k]) == s[..Floor(s, k)]
    ensures WellFormed(s[..Floor(s, k)]) && k - 3 <= Floor(s, k) <= k
  {
    hide RuneLen, WellFormed, ToValid, Ceil;
    var f := Floor(s, k);
    BoundariesAreDense(s, k);
    BoundarySplits(s, f);
    assert s[..k] == s[..f] + s[f..k];
    ToValidPrefix(s[..f], s[f..k]);
    assert s[..f] + [] == s[..f];
  }

  /** The rest of well-formed text behind a byte cut, made valid, starts at the boundary after it. */
  lemma CutTail(s: Text, k: nat)
    requires WellFormed(s) && k <= |s|
    ensures ToValid(s[k..]) == s[Ceil(s, k)..]
    ensures WellFormed(s[Ceil(s, k)..]) && k <= Ceil(s, k) <= k + 3
  {
    hide WellFormed, ToValid, RuneLen, Floor;
    var c := Ceil(s, k);
    BoundariesAreDense(s, k);
    BoundarySplits(s, c);
    forall i | 0 <= i < c - k ensures Cont(s[k..][i]) {
      assert !Boundary(s, k + i);
    }
    StrayContinuations(s[k..], c - k);
    CutTwice(s, k, c, |s|);
    ToValidIsWellFormed(s[c..]);
  }

  /** Where two well-formed texts meet is a boundary. */
  lemma SeamIsBoundary(s: Text, t: Text)
    requires WellFormed(t)
    ensures Boundary(s + t, |s|)
  {
    StartsAtBoundary(t);
    if t != [] { assert (s + t)[|s|] == t[0]; }
  }

  // ---- white space and characters ----

  /** Trimming white space off well-formed text takes whole characters. */
  lemma {:induction false} TrimLeftWellFormed(s: Text)
    requires WellFormed(s)
    ensures WellFormed(TrimLeft(s))
  {
    var n := LeadingSpace(s);
    if n > 0 {
      assert RuneLen(s) == n;
      TrimLeftWellFormed(s[n..]);
    }
  }

  lemma {:induction false} TrimRightWellFormed(s: Text)
    requires WellFormed(s)
    ensures WellFormed(TrimRight(s))
  {
    var n := TrailingSpace(s);
    if n > 0 {
      assert Boundary(s, |s| - n);
      BoundarySplits(s, |s| - n);
      TrimRightWellFormed(s[..|s| - n]);
    }
  }

  lemma TrimSpaceWellFormed(s: Text)
    requires WellFormed(s)
    ensures WellFormed(TrimSpace(s))
  {
    TrimLeftWellFormed(s);
    TrimRightWellFormed(TrimLeft(s));
  }
}
