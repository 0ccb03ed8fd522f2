/** Byte strings, as Go's `string` and `[]byte` values hold them, with the few operations of the
    standard library that the rest of the model is built on. */
module Bytes {

  newtype Byte = x: int | 0 <= x < 256

  type Text = seq<Byte>

  const LF: Byte := 10

  const BLANK_LINE: Text := [LF, LF]

  /** The bytes of an ASCII literal. */
  function Ascii(s: string): (t: Text)
    ensures |t| == |s|
    ensures IsAscii(t)
  {
    seq(|s|, i requires 0 <= i < |s| => if s[i] as int < 128 then s[i] as int as Byte else 63)
  }

  predicate IsAscii(t: Text) {
    forall i | 0 <= i < |t| :: t[i] < 128
  }

  /** Concatenation of a list of byte strings, left to right. */
  function Concat(parts: seq<Text>): Text {
    if parts == [] then [] else parts[0] + Concat(parts[1..])
  }

  lemma Regroup<T>(a: seq<T>, b: seq<T>, c: seq<T>)
    ensures a + (b + c) == a + b + c
  {
  }

  lemma CutSum<T>(a: seq<T>, b: seq<T>, i: nat)
    requires i <= |a|
    ensures (a + b)[..i] == a[..i] && (a + b)[i..] == a[i..] + b
  {
  }

  lemma CutTwice<T>(s: seq<T>, i: nat, j: nat, k: nat)
    requires i <= j <= k <= |s|
    ensures s[i..][j - i..k - i] == s[j..k]
  {
  }

  lemma ConcatCons(a: seq<Text>)
    ensures a == [] ==> Concat(a) == []
    ensures a != [] ==> Concat(a) == a[0] + Concat(a[1..])
  {
  }

  lemma {:induction false} ConcatAppend(a: seq<Text>, b: seq<Text>)
    ensures Concat(a + b) == Concat(a) + Concat(b)
  {
    hide Concat;
    ConcatCons(a);
    ConcatCons(a + b);
    if a == [] {
      assert a + b == b && [] + Concat(b) == Concat(b);
    } else {
      ConcatAppend(a[1..], b);
      CutSum(a, b, 1);
      Regroup(a[0], Concat(a[1..]), Concat(b));
    }
  }

  /** The texts that are not empty, in order. */
  function NonEmpty(ts: seq<Text>): seq<Text> {
    if ts == [] then []
    else
      var last := ts[|ts| - 1];
      NonEmpty(ts[..|ts| - 1]) + if last == [] then [] else [last]
  }

  /** Leaving out empty texts does not show in what they are put together. */
  lemma {:induction false} NonEmptyKeepsText(ts: seq<Text>)
    ensures Concat(NonEmpty(ts)) == Concat(ts)
  {
    hide Concat;
    if ts != [] {
      var init, last := ts[..|ts| - 1], ts[|ts| - 1];
      NonEmptyKeepsText(init);
      assert ts == init + [last];
      ConcatAppend(init, [last]);
      ConcatAppend(NonEmpty(init), [last]);
      ConcatAppend(NonEmpty(init), []);
      ConcatOne(last);
      ConcatCons([]);
    }
  }

  lemma ConcatOne(t: Text)
    ensures Concat([t]) == t
  {
  }

  lemma {:induction false} NonEmptyIsAll(ts: seq<Text>)
    requires forall i | 0 <= i < |ts| :: ts[i] != []
    ensures NonEmpty(ts) == ts
  {
    if ts != [] {
      NonEmptyIsAll(ts[..|ts| - 1]);
    }
  }

  /** `bytes.Index`: where `pat` first occurs in `s`, or -1. */
  function Index(s: Text, pat: Text): (r: int)
    ensures r == -1 || OccursAt(s, pat, r)
    ensures forall j | 0 <= j && (r < 0 || j < r) :: !OccursAt(s, pat, j)
  {
    if OccursAt(s, pat, 0) then 0
    else if s == [] then -1
    else
      var r := Index(s[1..], pat);
      assert forall j | 0 < j :: OccursAt(s, pat, j) <==> OccursAt(s[1..], pat, j - 1) by {
        forall j | 0 < j ensures OccursAt(s, pat, j) <==> OccursAt(s[1..], pat, j - 1) {
          if j + |pat| <= |s| { assert s[1..][j - 1..j - 1 + |pat|] == s[j..j + |pat|]; }
        }
      }
      if r < 0 then -1 else r + 1
  }

  predicate OccursAt(s: Text, pat: Text, i: int) {
    0 <= i && i + |pat| <= |s| && s[i..i + |pat|] == pat
  }

  /** An index that no earlier occurrence precedes is the one `Index` finds. */
  lemma IndexIsFirst(s: Text, pat: Text, i: int)
    requires OccursAt(s, pat, i)
    requires forall j | 0 <= j < i :: !OccursAt(s, pat, j)
    ensures Index(s, pat) == i
  {
  }

  /** Text appended behind an occurrence does not change which occurrence is first. */
  lemma IndexStable(s: Text, t: Text, pat: Text)
    requires Index(s, pat) >= 0
    ensures Index(s + t, pat) == Index(s, pat)
  {
    var i := Index(s, pat);
    forall j | 0 <= j <= i ensures OccursAt(s + t, pat, j) == OccursAt(s, pat, j) {
      assert (s + t)[j..j + |pat|] == s[j..j + |pat|];
    }
    IndexIsFirst(s + t, pat, i);
  }

  /** Decimal digits of a number, most significant first (`%d`, `strconv.Itoa`). */
  function Decimal(n: nat): (t: Text)
    ensures |t| > 0
    ensures forall i | 0 <= i < |t| :: 48 <= t[i] <= 57
  {
    if n < 10 then [(48 + n) as Byte] else Decimal(n / 10) + [(48 + n % 10) as Byte]
  }

  /** The number a row of decimal digits stands for. */
  function FromDecimal(t: Text): int {
    if t == [] then 0 else 10 * FromDecimal(t[..|t| - 1]) + t[|t| - 1] as int - 48
  }

  lemma {:induction false} DecimalRoundTrip(n: nat)
    ensures FromDecimal(Decimal(n)) == n
  {
    if n < 10 {
      assert Decimal(n)[..0] == [];
      assert FromDecimal([]) == 0;
    } else {
      DecimalRoundTrip(n / 10);
      assert Decimal(n)[..|Decimal(n)| - 1] == Decimal(n / 10);
    }
  }

  /** How many bytes the white-space character at the front of `s` takes, 0 when there is none.
      The characters are those of `unicode.IsSpace`. */
  function LeadingSpace(s: Text): (n: nat)
    ensures n <= 3 && n <= |s|
  {
    if |s| >= 1 && IsSpace1(s[0]) then 1
    else if |s| >= 2 && IsSpace2(s[0], s[1]) then 2
    else if |s| >= 3 && IsSpace3(s[0], s[1], s[2]) then 3
    else 0
  }

  function TrailingSpace(s: Text): (n: nat)
    ensures n <= 3 && n <= |s|
  {
    var k := |s|;
    if k >= 1 && IsSpace1(s[k - 1]) then 1
    else if k >= 2 && IsSpace2(s[k - 2], s[k - 1]) then 2
    else if k >= 3 && IsSpace3(s[k - 3], s[k - 2], s[k - 1]) then 3
    else 0
  }

  predicate IsSpace1(a: Byte) {
    9 <= a <= 13 || a == 32
  }

  /** U+0085 and U+00A0. */
  predicate IsSpace2(a: Byte, b: Byte) {
    a == 0xC2 && (b == 0x85 || b == 0xA0)
  }

  /** U+1680, U+2000 to U+200A, U+2028, U+2029, U+202F, U+205F and U+3000. */
  predicate IsSpace3(a: Byte, b: Byte, c: Byte) {
    || (a == 0xE1 && b == 0x9A && c == 0x80)
    || (a == 0xE2 && b == 0x80 && (0x80 <= c <= 0x8A || c == 0xA8 || c == 0xA9 || c == 0xAF))
    || (a == 0xE2 && b == 0x81 && c == 0x9F)
    || (a == 0xE3 && b == 0x80 && c == 0x80)
  }

  function TrimLeft(s: Text): (t: Text)
    ensures |t| <= |s|
  {
    var n := LeadingSpace(s);
    if n == 0 then s else TrimLeft(s[n..])
  }

  function TrimRight(s: Text): (t: Text)
    ensures |t| <= |s|
  {
    var n := TrailingSpace(s);
    if n == 0 then s else TrimRight(s[..|s| - n])
  }

  /** `bytes.TrimSpace` and `strings.TrimSpace`. */
  function TrimSpace(s: Text): (t: Text)
    ensures |t| <= |s|
  {
    TrimRight(TrimLeft(s))
  }

  lemma {:induction false} TrimLeftDropsFront(s: Text)
    ensures var t := TrimLeft(s); t == s[|s| - |t|..] && LeadingSpace(t) == 0
  {
    var n := LeadingSpace(s);
    if n > 0 {
      TrimLeftDropsFront(s[n..]);
    }
  }

  lemma {:induction false} TrimRightDropsEnd(s: Text)
    ensures var t := TrimRight(s); t <= s && TrailingSpace(t) == 0
  {
    var n := TrailingSpace(s);
    if n > 0 {
      TrimRightDropsEnd(s[..|s| - n]);
    }
  }

  predicate Trimmed(s: Text) {
    LeadingSpace(s) == 0 && TrailingSpace(s) == 0
  }

  /** Trimming gives text with no white space at either end, and leaves such text alone. */
  lemma TrimSpaceTrims(s: Text)
    ensures Trimmed(TrimSpace(s))
    ensures TrimSpace(s) == s <==> Trimmed(s)
  {
    var l := TrimLeft(s);
    var t := TrimRight(l);
    TrimLeftDropsFront(s);
    TrimRightDropsEnd(l);
    if |t| >= 1 { assert t[0] == l[0]; }
    if |t| >= 2 { assert t[1] == l[1]; }
    if |t| >= 3 { assert t[2] == l[2]; }
  }
}
