/** Removing leaked chat-template tokens from a completion (internal/agent/client.go). */
module StopTokens {
  import opened Bytes

  const LLAMA_STOPS: seq<Text> :=
    [Ascii("<|im_end|>"), Ascii("<|im_start|>"), Ascii("<|eot_id|>"), Ascii("<|start_header_id|>"),
     Ascii("<|endoftext|>")]

  /** Some token starts at `p`. */
  ghost predicate StopAt(s: Text, toks: seq<Text>, p: int) {
    exists t | t in toks :: OccursAt(s, t, p)
  }

  /** `p` is where the first token of `toks` starts, or the end of `s` when there is none. */
  ghost predicate IsEarliest(s: Text, toks: seq<Text>, p: nat) {
    && p <= |s|
    && (p == |s| || StopAt(s, toks, p))
    && forall j | 0 <= j < p :: !StopAt(s, toks, j)
  }

  /** No two tokens can overlap: the byte a token starts with occurs nowhere else in any token. */
  ghost predicate Separated(toks: seq<Text>) {
    && (forall t | t in toks :: |t| > 0)
    && forall t, u, k | t in toks && u in toks && 1 <= k < |t| :: t[k] != u[0]
  }

  /** Cutting at the first occurrence of one token after another, in the order they are listed. */
  function StripInOrder(s: Text, toks: seq<Text>): Text {
    if toks == [] then s
    else
      var i := Index(s, toks[0]);
      StripInOrder(if i >= 0 then s[..i] else s, toks[1..])
  }

  lemma EarliestIsUnique(s: Text, toks: seq<Text>, more: seq<Text>, p: nat, q: nat)
    requires IsEarliest(s, toks, p) && IsEarliest(s, more, q)
    requires forall t :: t in toks <==> t in more
    ensures p == q
  {
    assert forall j :: StopAt(s, toks, j) <==> StopAt(s, more, j);
  }

  lemma OverlapSharesByte(s: Text, t: Text, j: int, u: Text, p: int)
    requires OccursAt(s, t, j) && OccursAt(s, u, p) && j < p < j + |t| && |u| > 0
    ensures t[p - j] == u[0]
  {
    assert s[p] == s[j..j + |t|][p - j];
    assert s[p] == s[p..p + |u|][0];
  }

  /** A token in front of the earliest of the others ends in front of it. */
  lemma NoStraddle(s: Text, seen: seq<Text>, t: Text, p: nat, j: nat)
    requires Separated(seen + [t])
    requires IsEarliest(s, seen, p) && j < p && OccursAt(s, t, j)
    ensures j + |t| <= p
  {
    if j + |t| > p {
      var u :| u in seen && OccursAt(s, u, p);
      assert u in seen + [t];
      OverlapSharesByte(s, t, j, u, p);
      assert false;
    }
  }

  /** Cutting what is already cut at the earliest of `seen` by one more token gives the cut at the
      earliest of them all: a token that straddled the cut would overlap the one it was made at. */
  lemma OneMoreToken(s: Text, seen: seq<Text>, t: Text, p: nat)
    requires Separated(seen + [t])
    requires IsEarliest(s, seen, p)
    ensures var i := Index(s[..p], t); IsEarliest(s, seen + [t], if i >= 0 then i else p)
  {
    var all := seen + [t];
    var i := Index(s[..p], t);
    var q := if i >= 0 then i else p;
    forall j | 0 <= j < p && OccursAt(s, t, j) ensures OccursAt(s[..p], t, j) {
      NoStraddle(s, seen, t, p, j);
      assert s[..p][j..j + |t|] == s[j..j + |t|];
    }
    forall j | 0 <= j < q ensures !StopAt(s, all, j) {
      assert !StopAt(s, seen, j);
    }
    if i >= 0 {
      assert s[..p][i..i + |t|] == s[i..i + |t|];
      assert t in all && OccursAt(s, t, i);
    } else if p < |s| {
      var u :| u in seen && OccursAt(s, u, p);
      assert u in all;
    }
  }

  lemma SeparatedSublist(toks: seq<Text>, some: seq<Text>)
    requires Separated(toks) && forall t | t in some :: t in toks
    ensures Separated(some)
  {
  }

  lemma {:induction false} StripFrom(s: Text, seen: seq<Text>, toks: seq<Text>, p: nat) returns (q: nat)
    requires Separated(seen + toks)
    requires IsEarliest(s, seen, p)
    ensures IsEarliest(s, seen + toks, q) && StripInOrder(s[..p], toks) == s[..q]
    decreases toks
  {
    if toks == [] {
      assert seen + toks == seen;
      return p;
    }
    var t := toks[0];
    assert seen + toks == seen + [t] + toks[1..];
    SeparatedSublist(seen + toks, seen + [t]);
    OneMoreToken(s, seen, t, p);
    var i := Index(s[..p], t);
    var p' := if i >= 0 then i else p;
    assert (if i >= 0 then s[..p][..i] else s[..p]) == s[..p'];
    q := StripFrom(s, seen + [t], toks[1..], p');
  }

  /** Tokens that cannot overlap are cut at the earliest of them. */
  lemma StripIsEarliestCut(s: Text, toks: seq<Text>) returns (q: nat)
    requires Separated(toks)
    ensures IsEarliest(s, toks, q) && StripInOrder(s, toks) == s[..q]
  {
    assert s[..|s|] == s && [] + toks == toks;
    q := StripFrom(s, [], toks, |s|);
  }

  /** The order in which the tokens are tried does not matter. */
  lemma StripAnyOrder(s: Text, toks: seq<Text>, others: seq<Text>)
    requires Separated(toks)
    requires forall t :: t in toks <==> t in others
    ensures StripInOrder(s, toks) == StripInOrder(s, others)
  {
    var p := StripIsEarliestCut(s, toks);
    var q := StripIsEarliestCut(s, others);
    EarliestIsUnique(s, toks, others, p, q);
  }

  /** Stripped text holds no token, so stripping it again changes nothing. */
  lemma StripIsClean(s: Text, toks: seq<Text>)
    requires Separated(toks)
    ensures var r := StripInOrder(s, toks);
      && r <= s
      && (forall p :: !StopAt(r, toks, p))
      && StripInOrder(r, toks) == r
  {
    var q := StripIsEarliestCut(s, toks);
    var r := s[..q];
    forall p ensures !StopAt(r, toks, p) {
      forall t | t in toks ensures !OccursAt(r, t, p) {
        if 0 <= p && p + |t| <= q {
          assert r[p..p + |t|] == s[p..p + |t|];
          assert !StopAt(s, toks, p);
        }
      }
    }
    var q' := StripIsEarliestCut(r, toks);
    assert q' == |r| && r[..|r|] == r;
  }

  predicate OpensOnce(t: Text) {
    |t| > 0 && t[0] == 60 && forall k | 1 <= k < |t| :: t[k] != 60
  }

  /** The listed tokens cannot overlap. */
  lemma LlamaStopsSeparated()
    ensures Separated(LLAMA_STOPS)
  {
    forall n | 0 <= n < |LLAMA_STOPS| ensures OpensOnce(LLAMA_STOPS[n]) {
    }
    assert forall t | t in LLAMA_STOPS :: OpensOnce(t);
  }

  /** `stripTemplateLeakage`. */
  method StripTemplateLeakage(s: Text) returns (r: Text)
    ensures r == StripInOrder(s, LLAMA_STOPS)
    ensures r <= s
    ensures exists q: nat :: IsEarliest(s, LLAMA_STOPS, q) && r == s[..q]
  {
    r := s;
    var n := 0;
    while n < |LLAMA_STOPS|
      invariant 0 <= n <= |LLAMA_STOPS|
      invariant StripInOrder(r, LLAMA_STOPS[n..]) == StripInOrder(s, LLAMA_STOPS)
    {
      var tok := LLAMA_STOPS[n];
      assert LLAMA_STOPS[n..][1..] == LLAMA_STOPS[n + 1..];
      var i := Index(r, tok);
      if i >= 0 {
        r := r[..i];
      }
      n := n + 1;
    }
    LlamaStopsSeparated();
    ghost var q := StripIsEarliestCut(s, LLAMA_STOPS);
    assert r == s[..q];
  }
}
