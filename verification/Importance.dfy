/** Symbolic importance of agent outputs (internal/session/importance.go). A Go map of outputs is
    the list of its entries in the order one iteration happens to visit them. */
module Importance {
  import opened Bytes
  import opened Sorting

  datatype Entry = Entry(name: Text, text: Text)

  datatype Scored = Scored(name: Text, score: real)

  ghost predicate DistinctNames(es: seq<Entry>) {
    forall i, j | 0 <= i < j < |es| :: es[i].name != es[j].name
  }

  function TextLen(e: Entry): nat {
    |e.text|
  }

  function NormScore(text: Text, peerAvgLen: real): real {
    if peerAvgLen <= 0.0 || text == [] then 0.0
    else
      var v := |text| as real / (peerAvgLen * 1.5);
      if v < 1.0 then v else 1.0
  }

  /** How many bytes precede the first white space. */
  function WordLen(s: Text): (n: nat)
    ensures n <= |s|
  {
    if s == [] || LeadingSpace(s) > 0 then 0 else 1 + WordLen(s[1..])
  }

  /** `strings.Fields`. */
  function Fields(s: Text): seq<Text> {
    if s == [] then []
    else if LeadingSpace(s) > 0 then Fields(s[LeadingSpace(s)..])
    else [s[..WordLen(s)]] + Fields(s[WordLen(s)..])
  }

  /** Distinct tokens over all tokens. */
  function EntropyScore(text: Text): real {
    var tokens := Fields(text);
    if tokens == [] then 0.0
    else |set t | t in tokens| as real / |tokens| as real
  }

  function ImportanceScore(text: Text, peerAvgLen: real): real {
    0.6 * NormScore(text, peerAvgLen) + 0.4 * EntropyScore(text)
  }

  function AverageLen(outputs: seq<Entry>): real
    requires outputs != []
  {
    Sum(outputs, TextLen) as real / |outputs| as real
  }

  /** Score descending, then name ascending. */
  predicate Before(a: Scored, b: Scored) {
    if a.score != b.score then a.score > b.score else LexLess(a.name, b.name)
  }

  function ScoreAll(outputs: seq<Entry>, avgLen: real): seq<Scored> {
    seq(|outputs|, i requires 0 <= i < |outputs| =>
      Scored(outputs[i].name, ImportanceScore(outputs[i].text, avgLen)))
  }

  function Ranked(outputs: seq<Entry>): seq<Scored> {
    if outputs == [] then [] else StableSort(ScoreAll(outputs, AverageLen(outputs)), Before)
  }

  function Total(ranked: seq<Scored>): real {
    if ranked == [] then 0.0 else Total(ranked[..|ranked| - 1]) + ranked[|ranked| - 1].score
  }

  function AverageImportance(ranked: seq<Scored>): real {
    if ranked == [] then 0.0 else Total(ranked) / |ranked| as real
  }

  // ---- the loops ----

  method RankOutputs(outputs: seq<Entry>) returns (ranked: seq<Scored>)
    ensures ranked == Ranked(outputs)
  {
    if |outputs| == 0 {
      return [];
    }
    var total := 0;
    for n := 0 to |outputs|
      invariant total == Sum(outputs[..n], TextLen)
    {
      assert outputs[..n + 1] == outputs[..n] + [outputs[n]];
      SumAppend(outputs[..n], [outputs[n]], TextLen);
      total := total + |outputs[n].text|;
    }
    assert outputs[..|outputs|] == outputs;
    var avgLen := total as real / |outputs| as real;
    ranked := [];
    for n := 0 to |outputs|
      invariant ranked == ScoreAll(outputs[..n], avgLen)
    {
      ranked := ranked + [Scored(outputs[n].name, ImportanceScore(outputs[n].text, avgLen))];
    }
    ranked := StableSort(ranked, Before);
  }

  method AverageOf(ranked: seq<Scored>) returns (avg: real)
    ensures avg == AverageImportance(ranked)
  {
    if |ranked| == 0 {
      return 0.0;
    }
    var sum := 0.0;
    for n := 0 to |ranked|
      invariant sum == Total(ranked[..n])
    {
      assert ranked[..n + 1][..n] == ranked[..n];
      sum := sum + ranked[n].score;
    }
    assert ranked[..|ranked|] == ranked;
    return sum / |ranked| as real;
  }

  // ---- the ranking does not depend on the iteration order ----

  lemma BeforeIsStrict()
    ensures StrictOrder(Before)
  {
    forall x: Scored ensures !Before(x, x) {
      LexTotal(x.name, x.name);
    }
    forall x: Scored, y: Scored, z: Scored | Before(x, y) && Before(y, z) ensures Before(x, z) {
      if x.score == y.score == z.score { LexTransitive(x.name, y.name, z.name); }
    }
  }

  /** The ranking is the outputs, each with its score, in strict order. */
  lemma RankedIsSorted(outputs: seq<Entry>)
    requires DistinctNames(outputs) && outputs != []
    ensures Sorted(Ranked(outputs), Before)
    ensures forall i, j | 0 <= i < j < |Ranked(outputs)| ::
      var a, b := Ranked(outputs)[i], Ranked(outputs)[j];
      a.score > b.score || (a.score == b.score && LexLess(a.name, b.name))
    ensures multiset(Ranked(outputs)) == multiset(ScoreAll(outputs, AverageLen(outputs)))
  {
    var all := ScoreAll(outputs, AverageLen(outputs));
    BeforeIsStrict();
    forall i, j | 0 <= i < j < |all|
      ensures Before(all[j], all[i]) || Before(all[i], all[j])
    {
      LexTotal(all[i].name, all[j].name);
    }
    StableSortSorts(all, Before, Before);
    StableSortIsPermutation(all, Before);
  }

  lemma ScoreAllWithout(es: seq<Entry>, k: nat, avg: real)
    requires k < |es|
    ensures multiset(ScoreAll(es, avg)) == multiset(ScoreAll(es[..k] + es[k + 1..], avg))
      + multiset{Scored(es[k].name, ImportanceScore(es[k].text, avg))}
  {
    hide ImportanceScore;
    var all := ScoreAll(es, avg);
    assert all == all[..k] + [all[k]] + all[k + 1..];
    assert ScoreAll(es[..k] + es[k + 1..], avg) == all[..k] + all[k + 1..];
  }

  lemma {:induction false} ScoreAllPermutes(a: seq<Entry>, b: seq<Entry>, avg: real)
    requires multiset(a) == multiset(b)
    ensures multiset(ScoreAll(a, avg)) == multiset(ScoreAll(b, avg))
    decreases a
  {
    hide *;
    assert |multiset(a)| == |a| && |multiset(b)| == |b|;
    if a == [] {
      assert b == a;
    } else {
      var k := TakeOut(a, b);
      var rest := b[..k] + b[k + 1..];
      ScoreAllPermutes(a[1..], rest, avg);
      ScoreAllWithout(a, 0, avg);
      assert a[..0] + a[1..] == a[1..];
      ScoreAllWithout(b, k, avg);
    }
  }

  /** Whatever order the map is visited in, the ranking is the same sequence. */
  lemma RankIgnoresOrder(a: seq<Entry>, b: seq<Entry>)
    requires DistinctNames(a) && DistinctNames(b)
    requires multiset(a) == multiset(b)
    ensures Ranked(a) == Ranked(b)
  {
    assert |multiset(a)| == |a| && |multiset(b)| == |b|;
    if a != [] {
      SumIgnoresOrder(a, b, TextLen);
      ScoreAllPermutes(a, b, AverageLen(a));
      RankedIsSorted(a);
      RankedIsSorted(b);
      BeforeIsStrict();
      SortedIsUnique(Ranked(a), Ranked(b), Before);
    }
  }

  // ---- scores lie in [0, 1] ----

  lemma {:induction false} DistinctAtMostAll(tokens: seq<Text>)
    ensures |set t | t in tokens| <= |tokens|
  {
    if tokens != [] {
      DistinctAtMostAll(tokens[1..]);
      assert (set t | t in tokens) == {tokens[0]} + set t | t in tokens[1..] by {
        assert tokens == [tokens[0]] + tokens[1..];
      }
    }
  }

  lemma ImportanceInUnit(text: Text, peerAvgLen: real)
    ensures 0.0 <= ImportanceScore(text, peerAvgLen) <= 1.0
  {
    DistinctAtMostAll(Fields(text));
  }

  lemma {:induction false} TotalInRange(ranked: seq<Scored>)
    requires forall s | s in ranked :: 0.0 <= s.score <= 1.0
    ensures 0.0 <= Total(ranked) <= |ranked| as real
  {
    if ranked != [] {
      assert ranked[|ranked| - 1] in ranked;
      TotalInRange(ranked[..|ranked| - 1]);
    }
  }

  lemma MeanInUnit(total: real, n: nat)
    requires n > 0 && 0.0 <= total <= n as real
    ensures 0.0 <= total / n as real <= 1.0
  {
  }

  lemma RankedInUnit(outputs: seq<Entry>)
    ensures forall s | s in Ranked(outputs) :: 0.0 <= s.score <= 1.0
  {
    if outputs != [] {
      var all := ScoreAll(outputs, AverageLen(outputs));
      StableSortIsPermutation(all, Before);
      forall s | s in Ranked(outputs) ensures 0.0 <= s.score <= 1.0 {
        assert s in multiset(all);
        var i :| 0 <= i < |all| && all[i] == s;
        ImportanceInUnit(outputs[i].text, AverageLen(outputs));
      }
    }
  }

  lemma AverageInUnit(outputs: seq<Entry>)
    ensures 0.0 <= AverageImportance(Ranked(outputs)) <= 1.0
  {
    var ranked := Ranked(outputs);
    RankedInUnit(outputs);
    TotalInRange(ranked);
    if ranked != [] { MeanInUnit(Total(ranked), |ranked|); }
  }
}
