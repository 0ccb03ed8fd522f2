/** What the size and the score of a run measure (internal/session/compaction.go, importance.go). */
module RunScores {
  import opened Wrappers
  import opened Bytes
  import opened Sorting
  import opened Importance
  import opened Compaction

  // ---- size ----

  function Answers(es: seq<Entry>): seq<Text> {
    seq(|es|, i requires 0 <= i < |es| => es[i].text)
  }

  lemma {:induction false} SumIsLength(es: seq<Entry>)
    ensures Sum(es, TextLen) == |Concat(Answers(es))|
  {
    hide Concat;
    if es == [] {
      ConcatCons([]);
    } else {
      SumIsLength(es[1..]);
      assert Answers(es)[1..] == Answers(es[1..]);
      ConcatCons(Answers(es));
      assert es == [es[0]] + es[1..];
      SumAppend([es[0]], es[1..], TextLen);
      SumOfOne(es[0]);
    }
  }

  lemma SumOfOne(e: Entry)
    ensures Sum([e], TextLen) == |e.text|
  {
    SumWithout([e], 0, TextLen);
    assert [e][..0] + [e][1..] == [];
  }

  /** The size of a run is the length of its prompt, all its answers and its final text put together. */
  lemma RunCharsIsLength(run: Run)
    ensures var answers := Concat(Answers(run.agents));
      && (run.final.Some? ==> RunChars(run) == |run.prompt + answers + run.final.value|)
      && (run.final.None? ==> RunChars(run) == |run.prompt + answers|)
  {
    hide Concat;
    SumIsLength(run.agents);
  }

  // ---- score ----

  function Marks(outputs: seq<Entry>): seq<Scored>
    requires outputs != []
  {
    seq(|outputs|, i requires 0 <= i < |outputs| =>
      Scored(outputs[i].name, ImportanceScore(outputs[i].text, AverageLen(outputs))))
  }

  /** The score of a run is the mean importance of its outputs, whatever order they are ranked in. */
  lemma ScoreIsMean(run: Run)
    ensures run.agents == [] && run.final == None ==> ScoreRun(run) == 0.1
    ensures var outputs := AgentOutputs(run);
      outputs != [] ==> ScoreRun(run) * |outputs| as real == Total(Marks(outputs))
  {
    hide Total, Marks, AverageImportance, Ranked;
    var outputs := AgentOutputs(run);
    if outputs != [] {
      AverageIsMean(outputs);
    } else {
      assert run.final == None ==> outputs == run.agents;
    }
  }

  lemma AverageIsMean(outputs: seq<Entry>)
    requires outputs != []
    ensures AverageImportance(Ranked(outputs)) * |outputs| as real == Total(Marks(outputs))
  {
    hide ImportanceScore, Total, AverageLen, StableSort;
    var all := ScoreAll(outputs, AverageLen(outputs));
    assert all == Marks(outputs);
    StableSortIsPermutation(all, Before);
    var ranked := StableSort(all, Before);
    TotalIgnoresOrder(all, ranked);
    assert |multiset(ranked)| == |multiset(all)|;
    Quotient(Total(ranked), |ranked|);
  }

  lemma Quotient(x: real, n: nat)
    requires n > 0
    ensures x / n as real * n as real == x
  {
  }

  lemma {:induction false} TotalAppend(a: seq<Scored>, b: seq<Scored>)
    ensures Total(a + b) == Total(a) + Total(b)
  {
    if b == [] {
      assert a + b == a;
    } else {
      TotalAppend(a, b[..|b| - 1]);
      assert (a + b)[..|a + b| - 1] == a + b[..|b| - 1];
    }
  }

  lemma {:induction false} TotalIgnoresOrder(a: seq<Scored>, b: seq<Scored>)
    requires multiset(a) == multiset(b)
    ensures Total(a) == Total(b)
    decreases a
  {
    assert |multiset(a)| == |a| && |multiset(b)| == |b|;
    if a != [] {
      hide Total;
      var k := TakeOut(a, b);
      var rest := b[..k] + b[k + 1..];
      TotalIgnoresOrder(a[1..], rest);
      assert a == [a[0]] + a[1..] && b == b[..k] + ([b[k]] + b[k + 1..]);
      TotalAppend([a[0]], a[1..]);
      TotalAppend(b[..k], [b[k]] + b[k + 1..]);
      TotalAppend([b[k]], b[k + 1..]);
      TotalAppend(b[..k], b[k + 1..]);
    }
  }

  /** A text half as long again as the average of its peers has the full length score, a shorter one its
      part of it. */
  lemma LengthScore(text: Text, peerAvgLen: real)
    ensures peerAvgLen > 0.0 ==>
      && (NormScore(text, peerAvgLen) == 1.0 <==> |text| as real >= 1.5 * peerAvgLen)
      && (NormScore(text, peerAvgLen) < 1.0 ==> NormScore(text, peerAvgLen) * (1.5 * peerAvgLen) == |text| as real)
  {
    if peerAvgLen > 0.0 {
      Ratio(|text| as real, peerAvgLen * 1.5);
    }
  }

  lemma Ratio(a: real, b: real)
    requires b > 0.0 && a >= 0.0
    ensures a / b * b == a && (a / b < 1.0 <==> a < b)
  {
    var q := a / b;
    Divided(a, b);
    Minus(q, b);
    if q < 1.0 {
      Positive(1.0 - q, b);
    } else if q > 1.0 {
      Positive(q - 1.0, b);
    }
  }

  lemma Divided(a: real, b: real)
    requires b > 0.0
    ensures a / b * b == a
  {
  }

  lemma Minus(q: real, b: real)
    ensures (1.0 - q) * b == b - q * b && (q - 1.0) * b == q * b - b
  {
  }

  lemma Positive(x: real, y: real)
    requires x > 0.0 && y > 0.0
    ensures x * y > 0.0
  {
  }

  ghost predicate Distinct(words: seq<Text>) {
    forall i, j | 0 <= i < j < |words| :: words[i] != words[j]
  }

  /** A text has the full variety score exactly when it has words and none of them twice. */
  lemma VarietyScore(text: Text)
    ensures EntropyScore(text) == 1.0 <==> Fields(text) != [] && Distinct(Fields(text))
  {
    hide Fields, Distinct;
    var words := Fields(text);
    DistinctIff(words);
    DistinctAtMostAll(words);
    if words != [] {
      Ratio(|set t | t in words| as real, |words| as real);
    }
  }

  lemma DistinctFront(words: seq<Text>)
    requires words != []
    ensures Distinct(words) <==> words[0] !in words[1..] && Distinct(words[1..])
  {
    var rest := words[1..];
    assert forall i | 0 <= i < |rest| :: words[i + 1] == rest[i];
    if Distinct(words) {
      forall i | 0 <= i < |rest| ensures rest[i] != words[0] {
        assert words[i + 1] == rest[i];
      }
      forall i, j | 0 <= i < j < |rest| ensures rest[i] != rest[j] {
        assert words[i + 1] != words[j + 1];
      }
    } else {
      var i, j :| 0 <= i < j < |words| && words[i] == words[j];
      assert words[j] == rest[j - 1];
      assert i > 0 ==> words[i] == rest[i - 1];
    }
  }

  lemma WordsFront(words: seq<Text>)
    requires words != []
    ensures (set t | t in words) == {words[0]} + set t | t in words[1..]
  {
    assert words == [words[0]] + words[1..];
  }

  lemma {:induction false} DistinctIff(words: seq<Text>)
    ensures |set t | t in words| == |words| <==> Distinct(words)
  {
    if words != [] {
      hide Distinct;
      DistinctIff(words[1..]);
      DistinctAtMostAll(words[1..]);
      DistinctFront(words);
      WordsFront(words);
      if words[0] in words[1..] {
        assert (set t | t in words) == set t | t in words[1..];
      }
    }
  }
}
