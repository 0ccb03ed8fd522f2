/** What the retry and fallback schedule of an agent call amounts to. */
module AgentCalls {
  import opened Bytes
  import opened StopTokens
  import opened AgentClient

  function CallsTo(calls: seq<Call>, b: Backend): nat {
    if calls == [] then 0
    else CallsTo(calls[..|calls| - 1], b) + if calls[|calls| - 1].backend == b then 1 else 0
  }

  function Last(calls: seq<Call>): Call
    requires calls != []
  {
    calls[|calls| - 1]
  }

  /** `next` goes out because `prev` failed for now: to the fallback when `prev` was the primary's. */
  predicate MayFollow(prev: Call, next: Call, primary: Backend, fallback: bool) {
    && !Final(prev.attempt)
    && (next.backend == Other(primary) <==> fallback && prev.backend == primary)
  }

  /** The policy, without a schedule: start with the primary; stop after a final outcome; only a
      transient failure of the primary is followed by the fallback, and it is whenever there is one;
      the primary gets two chances, and calling does not end earlier without a final outcome. */
  ghost predicate Lawful(calls: seq<Call>, primary: Backend, fallback: bool) {
    && calls != [] && calls[0].backend == primary
    && (forall k | 0 < k < |calls| :: MayFollow(calls[k - 1], calls[k], primary, fallback))
    && CallsTo(calls, primary) <= RETRY_ATTEMPTS
    && (Final(Last(calls).attempt) || (CallsTo(calls, primary) == RETRY_ATTEMPTS
                                       && (fallback ==> Last(calls).backend == Other(primary))))
  }

  ghost predicate InTurn(calls: seq<Call>, primary: Backend, fallback: bool) {
    forall k | 0 <= k < |calls| :: calls[k].backend == Turn(primary, fallback, k)
  }

  lemma {:induction false} TurnsCount(calls: seq<Call>, primary: Backend, fallback: bool)
    requires InTurn(calls, primary, fallback)
    ensures CallsTo(calls, primary) == if fallback then (|calls| + 1) / 2 else |calls|
    ensures CallsTo(calls, Other(primary)) == if fallback then |calls| / 2 else 0
  {
    if calls != [] {
      TurnsCount(calls[..|calls| - 1], primary, fallback);
    }
  }

  lemma {:induction false} LawfulTakesTurns(calls: seq<Call>, primary: Backend, fallback: bool, k: nat)
    requires Lawful(calls, primary, fallback) && k < |calls|
    ensures calls[k].backend == Turn(primary, fallback, k)
  {
    if k > 0 {
      LawfulTakesTurns(calls, primary, fallback, k - 1);
    }
  }

  ghost predicate HasOutcomes(calls: seq<Call>, outcomes: Outcomes) {
    forall k: nat | k < |calls| :: calls[k].attempt == outcomes(k)
  }

  lemma LawfulIsSchedule(calls: seq<Call>, outcomes: Outcomes, primary: Backend, fallback: bool)
    requires HasOutcomes(calls, outcomes) && Lawful(calls, primary, fallback)
    ensures calls == Schedule(outcomes, primary, fallback)
  {
    hide CallsTo, Taken, Final;
    forall k | 0 <= k < |calls| ensures calls[k].backend == Turn(primary, fallback, k) {
      LawfulTakesTurns(calls, primary, fallback, k);
    }
    TurnsCount(calls, primary, fallback);
    var n := |calls|;
    forall j: nat | j < n - 1 ensures !Final(outcomes(j)) {
      var next := j + 1;
      assert MayFollow(calls[next - 1], calls[next], primary, fallback);
    }
    EndsHere(outcomes, primary, fallback, n);
    assert calls == Made(outcomes, primary, fallback, n);
  }

  lemma ScheduleIsLawful(outcomes: Outcomes, primary: Backend, fallback: bool)
    ensures var calls := Schedule(outcomes, primary, fallback);
      HasOutcomes(calls, outcomes) && InTurn(calls, primary, fallback) && Lawful(calls, primary, fallback)
  {
    hide CallsTo, Taken, Final, Lawful;
    var calls := Schedule(outcomes, primary, fallback);
    TurnsCount(calls, primary, fallback);
    forall k | 0 < k < |calls| ensures MayFollow(calls[k - 1], calls[k], primary, fallback) {
      TurnsAlternate(primary, fallback, k);
    }
    assert calls[0].backend == Turn(primary, fallback, 0);
    IsLawful(calls, primary, fallback);
  }

  lemma TurnsAlternate(primary: Backend, fallback: bool, k: nat)
    requires k > 0
    ensures Turn(primary, fallback, k) == Other(primary) <==> fallback && Turn(primary, fallback, k - 1) == primary
  {
  }

  lemma IsLawful(calls: seq<Call>, primary: Backend, fallback: bool)
    requires calls != [] && InTurn(calls, primary, fallback) && |calls| <= Turns(fallback)
    requires forall k | 0 < k < |calls| :: MayFollow(calls[k - 1], calls[k], primary, fallback)
    requires Final(Last(calls).attempt) || |calls| == Turns(fallback)
    ensures Lawful(calls, primary, fallback)
  {
    hide CallsTo, Final, MayFollow;
    TurnsCount(calls, primary, fallback);
  }

  /** The calls that are made are the only ones the policy allows, given how they turn out. */
  lemma ScheduleIsThePolicy(calls: seq<Call>, outcomes: Outcomes, primary: Backend, fallback: bool)
    requires HasOutcomes(calls, outcomes)
    ensures calls == Schedule(outcomes, primary, fallback) <==> Lawful(calls, primary, fallback)
  {
    hide Lawful, Schedule;
    ScheduleIsLawful(outcomes, primary, fallback);
    if Lawful(calls, primary, fallback) {
      LawfulIsSchedule(calls, outcomes, primary, fallback);
    }
  }

  /** At most two calls to either backend, none to the other one without a fallback. */
  lemma AtMostTwoEach(outcomes: Outcomes, primary: Backend, fallback: bool)
    ensures var calls := Schedule(outcomes, primary, fallback);
      && 1 <= CallsTo(calls, primary) <= 2
      && CallsTo(calls, Other(primary)) <= (if fallback then 2 else 0)
      && |calls| == CallsTo(calls, primary) + CallsTo(calls, Other(primary))
  {
    hide CallsTo, Taken, Lawful;
    ScheduleIsLawful(outcomes, primary, fallback);
    TurnsCount(Schedule(outcomes, primary, fallback), primary, fallback);
  }

  /** Which attempt's text is returned: the final one if there was one, which is the last; otherwise
      that of the primary's second failure, not the fallback's. */
  lemma DecidingAttempt(outcomes: Outcomes, primary: Backend, fallback: bool)
    ensures var calls := Schedule(outcomes, primary, fallback);
      if Final(Last(calls).attempt) then Deciding(outcomes, fallback) == Last(calls).attempt
      else
        && exists k :: 0 <= k < |calls| && calls[k] == Call(primary, Deciding(outcomes, fallback))
             && CallsTo(calls[..k + 1], primary) == 2
  {
    hide Taken, Lawful, CallsTo;
    ScheduleIsLawful(outcomes, primary, fallback);
    var calls := Schedule(outcomes, primary, fallback);
    if !Final(Last(calls).attempt) {
      var k := if fallback then 2 else 1;
      TurnsCount(calls[..k + 1], primary, fallback);
      assert calls[k] == Call(primary, Deciding(outcomes, fallback));
    }
  }

  /** A fallback decision is recorded exactly when the last call went to the other backend and its
      result is the one returned. */
  lemma FallbackRecordedIffUsed(outcomes: Outcomes, primary: Backend, fallback: bool)
    ensures var last := Last(Schedule(outcomes, primary, fallback));
      FallbackUsed(outcomes, fallback) <==> last.backend == Other(primary) && Final(last.attempt)
    ensures FallbackUsed(outcomes, fallback)
      ==> Deciding(outcomes, fallback) == Last(Schedule(outcomes, primary, fallback)).attempt
  {
    hide Taken, Final;
    var calls := Schedule(outcomes, primary, fallback);
    var n := Taken(outcomes, 0, Turns(fallback)) - 1;
    assert |calls| == n + 1 && Last(calls) == calls[n];
    assert calls[n] == Call(Turn(primary, fallback, n), outcomes(n));
    OtherTurn(primary, fallback, n);
  }

  lemma OtherTurn(primary: Backend, fallback: bool, n: nat)
    ensures Turn(primary, fallback, n) == Other(primary) <==> fallback && n % 2 == 1
  {
  }

  // ---- the text ----

  lemma OccursInPart(s: Text, t: Text, a: nat, b: nat, p: nat)
    requires a + p + |t| <= b <= |s|
    ensures OccursAt(s[a..b], t, p) <==> OccursAt(s, t, a + p)
  {
    var inner, outer := s[a..b][p..p + |t|], s[a + p..a + p + |t|];
    assert |inner| == |outer| && forall i | 0 <= i < |t| :: inner[i] == s[a + p + i] && outer[i] == s[a + p + i];
  }

  lemma CleanPart(s: Text, toks: seq<Text>, a: nat, b: nat, p: int)
    requires a <= b <= |s| && forall q :: !StopAt(s, toks, q)
    ensures !StopAt(s[a..b], toks, p)
  {
    forall t | t in toks && 0 <= p && p + |t| <= b - a ensures !OccursAt(s[a..b], t, p) {
      OccursInPart(s, t, a, b, p);
      assert !StopAt(s, toks, a + p);
    }
  }

  lemma TrimSpaceIsPart(s: Text) returns (a: nat, b: nat)
    ensures a <= b <= |s| && TrimSpace(s) == s[a..b]
  {
    hide TrimLeft, TrimRight, LeadingSpace, TrailingSpace;
    var l := TrimLeft(s);
    TrimLeftDropsFront(s);
    TrimRightDropsEnd(l);
    a := |s| - |l|;
    b := a + |TrimSpace(s)|;
    CutTwice(s, a, a, b);
    assert l[0..b - a] == l[..b - a];
  }

  /** An answer that counts as good is not empty, has no white space at its ends and no stop token. */
  lemma GoodAnswerIsClean(reply: Reply, name: Text, p: int)
    requires Attempted(reply, name).ok
    ensures var text := Attempted(reply, name).text;
      text != [] && Trimmed(text) && !StopAt(text, LLAMA_STOPS, p)
  {
    hide StripInOrder, TrimSpace, StopAt, Trimmed, LLAMA_STOPS;
    var stripped := StripInOrder(reply.content, LLAMA_STOPS);
    LlamaStopsSeparated();
    StripIsClean(reply.content, LLAMA_STOPS);
    TrimSpaceTrims(stripped);
    var a, b := TrimSpaceIsPart(stripped);
    CleanPart(stripped, LLAMA_STOPS, a, b, p);
  }

  /** A final outcome is a good answer or an error no retry can mend, never a transient failure. */
  lemma FinalOutcomes(reply: Reply, name: Text)
    ensures Final(Attempted(reply, name)) <==>
      reply.Response? && !(500 <= reply.status < 600) && (reply.status == 200 ==> TrimSpace(StripInOrder(reply.content, LLAMA_STOPS)) != [])
  {
    hide StripInOrder, TrimSpace;
  }

  lemma AnswerIsNeverEmpty(outcomes: Outcomes, fallback: bool, name: Text, port: nat)
    ensures Answer(outcomes, fallback, name, port) != []
  {
    hide Deciding, Decimal;
  }

  // ---- what an answer says ----

  /** The text of a completion is what its content says in front of the first stop token, without the white
      space around it; it is good unless that is nothing. */
  lemma GoodAnswerIsItsContent(content: Text, message: Text, name: Text) returns (q: nat, front: Text, back: Text)
    ensures IsEarliest(content, LLAMA_STOPS, q)
    ensures var a := Attempted(Response(200, content, message), name);
      && content[..q] == front + a.text + back && Trimmed(a.text)
      && TrimSpace(front) == [] && (a.ok <==> a.text != []) && (a.retryable <==> a.text == [])
  {
    hide LeadingSpace, TrailingSpace;
    LlamaStopsSeparated();
    q := StripIsEarliestCut(content, LLAMA_STOPS);
    var s := content[..q];
    var t := TrimLeft(s);
    var text := TrimRight(t);
    TrimLeftDropsFront(s);
    TrimRightDropsEnd(t);
    TrimSpaceTrims(s);
    front, back := s[..|s| - |t|], t[|text|..];
    assert s == front + t && t == text + back;
    Regroup(front, text, back);
    FrontIsBlank(s);
  }

  lemma TrimLeftOnce(s: Text)
    ensures TrimLeft(s) == if LeadingSpace(s) > 0 then TrimLeft(s[LeadingSpace(s)..]) else s
  {
    hide LeadingSpace;
  }

  lemma FrontIsBlank(s: Text)
    ensures TrimSpace(s[..|s| - |TrimLeft(s)|]) == []
  {
    hide TrimLeft;
    TrimmedOff(s);
    assert TrimRight([]) == [];
  }

  lemma {:induction false} TrimmedOff(s: Text)
    ensures TrimLeft(s[..|s| - |TrimLeft(s)|]) == []
  {
    hide LeadingSpace, TrimLeft;
    TrimLeftOnce(s);
    var n := LeadingSpace(s);
    var m := |s| - |TrimLeft(s)|;
    var front := s[..m];
    if n > 0 {
      var rest := s[n..];
      TrimmedOff(rest);
      assert rest[..|rest| - |TrimLeft(rest)|] == front[n..];
      LeadingLocal(s, m);
      TrimLeftOnce(front);
    } else {
      assert front == [];
      TrimLeftOnce(front);
      NoLeading();
    }
  }

  lemma NoLeading()
    ensures LeadingSpace([]) == 0
  {
  }

  lemma LeadingLocal(s: Text, m: nat)
    requires 0 < LeadingSpace(s) <= m <= |s|
    ensures LeadingSpace(s[..m]) == LeadingSpace(s)
  {
    assert forall i | 0 <= i < m :: s[..m][i] == s[i];
  }

  /** A refused call's text names the agent and ends in the server's message, when there is one; only a
      failure of the server is worth another try. */
  lemma RefusalTellsMessage(status: int, content: Text, message: Text, name: Text)
    requires status != 200
    ensures var a := Attempted(Response(status, content, message), name);
      && !a.ok && (a.retryable <==> 500 <= status <= 599)
      && (message == [] ==> a.text == [])
      && (message != [] ==> a.text == Ascii("[") + name + Ascii(" error] ") + message)
  {
  }
}
