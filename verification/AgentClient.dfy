/** Calling an agent (internal/agent/client.go): one retry after a transient failure, and a fallback
    to the other backend after each of them. */
module AgentClient {
  import opened Bytes
  import opened StopTokens

  datatype Backend = LlamaMetal | PythonMlx

  /** What an inference server gives back: `content` and `message` are the completion and the error
      message found in the body, empty when there is none. */
  datatype Reply =
    | Unsent
    | Unreachable(problem: Text)
    | Response(status: int, content: Text, message: Text)

  datatype Attempt = Attempt(text: Text, ok: bool, retryable: bool)

  datatype Call = Call(backend: Backend, attempt: Attempt)

  datatype Decision = Decision(backend: Backend, reason: Text, usedFallback: bool)

  const RETRY_ATTEMPTS := 2
  const LOAD_FAILURE: Text := Ascii("load_failure_fallback")

  function Other(b: Backend): Backend {
    match b case LlamaMetal => PythonMlx case PythonMlx => LlamaMetal
  }

  /** How `completeOnce` classifies a reply. */
  function Attempted(reply: Reply, name: Text): Attempt {
    match reply
    case Unsent => Attempt([], false, true)
    case Unreachable(problem) =>
      Attempt(Ascii("Connection Error (") + name + Ascii("): ") + problem, false, true)
    case Response(status, content, message) =>
      if status == 200 then
        var text := TrimSpace(StripInOrder(content, LLAMA_STOPS));
        Attempt(text, text != [], text == [])
      else
        Attempt(if message == [] then [] else Ascii("[") + name + Ascii(" error] ") + message, false, 500 <= status < 600)
  }

  /** Nothing is tried after such an attempt. */
  predicate Final(a: Attempt) {
    a.ok || !a.retryable
  }

  // ---- specification: the schedule ----

  /** The backends take turns when there is a fallback; otherwise every turn is the primary's. */
  function Turn(primary: Backend, fallback: bool, k: nat): Backend {
    if fallback && k % 2 == 1 then Other(primary) else primary
  }

  function Turns(fallback: bool): nat {
    if fallback then 2 * RETRY_ATTEMPTS else RETRY_ATTEMPTS
  }

  /** The outcomes of the calls to come, as far as they are made. */
  type Outcomes = nat -> Attempt

  /** How many turns are taken when the first `k` were not final: up to the first final one. */
  function Taken(outcomes: Outcomes, k: nat, turns: nat): (n: nat)
    requires k < turns
    ensures k < n <= turns
    ensures forall j | k <= j < n - 1 :: !Final(outcomes(j))
    ensures n == turns || Final(outcomes(n - 1))
    decreases turns - k
  {
    if k + 1 == turns || Final(outcomes(k)) then k + 1 else Taken(outcomes, k + 1, turns)
  }

  function Schedule(outcomes: Outcomes, primary: Backend, fallback: bool): seq<Call> {
    seq(Taken(outcomes, 0, Turns(fallback)), k requires 0 <= k => Call(Turn(primary, fallback, k), outcomes(k)))
  }

  /** The attempt whose text counts: the last one when it is final, else the last primary one. */
  function Deciding(outcomes: Outcomes, fallback: bool): Attempt {
    var last := Taken(outcomes, 0, Turns(fallback)) - 1;
    if Final(outcomes(last)) || !fallback then outcomes(last) else outcomes(Turns(fallback) - 2)
  }

  function NotResponding(name: Text, port: nat): Text {
    Ascii("Agent ") + name + Ascii(" (Port ") + Decimal(port) + Ascii(") is not responding.")
  }

  function Answer(outcomes: Outcomes, fallback: bool, name: Text, port: nat): Text {
    var text := Deciding(outcomes, fallback).text;
    if text == [] then NotResponding(name, port) else text
  }

  /** The fallback's result was used: the last call went to the other backend and was final. */
  predicate FallbackUsed(outcomes: Outcomes, fallback: bool) {
    var last := Taken(outcomes, 0, Turns(fallback)) - 1;
    fallback && last % 2 == 1 && Final(outcomes(last))
  }

  // ---- the client ----

  ghost function OutcomesFrom(replies: nat -> Reply, from: nat, name: Text): Outcomes {
    (k: nat) => Attempted(replies(from + k), name)
  }

  lemma OutcomesShift(replies: nat -> Reply, from: nat, at: nat, name: Text)
    ensures var ahead, later := OutcomesFrom(replies, from, name), OutcomesFrom(replies, from + at, name);
      later(0) == ahead(at) && later(1) == ahead(at + 1)
  {
  }

  /** What the router says about the agent: whether it may alter dispatch, where the agent goes, and
      whether the other backend could serve it. */
  datatype Routing = Routing(shouldRoute: bool, decision: Decision, otherSupported: bool)

  predicate Fallback(routing: Routing) {
    routing.shouldRoute && routing.otherSupported
  }

  function FallbackDecision(routing: Routing): Decision {
    Decision(Other(routing.decision.backend), LOAD_FAILURE, true)
  }

  class Client {
    var calls: seq<Call>
    var decisions: seq<Decision>
    const replies: nat -> Reply

    constructor (replies: nat -> Reply)
      ensures calls == [] && decisions == [] && this.replies == replies
    {
      calls, decisions := [], [];
      this.replies := replies;
    }

    /** The outcomes of the calls from now on. */
    ghost function Ahead(name: Text): Outcomes
      reads this
    {
      OutcomesFrom(replies, |calls|, name)
    }

    /** `completeOnce`. */
    method CompleteOnce(backend: Backend, name: Text) returns (a: Attempt)
      modifies this`calls
      ensures a == Attempted(replies(|old(calls)|), name)
      ensures calls == old(calls) + [Call(backend, a)]
    {
      match replies(|calls|) {
        case Unsent => a := Attempt([], false, true);
        case Unreachable(problem) =>
          a := Attempt(Ascii("Connection Error (") + name + Ascii("): ") + problem, false, true);
        case Response(status, content, message) =>
          if status == 200 {
            var stripped := StripTemplateLeakage(content);
            var text := TrimSpace(stripped);
            a := Attempt(text, text != [], text == []);
          } else {
            a := Attempt([], false, 500 <= status < 600);
            if message != [] {
              a := a.(text := Ascii("[") + name + Ascii(" error] ") + message);
            }
          }
      }
      calls := calls + [Call(backend, a)];
    }

    /** `tryFallback`: a decision is recorded exactly when the result is one to use. */
    method TryFallback(primary: Backend, supported: bool, name: Text) returns (fb: Attempt, used: bool)
      modifies this
      ensures !supported ==> !used && calls == old(calls) && decisions == old(decisions)
      ensures supported ==>
        var result := Attempted(replies(|old(calls)|), name);
        && fb == (if used then result else Attempt([], false, false))
        && calls == old(calls) + [Call(Other(primary), result)]
        && used == Final(result)
        && decisions == old(decisions) + if used then [Decision(Other(primary), LOAD_FAILURE, true)] else []
    {
      var alt := LlamaMetal;
      if primary == LlamaMetal {
        alt := PythonMlx;
      }
      if !supported {
        return Attempt([], false, false), false;
      }
      fb := CompleteOnce(alt, name);
      assert decisions + [] == decisions;
      if fb.ok || !fb.retryable {
        decisions := decisions + [Decision(alt, LOAD_FAILURE, true)];
        return fb, true;
      }
      return Attempt([], false, false), false;
    }

    /** One round of the retry loop: the primary and, when that fails for now, the fallback. */
    method Round(name: Text, routing: Routing) returns (attempt: Attempt)
      modifies this
      ensures var primary := routing.decision.backend;
        var p, f := old(Ahead(name))(0), old(Ahead(name))(1);
        if Final(p) || !Fallback(routing) then
          attempt == p && calls == old(calls) + [Call(primary, p)] && decisions == old(decisions)
        else
          && attempt == (if Final(f) then f else p)
          && calls == old(calls) + [Call(primary, p), Call(Other(primary), f)]
          && decisions == old(decisions) + if Final(f) then [FallbackDecision(routing)] else []
    {
      hide Attempted;
      var primary := routing.decision.backend;
      attempt := CompleteOnce(primary, name);
      assert decisions + [] == decisions;
      if !attempt.ok && attempt.retryable && routing.shouldRoute {
        var fb, used := TryFallback(primary, routing.otherSupported, name);
        if used {
          attempt := fb;
        }
      }
    }

    /** `CallWithSystem`. */
    method CallWithSystem(name: Text, port: nat, routing: Routing) returns (text: Text)
      modifies this
      ensures var ahead := old(Ahead(name));
        && calls == old(calls) + Schedule(ahead, routing.decision.backend, Fallback(routing))
        && text == Answer(ahead, Fallback(routing), name, port)
        && decisions == old(decisions) + (if routing.shouldRoute then [routing.decision] else [])
            + (if FallbackUsed(ahead, Fallback(routing)) then [FallbackDecision(routing)] else [])
    {
      hide Attempted, NotResponding, OutcomesFrom, Taken, FallbackDecision, Schedule, Made, Deciding, FallbackUsed;
      ghost var primary, fallback := routing.decision.backend, Fallback(routing);
      ghost var ahead := Ahead(name);
      ghost var per := if fallback then 2 else 1;
      if routing.shouldRoute {
        decisions := decisions + [routing.decision];
      }
      ghost var before := decisions;
      NoneMade(ahead, primary, fallback, calls);
      var attempt := Attempt([], false, false);
      var i := 0;
      while i < RETRY_ATTEMPTS
        invariant 0 <= i <= RETRY_ATTEMPTS
        invariant |calls| == |old(calls)| + per * i && calls == old(calls) + Made(ahead, primary, fallback, per * i)
        invariant forall k: nat | k < per * i :: !Final(ahead(k))
        invariant i > 0 ==> attempt == ahead(per * (i - 1))
        invariant decisions == before
      {
        ghost var at := per * i;
        OutcomesShift(replies, |old(calls)|, at, name);
        attempt := Round(name, routing);
        TwoMore(ahead, primary, fallback, at, old(calls));
        assert before + [] == before;
        if attempt.ok || !attempt.retryable {
          EndsHere(ahead, primary, fallback, if Final(ahead(at)) then at + 1 else at + 2);
          break;
        }
        i := i + 1;
      }
      if i == RETRY_ATTEMPTS {
        EndsHere(ahead, primary, fallback, Turns(fallback));
        assert before + [] == before;
      }
      if |attempt.text| == 0 {
        return NotResponding(name, port);
      }
      return attempt.text;
    }
  }

  /** The first `n` turns of the schedule. */
  ghost function Made(outcomes: Outcomes, primary: Backend, fallback: bool, n: nat): seq<Call> {
    seq(n, k requires 0 <= k => Call(Turn(primary, fallback, k), outcomes(k)))
  }

  lemma NoneMade(outcomes: Outcomes, primary: Backend, fallback: bool, before: seq<Call>)
    ensures before + Made(outcomes, primary, fallback, 0) == before
  {
  }

  lemma TwoMore(outcomes: Outcomes, primary: Backend, fallback: bool, n: nat, before: seq<Call>)
    requires fallback ==> n % 2 == 0
    ensures before + Made(outcomes, primary, fallback, n) + [Call(primary, outcomes(n))]
      == before + Made(outcomes, primary, fallback, n + 1)
    ensures fallback ==>
      before + Made(outcomes, primary, fallback, n) + [Call(primary, outcomes(n)), Call(Other(primary), outcomes(n + 1))]
      == before + Made(outcomes, primary, fallback, n + 2)
  {
  }

  lemma {:induction false} TakenFrom(outcomes: Outcomes, k: nat, n: nat, turns: nat)
    requires k < n <= turns
    requires forall j | k <= j < n - 1 :: !Final(outcomes(j))
    requires n == turns || Final(outcomes(n - 1))
    ensures Taken(outcomes, k, turns) == n
    decreases n - k
  {
    if k + 1 < n {
      TakenFrom(outcomes, k + 1, n, turns);
    }
  }

  /** What the call comes to when `n` turns are taken. */
  lemma EndsHere(outcomes: Outcomes, primary: Backend, fallback: bool, n: nat)
    requires 0 < n <= Turns(fallback)
    requires forall j: nat | j < n - 1 :: !Final(outcomes(j))
    requires n == Turns(fallback) || Final(outcomes(n - 1))
    ensures Schedule(outcomes, primary, fallback) == Made(outcomes, primary, fallback, n)
    ensures Deciding(outcomes, fallback)
      == if Final(outcomes(n - 1)) || !fallback then outcomes(n - 1) else outcomes(Turns(fallback) - 2)
    ensures FallbackUsed(outcomes, fallback) <==> fallback && n % 2 == 0 && Final(outcomes(n - 1))
  {
    TakenFrom(outcomes, 0, n, Turns(fallback));
  }
}
