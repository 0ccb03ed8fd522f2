/** When an agent of a broadcast runs out of time or is stopped, and what it then writes
    (legacy/cpp/coordinator_routes_architect_stream_modes.cpp): for a thread on its own and over every
    interleaving. */
module BroadcastDeadlines {
  import opened Wrappers
  import opened Bytes
  import opened Broadcast
  import opened BroadcastAgents
  import opened BroadcastThreads
  import BroadcastProjection

  // ---- one thread ----

  /** Some chunk came after the deadline while the shared flag was down. */
  ghost predicate CameLate(arrivals: seq<Arrival>) {
    exists i | 0 <= i < |arrivals| :: arrivals[i].late && !arrivals[i].cancel
  }

  ghost predicate ToldToStop(cancelled: bool, arrivals: seq<Arrival>) {
    cancelled || exists i | 0 <= i < |arrivals| :: arrivals[i].cancel || arrivals[i].late
  }

  lemma OneArrival(name: Text, ag: Agent, a: Arrival)
    requires ag.phase.Streaming?
    ensures var n := Arrived(name, ag, a).agent;
      && (n.timedOut <==> ag.timedOut || (a.late && !a.cancel))
      && (n.stopped <==> ag.stopped || a.cancel || a.late)
  {
  }

  lemma LateMore(init: seq<Arrival>, a: Arrival, cancelled: bool)
    ensures CameLate(init + [a]) <==> CameLate(init) || (a.late && !a.cancel)
    ensures ToldToStop(cancelled, init + [a]) <==> ToldToStop(cancelled, init) || a.cancel || a.late
  {
    var all := init + [a];
    assert all[|init|] == a && forall i | 0 <= i < |init| :: all[i] == init[i];
  }

  lemma {:induction false} StreamedFlags(name: Text, cancelled: bool, arrivals: seq<Arrival>)
    ensures var m := Streamed(name, Agent(Streaming, [], [], false, cancelled), arrivals).agent;
      && m.phase.Streaming?
      && (m.timedOut <==> CameLate(arrivals)) && (m.stopped <==> ToldToStop(cancelled, arrivals))
  {
    hide CameLate, ToldToStop, Arrived;
    var begun := Agent(Streaming, [], [], false, cancelled);
    StreamedIs(name, begun, arrivals);
    if arrivals == [] {
      NoArrivals(cancelled);
    } else {
      var init, last := arrivals[..|arrivals| - 1], arrivals[|arrivals| - 1];
      StreamedFlags(name, cancelled, init);
      OneArrival(name, Streamed(name, begun, init).agent, last);
      assert arrivals == init + [last];
      LateMore(init, last, cancelled);
    }
  }

  lemma NoArrivals(cancelled: bool)
    ensures !CameLate([]) && (ToldToStop(cancelled, []) <==> cancelled)
  {
  }

  ghost predicate OnlyTokens(frames: seq<Frame>, name: Text) {
    forall f | f in frames :: f.Token? && f.agent == name
  }

  /** A whole thread ran out of time exactly when some chunk came late while its shared flag was down, and
      was told to stop exactly when it began cancelled or some chunk was cancelled or late. What it wrote
      is the tokens that say what its stream delivered, the error if there was one, the note exactly in the
      first case, and its closing frame. */
  lemma ThreadTimesOutIff(name: Text, cancelled: bool, arrivals: seq<Arrival>, error: Option<Text>)
      returns (tokens: seq<Frame>)
    ensures var t := Thread(name, cancelled, arrivals, error);
      && (t.agent.timedOut <==> exists i | 0 <= i < |arrivals| :: arrivals[i].late && !arrivals[i].cancel)
      && (t.agent.stopped <==> cancelled || exists i | 0 <= i < |arrivals| :: arrivals[i].cancel || arrivals[i].late)
      && t.frames == tokens + (if error.Some? then [Failure(name, error.value)] else [])
           + (if exists i | 0 <= i < |arrivals| :: arrivals[i].late && !arrivals[i].cancel then [Token(name, NOTE)] else [])
           + [AgentDone(name)]
      && OnlyTokens(tokens, name) && Spoken(tokens, name) == Deltas(arrivals)
  {
    hide NOTE, Streamed, WoundUp, Deltas, Spoken, About, Tail;
    var begun := Agent(Streaming, [], [], false, cancelled);
    StreamedFlags(name, cancelled, arrivals);
    StreamedIs(name, begun, arrivals);
    var m := Streamed(name, begun, arrivals);
    var over := m.agent.(phase := match error case None => Closing case Some(what) => Failing(what));
    WindingUp(name, over);
    tokens := m.frames + Flushed(name, over.batch);
    FlushedSays(m.frames, name, over.batch);
    TailIs(m.frames, name, over, error);
  }

  lemma FlushedSays(frames: seq<Frame>, name: Text, batch: Text)
    requires FullTokens(frames, name)
    ensures Spoken(frames + Flushed(name, batch), name) == Spoken(frames, name) + batch
    ensures OnlyTokens(frames + Flushed(name, batch), name)
  {
    hide Spoken, About;
    FramesMore(frames, Flushed(name, batch), name);
    assert Spoken(frames, name) + [] == Spoken(frames, name);
    var all := frames + Flushed(name, batch);
    forall f | f in all ensures f.Token? && f.agent == name {
      assert f in frames || f in Flushed(name, batch);
    }
  }

  lemma TailIs(frames: seq<Frame>, name: Text, ag: Agent, error: Option<Text>)
    ensures frames + Tail(name, ag, error)
      == frames + Flushed(name, ag.batch) + (if error.Some? then [Failure(name, error.value)] else [])
         + (if ag.timedOut then [Token(name, NOTE)] else []) + [AgentDone(name)]
  {
    hide NOTE, Flushed;
    var a, b, c := Flushed(name, ag.batch), Failed(name, error), Noted(name, ag.timedOut);
    Regroup(frames, a + b + c, [AgentDone(name)]);
    Regroup(frames, a + b, c);
    Regroup(frames, a, b);
  }

  // ---- every interleaving ----

  /** In step `i` the agent looks at the flags. */
  ghost predicate Looks(names: set<Text>, steps: seq<Step>, name: Text, i: nat)
    requires i < |steps|
  {
    var s := Run(names, steps[..i]);
    steps[i].Turn? && steps[i].name == name && steps[i].move.Check? && name in s.agents && s.agents[name].phase.Checking?
  }

  /** In one of the steps the agent finds the deadline passed and the shared flag down. */
  ghost predicate FoundLate(names: set<Text>, steps: seq<Step>, name: Text) {
    exists i: nat | i < |steps| :: Looks(names, steps, name, i) && steps[i].move.late && !Run(names, steps[..i]).cancel
  }

  /** In step `i` the agent starts. */
  ghost predicate Starts(names: set<Text>, steps: seq<Step>, name: Text, i: nat)
    requires i < |steps|
  {
    name !in Run(names, steps[..i]).agents && name in Run(names, steps[..i + 1]).agents
  }

  /** The agent started when the shared flag was up, or found it up or the deadline passed. */
  ghost predicate FoundStop(names: set<Text>, steps: seq<Step>, name: Text) {
    exists i: nat | i < |steps| ::
      || (Starts(names, steps, name, i) && Run(names, steps[..i]).cancel)
      || (Looks(names, steps, name, i) && (steps[i].move.late || Run(names, steps[..i]).cancel))
  }

  lemma MoveFlags(name: Text, ag: Agent, move: Move, cancel: bool)
    ensures var n := MoveAgent(name, ag, move, cancel).agent;
      var looks := move.Check? && ag.phase.Checking?;
      && (n.timedOut <==> ag.timedOut || (looks && move.late && !cancel))
      && (n.stopped <==> ag.stopped || (looks && (move.late || cancel)))
  {
    hide NOTE;
  }

  /** A step changes the flags of one agent only when that agent looks. */
  lemma StepFlags(names: set<Text>, s: State, step: Step, name: Text)
    requires Orderly(names, s) && name in s.agents
    ensures var t := After(names, s, step);
      var looks := step.Turn? && step.name == name && step.move.Check? && s.agents[name].phase.Checking?;
      && name in t.agents
      && (t.agents[name].timedOut <==> s.agents[name].timedOut || (looks && step.move.late && !s.cancel))
      && (t.agents[name].stopped <==> s.agents[name].stopped || (looks && (step.move.late || s.cancel)))
  {
    hide MoveAgent, After, Orderly;
    BroadcastProjection.StepForOne(names, s, step, name);
    if step.Turn? {
      MoveFlags(name, s.agents[name], step.move, s.cancel);
    }
  }

  lemma FoundMore(names: set<Text>, steps: seq<Step>, name: Text)
    requires steps != []
    ensures var n := |steps| - 1;
      var init, s := steps[..n], Run(names, steps[..n]);
      && (FoundLate(names, steps, name) <==>
            FoundLate(names, init, name) || (Looks(names, steps, name, n) && steps[n].move.late && !s.cancel))
      && (FoundStop(names, steps, name) <==>
            || FoundStop(names, init, name)
            || (Starts(names, steps, name, n) && s.cancel)
            || (Looks(names, steps, name, n) && (steps[n].move.late || s.cancel)))
  {
    hide Run;
    var n := |steps| - 1;
    forall i: nat | i < n
      ensures Looks(names, steps[..n], name, i) == Looks(names, steps, name, i)
      ensures Starts(names, steps[..n], name, i) == Starts(names, steps, name, i)
      ensures steps[..n][..i] == steps[..i]
    {
      assert steps[..n][..i] == steps[..i] && steps[..n][..i + 1] == steps[..i + 1];
    }
  }

  lemma StartFlags(names: set<Text>, s: State, step: Step, name: Text)
    requires Orderly(names, s) && name !in s.agents && name in After(names, s, step).agents
    ensures var ag := After(names, s, step).agents[name]; !ag.timedOut && ag.stopped == s.cancel
    ensures step.Start?
  {
    BroadcastProjection.Startled(names, s, step, name);
    hide MoveAgent, AllDone, Foreign, AgentFits, Orderly;
  }

  lemma {:induction false} NotThereYet(names: set<Text>, steps: seq<Step>, name: Text)
    requires name !in Run(names, steps).agents
    ensures !FoundLate(names, steps, name) && !FoundStop(names, steps, name)
  {
    if steps != [] {
      var n := |steps| - 1;
      hide Run, After, FoundLate, FoundStop, Orderly;
      BroadcastProjection.RunUnfolds(names, steps);
      RunIsOrderly(names, steps[..n]);
      if name in Run(names, steps[..n]).agents {
        StepFlags(names, Run(names, steps[..n]), steps[n], name);
        assert false;
      } else {
        NotThereYet(names, steps[..n], name);
        FoundMore(names, steps, name);
        assert steps[..n + 1] == steps;
      }
    }
  }

  /** Over every interleaving: an agent ran out of time exactly when in some step it looked at the flags,
      the shared one was down and the deadline had passed; and it was told to stop exactly when it started
      under a raised flag, or some time found the flag up or the deadline passed. */
  lemma {:induction false} TimedOutIff(names: set<Text>, steps: seq<Step>, name: Text)
    requires name in Run(names, steps).agents
    ensures var ag := Run(names, steps).agents[name];
      (ag.timedOut <==> FoundLate(names, steps, name)) && (ag.stopped <==> FoundStop(names, steps, name))
  {
    hide Run, After, FoundLate, FoundStop, Orderly;
    BroadcastProjection.RunUnfolds(names, steps);
    if steps == [] {
      BroadcastProjection.NoAgents();
      assert false;
    } else {
      var n := |steps| - 1;
      var s := Run(names, steps[..n]);
      RunIsOrderly(names, steps[..n]);
      FoundMore(names, steps, name);
      assert steps[..n + 1] == steps;
      if name in s.agents {
        TimedOutIff(names, steps[..n], name);
        StepFlags(names, s, steps[n], name);
      } else {
        NotThereYet(names, steps[..n], name);
        StartFlags(names, s, steps[n], name);
      }
    }
  }

  /** Of a finished agent: the note follows its output exactly when it found itself out of time. */
  lemma NoteIffLate(names: set<Text>, steps: seq<Step>, name: Text)
    requires var s := Run(names, steps); name in names && name in s.outputs
    ensures var s := Run(names, steps);
      Spoken(s.sent, name) == s.outputs[name] + if FoundLate(names, steps, name) then NOTE else []
    ensures NOTE != []
  {
    hide Run, Spoken, Received, FoundLate, FoundStop;
    StoredIsSpoken(names, steps, name);
    TimedOutIff(names, steps, name);
  }

  // ---- the shared flag ----

  /** The shared flag is up exactly when somebody cancelled or the sink refused a frame. */
  lemma {:induction false} CancelIff(names: set<Text>, steps: seq<Step>)
    ensures Run(names, steps).cancel <==>
      exists i: nat | i < |steps| ::
        steps[i].Cancel? || (steps[i] == Deliver(false) && Run(names, steps[..i]).writer.Holding?)
  {
    if steps != [] {
      var n := |steps| - 1;
      hide Run;
      BroadcastProjection.RunUnfolds(names, steps);
      CancelIff(names, steps[..n]);
      StepCancels(names, Run(names, steps[..n]), steps[n]);
      assert forall i: nat | i < n :: steps[..n][..i] == steps[..i] && steps[..n][i] == steps[i];
    }
  }

  lemma StepCancels(names: set<Text>, s: State, step: Step)
    ensures After(names, s, step).cancel <==> s.cancel || step.Cancel? || (step == Deliver(false) && s.writer.Holding?)
  {
    hide MoveAgent, AllDone, Foreign;
  }
}
