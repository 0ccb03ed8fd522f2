/** Every agent of an interleaved broadcast runs the thread program: what the others do does not show in
    its frames and its output (legacy/cpp/coordinator_routes_architect_stream_modes.cpp). */
module BroadcastProjection {
  import opened Wrappers
  import opened Bytes
  import opened Broadcast
  import opened BroadcastAgents
  import opened BroadcastThreads

  /** How far a thread has come: between chunks, behind a chunk it has not looked at the flags for, or
      behind the end of its stream. */
  datatype Course =
    | Live(cancelled: bool, arrivals: seq<Arrival>)
    | Mid(cancelled: bool, arrivals: seq<Arrival>, delta: Text)
    | Over(cancelled: bool, arrivals: seq<Arrival>, error: Option<Text>)

  function Begun(cancelled: bool): Agent {
    Agent(Streaming, [], [], false, cancelled)
  }

  /** The agent and the frames it has written so far are those of the program. */
  ghost predicate Follows(name: Text, ag: Agent, mine: seq<Frame>, c: Course) {
    match c
    case Live(cancelled, arrivals) => ag.phase.Streaming? && Moved(ag, mine) == Streamed(name, Begun(cancelled), arrivals)
    case Mid(cancelled, arrivals, delta) =>
      && ag.phase.Checking?
      && var m := Streamed(name, Begun(cancelled), arrivals);
         m.agent.phase.Streaming? && Moved(ag, mine) == Then(m, OnChunk(name, m.agent, delta))
    case Over(cancelled, arrivals, error) =>
      && !ag.phase.Streaming? && !ag.phase.Checking?
      && Then(Moved(ag, mine), WoundUp(name, ag)) == Thread(name, cancelled, arrivals, error)
  }

  // ---- one move ----

  lemma StartFollows(name: Text, cancelled: bool)
    ensures Follows(name, Begun(cancelled), [], Live(cancelled, []))
  {
  }

  lemma ChunkFollows(name: Text, ag: Agent, mine: seq<Frame>, c: Course, delta: Text)
    requires c.Live? && Follows(name, ag, mine, c)
    ensures var moved := OnChunk(name, ag, delta);
      Follows(name, moved.agent, mine + moved.frames, Mid(c.cancelled, c.arrivals, delta))
  {
    hide Streamed;
  }

  lemma CheckFollows(name: Text, ag: Agent, mine: seq<Frame>, c: Course, late: bool, cancel: bool)
    requires c.Mid? && Follows(name, ag, mine, c)
    ensures Follows(name, OnCheck(ag, late, cancel), mine,
                    Live(c.cancelled, c.arrivals + [Arrival(c.delta, cancel, late)]))
  {
    hide Streamed, OnChunk;
    var a := Arrival(c.delta, cancel, late);
    OneMoreArrival(name, Begun(c.cancelled), c.arrivals, a);
    var m := Streamed(name, Begun(c.cancelled), c.arrivals);
    ChunkIsChecking(name, m.agent, c.delta);
    assert OnChunk(name, m.agent, c.delta).frames + [] == OnChunk(name, m.agent, c.delta).frames;
  }

  lemma ChunkIsChecking(name: Text, ag: Agent, delta: Text)
    ensures OnChunk(name, ag, delta).agent.phase.Checking?
  {
  }

  lemma OneMoreArrival(name: Text, ag: Agent, arrivals: seq<Arrival>, a: Arrival)
    ensures var m := Streamed(name, ag, arrivals);
      Streamed(name, ag, arrivals + [a]) == Then(m, Arrived(name, m.agent, a))
  {
    hide Arrived;
    assert (arrivals + [a])[..|arrivals|] == arrivals;
  }

  lemma OverFollows(name: Text, ag: Agent, mine: seq<Frame>, c: Course, error: Option<Text>)
    requires c.Live? && Follows(name, ag, mine, c)
    ensures Follows(name, ag.(phase := match error case None => Closing case Some(what) => Failing(what)), mine,
                    Over(c.cancelled, c.arrivals, error))
  {
    hide Streamed, WoundUp;
  }

  lemma AdvanceFollows(name: Text, ag: Agent, mine: seq<Frame>, c: Course)
    requires c.Over? && Follows(name, ag, mine, c)
    ensures var moved := OnAdvance(name, ag); Follows(name, moved.agent, mine + moved.frames, c)
  {
    hide Thread, WoundUp, NOTE;
    var moved := OnAdvance(name, ag);
    if ag.phase.Done? {
      assert mine + [] == mine;
    } else {
      Advanced(name, ag);
      Regroup(mine, moved.frames, WoundUp(name, moved.agent).frames);
    }
  }

  lemma MoveFollows(name: Text, ag: Agent, move: Move, cancel: bool, mine: seq<Frame>, c: Course) returns (d: Course)
    requires Follows(name, ag, mine, c)
    ensures var moved := MoveAgent(name, ag, move, cancel); Follows(name, moved.agent, mine + moved.frames, d)
  {
    PhaseTells(name, ag, mine, c);
    hide Follows, OnChunk, OnCheck, OnAdvance;
    assert mine + [] == mine;
    d := c;
    match move
    case Chunk(delta) =>
      if ag.phase.Streaming? {
        ChunkFollows(name, ag, mine, c, delta);
        d := Mid(c.cancelled, c.arrivals, delta);
      }
    case Check(late) =>
      if ag.phase.Checking? {
        CheckFollows(name, ag, mine, c, late, cancel);
        d := Live(c.cancelled, c.arrivals + [Arrival(c.delta, cancel, late)]);
      }
    case End =>
      if ag.phase.Streaming? {
        OverFollows(name, ag, mine, c, None);
        d := Over(c.cancelled, c.arrivals, None);
      }
    case Throw(what) =>
      if ag.phase.Streaming? {
        OverFollows(name, ag, mine, c, Some(what));
        d := Over(c.cancelled, c.arrivals, Some(what));
      }
    case Advance =>
      if c.Over? {
        AdvanceFollows(name, ag, mine, c);
      } else {
        StreamingStays(name, ag);
      }
  }

  lemma PhaseTells(name: Text, ag: Agent, mine: seq<Frame>, c: Course)
    requires Follows(name, ag, mine, c)
    ensures (c.Live? <==> ag.phase.Streaming?) && (c.Mid? <==> ag.phase.Checking?)
  {
    hide Streamed, Thread, WoundUp;
  }

  lemma StreamingStays(name: Text, ag: Agent)
    requires ag.phase.Streaming? || ag.phase.Checking?
    ensures OnAdvance(name, ag) == Moved(ag, [])
  {
  }

  // ---- every run ----

  /** What a step does to one agent that is there before and after it. */
  lemma StepForOne(names: set<Text>, s: State, step: Step, name: Text)
    requires Orderly(names, s) && name in s.agents
    ensures var t := After(names, s, step);
      && name in t.agents
      && if step.Turn? && step.name == name then
           var moved := MoveAgent(name, s.agents[name], step.move, s.cancel);
           t.agents[name] == moved.agent && About(t.sent, name) == About(s.sent, name) + moved.frames
         else t.agents[name] == s.agents[name] && About(t.sent, name) == About(s.sent, name)
  {
    hide MoveAgent, About, Spoken, AllDone, Orderly, WriterStep, MainStep, Turned, Enqueued;
    AgentsAreNamed(names, s, name);
    match step
    case Turn(who, move) =>
      if who in s.agents {
        TurnForOne(s, who, move, name);
      }
    case Emit(f) =>
      if Foreign(f, names) {
        EmitForOne(s, f, name);
      }
    case Start(_) =>
    case _ => OthersLeaveAgents(names, s, step);
  }

  lemma EmitForOne(s: State, f: Frame, name: Text)
    requires !Mentions(f, name)
    ensures var t := Enqueued(s, [f]); t.agents == s.agents && About(t.sent, name) == About(s.sent, name)
  {
    SilentKeepsAgent(s.sent, [f], name);
  }

  lemma TurnForOne(s: State, who: Text, move: Move, name: Text)
    requires who in s.agents && name in s.agents
    ensures var t := Turned(s, who, move);
      && name in t.agents
      && if who == name then
           var moved := MoveAgent(name, s.agents[name], move, s.cancel);
           t.agents[name] == moved.agent && About(t.sent, name) == About(s.sent, name) + moved.frames
         else t.agents[name] == s.agents[name] && About(t.sent, name) == About(s.sent, name)
  {
    hide MoveAgent, About, Spoken, Turned;
    TurnedIs(s, who, move);
    var moved := MoveAgent(who, s.agents[who], move, s.cancel);
    MovedFrames(who, s.agents[who], move, s.cancel);
    if who == name {
      FramesMore(s.sent, moved.frames, name);
      assert About(s.sent, name) + [] == About(s.sent, name);
    } else {
      SilentKeepsAgent(s.sent, moved.frames, name);
    }
  }

  lemma Startled(names: set<Text>, s: State, step: Step, name: Text)
    requires Orderly(names, s) && name !in s.agents && name in After(names, s, step).agents
    ensures var t := After(names, s, step);
      t.agents[name] == Begun(s.cancel) && About(t.sent, name) == []
  {
    hide MoveAgent, About, Spoken, AllDone, Foreign, AgentFits;
    assert NameFits(names, s, name);
  }

  /** At every moment of every interleaving each agent is somewhere in its program. */
  lemma {:induction false} AgentFollows(names: set<Text>, steps: seq<Step>, name: Text) returns (c: Course)
    requires name in Run(names, steps).agents
    ensures var s := Run(names, steps); Follows(name, s.agents[name], About(s.sent, name), c)
  {
    hide *;
    RunUnfolds(names, steps);
    if steps == [] {
      NoAgents();
      assert false;
    } else {
      var init, step := steps[..|steps| - 1], steps[|steps| - 1];
      var s := Run(names, init);
      RunIsOrderly(names, init);
      if name in s.agents {
        c := AgentFollows(names, init, name);
        StepForOne(names, s, step, name);
        if step.Turn? && step.name == name {
          c := MoveFollows(name, s.agents[name], step.move, s.cancel, About(s.sent, name), c);
        }
      } else {
        Startled(names, s, step, name);
        c := Live(s.cancel, []);
        StartFollows(name, s.cancel);
      }
    }
  }

  lemma RunUnfolds(names: set<Text>, steps: seq<Step>)
    ensures Run(names, steps) == if steps == [] then INITIAL else After(names, Run(names, steps[..|steps| - 1]), steps[|steps| - 1])
  {
    hide After;
  }

  lemma NoAgents()
    ensures INITIAL.agents == map[]
  {
  }

  /** An agent that is done has run the program from start to end on the chunks its stream delivered:
      the frames it wrote, in order, and the output it stored are the program's. */
  lemma AgentRunsItsThread(names: set<Text>, steps: seq<Step>, name: Text)
    returns (cancelled: bool, arrivals: seq<Arrival>, error: Option<Text>)
    requires var s := Run(names, steps); name in s.agents && s.agents[name].phase.Done?
    ensures var s, t := Run(names, steps), Thread(name, cancelled, arrivals, error);
      && s.agents[name] == t.agent && About(s.sent, name) == t.frames
      && name in s.outputs && s.outputs[name] == t.agent.assembled
    ensures Received(names, steps, name) == Deltas(arrivals)
  {
    hide Run, About, Spoken, Thread, Received;
    var s := Run(names, steps);
    var c := AgentFollows(names, steps, name);
    PhaseTells(name, s.agents[name], About(s.sent, name), c);
    cancelled, arrivals, error := c.cancelled, c.arrivals, c.error;
    DoneIsDone(name, s.agents[name]);
    assert About(s.sent, name) + [] == About(s.sent, name);
    RunIsOrderly(names, steps);
    assert NameFits(names, s, name);
    ThreadSaysItsOutput(name, cancelled, arrivals, error);
    AssembledIsReceived(names, steps, name);
  }
}
