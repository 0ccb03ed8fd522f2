/** What each agent of a broadcast says, whatever the others do. */
module BroadcastAgents {
  import opened Wrappers
  import opened Bytes
  import opened Broadcast

  /** The frames of one agent, in order. */
  function About(frames: seq<Frame>, name: Text): seq<Frame> {
    if frames == [] then []
    else
      var last := frames[|frames| - 1];
      About(frames[..|frames| - 1], name) + if Mentions(last, name) then [last] else []
  }

  /** The deltas of one agent put together. */
  function Spoken(frames: seq<Frame>, name: Text): Text {
    if frames == [] then []
    else
      var last := frames[|frames| - 1];
      Spoken(frames[..|frames| - 1], name) + if last.Token? && last.agent == name then last.delta else []
  }

  lemma OneFrameMore(frames: seq<Frame>, f: Frame, name: Text)
    ensures About(frames + [f], name) == About(frames, name) + if Mentions(f, name) then [f] else []
    ensures Spoken(frames + [f], name) == Spoken(frames, name) + if f.Token? && f.agent == name then f.delta else []
  {
    assert (frames + [f])[..|frames|] == frames;
  }

  lemma FramesMore(frames: seq<Frame>, more: seq<Frame>, name: Text)
    requires |more| <= 1
    ensures About(frames + more, name)
      == About(frames, name) + if more != [] && Mentions(more[0], name) then more else []
    ensures Spoken(frames + more, name)
      == Spoken(frames, name) + if more != [] && more[0].Token? && more[0].agent == name then more[0].delta else []
  {
    if more == [] {
      assert frames + more == frames;
      assert About(frames, name) + [] == About(frames, name) && Spoken(frames, name) + [] == Spoken(frames, name);
    } else {
      assert more == [more[0]];
      OneFrameMore(frames, more[0], name);
    }
  }

  // ---- one agent ----

  predicate Winding(phase: Phase) {
    phase.Storing? || phase.Finishing? || phase.Done?
  }

  function Remark(ag: Agent): Text {
    if ag.timedOut then NOTE else []
  }

  ghost predicate SpokenFits(ag: Agent, said: Text) {
    && |ag.batch| < TOKEN_BATCH_BYTES
    && (Winding(ag.phase) ==> said == ag.assembled + Remark(ag))
    && (!Winding(ag.phase) ==> said + ag.batch == ag.assembled)
    && (ag.phase.Reporting? || ag.phase.Noting? ==> ag.batch == [])
  }

  ghost predicate DoneFits(name: Text, ag: Agent, mine: seq<Frame>) {
    if ag.phase.Done? then
      && mine != [] && mine[|mine| - 1] == AgentDone(name)
      && AgentDone(name) !in mine[..|mine| - 1]
    else AgentDone(name) !in mine
  }

  predicate Stored(phase: Phase) {
    phase.Finishing? || phase.Done?
  }

  ghost predicate OutputFits(ag: Agent, out: Option<Text>) {
    out == if Stored(ag.phase) then Some(ag.assembled) else None
  }

  ghost predicate AgentFits(name: Text, ag: Agent, sent: seq<Frame>, out: Option<Text>) {
    SpokenFits(ag, Spoken(sent, name)) && DoneFits(name, ag, About(sent, name)) && OutputFits(ag, out)
  }

  function OutputOf(s: State, name: Text): Option<Text> {
    if name in s.outputs then Some(s.outputs[name]) else None
  }

  lemma MovedFrames(name: Text, ag: Agent, move: Move, cancel: bool)
    ensures var frames := MoveAgent(name, ag, move, cancel).frames;
      |frames| <= 1 && forall f | f in frames :: Mentions(f, name) && f != StreamDone
  {
    hide NOTE;
  }

  /** What a move writes of the answer. */
  function Delta(frames: seq<Frame>): Text {
    if frames != [] && frames[0].Token? then frames[0].delta else []
  }

  lemma ChunkKeepsSpoken(name: Text, ag: Agent, delta: Text, said: Text)
    requires SpokenFits(ag, said) && ag.phase.Streaming?
    ensures var moved := OnChunk(name, ag, delta);
      SpokenFits(moved.agent, said + Delta(moved.frames))
  {
    Regroup(said, ag.batch, delta);
    var all := said + (ag.batch + delta);
    assert all + [] == all && said + [] == said;
  }

  lemma FlushKeepsSpoken(name: Text, ag: Agent, said: Text)
    requires SpokenFits(ag, said) && (ag.phase.Failing? || ag.phase.Closing?)
    ensures var moved := OnAdvance(name, ag); SpokenFits(moved.agent, said + Delta(moved.frames))
  {
    assert said + [] == said && said + ag.batch + [] == said + ag.batch;
  }

  lemma AdvanceKeepsSpoken(name: Text, ag: Agent, said: Text)
    requires SpokenFits(ag, said)
    ensures var moved := OnAdvance(name, ag); SpokenFits(moved.agent, said + Delta(moved.frames))
  {
    hide NOTE;
    if ag.phase.Failing? || ag.phase.Closing? {
      FlushKeepsSpoken(name, ag, said);
    } else {
      hide Flushed;
      assert said + [] == said;
    }
  }

  lemma MoveKeepsSpoken(name: Text, ag: Agent, move: Move, cancel: bool, said: Text)
    requires SpokenFits(ag, said)
    ensures var moved := MoveAgent(name, ag, move, cancel); SpokenFits(moved.agent, said + Delta(moved.frames))
  {
    hide OnAdvance, OnChunk;
    assert said + [] == said;
    match move
    case Chunk(delta) =>
      if ag.phase.Streaming? {
        ChunkKeepsSpoken(name, ag, delta, said);
      }
    case Advance => AdvanceKeepsSpoken(name, ag, said);
    case _ =>
  }

  lemma AdvanceKeepsDone(name: Text, ag: Agent, mine: seq<Frame>)
    requires DoneFits(name, ag, mine)
    ensures var moved := OnAdvance(name, ag); DoneFits(name, moved.agent, mine + moved.frames)
  {
    hide NOTE;
    var moved := OnAdvance(name, ag);
    assert mine + [] == mine;
    if moved.frames != [] {
      assert (mine + moved.frames)[..|mine|] == mine;
    }
  }

  lemma MoveKeepsDone(name: Text, ag: Agent, move: Move, cancel: bool, mine: seq<Frame>)
    requires DoneFits(name, ag, mine)
    ensures var moved := MoveAgent(name, ag, move, cancel); DoneFits(name, moved.agent, mine + moved.frames)
  {
    hide OnAdvance;
    assert mine + [] == mine;
    if move.Chunk? && ag.phase.Streaming? {
      var moved := OnChunk(name, ag, move.delta);
      assert AgentDone(name) !in mine + moved.frames;
    } else if move.Advance? {
      AdvanceKeepsDone(name, ag, mine);
    }
  }

  lemma MoveKeepsAgent(name: Text, ag: Agent, move: Move, cancel: bool, sent: seq<Frame>, out: Option<Text>)
    requires AgentFits(name, ag, sent, out)
    ensures var moved := MoveAgent(name, ag, move, cancel);
      AgentFits(name, moved.agent, sent + moved.frames,
                if ag.phase.Storing? && move.Advance? then Some(ag.assembled) else out)
  {
    hide SpokenFits, DoneFits, About, Spoken, NOTE;
    var moved := MoveAgent(name, ag, move, cancel);
    MovedFrames(name, ag, move, cancel);
    FramesMore(sent, moved.frames, name);
    assert About(sent, name) + [] == About(sent, name);
    MoveKeepsSpoken(name, ag, move, cancel, Spoken(sent, name));
    MoveKeepsDone(name, ag, move, cancel, About(sent, name));
  }

  // ---- all agents ----

  ghost predicate NameFits(names: set<Text>, s: State, name: Text) {
    if name in s.agents then name in names && AgentFits(name, s.agents[name], s.sent, OutputOf(s, name))
    else name in names ==> About(s.sent, name) == [] && Spoken(s.sent, name) == [] && name !in s.outputs
  }

  ghost predicate Orderly(names: set<Text>, s: State) {
    && (forall name :: NameFits(names, s, name))
    && (s.main.Preparing? ==> s.agents == map[])
    && (s.main.Summing? || s.main.Closed? || s.main.Finished? ==> AllDone(s.agents, names))
  }

  lemma NameFitsIs(names: set<Text>, s: State, name: Text)
    ensures NameFits(names, s, name) <==>
      if name in s.agents then name in names && AgentFits(name, s.agents[name], s.sent, OutputOf(s, name))
      else name in names ==> About(s.sent, name) == [] && Spoken(s.sent, name) == [] && OutputOf(s, name) == None
  {
    hide AgentFits, About, Spoken;
  }

  lemma TurnedIs(s: State, who: Text, move: Move)
    requires who in s.agents
    ensures var ag := s.agents[who];
      var moved := MoveAgent(who, ag, move, s.cancel);
      var t := Turned(s, who, move);
      && t.agents == s.agents[who := moved.agent]
      && t.sent == s.sent + moved.frames
      && OutputOf(t, who) == (if ag.phase.Storing? && move.Advance? then Some(ag.assembled) else OutputOf(s, who))
      && forall name | name != who :: OutputOf(t, name) == OutputOf(s, name)
  {
    hide MoveAgent;
  }

  lemma TurnKeepsName(names: set<Text>, s: State, who: Text, move: Move, name: Text)
    requires who in s.agents && NameFits(names, s, who) && NameFits(names, s, name)
    ensures NameFits(names, Turned(s, who, move), name)
  {
    hide Turned, NameFits, AgentFits, MoveAgent, About, Spoken, OutputOf;
    TurnedIs(s, who, move);
    NameFitsIs(names, s, name);
    NameFitsIs(names, s, who);
    NameFitsIs(names, Turned(s, who, move), name);
    var moved := MoveAgent(who, s.agents[who], move, s.cancel);
    if name == who {
      MoveKeepsAgent(who, s.agents[who], move, s.cancel, s.sent, OutputOf(s, who));
    } else {
      MovedFrames(who, s.agents[who], move, s.cancel);
      SilentKeepsAgent(s.sent, moved.frames, name);
      AgentFitsAlike(name, s.sent, s.sent + moved.frames);
    }
  }

  /** Frames of somebody else. */
  lemma SilentKeepsAgent(sent: seq<Frame>, frames: seq<Frame>, name: Text)
    requires |frames| <= 1 && forall f | f in frames :: !Mentions(f, name)
    ensures About(sent + frames, name) == About(sent, name) && Spoken(sent + frames, name) == Spoken(sent, name)
  {
    FramesMore(sent, frames, name);
    assert About(sent, name) + [] == About(sent, name) && Spoken(sent, name) + [] == Spoken(sent, name);
  }

  lemma AgentFitsAlike(name: Text, sent: seq<Frame>, more: seq<Frame>)
    requires About(sent, name) == About(more, name) && Spoken(sent, name) == Spoken(more, name)
    ensures forall ag, out :: AgentFits(name, ag, sent, out) <==> AgentFits(name, ag, more, out)
  {
    hide SpokenFits, DoneFits;
  }

  lemma EmitKeepsName(names: set<Text>, s: State, f: Frame, name: Text)
    requires NameFits(names, s, name) && Foreign(f, names)
    ensures NameFits(names, Enqueued(s, [f]), name)
  {
    hide AgentFits, About, Spoken;
    if name in names {
      SilentKeepsAgent(s.sent, [f], name);
      AgentFitsAlike(name, s.sent, s.sent + [f]);
    }
  }

  lemma DoneStays(name: Text, ag: Agent, move: Move, cancel: bool)
    requires ag.phase.Done?
    ensures MoveAgent(name, ag, move, cancel) == Moved(ag, [])
  {
  }

  lemma StartFits(name: Text, sent: seq<Frame>, cancel: bool)
    requires About(sent, name) == [] && Spoken(sent, name) == []
    ensures AgentFits(name, Agent(Streaming, [], [], false, cancel), sent, None)
  {
  }

  /** Steps of the writer and of the main thread that neither write a frame nor touch an agent. */
  lemma OthersLeaveAgents(names: set<Text>, s: State, step: Step)
    requires !step.Turn? && !step.Emit? && !step.Start?
    ensures var t := After(names, s, step);
      t.agents == s.agents && t.sent == s.sent && t.outputs == s.outputs
  {
    hide Turned, Enqueued, Foreign, WriterStep, MainStep;
    WriterLeavesAgents(s, step);
    MainLeavesAgents(names, s, step);
  }

  lemma WriterLeavesAgents(s: State, step: Step)
    ensures var t := WriterStep(s, step);
      t.agents == s.agents && t.sent == s.sent && t.outputs == s.outputs
  {
  }

  lemma MainLeavesAgents(names: set<Text>, s: State, step: Step)
    ensures var t := MainStep(names, s, step);
      t.agents == s.agents && t.sent == s.sent && t.outputs == s.outputs
  {
    hide AllDone;
  }

  lemma StepKeepsName(names: set<Text>, s: State, step: Step, name: Text)
    requires Orderly(names, s)
    ensures NameFits(names, After(names, s, step), name)
  {
    hide AgentFits, MoveAgent, About, Spoken, AllDone, Foreign, WriterStep, MainStep, Turned, Enqueued;
    assert NameFits(names, s, name);
    match step
    case Turn(who, move) =>
      if who in s.agents {
        assert NameFits(names, s, who);
        TurnKeepsName(names, s, who, move, name);
      }
    case Emit(f) =>
      if Foreign(f, names) {
        EmitKeepsName(names, s, f, name);
      }
    case Start(who) =>
      if who == name && name in names && name !in s.agents {
        StartFits(name, s.sent, s.cancel);
      }
    case _ => OthersLeaveAgents(names, s, step);
  }

  lemma TurnKeepsDone(names: set<Text>, s: State, who: Text, move: Move)
    requires who in s.agents && who in names && AllDone(s.agents, names)
    ensures Turned(s, who, move) == s
  {
    DoneStays(who, s.agents[who], move, s.cancel);
    assert s.agents[who := s.agents[who]] == s.agents;
    assert s.queue + [] == s.queue && s.sent + [] == s.sent;
  }

  lemma StepKeepsOrder(names: set<Text>, s: State, step: Step)
    requires Orderly(names, s)
    ensures Orderly(names, After(names, s, step))
  {
    forall name ensures NameFits(names, After(names, s, step), name) {
      StepKeepsName(names, s, step, name);
    }
    hide NameFits, Foreign, AllDone;
    if step.Turn? && step.name in s.agents && AllDone(s.agents, names) {
      AgentsAreNamed(names, s, step.name);
      TurnKeepsDone(names, s, step.name, step.move);
    }
  }

  lemma AgentsAreNamed(names: set<Text>, s: State, name: Text)
    requires Orderly(names, s) && name in s.agents
    ensures name in names
  {
    assert NameFits(names, s, name);
  }

  lemma {:induction false} RunIsOrderly(names: set<Text>, steps: seq<Step>)
    ensures Orderly(names, Run(names, steps))
  {
    hide Orderly, After;
    if steps == [] {
      InitialIsOrderly(names);
    } else {
      RunIsOrderly(names, steps[..|steps| - 1]);
      StepKeepsOrder(names, Run(names, steps[..|steps| - 1]), steps[|steps| - 1]);
    }
  }

  lemma InitialIsOrderly(names: set<Text>)
    ensures Orderly(names, INITIAL)
  {
  }

  /** The chunks an agent's stream has delivered so far, put together. */
  function Received(names: set<Text>, steps: seq<Step>, name: Text): Text {
    if steps == [] then []
    else
      var init, last := steps[..|steps| - 1], steps[|steps| - 1];
      Received(names, init, name) + Arriving(Run(names, init), last, name)
  }

  function Arriving(s: State, step: Step, name: Text): Text {
    if step.Turn? && step.name == name && step.move.Chunk? && name in s.agents && s.agents[name].phase.Streaming?
    then step.move.delta else []
  }

  function Assembled(s: State, name: Text): Text {
    if name in s.agents then s.agents[name].assembled else []
  }

  lemma MoveAssembles(name: Text, ag: Agent, move: Move, cancel: bool)
    ensures MoveAgent(name, ag, move, cancel).agent.assembled
      == ag.assembled + if move.Chunk? && ag.phase.Streaming? then move.delta else []
  {
    hide NOTE;
    assert ag.assembled + [] == ag.assembled;
  }

  lemma StepAssembles(names: set<Text>, s: State, step: Step, name: Text)
    ensures Assembled(After(names, s, step), name) == Assembled(s, name) + Arriving(s, step, name)
  {
    hide AllDone, Foreign, MoveAgent, WriterStep, MainStep;
    assert Assembled(s, name) + [] == Assembled(s, name);
    if step.Turn? {
      if step.name in s.agents {
        MoveAssembles(step.name, s.agents[step.name], step.move, s.cancel);
      }
    } else if !step.Emit? && !step.Start? {
      OthersLeaveAgents(names, s, step);
    }
  }

  lemma {:induction false} AssembledIsReceived(names: set<Text>, steps: seq<Step>, name: Text)
    ensures Assembled(Run(names, steps), name) == Received(names, steps, name)
  {
    hide After, Assembled, Arriving;
    if steps == [] {
      NothingAssembled(name);
    } else {
      AssembledIsReceived(names, steps[..|steps| - 1], name);
      StepAssembles(names, Run(names, steps[..|steps| - 1]), steps[|steps| - 1], name);
    }
  }

  lemma NothingAssembled(name: Text)
    ensures Assembled(INITIAL, name) == []
  {
  }

  /** At every moment of every run: once an agent's output is stored, it is everything the agent's
      stream delivered, and the deltas it wrote are exactly that output, followed by the note if it ran
      out of time. */
  lemma StoredIsSpoken(names: set<Text>, steps: seq<Step>, name: Text)
    ensures var s := Run(names, steps);
      name in names && name in s.outputs ==>
        && name in s.agents && s.outputs[name] == Received(names, steps, name)
        && Spoken(s.sent, name) == s.outputs[name] + Remark(s.agents[name])
  {
    hide Run, Spoken, About, DoneFits, Received;
    RunIsOrderly(names, steps);
    AssembledIsReceived(names, steps, name);
    assert NameFits(names, Run(names, steps), name);
  }

  /** While it is still streaming, what is missing from the frames is its current batch, which is
      shorter than the limit. */
  lemma StreamingKeepsBatch(names: set<Text>, steps: seq<Step>, name: Text)
    ensures var s := Run(names, steps);
      name in s.agents && s.agents[name].phase.Streaming? ==>
        && s.agents[name].assembled == Spoken(s.sent, name) + s.agents[name].batch
        && |s.agents[name].batch| < TOKEN_BATCH_BYTES
        && name !in s.outputs && AgentDone(name) !in About(s.sent, name)
  {
    hide Run, Spoken, About;
    RunIsOrderly(names, steps);
    assert NameFits(names, Run(names, steps), name);
  }

  /** Behind the join barrier every agent has stored its output and written its last frame. */
  lemma AfterTheBarrier(names: set<Text>, steps: seq<Step>, name: Text)
    requires name in names
    requires var s := Run(names, steps); s.main.Summing? || s.main.Closed? || s.main.Finished?
    ensures var s := Run(names, steps);
      && name in s.agents && name in s.outputs
      && s.outputs[name] == Received(names, steps, name)
      && Spoken(s.sent, name) == s.outputs[name] + Remark(s.agents[name])
      && DoneFits(name, s.agents[name], About(s.sent, name)) && s.agents[name].phase.Done?
  {
    hide Run, Spoken, About, DoneFits, Received;
    RunIsOrderly(names, steps);
    AssembledIsReceived(names, steps, name);
    assert NameFits(names, Run(names, steps), name);
  }
}
