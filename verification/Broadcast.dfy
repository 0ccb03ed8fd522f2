/** The parallel broadcast of the C++ coordinator: agent threads that batch their tokens
    (legacy/cpp/coordinator_routes_architect_stream_modes.cpp), a queue of frames, and one writer that
    hands them to the sink (legacy/cpp/coordinator_routes_architect_stream.cpp), as interleaved steps.
    Each step is what one thread does under one lock, or one read or write of a shared flag. */
module Broadcast {
  import opened Bytes

  datatype Frame =
    | Token(agent: Text, delta: Text)
    | Failure(agent: Text, what: Text)
    | AgentDone(agent: Text)
    | Plain(event: Text, data: Text)
    | StreamDone

  const TOKEN_BATCH_BYTES := 128

  /** What a token frame says when an agent ran out of time. */
  const NOTE: Text := Ascii("\n[") + [0xE2, 0x80, 0xA6] + Ascii(" stopped at cascade time budget]")

  // ---- one agent thread ----

  /** Where an agent thread is: receiving chunks, looking at the flags after one, handling an
      exception, then winding up. */
  datatype Phase =
    | Streaming
    | Checking
    | Failing(what: Text)
    | Reporting(what: Text)
    | Closing
    | Noting
    | Storing
    | Finishing
    | Done

  datatype Agent = Agent(phase: Phase, assembled: Text, batch: Text, timedOut: bool, stopped: bool)

  datatype Move =
    | Chunk(delta: Text)
    | Check(late: bool)
    | End
    | Throw(what: Text)
    | Advance

  /** A moved agent and the frames it wrote. */
  datatype Moved = Moved(agent: Agent, frames: seq<Frame>)

  /** `flush_batch`. */
  function Flushed(name: Text, batch: Text): seq<Frame> {
    if batch == [] then [] else [Token(name, batch)]
  }

  /** A chunk is added to the answer and to the batch; a batch that is long enough goes out. */
  function OnChunk(name: Text, ag: Agent, delta: Text): Moved {
    var batch := ag.batch + delta;
    var more := ag.(assembled := ag.assembled + delta, phase := Checking);
    if |batch| >= TOKEN_BATCH_BYTES then Moved(more.(batch := []), Flushed(name, batch))
    else Moved(more.(batch := batch), [])
  }

  /** The shared flag comes first; the deadline is looked at only when it is not set. */
  function OnCheck(ag: Agent, late: bool, cancel: bool): Agent {
    ag.(phase := Streaming, timedOut := ag.timedOut || (!cancel && late), stopped := ag.stopped || cancel || late)
  }

  /** What happens once the stream is over, one step at a time. */
  function OnAdvance(name: Text, ag: Agent): Moved {
    match ag.phase
    case Failing(what) => Moved(ag.(batch := [], phase := Reporting(what)), Flushed(name, ag.batch))
    case Reporting(what) => Moved(ag.(phase := Closing), [Failure(name, what)])
    case Closing => Moved(ag.(batch := [], phase := Noting), Flushed(name, ag.batch))
    case Noting => Moved(ag.(phase := Storing), if ag.timedOut then [Token(name, NOTE)] else [])
    case Storing => Moved(ag.(phase := Finishing), [])
    case Finishing => Moved(ag.(phase := Done), [AgentDone(name)])
    case _ => Moved(ag, [])
  }

  /** One move of an agent; a move that is not enabled changes nothing. */
  function MoveAgent(name: Text, ag: Agent, move: Move, cancel: bool): Moved {
    match move
    case Chunk(delta) => if ag.phase.Streaming? then OnChunk(name, ag, delta) else Moved(ag, [])
    case Check(late) => Moved(if ag.phase.Checking? then OnCheck(ag, late, cancel) else ag, [])
    case End => Moved(if ag.phase.Streaming? then ag.(phase := Closing) else ag, [])
    case Throw(what) => Moved(if ag.phase.Streaming? then ag.(phase := Failing(what)) else ag, [])
    case Advance => OnAdvance(name, ag)
  }

  // ---- the whole system ----

  datatype Writer = Waiting | Holding(frame: Frame) | Dropping | Ended

  datatype MainPhase = Preparing | Broadcasting | Summing | Closed | Finished

  /** `sent` is everything ever put into the queue; `dead` says that a frame was refused. */
  datatype State = State(
    main: MainPhase, agents: map<Text, Agent>, outputs: map<Text, Text>, cancel: bool,
    queue: seq<Frame>, sent: seq<Frame>,
    writer: Writer, delivered: seq<Frame>, ended: bool, dead: bool)

  datatype Step =
    | Emit(frame: Frame)
    | FanOut
    | Start(name: Text)
    | Turn(name: Text, move: Move)
    | Join
    | Close
    | Pop
    | Deliver(writable: bool)
    | Clear
    | Quit
    | Cancel
    | Finish(writable: bool)

  predicate ByWriter(step: Step) {
    step.Pop? || step.Deliver? || step.Clear? || step.Quit?
  }

  const INITIAL := State(Preparing, map[], map[], false, [], [], Waiting, [], false, false)

  predicate Mentions(f: Frame, name: Text) {
    match f
    case Token(agent, _) => agent == name
    case Failure(agent, _) => agent == name
    case AgentDone(agent) => agent == name
    case Plain(_, _) => false
    case StreamDone => false
  }

  /** Frames the main thread may write: those of other agents (a synthesizer) and events. */
  predicate Foreign(f: Frame, names: set<Text>) {
    f != StreamDone && forall name | name in names :: !Mentions(f, name)
  }

  /** `write_event`. */
  function Enqueued(s: State, frames: seq<Frame>): State {
    s.(queue := s.queue + frames, sent := s.sent + frames)
  }

  predicate AllDone(agents: map<Text, Agent>, names: set<Text>) {
    forall name | name in names :: name in agents && agents[name].phase.Done?
  }

  function Turned(s: State, name: Text, move: Move): State
    requires name in s.agents
  {
    var ag := s.agents[name];
    var moved := MoveAgent(name, ag, move, s.cancel);
    var outputs := if ag.phase.Storing? && move.Advance? then s.outputs[name := ag.assembled] else s.outputs;
    Enqueued(s, moved.frames).(agents := s.agents[name := moved.agent], outputs := outputs)
  }

  function Popped(s: State): State
    requires s.queue != []
  {
    s.(queue := s.queue[1..], writer := Holding(s.queue[0]))
  }

  /** The sink takes the frame, or the writer notices that it is gone. */
  function Delivered(s: State, writable: bool): State
    requires s.writer.Holding?
  {
    if writable then s.(delivered := s.delivered + [s.writer.frame], writer := Waiting)
    else s.(cancel := true, dead := true, writer := Dropping)
  }

  /** The writer's loop; it ends only on a closed and drained queue. */
  function WriterStep(s: State, step: Step): State {
    match step
    case Pop => if s.writer.Waiting? && s.queue != [] then Popped(s) else s
    case Deliver(writable) => if s.writer.Holding? then Delivered(s, writable) else s
    case Clear => if s.writer.Dropping? then s.(queue := [], writer := Waiting) else s
    case Quit => if s.writer.Waiting? && s.queue == [] && s.main.Closed? then s.(writer := Ended) else s
    case _ => s
  }

  /** The main thread: fan out, join the agents, close the queue, join the writer, end the stream. */
  function MainStep(names: set<Text>, s: State, step: Step): State {
    match step
    case FanOut => if s.main.Preparing? then s.(main := Broadcasting) else s
    case Join => if s.main.Broadcasting? && AllDone(s.agents, names) then s.(main := Summing) else s
    case Close => if s.main.Summing? then s.(main := Closed) else s
    case Finish(writable) =>
      if s.main.Closed? && s.writer.Ended? then s.(main := Finished, ended := writable) else s
    case _ => s
  }

  /** One step of the run with agents `names`; a step that is not enabled changes nothing. */
  function After(names: set<Text>, s: State, step: Step): State {
    match step
    case Emit(frame) =>
      if (s.main.Preparing? || s.main.Summing?) && Foreign(frame, names) then Enqueued(s, [frame]) else s
    case Start(name) =>
      if s.main.Broadcasting? && name in names && name !in s.agents
      then s.(agents := s.agents[name := Agent(Streaming, [], [], false, s.cancel)]) else s
    case Turn(name, move) => if name in s.agents then Turned(s, name, move) else s
    case Cancel => s.(cancel := true)
    case _ => if ByWriter(step) then WriterStep(s, step) else MainStep(names, s, step)
  }

  function RunFrom(names: set<Text>, s: State, steps: seq<Step>): State {
    if steps == [] then s else After(names, RunFrom(names, s, steps[..|steps| - 1]), steps[|steps| - 1])
  }

  function Run(names: set<Text>, steps: seq<Step>): State {
    RunFrom(names, INITIAL, steps)
  }

  /** What the sink received. */
  function Sink(s: State): seq<Frame> {
    s.delivered + if s.ended then [StreamDone] else []
  }

  /** The sink was writable whenever it was asked. */
  predicate AlwaysWritable(steps: seq<Step>) {
    forall step | step in steps :: (step.Deliver? ==> step.writable) && (step.Finish? ==> step.writable)
  }
}
