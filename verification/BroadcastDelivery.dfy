/** What reaches the sink of a broadcast, and that the writer ends. */
module BroadcastDelivery {
  import opened Bytes
  import opened Sequences
  import opened Broadcast
  import opened BroadcastAgents

  function InHand(w: Writer): seq<Frame> {
    match w case Holding(f) => [f] case _ => []
  }

  /** Frames that are with the sink, in the writer's hand or still queued. */
  function Standing(s: State): seq<Frame> {
    s.delivered + InHand(s.writer) + s.queue
  }

  ghost predicate QueueFits(s: State) {
    && Subsequence(Standing(s), s.sent)
    && (!s.dead ==> Standing(s) == s.sent && !s.writer.Dropping?)
    && (s.dead ==> s.cancel)
    && StreamDone !in s.sent
  }

  ghost predicate EndFits(s: State) {
    && (s.writer.Ended? ==> s.queue == [] && (s.main.Closed? || s.main.Finished?))
    && (s.main.Finished? ==> s.writer.Ended?)
    && (s.ended ==> s.main.Finished?)
  }

  // ---- the queue ----

  lemma EnqueueKeepsQueue(s: State, frames: seq<Frame>)
    requires QueueFits(s) && |frames| <= 1 && StreamDone !in frames
    ensures QueueFits(Enqueued(s, frames))
  {
    hide Subsequence;
    var t := Enqueued(s, frames);
    Regroup(s.delivered + InHand(s.writer), s.queue, frames);
    if frames == [] {
      assert Standing(s) + [] == Standing(s) && s.sent + [] == s.sent;
    } else {
      assert frames == [frames[0]];
      SubsequenceGrows(Standing(s), s.sent, frames[0]);
    }
  }

  lemma PopKeepsQueue(s: State)
    requires QueueFits(s) && s.writer.Waiting? && s.queue != []
    ensures QueueFits(Popped(s))
  {
    hide Subsequence;
    assert s.queue == [s.queue[0]] + s.queue[1..];
    assert Standing(Popped(s)) == Standing(s);
  }

  lemma DeliverKeepsQueue(s: State, writable: bool)
    requires QueueFits(s) && s.writer.Holding?
    ensures QueueFits(Delivered(s, writable))
  {
    hide Subsequence;
    var t := Delivered(s, writable);
    if writable {
      assert Standing(t) == Standing(s);
    } else {
      HandDropped(s.delivered, s.writer.frame, s.queue, s.sent);
      assert Standing(t) == s.delivered + s.queue;
    }
  }

  /** The frame in the writer's hand is lost with the sink; the order of the others stays. */
  lemma {:induction false} HandDropped(a: seq<Frame>, f: Frame, b: seq<Frame>, all: seq<Frame>)
    requires Subsequence(a + [f] + b, all)
    ensures Subsequence(a + b, all)
    decreases |all|
  {
    var whole := a + [f] + b;
    if b == [] {
      assert whole == a + [f] && a + b == a;
      SubsequenceFront(a, [f], all);
    } else {
      var rest := all[..|all| - 1];
      assert whole[..|whole| - 1] == a + [f] + b[..|b| - 1];
      assert (a + b)[..|a + b| - 1] == a + b[..|b| - 1];
      if whole[|whole| - 1] == all[|all| - 1] && Subsequence(whole[..|whole| - 1], rest) {
        HandDropped(a, f, b[..|b| - 1], rest);
      } else {
        HandDropped(a, f, b, rest);
      }
    }
  }

  lemma ClearKeepsQueue(s: State)
    requires QueueFits(s) && s.writer.Dropping?
    ensures QueueFits(s.(queue := [], writer := Waiting))
  {
    hide Subsequence;
    var t := s.(queue := [], writer := Waiting);
    assert Standing(s) == s.delivered + s.queue && Standing(t) == s.delivered;
    SubsequenceFront(s.delivered, s.queue, s.sent);
  }

  lemma SameQueue(s: State, t: State)
    requires QueueFits(s) && s.dead == t.dead && s.sent == t.sent && Standing(s) == Standing(t)
    requires !t.writer.Dropping? || s.writer.Dropping?
    requires s.cancel ==> t.cancel
    ensures QueueFits(t)
  {
  }

  lemma TurnKeepsQueue(s: State, name: Text, move: Move)
    requires QueueFits(s) && name in s.agents
    ensures QueueFits(Turned(s, name, move))
  {
    hide QueueFits, MoveAgent, Mentions;
    var moved := MoveAgent(name, s.agents[name], move, s.cancel);
    MovedFrames(name, s.agents[name], move, s.cancel);
    EnqueueKeepsQueue(s, moved.frames);
    SameQueue(Enqueued(s, moved.frames), Turned(s, name, move));
  }

  lemma WriterKeepsQueue(s: State, step: Step)
    requires QueueFits(s) && ByWriter(step)
    ensures QueueFits(WriterStep(s, step))
  {
    hide QueueFits, Popped, Delivered;
    match step
    case Pop =>
      if s.writer.Waiting? && s.queue != [] {
        PopKeepsQueue(s);
      }
    case Deliver(writable) =>
      if s.writer.Holding? {
        DeliverKeepsQueue(s, writable);
      }
    case Clear =>
      if s.writer.Dropping? {
        ClearKeepsQueue(s);
      }
    case Quit => SameQueue(s, WriterStep(s, step));
  }

  lemma MainKeepsQueue(names: set<Text>, s: State, step: Step)
    requires QueueFits(s)
    ensures QueueFits(MainStep(names, s, step))
  {
    hide QueueFits, AllDone;
    SameQueue(s, MainStep(names, s, step));
  }

  lemma StepKeepsQueue(names: set<Text>, s: State, step: Step)
    requires QueueFits(s)
    ensures QueueFits(After(names, s, step))
  {
    hide QueueFits, Turned, Mentions, Enqueued, WriterStep, MainStep;
    var t := After(names, s, step);
    match step
    case Emit(f) =>
      if t != s {
        EnqueueKeepsQueue(s, [f]);
      }
    case Start(_) => SameQueue(s, t);
    case Cancel => SameQueue(s, t);
    case Turn(name, move) =>
      if name in s.agents {
        TurnKeepsQueue(s, name, move);
      }
    case _ =>
      if ByWriter(step) {
        WriterKeepsQueue(s, step);
      } else {
        MainKeepsQueue(names, s, step);
      }
  }

  // ---- the end ----

  lemma StepKeepsEnd(names: set<Text>, s: State, step: Step)
    requires Orderly(names, s) && EndFits(s)
    ensures EndFits(After(names, s, step))
  {
    hide MoveAgent, NameFits, AllDone;
    if step.Turn? && step.name in s.agents && (s.main.Closed? || s.main.Finished?) {
      AgentsAreNamed(names, s, step.name);
      TurnKeepsDone(names, s, step.name, step.move);
    }
  }

  lemma {:induction false} RunKeepsQueue(names: set<Text>, steps: seq<Step>)
    ensures QueueFits(Run(names, steps)) && EndFits(Run(names, steps))
  {
    hide QueueFits, EndFits, After;
    if steps == [] {
      InitialQueueFits();
    } else {
      var init := steps[..|steps| - 1];
      RunKeepsQueue(names, init);
      RunIsOrderly(names, init);
      StepKeepsQueue(names, Run(names, init), steps[|steps| - 1]);
      StepKeepsEnd(names, Run(names, init), steps[|steps| - 1]);
    }
  }

  lemma InitialQueueFits()
    ensures QueueFits(INITIAL) && EndFits(INITIAL)
  {
  }

  lemma StepKeepsAlive(names: set<Text>, s: State, step: Step)
    requires step.Deliver? || step.Finish? ==> step.writable
    ensures After(names, s, step).dead == s.dead
    ensures (s.main.Finished? ==> s.ended) ==> (After(names, s, step).main.Finished? ==> After(names, s, step).ended)
  {
    hide MoveAgent, AllDone, Foreign;
  }

  lemma {:induction false} AliveWhileWritable(names: set<Text>, steps: seq<Step>)
    requires AlwaysWritable(steps)
    ensures !Run(names, steps).dead && (Run(names, steps).main.Finished? ==> Run(names, steps).ended)
  {
    hide After;
    if steps != [] {
      assert steps[|steps| - 1] in steps;
      AliveWhileWritable(names, steps[..|steps| - 1]);
      StepKeepsAlive(names, Run(names, steps[..|steps| - 1]), steps[|steps| - 1]);
    }
  }

  // ---- what the sink gets ----

  /** As long as the sink is writable nothing is lost or reordered: at every moment of every run, what
      the sink has, the writer holds and the queue still contains is what was enqueued, in order. */
  lemma NothingIsLost(names: set<Text>, steps: seq<Step>)
    requires AlwaysWritable(steps)
    ensures var s := Run(names, steps); s.delivered + InHand(s.writer) + s.queue == s.sent
  {
    hide Run, Subsequence;
    RunKeepsQueue(names, steps);
    AliveWhileWritable(names, steps);
  }

  /** Whatever the sink does, at every moment of every run, it got an ordered part of what was
      enqueued; the end marker comes last, once, and only when the writer has ended. */
  lemma DeliveredInOrder(names: set<Text>, steps: seq<Step>)
    ensures var s := Run(names, steps);
      && Subsequence(s.delivered, s.sent)
      && StreamDone !in s.delivered
      && (s.ended ==> s.main.Finished? && s.writer.Ended? && s.queue == [])
  {
    hide Run, Subsequence;
    RunKeepsQueue(names, steps);
    var s := Run(names, steps);
    Regroup(s.delivered, InHand(s.writer), s.queue);
    SubsequenceFront(s.delivered, InHand(s.writer) + s.queue, s.sent);
    SubsequenceElements(s.delivered, s.sent);
  }

  /** Putting the end marker behind the frames adds nothing to what an agent said. */
  lemma EndSaysNothing(frames: seq<Frame>, name: Text)
    ensures Spoken(frames + [StreamDone], name) == Spoken(frames, name)
    ensures About(frames + [StreamDone], name) == About(frames, name)
  {
    OneFrameMore(frames, StreamDone, name);
    assert About(frames, name) + [] == About(frames, name) && Spoken(frames, name) + [] == Spoken(frames, name);
  }

  /** A finished run on a sink that stayed writable: the sink has every frame in the order it was
      enqueued and then the end marker; and of each agent it has exactly the stored output, which is all
      its stream delivered, the note behind it if it ran out of time, and its closing frame once, as its
      last. */
  lemma BroadcastDelivers(names: set<Text>, steps: seq<Step>, name: Text)
    requires AlwaysWritable(steps) && Run(names, steps).main.Finished? && name in names
    ensures var s := Run(names, steps);
      && Sink(s) == s.sent + [StreamDone] && StreamDone !in s.sent
      && name in s.agents && name in s.outputs && s.outputs[name] == Received(names, steps, name)
      && Spoken(Sink(s), name) == s.outputs[name] + (if s.agents[name].timedOut then NOTE else [])
    ensures var mine := About(Sink(Run(names, steps)), name);
      mine != [] && mine[|mine| - 1] == AgentDone(name) && AgentDone(name) !in mine[..|mine| - 1]
  {
    hide Run, Spoken, About, Received, Subsequence, NOTE;
    var s := Run(names, steps);
    RunKeepsQueue(names, steps);
    AliveWhileWritable(names, steps);
    AfterTheBarrier(names, steps, name);
    assert s.delivered + [] + [] == s.delivered;
    assert Sink(s) == s.sent + [StreamDone];
    EndSaysNothing(s.sent, name);
  }

  // ---- the writer ends ----

  /** The steps the writer has left when nothing more is enqueued, at most. */
  function Left(s: State): nat {
    3 * |s.queue| + match s.writer case Waiting => 1 case Holding(_) => 3 case Dropping => 2 case Ended => 0
  }

  function Count(names: set<Text>, s: State, step: Step): nat {
    if ByWriter(step) && After(names, s, step).writer != s.writer then 1 else 0
  }

  /** The steps of `steps` in which the writer gets something done. */
  function Writes(names: set<Text>, s: State, steps: seq<Step>): nat {
    if steps == [] then 0
    else
      var init := steps[..|steps| - 1];
      Writes(names, s, init) + Count(names, RunFrom(names, s, init), steps[|steps| - 1])
  }

  ghost predicate Over(s: State) {
    s.main.Closed? || s.main.Finished?
  }

  lemma WriterAfterClose(s: State, step: Step)
    requires Over(s) && ByWriter(step)
    ensures var t := WriterStep(s, step);
      Over(t) && (if t.writer != s.writer then 1 else 0) + Left(t) <= Left(s)
  {
  }

  lemma OthersAfterClose(names: set<Text>, s: State, step: Step)
    requires Orderly(names, s) && Over(s) && !ByWriter(step)
    ensures var t := After(names, s, step); Over(t) && t.queue == s.queue && t.writer == s.writer
  {
    hide MoveAgent, NameFits, AllDone, Foreign, WriterStep, Turned;
    if step.Turn? && step.name in s.agents {
      AgentsAreNamed(names, s, step.name);
      TurnKeepsDone(names, s, step.name, step.move);
    }
  }

  lemma StepAfterClose(names: set<Text>, s: State, step: Step)
    requires Orderly(names, s) && Over(s)
    ensures var t := After(names, s, step); Over(t) && Count(names, s, step) + Left(t) <= Left(s)
  {
    hide Orderly, Over, WriterStep, MainStep, Turned, Enqueued;
    if ByWriter(step) {
      WriterAfterClose(s, step);
    } else {
      OthersAfterClose(names, s, step);
    }
  }

  lemma {:induction false} RunAfterClose(names: set<Text>, s: State, steps: seq<Step>)
    requires Orderly(names, s) && Over(s)
    ensures var t := RunFrom(names, s, steps);
      Orderly(names, t) && Over(t) && Writes(names, s, steps) + Left(t) <= Left(s)
  {
    hide Orderly, After, Count, Left, Over;
    if steps != [] {
      var init := steps[..|steps| - 1];
      RunAfterClose(names, s, init);
      StepAfterClose(names, RunFrom(names, s, init), steps[|steps| - 1]);
      StepKeepsOrder(names, RunFrom(names, s, init), steps[|steps| - 1]);
    }
  }

  /** A writer step is enabled, whatever the sink answers. */
  ghost predicate CanWrite(names: set<Text>, s: State, writable: bool) {
    exists step | step in [Pop, Deliver(writable), Clear, Quit] :: Count(names, s, step) == 1
  }

  /** Until it has ended the writer always has a step to take, whether the sink is writable or not. */
  lemma WriterIsReady(names: set<Text>, s: State, writable: bool)
    requires s.main.Closed?
    ensures s.writer.Ended? || CanWrite(names, s, writable)
  {
    hide Turned, MainStep, Enqueued, Foreign;
    var step := match s.writer
      case Waiting => if s.queue == [] then Quit else Pop
      case Holding(_) => Deliver(writable)
      case Dropping => Clear
      case Ended => Quit;
    assert step in [Pop, Deliver(writable), Clear, Quit];
    assert s.writer.Ended? || WriterStep(s, step).writer != s.writer;
  }

  /** After the queue is closed, in every run that follows, the writer gets at most a bounded number
      of steps done, and it is not stuck before it has ended: `sink_writer.join()` returns. */
  lemma WriterEndsAfterClose(names: set<Text>, steps: seq<Step>, more: seq<Step>, writable: bool)
    requires Run(names, steps).main.Closed?
    ensures var s := Run(names, steps);
      var t := RunFrom(names, s, more);
      && Writes(names, s, more) + Left(t) <= Left(s)
      && (t.main.Closed? && !t.writer.Ended? ==> CanWrite(names, t, writable))
  {
    hide Run, RunFrom, Count, Left, Orderly, CanWrite;
    RunIsOrderly(names, steps);
    var s := Run(names, steps);
    RunAfterClose(names, s, more);
    if RunFrom(names, s, more).main.Closed? {
      WriterIsReady(names, RunFrom(names, s, more), writable);
    }
  }

  /** When a frame is refused the shared flag goes up, and a stream that looks at it is told to stop. */
  lemma DeadSinkStopsAgents(names: set<Text>, steps: seq<Step>, name: Text, late: bool)
    requires Run(names, steps).dead
    requires var s := Run(names, steps); name in s.agents && s.agents[name].phase.Checking?
    ensures var t := After(names, Run(names, steps), Turn(name, Check(late)));
      t.agents[name].stopped && t.agents[name].timedOut == Run(names, steps).agents[name].timedOut
  {
    hide Run, Subsequence;
    RunKeepsQueue(names, steps);
  }
}
