/** The threads of a broadcast as programs: the queue, one agent's thread and the sink's writer
    (legacy/cpp/coordinator_routes_architect_stream.cpp and ..._stream_modes.cpp), each on its own.
    What they do is made of the moves that `Broadcast` interleaves. */
module BroadcastThreads {
  import opened Wrappers
  import opened Bytes
  import opened Broadcast
  import opened BroadcastAgents

  class FrameQueue {
    var frames: seq<Frame>
    var closed: bool

    constructor ()
      ensures frames == [] && !closed
    {
      frames, closed := [], false;
    }

    method WriteEvent(f: Frame)
      modifies this`frames
      ensures frames == old(frames) + [f]
    {
      frames := frames + [f];
    }

    method Close()
      modifies this`closed
      ensures closed
    {
      closed := true;
    }
  }

  // ---- specification of an agent's thread ----

  /** A chunk of the stream and what the flags say right after it. */
  datatype Arrival = Arrival(delta: Text, cancel: bool, late: bool)

  function Then(m: Moved, n: Moved): Moved {
    Moved(n.agent, m.frames + n.frames)
  }

  function Arrived(name: Text, ag: Agent, a: Arrival): Moved {
    var chunk := MoveAgent(name, ag, Chunk(a.delta), a.cancel);
    Then(chunk, MoveAgent(name, chunk.agent, Check(a.late), a.cancel))
  }

  function Streamed(name: Text, ag: Agent, arrivals: seq<Arrival>): Moved {
    if arrivals == [] then Moved(ag, [])
    else
      var m := Streamed(name, ag, arrivals[..|arrivals| - 1]);
      Then(m, Arrived(name, m.agent, arrivals[|arrivals| - 1]))
  }

  function Rank(phase: Phase): nat {
    match phase
    case Streaming => 0
    case Checking => 0
    case Failing(_) => 6
    case Reporting(_) => 5
    case Closing => 4
    case Noting => 3
    case Storing => 2
    case Finishing => 1
    case Done => 0
  }

  /** All that is left once the stream is over. */
  function WoundUp(name: Text, ag: Agent): Moved
    decreases Rank(ag.phase)
  {
    if Rank(ag.phase) == 0 then Moved(ag, [])
    else
      var m := MoveAgent(name, ag, Advance, false);
      Then(m, WoundUp(name, m.agent))
  }

  /** A whole thread: chunks, the end of the stream or an exception, winding up. */
  function Thread(name: Text, cancelled: bool, arrivals: seq<Arrival>, error: Option<Text>): Moved {
    var m := Streamed(name, Agent(Streaming, [], [], false, cancelled), arrivals);
    var over := MoveAgent(name, m.agent, match error case None => End case Some(what) => Throw(what), false);
    Then(m, WoundUp(name, over.agent))
  }

  // ---- the agent's thread ----

  class AgentThread {
    const name: Text
    const queue: FrameQueue
    var assembled: Text
    var batch: Text
    var timedOut: bool
    var agentCancel: bool

    /** The thread as the step system sees it. */
    ghost function View(phase: Phase): Agent
      reads this
    {
      Agent(phase, assembled, batch, timedOut, agentCancel)
    }

    constructor (name: Text, queue: FrameQueue, cancelled: bool)
      ensures this.name == name && this.queue == queue
      ensures View(Streaming) == Agent(Streaming, [], [], false, cancelled)
    {
      this.name, this.queue := name, queue;
      assembled, batch, timedOut, agentCancel := [], [], false, cancelled;
    }

    /** `flush_batch`. */
    method FlushBatch()
      modifies this`batch, queue`frames
      ensures batch == [] && queue.frames == old(queue.frames) + Flushed(name, old(batch))
    {
      if batch == [] {
        assert queue.frames + [] == queue.frames;
        return;
      }
      queue.WriteEvent(Token(name, batch));
      batch := [];
    }

    /** `on_chunk`. */
    method OnChunk(a: Arrival)
      modifies this, queue`frames
      ensures var m := Arrived(name, old(View(Streaming)), a);
        View(Streaming) == m.agent && queue.frames == old(queue.frames) + m.frames
    {
      assembled := assembled + a.delta;
      batch := batch + a.delta;
      assert queue.frames + [] == queue.frames;
      if |batch| >= TOKEN_BATCH_BYTES {
        FlushBatch();
      }
      if a.cancel {
        agentCancel := true;
        return;
      }
      if a.late {
        timedOut := true;
        agentCancel := true;
      }
    }

    /** The body of the thread; `output` is what it stores under its name. */
    method Body(arrivals: seq<Arrival>, error: Option<Text>) returns (output: Text)
      requires View(Streaming) == Agent(Streaming, [], [], false, agentCancel)
      modifies this, queue`frames
      ensures var t := Thread(name, old(agentCancel), arrivals, error);
        View(Done) == t.agent && queue.frames == old(queue.frames) + t.frames && output == t.agent.assembled
    {
      hide NOTE, Arrived, WoundUp;
      ghost var begun := View(Streaming);
      assert queue.frames + [] == queue.frames;
      for i := 0 to |arrivals|
        invariant View(Streaming) == Streamed(name, begun, arrivals[..i]).agent
        invariant queue.frames == old(queue.frames) + Streamed(name, begun, arrivals[..i]).frames
      {
        ghost var m := Streamed(name, begun, arrivals[..i]);
        assert arrivals[..i + 1][..i] == arrivals[..i];
        OnChunk(arrivals[i]);
        Regroup(old(queue.frames), m.frames, Arrived(name, m.agent, arrivals[i]).frames);
      }
      assert arrivals[..|arrivals|] == arrivals;
      ghost var over := View(match error case None => Closing case Some(what) => Failing(what));
      ghost var sofar := queue.frames;
      output := WindUp(error);
      Regroup(old(queue.frames), Streamed(name, begun, arrivals).frames, WoundUp(name, over).frames);
    }

    /** The handler of an exception, when there is one, and the last flush. */
    method FlushOrFail(error: Option<Text>)
      modifies this`batch, queue`frames
      ensures batch == []
      ensures queue.frames == old(queue.frames) + (Flushed(name, old(batch)) + Failed(name, error))
    {
      ghost var q := queue.frames;
      if error.Some? {
        FlushBatch();
        queue.WriteEvent(Failure(name, error.value));
        Regroup(q, Flushed(name, old(batch)), Failed(name, error));
      }
      FlushBatch();
      assert error.None? ==> Flushed(name, old(batch)) + [] == Flushed(name, old(batch));
      assert queue.frames + [] == queue.frames;
    }

    /** The part behind the stream, with the handler of an exception in front. */
    method WindUp(error: Option<Text>) returns (output: Text)
      modifies this, queue`frames
      ensures var t := WoundUp(name, old(View(match error case None => Closing case Some(what) => Failing(what))));
        View(Done) == t.agent && queue.frames == old(queue.frames) + t.frames && output == t.agent.assembled
    {
      hide NOTE, WoundUp, Rank;
      WindingUp(name, old(View(match error case None => Closing case Some(what) => Failing(what))));
      ghost var q := queue.frames;
      FlushOrFail(error);
      ghost var sent := queue.frames[|q|..];
      if timedOut {
        queue.WriteEvent(Token(name, NOTE));
      }
      assert queue.frames == q + (sent + Noted(name, timedOut));
      output := assembled;
      queue.WriteEvent(AgentDone(name));
      Regroup(q, sent + Noted(name, timedOut), [AgentDone(name)]);
    }
  }

  function Failed(name: Text, error: Option<Text>): seq<Frame> {
    match error case None => [] case Some(what) => [Failure(name, what)]
  }

  function Noted(name: Text, timedOut: bool): seq<Frame> {
    if timedOut then [Token(name, NOTE)] else []
  }

  /** The frames of winding up, written out. */
  function Tail(name: Text, ag: Agent, error: Option<Text>): seq<Frame> {
    Flushed(name, ag.batch) + Failed(name, error) + Noted(name, ag.timedOut) + [AgentDone(name)]
  }

  lemma Advanced(name: Text, ag: Agent)
    requires Rank(ag.phase) > 0
    ensures WoundUp(name, ag) == Then(OnAdvance(name, ag), WoundUp(name, OnAdvance(name, ag).agent))
  {
  }

  lemma WindingFromNote(name: Text, ag: Agent)
    requires ag.phase.Noting?
    ensures WoundUp(name, ag)
      == Moved(ag.(phase := Done), Noted(name, ag.timedOut) + [AgentDone(name)])
  {
    hide NOTE, WoundUp;
    Advanced(name, ag);
    Advanced(name, ag.(phase := Storing));
    Advanced(name, ag.(phase := Finishing));
    DoneIsDone(name, ag.(phase := Done));
  }

  lemma DoneIsDone(name: Text, ag: Agent)
    requires ag.phase.Done?
    ensures WoundUp(name, ag) == Moved(ag, [])
  {
  }

  lemma WindingFromClose(name: Text, ag: Agent)
    requires ag.phase.Closing?
    ensures WoundUp(name, ag) == Moved(ag.(phase := Done, batch := []), Tail(name, ag, None))
  {
    hide NOTE, WoundUp;
    Advanced(name, ag);
    WindingFromNote(name, ag.(phase := Noting, batch := []));
  }

  lemma TailsJoin(name: Text, ag: Agent, what: Text)
    ensures Flushed(name, ag.batch) + (Failed(name, Some(what)) + Tail(name, ag.(phase := Closing, batch := []), None))
      == Tail(name, ag, Some(what))
  {
    hide NOTE;
  }

  lemma WindingUp(name: Text, ag: Agent)
    requires ag.phase.Closing? || ag.phase.Failing?
    ensures WoundUp(name, ag)
      == Moved(ag.(phase := Done, batch := []), Tail(name, ag, if ag.phase.Failing? then Some(ag.phase.what) else None))
  {
    hide NOTE, WoundUp, Noted;
    if ag.phase.Failing? {
      var reporting := ag.(phase := Reporting(ag.phase.what), batch := []);
      var closing := reporting.(phase := Closing);
      WindingFromClose(name, closing);
      Advanced(name, reporting);
      assert WoundUp(name, reporting).agent == ag.(phase := Done, batch := []);
      assert WoundUp(name, reporting).frames == Failed(name, Some(ag.phase.what)) + Tail(name, closing, None);
      Advanced(name, ag);
      TailsJoin(name, ag, ag.phase.what);
    } else {
      WindingFromClose(name, ag);
    }
  }

  // ---- the writer ----

  /** How many of the frames go out: up to the first one the sink refuses. */
  function Accepted(n: nat, writable: nat -> bool, from: nat): (k: nat)
    ensures k <= n
    ensures forall j | from <= j < from + k :: writable(j)
    ensures k < n ==> !writable(from + k)
    decreases n
  {
    if n == 0 || !writable(from) then 0 else 1 + Accepted(n - 1, writable, from + 1)
  }

  class SinkWriter {
    var delivered: seq<Frame>
    var cancel: bool
    const writable: nat -> bool

    constructor (writable: nat -> bool)
      ensures delivered == [] && !cancel && this.writable == writable
    {
      delivered, cancel := [], false;
      this.writable := writable;
    }

    /** The loop of `sink_writer` once the queue is closed: it ends with the queue empty, having handed
        on the frames up to the first refusal, in order, and no other. */
    method Drain(queue: FrameQueue)
      requires queue.closed
      modifies this, queue`frames
      ensures queue.frames == []
      ensures var n := |old(queue.frames)|;
        var k := Accepted(n, writable, 0);
        && delivered == old(delivered) + old(queue.frames)[..k]
        && cancel == (old(cancel) || k < n)
    {
      hide Accepted;
      ghost var all := queue.frames;
      ghost var k := Accepted(|all|, writable, 0);
      var asked := 0;
      while queue.frames != []
        invariant asked <= k && (queue.frames == all[asked..] || (queue.frames == [] && asked == k < |all|))
        invariant delivered == old(delivered) + all[..asked]
        invariant queue.frames != [] || asked == |all| || cancel
        invariant cancel == (old(cancel) || (queue.frames == [] && asked < |all|))
        decreases |queue.frames|
      {
        var frame := queue.frames[0];
        queue.frames := queue.frames[1..];
        if !writable(asked) {
          cancel := true;
          queue.frames := [];
          continue;
        }
        assert all[..asked + 1] == all[..asked] + [frame];
        delivered := delivered + [frame];
        asked := asked + 1;
      }
    }
  }

  // ---- what a thread says ----

  function Deltas(arrivals: seq<Arrival>): Text {
    if arrivals == [] then [] else Deltas(arrivals[..|arrivals| - 1]) + arrivals[|arrivals| - 1].delta
  }

  ghost predicate FullTokens(frames: seq<Frame>, name: Text) {
    forall f | f in frames :: f.Token? && f.agent == name && |f.delta| >= TOKEN_BATCH_BYTES
  }

  lemma ArrivedIs(name: Text, ag: Agent, a: Arrival)
    requires ag.phase.Streaming?
    ensures var n := Arrived(name, ag, a);
      && n.agent.phase.Streaming? && n.agent.assembled == ag.assembled + a.delta
      && |n.frames| <= 1 && FullTokens(n.frames, name)
      && (if n.frames == [] then n.agent.batch == ag.batch + a.delta
          else n.agent.batch == [] && n.frames[0].delta == ag.batch + a.delta)
  {
  }

  lemma SpokenOn(frames: seq<Frame>, more: seq<Frame>, name: Text, batch: Text, delta: Text, all: Text)
    requires Spoken(frames, name) + batch == all && |more| <= 1 && FullTokens(more, name)
    ensures more == [] ==> Spoken(frames + more, name) + (batch + delta) == all + delta
    ensures more != [] && more[0].delta == batch + delta ==> Spoken(frames + more, name) + [] == all + delta
  {
    hide Spoken, About;
    FramesMore(frames, more, name);
    Regroup(Spoken(frames, name), batch, delta);
    assert Spoken(frames, name) + [] == Spoken(frames, name);
    assert all + delta + [] == all + delta;
  }

  lemma {:induction false} StreamedIs(name: Text, ag: Agent, arrivals: seq<Arrival>)
    requires ag.phase.Streaming? && ag.assembled == [] && ag.batch == []
    ensures var m := Streamed(name, ag, arrivals);
      && m.agent.phase.Streaming?
      && m.agent.assembled == Deltas(arrivals)
      && Spoken(m.frames, name) + m.agent.batch == Deltas(arrivals)
      && FullTokens(m.frames, name)
  {
    hide Spoken, Arrived;
    if arrivals == [] {
      NothingSpoken(name);
    } else {
      var init, last := arrivals[..|arrivals| - 1], arrivals[|arrivals| - 1];
      StreamedIs(name, ag, init);
      var m := Streamed(name, ag, init);
      ArrivedIs(name, m.agent, last);
      SpokenOn(m.frames, Arrived(name, m.agent, last).frames, name, m.agent.batch, last.delta, Deltas(init));
    }
  }

  lemma {:induction false} SpokenTogether(a: seq<Frame>, b: seq<Frame>, name: Text)
    ensures Spoken(a + b, name) == Spoken(a, name) + Spoken(b, name)
  {
    if b == [] {
      assert a + b == a && Spoken(a, name) + [] == Spoken(a, name);
    } else {
      var init, last := b[..|b| - 1], b[|b| - 1];
      assert a + b == a + init + [last] && b == init + [last];
      SpokenTogether(a, init, name);
      OneFrameMore(a + init, last, name);
      OneFrameMore(init, last, name);
      Regroup(Spoken(a, name), Spoken(init, name), if last.Token? && last.agent == name then last.delta else []);
    }
  }

  lemma NothingSpoken(name: Text)
    ensures Spoken([], name) == []
  {
  }

  lemma TailSays(name: Text, ag: Agent, error: Option<Text>)
    ensures Spoken(Tail(name, ag, error), name) == ag.batch + Remark(ag)
  {
    hide NOTE, Spoken, About;
    NothingSpoken(name);
    var failed, noted := Failed(name, error), Noted(name, ag.timedOut);
    var flushed := Flushed(name, ag.batch);
    FramesMore([], flushed, name);
    assert [] + flushed == flushed && [] + ag.batch == ag.batch;
    FramesMore(flushed, failed, name);
    FramesMore(flushed + failed, noted, name);
    FramesMore(flushed + failed + noted, [AgentDone(name)], name);
    assert Spoken(flushed, name) == ag.batch;
    assert ag.batch + [] == ag.batch && ag.batch + Remark(ag) + [] == ag.batch + Remark(ag);
  }

  /** Left to itself, a thread writes full batches, then its tail; what it says is all its stream
      delivered, which is also the output it stores, and the note if it ran out of time. */
  lemma ThreadSaysItsOutput(name: Text, cancelled: bool, arrivals: seq<Arrival>, error: Option<Text>)
    ensures var t := Thread(name, cancelled, arrivals, error);
      && t.agent.assembled == Deltas(arrivals) && t.agent.phase.Done?
      && Spoken(t.frames, name) == Deltas(arrivals) + Remark(t.agent)
  {
    hide NOTE, Streamed, WoundUp, Deltas, Spoken, About, Tail;
    var begun := Agent(Streaming, [], [], false, cancelled);
    StreamedIs(name, begun, arrivals);
    var m := Streamed(name, begun, arrivals);
    var over := m.agent.(phase := match error case None => Closing case Some(what) => Failing(what));
    WindingUp(name, over);
    TailSays(name, over, error);
    SpokenTogether(m.frames, Tail(name, over, error), name);
    Regroup(Spoken(m.frames, name), over.batch, Remark(over));
  }
}
