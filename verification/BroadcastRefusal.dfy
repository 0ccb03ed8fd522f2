/** What a refused frame means for the others (legacy/cpp/coordinator_routes_architect_stream.cpp): it and
    everything queued behind it is dropped, and only what comes later may still go out. */
module BroadcastRefusal {
  import opened Bytes
  import opened Sequences
  import opened Broadcast
  import opened BroadcastAgents
  import opened BroadcastDelivery

  /** What may still go out: nothing while the writer has yet to drop the queue. */
  function Coming(s: State): seq<Frame> {
    if s.writer.Dropping? then [] else InHand(s.writer) + s.queue
  }

  /** Beyond what had been delivered and enqueued by the time of `s`, `t` delivers only what was enqueued
      since, in order. */
  ghost predicate DropsFrom(s: State, t: State) {
    && s.delivered <= t.delivered && s.sent <= t.sent
    && Subsequence(t.delivered[|s.delivered|..] + Coming(t), t.sent[|s.sent|..])
  }

  lemma SameComing(s: State, t: State, u: State)
    requires DropsFrom(s, t) && u.sent == t.sent && u.delivered == t.delivered && Coming(u) == Coming(t)
    ensures DropsFrom(s, u)
  {
  }

  /** The writer moves on: what goes out grows by what was coming, or loses it. */
  lemma ComingMoves(s: State, t: State, u: State)
    requires DropsFrom(s, t) && u.sent == t.sent && t.delivered <= u.delivered
    requires exists lost :: t.delivered + Coming(t) == u.delivered + Coming(u) + lost
    ensures DropsFrom(s, u)
  {
    hide Subsequence, Coming;
    var lost :| t.delivered + Coming(t) == u.delivered + Coming(u) + lost;
    var n := |s.delivered|;
    CutSum(t.delivered, Coming(t), n);
    CutSum(u.delivered, Coming(u), n);
    CutSum(u.delivered + Coming(u), lost, n);
    SubsequenceFront(u.delivered[n..] + Coming(u), lost, t.sent[|s.sent|..]);
  }

  lemma EnqueueDrops(s: State, t: State, frames: seq<Frame>)
    requires DropsFrom(s, t) && |frames| <= 1
    ensures DropsFrom(s, Enqueued(t, frames))
  {
    hide Subsequence;
    var u := Enqueued(t, frames);
    if frames == [] {
      assert t.queue + [] == t.queue && t.sent + [] == t.sent;
    } else {
      var before, since := t.delivered[|s.delivered|..] + Coming(t), t.sent[|s.sent|..];
      assert frames == [frames[0]];
      CutSum(t.sent, frames, |s.sent|);
      if t.writer.Dropping? {
        SinceWider(before, since, frames[0]);
      } else {
        SubsequenceGrows(before, since, frames[0]);
        Regroup(InHand(t.writer), t.queue, frames);
        Regroup(t.delivered[|s.delivered|..], Coming(t), frames);
      }
    }
  }

  lemma SinceWider(a: seq<Frame>, b: seq<Frame>, f: Frame)
    requires Subsequence(a, b)
    ensures Subsequence(a, b + [f])
  {
    hide Subsequence;
    assert (b + [f])[..|b|] == b;
    SubsequenceWider(a, b + [f]);
  }

  lemma PopComes(t: State)
    requires t.writer.Waiting? && t.queue != []
    ensures var u := Popped(t);
      && u.sent == t.sent && u.delivered == t.delivered
      && t.delivered + Coming(t) == u.delivered + Coming(u) + []
  {
    assert t.queue == [t.queue[0]] + t.queue[1..];
  }

  lemma DeliverComes(t: State, writable: bool)
    requires t.writer.Holding?
    ensures var u := Delivered(t, writable);
      && u.sent == t.sent && t.delivered <= u.delivered
      && t.delivered + Coming(t) == u.delivered + Coming(u) + (if writable then [] else Coming(t))
  {
  }

  lemma WriterDrops(s: State, t: State, step: Step)
    requires DropsFrom(s, t) && ByWriter(step)
    ensures DropsFrom(s, WriterStep(t, step))
  {
    hide DropsFrom, Popped, Delivered;
    var u := WriterStep(t, step);
    match step
    case Pop =>
      if t.writer.Waiting? && t.queue != [] {
        PopComes(t);
        ComingMoves(s, t, u);
      }
    case Deliver(writable) =>
      if t.writer.Holding? {
        DeliverComes(t, writable);
        ComingMoves(s, t, u);
      }
    case _ => RestDrops(s, t, step);
  }

  lemma RestDrops(s: State, t: State, step: Step)
    requires DropsFrom(s, t) && (step.Clear? || step.Quit?)
    ensures DropsFrom(s, WriterStep(t, step))
  {
    hide DropsFrom, Popped, Delivered;
    var u := WriterStep(t, step);
    assert u.sent == t.sent && u.delivered == t.delivered;
    assert Coming(u) == Coming(t);
    SameComing(s, t, u);
  }

  lemma TurnDrops(s: State, t: State, name: Text, move: Move)
    requires DropsFrom(s, t) && name in t.agents
    ensures DropsFrom(s, Turned(t, name, move))
  {
    hide DropsFrom, MoveAgent, Mentions;
    var moved := MoveAgent(name, t.agents[name], move, t.cancel);
    MovedFrames(name, t.agents[name], move, t.cancel);
    EnqueueDrops(s, t, moved.frames);
    SameComing(s, Enqueued(t, moved.frames), Turned(t, name, move));
  }

  lemma StepDrops(names: set<Text>, s: State, t: State, step: Step)
    requires DropsFrom(s, t)
    ensures DropsFrom(s, After(names, t, step))
  {
    hide DropsFrom, Turned, Mentions, Enqueued, WriterStep, MainStep, Foreign;
    var u := After(names, t, step);
    match step
    case Emit(f) =>
      if u != t {
        EnqueueDrops(s, t, [f]);
      }
    case Turn(name, move) =>
      if name in t.agents {
        TurnDrops(s, t, name, move);
      }
    case Start(_) => SameComing(s, t, u);
    case Cancel => SameComing(s, t, u);
    case _ =>
      if ByWriter(step) {
        WriterDrops(s, t, step);
      } else {
        MainDrops(names, s, t, step);
      }
  }

  lemma MainDrops(names: set<Text>, s: State, t: State, step: Step)
    requires DropsFrom(s, t)
    ensures DropsFrom(s, MainStep(names, t, step))
  {
    hide DropsFrom, AllDone;
    SameComing(s, t, MainStep(names, t, step));
  }

  lemma {:induction false} RunDrops(names: set<Text>, s: State, t: State, more: seq<Step>)
    requires DropsFrom(s, t)
    ensures DropsFrom(s, RunFrom(names, t, more))
  {
    hide DropsFrom, After;
    if more != [] {
      RunDrops(names, s, t, more[..|more| - 1]);
      StepDrops(names, s, RunFrom(names, t, more[..|more| - 1]), more[|more| - 1]);
    }
  }

  /** Once the sink refuses a frame, that frame and all queued behind it are dropped: in every run that
      follows, the sink gets no more than frames enqueued after the refusal, in order. */
  lemma RefusalDropsQueue(names: set<Text>, s: State, more: seq<Step>)
    requires s.writer.Holding?
    ensures var t := RunFrom(names, After(names, s, Deliver(false)), more);
      && s.delivered <= t.delivered && s.sent <= t.sent
      && Subsequence(t.delivered[|s.delivered|..], t.sent[|s.sent|..])
  {
    hide Subsequence, RunFrom;
    var r := After(names, s, Deliver(false));
    NothingComing(s, r);
    RunDrops(names, s, r, more);
    var t := RunFrom(names, r, more);
    SubsequenceFront(t.delivered[|s.delivered|..], Coming(t), t.sent[|s.sent|..]);
  }

  lemma NothingComing(s: State, r: State)
    requires r.writer.Dropping? && r.delivered == s.delivered && r.sent == s.sent
    ensures DropsFrom(s, r)
  {
    assert r.delivered[|s.delivered|..] + Coming(r) == [] && r.sent[|s.sent|..] == [];
  }
}
