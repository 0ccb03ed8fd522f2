/** The scheduler's tick (internal/reflect/scheduler.go) and the steps it is made of, which callers
    that append to the log may interleave with. */
module ReflectionScheduler {
  import opened Wrappers
  import opened Bytes
  import opened Cursor
  import opened Reflection

  // ---- the step system ----

  /** A stretch of the log that went to the reflector: what the cap left out and what was sent. */
  datatype Window = Window(from: nat, next: nat, dropped: seq<Row>, sent: seq<Row>)

  /** What a completion comes to: its lessons, unless it is unusable, and how many the sink stored. */
  datatype Answer = Answer(lessons: Option<seq<Lesson>>, stored: nat)

  /** Where the tick in progress is; `loaded` is the cursor it read. */
  datatype Phase =
    | Idle
    | Reflecting(loaded: nat, window: Window)
    | Recording(loaded: nat, next: nat, result: Result)
    | Saving(loaded: nat, next: nat)

  /** `windows` went to the completer and `offered` to the sink. */
  datatype State = State(log: seq<Row>, cursor: nat, phase: Phase, windows: seq<Window>, offered: seq<Lesson>)

  datatype Step =
    | Outside(row: Row)
    | Read(readable: bool)
    | Complete(answer: Answer)
    | AppendRecord
    | Save(write: Write)

  function WindowOf(log: seq<Row>, cursor: int, cap: int): Window {
    var from := Clamp(cursor, |log|);
    var eps := Episodes(log[from..]);
    Window(from, |log|, Overflow(eps, cap), Capped(eps, cap))
  }

  /** A cursor file that cannot be read counts as 0. */
  function LoadedFrom(cursor: nat, readable: bool): nat {
    if readable then cursor else 0
  }

  /** The cursor is written only when the tick moves it on from what was loaded. */
  function Saved(cursor: nat, loaded: nat, next: nat, write: Write): nat {
    if next == loaded then cursor else CursorAfter(cursor, next, write)
  }

  /** The result of a completion over `n` episodes. */
  function ResultOf(n: nat, a: Answer): Result {
    match a.lessons case Some(ls) => Result(n, |ls|, a.stored) case None => Result(n, 0, 0)
  }

  function OfferedBy(a: Answer): seq<Lesson> {
    match a.lessons case Some(ls) => Offered(ls) case None => []
  }

  /** One step; a step that is not enabled changes nothing. */
  function After(s: State, step: Step, cap: int): State {
    match step
    case Outside(row) => s.(log := s.log + [row])
    case Read(readable) =>
      var loaded := LoadedFrom(s.cursor, readable);
      if !s.phase.Idle? then s
      else if Episodes(s.log[Clamp(loaded, |s.log|)..]) == [] then s.(phase := Saving(loaded, |s.log|))
      else s.(phase := Reflecting(loaded, WindowOf(s.log, loaded, cap)))
    case Complete(answer) =>
      if !s.phase.Reflecting? then s
      else
        var loaded, w := s.phase.loaded, s.phase.window;
        s.(windows := s.windows + [w], offered := s.offered + OfferedBy(answer),
           phase := if answer.lessons.Some? then Recording(loaded, w.next, ResultOf(|w.sent|, answer))
                    else Saving(loaded, w.next))
    case AppendRecord =>
      if !s.phase.Recording? then s
      else s.(log := s.log + [Record(s.phase.result)], phase := Saving(s.phase.loaded, s.phase.next))
    case Save(write) =>
      if !s.phase.Saving? then s
      else s.(cursor := Saved(s.cursor, s.phase.loaded, s.phase.next, write), phase := Idle)
  }

  /** The rest of a tick, from wherever it is. */
  function Finish(s: State, answer: Answer, write: Write, cap: int): State {
    After(After(After(s, Complete(answer), cap), AppendRecord, cap), Save(write), cap)
  }

  /** A whole tick nobody interleaves with. */
  function Ticked(s: State, readable: bool, answer: Answer, write: Write, cap: int): State {
    Finish(After(s, Read(readable), cap), answer, write, cap)
  }

  // ---- the tick ----

  /** The completer calls of a list of windows. */
  function Prompts(ws: seq<Window>, maxChars: int, seams: Seams): seq<Text> {
    if ws == [] then [] else Prompts(ws[..|ws| - 1], maxChars, seams) + [Prompt(ws[|ws| - 1].sent, maxChars, seams)]
  }

  class Scheduler {
    const src: History
    const c: Completer
    const sink: MemorySink
    const cur: CursorFile
    const cap: int
    const maxChars: int
    const seams: Seams

    constructor (src: History, c: Completer, sink: MemorySink, cur: CursorFile, cap: int, maxChars: int, seams: Seams)
      ensures this.src == src && this.c == c && this.sink == sink && this.cur == cur
      ensures this.cap == cap && this.maxChars == maxChars && this.seams == seams
    {
      this.src, this.c, this.sink, this.cur := src, c, sink, cur;
      this.cap, this.maxChars, this.seams := cap, maxChars, seams;
    }

    /** What the next completion will come to. */
    ghost function NextAnswer(): Answer
      reads c, sink
    {
      var lessons := Usable(c.replies(|c.asked|), seams);
      Answer(lessons, match lessons case Some(ls) => Successes(sink.ok, |sink.puts|, |Offered(ls)|) case None => 0)
    }

    /** The scheduler between two ticks; `offered` is what the sink has been offered. */
    ghost function View(): State
      reads src, sink, cur
    {
      State(src.rows, cur.View(), Idle, [], sink.puts)
    }

    /** `Tick`: the four steps of a tick, on the log, the cursor file, the completer and the sink. */
    method Tick() returns (res: Result)
      modifies src, c, sink, cur
      ensures var answer := old(NextAnswer());
        var after := Ticked(old(View()), cur.readable(old(cur.loads)), answer, cur.writes(old(cur.count)), cap);
        && src.rows == after.log
        && cur.View() == after.cursor
        && c.asked == old(c.asked) + Prompts(after.windows, maxChars, seams)
        && sink.puts == after.offered
        && res == if after.windows == [] then NOTHING else ResultOf(|after.windows[0].sent|, answer)
    {
      hide Episodes, Prompt, Usable, Offered, Successes, Capped, Overflow, Clamp, CursorAfter;
      var cursor := cur.Load();
      var next, err;
      ghost var eps := Episodes(src.rows[Clamp(cursor, |src.rows|)..]);
      ghost var answer := NextAnswer();
      res, next, err := Pass(src, cursor, c, sink, cap, maxChars, seams);
      ghost var after := Ticked(old(View()), cur.readable(old(cur.loads)), answer, cur.writes(cur.count), cap);
      assert c.asked + [] == c.asked;
      assert eps == [] ==> after.windows == [];
      assert [WindowOf(old(src.rows), cursor, cap)][..0] == [];
      assert eps != [] ==> after.windows == [WindowOf(old(src.rows), cursor, cap)];
      assert c.asked == old(c.asked) + Prompts(after.windows, maxChars, seams);
      assert src.rows == after.log;
      assert sink.puts == after.offered;
      if next != cursor {
        var saved := cur.Save(next);
      }
    }
  }
}
