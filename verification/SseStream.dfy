/** What a server-sent event stream means to the agent client: how a byte stream falls into frames,
    which events a frame carries, and what a sequence of events does to the drainer
    (internal/agent/stream_sse.go). Nothing here depends on how the bytes arrive. */
module SseStream {
  import opened Wrappers
  import opened Bytes
  import Utf8

  const DATA: Text := [100, 97, 116, 97, 58]        // data:
  const DONE: Text := [91, 68, 79, 78, 69, 93]      // [DONE]

  // ---- frames ----

  datatype Cut = Cut(frames: seq<Text>, rest: Text)

  /** Greedy cutting at blank lines: the complete frames, and what is left behind the last one. */
  function CutFrames(s: Text): Cut {
    var i := Index(s, BLANK_LINE);
    if i < 0 then Cut([], s)
    else
      var c := CutFrames(s[i + 2..]);
      Cut([s[..i]] + c.frames, c.rest)
  }

  /** Frames written out again, each with its blank line. */
  function Terminated(frames: seq<Text>): Text {
    if frames == [] then [] else frames[0] + BLANK_LINE + Terminated(frames[1..])
  }

  /** A frame the cutter reproduces: the first blank line is the one that ends it. */
  predicate IsFrame(f: Text) {
    Index(f + BLANK_LINE, BLANK_LINE) == |f|
  }

  lemma FirstCutIsFrame(s: Text)
    requires Index(s, BLANK_LINE) >= 0
    ensures IsFrame(s[..Index(s, BLANK_LINE)])
    ensures s == s[..Index(s, BLANK_LINE)] + BLANK_LINE + s[Index(s, BLANK_LINE) + 2..]
  {
    hide Index;
    var i := Index(s, BLANK_LINE);
    var f := s[..i];
    assert f + BLANK_LINE == s[..i + 2];
    forall j | 0 <= j < i ensures !OccursAt(f + BLANK_LINE, BLANK_LINE, j) {
      assert (f + BLANK_LINE)[j..j + 2] == s[j..j + 2];
      assert !OccursAt(s, BLANK_LINE, j);
    }
    IndexIsFirst(f + BLANK_LINE, BLANK_LINE, i);
  }

  lemma TerminatedCons(f: Text, frames: seq<Text>)
    ensures Terminated([f] + frames) == f + BLANK_LINE + Terminated(frames)
  {
    assert ([f] + frames)[1..] == frames;
  }

  /** The cut loses nothing. */
  lemma {:induction false} CutIsLossless(s: Text)
    ensures s == Terminated(CutFrames(s).frames) + CutFrames(s).rest
  {
    var i := Index(s, BLANK_LINE);
    if i >= 0 {
      var f, c := s[..i], CutFrames(s[i + 2..]);
      FirstCutIsFrame(s);
      CutIsLossless(s[i + 2..]);
      TerminatedCons(f, c.frames);
      Regroup(f + BLANK_LINE, Terminated(c.frames), c.rest);
    }
  }

  /** The cut leaves no blank line behind, and every piece is a frame. */
  lemma {:induction false} CutIsComplete(s: Text)
    ensures Index(CutFrames(s).rest, BLANK_LINE) < 0
    ensures forall f | f in CutFrames(s).frames :: IsFrame(f)
  {
    var i := Index(s, BLANK_LINE);
    if i >= 0 {
      FirstCutIsFrame(s);
      CutIsComplete(s[i + 2..]);
    }
  }

  /** The cut is the only such decomposition. */
  lemma {:induction false} CutIsUnique(frames: seq<Text>, rest: Text)
    requires forall f | f in frames :: IsFrame(f)
    requires Index(rest, BLANK_LINE) < 0
    ensures CutFrames(Terminated(frames) + rest) == Cut(frames, rest)
  {
    hide *;
    if frames == [] {
      NoFrames(rest);
      CutUnfolds(rest);
    } else {
      var f := frames[0];
      assert f in frames;
      CutIsUnique(frames[1..], rest);
      TerminatedCons(f, frames[1..]);
      FrameComesOff(f, Terminated(frames[1..]) + rest);
      Regroup(f + BLANK_LINE, Terminated(frames[1..]), rest);
      assert frames == [f] + frames[1..];
    }
  }

  lemma NoFrames(rest: Text)
    ensures Terminated([]) + rest == rest
  {
  }

  lemma FrameComesOff(f: Text, tail: Text)
    requires IsFrame(f)
    ensures CutFrames(f + BLANK_LINE + tail) == Cut([f] + CutFrames(tail).frames, CutFrames(tail).rest)
  {
    hide Index, CutFrames;
    var s := f + BLANK_LINE + tail;
    IndexStable(f + BLANK_LINE, tail, BLANK_LINE);
    CutUnfolds(s);
    assert s[..|f|] == f && s[|f| + 2..] == tail;
  }

  lemma CutUnfolds(s: Text)
    ensures var i := Index(s, BLANK_LINE);
      if i < 0 then CutFrames(s) == Cut([], s)
      else
        && i + 2 <= |s|
        && CutFrames(s).frames == [s[..i]] + CutFrames(s[i + 2..]).frames
        && CutFrames(s).rest == CutFrames(s[i + 2..]).rest
  {
    hide Index;
  }

  /** Cutting what has arrived and later cutting the remainder with what arrives next is cutting
      everything at once, even when the blank line straddles the seam. */
  lemma {:induction false} CutInTwo(s: Text, t: Text)
    ensures CutFrames(s + t).frames == CutFrames(s).frames + CutFrames(CutFrames(s).rest + t).frames
    ensures CutFrames(s + t).rest == CutFrames(CutFrames(s).rest + t).rest
  {
    hide *;
    var i := Index(s, BLANK_LINE);
    CutUnfolds(s);
    if i < 0 {
      assert [] + CutFrames(s + t).frames == CutFrames(s + t).frames;
    } else {
      IndexStable(s, t, BLANK_LINE);
      CutUnfolds(s + t);
      CutSum(s, t, i);
      CutSum(s, t, i + 2);
      CutInTwo(s[i + 2..], t);
      Regroup([s[..i]], CutFrames(s[i + 2..]).frames, CutFrames(CutFrames(s).rest + t).frames);
    }
  }

  // ---- events ----

  /** `bytes.Split(frame, "\n")`. */
  function Lines(frame: Text): seq<Text> {
    var i := Index(frame, [LF]);
    if i < 0 then [frame] else [frame[..i]] + Lines(frame[i + 1..])
  }

  datatype Event = Finished | Payload(data: Text)

  /** What one line says, if anything. */
  function ReadLine(line: Text): Option<Event> {
    var l := TrimSpace(line);
    if !(DATA <= l) then None
    else
      var data := TrimSpace(l[|DATA|..]);
      Some(if data == DONE then Finished else Payload(data))
  }

  function LineEvents(lines: seq<Text>): seq<Event> {
    if lines == [] then []
    else
      (match ReadLine(lines[0]) case None => [] case Some(e) => [e]) + LineEvents(lines[1..])
  }

  function FrameEvents(frame: Text): seq<Event> {
    LineEvents(Lines(frame))
  }

  function AllEvents(frames: seq<Text>): seq<Event> {
    if frames == [] then [] else FrameEvents(frames[0]) + AllEvents(frames[1..])
  }

  lemma {:induction false} LineEventsAppend(a: seq<Text>, b: seq<Text>)
    ensures LineEvents(a + b) == LineEvents(a) + LineEvents(b)
  {
    hide ReadLine;
    if a == [] {
      assert a + b == b;
    } else {
      assert (a + b)[1..] == a[1..] + b;
      LineEventsAppend(a[1..], b);
      Regroup(LineEvents([a[0]]), LineEvents(a[1..]), LineEvents(b));
    }
  }

  lemma {:induction false} AllEventsAppend(a: seq<Text>, b: seq<Text>)
    ensures AllEvents(a + b) == AllEvents(a) + AllEvents(b)
  {
    hide FrameEvents;
    if a == [] {
      assert a + b == b;
    } else {
      assert (a + b)[1..] == a[1..] + b;
      AllEventsAppend(a[1..], b);
      Regroup(FrameEvents(a[0]), AllEvents(a[1..]), AllEvents(b));
    }
  }

  // ---- what events do ----

  /** The content of the first choice's delta in a payload, if it parses and has one. */
  type Decoder = Text -> Option<Text>

  datatype Drained = Drained(deltas: seq<Text>, lastData: Text, done: bool)

  const NOTHING: Drained := Drained([], [], false)

  function Delta(data: Text, decode: Decoder): seq<Text> {
    match decode(data)
    case None => []
    case Some(content) => if Utf8.ToValid(content) == [] then [] else [Utf8.ToValid(content)]
  }

  function OnEvent(st: Drained, e: Event, decode: Decoder): Drained {
    match e
    case Finished => st.(done := true)
    case Payload(data) => st.(deltas := st.deltas + Delta(data, decode), lastData := data)
  }

  function OnEvents(st: Drained, es: seq<Event>, decode: Decoder): Drained
    decreases es
  {
    if es == [] then st else OnEvents(OnEvent(st, es[0], decode), es[1..], decode)
  }

  function OnLine(st: Drained, line: Text, decode: Decoder): Drained {
    match ReadLine(line)
    case None => st
    case Some(e) => OnEvent(st, e, decode)
  }

  lemma {:induction false} OnEventsAppend(st: Drained, a: seq<Event>, b: seq<Event>, decode: Decoder)
    ensures OnEvents(st, a + b, decode) == OnEvents(OnEvents(st, a, decode), b, decode)
    decreases a
  {
    if a == [] {
      assert a + b == b;
    } else {
      assert (a + b)[1..] == a[1..] + b;
      OnEventsAppend(OnEvent(st, a[0], decode), a[1..], b, decode);
    }
  }

  function OnLines(st: Drained, lines: seq<Text>, decode: Decoder): Drained {
    OnEvents(st, LineEvents(lines), decode)
  }

  lemma LastLine(st: Drained, lines: seq<Text>, n: nat, decode: Decoder)
    requires n < |lines|
    ensures OnLines(st, lines[..n + 1], decode) == OnLine(OnLines(st, lines[..n], decode), lines[n], decode)
  {
    assert lines[..n + 1] == lines[..n] + [lines[n]];
    LineEventsAppend(lines[..n], [lines[n]]);
    OnEventsAppend(st, LineEvents(lines[..n]), LineEvents([lines[n]]), decode);
    assert LineEvents([lines[n]]) == match ReadLine(lines[n]) case None => [] case Some(e) => [e];
  }

  lemma {:induction false} DoneIffFinished(st: Drained, es: seq<Event>, decode: Decoder)
    ensures OnEvents(st, es, decode).done <==> st.done || Finished in es
    decreases es
  {
    if es != [] {
      DoneIffFinished(OnEvent(st, es[0], decode), es[1..], decode);
      assert es == [es[0]] + es[1..];
    }
  }

  // ---- a drainer fed chunk by chunk ----

  datatype Feeding = Feeding(st: Drained, buf: Text)

  const START: Feeding := Feeding(NOTHING, [])

  function Fed(v: Feeding, chunk: Text, decode: Decoder): Feeding {
    var c := CutFrames(v.buf + chunk);
    Feeding(OnEvents(v.st, AllEvents(c.frames), decode), c.rest)
  }

  function FedAll(v: Feeding, chunks: seq<Text>, decode: Decoder): Feeding
    decreases chunks
  {
    if chunks == [] then v else FedAll(Fed(v, chunks[0], decode), chunks[1..], decode)
  }

  function Flushed(v: Feeding, decode: Decoder): Feeding {
    if v.buf == [] then v else Feeding(OnEvents(v.st, FrameEvents(v.buf), decode), [])
  }

  lemma OnFramesAppend(st: Drained, a: seq<Text>, b: seq<Text>, decode: Decoder)
    ensures OnEvents(st, AllEvents(a + b), decode)
         == OnEvents(OnEvents(st, AllEvents(a), decode), AllEvents(b), decode)
  {
    AllEventsAppend(a, b);
    OnEventsAppend(st, AllEvents(a), AllEvents(b), decode);
  }

  lemma FedTwice(v: Feeding, a: Text, b: Text, decode: Decoder)
    ensures Fed(Fed(v, a, decode), b, decode) == Fed(v, a + b, decode)
  {
    var whole := v.buf + (a + b);
    assert v.buf + a + b == whole;
    CutInTwo(v.buf + a, b);
    var c := CutFrames(v.buf + a);
    OnFramesAppend(v.st, c.frames, CutFrames(c.rest + b).frames, decode);
  }

  lemma {:induction false} FedAllIsFedOnce(v: Feeding, chunks: seq<Text>, decode: Decoder)
    requires Index(v.buf, BLANK_LINE) < 0
    ensures FedAll(v, chunks, decode) == Fed(v, Concat(chunks), decode)
    decreases chunks
  {
    if chunks == [] {
      assert v.buf + [] == v.buf;
    } else {
      CutIsComplete(v.buf + chunks[0]);
      FedAllIsFedOnce(Fed(v, chunks[0], decode), chunks[1..], decode);
      FedTwice(v, chunks[0], Concat(chunks[1..]), decode);
    }
  }

  /** However a byte stream is cut into chunks, feeding them gives the same deltas in the same order,
      the same last payload, the same done flag and the same carried buffer. */
  lemma ChunkIndependence(chunks: seq<Text>, others: seq<Text>, decode: Decoder)
    requires Concat(chunks) == Concat(others)
    ensures FedAll(START, chunks, decode) == FedAll(START, others, decode)
    ensures Flushed(FedAll(START, chunks, decode), decode) == Flushed(FedAll(START, others, decode), decode)
  {
    FedAllIsFedOnce(START, chunks, decode);
    FedAllIsFedOnce(START, others, decode);
  }
}
