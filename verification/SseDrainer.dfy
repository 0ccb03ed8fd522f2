/** The incremental drainer and its read loop (internal/agent/stream_sse.go, stream.go). */
module SseDrainer {
  import opened Wrappers
  import opened Bytes
  import opened SseStream
  import Utf8
  import StopTokens

  /** `sseDrainer`. `chunks` lists the arguments `onChunk` was called with, in order. */
  class Drainer {
    const decode: Decoder
    var buf: Text
    var acc: Text
    var chunks: seq<Text>
    var lastData: Text
    var done: bool

    /** Between calls the buffer holds no complete frame, and the accumulated text is what
        `onChunk` has been given. */
    ghost predicate Valid()
      reads this
    {
      Index(buf, BLANK_LINE) < 0 && InStep()
    }

    ghost predicate InStep()
      reads this`acc, this`chunks
    {
      acc == Concat(chunks)
    }

    ghost function View(): Feeding
      reads this
    {
      Feeding(Drained(chunks, lastData, done), buf)
    }

    constructor (decode: Decoder)
      ensures Valid() && View() == START && this.decode == decode
    {
      this.decode := decode;
      buf, acc, chunks, lastData, done := [], [], [], [], false;
    }

    method Feed(chunk: Text)
      requires Valid()
      modifies this
      ensures Valid() && View() == Fed(old(View()), chunk, decode)
    {
      buf := buf + chunk;
      ghost var whole := CutFrames(buf);
      var idx := Index(buf, BLANK_LINE);
      while idx >= 0
        invariant idx == Index(buf, BLANK_LINE)
        invariant InStep()
        invariant CutFrames(buf).rest == whole.rest
        invariant OnEvents(View().st, AllEvents(CutFrames(buf).frames), decode)
               == OnEvents(old(View()).st, AllEvents(whole.frames), decode)
        decreases |buf|
      {
        var frame := buf[..idx];
        ghost var left := CutFrames(buf[idx + 2..]).frames;
        OnFramesAppend(View().st, [frame], left, decode);
        assert AllEvents([frame]) == FrameEvents(frame) by { assert FrameEvents(frame) + [] == FrameEvents(frame); }
        buf := buf[idx + 2..];
        ProcessFrame(frame);
        idx := Index(buf, BLANK_LINE);
      }
    }

    method Flush()
      requires Valid()
      modifies this
      ensures Valid() && View() == Flushed(old(View()), decode)
    {
      if |buf| > 0 {
        ProcessFrame(buf);
        buf := [];
      }
    }

    method ProcessFrame(frame: Text)
      requires InStep()
      modifies this`acc, this`chunks, this`lastData, this`done
      ensures InStep()
      ensures View().st == OnEvents(old(View()).st, FrameEvents(frame), decode)
    {
      ghost var before := View().st;
      var lines := Lines(frame);
      assert lines[..0] == [];
      var n := 0;
      while n < |lines|
        invariant 0 <= n <= |lines|
        invariant InStep()
        invariant View().st == OnLines(before, lines[..n], decode)
      {
        LastLine(before, lines, n, decode);
        match ReadLine(lines[n]) {
          case None =>
          case Some(Finished) => done := true;
          case Some(Payload(data)) => Deliver(data);
        }
        n := n + 1;
      }
      assert lines[..n] == lines;
    }

    method Deliver(data: Text)
      requires InStep()
      modifies this`acc, this`chunks, this`lastData
      ensures InStep()
      ensures View().st == OnEvent(old(View()).st, Payload(data), decode)
    {
      lastData := data;
      match decode(data) {
        case None =>
        case Some(content) =>
          var c := Utf8.ToValid(content);
          if c != [] {
            ConcatAppend(chunks, [c]);
            assert Concat([c]) == c;
            acc := acc + c;
            chunks := chunks + [c];
          }
      }
    }
  }

  /** One result of `body.Read`: the bytes it delivered and whether it also reported an error,
      the end of the stream included. */
  datatype Read = Read(data: Text, err: bool)

  /** How many reads the loop makes: it stops after an error and once `[DONE]` has been seen. */
  function ReadsMade(v: Feeding, body: seq<Read>, decode: Decoder): (n: nat)
    ensures n <= |body|
    decreases body
  {
    if body == [] then 0
    else
      var next := Fed(v, body[0].data, decode);
      if body[0].err || next.st.done then 1 else 1 + ReadsMade(next, body[1..], decode)
  }

  function Datas(body: seq<Read>): seq<Text> {
    seq(|body|, i requires 0 <= i < |body| => body[i].data)
  }

  /** What draining a body leaves: everything the reads it made delivered, fed in one piece. */
  function DrainedBody(body: seq<Read>, decode: Decoder): Feeding {
    Flushed(Fed(START, Concat(Datas(body[..ReadsMade(START, body, decode)])), decode), decode)
  }

  /** `drainStream`. The result is a prefix of what `onChunk` was given. */
  method DrainStream(body: seq<Read>, decode: Decoder) returns (text: Text, chunks: seq<Text>)
    requires |body| > 0 && body[|body| - 1].err
    ensures chunks == DrainedBody(body, decode).st.deltas
    ensures text == StopTokens.StripInOrder(Concat(chunks), StopTokens.LLAMA_STOPS)
    ensures text <= Concat(chunks)
  {
    hide Fed, Flushed, ReadsMade, Concat, Datas;
    hide StopTokens.StripInOrder;
    var drainer := new Drainer(decode);
    var n := 0;
    NothingRead(body, decode);
    while true
      invariant 0 <= n < |body|
      invariant fresh(drainer) && drainer.Valid() && drainer.decode == decode
      invariant drainer.View() == Fed(START, Concat(Datas(body[..n])), decode)
      invariant n + ReadsMade(drainer.View(), body[n..], decode) == ReadsMade(START, body, decode)
      decreases |body| - n
    {
      var r := body[n];
      ghost var before := drainer.View();
      FeedOneMore(body, n, decode);
      if |r.data| > 0 {
        drainer.Feed(r.data);
      } else {
        FedNothing(before, decode);
      }
      ReadsUnfold(before, body, n, decode);
      n := n + 1;
      if r.err {
        break;
      }
      if drainer.done {
        break;
      }
    }
    drainer.Flush();
    chunks := drainer.chunks;
    text := StopTokens.StripTemplateLeakage(drainer.acc);
  }

  lemma NothingRead(body: seq<Read>, decode: Decoder)
    ensures body[0..] == body && Fed(START, Concat(Datas(body[..0])), decode) == START
  {
    FedNothing(START, decode);
  }

  lemma ReadsUnfold(v: Feeding, body: seq<Read>, n: nat, decode: Decoder)
    requires n < |body|
    ensures var next := Fed(v, body[n].data, decode);
      ReadsMade(v, body[n..], decode)
        == if body[n].err || next.st.done then 1 else 1 + ReadsMade(next, body[n + 1..], decode)
  {
    hide Fed;
    assert body[n..][1..] == body[n + 1..];
  }

  lemma FeedOneMore(body: seq<Read>, n: nat, decode: Decoder)
    requires n < |body|
    ensures Fed(Fed(START, Concat(Datas(body[..n])), decode), body[n].data, decode)
         == Fed(START, Concat(Datas(body[..n + 1])), decode)
  {
    assert Datas(body[..n + 1]) == Datas(body[..n]) + [body[n].data];
    ConcatAppend(Datas(body[..n]), [body[n].data]);
    assert Concat([body[n].data]) == body[n].data;
    FedTwice(START, Concat(Datas(body[..n])), body[n].data, decode);
  }

  lemma FedNothing(v: Feeding, decode: Decoder)
    requires Index(v.buf, BLANK_LINE) < 0
    ensures Fed(v, [], decode) == v
  {
    assert v.buf + [] == v.buf;
  }
}
