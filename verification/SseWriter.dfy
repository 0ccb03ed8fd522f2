/** The printing side of the wire format (internal/stream/sse.go), and that the drainer reads back
    what it prints, whatever the chunking. */
module SseWriter {
  import opened Wrappers
  import opened Bytes
  import opened SseStream
  import opened SseDrainer

  const EVENT_FIELD: Text := [101, 118, 101, 110, 116, 58, 32]  // event:
  const DATA_FIELD: Text := DATA + [32]
  const EVENT_DONE: Text := [100, 111, 110, 101]                // done

  /** What `Emit` is handed: a string, or some other value. */
  datatype Value = Str(s: Text) | Other(id: nat)

  datatype Emission = Emission(event: Text, payload: Text)

  function FrameOf(e: Emission): Text {
    EVENT_FIELD + e.event + [LF] + DATA_FIELD + e.payload
  }

  function Printed(es: seq<Emission>): Text {
    if es == [] then [] else FrameOf(es[0]) + BLANK_LINE + Printed(es[1..])
  }

  /** `Writer`. `out` is what the connection has accepted. */
  class Writer {
    var out: Text

    constructor ()
      ensures out == []
    {
      out := [];
    }

    /** `Emit`. `marshal` is `json.Marshal`; `accepted` is how many bytes the connection takes.
        A payload that cannot be marshalled writes nothing. */
    method Emit(event: Text, data: Value, marshal: Value -> Option<Text>, accepted: nat) returns (ok: bool)
      modifies this
      ensures var payload := if data.Str? && event == EVENT_DONE then Some(data.s) else marshal(data);
        && (ok <==> payload.Some? && accepted >= |Printed([Emission(event, payload.value)])|)
        && (ok ==> out == old(out) + Printed([Emission(event, payload.value)]))
        && (payload.None? ==> out == old(out))
        && (payload.Some? && !ok ==> out == old(out) + Printed([Emission(event, payload.value)])[..accepted])
        && (ok ==> forall es :: old(out) == Printed(es) ==> out == Printed(es + [Emission(event, payload.value)]))
    {
      var payload;
      if data.Str? && event == EVENT_DONE {
        payload := data.s;
      } else {
        match marshal(data) {
          case None => return false;
          case Some(raw) => payload := raw;
        }
      }
      var frame := FrameOf(Emission(event, payload)) + BLANK_LINE;
      assert Printed([Emission(event, payload)]) == frame;
      if accepted < |frame| {
        out := out + frame[..accepted];
        return false;
      }
      ghost var before := out;
      out := out + frame;
      forall es | before == Printed(es) ensures out == Printed(es + [Emission(event, payload)]) {
        PrintedTogether(es, [Emission(event, payload)]);
      }
      return true;
    }
  }

  /** Printing one event after another is printing the sequence. */
  lemma {:induction false} PrintedTogether(a: seq<Emission>, b: seq<Emission>)
    ensures Printed(a + b) == Printed(a) + Printed(b)
  {
    hide FrameOf;
    if a == [] {
      assert a + b == b && Printed(a) + Printed(b) == Printed(b);
    } else {
      assert (a + b)[1..] == a[1..] + b;
      PrintedTogether(a[1..], b);
      Regroup(FrameOf(a[0]) + BLANK_LINE, Printed(a[1..]), Printed(b));
    }
  }

  // ---- reading back ----

  predicate OneLine(t: Text) {
    forall i | 0 <= i < |t| :: t[i] != LF
  }

  /** An event name and a payload without newlines, and no white space around the payload. */
  predicate Clean(e: Emission) {
    OneLine(e.event) && OneLine(e.payload) && Trimmed(e.payload)
  }

  function EventOf(e: Emission): Event {
    if e.payload == DONE then Finished else Payload(e.payload)
  }

  function EventsOf(es: seq<Emission>): seq<Event> {
    seq(|es|, i requires 0 <= i < |es| => EventOf(es[i]))
  }

  function FramesOf(es: seq<Emission>): seq<Text> {
    if es == [] then [] else [FrameOf(es[0])] + FramesOf(es[1..])
  }

  lemma {:induction false} PrintedIsTerminated(es: seq<Emission>)
    ensures Printed(es) == Terminated(FramesOf(es))
  {
    if es != [] {
      PrintedIsTerminated(es[1..]);
      assert FramesOf(es)[1..] == FramesOf(es[1..]);
    }
  }

  /** The only newline of a printed frame ends its first line. */
  lemma FrameNewline(e: Emission)
    requires Clean(e)
    ensures var f, m := FrameOf(e), |EVENT_FIELD| + |e.event|;
      && m + 1 < |f|
      && f[..m] == EVENT_FIELD + e.event
      && f[m + 1..] == DATA_FIELD + e.payload
      && (forall i | 0 <= i < |f| :: f[i] == LF <==> i == m)
      && f[m + 1] != LF
  {
    var f, head, tail := FrameOf(e), EVENT_FIELD + e.event, DATA_FIELD + e.payload;
    assert f == head + [LF] + tail;
    assert forall i | 0 <= i < |head| :: f[i] == head[i] && head[i] != LF;
    assert forall i | 0 <= i < |tail| :: f[|head| + 1 + i] == tail[i] && tail[i] != LF;
    forall i | 0 <= i < |f| ensures f[i] == LF <==> i == |head| {
      if i > |head| { assert f[i] == tail[i - |head| - 1]; }
    }
  }

  lemma FrameOfIsFrame(e: Emission)
    requires Clean(e)
    ensures IsFrame(FrameOf(e))
  {
    FrameNewline(e);
    var f := FrameOf(e);
    var s := f + BLANK_LINE;
    assert s[|f|..|f| + 2] == BLANK_LINE;
    forall j | 0 <= j < |f| ensures !OccursAt(s, BLANK_LINE, j) {
      assert s[j..j + 2] == [s[j], s[j + 1]];
    }
    IndexIsFirst(s, BLANK_LINE, |f|);
  }

  lemma SingleLine(t: Text)
    requires OneLine(t)
    ensures Lines(t) == [t]
  {
    forall j ensures !OccursAt(t, [LF], j) {
      if 0 <= j < |t| { assert t[j..j + 1] == [t[j]]; }
    }
  }

  lemma FrameLines(e: Emission)
    requires Clean(e)
    ensures Lines(FrameOf(e)) == [EVENT_FIELD + e.event, DATA_FIELD + e.payload]
  {
    hide Index, FrameOf;
    FrameNewline(e);
    var f, m := FrameOf(e), |EVENT_FIELD| + |e.event|;
    assert f[m..m + 1] == [LF];
    forall j | 0 <= j < m ensures !OccursAt(f, [LF], j) {
      assert f[j..j + 1] == [f[j]];
    }
    IndexIsFirst(f, [LF], m);
    SingleLine(DATA_FIELD + e.payload);
  }

  lemma EventLineIsSilent(event: Text)
    ensures ReadLine(EVENT_FIELD + event) == None
  {
    var l := EVENT_FIELD + event;
    assert l[0] == 101;
    assert TrimLeft(l) == l;
    TrimRightDropsEnd(l);
    var t := TrimSpace(l);
    assert |t| > 0 ==> t[0] == l[0];
  }

  /** Behind text that ends in an ASCII byte, the white space at the end is that of the payload. */
  lemma DataLineTrims(p: Text)
    requires Trimmed(p)
    ensures TrimSpace(DATA_FIELD + p) == if p == [] then DATA else DATA_FIELD + p
  {
    var l := DATA_FIELD + p;
    assert l[0] == 100;
    assert TrimLeft(l) == l;
    if p == [] {
      assert l[..5] == DATA;
      assert TrailingSpace(l) == 1 && TrailingSpace(DATA) == 0;
      assert TrimRight(l) == TrimRight(DATA) == DATA;
    } else {
      assert l[|l| - 1] == p[|p| - 1];
      assert |p| >= 2 ==> l[|l| - 2] == p[|p| - 2];
      assert |p| == 1 ==> l[|l| - 2] == 32 && l[|l| - 3] == 58;
      assert |p| == 2 ==> l[|l| - 3] == 32;
      assert |p| >= 3 ==> l[|l| - 3] == p[|p| - 3];
      assert TrailingSpace(l) == 0;
    }
  }

  lemma DataLineSpeaks(p: Text)
    requires Trimmed(p)
    ensures ReadLine(DATA_FIELD + p) == Some(if p == DONE then Finished else Payload(p))
  {
    DataLineTrims(p);
    var l := TrimSpace(DATA_FIELD + p);
    TrimSpaceTrims(p);
    if p == [] {
      assert l[5..] == [];
    } else {
      assert l[5..] == [32] + p;
      assert ([32] + p)[1..] == p;
      assert TrimLeft([32] + p) == TrimLeft(p);
    }
  }

  lemma FrameSpeaks(e: Emission)
    requires Clean(e)
    ensures FrameEvents(FrameOf(e)) == [EventOf(e)]
  {
    FrameLines(e);
    EventLineIsSilent(e.event);
    DataLineSpeaks(e.payload);
    var lines := Lines(FrameOf(e));
    assert lines[1..] == [DATA_FIELD + e.payload];
    assert LineEvents(lines[1..]) == [EventOf(e)];
  }

  lemma {:induction false} FramesSpeak(es: seq<Emission>)
    requires forall e | e in es :: Clean(e)
    ensures AllEvents(FramesOf(es)) == EventsOf(es)
    ensures forall f | f in FramesOf(es) :: IsFrame(f)
  {
    hide *;
    if es == [] {
      NoEvents(es);
    } else {
      assert es[0] in es;
      FrameSpeaks(es[0]);
      FrameOfIsFrame(es[0]);
      FramesSpeak(es[1..]);
      EventsOfCons(es);
      FramesOfCons(es);
      AllEventsCons(FrameOf(es[0]), FramesOf(es[1..]));
    }
  }

  lemma NoEvents(es: seq<Emission>)
    requires es == []
    ensures FramesOf(es) == [] && AllEvents(FramesOf(es)) == EventsOf(es)
  {
  }

  lemma EventsOfCons(es: seq<Emission>)
    requires es != []
    ensures EventsOf(es) == [EventOf(es[0])] + EventsOf(es[1..])
  {
    hide EventOf;
  }

  lemma FramesOfCons(es: seq<Emission>)
    requires es != []
    ensures FramesOf(es) == [FrameOf(es[0])] + FramesOf(es[1..])
  {
    hide FrameOf;
  }

  lemma AllEventsCons(f: Text, frames: seq<Text>)
    ensures AllEvents([f] + frames) == FrameEvents(f) + AllEvents(frames)
  {
    hide FrameEvents;
    assert ([f] + frames)[1..] == frames;
  }

  /** Printed events fall back into exactly the events that were printed, nothing left over. */
  lemma PrintedCut(es: seq<Emission>)
    requires forall e | e in es :: Clean(e)
    ensures CutFrames(Printed(es)) == Cut(FramesOf(es), [])
    ensures AllEvents(CutFrames(Printed(es)).frames) == EventsOf(es)
  {
    FramesSpeak(es);
    PrintedIsTerminated(es);
    assert Terminated(FramesOf(es)) + [] == Terminated(FramesOf(es));
    CutIsUnique(FramesOf(es), []);
  }

  /** The print/parse round trip: fed in any chunks, the printed events do to the drainer exactly
      what the payloads in order do, and `done` is set iff a `[DONE]` payload was printed. */
  lemma RoundTrip(es: seq<Emission>, chunks: seq<Text>, decode: Decoder)
    requires forall e | e in es :: Clean(e)
    requires Concat(chunks) == Printed(es)
    ensures FedAll(START, chunks, decode) == Feeding(OnEvents(NOTHING, EventsOf(es), decode), [])
    ensures Flushed(FedAll(START, chunks, decode), decode) == FedAll(START, chunks, decode)
    ensures FedAll(START, chunks, decode).st.done <==> exists e :: e in es && e.payload == DONE
  {
    hide EventsOf, Printed, OnEvents, FedAll, Concat, Clean;
    FedAllIsFedOnce(START, chunks, decode);
    assert START.buf + Printed(es) == Printed(es);
    PrintedCut(es);
    DoneIffFinished(NOTHING, EventsOf(es), decode);
    FinishedIsDone(es);
  }

  lemma FinishedIsDone(es: seq<Emission>)
    ensures Finished in EventsOf(es) <==> exists e :: e in es && e.payload == DONE
  {
    if e :| e in es && e.payload == DONE {
      var i :| 0 <= i < |es| && es[i] == e;
      assert EventsOf(es)[i] == Finished;
    }
    if Finished in EventsOf(es) {
      var i :| 0 <= i < |es| && EventsOf(es)[i] == Finished;
      assert es[i] in es && es[i].payload == DONE;
    }
  }

  /** No stray frame hides behind the printed events: a prefix that already shows as many frames as
      were printed is everything that was printed. */
  lemma PrefixWithAllFrames(es: seq<Emission>, front: Text, back: Text)
    requires forall e | e in es :: Clean(e)
    requires front + back == Printed(es)
    requires |CutFrames(front).frames| >= |FramesOf(es)|
    ensures back == []
  {
    PrintedCut(es);
    CutInTwo(front, back);
    var c := CutFrames(front);
    assert c.frames + CutFrames(c.rest + back).frames == FramesOf(es);
    assert c.frames == FramesOf(es);
    CutIsLossless(front);
    CutIsLossless(Printed(es));
    assert |front| == |Terminated(c.frames)| + |c.rest|;
  }

  /** A prefix of what was printed shows the first so many events. */
  lemma PrefixEvents(es: seq<Emission>, front: Text, back: Text)
    requires forall e | e in es :: Clean(e)
    requires front + back == Printed(es)
    ensures |CutFrames(front).frames| <= |es| == |FramesOf(es)|
    ensures AllEvents(CutFrames(front).frames) == EventsOf(es[..|CutFrames(front).frames|])
  {
    PrintedCut(es);
    CutInTwo(front, back);
    var frames := CutFrames(front).frames;
    assert frames == FramesOf(es)[..|frames|];
    FramesPrefix(es, |frames|);
    FramesSpeak(es[..|frames|]);
  }

  lemma LastFinishes(es: seq<Emission>, k: nat)
    requires k <= |es| && forall i | 0 <= i < |es| - 1 :: es[i].payload != DONE
    requires Finished in EventsOf(es[..k])
    ensures k == |es|
  {
    var i :| 0 <= i < k && EventsOf(es[..k])[i] == Finished;
    assert es[i].payload == DONE;
  }

  /** With `[DONE]` printed last and nowhere else, the drainer says done only once everything that
      was printed has been fed. */
  lemma DoneMeansAll(es: seq<Emission>, front: Text, back: Text, decode: Decoder)
    requires forall e | e in es :: Clean(e)
    requires |es| > 0 && forall i | 0 <= i < |es| - 1 :: es[i].payload != DONE
    requires front + back == Printed(es)
    requires Fed(START, front, decode).st.done
    ensures back == []
  {
    hide CutFrames, OnEvents, EventsOf, Printed, AllEvents, Clean, FramesOf;
    assert START.buf + front == front;
    PrefixEvents(es, front, back);
    var k := |CutFrames(front).frames|;
    DoneIffFinished(NOTHING, EventsOf(es[..k]), decode);
    LastFinishes(es, k);
    PrefixWithAllFrames(es, front, back);
  }

  lemma {:induction false} FramesPrefix(es: seq<Emission>, k: nat)
    requires k <= |FramesOf(es)|
    ensures |FramesOf(es)| == |es| && FramesOf(es)[..k] == FramesOf(es[..k])
  {
    if es != [] {
      if k > 0 {
        FramesPrefix(es[1..], k - 1);
        assert es[..k][1..] == es[1..][..k - 1];
      } else {
        FramesPrefix(es[1..], 0);
      }
    }
  }

  lemma DatasSplit(body: seq<Read>, n: nat)
    requires n <= |body|
    ensures Concat(Datas(body)) == Concat(Datas(body[..n])) + Concat(Datas(body[n..]))
    ensures n == |body| ==> body[..n] == body
  {
    assert Datas(body) == Datas(body[..n]) + Datas(body[n..]);
    ConcatAppend(Datas(body[..n]), Datas(body[n..]));
  }

  lemma ReadsMadeTakeAll(es: seq<Emission>, body: seq<Read>, decode: Decoder)
    requires forall e | e in es :: Clean(e)
    requires |es| > 0 && forall i | 0 <= i < |es| - 1 :: es[i].payload != DONE
    requires forall i | 0 <= i < |body| - 1 :: !body[i].err
    requires Concat(Datas(body)) == Printed(es)
    ensures Concat(Datas(body[..ReadsMade(START, body, decode)])) == Printed(es)
  {
    hide CutFrames, OnEvents, Printed, ReadsMade;
    var n := ReadsMade(START, body, decode);
    FedNothing(START, decode);
    assert body[0..] == body && Datas(body[..0]) == [];
    ReadsMadeStops(body, 0, decode);
    DatasSplit(body, n);
    if n < |body| {
      DoneMeansAll(es, Concat(Datas(body[..n])), Concat(Datas(body[n..])), decode);
    }
  }

  /** A response whose `[DONE]` comes last is drained completely, whatever the reads: stopping early
      loses nothing. */
  lemma EarlyExitLosesNothing(es: seq<Emission>, body: seq<Read>, decode: Decoder)
    requires forall e | e in es :: Clean(e)
    requires |es| > 0 && forall i | 0 <= i < |es| - 1 :: es[i].payload != DONE
    requires forall i | 0 <= i < |body| - 1 :: !body[i].err
    requires Concat(Datas(body)) == Printed(es)
    ensures DrainedBody(body, decode) == Feeding(OnEvents(NOTHING, EventsOf(es), decode), [])
  {
    hide CutFrames, OnEvents, Printed, ReadsMade, FedAll, Fed, Flushed, Concat, Clean, EventsOf, Datas;
    ReadsMadeTakeAll(es, body, decode);
    ConcatOne(Printed(es));
    RoundTrip(es, [Printed(es)], decode);
    FedAllIsFedOnce(START, [Printed(es)], decode);
  }

  /** The read loop stops in front of the last read only once the drainer says done. */
  lemma {:induction false} ReadsMadeStops(body: seq<Read>, k: nat, decode: Decoder)
    requires k <= |body|
    requires forall i | 0 <= i < |body| - 1 :: !body[i].err
    ensures var v := Fed(START, Concat(Datas(body[..k])), decode);
      var n := k + ReadsMade(v, body[k..], decode);
      n < |body| ==> Fed(START, Concat(Datas(body[..n])), decode).st.done
    decreases |body| - k
  {
    hide CutFrames, OnEvents, Concat, Fed;
    if k < |body| {
      var v := Fed(START, Concat(Datas(body[..k])), decode);
      FeedOneMore(body, k, decode);
      var next := Fed(v, body[k].data, decode);
      assert body[k..][0] == body[k] && body[k..][1..] == body[k + 1..];
      if !body[k].err && !next.st.done {
        ReadsMadeStops(body, k + 1, decode);
      }
    }
  }
}
