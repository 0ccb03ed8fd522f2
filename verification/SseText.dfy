/** What a printed stream says (internal/stream/sse.go, internal/agent/stream_sse.go, stream.go): the
    text, the callbacks and the last payload, read off the payloads that were printed. */
module SseText {
  import opened Wrappers
  import opened Bytes
  import opened SseStream
  import opened SseDrainer
  import opened SseWriter
  import Utf8
  import StopTokens

  /** `d[i]` is the content of event `i` made valid: nothing for the end of the stream and for a payload
      without any. */
  ghost predicate Say(es: seq<Event>, d: seq<Text>, decode: Decoder) {
    && |d| == |es|
    && forall i | 0 <= i < |es| ::
         match es[i]
         case Finished => d[i] == []
         case Payload(data) => (decode(data) == None ==> d[i] == [])
                               && forall c | decode(data) == Some(c) :: d[i] == Utf8.ToValid(c)
  }

  ghost predicate LastPayload(es: seq<Event>, data: Text) {
    if forall i | 0 <= i < |es| :: es[i].Finished? then data == []
    else exists k | 0 <= k < |es| :: es[k] == Payload(data) && forall j | k < j < |es| :: es[j].Finished?
  }

  lemma OneEventSays(st: Drained, e: Event, t: Text, decode: Decoder)
    requires Say([e], [t], decode)
    ensures OnEvent(st, e, decode).deltas == st.deltas + if t == [] then [] else [t]
    ensures OnEvent(st, e, decode).lastData == match e case Finished => st.lastData case Payload(data) => data
  {
    assert Say([e], [t], decode) ==> [e][0] == e && [t][0] == t;
    assert st.deltas + [] == st.deltas;
  }

  lemma OnOne(st: Drained, e: Event, decode: Decoder)
    ensures OnEvents(st, [e], decode) == OnEvent(st, e, decode)
  {
    assert [e][1..] == [];
  }

  /** Events one after another give the contents that are not empty, in order, and the last payload. */
  lemma {:induction false} EventsSay(es: seq<Event>, d: seq<Text>, decode: Decoder)
    requires Say(es, d, decode)
    ensures OnEvents(NOTHING, es, decode).deltas == NonEmpty(d)
    ensures LastPayload(es, OnEvents(NOTHING, es, decode).lastData)
  {
    hide OnEvent, OnEvents;
    if es == [] {
      OnNone(decode);
    } else {
      var n := |es| - 1;
      var init, e := es[..n], es[n];
      EventsSay(init, d[..n], decode);
      assert es == init + [e];
      OnEventsAppend(NOTHING, init, [e], decode);
      var st := OnEvents(NOTHING, init, decode);
      OnOne(st, e, decode);
      OneEventSays(st, e, d[n], decode);
      LastPayloadOn(init, e, st.lastData);
    }
  }

  lemma OnNone(decode: Decoder)
    ensures OnEvents(NOTHING, [], decode) == NOTHING
  {
  }

  lemma LastPayloadOn(init: seq<Event>, e: Event, data: Text)
    requires LastPayload(init, data)
    ensures LastPayload(init + [e], match e case Finished => data case Payload(more) => more)
  {
    var es := init + [e];
    match e
    case Payload(more) =>
      assert es[|init|] == Payload(more);
    case Finished =>
      assert forall i | 0 <= i < |init| :: es[i] == init[i];
      if k :| 0 <= k < |init| && init[k] == Payload(data) && forall j | k < j < |init| :: init[j].Finished? {
        assert es[k] == Payload(data);
      } else {
        assert forall i | 0 <= i < |init| :: init[i].Finished?;
      }
  }

  // ---- printed events ----

  /** The same of printed payloads, of which `[DONE]` ends the stream. */
  ghost predicate Spells(es: seq<Emission>, d: seq<Text>, decode: Decoder) {
    && |d| == |es|
    && forall i | 0 <= i < |es| ::
         && (es[i].payload == DONE || decode(es[i].payload) == None ==> d[i] == [])
         && (es[i].payload != DONE ==> forall c | decode(es[i].payload) == Some(c) :: d[i] == Utf8.ToValid(c))
  }

  lemma PrintedSay(es: seq<Emission>, d: seq<Text>, decode: Decoder)
    requires Spells(es, d, decode)
    ensures Say(EventsOf(es), d, decode)
  {
    forall i | 0 <= i < |es| ensures EventsOf(es)[i] == EventOf(es[i]) {
    }
  }

  lemma LastOfPrinted(es: seq<Emission>, k: nat, data: Text)
    requires k < |es| && es[k].payload != DONE && forall j | k < j < |es| :: es[j].payload == DONE
    requires LastPayload(EventsOf(es), data)
    ensures data == es[k].payload
  {
    var all := EventsOf(es);
    assert all[k] == Payload(es[k].payload);
    var n :| 0 <= n < |all| && all[n] == Payload(data) && forall j | n < j < |all| :: all[j].Finished?;
    assert n < |es| && all[n] == EventOf(es[n]);
  }

  /** Printed events, fed in any chunks: `onChunk` is given their contents, in the order they were
      printed, without the empty ones. */
  lemma PrintedIsSpoken(es: seq<Emission>, chunks: seq<Text>, d: seq<Text>, decode: Decoder)
    requires forall e | e in es :: Clean(e)
    requires Concat(chunks) == Printed(es) && Spells(es, d, decode)
    ensures var st := FedAll(START, chunks, decode).st;
      && st.deltas == NonEmpty(d) && Concat(st.deltas) == Concat(d)
      && forall k | 0 <= k < |es| && es[k].payload != DONE && (forall j | k < j < |es| :: es[j].payload == DONE) ::
           st.lastData == es[k].payload
  {
    hide EventsOf, Printed, OnEvents, FedAll, Concat, Clean, LastPayload, NonEmpty;
    RoundTrip(es, chunks, decode);
    PrintedSay(es, d, decode);
    EventsSay(EventsOf(es), d, decode);
    NonEmptyKeepsText(d);
    forall k | 0 <= k < |es| && es[k].payload != DONE && (forall j | k < j < |es| :: es[j].payload == DONE)
      ensures OnEvents(NOTHING, EventsOf(es), decode).lastData == es[k].payload
    {
      LastOfPrinted(es, k, OnEvents(NOTHING, EventsOf(es), decode).lastData);
    }
  }

  /** A response that ends in `[DONE]`, drained by any reads: the contents in the order they were printed
      make up the text, which is cut at the first stop token. */
  lemma DrainedIsSpoken(es: seq<Emission>, body: seq<Read>, d: seq<Text>, decode: Decoder) returns (q: nat)
    requires forall e | e in es :: Clean(e)
    requires |es| > 0 && forall i | 0 <= i < |es| - 1 :: es[i].payload != DONE
    requires forall i | 0 <= i < |body| - 1 :: !body[i].err
    requires Concat(Datas(body)) == Printed(es) && Spells(es, d, decode)
    ensures var chunks := DrainedBody(body, decode).st.deltas;
      && chunks == NonEmpty(d) && Concat(chunks) == Concat(d)
      && StopTokens.IsEarliest(Concat(d), StopTokens.LLAMA_STOPS, q)
      && StopTokens.StripInOrder(Concat(chunks), StopTokens.LLAMA_STOPS) == Concat(d)[..q]
  {
    hide EventsOf, Printed, OnEvents, DrainedBody, Concat, Clean, NonEmpty, Datas;
    EarlyExitLosesNothing(es, body, decode);
    PrintedSay(es, d, decode);
    EventsSay(EventsOf(es), d, decode);
    NonEmptyKeepsText(d);
    StopTokens.LlamaStopsSeparated();
    q := StopTokens.StripIsEarliestCut(Concat(d), StopTokens.LLAMA_STOPS);
  }

  /** The usual response: every payload but the last has a content `c[i]`, and the last is `[DONE]`. Then
      the callbacks are exactly those contents, one each, in order. */
  lemma CallbacksAreContents(es: seq<Emission>, body: seq<Read>, c: seq<Text>, decode: Decoder)
    requires forall e | e in es :: Clean(e)
    requires |es| == |c| + 1 && es[|c|].payload == DONE
    requires forall i | 0 <= i < |c| ::
      es[i].payload != DONE && decode(es[i].payload) == Some(c[i]) && c[i] != [] && Utf8.WellFormed(c[i])
    requires forall i | 0 <= i < |body| - 1 :: !body[i].err
    requires Concat(Datas(body)) == Printed(es)
    ensures var st := DrainedBody(body, decode).st;
      && st.deltas == c && st.done
      && (c != [] ==> st.lastData == es[|c| - 1].payload)
  {
    hide EventsOf, Printed, OnEvents, DrainedBody, Concat, Clean, Datas, NonEmpty, Spells;
    UsualSpells(es, c, decode);
    var q := DrainedIsSpoken(es, body, c + [[]], decode);
    NonEmptyEnd(c);
    DrainedEnds(es, body, c + [[]], decode);
  }

  lemma UsualSpells(es: seq<Emission>, c: seq<Text>, decode: Decoder)
    requires |es| == |c| + 1 && es[|c|].payload == DONE
    requires forall i | 0 <= i < |c| :: decode(es[i].payload) == Some(c[i]) && Utf8.WellFormed(c[i])
    requires forall i | 0 <= i < |c| :: es[i].payload != DONE
    ensures Spells(es, c + [[]], decode)
  {
    hide Utf8.WellFormed, Utf8.ToValid;
    forall i | 0 <= i < |c| ensures c[i] == Utf8.ToValid(c[i]) {
      Utf8.ToValidIsWellFormed(c[i]);
    }
  }

  /** Draining a response that ends in `[DONE]` ends with the flag up and the last payload in front of it. */
  lemma DrainedEnds(es: seq<Emission>, body: seq<Read>, d: seq<Text>, decode: Decoder)
    requires forall e | e in es :: Clean(e)
    requires |es| > 0 && (forall i | 0 <= i < |es| - 1 :: es[i].payload != DONE) && es[|es| - 1].payload == DONE
    requires forall i | 0 <= i < |body| - 1 :: !body[i].err
    requires Concat(Datas(body)) == Printed(es) && Spells(es, d, decode)
    ensures var st := DrainedBody(body, decode).st;
      st.done && (|es| > 1 ==> st.lastData == es[|es| - 2].payload)
  {
    hide EventsOf, Printed, OnEvents, DrainedBody, Concat, Clean, Datas, LastPayload, NonEmpty, Spells, Say;
    EarlyExitLosesNothing(es, body, decode);
    PrintedSay(es, d, decode);
    PrintedEnds(es, d, decode);
  }

  lemma PrintedEnds(es: seq<Emission>, d: seq<Text>, decode: Decoder)
    requires |es| > 0 && es[|es| - 1].payload == DONE && forall i | 0 <= i < |es| - 1 :: es[i].payload != DONE
    requires Say(EventsOf(es), d, decode)
    ensures var st := OnEvents(NOTHING, EventsOf(es), decode);
      st.done && (|es| > 1 ==> st.lastData == es[|es| - 2].payload)
  {
    hide EventsOf, OnEvents, LastPayload, NonEmpty, Say;
    EventsSay(EventsOf(es), d, decode);
    assert es[|es| - 1] in es;
    DoneIffFinished(NOTHING, EventsOf(es), decode);
    FinishedIsDone(es);
    if |es| > 1 {
      LastOfPrinted(es, |es| - 2, OnEvents(NOTHING, EventsOf(es), decode).lastData);
    }
  }

  lemma NonEmptyEnd(c: seq<Text>)
    requires forall i | 0 <= i < |c| :: c[i] != []
    ensures NonEmpty(c + [[]]) == c
  {
    assert (c + [[]])[..|c|] == c;
    NonEmptyIsAll(c);
  }

  // ---- when the read loop ends ----

  /** Behind the first `k` reads the loop ends: the last reported an error, or the drainer is done. */
  ghost predicate EndsAfter(v: Feeding, body: seq<Read>, k: nat, decode: Decoder)
    requires 0 < k <= |body|
  {
    body[k - 1].err || FedAll(v, Datas(body[..k]), decode).st.done
  }

  lemma EndsAfterOne(v: Feeding, body: seq<Read>, decode: Decoder)
    requires body != []
    ensures EndsAfter(v, body, 1, decode) <==> body[0].err || Fed(v, body[0].data, decode).st.done
  {
    hide Fed;
    var next := Fed(v, body[0].data, decode);
    assert Datas(body[..1]) == [body[0].data] && [body[0].data][1..] == [];
    assert FedAll(next, [], decode) == next && FedAll(v, [body[0].data], decode) == next;
  }

  lemma EndsAfterMore(v: Feeding, body: seq<Read>, k: nat, decode: Decoder)
    requires 1 < k <= |body|
    ensures EndsAfter(v, body, k, decode) <==> EndsAfter(Fed(v, body[0].data, decode), body[1..], k - 1, decode)
  {
    hide Fed;
    var datas := Datas(body[..k]);
    assert body[1..][..k - 1] == body[1..k];
    assert datas[0] == body[0].data && datas[1..] == Datas(body[1..k]);
    assert FedAll(v, datas, decode) == FedAll(Fed(v, datas[0], decode), datas[1..], decode);
    assert body[k - 1] == body[1..][k - 2];
  }

  /** The loop reads on until a read reports an error or the drainer is done, and not a single time more. */
  lemma {:induction false} ReadsEnd(v: Feeding, body: seq<Read>, decode: Decoder)
    requires body != [] && body[|body| - 1].err
    ensures var n := ReadsMade(v, body, decode);
      && 1 <= n <= |body| && EndsAfter(v, body, n, decode)
      && forall k | 0 < k < n :: !EndsAfter(v, body, k, decode)
    decreases body
  {
    hide Fed, EndsAfter;
    EndsAfterOne(v, body, decode);
    var next := Fed(v, body[0].data, decode);
    if !body[0].err && !next.st.done {
      ReadsEnd(next, body[1..], decode);
      forall k | 1 < k <= |body| ensures EndsAfter(v, body, k, decode) <==> EndsAfter(next, body[1..], k - 1, decode) {
        EndsAfterMore(v, body, k, decode);
      }
    }
  }
}
