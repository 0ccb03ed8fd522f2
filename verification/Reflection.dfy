/** One reflection pass over the interaction log: the log (internal/history/store.go), the reflector
    (internal/reflect/reflect.go), the pass (internal/reflect/pass.go) and the scheduler's tick
    (internal/reflect/scheduler.go). */
module Reflection {
  import opened Wrappers
  import opened Bytes
  import opened Importance

  datatype Result = Result(episodes: nat, proposed: nat, stored: nat)

  datatype Lesson = Lesson(kind: Text, text: Text, id: Text)

  /** A row of the log: what a run or a caller appended, or the record of a pass. */
  datatype Row =
    | Interaction(source: Text, prompt: Text, final: Text, agents: seq<Entry>)
    | Record(result: Result)

  datatype Error = Unusable | Transient

  const REFLECTION: Text := Ascii("reflection")
  const VALID_KINDS: set<Text> := {Ascii("fact"), Ascii("preference"), Ascii("procedure")}
  const DEFAULT_EPISODE_CHARS := 800
  const NOTHING := Result(0, 0, 0)

  function Source(row: Row): Text {
    match row case Interaction(source, _, _, _) => source case Record(_) => REFLECTION
  }

  /** The rows reflection reads: everything that is not a reflection record. */
  function Episodes(rows: seq<Row>): seq<Row> {
    if rows == [] then []
    else
      var last := rows[|rows| - 1];
      Episodes(rows[..|rows| - 1]) + if Source(last) == REFLECTION then [] else [last]
  }

  function Clamp(cursor: int, len: nat): (c: nat)
    ensures c <= len
    ensures 0 <= cursor <= len ==> c == cursor
  {
    if cursor < 0 then 0 else if cursor > len then len else cursor
  }

  /** The most recent episodes, as many as the cap allows; 0 means all. */
  function Capped(eps: seq<Row>, cap: int): seq<Row> {
    if 0 < cap < |eps| then eps[|eps| - cap..] else eps
  }

  /** The episodes an earlier cap leaves out. */
  function Overflow(eps: seq<Row>, cap: int): seq<Row> {
    if 0 < cap < |eps| then eps[..|eps| - cap] else []
  }

  // ---- the reflector ----

  /** What is outside the model: the digest of an episode and the JSON decoder. */
  datatype Seams = Seams(salient: (Row, int) -> Text, decode: Text -> Option<seq<Lesson>>)

  function EpisodeChars(maxChars: int): int {
    if maxChars <= 0 then DEFAULT_EPISODE_CHARS else maxChars
  }

  function Prompt(eps: seq<Row>, maxChars: int, seams: Seams): Text {
    if eps == [] then []
    else
      Prompt(eps[..|eps| - 1], maxChars, seams) + Ascii("## Episode ") + Decimal(|eps|) + [LF]
      + seams.salient(eps[|eps| - 1], EpisodeChars(maxChars)) + BLANK_LINE
  }

  function LastByte(s: Text, b: Byte): (i: int)
    ensures -1 <= i < |s|
    ensures i >= 0 ==> s[i] == b
    ensures forall j | i < j < |s| :: s[j] != b
  {
    if s == [] then -1 else if s[|s| - 1] == b then |s| - 1 else LastByte(s[..|s| - 1], b)
  }

  /** `parseLessons`: from the first opening to the last closing bracket. */
  function ParseLessons(raw: Text, seams: Seams): Option<seq<Lesson>> {
    var start, end := Index(raw, [91]), LastByte(raw, 93);
    if start < 0 || end < 0 || end < start then None else seams.decode(raw[start..end + 1])
  }

  predicate ValidLesson(l: Lesson) {
    l.kind in VALID_KINDS && TrimSpace(l.text) != []
  }

  /** The lessons that are offered to the sink. */
  function Offered(lessons: seq<Lesson>): seq<Lesson> {
    if lessons == [] then []
    else
      var last := lessons[|lessons| - 1];
      Offered(lessons[..|lessons| - 1])
      + if ValidLesson(last) then [Lesson(last.kind, TrimSpace(last.text), TrimSpace(last.id))] else []
  }

  /** How many of the calls numbered `from` to `from + n - 1` go well. */
  function Successes(ok: nat -> bool, from: nat, n: nat): (k: nat)
    ensures k <= n
  {
    if n == 0 then 0 else Successes(ok, from, n - 1) + if ok(from + n - 1) then 1 else 0
  }

  /** The lessons of a usable completion. */
  function Usable(raw: Text, seams: Seams): Option<seq<Lesson>> {
    if TrimSpace(raw) == [] then None else ParseLessons(raw, seams)
  }

  /** What a completion over `n` episodes comes to when the sink has had `puts` calls before. */
  function Outcome(n: nat, raw: Text, seams: Seams, ok: nat -> bool, puts: nat): Option<Result> {
    match Usable(raw, seams)
    case None => None
    case Some(lessons) => Some(Result(n, |lessons|, Successes(ok, puts, |Offered(lessons)|)))
  }

  /** The language model; `replies` is what it will answer, call by call. */
  class Completer {
    var asked: seq<Text>
    const replies: nat -> Text

    constructor (replies: nat -> Text)
      ensures asked == [] && this.replies == replies
    {
      asked := [];
      this.replies := replies;
    }

    method Complete(user: Text) returns (raw: Text)
      modifies this
      ensures asked == old(asked) + [user] && raw == replies(|old(asked)|)
    {
      raw := replies(|asked|);
      asked := asked + [user];
    }
  }

  /** Declarative memory; `ok` says which calls will go well. */
  class MemorySink {
    var puts: seq<Lesson>
    const ok: nat -> bool

    constructor (ok: nat -> bool)
      ensures puts == [] && this.ok == ok
    {
      puts := [];
      this.ok := ok;
    }

    method Put(l: Lesson) returns (stored: bool)
      modifies this
      ensures puts == old(puts) + [l] && stored == ok(|old(puts)|)
    {
      stored := ok(|puts|);
      puts := puts + [l];
    }
  }

  /** `Reflect`: one completion for a window of episodes, none for an empty one; an error stores
      nothing and never is a transient one. */
  method Reflect(eps: seq<Row>, c: Completer, sink: MemorySink, maxChars: int, seams: Seams)
    returns (res: Result, err: Option<Error>)
    modifies c, sink
    ensures eps == [] ==> res == NOTHING && err == None && c.asked == old(c.asked) && sink.puts == old(sink.puts)
    ensures eps != [] ==>
      var raw := c.replies(|old(c.asked)|);
      var outcome := Outcome(|eps|, raw, seams, sink.ok, |old(sink.puts)|);
      && c.asked == old(c.asked) + [Prompt(eps, maxChars, seams)]
      && res == (match outcome case Some(r) => r case None => Result(|eps|, 0, 0))
      && err == (match outcome case Some(_) => None case None => Some(Unusable))
      && sink.puts == old(sink.puts) + (match Usable(raw, seams) case Some(ls) => Offered(ls) case None => [])
  {
    hide TrimSpace, Index, LastByte, Decimal, Ascii;
    res := Result(|eps|, 0, 0);
    if |eps| == 0 {
      return res, None;
    }
    var b: Text := [];
    for i := 0 to |eps|
      invariant b == Prompt(eps[..i], maxChars, seams)
    {
      assert eps[..i + 1][..i] == eps[..i];
      b := b + Ascii("## Episode ") + Decimal(i + 1) + [LF] + seams.salient(eps[i], EpisodeChars(maxChars)) + BLANK_LINE;
    }
    assert eps[..|eps|] == eps;
    var raw := c.Complete(b);
    assert sink.puts + [] == sink.puts;
    if TrimSpace(raw) == [] {
      return res, Some(Unusable);
    }
    var parsed := ParseLessons(raw, seams);
    if parsed.None? {
      return res, Some(Unusable);
    }
    res := StoreLessons(res, parsed.value, sink);
    return res, None;
  }

  /** The loop of `Reflect` that hands the valid lessons to the sink. */
  method StoreLessons(before: Result, lessons: seq<Lesson>, sink: MemorySink) returns (res: Result)
    requires before.stored == 0
    modifies sink
    ensures sink.puts == old(sink.puts) + Offered(lessons)
    ensures res == Result(before.episodes, |lessons|, Successes(sink.ok, |old(sink.puts)|, |Offered(lessons)|))
  {
    hide TrimSpace, ValidLesson;
    res := before.(proposed := |lessons|);
    ghost var from := |sink.puts|;
    for i := 0 to |lessons|
      invariant sink.puts == old(sink.puts) + Offered(lessons[..i])
      invariant res == Result(before.episodes, |lessons|, Successes(sink.ok, from, |Offered(lessons[..i])|))
    {
      var l := lessons[i];
      assert lessons[..i + 1][..i] == lessons[..i];
      assert Offered(lessons[..i]) + [] == Offered(lessons[..i]);
      if !ValidLesson(l) {
        continue;
      }
      var stored := sink.Put(Lesson(l.kind, TrimSpace(l.text), TrimSpace(l.id)));
      if !stored {
        continue;
      }
      res := res.(stored := res.stored + 1);
    }
    assert lessons[..|lessons|] == lessons;
  }

  // ---- the log and the pass ----

  /** `history.Store`. `persists` says which appends reach the disk; memory keeps them all. */
  class History {
    var rows: seq<Row>
    const persists: nat -> bool

    constructor (rows: seq<Row>, persists: nat -> bool)
      ensures this.rows == rows && this.persists == persists
    {
      this.rows := rows;
      this.persists := persists;
    }

    method Since(cursor: int) returns (out: seq<Row>, next: nat)
      ensures out == rows[Clamp(cursor, |rows|)..] && next == |rows|
    {
      var from := cursor;
      if from < 0 {
        from := 0;
      }
      if from > |rows| {
        from := |rows|;
      }
      return rows[from..], |rows|;
    }

    method Append(entry: Row) returns (ok: bool)
      modifies this
      ensures rows == old(rows) + [entry] && ok == persists(|old(rows)|)
    {
      ok := persists(|rows|);
      rows := rows + [entry];
    }
  }

  method SelectEpisodes(rows: seq<Row>) returns (eps: seq<Row>)
    ensures eps == Episodes(rows)
  {
    eps := [];
    for i := 0 to |rows|
      invariant eps == Episodes(rows[..i])
    {
      assert rows[..i + 1][..i] == rows[..i];
      assert eps + [] == eps;
      if Source(rows[i]) == REFLECTION {
        continue;
      }
      eps := eps + [rows[i]];
    }
    assert rows[..|rows|] == rows;
  }

  /** `Pass`. Whatever the reflector answers, the next cursor is the length of the log that was read,
      so no window comes back to wedge the pass. */
  method Pass(src: History, cursor: int, c: Completer, sink: MemorySink, cap: int, maxChars: int, seams: Seams)
    returns (res: Result, next: int, err: Option<Error>)
    modifies src, c, sink
    ensures next == |old(src.rows)|
    ensures var eps := Episodes(old(src.rows)[Clamp(cursor, |old(src.rows)|)..]);
      if eps == [] then
        res == NOTHING && err == None && src.rows == old(src.rows) && c.asked == old(c.asked) && sink.puts == old(sink.puts)
      else
        var window := Capped(eps, cap);
        var outcome := Outcome(|window|, c.replies(|old(c.asked)|), seams, sink.ok, |old(sink.puts)|);
        && c.asked == old(c.asked) + [Prompt(window, maxChars, seams)]
        && src.rows == old(src.rows) + (match outcome case Some(r) => [Record(r)] case None => [])
        && res == (match outcome case Some(r) => r case None => Result(|window|, 0, 0))
        && err == (match outcome case Some(_) => None case None => Some(Unusable))
        && sink.puts == old(sink.puts)
            + (match Usable(c.replies(|old(c.asked)|), seams) case Some(ls) => Offered(ls) case None => [])
  {
    hide Episodes, Prompt, Outcome, Usable, Offered;
    var rows;
    rows, next := src.Since(cursor);
    var eps := SelectEpisodes(rows);
    if |eps| == 0 {
      return NOTHING, next, None;
    }
    if cap > 0 && |eps| > cap {
      eps := eps[|eps| - cap..];
    }
    res, err := Reflect(eps, c, sink, maxChars, seams);
    assert src.rows + [] == src.rows;
    if err.Some? {
      return res, if err.value.Unusable? then next else cursor, err;
    }
    var _ := src.Append(Record(res));
    return res, next, None;
  }
}
