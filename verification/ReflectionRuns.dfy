/** Reflection over whole runs: every interleaving of a scheduler's steps with appends by others. */
module ReflectionRuns {
  import opened Wrappers
  import opened Bytes
  import opened Cursor
  import opened Reflection
  import opened ReflectionScheduler

  function Run(s: State, steps: seq<Step>, cap: int): State {
    if steps == [] then s else After(Run(s, steps[..|steps| - 1], cap), steps[|steps| - 1], cap)
  }

  /** A process starts with a log and a cursor into it. */
  function Start(log: seq<Row>, cursor: nat): State {
    State(log, cursor, Idle, [], [])
  }

  /** The rows below the mark are dealt with. */
  function Mark(s: State): int {
    match s.phase
    case Idle => s.cursor
    case Reflecting(_, w) => w.from
    case Recording(_, next, _) => next
    case Saving(_, next) => next
  }

  /** The cursor file can be read and written whenever it is. */
  predicate CursorHolds(steps: seq<Step>) {
    forall step | step in steps :: (step.Read? ==> step.readable) && (step.Save? ==> step.write.Done?)
  }

  /** What went through the reflector, with or without what the cap dropped. */
  function Taken(ws: seq<Window>): seq<Row> {
    if ws == [] then [] else Taken(ws[..|ws| - 1]) + (ws[|ws| - 1].dropped + ws[|ws| - 1].sent)
  }

  function Sent(ws: seq<Window>): seq<Row> {
    if ws == [] then [] else Sent(ws[..|ws| - 1]) + ws[|ws| - 1].sent
  }

  predicate NothingDropped(ws: seq<Window>) {
    forall w | w in ws :: w.dropped == []
  }

  function OutsideRows(steps: seq<Step>): seq<Row> {
    if steps == [] then []
    else
      var last := steps[|steps| - 1];
      OutsideRows(steps[..|steps| - 1]) + if last.Outside? then [last.row] else []
  }

  // ---- episodes ----

  lemma {:induction false} EpisodesAppend(a: seq<Row>, b: seq<Row>)
    ensures Episodes(a + b) == Episodes(a) + Episodes(b)
  {
    if b == [] {
      assert a + b == a && Episodes(a) + Episodes(b) == Episodes(a);
    } else {
      var init := b[..|b| - 1];
      assert (a + b)[..|a + b| - 1] == a + init;
      EpisodesAppend(a, init);
      Regroup(Episodes(a), Episodes(init), if Source(b[|b| - 1]) == REFLECTION then [] else [b[|b| - 1]]);
    }
  }

  lemma EpisodesSplit(log: seq<Row>, a: nat, b: nat, c: nat)
    requires a <= b <= c <= |log|
    ensures Episodes(log[a..c]) == Episodes(log[a..b]) + Episodes(log[b..c])
  {
    assert log[a..c] == log[a..b] + log[b..c];
    EpisodesAppend(log[a..b], log[b..c]);
  }

  lemma {:induction false} EpisodeKept(rows: seq<Row>, i: nat)
    requires i < |rows| && Source(rows[i]) != REFLECTION
    ensures rows[i] in Episodes(rows)
  {
    if i < |rows| - 1 {
      EpisodeKept(rows[..|rows| - 1], i);
    }
  }

  lemma CapSplits(eps: seq<Row>, cap: int)
    ensures Overflow(eps, cap) + Capped(eps, cap) == eps
    ensures eps != [] ==> Capped(eps, cap) != []
    ensures Overflow(eps, cap) == [] <==> cap <= 0 || |eps| <= cap
  {
  }

  // ---- the invariant that holds whatever the cursor file does ----

  ghost predicate WindowFits(w: Window, log: seq<Row>) {
    && w.from <= w.next <= |log|
    && w.dropped + w.sent == Episodes(log[w.from..w.next])
    && w.sent != []
  }

  ghost predicate Covered(ws: seq<Window>, i: nat) {
    exists w | w in ws :: w.from <= i < w.next
  }

  /** Rows that are not records, from `c0` up to the mark, went through some window. */
  ghost predicate NoneMissed(s: State, c0: nat, upTo: int) {
    forall i: nat | c0 <= i < upTo && i < |s.log| && Source(s.log[i]) != REFLECTION :: Covered(s.windows, i)
  }

  ghost predicate PhaseFits(s: State) {
    match s.phase
    case Idle => true
    case Reflecting(loaded, w) => loaded == w.from <= s.cursor <= w.next && WindowFits(w, s.log)
    case Recording(loaded, next, _) => loaded <= s.cursor <= next <= |s.log|
    case Saving(loaded, next) => loaded <= s.cursor <= next <= |s.log|
  }

  ghost predicate Steady(s: State, c0: nat) {
    && s.cursor <= |s.log|
    && PhaseFits(s)
    && (forall w | w in s.windows :: WindowFits(w, s.log))
    && NoneMissed(s, c0, s.cursor) && NoneMissed(s, c0, Mark(s))
  }

  lemma LogGrows(s: State, row: Row, w: Window)
    requires WindowFits(w, s.log)
    ensures WindowFits(w, s.log + [row])
  {
    assert (s.log + [row])[w.from..w.next] == s.log[w.from..w.next];
  }

  lemma AppendKeepsSteady(s: State, row: Row, c0: nat, phase: Phase)
    requires Steady(s, c0)
    requires phase == s.phase || (s.phase.Recording? && phase == Saving(s.phase.loaded, s.phase.next))
    ensures Steady(s.(log := s.log + [row], phase := phase), c0)
  {
    hide Episodes;
    forall w | WindowFits(w, s.log) ensures WindowFits(w, s.log + [row]) {
      LogGrows(s, row, w);
    }
  }

  lemma ReadFits(log: seq<Row>, loaded: nat, cap: int)
    requires loaded <= |log|
    ensures var w := WindowOf(log, loaded, cap);
      && w.from == loaded && w.next == |log|
      && (Episodes(log[loaded..]) != [] ==> WindowFits(w, log))
  {
    CapSplits(Episodes(log[loaded..]), cap);
    assert log[loaded..] == log[loaded..|log|];
  }

  lemma ReadKeepsSteady(s: State, c0: nat, readable: bool, cap: int)
    requires Steady(s, c0)
    ensures Steady(After(s, Read(readable), cap), c0)
  {
    hide Episodes, WindowOf, WindowFits;
    if s.phase.Idle? {
      var loaded := LoadedFrom(s.cursor, readable);
      ReadFits(s.log, loaded, cap);
      if Episodes(s.log[loaded..]) == [] {
        forall i: nat | loaded <= i < |s.log| ensures Source(s.log[i]) == REFLECTION {
          if Source(s.log[i]) != REFLECTION {
            EpisodeKept(s.log[loaded..], i - loaded);
          }
        }
      }
    }
  }

  lemma CompleteKeepsSteady(s: State, c0: nat, answer: Answer, cap: int)
    requires Steady(s, c0)
    ensures Steady(After(s, Complete(answer), cap), c0)
  {
    hide Episodes;
    if s.phase.Reflecting? {
      var w := s.phase.window;
      var t := After(s, Complete(answer), cap);
      assert w in t.windows;
      forall i: nat | Covered(s.windows, i) ensures Covered(t.windows, i) {
        var v :| v in s.windows && v.from <= i < v.next;
        assert v in t.windows;
      }
    }
  }

  lemma StepKeepsSteady(s: State, step: Step, c0: nat, cap: int)
    requires Steady(s, c0)
    ensures Steady(After(s, step, cap), c0)
  {
    hide Episodes, WindowFits, WindowOf;
    match step
    case Outside(row) => AppendKeepsSteady(s, row, c0, s.phase);
    case Read(readable) => ReadKeepsSteady(s, c0, readable, cap);
    case Complete(answer) => CompleteKeepsSteady(s, c0, answer, cap);
    case AppendRecord =>
      if s.phase.Recording? {
        AppendKeepsSteady(s, Record(s.phase.result), c0, Saving(s.phase.loaded, s.phase.next));
      }
    case Save(write) =>
      if s.phase.Saving? {
        CursorReadsBack(s.cursor, s.phase.next, write);
      }
  }

  lemma {:induction false} RunIsSteady(log0: seq<Row>, c0: nat, steps: seq<Step>, cap: int)
    requires c0 <= |log0|
    ensures Steady(Run(Start(log0, c0), steps, cap), c0)
  {
    hide Steady, After;
    if steps == [] {
      StartIsSteady(log0, c0);
    } else {
      RunIsSteady(log0, c0, steps[..|steps| - 1], cap);
      StepKeepsSteady(Run(Start(log0, c0), steps[..|steps| - 1], cap), steps[|steps| - 1], c0, cap);
    }
  }

  lemma StartIsSteady(log0: seq<Row>, c0: nat)
    requires c0 <= |log0|
    ensures Steady(Start(log0, c0), c0)
  {
  }

  lemma InWindow(log: seq<Row>, w: Window, i: nat)
    requires WindowFits(w, log) && w.from <= i < w.next && Source(log[i]) != REFLECTION
    ensures log[i] in w.dropped + w.sent
    ensures w.dropped == [] ==> log[i] in w.sent
  {
    hide Episodes, Source;
    var part := log[w.from..w.next];
    assert part[i - w.from] == log[i];
    EpisodeKept(part, i - w.from);
    if w.dropped == [] {
      assert [] + w.sent == w.sent;
    }
  }

  lemma CoveredBySome(s: State, c0: nat, cap: int, i: nat) returns (w: Window)
    requires Steady(s, c0) && (cap <= 0 ==> CapOff(s))
    requires c0 <= i < s.cursor && Source(s.log[i]) != REFLECTION
    ensures w in s.windows && w.from <= i < w.next <= |s.log|
    ensures s.log[i] in (if cap <= 0 then w.sent else w.dropped + w.sent)
  {
    hide Episodes, Source, PhaseFits;
    assert Covered(s.windows, i);
    w :| w in s.windows && w.from <= i < w.next;
    InWindow(s.log, w, i);
  }

  /** Even if the cursor file fails to be read or written: the persisted cursor only ever covers rows that went through a window, and
      without a cap every one of them was sent. */
  lemma NoEpisodeIsMissed(log0: seq<Row>, c0: nat, steps: seq<Step>, cap: int, i: nat)
    requires c0 <= |log0|
    ensures var s := Run(Start(log0, c0), steps, cap);
      && s.cursor <= |s.log|
      && (c0 <= i < s.cursor && Source(s.log[i]) != REFLECTION ==>
            exists w | w in s.windows :: w.from <= i < w.next
              && s.log[i] in (if cap <= 0 then w.sent else w.dropped + w.sent))
  {
    hide Episodes, Run, CapOff, NoneMissed, PhaseFits;
    var s := Run(Start(log0, c0), steps, cap);
    RunIsSteady(log0, c0, steps, cap);
    if cap <= 0 {
      StartsEmpty(log0, c0);
      NoCapDropsNothing(Start(log0, c0), steps, cap);
    }
    if c0 <= i < s.cursor && Source(s.log[i]) != REFLECTION {
      var w := CoveredBySome(s, c0, cap, i);
    }
  }

  // ---- the ledger: what was taken, and what is taken again ----

  /** The episodes below a place in the log. */
  function Below(log: seq<Row>, i: int): seq<Row>
    requires 0 <= i <= |log|
  {
    Episodes(log[..i])
  }

  /** How many episodes a step moves the mark back over: those below the cursor when it cannot be read,
      and those above the cursor that a write leaves in the file. */
  function Rollback(s: State, step: Step): nat {
    match step
    case Read(readable) =>
      if s.phase.Idle? && !readable && s.cursor <= |s.log| then |Below(s.log, s.cursor)| else 0
    case Save(write) =>
      if !s.phase.Saving? then 0
      else
        var left, next := Saved(s.cursor, s.phase.loaded, s.phase.next, write), s.phase.next;
        if left <= next <= |s.log| then |Episodes(s.log[left..next])| else 0
    case _ => 0
  }

  /** All that the steps of a run move the mark back over. */
  function Repeated(s0: State, steps: seq<Step>, cap: int): nat {
    if steps == [] then 0
    else
      var init := steps[..|steps| - 1];
      Repeated(s0, init, cap) + Rollback(Run(s0, init, cap), steps[|steps| - 1])
  }

  ghost predicate Accounted(s: State, c0: nat, repeated: nat) {
    && c0 <= |s.log| && 0 <= Mark(s) <= |s.log|
    && |Below(s.log, c0)| + |Taken(s.windows)| == |Below(s.log, Mark(s))| + repeated
    && (repeated == 0 ==> Below(s.log, c0) + Taken(s.windows) == Below(s.log, Mark(s)))
  }

  lemma BelowSplits(log: seq<Row>, a: nat, b: nat)
    requires a <= b <= |log|
    ensures Below(log, b) == Below(log, a) + Episodes(log[a..b])
  {
    EpisodesSplit(log, 0, a, b);
    assert log[0..a] == log[..a] && log[0..b] == log[..b];
  }

  lemma BelowStays(log: seq<Row>, more: seq<Row>, i: nat)
    requires i <= |log|
    ensures Below(log + more, i) == Below(log, i)
  {
    assert (log + more)[..i] == log[..i];
  }

  lemma AppendAccounts(s: State, c0: nat, n: nat, row: Row, phase: Phase)
    requires Accounted(s, c0, n)
    requires phase == s.phase || (s.phase.Recording? && phase == Saving(s.phase.loaded, s.phase.next))
    ensures Accounted(s.(log := s.log + [row], phase := phase), c0, n)
  {
    hide Below, Taken;
    BelowStays(s.log, [row], c0);
    BelowStays(s.log, [row], Mark(s));
  }

  lemma ReadAccounts(s: State, c0: nat, n: nat, readable: bool, cap: int)
    requires s.cursor <= |s.log| && Accounted(s, c0, n)
    ensures Accounted(After(s, Read(readable), cap), c0, n + Rollback(s, Read(readable)))
  {
    hide Episodes, Taken, WindowOf;
    if s.phase.Idle? {
      var loaded := LoadedFrom(s.cursor, readable);
      ReadFits(s.log, loaded, cap);
      assert s.log[loaded..] == s.log[loaded..|s.log|];
      NothingBelow(s.log);
      BelowSplits(s.log, loaded, s.cursor);
      BelowSplits(s.log, loaded, |s.log|);
      BelowSplits(s.log, s.cursor, |s.log|);
    }
  }

  lemma NothingBelow(log: seq<Row>)
    ensures Below(log, 0) == []
  {
  }

  lemma TakenMore(ws: seq<Window>, w: Window)
    ensures Taken(ws + [w]) == Taken(ws) + (w.dropped + w.sent)
  {
    assert (ws + [w])[..|ws|] == ws;
  }

  lemma CompleteAccounts(s: State, c0: nat, n: nat, answer: Answer, cap: int)
    requires PhaseFits(s) && Accounted(s, c0, n)
    ensures Accounted(After(s, Complete(answer), cap), c0, n)
  {
    hide Episodes, Below, Taken;
    if s.phase.Reflecting? {
      var w := s.phase.window;
      TakenMore(s.windows, w);
      BelowSplits(s.log, w.from, w.next);
      Regroup(Below(s.log, c0), Taken(s.windows), w.dropped + w.sent);
    }
  }

  lemma SavedIsBehind(cursor: nat, loaded: nat, next: nat, write: Write)
    requires loaded <= cursor <= next
    ensures Saved(cursor, loaded, next, write) <= next
    ensures write.Done? ==> Saved(cursor, loaded, next, write) == next
  {
    hide CursorAfter;
    CursorReadsBack(cursor, next, write);
    assert write.Untouched? ==> CursorAfter(cursor, next, write) == cursor by {
      UntouchedStays(cursor, next, write);
    }
  }

  lemma UntouchedStays(before: nat, cursor: nat, w: Write)
    ensures w.Untouched? ==> CursorAfter(before, cursor, w) == before
  {
  }

  lemma SaveAccounts(s: State, c0: nat, n: nat, write: Write, cap: int)
    requires PhaseFits(s) && Accounted(s, c0, n)
    ensures Accounted(After(s, Save(write), cap), c0, n + Rollback(s, Save(write)))
  {
    hide Episodes, Below, Taken, Saved;
    if s.phase.Saving? {
      var next := s.phase.next;
      SavedIsBehind(s.cursor, s.phase.loaded, next, write);
      BelowSplits(s.log, Saved(s.cursor, s.phase.loaded, next, write), next);
    }
  }

  lemma StepAccounts(s: State, step: Step, c0: nat, n: nat, cap: int)
    requires Steady(s, c0) && Accounted(s, c0, n)
    ensures Accounted(After(s, step, cap), c0, n + Rollback(s, step))
  {
    SteadyGives(s, c0);
    hide Episodes, Below, Steady, WindowOf, Accounted, PhaseFits, Saved;
    match step
    case Outside(row) => AppendAccounts(s, c0, n, row, s.phase);
    case Read(readable) => ReadAccounts(s, c0, n, readable, cap);
    case Complete(answer) => CompleteAccounts(s, c0, n, answer, cap);
    case AppendRecord =>
      if s.phase.Recording? {
        AppendAccounts(s, c0, n, Record(s.phase.result), Saving(s.phase.loaded, s.phase.next));
      }
    case Save(write) => SaveAccounts(s, c0, n, write, cap);
  }

  lemma SteadyGives(s: State, c0: nat)
    requires Steady(s, c0)
    ensures s.cursor <= |s.log| && PhaseFits(s)
  {
  }

  lemma {:induction false} RunIsAccounted(log0: seq<Row>, c0: nat, steps: seq<Step>, cap: int)
    requires c0 <= |log0|
    ensures Accounted(Run(Start(log0, c0), steps, cap), c0, Repeated(Start(log0, c0), steps, cap))
  {
    hide Steady, After, Episodes, Rollback;
    if steps != [] {
      var init := steps[..|steps| - 1];
      RunIsAccounted(log0, c0, init, cap);
      RunIsSteady(log0, c0, init, cap);
      StepAccounts(Run(Start(log0, c0), init, cap), steps[|steps| - 1], c0, Repeated(Start(log0, c0), init, cap), cap);
    }
  }

  // ---- exactly once ----

  lemma {:induction false} SentCounts(ws: seq<Window>)
    ensures |Sent(ws)| <= |Taken(ws)|
    ensures |Sent(ws)| == |Taken(ws)| <==> NothingDropped(ws)
    ensures NothingDropped(ws) ==> Sent(ws) == Taken(ws)
  {
    if ws != [] {
      var init, last := ws[..|ws| - 1], ws[|ws| - 1];
      SentCounts(init);
      assert ws == init + [last];
      assert NothingDropped(ws) <==> NothingDropped(init) && last.dropped == [];
      assert last.dropped == [] ==> last.dropped + last.sent == last.sent;
    }
  }

  /** No step of the run moves the mark back over an episode. */
  ghost predicate NothingRolledBack(s0: State, steps: seq<Step>, cap: int) {
    forall i | 0 <= i < |steps| :: Rollback(Run(s0, steps[..i], cap), steps[i]) == 0
  }

  lemma {:induction false} RepeatedIsZeroIff(s0: State, steps: seq<Step>, cap: int)
    ensures Repeated(s0, steps, cap) == 0 <==> NothingRolledBack(s0, steps, cap)
  {
    hide Run, Rollback;
    if steps != [] {
      var init := steps[..|steps| - 1];
      RepeatedIsZeroIff(s0, init, cap);
      assert forall i | 0 <= i < |init| :: steps[..i] == init[..i] && steps[i] == init[i];
    }
  }

  /** Over every interleaving, however the cursor file fails: what went through windows, behind the
      episodes below the first cursor, is as much as there are episodes up to the mark and as the failures
      moved the mark back over; and it is exactly those, each once and in order, if and only if no
      failure moved it back over an episode. */
  lemma TakenIsCounted(log0: seq<Row>, c0: nat, steps: seq<Step>, cap: int)
    requires c0 <= |log0|
    ensures var s0 := Start(log0, c0);
      var s := Run(s0, steps, cap);
      && c0 <= |s.log| && 0 <= Mark(s) <= |s.log|
      && |Below(s.log, c0)| + |Taken(s.windows)| == |Below(s.log, Mark(s))| + Repeated(s0, steps, cap)
      && (Below(s.log, c0) + Taken(s.windows) == Below(s.log, Mark(s)) <==> NothingRolledBack(s0, steps, cap))
  {
    hide Below, Taken, Run, Repeated, NothingRolledBack;
    RunIsAccounted(log0, c0, steps, cap);
    RepeatedIsZeroIff(Start(log0, c0), steps, cap);
  }

  predicate CapOff(s: State) {
    NothingDropped(s.windows) && (s.phase.Reflecting? ==> s.phase.window.dropped == [])
  }

  /** With the cap off nothing is ever dropped. */
  lemma {:induction false} NoCapDropsNothing(s0: State, steps: seq<Step>, cap: int)
    requires cap <= 0 && CapOff(s0)
    ensures CapOff(Run(s0, steps, cap))
  {
    hide Episodes;
    if steps != [] {
      NoCapDropsNothing(s0, steps[..|steps| - 1], cap);
    }
  }

  /** The default configuration, in which the cap is off: the same of the rows the completer was sent.
      Above the first cursor each episode up to the mark was sent exactly once if and only if no failure
      of the cursor file moved the mark back over an episode. */
  lemma ExactlyOnceIff(log0: seq<Row>, c0: nat, steps: seq<Step>, cap: int)
    requires c0 <= |log0| && cap <= 0
    ensures var s0 := Start(log0, c0);
      var s := Run(s0, steps, cap);
      && 0 <= Mark(s) <= |s.log| && c0 <= |s.log|
      && |Below(s.log, c0)| + |Sent(s.windows)| == |Below(s.log, Mark(s))| + Repeated(s0, steps, cap)
      && (Below(s.log, c0) + Sent(s.windows) == Below(s.log, Mark(s)) <==> NothingRolledBack(s0, steps, cap))
      && (c0 <= Mark(s) ==> (Sent(s.windows) == Episodes(s.log[c0..Mark(s)]) <==> NothingRolledBack(s0, steps, cap)))
  {
    hide Episodes, Below, Sent, Taken, Run, Repeated, NothingRolledBack;
    var s := Run(Start(log0, c0), steps, cap);
    StartsEmpty(log0, c0);
    NoCapDropsNothing(Start(log0, c0), steps, cap);
    TakenIsCounted(log0, c0, steps, cap);
    SentCounts(s.windows);
    if c0 <= Mark(s) {
      BelowSplits(s.log, c0, Mark(s));
      SameBehind(Below(s.log, c0), Sent(s.windows), Episodes(s.log[c0..Mark(s)]));
    }
  }

  lemma SameBehind<T>(a: seq<T>, b: seq<T>, c: seq<T>)
    ensures a + b == a + c <==> b == c
  {
    assert (a + b)[|a|..] == b && (a + c)[|a|..] == c;
  }

  lemma StepGoesForward(s: State, step: Step, c0: nat, cap: int)
    requires Steady(s, c0) && c0 <= s.cursor && c0 <= Mark(s)
    requires (step.Read? ==> step.readable) && (step.Save? ==> step.write.Done?)
    ensures var t := After(s, step, cap); c0 <= t.cursor && c0 <= Mark(t)
    ensures Rollback(s, step) == 0
  {
    SteadyGives(s, c0);
    hide Steady, Episodes, WindowOf, Saved, OfferedBy, WindowFits;
    ReadFits(s.log, s.cursor, cap);
    if s.phase.Saving? {
      var next := s.phase.next;
      SavedIsBehind(s.cursor, s.phase.loaded, next, Done);
      NoRowsNoEpisodes();
      assert s.log[next..next] == [];
    }
  }

  lemma {:induction false} NothingGoesBack(log0: seq<Row>, c0: nat, steps: seq<Step>, cap: int)
    requires c0 <= |log0| && CursorHolds(steps)
    ensures var s := Run(Start(log0, c0), steps, cap); c0 <= s.cursor && c0 <= Mark(s)
    ensures Repeated(Start(log0, c0), steps, cap) == 0
  {
    hide Steady, After, Rollback;
    if steps != [] {
      var init, last := steps[..|steps| - 1], steps[|steps| - 1];
      assert last in steps;
      NothingGoesBack(log0, c0, init, cap);
      RunIsSteady(log0, c0, init, cap);
      StepGoesForward(Run(Start(log0, c0), init, cap), last, c0, cap);
    }
  }

  lemma NoRowsNoEpisodes()
    ensures Episodes([]) == []
  {
  }

  /** Over every interleaving in which the cursor file holds, what was dropped and sent, window after
      window, is exactly the episodes of the log up to the mark, in order; so what was sent is exactly
      those, each once, if and only if no window was over the cap. */
  lemma ExactlyOnce(log0: seq<Row>, c0: nat, steps: seq<Step>, cap: int)
    requires c0 <= |log0| && CursorHolds(steps)
    ensures var s := Run(Start(log0, c0), steps, cap);
      && c0 <= Mark(s) <= |s.log|
      && Taken(s.windows) == Episodes(s.log[c0..Mark(s)])
      && (Sent(s.windows) == Episodes(s.log[c0..Mark(s)]) <==> NothingDropped(s.windows))
  {
    hide Episodes, Below, Sent, Taken, Run, Repeated;
    var s := Run(Start(log0, c0), steps, cap);
    NothingGoesBack(log0, c0, steps, cap);
    RunIsAccounted(log0, c0, steps, cap);
    BelowSplits(s.log, c0, Mark(s));
    SameBehind(Below(s.log, c0), Taken(s.windows), Episodes(s.log[c0..Mark(s)]));
    SentCounts(s.windows);
  }

  /** With the cap off too: between ticks the completer has seen exactly the episodes below the cursor, in
      the order of the log, each once. */
  lemma ExactlyOnceWithoutCap(log0: seq<Row>, c0: nat, steps: seq<Step>, cap: int)
    requires c0 <= |log0| && CursorHolds(steps) && cap <= 0
    ensures var s := Run(Start(log0, c0), steps, cap);
      && c0 <= Mark(s) <= |s.log| && (s.phase.Idle? ==> Mark(s) == s.cursor)
      && Sent(s.windows) == Episodes(s.log[c0..Mark(s)])
  {
    hide Episodes, Sent, Taken, Run;
    StartsEmpty(log0, c0);
    NoCapDropsNothing(Start(log0, c0), steps, cap);
    ExactlyOnce(log0, c0, steps, cap);
  }

  lemma StartsEmpty(log0: seq<Row>, c0: nat)
    ensures CapOff(Start(log0, c0))
  {
  }

  /** What a cursor file that fails costs: a tick sends whatever lies above the cursor it read, which is
      the whole log when the file cannot be read, and the next one whatever lies above the cursor that is
      left in the file; with the file untouched that is everything the first one sent. */
  lemma FailedSaveRepeats(s: State, readable: bool, a1: Answer, write: Write, a2: Answer, cap: int)
    requires s.phase.Idle? && s.cursor <= |s.log| && cap <= 0
    ensures var loaded := LoadedFrom(s.cursor, readable);
      var left := Saved(s.cursor, loaded, |s.log|, write);
      && left <= |s.log| && (write.Untouched? ==> left == s.cursor)
      && Sent(Ticked(Ticked(s, readable, a1, write, cap), true, a2, Done, cap).windows)
          == Sent(s.windows) + Episodes(s.log[loaded..]) + Episodes(s.log[left..])
  {
    hide Episodes, Sent, Ticked, Saved;
    var loaded := LoadedFrom(s.cursor, readable);
    SavedIsBehind(s.cursor, loaded, |s.log|, write);
    SavedUntouched(s.cursor, loaded, |s.log|, write);
    TickSends(s, readable, a1, write, cap);
    var t := Ticked(s, readable, a1, write, cap);
    TickSends(t, true, a2, Done, cap);
    RecordsAddNothing(s.log, t.log, t.cursor);
  }

  lemma SavedUntouched(cursor: nat, loaded: nat, next: nat, write: Write)
    ensures write.Untouched? ==> Saved(cursor, loaded, next, write) == cursor
  {
  }

  lemma RecordsAddNothing(log: seq<Row>, grown: seq<Row>, from: nat)
    requires log <= grown && |grown| <= |log| + 1 && (|grown| > |log| ==> grown[|log|].Record?)
    requires from <= |log|
    ensures Episodes(grown[from..]) == Episodes(log[from..])
  {
    hide Episodes;
    var more := grown[|log|..];
    assert grown[from..] == log[from..] + more;
    EpisodesAppend(log[from..], more);
    OnlyRecordsLeft(grown, |log|);
    assert Episodes(log[from..]) + [] == Episodes(log[from..]);
  }

  lemma TickSends(s: State, readable: bool, answer: Answer, write: Write, cap: int)
    requires s.phase.Idle? && s.cursor <= |s.log| && cap <= 0
    ensures var t := Ticked(s, readable, answer, write, cap);
      var loaded := LoadedFrom(s.cursor, readable);
      && Sent(t.windows) == Sent(s.windows) + Episodes(s.log[loaded..])
      && t.phase.Idle? && t.cursor == Saved(s.cursor, loaded, |s.log|, write)
      && s.log <= t.log && |t.log| <= |s.log| + 1 && (|t.log| > |s.log| ==> t.log[|s.log|].Record?)
  {
    hide Episodes, Saved, OfferedBy, ResultOf;
    var t := Ticked(s, readable, answer, write, cap);
    if t.windows != s.windows {
      assert t.windows[..|s.windows|] == s.windows;
    } else {
      assert Sent(s.windows) + [] == Sent(s.windows);
    }
  }

  // ---- no self-feeding ----

  /** The log's episodes are the old ones and the ones others appended; a pass adds none. */
  lemma {:induction false} PassesAddNoEpisodes(s0: State, steps: seq<Step>, cap: int)
    ensures Episodes(Run(s0, steps, cap).log) == Episodes(s0.log) + Episodes(OutsideRows(steps))
    ensures s0.log <= Run(s0, steps, cap).log
  {
    hide Episodes, WindowOf;
    if steps == [] {
      NoRows(s0.log);
    } else {
      var init, last := steps[..|steps| - 1], steps[|steps| - 1];
      PassesAddNoEpisodes(s0, init, cap);
      StepAddsEpisodes(Run(s0, init, cap), last, cap);
      var more := if last.Outside? then [last.row] else [];
      EpisodesAppend(OutsideRows(init), more);
      Regroup(Episodes(s0.log), Episodes(OutsideRows(init)), Episodes(more));
    }
  }

  lemma NoRows(log: seq<Row>)
    ensures Episodes(log) == Episodes(log) + Episodes([])
  {
  }

  lemma StepAddsEpisodes(s: State, step: Step, cap: int)
    ensures var more := if step.Outside? then [step.row] else [];
      Episodes(After(s, step, cap).log) == Episodes(s.log) + Episodes(more)
    ensures s.log <= After(s, step, cap).log
  {
    hide WindowOf, Episodes, Saved;
    if step.Outside? {
      EpisodesAppend(s.log, [step.row]);
    } else if step.AppendRecord? && s.phase.Recording? {
      EpisodesAppend(s.log, [Record(s.phase.result)]);
      RecordsAreNone(s.phase.result);
    } else {
      NoRows(s.log);
    }
  }

  lemma RecordsAreNone(r: Result)
    ensures Episodes([Record(r)]) == [] == Episodes([])
  {
    assert [Record(r)][..0] == [];
  }

  lemma {:induction false} CallsAreEpisodes(ws: seq<Window>)
    requires forall w | w in ws :: w.sent != []
    ensures |ws| <= |Taken(ws)|
  {
    if ws != [] {
      assert ws[|ws| - 1] in ws;
      CallsAreEpisodes(ws[..|ws| - 1]);
    }
  }

  /** The completer is never asked more often than there are episodes: those of the first log from the
      cursor on, those appended since and those that failures of the cursor file brought back, of which
      there are none while it holds. Reflection does not feed on its own records. */
  lemma NoSelfFeeding(log0: seq<Row>, c0: nat, steps: seq<Step>, cap: int)
    requires c0 <= |log0|
    ensures var s0 := Start(log0, c0);
      |Run(s0, steps, cap).windows|
        <= |Episodes(log0[c0..])| + |Episodes(OutsideRows(steps))| + if CursorHolds(steps) then 0 else Repeated(s0, steps, cap)
  {
    hide Episodes, Below, Taken, Run, Mark, Repeated, CursorHolds;
    var s := Run(Start(log0, c0), steps, cap);
    RunIsAccounted(log0, c0, steps, cap);
    if CursorHolds(steps) {
      NothingGoesBack(log0, c0, steps, cap);
    }
    RunIsSteady(log0, c0, steps, cap);
    CallsAreEpisodes(s.windows);
    PassesAddNoEpisodes(Start(log0, c0), steps, cap);
    BelowSplits(s.log, Mark(s), |s.log|);
    BelowSplits(log0, c0, |log0|);
    AllBelow(s.log);
    AllBelow(log0);
    BelowStays(log0, s.log[|log0|..], c0);
    assert s.log == log0 + s.log[|log0|..] && log0[c0..|log0|] == log0[c0..];
  }

  lemma AllBelow(log: seq<Row>)
    ensures Below(log, |log|) == Episodes(log)
  {
    assert log[..|log|] == log;
  }

  // ---- what reaches the sink ----

  lemma TrimmedStays(s: Text)
    ensures TrimSpace(TrimSpace(s)) == TrimSpace(s)
  {
    TrimSpaceTrims(s);
    TrimSpaceTrims(TrimSpace(s));
  }

  /** Of a valid kind, with a text that is not blank, and trimmed. */
  predicate Clean(l: Lesson) {
    ValidLesson(l) && TrimSpace(l.text) == l.text && TrimSpace(l.id) == l.id
  }

  lemma {:induction false} OfferedAreClean(lessons: seq<Lesson>)
    ensures |Offered(lessons)| <= |lessons| && forall l | l in Offered(lessons) :: Clean(l)
  {
    hide TrimSpace;
    if lessons != [] {
      OfferedAreClean(lessons[..|lessons| - 1]);
      TrimmedStays(lessons[|lessons| - 1].text);
      TrimmedStays(lessons[|lessons| - 1].id);
    }
  }

  /** How many lessons the answers of a run propose. */
  function Proposed(steps: seq<Step>): nat {
    if steps == [] then 0
    else
      var last := steps[|steps| - 1];
      Proposed(steps[..|steps| - 1])
      + if last.Complete? && last.answer.lessons.Some? then |last.answer.lessons.value| else 0
  }

  /** Over every interleaving: whatever the language model answers, only clean lessons are offered, never
      more than it proposed, and what was offered stays. */
  lemma {:induction false} OnlyCleanLessons(s0: State, steps: seq<Step>, cap: int)
    ensures var s := Run(s0, steps, cap);
      && s0.offered <= s.offered && |s.offered| <= |s0.offered| + Proposed(steps)
      && forall i | |s0.offered| <= i < |s.offered| :: Clean(s.offered[i])
  {
    hide Clean, Offered, Episodes, WindowOf, Saved, ResultOf;
    if steps != [] {
      var last := steps[|steps| - 1];
      OnlyCleanLessons(s0, steps[..|steps| - 1], cap);
      if last.Complete? && last.answer.lessons.Some? {
        OfferedAreClean(last.answer.lessons.value);
      }
    }
  }

  // ---- quiescence ----

  lemma OnlyRecordsLeft(log: seq<Row>, from: nat)
    requires from <= |log| <= from + 1
    requires |log| == from + 1 ==> log[from].Record?
    ensures Episodes(log[from..]) == []
  {
    if |log| == from + 1 {
      assert log[from..] == [log[from]] && [log[from]][..0] == [];
    }
  }

  /** A tick that nobody interferes with leaves at most its own record above the cursor. */
  lemma TickCatchesUp(s: State, answer: Answer, cap: int)
    requires s.phase.Idle? && s.cursor <= |s.log|
    ensures var t := Ticked(s, true, answer, Done, cap);
      && t.phase.Idle? && t.cursor == |s.log| && t.cursor <= |t.log| && Episodes(t.log[t.cursor..]) == []
  {
    hide Episodes, Capped, Overflow, CursorAfter, OfferedBy;
    CursorReadsBack(s.cursor, |s.log|, Done);
    var t := Ticked(s, true, answer, Done, cap);
    OnlyRecordsLeft(t.log, t.cursor);
  }

  /** With nothing but records above the cursor a tick calls nobody and only moves the cursor. */
  lemma IdleTick(s: State, answer: Answer, cap: int)
    requires s.phase.Idle? && s.cursor <= |s.log| && Episodes(s.log[s.cursor..]) == []
    ensures Ticked(s, true, answer, Done, cap) == s.(cursor := |s.log|)
  {
    hide CursorAfter;
    CursorReadsBack(s.cursor, |s.log|, Done);
  }

  /** From any moment of any run: once the tick in progress is over, two more ticks bring the cursor to
      the end of the log, and after that a tick changes nothing at all, whatever the model answers. */
  lemma Quiescence(log0: seq<Row>, c0: nat, steps: seq<Step>, cap: int, a0: Answer, a1: Answer, a2: Answer, a3: Answer)
    requires c0 <= |log0|
    ensures var s := Finish(Run(Start(log0, c0), steps, cap), a0, Done, cap);
      var t := Ticked(Ticked(s, true, a1, Done, cap), true, a2, Done, cap);
      && t.phase.Idle? && t.cursor == |t.log|
      && t.log == Ticked(s, true, a1, Done, cap).log && t.windows == Ticked(s, true, a1, Done, cap).windows
      && Ticked(t, true, a3, Done, cap) == t
  {
    hide Episodes, Ticked, Finish;
    var r := Run(Start(log0, c0), steps, cap);
    RunIsSteady(log0, c0, steps, cap);
    FinishIsIdle(r, c0, a0, cap);
    var s := Finish(r, a0, Done, cap);
    TickCatchesUp(s, a1, cap);
    var u := Ticked(s, true, a1, Done, cap);
    IdleTick(u, a2, cap);
    var t := Ticked(u, true, a2, Done, cap);
    OnlyRecordsLeft(t.log, |t.log|);
    IdleTick(t, a3, cap);
  }

  lemma FinishIsIdle(s: State, c0: nat, answer: Answer, cap: int)
    requires Steady(s, c0)
    ensures var t := Finish(s, answer, Done, cap); t.phase.Idle? && t.cursor <= |t.log|
  {
    hide Episodes, NoneMissed, CursorAfter, OfferedBy;
    if s.phase.Recording? || s.phase.Saving? {
      CursorReadsBack(s.cursor, s.phase.next, Done);
    } else if s.phase.Reflecting? {
      CursorReadsBack(s.cursor, s.phase.window.next, Done);
    }
  }
}
