/** The cursor file (internal/reflect/scheduler.go): a number as text, and what a write that fails can
    leave of it. */
module Cursor {
  import opened Wrappers
  import opened Bytes

  predicate Digits(t: Text) {
    t != [] && forall i | 0 <= i < |t| :: 48 <= t[i] <= 57
  }

  /** `strconv.Atoi`: digits behind an optional sign. */
  function Atoi(t: Text): Option<int> {
    if Digits(t) then Some(FromDecimal(t))
    else if t != [] && t[0] == 43 && Digits(t[1..]) then Some(FromDecimal(t[1..]))
    else if t != [] && t[0] == 45 && Digits(t[1..]) then Some(-FromDecimal(t[1..]))
    else None
  }

  /** What a file's content, if there is a file, counts as: 0 unless it is a number. */
  function Loaded(content: Option<Text>): nat {
    match content
    case None => 0
    case Some(t) =>
      match Atoi(TrimSpace(t))
      case None => 0
      case Some(n) => if n < 0 then 0 else n
  }

  /** How a write ends: done; failed before the file was touched; or failed behind the truncation, with
      `kept` bytes written. */
  datatype Write = Done | Untouched | Torn(kept: nat)

  /** What is in the file after writing `cursor`. */
  function Written(content: Option<Text>, cursor: nat, w: Write): Option<Text> {
    match w
    case Done => Some(Decimal(cursor))
    case Untouched => content
    case Torn(kept) => Some(Decimal(cursor)[..if kept < |Decimal(cursor)| then kept else |Decimal(cursor)|])
  }

  /** The cursor that is loaded next, when `before` would have been. */
  function CursorAfter(before: nat, cursor: nat, w: Write): nat {
    if w.Untouched? then before else Loaded(Written(None, cursor, w))
  }

  lemma DigitsAreTrimmed(t: Text)
    requires forall i | 0 <= i < |t| :: 48 <= t[i] <= 57
    ensures TrimSpace(t) == t
  {
    TrimSpaceTrims(t);
  }

  lemma {:induction false} PrefixIsSmaller(t: Text, k: nat)
    requires k <= |t| && forall i | 0 <= i < |t| :: 48 <= t[i] <= 57
    ensures 0 <= FromDecimal(t[..k]) <= FromDecimal(t)
  {
    if k < |t| {
      PrefixIsSmaller(t[..|t| - 1], k);
      assert t[..|t| - 1][..k] == t[..k];
    } else {
      assert t[..k] == t;
      DigitsAreNat(t);
    }
  }

  lemma {:induction false} DigitsAreNat(t: Text)
    requires forall i | 0 <= i < |t| :: 48 <= t[i] <= 57
    ensures FromDecimal(t) >= 0
  {
    if t != [] {
      DigitsAreNat(t[..|t| - 1]);
    }
  }

  lemma LoadedDigits(t: Text)
    requires forall i | 0 <= i < |t| :: 48 <= t[i] <= 57
    ensures Loaded(Some(t)) == FromDecimal(t)
  {
    hide TrimSpace;
    DigitsAreTrimmed(t);
    DigitsAreNat(t);
  }

  /** A finished write reads back; a torn one reads as no more than was written. */
  lemma CursorReadsBack(before: nat, cursor: nat, w: Write)
    ensures w.Done? ==> CursorAfter(before, cursor, w) == cursor
    ensures !w.Untouched? ==> CursorAfter(before, cursor, w) <= cursor
  {
    hide Loaded, Decimal;
    var t := Decimal(cursor);
    DecimalRoundTrip(cursor);
    match w
    case Done => LoadedDigits(t);
    case Untouched =>
    case Torn(kept) =>
      var k := if kept < |t| then kept else |t|;
      PrefixIsSmaller(t, k);
      LoadedDigits(t[..k]);
  }

  /** `FileCursor`; `readable` and `writes` say how each read and each write will end. */
  class CursorFile {
    var content: Option<Text>
    var loads: nat
    var count: nat
    const readable: nat -> bool
    const writes: nat -> Write

    constructor (content: Option<Text>, readable: nat -> bool, writes: nat -> Write)
      ensures this.content == content && this.readable == readable && this.writes == writes
      ensures loads == 0 && count == 0
    {
      this.content, this.readable, this.writes := content, readable, writes;
      loads, count := 0, 0;
    }

    ghost function View(): nat
      reads this
    {
      Loaded(content)
    }

    /** A file that exists and cannot be read counts as 0 like one that is missing. */
    method Load() returns (cursor: nat)
      modifies this`loads
      ensures cursor == if readable(old(loads)) then View() else 0
      ensures loads == old(loads) + 1
    {
      loads := loads + 1;
      if !readable(loads - 1) || content.None? {
        return 0;
      }
      var n := Atoi(TrimSpace(content.value));
      if n.None? || n.value < 0 {
        return 0;
      }
      return n.value;
    }

    method Save(cursor: nat) returns (ok: bool)
      modifies this`content, this`count
      ensures var w := writes(old(count));
        ok == w.Done? && content == Written(old(content), cursor, w) && View() == CursorAfter(old(View()), cursor, w)
      ensures count == old(count) + 1
    {
      hide Loaded;
      var w := writes(count);
      count := count + 1;
      content := Written(content, cursor, w);
      return w.Done?;
    }
  }
}
