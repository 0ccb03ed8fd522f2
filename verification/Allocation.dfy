/** Proportional allocation with a floor and redistribution of slack (internal/synthesis/assemble.go),
    over the lengths of the bodies to be fitted. */
module Allocation {

  const FLOOR_CHARS := 128

  function Min(a: nat, b: nat): nat {
    if a < b then a else b
  }

  function Total(lens: seq<nat>): nat {
    if lens == [] then 0 else Total(lens[..|lens| - 1]) + lens[|lens| - 1]
  }

  function AtLeastFloor(s: nat): nat {
    if s < FLOOR_CHARS then FLOOR_CHARS else s
  }

  function Share(room: nat, len: nat, total: nat): nat
    requires total > 0
  {
    AtLeastFloor(room * len / total)
  }

  function Shares(room: nat, lens: seq<nat>, total: nat): seq<nat>
    requires total > 0
  {
    seq(|lens|, i requires 0 <= i < |lens| => Share(room, lens[i], total))
  }

  /** What the bodies take of their allotments. */
  function Claimed(lens: seq<nat>, alloc: seq<nat>): nat
    requires |lens| == |alloc|
  {
    if lens == [] then 0
    else Claimed(lens[..|lens| - 1], alloc[..|lens| - 1]) + Min(lens[|lens| - 1], alloc[|lens| - 1])
  }

  /** Slack goes to the bodies that want more, first come first served. */
  function Redistribute(lens: seq<nat>, alloc: seq<nat>, slack: nat): seq<nat>
    requires |lens| == |alloc|
    decreases lens
  {
    if lens == [] || slack == 0 then alloc
    else if lens[0] > alloc[0] then
      var extra := Min(slack, lens[0] - alloc[0]);
      [alloc[0] + extra] + Redistribute(lens[1..], alloc[1..], slack - extra)
    else [alloc[0]] + Redistribute(lens[1..], alloc[1..], slack)
  }

  function Slack(room: nat, claimed: nat): nat {
    if room > claimed then room - claimed else 0
  }

  function Allot(room: nat, lens: seq<nat>): seq<nat>
    requires Total(lens) > 0
  {
    var alloc := Shares(room, lens, Total(lens));
    Redistribute(lens, alloc, Slack(room, Claimed(lens, alloc)))
  }

  lemma {:induction false} RedistributeLen(lens: seq<nat>, alloc: seq<nat>, slack: nat)
    requires |lens| == |alloc|
    ensures var r := Redistribute(lens, alloc, slack);
      |r| == |lens| && forall i | 0 <= i < |r| :: r[i] >= alloc[i]
    decreases lens
  {
    if lens != [] && slack > 0 {
      var extra := if lens[0] > alloc[0] then Min(slack, lens[0] - alloc[0]) else 0;
      RedistributeLen(lens[1..], alloc[1..], slack - extra);
    }
  }

  // ---- front and back of a sum ----

  lemma {:induction false} ClaimedFront(lens: seq<nat>, alloc: seq<nat>)
    requires |lens| == |alloc| && lens != []
    ensures Claimed(lens, alloc) == Min(lens[0], alloc[0]) + Claimed(lens[1..], alloc[1..])
  {
    var k := |lens| - 1;
    if k > 0 {
      ClaimedFront(lens[..k], alloc[..k]);
      assert lens[..k][1..] == lens[1..][..k - 1] && alloc[..k][1..] == alloc[1..][..k - 1];
    }
  }

  lemma {:induction false} TotalFront(lens: seq<nat>)
    requires lens != []
    ensures Total(lens) == lens[0] + Total(lens[1..])
  {
    var k := |lens| - 1;
    if k > 0 {
      TotalFront(lens[..k]);
      assert lens[..k][1..] == lens[1..][..k - 1];
    }
  }

  lemma {:induction false} ClaimedAtMostTotal(lens: seq<nat>, alloc: seq<nat>)
    requires |lens| == |alloc|
    ensures Claimed(lens, alloc) <= Total(lens)
  {
    if lens != [] {
      ClaimedAtMostTotal(lens[..|lens| - 1], alloc[..|lens| - 1]);
    }
  }

  // ---- main results ----

  function Extra(len: nat, alloc: nat, slack: nat): (extra: nat)
    ensures extra <= slack
  {
    if len > alloc then Min(slack, len - alloc) else 0
  }

  lemma RedistributeStep(lens: seq<nat>, alloc: seq<nat>, slack: nat)
    requires |lens| == |alloc| && lens != []
    ensures var extra := Extra(lens[0], alloc[0], slack);
      Redistribute(lens, alloc, slack) == [alloc[0] + extra] + Redistribute(lens[1..], alloc[1..], slack - extra)
  {
    if slack == 0 {
      assert Redistribute(lens[1..], alloc[1..], 0) == alloc[1..];
    }
  }

  lemma NoBodies(slack: nat)
    ensures Redistribute([], [], slack) == []
    ensures Claimed([], []) == 0 == Min(Claimed([], []) + slack, Total([]))
  {
  }

  lemma FirstTakes(len: nat, alloc: nat, slack: nat, claimed: nat, total: nat)
    requires claimed <= total
    ensures var extra := Extra(len, alloc, slack);
      Min(len, alloc + extra) + Min(claimed + (slack - extra), total) == Min(Min(len, alloc) + claimed + slack, len + total)
  {
  }

  /** Redistribution hands out its slack to the last byte, as far as the bodies can use it. */
  lemma {:induction false} SlackIsConserved(lens: seq<nat>, alloc: seq<nat>, slack: nat)
    requires |lens| == |alloc|
    ensures |Redistribute(lens, alloc, slack)| == |lens|
    ensures Claimed(lens, Redistribute(lens, alloc, slack)) == Min(Claimed(lens, alloc) + slack, Total(lens))
    decreases lens
  {
    hide *;
    if lens == [] {
      NoBodies(slack);
      assert alloc == [];
    } else {
      var extra := Extra(lens[0], alloc[0], slack);
      var rest := Redistribute(lens[1..], alloc[1..], slack - extra);
      RedistributeStep(lens, alloc, slack);
      SlackIsConserved(lens[1..], alloc[1..], slack - extra);
      ClaimedAtMostTotal(lens[1..], alloc[1..]);
      var r := [alloc[0] + extra] + rest;
      assert r[1..] == rest;
      ClaimedFront(lens, r);
      ClaimedFront(lens, alloc);
      TotalFront(lens);
      FirstTakes(lens[0], alloc[0], slack, Claimed(lens[1..], alloc[1..]), Total(lens[1..]));
    }
  }

  /** The shares before the floor add up to no more than the room. */
  lemma {:induction false} SharesFitRoom(room: nat, lens: seq<nat>, total: nat)
    requires total > 0
    ensures total * (Claimed(lens, Shares(room, lens, total)) - FLOOR_CHARS * |lens|) <= room * Total(lens)
  {
    if lens != [] {
      var front, len := lens[..|lens| - 1], lens[|lens| - 1];
      SharesFitRoom(room, front, total);
      assert Shares(room, lens, total)[..|front|] == Shares(room, front, total);
      ShareOverFloor(room, len, total);
      var a, b := Claimed(front, Shares(room, front, total)) - FLOOR_CHARS * |front|,
                  Min(len, Share(room, len, total)) - FLOOR_CHARS;
      Distribute(total, a, b);
      Distribute(room, Total(front), len);
    }
  }

  lemma Distribute(x: int, a: int, b: int)
    ensures x * (a + b) == x * a + x * b
  {
  }

  lemma MulMonotone(x: nat, a: int, b: int)
    requires a <= b
    ensures x * a <= x * b
  {
    Distribute(x, a, b - a);
  }

  lemma ShareOverFloor(room: nat, len: nat, total: nat)
    requires total > 0
    ensures total * (Min(len, Share(room, len, total)) - FLOOR_CHARS) <= room * len
  {
    hide AtLeastFloor, Min;
    var s := room * len / total;
    FloorAddsLittle(len, s);
    MulMonotone(total, Min(len, AtLeastFloor(s)) - FLOOR_CHARS, s);
    Quotient(room * len, total);
  }

  lemma SharePlace(room: nat, len: nat, total: nat)
    requires total > 0
    ensures var s := Share(room, len, total);
      && s >= 128
      && (s > 128 ==> total * s <= room * len < total * s + total)
      && (s == 128 ==> room * len < total * 129)
  {
    var q := room * len / total;
    assert room * len == total * q + room * len % total;
    if q <= 128 {
      MulMonotone(total, q, 128);
    }
  }

  /** Where the floored shares claim all the room, a body's allotment is its share of the room in
      proportion to its length, rounded down, unless that is under the floor; and with slack nobody gets
      less. */
  lemma AllotmentIsProportional(room: nat, lens: seq<nat>, i: nat)
    requires Total(lens) > 0 && i < |lens|
    ensures var total, alloc, shares := Total(lens), Allot(room, lens), Shares(room, lens, Total(lens));
      && |alloc| == |lens| && alloc[i] >= 128
      && room * lens[i] < total * (alloc[i] + 1)
      && (Claimed(lens, shares) >= room ==> alloc[i] == 128 || total * alloc[i] <= room * lens[i])
  {
    hide Total, Claimed, Redistribute, Share;
    var total := Total(lens);
    var shares := Shares(room, lens, total);
    var slack := Slack(room, Claimed(lens, shares));
    RedistributeLen(lens, shares, slack);
    SharePlace(room, lens[i], total);
    var alloc := Allot(room, lens);
    Distribute(total, shares[i], 1);
    MulMonotone(total, shares[i] + 1, alloc[i] + 1);
    if Claimed(lens, shares) >= room {
      NoSlack(lens, shares);
    }
  }

  lemma FloorAddsLittle(len: nat, s: nat)
    ensures Min(len, AtLeastFloor(s)) - FLOOR_CHARS <= s
  {
  }

  lemma Quotient(p: nat, total: nat)
    requires total > 0
    ensures total * (p / total) <= p
  {
    assert p == total * (p / total) + p % total;
  }

  /** What the bodies take after redistribution: exactly the room when the floored shares leave
      slack, and otherwise the room and at most the floor once per body. No body that is cut is cut
      below the floor. */
  lemma AllotmentUsesRoom(room: nat, lens: seq<nat>)
    requires Total(lens) > room
    ensures var total, alloc := Total(lens), Allot(room, lens);
      var shares := Shares(room, lens, total);
      && |alloc| == |lens|
      && (forall i | 0 <= i < |lens| :: alloc[i] >= FLOOR_CHARS)
      && (Claimed(lens, shares) <= room ==> Claimed(lens, alloc) == room)
      && (Claimed(lens, shares) > room ==> alloc == shares && room < Claimed(lens, alloc) <= room + FLOOR_CHARS * |lens|)
  {
    hide Total, Claimed, Redistribute, Share;
    var total := Total(lens);
    var shares := Shares(room, lens, total);
    var slack := Slack(room, Claimed(lens, shares));
    SlackIsConserved(lens, shares, slack);
    RedistributeLen(lens, shares, slack);
    SharesHaveFloor(room, lens, total);
    if Claimed(lens, shares) > room {
      NoSlack(lens, shares);
      SharesFitRoom(room, lens, total);
      CancelTotal(total, Claimed(lens, shares) - FLOOR_CHARS * |lens|, room);
    }
  }

  lemma NoSlack(lens: seq<nat>, alloc: seq<nat>)
    requires |lens| == |alloc|
    ensures Redistribute(lens, alloc, 0) == alloc
  {
  }

  lemma SharesHaveFloor(room: nat, lens: seq<nat>, total: nat)
    requires total > 0
    ensures forall i | 0 <= i < |lens| :: Shares(room, lens, total)[i] >= FLOOR_CHARS
  {
  }

  lemma CancelTotal(total: nat, over: int, room: nat)
    requires total > 0 && total * over <= room * total
    ensures over <= room
  {
    if over > room {
      MulMonotone(total, room + 1, over);
      Distribute(total, room, 1);
    }
  }
}
