/** The calls of a round told by the votes alone, and who becomes landlord. */
module Callings {
  import opened Wrappers
  import opened Deck
  import opened Rounds
  import opened RoundSteps
  import opened RoundRuns

  /** The votes since the latest deal, in the order of the seats, and the random numbers of that deal. */
  datatype Calling = Calling(votes: seq<bool>, draws: Draws)

  /** A vote is a call by the seat whose turn it is, or the refusal of a seat that lets its time pass. */
  function VoteOf(c: Calling, a: Action): Option<bool> {
    match a
    case Bid(seat, call, _) => if seat == |c.votes| then Some(call) else None
    case Expire(_) => Some(false)
    case _ => None
  }

  /** When three have refused the cards are dealt anew; three votes with a call among them end the calling. */
  function NextCalling(c: Calling, a: Action): Calling {
    if |c.votes| >= 3 || VoteOf(c, a).None? then c
    else
      var votes := c.votes + [VoteOf(c, a).value];
      if votes == [false, false, false] then Calling([], a.draws) else Calling(votes, c.draws)
  }

  function CallingAfter(c: Calling, actions: seq<Action>): Calling
    decreases |actions|
  {
    if actions == [] then c else CallingAfter(NextCalling(c, actions[0]), actions[1..])
  }

  /** The seat called, and no later one did. */
  predicate CalledLast(votes: seq<bool>, seat: nat) {
    seat < |votes| && votes[seat] && forall later :: seat < later < |votes| ==> !votes[later]
  }

  /** The landlord is the last seat that called; its hand is its dealt hand followed by the bottom cards. */
  ghost predicate PlayStarts(c: Calling, r: Round) {
    var d := DealOf(c.draws);
    && r.phase == PlayCards && r.landlord.Some? && CalledLast(c.votes, r.landlord.value) && r.seat == r.landlord.value
    && |r.hands| == |d.hands| == 3
    && forall s :: 0 <= s < 3 ==> r.hands[s] == if s == r.seat then d.hands[s] + d.bottom else d.hands[s]
  }

  /** The round as the votes tell it. */
  ghost predicate Tells(c: Calling, r: Round) {
    var d := DealOf(c.draws);
    && |c.votes| <= 3 && r.bottom == d.bottom
    && if |c.votes| < 3 then
         && r.phase == CallLandlord && r.seat == r.callCount == |c.votes| && r.hands == d.hands && r.landlord.None?
         && (if r.lastCaller.Some? then CalledLast(c.votes, r.lastCaller.value)
             else forall i :: 0 <= i < |c.votes| ==> !c.votes[i])
       else
         r.phase in {PlayCards, Settled} && r.landlord.Some? && CalledLast(c.votes, r.landlord.value)
  }

  lemma {:induction false} VoteTells(c: Calling, r: Round, a: Action)
    requires Valid(r) && Tells(c, r) && |c.votes| < 3
    ensures Tells(NextCalling(c, a), After(r, a))
    ensures |NextCalling(c, a).votes| == 3 ==> PlayStarts(NextCalling(c, a), After(r, a))
  {
    hide DealOf;
    var v := VoteOf(c, a);
    if v.Some? {
      var votes := c.votes + [v.value];
      var last := if v.value then Some(|c.votes|) else r.lastCaller;
      assert last.Some? ==> CalledLast(votes, last.value);
      assert last.None? && |votes| == 3 ==> votes == [false, false, false];
      assert last.Some? ==> votes != [false, false, false];
    }
  }

  lemma {:induction false} PlayTells(c: Calling, r: Round, a: Action)
    requires Valid(r) && Tells(c, r) && |c.votes| == 3
    ensures Tells(c, After(r, a))
  {
    hide DealOf;
    if Accepted(r, a) && r.phase == PlayCards {
      AcceptedAdvances(r, a);
    }
  }

  lemma {:induction false} RunTells(c: Calling, r: Round, actions: seq<Action>)
    requires Valid(r) && Tells(c, r)
    ensures Tells(CallingAfter(c, actions), RunOf(r, actions))
    decreases |actions|
  {
    if actions != [] {
      StepValid(r, actions[0]);
      if |c.votes| < 3 {
        VoteTells(c, r, actions[0]);
      } else {
        PlayTells(c, r, actions[0]);
      }
      hide Valid, Tells, After, NextCalling;
      RunTells(NextCalling(c, actions[0]), After(r, actions[0]), actions[1..]);
    }
  }

  /**
    In every run from a deal, with rejected actions and timeouts in it: until three
    votes since the latest deal hold a call, all cards are as dealt and it is the
    turn of the next seat to vote; from then on the landlord is the last seat that
    called.
   */
  lemma {:induction false} LandlordCalledLast(draws: Draws, actions: seq<Action>)
    ensures Valid(Started(draws))
    ensures var r, c := RunOf(Started(draws), actions), CallingAfter(Calling([], draws), actions);
      && |c.votes| <= 3
      && (|c.votes| < 3 ==>
            r.phase == CallLandlord && r.seat == |c.votes| && r.landlord.None?
            && r.hands == DealOf(c.draws).hands && r.bottom == DealOf(c.draws).bottom)
      && (|c.votes| == 3 ==>
            r.phase in {PlayCards, Settled} && r.landlord.Some? && CalledLast(c.votes, r.landlord.value))
  {
    StartedValid(draws);
    hide DealOf, Valid;
    assert Tells(Calling([], draws), Started(draws));
    RunTells(Calling([], draws), Started(draws), actions);
  }

  /**
    At the action that completes the calling, the landlord leads, and its hand is
    its dealt hand and the bottom cards.
   */
  lemma {:induction false} LandlordLeads(draws: Draws, actions: seq<Action>, last: Action)
    requires |CallingAfter(Calling([], draws), actions).votes| < 3
    requires |NextCalling(CallingAfter(Calling([], draws), actions), last).votes| == 3
    ensures Valid(Started(draws)) && Valid(RunOf(Started(draws), actions))
    ensures PlayStarts(NextCalling(CallingAfter(Calling([], draws), actions), last),
                       After(RunOf(Started(draws), actions), last))
  {
    StartedValid(draws);
    RunValid(Started(draws), actions);
    hide DealOf, Valid;
    assert Tells(Calling([], draws), Started(draws));
    RunTells(Calling([], draws), Started(draws), actions);
    hide Tells, PlayStarts, NextCalling, After;
    VoteTells(CallingAfter(Calling([], draws), actions), RunOf(Started(draws), actions), last);
  }

  /** Three bids in turn: the last one who calls is landlord; if nobody does, the cards are dealt anew. */
  lemma {:induction false} ThreeBids(draws: Draws, x: bool, y: bool, z: bool, again: Draws)
    ensures Valid(Started(draws))
    ensures var r, d := RunOf(Started(draws), [Bid(0, x, again), Bid(1, y, again), Bid(2, z, again)]), DealOf(draws);
      && |r.hands| == |d.hands| == 3
      && if x || y || z then
           var s := if z then 2 else if y then 1 else 0;
           r.phase == PlayCards && r.landlord == Some(s) && r.seat == s && r.hands[s] == d.hands[s] + d.bottom
         else
           r.phase == CallLandlord && r.seat == 0
           && r.hands == DealOf(again).hands && r.bottom == DealOf(again).bottom
  {
    hide DealOf, Valid, After, Tells, PlayStarts, NextCalling;
    StartedValid(draws);
    var a, b, c := Bid(0, x, again), Bid(1, y, again), Bid(2, z, again);
    var c0, r0 := Calling([], draws), Started(draws);
    StartTells(draws);
    var c1, r1 := Voted(c0, r0, a, x);
    var c2, r2 := Voted(c1, r1, b, y);
    var c3, r3 := Voted(c2, r2, c, z);
    assert [] + [x] == [x] && [x] + [y] == [x, y] && [x, y] + [z] == [x, y, z];
    assert !(x || y || z) <==> [x, y, z] == [false, false, false];
    VotesDecide(c3, r3, x, y, z, draws, again);
    assert [a, b, c][1..] == [b, c] && [b, c][1..] == [c] && [c][1..] == [];
    assert RunOf(r2, [c]) == RunOf(r3, []);
    assert RunOf(r1, [b, c]) == RunOf(r2, [c]);
    assert RunOf(r0, [a, b, c]) == RunOf(r1, [b, c]);
  }

  lemma {:induction false} StartTells(draws: Draws)
    ensures Tells(Calling([], draws), Started(draws))
  {
    hide DealOf;
  }

  lemma {:induction false} Voted(c: Calling, r: Round, a: Action, vote: bool) returns (c1: Calling, r1: Round)
    requires Valid(r) && Tells(c, r) && |c.votes| < 3 && a.Bid? && a.seat == |c.votes| && a.call == vote
    ensures Valid(r1) && r1 == After(r, a) && Tells(c1, r1)
    ensures |c.votes| < 2 ==> c1 == Calling(c.votes + [vote], c.draws)
    ensures c.votes + [vote] == [false, false, false] ==> c1 == Calling([], a.draws)
    ensures |c.votes| == 2 && c.votes + [vote] != [false, false, false] ==>
      c1 == Calling(c.votes + [vote], c.draws) && PlayStarts(c1, r1)
  {
    hide DealOf, Valid, After, Tells, PlayStarts;
    c1, r1 := NextCalling(c, a), After(r, a);
    VoteTells(c, r, a);
    StepValid(r, a);
  }

  lemma {:induction false} VotesDecide(c: Calling, r: Round, x: bool, y: bool, z: bool, draws: Draws, again: Draws)
    requires Valid(r) && Tells(c, r)
    requires if x || y || z then c == Calling([x, y, z], draws) && PlayStarts(c, r) else c == Calling([], again)
    ensures var d := DealOf(draws);
      && |r.hands| == |d.hands| == 3
      && if x || y || z then
           var s := if z then 2 else if y then 1 else 0;
           r.phase == PlayCards && r.landlord == Some(s) && r.seat == s && r.hands[s] == d.hands[s] + d.bottom
         else
           r.phase == CallLandlord && r.seat == 0
           && r.hands == DealOf(again).hands && r.bottom == DealOf(again).bottom
  {
    DealsTheDeck(draws);
    hide DealOf;
    var votes := [x, y, z];
    assert votes[0] == x && votes[1] == y && votes[2] == z;
  }
}
