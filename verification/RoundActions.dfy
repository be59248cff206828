/** What each action of a round does, field by field, told without the functions that define it. */
module RoundActions {
  import opened Lists
  import opened Wrappers
  import opened Cards
  import opened CardRules
  import opened Deck
  import opened Rounds
  import opened RoundSteps

  /** `part` is what is left of `whole` when some of its cards are crossed out. */
  ghost predicate IsPart(part: seq<Card>, whole: seq<Card>) {
    if part == [] then true
    else
      exists i :: 0 <= i < |whole| && whole[i] == part[0] && IsPart(part[1..], whole[i + 1..])
  }

  lemma {:induction false} PartOfMore(part: seq<Card>, whole: seq<Card>, c: Card)
    requires IsPart(part, whole)
    ensures IsPart(part, [c] + whole) && IsPart([c] + part, [c] + whole)
  {
    var all := [c] + whole;
    if part != [] {
      var i :| 0 <= i < |whole| && whole[i] == part[0] && IsPart(part[1..], whole[i + 1..]);
      assert all[i + 1] == part[0] && all[i + 1 + 1..] == whole[i + 1..];
    }
    var longer := [c] + part;
    assert longer[1..] == part && all[0 + 1..] == whole && all[0] == longer[0];
    assert IsPart(longer[1..], all[0 + 1..]);
  }

  /** The cards that a player keeps stay in their order. */
  lemma {:induction false} KeptInOrder(hand: seq<Card>, cards: seq<Card>)
    ensures IsPart(Keep(hand, cards), hand)
  {
    if hand != [] {
      KeptInOrder(hand[1..], cards);
      PartOfMore(Keep(hand[1..], cards), hand[1..], hand[0]);
      assert hand == [hand[0]] + hand[1..];
    }
  }

  /** The cards leave the hand of the seat, the others stay in their order; what else the play changes. */
  ghost predicate LaysCards(r: Round, r1: Round, seat: nat, cards: seq<Card>)
    requires |r.hands| == 3 && seat < 3
  {
    && |r1.hands| == 3
    && (forall s :: 0 <= s < 3 && s != seat ==> r1.hands[s] == r.hands[s])
    && multiset(r1.hands[seat]) + multiset(cards) == multiset(r.hands[seat]) && IsPart(r1.hands[seat], r.hands[seat])
    && r1.bottom == r.bottom && r1.callCount == r.callCount
    && r1.lastCaller == r.lastCaller && r1.landlord == r.landlord
    && r1.lastPlay == Some(PlayOf(cards)) && r1.lastSeat == Some(seat) && r1.lastCards == cards && r1.passCount == 0
    && if |r1.hands[seat]| == 0 then r1.phase == Settled && r1.winner == Some(seat) && r1.seat == seat
       else r1.phase == PlayCards && r1.winner == r.winner && r1.seat == (seat + 1) % 3
  }

  /**
    A play is accepted exactly from the seat in turn, for cards that it holds, that
    form a pattern and beat the last play if there is one; otherwise nothing changes.
   */
  lemma {:induction false} LayIs(r: Round, seat: nat, cards: seq<Card>)
    requires Valid(r)
    ensures var r1 := After(r, Lay(seat, cards));
      if && r.phase == PlayCards && seat == r.seat && multiset(cards) <= multiset(r.hands[r.seat])
         && PlayOf(cards).pattern != Invalid
         && (r.lastPlay.Some? ==> CanBeat(PlayOf(cards), r.lastPlay.value))
      then Accepted(r, Lay(seat, cards)) && LaysCards(r, r1, seat, cards)
      else !Accepted(r, Lay(seat, cards)) && r1 == r
  {
    hide IsPart, Keep, CanBeat, LaysCards, Played;
    assert r.seat < 3;
    hide Valid;
    if PlayOk(r, seat, cards) {
      AcceptedLays(r, seat, cards);
    }
  }

  lemma {:induction false} AcceptedLays(r: Round, seat: nat, cards: seq<Card>)
    requires Valid(r) && PlayOk(r, seat, cards)
    ensures LaysCards(r, Played(r, seat, cards), seat, cards)
  {
    hide IsPart, Keep, CanBeat, Valid;
    PlayerHolds(r);
    HandNoRepeats(r, seat);
    KeepIsDifference(r.hands[seat], cards);
    KeptInOrder(r.hands[seat], cards);
    hide NoRepeats;
  }

  lemma {:induction false} PlayerHolds(r: Round)
    requires Valid(r) && r.phase == PlayCards
    ensures |r.hands| == 3 && WithinDeck(Held(r))
  {
  }

  /**
    A pass is accepted exactly in turn after a play of another seat; the second in a
    row ends the trick for its leader.
   */
  lemma {:induction false} SkipIs(r: Round, seat: nat)
    requires Valid(r)
    ensures var r1 := After(r, Skip(seat));
      if r.phase == PlayCards && seat == r.seat && r.lastPlay.Some? && r.lastSeat != Some(seat) then
        && Accepted(r, Skip(seat))
        && r1.hands == r.hands && r1.bottom == r.bottom && r1.phase == PlayCards && r1.landlord == r.landlord
        && r1.seat == (seat + 1) % 3
        && if r.passCount == 0 then
             r1.passCount == 1 && r1.lastPlay == r.lastPlay && r1.lastSeat == r.lastSeat && r1.lastCards == r.lastCards
           else
             r1.passCount == 0 && r1.lastPlay.None? && r1.lastSeat.None? && r1.lastCards == []
             && r.lastSeat == Some(r1.seat)
      else !Accepted(r, Skip(seat)) && r1 == r
  {
  }

  /** A bid is accepted exactly in turn; before the third one it is noted and the next seat is asked. */
  lemma {:induction false} BidIs(r: Round, seat: nat, call: bool, draws: Draws)
    requires Valid(r)
    ensures var r1 := After(r, Bid(seat, call, draws));
      if r.phase == CallLandlord && seat == r.seat then
        && Accepted(r, Bid(seat, call, draws))
        && (r.callCount < 2 ==>
              r1 == r.(callCount := r.callCount + 1, seat := seat + 1,
                       lastCaller := if call then Some(seat) else r.lastCaller))
      else !Accepted(r, Bid(seat, call, draws)) && r1 == r
  {
  }

  /** A timeout refuses, passes, or lays down the first card of the hand; in any other phase it does nothing. */
  lemma {:induction false} ExpireIs(r: Round, draws: Draws)
    requires Valid(r)
    ensures var r1 := After(r, Expire(draws));
      if r.phase == CallLandlord then r1 == After(r, Bid(r.seat, false, draws))
      else if r.phase == PlayCards && r.lastPlay.Some? then r1 == After(r, Skip(r.seat))
      else if r.phase == PlayCards then
        && r.hands[r.seat] != [] && LaysCards(r, r1, r.seat, [r.hands[r.seat][0]])
        && multiset(r1.hands[r.seat]) == multiset(r.hands[r.seat][1..])
      else r1 == r
  {
    hide IsPart, Keep, CanBeat, LaysCards;
    if r.phase in {CallLandlord, PlayCards} {
      DefaultAccepted(r, draws);
    }
    if r.phase == PlayCards && r.lastPlay.None? {
      FirstCardLaid(r, draws);
    }
  }

  lemma {:induction false} FirstCardLaid(r: Round, draws: Draws)
    requires Valid(r) && r.phase == PlayCards && r.lastPlay.None?
    ensures var hand, r1 := r.hands[r.seat], After(r, Expire(draws));
      && hand != [] && LaysCards(r, r1, r.seat, [hand[0]])
      && multiset(r1.hands[r.seat]) == multiset(hand[1..])
  {
    DefaultAccepted(r, draws);
    var hand := r.hands[r.seat];
    LayIs(r, r.seat, [hand[0]]);
    var r1 := After(r, Expire(draws));
    hide IsPart, Keep, CanBeat, After, Valid;
    assert hand == [hand[0]] + hand[1..];
    assert multiset(hand) == multiset([hand[0]]) + multiset(hand[1..]);
    assert multiset(r1.hands[r.seat]) == multiset(hand) - multiset([hand[0]]);
  }
}
