/** Every operation of a round keeps its invariant, and what one accepted operation changes. */
module RoundSteps {
  import opened Lists
  import opened Wrappers
  import opened Cards
  import opened CardRules
  import opened Deck
  import opened Rounds

  /** One call of a round operation. */
  datatype Action =
    | Bid(seat: nat, call: bool, draws: Draws)
    | Lay(seat: nat, cards: seq<Card>)
    | Skip(seat: nat)
    | Expire(draws: Draws)

  /** What a timeout does for the seat in turn: refuse, pass, or play the first card of the hand. */
  ghost function Default(r: Round, draws: Draws): Action
    requires Valid(r) && r.phase in {CallLandlord, PlayCards}
  {
    if r.phase == CallLandlord then Bid(r.seat, false, draws)
    else if r.lastPlay.Some? then Skip(r.seat)
    else Lay(r.seat, [r.hands[r.seat][0]])
  }

  ghost predicate Accepted(r: Round, a: Action)
    requires Valid(r)
  {
    match a
    case Bid(seat, _, _) => CallOk(r, seat)
    case Lay(seat, cards) => PlayOk(r, seat, cards)
    case Skip(seat) => PassOk(r, seat)
    case Expire(_) => r.phase in {CallLandlord, PlayCards}
  }

  /** The state after an operation; a rejected one changes nothing. */
  ghost function After(r: Round, a: Action): Round
    requires Valid(r)
  {
    if !Accepted(r, a) then r else
    match a
    case Bid(seat, call, draws) => Called(r, seat, call, draws)
    case Lay(seat, cards) => Played(r, seat, cards)
    case Skip(_) => Passed(r)
    case Expire(draws) =>
      match Default(r, draws)
      case Bid(seat, call, draws) => Called(r, seat, call, draws)
      case Lay(seat, cards) => Played(r, seat, cards)
      case _ => Passed(r)
  }

  // ---------- Invariance ----------

  ghost function CardsHeld(r: Round): nat
    requires |r.hands| == 3
  {
    |r.hands[0]| + |r.hands[1]| + |r.hands[2]|
  }

  lemma {:induction false} StartedValid(draws: Draws)
    ensures Valid(Started(draws)) && Started(draws).phase == CallLandlord
  {
    DealsTheDeck(draws);
  }

  lemma {:induction false} BottomPickedUp(r: Round, s: nat)
    requires Valid(r) && r.phase == CallLandlord && s < 3
    ensures Held(r.(hands := r.hands[s := r.hands[s] + r.bottom])) == FullDeck()
  {
  }

  lemma {:induction false} LandlordChosen(r: Round, call: bool, draws: Draws)
    requires Valid(r) && r.phase == CallLandlord && r.callCount == 2
    requires call || r.lastCaller.Some?
    ensures Valid(Called(r, r.seat, call, draws)) && Called(r, r.seat, call, draws).phase == PlayCards
  {
    BottomPickedUp(r, Called(r, r.seat, call, draws).seat);
  }

  lemma {:induction false} CalledValid(r: Round, call: bool, draws: Draws)
    requires Valid(r) && r.phase == CallLandlord
    ensures Valid(Called(r, r.seat, call, draws))
  {
    if r.callCount == 2 {
      if call || r.lastCaller.Some? {
        LandlordChosen(r, call, draws);
      } else {
        StartedValid(draws);
      }
    }
  }

  lemma {:induction false} HandNoRepeats(r: Round, s: nat)
    requires |r.hands| == 3 && s < 3 && WithinDeck(Held(r))
    ensures NoRepeats(r.hands[s])
  {
    assert multiset(r.hands[s]) <= Held(r);
    DeckNoRepeats(r.hands[s]);
  }

  lemma {:induction false} OneHandChanges(r: Round, s: nat, hand: seq<Card>, cards: multiset<Card>)
    requires |r.hands| == 3 && s < 3
    requires multiset(hand) + cards == multiset(r.hands[s])
    ensures Held(r.(hands := r.hands[s := hand])) + cards == Held(r)
    ensures CardsHeld(r.(hands := r.hands[s := hand])) + |cards| == CardsHeld(r)
    ensures forall i :: 0 <= i < 3 ==> |r.hands[s := hand][i]| <= |r.hands[i]|
  {
    assert |multiset(hand) + cards| == |multiset(r.hands[s])|;
  }

  /** A play moves its cards out of the hand of its seat and leaves the other hands alone. */
  lemma {:induction false} PlayMovesCards(r: Round, seat: nat, cards: seq<Card>)
    requires Valid(r) && PlayOk(r, seat, cards)
    ensures Held(Played(r, seat, cards)) + multiset(cards) == Held(r)
    ensures CardsHeld(Played(r, seat, cards)) + |cards| == CardsHeld(r)
    ensures forall s :: 0 <= s < 3 ==> |Played(r, seat, cards).hands[s]| <= |r.hands[s]|
    ensures forall s :: 0 <= s < 3 && s != seat ==> Played(r, seat, cards).hands[s] == r.hands[s]
  {
    HandNoRepeats(r, seat);
    KeepIsDifference(r.hands[seat], cards);
    var hand := Keep(r.hands[seat], cards);
    OneHandChanges(r, seat, hand, multiset(cards));
    assert Played(r, seat, cards).hands == r.hands[seat := hand];
  }

  lemma {:induction false} ValidPlayHasCards(cards: seq<Card>)
    requires PlayOf(cards).pattern != Invalid
    ensures cards != []
  {
    PlayOfIs(cards);
    if cards == [] {
      Patterns.FormsIffCounted(RanksOf(cards), PlayOf(cards));
      assert false;
    }
  }

  lemma {:induction false} PlayedTrick(r: Round, seat: nat, cards: seq<Card>)
    requires Valid(r) && PlayOk(r, seat, cards)
    ensures WithinDeck(Held(Played(r, seat, cards)) + multiset(cards))
    ensures LandlordInv(Played(r, seat, cards))
  {
    PlayMovesCards(r, seat, cards);
    assert CardsHeld(Played(r, seat, cards)) <= CardsHeld(r);
  }

  lemma {:induction false} PlayedValid(r: Round, seat: nat, cards: seq<Card>)
    requires Valid(r) && PlayOk(r, seat, cards)
    ensures Valid(Played(r, seat, cards))
  {
    PlayedTrick(r, seat, cards);
    assert TrickInv(Played(r, seat, cards));
    assert WithinDeck(Held(Played(r, seat, cards)));
  }

  lemma {:induction false} PassedValid(r: Round, seat: nat)
    requires Valid(r) && PassOk(r, seat)
    ensures Valid(Passed(r))
  {
  }

  /** A single card is always a play. */
  lemma {:induction false} SingleIsPlay(c: Card)
    ensures PlayOf([c]) == Play(Single, c.rank, 1)
  {
    PlayOfIs([c]);
    assert RanksOf([c]) == Patterns.Copies(c.rank, 1);
    ClassifyComplete(RanksOf([c]), Play(Single, c.rank, 1));
  }

  /** The default action of a timeout is one the seat in turn could have taken itself, and is accepted. */
  lemma {:induction false} DefaultAccepted(r: Round, draws: Draws)
    requires Valid(r) && r.phase in {CallLandlord, PlayCards}
    ensures Accepted(r, Default(r, draws))
    ensures After(r, Expire(draws)) == After(r, Default(r, draws))
  {
    if r.phase == PlayCards && r.lastPlay.None? {
      SingleIsPlay(r.hands[r.seat][0]);
    }
  }

  /** Every operation keeps the invariant. */
  lemma {:induction false} StepValid(r: Round, a: Action)
    requires Valid(r)
    ensures Valid(After(r, a))
    decreases a.Expire?
  {
    if Accepted(r, a) {
      match a
      case Bid(_, call, draws) => CalledValid(r, call, draws);
      case Lay(seat, cards) => PlayedValid(r, seat, cards);
      case Skip(seat) => PassedValid(r, seat);
      case Expire(draws) =>
        DefaultAccepted(r, draws);
        StepValid(r, Default(r, draws));
    }
  }

  // ---------- Progress ----------

  /** Three for every card still held, and one for every pass that the open trick still allows. */
  ghost function Measure(r: Round): nat
    requires Valid(r)
  {
    3 * CardsHeld(r) + if r.lastPlay.Some? && r.passCount <= 2 then 2 - r.passCount else 0
  }

  /** The step from `r` to `r1` lowers the measure and hands on the turn or ends the round. */
  ghost predicate Advances(r: Round, r1: Round)
    requires Valid(r)
  {
    && Valid(r1) && Measure(r1) < Measure(r)
    && r1.landlord == r.landlord
    && ((r1.phase == PlayCards && r1.seat == Next(r.seat)) || (r1.phase == Settled && r1.winner == Some(r.seat)))
  }

  lemma {:induction false} PlayAdvances(r: Round, cards: seq<Card>)
    requires Valid(r) && PlayOk(r, r.seat, cards)
    ensures Advances(r, Played(r, r.seat, cards))
  {
    PlayedValid(r, r.seat, cards);
    PlayMovesCards(r, r.seat, cards);
    ValidPlayHasCards(cards);
    hide Valid, PlayOk;
  }

  lemma {:induction false} PassAdvances(r: Round)
    requires Valid(r) && PassOk(r, r.seat)
    ensures Advances(r, Passed(r))
  {
    PassedValid(r, r.seat);
  }

  /**
    While cards are played, every accepted operation is taken by the seat in
    turn, lowers the measure, and hands the turn to the next seat or ends the
    round with that seat as winner. Operations of other seats are rejected.
   */
  lemma {:induction false} AcceptedAdvances(r: Round, a: Action)
    requires Valid(r) && r.phase == PlayCards && Accepted(r, a)
    ensures Advances(r, After(r, a))
    ensures !a.Bid?
    ensures a.Lay? || a.Skip? ==> a.seat == r.seat
  {
    match a
    case Bid(_, _, _) =>
    case Lay(_, cards) => PlayAdvances(r, cards);
    case Skip(_) => PassAdvances(r);
    case Expire(draws) =>
      DefaultAccepted(r, draws);
      match Default(r, draws)
      case Lay(_, cards) => PlayAdvances(r, cards);
      case _ => PassAdvances(r);
  }
}
