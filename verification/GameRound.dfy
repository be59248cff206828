/** The class `GameRound`: its methods update the fields, and each is proved to take the step the round model gives. */
module GameRounds {
  import opened Lists
  import opened Wrappers
  import opened Cards
  import opened CardRules
  import opened Analyzer
  import opened Deck
  import opened Rounds
  import opened RoundSteps

  class GameRound {
    var hands: seq<seq<Card>>
    var bottomCards: seq<Card>
    var phase: Phase
    var currentSeat: nat
    var callCount: nat
    var lastCaller: Option<nat>
    var landlordSeat: Option<nat>
    var winnerSeat: Option<nat>
    var lastPlay: Option<Play>
    var lastPlaySeat: Option<nat>
    var lastPlayCards: seq<Card>
    var passCount: nat

    /** The fields as a value. */
    function State(): Round
      reads this
    {
      Round(hands, bottomCards, phase, currentSeat, callCount, lastCaller, landlordSeat, winnerSeat,
            lastPlay, lastPlaySeat, lastPlayCards, passCount)
    }

    ghost predicate Ok()
      reads this
    {
      Valid(State())
    }

    constructor ()
      ensures State() == NEW_ROUND && Ok()
    {
      hands, bottomCards := [[], [], []], [];
      phase, currentSeat, callCount := WaitingPlayers, 0, 0;
      lastCaller, landlordSeat, winnerSeat := None, None, None;
      lastPlay, lastPlaySeat, lastPlayCards, passCount := None, None, [], 0;
    }

    /** A copy of a round held by value. */
    constructor Load(r: Round)
      ensures State() == r
    {
      hands, bottomCards := r.hands, r.bottom;
      phase, currentSeat, callCount := r.phase, r.seat, r.callCount;
      lastCaller, landlordSeat, winnerSeat := r.lastCaller, r.landlord, r.winner;
      lastPlay, lastPlaySeat, lastPlayCards, passCount := r.lastPlay, r.lastSeat, r.lastCards, r.passCount;
    }

    method Start(draws: Draws)
      modifies this
      ensures State() == Started(draws) && Ok()
    {
      StartedValid(draws);
      hide Valid, DealOf;
      var d := DealCards(draws);
      hands, bottomCards := d.hands, d.bottom;
      phase := CallLandlord;
      currentSeat := 0;
      callCount := 0;
      lastCaller := None;
      landlordSeat := None;
      winnerSeat := None;
      lastPlay := None;
      lastPlaySeat := None;
      lastPlayCards := [];
      passCount := 0;
    }

    /** game_round.cpp, lines 42-50: the last caller takes the bottom cards and leads. */
    method ChooseLandlord()
      requires |hands| == 3 && lastCaller.Some? && lastCaller.value < 3
      modifies this
      ensures var r, s := old(State()), old(lastCaller.value);
        State() == r.(hands := r.hands[s := r.hands[s] + r.bottom], phase := PlayCards, seat := s,
                      landlord := Some(s), lastPlay := None, lastSeat := None, passCount := 0)
    {
      landlordSeat := lastCaller;
      hands := hands[landlordSeat.value := hands[landlordSeat.value] + bottomCards];
      phase := PlayCards;
      currentSeat := landlordSeat.value;
      lastPlay := None;
      lastPlaySeat := None;
      passCount := 0;
    }

    method Call(seat: nat, call: bool, draws: Draws) returns (accepted: bool)
      requires Ok()
      modifies this
      ensures Ok()
      ensures accepted == Accepted(old(State()), Bid(seat, call, draws))
      ensures State() == After(old(State()), Bid(seat, call, draws))
    {
      ghost var before := State();
      StepValid(before, Bid(seat, call, draws));
      if phase != CallLandlord || seat != currentSeat {
        return false;
      }
      if call {
        lastCaller := Some(seat);
      }
      callCount := callCount + 1;
      if callCount == 3 {
        if lastCaller.None? {
          Start(draws);
          assert State() == Called(before, seat, call, draws);
          return true;
        }
        ChooseLandlord();
        assert State() == Called(before, seat, call, draws);
        return true;
      }
      currentSeat := (currentSeat + 1) % 3;
      assert State() == Called(before, seat, call, draws);
      return true;
    }

    /** The removal loop of `play_cards` on its working copy of the hand. */
    static method TakeCards(hand: seq<Card>, cards: seq<Card>) returns (held: bool, remaining: seq<Card>)
      ensures held <==> multiset(cards) <= multiset(hand)
      ensures held ==> multiset(remaining) == multiset(hand) - multiset(cards)
      ensures held && NoRepeats(hand) ==> remaining == Keep(hand, cards)
    {
      remaining := hand;
      KeepAll(hand);
      assert cards[..0] == [];
      for i := 0 to |cards|
        invariant multiset(cards[..i]) <= multiset(hand)
        invariant multiset(remaining) == multiset(hand) - multiset(cards[..i])
        invariant NoRepeats(hand) ==> remaining == Keep(hand, cards[..i])
      {
        TakeNext(hand, cards, i, remaining);
        var at := Find(remaining, cards[i]);
        if at == |remaining| {
          return false, remaining;
        }
        hide NoRepeats, Keep;
        TakeOne(hand, cards, i, remaining, at);
        remaining := Without(remaining, at);
      }
      assert cards[..|cards|] == cards;
      return true, remaining;
    }

    /** One more card is in the hand exactly when it is among the cards that remain. */
    static lemma {:induction false} TakeNext(hand: seq<Card>, cards: seq<Card>, i: nat, remaining: seq<Card>)
      requires i < |cards| && multiset(cards[..i]) <= multiset(hand)
      requires multiset(remaining) == multiset(hand) - multiset(cards[..i])
      ensures multiset(cards[..i + 1]) <= multiset(hand) <==> cards[i] in remaining
      ensures multiset(cards) <= multiset(hand) ==> multiset(cards[..i + 1]) <= multiset(hand)
    {
      var c := cards[i];
      assert cards[..i + 1] == cards[..i] + [c];
      assert cards == cards[..i + 1] + cards[i + 1..];
      assert c in remaining <==> multiset(remaining)[c] >= 1;
      assert multiset(cards[..i + 1]) == multiset(cards[..i]) + multiset{c};
    }

    static lemma {:induction false} WithoutIsLess(s: seq<Card>, i: nat)
      requires i < |s|
      ensures multiset(Without(s, i)) == multiset(s) - multiset{s[i]}
    {
      assert s == s[..i] + [s[i]] + s[i + 1..];
    }

    static lemma {:induction false} TakeOne(hand: seq<Card>, cards: seq<Card>, i: nat, remaining: seq<Card>, at: nat)
      requires i < |cards| && at < |remaining| && remaining[at] == cards[i]
      requires multiset(cards[..i]) <= multiset(hand) && multiset(remaining) == multiset(hand) - multiset(cards[..i])
      requires NoRepeats(hand) ==> remaining == Keep(hand, cards[..i])
      ensures multiset(Without(remaining, at)) == multiset(hand) - multiset(cards[..i + 1])
      ensures NoRepeats(hand) ==> Without(remaining, at) == Keep(hand, cards[..i + 1])
    {
      hide Keep, NoRepeats;
      var before, after := cards[..i], cards[..i + 1];
      assert after == before + [cards[i]];
      WithoutIsLess(remaining, at);
      assert multiset(after) == multiset(before) + multiset{cards[i]};
      if NoRepeats(hand) {
        KeepOneLess(hand, before, cards[i], at);
      }
    }

    /** `std::find`: the first position of a card, or the length. */
    static method Find(cards: seq<Card>, card: Card) returns (at: nat)
      ensures at <= |cards|
      ensures at < |cards| ==> cards[at] == card
      ensures at == |cards| <==> card !in cards
    {
      at := 0;
      while at < |cards| && cards[at] != card
        invariant at <= |cards| && card !in cards[..at]
      {
        at := at + 1;
      }
      assert at == |cards| ==> cards[..at] == cards;
    }

    /** game_round.cpp, lines 104-117: the effect of an accepted play. */
    method LayDown(seat: nat, cards: seq<Card>, play: Cards.Play, remainingHand: seq<Card>)
      requires |hands| == 3 && seat < 3
      requires play == PlayOf(cards) && remainingHand == Keep(hands[seat], cards)
      modifies this
      ensures State() == Played(old(State()), seat, cards)
    {
      hands := hands[seat := remainingHand];
      lastPlay := Some(play);
      lastPlaySeat := Some(seat);
      lastPlayCards := cards;
      passCount := 0;
      if hands[seat] == [] {
        phase := Settled;
        winnerSeat := Some(seat);
        return;
      }
      currentSeat := (seat + 1) % 3;
    }

    /** Accepted exactly for legal plays; a rejected play, also one rejected while cards are taken, changes nothing. */
    method Play(seat: nat, cards: seq<Card>) returns (accepted: bool)
      requires Ok()
      modifies this
      ensures Ok()
      ensures accepted == Accepted(old(State()), Lay(seat, cards))
      ensures State() == After(old(State()), Lay(seat, cards))
    {
      StepValid(State(), Lay(seat, cards));
      if PlayOf(cards).pattern != Invalid {
        ValidPlayHasCards(cards);
      }
      if phase != PlayCards || seat != currentSeat || cards == [] {
        return false;
      }
      var play := Analyze(cards);
      if play.pattern == Invalid {
        return false;
      }
      if lastPlay.Some? {
        if !CanBeat(play, lastPlay.value) {
          return false;
        }
      }
      HandNoRepeats(State(), seat);
      var held, remainingHand := TakeCards(hands[seat], cards);
      if !held {
        return false;
      }
      LayDown(seat, cards, play, remainingHand);
      return true;
    }

    static lemma {:induction false} TrickOpen(r: Round)
      requires Valid(r)
      ensures r.phase == PlayCards && r.lastPlay.Some? ==> r.lastSeat.Some? && r.passCount <= 1
    {
    }

    method Pass(seat: nat) returns (accepted: bool)
      requires Ok()
      modifies this
      ensures Ok()
      ensures accepted == Accepted(old(State()), Skip(seat))
      ensures State() == After(old(State()), Skip(seat))
    {
      hide Valid;
      StepValid(State(), Skip(seat));
      TrickOpen(State());
      if phase != PlayCards || seat != currentSeat || lastPlay.None? || lastPlaySeat == Some(seat) {
        return false;
      }
      passCount := passCount + 1;
      if passCount == 2 {
        currentSeat := lastPlaySeat.value;
        lastPlay := None;
        lastPlaySeat := None;
        lastPlayCards := [];
        passCount := 0;
        return true;
      }
      currentSeat := (seat + 1) % 3;
      return true;
    }

    /** A timeout never gets stuck: it is accepted in every state in which someone is to act. */
    method Timeout(draws: Draws) returns (accepted: bool)
      requires Ok()
      modifies this
      ensures Ok()
      ensures accepted <==> old(phase) in {CallLandlord, PlayCards}
      ensures State() == After(old(State()), Expire(draws))
    {
      if phase in {CallLandlord, PlayCards} {
        DefaultAccepted(State(), draws);
      }
      if phase == CallLandlord {
        accepted := Call(currentSeat, false, draws);
        return;
      }
      if phase != PlayCards {
        return false;
      }
      if lastPlay.Some? && lastPlaySeat != Some(currentSeat) {
        accepted := Pass(currentSeat);
        return;
      }
      var currentHand := hands[currentSeat];
      if currentHand == [] {
        return false;
      }
      accepted := Play(currentSeat, [currentHand[0]]);
    }
  }
}
