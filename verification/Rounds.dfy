/**
  A round as a value: the fields of `GameRound` and, for each of its operations,
  when it is accepted and which state it leads to.
 */
module Rounds {
  import opened Lists
  import opened Wrappers
  import opened Cards
  import opened CardRules
  import opened Deck

  datatype Phase = WaitingPlayers | CallLandlord | PlayCards | Settled

  datatype Round = Round(
    hands: seq<seq<Card>>,
    bottom: seq<Card>,
    phase: Phase,
    seat: nat,
    callCount: nat,
    lastCaller: Option<nat>,
    landlord: Option<nat>,
    winner: Option<nat>,
    lastPlay: Option<Play>,
    lastSeat: Option<nat>,
    lastCards: seq<Card>,
    passCount: nat)

  function Next(seat: nat): nat {
    (seat + 1) % 3
  }

  // ---------- Operations ----------

  const NEW_ROUND := Round([[], [], []], [], WaitingPlayers, 0, 0, None, None, None, None, None, [], 0)

  function Started(draws: Draws): Round {
    var d := DealOf(draws);
    Round(d.hands, d.bottom, CallLandlord, 0, 0, None, None, None, None, None, [], 0)
  }

  ghost predicate CallOk(r: Round, seat: nat) {
    r.phase == CallLandlord && seat == r.seat
  }

  /** After the third call the last caller becomes the landlord; without one the cards are dealt anew. */
  ghost function Called(r: Round, seat: nat, call: bool, draws: Draws): Round
    requires |r.hands| == 3 && (r.lastCaller.Some? ==> r.lastCaller.value < 3) && seat < 3
  {
    var caller := if call then Some(seat) else r.lastCaller;
    if r.callCount + 1 < 3 then
      r.(lastCaller := caller, callCount := r.callCount + 1, seat := Next(r.seat))
    else if caller.None? then
      Started(draws)
    else
      r.(hands := r.hands[caller.value := r.hands[caller.value] + r.bottom],
         phase := PlayCards, seat := caller.value, lastCaller := caller, landlord := caller,
         callCount := r.callCount + 1)
  }

  /** The cards of a hand, in order, except those in `cards`. */
  function Keep(hand: seq<Card>, cards: seq<Card>): seq<Card> {
    if hand == [] then []
    else if hand[0] in cards then Keep(hand[1..], cards)
    else [hand[0]] + Keep(hand[1..], cards)
  }

  /** A play is accepted from the seat in turn, for cards it holds that form a pattern beating the last play. */
  ghost predicate PlayOk(r: Round, seat: nat, cards: seq<Card>)
    requires |r.hands| == 3
  {
    && r.phase == PlayCards && seat == r.seat && seat < 3
    && PlayOf(cards).pattern != Invalid
    && (r.lastPlay.Some? ==> CanBeat(PlayOf(cards), r.lastPlay.value))
    && multiset(cards) <= multiset(r.hands[seat])
  }

  ghost function Played(r: Round, seat: nat, cards: seq<Card>): Round
    requires |r.hands| == 3 && seat < 3
  {
    var hand := Keep(r.hands[seat], cards);
    var r1 := r.(hands := r.hands[seat := hand], lastPlay := Some(PlayOf(cards)), lastSeat := Some(seat),
                 lastCards := cards, passCount := 0);
    if hand == [] then r1.(phase := Settled, winner := Some(seat)) else r1.(seat := Next(seat))
  }

  ghost predicate PassOk(r: Round, seat: nat) {
    r.phase == PlayCards && seat == r.seat && r.lastPlay.Some? && r.lastSeat != Some(seat)
  }

  /** The first pass moves on to the next seat; the second ends the trick. */
  ghost function Passed(r: Round): Round
    requires r.lastSeat.Some?
  {
    if r.passCount == 0 then r.(passCount := 1, seat := Next(r.seat))
    else r.(seat := r.lastSeat.value, lastPlay := None, lastSeat := None, lastCards := [], passCount := 0)
  }

  // ---------- What every operation keeps ----------

  ghost function Held(r: Round): multiset<Card>
    requires |r.hands| == 3
  {
    multiset(r.hands[0]) + multiset(r.hands[1]) + multiset(r.hands[2])
  }

  ghost predicate WithinDeck(m: multiset<Card>) {
    m <= FullDeck()
  }

  /** During the calls the hands and the bottom cards are the deck, and the seats call in order. */
  ghost predicate CallingInv(r: Round)
    requires |r.hands| == 3
  {
    && Partitions(Deal(r.hands, r.bottom), FullDeck())
    && r.callCount <= 2 && r.seat == r.callCount
    && (r.lastCaller.Some? ==> r.lastCaller.value < r.callCount)
    && r.landlord.None? && r.winner.None?
    && r.lastPlay.None? && r.lastSeat.None? && r.lastCards == [] && r.passCount == 0
  }

  /** The last play lies outside the hands, and says whose turn it is. */
  ghost predicate TrickInv(r: Round)
    requires |r.hands| == 3
  {
    match r.lastPlay
    case None => r.lastSeat.None? && r.lastCards == [] && r.passCount == 0
    case Some(play) =>
      && r.lastSeat.Some? && r.lastSeat.value < 3
      && play == PlayOf(r.lastCards) && play.pattern != Invalid
      && WithinDeck(Held(r) + multiset(r.lastCards))
      && r.passCount <= 1
      && (r.phase == PlayCards ==> r.seat == (r.lastSeat.value + 1 + r.passCount) % 3)
  }

  ghost predicate LandlordInv(r: Round)
    requires |r.hands| == 3
  {
    && r.landlord.Some? && r.landlord.value < 3 && r.lastCaller == r.landlord && r.callCount == 3
    && |r.bottom| == 3
    && |r.hands[0]| <= 20 && |r.hands[1]| <= 20 && |r.hands[2]| <= 20
    && |r.hands[0]| + |r.hands[1]| + |r.hands[2]| <= 54
  }

  ghost predicate PlayingInv(r: Round)
    requires |r.hands| == 3
  {
    && LandlordInv(r) && TrickInv(r) && WithinDeck(Held(r)) && r.winner.None?
    && forall s :: 0 <= s < 3 ==> r.hands[s] != []
  }

  ghost predicate SettledInv(r: Round)
    requires |r.hands| == 3 && r.seat < 3
  {
    && LandlordInv(r) && TrickInv(r) && WithinDeck(Held(r))
    && r.winner == Some(r.seat) && r.lastSeat == Some(r.seat) && r.passCount == 0
    && forall s :: 0 <= s < 3 ==> (r.hands[s] == [] <==> s == r.seat)
  }

  ghost predicate Valid(r: Round) {
    && |r.hands| == 3 && r.seat < 3
    && match r.phase
       case WaitingPlayers => r == NEW_ROUND
       case CallLandlord => CallingInv(r)
       case PlayCards => PlayingInv(r)
       case Settled => SettledInv(r)
  }

  // ---------- Facts about hands ----------

  lemma {:induction false} DeckNoRepeats(s: seq<Card>)
    requires WithinDeck(multiset(s))
    ensures NoRepeats(s)
    ensures forall c :: c in s ==> IsStandard(c)
  {
    DeckIsStandard();
    forall c | c in s
      ensures IsStandard(c)
    {
      assert c in multiset(s);
    }
    forall i, j | 0 <= i < j < |s|
      ensures s[i] != s[j]
    {
      assert multiset(s)[s[i]] <= 1;
      if s[i] == s[j] {
        SeenTwice(s, i, j);
      }
    }
  }

  lemma {:induction false} SeenTwice(s: seq<Card>, i: nat, j: nat)
    requires i < j < |s| && s[i] == s[j]
    ensures multiset(s)[s[i]] >= 2
  {
    assert s == s[..j] + [s[j]] + s[j + 1..];
    assert s[i] in s[..j];
  }

  lemma {:induction false} KeepMembers(hand: seq<Card>, cards: seq<Card>)
    ensures forall c :: c in Keep(hand, cards) <==> c in hand && c !in cards
    ensures NoRepeats(hand) ==> NoRepeats(Keep(hand, cards))
  {
    if hand != [] {
      KeepMembers(hand[1..], cards);
      assert hand == [hand[0]] + hand[1..];
    }
  }

  /** The hand after a play is the old hand without the cards played: nothing else goes, nothing comes. */
  lemma {:induction false} KeepIsDifference(hand: seq<Card>, cards: seq<Card>)
    requires NoRepeats(hand) && multiset(cards) <= multiset(hand)
    ensures multiset(Keep(hand, cards)) == multiset(hand) - multiset(cards)
    ensures |Keep(hand, cards)| == |hand| - |cards|
  {
    KeepMembers(hand, cards);
    var kept := Keep(hand, cards);
    forall c: Card
      ensures multiset(kept)[c] == (multiset(hand) - multiset(cards))[c]
    {
      NoRepeatsCount(hand, c);
      NoRepeatsCount(kept, c);
      assert c in cards <==> multiset(cards)[c] >= 1;
    }
    assert multiset(hand) == multiset(kept) + multiset(cards);
  }

  /** A list without its element at `i`. */
  function Without(s: seq<Card>, i: nat): seq<Card>
    requires i < |s|
  {
    s[..i] + s[i + 1..]
  }

  lemma {:induction false} WithoutLater(c: Card, s: seq<Card>, i: nat)
    requires i < |s|
    ensures Without([c] + s, i + 1) == [c] + Without(s, i)
  {
  }

  lemma {:induction false} KeptIsHeld(hand: seq<Card>, cards: seq<Card>, i: nat)
    requires i < |Keep(hand, cards)|
    ensures Keep(hand, cards)[i] in hand && Keep(hand, cards)[i] !in cards
  {
    KeepMembers(hand, cards);
    assert Keep(hand, cards)[i] in Keep(hand, cards);
  }

  /** The kept cards stay in their order: dropping one more card erases it where it stands. */
  lemma {:induction false} KeepOneLess(hand: seq<Card>, cards: seq<Card>, c: Card, i: nat)
    requires NoRepeats(hand)
    requires i < |Keep(hand, cards)| && Keep(hand, cards)[i] == c
    ensures Keep(hand, cards + [c]) == Without(Keep(hand, cards), i)
  {
    var rest, kept := hand[1..], Keep(hand[1..], cards);
    if hand[0] in cards {
      KeepOneLess(rest, cards, c, i);
    } else if i == 0 {
      KeepUntouched(rest, cards, c);
      assert Without([c] + kept, 0) == kept;
    } else {
      KeptIsHeld(rest, cards, i - 1);
      assert hand[0] != c;
      KeepOneLess(rest, cards, c, i - 1);
      WithoutLater(hand[0], kept, i - 1);
    }
  }

  lemma {:induction false} KeepUntouched(hand: seq<Card>, cards: seq<Card>, c: Card)
    requires c !in hand
    ensures Keep(hand, cards + [c]) == Keep(hand, cards)
  {
    if hand != [] {
      KeepUntouched(hand[1..], cards, c);
    }
  }

  lemma {:induction false} KeepAll(hand: seq<Card>)
    ensures Keep(hand, []) == hand
  {
    if hand != [] {
      KeepAll(hand[1..]);
    }
  }
}
