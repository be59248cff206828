/** The 54 cards, the shuffle and the deal of deck.cpp. */
module Deck {
  import opened Lists
  import opened Cards

  // ---------- The cards ----------

  /** The first `n` suited cards: rank by rank from Three, the four suits of each. */
  function Suited(n: nat): seq<Card>
    requires n <= 52
  {
    seq(n, i requires 0 <= i < n => Card(THREE + i / 4, i % 4))
  }

  function StandardDeck(): seq<Card> {
    Suited(52) + [Card(SMALL_JOKER, 0), Card(BIG_JOKER, 0)]
  }

  /** Mentioned by a proof that needs to look at the cards of the deck one by one. */
  ghost predicate Fanned(really: bool) {
    really
  }

  /** The deck as a multiset, held behind `Fanned`: proofs about conservation need no card by name. */
  ghost function FullDeck(): multiset<Card> {
    assert IsDeck(multiset(StandardDeck()));
    var m :| IsDeck(m);
    m
  }

  ghost predicate IsDeck(m: multiset<Card>) {
    forall b {:trigger Fanned(b)} :: Fanned(b) ==> m == multiset(StandardDeck())
  }

  lemma {:induction false} FullDeckIs()
    ensures FullDeck() == multiset(StandardDeck())
  {
    assert Fanned(true);
  }

  /** The cards that exist: four suits of each rank up to Two, and one of each joker. */
  predicate IsStandard(c: Card) {
    if c.rank <= TWO then c.suit < 4 else c.suit == 0
  }

  lemma {:induction false} DeckListing(c: Card)
    ensures |StandardDeck()| == 54 && NoRepeats(StandardDeck())
    ensures c in StandardDeck() <==> IsStandard(c)
  {
    var deck := StandardDeck();
    if IsStandard(c) {
      var i := if c.rank <= TWO then 4 * (c.rank - THREE) + c.suit else 52 + (c.rank - SMALL_JOKER);
      assert deck[i] == c;
    }
  }

  /** The deck has 54 cards, each standard card once and no other. */
  lemma {:induction false} DeckIsStandard()
    ensures |StandardDeck()| == |FullDeck()| == 54
    ensures forall c: Card :: FullDeck()[c] == if IsStandard(c) then 1 else 0
  {
    FullDeckIs();
    DeckListing(Card(THREE, 0));
    forall c: Card
      ensures FullDeck()[c] == if IsStandard(c) then 1 else 0
    {
      DeckListing(c);
      NoRepeatsCount(StandardDeck(), c);
    }
  }

  method CreateCards() returns (cards: seq<Card>)
    ensures cards == StandardDeck()
  {
    cards := [];
    for rank := THREE to TWO + 1
      invariant cards == Suited(4 * (rank - THREE))
    {
      for suit := 0 to 4
        invariant cards == Suited(4 * (rank - THREE) + suit)
      {
        cards := cards + [Card(rank, suit)];
      }
    }
    cards := cards + [Card(SMALL_JOKER, 0)];
    cards := cards + [Card(BIG_JOKER, 0)];
  }

  // ---------- The shuffle ----------

  /**
    The random numbers of one shuffle: for each position the earlier position,
    or itself, that it is swapped with. Any such choice may occur.
   */
  type Draws = d: seq<nat> | |d| == 54 && forall i :: 0 <= i < |d| ==> d[i] <= i
    witness seq(54, i => 0)

  function Swap(s: seq<Card>, i: nat, j: nat): (r: seq<Card>)
    requires i < |s| && j < |s|
    ensures |r| == |s|
  {
    s[i := s[j]][j := s[i]]
  }

  /** The list after the first `n` swaps. */
  function Shuffled(s: seq<Card>, draws: Draws, n: nat): (r: seq<Card>)
    requires n <= |s| == |draws|
    ensures |r| == |s|
    decreases n
  {
    if n == 0 then s else Swap(Shuffled(s, draws, n - 1), n - 1, draws[n - 1])
  }

  lemma {:induction false} ShuffleKeepsCards(s: seq<Card>, draws: Draws, n: nat)
    requires n <= |s| == |draws|
    ensures multiset(Shuffled(s, draws, n)) == multiset(s)
    decreases n
  {
    if n != 0 {
      ShuffleKeepsCards(s, draws, n - 1);
    }
  }

  lemma {:induction false} LaterCardsStay(s: seq<Card>, draws: Draws, n: nat)
    requires n <= |s| == |draws|
    ensures forall i :: n <= i < |s| ==> Shuffled(s, draws, n)[i] == s[i]
    decreases n
  {
    if n != 0 {
      LaterCardsStay(s, draws, n - 1);
    }
  }

  lemma {:induction false} ShuffleHasNoRepeats(s: seq<Card>, draws: Draws, n: nat)
    requires n <= |s| == |draws| && NoRepeats(s)
    ensures NoRepeats(Shuffled(s, draws, n))
    decreases n
  {
    if n != 0 {
      ShuffleHasNoRepeats(s, draws, n - 1);
    }
  }

  lemma {:induction false} OnlyFirstDrawsCount(s: seq<Card>, d: Draws, e: Draws, n: nat)
    requires n <= |s| == 54 && forall i :: 0 <= i < n ==> d[i] == e[i]
    ensures Shuffled(s, d, n) == Shuffled(s, e, n)
    decreases n
  {
    if n != 0 {
      OnlyFirstDrawsCount(s, d, e, n - 1);
    }
  }

  /** Every order of the cards in which the later ones are in place is reached by the first `n` swaps. */
  lemma {:induction false} OrderIsReached(s: seq<Card>, t: seq<Card>, n: nat) returns (draws: Draws)
    requires n <= |s| == 54 && NoRepeats(s) && multiset(s) == multiset(t) && |t| == 54
    requires forall i :: n <= i < 54 ==> t[i] == s[i]
    ensures Shuffled(s, draws, n) == t
    decreases n
  {
    hide Swap, NoRepeats;
    if n == 0 {
      draws := seq(54, i => 0);
      assert s == t;
    } else {
      var j := Misplaced(s, t, n);
      var before := Swap(t, n - 1, j);
      SwapBack(t, n - 1, j);
      var first := OrderIsReached(s, before, n - 1);
      draws := first[n - 1 := j];
      OnlyFirstDrawsCount(s, first, draws, n - 1);
    }
  }

  lemma {:induction false} Misplaced(s: seq<Card>, t: seq<Card>, n: nat) returns (j: nat)
    requires 0 < n <= |s| == |t| && NoRepeats(s) && multiset(s) == multiset(t)
    requires forall i :: n <= i < |t| ==> t[i] == s[i]
    ensures j < n && t[j] == s[n - 1]
  {
    assert s[n - 1] in multiset(t);
    j :| 0 <= j < |t| && t[j] == s[n - 1];
  }

  lemma {:induction false} SwapBack(t: seq<Card>, i: nat, j: nat)
    requires i < |t| && j < |t|
    ensures Swap(Swap(t, i, j), i, j) == t
    ensures multiset(Swap(t, i, j)) == multiset(t)
    ensures Swap(t, i, j)[i] == t[j]
    ensures forall k :: 0 <= k < |t| && k != i && k != j ==> Swap(t, i, j)[k] == t[k]
  {
    SwapKeepsCards(t, i, j);
    var u := Swap(t, i, j);
    forall k | 0 <= k < |t|
      ensures Swap(u, i, j)[k] == t[k]
    {
    }
  }

  lemma {:induction false} SwapKeepsCards(t: seq<Card>, i: nat, j: nat)
    requires i < |t| && j < |t|
    ensures multiset(Swap(t, i, j)) == multiset(t)
  {
  }

  /** Two shuffles that lead to the same order have drawn the same numbers. */
  lemma {:induction false} DrawsAreDetermined(s: seq<Card>, d: Draws, e: Draws, n: nat)
    requires n <= |s| == 54 && NoRepeats(s) && Shuffled(s, d, n) == Shuffled(s, e, n)
    ensures forall i :: 0 <= i < n ==> d[i] == e[i]
    decreases n
  {
    if n != 0 {
      var before, other, after := Shuffled(s, d, n - 1), Shuffled(s, e, n - 1), Shuffled(s, d, n);
      LaterCardsStay(s, d, n - 1);
      LaterCardsStay(s, e, n - 1);
      ShuffleHasNoRepeats(s, d, n);
      assert after[d[n - 1]] == s[n - 1] == after[e[n - 1]];
      assert before == Swap(after, n - 1, d[n - 1]) == other;
      DrawsAreDetermined(s, d, e, n - 1);
    }
  }

  lemma {:induction false} SameLength(a: seq<Card>, b: seq<Card>)
    requires multiset(a) == multiset(b)
    ensures |a| == |b|
  {
    assert |multiset(a)| == |a| && |multiset(b)| == |b|;
  }

  /** Any order of the deck may come out of the shuffle, each by exactly one choice of random numbers. */
  lemma {:induction false} EveryOrderOccursOnce(cards: seq<Card>) returns (draws: Draws)
    requires multiset(cards) == multiset(StandardDeck())
    ensures Stack(draws) == cards
    ensures forall other: Draws :: Stack(other) == cards ==> other == draws
  {
    hide StandardDeck, Shuffled, NoRepeats;
    DeckListing(Card(THREE, 0));
    SameLength(cards, StandardDeck());
    draws := OrderIsReached(StandardDeck(), cards, 54);
    forall other: Draws | Stack(other) == cards
      ensures other == draws
    {
      DrawsAreDetermined(StandardDeck(), other, draws, 54);
    }
  }

  method Shuffle(a: array<Card>, draws: Draws)
    requires a.Length == |draws|
    modifies a
    ensures a[..] == Shuffled(old(a[..]), draws, |draws|)
  {
    for i := 0 to a.Length
      invariant a[..] == Shuffled(old(a[..]), draws, i)
    {
      var j := draws[i];
      a[i], a[j] := a[j], a[i];
    }
  }

  // ---------- The deal ----------

  datatype Deal = Deal(hands: seq<seq<Card>>, bottom: seq<Card>)

  /** What seat `s` gets when `cards` are dealt one by one: every third card, from card `s` on. */
  function DealtTo(cards: seq<Card>, s: nat): seq<Card>
    requires s < 3
  {
    var n := Share(|cards|, s);
    seq(n, i requires 0 <= i < n => cards[3 * i + s])
  }

  /** The shuffled deck. */
  function Stack(draws: Draws): (cards: seq<Card>)
    ensures |cards| == 54
  {
    Shuffled(StandardDeck(), draws, |draws|)
  }

  function DealStack(cards: seq<Card>): Deal
    requires |cards| == 54
  {
    var top := cards[..51];
    Deal([DealtTo(top, 0), DealtTo(top, 1), DealtTo(top, 2)], cards[51..])
  }

  function DealOf(draws: Draws): Deal {
    DealStack(Stack(draws))
  }

  /** Three hands of 17 and three bottom cards, which together are the cards `m`. */
  ghost predicate Partitions(d: Deal, m: multiset<Card>) {
    && |d.hands| == 3 && |d.bottom| == 3
    && |d.hands[0]| == |d.hands[1]| == |d.hands[2]| == 17
    && multiset(d.hands[0]) + multiset(d.hands[1]) + multiset(d.hands[2]) + multiset(d.bottom) == m
  }

  ghost predicate IsDeal(d: Deal) {
    Partitions(d, FullDeck())
  }

  /** How many of `n` cards go to seat `s`. */
  function Share(n: nat, s: nat): nat
    requires s < 3
  {
    (n + 2 - s) / 3
  }

  lemma {:induction false} ShareOneMore(n: nat, s: nat)
    requires s < 3
    ensures Share(n + 1, s) == Share(n, s) + if n % 3 == s then 1 else 0
    ensures n % 3 == s ==> 3 * Share(n, s) + s == n
  {
  }

  lemma {:induction false} DealOneMore(cards: seq<Card>, c: Card, s: nat)
    requires s < 3
    ensures DealtTo(cards + [c], s) == if |cards| % 3 == s then DealtTo(cards, s) + [c] else DealtTo(cards, s)
  {
    ShareOneMore(|cards|, s);
    assert |DealtTo(cards, s)| == Share(|cards|, s) && |DealtTo(cards + [c], s)| == Share(|cards| + 1, s);
    hide Share;
    assert |cards| % 3 == s ==> DealtTo(cards + [c], s)[|DealtTo(cards, s)|] == c;
  }

  ghost function AllDealt(cards: seq<Card>): multiset<Card> {
    multiset(DealtTo(cards, 0)) + multiset(DealtTo(cards, 1)) + multiset(DealtTo(cards, 2))
  }

  lemma {:induction false} DealtAll(cards: seq<Card>)
    ensures AllDealt(cards) == multiset(cards)
  {
    if cards != [] {
      var front, last := cards[..|cards| - 1], cards[|cards| - 1];
      assert cards == front + [last];
      DealtAll(front);
      DealOneMore(front, last, 0);
      DealOneMore(front, last, 1);
      DealOneMore(front, last, 2);
      assert AllDealt(cards) == AllDealt(front) + multiset{last};
    }
  }

  lemma {:induction false} DealtAndBottom(cards: seq<Card>)
    requires |cards| == 54
    ensures Partitions(DealStack(cards), multiset(cards))
  {
    DealtAll(cards[..51]);
    assert cards == cards[..51] + cards[51..];
  }

  /** Whatever the shuffle, the deal is a partition of the deck. */
  lemma {:induction false} DealsTheDeck(draws: Draws)
    ensures IsDeal(DealOf(draws))
  {
    FullDeckIs();
    ShuffleKeepsCards(StandardDeck(), draws, |draws|);
    DealtAndBottom(Stack(draws));
  }

  /** Card by card: the first goes to seat 0, the next to seat 1, and so on; the last three stay at the bottom. */
  lemma {:induction false} DealtInTurn(draws: Draws)
    ensures var d := DealOf(draws);
      && |d.hands| == 3 && |d.bottom| == 3
      && (forall s, i :: 0 <= s < 3 && 0 <= i < 17 ==> |d.hands[s]| == 17 && d.hands[s][i] == Stack(draws)[3 * i + s])
      && (forall i :: 0 <= i < 3 ==> d.bottom[i] == Stack(draws)[51 + i])
  {
    hide Stack;
  }

  /** Any partition of the deck into hands and bottom cards, in any order, may be dealt, by exactly one choice. */
  lemma {:induction false} EveryDealOccursOnce(d: Deal) returns (draws: Draws)
    requires IsDeal(d)
    ensures DealOf(draws) == d
    ensures forall other: Draws :: DealOf(other) == d ==> other == draws
  {
    var cards := seq(54, k requires 0 <= k < 54 => if k < 51 then d.hands[k % 3][k / 3] else d.bottom[k - 51]);
    StackOfDeal(d, cards);
    DealtAndBottom(cards);
    FullDeckIs();
    hide Stack, DealStack, StandardDeck, FullDeck;
    draws := EveryOrderOccursOnce(cards);
    forall other: Draws | DealOf(other) == d
      ensures other == draws
    {
      SameStack(Stack(other), cards);
    }
  }

  lemma {:induction false} StackOfDeal(d: Deal, cards: seq<Card>)
    requires |d.hands| == 3 && |d.bottom| == 3 && |cards| == 54
    requires |d.hands[0]| == |d.hands[1]| == |d.hands[2]| == 17
    requires forall k :: 0 <= k < 54 ==> cards[k] == if k < 51 then d.hands[k % 3][k / 3] else d.bottom[k - 51]
    ensures DealStack(cards) == d
  {
    forall s | 0 <= s < 3
      ensures DealtTo(cards[..51], s) == d.hands[s]
    {
      forall i | 0 <= i < 17
        ensures DealtTo(cards[..51], s)[i] == d.hands[s][i]
      {
        assert (3 * i + s) % 3 == s && (3 * i + s) / 3 == i;
      }
    }
    assert DealStack(cards).hands == d.hands;
  }

  lemma {:induction false} SameStack(a: seq<Card>, b: seq<Card>)
    requires |a| == |b| == 54 && DealStack(a) == DealStack(b)
    ensures a == b
  {
    forall k | 0 <= k < 54
      ensures a[k] == b[k]
    {
      if k < 51 {
        var s, i := k % 3, k / 3;
        assert k == 3 * i + s;
        assert DealtTo(a[..51], s)[i] == DealStack(a).hands[s][i] == DealStack(b).hands[s][i] == DealtTo(b[..51], s)[i];
      } else {
        assert a[51..][k - 51] == b[51..][k - 51];
      }
    }
  }

  method DealCards(draws: Draws) returns (d: Deal)
    ensures d == DealOf(draws)
  {
    hide Shuffled, DealtTo;
    var ordered := CreateCards();
    var cards := new Card[54](i requires 0 <= i < 54 => ordered[i]);
    assert cards[..] == StandardDeck();
    Shuffle(cards, draws);
    var stack := cards[..];
    assert stack == Stack(draws);
    var hands := DealHands(stack[..51]);
    var bottom := [];
    for index := 0 to 3
      invariant bottom == stack[51..51 + index]
    {
      bottom := bottom + [stack[51 + index]];
    }
    d := Deal(hands, bottom);
  }

  /** The first loop: one card after the other, to the three seats in turn. */
  method DealHands(cards: seq<Card>) returns (hands: seq<seq<Card>>)
    ensures hands == [DealtTo(cards, 0), DealtTo(cards, 1), DealtTo(cards, 2)]
  {
    hands := [[], [], []];
    assert cards[..0] == [];
    assert DealtTo([], 0) == DealtTo([], 1) == DealtTo([], 2) == [];
    for index := 0 to |cards|
      invariant hands == [DealtTo(cards[..index], 0), DealtTo(cards[..index], 1), DealtTo(cards[..index], 2)]
    {
      hide DealtTo;
      var front := cards[..index];
      assert cards[..index + 1] == front + [cards[index]];
      DealOneMore(front, cards[index], 0);
      DealOneMore(front, cards[index], 1);
      DealOneMore(front, cards[index], 2);
      hands := hands[index % 3 := hands[index % 3] + [cards[index]]];
    }
    assert cards[..|cards|] == cards;
  }
}
