/** Cards, ranks and plays, as declared in deck.hpp and card_rules.hpp. */
module Cards {

  const THREE: Rank := 3
  const ACE: Rank := 14
  const TWO: Rank := 15
  const SMALL_JOKER: Rank := 16
  const BIG_JOKER: Rank := 17

  /** The fifteen ranks, Three (3) up to BigJoker (17). */
  type Rank = r: int | 3 <= r <= 17 witness 3

  /** Suits are stored in one byte. */
  type Suit = s: int | 0 <= s < 256

  datatype Card = Card(rank: Rank, suit: Suit)

  datatype Pattern =
    | Invalid
    | Single
    | Pair
    | Triple
    | TripleWithSingle
    | TripleWithPair
    | Straight
    | ConsecutivePairs
    | Airplane
    | AirplaneWithSingles
    | AirplaneWithPairs
    | FourWithTwoSingles
    | FourWithTwoPairs
    | Bomb
    | Rocket

  datatype Play = Play(pattern: Pattern, mainRank: Rank, cardCount: nat)

  /** The value of a default-constructed play. */
  const NO_PLAY := Play(Invalid, THREE, 0)

  /** The multiset of ranks in a list of cards: suits and order forgotten. */
  ghost function RanksOf(cards: seq<Card>): (m: multiset<Rank>)
    ensures |m| == |cards|
  {
    if cards == [] then multiset{}
    else RanksOf(cards[..|cards| - 1]) + multiset{cards[|cards| - 1].rank}
  }

  lemma {:induction false} RanksOfAppend(a: seq<Card>, b: seq<Card>)
    ensures RanksOf(a + b) == RanksOf(a) + RanksOf(b)
  {
    if b == [] {
      assert a + b == a;
    } else {
      var front := b[..|b| - 1];
      assert (a + b)[..|a + b| - 1] == a + front;
      RanksOfAppend(a, front);
    }
  }

  lemma {:induction false} PullOut(b: seq<Card>, i: nat)
    requires i < |b|
    ensures multiset(b) == multiset(b[..i] + b[i + 1..]) + multiset{b[i]}
    ensures RanksOf(b) == RanksOf(b[..i] + b[i + 1..]) + multiset{b[i].rank}
  {
    var left, right := b[..i], b[i + 1..];
    assert b == (left + [b[i]]) + right;
    RanksOfAppend(left, right);
    RanksOfAppend(left, [b[i]]);
    RanksOfAppend(left + [b[i]], right);
    assert RanksOf([b[i]]) == multiset{b[i].rank};
  }

  /** Two lists holding the same cards have the same ranks, whatever their order. */
  lemma {:induction false} RanksIgnoreOrder(a: seq<Card>, b: seq<Card>)
    requires multiset(a) == multiset(b)
    ensures RanksOf(a) == RanksOf(b)
    decreases |a|
  {
    if a == [] {
      assert |multiset(b)| == 0;
    } else {
      var front, last := a[..|a| - 1], a[|a| - 1];
      assert a == front + [last];
      assert last in multiset(b);
      var i :| 0 <= i < |b| && b[i] == last;
      PullOut(b, i);
      assert multiset(front) == multiset(a) - multiset{last};
      RanksIgnoreOrder(front, b[..i] + b[i + 1..]);
    }
  }
}
