/** Which plays there are: for each pattern the numbers of cards and the main ranks with which it occurs. */
module PlayKinds {
  import opened Cards
  import opened Patterns

  ghost predicate HasHand(p: Play) {
    exists m :: Forms(m, p)
  }

  /**
    The plays in numbers: ranks count from 3 to 17, the Ace is 14, and chains of
    `n` ranks end at n + 2 or above.
   */
  predicate Occurs(p: Play) {
    var n, r := p.cardCount, p.mainRank;
    match p.pattern
    case Invalid => false
    case Single => n == 1
    case Pair => n == 2
    case Triple => n == 3
    case Bomb => n == 4
    case Rocket => n == 2 && r == 17
    case TripleWithSingle => n == 4
    case TripleWithPair => n == 5
    case FourWithTwoSingles => n == 6
    case FourWithTwoPairs => n == 8
    case Straight => n >= 5 && n + 2 <= r <= 14
    case ConsecutivePairs => n % 2 == 0 && n / 2 >= 3 && n / 2 + 2 <= r <= 14
    case Airplane => n % 3 == 0 && n / 3 >= 2 && n / 3 + 2 <= r <= 14
    case AirplaneWithSingles => n % 4 == 0 && n / 4 >= 2 && n / 4 + 2 <= r <= 14
    case AirplaneWithPairs => n % 5 == 0 && 2 <= n / 5 <= 7 && n / 5 + 2 <= r <= 14
  }

  predicate AtLeast(x: Rank, lo: int) {
    lo <= x
  }

  lemma {:induction false} FromRank(lo: int)
    requires 3 <= lo <= 18
    ensures |set x: Rank | AtLeast(x, lo)| == 18 - lo
    decreases 18 - lo
  {
    var some := set x: Rank | AtLeast(x, lo);
    if lo < 18 {
      var next := lo + 1;
      FromRank(next);
      var r: Rank := lo;
      assert some == (set x: Rank | AtLeast(x, next)) + {r};
    } else {
      assert some == {};
    }
  }

  lemma {:induction false} RanksAreFifteen(s: set<Rank>)
    ensures |s| <= 15
  {
    var all := set x: Rank | AtLeast(x, 3);
    FromRank(3);
    assert s <= all by {
      forall x: Rank | x in s
        ensures x in all
      {
        assert AtLeast(x, 3);
      }
    }
    Subset(s, all);
  }

  lemma {:induction false} Subset(a: set<Rank>, b: set<Rank>)
    requires a <= b
    ensures |a| <= |b|
  {
    assert b == a + (b - a);
  }

  ghost function ChainRanks(top: Rank, k: nat): set<Rank> {
    set x: Rank | InChain(x, top, k)
  }

  lemma {:induction false} ChainSize(top: Rank, k: nat)
    requires IsChain(top, k)
    ensures |ChainRanks(top, k)| == k
    decreases k
  {
    if k == 1 {
      assert ChainRanks(top, k) == {top};
    } else {
      ChainSize(top, k - 1);
      var low: Rank := top - k + 1;
      assert ChainRanks(top, k) == ChainRanks(top, k - 1) + {low};
    }
  }

  /** Seven triples leave room for seven pairs of other ranks, eight do not. */
  lemma {:induction false} PairsNeedRoom(m: multiset<Rank>, top: Rank)
    requires IsAirplaneWithPairs(m, top)
    ensures |m| / 5 <= 7
  {
    var k := |m| / 5;
    var pairs: set<Rank> :| |pairs| == k && IsChainWith(m, top, k, 3, multiset(pairs) + multiset(pairs));
    var chain := ChainRanks(top, k);
    ChainSize(top, k);
    assert pairs !! chain;
    RanksAreFifteen(pairs + chain);
  }

  lemma {:induction false} FormsOccurs(m: multiset<Rank>, p: Play)
    requires Forms(m, p)
    ensures Occurs(p)
  {
    if p.pattern == AirplaneWithPairs {
      PairsNeedRoom(m, p.mainRank);
    }
    FormsIffCounted(m, p);
    hide Forms;
  }

  // ---------- Every such play has a hand ----------

  lemma {:induction false} SetOf(s: set<Rank>, n: nat) returns (part: set<Rank>)
    requires n <= |s|
    ensures part <= s && |part| == n
  {
    if n == 0 {
      part := {};
    } else {
      var x :| x in s;
      var rest := SetOf(s - {x}, n - 1);
      part := rest + {x};
    }
  }

  lemma {:induction false} BareHand(top: Rank, k: nat, n: nat) returns (m: multiset<Rank>)
    requires IsChain(top, k)
    ensures |m| == k * n && IsChainWith(m, top, k, n, multiset{})
  {
    RunShape(top - k + 1, k, n);
    m := Run(top - k + 1, k, n);
    assert m + multiset{} == m;
  }

  lemma {:induction false} SinglesHand(top: Rank, k: nat) returns (m: multiset<Rank>)
    requires IsChain(top, k)
    ensures |m| == 4 * k && exists wings :: |wings| == k && IsChainWith(m, top, k, 3, wings)
  {
    RunShape(top - k + 1, k, 3);
    var wings := Copies(BIG_JOKER, k);
    m := Run(top - k + 1, k, 3) + wings;
    assert IsChainWith(m, top, k, 3, wings);
  }

  lemma {:induction false} PairsHand(top: Rank, k: nat) returns (m: multiset<Rank>)
    requires IsChain(top, k) && 2 * k <= 15
    ensures |m| == 5 * k
    ensures exists pairs: set<Rank> :: |pairs| == k && IsChainWith(m, top, k, 3, multiset(pairs) + multiset(pairs))
  {
    RunShape(top - k + 1, k, 3);
    ChainSize(top, k);
    FromRank(3);
    var all := set x: Rank | AtLeast(x, 3);
    var others := all - ChainRanks(top, k);
    forall x: Rank
      ensures x in all
    {
      assert AtLeast(x, 3);
    }
    assert all == others + ChainRanks(top, k);
    var pairs := SetOf(others, k);
    m := Run(top - k + 1, k, 3) + (multiset(pairs) + multiset(pairs));
    forall x: Rank | InChain(x, top, k)
      ensures x !in multiset(pairs) + multiset(pairs)
    {
      assert x in ChainRanks(top, k);
    }
    assert IsChainWith(m, top, k, 3, multiset(pairs) + multiset(pairs));
  }

  lemma {:induction false} ChainHand(p: Play) returns (m: multiset<Rank>)
    requires Occurs(p) && p.pattern in {Straight, ConsecutivePairs, Airplane, AirplaneWithSingles, AirplaneWithPairs}
    ensures Forms(m, p)
  {
    hide IsChainWith;
    match p.pattern
    case Straight => m := BareHand(p.mainRank, p.cardCount, 1);
    case ConsecutivePairs => m := BareHand(p.mainRank, p.cardCount / 2, 2);
    case Airplane => m := BareHand(p.mainRank, p.cardCount / 3, 3);
    case AirplaneWithSingles => m := SinglesHand(p.mainRank, p.cardCount / 4);
    case AirplaneWithPairs => m := PairsHand(p.mainRank, p.cardCount / 5);
  }

  lemma {:induction false} KickerHand(p: Play) returns (m: multiset<Rank>)
    requires Occurs(p) && p.pattern !in {Straight, ConsecutivePairs, Airplane, AirplaneWithSingles, AirplaneWithPairs}
    ensures Forms(m, p)
  {
    var r := p.mainRank;
    var j: Rank := if r == 3 then 4 else 3;
    var k: Rank := if r == 17 then 16 else 17;
    match p.pattern
    case Single => m := Copies(r, 1);
    case Pair => m := Copies(r, 2);
    case Triple => m := Copies(r, 3);
    case Bomb => m := Copies(r, 4);
    case Rocket => m := multiset{SMALL_JOKER, BIG_JOKER};
    case TripleWithSingle => m := Copies(r, 3) + Copies(k, 1);
    case TripleWithPair => m := Copies(r, 3) + Copies(k, 2);
    case FourWithTwoSingles => m := Copies(r, 4) + (Copies(j, 1) + Copies(k, 1));
    case FourWithTwoPairs => m := Copies(r, 4) + (Copies(j, 2) + Copies(k, 2));
  }

  /** Some cards form a play exactly when its numbers are in range. */
  lemma {:induction false} OccursIff(p: Play)
    ensures HasHand(p) <==> Occurs(p)
  {
    hide Forms;
    if HasHand(p) {
      var m :| Forms(m, p);
      FormsOccurs(m, p);
    }
    if Occurs(p) {
      if p.pattern in {Straight, ConsecutivePairs, Airplane, AirplaneWithSingles, AirplaneWithPairs} {
        var m := ChainHand(p);
      } else {
        var m := KickerHand(p);
      }
    }
  }
}
