/**
  What the fourteen playable patterns are: the multisets of ranks that form
  each of them, stated without reference to how the program recognises them.
 */
module Patterns {
  import opened Cards

  /** `n` copies of one rank. */
  ghost function Copies(r: Rank, n: nat): multiset<Rank> {
    multiset{}[r := n]
  }

  /** `n` copies of each of the `k` consecutive ranks starting at `lo`. */
  ghost function Run(lo: Rank, k: nat, n: nat): multiset<Rank>
    requires lo + k - 1 <= BIG_JOKER
    decreases k
  {
    if k == 0 then multiset{} else Run(lo, k - 1, n)[lo + k - 1 := n]
  }

  lemma {:induction false} RunShape(lo: Rank, k: nat, n: nat)
    requires lo + k - 1 <= BIG_JOKER
    ensures forall x: Rank :: Run(lo, k, n)[x] == if lo <= x < lo + k then n else 0
    ensures |Run(lo, k, n)| == k * n
    decreases k
  {
    if k != 0 {
      RunShape(lo, k - 1, n);
      assert k * n == (k - 1) * n + n;
    }
  }

  /** `k` consecutive ranks ending at `top`, none of them above the Ace. */
  ghost predicate IsChain(top: Rank, k: nat) {
    k >= 1 && THREE <= top - k + 1 && top <= ACE
  }

  /** The ranks of the chain of length `k` that ends at `top`. */
  ghost predicate InChain(x: Rank, top: Rank, k: nat) {
    top - k < x <= top
  }

  ghost predicate OutsideChain(m: multiset<Rank>, top: Rank, k: nat) {
    forall x: Rank :: InChain(x, top, k) ==> x !in m
  }

  /** The ranks `m` are exactly `n` copies of a chain ending at `top`, plus `wings`. */
  ghost predicate IsChainWith(m: multiset<Rank>, top: Rank, k: nat, n: nat, wings: multiset<Rank>) {
    IsChain(top, k) && OutsideChain(wings, top, k) && m == Run(top - k + 1, k, n) + wings
  }

  ghost predicate IsTripleWithSingle(m: multiset<Rank>, r: Rank) {
    exists k: Rank :: k != r && m == Copies(r, 3) + Copies(k, 1)
  }

  ghost predicate IsTripleWithPair(m: multiset<Rank>, r: Rank) {
    exists k: Rank :: k != r && m == Copies(r, 3) + Copies(k, 2)
  }

  ghost predicate IsFourWithTwoSingles(m: multiset<Rank>, r: Rank) {
    exists j: Rank, k: Rank :: j != r && k != r && m == Copies(r, 4) + (Copies(j, 1) + Copies(k, 1))
  }

  ghost predicate IsFourWithTwoPairs(m: multiset<Rank>, r: Rank) {
    exists j: Rank, k: Rank :: j != r && k != r && j != k && m == Copies(r, 4) + (Copies(j, 2) + Copies(k, 2))
  }

  ghost predicate IsStraight(m: multiset<Rank>, top: Rank) {
    |m| >= 5 && IsChainWith(m, top, |m|, 1, multiset{})
  }

  ghost predicate IsConsecutivePairs(m: multiset<Rank>, top: Rank) {
    |m| >= 6 && |m| % 2 == 0 && IsChainWith(m, top, |m| / 2, 2, multiset{})
  }

  ghost predicate IsAirplane(m: multiset<Rank>, top: Rank) {
    |m| >= 6 && |m| % 3 == 0 && IsChainWith(m, top, |m| / 3, 3, multiset{})
  }

  /** k >= 2 consecutive triples and k further cards of other ranks. */
  ghost predicate IsAirplaneWithSingles(m: multiset<Rank>, top: Rank) {
    && |m| >= 8 && |m| % 4 == 0
    && exists wings :: |wings| == |m| / 4 && IsChainWith(m, top, |m| / 4, 3, wings)
  }

  /** k >= 2 consecutive triples and k pairs of other, distinct ranks. */
  ghost predicate IsAirplaneWithPairs(m: multiset<Rank>, top: Rank) {
    && |m| >= 10 && |m| % 5 == 0
    && exists pairs: set<Rank> ::
      |pairs| == |m| / 5 && IsChainWith(m, top, |m| / 5, 3, multiset(pairs) + multiset(pairs))
  }

  /** The ranks `m` can be read as the play `p`. */
  ghost predicate Forms(m: multiset<Rank>, p: Play) {
    && p.cardCount == |m|
    && match p.pattern
       case Invalid => false
       case Single => m == Copies(p.mainRank, 1)
       case Pair => m == Copies(p.mainRank, 2)
       case Triple => m == Copies(p.mainRank, 3)
       case Bomb => m == Copies(p.mainRank, 4)
       case Rocket => p.mainRank == BIG_JOKER && m == multiset{SMALL_JOKER, BIG_JOKER}
       case TripleWithSingle => IsTripleWithSingle(m, p.mainRank)
       case TripleWithPair => IsTripleWithPair(m, p.mainRank)
       case FourWithTwoSingles => IsFourWithTwoSingles(m, p.mainRank)
       case FourWithTwoPairs => IsFourWithTwoPairs(m, p.mainRank)
       case Straight => IsStraight(m, p.mainRank)
       case ConsecutivePairs => IsConsecutivePairs(m, p.mainRank)
       case Airplane => IsAirplane(m, p.mainRank)
       case AirplaneWithSingles => IsAirplaneWithSingles(m, p.mainRank)
       case AirplaneWithPairs => IsAirplaneWithPairs(m, p.mainRank)
  }

  // ---------- The same patterns, rank by rank ----------

  /** Every rank of the chain ending at `top` occurs exactly `n` times. */
  ghost predicate ChainOf(m: multiset<Rank>, top: Rank, k: nat, n: nat) {
    IsChain(top, k) && forall x: Rank :: InChain(x, top, k) ==> m[x] == n
  }

  /** Ranks outside the chain do not occur. */
  ghost predicate NothingElse(m: multiset<Rank>, top: Rank, k: nat) {
    forall x: Rank :: !InChain(x, top, k) ==> m[x] == 0
  }

  ghost predicate BareChain(m: multiset<Rank>, top: Rank, k: nat, n: nat) {
    ChainOf(m, top, k, n) && NothingElse(m, top, k)
  }

  ghost predicate HasPair(m: multiset<Rank>) {
    exists k: Rank :: m[k] == 2
  }

  ghost predicate HasTwoPairs(m: multiset<Rank>) {
    exists j: Rank, k: Rank :: j != k && m[j] == 2 && m[k] == 2
  }

  /** Ranks outside the chain come in pairs. */
  ghost predicate OnlyPairsElse(m: multiset<Rank>, top: Rank, k: nat) {
    forall x: Rank :: !InChain(x, top, k) ==> m[x] == 0 || m[x] == 2
  }

  /** The multiplicities that each pattern requires. */
  ghost predicate Counted(m: multiset<Rank>, p: Play) {
    && p.cardCount == |m|
    && match p.pattern
       case Invalid => false
       case Single => |m| == 1 && m[p.mainRank] == 1
       case Pair => |m| == 2 && m[p.mainRank] == 2
       case Triple => |m| == 3 && m[p.mainRank] == 3
       case Bomb => |m| == 4 && m[p.mainRank] == 4
       case Rocket => p.mainRank == BIG_JOKER && |m| == 2 && SMALL_JOKER in m && BIG_JOKER in m
       case TripleWithSingle => |m| == 4 && m[p.mainRank] == 3
       case TripleWithPair => |m| == 5 && m[p.mainRank] == 3 && HasPair(m)
       case FourWithTwoSingles => |m| == 6 && m[p.mainRank] == 4
       case FourWithTwoPairs => |m| == 8 && m[p.mainRank] == 4 && HasTwoPairs(m)
       case Straight => |m| >= 5 && BareChain(m, p.mainRank, |m|, 1)
       case ConsecutivePairs => |m| >= 6 && |m| % 2 == 0 && BareChain(m, p.mainRank, |m| / 2, 2)
       case Airplane => |m| >= 6 && |m| % 3 == 0 && BareChain(m, p.mainRank, |m| / 3, 3)
       case AirplaneWithSingles => |m| >= 8 && |m| % 4 == 0 && ChainOf(m, p.mainRank, |m| / 4, 3)
       case AirplaneWithPairs =>
         && |m| >= 10 && |m| % 5 == 0
         && ChainOf(m, p.mainRank, |m| / 5, 3) && OnlyPairsElse(m, p.mainRank, |m| / 5)
  }

  // ---------- Small facts about multisets ----------

  lemma {:induction false} FullSubset(a: multiset<Rank>, b: multiset<Rank>)
    requires a <= b && |a| == |b|
    ensures a == b
  {
    assert b == a + (b - a);
    assert |b - a| == 0;
  }

  lemma {:induction false} OneLeft(w: multiset<Rank>) returns (k: Rank)
    requires |w| == 1
    ensures w == Copies(k, 1)
  {
    k :| k in w;
    assert Copies(k, 1) <= w;
    FullSubset(Copies(k, 1), w);
  }

  lemma {:induction false} TwoLeft(w: multiset<Rank>) returns (j: Rank, k: Rank)
    requires |w| == 2
    ensures w == Copies(j, 1) + Copies(k, 1)
  {
    j :| j in w;
    var rest := w - Copies(j, 1);
    assert w == Copies(j, 1) + rest;
    k := OneLeft(rest);
  }

  // ---------- Forms <==> Counted ----------

  lemma {:induction false} ChainCounted(m: multiset<Rank>, top: Rank, k: nat, n: nat, wings: multiset<Rank>)
    requires IsChainWith(m, top, k, n, wings)
    ensures ChainOf(m, top, k, n)
    ensures forall x: Rank :: !InChain(x, top, k) ==> m[x] == wings[x]
    ensures |m| == k * n + |wings|
  {
    RunShape(top - k + 1, k, n);
  }

  lemma {:induction false} ChainFormed(m: multiset<Rank>, top: Rank, k: nat, n: nat) returns (wings: multiset<Rank>)
    requires ChainOf(m, top, k, n)
    ensures IsChainWith(m, top, k, n, wings)
    ensures |m| == k * n + |wings|
    ensures forall x: Rank :: wings[x] == if InChain(x, top, k) then 0 else m[x]
  {
    var run := Run(top - k + 1, k, n);
    RunShape(top - k + 1, k, n);
    wings := m - run;
    forall x: Rank ensures wings[x] == if InChain(x, top, k) then 0 else m[x] {
      assert run[x] == if InChain(x, top, k) then n else 0;
    }
    assert m == run + wings;
  }

  lemma {:induction false} BareChainForms(m: multiset<Rank>, top: Rank, k: nat, n: nat)
    requires n >= 1
    ensures IsChainWith(m, top, k, n, multiset{}) <==> BareChain(m, top, k, n)
    ensures BareChain(m, top, k, n) ==> |m| == k * n
  {
    if IsChainWith(m, top, k, n, multiset{}) {
      ChainCounted(m, top, k, n, multiset{});
    }
    if BareChain(m, top, k, n) {
      var wings := ChainFormed(m, top, k, n);
      assert wings == multiset{};
    }
  }

  lemma {:induction false} KickerForms(m: multiset<Rank>, r: Rank)
    ensures IsTripleWithSingle(m, r) <==> |m| == 4 && m[r] == 3
    ensures IsTripleWithPair(m, r) <==> |m| == 5 && m[r] == 3 && HasPair(m)
  {
    if |m| == 4 && m[r] == 3 {
      var rest := m - Copies(r, 3);
      assert m == Copies(r, 3) + rest;
      var k := OneLeft(rest);
      assert rest[r] == 0 && rest[k] == 1;
    }
    if IsTripleWithPair(m, r) {
      var k: Rank :| k != r && m == Copies(r, 3) + Copies(k, 2);
      assert m[k] == 2;
    }
    if |m| == 5 && m[r] == 3 && HasPair(m) {
      var k: Rank :| m[k] == 2;
      FullSubset(Copies(r, 3) + Copies(k, 2), m);
    }
  }

  lemma {:induction false} FourWithTwoSinglesForms(m: multiset<Rank>, r: Rank)
    ensures IsFourWithTwoSingles(m, r) <==> |m| == 6 && m[r] == 4
  {
    if IsFourWithTwoSingles(m, r) {
      var j: Rank, k: Rank :| j != r && k != r && m == Copies(r, 4) + (Copies(j, 1) + Copies(k, 1));
    }
    if |m| == 6 && m[r] == 4 {
      var rest := m - Copies(r, 4);
      assert m == Copies(r, 4) + rest;
      var j, k := TwoLeft(rest);
      assert rest[r] == 0 && rest[j] >= 1 && rest[k] >= 1;
    }
  }

  lemma {:induction false} FourWithTwoPairsForms(m: multiset<Rank>, r: Rank)
    ensures IsFourWithTwoPairs(m, r) <==> |m| == 8 && m[r] == 4 && HasTwoPairs(m)
  {
    if IsFourWithTwoPairs(m, r) {
      var j: Rank, k: Rank :|
        j != r && k != r && j != k && m == Copies(r, 4) + (Copies(j, 2) + Copies(k, 2));
      assert m[j] == 2 && m[k] == 2;
    }
    if |m| == 8 && m[r] == 4 && HasTwoPairs(m) {
      var j: Rank, k: Rank :| j != k && m[j] == 2 && m[k] == 2;
      FullSubset(Copies(r, 4) + (Copies(j, 2) + Copies(k, 2)), m);
    }
  }

  lemma {:induction false} AirplaneWithSinglesForms(m: multiset<Rank>, top: Rank)
    ensures IsAirplaneWithSingles(m, top) <==> |m| >= 8 && |m| % 4 == 0 && ChainOf(m, top, |m| / 4, 3)
  {
    var k := |m| / 4;
    if IsAirplaneWithSingles(m, top) {
      var wings :| |wings| == k && IsChainWith(m, top, k, 3, wings);
      ChainCounted(m, top, k, 3, wings);
    }
    if |m| >= 8 && |m| % 4 == 0 && ChainOf(m, top, k, 3) {
      var wings := ChainFormed(m, top, k, 3);
    }
  }

  lemma {:induction false} AirplaneWithPairsForms(m: multiset<Rank>, top: Rank)
    ensures IsAirplaneWithPairs(m, top) <==>
      |m| >= 10 && |m| % 5 == 0 && ChainOf(m, top, |m| / 5, 3) && OnlyPairsElse(m, top, |m| / 5)
  {
    var k := |m| / 5;
    if IsAirplaneWithPairs(m, top) {
      var pairs: set<Rank> :| |pairs| == k && IsChainWith(m, top, k, 3, multiset(pairs) + multiset(pairs));
      ChainCounted(m, top, k, 3, multiset(pairs) + multiset(pairs));
    }
    if |m| >= 10 && |m| % 5 == 0 && ChainOf(m, top, k, 3) && OnlyPairsElse(m, top, k) {
      var wings := ChainFormed(m, top, k, 3);
      var pairs := set x: Rank | wings[x] == 2;
      assert wings == multiset(pairs) + multiset(pairs);
      assert |wings| == 2 * |pairs|;
    }
  }

  lemma {:induction false} CopiesForms(m: multiset<Rank>, r: Rank, n: nat)
    ensures m == Copies(r, n) <==> |m| == n && m[r] == n
  {
    if |m| == n && m[r] == n {
      FullSubset(Copies(r, n), m);
    }
  }

  /** The multiset reading and the rank-by-rank reading of every pattern agree. */
  lemma {:induction false} FormsIffCounted(m: multiset<Rank>, p: Play)
    ensures Forms(m, p) <==> Counted(m, p)
  {
    var r := p.mainRank;
    match p.pattern
    case Invalid =>
    case Single => CopiesForms(m, r, 1);
    case Pair => CopiesForms(m, r, 2);
    case Triple => CopiesForms(m, r, 3);
    case Bomb => CopiesForms(m, r, 4);
    case Rocket =>
      if |m| == 2 && SMALL_JOKER in m && BIG_JOKER in m {
        FullSubset(multiset{SMALL_JOKER, BIG_JOKER}, m);
      }
    case TripleWithSingle => KickerForms(m, r);
    case TripleWithPair => KickerForms(m, r);
    case FourWithTwoSingles => FourWithTwoSinglesForms(m, r);
    case FourWithTwoPairs => FourWithTwoPairsForms(m, r);
    case Straight => BareChainForms(m, r, |m|, 1);
    case ConsecutivePairs => BareChainForms(m, r, |m| / 2, 2);
    case Airplane => BareChainForms(m, r, |m| / 3, 3);
    case AirplaneWithSingles => AirplaneWithSinglesForms(m, r);
    case AirplaneWithPairs => AirplaneWithPairsForms(m, r);
  }

  // ---------- Which readings exclude each other ----------

  lemma {:induction false} TwoRanks(m: multiset<Rank>, a: Rank, b: Rank)
    requires a != b
    ensures m[a] + m[b] <= |m|
  {
    assert m == m[a := 0][b := 0] + (Copies(a, m[a]) + Copies(b, m[b]));
  }

  /** Four of a kind and two pairs leave no room for a third kind of three or more. */
  lemma {:induction false} FourWithTwoPairsIsFull(m: multiset<Rank>, r: Rank, x: Rank)
    requires |m| == 8 && m[r] == 4 && HasTwoPairs(m) && x != r
    ensures m[x] <= 2
  {
    var j: Rank, k: Rank :| j != k && m[j] == 2 && m[k] == 2;
    FullSubset(Copies(r, 4) + (Copies(j, 2) + Copies(k, 2)), m);
  }

  /** How often ranks may occur in each pattern; enough to tell patterns of one size apart. */
  lemma {:induction false} Multiplicities(m: multiset<Rank>, p: Play)
    requires Counted(m, p)
    ensures p.mainRank in m
    ensures p.pattern == Straight ==> forall x: Rank :: m[x] <= 1
    ensures p.pattern == ConsecutivePairs ==> forall x: Rank :: m[x] == 0 || m[x] == 2
    ensures p.pattern == Airplane ==> forall x: Rank :: m[x] == 0 || m[x] == 3
    ensures p.pattern in {Airplane, AirplaneWithSingles, AirplaneWithPairs} ==> m[p.mainRank] == 3
    ensures p.pattern == AirplaneWithPairs ==> HasPair(m) && forall x: Rank :: m[x] in {0, 2, 3}
  {
    if p.pattern == AirplaneWithPairs {
      var k := |m| / 5;
      var wings := ChainFormed(m, p.mainRank, k, 3);
      assert wings != multiset{};
      var x :| x in wings;
      assert m[x] == 2;
    }
  }

  /** Equal chains of one multiplicity, with nothing else of that multiplicity, end at the same rank. */
  lemma {:induction false} SameChain(m: multiset<Rank>, a: Rank, b: Rank, k: nat, n: nat)
    requires ChainOf(m, a, k, n) && ChainOf(m, b, k, n)
    requires forall x: Rank :: !InChain(x, a, k) ==> m[x] != n
    ensures a == b
  {
    assert InChain(b, b, k);
    var low: Rank := b - k + 1;
    assert InChain(low, b, k);
    assert m[b] == n && m[low] == n;
  }

  /** A run of k triples lies inside every chain that holds all the triples. */
  lemma {:induction false} TriplesInside(m: multiset<Rank>, a: Rank, j: nat, b: Rank, k: nat)
    requires ChainOf(m, a, j, 3) && ChainOf(m, b, k, 3)
    requires forall x: Rank :: !InChain(x, a, j) ==> m[x] != 3
    ensures k <= j
  {
    var low: Rank := b - k + 1;
    assert InChain(b, b, k) && InChain(low, b, k);
    assert m[b] == 3 && m[low] == 3;
  }

  lemma {:induction false} SamePatternSameRank(m: multiset<Rank>, p: Play, q: Play)
    requires Counted(m, p) && Counted(m, q)
    requires p.pattern == q.pattern && p.pattern != AirplaneWithSingles
    ensures p == q
  {
    var a, b := p.mainRank, q.mainRank;
    match p.pattern
    case Rocket =>
    case Straight => SameChain(m, a, b, |m|, 1);
    case ConsecutivePairs => SameChain(m, a, b, |m| / 2, 2);
    case Airplane => SameChain(m, a, b, |m| / 3, 3);
    case AirplaneWithPairs => SameChain(m, a, b, |m| / 5, 3);
    case FourWithTwoPairs =>
      if a != b {
        FourWithTwoPairsIsFull(m, a, b);
      }
    case _ =>
      if a != b {
        TwoRanks(m, a, b);
      }
  }

  ghost predicate AirplaneClash(p: Play, q: Play) {
    p.pattern == Airplane && q.pattern == AirplaneWithSingles
  }

  lemma {:induction false} PairsAgainstSingles(m: multiset<Rank>, p: Play, q: Play)
    requires Counted(m, p) && Counted(m, q)
    requires p.pattern == AirplaneWithPairs
    ensures q.pattern != AirplaneWithSingles
  {
    if q.pattern == AirplaneWithSingles {
      TriplesInside(m, p.mainRank, |m| / 5, q.mainRank, |m| / 4);
    }
  }

  /** Recognises the patterns with four equal ranks by size and multiplicity. */
  lemma {:induction false} FoursStandAlone(m: multiset<Rank>, p: Play, q: Play)
    requires Counted(m, p) && Counted(m, q)
    requires p.pattern in {Bomb, FourWithTwoSingles, FourWithTwoPairs}
    ensures p.pattern == q.pattern
  {
    Multiplicities(m, q);
    if p.mainRank != q.mainRank {
      TwoRanks(m, p.mainRank, q.mainRank);
      if p.pattern == FourWithTwoPairs {
        FourWithTwoPairsIsFull(m, p.mainRank, q.mainRank);
      }
    }
  }

  lemma {:induction false} DifferentPatterns(m: multiset<Rank>, p: Play, q: Play)
    requires Counted(m, p) && Counted(m, q)
    ensures p.pattern == q.pattern || AirplaneClash(p, q) || AirplaneClash(q, p)
  {
    Multiplicities(m, p);
    Multiplicities(m, q);
    if p.pattern in {Bomb, FourWithTwoSingles, FourWithTwoPairs} {
      FoursStandAlone(m, p, q);
    } else if q.pattern in {Bomb, FourWithTwoSingles, FourWithTwoPairs} {
      FoursStandAlone(m, q, p);
    } else if p.pattern == AirplaneWithPairs {
      PairsAgainstSingles(m, p, q);
    } else if q.pattern == AirplaneWithPairs {
      PairsAgainstSingles(m, q, p);
    } else if p.pattern == Rocket || q.pattern == Rocket {
      var r := if p.pattern == Rocket then q.mainRank else p.mainRank;
      TwoRanks(m, SMALL_JOKER, BIG_JOKER);
      if r < SMALL_JOKER {
        TwoRanks(m, r, SMALL_JOKER);
      }
    }
  }

  /**
    A list of cards has at most one reading, except that an airplane may also be
    read as a shorter airplane with single wings, and that an airplane with
    single wings may be read with several main ranks.
   */
  lemma {:induction false} ReadingsExclusive(m: multiset<Rank>, p: Play, q: Play)
    requires Forms(m, p) && Forms(m, q)
    ensures p.pattern == q.pattern || AirplaneClash(p, q) || AirplaneClash(q, p)
    ensures p.pattern == q.pattern && p.pattern != AirplaneWithSingles ==> p == q
  {
    FormsIffCounted(m, p);
    FormsIffCounted(m, q);
    DifferentPatterns(m, p, q);
    if p.pattern == q.pattern && p.pattern != AirplaneWithSingles {
      SamePatternSameRank(m, p, q);
    }
  }

  ghost predicate ReadsAs(m: multiset<Rank>, pattern: Pattern) {
    exists q: Play :: q.pattern == pattern && Forms(m, q)
  }

  lemma {:induction false} Divisible(n: nat)
    requires n % 3 == 0 && n % 4 == 0
    ensures n % 12 == 0
  {
    assert n == 12 * (n / 3 - n / 4);
  }

  lemma {:induction false} ClashDivides(m: multiset<Rank>, p: Play, q: Play)
    requires Forms(m, p) && p.pattern == Airplane
    requires Forms(m, q) && q.pattern == AirplaneWithSingles
    ensures |m| % 12 == 0
  {
    hide IsChainWith;
    Divisible(|m|);
  }

  /** An airplane of t triples also reads as k triples with k single wings exactly when 4k = 3t. */
  lemma {:induction false} AirplaneClashIff(m: multiset<Rank>, p: Play)
    requires Forms(m, p) && p.pattern == Airplane
    ensures ReadsAs(m, AirplaneWithSingles) <==> |m| % 12 == 0
  {
    if ReadsAs(m, AirplaneWithSingles) {
      var q: Play :| q.pattern == AirplaneWithSingles && Forms(m, q);
      ClashDivides(m, p, q);
    }
    if |m| % 12 == 0 {
      ShorterChain(m, p);
      hide IsChainWith;
      AirplaneWithSinglesForms(m, p.mainRank);
      assert Forms(m, Play(AirplaneWithSingles, p.mainRank, |m|));
    }
  }

  lemma {:induction false} ShorterChain(m: multiset<Rank>, p: Play)
    requires Forms(m, p) && p.pattern == Airplane
    ensures ChainOf(m, p.mainRank, |m| / 4, 3)
  {
    FormsIffCounted(m, p);
    forall x: Rank | InChain(x, p.mainRank, |m| / 4)
      ensures m[x] == 3
    {
      assert InChain(x, p.mainRank, |m| / 3);
    }
  }
}
