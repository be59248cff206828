/**
  `CardRules::analyze` step by step: count the ranks in a map, then try the
  patterns in the program's order. Every step is proved against the patterns
  themselves, and the whole against their unique reading.
 */
module Analyzer {
  import opened Wrappers
  import opened Cards
  import opened Patterns
  import opened CardRules

  type Counts = map<Rank, nat>

  /** The counts of a map are the multiplicities of `m`. */
  ghost predicate Tallies(counts: Counts, m: multiset<Rank>) {
    forall x: Rank :: (x in counts <==> x in m) && (x in counts ==> counts[x] == m[x])
  }

  /** The keys of an ordered map from `from` upwards, as its iterators visit them. */
  function KeysFrom(counts: Counts, from: int): seq<Rank>
    requires THREE <= from
    decreases BIG_JOKER + 1 - from
  {
    if from > BIG_JOKER then []
    else if from in counts then [from] + KeysFrom(counts, from + 1)
    else KeysFrom(counts, from + 1)
  }

  function InOrder(counts: Counts): seq<Rank> {
    KeysFrom(counts, THREE)
  }

  ghost predicate Ascending(keys: seq<Rank>) {
    forall i, j :: 0 <= i < j < |keys| ==> keys[i] < keys[j]
  }

  ghost predicate ListsKeys(keys: seq<Rank>, counts: Counts) {
    && Ascending(keys)
    && |keys| == |counts|
    && forall x: Rank :: x in keys <==> x in counts
  }

  lemma {:induction false} KeysFromAscending(counts: Counts, from: int)
    requires THREE <= from
    ensures Ascending(KeysFrom(counts, from))
    ensures forall x: Rank :: x in KeysFrom(counts, from) <==> x in counts && from <= x
    decreases BIG_JOKER + 1 - from
  {
    if from <= BIG_JOKER {
      KeysFromAscending(counts, from + 1);
      var rest := KeysFrom(counts, from + 1);
      assert forall i :: 0 <= i < |rest| ==> rest[i] in rest;
    }
  }

  lemma {:induction false} AscendingSize(keys: seq<Rank>, s: set<Rank>)
    requires Ascending(keys)
    requires forall x: Rank :: x in keys <==> x in s
    ensures |keys| == |s|
  {
    if keys == [] {
      assert s == {};
    } else {
      var last := keys[|keys| - 1];
      var front := keys[..|keys| - 1];
      forall x: Rank
        ensures x in front <==> x in s - {last}
      {
        if x in s - {last} {
          var i :| 0 <= i < |keys| && keys[i] == x;
          assert front[i] == x;
        }
      }
      AscendingSize(front, s - {last});
    }
  }

  lemma {:induction false} InOrderListsKeys(counts: Counts)
    ensures ListsKeys(InOrder(counts), counts)
  {
    KeysFromAscending(counts, THREE);
    AscendingSize(InOrder(counts), counts.Keys);
  }

  /** The keys of the map are exactly the chain of its size that ends at `top`. */
  ghost predicate KeysAreChain(counts: Counts, top: Rank) {
    IsChain(top, |counts|) && forall x: Rank :: x in counts <==> InChain(x, top, |counts|)
  }

  function Highest(counts: Counts): Rank
    requires |InOrder(counts)| > 0
  {
    InOrder(counts)[|InOrder(counts)| - 1]
  }

  /** The first `n` keys are consecutive numbers. */
  ghost predicate NoGap(keys: seq<Rank>, n: nat) {
    forall i :: 0 <= i < n <= |keys| ==> keys[i] == keys[0] + i
  }

  method Consecutive(counts: Counts) returns (b: bool)
    ensures b ==> |InOrder(counts)| > 0 && KeysAreChain(counts, Highest(counts))
    ensures !b ==> forall top: Rank :: !KeysAreChain(counts, top)
  {
    var keys := InOrder(counts);
    if |keys| == 0 || keys[|keys| - 1] > ACE {
      HighKeyBreaksChain(counts);
      return false;
    }
    var current, next := 0, 1;
    while next != |keys|
      invariant 1 <= next <= |keys| && current == next - 1
      invariant NoGap(keys, next)
    {
      if keys[next] != keys[current] + 1 {
        GapBreaksChain(counts, current);
        return false;
      }
      current, next := current + 1, next + 1;
    }
    NoGapMakesChain(counts);
    return true;
  }

  lemma {:induction false} HighKeyBreaksChain(counts: Counts)
    requires |InOrder(counts)| == 0 || Highest(counts) > ACE
    ensures forall top: Rank :: !KeysAreChain(counts, top)
  {
    InOrderListsKeys(counts);
    if |InOrder(counts)| > 0 {
      assert Highest(counts) in InOrder(counts);
    }
  }

  lemma {:induction false} NothingBetween(keys: seq<Rank>, i: nat, x: Rank)
    requires Ascending(keys)
    requires i + 1 < |keys| && keys[i] < x < keys[i + 1]
    ensures x !in keys
  {
    forall j | 0 <= j < |keys|
      ensures keys[j] != x
    {
      assert j < i ==> keys[j] < keys[i];
      assert j > i + 1 ==> keys[i + 1] < keys[j];
    }
  }

  lemma {:induction false} GapBreaksChain(counts: Counts, i: nat)
    requires i + 1 < |InOrder(counts)| && InOrder(counts)[i + 1] as int != InOrder(counts)[i] as int + 1
    ensures forall top: Rank :: !KeysAreChain(counts, top)
  {
    var keys := InOrder(counts);
    InOrderListsKeys(counts);
    var low, high := keys[i], keys[i + 1];
    assert low in keys && high in keys && low < high;
    var missing: Rank := low + 1;
    NothingBetween(keys, i, missing);
    forall top: Rank
      ensures !KeysAreChain(counts, top)
    {
      assert InChain(low, top, |counts|) && InChain(high, top, |counts|) ==> InChain(missing, top, |counts|);
    }
  }

  lemma {:induction false} NoGapMakesChain(counts: Counts)
    requires |InOrder(counts)| > 0 && Highest(counts) <= ACE
    requires NoGap(InOrder(counts), |InOrder(counts)|)
    ensures KeysAreChain(counts, Highest(counts))
  {
    var keys := InOrder(counts);
    InOrderListsKeys(counts);
    var top := Highest(counts);
    forall x: Rank
      ensures x in counts <==> InChain(x, top, |counts|)
    {
      if InChain(x, top, |counts|) {
        assert keys[x - keys[0]] == x;
      }
    }
  }

  ghost predicate AllAre(counts: Counts, n: nat) {
    forall x: Rank :: x in counts ==> counts[x] == n
  }

  ghost predicate NoneIs(counts: Counts, n: nat) {
    forall x: Rank :: x in counts ==> counts[x] != n
  }

  /** `find_if` over the ordered map: the lowest rank that occurs `n` times. */
  method FindCount(counts: Counts, n: nat) returns (found: Option<Rank>)
    ensures found.Some? ==> found.value in counts && counts[found.value] == n
    ensures found.None? ==> NoneIs(counts, n)
  {
    var keys := InOrder(counts);
    InOrderListsKeys(counts);
    for i := 0 to |keys|
      invariant forall j :: 0 <= j < i ==> counts[keys[j]] != n
    {
      if counts[keys[i]] == n {
        return Some(keys[i]);
      }
    }
    return None;
  }

  method AllCounts(counts: Counts, n: nat) returns (b: bool)
    ensures b <==> AllAre(counts, n)
  {
    var keys := InOrder(counts);
    InOrderListsKeys(counts);
    for i := 0 to |keys|
      invariant forall j :: 0 <= j < i ==> counts[keys[j]] == n
    {
      if counts[keys[i]] != n {
        return false;
      }
    }
    return true;
  }

  ghost predicate ChainAt(counts: Counts, start: int, k: nat) {
    forall x: Rank :: start <= x < start + k ==> x in counts && counts[x] == 3
  }

  /** The lowest run of `k` ranks that occur exactly three times, none above the Ace. */
  method AirplaneMainRank(counts: Counts, k: nat) returns (main: Option<Rank>)
    requires k >= 1
    ensures main.Some? ==> IsChain(main.value, k) && ChainAt(counts, main.value - k + 1, k)
    ensures main.Some? ==> forall s :: THREE <= s < main.value - k + 1 ==> !ChainAt(counts, s, k)
    ensures main.None? ==> forall s :: THREE <= s <= ACE - k + 1 ==> !ChainAt(counts, s, k)
  {
    var start: int := THREE;
    while start + k - 1 <= ACE
      invariant THREE <= start
      invariant forall s :: THREE <= s < start ==> !ChainAt(counts, s, k)
      decreases ACE - start
    {
      var valid := true;
      var offset := 0;
      while offset < k
        invariant 0 <= offset <= k
        invariant valid ==> ChainAt(counts, start, offset)
        invariant !valid ==> !ChainAt(counts, start, k)
        decreases k - offset, valid
      {
        var rank: Rank := start + offset;
        if rank !in counts || counts[rank] != 3 {
          valid := false;
          break;
        }
        offset := offset + 1;
      }
      if valid {
        return Some(start + k - 1);
      }
      start := start + 1;
    }
    return None;
  }

  /** `remaining.erase` for every rank of the chain. */
  method EraseChain(counts: Counts, main: Rank, k: nat) returns (remaining: Counts)
    requires IsChain(main, k)
    ensures forall x: Rank :: x in remaining <==> x in counts && !InChain(x, main, k)
    ensures forall x: Rank :: x in remaining ==> remaining[x] == counts[x]
  {
    remaining := counts;
    for rank := main - k + 1 to main + 1
      invariant forall x: Rank :: x in remaining <==> x in counts && !(main - k < x < rank)
      invariant forall x: Rank :: x in remaining ==> remaining[x] == counts[x]
    {
      remaining := remaining - {rank};
    }
  }

  method TotalOf(counts: Counts, ghost m: multiset<Rank>) returns (total: nat)
    requires Tallies(counts, m)
    ensures total == |m|
  {
    total := 0;
    var rest := counts;
    ghost var left := m;
    while rest != map[]
      invariant Tallies(rest, left)
      invariant total + |left| == |m|
      decreases |rest|
    {
      var rank :| rank in rest;
      total := total + rest[rank];
      rest, left := rest - {rank}, left[rank := 0];
    }
    assert left == multiset{};
  }

  // ---------- The stages of analyze ----------

  lemma {:induction false} TallyOneMore(counts: Counts, m: multiset<Rank>, rank: Rank)
    requires Tallies(counts, m)
    ensures Tallies(counts[rank := (if rank in counts then counts[rank] else 0) + 1], m + multiset{rank})
  {
  }

  method CountRanks(cards: seq<Card>) returns (counts: Counts)
    ensures Tallies(counts, RanksOf(cards))
  {
    counts := map[];
    for i := 0 to |cards|
      invariant Tallies(counts, RanksOf(cards[..i]))
    {
      var rank := cards[i].rank;
      assert RanksOf(cards[..i + 1]) == RanksOf(cards[..i]) + multiset{rank} by {
        assert cards[..i + 1][..i] == cards[..i];
      }
      TallyOneMore(counts, RanksOf(cards[..i]), rank);
      counts := counts[rank := (if rank in counts then counts[rank] else 0) + 1];
    }
    assert cards[..|cards|] == cards;
  }

  /** A stage that tries `patterns`: it finds a reading, or none of them is one. */
  ghost predicate Tries(m: multiset<Rank>, patterns: set<Pattern>, found: Option<Play>) {
    match found
    case Some(p) => Forms(m, p) && p.pattern in patterns
    case None => forall q: Play :: q.pattern in patterns ==> !Forms(m, q)
  }

  lemma {:induction false} KeyIsRank(counts: Counts, m: multiset<Rank>) returns (r: Rank)
    requires Tallies(counts, m) && |counts| == 1
    ensures m == Copies(r, |m|) && r in counts && forall x: Rank :: x in counts ==> x == r
  {
    var keys := InOrder(counts);
    InOrderListsKeys(counts);
    r := keys[0];
    assert m == Copies(r, m[r]);
  }

  lemma {:induction false} UniformHand(m: multiset<Rank>, r: Rank, q: Play)
    requires m == Copies(r, |m|) && |m| >= 5
    ensures !Forms(m, q)
  {
    FormsIffCounted(m, q);
    if Counted(m, q) {
      Multiplicities(m, q);
    }
  }

  /** card_rules.cpp, lines 69-82: all cards have one rank. */
  method SameRank(cards: seq<Card>, counts: Counts) returns (p: Play)
    requires Tallies(counts, RanksOf(cards)) && |counts| == 1
    ensures IsVerdict(RanksOf(cards), p)
  {
    var keys := InOrder(counts);
    InOrderListsKeys(counts);
    ghost var m := RanksOf(cards);
    ghost var r := KeyIsRank(counts, m);
    assert cards != [] by {
      assert r in m;
    }
    var highest := keys[|keys| - 1];
    match |cards|
    case 1 => p := Play(Single, highest, 1);
    case 2 => p := Play(Pair, highest, 2);
    case 3 => p := Play(Triple, highest, 3);
    case 4 => p := Play(Bomb, highest, 4);
    case _ =>
      p := NO_PLAY;
      forall q
        ensures !Forms(m, q)
      {
        UniformHand(m, r, q);
      }
  }

  lemma {:induction false} TwoKeys(counts: Counts, m: multiset<Rank>)
    requires Tallies(counts, m) && |counts| >= 2
    ensures Tries(m, {Single, Pair, Triple, Bomb}, None)
  {
    var a :| a in counts.Keys;
    assert |counts.Keys - {a}| >= 1;
    var b :| b in counts.Keys - {a};
    assert m[a] > 0 && m[b] > 0;
  }

  lemma {:induction false} FullHouseHasTwoKeys(m: multiset<Rank>, counts: Counts, r: Rank)
    requires Tallies(counts, m) && IsTripleWithPair(m, r)
    ensures |counts| == 2
  {
    var k: Rank :| k != r && m == Copies(r, 3) + Copies(k, 2);
    assert counts.Keys == {r, k};
  }

  lemma {:induction false} NoTriplePatterns(m: multiset<Rank>, counts: Counts)
    requires Tallies(counts, m)
    requires |m| == 4 ==> NoneIs(counts, 3)
    requires |m| == 5 && |counts| == 2 ==> NoneIs(counts, 3) || NoneIs(counts, 2)
    ensures Tries(m, {TripleWithSingle, TripleWithPair}, None)
  {
    forall r: Rank
      ensures !IsTripleWithSingle(m, r) && !IsTripleWithPair(m, r)
    {
      KickerForms(m, r);
      if IsTripleWithPair(m, r) {
        FullHouseHasTwoKeys(m, counts, r);
      }
    }
  }

  /** card_rules.cpp, lines 84-95: three of a kind with a single or a pair. */
  method TriplePatterns(cards: seq<Card>, counts: Counts) returns (found: Option<Play>)
    requires Tallies(counts, RanksOf(cards))
    ensures Tries(RanksOf(cards), {TripleWithSingle, TripleWithPair}, found)
  {
    ghost var m := RanksOf(cards);
    var triple := FindCount(counts, 3);
    if |cards| == 4 && triple.Some? {
      KickerForms(m, triple.value);
      return Some(Play(TripleWithSingle, triple.value, |cards|));
    }
    if |cards| == 5 && triple.Some? && |counts| == 2 {
      var pair := FindCount(counts, 2);
      if pair.Some? {
        assert m[pair.value] == 2;
        KickerForms(m, triple.value);
        return Some(Play(TripleWithPair, triple.value, |cards|));
      }
    }
    NoTriplePatterns(m, counts);
    return None;
  }

  lemma {:induction false} NoFourPatterns(m: multiset<Rank>, counts: Counts)
    requires Tallies(counts, m)
    requires |m| == 6 ==> NoneIs(counts, 4)
    requires |m| == 8 ==> NoneIs(counts, 4) || !HasTwoPairs(m)
    ensures Tries(m, {FourWithTwoSingles, FourWithTwoPairs}, None)
  {
    forall r: Rank
      ensures !IsFourWithTwoSingles(m, r) && !IsFourWithTwoPairs(m, r)
    {
      FourWithTwoSinglesForms(m, r);
      FourWithTwoPairsForms(m, r);
    }
  }

  lemma {:induction false} FourFound(m: multiset<Rank>, r: Rank)
    requires m[r] == 4
    ensures |m| == 6 ==> Forms(m, Play(FourWithTwoSingles, r, 6))
    ensures |m| == 8 && HasTwoPairs(m) ==> Forms(m, Play(FourWithTwoPairs, r, 8))
  {
    FourWithTwoSinglesForms(m, r);
    FourWithTwoPairsForms(m, r);
  }

  /** card_rules.cpp, lines 97-110: four of a kind with two singles or two pairs. */
  method FourPatterns(cards: seq<Card>, counts: Counts) returns (found: Option<Play>)
    requires Tallies(counts, RanksOf(cards))
    ensures Tries(RanksOf(cards), {FourWithTwoSingles, FourWithTwoPairs}, found)
  {
    ghost var m := RanksOf(cards);
    var four := FindCount(counts, 4);
    if four.Some? {
      FourFound(m, four.value);
    }
    if |cards| == 6 && four.Some? {
      return Some(Play(FourWithTwoSingles, four.value, |cards|));
    }
    if |cards| == 8 && four.Some? {
      var remaining := counts - {four.value};
      var pairsOnly := AllCounts(remaining, 2);
      TwoPairsRemain(m, counts, four.value);
      if |remaining| == 2 && pairsOnly {
        return Some(Play(FourWithTwoPairs, four.value, |cards|));
      }
    }
    NoFourPatterns(m, counts);
    return None;
  }

  lemma {:induction false} TwoPairsRemain(m: multiset<Rank>, counts: Counts, r: Rank)
    requires Tallies(counts, m)
    requires |m| == 8 && m[r] == 4
    ensures HasTwoPairs(m) <==>
      |counts - {r}| == 2 && AllAre(counts - {r}, 2)
  {
    var remaining := counts - {r};
    if HasTwoPairs(m) {
      var j: Rank, k: Rank :| j != k && m[j] == 2 && m[k] == 2;
      FullSubset(Copies(r, 4) + (Copies(j, 2) + Copies(k, 2)), m);
      assert remaining.Keys == {j, k};
    }
    if |remaining| == 2 && AllAre(remaining, 2) {
      var keys := InOrder(remaining);
      InOrderListsKeys(remaining);
      assert keys[0] in remaining && keys[1] in remaining && keys[0] < keys[1];
      assert m[keys[0]] == 2 && m[keys[1]] == 2;
    }
  }

  lemma {:induction false} BareChainKeys(m: multiset<Rank>, counts: Counts, top: Rank, k: nat, n: nat)
    requires Tallies(counts, m) && n >= 1
    requires BareChain(m, top, k, n)
    ensures |counts| == k && KeysAreChain(counts, top) && AllAre(counts, n)
  {
    RunShape(top - k + 1, k, 1);
    assert multiset(counts.Keys) == Run(top - k + 1, k, 1);
    assert |multiset(counts.Keys)| == |counts|;
  }

  lemma {:induction false} KeysMakeBareChain(m: multiset<Rank>, counts: Counts, top: Rank, n: nat)
    requires Tallies(counts, m) && n >= 1
    requires KeysAreChain(counts, top) && AllAre(counts, n)
    ensures IsChainWith(m, top, |counts|, n, multiset{}) && |m| == |counts| * n
  {
    assert BareChain(m, top, |counts|, n);
    BareChainForms(m, top, |counts|, n);
  }

  lemma {:induction false} AllDifferent(m: multiset<Rank>, counts: Counts)
    requires Tallies(counts, m)
    ensures |counts| == |m| <==> AllAre(counts, 1)
  {
    var keys := multiset(counts.Keys);
    assert |keys| == |counts|;
    assert keys <= m;
    if |counts| == |m| {
      FullSubset(keys, m);
    }
    if AllAre(counts, 1) {
      assert keys == m;
    }
  }

  lemma {:induction false} NoChain(m: multiset<Rank>, counts: Counts, q: Play, k: nat, n: nat)
    requires Tallies(counts, m) && n >= 1
    requires !AllAre(counts, n) || forall top: Rank :: !KeysAreChain(counts, top)
    ensures !IsChainWith(m, q.mainRank, k, n, multiset{})
  {
    if IsChainWith(m, q.mainRank, k, n, multiset{}) {
      BareChainForms(m, q.mainRank, k, n);
      BareChainKeys(m, counts, q.mainRank, k, n);
    }
  }

  lemma {:induction false} NoChainPatterns(m: multiset<Rank>, counts: Counts, chain: bool)
    requires Tallies(counts, m)
    requires !chain ==> forall top: Rank :: !KeysAreChain(counts, top)
    requires |m| >= 5 && AllAre(counts, 1) ==> !chain
    requires |m| >= 6 && |m| % 2 == 0 && AllAre(counts, 2) ==> !chain
    requires |m| >= 6 && |m| % 3 == 0 && AllAre(counts, 3) ==> !chain
    ensures Tries(m, {Straight, ConsecutivePairs, Airplane}, None)
  {
    forall q: Play | q.pattern in {Straight, ConsecutivePairs, Airplane}
      ensures !Forms(m, q)
    {
      if q.pattern == Straight && |m| >= 5 {
        NoChain(m, counts, q, |m|, 1);
      } else if q.pattern == ConsecutivePairs && |m| >= 6 && |m| % 2 == 0 {
        NoChain(m, counts, q, |m| / 2, 2);
      } else if q.pattern == Airplane && |m| >= 6 && |m| % 3 == 0 {
        NoChain(m, counts, q, |m| / 3, 3);
      }
    }
  }

  lemma {:induction false} StraightFound(m: multiset<Rank>, counts: Counts, top: Rank)
    requires Tallies(counts, m) && KeysAreChain(counts, top) && AllAre(counts, 1) && |m| >= 5
    ensures Forms(m, Play(Straight, top, |m|))
  {
    KeysMakeBareChain(m, counts, top, 1);
  }

  lemma {:induction false} PairsFound(m: multiset<Rank>, counts: Counts, top: Rank)
    requires Tallies(counts, m) && KeysAreChain(counts, top) && AllAre(counts, 2) && |m| >= 6
    ensures Forms(m, Play(ConsecutivePairs, top, |m|))
  {
    KeysMakeBareChain(m, counts, top, 2);
    assert |counts| == |m| / 2;
  }

  lemma {:induction false} TriplesFound(m: multiset<Rank>, counts: Counts, top: Rank)
    requires Tallies(counts, m) && KeysAreChain(counts, top) && AllAre(counts, 3) && |m| >= 6
    ensures Forms(m, Play(Airplane, top, |m|))
  {
    KeysMakeBareChain(m, counts, top, 3);
    assert |counts| == |m| / 3;
  }

  /** card_rules.cpp, lines 112-126: straights, consecutive pairs and airplanes. */
  method ChainPatterns(cards: seq<Card>, counts: Counts) returns (found: Option<Play>)
    requires Tallies(counts, RanksOf(cards))
    ensures Tries(RanksOf(cards), {Straight, ConsecutivePairs, Airplane}, found)
  {
    ghost var m := RanksOf(cards);
    AllDifferent(m, counts);
    var chain := Consecutive(counts);
    var allPairs := AllCounts(counts, 2);
    var allTriples := AllCounts(counts, 3);
    if |cards| >= 5 && |counts| == |cards| && chain {
      StraightFound(m, counts, Highest(counts));
      return Some(Play(Straight, Highest(counts), |cards|));
    }
    if |cards| >= 6 && |cards| % 2 == 0 && chain && allPairs {
      PairsFound(m, counts, Highest(counts));
      return Some(Play(ConsecutivePairs, Highest(counts), |cards|));
    }
    if |cards| >= 6 && |cards| % 3 == 0 && chain && allTriples {
      TriplesFound(m, counts, Highest(counts));
      return Some(Play(Airplane, Highest(counts), |cards|));
    }
    NoChainPatterns(m, counts, chain);
    return None;
  }

  lemma {:induction false} ChainAtIsChainOf(m: multiset<Rank>, counts: Counts, top: Rank, k: nat)
    requires Tallies(counts, m) && IsChain(top, k)
    ensures ChainAt(counts, top - k + 1, k) <==> ChainOf(m, top, k, 3)
  {
    if ChainAt(counts, top - k + 1, k) {
      forall x: Rank | InChain(x, top, k)
        ensures m[x] == 3
      {
        assert x in counts;
      }
    }
    if ChainOf(m, top, k, 3) {
      forall x: Rank | top - k + 1 <= x < top + 1
        ensures x in counts && counts[x] == 3
      {
        assert InChain(x, top, k);
      }
    }
  }

  /** What `airplane_main_rank` finds, said of the ranks instead of the map. */
  ghost predicate LowestRun(m: multiset<Rank>, k: nat, main: Option<Rank>) {
    match main
    case None => forall top: Rank :: !ChainOf(m, top, k, 3)
    case Some(r) => ChainOf(m, r, k, 3) && forall top: Rank :: ChainOf(m, top, k, 3) ==> r <= top
  }

  method FindRun(counts: Counts, k: nat, ghost m: multiset<Rank>) returns (main: Option<Rank>)
    requires Tallies(counts, m) && k >= 1
    ensures LowestRun(m, k, main)
  {
    main := AirplaneMainRank(counts, k);
    forall top: Rank | ChainOf(m, top, k, 3)
      ensures main.Some? && main.value <= top
    {
      ChainAtIsChainOf(m, counts, top, k);
    }
    if main.Some? {
      ChainAtIsChainOf(m, counts, main.value, k);
    }
  }

  /** card_rules.cpp, lines 132-141 and 152-157: the cards left when the run is taken out. */
  method TakeRun(counts: Counts, main: Rank, k: nat, ghost m: multiset<Rank>)
    returns (remaining: Counts, ghost wings: multiset<Rank>)
    requires Tallies(counts, m) && ChainOf(m, main, k, 3)
    ensures Tallies(remaining, wings)
    ensures IsChainWith(m, main, k, 3, wings) && |m| == 3 * k + |wings|
    ensures forall x: Rank :: wings[x] == if InChain(x, main, k) then 0 else m[x]
  {
    wings := ChainFormed(m, main, k, 3);
    remaining := EraseChain(counts, main, k);
  }

  /** card_rules.cpp, lines 128-146. The test of line 142 always succeeds: the wings are what is left of 4k cards. */
  method AirplaneSingles(cards: seq<Card>, counts: Counts) returns (found: Option<Play>)
    requires Tallies(counts, RanksOf(cards))
    ensures Tries(RanksOf(cards), {AirplaneWithSingles}, found)
    ensures found.Some? ==> LowestRun(RanksOf(cards), |cards| / 4, Some(found.value.mainRank))
  {
    ghost var m := RanksOf(cards);
    if |cards| >= 8 && |cards| % 4 == 0 {
      var tripleCount := |cards| / 4;
      var main := FindRun(counts, tripleCount, m);
      if main.Some? {
        ghost var wings;
        var remaining;
        remaining, wings := TakeRun(counts, main.value, tripleCount, m);
        var remainingCards := TotalOf(remaining, wings);
        assert remainingCards == tripleCount;
        if remainingCards == tripleCount {
          return Some(Play(AirplaneWithSingles, main.value, |cards|));
        }
      }
    }
    NoAirplaneSingles(m);
    return None;
  }

  lemma {:induction false} NoAirplaneSingles(m: multiset<Rank>)
    requires |m| >= 8 && |m| % 4 == 0 ==> LowestRun(m, |m| / 4, None)
    ensures Tries(m, {AirplaneWithSingles}, None)
  {
    forall top: Rank
      ensures !IsAirplaneWithSingles(m, top)
    {
      AirplaneWithSinglesForms(m, top);
    }
  }

  /** card_rules.cpp, lines 148-164. */
  method AirplanePairs(cards: seq<Card>, counts: Counts) returns (found: Option<Play>)
    requires Tallies(counts, RanksOf(cards))
    ensures Tries(RanksOf(cards), {AirplaneWithPairs}, found)
  {
    ghost var m := RanksOf(cards);
    if |cards| >= 10 && |cards| % 5 == 0 {
      var tripleCount := |cards| / 5;
      var main := FindRun(counts, tripleCount, m);
      if main.Some? {
        ghost var wings;
        var remaining;
        remaining, wings := TakeRun(counts, main.value, tripleCount, m);
        var allPairs := AllCounts(remaining, 2);
        PairWings(m, main.value, remaining, wings);
        if |remaining| == tripleCount && allPairs {
          return Some(Play(AirplaneWithPairs, main.value, |cards|));
        }
      }
    }
    forall top: Rank
      ensures !IsAirplaneWithPairs(m, top)
    {
      AirplaneWithPairsForms(m, top);
    }
    return None;
  }

  lemma {:induction false} PairWings(m: multiset<Rank>, main: Rank, remaining: Counts, wings: multiset<Rank>)
    requires |m| >= 10 && |m| % 5 == 0 && LowestRun(m, |m| / 5, Some(main))
    requires Tallies(remaining, wings)
    requires forall x: Rank :: wings[x] == if InChain(x, main, |m| / 5) then 0 else m[x]
    requires |m| == 3 * (|m| / 5) + |wings|
    ensures |remaining| == |m| / 5 && AllAre(remaining, 2) ==> IsAirplaneWithPairs(m, main)
    ensures !(|remaining| == |m| / 5 && AllAre(remaining, 2)) ==> forall top: Rank :: !IsAirplaneWithPairs(m, top)
  {
    var k := |m| / 5;
    var keys := multiset(remaining.Keys);
    assert |keys| == |remaining|;
    if AllAre(remaining, 2) {
      assert wings == keys + keys;
      AirplaneWithPairsForms(m, main);
    }
    forall top: Rank | IsAirplaneWithPairs(m, top)
      ensures |remaining| == k && AllAre(remaining, 2)
    {
      AirplaneWithPairsForms(m, top);
      SameChain(m, top, main, k, 3);
      assert AllAre(remaining, 2);
      assert wings == keys + keys;
    }
  }

  // ---------- analyze ----------

  lemma {:induction false} RocketVerdict(m: multiset<Rank>)
    requires |m| == 2 && SMALL_JOKER in m && BIG_JOKER in m
    ensures IsVerdict(m, Play(Rocket, BIG_JOKER, 2))
  {
    FullSubset(multiset{SMALL_JOKER, BIG_JOKER}, m);
  }

  /** `analyze` returns the one reading the patterns give the cards, for every list of cards. */
  method Analyze(cards: seq<Card>) returns (p: Play)
    ensures p == PlayOf(cards)
  {
    ghost var m := RanksOf(cards);
    p := AnalyzeVerdict(cards);
    VerdictUnique(m, p, Classify(m));
    PlayOfIs(cards);
  }

  method AnalyzeVerdict(cards: seq<Card>) returns (p: Play)
    ensures IsVerdict(RanksOf(cards), p)
  {
    ghost var m := RanksOf(cards);
    if |cards| == 0 {
      EmptyHand(m);
      return NO_PLAY;
    }
    var counts := CountRanks(cards);
    if |cards| == 2 && SMALL_JOKER in counts && BIG_JOKER in counts {
      RocketVerdict(m);
      return Play(Rocket, BIG_JOKER, |cards|);
    }
    NotRocket(m);
    if |counts| == 1 {
      p := SameRank(cards, counts);
      return;
    }
    KeyPresent(counts, m);
    TwoKeys(counts, m);
    var found := TriplePatterns(cards, counts);
    if found.Some? {
      return found.value;
    }
    found := FourPatterns(cards, counts);
    if found.Some? {
      return found.value;
    }
    found := ChainPatterns(cards, counts);
    if found.Some? {
      return found.value;
    }
    found := AirplaneSingles(cards, counts);
    if found.Some? {
      LowestVerdict(m, found.value);
      return found.value;
    }
    found := AirplanePairs(cards, counts);
    if found.Some? {
      return found.value;
    }
    forall q: Play
      ensures !Forms(m, q)
    {
      NothingFits(m, q);
    }
    return NO_PLAY;
  }

  lemma {:induction false} EmptyHand(m: multiset<Rank>)
    requires |m| == 0
    ensures IsVerdict(m, NO_PLAY)
  {
    forall q
      ensures !Forms(m, q)
    {
      FormsIffCounted(m, q);
    }
  }

  lemma {:induction false} NotRocket(m: multiset<Rank>)
    requires !(|m| == 2 && SMALL_JOKER in m && BIG_JOKER in m)
    ensures Tries(m, {Rocket}, None)
  {
  }

  lemma {:induction false} KeyPresent(counts: Counts, m: multiset<Rank>)
    requires Tallies(counts, m) && |m| > 0
    ensures |counts| > 0
  {
    var x :| x in m;
    assert x in counts;
  }

  lemma {:induction false} LowestVerdict(m: multiset<Rank>, p: Play)
    requires Forms(m, p) && p.pattern == AirplaneWithSingles
    requires LowestRun(m, |m| / 4, Some(p.mainRank))
    requires Tries(m, {Straight, ConsecutivePairs, Airplane}, None)
    ensures IsVerdict(m, p)
  {
    forall q | Forms(m, q) && q.pattern == AirplaneWithSingles
      ensures p.mainRank <= q.mainRank
    {
      AirplaneWithSinglesForms(m, q.mainRank);
    }
  }

  lemma {:induction false} NothingFits(m: multiset<Rank>, q: Play)
    requires Tries(m, {Rocket}, None)
    requires Tries(m, {Single, Pair, Triple, Bomb}, None)
    requires Tries(m, {TripleWithSingle, TripleWithPair}, None)
    requires Tries(m, {FourWithTwoSingles, FourWithTwoPairs}, None)
    requires Tries(m, {Straight, ConsecutivePairs, Airplane}, None)
    requires Tries(m, {AirplaneWithSingles}, None)
    requires Tries(m, {AirplaneWithPairs}, None)
    ensures !Forms(m, q)
  {
    match q.pattern
    case Invalid =>
    case _ =>
  }
}
