/**
  The reading of a list of cards that the patterns themselves determine, when it
  is the only one, and `can_beat`. The tests of `analyze` are in `Analyzer`.
 */
module CardRules {
  import opened Cards
  import opened Patterns

  // ---------- The reference: which reading a list of cards has ----------

  /**
    `p` is the reading of the ranks `m`. An airplane is preferred to an airplane
    with single wings, and among several of the latter the lowest is taken.
   */
  ghost predicate IsVerdict(m: multiset<Rank>, p: Play) {
    if p.pattern == Invalid then
      p == NO_PLAY && forall q :: !Forms(m, q)
    else
      && Forms(m, p)
      && (p.pattern == AirplaneWithSingles ==>
            && !ReadsAs(m, Airplane)
            && forall q :: Forms(m, q) && q.pattern == AirplaneWithSingles ==> p.mainRank <= q.mainRank)
  }

  lemma {:induction false} VerdictUnique(m: multiset<Rank>, p: Play, q: Play)
    requires IsVerdict(m, p) && IsVerdict(m, q)
    ensures p == q
  {
    if p.pattern != Invalid && q.pattern != Invalid {
      ReadingsExclusive(m, p, q);
    }
  }

  lemma {:induction false} LowestAirplane(m: multiset<Rank>, p: Play) returns (low: Play)
    requires Forms(m, p) && p.pattern == AirplaneWithSingles
    ensures Forms(m, low) && low.pattern == AirplaneWithSingles
    ensures forall q :: Forms(m, q) && q.pattern == AirplaneWithSingles ==> low.mainRank <= q.mainRank
    decreases p.mainRank
  {
    low := p;
    if q :| Forms(m, q) && q.pattern == AirplaneWithSingles && q.mainRank < p.mainRank {
      low := LowestAirplane(m, q);
    }
  }

  lemma {:induction false} VerdictExists(m: multiset<Rank>)
    ensures exists p :: IsVerdict(m, p)
  {
    if q :| Forms(m, q) {
      if ReadsAs(m, Airplane) {
        var a: Play :| a.pattern == Airplane && Forms(m, a);
        assert IsVerdict(m, a);
      } else if q.pattern == AirplaneWithSingles {
        var low := LowestAirplane(m, q);
        assert IsVerdict(m, low);
      } else {
        assert IsVerdict(m, q);
      }
    } else {
      assert IsVerdict(m, NO_PLAY);
    }
  }

  /** The reading of a multiset of ranks. */
  ghost function Classify(m: multiset<Rank>): (p: Play)
    ensures IsVerdict(m, p)
  {
    VerdictExists(m);
    var p :| IsVerdict(m, p);
    p
  }

  /** Mentioned by a proof that needs to look inside a play. */
  ghost predicate Opened(cards: seq<Card>, really: bool) {
    really
  }

  /**
    The reading of a list of cards. It is held behind `Opened`, so that proofs
    about rounds, which treat plays as values, do not unfold the patterns.
   */
  ghost function PlayOf(cards: seq<Card>): Play {
    var p :| forall b {:trigger Opened(cards, b)} :: Opened(cards, b) ==> p == Classify(RanksOf(cards));
    p
  }

  lemma {:induction false} PlayOfIs(cards: seq<Card>)
    ensures PlayOf(cards) == Classify(RanksOf(cards))
  {
    assert Opened(cards, true);
  }

  /** Invalid means that no pattern fits, and any reading other than a clashing airplane is the verdict. */
  lemma {:induction false} ClassifyComplete(m: multiset<Rank>, q: Play)
    requires Forms(m, q)
    ensures Classify(m).pattern != Invalid
    ensures Classify(m) != q ==> q.pattern == AirplaneWithSingles
    ensures q.pattern == AirplaneWithSingles && |m| % 12 != 0 ==> Classify(m).pattern == AirplaneWithSingles
  {
    var p := Classify(m);
    ReadingsExclusive(m, p, q);
    if p.pattern == Airplane {
      AirplaneClashIff(m, p);
    }
  }

  /** Suits and order never matter. */
  lemma {:induction false} PlayIgnoresOrder(a: seq<Card>, b: seq<Card>)
    requires multiset(a) == multiset(b)
    ensures PlayOf(a) == PlayOf(b)
  {
    RanksIgnoreOrder(a, b);
    PlayOfIs(a);
    PlayOfIs(b);
  }

  /** Two overlapping runs of triples join into one. */
  lemma {:induction false} JoinedRuns(m: multiset<Rank>, a: Rank, b: Rank, k: nat)
    requires ChainOf(m, a, k, 3) && ChainOf(m, b, k, 3) && a < b <= a + k
    ensures ChainOf(m, b, k + (b - a), 3)
  {
    forall x: Rank | InChain(x, b, k + (b - a))
      ensures m[x] == 3
    {
      assert InChain(x, a, k) || InChain(x, b, k);
    }
  }

  lemma {:induction false} OtherRunNeedsRoom(m: multiset<Rank>, a: Rank, b: Rank, k: nat)
    requires |m| == 4 * k
    requires ChainOf(m, a, k, 3) && ChainOf(m, b, k, 3) && a < b
    ensures 3 * (b - a) <= k
    ensures 3 * (b - a) == k ==> BareChain(m, b, k + (b - a), 3)
  {
    var wings := ChainFormed(m, a, k, 3);
    if a + k <= b {
      var rest := ChainFormed(wings, b, k, 3);
      assert false;
    } else {
      JoinedRuns(m, a, b, k);
      var rest := ChainFormed(m, b, k + (b - a), 3);
      if 3 * (b - a) == k {
        assert rest == multiset{};
      }
    }
  }

  /** The cards can be read as an airplane with single wings in two ways. */
  ghost predicate Ambiguous(m: multiset<Rank>) {
    exists a: Rank, b: Rank :: a < b && IsAirplaneWithSingles(m, a) && IsAirplaneWithSingles(m, b)
  }

  /** `n` consecutive ranks occur three times each. */
  ghost predicate HasRun(m: multiset<Rank>, n: nat) {
    exists top: Rank :: ChainOf(m, top, n, 3)
  }

  lemma {:induction false} LongerRun(m: multiset<Rank>, a: Rank, b: Rank)
    requires a < b && IsAirplaneWithSingles(m, a) && IsAirplaneWithSingles(m, b)
    ensures |m| >= 8 && |m| % 4 == 0 && ChainOf(m, b, |m| / 4 + 1, 3)
  {
    AirplaneWithSinglesForms(m, a);
    AirplaneWithSinglesForms(m, b);
    hide IsAirplaneWithSingles;
    var k := |m| / 4;
    OtherRunNeedsRoom(m, a, b, k);
    JoinedRuns(m, a, b, k);
    ShorterRun(m, b, k + (b - a), k + 1);
  }

  lemma {:induction false} ShorterRun(m: multiset<Rank>, top: Rank, k: nat, j: nat)
    requires ChainOf(m, top, k, 3) && 1 <= j <= k
    ensures ChainOf(m, top, j, 3)
    ensures j < k ==> ChainOf(m, top - 1, j, 3)
  {
    forall x: Rank | InChain(x, top, j) || (j < k && InChain(x, top - 1, j))
      ensures m[x] == 3
    {
      assert InChain(x, top, k);
    }
  }

  /**
    For every hand: an airplane of k triples with k single wings has a choice of
    runs exactly when the hand holds k + 1 consecutive triples.
   */
  lemma {:induction false} AmbiguousIff(m: multiset<Rank>)
    ensures Ambiguous(m) <==>
      |m| >= 8 && |m| % 4 == 0 && HasRun(m, |m| / 4 + 1)
  {
    hide IsAirplaneWithSingles, ChainOf;
    if Ambiguous(m) {
      var a: Rank, b: Rank :| a < b && IsAirplaneWithSingles(m, a) && IsAirplaneWithSingles(m, b);
      LongerRun(m, a, b);
    }
    var n := |m| / 4 + 1;
    if |m| >= 8 && |m| % 4 == 0 && HasRun(m, n) {
      var top: Rank :| ChainOf(m, top, n, 3);
      var low := TwoRuns(m, top);
    }
  }

  lemma {:induction false} TwoRuns(m: multiset<Rank>, top: Rank) returns (low: Rank)
    requires |m| >= 8 && |m| % 4 == 0 && ChainOf(m, top, |m| / 4 + 1, 3)
    ensures low < top && IsAirplaneWithSingles(m, low) && IsAirplaneWithSingles(m, top)
  {
    hide IsAirplaneWithSingles;
    ShorterRun(m, top, |m| / 4 + 1, |m| / 4);
    low := top - 1;
    AirplaneWithSinglesForms(m, low);
    AirplaneWithSinglesForms(m, top);
  }

  /** Up to fifteen cards, an airplane with single wings has only one possible run. */
  lemma {:induction false} SmallAirplaneUnambiguous(m: multiset<Rank>, q: Play)
    requires Classify(m).pattern == AirplaneWithSingles && |m| < 16
    requires Forms(m, q) && q.pattern == AirplaneWithSingles
    ensures q == Classify(m)
  {
    var p := Classify(m);
    FormsIffCounted(m, p);
    FormsIffCounted(m, q);
    var k := |m| / 4;
    if p.mainRank < q.mainRank {
      OtherRunNeedsRoom(m, p.mainRank, q.mainRank, k);
      var top := q.mainRank;
      assert BareChain(m, top, 4, 3);
      FormsIffCounted(m, Play(Airplane, top, |m|));
    }
  }

  /** Five consecutive triples and one more card. */
  ghost function SixteenCards(): multiset<Rank> {
    Run(3, 5, 3) + Copies(8, 1)
  }

  lemma {:induction false} SixteenReadings(top: Rank)
    requires 6 <= top <= 7
    ensures Forms(SixteenCards(), Play(AirplaneWithSingles, top, 16))
  {
    RunShape(3, 5, 3);
    assert ChainOf(SixteenCards(), top, 4, 3);
    AirplaneWithSinglesForms(SixteenCards(), top);
  }

  /** Sixteen cards, at most four of a rank, can be read with two runs; the lower one is taken. */
  lemma {:induction false} AmbiguousAtSixteen()
    ensures forall x: Rank :: SixteenCards()[x] <= 4
    ensures Forms(SixteenCards(), Play(AirplaneWithSingles, 6, 16))
    ensures Forms(SixteenCards(), Play(AirplaneWithSingles, 7, 16))
    ensures Classify(SixteenCards()) == Play(AirplaneWithSingles, 6, 16)
  {
    hide Forms;
    var m := SixteenCards();
    SixteenReadings(6);
    SixteenReadings(7);
    SixteenVerdict(m);
    RunShape(3, 5, 3);
  }

  lemma {:induction false} SixteenVerdict(m: multiset<Rank>)
    requires Forms(m, Play(AirplaneWithSingles, 6, 16))
    ensures Classify(m) == Play(AirplaneWithSingles, 6, 16)
  {
    hide Forms, IsVerdict, ReadsAs;
    var low := Play(AirplaneWithSingles, 6, 16);
    FormsSize(m, low);
    ClassifyComplete(m, low);
    NoLowerRun(m, Classify(m), low);
  }

  lemma {:induction false} FormsSize(m: multiset<Rank>, p: Play)
    requires Forms(m, p)
    ensures p.cardCount == |m|
  {
  }

  /** A run of four triples that starts with Three is the lowest one. */
  lemma {:induction false} NoLowerRun(m: multiset<Rank>, p: Play, low: Play)
    requires |m| == 16 && IsVerdict(m, p) && p.pattern == AirplaneWithSingles
    requires Forms(m, low) && low == Play(AirplaneWithSingles, 6, 16)
    ensures p == low
  {
    FormsIffCounted(m, p);
    FormsIffCounted(m, low);
    hide Forms, ReadsAs;
  }

  // ---------- can_beat ----------

  predicate CanBeat(current: Play, previous: Play) {
    if current.pattern == Invalid || previous.pattern == Invalid then false
    else if current.pattern == Rocket then previous.pattern != Rocket
    else if current.pattern == Bomb then
      previous.pattern != Rocket && (previous.pattern != Bomb || current.mainRank > previous.mainRank)
    else
      && current.pattern == previous.pattern
      && current.cardCount == previous.cardCount
      && current.mainRank > previous.mainRank
  }

  /** A rocket is above every bomb, a bomb above every other play. */
  function Tier(p: Play): nat {
    if p.pattern == Rocket then 2 else if p.pattern == Bomb then 1 else 0
  }

  /** On plays that cards can form, `can_beat` is: a higher tier, or the same kind of play with a higher main rank. */
  lemma {:induction false} BeatsByTier(m: multiset<Rank>, p: Play, n: multiset<Rank>, q: Play)
    requires Forms(m, p) && Forms(n, q)
    ensures CanBeat(p, q) <==>
      || Tier(p) > Tier(q)
      || (p.pattern == q.pattern && p.cardCount == q.cardCount && p.mainRank > q.mainRank)
  {
    FormsIffCounted(m, p);
    FormsIffCounted(n, q);
  }

  /** `can_beat` is a strict partial order, and nothing beats a rocket. */
  lemma {:induction false} BeatIsStrictOrder(p: Play, q: Play, r: Play)
    ensures !CanBeat(p, p)
    ensures CanBeat(p, q) ==> !CanBeat(q, p)
    ensures CanBeat(p, q) && CanBeat(q, r) ==> CanBeat(p, r)
    ensures p.pattern == Rocket ==> !CanBeat(q, p)
  {
  }
}
