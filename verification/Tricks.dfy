/** A round together with the plays laid so far: card conservation, and what a trick may contain. */
module Tricks {
  import opened Lists
  import opened Wrappers
  import opened Cards
  import opened Patterns
  import opened CardRules
  import opened Deck
  import opened Rounds
  import opened RoundSteps

  datatype Move = Move(seat: nat, cards: seq<Card>)

  /** `played` are all plays since the deal, `trick` those of the open trick. */
  datatype Table = Table(round: Round, played: seq<Move>, trick: seq<Move>)

  ghost function CardsOf(moves: seq<Move>): multiset<Card> {
    if moves == [] then multiset{} else CardsOf(moves[..|moves| - 1]) + multiset(moves[|moves| - 1].cards)
  }

  /** The play that an accepted operation lays, if any. */
  ghost function Laid(r: Round, a: Action): Option<Move>
    requires Valid(r)
  {
    if !Accepted(r, a) || r.phase != PlayCards then None else
    match a
    case Lay(seat, cards) => Some(Move(seat, cards))
    case Expire(draws) =>
      (match Default(r, draws)
       case Lay(seat, cards) => Some(Move(seat, cards))
       case _ => None)
    case _ => None
  }

  ghost function Step(t: Table, a: Action): Table
    requires Valid(t.round)
  {
    match Laid(t.round, a)
    case None => t.(round := After(t.round, a))
    case Some(move) =>
      Table(After(t.round, a), t.played + [move], if t.round.lastPlay.None? then [move] else t.trick + [move])
  }

  // ---------- What every reachable table satisfies ----------

  /** Hands, bottom cards and plays are the deck: no card is lost, doubled or invented. */
  ghost predicate Conserved(t: Table)
    requires |t.round.hands| == 3
  {
    match t.round.phase
    case WaitingPlayers => t.played == []
    case CallLandlord => t.played == [] && Held(t.round) + multiset(t.round.bottom) == FullDeck()
    case _ => Held(t.round) + CardsOf(t.played) == FullDeck()
  }

  /** Every play of the trick beats all plays before it. */
  ghost predicate Rising(trick: seq<Move>) {
    && (forall i :: 0 <= i < |trick| ==> PlayOf(trick[i].cards).pattern != Invalid)
    && forall i, j :: 0 <= i < j < |trick| ==> CanBeat(PlayOf(trick[j].cards), PlayOf(trick[i].cards))
  }

  ghost predicate IsEnd(trick: seq<Move>, played: seq<Move>) {
    |trick| <= |played| && trick == played[|played| - |trick|..]
  }

  lemma {:induction false} EndExtends(trick: seq<Move>, played: seq<Move>, move: Move)
    requires IsEnd(trick, played)
    ensures IsEnd(trick + [move], played + [move]) && IsEnd([move], played + [move])
  {
  }

  /** The trick ends with the last play, and is the end of all plays. */
  ghost predicate TrickMatches(t: Table) {
    && IsEnd(t.trick, t.played)
    && (t.round.lastPlay.Some? ==>
          && t.trick != []
          && t.round.lastSeat == Some(t.trick[|t.trick| - 1].seat)
          && t.round.lastCards == t.trick[|t.trick| - 1].cards
          && t.round.lastPlay == Some(PlayOf(t.trick[|t.trick| - 1].cards)))
  }

  ghost predicate TableInv(t: Table) {
    Valid(t.round) && Conserved(t) && TrickMatches(t) && Rising(t.trick)
  }

  lemma {:induction false} CardsOfAppend(moves: seq<Move>, move: Move)
    ensures CardsOf(moves + [move]) == CardsOf(moves) + multiset(move.cards)
  {
    assert (moves + [move])[..|moves + [move]| - 1] == moves;
  }

  lemma {:induction false} RisingExtends(trick: seq<Move>, move: Move)
    requires Rising(trick) && trick != []
    requires CanBeat(PlayOf(move.cards), PlayOf(trick[|trick| - 1].cards))
    ensures Rising(trick + [move])
  {
    var last := PlayOf(trick[|trick| - 1].cards);
    forall i | 0 <= i < |trick|
      ensures CanBeat(PlayOf(move.cards), PlayOf(trick[i].cards))
    {
      BeatIsStrictOrder(PlayOf(move.cards), last, PlayOf(trick[i].cards));
    }
  }

  lemma {:induction false} LaidIsLegal(r: Round, a: Action)
    requires Valid(r) && Laid(r, a).Some?
    ensures PlayOk(r, Laid(r, a).value.seat, Laid(r, a).value.cards)
    ensures After(r, a) == Played(r, Laid(r, a).value.seat, Laid(r, a).value.cards)
  {
    if a.Expire? {
      DefaultAccepted(r, a.draws);
    }
  }

  /** What a laid play does to the cards held and to the record of the last play. */
  ghost predicate LaysDown(r: Round, r1: Round, move: Move)
    requires Valid(r) && Valid(r1)
  {
    && r1.phase in {PlayCards, Settled}
    && Held(r1) + multiset(move.cards) == Held(r)
    && r1.lastPlay == Some(PlayOf(move.cards)) && r1.lastSeat == Some(move.seat) && r1.lastCards == move.cards
    && PlayOf(move.cards).pattern != Invalid
    && (r.lastPlay.Some? ==> CanBeat(PlayOf(move.cards), r.lastPlay.value))
  }

  lemma {:induction false} LaidLaysDown(r: Round, a: Action)
    requires Valid(r) && Laid(r, a).Some?
    ensures r.phase == PlayCards && Valid(After(r, a)) && LaysDown(r, After(r, a), Laid(r, a).value)
  {
    var move := Laid(r, a).value;
    LaidIsLegal(r, a);
    StepValid(r, a);
    PlayMovesCards(r, move.seat, move.cards);
  }

  /** A call leaves the calling phase only by picking up the bottom cards. */
  lemma {:induction false} CalledOnly(r: Round, a: Action)
    requires Valid(r) && r.phase == CallLandlord
    ensures After(r, a).phase == CallLandlord || (After(r, a).phase == PlayCards && Held(After(r, a)) == FullDeck())
    ensures After(r, a).lastPlay.None? || After(r, a) == r
  {
    if After(r, a).phase == PlayCards {
      BottomPickedUp(r, After(r, a).seat);
    }
  }

  lemma {:induction false} PassedOnly(r: Round, a: Action)
    requires Valid(r) && r.phase != CallLandlord && Laid(r, a).None?
    ensures After(r, a) == r || (r.phase == PlayCards && After(r, a) == Passed(r))
  {
  }

  lemma {:induction false} NotLaid(r: Round, a: Action)
    requires Valid(r) && Laid(r, a).None?
    ensures Valid(After(r, a))
    ensures After(r, a).lastPlay.Some? ==>
      After(r, a).lastPlay == r.lastPlay && After(r, a).lastSeat == r.lastSeat && After(r, a).lastCards == r.lastCards
    ensures r.phase == PlayCards ==> After(r, a).phase == PlayCards && After(r, a).hands == r.hands
    ensures r.phase == Settled || r.phase == WaitingPlayers ==> After(r, a) == r
    ensures r.phase == CallLandlord ==>
      || (After(r, a).phase == CallLandlord)
      || (After(r, a).phase == PlayCards && Held(After(r, a)) == FullDeck())
  {
    hide Valid, After, Held, Laid;
    StepValid(r, a);
    if r.phase == CallLandlord {
      CalledOnly(r, a);
    } else {
      PassedOnly(r, a);
    }
  }

  lemma {:induction false} LaysDownConserves(t: Table, t1: Table, move: Move)
    requires Valid(t.round) && Valid(t1.round) && t.round.phase == PlayCards
    requires Conserved(t) && LaysDown(t.round, t1.round, move)
    requires t1.played == t.played + [move]
    ensures Conserved(t1)
  {
    CardsOfAppend(t.played, move);
    assert Held(t1.round) + CardsOf(t1.played) == Held(t.round) + CardsOf(t.played);
  }

  lemma {:induction false} LaysDownKeeps(t: Table, t1: Table, move: Move)
    requires TableInv(t) && t.round.phase == PlayCards
    requires Valid(t1.round) && LaysDown(t.round, t1.round, move)
    requires t1.played == t.played + [move]
    requires t1.trick == if t.round.lastPlay.None? then [move] else t.trick + [move]
    ensures TableInv(t1)
  {
    LaysDownConserves(t, t1, move);
    EndExtends(t.trick, t.played, move);
    hide Valid, Conserved, IsEnd;
    if t.round.lastPlay.Some? {
      RisingExtends(t.trick, move);
    }
  }

  lemma {:induction false} LaidKeepsTable(t: Table, a: Action)
    requires TableInv(t) && Laid(t.round, a).Some?
    ensures TableInv(Step(t, a))
  {
    hide After, Accepted, Laid;
    LaidLaysDown(t.round, a);
    LaysDownKeeps(t, Step(t, a), Laid(t.round, a).value);
  }

  lemma {:induction false} OtherConserves(t: Table, a: Action)
    requires Valid(t.round) && Conserved(t) && Laid(t.round, a).None?
    ensures Valid(After(t.round, a)) && Conserved(t.(round := After(t.round, a)))
  {
    NotLaid(t.round, a);
    var r, r1 := t.round, After(t.round, a);
    hide After, Accepted, Laid;
    if r.phase == PlayCards {
      assert Held(r1) == Held(r);
    }
  }

  lemma {:induction false} OtherKeepsTable(t: Table, a: Action)
    requires TableInv(t) && Laid(t.round, a).None?
    ensures TableInv(Step(t, a))
  {
    NotLaid(t.round, a);
    OtherConserves(t, a);
    hide After, Accepted, Laid, Valid, Conserved;
  }

  /** Conservation and the order of the trick survive every operation. */
  lemma {:induction false} StepKeepsTable(t: Table, a: Action)
    requires TableInv(t)
    ensures TableInv(Step(t, a))
  {
    if Laid(t.round, a).Some? {
      LaidKeepsTable(t, a);
    } else {
      OtherKeepsTable(t, a);
    }
  }

  ghost function TableRun(t: Table, actions: seq<Action>): Table
    requires TableInv(t)
    decreases |actions|
  {
    if actions == [] then t
    else
      StepKeepsTable(t, actions[0]);
      TableRun(Step(t, actions[0]), actions[1..])
  }

  lemma {:induction false} TableRunKeeps(t: Table, actions: seq<Action>)
    requires TableInv(t)
    ensures TableInv(TableRun(t, actions))
    decreases |actions|
  {
    if actions != [] {
      StepKeepsTable(t, actions[0]);
      TableRunKeeps(Step(t, actions[0]), actions[1..]);
    }
  }

  /** A table on which the cards have just been dealt. */
  ghost function Dealt(draws: Draws): Table {
    Table(Started(draws), [], [])
  }

  lemma {:induction false} DealtInv(draws: Draws)
    ensures TableInv(Dealt(draws))
  {
    StartedValid(draws);
  }

  // ---------- How long a trick can be ----------

  ghost function OfRank(cards: seq<Card>, r: Rank): set<Card> {
    set c | c in cards && c.rank == r
  }

  lemma {:induction false} RanksAreCards(cards: seq<Card>, r: Rank)
    requires NoRepeats(cards)
    ensures RanksOf(cards)[r] == |OfRank(cards, r)|
  {
    if cards != [] {
      var front, last := cards[..|cards| - 1], cards[|cards| - 1];
      RanksAreCards(front, r);
      assert cards == front + [last];
      assert last !in front;
      assert OfRank(cards, r) == if last.rank == r then OfRank(front, r) + {last} else OfRank(front, r);
      assert last !in OfRank(front, r);
    }
  }

  lemma {:induction false} SubsetCount(a: set<Card>, b: set<Card>)
    requires a <= b
    ensures |a| <= |b|
  {
    assert b == a + (b - a);
  }

  /** Cards of the deck contain a rank at most four times, a joker at most once. */
  lemma {:induction false} RankLimit(cards: seq<Card>, r: Rank)
    requires WithinDeck(multiset(cards))
    ensures RanksOf(cards)[r] <= if r <= TWO then 4 else 1
  {
    DeckNoRepeats(cards);
    RanksAreCards(cards, r);
    var same := OfRank(cards, r);
    if r <= TWO {
      var suits := {Card(r, 0), Card(r, 1), Card(r, 2), Card(r, 3)};
      SubsetCount(same, suits);
    } else {
      SubsetCount(same, {Card(r, 0)});
    }
  }

  lemma {:induction false} PlayCounts(cards: seq<Card>)
    requires PlayOf(cards).pattern != Invalid
    ensures PlayOf(cards).mainRank in RanksOf(cards)
    ensures PlayOf(cards).pattern == Bomb ==> RanksOf(cards)[PlayOf(cards).mainRank] == 4
    ensures PlayOf(cards).pattern == Rocket ==> PlayOf(cards).mainRank == BIG_JOKER
  {
    PlayOfIs(cards);
    FormsIffCounted(RanksOf(cards), PlayOf(cards));
    Multiplicities(RanksOf(cards), PlayOf(cards));
  }

  /** Two plays from one deck, the later beating the earlier, have different main ranks. */
  lemma {:induction false} BeatChangesRank(a: seq<Card>, b: seq<Card>)
    requires WithinDeck(multiset(a + b))
    requires CanBeat(PlayOf(b), PlayOf(a))
    ensures PlayOf(a).mainRank != PlayOf(b).mainRank
  {
    PlayCounts(a);
    PlayCounts(b);
    RanksOfAppend(a, b);
    RankLimit(a + b, PlayOf(b).mainRank);
  }

  lemma {:induction false} TwoMoves(moves: seq<Move>, i: nat, j: nat)
    requires i < j < |moves|
    ensures multiset(moves[i].cards + moves[j].cards) <= CardsOf(moves)
  {
    var front := moves[..|moves| - 1];
    if j < |front| {
      TwoMoves(front, i, j);
    } else {
      OneMove(front, i);
    }
  }

  lemma {:induction false} OneMove(moves: seq<Move>, i: nat)
    requires i < |moves|
    ensures multiset(moves[i].cards) <= CardsOf(moves)
  {
    var front := moves[..|moves| - 1];
    if i < |front| {
      OneMove(front, i);
    }
  }

  lemma {:induction false} PlaysFitDeck(t: Table, i: nat, j: nat)
    requires TableInv(t) && t.round.phase in {PlayCards, Settled}
    requires i < j < |t.played|
    ensures WithinDeck(multiset(t.played[i].cards + t.played[j].cards))
  {
    assert CardsOf(t.played) <= FullDeck();
    TwoMoves(t.played, i, j);
  }

  lemma {:induction false} TrickRanksDiffer(t: Table, i: nat, j: nat)
    requires TableInv(t) && t.round.phase in {PlayCards, Settled}
    requires i < j < |t.trick|
    ensures PlayOf(t.trick[i].cards).mainRank != PlayOf(t.trick[j].cards).mainRank
  {
    hide Valid, Conserved, CardsOf, PlayOf, WithinDeck;
    var skipped := |t.played| - |t.trick|;
    PlaysFitDeck(t, skipped + i, skipped + j);
    assert t.played[skipped + i] == t.trick[i] && t.played[skipped + j] == t.trick[j];
    BeatChangesRank(t.trick[i].cards, t.trick[j].cards);
  }

  lemma {:induction false} DistinctRanks(ranks: seq<Rank>, all: set<Rank>)
    requires forall i, j :: 0 <= i < j < |ranks| ==> ranks[i] != ranks[j]
    requires forall i :: 0 <= i < |ranks| ==> ranks[i] in all
    ensures |ranks| <= |all|
  {
    if ranks != [] {
      var front, last := ranks[..|ranks| - 1], ranks[|ranks| - 1];
      DistinctRanks(front, all - {last});
    }
  }

  ghost const ALL_RANKS: set<Rank> := {3, 4, 5, 6, 7, 8, 9, 10, 11, 12, 13, 14, 15, 16, 17}

  lemma {:induction false} InAllRanks(ranks: seq<Rank>)
    ensures forall i :: 0 <= i < |ranks| ==> ranks[i] in ALL_RANKS
  {
  }

  lemma {:induction false} FifteenRanks()
    ensures |ALL_RANKS| == 15
  {
  }

  /** In every reachable state a trick holds at most fifteen plays, one for each rank. */
  lemma {:induction false} TrickAtMostFifteen(t: Table)
    requires TableInv(t)
    ensures |t.trick| <= 15
  {
    if t.round.phase in {PlayCards, Settled} {
      var ranks := seq(|t.trick|, i requires 0 <= i < |t.trick| => PlayOf(t.trick[i].cards).mainRank);
      forall i, j | 0 <= i < j < |ranks|
        ensures ranks[i] != ranks[j]
      {
        TrickRanksDiffer(t, i, j);
      }
      hide ALL_RANKS;
      InAllRanks(ranks);
      DistinctRanks(ranks, ALL_RANKS);
      FifteenRanks();
    }
  }

  /** The statements above hold in every run from a deal. */
  lemma {:induction false} EveryRun(draws: Draws, actions: seq<Action>)
    ensures TableInv(Dealt(draws))
    ensures TableInv(TableRun(Dealt(draws), actions))
    ensures |TableRun(Dealt(draws), actions).trick| <= 15
  {
    DealtInv(draws);
    TableRunKeeps(Dealt(draws), actions);
    TrickAtMostFifteen(TableRun(Dealt(draws), actions));
  }
}
