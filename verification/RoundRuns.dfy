/** Whole runs of a round: turn rotation, the bound on play, and the run in which nobody acts. */
module RoundRuns {
  import opened Wrappers
  import opened Deck
  import opened Rounds
  import opened RoundSteps

  /** The state after a list of operations by anyone, legal or not. */
  ghost function RunOf(r: Round, actions: seq<Action>): Round
    requires Valid(r)
    decreases |actions|
  {
    if actions == [] then r
    else
      StepValid(r, actions[0]);
      RunOf(After(r, actions[0]), actions[1..])
  }

  /** How many of them are accepted. */
  ghost function AcceptedIn(r: Round, actions: seq<Action>): nat
    requires Valid(r)
    decreases |actions|
  {
    if actions == [] then 0
    else
      StepValid(r, actions[0]);
      (if Accepted(r, actions[0]) then 1 else 0) + AcceptedIn(After(r, actions[0]), actions[1..])
  }

  lemma {:induction false} RunValid(r: Round, actions: seq<Action>)
    requires Valid(r)
    ensures Valid(RunOf(r, actions))
    decreases |actions|
  {
    if actions != [] {
      StepValid(r, actions[0]);
      RunValid(After(r, actions[0]), actions[1..]);
    }
  }

  lemma {:induction false} SettledStays(r: Round, actions: seq<Action>)
    requires Valid(r) && r.phase == Settled
    ensures RunOf(r, actions) == r && AcceptedIn(r, actions) == 0
    decreases |actions|
  {
    if actions != [] {
      assert !Accepted(r, actions[0]);
      SettledStays(r, actions[1..]);
    }
  }

  /** `k` seats after `seat` it is that seat's turn, or the seat before it has won. */
  ghost predicate TurnAfter(seat: nat, k: nat, end: Round) {
    || (end.phase == PlayCards && end.seat == (seat + k) % 3)
    || (end.phase == Settled && k >= 1 && end.winner == Some((seat + k - 1) % 3))
  }

  lemma {:induction false} TurnAfterOneMore(seat: nat, k: nat, end: Round)
    requires TurnAfter(Next(seat), k, end)
    ensures TurnAfter(seat, k + 1, end)
  {
    assert (Next(seat) + k) % 3 == (seat + k + 1) % 3;
    if k >= 1 {
      assert (Next(seat) + k - 1) % 3 == (seat + k) % 3;
    }
  }

  /** One operation unfolded from a run. */
  lemma {:induction false} RunStep(r: Round, a: Action, rest: seq<Action>)
    requires Valid(r)
    ensures Valid(After(r, a))
    ensures RunOf(r, [a] + rest) == RunOf(After(r, a), rest)
    ensures AcceptedIn(r, [a] + rest) == (if Accepted(r, a) then 1 else 0) + AcceptedIn(After(r, a), rest)
    ensures !Accepted(r, a) ==> After(r, a) == r
  {
    StepValid(r, a);
    assert ([a] + rest)[1..] == rest;
  }

  /** What `k` accepted operations from `r` to `end` cost, keep and lead to. */
  ghost predicate Outcome(r: Round, end: Round, k: nat)
    requires Valid(r)
  {
    && Valid(end) && Measure(end) + k <= Measure(r)
    && end.landlord == r.landlord
    && TurnAfter(r.seat, k, end)
  }

  lemma {:induction false} OutcomeOneMore(r: Round, r1: Round, end: Round, k: nat)
    requires Valid(r) && r.phase == PlayCards
    requires Outcome(r, r1, 1)
    requires if r1.phase == PlayCards then Outcome(r1, end, k) else end == r1 && k == 0
    ensures Outcome(r, end, k + 1)
  {
    if r1.phase == PlayCards {
      TurnAfterOneMore(r.seat, k, end);
    }
  }

  lemma {:induction false} OneOutcome(r: Round, a: Action)
    requires Valid(r) && r.phase == PlayCards && Accepted(r, a)
    ensures Outcome(r, After(r, a), 1)
  {
    hide After, Accepted;
    AcceptedAdvances(r, a);
  }

  /**
    The turn rotates strictly: after `k` accepted operations it is the turn of the
    `k`-th seat from the one that led, and if the round is over, the seat before
    that has won. Each accepted operation costs at least one unit of the measure.
   */
  lemma {:induction false} TurnsRotate(r: Round, actions: seq<Action>)
    requires Valid(r) && r.phase == PlayCards
    ensures Outcome(r, RunOf(r, actions), AcceptedIn(r, actions))
    decreases |actions|
  {
    hide After, Accepted;
    if actions != [] {
      var a, rest := actions[0], actions[1..];
      assert actions == [a] + rest;
      RunStep(r, a, rest);
      if Accepted(r, a) {
        var r1 := After(r, a);
        OneOutcome(r, a);
        if r1.phase == PlayCards {
          TurnsRotate(r1, rest);
        } else {
          SettledStays(r1, rest);
        }
        OutcomeOneMore(r, r1, RunOf(r1, rest), AcceptedIn(r1, rest));
      } else {
        TurnsRotate(r, rest);
      }
    }
  }

  /** The moment after the landlord is chosen: 54 cards are held and the landlord leads. */
  ghost predicate PlayBegins(r: Round) {
    Valid(r) && r.phase == PlayCards && r.lastPlay.None? && CardsHeld(r) == 54 && r.landlord == Some(r.seat)
  }

  /** The only way into play is the third call, and play begins with the landlord holding 20 cards. */
  lemma {:induction false} EntryToPlay(r: Round, a: Action)
    requires Valid(r) && r.phase != PlayCards && Valid(After(r, a)) && After(r, a).phase == PlayCards
    ensures PlayBegins(After(r, a))
    ensures |After(r, a).hands[After(r, a).seat]| == 20
    ensures r.phase == CallLandlord && r.callCount == 2
  {
  }

  lemma {:induction false} MeasureFloor(r: Round)
    requires Valid(r) && r.phase in {PlayCards, Settled}
    ensures Measure(r) >= 8
  {
    assert r.phase == Settled ==> forall s :: 0 <= s < 3 && s != r.seat ==> |r.hands[s]| >= 1;
  }

  /** From the choice of the landlord on, no run contains more than 154 accepted operations. */
  lemma {:induction false} PlayIsBounded(r: Round, actions: seq<Action>)
    requires PlayBegins(r)
    ensures AcceptedIn(r, actions) <= 154
    ensures RunOf(r, actions).landlord == r.landlord
    ensures TurnAfter(r.landlord.value, AcceptedIn(r, actions), RunOf(r, actions))
  {
    TurnsRotate(r, actions);
    MeasureFloor(RunOf(r, actions));
  }

  ghost predicate OnlyTimeouts(actions: seq<Action>) {
    forall i :: 0 <= i < |actions| ==> actions[i].Expire?
  }

  /** Timeouts alone always bring a round that is being played to its end. */
  lemma {:induction false} TimeoutsSettle(r: Round, actions: seq<Action>)
    requires Valid(r) && r.phase == PlayCards
    requires OnlyTimeouts(actions) && |actions| >= Measure(r)
    ensures RunOf(r, actions).phase == Settled
    decreases |actions|
  {
    MeasureFloor(r);
    var r1 := After(r, actions[0]);
    AcceptedAdvances(r, actions[0]);
    if r1.phase == PlayCards {
      TimeoutsSettle(r1, actions[1..]);
    } else {
      SettledStays(r1, actions[1..]);
    }
  }

  // ---------- The run in which nobody acts ----------

  ghost predicate TrickStart(r: Round) {
    Valid(r) && r.phase == PlayCards && r.lastPlay.None?
  }

  lemma {:induction false} TimeoutLeads(r: Round, draws: Draws)
    requires TrickStart(r)
    ensures Valid(After(r, Expire(draws)))
    ensures var r1 := After(r, Expire(draws)); var n := |r.hands[r.seat]|;
      if n == 1 then r1.phase == Settled && r1.winner == Some(r.seat)
      else && r1.phase == PlayCards && r1.lastSeat == Some(r.seat) && r1.passCount == 0
           && |r1.hands[r.seat]| == n - 1
  {
    var lead := [r.hands[r.seat][0]];
    DefaultAccepted(r, draws);
    StepValid(r, Expire(draws));
    PlayMovesCards(r, r.seat, lead);
  }

  lemma {:induction false} TimeoutFollows(r: Round, draws: Draws)
    requires Valid(r) && r.phase == PlayCards && r.lastPlay.Some?
    ensures var r1 := After(r, Expire(draws));
      && Valid(r1) && r1.phase == PlayCards && r1.hands == r.hands
      && if r.passCount == 0 then r1.lastSeat == r.lastSeat && r1.passCount == 1
         else TrickStart(r1) && r1.seat == r.lastSeat.value
  {
    DefaultAccepted(r, draws);
    StepValid(r, Expire(draws));
  }

  /**
    If nobody acts, the leader of a trick with n cards plays one card in every
    third timeout and wins with timeout 3n - 2, neither earlier nor later.
   */
  lemma {:induction false} NobodyActs(r: Round, actions: seq<Action>)
    requires TrickStart(r) && OnlyTimeouts(actions)
    ensures var n := |r.hands[r.seat]|; var end := RunOf(r, actions);
      if |actions| < 3 * n - 2 then end.phase == PlayCards
      else end.phase == Settled && end.winner == Some(r.seat)
    decreases |actions|
  {
    if actions != [] {
      var r1 := After(r, actions[0]);
      TimeoutLeads(r, actions[0].draws);
      if r1.phase == Settled {
        SettledStays(r1, actions[1..]);
      } else if |actions| > 1 {
        var r2 := After(r1, actions[1]);
        TimeoutFollows(r1, actions[1].draws);
        assert RunOf(r, actions) == RunOf(r2, actions[1..][1..]);
        if |actions| > 2 {
          TimeoutFollows(r2, actions[2].draws);
          assert RunOf(r2, actions[1..][1..]) == RunOf(After(r2, actions[2]), actions[1..][1..][1..]);
          NobodyActs(After(r2, actions[2]), actions[1..][1..][1..]);
        }
      }
    }
  }

  /** A landlord that is left alone wins with the 58th timeout after the calls. */
  lemma {:induction false} LandlordLeftAlone(r: Round, a: Action, actions: seq<Action>)
    requires Valid(r) && r.phase == CallLandlord && Valid(After(r, a)) && After(r, a).phase == PlayCards
    requires OnlyTimeouts(actions)
    ensures RunOf(After(r, a), actions).phase == Settled <==> |actions| >= 58
    ensures |actions| >= 58 ==> RunOf(After(r, a), actions).winner == After(r, a).landlord
  {
    EntryToPlay(r, a);
    NobodyActs(After(r, a), actions);
  }
}
