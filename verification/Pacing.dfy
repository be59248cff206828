/** How long a game lasts: every deadline is enforced in time, so a room in play is gone within a bounded time. */
module Pacing {
  import opened Wrappers
  import opened Clock
  import opened Deck
  import opened Rounds
  import opened RoundSteps
  import opened RoundRuns
  import opened Lobbies
  import opened LobbySteps
  import opened LobbyRuns

  /** When a call is made; marking a player present reads no clock. */
  function TimeOf(e: Event): Option<int> {
    match e
    case Match(_, now, _) => Some(now)
    case Do(_, _, now) => Some(now)
    case Online(_) => None
    case Offline(_, now) => Some(now)
    case Tick(now, _) => Some(now)
    case Idle(now) => Some(now)
    case Expiry(now) => Some(now)
  }

  function ClockAfter(clock: int, e: Event): int {
    if TimeOf(e).Some? then TimeOf(e).value else clock
  }

  function SweepAfter(sweep: int, e: Event): int {
    if e.Tick? then e.now else sweep
  }

  /**
    Time does not run backwards, and the next sweep comes at most `gap` after the
    last one, before anything later happens.
   */
  ghost predicate Timely(sweep: int, clock: int, trace: seq<Record>, gap: nat)
    decreases |trace|
  {
    trace == [] ||
    (var e := trace[0].e;
     && clock <= ClockAfter(clock, e) <= sweep + gap
     && Timely(SweepAfter(sweep, e), ClockAfter(clock, e), trace[1..], gap))
  }

  function ClockAt(clock: int, trace: seq<Record>): int
    decreases |trace|
  {
    if trace == [] then clock else ClockAt(ClockAfter(clock, trace[0].e), trace[1..])
  }

  /** The room was found in time by the last sweep, and that was not long ago. */
  ghost predicate InTime(s: Lobby, id: nat, sweep: int, clock: int, gap: nat) {
    && id in s.rooms
    && s.rooms[id].lastActivity <= clock && sweep < s.rooms[id].lastActivity + 15 * SECOND
    && sweep <= clock <= sweep + gap
  }

  /** One call leaves the room alone, or is an accepted action in it that costs measure and resets its clock. */
  ghost predicate Paced(room: Room, room1: Room, e: Event) {
    || (room1 == room && (e.Tick? ==> !Overdue(room, e.now)))
    || ((e.Do? || e.Tick?) && room1.lastActivity == e.now && GoesOn(room, room1, true))
  }

  lemma {:induction false} MovedAt(room: Room, round: Round, now: int)
    ensures Moved(room, round, now).lastActivity == now
  {
  }

  lemma {:induction false} DoPace(s: Lobby, p: PlayerId, deed: Deed, now: int, id: nat)
    requires Inv(s) && InPlay(s, id) && id in Done(s, p, deed, now).rooms
    ensures Paced(s.rooms[id], Done(s, p, deed, now).rooms[id], Do(p, deed, now))
  {
    InPlayRunning(s, id);
    DoneGone(s, p, deed, now);
    hide RoomOk, Valid, Moved;
    if Playing(s, p) && s.placed[p] == id && Accepted(RoundOf(s, p), Asked(s, p, deed)) {
      StepGoesOn(s.rooms[id], Asked(s, p, deed), now);
      MovedAt(s.rooms[id], After(RoundOf(s, p), Asked(s, p, deed)), now);
      hide Accepted, After;
    }
  }

  lemma {:induction false} TickPace(s: Lobby, now: int, random: nat -> Draws, id: nat)
    requires Inv(s) && InPlay(s, id) && id in Ticked(s, now, random).rooms
    ensures Paced(s.rooms[id], Ticked(s, now, random).rooms[id], Tick(now, random))
  {
    InPlayRunning(s, id);
    RoundsAreValid(s);
    hide RoomOk, Valid, Moved, RoundsValid;
    if Overdue(s.rooms[id], now) {
      var a := Expire(random(id));
      assert Accepted(s.rooms[id].round.value, a);
      assert After(s.rooms[id].round.value, a).phase != Settled;
      StepGoesOn(s.rooms[id], a, now);
      MovedAt(s.rooms[id], After(s.rooms[id].round.value, a), now);
      hide Accepted, After;
    }
  }

  lemma {:induction false} RoomPace(s: Lobby, e: Event, id: nat)
    requires Inv(s) && InPlay(s, id) && id in NextLobby(s, e).rooms
    ensures Paced(s.rooms[id], NextLobby(s, e).rooms[id], e)
  {
    hide Paced, Done, Ticked;
    match e
    case Do(p, deed, now) => DoPace(s, p, deed, now, id);
    case Tick(now, random) => TickPace(s, now, random, id);
    case _ =>
      OtherFate(s, e, id);
      Unmoved(s.rooms[id], e);
  }

  lemma {:induction false} Unmoved(room: Room, e: Event)
    requires !e.Do? && !e.Tick?
    ensures Paced(room, room, e)
  {
  }

  lemma {:induction false} DeadlineInPlay(s: Lobby, id: nat)
    requires Inv(s) && InPlay(s, id)
    ensures s.rooms[id].deadline == Some(s.rooms[id].lastActivity + 15 * SECOND)
    ensures PlayMeasure(s, id) >= 9
  {
    InPlayRunning(s, id);
    PlayingFloor(s.rooms[id].round.value);
  }

  lemma {:induction false} StaysInTime(s: Lobby, e: Event, id: nat, sweep: int, clock: int, gap: nat)
    requires Inv(s) && InPlay(s, id) && InTime(s, id, sweep, clock, gap)
    requires clock <= ClockAfter(clock, e) <= sweep + gap
    requires Inv(NextLobby(s, e)) && InPlay(NextLobby(s, e), id)
    ensures InTime(NextLobby(s, e), id, SweepAfter(sweep, e), ClockAfter(clock, e), gap)
    ensures var before, after := s.rooms[id].lastActivity, NextLobby(s, e).rooms[id].lastActivity;
      || (after == before && PlayMeasure(NextLobby(s, e), id) <= PlayMeasure(s, id))
      || (after < before + 15 * SECOND + gap && PlayMeasure(NextLobby(s, e), id) < PlayMeasure(s, id))
  {
    hide Inv, NextLobby, Measure, RoomOk, Valid;
    RoomPace(s, e, id);
    DeadlineInPlay(s, id);
  }

  /** From an action on, at most this long for each unit of measure that is left. */
  function Allowance(measure: nat, gap: nat): int {
    if measure <= 8 then 0 else (15 * SECOND + gap) + Allowance(measure - 1, gap)
  }

  lemma {:induction false} AllowanceGrows(a: nat, b: nat, gap: nat)
    requires a <= b
    ensures 0 <= Allowance(a, gap) <= Allowance(b, gap)
    ensures a < b && b >= 9 ==> Allowance(a, gap) + 15 * SECOND + gap <= Allowance(b, gap)
    decreases b
  {
    if b > 8 {
      if a < b {
        AllowanceGrows(a, b - 1, gap);
      } else {
        AllowanceGrows(a - 1, b - 1, gap);
      }
    }
  }

  lemma {:induction false} AllowanceIs(measure: nat, gap: nat)
    requires measure >= 8
    ensures Allowance(measure, gap) == (measure - 8) * (15 * SECOND + gap)
  {
    if measure > 8 {
      AllowanceIs(measure - 1, gap);
    }
  }

  lemma {:induction false} RoomEndsInTime(
    s: Lobby, trace: seq<Record>, id: nat, sweep: int, clock: int, gap: nat)
    requires Inv(s) && InPlay(s, id) && InTime(s, id, sweep, clock, gap) && Timely(sweep, clock, trace, gap)
    ensures id in EndOf(s, trace).rooms ==>
      ClockAt(clock, trace) < s.rooms[id].lastActivity + Allowance(PlayMeasure(s, id), gap)
    decreases |trace|
  {
    DeadlineInPlay(s, id);
    if trace == [] {
      AllowanceGrows(8, PlayMeasure(s, id), gap);
    } else {
      var e := trace[0].e;
      var s1 := NextLobby(s, e);
      RoomFate(s, e, id);
      if id in s1.rooms {
        StaysInTime(s, e, id, sweep, clock, gap);
        RoomEndsInTime(s1, trace[1..], id, SweepAfter(sweep, e), ClockAfter(clock, e), gap);
        AllowanceGrows(PlayMeasure(s1, id), PlayMeasure(s, id), gap);
      } else {
        BilledIffGone(s, e);
        GoneForever(s1, trace[1..], id);
      }
      hide Inv, InPlay, NextLobby, InTime, Measure, Allowance;
    }
  }

  /**
    Whatever the players do: if sweeps come at most `gap` apart, the room of a game
    is gone within 154 times fifteen seconds and `gap` after its landlord is chosen.
   */
  lemma {:induction false} GameEndsInTime(s: Lobby, trace: seq<Record>, id: nat, sweep: int, gap: nat)
    requires Inv(s) && InPlay(s, id) && PlayBegins(s.rooms[id].round.value)
    requires sweep <= s.rooms[id].lastActivity <= sweep + gap && Timely(sweep, s.rooms[id].lastActivity, trace, gap)
    requires ClockAt(s.rooms[id].lastActivity, trace) >= s.rooms[id].lastActivity + 154 * (15 * SECOND + gap)
    ensures id !in EndOf(s, trace).rooms
  {
    RoomEndsInTime(s, trace, id, sweep, s.rooms[id].lastActivity, gap);
    AllowanceIs(PlayMeasure(s, id), gap);
    hide Inv, EndOf, Timely, ClockAt;
  }
}
