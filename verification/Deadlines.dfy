/** When rooms are acted on and when they go, told in seconds and in the fields of the rooms. */
module Deadlines {
  import opened Clock
  import opened Lists
  import opened Wrappers
  import opened Deck
  import opened Rounds
  import opened RoundSteps
  import opened Lobbies
  import opened LobbySteps
  import opened ManagerReplies
  import opened RoomManagers
  import opened LobbyRuns
  import opened Presence

  /** When the time of the seat in turn has passed: ten seconds to call, fifteen to play. */
  ghost predicate TimeIsUp(room: Room, now: int) {
    && room.round.Some?
    && room.lastActivity + (if room.round.value.phase == CallLandlord then 10 * SECOND else 15 * SECOND) <= now
  }

  /**
    In every run: a calling room has ten seconds from its last activity, a playing
    one fifteen, and no other phase is stored.
   */
  lemma {:induction false} EveryDeadline(trace: seq<Record>, id: nat)
    requires id in EndOf(NEW_LOBBY, trace).rooms && EndOf(NEW_LOBBY, trace).rooms[id].round.Some?
    ensures var room := EndOf(NEW_LOBBY, trace).rooms[id];
      || (room.round.value.phase == CallLandlord && room.deadline == Some(room.lastActivity + 10 * SECOND))
      || (room.round.value.phase == PlayCards && room.deadline == Some(room.lastActivity + 15 * SECOND))
  {
    EveryLobby(trace);
    assert RoomOk(id, EndOf(NEW_LOBBY, trace).rooms[id]);
    hide Valid, Inv, EndOf;
  }

  lemma {:induction false} TimeIsUpIff(s: Lobby, id: nat, now: int)
    requires Inv(s) && id in s.rooms
    ensures TimeIsUp(s.rooms[id], now) <==> Overdue(s.rooms[id], now)
  {
    assert RoomOk(id, s.rooms[id]);
    hide Valid;
  }

  /**
    A sweep acts on a room exactly when its time is up, by one timeout; the room
    goes exactly when that ends the round.
   */
  lemma {:induction false} SweepActsIff(s: Lobby, now: int, random: nat -> Draws, id: nat)
    requires Inv(s) && id in s.rooms
    ensures var s1 := NextLobby(s, Tick(now, random)); var room := s.rooms[id];
      if !TimeIsUp(room, now) then id in s1.rooms && s1.rooms[id] == room
      else
        && Valid(room.round.value)
        && var r1 := After(room.round.value, Expire(random(id)));
           && (id in s1.rooms <==> r1.phase != Settled)
           && (id in s1.rooms ==>
                 && s1.rooms[id].round == Some(r1) && s1.rooms[id].lastActivity == now
                 && s1.rooms[id].players == room.players && s1.rooms[id].id == room.id)
  {
    TimeIsUpIff(s, id, now);
    RoundsAreValid(s);
    assert RoomOk(id, s.rooms[id]);
    hide Inv, Valid, RoomOk, After, TimeIsUp;
  }

  /** What a sweep reports of a room: who was to act, and the phase and turn after the timeout. */
  ghost predicate Reports(room: Room, room1: Round, action: TimeoutAction)
    requires room.round.Some?
  {
    && action.players == room.players && action.actorSeat == room.round.value.seat
    && action.phase == room1.phase && action.currentSeat == room1.seat
    && (action.settlements == [] <==> room1.phase != Settled)
  }

  /** A sweep reports exactly the rooms whose time is up, each once. */
  lemma {:induction false} SweepReports(
    s: Lobby, now: int, random: nat -> Draws, ids: seq<nat>, actions: seq<TimeoutAction>)
    requires Inv(s) && RoomManager.ListsTimeouts(s, now, random, s.rooms.Keys, ids, actions)
    ensures |ids| == |actions| && NoRepeats(ids)
    ensures forall id :: id in ids <==> id in s.rooms && TimeIsUp(s.rooms[id], now)
    ensures forall i :: 0 <= i < |ids| ==>
      && ids[i] in s.rooms && s.rooms[ids[i]].round.Some? && Valid(s.rooms[ids[i]].round.value)
      && Reports(s.rooms[ids[i]], After(s.rooms[ids[i]].round.value, Expire(random(ids[i]))), actions[i])
  {
    forall id | id in s.rooms
      ensures TimeIsUp(s.rooms[id], now) <==> Overdue(s.rooms[id], now)
    {
      TimeIsUpIff(s, id, now);
    }
    hide Inv, TimeIsUp, Overdue, Reports;
    forall i | 0 <= i < |ids|
      ensures ids[i] in s.rooms && s.rooms[ids[i]].round.Some? && Valid(s.rooms[ids[i]].round.value)
      ensures Reports(s.rooms[ids[i]], After(s.rooms[ids[i]].round.value, Expire(random(ids[i]))), actions[i])
    {
      assert ids[i] in ids;
      OneReport(s.rooms[ids[i]], random(ids[i]));
    }
  }

  lemma {:induction false} OneReport(room: Room, draws: Draws)
    requires RoomOk(room.id, room) && room.round.Some?
    ensures Valid(room.round.value)
    ensures Reports(room, After(room.round.value, Expire(draws)), TimeoutReply(room, draws))
  {
    StepValid(room.round.value, Expire(draws));
    hide After;
  }

  // ---------- Rooms that go ----------

  /** The rooms that satisfy `goes` go with all that is known of their players; nothing else changes. */
  ghost predicate Removes(s: Lobby, s1: Lobby, goes: Room -> bool) {
    && (forall id :: id in s1.rooms <==> id in s.rooms && !goes(s.rooms[id]))
    && (forall id :: id in s1.rooms ==> s1.rooms[id] == s.rooms[id])
    && (forall p :: p in s1.placed <==> p in s.placed && s.placed[p] in s1.rooms)
    && (forall p :: p in s1.placed ==> s1.placed[p] == s.placed[p])
    && (forall p :: p in s1.offline <==> p in s.offline && p in s1.placed)
    && (forall p :: p in s1.offline ==> s1.offline[p] == s.offline[p])
    && s1.nextId == s.nextId
    && s1.waiting == if s.waiting.Some? && s.waiting.value in s1.rooms then s.waiting else None
  }

  lemma {:induction false} DroppedRemoves(s: Lobby, gone: set<nat>, goes: Room -> bool)
    requires Inv(s) && forall id :: id in s.rooms ==> (id in gone <==> goes(s.rooms[id]))
    ensures Removes(s, Dropped(s, gone), goes)
  {
    hide RoomOk;
  }

  /** Somebody in the room has been recorded as absent for at least 300 seconds. */
  predicate Deserted(room: Room, offline: map<PlayerId, int>, now: int) {
    exists p :: p in room.players && p in offline && now - offline[p] >= 300 * SECOND
  }

  /** Exactly the rooms go in which somebody has been absent for five minutes. */
  lemma {:induction false} ExpiryRemoves(s: Lobby, now: int)
    requires Inv(s)
    ensures Removes(s, NextLobby(s, Expiry(now)), (room: Room) => Deserted(room, s.offline, now))
  {
    forall id | id in s.rooms
      ensures id in DesertedRooms(s, now) <==> Deserted(s.rooms[id], s.offline, now)
    {
      DesertedIff(s, now, id);
    }
    hide Inv, DesertedRooms, Dropped, Deserted;
    DroppedRemoves(s, DesertedRooms(s, now), (room: Room) => Deserted(room, s.offline, now));
  }

  lemma {:induction false} DesertedIff(s: Lobby, now: int, id: nat)
    requires Inv(s) && id in s.rooms
    ensures id in DesertedRooms(s, now) <==> Deserted(s.rooms[id], s.offline, now)
  {
    hide RoomOk;
    if Deserted(s.rooms[id], s.offline, now) {
      var p :| p in s.rooms[id].players && p in s.offline && now - s.offline[p] >= 300 * SECOND;
      assert LongGone(s, p, now) && s.placed[p] == id;
    }
  }

  /** Exactly the rooms go that have waited for players for sixty seconds. */
  lemma {:induction false} IdleRemoves(s: Lobby, now: int)
    requires Inv(s)
    ensures Removes(s, NextLobby(s, Idle(now)),
                    (room: Room) => room.round.None? && now - room.lastActivity >= 60 * SECOND)
  {
    hide Inv, Dropped;
    DroppedRemoves(s, IdleRooms(s, now), (room: Room) => room.round.None? && now - room.lastActivity >= 60 * SECOND);
  }

  /**
    In every run of the gateway: a room that the expiry of a sweep removes has a
    player whose session was closed at least five minutes before, and that has not
    logged in since. `s1` and `s2` are the states after the timeouts and after the
    removal of idle rooms.
   */
  lemma {:induction false} ExpelledWasClosed(
    steps: seq<Step>, now: int, random: nat -> Draws, s1: Lobby, s2: Lobby, id: nat)
    returns (p: PlayerId, time: int)
    requires var s := Reached(steps).lobby;
      && s1 == NextLobby(s, Tick(now, random)) && Inv(s1)
      && s2 == NextLobby(s1, Idle(now)) && Inv(s2)
    requires id in s2.rooms && id !in NextLobby(s2, Expiry(now)).rooms
    ensures p in s2.rooms[id].players && WasLeftAt(steps, p, time) && now - time >= 300 * SECOND
  {
    var s := Reached(steps).lobby;
    hide Inv, Reached, WasLeftAt, NextLobby, Agrees, TokensOk;
    ExpiryRemoves(s2, now);
    p :| p in s2.rooms[id].players && p in s2.offline && now - s2.offline[p] >= 300 * SECOND;
    time := s2.offline[p];
    CallKeepsTimes(s, Tick(now, random), p);
    CallKeepsTimes(s1, Idle(now), p);
    AbsenceIsSinceClose(steps, p, time);
  }
}
