/** Every operation of the room manager keeps its invariant, and what its sweeps over all rooms achieve. */
module LobbySteps {
  import opened Lists
  import opened Wrappers
  import opened Deck
  import opened Rounds
  import opened RoundSteps
  import opened Lobbies

  // ---------- Dropping rooms ----------

  lemma {:induction false} DroppedInv(s: Lobby, gone: set<nat>)
    requires InvBut(s, gone)
    ensures Inv(Dropped(s, gone))
  {
    hide RoomOk;
    var d := Dropped(s, gone);
    assert PlacedOk(d);
    assert WaitingOk(d) && IdsOk(d) && OfflineOk(d);
  }

  lemma {:induction false} DroppedFromInv(s: Lobby, gone: set<nat>)
    requires Inv(s)
    ensures Inv(Dropped(s, gone))
  {
    DroppedInv(s, gone);
  }

  /** Dropping rooms one after the other, in any order, drops them all. */
  lemma {:induction false} DroppedMore(s: Lobby, gone: set<nat>, id: nat)
    ensures Dropped(Dropped(s, gone), {id}) == Dropped(s, gone + {id})
  {
    var one, all := Dropped(Dropped(s, gone), {id}), Dropped(s, gone + {id});
    assert one.rooms == all.rooms;
    assert one.placed == all.placed;
    assert one.offline == all.offline;
  }

  lemma {:induction false} DroppedUpdate(s: Lobby, gone: set<nat>, id: nat, room: Room)
    requires id in s.rooms && id !in gone
    ensures Dropped(s.(rooms := s.rooms[id := room]), gone)
         == Dropped(s, gone).(rooms := Dropped(s, gone).rooms[id := room])
  {
    assert Dropped(s.(rooms := s.rooms[id := room]), gone).rooms == Dropped(s, gone).rooms[id := room];
  }

  lemma {:induction false} DroppedNothing(s: Lobby)
    ensures Dropped(s, {}) == s
  {
    var d := Dropped(s, {});
    assert d.rooms == s.rooms && d.placed == s.placed && d.offline == s.offline;
  }

  /** The program's erasures for one room, player by player, drop exactly that room. */
  lemma {:induction false} EraseRoom(s: Lobby, id: nat)
    requires PlacedOk(s) && OfflineOk(s) && id in s.rooms
    ensures var players := set p | p in s.rooms[id].players;
      Dropped(s, {id}) == Lobby(s.nextId, if s.waiting == Some(id) then None else s.waiting,
                                s.rooms - {id}, s.placed - players, s.offline - players)
  {
    var players := set p | p in s.rooms[id].players;
    var d := Dropped(s, {id});
    assert d.rooms == s.rooms - {id};
    assert d.placed == s.placed - players;
    assert d.offline == s.offline - players;
  }

  // ---------- Players' operations ----------

  lemma {:induction false} MovedOk(id: nat, room: Room, round: Round, now: int)
    requires room.id == id && NoRepeats(room.players) && |room.players| == 3 && Running(round)
    ensures RoomOk(id, Moved(room, round, now))
  {
  }

  lemma {:induction false} JoinedOk(id: nat, room: Room, p: PlayerId, now: int, draws: Draws)
    requires room.id == id && NoRepeats(room.players) && |room.players| <= 2 && p !in room.players && room.round.None?
    ensures var joined := room.(players := room.players + [p], lastActivity := now);
      if |joined.players| == 3 then RoomOk(id, Moved(joined, Started(draws), now)) else RoomOk(id, joined)
  {
    StartedValid(draws);
    var joined := room.(players := room.players + [p], lastActivity := now);
    assert NoRepeats(joined.players);
    if |joined.players| == 3 {
      MovedOk(id, joined, Started(draws), now);
    }
  }

  /** What a new player changes: one room, which it joins as the last player. */
  ghost predicate Joins(s: Lobby, s1: Lobby, p: PlayerId, id: nat) {
    && id == (if s.waiting.Some? then s.waiting.value else s.nextId)
    && s1.nextId == (if s.waiting.Some? then s.nextId else s.nextId + 1)
    && id in s1.rooms && RoomOk(id, s1.rooms[id])
    && s1.rooms == s.rooms[id := s1.rooms[id]]
    && s1.rooms[id].players == (if id in s.rooms then s.rooms[id].players else []) + [p]
    && s1.waiting == (if s1.rooms[id].round.None? then Some(id) else None)
    && s1.placed == s.placed[p := id] && s1.offline == s.offline
  }

  lemma {:induction false} MatchedJoins(s: Lobby, p: PlayerId, now: int, draws: Draws)
    requires Inv(s) && p !in s.placed
    ensures Joins(s, Matched(s, p, now, draws), p, Matched(s, p, now, draws).placed[p])
  {
    if s.waiting.Some? {
      var id := s.waiting.value;
      assert RoomOk(id, s.rooms[id]) && s.rooms[id].round.None?;
      assert p !in s.rooms[id].players;
      JoinedOk(id, s.rooms[id], p, now, draws);
    } else {
      JoinedOk(s.nextId, Room(s.nextId, [], None, Some(0), now), p, now, draws);
    }
    hide RoomOk, Valid, Started;
  }

  lemma {:induction false} JoinsInv(s: Lobby, s1: Lobby, p: PlayerId, id: nat)
    requires Inv(s) && p !in s.placed && Joins(s, s1, p, id)
    ensures Inv(s1)
  {
    hide RoomOk;
    JoinsPlaced(s, s1, p, id);
    assert WaitingOk(s1);
    assert IdsOk(s1) && OfflineOk(s1);
  }

  lemma {:induction false} JoinsPlaced(s: Lobby, s1: Lobby, p: PlayerId, id: nat)
    requires PlacedOk(s) && IdsOk(s) && p !in s.placed && Joins(s, s1, p, id)
    ensures PlacedOk(s1)
  {
    hide RoomOk;
    var before := if id in s.rooms then s.rooms[id].players else [];
    forall q | q in s1.placed
      ensures s1.placed[q] in s1.rooms && q in s1.rooms[s1.placed[q]].players
    {
      assert q in before ==> q in before + [p];
      assert q in [p] ==> q in before + [p];
    }
    forall i, q | i in s1.rooms && q in s1.rooms[i].players
      ensures q in s1.placed && s1.placed[q] == i
    {
      if i == id {
        assert q in before + [p] <==> q in before || q in [p];
      }
    }
  }

  lemma {:induction false} MatchedInv(s: Lobby, p: PlayerId, now: int, draws: Draws)
    requires Inv(s)
    ensures Inv(Matched(s, p, now, draws)) && p in Matched(s, p, now, draws).placed
  {
    if p !in s.placed {
      MatchedJoins(s, p, now, draws);
      hide Matched;
      JoinsInv(s, Matched(s, p, now, draws), p, Matched(s, p, now, draws).placed[p]);
    }
  }

  lemma {:induction false} DoneInv(s: Lobby, p: PlayerId, deed: Deed, now: int)
    requires Inv(s)
    ensures Inv(Done(s, p, deed, now))
  {
    if Playing(s, p) && Accepted(RoundOf(s, p), Asked(s, p, deed)) {
      var id := s.placed[p];
      var round := After(RoundOf(s, p), Asked(s, p, deed));
      StepValid(RoundOf(s, p), Asked(s, p, deed));
      RoundStays(RoundOf(s, p), Asked(s, p, deed));
      var s1 := s.(rooms := s.rooms[id := Moved(RoomOf(s, p), round, now)]);
      ReplaceRoom(s, id, round, now);
      if round.phase == Settled {
        DroppedInv(s1, {id});
      }
    }
  }

  lemma {:induction false} RoundStays(r: Round, a: Action)
    requires Running(r)
    ensures Valid(After(r, a)) && After(r, a).phase != WaitingPlayers
  {
    StepValid(r, a);
    if a.Expire? {
      DefaultAccepted(r, a.draws);
    }
  }

  ghost predicate SameSeats(room: Room, room1: Room) {
    room1.players == room.players && (room1.round.Some? <==> room.round.Some?)
  }

  ghost predicate Linked(s: Lobby) {
    PlacedOk(s) && WaitingOk(s) && IdsOk(s) && OfflineOk(s)
  }

  /** Rooms may change as long as who sits in them, and whether they have started, stays. */
  lemma {:induction false} SeatsKept(s: Lobby, s1: Lobby)
    requires Linked(s)
    requires s1 == s.(rooms := s1.rooms) && s1.rooms.Keys == s.rooms.Keys
    requires forall id :: id in s.rooms ==> SameSeats(s.rooms[id], s1.rooms[id])
    ensures Linked(s1)
  {
    assert PlacedOk(s1) by {
      forall p | p in s1.placed
        ensures s1.placed[p] in s1.rooms && p in s1.rooms[s1.placed[p]].players
      {
        assert SameSeats(s.rooms[s.placed[p]], s1.rooms[s.placed[p]]);
      }
      forall id, p | id in s1.rooms && p in s1.rooms[id].players
        ensures p in s1.placed && s1.placed[p] == id
      {
        assert SameSeats(s.rooms[id], s1.rooms[id]);
      }
    }
    forall id | id in s1.rooms
      ensures s1.rooms[id].round.None? <==> s1.waiting == Some(id)
    {
      assert SameSeats(s.rooms[id], s1.rooms[id]);
    }
  }

  /** Replacing the round of a started room keeps the invariant, unless the round is over. */
  lemma {:induction false} ReplaceRoom(s: Lobby, id: nat, round: Round, now: int)
    requires Inv(s) && id in s.rooms && s.rooms[id].round.Some?
    requires Valid(round) && round.phase != WaitingPlayers
    ensures var s1 := s.(rooms := s.rooms[id := Moved(s.rooms[id], round, now)]);
      InvBut(s1, {id}) && (round.phase != Settled ==> Inv(s1))
  {
    assert RoomOk(id, s.rooms[id]);
    var room := Moved(s.rooms[id], round, now);
    var s1 := s.(rooms := s.rooms[id := room]);
    if round.phase != Settled {
      MovedOk(id, s.rooms[id], round, now);
    }
    assert SameSeats(s.rooms[id], room);
    hide RoomOk, Valid, Moved, PlacedOk, WaitingOk, IdsOk, OfflineOk;
    SeatsKept(s, s1);
  }

  lemma {:induction false} PresenceInv(s: Lobby, p: PlayerId, now: int)
    requires Inv(s)
    ensures Inv(WentOnline(s, p)) && Inv(WentOffline(s, p, now))
  {
    hide RoomOk;
    var online, offline := WentOnline(s, p), WentOffline(s, p, now);
    assert PlacedOk(online) && WaitingOk(online) && IdsOk(online) && OfflineOk(online);
    assert PlacedOk(offline) && WaitingOk(offline) && IdsOk(offline) && OfflineOk(offline);
  }

  // ---------- Timeouts ----------

  lemma {:induction false} RoundsAreValid(s: Lobby)
    requires Inv(s)
    ensures RoundsValid(s)
  {
    forall id | id in s.rooms && s.rooms[id].round.Some?
      ensures Valid(s.rooms[id].round.value)
    {
      assert RoomOk(id, s.rooms[id]);
    }
  }

  /** A room whose deadline is enforced takes a step, and gets a deadline in the future or ends. */
  lemma {:induction false} TimedOutOk(id: nat, room: Room, now: int, draws: Draws)
    requires RoomOk(id, room) && room.round.Some?
    ensures var r1 := TimedOut(room, now, draws);
      && r1.players == room.players && r1.round.Some? && r1.id == id
      && Accepted(room.round.value, Expire(draws))
      && (r1.round.value.phase != Settled ==> RoomOk(id, r1) && !Overdue(r1, now))
  {
    RoundStays(room.round.value, Expire(draws));
    var round := After(room.round.value, Expire(draws));
    if round.phase != Settled {
      MovedOk(id, room, round, now);
    }
  }

  lemma {:induction false} SteppedInv(s: Lobby, now: int, random: nat -> Draws, done: set<nat>)
    requires Inv(s)
    ensures RoundsValid(s) && InvBut(Stepped(s, now, random, done), Ending(s, now, random, done))
  {
    RoundsAreValid(s);
    var s1 := Stepped(s, now, random, done);
    forall id | id in s.rooms
      ensures SameSeats(s.rooms[id], s1.rooms[id])
      ensures id !in Ending(s, now, random, done) ==> RoomOk(id, s1.rooms[id])
    {
      assert RoomOk(id, s.rooms[id]);
      if s.rooms[id].round.Some? {
        TimedOutOk(id, s.rooms[id], now, random(id));
      }
    }
    hide RoomOk, Ending, TimedOut, Valid, Overdue, SameSeats, PlacedOk, WaitingOk, IdsOk, OfflineOk;
    SeatsKept(s, s1);
  }

  lemma {:induction false} TickedInv(s: Lobby, now: int, random: nat -> Draws, done: set<nat>)
    requires Inv(s)
    ensures RoundsValid(s) && Inv(TickedOn(s, now, random, done))
  {
    SteppedInv(s, now, random, done);
    DroppedInv(Stepped(s, now, random, done), Ending(s, now, random, done));
  }

  /** All overdue rooms of the lobby are stepped. */
  ghost function Ticked(s: Lobby, now: int, random: nat -> Draws): Lobby
    requires Inv(s)
  {
    RoundsAreValid(s);
    TickedOn(s, now, random, s.rooms.Keys)
  }

  /** After a sweep no deadline has passed: every started room that is left has time to act. */
  lemma {:induction false} TickClears(s: Lobby, now: int, random: nat -> Draws)
    requires Inv(s)
    ensures forall id :: id in Ticked(s, now, random).rooms ==> !Overdue(Ticked(s, now, random).rooms[id], now)
  {
    RoundsAreValid(s);
    forall id | id in Ticked(s, now, random).rooms
      ensures !Overdue(Ticked(s, now, random).rooms[id], now)
    {
      assert RoomOk(id, s.rooms[id]);
      if Overdue(s.rooms[id], now) {
        TimedOutOk(id, s.rooms[id], now, random(id));
      }
    }
  }

  lemma {:induction false} NothingOverdue(s: Lobby, now: int, random: nat -> Draws)
    requires Inv(s)
    requires forall id :: id in s.rooms ==> !Overdue(s.rooms[id], now)
    ensures Ticked(s, now, random) == s
  {
    RoundsAreValid(s);
    assert Stepped(s, now, random, s.rooms.Keys).rooms == s.rooms;
    assert Ending(s, now, random, s.rooms.Keys) == {};
    DroppedNothing(s);
  }

  /** A second sweep at the same time changes nothing. */
  lemma {:induction false} TickIsIdempotent(s: Lobby, now: int, random: nat -> Draws, again: nat -> Draws)
    requires Inv(s)
    ensures Inv(Ticked(s, now, random))
    ensures Ticked(Ticked(s, now, random), now, again) == Ticked(s, now, random)
  {
    RoundsAreValid(s);
    TickedInv(s, now, random, s.rooms.Keys);
    TickClears(s, now, random);
    NothingOverdue(Ticked(s, now, random), now, again);
  }

  /** One more room of the sweep, as the program handles it. */
  ghost function TickOne(s: Lobby, at: Lobby, now: int, draws: Draws, id: nat): Lobby
    requires RoundsValid(s) && id in s.rooms
  {
    if !Overdue(s.rooms[id], now) then at
    else
      var moved := at.(rooms := at.rooms[id := TimedOut(s.rooms[id], now, draws)]);
      if Ends(s.rooms[id], now, draws) then Dropped(moved, {id}) else moved
  }

  lemma {:induction false} SteppedMore(s: Lobby, now: int, random: nat -> Draws, done: set<nat>, id: nat)
    requires RoundsValid(s) && id in s.rooms && id !in done
    ensures var before, after := Stepped(s, now, random, done), Stepped(s, now, random, done + {id});
      && id in before.rooms && before.rooms[id] == s.rooms[id]
      && after == if Overdue(s.rooms[id], now)
                  then before.(rooms := before.rooms[id := TimedOut(s.rooms[id], now, random(id))]) else before
    ensures var before, after := Ending(s, now, random, done), Ending(s, now, random, done + {id});
      id !in before && after == if Ends(s.rooms[id], now, random(id)) then before + {id} else before
  {
    hide TimedOut, After, Valid, Ends;
    var before, after := Stepped(s, now, random, done), Stepped(s, now, random, done + {id});
    if Overdue(s.rooms[id], now) {
      assert after.rooms == before.rooms[id := TimedOut(s.rooms[id], now, random(id))];
    } else {
      assert after.rooms == before.rooms;
    }
  }

  /** A room not yet handled is untouched, and handling it extends the sweep. */
  lemma {:induction false} TickedMore(s: Lobby, now: int, random: nat -> Draws, done: set<nat>, id: nat)
    requires RoundsValid(s) && id in s.rooms && id !in done
    ensures id in TickedOn(s, now, random, done).rooms && TickedOn(s, now, random, done).rooms[id] == s.rooms[id]
    ensures TickedOn(s, now, random, done + {id}) == TickOne(s, TickedOn(s, now, random, done), now, random(id), id)
  {
    SteppedMore(s, now, random, done, id);
    var stepped, ending := Stepped(s, now, random, done), Ending(s, now, random, done);
    if Overdue(s.rooms[id], now) {
      var room := TimedOut(s.rooms[id], now, random(id));
      DroppedUpdate(stepped, ending, id, room);
      if Ends(s.rooms[id], now, random(id)) {
        DroppedMore(stepped.(rooms := stepped.rooms[id := room]), ending, id);
      }
    }
  }
}
