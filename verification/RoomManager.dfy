/** The class `RoomManager`. Its rooms hold rounds by value; the order in which its maps are walked is left open. */
module RoomManagers {
  import opened Clock
  import opened Lists
  import opened Wrappers
  import opened Cards
  import opened Deck
  import opened Rounds
  import opened RoundSteps
  import opened GameRounds
  import opened Lobbies
  import opened LobbySteps
  import opened Settlements
  import opened ManagerReplies

  class RoomManager {
    var nextRoomId: nat
    var waitingRoomId: Option<nat>
    var rooms: map<nat, Room>
    var playerRooms: map<PlayerId, nat>
    var offlineSince: map<PlayerId, int>

    function State(): Lobby
      reads this
    {
      Lobby(nextRoomId, waitingRoomId, rooms, playerRooms, offlineSince)
    }

    ghost predicate Ok()
      reads this
    {
      Inv(State())
    }

    constructor ()
      ensures State() == NEW_LOBBY && Ok()
    {
      nextRoomId, waitingRoomId := 1, None;
      rooms, playerRooms, offlineSince := map[], map[], map[];
    }

    /** room_manager.cpp, lines 10-20: the scan of all rooms for the player. */
    method FindRoom(p: PlayerId) returns (found: Option<nat>)
      requires Ok()
      ensures found.Some? <==> p in playerRooms
      ensures found.Some? ==> found.value == playerRooms[p]
    {
      var todo := rooms.Keys;
      while todo != {}
        invariant todo <= rooms.Keys
        invariant forall id :: id in rooms && id !in todo ==> p !in rooms[id].players
        decreases |todo|
      {
        var id :| id in todo;
        if SeatOf(rooms[id].players, p) < |rooms[id].players| {
          return Some(id);
        }
        todo := todo - {id};
      }
      return None;
    }

    method Match(p: PlayerId, now: int, draws: Draws) returns (result: MatchResult)
      requires Ok()
      modifies this
      ensures Ok()
      ensures State() == Matched(old(State()), p, now, draws)
      ensures result == MatchReply(old(State()), State(), p)
      ensures MatchTold(old(State()), State(), p, now, draws, result)
    {
      ghost var before := State();
      MatchIsTold(before, p, now, draws);
      hide MatchTold;
      MatchedInv(before, p, now, draws);
      var found := FindRoom(p);
      if found.Some? {
        var room := rooms[found.value];
        return MatchResult(found.value, SeatOf(room.players, p), room.round.Some?, None);
      }
      OpenRoom(now);
      WaitingRoomHolds(before, p, now);
      result := Join(p, now, draws);
      Reopened(before, p, now, draws);
      ReplyOfJoin(OpenedUp(before, now), State(), p, now, draws);
      hide Inv, OpenedUp, JoinedLobby, JoinedRoom, JoinReply, Matched, MatchReply;
    }

    /** room_manager.cpp, lines 22-26: without a waiting room a new one is opened. */
    method OpenRoom(now: int)
      modifies this
      ensures State() == OpenedUp(old(State()), now)
    {
      if waitingRoomId.None? {
        var roomId := nextRoomId;
        nextRoomId := nextRoomId + 1;
        rooms := rooms[roomId := Room(roomId, [], None, Some(0), now)];
        waitingRoomId := Some(roomId);
      }
    }

    static ghost function OpenedUp(s: Lobby, now: int): Lobby {
      if s.waiting.Some? then s
      else s.(nextId := s.nextId + 1, waiting := Some(s.nextId),
              rooms := s.rooms[s.nextId := Room(s.nextId, [], None, Some(0), now)])
    }

    static lemma {:induction false} WaitingRoomHolds(s: Lobby, p: PlayerId, now: int)
      requires Inv(s) && p !in s.placed
      ensures var s1 := OpenedUp(s, now);
        && s1.waiting.Some? && s1.waiting.value in s1.rooms
        && s1.rooms[s1.waiting.value].id == s1.waiting.value
        && s1.rooms[s1.waiting.value].round.None?
        && p !in s1.rooms[s1.waiting.value].players
    {
      if s.waiting.Some? {
        assert RoomOk(s.waiting.value, s.rooms[s.waiting.value]);
      }
    }

    /** The waiting room after the player joined it, and the lobby around it. */
    static ghost function JoinedRoom(room: Room, p: PlayerId, now: int, draws: Draws): Room {
      var joined := room.(players := room.players + [p], lastActivity := now);
      if |joined.players| == 3 then Moved(joined, Started(draws), now) else joined
    }

    static ghost function JoinedLobby(s: Lobby, p: PlayerId, now: int, draws: Draws): Lobby
      requires s.waiting.Some? && s.waiting.value in s.rooms
    {
      var id := s.waiting.value;
      var room := JoinedRoom(s.rooms[id], p, now, draws);
      s.(waiting := if |room.players| == 3 then None else s.waiting,
         rooms := s.rooms[id := room], placed := s.placed[p := id])
    }

    static lemma {:induction false} Reopened(s: Lobby, p: PlayerId, now: int, draws: Draws)
      requires Inv(s) && p !in s.placed
      requires OpenedUp(s, now).waiting.Some? && OpenedUp(s, now).waiting.value in OpenedUp(s, now).rooms
      ensures JoinedLobby(OpenedUp(s, now), p, now, draws) == Matched(s, p, now, draws)
    {
      hide RoomOk, PlacedOk, OfflineOk, Valid, Started;
      if s.waiting.Some? {
        assert s.rooms[s.waiting.value].round.None?;
      }
      assert JoinedLobby(OpenedUp(s, now), p, now, draws).rooms == Matched(s, p, now, draws).rooms;
    }

    static lemma {:induction false} ReplyOfJoin(s: Lobby, s1: Lobby, p: PlayerId, now: int, draws: Draws)
      requires s.waiting.Some? && s.waiting.value in s.rooms && s.rooms[s.waiting.value].id == s.waiting.value
      requires s.rooms[s.waiting.value].round.None?
      requires s1 == JoinedLobby(s, p, now, draws)
      requires Inv(s1) && p in s1.placed
      ensures p !in s.placed ==>
        JoinReply(JoinedRoom(s.rooms[s.waiting.value], p, now, draws), p) == MatchReply(s, s1, p)
    {
      hide Inv, Started;
    }

    static ghost function JoinReply(room: Room, p: PlayerId): MatchResult {
      MatchResult(room.id, SeatOf(room.players, p), room.round.Some?,
                  if room.round.None? then None
                  else Some(GameStart(room.players, room.round.value.hands, room.round.value.seat)))
    }

    /** room_manager.cpp, lines 28-55: the player joins the waiting room, and the third player starts its round. */
    method Join(p: PlayerId, now: int, draws: Draws) returns (result: MatchResult)
      requires waitingRoomId.Some? && waitingRoomId.value in rooms
      requires rooms[waitingRoomId.value].id == waitingRoomId.value
      requires rooms[waitingRoomId.value].round.None? && p !in rooms[waitingRoomId.value].players
      modifies this
      ensures State() == JoinedLobby(old(State()), p, now, draws)
      ensures result == JoinReply(JoinedRoom(old(rooms[waitingRoomId.value]), p, now, draws), p)
    {
      hide Valid, Started;
      var id := waitingRoomId.value;
      var room := rooms[id];
      SeatOfLast(room.players, p);
      room := room.(players := room.players + [p], lastActivity := now);
      playerRooms := playerRooms[p := room.id];
      var gameStarted := |room.players| == 3;
      var start: Option<GameStart> := None;
      if gameStarted {
        var round := new GameRound();
        round.Start(draws);
        room := Refreshed(room.(round := Some(round.State())), now);
        waitingRoomId := None;
        start := Some(GameStart(room.players, round.hands, round.currentSeat));
      }
      rooms := rooms[id := room];
      result := MatchResult(room.id, |room.players| - 1, gameStarted, start);
    }

    // ---------- Players' requests ----------

    /**
      room_manager.cpp, lines 73-78, 105-110 and 165-170: the round is updated in its
      room, and the clock if it was accepted.
     */
    method Store(room: Room, round: Round, accepted: bool, now: int)
      modifies this
      ensures State() == Stored(old(State()), room, round, accepted, now)
    {
      var changed := room.(round := Some(round));
      if accepted {
        changed := Refreshed(changed.(lastActivity := now), now);
      }
      rooms := rooms[room.id := changed];
    }

    static ghost function Stored(s: Lobby, room: Room, round: Round, accepted: bool, now: int): Lobby {
      s.(rooms := s.rooms[room.id := if accepted then Moved(room, round, now) else room.(round := Some(round))])
    }

    /** A stored step is the whole effect of a deed, unless it ends the round. */
    static lemma {:induction false} StoredIsDone(s: Lobby, p: PlayerId, deed: Deed, now: int)
      requires Inv(s) && Playing(s, p)
      ensures var r, a := RoundOf(s, p), Asked(s, p, deed);
        Done(s, p, deed, now) ==
          if Accepted(r, a) && After(r, a).phase == Settled
          then Dropped(Stored(s, RoomOf(s, p), After(r, a), true, now), {s.placed[p]})
          else Stored(s, RoomOf(s, p), After(r, a), Accepted(r, a), now)
    {
      PlayingRoom(s, p);
      var r, a, room := RoundOf(s, p), Asked(s, p, deed), RoomOf(s, p);
      hide Inv, Valid, Moved;
      if !Accepted(r, a) {
        assert After(r, a) == r;
        assert room.(round := Some(r)) == room;
        assert s.rooms[room.id := room] == s.rooms;
      }
    }

    method CallLandlord(p: PlayerId, call: bool, now: int, draws: Draws) returns (result: Option<CallResult>)
      requires Ok()
      modifies this
      ensures Ok()
      ensures State() == Done(old(State()), p, Bidding(call, draws), now)
      ensures result == CallReply(old(State()), p, call, draws)
      ensures result.Some? <==> Playing(old(State()), p)
      ensures result.Some? ==> CallTold(old(State()), State(), p, call, now, result.value)
    {
      ghost var before := State();
      if Playing(before, p) {
        CallIsTold(before, p, call, now, draws);
      }
      hide CallTold;
      DoneInv(before, p, Bidding(call, draws), now);
      if p !in playerRooms {
        return None;
      }
      var room := rooms[playerRooms[p]];
      if room.round.None? {
        return None;
      }
      PlayingRoom(before, p);
      NeverSettles(before, p, Bidding(call, draws));
      StoredIsDone(before, p, Bidding(call, draws), now);
      hide Inv, Valid, Done, Stored, Accepted, After;
      var seat := SeatOf(room.players, p);
      var round := new GameRound.Load(room.round.value);
      var accepted := round.Call(seat, call, draws);
      Store(room, round.State(), accepted, now);
      return Some(CallResult(accepted, round.currentSeat, round.phase == PlayCards, round.landlordSeat,
                             seat, call, room.players));
    }

    method Pass(p: PlayerId, now: int) returns (result: Option<PlayResult>)
      requires Ok()
      modifies this
      ensures Ok()
      ensures State() == Done(old(State()), p, Passing, now)
      ensures result == PlayReply(old(State()), p, Passing)
      ensures result.Some? <==> Playing(old(State()), p)
      ensures result.Some? ==> PlayTold(old(State()), State(), p, now, result.value)
    {
      ghost var before := State();
      hide PlayTold;
      PlayReplyTold(before, p, Passing, now);
      DoneInv(before, p, Passing, now);
      if p !in playerRooms {
        return None;
      }
      var room := rooms[playerRooms[p]];
      if room.round.None? {
        return None;
      }
      PlayingRoom(before, p);
      NeverSettles(before, p, Passing);
      StoredIsDone(before, p, Passing, now);
      hide Inv, Valid, Done, Stored, Accepted, After;
      var seat := SeatOf(room.players, p);
      var round := new GameRound.Load(room.round.value);
      var accepted := round.Pass(seat);
      Store(room, round.State(), accepted, now);
      return Some(PlayResult(accepted, round.currentSeat, round.phase == Settled, [], seat, room.players));
    }

    static ghost function Names(players: seq<PlayerId>): set<PlayerId> {
      set p | p in players
    }

    /** `player_rooms_.erase` and `offline_since_.erase` for every player of a room, then `rooms_.erase`. */
    method Erase(room: Room)
      requires PlacedOk(State()) && OfflineOk(State())
      requires room.id in rooms && rooms[room.id].players == room.players
      modifies this
      ensures State() == Dropped(old(State()), {room.id}).(waiting := old(waitingRoomId))
    {
      EraseRoom(State(), room.id);
      hide PlacedOk, OfflineOk, Dropped;
      EraseNames(room.players);
      rooms := rooms - {room.id};
    }

    method EraseNames(players: seq<PlayerId>)
      modifies this
      ensures State() == old(State()).(placed := old(playerRooms) - Names(players),
                                       offline := old(offlineSince) - Names(players))
    {
      for i := 0 to |players|
        invariant nextRoomId == old(nextRoomId) && waitingRoomId == old(waitingRoomId) && rooms == old(rooms)
        invariant playerRooms == old(playerRooms) - Names(players[..i])
        invariant offlineSince == old(offlineSince) - Names(players[..i])
      {
        NamesMore(players, i);
        playerRooms := playerRooms - {players[i]};
        offlineSince := offlineSince - {players[i]};
      }
      assert players[..|players|] == players;
    }

    static lemma {:induction false} NamesMore(players: seq<PlayerId>, i: nat)
      requires i < |players|
      ensures Names(players[..i + 1]) == Names(players[..i]) + {players[i]}
    {
    }

    /** room_manager.cpp, lines 120-138 and 290-307: the settlement of a round that is over. */
    static method FinalBill(room: Room, round: Round) returns (settlements: seq<Entry>)
      requires Valid(round)
      ensures settlements == FinalEntries(room, round)
    {
      settlements := [];
      if round.phase == Settled {
        if round.landlord.Some? && round.winner.Some? {
          settlements := Bill(room, round.landlord.value, round.landlord.value == round.winner.value);
        }
      }
    }

    method Play(p: PlayerId, cards: seq<Card>, now: int) returns (result: Option<PlayResult>)
      requires Ok()
      modifies this
      ensures Ok()
      ensures State() == Done(old(State()), p, Laying(cards), now)
      ensures result == PlayReply(old(State()), p, Laying(cards))
      ensures result.Some? <==> Playing(old(State()), p)
      ensures result.Some? ==> PlayTold(old(State()), State(), p, now, result.value)
    {
      ghost var before := State();
      hide PlayTold;
      PlayReplyTold(before, p, Laying(cards), now);
      DoneInv(before, p, Laying(cards), now);
      if p !in playerRooms {
        return None;
      }
      var room := rooms[playerRooms[p]];
      if room.round.None? {
        return None;
      }
      PlayingRoom(before, p);
      StoredIsDone(before, p, Laying(cards), now);
      var seat := SeatOf(room.players, p);
      var round := new GameRound.Load(room.round.value);
      var accepted := round.Play(seat, cards);
      SettlesOnlyOnce(before, p, cards);
      StoredLinks(before, p, Laying(cards), now);
      ghost var reply := Some(PlayResult(
        accepted, round.currentSeat, round.phase == Settled, FinalEntries(room, round.State()), seat, room.players));
      assert PlayReply(before, p, Laying(cards)) == reply;
      hide Inv, Valid, Done, Stored, Accepted, After, PlacedOk, OfflineOk, Running, FinalEntries, PlayReply;
      var settlements := FinishPlay(room, round.State(), accepted, now);
      return Some(PlayResult(accepted, round.currentSeat, round.phase == Settled, settlements, seat, room.players));
    }

    /** room_manager.cpp, lines 106-146: the round is stored; if the play ended it, the room is settled and goes. */
    method FinishPlay(room: Room, round: Round, accepted: bool, now: int) returns (settlements: seq<Entry>)
      requires Valid(round) && (round.phase == Settled ==> accepted)
      requires var s1 := Stored(State(), room, round, accepted, now);
        accepted ==>
          && PlacedOk(s1) && OfflineOk(s1)
          && s1.waiting != Some(room.id) && s1.rooms[room.id].players == room.players
      modifies this
      ensures settlements == FinalEntries(room, round)
      ensures var s1 := Stored(old(State()), room, round, accepted, now);
        State() == if accepted && round.phase == Settled then Dropped(s1, {room.id}) else s1
    {
      Store(room, round, accepted, now);
      settlements := FinalBill(room, round);
      hide Valid, PlacedOk, OfflineOk, FinalEntries;
      if round.phase == Settled && accepted {
        Erase(room);
      }
    }

    /** A settled round appears only as the effect of an accepted play. */
    static lemma {:induction false} SettlesOnlyOnce(s: Lobby, p: PlayerId, cards: seq<Card>)
      requires Inv(s) && Playing(s, p)
      ensures var r, a := RoundOf(s, p), Asked(s, p, Laying(cards));
        Valid(After(r, a)) && (After(r, a).phase == Settled ==> Accepted(r, a))
    {
      StepValid(RoundOf(s, p), Asked(s, p, Laying(cards)));
    }

    static lemma {:induction false} StoredLinks(s: Lobby, p: PlayerId, deed: Deed, now: int)
      requires Inv(s) && Playing(s, p)
      ensures var r, a := RoundOf(s, p), Asked(s, p, deed);
        var s1 := Stored(s, RoomOf(s, p), After(r, a), true, now);
        && PlacedOk(s1) && OfflineOk(s1) && s1.waiting != Some(RoomOf(s, p).id)
        && RoomOf(s, p).id in s1.rooms && s1.rooms[RoomOf(s, p).id].players == RoomOf(s, p).players
    {
      PlayingRoom(s, p);
      RoundStays(RoundOf(s, p), Asked(s, p, deed));
      ReplaceRoom(s, s.placed[p], After(RoundOf(s, p), Asked(s, p, deed)), now);
    }

    // ---------- Presence ----------

    method MarkOnline(p: PlayerId)
      requires Ok()
      modifies this
      ensures Ok() && State() == WentOnline(old(State()), p)
      ensures State() == old(State()).(offline := old(offlineSince) - {p})
    {
      PresenceInv(State(), p, 0);
      offlineSince := offlineSince - {p};
    }

    method MarkOffline(p: PlayerId, now: int)
      requires Ok()
      modifies this
      ensures Ok() && State() == WentOffline(old(State()), p, now)
      ensures State() == old(State()).(offline := offlineSince)
      ensures offlineSince ==
        if p in playerRooms && p !in old(offlineSince) then old(offlineSince)[p := now] else old(offlineSince)
    {
      PresenceInv(State(), p, now);
      if p in playerRooms {
        if p !in offlineSince {
          offlineSince := offlineSince[p := now];
        }
      }
    }

    /** What a player finds on its return: its own seat and hand, and the public part of its round. */
    method Reconnect(p: PlayerId) returns (result: Option<ReconnectInfo>)
      requires Ok()
      ensures result.Some? <==> Playing(State(), p)
      ensures result.Some? ==>
        var room, r := RoomOf(State(), p), RoundOf(State(), p);
        && |room.players| == |r.hands| == 3 && result.value.seat < 3 && room.players[result.value.seat] == p
        && result.value.roomId == room.id && result.value.hand == r.hands[result.value.seat]
        && result.value.phase == r.phase && result.value.currentSeat == r.seat && result.value.landlord == r.landlord
    {
      if p !in playerRooms {
        return None;
      }
      var room := rooms[playerRooms[p]];
      if room.round.None? {
        return None;
      }
      PlayingRoom(State(), p);
      hide Inv;
      var seat := SeatOf(room.players, p);
      var round := room.round.value;
      return Some(ReconnectInfo(room.id, seat, round.phase, round.seat, round.landlord, round.hands[seat]));
    }

    method RoomStateOf(p: PlayerId, now: int) returns (result: Option<RoomState>)
      requires Ok()
      ensures result.Some? <==> Playing(State(), p)
      ensures result.Some? ==> Shows(State(), p, now, result.value)
    {
      hide Inv, Valid, NoRepeats, Running, RoomOk, Shows;
      IndexedRoom(State(), p);
      if p !in playerRooms {
        return None;
      }
      var room := rooms[playerRooms[p]];
      if room.round.None? {
        return None;
      }
      var view := Snapshot(room, p, now);
      return Some(view);
    }

    static lemma {:induction false} IndexedRoom(s: Lobby, p: PlayerId)
      requires Inv(s)
      ensures p in s.placed ==> s.placed[p] in s.rooms
    {
    }

    method Snapshot(room: Room, p: PlayerId, now: int) returns (view: RoomState)
      requires Ok() && Playing(State(), p) && room == RoomOf(State(), p)
      ensures Shows(State(), p, now, view)
    {
      hide Inv, Valid, NoRepeats, RoomOk;
      PlayingRoom(State(), p);
      var round := room.round.value;
      HandsOfRound(round);
      hide Running, Playing;
      var players := PlayerInfos(room.players, round.hands);
      var seconds := SecondsLeft(room.deadline.value, now);
      var seat := SeatOf(room.players, p);
      view := RoomState(room.id, seat, round.phase, round.seat, round.landlord, players, round.hands[seat],
                        if round.phase == PlayCards then round.bottom else [],
                        round.lastSeat, round.lastCards, seconds);
    }

    static lemma {:induction false} HandsOfRound(r: Round)
      requires Valid(r)
      ensures |r.hands| == 3
    {
    }

    method PlayerInfos(players: seq<PlayerId>, hands: seq<seq<Card>>) returns (infos: seq<PlayerInfo>)
      requires |players| == |hands| == 3
      ensures |infos| == 3
      ensures forall i :: 0 <= i < 3 ==> infos[i] == PlayerInfo(players[i], players[i] !in offlineSince, |hands[i]|)
    {
      infos := [];
      for seat := 0 to 3
        invariant |infos| == seat
        invariant forall i :: 0 <= i < seat ==>
          infos[i] == PlayerInfo(players[i], players[i] !in offlineSince, |hands[i]|)
      {
        infos := infos + [PlayerInfo(players[seat], players[seat] !in offlineSince, |hands[seat]|)];
      }
    }

    /** Whole seconds, rounded down. */
    static method SecondsLeft(deadline: int, now: int) returns (seconds: nat)
      ensures deadline <= now ==> seconds == 0
      ensures deadline > now ==> seconds * SECOND <= deadline - now < (seconds + 1) * SECOND
    {
      seconds := if deadline > now then (deadline - now) / SECOND else 0;
    }

    // ---------- Sweeps ----------

    /** The actions a sweep returns: one for each overdue room, in the order in which the map is walked. */
    static ghost predicate ListsTimeouts(s: Lobby, now: int, random: nat -> Draws, done: set<nat>,
                                         ids: seq<nat>, actions: seq<TimeoutAction>)
      requires Inv(s)
    {
      && |ids| == |actions| && NoRepeats(ids)
      && (forall id :: id in ids <==> id in done && id in s.rooms && Overdue(s.rooms[id], now))
      && forall i :: 0 <= i < |ids| ==> ActsOn(s, ids[i], random, actions[i])
    }

    static ghost predicate ActsOn(s: Lobby, id: nat, random: nat -> Draws, action: TimeoutAction)
      requires Inv(s)
    {
      && id in s.rooms && s.rooms[id].round.Some? && RoomOk(id, s.rooms[id])
      && action == TimeoutReply(s.rooms[id], random(id))
    }

    static lemma {:induction false} OneMoreTimeout(
      s: Lobby, now: int, random: nat -> Draws, done: set<nat>, ids: seq<nat>, actions: seq<TimeoutAction>,
      id: nat, action: TimeoutAction)
      requires Inv(s) && ListsTimeouts(s, now, random, done, ids, actions)
      requires id in s.rooms && id !in done && Overdue(s.rooms[id], now) && ActsOn(s, id, random, action)
      ensures ListsTimeouts(s, now, random, done + {id}, ids + [id], actions + [action])
    {
      hide Inv, ActsOn, Overdue;
      assert id !in ids;
      forall i | i in ids + [id]
        ensures i in ids || i == id
      {
      }
      assert id in ids + [id];
      assert forall i :: i in ids ==> i in ids + [id];
    }

    static lemma {:induction false} SkippedTimeout(
      s: Lobby, now: int, random: nat -> Draws, done: set<nat>, ids: seq<nat>, actions: seq<TimeoutAction>, id: nat)
      requires Inv(s) && ListsTimeouts(s, now, random, done, ids, actions)
      requires id in s.rooms && !Overdue(s.rooms[id], now)
      ensures ListsTimeouts(s, now, random, done + {id}, ids, actions)
      ensures forall at, draws :: RoundsValid(s) ==> TickOne(s, at, now, draws, id) == at
    {
    }

    /** room_manager.cpp, lines 274-318 for one overdue room, whose timeout always succeeds. */
    method ExpireRoom(id: nat, now: int, draws: Draws, ghost s: Lobby) returns (action: TimeoutAction)
      requires Ok() && Inv(s) && id in s.rooms && id in rooms && rooms[id] == s.rooms[id]
      requires Overdue(s.rooms[id], now)
      modifies this
      ensures RoundsValid(s) && State() == TickOne(s, old(State()), now, draws, id)
      ensures RoomOk(id, s.rooms[id]) && action == TimeoutReply(s.rooms[id], draws)
    {
      RoundsAreValid(s);
      assert RoomOk(id, s.rooms[id]);
      var room := rooms[id];
      TimedOutOk(id, room, now, draws);
      StepValid(room.round.value, Expire(draws));
      WaitingRoomNotStarted(State(), id);
      ghost var before := State();
      hide Inv, Accepted, After, RoomOk, Valid, PlacedOk, WaitingOk, OfflineOk, IdsOk;
      hide Dropped, RoundsValid, FinalEntries;
      var actorSeat := room.round.value.seat;
      var round := new GameRound.Load(room.round.value);
      var accepted := round.Timeout(draws);
      var settlements := FinalBill(room, round.State());
      if round.phase == Settled {
        Erase(room);
        DroppedAnyway(before, id, TimedOut(room, now, draws));
      } else {
        rooms := rooms[id := Moved(room, round.State(), now)];
      }
      action := TimeoutAction(room.players, actorSeat, round.phase, round.currentSeat, settlements);
    }

    static lemma {:induction false} WaitingRoomNotStarted(s: Lobby, id: nat)
      requires Inv(s) && id in s.rooms && s.rooms[id].round.Some?
      ensures s.waiting != Some(id) && PlacedOk(s) && OfflineOk(s) && Dropped(s, {id}).waiting == s.waiting
    {
    }

    static lemma {:induction false} DroppedAnyway(s: Lobby, id: nat, room: Room)
      requires id in s.rooms
      ensures Dropped(s.(rooms := s.rooms[id := room]), {id}) == Dropped(s, {id})
    {
      assert Dropped(s.(rooms := s.rooms[id := room]), {id}).rooms == Dropped(s, {id}).rooms;
    }

    /** room_manager.cpp, lines 270-317: one room of the sweep. */
    method TickRoom(id: nat, now: int, random: nat -> Draws, ghost s: Lobby, ghost done: set<nat>,
                    ghost ids: seq<nat>, actions: seq<TimeoutAction>)
      returns (actions1: seq<TimeoutAction>, ghost ids1: seq<nat>)
      requires Inv(s) && RoundsValid(s) && State() == TickedOn(s, now, random, done)
      requires id in s.rooms && id !in done && ListsTimeouts(s, now, random, done, ids, actions)
      modifies this
      ensures State() == TickedOn(s, now, random, done + {id})
      ensures ListsTimeouts(s, now, random, done + {id}, ids1, actions1)
    {
      TickedMore(s, now, random, done, id);
      TickedInv(s, now, random, done);
      hide Inv, RoomOk, Valid, TickedOn, RoundsValid;
      var room := rooms[id];
      if room.round.None? || room.deadline.None? || room.deadline.value > now {
        SkippedTimeout(s, now, random, done, ids, actions, id);
        return actions, ids;
      }
      var action := ExpireRoom(id, now, random(id), s);
      OneMoreTimeout(s, now, random, done, ids, actions, id, action);
      return actions + [action], ids + [id];
    }

    method TimeoutExpired(now: int, random: nat -> Draws) returns (actions: seq<TimeoutAction>, ghost ids: seq<nat>)
      requires Ok()
      modifies this
      ensures Ok()
      ensures State() == Ticked(old(State()), now, random)
      ensures ListsTimeouts(old(State()), now, random, old(State()).rooms.Keys, ids, actions)
    {
      TickedInv(State(), now, random, State().rooms.Keys);
      actions, ids := TickRooms(now, random);
    }

    method TickRooms(now: int, random: nat -> Draws) returns (actions: seq<TimeoutAction>, ghost ids: seq<nat>)
      requires Ok()
      modifies this
      ensures RoundsValid(old(State())) && State() == TickedOn(old(State()), now, random, old(State()).rooms.Keys)
      ensures ListsTimeouts(old(State()), now, random, old(State()).rooms.Keys, ids, actions)
    {
      ghost var s := State();
      var todo := rooms.Keys;
      actions, ids := [], [];
      ghost var done: set<nat> := {};
      hide Inv, RoundsValid, TickedOn, ListsTimeouts;
      RoundsAreValid(s);
      TickStarts(s, now, random);
      while todo != {}
        invariant todo <= s.rooms.Keys && done == s.rooms.Keys - todo
        invariant RoundsValid(s) && State() == TickedOn(s, now, random, done)
        invariant ListsTimeouts(s, now, random, done, ids, actions)
        decreases |todo|
      {
        var id :| id in todo;
        actions, ids := TickRoom(id, now, random, s, done, ids, actions);
        todo, done := todo - {id}, done + {id};
      }
      assert done == s.rooms.Keys;
    }

    static lemma {:induction false} TickStarts(s: Lobby, now: int, random: nat -> Draws)
      requires Inv(s) && RoundsValid(s)
      ensures TickedOn(s, now, random, {}) == s
      ensures ListsTimeouts(s, now, random, {}, [], [])
    {
      assert Stepped(s, now, random, {}).rooms == s.rooms;
      assert Ending(s, now, random, {}) == {};
      DroppedNothing(s);
    }

    /** room_manager.cpp, lines 330-337 and 387-394: a room is erased, also when it is the waiting room. */
    method Discard(room: Room)
      requires PlacedOk(State()) && OfflineOk(State())
      requires room.id in rooms && rooms[room.id].players == room.players
      modifies this
      ensures State() == Dropped(old(State()), {room.id})
    {
      Erase(room);
      if waitingRoomId.Some? && waitingRoomId.value == room.id {
        waitingRoomId := None;
      }
    }

    static lemma {:induction false} IdleRoomStays(s: Lobby, gone: set<nat>, id: nat)
      requires Inv(s) && id in s.rooms && id !in gone
      ensures var d := Dropped(s, gone);
        id in d.rooms && d.rooms[id] == s.rooms[id] && s.rooms[id].id == id && PlacedOk(d) && OfflineOk(d)
    {
      assert RoomOk(id, s.rooms[id]);
      DroppedInv(s, gone);
    }

    method CleanupIdle(now: int)
      requires Ok()
      modifies this
      ensures Ok()
      ensures State() == Dropped(old(State()), IdleRooms(old(State()), now))
    {
      ghost var s := State();
      var todo := rooms.Keys;
      ghost var gone: set<nat> := {};
      DroppedNothing(s);
      hide Inv, InvBut, PlacedOk, OfflineOk;
      while todo != {}
        invariant todo <= s.rooms.Keys
        invariant gone == set id | id in IdleRooms(s, now) && id !in todo
        invariant State() == Dropped(s, gone)
        decreases |todo|
      {
        var id :| id in todo;
        IdleRoomStays(s, gone, id);
        var room := rooms[id];
        if !(room.round.Some? || now - room.lastActivity < 60 * SECOND) {
          DroppedMore(s, gone, id);
          Discard(room);
          gone := gone + {id};
        }
        todo := todo - {id};
      }
      assert gone == IdleRooms(s, now);
      DroppedFromInv(s, gone);
    }

    // ---------- Five minutes of absence ----------

    /** room_manager.cpp, lines 343-348: the players to expire, in the order in which the map is walked. */
    method LongAbsent(now: int) returns (expired: seq<PlayerId>)
      ensures forall p :: p in expired <==> LongGone(State(), p, now)
    {
      expired := [];
      var todo := offlineSince.Keys;
      while todo != {}
        invariant todo <= offlineSince.Keys
        invariant forall p :: p in expired <==> p !in todo && LongGone(State(), p, now)
        decreases |todo|
      {
        var p :| p in todo;
        if now - offlineSince[p] >= 300 * SECOND {
          expired := expired + [p];
        }
        todo := todo - {p};
      }
    }

    /** The rooms of the first `n` expired players. */
    static ghost function RoomsOf(s: Lobby, expired: seq<PlayerId>): set<nat>
      requires forall p :: p in expired ==> p in s.placed
    {
      set p | p in expired :: s.placed[p]
    }

    /** The bills returned for the deserted rooms: one for each of them that has a landlord. */
    static ghost predicate ListsDesertions(s: Lobby, now: int, gone: set<nat>, ids: seq<nat>, bills: seq<seq<Entry>>)
      requires Inv(s)
    {
      && |ids| == |bills| && NoRepeats(ids)
      && (forall id :: id in ids <==> id in gone && id in s.rooms && HasLandlord(s.rooms[id]))
      && forall i :: 0 <= i < |ids| ==> ids[i] in s.rooms && DesertionBill(s, now, ids[i], bills[i])
    }

    static lemma {:induction false} OneMoreDesertion(
      s: Lobby, now: int, gone: set<nat>, ids: seq<nat>, bills: seq<seq<Entry>>, id: nat, bill: seq<Entry>)
      requires Inv(s) && ListsDesertions(s, now, gone, ids, bills)
      requires id in s.rooms && id !in gone && HasLandlord(s.rooms[id]) && DesertionBill(s, now, id, bill)
      ensures ListsDesertions(s, now, gone + {id}, ids + [id], bills + [bill])
    {
      hide Inv, DesertionBill, HasLandlord;
      assert id !in ids;
      forall i | i in ids + [id]
        ensures i in ids || i == id
      {
      }
      assert id in ids + [id];
      assert forall i :: i in ids ==> i in ids + [id];
    }

    static lemma {:induction false} DesertedRoom(s: Lobby, gone: set<nat>, p: PlayerId)
      requires Inv(s) && p in s.placed
      ensures var d := Dropped(s, gone);
        && Inv(d) && (p in d.placed <==> s.placed[p] !in gone)
        && (p in d.placed ==> d.placed[p] == s.placed[p])
        && (p !in d.placed ==> p !in d.offline)
    {
      DroppedFromInv(s, gone);
    }

    static lemma {:induction false} DesertedRoomStays(s: Lobby, gone: set<nat>, p: PlayerId)
      requires Inv(s) && p in s.placed
      ensures s.placed[p] in s.rooms
      ensures var d, id := Dropped(s, gone), s.placed[p];
        id !in gone ==>
          id in d.rooms && d.rooms[id] == s.rooms[id] && s.rooms[id].id == id && PlacedOk(d) && OfflineOk(d)
    {
      if s.placed[p] !in gone {
        IdleRoomStays(s, gone, s.placed[p]);
      }
    }

    /**
      room_manager.cpp, lines 353-356: the room of the player went with an earlier
      one, and so did the record of the player.
     */
    method Forget(p: PlayerId)
      requires p !in offlineSince
      modifies this
      ensures State() == old(State())
    {
      offlineSince := offlineSince - {p};
    }

    /** room_manager.cpp, lines 351-397 for one expired player. */
    method ExpirePlayer(p: PlayerId, now: int, ghost s: Lobby, ghost gone: set<nat>,
                        ghost ids: seq<nat>, bills: seq<seq<Entry>>)
      returns (bills1: seq<seq<Entry>>, ghost ids1: seq<nat>)
      requires Inv(s) && State() == Dropped(s, gone)
      requires p in s.placed && LongGone(s, p, now) && ListsDesertions(s, now, gone, ids, bills)
      modifies this
      ensures State() == Dropped(s, gone + {s.placed[p]})
      ensures ListsDesertions(s, now, gone + {s.placed[p]}, ids1, bills1)
    {
      hide Inv, Dropped, PlacedOk, OfflineOk, ListsDesertions, LongGone;
      DesertedRoom(s, gone, p);
      DesertedRoomStays(s, gone, p);
      ghost var id := s.placed[p];
      if p !in playerRooms {
        assert gone + {id} == gone;
        assert State() == Dropped(s, gone + {id}) && ListsDesertions(s, now, gone + {id}, ids, bills);
        bills1, ids1 := bills, ids;
        Forget(p);
        return;
      }
      if playerRooms[p] !in rooms {
        // room_manager.cpp, lines 359-363 are never reached: an indexed player has a room.
        assert false;
      }
      bills1, ids1 := ExpireSeat(rooms[playerRooms[p]], p, now, s, gone, ids, bills);
    }

    /** room_manager.cpp, lines 365-397: the room of the player is settled and goes. */
    method ExpireSeat(room: Room, p: PlayerId, now: int, ghost s: Lobby, ghost gone: set<nat>,
                      ghost ids: seq<nat>, bills: seq<seq<Entry>>)
      returns (bills1: seq<seq<Entry>>, ghost ids1: seq<nat>)
      requires Inv(s) && State() == Dropped(s, gone) && PlacedOk(State()) && OfflineOk(State())
      requires p in s.placed && LongGone(s, p, now) && ListsDesertions(s, now, gone, ids, bills)
      requires room.id == s.placed[p] && room.id !in gone
      requires room.id in rooms && room.id in s.rooms && room == rooms[room.id] == s.rooms[room.id]
      modifies this
      ensures State() == Dropped(s, gone + {room.id})
      ensures ListsDesertions(s, now, gone + {room.id}, ids1, bills1)
    {
      DroppedMore(s, gone, room.id);
      hide Inv, Dropped, PlacedOk, OfflineOk, ListsDesertions;
      if room.round.Some? && room.round.value.landlord.Some? {
        var landlord := room.round.value.landlord.value;
        var expiredSeat := SeatOf(room.players, p);
        var settlements := Bill(room, landlord, expiredSeat != landlord);
        OneMoreDesertion(s, now, gone, ids, bills, room.id, settlements);
        bills1, ids1 := bills + [settlements], ids + [room.id];
      } else {
        NoDesertionBill(s, now, gone, ids, bills, room.id);
        bills1, ids1 := bills, ids;
      }
      Discard(room);
    }

    static lemma {:induction false} NoDesertionBill(
      s: Lobby, now: int, gone: set<nat>, ids: seq<nat>, bills: seq<seq<Entry>>, id: nat)
      requires Inv(s) && ListsDesertions(s, now, gone, ids, bills)
      requires id in s.rooms && !HasLandlord(s.rooms[id])
      ensures ListsDesertions(s, now, gone + {id}, ids, bills)
    {
    }

    /** room_manager.cpp, lines 351-398: the loop over the expired players. */
    method ExpirePlayers(expired: seq<PlayerId>, now: int) returns (bills: seq<seq<Entry>>, ghost ids: seq<nat>)
      requires Ok()
      requires forall p :: p in expired ==> p in playerRooms && LongGone(State(), p, now)
      modifies this
      ensures State() == Dropped(old(State()), RoomsOf(old(State()), expired))
      ensures ListsDesertions(old(State()), now, RoomsOf(old(State()), expired), ids, bills)
    {
      ghost var s := State();
      bills, ids := [], [];
      ghost var gone: set<nat> := {};
      DroppedNothing(s);
      assert ListsDesertions(s, now, gone, ids, bills);
      assert RoomsOf(s, expired[..0]) == {};
      hide Inv, Dropped, ListsDesertions, LongGone, RoomsOf;
      for i := 0 to |expired|
        invariant forall p :: p in expired[..i] ==> p in s.placed
        invariant gone == RoomsOf(s, expired[..i])
        invariant State() == Dropped(s, gone)
        invariant ListsDesertions(s, now, gone, ids, bills)
      {
        assert expired[i] in expired;
        bills, ids := ExpirePlayer(expired[i], now, s, gone, ids, bills);
        gone := gone + {s.placed[expired[i]]};
        RoomsOfMore(s, expired, i);
      }
      assert expired[..|expired|] == expired;
    }

    static lemma {:induction false} RoomsOfMore(s: Lobby, expired: seq<PlayerId>, i: nat)
      requires i < |expired| && forall p :: p in expired ==> p in s.placed
      ensures RoomsOf(s, expired[..i + 1]) == RoomsOf(s, expired[..i]) + {s.placed[expired[i]]}
    {
      assert expired[..i + 1] == expired[..i] + [expired[i]];
    }

    /**
      Whatever the order of the map, the rooms of all long absent players go and
      no others, and every one of them that has a landlord is settled once, also
      when several of its players are absent.
     */
    method CleanupExpired(now: int) returns (bills: seq<seq<Entry>>, ghost ids: seq<nat>)
      requires Ok()
      modifies this
      ensures Ok()
      ensures State() == Dropped(old(State()), DesertedRooms(old(State()), now))
      ensures ListsDesertions(old(State()), now, DesertedRooms(old(State()), now), ids, bills)
    {
      ghost var s := State();
      var expired := LongAbsent(now);
      DesertedAreRoomsOf(s, expired, now);
      DroppedFromInv(s, DesertedRooms(s, now));
      hide Inv, Dropped, ListsDesertions, DesertedRooms, RoomsOf;
      bills, ids := ExpirePlayers(expired, now);
    }

    static lemma {:induction false} DesertedAreRoomsOf(s: Lobby, expired: seq<PlayerId>, now: int)
      requires Inv(s)
      requires forall p :: p in expired <==> LongGone(s, p, now)
      ensures forall p :: p in expired ==> p in s.placed
      ensures RoomsOf(s, expired) == DesertedRooms(s, now)
    {
    }
  }
}
