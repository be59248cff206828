/** The replies of the room manager: what they are, and what they tell the player. */
module ManagerReplies {
  import opened Clock
  import opened Lists
  import opened Wrappers
  import opened Cards
  import opened Deck
  import opened Rounds
  import opened RoundSteps
  import opened RoundActions
  import opened Lobbies
  import opened LobbySteps
  import opened Settlements

  datatype GameStart = GameStart(players: seq<PlayerId>, hands: seq<seq<Card>>, currentSeat: nat)

  datatype MatchResult = MatchResult(roomId: nat, seat: nat, gameStarted: bool, gameStart: Option<GameStart>)

  datatype CallResult = CallResult(
    accepted: bool, currentSeat: nat, gameStarted: bool, landlord: Option<nat>,
    actorSeat: nat, called: bool, players: seq<PlayerId>)

  datatype PlayResult = PlayResult(
    accepted: bool, currentSeat: nat, gameOver: bool, settlements: seq<Entry>,
    actorSeat: nat, players: seq<PlayerId>)

  datatype TimeoutAction = TimeoutAction(
    players: seq<PlayerId>, actorSeat: nat, phase: Phase, currentSeat: nat, settlements: seq<Entry>)

  datatype ReconnectInfo = ReconnectInfo(
    roomId: nat, seat: nat, phase: Phase, currentSeat: nat, landlord: Option<nat>, hand: seq<Card>)

  datatype PlayerInfo = PlayerInfo(player: PlayerId, online: bool, cards: nat)

  datatype RoomState = RoomState(
    roomId: nat, seat: nat, phase: Phase, currentSeat: nat, landlord: Option<nat>, players: seq<PlayerInfo>,
    hand: seq<Card>, bottom: seq<Card>, lastSeat: Option<nat>, lastCards: seq<Card>, seconds: nat)

  /**
    What a snapshot for the player shows: its own hand, and of the others who is
    present and how many cards are held.
   */
  ghost predicate Shows(s: Lobby, p: PlayerId, now: int, view: RoomState)
    requires Inv(s) && Playing(s, p)
  {
    var room, r := RoomOf(s, p), RoundOf(s, p);
    && |room.players| == |r.hands| == |view.players| == 3
    && view.roomId == room.id && view.seat < 3 && room.players[view.seat] == p && view.hand == r.hands[view.seat]
    && view.phase == r.phase && view.currentSeat == r.seat && view.landlord == r.landlord
    && view.lastSeat == r.lastSeat && view.lastCards == r.lastCards
    && view.bottom == (if r.phase == PlayCards then r.bottom else [])
    && (forall i :: 0 <= i < 3 ==>
          view.players[i] == PlayerInfo(room.players[i], room.players[i] !in s.offline, |r.hands[i]|))
    && room.deadline.Some?
    && (if room.deadline.value <= now then view.seconds == 0
        else view.seconds * SECOND <= room.deadline.value - now < (view.seconds + 1) * SECOND)
  }

  // ---------- Replies ----------

  /** Where the player sits after the match, and the deal if the match completed a room. */
  ghost function MatchReply(s: Lobby, s1: Lobby, p: PlayerId): MatchResult
    requires Inv(s1) && p in s1.placed
  {
    var id := s1.placed[p];
    var room := s1.rooms[id];
    MatchResult(id, SeatOf(room.players, p), room.round.Some?,
                if p in s.placed || room.round.None? then None
                else Some(GameStart(room.players, room.round.value.hands, room.round.value.seat)))
  }

  /** The entries of a round that is over: the landlord's side has won if the landlord has. */
  ghost function FinalEntries(room: Room, round: Round): seq<Entry>
    requires Valid(round)
  {
    if round.phase != Settled then []
    else EntriesFor(room, round.landlord.value, round.landlord == round.winner)
  }

  ghost function PlayReply(s: Lobby, p: PlayerId, deed: Deed): (r: Option<PlayResult>)
    requires Inv(s)
  {
    if !Playing(s, p) then None else
    var seat := SeatOf(RoomOf(s, p).players, p);
    var action := Asked(s, p, deed);
    StepValid(RoundOf(s, p), action);
    var round := After(RoundOf(s, p), action);
    Some(PlayResult(Accepted(RoundOf(s, p), action), round.seat, round.phase == Settled,
                    FinalEntries(RoomOf(s, p), round), seat, RoomOf(s, p).players))
  }

  ghost function CallReply(s: Lobby, p: PlayerId, call: bool, draws: Draws): Option<CallResult>
    requires Inv(s)
  {
    if !Playing(s, p) then None else
    var seat := SeatOf(RoomOf(s, p).players, p);
    var action := Asked(s, p, Bidding(call, draws));
    var round := After(RoundOf(s, p), action);
    Some(CallResult(Accepted(RoundOf(s, p), action), round.seat, round.phase == PlayCards, round.landlord,
                    seat, call, RoomOf(s, p).players))
  }

  ghost function TimeoutReply(room: Room, draws: Draws): TimeoutAction
    requires RoomOk(room.id, room) && room.round.Some?
  {
    StepValid(room.round.value, Expire(draws));
    var round := After(room.round.value, Expire(draws));
    TimeoutAction(room.players, room.round.value.seat, round.phase, round.seat, FinalEntries(room, round))
  }

  /** The bill of a deserted room: somebody long absent decides which side has lost. */
  ghost predicate DesertionBill(s: Lobby, now: int, id: nat, entries: seq<Entry>)
    requires Inv(s) && id in s.rooms
  {
    && s.rooms[id].round.Some? && s.rooms[id].round.value.landlord.Some?
    && var landlord := s.rooms[id].round.value.landlord.value;
    exists p :: p in s.placed && s.placed[p] == id && LongGone(s, p, now)
             && entries == EntriesFor(s.rooms[id], landlord, SeatOf(s.rooms[id].players, p) != landlord)
  }

  // ---------- What a reply says ----------

  /** All but one room, and what is known of everybody else, stay as they are. */
  ghost predicate OnlyRoom(s: Lobby, s1: Lobby, id: nat) {
    forall other :: other != id ==>
      (other in s1.rooms <==> other in s.rooms) && (other in s.rooms ==> s1.rooms[other] == s.rooms[other])
  }

  /**
    A player in a room is told where it sits. Any other one takes the next seat of
    the waiting room, or the first one of a new room; the third player starts the
    round, and everybody's hand is in the reply.
   */
  ghost predicate MatchTold(s: Lobby, s1: Lobby, p: PlayerId, now: int, draws: Draws, r: MatchResult) {
    && p in s1.placed && r.roomId == s1.placed[p] && r.roomId in s1.rooms
    && var room := s1.rooms[r.roomId];
    && r.seat < |room.players| && room.players[r.seat] == p && r.gameStarted == room.round.Some?
    && if p in s.placed then s1 == s && r.gameStart.None?
       else
         && r.roomId == (if s.waiting.Some? then s.waiting.value else s.nextId)
         && s1.nextId == (if s.waiting.Some? then s.nextId else s.nextId + 1)
         && (s.waiting.Some? ==> r.roomId in s.rooms)
         && var before := if s.waiting.Some? then s.rooms[r.roomId].players else [];
         && room.players == before + [p] && r.seat == |before| && room.lastActivity == now
         && OnlyRoom(s, s1, r.roomId) && s1.placed == s.placed[p := r.roomId] && s1.offline == s.offline
         && if |before| == 2 then
              && room.round == Some(Started(draws)) && s1.waiting.None?
              && r.gameStart == Some(GameStart(room.players, DealOf(draws).hands, 0))
            else room.round.None? && s1.waiting == Some(r.roomId) && r.gameStart.None?
  }

  /** The room of the player before and after its request; only an accepted one changes anything. */
  ghost predicate ActedIn(
    s: Lobby, s1: Lobby, p: PlayerId, seat: nat, players: seq<PlayerId>, accepted: bool, now: int)
  {
    && p in s.placed && s.placed[p] in s.rooms && s.rooms[s.placed[p]].round.Some?
    && players == s.rooms[s.placed[p]].players && |players| == 3 && seat < 3 && players[seat] == p
    && OnlyRoom(s, s1, s.placed[p]) && s1.nextId == s.nextId && s1.waiting == s.waiting
    && (!accepted ==> s1 == s)
    && (accepted && s.placed[p] in s1.rooms ==>
          && s1.placed == s.placed && s1.offline == s.offline
          && s1.rooms[s.placed[p]].round.Some? && s1.rooms[s.placed[p]].players == players
          && s1.rooms[s.placed[p]].lastActivity == now)
    && (s.placed[p] !in s1.rooms ==>
          forall q ::
            && (q in s1.placed <==> q in s.placed && q !in players)
            && (q in s1.offline <==> q in s.offline && q !in players))
  }

  /** After an accepted call the reply names the seat in turn, and the landlord once it is chosen. */
  ghost predicate CallTold(s: Lobby, s1: Lobby, p: PlayerId, call: bool, now: int, r: CallResult) {
    && ActedIn(s, s1, p, r.actorSeat, r.players, r.accepted, now) && s.placed[p] in s1.rooms
    && r.called == call
    && var before := s.rooms[s.placed[p]].round.value;
    && var after := s1.rooms[s.placed[p]].round.value;
    && r.accepted == (before.phase == CallLandlord && before.seat == r.actorSeat)
    && r.currentSeat == after.seat && r.landlord == after.landlord
    && r.gameStarted == (after.phase == PlayCards) == r.landlord.Some?
  }

  /**
    After an accepted play or pass the next seat is in turn, unless the play ended
    the game: then the room is gone, and the winner is named with the settlements.
    A rejected request names the seat that is still in turn.
   */
  ghost predicate PlayTold(s: Lobby, s1: Lobby, p: PlayerId, now: int, r: PlayResult) {
    && ActedIn(s, s1, p, r.actorSeat, r.players, r.accepted, now)
    && r.accepted == (s1 != s) && r.gameOver == (s.placed[p] !in s1.rooms) == (r.settlements != [])
    && (!r.accepted ==> r.currentSeat == s.rooms[s.placed[p]].round.value.seat)
    && (r.accepted && !r.gameOver ==> r.currentSeat == s1.rooms[s.placed[p]].round.value.seat == (r.actorSeat + 1) % 3)
    && (r.gameOver ==> r.accepted && r.currentSeat == r.actorSeat && |r.settlements| == 3)
  }

  lemma {:induction false} SeatOfLast(players: seq<PlayerId>, p: PlayerId)
    requires p !in players
    ensures SeatOf(players + [p], p) == |players|
  {
    if players != [] {
      assert (players + [p])[1..] == players[1..] + [p];
      SeatOfLast(players[1..], p);
    }
  }

  lemma {:induction false} PlayingRoom(s: Lobby, p: PlayerId)
    requires Inv(s) && Playing(s, p)
    ensures var room := RoomOf(s, p);
      && room.id == s.placed[p] && |room.players| == 3 && p in room.players && NoRepeats(room.players)
      && room.round.Some? && Running(room.round.value) && room.deadline.Some?
  {
    assert RoomOk(s.placed[p], RoomOf(s, p));
  }

  /** Calls and passes never end a round. */
  lemma {:induction false} NeverSettles(s: Lobby, p: PlayerId, deed: Deed)
    requires Inv(s) && Playing(s, p) && !deed.Laying?
    ensures After(RoundOf(s, p), Asked(s, p, deed)).phase != Settled
  {
  }

  lemma {:induction false} MatchIsTold(s: Lobby, p: PlayerId, now: int, draws: Draws)
    requires Inv(s)
    ensures Inv(Matched(s, p, now, draws)) && p in Matched(s, p, now, draws).placed
    ensures MatchTold(s, Matched(s, p, now, draws), p, now, draws, MatchReply(s, Matched(s, p, now, draws), p))
  {
    MatchedInv(s, p, now, draws);
    if p in s.placed {
      PlacedIsTold(s, p, now, draws);
    } else {
      NewcomerIsTold(s, p, now, draws);
    }
  }

  lemma {:induction false} PlacedIsTold(s: Lobby, p: PlayerId, now: int, draws: Draws)
    requires Inv(s) && p in s.placed
    ensures MatchTold(s, s, p, now, draws, MatchReply(s, s, p))
  {
    hide RoomOk, DealOf;
  }

  lemma {:induction false} WaitingRoom(s: Lobby, p: PlayerId)
    requires Inv(s) && p !in s.placed && s.waiting.Some?
    ensures s.waiting.value in s.rooms
    ensures var room := s.rooms[s.waiting.value]; |room.players| <= 2 && p !in room.players && room.round.None?
  {
    assert RoomOk(s.waiting.value, s.rooms[s.waiting.value]);
  }

  ghost function PlayersWaiting(s: Lobby): seq<PlayerId>
    requires s.waiting.Some? ==> s.waiting.value in s.rooms
  {
    if s.waiting.Some? then s.rooms[s.waiting.value].players else []
  }

  lemma {:induction false} NewcomerJoins(s: Lobby, p: PlayerId, now: int, draws: Draws) returns (id: nat, room: Room)
    requires Inv(s) && p !in s.placed
    ensures s.waiting.Some? ==> s.waiting.value in s.rooms
    ensures id == if s.waiting.Some? then s.waiting.value else s.nextId
    ensures |PlayersWaiting(s)| <= 2 && p !in PlayersWaiting(s)
    ensures room.players == PlayersWaiting(s) + [p] && room.lastActivity == now
    ensures room.round == if |PlayersWaiting(s)| == 2 then Some(Started(draws)) else None
    ensures Matched(s, p, now, draws) ==
      Lobby(if s.waiting.Some? then s.nextId else s.nextId + 1, if |PlayersWaiting(s)| == 2 then None else Some(id),
            s.rooms[id := room], s.placed[p := id], s.offline)
  {
    if s.waiting.Some? {
      WaitingRoom(s, p);
    }
    hide Inv;
    id := if s.waiting.Some? then s.waiting.value else s.nextId;
    room := Matched(s, p, now, draws).rooms[id];
  }

  lemma {:induction false} NewcomerIsTold(s: Lobby, p: PlayerId, now: int, draws: Draws)
    requires Inv(s) && p !in s.placed && Inv(Matched(s, p, now, draws)) && p in Matched(s, p, now, draws).placed
    ensures MatchTold(s, Matched(s, p, now, draws), p, now, draws, MatchReply(s, Matched(s, p, now, draws), p))
  {
    hide Inv, DealOf, SeatOf, Matched;
    var id, room := NewcomerJoins(s, p, now, draws);
    SeatOfLast(PlayersWaiting(s), p);
  }

  lemma {:induction false} DeedActsIn(s: Lobby, p: PlayerId, deed: Deed, now: int)
    requires Inv(s) && Playing(s, p)
    ensures ActedIn(s, Done(s, p, deed, now), p, SeatOf(RoomOf(s, p).players, p), RoomOf(s, p).players,
                    Accepted(RoundOf(s, p), Asked(s, p, deed)), now)
    ensures Accepted(RoundOf(s, p), Asked(s, p, deed)) && s.placed[p] in Done(s, p, deed, now).rooms ==>
      Done(s, p, deed, now).rooms[s.placed[p]].round == Some(After(RoundOf(s, p), Asked(s, p, deed)))
    ensures s.placed[p] !in Done(s, p, deed, now).rooms <==>
      Accepted(RoundOf(s, p), Asked(s, p, deed)) && After(RoundOf(s, p), Asked(s, p, deed)).phase == Settled
  {
    PlayingRoom(s, p);
  }

  lemma {:induction false} CallIsTold(s: Lobby, p: PlayerId, call: bool, now: int, draws: Draws)
    requires Inv(s) && Playing(s, p)
    ensures CallTold(s, Done(s, p, Bidding(call, draws), now), p, call, now, CallReply(s, p, call, draws).value)
  {
    var deed := Bidding(call, draws);
    var r, a := RoundOf(s, p), Asked(s, p, deed);
    DeedActsIn(s, p, deed, now);
    NeverSettles(s, p, deed);
    BidIs(r, a.seat, call, draws);
    LandlordWhenPlaying(r);
    StepValid(r, a);
    LandlordWhenPlaying(After(r, a));
    hide Inv, Valid, Done, Accepted, After, Playing;
  }

  lemma {:induction false} LandlordWhenPlaying(r: Round)
    requires Running(r)
    ensures (r.phase == PlayCards) == r.landlord.Some?
  {
  }

  lemma {:induction false} PlayIsTold(s: Lobby, p: PlayerId, deed: Deed, now: int)
    requires Inv(s) && Playing(s, p) && !deed.Bidding?
    ensures PlayTold(s, Done(s, p, deed, now), p, now, PlayReply(s, p, deed).value)
  {
    hide Inv, Valid, Done, Accepted, After, Playing, ActedIn, FinalEntries, PlayReply;
    var r, a := RoundOf(s, p), Asked(s, p, deed);
    DeedActsIn(s, p, deed, now);
    ActedBy(s, p, deed, now);
    if Accepted(r, a) {
      AcceptedChanges(r, a);
    }
    TurnPasses(r, a);
    PlayingRoom(s, p);
    SettlementsOf(RoomOf(s, p), After(r, a));
    ReplyFields(s, p, deed);
  }

  lemma {:induction false} AcceptedChanges(r: Round, a: Action)
    requires Running(r) && (a.Lay? || a.Skip?) && Accepted(r, a)
    ensures After(r, a) != r
  {
    AcceptedAdvances(r, a);
    hide After, Valid, Accepted;
  }

  lemma {:induction false} ReplyFields(s: Lobby, p: PlayerId, deed: Deed)
    requires Inv(s) && Playing(s, p) && Valid(After(RoundOf(s, p), Asked(s, p, deed)))
    ensures var r, a := RoundOf(s, p), Asked(s, p, deed);
      PlayReply(s, p, deed) ==
        Some(PlayResult(Accepted(r, a), After(r, a).seat, After(r, a).phase == Settled,
                        FinalEntries(RoomOf(s, p), After(r, a)),
                        SeatOf(RoomOf(s, p).players, p), RoomOf(s, p).players))
  {
    hide Inv, Valid, Accepted, After, FinalEntries, Playing;
  }

  lemma {:induction false} ActedBy(s: Lobby, p: PlayerId, deed: Deed, now: int)
    requires Inv(s) && Playing(s, p) && !deed.Bidding?
    ensures s.placed[p] in s.rooms && s.rooms[s.placed[p]] == RoomOf(s, p)
    ensures s.rooms[s.placed[p]].round == Some(RoundOf(s, p))
    ensures Asked(s, p, deed).Lay? || Asked(s, p, deed).Skip?
    ensures Asked(s, p, deed).seat == SeatOf(RoomOf(s, p).players, p)
    ensures !Accepted(RoundOf(s, p), Asked(s, p, deed)) ==> s.placed[p] in Done(s, p, deed, now).rooms
  {
    hide Valid, Accepted, After, RoomOk;
  }

  lemma {:induction false} SettlementsOf(room: Room, r: Round)
    requires Valid(r) && |room.players| == 3
    ensures FinalEntries(room, r) != [] <==> r.phase == Settled
    ensures r.phase == Settled ==> |FinalEntries(room, r)| == 3
  {
  }

  /** An accepted play or pass hands on the turn, or ends the round where it is. */
  lemma {:induction false} TurnPasses(r: Round, a: Action)
    requires Running(r) && (a.Lay? || a.Skip?)
    ensures Valid(After(r, a))
    ensures if !Accepted(r, a) then After(r, a) == r
      else if After(r, a).phase == Settled then After(r, a).seat == a.seat && After(r, a).landlord.Some?
      else After(r, a).seat == (a.seat + 1) % 3
  {
    StepValid(r, a);
    match a
    case Lay(seat, cards) => LayIs(r, seat, cards);
    case Skip(seat) => SkipIs(r, seat);
    hide Accepted, After;
  }

  lemma {:induction false} PlayReplyTold(s: Lobby, p: PlayerId, deed: Deed, now: int)
    requires Inv(s) && !deed.Bidding?
    ensures PlayReply(s, p, deed).Some? <==> Playing(s, p)
    ensures Playing(s, p) ==> PlayTold(s, Done(s, p, deed, now), p, now, PlayReply(s, p, deed).value)
  {
    if Playing(s, p) {
      PlayIsTold(s, p, deed, now);
    }
    hide Inv, Done, PlayTold, Accepted, After, FinalEntries, Playing;
  }
}
