/**
  The state of `RoomManager` as a value, the state each of its operations leads
  to, and what is billed when a room is settled. Time is a parameter, counted in
  nanoseconds; so are the random numbers of a deal.
 */
module Lobbies {
  import opened Clock
  import opened Lists
  import opened Wrappers
  import opened Cards
  import opened Deck
  import opened Rounds
  import opened RoundSteps

  type PlayerId = string

  /** A deadline of None is the far end of the clock. */
  datatype Room = Room(
    id: nat,
    players: seq<PlayerId>,
    round: Option<Round>,
    deadline: Option<int>,
    lastActivity: int)

  datatype Lobby = Lobby(
    nextId: nat,
    waiting: Option<nat>,
    rooms: map<nat, Room>,
    placed: map<PlayerId, nat>,
    offline: map<PlayerId, int>)

  const NEW_LOBBY := Lobby(1, None, map[], map[], map[])

  // ---------- Rooms ----------

  /** The position of a player, or the number of players. */
  function SeatOf(players: seq<PlayerId>, p: PlayerId): (seat: nat)
    ensures seat <= |players|
    ensures seat < |players| ==> players[seat] == p
    ensures seat < |players| <==> p in players
  {
    if players == [] then 0
    else if players[0] == p then 0
    else 1 + SeatOf(players[1..], p)
  }

  function Limit(phase: Phase): int {
    if phase == CallLandlord then 10 * SECOND else 15 * SECOND
  }

  function Refreshed(room: Room, now: int): Room {
    if room.round.None? || room.round.value.phase == Settled then room.(deadline := None)
    else room.(deadline := Some(now + Limit(room.round.value.phase)))
  }

  /** The room after its round took a step at time `now`. */
  function Moved(room: Room, round: Round, now: int): Room {
    Refreshed(room.(round := Some(round), lastActivity := now), now)
  }

  ghost predicate Running(r: Round) {
    Valid(r) && r.phase in {CallLandlord, PlayCards}
  }

  /** A room has a round exactly when it has three players, and a started room has the deadline of its phase. */
  ghost predicate RoomOk(id: nat, room: Room) {
    && room.id == id
    && NoRepeats(room.players) && 1 <= |room.players| <= 3
    && (room.round.Some? <==> |room.players| == 3)
    && (room.round.Some? ==>
          && Running(room.round.value)
          && room.deadline == Some(room.lastActivity + Limit(room.round.value.phase)))
  }

  ghost predicate HasLandlord(room: Room) {
    room.round.Some? && room.round.value.landlord.Some?
  }

  // ---------- The invariant ----------

  /** The index of players is exactly what a scan of all rooms would find. */
  ghost predicate PlacedOk(s: Lobby) {
    && (forall p :: p in s.placed ==> s.placed[p] in s.rooms && p in s.rooms[s.placed[p]].players)
    && (forall id, p :: id in s.rooms && p in s.rooms[id].players ==> p in s.placed && s.placed[p] == id)
  }

  /** The waiting room is the one room without a round. */
  ghost predicate WaitingOk(s: Lobby) {
    && (s.waiting.Some? ==> s.waiting.value in s.rooms)
    && (forall id :: id in s.rooms ==> (s.rooms[id].round.None? <==> s.waiting == Some(id)))
  }

  ghost predicate IdsOk(s: Lobby) {
    && s.nextId >= 1
    && (forall id :: id in s.rooms ==> 1 <= id < s.nextId)
  }

  ghost predicate OfflineOk(s: Lobby) {
    forall p :: p in s.offline ==> p in s.placed
  }

  /** The invariant, where the rooms in `leaving` may hold anything. */
  ghost predicate InvBut(s: Lobby, leaving: set<nat>) {
    && PlacedOk(s) && WaitingOk(s) && IdsOk(s) && OfflineOk(s)
    && forall id :: id in s.rooms && id !in leaving ==> RoomOk(id, s.rooms[id])
  }

  ghost predicate Inv(s: Lobby) {
    InvBut(s, {})
  }

  // ---------- Operations ----------

  /** The player enters the waiting room; the third player starts its round. */
  ghost function Matched(s: Lobby, p: PlayerId, now: int, draws: Draws): Lobby
    requires Inv(s)
  {
    if p in s.placed then s else
    var id := if s.waiting.Some? then s.waiting.value else s.nextId;
    var room := if s.waiting.Some? then s.rooms[id] else Room(id, [], None, Some(0), now);
    var joined := room.(players := room.players + [p], lastActivity := now);
    var full := |joined.players| == 3;
    Lobby(if s.waiting.Some? then s.nextId else s.nextId + 1,
          if full then None else Some(id),
          s.rooms[id := if full then Moved(joined, Started(draws), now) else joined],
          s.placed[p := id],
          s.offline)
  }

  /** What a player asks of the round of its room. */
  datatype Deed = Bidding(call: bool, draws: Draws) | Laying(cards: seq<Card>) | Passing

  function ActionOf(deed: Deed, seat: nat): Action {
    match deed
    case Bidding(call, draws) => Bid(seat, call, draws)
    case Laying(cards) => Lay(seat, cards)
    case Passing => Skip(seat)
  }

  /** The rooms in `gone` disappear, with their players and what is known of them. */
  ghost function Dropped(s: Lobby, gone: set<nat>): Lobby {
    Lobby(s.nextId,
          if s.waiting.Some? && s.waiting.value in gone then None else s.waiting,
          map id | id in s.rooms && id !in gone :: s.rooms[id],
          map p | p in s.placed && s.placed[p] !in gone :: s.placed[p],
          map p | p in s.offline && !(p in s.placed && s.placed[p] in gone) :: s.offline[p])
  }

  /** The player sits in a started room. */
  ghost predicate Playing(s: Lobby, p: PlayerId)
    requires Inv(s)
  {
    p in s.placed && s.rooms[s.placed[p]].round.Some?
  }

  ghost function RoomOf(s: Lobby, p: PlayerId): Room
    requires Inv(s) && Playing(s, p)
  {
    s.rooms[s.placed[p]]
  }

  ghost function RoundOf(s: Lobby, p: PlayerId): (r: Round)
    requires Inv(s) && Playing(s, p)
    ensures Running(r)
  {
    assert RoomOk(s.placed[p], RoomOf(s, p));
    RoomOf(s, p).round.value
  }

  ghost function Asked(s: Lobby, p: PlayerId, deed: Deed): Action
    requires Inv(s) && Playing(s, p)
  {
    ActionOf(deed, SeatOf(RoomOf(s, p).players, p))
  }

  /** An accepted deed moves the round and its deadline; if the round is over, the room goes. */
  ghost function Done(s: Lobby, p: PlayerId, deed: Deed, now: int): Lobby
    requires Inv(s)
  {
    if !Playing(s, p) || !Accepted(RoundOf(s, p), Asked(s, p, deed)) then s else
    var id := s.placed[p];
    var round := After(RoundOf(s, p), Asked(s, p, deed));
    var s1 := s.(rooms := s.rooms[id := Moved(RoomOf(s, p), round, now)]);
    if round.phase == Settled then Dropped(s1, {id}) else s1
  }

  ghost function WentOnline(s: Lobby, p: PlayerId): Lobby {
    s.(offline := s.offline - {p})
  }

  /** The first moment of absence is kept; players without a room are not recorded. */
  ghost function WentOffline(s: Lobby, p: PlayerId, now: int): Lobby {
    if p in s.placed && p !in s.offline then s.(offline := s.offline[p := now]) else s
  }

  // ---------- Timeouts ----------

  ghost predicate Overdue(room: Room, now: int) {
    room.round.Some? && room.deadline.Some? && room.deadline.value <= now
  }

  ghost function TimedOut(room: Room, now: int, draws: Draws): Room
    requires room.round.Some? && Valid(room.round.value)
  {
    Moved(room, After(room.round.value, Expire(draws)), now)
  }

  /** The rooms whose round ends when their deadline is enforced. */
  ghost predicate Ends(room: Room, now: int, draws: Draws)
    requires room.round.Some? ==> Valid(room.round.value)
  {
    Overdue(room, now) && After(room.round.value, Expire(draws)).phase == Settled
  }

  ghost predicate RoundsValid(s: Lobby) {
    forall id :: id in s.rooms && s.rooms[id].round.Some? ==> Valid(s.rooms[id].round.value)
  }

  ghost function Stepped(s: Lobby, now: int, random: nat -> Draws, done: set<nat>): Lobby
    requires RoundsValid(s)
  {
    s.(rooms := map id | id in s.rooms ::
      if id in done && Overdue(s.rooms[id], now) then TimedOut(s.rooms[id], now, random(id)) else s.rooms[id])
  }

  ghost function Ending(s: Lobby, now: int, random: nat -> Draws, done: set<nat>): set<nat>
    requires RoundsValid(s)
  {
    set id | id in s.rooms && id in done && Ends(s.rooms[id], now, random(id))
  }

  /** The overdue rooms among `done` each take one step; those that end are dropped. */
  ghost function TickedOn(s: Lobby, now: int, random: nat -> Draws, done: set<nat>): Lobby
    requires RoundsValid(s)
  {
    Dropped(Stepped(s, now, random, done), Ending(s, now, random, done))
  }

  // ---------- Cleanup ----------

  ghost predicate IsIdle(room: Room, now: int) {
    room.round.None? && now - room.lastActivity >= 60 * SECOND
  }

  ghost function IdleRooms(s: Lobby, now: int): set<nat> {
    set id | id in s.rooms && IsIdle(s.rooms[id], now)
  }

  ghost predicate LongGone(s: Lobby, p: PlayerId, now: int) {
    p in s.offline && now - s.offline[p] >= 300 * SECOND
  }

  /** The rooms in which somebody has been absent for five minutes. */
  ghost function DesertedRooms(s: Lobby, now: int): set<nat>
    requires Inv(s)
  {
    set p | p in s.offline && LongGone(s, p, now) :: s.placed[p]
  }
}
