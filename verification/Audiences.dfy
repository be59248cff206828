/** Who is sent what: for each request and each kind of message, the sessions that it goes to. */
module Audiences {
  import opened Lists
  import opened Wrappers
  import opened Cards
  import opened Deck
  import opened Rounds
  import opened RoundSteps
  import opened Lobbies
  import opened LobbySteps
  import opened Settlements
  import opened ManagerReplies
  import opened Presence
  import opened Replies

  /** The sessions that are sent a message of this kind, once for each such message, in order. */
  function Receivers(sendings: seq<Sending>, kind: Kind): seq<nat> {
    if sendings == [] then []
    else
      var k := |sendings| - 1;
      Receivers(sendings[..k], kind) + if sendings[k].kind == kind then [sendings[k].session] else []
  }

  /** The sessions of the senders of these players, in order; a player without a sender is left out. */
  function Reachable(n: Notifier, players: seq<PlayerId>): seq<nat> {
    if players == [] then []
    else
      var k := |players| - 1;
      Reachable(n, players[..k]) + if players[k] in n.senders then [n.senders[players[k]].session] else []
  }

  lemma {:induction false} ReceiversJoin(a: seq<Sending>, b: seq<Sending>, kind: Kind)
    ensures Receivers(a + b, kind) == Receivers(a, kind) + Receivers(b, kind)
    decreases |b|
  {
    if b == [] {
      assert a + b == a;
    } else {
      var k := |b| - 1;
      assert (a + b)[..|a + b| - 1] == a + b[..k];
      ReceiversJoin(a, b[..k], kind);
    }
  }

  lemma {:induction false} ReceiversOfOne(n: Notifier, p: PlayerId, sent: Kind, kind: Kind)
    ensures Receivers(ToPlayer(n, p, sent), kind) ==
      if p in n.senders && sent == kind then [n.senders[p].session] else []
  {
    var all := ToPlayer(n, p, sent);
    if all != [] {
      assert all[..0] == [];
      assert Receivers(all, kind) == Receivers(all[..0], kind) + if sent == kind then [all[0].session] else [];
    }
  }

  lemma {:induction false} ReceiversOfReply(id: nat, sent: Kind, kind: Kind)
    ensures Receivers([Sending(id, sent)], kind) == if sent == kind then [id] else []
  {
    var all := [Sending(id, sent)];
    assert all[..0] == [];
    assert Receivers(all, kind) == Receivers(all[..0], kind) + if sent == kind then [id] else [];
  }

  /** Each player of a table is sent the message once, and its snapshot once if everybody still has a round. */
  lemma {:induction false} TableAudience(
    s: Lobby, n: Notifier, players: seq<PlayerId>, sent: Kind, kind: Kind, going: bool)
    requires Inv(s) && sent != RoomStates && forall p :: p in players ==> Playing(s, p) == going
    ensures Receivers(ToTable(s, n, players, sent), kind) ==
      if kind == sent || (kind == RoomStates && going) then Reachable(n, players) else []
  {
    hide Inv, Playing, Receivers, ToPlayer;
    if players == [] {
      NoReceivers(kind);
    } else {
      var k := |players| - 1;
      var last := players[k];
      assert players == players[..k] + [last];
      TableAudience(s, n, players[..k], sent, kind, going);
      ReceiversOfOne(n, last, sent, kind);
      ReceiversOfOne(n, last, RoomStates, kind);
      NoReceivers(kind);
      var front, first := ToTable(s, n, players[..k], sent), ToPlayer(n, last, sent);
      var second := if Playing(s, last) then ToPlayer(n, last, RoomStates) else [];
      ReceiversJoin(front, first, kind);
      ReceiversJoin(front + first, second, kind);
    }
  }

  lemma {:induction false} NoReceivers(kind: Kind)
    ensures Receivers([], kind) == []
  {
  }

  ghost function PlayersOf(settlements: seq<Entry>): (players: seq<PlayerId>)
    ensures |players| == |settlements|
  {
    seq(|settlements|, i requires 0 <= i < |settlements| => settlements[i].player)
  }

  lemma {:induction false} WinnersAudience(n: Notifier, settlements: seq<Entry>, kind: Kind)
    ensures Receivers(ToWinners(n, settlements), kind) ==
      if kind == SettleResult then Reachable(n, PlayersOf(settlements)) else []
  {
    hide Receivers, ToPlayer;
    if settlements == [] {
      NoReceivers(kind);
    } else {
      var k := |settlements| - 1;
      WinnersAudience(n, settlements[..k], kind);
      ReceiversOfOne(n, settlements[k].player, SettleResult, kind);
      ReceiversJoin(ToWinners(n, settlements[..k]), ToPlayer(n, settlements[k].player, SettleResult), kind);
      assert PlayersOf(settlements)[..k] == PlayersOf(settlements[..k]);
    }
  }

  // ---------- Requests ----------

  /** Everybody else in the room still has a round, or the room is gone for all of them. */
  lemma {:induction false} TableGoing(s: Lobby, players: seq<PlayerId>, id: nat)
    requires Inv(s)
    requires if id in s.rooms then s.rooms[id].players == players && s.rooms[id].round.Some?
             else forall p :: p in players ==> p !in s.placed
    ensures forall p :: p in players ==> Playing(s, p) == (id in s.rooms)
  {
    hide RoomOk;
  }

  /**
    A match answers its own session. If it starts a round, each of the three players
    that has a sender is sent its cards and its snapshot, once, and nothing else is
    sent; otherwise nobody is sent anything.
   */
  lemma {:induction false} MatchAudience(g: Gateway, id: nat, draws: Draws, now: int, kind: Kind)
    requires Inv(g.lobby) && id in g.sessions && !Refused(g, g.sessions[id], QuickMatch(draws))
    ensures var p, s := g.sessions[id].player, g.lobby; var s1 := Matched(s, p, now, draws);
      var starts := p != "" && p !in s.placed && p in s1.placed && s1.placed[p] in s1.rooms
        && s1.rooms[s1.placed[p]].round.Some?;
      Receivers(RepliesTo(g, id, QuickMatch(draws), now), kind) ==
        if kind == MatchRet then [id]
        else if starts && (kind == DealCards || kind == RoomStates) then
          Reachable(g.notifier, s1.rooms[s1.placed[p]].players)
        else []
  {
    var p, s := g.sessions[id].player, g.lobby;
    var s1 := Matched(s, p, now, draws);
    hide Inv, Matched, MatchReply, Playing, Receivers, Reachable, ToTable, Refused;
    if p == "" {
      ReceiversOfReply(id, MatchRet, kind);
    } else {
      MatchIsTold(s, p, now, draws);
      var start := MatchReply(s, s1, p).gameStart;
      MatchRepliesAre(g, id, draws, now);
      if start.Some? {
        TableGoing(s1, start.value.players, s1.placed[p]);
      }
      MatchSendings(s1, g.notifier, id, start, kind);
    }
    hide RepliesTo;
  }

  ghost function MatchSent(s1: Lobby, n: Notifier, id: nat, start: Option<GameStart>): seq<Sending>
    requires Inv(s1)
  {
    [Sending(id, MatchRet)] + if start.Some? then ToTable(s1, n, start.value.players, DealCards) else []
  }

  lemma {:induction false} MatchRepliesAre(g: Gateway, id: nat, draws: Draws, now: int)
    requires Inv(g.lobby) && id in g.sessions && !Refused(g, g.sessions[id], QuickMatch(draws))
    requires g.sessions[id].player != ""
    ensures var p := g.sessions[id].player; var s1 := Matched(g.lobby, p, now, draws);
      && Inv(s1) && p in s1.placed
      && RepliesTo(g, id, QuickMatch(draws), now) ==
           MatchSent(s1, g.notifier, id, MatchReply(g.lobby, s1, p).gameStart)
  {
    hide Inv, Matched, MatchReply, ToTable, Refused;
    MatchedInv(g.lobby, g.sessions[id].player, now, draws);
  }

  lemma {:induction false} MatchSendings(s1: Lobby, n: Notifier, id: nat, start: Option<GameStart>, kind: Kind)
    requires Inv(s1) && (start.Some? ==> forall q :: q in start.value.players ==> Playing(s1, q))
    ensures Receivers(MatchSent(s1, n, id, start), kind) ==
      if kind == MatchRet then [id]
      else if start.Some? && (kind == DealCards || kind == RoomStates) then Reachable(n, start.value.players) else []
  {
    hide Inv, Playing, Receivers, Reachable, ToTable;
    var table := if start.Some? then ToTable(s1, n, start.value.players, DealCards) else [];
    NoReceivers(kind);
    ReceiversOfReply(id, MatchRet, kind);
    if start.Some? {
      TableAudience(s1, n, start.value.players, DealCards, kind, true);
    }
    ReceiversJoin([Sending(id, MatchRet)], table, kind);
  }

  /**
    An accepted call is sent to all three players with their snapshots; a rejected
    one is answered to its own session.
   */
  lemma {:induction false} CallAudience(g: Gateway, id: nat, call: bool, draws: Draws, now: int, kind: Kind)
    requires Inv(g.lobby) && id in g.sessions && !Refused(g, g.sessions[id], Act(Bidding(call, draws)))
    ensures var p, s := g.sessions[id].player, g.lobby;
      && p in s.placed && s.placed[p] in s.rooms && s.rooms[s.placed[p]].round.Some?
      && var players, round := s.rooms[s.placed[p]].players, s.rooms[s.placed[p]].round.value;
         var accepted := round.phase == CallLandlord && round.seat < |players| && players[round.seat] == p;
         Receivers(RepliesTo(g, id, Act(Bidding(call, draws)), now), kind) ==
           if accepted then (if kind == CallRet || kind == RoomStates then Reachable(g.notifier, players) else [])
           else if kind == CallRet then [id] else []
  {
    var p, s, deed := g.sessions[id].player, g.lobby, Bidding(call, draws);
    var s1 := Done(s, p, deed, now);
    var reply := CallReply(s, p, call, draws).value;
    DoneInv(s, p, deed, now);
    CallIsTold(s, p, call, now, draws);
    SeatedOnce(s, p, reply.actorSeat);
    hide Inv, Done, CallReply, Playing, Receivers, Reachable, ToTable, Stale;
    ReceiversOfReply(id, CallRet, kind);
    if reply.accepted {
      TableGoing(s1, reply.players, s.placed[p]);
      TableAudience(s1, g.notifier, reply.players, CallRet, kind, true);
    }
  }

  /** A player sits on one seat only. */
  lemma {:induction false} SeatedOnce(s: Lobby, p: PlayerId, seat: nat)
    requires Inv(s) && Playing(s, p)
    requires seat < |RoomOf(s, p).players| && RoomOf(s, p).players[seat] == p
    ensures forall i :: 0 <= i < |RoomOf(s, p).players| && RoomOf(s, p).players[i] == p ==> i == seat
    ensures RoundOf(s, p).seat < 3
  {
    PlayingRoom(s, p);
  }

  /**
    A play is answered to its own session. An accepted one is sent to all three
    players, with their snapshots while the room is there; one that ends the game
    also sends each of them its settlement.
   */
  lemma {:induction false} PlayAudience(g: Gateway, id: nat, cards: seq<Card>, now: int, kind: Kind)
    requires Inv(g.lobby) && id in g.sessions && !Refused(g, g.sessions[id], Act(Laying(cards)))
    ensures var p, s := g.sessions[id].player, g.lobby; var s1 := Done(s, p, Laying(cards), now);
      && p in s.placed && s.placed[p] in s.rooms && s.rooms[s.placed[p]].round.Some?
      && var accepted, going := s1 != s, s.placed[p] in s1.rooms;
         Receivers(RepliesTo(g, id, Act(Laying(cards)), now), kind) ==
           if kind == PlayRet then [id]
           else if || (accepted && kind == PlayBroadcast) || (accepted && going && kind == RoomStates)
                   || (!going && kind == SettleResult)
           then Reachable(g.notifier, s.rooms[s.placed[p]].players) else []
  {
    var p, s, deed := g.sessions[id].player, g.lobby, Laying(cards);
    var s1 := Done(s, p, deed, now);
    var reply := PlayReply(s, p, deed).value;
    hide Inv, Done, PlayReply, Playing, Receivers, Reachable, ToTable, ToWinners, Stale;
    PlayersTold(s, p, deed, now);
    SettledPlayers(s, p, deed);
    PlayRepliesAre(g, id, cards, now);
    PlaySendings(s1, g.notifier, id, reply, s.placed[p] in s1.rooms, kind);
    hide RepliesTo, DeedReplies, Refused;
  }

  lemma {:induction false} PlayRepliesAre(g: Gateway, id: nat, cards: seq<Card>, now: int)
    requires Inv(g.lobby) && id in g.sessions && !Refused(g, g.sessions[id], Act(Laying(cards)))
    requires Inv(Done(g.lobby, g.sessions[id].player, Laying(cards), now))
    requires PlayReply(g.lobby, g.sessions[id].player, Laying(cards)).Some?
    ensures RepliesTo(g, id, Act(Laying(cards)), now) ==
      PlaySent(Done(g.lobby, g.sessions[id].player, Laying(cards), now), g.notifier, id,
               PlayReply(g.lobby, g.sessions[id].player, Laying(cards)).value)
  {
    hide Inv, Done, PlayReply, ToTable, ToWinners, Stale;
  }

  ghost function PlaySent(s1: Lobby, n: Notifier, id: nat, reply: PlayResult): seq<Sending>
    requires Inv(s1)
  {
    [Sending(id, PlayRet)]
    + (if reply.accepted then ToTable(s1, n, reply.players, PlayBroadcast) else [])
    + (if reply.gameOver then ToWinners(n, reply.settlements) else [])
  }

  lemma {:induction false} PlaySendings(s1: Lobby, n: Notifier, id: nat, reply: PlayResult, going: bool, kind: Kind)
    requires Inv(s1) && reply.gameOver == !going && (reply.gameOver ==> reply.accepted)
    requires forall q :: q in reply.players ==> Playing(s1, q) == going
    requires reply.gameOver ==> PlayersOf(reply.settlements) == reply.players
    ensures Receivers(PlaySent(s1, n, id, reply), kind) ==
      if kind == PlayRet then [id]
      else if || (reply.accepted && kind == PlayBroadcast) || (reply.accepted && going && kind == RoomStates)
              || (!going && kind == SettleResult)
      then Reachable(n, reply.players) else []
  {
    hide Inv, Playing, Receivers, Reachable, ToTable, ToWinners;
    var own := [Sending(id, PlayRet)];
    var table := if reply.accepted then ToTable(s1, n, reply.players, PlayBroadcast) else [];
    var last := if reply.gameOver then ToWinners(n, reply.settlements) else [];
    NoReceivers(kind);
    ReceiversOfReply(id, PlayRet, kind);
    TableAudience(s1, n, reply.players, PlayBroadcast, kind, going);
    WinnersAudience(n, reply.settlements, kind);
    ReceiversJoin(own, table, kind);
    ReceiversJoin(own + table, last, kind);
  }

  /** The audience of a play or pass: the players of the room, all of whom still have a round, or none. */
  lemma {:induction false} PlayersTold(s: Lobby, p: PlayerId, deed: Deed, now: int)
    requires Inv(s) && Playing(s, p) && !deed.Bidding?
    ensures Inv(Done(s, p, deed, now)) && PlayReply(s, p, deed).Some?
    ensures p in s.placed && s.placed[p] in s.rooms && s.rooms[s.placed[p]].round.Some?
    ensures var s1, reply := Done(s, p, deed, now), PlayReply(s, p, deed).value;
      && reply.players == s.rooms[s.placed[p]].players
      && reply.accepted == (s1 != s) && reply.gameOver == (s.placed[p] !in s1.rooms)
      && (reply.gameOver ==> reply.accepted)
      && forall q :: q in reply.players ==> Playing(s1, q) == (s.placed[p] in s1.rooms)
  {
    DoneInv(s, p, deed, now);
    PlayReplyTold(s, p, deed, now);
    hide Inv, Done, PlayReply;
    TableGoing(Done(s, p, deed, now), PlayReply(s, p, deed).value.players, s.placed[p]);
  }

  /** The settlements of a game that is over name its players in the order of their seats. */
  lemma {:induction false} SettledPlayers(s: Lobby, p: PlayerId, deed: Deed)
    requires Inv(s) && Playing(s, p)
    ensures PlayReply(s, p, deed).Some?
    ensures PlayReply(s, p, deed).value.gameOver ==>
      PlayersOf(PlayReply(s, p, deed).value.settlements) == PlayReply(s, p, deed).value.players
  {
    PlayingRoom(s, p);
    StepValid(RoundOf(s, p), Asked(s, p, deed));
    hide Inv, Valid, Accepted, After, Playing, NoRepeats;
  }

  /** A pass is answered to its own session, and sent to all three players with their snapshots if it is accepted. */
  lemma {:induction false} PassAudience(g: Gateway, id: nat, now: int, kind: Kind)
    requires Inv(g.lobby) && id in g.sessions && !Refused(g, g.sessions[id], Act(Passing))
    ensures var p, s := g.sessions[id].player, g.lobby;
      && p in s.placed && s.placed[p] in s.rooms && s.rooms[s.placed[p]].round.Some?
      && Receivers(RepliesTo(g, id, Act(Passing), now), kind) ==
           if kind == PassRet then [id]
           else if Done(s, p, Passing, now) != s && (kind == PlayBroadcast || kind == RoomStates)
           then Reachable(g.notifier, s.rooms[s.placed[p]].players) else []
  {
    var p, s, deed := g.sessions[id].player, g.lobby, Passing;
    var s1 := Done(s, p, deed, now);
    var reply := PlayReply(s, p, deed).value;
    hide Inv, Done, PlayReply, Playing, Receivers, Reachable, ToTable, Stale;
    PlayersTold(s, p, deed, now);
    NothingSettled(s, p);
    PassRepliesAre(g, id, now);
    PassSendings(s1, g.notifier, id, reply, kind);
    hide RepliesTo, DeedReplies, Refused;
  }

  ghost function PassSent(s1: Lobby, n: Notifier, id: nat, reply: PlayResult): seq<Sending>
    requires Inv(s1)
  {
    [Sending(id, PassRet)] + if reply.accepted then ToTable(s1, n, reply.players, PlayBroadcast) else []
  }

  lemma {:induction false} PassRepliesAre(g: Gateway, id: nat, now: int)
    requires Inv(g.lobby) && id in g.sessions && !Refused(g, g.sessions[id], Act(Passing))
    requires Inv(Done(g.lobby, g.sessions[id].player, Passing, now))
    requires PlayReply(g.lobby, g.sessions[id].player, Passing).Some?
    ensures RepliesTo(g, id, Act(Passing), now) ==
      PassSent(Done(g.lobby, g.sessions[id].player, Passing, now), g.notifier, id,
               PlayReply(g.lobby, g.sessions[id].player, Passing).value)
  {
    hide Inv, Done, PlayReply, ToTable, ToWinners, Stale;
  }

  lemma {:induction false} PassSendings(s1: Lobby, n: Notifier, id: nat, reply: PlayResult, kind: Kind)
    requires Inv(s1) && forall q :: q in reply.players ==> Playing(s1, q)
    ensures Receivers(PassSent(s1, n, id, reply), kind) ==
      if kind == PassRet then [id]
      else if reply.accepted && (kind == PlayBroadcast || kind == RoomStates) then Reachable(n, reply.players) else []
  {
    hide Inv, Playing, Receivers, Reachable, ToTable;
    var own := [Sending(id, PassRet)];
    var table := if reply.accepted then ToTable(s1, n, reply.players, PlayBroadcast) else [];
    NoReceivers(kind);
    ReceiversOfReply(id, PassRet, kind);
    TableAudience(s1, n, reply.players, PlayBroadcast, kind, true);
    ReceiversJoin(own, table, kind);
  }

  lemma {:induction false} NothingSettled(s: Lobby, p: PlayerId)
    requires Inv(s) && Playing(s, p)
    ensures PlayReply(s, p, Passing).Some? && !PlayReply(s, p, Passing).value.gameOver
  {
    NeverSettles(s, p, Passing);
    hide Inv, Accepted, After;
  }

  /** A heartbeat and a return are answered to their own session, and nobody else hears of them. */
  lemma {:induction false} OwnAudience(g: Gateway, id: nat, request: Request, now: int, kind: Kind)
    requires Inv(g.lobby) && id in g.sessions && !Refused(g, g.sessions[id], request)
    requires request.Heartbeat? || request.Reconnect?
    ensures Receivers(RepliesTo(g, id, request, now), kind) ==
      if kind == (if request.Heartbeat? then HeartbeatRet else ReconnectSync) then [id] else []
  {
    hide Inv, Refused, Receivers;
    ReceiversOfReply(id, if request.Heartbeat? then HeartbeatRet else ReconnectSync, kind);
  }

  // ---------- Exactly once ----------

  lemma {:induction false} ReachedAt(n: Notifier, players: seq<PlayerId>, id: nat)
    ensures id in Reachable(n, players) ==>
      exists i :: 0 <= i < |players| && players[i] in n.senders && n.senders[players[i]].session == id
  {
    if players != [] {
      ReachedAt(n, players[..|players| - 1], id);
    }
  }

  /**
    A player that attends a session is reached there exactly once, if no other
    player of the room was left behind on it.
   */
  lemma {:induction false} ReachedOnce(g: Gateway, players: seq<PlayerId>, p: PlayerId, id: nat)
    requires GatewayInv(g) && NoRepeats(players) && p in players && Attends(g, id, p)
    requires forall q :: q in players && q in g.notifier.senders ==> !Unattended(g, q)
    ensures multiset(Reachable(g.notifier, players))[id] == 1
  {
    var k := |players| - 1;
    var last, front := players[k], players[..k];
    assert players == front + [last];
    Routed(g, p);
    Routed(g, last);
    hide GatewayInv;
    assert forall i :: 0 <= i < k ==> front[i] != last;
    if last == p {
      ReachedAt(g.notifier, front, id);
      if id in Reachable(g.notifier, front) {
        var i :| 0 <= i < |front| && front[i] in g.notifier.senders && g.notifier.senders[front[i]].session == id;
        Routed(g, front[i]);
      }
    } else {
      ReachedOnce(g, front, p, id);
    }
  }
}
