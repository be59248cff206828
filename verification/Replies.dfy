/** The messages that the handler of a request sends, and to which sessions. */
module Replies {
  import opened Deck
  import opened Lobbies
  import opened LobbySteps
  import opened Settlements
  import opened ManagerReplies
  import opened Presence
  import opened Framing
  import opened Wires

  datatype Kind =
    | HeartbeatRet | MatchRet | DealCards | RoomStates | CallRet | PlayRet | PlayBroadcast | PassRet
    | SettleResult | ReconnectSync

  /** A message handed to the writer of a session. */
  datatype Sending = Sending(session: nat, kind: Kind)

  /** A message for a player goes to the session of its sender, or nowhere. */
  function ToPlayer(n: Notifier, p: PlayerId, kind: Kind): seq<Sending> {
    if p in n.senders then [Sending(n.senders[p].session, kind)] else []
  }

  /** A message for each player, followed by its snapshot if it still has a round. */
  ghost function ToTable(s: Lobby, n: Notifier, players: seq<PlayerId>, kind: Kind): seq<Sending>
    requires Inv(s)
  {
    if players == [] then []
    else
      var last := players[|players| - 1];
      ToTable(s, n, players[..|players| - 1], kind)
      + ToPlayer(n, last, kind) + if Playing(s, last) then ToPlayer(n, last, RoomStates) else []
  }

  function ToWinners(n: Notifier, settlements: seq<Entry>): seq<Sending> {
    if settlements == [] then []
    else
      var k := |settlements| - 1;
      ToWinners(n, settlements[..k]) + ToPlayer(n, settlements[k].player, SettleResult)
  }

  ghost function MatchReplies(s: Lobby, n: Notifier, id: nat, p: PlayerId, now: int, draws: Draws): seq<Sending>
    requires Inv(s)
  {
    if p == "" then [Sending(id, MatchRet)] else
    MatchedInv(s, p, now, draws);
    var s1 := Matched(s, p, now, draws);
    var start := MatchReply(s, s1, p).gameStart;
    [Sending(id, MatchRet)] + if start.Some? then ToTable(s1, n, start.value.players, DealCards) else []
  }

  ghost function DeedReplies(s: Lobby, n: Notifier, id: nat, p: PlayerId, deed: Deed, now: int): seq<Sending>
    requires Inv(s) && Playing(s, p)
  {
    DoneInv(s, p, deed, now);
    var s1 := Done(s, p, deed, now);
    match deed
    case Bidding(call, draws) =>
      var reply := CallReply(s, p, call, draws).value;
      if reply.accepted then ToTable(s1, n, reply.players, CallRet) else [Sending(id, CallRet)]
    case Laying(_) =>
      var reply := PlayReply(s, p, deed).value;
      [Sending(id, PlayRet)]
      + (if reply.accepted then ToTable(s1, n, reply.players, PlayBroadcast) else [])
      + (if reply.gameOver then ToWinners(n, reply.settlements) else [])
    case Passing =>
      var reply := PlayReply(s, p, deed).value;
      [Sending(id, PassRet)] + if reply.accepted then ToTable(s1, n, reply.players, PlayBroadcast) else []
  }

  /** What the handler of a request sends, unless it closes its session. */
  ghost function RepliesTo(g: Gateway, id: nat, request: Request, now: int): seq<Sending>
    requires Inv(g.lobby) && id in g.sessions && !Refused(g, g.sessions[id], request)
  {
    var p := g.sessions[id].player;
    match request
    case Heartbeat => [Sending(id, HeartbeatRet)]
    case Reconnect => [Sending(id, ReconnectSync)]
    case QuickMatch(draws) => MatchReplies(g.lobby, g.notifier, id, p, now, draws)
    case Act(deed) => DeedReplies(g.lobby, g.notifier, id, p, deed, now)
  }

  ghost predicate Reaches(sendings: seq<Sending>, id: nat) {
    exists i :: 0 <= i < |sendings| && sendings[i].session == id
  }

  lemma {:induction false} TableReaches(s: Lobby, n: Notifier, players: seq<PlayerId>, kind: Kind, p: PlayerId)
    requires Inv(s) && p in players && p in n.senders
    ensures Reaches(ToTable(s, n, players, kind), n.senders[p].session)
  {
    var k := |players| - 1;
    var front, all := ToTable(s, n, players[..k], kind), ToTable(s, n, players, kind);
    if players[k] == p {
      assert all[|front|].session == n.senders[p].session;
    } else {
      assert players == players[..k] + [players[k]];
      TableReaches(s, n, players[..k], kind, p);
      var i :| 0 <= i < |front| && front[i].session == n.senders[p].session;
      assert all[i] == front[i];
    }
  }

  /**
    A handler that does not close its session sends something to it, also where it
    answers only through the notifier: the session then holds the sender of its player.
   */
  lemma {:induction false} HandlerAnswers(g: Gateway, id: nat, request: Request, now: int)
    requires GatewayInv(g) && id in g.sessions && !Refused(g, g.sessions[id], request)
    ensures Reaches(RepliesTo(g, id, request, now), id)
  {
    var x := g.sessions[id];
    assert TokenOk(g.notifier, id, x);
    var replies := RepliesTo(g, id, request, now);
    if request.Act? && request.deed.Bidding? {
      var deed := request.deed;
      var reply := CallReply(g.lobby, x.player, deed.call, deed.draws).value;
      DoneInv(g.lobby, x.player, deed, now);
      if reply.accepted {
        TableReaches(Done(g.lobby, x.player, deed, now), g.notifier, reply.players, CallRet, x.player);
      } else {
        assert replies[0].session == id;
      }
    } else {
      assert replies[0].session == id;
    }
  }

  /** How many messages the handler hands to the writer of the session. */
  function CountFor(sendings: seq<Sending>, id: nat): nat {
    if sendings == [] then 0 else (if sendings[0].session == id then 1 else 0) + CountFor(sendings[1..], id)
  }

  lemma {:induction false} ReachedIsCounted(sendings: seq<Sending>, id: nat)
    requires Reaches(sendings, id)
    ensures CountFor(sendings, id) > 0
  {
    if sendings[0].session != id {
      var i :| 0 <= i < |sendings| && sendings[i].session == id;
      assert sendings[1..][i - 1] == sendings[i];
      ReachedIsCounted(sendings[1..], id);
    }
  }

  /**
    How the handler of a request ends for the connection of its own session, when
    the bodies of its messages are as given.
   */
  ghost predicate EndsAs(g: Gateway, id: nat, request: Request, now: int, outcome: Outcome)
    requires Inv(g.lobby) && id in g.sessions
  {
    if Refused(g, g.sessions[id], request) then outcome == Closing
    else outcome.Replies? && |outcome.messages| == CountFor(RepliesTo(g, id, request, now), id)
  }

  /**
    Whatever the handler of a request does, the connection can take it as a step,
    and goes on: it never waits for nothing.
   */
  lemma {:induction false} HandlerNeverStalls(
    g: Gateway, id: nat, request: Request, now: int, w: Wire, bytes: seq<Byte>, outcome: Outcome)
    requires GatewayInv(g) && id in g.sessions && EndsAs(g, id, request, now, outcome)
    requires WireInv(w) && w.pendingReads > 0
    ensures w.reading == ReadingHeader && |bytes| == HEADER ==>
      && CanStep(w, HeaderArrives(bytes, outcome)) && NeverStalls(NextWire(w, HeaderArrives(bytes, outcome)))
    ensures w.reading.ReadingBody? && |bytes| == w.reading.header.size - HEADER ==>
      && CanStep(w, BodyArrives(bytes, outcome)) && NeverStalls(NextWire(w, BodyArrives(bytes, outcome)))
  {
    if !Refused(g, g.sessions[id], request) {
      HandlerAnswers(g, id, request, now);
      ReachedIsCounted(RepliesTo(g, id, request, now), id);
    }
    hide GatewayInv, RepliesTo, NextWire, Refused;
    if w.reading == ReadingHeader && |bytes| == HEADER {
      WireStepKeeps(w, HeaderArrives(bytes, outcome));
    }
    if w.reading.ReadingBody? && |bytes| == w.reading.header.size - HEADER {
      WireStepKeeps(w, BodyArrives(bytes, outcome));
    }
  }
}
