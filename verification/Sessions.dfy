/**
  The classes `PlayerNotifier`, `TcpSession` and `TcpServer`, each handler proved
  to be a step of the gateway. A WebSocket session logs in, closes and counts its
  messages in the same way. Senders are known by the session that they write to.
 */
module Sessions {
  import opened Wrappers
  import opened Deck
  import opened Lobbies
  import opened LobbySteps
  import opened LobbyRuns
  import opened RoundSteps
  import opened Settlements
  import opened ManagerBills
  import opened Postings
  import opened ManagerReplies
  import opened RoomManagers
  import opened Presence
  import opened Replies
  import Rate = RateWindow

  class PlayerNotifier {
    var senders: map<PlayerId, Sender>
    var nextToken: nat

    function State(): Notifier
      reads this
    {
      Notifier(senders, nextToken)
    }

    constructor ()
      ensures State() == NEW_NOTIFIER
    {
      senders, nextToken := map[], 1;
    }

    method Register(p: PlayerId, session: nat) returns (token: nat)
      modifies this
      ensures State() == Registered(old(State()), p, session)
      ensures token == old(nextToken) && nextToken == old(nextToken) + 1
      ensures senders == old(senders)[p := Sender(token, session)]
    {
      token := nextToken;
      nextToken := nextToken + 1;
      senders := senders[p := Sender(token, session)];
    }

    method Unregister(p: PlayerId, token: nat)
      modifies this
      ensures State() == Unregistered(old(State()), p, token)
      ensures nextToken == old(nextToken)
      ensures senders ==
        if p in old(senders) && old(senders)[p].token == token then old(senders) - {p} else old(senders)
    {
      if p in senders && senders[p].token == token {
        senders := senders - {p};
      }
    }

    /** The session that a message to the player is written to. */
    method SessionOf(p: PlayerId) returns (session: Option<nat>)
      ensures session == if p in senders then Some(senders[p].session) else None
    {
      if p !in senders {
        return None;
      }
      return Some(senders[p].session);
    }
  }

  /** A parsed message; malformed ones cannot be parsed or have an unknown number. */
  datatype Message = Malformed | Login(player: PlayerId) | Ask(request: Request)

  class TcpSession {
    const id: nat
    const manager: RoomManager
    const notifier: PlayerNotifier
    var playerId: PlayerId
    var token: Option<nat>
    var closed: bool
    var window: Rate.Window

    function View(): Session
      reads this
    {
      Session(playerId, token, closed)
    }

    /** The whole gateway, when the other sessions are as given. */
    ghost function Seen(others: map<nat, Session>): Gateway
      reads this, manager, notifier
    {
      Gateway(manager.State(), notifier.State(), others[id := View()])
    }

    constructor (id: nat, manager: RoomManager, notifier: PlayerNotifier, now: int)
      ensures this.id == id && this.manager == manager && this.notifier == notifier
      ensures View() == NEW_SESSION && window == Rate.NewWindow(now)
    {
      this.id, this.manager, this.notifier := id, manager, notifier;
      playerId, token, closed, window := "", None, false, Rate.NewWindow(now);
    }

    method Close(now: int, ghost others: map<nat, Session>)
      requires manager.Ok()
      modifies this`closed, manager, notifier
      ensures manager.Ok()
      ensures Seen(others) == NextGateway(old(Seen(others)), Step.Close(id, now)) && closed
    {
      hide NextGateway, Inv, WentOffline, Unregistered, IsCurrent;
      CloseStep(Seen(others), id, now);
      if closed {
        return;
      }
      closed := true;
      if playerId != "" && token.Some? && IsCurrent(notifier.State(), playerId, token.value) {
        manager.MarkOffline(playerId, now);
        notifier.Unregister(playerId, token.value);
      }
    }

    /** The backend has replied to a login that this session asked for. */
    method LoginReplied(success: bool, p: PlayerId, ghost others: map<nat, Session>)
      requires manager.Ok()
      modifies this`playerId, this`token, manager, notifier
      ensures manager.Ok()
      ensures Seen(others) == NextGateway(old(Seen(others)), Step.LoginReply(id, success, p))
    {
      hide NextGateway, Inv, WentOnline, Registered, IsCurrent;
      LoginStep(Seen(others), id, success, p);
      if success {
        playerId := p;
        manager.MarkOnline(playerId);
        var registered := notifier.Register(playerId, id);
        token := Some(registered);
      }
    }

    /** What the handler of a message comes to; the reply to a login is a later step. */
    function StepOf(passes: bool, message: Message, now: int): Option<Step> {
      if !passes || message.Malformed? then Some(Step.Close(id, now))
      else if message.Login? then None
      else Some(Handle(id, message.request, now))
    }

    /** The messages are counted before anything else; the settlements are what is posted to the backend. */
    method HandlePacket(message: Message, arrived: int, now: int, ghost others: map<nat, Session>)
      returns (replies: seq<Sending>, settlements: seq<Entry>)
      requires manager.Ok()
      modifies this`closed, this`window, manager, notifier
      ensures manager.Ok()
      ensures window == Rate.Arrival(old(window), arrived)
      ensures var g, step := old(Seen(others)), StepOf(Rate.Passes(old(window), arrived), message, now);
        && Seen(others) == (if step.None? then g else NextGateway(g, step.value))
        && settlements == (if step.None? then [] else Owed(g, step.value))
        && (step.Some? && step.value.Handle? && !Refused(g, g.sessions[id], message.request) ==>
              replies == RepliesTo(g, id, message.request, now))
      ensures window.count > 30 || message.Malformed? ==> closed && replies == [] && settlements == []
      ensures window.count <= 30 && message.Login? ==>
        Seen(others) == old(Seen(others)) && replies == [] && settlements == []
      ensures window.count <= 30 && message.Ask? ==>
        Seen(others) == NextGateway(old(Seen(others)), Handle(id, message.request, now))
    {
      hide NextGateway, Inv, IsCurrent, Stale, Refused, RepliesTo;
      replies, settlements := [], [];
      window := Rate.Arrival(window, arrived);
      if window.count > Rate.LIMIT {
        Close(now, others);
        return;
      }
      if message.Login? {
        return;
      }
      if message.Malformed? {
        Close(now, others);
        return;
      }
      replies, settlements := Serve(message.request, now, others);
    }

    /** The stale check comes before any request is looked at. */
    method Serve(request: Request, now: int, ghost others: map<nat, Session>)
      returns (replies: seq<Sending>, settlements: seq<Entry>)
      requires manager.Ok()
      modifies this`closed, manager, notifier
      ensures manager.Ok()
      ensures var g := old(Seen(others));
        && Seen(others) == NextGateway(g, Handle(id, request, now))
        && settlements == Owed(g, Handle(id, request, now))
        && (!Refused(g, g.sessions[id], request) ==> replies == RepliesTo(g, id, request, now))
    {
      hide NextGateway, Inv, Matched, Done, Playing, IsCurrent, PlayReply, MatchReplies, DeedReplies;
      HandleStep(Seen(others), id, request, now);
      OwedOnRequest(Seen(others), id, request, now);
      hide Owed;
      replies, settlements := [], [];
      if playerId != "" && token.Some? && !IsCurrent(notifier.State(), playerId, token.value) {
        Close(now, others);
        return;
      }
      match request {
        case Heartbeat =>
          replies := [Sending(id, HeartbeatRet)];
        case Reconnect =>
          var info := manager.Reconnect(playerId);
          if info.None? {
            Close(now, others);
            return;
          }
          replies := [Sending(id, ReconnectSync)];
        case QuickMatch(draws) =>
          replies := EnterRoom(draws, now);
        case Act(deed) =>
          var known;
          known, replies, settlements := Perform(deed, now);
          if !known {
            Close(now, others);
          }
      }
    }

    /** Without a login the match is refused, but the session stays open. */
    method EnterRoom(draws: Draws, now: int) returns (replies: seq<Sending>)
      requires manager.Ok()
      modifies manager
      ensures manager.Ok()
      ensures var s := old(manager.State());
        && manager.State() == (if playerId == "" then s else Matched(s, playerId, now, draws))
        && replies == MatchReplies(s, notifier.State(), id, playerId, now, draws)
    {
      replies := [Sending(id, MatchRet)];
      if playerId == "" {
        return;
      }
      hide Inv, Matched, MatchReply, ToTable;
      var result := manager.Match(playerId, now, draws);
      if result.gameStart.Some? {
        var more := TellTable(result.gameStart.value.players, DealCards, now);
        replies := replies + more;
      }
    }

    /** Whether the player has a round, what is sent, and what is settled by the deed. */
    method Perform(deed: Deed, now: int) returns (known: bool, replies: seq<Sending>, owed: seq<Entry>)
      requires manager.Ok()
      modifies manager
      ensures manager.Ok()
      ensures var s := old(manager.State());
        && known == Playing(s, playerId)
        && (!known ==> manager.State() == s && owed == [])
        && manager.State() == Done(s, playerId, deed, now)
        && (known ==> replies == DeedReplies(s, notifier.State(), id, playerId, deed, now))
        && var reply := PlayReply(s, playerId, deed);
           owed == if reply.Some? then reply.value.settlements else []
    {
      NothingOwed(manager.State(), playerId, deed);
      hide Inv, Done, Playing, PlayReply, CallReply, ToTable, ToWinners;
      replies, owed := [], [];
      match deed {
        case Bidding(call, draws) =>
          var called := manager.CallLandlord(playerId, call, now, draws);
          known := called.Some?;
          if known {
            if called.value.accepted {
              replies := TellTable(called.value.players, CallRet, now);
            } else {
              replies := [Sending(id, CallRet)];
            }
          }
        case Laying(cards) =>
          var played := manager.Play(playerId, cards, now);
          known := played.Some?;
          if known {
            replies, owed := AfterPlay(played.value, now);
          }
        case Passing =>
          var passed := manager.Pass(playerId, now);
          known := passed.Some?;
          if known {
            var more := TellAccepted(passed.value, now);
            replies := [Sending(id, PassRet)] + more;
          }
      }
    }

    method AfterPlay(played: PlayResult, now: int) returns (replies: seq<Sending>, owed: seq<Entry>)
      requires manager.Ok()
      ensures owed == if played.gameOver then played.settlements else []
      ensures replies == [Sending(id, PlayRet)]
        + (if played.accepted then ToTable(manager.State(), notifier.State(), played.players, PlayBroadcast) else [])
        + (if played.gameOver then ToWinners(notifier.State(), played.settlements) else [])
    {
      hide Inv, ToTable, ToWinners;
      var more := TellAccepted(played, now);
      replies, owed := [Sending(id, PlayRet)] + more, [];
      if played.gameOver {
        owed := played.settlements;
        var last := TellWinners(owed);
        replies := replies + last;
      }
    }

    method TellAccepted(result: PlayResult, now: int) returns (replies: seq<Sending>)
      requires manager.Ok()
      ensures replies ==
        if result.accepted then ToTable(manager.State(), notifier.State(), result.players, PlayBroadcast) else []
    {
      replies := [];
      if result.accepted {
        replies := TellTable(result.players, PlayBroadcast, now);
      }
    }

    /** `send` of the notifier. */
    method Tell(p: PlayerId, kind: Kind) returns (sendings: seq<Sending>)
      ensures sendings == ToPlayer(notifier.State(), p, kind)
    {
      var session := notifier.SessionOf(p);
      return if session.Some? then [Sending(session.value, kind)] else [];
    }

    method TellTable(players: seq<PlayerId>, kind: Kind, now: int) returns (sendings: seq<Sending>)
      requires manager.Ok()
      ensures sendings == ToTable(manager.State(), notifier.State(), players, kind)
    {
      hide Inv, Playing, ToPlayer;
      sendings := [];
      for i := 0 to |players|
        invariant sendings == ToTable(manager.State(), notifier.State(), players[..i], kind)
      {
        assert players[..i + 1][..i] == players[..i];
        var first := Tell(players[i], kind);
        var state := manager.RoomStateOf(players[i], now);
        var second := [];
        if state.Some? {
          second := Tell(players[i], RoomStates);
        }
        sendings := sendings + first + second;
      }
      assert players[..|players|] == players;
    }

    method TellWinners(settlements: seq<Entry>) returns (sendings: seq<Sending>)
      ensures sendings == ToWinners(notifier.State(), settlements)
    {
      hide ToPlayer;
      sendings := [];
      for i := 0 to |settlements|
        invariant sendings == ToWinners(notifier.State(), settlements[..i])
      {
        assert settlements[..i + 1][..i] == settlements[..i];
        var more := Tell(settlements[i].player, SettleResult);
        sendings := sendings + more;
      }
      assert settlements[..|settlements|] == settlements;
    }

    /** Only a play that ends its round settles anything. */
    static lemma {:induction false} NothingOwed(s: Lobby, p: PlayerId, deed: Deed)
      requires Inv(s)
      ensures PlayReply(s, p, deed).Some? <==> Playing(s, p)
      ensures Playing(s, p) && !PlayReply(s, p, deed).value.gameOver ==> PlayReply(s, p, deed).value.settlements == []
      ensures Playing(s, p) && !deed.Laying? ==> PlayReply(s, p, deed).value.settlements == []
      ensures !Playing(s, p) ==> forall now :: Done(s, p, deed, now) == s
    {
      if Playing(s, p) && !deed.Laying? {
        NeverSettles(s, p, deed);
      }
      hide Inv, Accepted, After;
    }
  }

  class TcpServer {
    const manager: RoomManager
    const notifier: PlayerNotifier

    constructor (manager: RoomManager, notifier: PlayerNotifier)
      ensures this.manager == manager && this.notifier == notifier
    {
      this.manager, this.notifier := manager, notifier;
    }

    /**
      The timer of the server: timeouts first, then idle rooms, then long absent
      players. The settlements are posted in that order.
     */
    method Cleanup(now: int, random: nat -> Draws, ghost sessions: map<nat, Session>)
      returns (settlements: seq<Entry>, ghost trace: seq<Record>)
      requires manager.Ok()
      modifies manager
      ensures manager.Ok()
      ensures var g := Gateway(old(manager.State()), notifier.State(), sessions);
        && Gateway(manager.State(), notifier.State(), sessions) == NextGateway(g, Sweep(now, random))
        && TraceOf(g, Sweep(now, random), trace) && settlements == Posted(trace)
    {
      ghost var g := Gateway(manager.State(), notifier.State(), sessions);
      hide NextGateway, Inv, NextLobby, Ticked, Dropped, IdleRooms, DesertedRooms, Pays, TraceOf, Posted,
        RoomManager.ListsTimeouts, RoomManager.ListsDesertions;
      ghost var s1, s2 := SweepStep(g, now, random);
      var actions, ids := manager.TimeoutExpired(now, random);
      TickPays(g.lobby, now, random, ids, actions);
      ListedAreBilled(ids, actions);
      manager.CleanupIdle(now);
      var bills, rooms := manager.CleanupExpired(now);
      ExpiryPays(s2, now, rooms, bills);
      JoinedAreBilled(rooms, bills);
      trace := SweepTrace(g, s1, s2, now, random, TickBills(ids, actions), DesertionBills(rooms, bills));
      var timeouts := ListSettlements(actions);
      var desertions := JoinSettlements(bills);
      settlements := timeouts + desertions;
    }

    method ListSettlements(actions: seq<TimeoutAction>) returns (settlements: seq<Entry>)
      ensures settlements == Listed(actions)
    {
      settlements := [];
      for i := 0 to |actions|
        invariant settlements == Listed(actions[..i])
      {
        assert actions[..i + 1][..i] == actions[..i];
        settlements := settlements + actions[i].settlements;
      }
      assert actions[..|actions|] == actions;
    }

    method JoinSettlements(bills: seq<seq<Entry>>) returns (settlements: seq<Entry>)
      ensures settlements == Joined(bills)
    {
      settlements := [];
      for i := 0 to |bills|
        invariant settlements == Joined(bills[..i])
      {
        assert bills[..i + 1][..i] == bills[..i];
        settlements := settlements + bills[i];
      }
      assert bills[..|bills|] == bills;
    }
  }
}
