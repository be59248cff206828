/**
  Sessions, the notifier and the room manager together: who counts as present.
  Every handler runs to its end before the next one starts. The reply of a login
  arrives as a step of its own, possibly after its session was closed.
 */
module Presence {
  import opened Clock
  import opened Wrappers
  import opened Deck
  import opened Rounds
  import opened RoundSteps
  import opened Lobbies
  import opened LobbySteps
  import opened LobbyRuns

  /** The sender registered for a player: its token, and the session that it writes to. */
  datatype Sender = Sender(token: nat, session: nat)

  datatype Notifier = Notifier(senders: map<PlayerId, Sender>, nextToken: nat)

  /** An empty player id stands for a session that has not logged in. */
  datatype Session = Session(player: PlayerId, token: Option<nat>, closed: bool)

  const NEW_NOTIFIER := Notifier(map[], 1)
  const NEW_SESSION := Session("", None, false)

  datatype Gateway = Gateway(lobby: Lobby, notifier: Notifier, sessions: map<nat, Session>)

  const NEW_GATEWAY := Gateway(NEW_LOBBY, NEW_NOTIFIER, map[])

  // ---------- Notifier and sessions ----------

  function Registered(n: Notifier, p: PlayerId, session: nat): Notifier {
    Notifier(n.senders[p := Sender(n.nextToken, session)], n.nextToken + 1)
  }

  function Unregistered(n: Notifier, p: PlayerId, token: nat): Notifier {
    if IsCurrent(n, p, token) then n.(senders := n.senders - {p}) else n
  }

  predicate IsCurrent(n: Notifier, p: PlayerId, token: nat) {
    p in n.senders && n.senders[p].token == token
  }

  /** The session is logged in, and no later login as the same player has replaced it. */
  predicate Current(n: Notifier, x: Session) {
    x.player != "" && x.token.Some? && IsCurrent(n, x.player, x.token.value)
  }

  /** The session has logged in, but a later login has replaced it or its sender is gone. */
  predicate Stale(n: Notifier, x: Session) {
    x.player != "" && x.token.Some? && !IsCurrent(n, x.player, x.token.value)
  }

  // ---------- Handlers ----------

  /** What a client asks; the manager decides with the player of the session. */
  datatype Request = Heartbeat | Reconnect | QuickMatch(draws: Draws) | Act(deed: Deed)

  /** A close also stands for the handlers of malformed or too many messages and of lost connections. */
  datatype Step =
    | Accept(id: nat)
    | LoginReply(id: nat, success: bool, player: PlayerId)
    | Handle(id: nat, request: Request, now: int)
    | Close(id: nat, now: int)
    | Sweep(now: int, random: nat -> Draws)

  /** Whether the handler closes the session: it is stale, or it asks for a round that it does not have. */
  ghost predicate Refused(g: Gateway, x: Session, request: Request)
    requires Inv(g.lobby)
  {
    Stale(g.notifier, x) || ((request.Act? || request.Reconnect?) && !Playing(g.lobby, x.player))
  }

  ghost predicate Closes(g: Gateway, step: Step)
    requires Inv(g.lobby)
  {
    match step
    case Close(id, _) => id in g.sessions
    case Handle(id, request, _) => id in g.sessions && Refused(g, g.sessions[id], request)
    case _ => false
  }

  predicate LogsIn(g: Gateway, step: Step) {
    step.LoginReply? && step.success && step.id in g.sessions
  }

  /** The calls of the room manager that a handler makes, in its order. */
  ghost function Calls(g: Gateway, step: Step): seq<Event>
    requires Inv(g.lobby)
  {
    if LogsIn(g, step) then [Online(step.player)]
    else if Closes(g, step) then
      var x := g.sessions[step.id];
      if !x.closed && Current(g.notifier, x) then [Offline(x.player, step.now)] else []
    else match step
      case Handle(id, QuickMatch(draws), now) =>
        if id in g.sessions && g.sessions[id].player != "" then [Match(g.sessions[id].player, now, draws)] else []
      case Handle(id, Act(deed), now) =>
        if id in g.sessions then [Do(g.sessions[id].player, deed, now)] else []
      case Sweep(now, random) => [Tick(now, random), Idle(now), Expiry(now)]
      case _ => []
  }

  ghost function AfterCalls(s: Lobby, calls: seq<Event>): (s1: Lobby)
    requires Inv(s)
    ensures Inv(s1)
    decreases |calls|
  {
    if calls == [] then s
    else
      NextInv(s, calls[0]);
      AfterCalls(NextLobby(s, calls[0]), calls[1..])
  }

  ghost function NotifierAfter(g: Gateway, step: Step): Notifier
    requires Inv(g.lobby)
  {
    if LogsIn(g, step) then Registered(g.notifier, step.player, step.id)
    else if Closes(g, step) && !g.sessions[step.id].closed && Current(g.notifier, g.sessions[step.id]) then
      Unregistered(g.notifier, g.sessions[step.id].player, g.sessions[step.id].token.value)
    else g.notifier
  }

  ghost function SessionsAfter(g: Gateway, step: Step): map<nat, Session>
    requires Inv(g.lobby)
  {
    if LogsIn(g, step) then
      g.sessions[step.id := g.sessions[step.id].(player := step.player, token := Some(g.notifier.nextToken))]
    else if Closes(g, step) then g.sessions[step.id := g.sessions[step.id].(closed := true)]
    else if step.Accept? && step.id !in g.sessions then g.sessions[step.id := NEW_SESSION]
    else g.sessions
  }

  /** A step on a session that does not exist, or the acceptance of one that does, is no step. */
  ghost function NextGateway(g: Gateway, step: Step): Gateway
    requires Inv(g.lobby)
  {
    Gateway(AfterCalls(g.lobby, Calls(g, step)), NotifierAfter(g, step), SessionsAfter(g, step))
  }

  lemma {:induction false} OneCall(s: Lobby, e: Event)
    requires Inv(s)
    ensures AfterCalls(s, []) == s
    ensures Inv(NextLobby(s, e)) && AfterCalls(s, [e]) == NextLobby(s, e)
  {
    NextInv(s, e);
    hide Inv, NextLobby;
    assert [e][1..] == [];
  }

  /** What a close does: it marks the player absent if the session was open and current. */
  lemma {:induction false} CloseStep(g: Gateway, id: nat, now: int)
    requires Inv(g.lobby) && id in g.sessions
    ensures var x := g.sessions[id];
      NextGateway(g, Close(id, now)) ==
        if !x.closed && Current(g.notifier, x) then
          Gateway(WentOffline(g.lobby, x.player, now), Unregistered(g.notifier, x.player, x.token.value),
                  g.sessions[id := x.(closed := true)])
        else g.(sessions := g.sessions[id := x.(closed := true)])
  {
    hide Inv, AfterCalls, Current;
    OneCall(g.lobby, Offline(g.sessions[id].player, now));
    assert Closes(g, Close(id, now)) && !LogsIn(g, Close(id, now));
    CurrentHasToken(g.notifier, g.sessions[id]);
  }

  lemma {:induction false} CurrentHasToken(n: Notifier, x: Session)
    ensures Current(n, x) ==> x.token.Some? && x.player != ""
  {
  }

  lemma {:induction false} LoginStep(g: Gateway, id: nat, success: bool, p: PlayerId)
    requires Inv(g.lobby) && id in g.sessions
    ensures NextGateway(g, LoginReply(id, success, p)) ==
      if success then
        Gateway(WentOnline(g.lobby, p), Registered(g.notifier, p, id),
                g.sessions[id := Session(p, Some(g.notifier.nextToken), g.sessions[id].closed)])
      else g
  {
    OneCall(g.lobby, Online(p));
    hide Inv, AfterCalls;
  }

  /** A refused request closes the session; any other one is passed on to the manager. */
  lemma {:induction false} HandleStep(g: Gateway, id: nat, request: Request, now: int)
    requires Inv(g.lobby) && id in g.sessions
    ensures var x, g1 := g.sessions[id], NextGateway(g, Handle(id, request, now));
      if Refused(g, x, request) then g1 == NextGateway(g, Close(id, now))
      else match request
        case QuickMatch(draws) =>
          g1 == if x.player == "" then g else g.(lobby := Matched(g.lobby, x.player, now, draws))
        case Act(deed) => g1 == g.(lobby := Done(g.lobby, x.player, deed, now))
        case _ => g1 == g
  {
    var p := g.sessions[id].player;
    OneCall(g.lobby, if request.QuickMatch? then Match(p, now, request.draws) else
                     if request.Act? then Do(p, request.deed, now) else Online(p));
    hide Inv, AfterCalls, Playing, Current, Stale, Matched, Done;
  }

  /** The sender of the player with this token goes if it is still there; all others stay. */
  ghost predicate OnlySenderGoes(n: Notifier, n1: Notifier, p: PlayerId) {
    && n1.nextToken == n.nextToken && p !in n1.senders
    && forall q :: q != p ==>
         (q in n1.senders <==> q in n.senders) && (q in n.senders ==> n1.senders[q] == n.senders[q])
  }

  /**
    A request closes its session exactly when a later login has replaced it, or
    when it asks for a round that its player does not have.
   */
  lemma {:induction false} RequestClosesIff(g: Gateway, id: nat, request: Request, now: int)
    requires Inv(g.lobby) && id in g.sessions
    ensures var x := g.sessions[id];
      var replaced := x.player != "" && x.token.Some?
        && !(x.player in g.notifier.senders && g.notifier.senders[x.player].token == x.token.value);
      var seated := x.player in g.lobby.placed && g.lobby.placed[x.player] in g.lobby.rooms
        && g.lobby.rooms[g.lobby.placed[x.player]].round.Some?;
      var g1 := NextGateway(g, Handle(id, request, now));
      && g1.sessions.Keys == g.sessions.Keys
      && (g1.sessions[id].closed <==> x.closed || replaced || ((request.Act? || request.Reconnect?) && !seated))
  {
    HandleStep(g, id, request, now);
    CloseStep(g, id, now);
    assert g.sessions[id].player in g.lobby.placed ==> g.lobby.placed[g.sessions[id].player] in g.lobby.rooms;
    hide Inv, NextGateway, Current, Matched, Done;
  }

  /**
    Closing an open session that holds the sender of its player removes that sender
    and, if the player is in a room without a record of absence, records the time.
   */
  lemma {:induction false} CloseIs(g: Gateway, id: nat, now: int)
    requires Inv(g.lobby) && id in g.sessions
    ensures var x, g1 := g.sessions[id], NextGateway(g, Close(id, now)); var p := x.player;
      && g1.sessions == g.sessions[id := Session(p, x.token, true)]
      && if && !x.closed && p != "" && x.token.Some?
            && p in g.notifier.senders && g.notifier.senders[p].token == x.token.value
         then
           && OnlySenderGoes(g.notifier, g1.notifier, p)
           && g1.lobby == g.lobby.(offline :=
                if p in g.lobby.placed && p !in g.lobby.offline then g.lobby.offline[p := now] else g.lobby.offline)
         else g1.notifier == g.notifier && g1.lobby == g.lobby
  {
    CloseStep(g, id, now);
    hide Inv, NextGateway;
  }

  /** A login gives the player a sender with a new token, on this session, and ends its record of absence. */
  lemma {:induction false} LoginIs(g: Gateway, id: nat, p: PlayerId)
    requires Inv(g.lobby) && id in g.sessions
    ensures var g1 := NextGateway(g, LoginReply(id, true, p));
      && g1.sessions == g.sessions[id := Session(p, Some(g.notifier.nextToken), g.sessions[id].closed)]
      && g1.notifier.nextToken == g.notifier.nextToken + 1
      && g1.notifier.senders == g.notifier.senders[p := Sender(g.notifier.nextToken, id)]
      && g1.lobby == g.lobby.(offline := g.lobby.offline - {p})
  {
    LoginStep(g, id, true, p);
    hide Inv, NextGateway;
  }

  lemma {:induction false} SweepStep(g: Gateway, now: int, random: nat -> Draws) returns (s1: Lobby, s2: Lobby)
    requires Inv(g.lobby)
    ensures Inv(s1) && s1 == NextLobby(g.lobby, Tick(now, random))
    ensures Inv(s2) && s2 == NextLobby(s1, Idle(now))
    ensures NextGateway(g, Sweep(now, random)) == g.(lobby := NextLobby(s2, Expiry(now)))
    ensures s1 == Ticked(g.lobby, now, random) && s2 == Dropped(s1, IdleRooms(s1, now))
    ensures NextLobby(s2, Expiry(now)) == Dropped(s2, DesertedRooms(s2, now))
  {
    hide Inv, Ticked, Dropped, IdleRooms, DesertedRooms;
    var calls := [Tick(now, random), Idle(now), Expiry(now)];
    NextInv(g.lobby, calls[0]);
    s1 := NextLobby(g.lobby, calls[0]);
    NextInv(s1, calls[1]);
    s2 := NextLobby(s1, calls[1]);
    OneCall(s2, calls[2]);
    assert calls[1..][1..] == [calls[2]];
    assert AfterCalls(s1, calls[1..]) == AfterCalls(s2, calls[1..][1..]);
    assert AfterCalls(g.lobby, calls) == AfterCalls(s1, calls[1..]);
    assert Calls(g, Sweep(now, random)) == calls;
  }

  // ---------- Presence agrees ----------

  /** A player in a room is recorded as absent exactly when the notifier holds no sender for it. */
  ghost predicate Agrees(s: Lobby, n: Notifier) {
    forall p :: p in s.placed ==> (p in s.offline <==> p !in n.senders)
  }

  /** A session's token was handed out; the sender with that token writes to the session. */
  ghost predicate TokenOk(n: Notifier, id: nat, x: Session) {
    && (x.player != "" ==> x.token.Some?)
    && (x.token.Some? ==> x.token.value < n.nextToken)
    && (Current(n, x) ==> n.senders[x.player].session == id)
  }

  ghost predicate TokensOk(n: Notifier, sessions: map<nat, Session>) {
    forall id :: id in sessions ==> TokenOk(n, id, sessions[id])
  }

  ghost predicate GatewayInv(g: Gateway) {
    Inv(g.lobby) && Agrees(g.lobby, g.notifier) && TokensOk(g.notifier, g.sessions) && "" !in g.lobby.placed
  }

  /** Calls other than match and the presence marks place nobody and keep the record of everybody who stays. */
  ghost predicate OnlyRemoves(s: Lobby, s1: Lobby) {
    && (forall p :: p in s1.placed ==> p in s.placed && (p in s1.offline <==> p in s.offline))
    && (forall p :: p in s1.offline && p in s.offline ==> s1.offline[p] == s.offline[p])
  }

  lemma {:induction false} TickOnlyRemoves(s: Lobby, now: int, random: nat -> Draws)
    requires Inv(s)
    ensures OnlyRemoves(s, Ticked(s, now, random))
  {
    hide Inv, RoomOk, Valid, Ending;
    RoundsAreValid(s);
  }

  lemma {:induction false} DropOnlyRemoves(s: Lobby, gone: set<nat>)
    ensures OnlyRemoves(s, Dropped(s, gone))
  {
  }

  lemma {:induction false} DoneOnlyRemoves(s: Lobby, p: PlayerId, deed: Deed, now: int)
    requires Inv(s)
    ensures OnlyRemoves(s, Done(s, p, deed, now))
  {
    hide RoomOk, Valid, Accepted, After, Moved;
  }

  /** How each call changes the record of absence. */
  lemma {:induction false} CallKeepsAgreement(s: Lobby, e: Event, n: Notifier)
    requires Inv(s) && Agrees(s, n)
    requires !e.Online? && !e.Offline?
    requires e.Match? ==> e.p in n.senders
    ensures Agrees(NextLobby(s, e), n)
  {
    match e
    case Match(p, now, draws) => hide RoomOk, Valid, Moved;
    case Do(p, deed, now) => DoneOnlyRemoves(s, p, deed, now); hide Inv, Done;
    case Tick(now, random) => TickOnlyRemoves(s, now, random); hide Inv, Ticked;
    case Idle(now) => DropOnlyRemoves(s, IdleRooms(s, now)); hide Inv, Dropped;
    case Expiry(now) => DropOnlyRemoves(s, DesertedRooms(s, now)); hide Inv, Dropped;
    case _ =>
  }

  lemma {:induction false} SweepAgrees(s: Lobby, now: int, random: nat -> Draws, n: Notifier)
    requires Inv(s) && Agrees(s, n)
    ensures Agrees(AfterCalls(s, [Tick(now, random), Idle(now), Expiry(now)]), n)
  {
    hide Inv, NextLobby, Agrees;
    var calls := [Tick(now, random), Idle(now), Expiry(now)];
    NextInv(s, calls[0]);
    CallKeepsAgreement(s, calls[0], n);
    var s1 := NextLobby(s, calls[0]);
    NextInv(s1, calls[1]);
    CallKeepsAgreement(s1, calls[1], n);
    var s2 := NextLobby(s1, calls[1]);
    CallKeepsAgreement(s2, calls[2], n);
    OneCall(s2, calls[2]);
    assert calls[1..][1..] == [calls[2]];
  }

  /** The record of absence follows the senders. */
  lemma {:induction false} StepAgrees(g: Gateway, step: Step)
    requires GatewayInv(g)
    ensures Agrees(NextGateway(g, step).lobby, NotifierAfter(g, step))
  {
    hide Inv, Playing, AfterCalls;
    var calls := Calls(g, step);
    if step.Sweep? {
      SweepAgrees(g.lobby, step.now, step.random, g.notifier);
    } else if calls == [] {
      OneCall(g.lobby, Online(""));
    } else {
      OneCall(g.lobby, calls[0]);
      assert calls == [calls[0]];
      if !LogsIn(g, step) && !Closes(g, step) {
        assert TokenOk(g.notifier, step.id, g.sessions[step.id]);
        CallKeepsAgreement(g.lobby, calls[0], g.notifier);
        hide NextLobby;
      }
    }
  }

  lemma {:induction false} StepTokens(g: Gateway, step: Step)
    requires GatewayInv(g)
    ensures TokensOk(NotifierAfter(g, step), SessionsAfter(g, step))
  {
    hide Inv, Agrees, Playing;
    forall id | id in SessionsAfter(g, step)
      ensures TokenOk(NotifierAfter(g, step), id, SessionsAfter(g, step)[id])
    {
      if id in g.sessions {
        assert TokenOk(g.notifier, id, g.sessions[id]);
      }
    }
  }

  /** Only a session that has logged in takes a seat. */
  lemma {:induction false} NobodyIsSeated(g: Gateway, step: Step)
    requires Inv(g.lobby) && "" !in g.lobby.placed
    ensures "" !in NextGateway(g, step).lobby.placed
  {
    hide AfterCalls, Closes, Matched, Done;
    if step.Sweep? {
      SweepKeepsTimes(g, step.now, step.random, "");
    } else if LogsIn(g, step) {
      LoginStep(g, step.id, true, step.player);
    } else if step.Handle? && step.id in g.sessions {
      HandleSeats(g, step.id, step.request, step.now);
    } else if step.Close? && step.id in g.sessions {
      CloseStep(g, step.id, step.now);
    } else {
      OneCall(g.lobby, Online(""));
      QuietStep(g, step);
    }
  }

  lemma {:induction false} QuietStep(g: Gateway, step: Step)
    requires Inv(g.lobby) && !LogsIn(g, step) && !step.Sweep?
    requires step.Handle? || step.Close? ==> step.id !in g.sessions
    ensures NextGateway(g, step).notifier == g.notifier
    ensures NextGateway(g, step).lobby == g.lobby
  {
    hide Inv, AfterCalls, SessionsAfter, Refused, Current;
    OneCall(g.lobby, Online(""));
    assert Calls(g, step) == [];
  }

  lemma {:induction false} HandleSeats(g: Gateway, id: nat, request: Request, now: int)
    requires Inv(g.lobby) && "" !in g.lobby.placed && id in g.sessions
    ensures "" !in NextGateway(g, Handle(id, request, now)).lobby.placed
  {
    var p := g.sessions[id].player;
    HandleStep(g, id, request, now);
    CloseStep(g, id, now);
    hide NextGateway, Refused;
    match request
    case QuickMatch(draws) =>
      if p != "" {
        CallKeepsTimes(g.lobby, Match(p, now, draws), "");
      }
    case Act(deed) => CallKeepsTimes(g.lobby, Do(p, deed, now), "");
    case _ =>
  }

  /** Presence agrees after every handler, whatever the interleaving. */
  lemma {:induction false} StepKeepsPresence(g: Gateway, step: Step)
    requires GatewayInv(g)
    ensures GatewayInv(NextGateway(g, step))
  {
    StepAgrees(g, step);
    StepTokens(g, step);
    NobodyIsSeated(g, step);
    hide Agrees, TokensOk, Calls, NotifierAfter, SessionsAfter;
  }

  // ---------- Runs ----------

  lemma {:induction false} NewGatewayInv()
    ensures GatewayInv(NEW_GATEWAY)
  {
  }

  ghost function GatewayRun(g: Gateway, steps: seq<Step>): (g1: Gateway)
    requires GatewayInv(g)
    ensures GatewayInv(g1)
    decreases |steps|
  {
    if steps == [] then g
    else
      StepKeepsPresence(g, steps[0]);
      GatewayRun(NextGateway(g, steps[0]), steps[1..])
  }

  /** The gateway after these steps from its start. */
  ghost function Reached(steps: seq<Step>): (g: Gateway)
    ensures GatewayInv(g)
  {
    NewGatewayInv();
    GatewayRun(NEW_GATEWAY, steps)
  }

  /**
    In every run of the gateway a player in a room is recorded as absent exactly
    when it has no sender, and at most one session is current for a player.
   */
  lemma {:induction false} PresenceAlwaysAgrees(steps: seq<Step>)
    ensures var g := Reached(steps);
      forall p :: p in g.lobby.placed ==> (p in g.lobby.offline <==> p !in g.notifier.senders)
    ensures var g := Reached(steps);
      forall i, j :: (i in g.sessions && j in g.sessions
        && Current(g.notifier, g.sessions[i]) && Current(g.notifier, g.sessions[j])
        && g.sessions[i].player == g.sessions[j].player) ==> i == j
  {
    hide Inv, Reached, Current;
    var g := Reached(steps);
    forall i, j | i in g.sessions && j in g.sessions
      && Current(g.notifier, g.sessions[i]) && Current(g.notifier, g.sessions[j])
      && g.sessions[i].player == g.sessions[j].player
      ensures i == j
    {
      assert TokenOk(g.notifier, i, g.sessions[i]) && TokenOk(g.notifier, j, g.sessions[j]);
    }
  }

  // ---------- Senders without a session ----------

  /** The session is open and is the one whose login as the player still holds. */
  predicate Attends(g: Gateway, id: nat, p: PlayerId) {
    id in g.sessions && !g.sessions[id].closed && g.sessions[id].player == p && Current(g.notifier, g.sessions[id])
  }

  /** The player has a sender, and counts as present, but no open session is logged in as it. */
  predicate Unattended(g: Gateway, p: PlayerId) {
    p in g.notifier.senders && !Attends(g, g.notifier.senders[p].session, p)
  }

  lemma {:induction false} UnattendedMeans(g: Gateway, p: PlayerId)
    requires GatewayInv(g)
    ensures Unattended(g, p) <==> p in g.notifier.senders && forall id :: id in g.sessions ==> !Attends(g, id, p)
  {
    hide Inv, Agrees;
    forall id | id in g.sessions && Attends(g, id, p)
      ensures g.notifier.senders[p].session == id
    {
      assert TokenOk(g.notifier, id, g.sessions[id]);
    }
  }

  /**
    A message for a player goes to the session that attends it, whichever that is;
    a player recorded as absent gets none.
   */
  lemma {:induction false} Routed(g: Gateway, p: PlayerId)
    requires GatewayInv(g)
    ensures forall id :: Attends(g, id, p) ==> p in g.notifier.senders && g.notifier.senders[p].session == id
    ensures p in g.notifier.senders && !Unattended(g, p) ==> Attends(g, g.notifier.senders[p].session, p)
    ensures p in g.lobby.offline ==> p !in g.notifier.senders
  {
    assert OfflineOk(g.lobby);
    hide Inv;
    forall id | Attends(g, id, p)
      ensures g.notifier.senders[p].session == id
    {
      assert TokenOk(g.notifier, id, g.sessions[id]);
    }
  }

  /** The login leaves a sender behind: it reaches a closed session, or names nobody. */
  predicate LoginIsLate(g: Gateway, step: Step, p: PlayerId) {
    LogsIn(g, step) && step.player == p && (g.sessions[step.id].closed || p == "")
  }

  /** The login takes the session away from another player. */
  predicate LoginDeserts(g: Gateway, step: Step, p: PlayerId) {
    LogsIn(g, step) && step.player != p && Attends(g, step.id, p)
  }

  /**
    A player is present without a session after a step exactly when its login came
    too late, its session has just logged in as somebody else, or it was so before
    and has not logged in.
   */
  lemma {:induction false} UnattendedAfter(g: Gateway, step: Step, p: PlayerId)
    requires GatewayInv(g)
    ensures Unattended(NextGateway(g, step), p) <==>
      LoginIsLate(g, step, p) || LoginDeserts(g, step, p)
      || (Unattended(g, p) && !(LogsIn(g, step) && step.player == p))
  {
    hide Inv, Agrees, Playing, AfterCalls, Calls;
    if p in g.notifier.senders && g.notifier.senders[p].session in g.sessions {
      var id := g.notifier.senders[p].session;
      assert TokenOk(g.notifier, id, g.sessions[id]);
    }
    if Closes(g, step) || LogsIn(g, step) {
      assert TokenOk(g.notifier, step.id, g.sessions[step.id]);
    }
  }

  /** Some step of the run is a login as the player. */
  ghost predicate LogsInLater(g: Gateway, steps: seq<Step>, p: PlayerId)
    requires GatewayInv(g)
    decreases |steps|
  {
    steps != [] &&
    (StepKeepsPresence(g, steps[0]);
     (LogsIn(g, steps[0]) && steps[0].player == p) || LogsInLater(NextGateway(g, steps[0]), steps[1..], p))
  }

  /**
    A login as the player reached a closed session, or a login as somebody else
    took its session, and the player has not logged in since.
   */
  ghost predicate LeftBehind(g: Gateway, steps: seq<Step>, p: PlayerId)
    requires GatewayInv(g)
    decreases |steps|
  {
    steps != [] &&
    (StepKeepsPresence(g, steps[0]);
     var g1, rest := NextGateway(g, steps[0]), steps[1..];
     LeftBehind(g1, rest, p)
     || ((LoginIsLate(g, steps[0], p) || LoginDeserts(g, steps[0], p)) && !LogsInLater(g1, rest, p)))
  }

  lemma {:induction false} UnattendedIff(g: Gateway, steps: seq<Step>, p: PlayerId)
    requires GatewayInv(g)
    ensures Unattended(GatewayRun(g, steps), p) <==>
      LeftBehind(g, steps, p) || (Unattended(g, p) && !LogsInLater(g, steps, p))
    decreases |steps|
  {
    if steps != [] {
      StepKeepsPresence(g, steps[0]);
      UnattendedAfter(g, steps[0], p);
      hide GatewayInv, NextGateway, Unattended, LoginIsLate, LoginDeserts, LogsIn;
      UnattendedIff(NextGateway(g, steps[0]), steps[1..], p);
    }
  }

  ghost predicate WasLeftBehind(steps: seq<Step>, p: PlayerId) {
    NewGatewayInv();
    LeftBehind(NEW_GATEWAY, steps, p)
  }

  lemma {:induction false} UnattendedFromStart(steps: seq<Step>, p: PlayerId)
    ensures Unattended(Reached(steps), p) <==> WasLeftBehind(steps, p)
  {
    NewGatewayInv();
    hide Inv, Agrees, TokensOk, GatewayRun, LeftBehind, LogsInLater;
    UnattendedIff(NEW_GATEWAY, steps, p);
  }

  /**
    In every run: for a player in a room, being recorded as absent and having no
    open session are the same, exactly when its sender was not left behind.
   */
  lemma {:induction false} PresenceMeansSession(steps: seq<Step>, p: PlayerId)
    requires p in Reached(steps).lobby.placed
    ensures var g := Reached(steps);
      (p in g.lobby.offline <==> forall id :: id in g.sessions ==> !Attends(g, id, p))
      <==> !WasLeftBehind(steps, p)
  {
    hide Inv, Reached, WasLeftBehind, TokensOk, Unattended;
    var g := Reached(steps);
    UnattendedFromStart(steps, p);
    UnattendedMeans(g, p);
    if id :| id in g.sessions && Attends(g, id, p) {
      assert p in g.notifier.senders;
    }
  }

  /** A player whose sender was left behind is never recorded as absent until it logs in again. */
  lemma {:induction false} UnattendedStays(g: Gateway, steps: seq<Step>, p: PlayerId)
    requires GatewayInv(g) && Unattended(g, p) && !LogsInLater(g, steps, p)
    ensures var g1 := GatewayRun(g, steps);
      Unattended(g1, p) && (p in g1.lobby.placed ==> p !in g1.lobby.offline)
  {
    UnattendedIff(g, steps, p);
    hide Inv, TokensOk, GatewayRun, LogsInLater, LeftBehind;
  }

  // ---------- Two ways to be left behind ----------

  /** A player that has logged in and entered a room. */
  lemma {:induction false} Seated(p: PlayerId, draws: Draws, now: int) returns (g: Gateway)
    requires p != ""
    ensures GatewayInv(g) && p in g.lobby.placed && g.sessions.Keys == {0} && Attends(g, 0, p)
    ensures forall rest ::
      Reached([Accept(0), LoginReply(0, true, p), Handle(0, QuickMatch(draws), now)] + rest) == GatewayRun(g, rest)
  {
    hide Inv, AfterCalls, Agrees, TokensOk, Matched;
    var a, b, c := Accept(0), LoginReply(0, true, p), Handle(0, QuickMatch(draws), now);
    NewGatewayInv();
    OneCall(NEW_LOBBY, Online(p));
    var g1 := NextGateway(NEW_GATEWAY, a);
    StepKeepsPresence(NEW_GATEWAY, a);
    LoginStep(g1, 0, true, p);
    var g2 := NextGateway(g1, b);
    StepKeepsPresence(g1, b);
    HandleStep(g2, 0, QuickMatch(draws), now);
    g := NextGateway(g2, c);
    StepKeepsPresence(g2, c);
    MatchedInv(g2.lobby, p, now, draws);
    hide GatewayInv, NextGateway, Refused;
    forall rest: seq<Step>
      ensures Reached([a, b, c] + rest) == GatewayRun(g, rest)
    {
      FirstStep(NEW_GATEWAY, a, [b, c] + rest);
      FirstStep(g1, b, [c] + rest);
      FirstStep(g2, c, rest);
      assert [a] + ([b, c] + rest) == [a, b, c] + rest;
      assert [b] + ([c] + rest) == [b, c] + rest;
    }
  }

  lemma {:induction false} FirstStep(g: Gateway, step: Step, rest: seq<Step>)
    requires GatewayInv(g)
    ensures GatewayInv(NextGateway(g, step))
    ensures GatewayRun(g, [step] + rest) == GatewayRun(NextGateway(g, step), rest)
    ensures GatewayRun(g, []) == g
  {
    StepKeepsPresence(g, step);
    hide GatewayInv, NextGateway;
    assert ([step] + rest)[1..] == rest;
  }

  /** The player is in a room and not recorded as absent, but no open session is logged in as it. */
  ghost predicate Stranded(g: Gateway, p: PlayerId) {
    p in g.lobby.placed && p !in g.lobby.offline && forall id :: id in g.sessions ==> !Attends(g, id, p)
  }

  /** A player that takes a seat and then logs in as somebody else, on the same session. */
  lemma {:induction false} OtherLogin(p: PlayerId, q: PlayerId, draws: Draws, now: int)
    requires p != "" && p != q
    ensures Stranded(Reached(
      [Accept(0), LoginReply(0, true, p), Handle(0, QuickMatch(draws), now), LoginReply(0, true, q)]), p)
  {
    hide Inv, AfterCalls, GatewayRun, Reached;
    var prefix := [Accept(0), LoginReply(0, true, p), Handle(0, QuickMatch(draws), now)];
    var g := Seated(p, draws, now);
    var step := LoginReply(0, true, q);
    LoginStep(g, 0, true, q);
    FirstStep(g, step, []);
    assert prefix + [step] == [prefix[0], prefix[1], prefix[2], step] && [step] + [] == [step];
    FirstStep(NextGateway(g, step), step, []);
    assert Reached(prefix + [step]) == GatewayRun(g, [step]);
    hide NextGateway, TokensOk;
  }

  /** A player that takes a seat, asks for a login once more and is gone before the reply. */
  lemma {:induction false} LateReply(p: PlayerId, draws: Draws, now: int)
    requires p != ""
    ensures Stranded(Reached(
      [Accept(0), LoginReply(0, true, p), Handle(0, QuickMatch(draws), now), Close(0, now), LoginReply(0, true, p)]), p)
  {
    hide Inv, AfterCalls, GatewayRun, Reached;
    var prefix := [Accept(0), LoginReply(0, true, p), Handle(0, QuickMatch(draws), now)];
    var g := Seated(p, draws, now);
    var a, b := Close(0, now), LoginReply(0, true, p);
    CloseStep(g, 0, now);
    FirstStep(g, a, [b]);
    var g1 := NextGateway(g, a);
    LoginStep(g1, 0, true, p);
    FirstStep(g1, b, []);
    FirstStep(NextGateway(g1, b), b, []);
    assert prefix + [a, b] == [prefix[0], prefix[1], prefix[2], a, b];
    assert [a] + [b] == [a, b] && [b] + [] == [b];
    assert Reached(prefix + [a, b]) == GatewayRun(g, [a, b]);
    hide NextGateway, TokensOk;
  }

  // ---------- Absence ----------

  /** The step closes the session that attends the player. */
  ghost predicate Leaves(g: Gateway, step: Step, p: PlayerId)
    requires Inv(g.lobby)
  {
    Closes(g, step) && Attends(g, step.id, p)
  }

  /** At `time` the session of the player was closed, and the player has not logged in since. */
  ghost predicate LeftAt(g: Gateway, steps: seq<Step>, p: PlayerId, time: int)
    requires GatewayInv(g)
    decreases |steps|
  {
    steps != [] &&
    (StepKeepsPresence(g, steps[0]);
     var g1, rest := NextGateway(g, steps[0]), steps[1..];
     LeftAt(g1, rest, p, time) || (Leaves(g, steps[0], p) && steps[0].now == time && !LogsInLater(g1, rest, p)))
  }

  /** A login as the player ends its absence. */
  ghost predicate Returns(g: Gateway, step: Step, p: PlayerId) {
    LogsIn(g, step) && step.player == p
  }

  /** A call that does not mark or seat the player: it keeps its record while it stays. */
  ghost predicate KeepsTime(s: Lobby, s1: Lobby, p: PlayerId) {
    && (p in s1.placed ==> p in s.placed && (p in s1.offline <==> p in s.offline))
    && (p in s1.offline ==> p in s.offline && s1.offline[p] == s.offline[p])
  }

  lemma {:induction false} RemovalKeepsTime(s: Lobby, s1: Lobby, p: PlayerId)
    requires Inv(s1) && OnlyRemoves(s, s1)
    ensures KeepsTime(s, s1, p)
  {
    PlacedInRoom(s1, p);
    hide Inv;
  }

  lemma {:induction false} CallKeepsTimes(s: Lobby, e: Event, p: PlayerId)
    requires Inv(s) && !e.Online? && !e.Offline? && (e.Match? ==> e.p != p)
    ensures KeepsTime(s, NextLobby(s, e), p)
  {
    NextInv(s, e);
    hide Inv, KeepsTime, OnlyRemoves, Done, Ticked, Dropped, Matched;
    match e
    case Match(q, now, draws) => MatchKeepsTime(s, q, now, draws, p);
    case Do(q, deed, now) =>
      DoneOnlyRemoves(s, q, deed, now);
      RemovalKeepsTime(s, NextLobby(s, e), p);
    case Tick(now, random) =>
      TickOnlyRemoves(s, now, random);
      RemovalKeepsTime(s, NextLobby(s, e), p);
    case Idle(now) =>
      DropOnlyRemoves(s, IdleRooms(s, now));
      RemovalKeepsTime(s, NextLobby(s, e), p);
    case Expiry(now) =>
      DropOnlyRemoves(s, DesertedRooms(s, now));
      RemovalKeepsTime(s, NextLobby(s, e), p);
    case _ =>
  }

  lemma {:induction false} MatchKeepsTime(s: Lobby, q: PlayerId, now: int, draws: Draws, p: PlayerId)
    requires Inv(s) && q != p
    ensures KeepsTime(s, Matched(s, q, now, draws), p)
  {
    MatchRecords(s, q, now, draws, p);
    assert OfflineOk(s);
    hide RoomOk, Moved;
  }

  lemma {:induction false} SweepKeepsTimes(g: Gateway, now: int, random: nat -> Draws, p: PlayerId)
    requires Inv(g.lobby)
    ensures var s, s1 := g.lobby, NextGateway(g, Sweep(now, random)).lobby;
      && (p in s1.placed ==> p in s.placed && (p in s1.offline <==> p in s.offline))
      && (p in s1.offline ==> p in s.offline && s1.offline[p] == s.offline[p])
  {
    hide NextLobby, NextGateway, Ticked, Dropped, IdleRooms, DesertedRooms;
    var s1, s2 := SweepStep(g, now, random);
    CallKeepsTimes(g.lobby, Tick(now, random), p);
    CallKeepsTimes(s1, Idle(now), p);
    CallKeepsTimes(s2, Expiry(now), p);
    NextInv(s2, Expiry(now));
  }

  /** What one step does to the record of a player without a sender, or of one whose session it closes. */
  ghost predicate AbsenceKept(g: Gateway, step: Step, g1: Gateway, p: PlayerId)
    requires Inv(g.lobby)
  {
    && (p in g1.lobby.offline ==>
          || (Leaves(g, step, p) && g1.lobby.offline[p] == step.now)
          || (p in g.lobby.offline && g1.lobby.offline[p] == g.lobby.offline[p] && !Returns(g, step, p)))
    && (Leaves(g, step, p) ==> p !in g1.notifier.senders)
    && (p !in g.notifier.senders && !Returns(g, step, p) ==>
          p !in g1.notifier.senders && (p in g1.lobby.placed ==> p in g.lobby.placed))
  }

  lemma {:induction false} AbsentAfter(g: Gateway, step: Step, p: PlayerId)
    requires GatewayInv(g)
    ensures AbsenceKept(g, step, NextGateway(g, step), p)
  {
    hide AbsenceKept, NextGateway, Inv, Agrees, TokensOk, Closes;
    if step.Sweep? {
      SweepAbsents(g, step, p);
    } else if LogsIn(g, step) {
      LoginAbsents(g, step, p);
    } else if Closes(g, step) {
      CloseAbsents(g, step, p);
    } else if step.Handle? && step.id in g.sessions {
      HandleAbsents(g, step.id, step.request, step.now, p);
    } else {
      QuietAbsents(g, step, p);
    }
  }

  lemma {:induction false} SweepAbsents(g: Gateway, step: Step, p: PlayerId)
    requires GatewayInv(g) && step.Sweep?
    ensures AbsenceKept(g, step, NextGateway(g, step), p)
  {
    hide Inv, AfterCalls, Agrees, TokensOk;
    SweepKeepsTimes(g, step.now, step.random, p);
  }

  lemma {:induction false} LoginAbsents(g: Gateway, step: Step, p: PlayerId)
    requires GatewayInv(g) && LogsIn(g, step)
    ensures AbsenceKept(g, step, NextGateway(g, step), p)
  {
    hide Inv, NextGateway, Agrees, TokensOk;
    LoginStep(g, step.id, true, step.player);
  }

  lemma {:induction false} QuietAbsents(g: Gateway, step: Step, p: PlayerId)
    requires GatewayInv(g) && !LogsIn(g, step) && !step.Sweep? && !Closes(g, step)
    requires step.Handle? ==> step.id !in g.sessions
    ensures AbsenceKept(g, step, NextGateway(g, step), p)
  {
    hide Inv, AfterCalls, Agrees, TokensOk, Refused;
    QuietStep(g, step);
  }

  lemma {:induction false} NoSenderIfAbsent(g: Gateway, p: PlayerId)
    requires GatewayInv(g) && p in g.lobby.offline
    ensures p in g.lobby.placed && p !in g.notifier.senders
  {
    assert OfflineOk(g.lobby);
  }

  lemma {:induction false} CloseAbsents(g: Gateway, step: Step, p: PlayerId)
    requires GatewayInv(g) && Closes(g, step)
    ensures AbsenceKept(g, step, NextGateway(g, step), p)
  {
    hide NextGateway, Inv, TokensOk, Playing, Agrees;
    if step.Handle? {
      HandleStep(g, step.id, step.request, step.now);
    }
    CloseStep(g, step.id, step.now);
    if p in g.lobby.offline {
      NoSenderIfAbsent(g, p);
    }
  }

  lemma {:induction false} HandleAbsents(g: Gateway, id: nat, request: Request, now: int, p: PlayerId)
    requires GatewayInv(g) && id in g.sessions && !Closes(g, Handle(id, request, now))
    ensures AbsenceKept(g, Handle(id, request, now), NextGateway(g, Handle(id, request, now)), p)
  {
    hide NextGateway, Agrees, TokensOk, Inv, Done, Matched, Refused;
    var x := g.sessions[id];
    HandleStep(g, id, request, now);
    match request
    case QuickMatch(draws) =>
      if x.player != "" {
        MatchRecords(g.lobby, x.player, now, draws, p);
        HasSender(g, id, request, now);
      }
    case Act(deed) =>
      CallKeepsTimes(g.lobby, Do(x.player, deed, now), p);
    case _ =>
  }

  lemma {:induction false} HasSender(g: Gateway, id: nat, request: Request, now: int)
    requires GatewayInv(g) && id in g.sessions && !Closes(g, Handle(id, request, now)) && g.sessions[id].player != ""
    ensures g.sessions[id].player in g.notifier.senders
  {
    hide Inv, Agrees, Playing;
    assert TokenOk(g.notifier, id, g.sessions[id]);
  }

  lemma {:induction false} MatchRecords(s: Lobby, p: PlayerId, now: int, draws: Draws, q: PlayerId)
    requires Inv(s)
    ensures Matched(s, p, now, draws).offline == s.offline
    ensures q in Matched(s, p, now, draws).placed ==> q in s.placed || q == p
  {
    hide RoomOk, Moved;
  }

  /** Without a sender and without a login a player gets no sender and no seat, and its record stays. */
  lemma {:induction false} StaysAway(g: Gateway, steps: seq<Step>, p: PlayerId)
    requires GatewayInv(g) && p !in g.notifier.senders && !LogsInLater(g, steps, p)
    ensures var g1 := GatewayRun(g, steps);
      && p !in g1.notifier.senders
      && (p in g1.lobby.placed ==>
            p in g.lobby.placed && p in g.lobby.offline && p in g1.lobby.offline
            && g1.lobby.offline[p] == g.lobby.offline[p])
    decreases |steps|
  {
    if steps != [] {
      StepKeepsPresence(g, steps[0]);
      AbsentAfter(g, steps[0], p);
      var g1 := NextGateway(g, steps[0]);
      StaysAway(g1, steps[1..], p);
      assert Agrees(g1.lobby, g1.notifier) && Agrees(g.lobby, g.notifier);
      hide Inv, TokensOk, NextGateway, LogsIn, Leaves;
    }
  }

  lemma {:induction false} AbsentSince(g: Gateway, steps: seq<Step>, p: PlayerId, time: int)
    requires GatewayInv(g)
    ensures var g1 := GatewayRun(g, steps);
      && (p in g1.lobby.offline && g1.lobby.offline[p] == time ==>
            || LeftAt(g, steps, p, time)
            || (p in g.lobby.offline && g.lobby.offline[p] == time && !LogsInLater(g, steps, p)))
      && (LeftAt(g, steps, p, time) && p in g1.lobby.placed ==>
            p in g1.lobby.offline && g1.lobby.offline[p] == time)
    decreases |steps|
  {
    if steps != [] {
      StepKeepsPresence(g, steps[0]);
      AbsentAfter(g, steps[0], p);
      var g1, rest := NextGateway(g, steps[0]), steps[1..];
      AbsentSince(g1, rest, p, time);
      if Leaves(g, steps[0], p) && !LogsInLater(g1, rest, p) {
        StaysAway(g1, rest, p);
      }
      hide GatewayInv, NextGateway, LogsIn, Leaves;
    }
  }

  ghost predicate WasLeftAt(steps: seq<Step>, p: PlayerId, time: int) {
    NewGatewayInv();
    LeftAt(NEW_GATEWAY, steps, p, time)
  }

  lemma {:induction false} AbsentFromStart(steps: seq<Step>, p: PlayerId, time: int)
    ensures var s := Reached(steps).lobby;
      && (p in s.offline && s.offline[p] == time ==> WasLeftAt(steps, p, time))
      && (WasLeftAt(steps, p, time) && p in s.placed ==> p in s.offline && s.offline[p] == time)
  {
    NewGatewayInv();
    hide Inv, Agrees, TokensOk, GatewayRun, LeftAt, LogsInLater;
    AbsentSince(NEW_GATEWAY, steps, p, time);
  }

  /**
    In every run the recorded time of absence is that of the close of the player's
    session, after which it has not logged in; and every player in a room whose
    session was closed like this is recorded with that time.
   */
  lemma {:induction false} AbsenceIsSinceClose(steps: seq<Step>, p: PlayerId, time: int)
    ensures var s := Reached(steps).lobby;
      p in s.offline && s.offline[p] == time <==> p in s.placed && WasLeftAt(steps, p, time)
  {
    AbsentFromStart(steps, p, time);
    hide Inv, Reached, WasLeftAt, Agrees, TokensOk;
    PlacedInRoom(Reached(steps).lobby, p);
  }

  // ---------- Expulsion ----------

  /** Rooms may go; a player that stays has the same room and record, and stays if its room does. */
  ghost predicate Shrinks(s: Lobby, s1: Lobby, p: PlayerId) {
    && s1.rooms.Keys <= s.rooms.Keys
    && (p in s1.placed ==> p in s.placed && s1.placed[p] == s.placed[p])
    && (p in s.placed && s.placed[p] in s1.rooms ==>
          p in s1.placed && (p in s.offline ==> p in s1.offline && s1.offline[p] == s.offline[p]))
  }

  lemma {:induction false} TickShrinks(s: Lobby, now: int, random: nat -> Draws, p: PlayerId)
    requires Inv(s)
    ensures Shrinks(s, Ticked(s, now, random), p)
  {
    hide Inv, RoomOk, Valid, Ending;
    RoundsAreValid(s);
  }

  lemma {:induction false} DropShrinks(s: Lobby, gone: set<nat>, p: PlayerId)
    ensures Shrinks(s, Dropped(s, gone), p)
    ensures forall id :: id in gone ==> id !in Dropped(s, gone).rooms
  {
  }

  lemma {:induction false} PlacedInRoom(s: Lobby, p: PlayerId)
    requires Inv(s)
    ensures p in s.placed ==> s.placed[p] in s.rooms
    ensures p in s.offline ==> p in s.placed
  {
    assert OfflineOk(s);
  }

  /** A sweep removes the room of every player that has been absent for five minutes. */
  lemma {:induction false} SweepExpels(g: Gateway, now: int, random: nat -> Draws, p: PlayerId)
    requires GatewayInv(g) && p in g.lobby.offline && now - g.lobby.offline[p] >= 300 * SECOND
    ensures p in g.lobby.placed
    ensures var s := NextGateway(g, Sweep(now, random)).lobby;
      g.lobby.placed[p] !in s.rooms && p !in s.placed && p !in s.offline
  {
    hide NextGateway, NextLobby, Ticked, Dropped, IdleRooms, Inv, Agrees, TokensOk, DesertedRooms;
    var s1, s2 := SweepStep(g, now, random);
    NextInv(s2, Expiry(now));
    var s3 := Dropped(s2, DesertedRooms(s2, now));
    PlacedInRoom(g.lobby, p);
    PlacedInRoom(s3, p);
    TickShrinks(g.lobby, now, random, p);
    DropShrinks(s1, IdleRooms(s1, now), p);
    DropShrinks(s2, DesertedRooms(s2, now), p);
    if p in s2.placed {
      LongGoneDeserts(s2, now, p);
    }
  }

  lemma {:induction false} LongGoneDeserts(s: Lobby, now: int, p: PlayerId)
    requires Inv(s) && p in s.placed
    ensures LongGone(s, p, now) ==> s.placed[p] in DesertedRooms(s, now)
  {
    hide Inv;
  }
}
