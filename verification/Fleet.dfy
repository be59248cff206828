/**
  The whole gateway with the sockets of its sessions: each completion on a socket
  runs a handler, which moves the gateway and answers on its own connection.
 */
module Fleets {
  import opened Deck
  import opened Lobbies
  import opened Framing
  import opened Wires
  import opened Presence
  import opened Replies

  datatype Fleet = Fleet(gateway: Gateway, wires: map<nat, Wire>)

  const NEW_FLEET := Fleet(NEW_GATEWAY, map[])

  /** How a packet is taken: too many or not understood, a login for the backend, or a request. */
  datatype Input = Unwelcome | LoginFor(player: PlayerId) | Wants(request: Request)

  /** What completes on a session; `replies` are the messages that its handler sends on its own connection. */
  datatype Signal =
    | HeaderIn(bytes: seq<Byte>, input: Input, replies: seq<Message>)
    | BodyIn(bytes: seq<Byte>, input: Input, replies: seq<Message>)
    | ReadBreaks
    | LoginBack(success: bool, player: PlayerId, replies: seq<Message>)
    | Told(message: Message)
    | Written
    | WriteBreaks
    | Expires

  datatype Happening = Connects(id: nat) | On(id: nat, signal: Signal, now: int) | Timer(now: int, random: nat -> Draws)

  // ---------- Steps ----------

  ghost function OutcomeOf(g: Gateway, id: nat, input: Input, replies: seq<Message>): Outcome
    requires Inv(g.lobby) && id in g.sessions
  {
    match input
    case Unwelcome => Closing
    case LoginFor(_) => LoginAsked
    case Wants(request) => if Refused(g, g.sessions[id], request) then Closing else Outcome.Replies(replies)
  }

  ghost function TakenIn(g: Gateway, id: nat, input: Input, now: int): Gateway
    requires Inv(g.lobby)
  {
    match input
    case Unwelcome => NextGateway(g, Close(id, now))
    case LoginFor(_) => g
    case Wants(request) => NextGateway(g, Handle(id, request, now))
  }

  /** The header is that of a packet without a body. */
  predicate IsWhole(bytes: seq<Byte>) {
    |bytes| == HEADER && DecodeHeader(bytes).Some? && DecodeHeader(bytes).value.size == HEADER
  }

  /** The step of the connection. */
  ghost function WireStepOf(g: Gateway, id: nat, signal: Signal): WireStep
    requires Inv(g.lobby) && id in g.sessions
  {
    match signal
    case HeaderIn(bytes, input, replies) => HeaderArrives(bytes, OutcomeOf(g, id, input, replies))
    case BodyIn(bytes, input, replies) => BodyArrives(bytes, OutcomeOf(g, id, input, replies))
    case ReadBreaks => ReadFails
    case LoginBack(_, _, replies) => WireStep.LoginReply(replies)
    case Told(message) => Send(message)
    case Written => WriteEnds
    case WriteBreaks => WriteFails
    case Expires => Shut
  }

  /** What the handler does to the gateway. */
  ghost function Handling(g: Gateway, id: nat, signal: Signal, now: int): Gateway
    requires Inv(g.lobby)
  {
    match signal
    case HeaderIn(bytes, input, _) => if IsWhole(bytes) then TakenIn(g, id, input, now) else g
    case BodyIn(_, input, _) => TakenIn(g, id, input, now)
    case LoginBack(success, p, _) => NextGateway(g, Step.LoginReply(id, success, p))
    case _ => g
  }

  /** The handler sends as many messages on its own connection as the request calls for. */
  ghost predicate Answers(g: Gateway, id: nat, input: Input, replies: seq<Message>, now: int)
    requires Inv(g.lobby) && id in g.sessions
  {
    input.Wants? && !Refused(g, g.sessions[id], input.request) ==>
      |replies| == CountFor(RepliesTo(g, id, input.request, now), id)
  }

  /** The operation that completes is under way. Nothing is said of a handler but what its request calls for. */
  ghost predicate CanHappen(f: Fleet, h: Happening)
    requires Inv(f.gateway.lobby)
  {
    match h
    case Connects(id) => id !in f.gateway.sessions
    case Timer(_, _) => true
    case On(id, signal, now) =>
      && id in f.gateway.sessions && id in f.wires
      && match signal
         case HeaderIn(bytes, input, replies) =>
           CanStep(f.wires[id], HeaderArrives(bytes, Closing)) && Answers(f.gateway, id, input, replies, now)
         case BodyIn(bytes, input, replies) =>
           CanStep(f.wires[id], BodyArrives(bytes, Closing)) && Answers(f.gateway, id, input, replies, now)
         case _ => CanStep(f.wires[id], WireStepOf(f.gateway, id, signal))
  }

  // ---------- What holds in every run ----------

  ghost predicate FleetInv(f: Fleet) {
    && GatewayInv(f.gateway) && f.wires.Keys == f.gateway.sessions.Keys
    && forall id :: id in f.wires ==> WireInv(f.wires[id]) && (f.wires[id].closed <==> f.gateway.sessions[id].closed)
  }

  lemma {:induction false} RequestsAnswer(g: Gateway, id: nat, input: Input, replies: seq<Message>, now: int)
    requires GatewayInv(g) && id in g.sessions && Answers(g, id, input, replies, now)
    ensures OutcomeOf(g, id, input, replies).Replies? ==> OutcomeOf(g, id, input, replies).messages != []
  {
    if input.Wants? && !Refused(g, g.sessions[id], input.request) {
      HandlerAnswers(g, id, input.request, now);
      ReachedIsCounted(RepliesTo(g, id, input.request, now), id);
    }
    hide GatewayInv, RepliesTo, Refused;
  }

  /** Every completion is a step of its connection: no handler that goes on leaves its session unanswered. */
  lemma {:induction false} SignalIsStep(f: Fleet, id: nat, signal: Signal, now: int)
    requires FleetInv(f) && CanHappen(f, On(id, signal, now))
    ensures id in f.gateway.sessions && id in f.wires
    ensures CanStep(f.wires[id], WireStepOf(f.gateway, id, signal))
  {
    hide GatewayInv, WireInv, OutcomeOf, Answers;
    match signal
    case HeaderIn(bytes, input, replies) => RequestsAnswer(f.gateway, id, input, replies, now);
    case BodyIn(bytes, input, replies) => RequestsAnswer(f.gateway, id, input, replies, now);
    case _ =>
  }

  /** If its connection was closed by a handler, a failure or an oversized packet, so is the session. */
  ghost function Settling(g: Gateway, id: nat, w: Wire, now: int): Gateway
    requires Inv(g.lobby)
  {
    if w.closed then NextGateway(g, Close(id, now)) else g
  }

  ghost function NextFleet(f: Fleet, h: Happening): Fleet
    requires FleetInv(f) && CanHappen(f, h)
  {
    match h
    case Connects(id) => Fleet(NextGateway(f.gateway, Accept(id)), f.wires[id := NEW_WIRE])
    case Timer(now, random) => f.(gateway := NextGateway(f.gateway, Sweep(now, random)))
    case On(id, signal, now) =>
      SignalIsStep(f, id, signal, now);
      HandlingKeeps(f.gateway, id, signal, now);
      var w := NextWire(f.wires[id], WireStepOf(f.gateway, id, signal));
      Fleet(Settling(Handling(f.gateway, id, signal, now), id, w, now), f.wires[id := w])
  }

  lemma {:induction false} HandlingKeeps(g: Gateway, id: nat, signal: Signal, now: int)
    requires GatewayInv(g) && id in g.sessions
    ensures GatewayInv(Handling(g, id, signal, now))
  {
    hide GatewayInv, NextGateway;
    match signal
    case HeaderIn(_, input, _) => TakenKeeps(g, id, input, now);
    case BodyIn(_, input, _) => TakenKeeps(g, id, input, now);
    case LoginBack(success, p, _) => StepKeepsPresence(g, Step.LoginReply(id, success, p));
    case _ =>
  }

  lemma {:induction false} TakenKeeps(g: Gateway, id: nat, input: Input, now: int)
    requires GatewayInv(g) && id in g.sessions
    ensures GatewayInv(TakenIn(g, id, input, now))
  {
    hide GatewayInv, NextGateway;
    match input
    case Unwelcome => StepKeepsPresence(g, Close(id, now));
    case LoginFor(_) =>
    case Wants(request) => StepKeepsPresence(g, Handle(id, request, now));
  }

  // ---------- A session is closed when its connection is ----------

  lemma {:induction false} SentAllStaysClosed(w: Wire, ms: seq<Message>)
    ensures w.closed ==> SentAll(w, ms).closed
    decreases |ms|
  {
    if ms != [] {
      SentAllStaysClosed(w, ms[..|ms| - 1]);
    }
  }

  lemma {:induction false} HandledStaysClosed(w: Wire, m: Message, outcome: Outcome)
    ensures w.closed || outcome == Closing ==> Handled(w, m, outcome).closed
  {
    if outcome.Replies? {
      SentAllStaysClosed(w.(reading := NotReading, handled := w.handled + [m]), outcome.messages);
    }
  }

  lemma {:induction false} StaysClosed(w: Wire, step: WireStep)
    requires CanStep(w, step)
    ensures w.closed ==> NextWire(w, step).closed
    ensures step.HeaderArrives? && IsWhole(step.bytes) && step.outcome == Closing ==> NextWire(w, step).closed
    ensures step.BodyArrives? && step.outcome == Closing ==> NextWire(w, step).closed
  {
    hide Handled, SentAll;
    match step
    case HeaderArrives(bytes, outcome) =>
      if DecodeHeader(bytes).Some? {
        HandledStaysClosed(w.(pendingReads := w.pendingReads - 1, received := w.received + bytes),
                           Message(DecodeHeader(bytes).value.id, []), outcome);
      }
    case BodyArrives(bytes, outcome) =>
      HandledStaysClosed(w.(pendingReads := w.pendingReads - 1, received := w.received + bytes),
                         Message(w.reading.header.id, bytes), outcome);
    case LoginReply(ms) => SentAllStaysClosed(w.(logins := w.logins - 1), ms);
    case _ =>
  }

  /** A handler opens and closes no session but its own, and closes that one only when its connection is closed too. */
  ghost predicate OnlyCloses(g: Gateway, g1: Gateway, id: nat, closing: bool)
    requires id in g.sessions
  {
    && g1.sessions.Keys == g.sessions.Keys
    && (forall j :: j in g.sessions && j != id ==> g1.sessions[j] == g.sessions[j])
    && (g1.sessions[id].closed <==> g.sessions[id].closed || closing)
  }

  lemma {:induction false} CloseOnlyCloses(g: Gateway, id: nat, now: int)
    requires Inv(g.lobby) && id in g.sessions
    ensures OnlyCloses(g, NextGateway(g, Close(id, now)), id, true)
  {
    CloseStep(g, id, now);
    hide Inv, NextGateway;
  }

  lemma {:induction false} TakenOnlyCloses(g: Gateway, id: nat, input: Input, replies: seq<Message>, now: int)
    requires Inv(g.lobby) && id in g.sessions
    ensures OnlyCloses(g, TakenIn(g, id, input, now), id, OutcomeOf(g, id, input, replies) == Closing)
  {
    CloseOnlyCloses(g, id, now);
    if input.Wants? {
      HandleStep(g, id, input.request, now);
    }
    hide Inv, NextGateway, Refused;
  }

  lemma {:induction false} HandlingOnlyCloses(g: Gateway, id: nat, signal: Signal, now: int, w: Wire)
    requires Inv(g.lobby) && id in g.sessions && CanStep(w, WireStepOf(g, id, signal))
    ensures var g1, w1 := Handling(g, id, signal, now), NextWire(w, WireStepOf(g, id, signal));
      && (w.closed ==> w1.closed)
      && (OnlyCloses(g, g1, id, false) || (w1.closed && OnlyCloses(g, g1, id, true)))
  {
    StaysClosed(w, WireStepOf(g, id, signal));
    hide Inv, NextGateway, OutcomeOf, NextWire, TakenIn;
    match signal
    case HeaderIn(_, input, replies) => TakenOnlyCloses(g, id, input, replies, now);
    case BodyIn(_, input, replies) => TakenOnlyCloses(g, id, input, replies, now);
    case LoginBack(success, p, _) => LoginStep(g, id, success, p);
    case _ =>
  }

  lemma {:induction false} SettlingCloses(g: Gateway, id: nat, w: Wire, now: int)
    requires GatewayInv(g) && id in g.sessions && (g.sessions[id].closed ==> w.closed)
    ensures GatewayInv(Settling(g, id, w, now))
    ensures OnlyCloses(g, Settling(g, id, w, now), id, w.closed)
  {
    StepKeepsPresence(g, Close(id, now));
    CloseOnlyCloses(g, id, now);
    hide GatewayInv, NextGateway;
  }

  lemma {:induction false} SignalKeeps(f: Fleet, id: nat, signal: Signal, now: int)
    requires FleetInv(f) && CanHappen(f, On(id, signal, now))
    ensures FleetInv(NextFleet(f, On(id, signal, now)))
  {
    hide Inv, Agrees, TokensOk, WireInv, CanStep, NextWire, WireStepOf, Handling, Settling;
    SignalIsStep(f, id, signal, now);
    var step := WireStepOf(f.gateway, id, signal);
    var w := NextWire(f.wires[id], step);
    var g1 := Handling(f.gateway, id, signal, now);
    WireStepKeeps(f.wires[id], step);
    HandlingKeeps(f.gateway, id, signal, now);
    HandlingOnlyCloses(f.gateway, id, signal, now, f.wires[id]);
    SettlingCloses(g1, id, w, now);
  }

  lemma {:induction false} ConnectKeeps(f: Fleet, id: nat)
    requires FleetInv(f) && CanHappen(f, Connects(id))
    ensures FleetInv(NextFleet(f, Connects(id)))
  {
    hide Inv, Agrees, TokensOk, WireInv, NextGateway;
    StepKeepsPresence(f.gateway, Accept(id));
    StartsWell();
    SessionsAccepted(f.gateway, id);
  }

  lemma {:induction false} TimerKeeps(f: Fleet, now: int, random: nat -> Draws)
    requires FleetInv(f)
    ensures FleetInv(NextFleet(f, Timer(now, random)))
  {
    hide Inv, Agrees, TokensOk, WireInv, NextGateway;
    StepKeepsPresence(f.gateway, Sweep(now, random));
    SessionsSwept(f.gateway, now, random);
  }

  lemma {:induction false} StartsWell()
    ensures WireInv(NEW_WIRE)
  {
    EmptyStream();
  }

  lemma {:induction false} SessionsAccepted(g: Gateway, id: nat)
    requires Inv(g.lobby) && id !in g.sessions
    ensures NextGateway(g, Accept(id)).sessions == g.sessions[id := NEW_SESSION]
  {
    hide Inv, AfterCalls;
  }

  lemma {:induction false} SessionsSwept(g: Gateway, now: int, random: nat -> Draws)
    requires Inv(g.lobby)
    ensures NextGateway(g, Sweep(now, random)).sessions == g.sessions
  {
    hide Inv, AfterCalls;
  }

  // ---------- Runs ----------

  ghost predicate IsFleetRun(f: Fleet, happenings: seq<Happening>)
    requires FleetInv(f)
    decreases |happenings|
  {
    happenings == [] ||
    (CanHappen(f, happenings[0]) &&
     (FleetStepKeeps(f, happenings[0]); IsFleetRun(NextFleet(f, happenings[0]), happenings[1..])))
  }

  lemma {:induction false} FleetStepKeeps(f: Fleet, h: Happening)
    requires FleetInv(f) && CanHappen(f, h)
    ensures FleetInv(NextFleet(f, h))
  {
    hide FleetInv, NextFleet, CanHappen;
    match h
    case Connects(id) => ConnectKeeps(f, id);
    case On(id, signal, now) => SignalKeeps(f, id, signal, now);
    case Timer(now, random) => TimerKeeps(f, now, random);
  }

  ghost function FleetAfter(f: Fleet, happenings: seq<Happening>): (f1: Fleet)
    requires FleetInv(f) && IsFleetRun(f, happenings)
    ensures FleetInv(f1)
    decreases |happenings|
  {
    if happenings == [] then f
    else
      FleetStepKeeps(f, happenings[0]);
      FleetAfter(NextFleet(f, happenings[0]), happenings[1..])
  }

  lemma {:induction false} NewFleetInv()
    ensures FleetInv(NEW_FLEET)
  {
    NewGatewayInv();
  }

  /**
    In every run of the gateway with its sockets: every open session has a read or
    a write under way or waits for a login; it never has two reads or two writes;
    and what a peer finds in any part of what was written are the first messages
    sent to it, in their order.
   */
  lemma {:induction false} NoSessionStalls(happenings: seq<Happening>, id: nat, cut: seq<Byte>)
    requires IsFleetRun(NEW_FLEET, happenings)
    requires id in FleetAfter(NEW_FLEET, happenings).gateway.sessions
    ensures var f := FleetAfter(NEW_FLEET, happenings);
      && id in f.wires && f.wires[id].pendingReads <= 1 && f.wires[id].pendingWrites <= 1
      && (!f.gateway.sessions[id].closed ==>
            f.wires[id].pendingReads == 1 || f.wires[id].pendingWrites == 1 || f.wires[id].logins > 0)
      && (cut <= f.wires[id].written ==> Taken(cut) <= f.wires[id].sent)
  {
    NewFleetInv();
    var f := FleetAfter(NEW_FLEET, happenings);
    hide FleetAfter, IsFleetRun, GatewayInv;
    if cut <= f.wires[id].written {
      InvDelivers(f.wires[id], cut);
    }
  }
}
