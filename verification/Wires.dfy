/**
  Reading and writing on the socket of a session. At most one read and one write
  are under way; a new read begins when the queue of writes has drained.
 */
module Wires {
  import opened Framing

  /** Over: a read was refused or has failed, and none follows. */
  datatype Reading = NotReading | ReadingHeader | ReadingBody(header: Header) | Over

  /** How the handler of a packet ends: it closes the session, waits for the backend, or has sent some replies. */
  datatype Outcome = Closing | LoginAsked | Replies(messages: seq<Message>)

  /**
    The state of a connection, with the number of reads and writes that are under way,
    and its history: the bytes received, the messages
    handled, the messages sent, and the bytes whose write is complete.
   */
  datatype Wire = Wire(
    reading: Reading,
    pendingReads: nat,
    queue: seq<seq<Byte>>,
    pendingWrites: nat,
    logins: nat,
    closed: bool,
    received: seq<Byte>,
    handled: seq<Message>,
    sent: seq<Message>,
    written: seq<Byte>)

  /** A session starts by reading. */
  const NEW_WIRE := Wire(ReadingHeader, 1, [], 0, 0, false, [], [], [], [])

  datatype WireStep =
    | HeaderArrives(bytes: seq<Byte>, outcome: Outcome)
    | BodyArrives(bytes: seq<Byte>, outcome: Outcome)
    | ReadFails
    | LoginReply(messages: seq<Message>)
    | Send(message: Message)
    | WriteEnds
    | WriteFails
    | Shut

  // ---------- Steps ----------

  /** An oversized message closes the session; the first one in the queue starts a write. */
  function Sent(w: Wire, m: Message): Wire {
    if !Fits(m) then w.(closed := true)
    else w.(queue := w.queue + [Frame(m)], sent := w.sent + [m],
            pendingWrites := w.pendingWrites + (if w.queue == [] then 1 else 0))
  }

  function SentAll(w: Wire, ms: seq<Message>): Wire
    decreases |ms|
  {
    if ms == [] then w else Sent(SentAll(w, ms[..|ms| - 1]), ms[|ms| - 1])
  }

  function Handled(w: Wire, m: Message, outcome: Outcome): Wire {
    var w1 := w.(reading := NotReading, handled := w.handled + [m]);
    match outcome
    case Closing => w1.(closed := true)
    case LoginAsked => w1.(logins := w.logins + 1)
    case Replies(ms) => SentAll(w1, ms)
  }

  function HeaderRead(w: Wire, bytes: seq<Byte>, outcome: Outcome): Wire
    requires w.pendingReads > 0 && |bytes| == HEADER
  {
    var h := DecodeHeader(bytes);
    var w1 := w.(pendingReads := w.pendingReads - 1, received := w.received + bytes);
    if h.None? || h.value.size > MAX_PACKET then w1.(reading := Over, closed := true)
    else if h.value.size == HEADER then Handled(w1, Message(h.value.id, []), outcome)
    else w1.(reading := ReadingBody(h.value), pendingReads := w1.pendingReads + 1)
  }

  function WriteEnded(w: Wire): Wire
    requires w.pendingWrites > 0 && w.queue != []
  {
    var w1 := w.(queue := w.queue[1..], pendingWrites := w.pendingWrites - (if |w.queue| > 1 then 0 else 1),
                 written := w.written + w.queue[0]);
    if w1.queue == [] && w1.reading == NotReading
    then w1.(reading := ReadingHeader, pendingReads := w1.pendingReads + 1) else w1
  }

  /** A step can happen when the operation that it completes is under way. A handler that goes on sends a reply. */
  predicate CanStep(w: Wire, step: WireStep) {
    match step
    case HeaderArrives(bytes, outcome) =>
      && w.reading == ReadingHeader && w.pendingReads > 0 && |bytes| == HEADER
      && (outcome.Replies? ==> outcome.messages != [])
    case BodyArrives(bytes, outcome) =>
      && w.reading.ReadingBody? && w.pendingReads > 0 && |bytes| == w.reading.header.size - HEADER
      && (outcome.Replies? ==> outcome.messages != [])
    case ReadFails => w.pendingReads > 0
    case LoginReply(ms) => w.logins > 0 && ms != []
    case Send(_) => true
    case WriteEnds => w.pendingWrites > 0 && w.queue != []
    case WriteFails => w.pendingWrites > 0
    case Shut => true
  }

  function NextWire(w: Wire, step: WireStep): Wire
    requires CanStep(w, step)
  {
    match step
    case HeaderArrives(bytes, outcome) => HeaderRead(w, bytes, outcome)
    case BodyArrives(bytes, outcome) =>
      Handled(w.(pendingReads := w.pendingReads - 1, received := w.received + bytes),
              Message(w.reading.header.id, bytes), outcome)
    case ReadFails => w.(reading := Over, pendingReads := w.pendingReads - 1, closed := true)
    case LoginReply(ms) => SentAll(w.(logins := w.logins - 1), ms)
    case Send(m) => Sent(w, m)
    case WriteEnds => WriteEnded(w)
    case WriteFails => w.(pendingWrites := w.pendingWrites - 1, closed := true)
    case Shut => w.(closed := true)
  }

  // ---------- Invariants ----------

  ghost function Partial(w: Wire): seq<Byte>
    requires AllFit(w.handled) && Frames(w.handled) <= w.received
  {
    w.received[|Frames(w.handled)|..]
  }

  /**
    At most one read is under way; what the reader has received is what was handled,
    and the header of a packet still to come.
   */
  ghost predicate ReadingOk(w: Wire) {
    && w.pendingReads == (if w.reading == ReadingHeader || w.reading.ReadingBody? then 1 else 0)
    && AllFit(w.handled) && Frames(w.handled) <= w.received
    && FirstSize(Partial(w)).None?
    && (w.reading == NotReading || w.reading == ReadingHeader ==> Partial(w) == [])
    && (w.reading.ReadingBody? ==>
          Partial(w) == EncodeHeader(w.reading.header) && HEADER < w.reading.header.size <= MAX_PACKET)
  }

  /**
    At most one write is under way; the queue holds the packets of the last messages
    sent, those before them are written.
   */
  ghost predicate WritingOk(w: Wire) {
    && AllFit(w.sent) && |w.queue| <= |w.sent|
    && w.written == Frames(w.sent[..|w.sent| - |w.queue|])
    && (forall i :: 0 <= i < |w.queue| ==> w.queue[i] == Frame(w.sent[|w.sent| - |w.queue| + i]))
    && w.pendingWrites <= 1 && (w.pendingWrites == 1 ==> w.queue != [])
  }

  /** An open session reads, writes or waits for the backend, and writes whenever something is queued. */
  ghost predicate NeverStalls(w: Wire) {
    !w.closed ==>
      && (w.pendingWrites == 1 <==> w.queue != [])
      && w.reading != Over
      && (w.reading != NotReading || w.pendingWrites == 1 || w.logins > 0)
  }

  ghost predicate WireInv(w: Wire) {
    ReadingOk(w) && WritingOk(w) && NeverStalls(w)
  }

  lemma {:induction false} SentKeeps(w: Wire, m: Message)
    requires WritingOk(w)
    ensures WritingOk(Sent(w, m))
    ensures Sent(w, m).received == w.received && Sent(w, m).handled == w.handled && Sent(w, m).reading == w.reading
    ensures Sent(w, m).logins == w.logins && Sent(w, m).pendingReads == w.pendingReads
    ensures (!w.closed ==> (w.pendingWrites == 1 <==> w.queue != [])) ==>
      !Sent(w, m).closed ==> Sent(w, m).pendingWrites == 1 && Sent(w, m).queue != [] && !w.closed
  {
    hide Frame, Fits;
    var w1 := Sent(w, m);
    if Fits(m) {
      var done := |w.sent| - |w.queue|;
      assert w1.sent[..done] == w.sent[..done];
    }
  }

  lemma {:induction false} SentAllKeeps(w: Wire, ms: seq<Message>)
    requires WritingOk(w)
    ensures var w1 := SentAll(w, ms);
      && WritingOk(w1)
      && w1.received == w.received && w1.handled == w.handled && w1.logins == w.logins
      && w1.reading == w.reading && w1.pendingReads == w.pendingReads
    ensures (!w.closed ==> (w.pendingWrites == 1 <==> w.queue != [])) ==>
      var w1 := SentAll(w, ms);
      && (!w1.closed ==> !w.closed && (w1.pendingWrites == 1 <==> w1.queue != []))
      && (!w1.closed && ms != [] ==> w1.pendingWrites == 1)
    decreases |ms|
  {
    hide WritingOk, Sent;
    if ms != [] {
      SentAllKeeps(w, ms[..|ms| - 1]);
      SentKeeps(SentAll(w, ms[..|ms| - 1]), ms[|ms| - 1]);
    }
  }

  lemma {:induction false} SameWriting(w: Wire, w1: Wire)
    requires WritingOk(w)
    requires w1.sent == w.sent && w1.queue == w.queue && w1.written == w.written
    requires w1.pendingWrites <= w.pendingWrites
    ensures WritingOk(w1)
  {
  }

  lemma {:induction false} HandledKeeps(w: Wire, m: Message, outcome: Outcome)
    requires WritingOk(w) && w.pendingReads == 0
    requires AllFit(w.handled) && Fits(m) && w.received == Frames(w.handled) + Frame(m)
    requires !w.closed ==> (w.pendingWrites == 1 <==> w.queue != [])
    requires outcome.Replies? ==> outcome.messages != []
    ensures WireInv(Handled(w, m, outcome))
  {
    hide WritingOk, Frame, Fits, SentAll;
    var w1 := w.(reading := NotReading, handled := w.handled + [m]);
    FramesJoin(w.handled, [m]);
    assert Frames([m]) == Frame(m) + [];
    assert w1.received == Frames(w1.handled);
    SameWriting(w, w1);
    SameWriting(w1, Handled(w, m, if outcome.Replies? then Closing else outcome));
    if outcome.Replies? {
      SentAllKeeps(w1, outcome.messages);
    }
  }

  lemma {:induction false} HeaderKeeps(w: Wire, bytes: seq<Byte>, outcome: Outcome)
    requires WireInv(w) && CanStep(w, HeaderArrives(bytes, outcome))
    ensures WireInv(HeaderRead(w, bytes, outcome))
  {
    hide WritingOk, Handled;
    assert w.received == Frames(w.handled);
    var h := DecodeHeader(bytes);
    var w1 := w.(pendingReads := w.pendingReads - 1, received := w.received + bytes);
    SameWriting(w, w1);
    assert bytes[..HEADER] == bytes;
    if h.None? || h.value.size > MAX_PACKET {
      assert Refuses(bytes);
      SameWriting(w, HeaderRead(w, bytes, outcome));
    } else {
      HeaderIsOnto(bytes);
      if h.value.size == HEADER {
        assert bytes == Frame(Message(h.value.id, []));
        HandledKeeps(w1, Message(h.value.id, []), outcome);
      } else {
        SameWriting(w, HeaderRead(w, bytes, outcome));
        assert Partial(HeaderRead(w, bytes, outcome)) == bytes;
      }
    }
  }

  lemma {:induction false} BodyKeeps(w: Wire, bytes: seq<Byte>, outcome: Outcome)
    requires WireInv(w) && CanStep(w, BodyArrives(bytes, outcome))
    ensures WireInv(NextWire(w, BodyArrives(bytes, outcome)))
  {
    hide WritingOk, Handled;
    var h := w.reading.header;
    var w1 := w.(pendingReads := w.pendingReads - 1, received := w.received + bytes);
    SameWriting(w, w1);
    assert w.received == Frames(w.handled) + EncodeHeader(h);
    assert w1.received == Frames(w.handled) + Frame(Message(h.id, bytes));
    HandledKeeps(w1, Message(h.id, bytes), outcome);
  }

  lemma {:induction false} WriteEndKeeps(w: Wire)
    requires WritingOk(w) && w.pendingWrites > 0 && w.queue != []
    ensures WritingOk(WriteEnded(w))
  {
    hide Frame, Fits;
    var w1, done := WriteEnded(w), |w.sent| - |w.queue|;
    FramesJoin(w.sent[..done], [w.sent[done]]);
    assert Frames([w.sent[done]]) == Frame(w.sent[done]) + [];
    assert w.sent[..done] + [w.sent[done]] == w1.sent[..done + 1];
  }

  /** Every completion, in any order, keeps the order of the packets and leaves an open session with something to do. */
  lemma {:induction false} WireStepKeeps(w: Wire, step: WireStep)
    requires WireInv(w) && CanStep(w, step)
    ensures WireInv(NextWire(w, step))
  {
    hide WritingOk, Frame, Fits, Refuses, FirstSize, SentAll, Sent;
    match step
    case HeaderArrives(bytes, outcome) => HeaderKeeps(w, bytes, outcome);
    case BodyArrives(bytes, outcome) => BodyKeeps(w, bytes, outcome);
    case LoginReply(ms) =>
      SameWriting(w, w.(logins := w.logins - 1));
      SentAllKeeps(w.(logins := w.logins - 1), ms);
    case Send(m) => SentKeeps(w, m);
    case WriteEnds => WriteEndKeeps(w);
    case _ => SameWriting(w, NextWire(w, step));
  }

  // ---------- Runs ----------

  ghost predicate IsWireRun(w: Wire, steps: seq<WireStep>)
    decreases |steps|
  {
    steps == [] || (CanStep(w, steps[0]) && IsWireRun(NextWire(w, steps[0]), steps[1..]))
  }

  ghost function WireAfter(w: Wire, steps: seq<WireStep>): Wire
    requires IsWireRun(w, steps)
    decreases |steps|
  {
    if steps == [] then w else WireAfter(NextWire(w, steps[0]), steps[1..])
  }

  lemma {:induction false} WireRunKeeps(w: Wire, steps: seq<WireStep>)
    requires WireInv(w) && IsWireRun(w, steps)
    ensures WireInv(WireAfter(w, steps))
    decreases |steps|
  {
    hide WireInv, NextWire, CanStep;
    if steps != [] {
      WireStepKeeps(w, steps[0]);
      WireRunKeeps(NextWire(w, steps[0]), steps[1..]);
    }
  }

  /**
    In every run: the messages handled are those that the bytes received spell out;
    the peer that reads any part of what was written finds the first messages sent,
    in their order; an open session never waits for nothing.
   */
  lemma {:induction false} Delivery(steps: seq<WireStep>, cut: seq<Byte>)
    requires IsWireRun(NEW_WIRE, steps) && cut <= WireAfter(NEW_WIRE, steps).written
    ensures var w := WireAfter(NEW_WIRE, steps);
      && w.handled == Taken(w.received)
      && |w.queue| <= |w.sent| && w.pendingWrites <= 1 && w.pendingReads <= 1
      && Taken(cut) <= w.sent
      && Taken(w.written) == w.sent[..|w.sent| - |w.queue|]
      && NeverStalls(w)
  {
    EmptyStream();
    assert WireInv(NEW_WIRE);
    WireRunKeeps(NEW_WIRE, steps);
    hide IsWireRun, WireAfter;
    InvDelivers(WireAfter(NEW_WIRE, steps), cut);
  }

  lemma {:induction false} InvDelivers(w: Wire, cut: seq<Byte>)
    requires WireInv(w) && cut <= w.written
    ensures w.handled == Taken(w.received)
    ensures Taken(cut) <= w.sent && Taken(w.written) == w.sent[..|w.sent| - |w.queue|]
  {
    hide Frame, Fits, Refuses, EncodeHeader;
    var done := w.sent[..|w.sent| - |w.queue|];
    FramesRoundTrip(w.handled, Partial(w));
    assert w.received == Frames(w.handled) + Partial(w);
    assert Taken(Partial(w)) == [];
    hide Frames, FirstSize;
    EmptyStream();
    FramesRoundTrip(done, []);
    assert w.written + [] == w.written && done + [] == done && w.handled + [] == w.handled;
    CutStream(done, cut);
  }

  lemma {:induction false} EmptyStream()
    ensures Taken([]) == []
  {
  }

  /** A peer that sends well-formed messages has the first of them handled, in their order. */
  lemma {:induction false} PeerIsHeard(steps: seq<WireStep>, ms: seq<Message>)
    requires IsWireRun(NEW_WIRE, steps) && AllFit(ms) && WireAfter(NEW_WIRE, steps).received <= Frames(ms)
    ensures WireAfter(NEW_WIRE, steps).handled <= ms
  {
    Delivery(steps, []);
    CutStream(ms, WireAfter(NEW_WIRE, steps).received);
  }
}
