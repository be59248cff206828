/** The socket side of the class `TcpSession`: each completion handler is a step of the connection. */
module Connections {
  import opened Framing
  import opened Wires

  class Connection {
    var reading: Reading
    /** The reads that were started and whose handlers were not yet called. */
    var pendingReads: nat
    var queue: seq<seq<Byte>>
    /** The writes that were started and whose handlers were not yet called. */
    var pendingWrites: nat
    var logins: nat
    var closed: bool
    ghost var received: seq<Byte>
    ghost var handled: seq<Message>
    ghost var sent: seq<Message>
    ghost var written: seq<Byte>

    ghost function State(): Wire
      reads this
    {
      Wire(reading, pendingReads, queue, pendingWrites, logins, closed, received, handled, sent, written)
    }

    ghost predicate Valid()
      reads this
    {
      WireInv(State())
    }

    constructor ()
      ensures State() == NEW_WIRE && Valid()
    {
      reading, pendingReads, queue, pendingWrites, logins, closed := ReadingHeader, 1, [], 0, 0, false;
      received, handled, sent, written := [], [], [], [];
      new;
      EmptyStream();
    }

    /** `send_packet`: an oversized packet closes the session instead. */
    method SendPacket(m: Message)
      modifies this
      ensures State() == Sent(old(State()), m)
      ensures closed <==> old(closed) || 6 + |m.body| > 65536
      ensures sent == if 6 + |m.body| <= 65536 then old(sent) + [m] else old(sent)
    {
      if HEADER + |m.body| > MAX_PACKET {
        closed := true;
        return;
      }
      var startWrite := queue == [];
      queue := queue + [EncodeHeader(Header(HEADER + |m.body|, m.id)) + m.body];
      sent := sent + [m];
      if startWrite {
        pendingWrites := pendingWrites + 1;
      }
    }

    method SendAll(ms: seq<Message>)
      modifies this
      ensures State() == SentAll(old(State()), ms)
    {
      for i := 0 to |ms|
        invariant State() == SentAll(old(State()), ms[..i])
      {
        assert ms[..i + 1][..i] == ms[..i];
        SendPacket(ms[i]);
      }
      assert ms[..|ms|] == ms;
    }

    /** What the handler of one packet does to its own connection. */
    method HandlePacket(m: Message, outcome: Outcome)
      modifies this
      ensures State() == Handled(old(State()), m, outcome)
    {
      reading := NotReading;
      handled := handled + [m];
      match outcome {
        case Closing => closed := true;
        case LoginAsked => logins := logins + 1;
        case Replies(ms) => SendAll(ms);
      }
    }

    method HeaderArrived(bytes: seq<Byte>, outcome: Outcome)
      requires Valid() && CanStep(State(), HeaderArrives(bytes, outcome))
      modifies this
      ensures Valid() && State() == NextWire(old(State()), HeaderArrives(bytes, outcome))
    {
      WireStepKeeps(State(), HeaderArrives(bytes, outcome));
      hide WireInv;
      pendingReads := pendingReads - 1;
      received := received + bytes;
      var h := DecodeHeader(bytes);
      if h.None? || h.value.size > MAX_PACKET {
        reading, closed := Over, true;
      } else if h.value.size == HEADER {
        HandlePacket(Message(h.value.id, []), outcome);
      } else {
        reading := ReadingBody(h.value);
        pendingReads := pendingReads + 1;
      }
    }

    method BodyArrived(bytes: seq<Byte>, outcome: Outcome)
      requires Valid() && CanStep(State(), BodyArrives(bytes, outcome))
      modifies this
      ensures Valid() && State() == NextWire(old(State()), BodyArrives(bytes, outcome))
    {
      WireStepKeeps(State(), BodyArrives(bytes, outcome));
      hide WireInv;
      pendingReads := pendingReads - 1;
      received := received + bytes;
      HandlePacket(Message(reading.header.id, bytes), outcome);
    }

    method ReadFailed()
      requires Valid() && CanStep(State(), ReadFails)
      modifies this
      ensures Valid() && State() == NextWire(old(State()), ReadFails)
    {
      WireStepKeeps(State(), ReadFails);
      reading, pendingReads, closed := Over, pendingReads - 1, true;
    }

    method LoginReplied(ms: seq<Message>)
      requires Valid() && CanStep(State(), LoginReply(ms))
      modifies this
      ensures Valid() && State() == NextWire(old(State()), LoginReply(ms))
    {
      WireStepKeeps(State(), LoginReply(ms));
      hide WireInv;
      logins := logins - 1;
      SendAll(ms);
    }

    /** A write is complete: the next one starts, or a read if none is under way. */
    method WriteArrived()
      requires Valid() && CanStep(State(), WriteEnds)
      modifies this
      ensures Valid() && State() == NextWire(old(State()), WriteEnds)
    {
      WireStepKeeps(State(), WriteEnds);
      hide WireInv;
      written := written + queue[0];
      queue := queue[1..];
      if queue != [] {
        return;
      }
      pendingWrites := pendingWrites - 1;
      if reading == NotReading {
        reading := ReadingHeader;
        pendingReads := pendingReads + 1;
      }
    }

    method WriteFailed()
      requires Valid() && CanStep(State(), WriteFails)
      modifies this
      ensures Valid() && State() == NextWire(old(State()), WriteFails)
    {
      WireStepKeeps(State(), WriteFails);
      pendingWrites, closed := pendingWrites - 1, true;
    }
  }
}
