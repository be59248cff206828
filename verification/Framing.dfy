/**
  The packets of a TCP session: a header of six bytes, with the size of the
  packet and the number of the message, both with the high byte first, and a body.
 */
module Framing {
  import opened Wrappers

  type Byte = x: int | 0 <= x < 0x100
  type Word = x: int | 0 <= x < 0x1_0000
  type Long = x: int | 0 <= x < 0x1_0000_0000

  const HEADER := 6
  const MAX_PACKET := 64 * 1024

  datatype Header = Header(size: Long, id: Word)

  datatype Message = Message(id: Word, body: seq<Byte>)

  // ---------- The codec ----------

  function LowByte(n: nat): Byte {
    n % 0x100
  }

  function EncodeHeader(h: Header): (bytes: seq<Byte>)
    ensures |bytes| == HEADER
  {
    [ LowByte(h.size / 0x100_0000), LowByte(h.size / 0x1_0000), LowByte(h.size / 0x100), LowByte(h.size),
      LowByte(h.id / 0x100), LowByte(h.id) ]
  }

  function DecodeHeader(bytes: seq<Byte>): Option<Header>
    requires |bytes| == HEADER
  {
    var size: int := bytes[0] as int * 0x100_0000 + bytes[1] as int * 0x1_0000
      + bytes[2] as int * 0x100 + bytes[3] as int;
    if size < HEADER then None else Some(Header(size, bytes[4] as int * 0x100 + bytes[5] as int))
  }

  /** Four bytes with the high byte first make up every number below 2^32, in one way. */
  lemma {:induction false} LongBytes(n: Long)
    ensures n == LowByte(n / 0x100_0000) * 0x100_0000 + LowByte(n / 0x1_0000) * 0x1_0000
      + LowByte(n / 0x100) * 0x100 + LowByte(n)
  {
    assert n / 0x1_0000 == n / 0x100 / 0x100 && n / 0x100_0000 == n / 0x1_0000 / 0x100;
    assert 0 <= n / 0x100_0000 < 0x100;
  }

  lemma {:induction false} BytesOfLong(a: Byte, b: Byte, c: Byte, d: Byte, n: Long)
    requires n == a * 0x100_0000 + b * 0x1_0000 + c * 0x100 + d
    ensures a == LowByte(n / 0x100_0000) && b == LowByte(n / 0x1_0000) && c == LowByte(n / 0x100) && d == LowByte(n)
  {
    assert n / 0x100 == a * 0x1_0000 + b * 0x100 + c;
    assert n / 0x1_0000 == a * 0x100 + b;
    assert n / 0x100_0000 == a;
  }

  /** The number that bytes make up, the first one weighing most. */
  function Number(bytes: seq<Byte>): nat {
    if bytes == [] then 0 else 256 * Number(bytes[..|bytes| - 1]) + bytes[|bytes| - 1]
  }

  lemma {:induction false} NumberOfFour(a: Byte, b: Byte, c: Byte, d: Byte)
    ensures Number([a, b, c, d]) == 256 * 256 * 256 * a + 256 * 256 * b + 256 * c + d
  {
    NumberOfTwo(a, b);
    assert [a, b, c, d][..3] == [a, b, c] && [a, b, c][..2] == [a, b];
    assert Number([a, b, c]) == 256 * Number([a, b]) + c;
  }

  lemma {:induction false} NumberOfTwo(a: Byte, b: Byte)
    ensures Number([a, b]) == 256 * a + b
  {
    assert [a, b][..1] == [a] && [a][..0] == [];
    assert Number([a]) == 256 * Number([]) + a;
  }

  /** On the wire the first four bytes are the size and the last two the number of the message, high bytes first. */
  lemma {:induction false} WireFormat(h: Header)
    ensures |EncodeHeader(h)| == 6
    ensures Number(EncodeHeader(h)[..4]) == h.size && Number(EncodeHeader(h)[4..]) == h.id
  {
    var b := EncodeHeader(h);
    LongBytes(h.size);
    NumberOfFour(b[0], b[1], b[2], b[3]);
    NumberOfTwo(b[4], b[5]);
    assert b[..4] == [b[0], b[1], b[2], b[3]] && b[4..] == [b[4], b[5]];
    assert h.id == LowByte(h.id / 0x100) * 0x100 + LowByte(h.id);
  }

  /** A header is read from the bytes alone: refused exactly when the size has no room for it. */
  lemma {:induction false} HeaderFromBytes(b: seq<Byte>)
    requires |b| == 6
    ensures DecodeHeader(b).None? <==> Number(b[..4]) < 6
    ensures DecodeHeader(b).Some? ==>
      DecodeHeader(b).value.size == Number(b[..4]) && DecodeHeader(b).value.id == Number(b[4..])
  {
    NumberOfFour(b[0], b[1], b[2], b[3]);
    NumberOfTwo(b[4], b[5]);
    assert b[..4] == [b[0], b[1], b[2], b[3]] && b[4..] == [b[4], b[5]];
  }

  /** Decoding gives back what was encoded, unless the size leaves no room for the header. */
  lemma {:induction false} HeaderRoundTrip(h: Header)
    ensures DecodeHeader(EncodeHeader(h)) == if h.size < HEADER then None else Some(h)
  {
    LongBytes(h.size);
    assert h.id == LowByte(h.id / 0x100) * 0x100 + LowByte(h.id);
  }

  /** Every accepted header is the encoding of exactly what is read from it. */
  lemma {:induction false} HeaderIsOnto(bytes: seq<Byte>)
    requires |bytes| == HEADER && DecodeHeader(bytes).Some?
    ensures EncodeHeader(DecodeHeader(bytes).value) == bytes
  {
    var h := DecodeHeader(bytes).value;
    BytesOfLong(bytes[0], bytes[1], bytes[2], bytes[3], h.size);
    assert h.id / 0x100 == bytes[4];
  }

  // ---------- Frames ----------

  predicate Fits(m: Message) {
    HEADER + |m.body| <= MAX_PACKET
  }

  function Frame(m: Message): seq<Byte>
    requires Fits(m)
  {
    EncodeHeader(Header(HEADER + |m.body|, m.id)) + m.body
  }

  ghost predicate AllFit(ms: seq<Message>) {
    forall i :: 0 <= i < |ms| ==> Fits(ms[i])
  }

  ghost function Frames(ms: seq<Message>): seq<Byte>
    requires AllFit(ms)
  {
    if ms == [] then [] else Frame(ms[0]) + Frames(ms[1..])
  }

  lemma {:induction false} FramesJoin(a: seq<Message>, b: seq<Message>)
    requires AllFit(a) && AllFit(b)
    ensures AllFit(a + b) && Frames(a + b) == Frames(a) + Frames(b)
    decreases |a|
  {
    hide Frame, Fits;
    if a == [] {
      assert a + b == b;
    } else {
      FramesJoin(a[1..], b);
      assert (a + b)[1..] == a[1..] + b;
    }
  }

  lemma {:induction false} FirstThenMore(m: Message, ms: seq<Message>)
    requires Fits(m) && AllFit(ms)
    ensures AllFit([m] + ms) && Frames([m] + ms) == Frame(m) + Frames(ms)
  {
    hide Frame, Fits;
    assert ([m] + ms)[1..] == ms;
  }

  // ---------- The reader ----------

  predicate Refuses(s: seq<Byte>) {
    |s| >= HEADER &&
    var h := DecodeHeader(s[..HEADER]);
    h.None? || h.value.size > MAX_PACKET
  }

  /** From the bytes alone: a stream is refused for a size below six or above 64 KiB, as soon as its header is there. */
  lemma {:induction false} RefusedFor(s: seq<Byte>)
    ensures Refuses(s) <==> |s| >= 6 && (Number(s[..4]) < 6 || Number(s[..4]) > 65536)
    ensures FirstSize(s).Some? <==> |s| >= 6 && 6 <= Number(s[..4]) <= 65536 && |s| >= Number(s[..4])
    ensures FirstSize(s).Some? ==>
      FirstMessage(s).id == Number(s[4..6]) && FirstMessage(s).body == s[6..Number(s[..4])]
  {
    if |s| >= 6 {
      HeaderFromBytes(s[..6]);
      assert s[..6][..4] == s[..4] && s[..6][4..] == s[4..6];
    }
  }

  /** The size of the first packet, once all of it has arrived. */
  function FirstSize(s: seq<Byte>): (size: Option<nat>)
    ensures size.Some? ==> HEADER <= size.value <= |s|
  {
    if |s| < HEADER || Refuses(s) then None
    else
      var h := DecodeHeader(s[..HEADER]).value;
      if |s| < h.size then None else Some(h.size)
  }

  function FirstMessage(s: seq<Byte>): Message
    requires FirstSize(s).Some?
  {
    Message(DecodeHeader(s[..HEADER]).value.id, s[HEADER..FirstSize(s).value])
  }

  /** The messages that a reader takes from a stream, in their order. */
  function Taken(s: seq<Byte>): seq<Message>
    decreases |s|
  {
    if FirstSize(s).None? then [] else [FirstMessage(s)] + Taken(s[FirstSize(s).value..])
  }

  /** What it leaves: an unfinished packet, or a header that it refuses. */
  function Left(s: seq<Byte>): seq<Byte>
    decreases |s|
  {
    if FirstSize(s).None? then s else Left(s[FirstSize(s).value..])
  }

  lemma {:induction false} FirstOfFrame(m: Message, rest: seq<Byte>)
    requires Fits(m)
    ensures !Refuses(Frame(m) + rest)
    ensures FirstSize(Frame(m) + rest) == Some(|Frame(m)|) && FirstMessage(Frame(m) + rest) == m
    ensures (Frame(m) + rest)[|Frame(m)|..] == rest
  {
    var h := Header(HEADER + |m.body|, m.id);
    var s := Frame(m) + rest;
    assert s[..HEADER] == EncodeHeader(h);
    HeaderRoundTrip(h);
    assert s[HEADER..|Frame(m)|] == m.body;
  }

  /** Reading the frames of any messages gives the messages back, whatever follows. */
  lemma {:induction false} FramesRoundTrip(ms: seq<Message>, rest: seq<Byte>)
    requires AllFit(ms)
    ensures Taken(Frames(ms) + rest) == ms + Taken(rest) && Left(Frames(ms) + rest) == Left(rest)
    decreases |ms|
  {
    hide Frame, Fits, Taken, Left;
    if ms == [] {
      assert [] + rest == rest;
    } else {
      var more := Frames(ms[1..]) + rest;
      FramesRoundTrip(ms[1..], rest);
      FrameThenRest(ms[0], more);
      assert Frames(ms) + rest == Frame(ms[0]) + more;
      assert [ms[0]] + (ms[1..] + Taken(rest)) == ms + Taken(rest);
    }
  }

  lemma {:induction false} FrameThenRest(m: Message, rest: seq<Byte>)
    requires Fits(m)
    ensures Taken(Frame(m) + rest) == [m] + Taken(rest) && Left(Frame(m) + rest) == Left(rest)
  {
    FirstOfFrame(m, rest);
    hide Frame, FirstSize, FirstMessage, Refuses;
  }

  lemma {:induction false} FirstIsFrame(s: seq<Byte>)
    requires FirstSize(s).Some?
    ensures Fits(FirstMessage(s)) && s[..FirstSize(s).value] == Frame(FirstMessage(s))
  {
    HeaderIsOnto(s[..HEADER]);
    var size := FirstSize(s).value;
    assert s[..size] == s[..HEADER] + s[HEADER..size];
  }

  /** Whatever arrives: what is taken, framed again, followed by what is left, is the stream. */
  lemma {:induction false} NothingIsLost(s: seq<Byte>)
    ensures AllFit(Taken(s)) && Frames(Taken(s)) + Left(s) == s
    ensures FirstSize(Left(s)).None?
    decreases |s|
  {
    hide Frame, Fits, FirstSize, FirstMessage, Refuses;
    if FirstSize(s).Some? {
      var size := FirstSize(s).value;
      FirstIsFrame(s);
      NothingIsLost(s[size..]);
      FirstThenMore(FirstMessage(s), Taken(s[size..]));
      assert s == s[..size] + s[size..];
    }
  }

  /** A stream cut off anywhere yields the first of its messages, and no other. */
  lemma {:induction false} CutStream(ms: seq<Message>, cut: seq<Byte>)
    requires AllFit(ms) && cut <= Frames(ms)
    ensures Taken(cut) <= ms && !Refuses(Left(cut))
    decreases |ms|
  {
    if ms == [] {
    } else if |cut| >= |Frame(ms[0])| {
      var rest := cut[|Frame(ms[0])|..];
      assert cut == Frame(ms[0]) + rest;
      FirstOfFrame(ms[0], rest);
      CutStream(ms[1..], rest);
    } else {
      assert cut <= Frame(ms[0]);
      CutFrame(ms[0], cut);
    }
  }

  lemma {:induction false} CutFrame(m: Message, cut: seq<Byte>)
    requires Fits(m) && cut <= Frame(m) && |cut| < |Frame(m)|
    ensures FirstSize(cut).None? && !Refuses(cut)
  {
    FirstOfFrame(m, []);
    assert Frame(m) + [] == Frame(m);
    if |cut| >= HEADER {
      assert cut[..HEADER] == Frame(m)[..HEADER];
    }
  }

  // ---------- WebSocket ----------

  /** A WebSocket message is one packet, and its header must state its own size. */
  function ReadWhole(packet: seq<Byte>): Option<Message> {
    if |packet| < HEADER then None
    else
      var h := DecodeHeader(packet[..HEADER]);
      if h.None? || h.value.size != |packet| || h.value.size > MAX_PACKET then None
      else Some(Message(h.value.id, packet[HEADER..]))
  }

  /** A WebSocket message is accepted exactly when it is the frame of a message that fits. */
  lemma {:induction false} WholeIff(packet: seq<Byte>, m: Message)
    ensures ReadWhole(packet) == Some(m) <==> Fits(m) && packet == Frame(m)
  {
    if ReadWhole(packet) == Some(m) {
      HeaderIsOnto(packet[..HEADER]);
      assert packet == packet[..HEADER] + packet[HEADER..];
    }
    if Fits(m) && packet == Frame(m) {
      var h := Header(HEADER + |m.body|, m.id);
      HeaderRoundTrip(h);
      assert packet[..HEADER] == EncodeHeader(h) && packet[HEADER..] == m.body;
    }
  }
}
