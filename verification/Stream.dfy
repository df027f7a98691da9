/** Whole control packets on a byte stream: ControlPacket.WriteTo and ReadPacket of
    packets/packets.go, and the round trip of a stream of packets. */
module Stream {
  import opened Basics
  import opened Wire
  import opened Bits
  import opened Properties
  import opened Packets

  function Body(p: Packet): Result<seq<byte>> {
    match p
    case ConnectPacket(c) => ConnectBody(c)
    case PublishPacket(m) => PublishBody(m)
    case AckPacket(ack, id, reason, props) => AckBody(ack, id, reason, props)
    case SubscribePacket(id, subs, props) => SubscribeBody(id, subs, props)
    case UnsubscribePacket(id, topics, props) => UnsubscribeBody(id, topics, props)
  }

  /** The first byte: the packet type, and the flags the packet type fixes. */
  function HeaderByte(p: Packet): byte {
    match p
    case ConnectPacket(_) => CONNECT * 16
    case PublishPacket(m) => ToByte(PublishHeader(m))
    case AckPacket(ack, _, _, _) => ack * 16 + (if ack == PUBREL then 2 else 0)
    case SubscribePacket(_, _, _) => SUBSCRIBE * 16 + 2
    case UnsubscribePacket(_, _, _) => UNSUBSCRIBE * 16 + 2
  }

  /** ControlPacket.WriteTo: fails when a length does not fit its field, writes nothing then. */
  function Encode(p: Packet): Result<seq<byte>> {
    var body :- Body(p);
    var size :- EncodeVbi(|body|);
    Ok([HeaderByte(p)] + size + body)
  }

  /** The Unpack method of the packet type named by the first byte. */
  function UnpackBody(first: byte, body: seq<byte>): Result<Packet> {
    var kind := first / 16;
    if kind == CONNECT then
      match UnpackConnect(body)
      case Fail(e) => Err(e)
      case Done(c, _) => Ok(ConnectPacket(c))
    else if kind == PUBLISH then
      var f := FromByte(first);
      var m :- UnpackPublish(body, TwoBits(f.b1, f.b2), f.b3, f.b0);
      Ok(PublishPacket(m))
    else if PUBACK <= kind <= PUBCOMP then UnpackAck(kind, body)
    else if kind == SUBSCRIBE then UnpackSubscribe(body)
    else if kind == UNSUBSCRIBE then UnpackUnsubscribe(body)
    else Err(UnknownType(kind))
  }

  predicate KnownType(kind: byte) {
    kind == CONNECT || PUBLISH <= kind <= SUBSCRIBE || kind == UNSUBSCRIBE
  }

  /** ReadPacket: type, remaining length, then exactly that many bytes for the body. */
  function ReadPacket(s: seq<byte>): (r: Read<Packet>)
    ensures r.Done? ==> |r.rest| < |s|
  {
    var (first, t) :- ReadByte(s);
    if !KnownType(first / 16) then Fail(UnknownType(first / 16))
    else
      var (size, u) :- ReadVbi(t);
      if |u| < size then Fail(if u == [] then EOF else UnexpectedEOF)
      else
        match UnpackBody(first, u[..size])
        case Err(e) => Fail(e)
        case Ok(p) => Done(p, u[size..])
  }

  // ---- One packet ----

  lemma FirstByte(first: byte, size: seq<byte>, body: seq<byte>, rest: seq<byte>)
    ensures var s := [first] + size + body + rest; s[0] == first && s[1..] == size + (body + rest)
  {}

  /** Reading a framed body hands exactly the body to its Unpack method and leaves what follows. */
  lemma ReadFramed(first: byte, body: seq<byte>, rest: seq<byte>)
    requires KnownType(first / 16) && |body| <= MAX_VBI
    ensures ReadPacket([first] + Vbi(|body|) + body + rest)
         == match UnpackBody(first, body)
            case Err(e) => Fail(e)
            case Ok(p) => Done(p, rest)
  {
    hide Vbi, ReadVbi, UnpackBody;
    FirstByte(first, Vbi(|body|), body, rest);
    VbiRoundTrip(|body|, body + rest);
    Cut(body, rest);
  }

  /** Every PUBLISH that can be written, with a two-bit QoS, reads back up to truncation unless it
      carries a reason string. */
  lemma PublishRoundTrip(m: Publish, rest: seq<byte>)
    requires m.qos < 4 && Encode(PublishPacket(m)).Ok?
    ensures var r := ReadPacket(Encode(PublishPacket(m)).value + rest);
      if Readable(m.properties, PUBLISH) then r == Done(PublishPacket(KeptPublish(m)), rest) else r.Fail?
  {
    PublishHeaderReads(m);
    PublishBodyRoundTrip(m);
    ReadFramed(HeaderByte(PublishPacket(m)), PublishBody(m).value, rest);
  }

  lemma PublishBodyReads(m: Publish)
    requires PublishBody(m).Ok? && Faithful(PublishPacket(m))
    ensures UnpackBody(ToByte(PublishHeader(m)), PublishBody(m).value) == Ok(PublishPacket(m))
  {
    PublishHeaderReads(m);
    PublishBodyRoundTrip(m);
    KeptIsFaithful(m);
  }

  lemma AckBodyReads(ack: AckType, id: uint16, reason: byte, props: Properties)
    requires AckBody(ack, id, reason, props).Ok? && PropertiesFaithful(props, ack)
    ensures UnpackBody(HeaderByte(AckPacket(ack, id, reason, props)), AckBody(ack, id, reason, props).value)
         == Ok(AckPacket(ack, id, reason, props))
  {
    AckUnpack(HeaderByte(AckPacket(ack, id, reason, props)), ack, AckBody(ack, id, reason, props).value);
    AckBodyRoundTrip(ack, id, reason, props);
  }

  lemma AckUnpack(first: byte, ack: AckType, body: seq<byte>)
    requires first / 16 == ack
    ensures UnpackBody(first, body) == UnpackAck(ack, body)
  {}

  lemma ListBodyReads(p: Packet)
    requires Body(p).Ok? && Faithful(p) && (p.SubscribePacket? || p.UnsubscribePacket?)
    ensures UnpackBody(HeaderByte(p), Body(p).value) == Ok(p)
  {
    hide Faithful, SubscribeBody, UnsubscribeBody, UnpackSubscribe, UnpackUnsubscribe;
    if p.SubscribePacket? {
      SubscribeBodyRoundTrip(p.packetID, p.subscriptions, p.properties);
    } else {
      UnsubscribeBodyRoundTrip(p.packetID, p.topics, p.properties);
    }
  }

  lemma ConnectBodyReads(c: Connect)
    requires ConnectBody(c).Ok? && Faithful(ConnectPacket(c))
    ensures UnpackBody(CONNECT * 16, ConnectBody(c).value) == Ok(ConnectPacket(c))
  {
    hide ConnectBody, UnpackConnect;
    ConnectBodyRoundTrip(c);
    KeptConnectIsFaithful(c);
  }

  lemma BodyReads(p: Packet)
    requires Body(p).Ok? && Faithful(p)
    ensures UnpackBody(HeaderByte(p), Body(p).value) == Ok(p)
  {
    match p {
      case ConnectPacket(c) => ConnectBodyReads(c);
      case PublishPacket(m) => PublishBodyReads(m);
      case AckPacket(ack, id, reason, props) => AckBodyReads(ack, id, reason, props);
      case _ => ListBodyReads(p);
    }
  }

  lemma HeaderType(p: Packet)
    requires Faithful(p)
    ensures KnownType(HeaderByte(p) / 16)
  {
    if p.PublishPacket? {
      PublishHeaderReads(p.publish);
    }
  }

  /** A faithful packet is read back exactly, and the read consumes exactly the bytes written. */
  lemma PacketRoundTrip(p: Packet, rest: seq<byte>)
    requires Encode(p).Ok? && Faithful(p)
    ensures ReadPacket(Encode(p).value + rest) == Done(p, rest)
  {
    HeaderType(p);
    BodyReads(p);
    ReadFramed(HeaderByte(p), Body(p).value, rest);
  }

  /** Whatever bytes arrive, a packet read from them (CONNECT aside) is one that round trips. */
  lemma ReadIsFaithful(s: seq<byte>)
    requires ReadPacket(s).Done? && !ReadPacket(s).value.ConnectPacket?
    ensures Faithful(ReadPacket(s).value)
  {
    var first, u := s[0], ReadVbi(s[1..]);
    UnpackBodyIsFaithful(first, u.rest[..u.value]);
  }

  lemma UnpackBodyIsFaithful(first: byte, body: seq<byte>)
    requires UnpackBody(first, body).Ok? && !UnpackBody(first, body).value.ConnectPacket?
    ensures Faithful(UnpackBody(first, body).value)
  {
    var kind := first / 16;
    if kind == PUBLISH {
      var f := FromByte(first);
      var t := ReadBin(body).rest;
      UnpackedIsFaithful(if TwoBits(f.b1, f.b2) > 0 then ReadU16(t).rest else t, PUBLISH);
    } else if PUBACK <= kind <= PUBCOMP {
      if |body| > 3 {
        UnpackedIsFaithful(body[2..][1..], PUBACK);
        AckTypesAgree(UnpackBody(first, body).value.properties, kind);
      }
    } else if kind == SUBSCRIBE {
      UnpackedIsFaithful(body[2..], SUBSCRIBE);
      ReadSubsFaithful(Unpack(body[2..], SUBSCRIBE, NoProperties).rest);
    } else if kind == UNSUBSCRIBE {
      UnpackedIsFaithful(body[2..], UNSUBSCRIBE);
      ReadTopicsFaithful(Unpack(body[2..], UNSUBSCRIBE, NoProperties).rest);
    }
  }

  /** Every CONNECT that can be written, with a two-bit QoS of its Will if it has one, reads back up to
      truncation and the properties Pack leaves out. */
  lemma ConnectRoundTrip(c: Connect, rest: seq<byte>)
    requires Encode(ConnectPacket(c)).Ok? && (c.will.Some? ==> c.willQos < 4)
    ensures ReadPacket(Encode(ConnectPacket(c)).value + rest) == Done(ConnectPacket(KeptConnect(c)), rest)
  {
    hide ConnectBody, UnpackConnect, KeptConnect, ReadPacket;
    ConnectBodyRoundTrip(c);
    ReadFramed(CONNECT * 16, ConnectBody(c).value, rest);
  }

  /** A CONNECT that reads back as itself is faithful. */
  lemma ConnectOnlyFaithful(c: Connect, rest: seq<byte>)
    requires Encode(ConnectPacket(c)).Ok?
    requires ReadPacket(Encode(ConnectPacket(c)).value + rest) == Done(ConnectPacket(c), rest)
    ensures Faithful(ConnectPacket(c))
  {
    hide ConnectBody, UnpackConnect, KeptConnect, ReadPacket, Faithful;
    ReadFramed(CONNECT * 16, ConnectBody(c).value, rest);
    ReadWillQos(ConnectBody(c).value);
    ConnectRoundTrip(c, rest);
    KeptConnectIsFaithful(c);
  }

  /** The exact condition for a round trip. */
  lemma RoundTripExactly(p: Packet, rest: seq<byte>)
    requires Encode(p).Ok?
    ensures ReadPacket(Encode(p).value + rest) == Done(p, rest) <==> Faithful(p)
  {
    hide Encode, ReadPacket, Faithful;
    if Faithful(p) {
      PacketRoundTrip(p, rest);
    } else if ReadPacket(Encode(p).value + rest) == Done(p, rest) {
      if p.ConnectPacket? {
        ConnectOnlyFaithful(p.connect, rest);
      } else {
        ReadIsFaithful(Encode(p).value + rest);
      }
    }
  }

  // ---- Streams ----

  /** Packets that WriteTo accepts and a reader gives back. */
  predicate Sendable(p: Packet) {
    Encode(p).Ok? && Faithful(p)
  }

  /** The bytes that reach the writer. */
  function Written(p: Packet): seq<byte> {
    match Encode(p)
    case Ok(bytes) => bytes
    case Err(_) => []
  }

  function WrittenAll(ps: seq<Packet>): seq<byte> {
    if ps == [] then [] else Written(ps[0]) + WrittenAll(ps[1..])
  }

  /** Repeated ReadPacket until the stream ends. */
  function ReadAll(s: seq<byte>): Result<seq<Packet>>
    decreases |s|
  {
    if s == [] then Ok([])
    else
      match ReadPacket(s)
      case Fail(e) => Err(e)
      case Done(p, rest) =>
        var more :- ReadAll(rest);
        Ok([p] + more)
  }

  lemma SendableReads(p: Packet, rest: seq<byte>)
    requires Sendable(p)
    ensures ReadPacket(Written(p) + rest) == Done(p, rest)
  {
    PacketRoundTrip(p, rest);
  }

  /** A stream of packets written one after the other is read back as the same sequence. */
  lemma {:induction false} StreamRoundTrip(ps: seq<Packet>)
    requires forall i | 0 <= i < |ps| :: Sendable(ps[i])
    ensures ReadAll(WrittenAll(ps)) == Ok(ps)
    decreases |ps|
  {
    hide Sendable, Written, ReadPacket;
    if ps != [] {
      SendableReads(ps[0], WrittenAll(ps[1..]));
      StreamRoundTrip(ps[1..]);
      assert [ps[0]] + ps[1..] == ps;
    }
  }

  lemma {:induction false} WrittenAllAppend(a: seq<Packet>, b: seq<Packet>)
    ensures WrittenAll(a + b) == WrittenAll(a) + WrittenAll(b)
    decreases |a|
  {
    hide Written;
    if a == [] {
      assert a + b == b;
    } else {
      assert (a + b)[1..] == a[1..] + b;
      WrittenAllAppend(a[1..], b);
      Associate(Written(a[0]), WrittenAll(a[1..]), WrittenAll(b));
    }
  }
}
