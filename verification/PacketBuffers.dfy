/** The Buffers and Unpack methods of the control packets, WriteTo and ReadPacket of packets/packets.go
    over buffers, proved against modules Packets and Stream. */
module PacketBuffers {
  import opened Basics
  import Wire
  import opened Bits
  import opened Properties
  import opened K = Packets
  import S = Stream
  import opened WireBuffers
  import PB = PropertyBuffers

  // ---- Writing ----

  method PublishBuffers(m: Publish) returns (r: Result<seq<byte>>)
    ensures r == PublishBody(m)
  {
    hide Section, Wire.Bin;
    var b := new Buffer([]);
    b.WriteBinary(m.topic);
    if m.qos > 0 {
      b.WriteUint16(m.packetID);
    }
    var _ :- PB.WriteSection(b, m.properties, PUBLISH);
    b.Write(m.payload);
    assert b.data == PublishBody(m).value;
    return Ok(b.data);
  }

  /** PUBREC, PUBREL and PUBCOMP leave an empty property section out; PUBACK writes it. */
  method AckBuffers(ack: AckType, id: uint16, reason: byte, props: Properties) returns (r: Result<seq<byte>>)
    ensures r == AckBody(ack, id, reason, props)
  {
    hide Pack;
    var b := new Buffer([]);
    b.WriteUint16(id);
    b.WriteByte(reason);
    var packed :- PB.Pack(props, ack);
    var size :- EncodeVbi(|packed|);
    if |packed| > 0 || ack == PUBACK {
      b.Write(size);
      b.Write(packed);
    }
    assert b.data == AckBody(ack, id, reason, props).value;
    return Ok(b.data);
  }

  method SubsBuffers(subs: seq<SubOption>) returns (r: seq<byte>)
    ensures r == SubsBytes(subs)
  {
    hide Wire.Bin, SubOptionByte;
    var list := new Buffer([]);
    var i := 0;
    while i < |subs|
      invariant 0 <= i <= |subs|
      invariant list.data + SubsBytes(subs[i..]) == SubsBytes(subs)
    {
      SubsStep(list.data, subs[i..]);
      assert subs[i..][1..] == subs[i + 1..];
      list.WriteBinary(subs[i].topic);
      list.WriteByte(SubOptionByte(subs[i]));
      i := i + 1;
    }
    return list.data;
  }

  method SubscribeBuffers(id: uint16, subs: seq<SubOption>, props: Properties) returns (r: Result<seq<byte>>)
    ensures r == SubscribeBody(id, subs, props)
  {
    hide Section, SubsBytes;
    var list := SubsBuffers(subs);
    var b := new Buffer([]);
    b.WriteUint16(id);
    var _ :- PB.WriteSection(b, props, SUBSCRIBE);
    b.Write(list);
    assert b.data == SubscribeBody(id, subs, props).value;
    return Ok(b.data);
  }

  lemma SubsStep(done: seq<byte>, subs: seq<SubOption>)
    requires subs != []
    ensures done + SubsBytes(subs) == done + Wire.Bin(subs[0].topic) + [SubOptionByte(subs[0])] + SubsBytes(subs[1..])
  {}

  method TopicsBuffers(topics: seq<seq<byte>>) returns (r: seq<byte>)
    ensures r == TopicsBytes(topics)
  {
    hide Wire.Bin;
    var list := new Buffer([]);
    var i := 0;
    while i < |topics|
      invariant 0 <= i <= |topics|
      invariant list.data + TopicsBytes(topics[i..]) == TopicsBytes(topics)
    {
      TopicsStep(list.data, topics[i..]);
      assert topics[i..][1..] == topics[i + 1..];
      list.WriteBinary(topics[i]);
      i := i + 1;
    }
    return list.data;
  }

  method UnsubscribeBuffers(id: uint16, topics: seq<seq<byte>>, props: Properties) returns (r: Result<seq<byte>>)
    ensures r == UnsubscribeBody(id, topics, props)
  {
    hide Section, TopicsBytes;
    var list := TopicsBuffers(topics);
    var b := new Buffer([]);
    b.WriteUint16(id);
    var _ :- PB.WriteSection(b, props, UNSUBSCRIBE);
    b.Write(list);
    assert b.data == UnsubscribeBody(id, topics, props).value;
    return Ok(b.data);
  }

  lemma TopicsStep(done: seq<byte>, topics: seq<seq<byte>>)
    requires topics != []
    ensures done + TopicsBytes(topics) == done + Wire.Bin(topics[0]) + TopicsBytes(topics[1..])
  {}

  method ConnectHeaderBuffers(h: ConnectHeader) returns (r: Result<seq<byte>>)
    ensures r == ConnectHeaderBytes(h)
  {
    hide Section, Wire.Bin, ToByte;
    var b := new Buffer([]);
    b.WriteBinary(h.protocolName);
    b.WriteByte(h.protocolVersion);
    b.WriteByte(ToByte(h.flags));
    b.WriteUint16(h.keepAlive);
    var _ :- PB.WriteSection(b, h.properties, CONNECT);
    assert b.data == ConnectHeaderBytes(h).value;
    return Ok(b.data);
  }

  method WillBuffers(will: Option<Will>) returns (r: Result<seq<byte>>)
    ensures r == WillBytes(will)
  {
    hide Section, Wire.Bin;
    var b := new Buffer([]);
    if will.Some? {
      var _ :- PB.WriteSection(b, will.value.properties, CONNECT);
      b.WriteBinary(will.value.topic);
      b.WriteBinary(will.value.message);
    }
    assert b.data == WillBytes(will).value;
    return Ok(b.data);
  }

  method WriteOptional(b: Buffer, d: Option<seq<byte>>)
    modifies b
    ensures b.data == old(b.data) + OptionalBin(d)
  {
    if d.Some? {
      b.WriteBinary(d.value);
    }
  }

  method ConnectBuffers(c: Connect) returns (r: Result<seq<byte>>)
    ensures r == ConnectBody(c)
  {
    hide ConnectHeaderBytes, WillBytes, OptionalBin, Wire.Bin, ConnectFlags;
    var header :- ConnectHeaderBuffers(ConnectHeaderOf(c));
    var will :- WillBuffers(c.will);
    var b := new Buffer(header);
    b.WriteBinary(c.clientID);
    b.Write(will);
    WriteOptional(b, c.username);
    WriteOptional(b, c.password);
    return Ok(b.data);
  }

  method Buffers(p: Packet) returns (r: Result<seq<byte>>)
    ensures r == S.Body(p)
  {
    match p {
      case ConnectPacket(c) => r := ConnectBuffers(c);
      case PublishPacket(m) => r := PublishBuffers(m);
      case AckPacket(ack, id, reason, props) => r := AckBuffers(ack, id, reason, props);
      case SubscribePacket(id, subs, props) => r := SubscribeBuffers(id, subs, props);
      case UnsubscribePacket(id, topics, props) => r := UnsubscribeBuffers(id, topics, props);
    }
  }

  lemma WrittenIs(p: Packet, header: seq<byte>, body: seq<byte>)
    requires S.Body(p) == Ok(body) && |body| <= Wire.MAX_VBI && header == [S.HeaderByte(p)] + Wire.Vbi(|body|)
    ensures S.Encode(p).Ok? && S.Written(p) == header + body
  {
    hide S.Body, S.HeaderByte, Wire.Vbi;
  }

  lemma WrittenNot(p: Packet)
    requires S.Body(p).Err? || |S.Body(p).value| > Wire.MAX_VBI
    ensures S.Encode(p).Err? && S.Written(p) == []
  {
    hide S.Body;
  }

  /** ControlPacket.WriteTo: nothing reaches the writer when the packet cannot be encoded. */
  method WriteTo(p: Packet, w: Buffer) returns (r: Result<()>)
    modifies w
    ensures r.Ok? <==> S.Encode(p).Ok?
    ensures w.data == old(w.data) + S.Written(p)
  {
    hide S.Body, S.HeaderByte, S.Encode, S.Written, Wire.Vbi;
    var body := Buffers(p);
    if body.Err? {
      WrittenNot(p);
      return Err(body.error);
    }
    var header := new Buffer([]);
    header.WriteByte(S.HeaderByte(p));
    var ok := header.WriteVbi(|body.value|);
    if !ok {
      WrittenNot(p);
      return Err(TooLong);
    }
    assert header.data == [S.HeaderByte(p)] + Wire.Vbi(|body.value|);
    WrittenIs(p, header.data, body.value);
    Associate(w.data, header.data, body.value);
    w.Write(header.data);
    w.Write(body.value);
    return Ok(());
  }

  // ---- Reading ----

  /** The elements read before those of a result. */
  ghost function After<T>(done: seq<T>, r: Result<seq<T>>): Result<seq<T>> {
    match r
    case Ok(more) => Ok(done + more)
    case Err(e) => Err(e)
  }

  lemma AfterNone<T>(r: Result<seq<T>>)
    ensures After([], r) == r
  {
    if r.Ok? {
      assert [] + r.value == r.value;
    }
  }

  lemma AfterNothing<T>(done: seq<T>)
    ensures After(done, Ok([])) == Ok(done)
  {
    assert done + [] == done;
  }

  /** One more element read before the rest. */
  lemma AfterOne<T>(done: seq<T>, x: T, r: Result<seq<T>>)
    ensures After(done + [x], r)
         == match r
            case Ok(more) => After(done, Ok([x] + more))
            case Err(e) => Err(e)
  {
    if r.Ok? {
      assert done + ([x] + r.value) == (done + [x]) + r.value;
    }
  }

  method UnpackPublish(b: Buffer, qos: byte, duplicate: bool, retain: bool) returns (r: Result<Publish>)
    modifies b
    ensures r == K.UnpackPublish(old(b.data), qos, duplicate, retain)
  {
    hide Unpack, Wire.ReadBin;
    var topic :- b.ReadBinary();
    var id: uint16 := 0;
    if qos > 0 {
      id :- b.ReadUint16();
    }
    var props :- PB.Unpack(b, PUBLISH, NoProperties);
    return Ok(Publish(topic, b.data, props, id, qos, duplicate, retain));
  }

  method UnpackAck(ack: AckType, b: Buffer) returns (r: Result<Packet>)
    modifies b
    ensures r == K.UnpackAck(ack, old(b.data))
  {
    hide Unpack;
    var success := |b.data| == 2;
    var noProps := |b.data| == 3;
    var id :- b.ReadUint16();
    var reason: byte, props := 0, NoProperties;
    if !success {
      reason :- b.ReadByte();
      if !noProps {
        props :- PB.Unpack(b, PUBACK, NoProperties);
      }
    }
    return Ok(AckPacket(ack, id, reason, props));
  }

  method UnpackSubscribe(b: Buffer) returns (r: Result<Packet>)
    modifies b
    ensures r == K.UnpackSubscribe(old(b.data))
  {
    hide Unpack, Wire.ReadBin;
    var id :- b.ReadUint16();
    var props :- PB.Unpack(b, SUBSCRIBE, NoProperties);
    var subs := [];
    ghost var all := b.data;
    AfterNone(ReadSubs(all));
    while |b.data| > 0
      invariant ReadSubs(all) == After(subs, ReadSubs(b.data))
      decreases |b.data|
    {
      ghost var left := b.data;
      var topic :- b.ReadBinary();
      var options :- b.ReadByte();
      SubsReadStep(subs, left);
      subs := subs + [SubOptionFrom(topic, options)];
    }
    AfterNothing(subs);
    return Ok(SubscribePacket(id, subs, props));
  }

  lemma SubsReadStep(done: seq<SubOption>, s: seq<byte>)
    requires s != [] && Wire.ReadBin(s).Done? && Wire.ReadByte(Wire.ReadBin(s).rest).Done?
    ensures var topic := Wire.ReadBin(s);
      var options := Wire.ReadByte(topic.rest);
      After(done, ReadSubs(s)) == After(done + [SubOptionFrom(topic.value, options.value)], ReadSubs(options.rest))
  {
    var topic := Wire.ReadBin(s);
    var options := Wire.ReadByte(topic.rest);
    AfterOne(done, SubOptionFrom(topic.value, options.value), ReadSubs(options.rest));
  }

  method UnpackUnsubscribe(b: Buffer) returns (r: Result<Packet>)
    modifies b
    ensures r == K.UnpackUnsubscribe(old(b.data))
  {
    hide Unpack, Wire.ReadBin;
    var id :- b.ReadUint16();
    var props :- PB.Unpack(b, UNSUBSCRIBE, NoProperties);
    var topics := [];
    ghost var all := b.data;
    AfterNone(ReadTopics(all));
    while true
      invariant ReadTopics(all) == After(topics, ReadTopics(b.data))
      decreases |b.data|
    {
      ghost var left := b.data;
      var topic := b.ReadBinary();
      TopicsReadStep(topics, left);
      if topic.Err? && topic.error != EOF {
        return Err(topic.error);
      }
      if topic.Err? {
        return Ok(UnsubscribePacket(id, topics, props));
      }
      topics := topics + [topic.value];
    }
  }

  lemma TopicsReadStep(done: seq<seq<byte>>, s: seq<byte>)
    ensures After(done, ReadTopics(s))
         == match Wire.ReadBin(s)
            case Fail(e) => (if e == EOF then Ok(done) else Err(e))
            case Done(topic, t) => After(done + [topic], ReadTopics(t))
  {
    match Wire.ReadBin(s) {
      case Fail(e) => AfterNothing(done);
      case Done(topic, t) => AfterOne(done, topic, ReadTopics(t));
    }
  }

  method UnpackWill(b: Buffer) returns (r: Result<Will>)
    modifies b
    ensures Reads(r, b.data, ReadWill(old(b.data)))
  {
    hide Unpack, Wire.ReadBin;
    var props :- PB.Unpack(b, CONNECT, NoProperties);
    var topic :- b.ReadBinary();
    var message :- b.ReadBinary();
    return Ok(Will(topic, message, props));
  }

  method UnpackConnectHeader(b: Buffer) returns (r: Result<ConnectHeader>)
    modifies b
    ensures Reads(r, b.data, ReadConnectHeader(old(b.data)))
  {
    hide Unpack, Wire.ReadBin, FromByte;
    var name :- b.ReadBinary();
    var version :- b.ReadByte();
    var flags :- b.ReadByte();
    var keepAlive :- b.ReadUint16();
    var props :- PB.Unpack(b, CONNECT, NoProperties);
    return Ok(ConnectHeader(name, version, FromByte(flags), keepAlive, props));
  }

  /** What follows is driven by the flags. */
  method UnpackConnect(b: Buffer) returns (r: Result<Connect>)
    modifies b
    ensures Reads(r, b.data, K.UnpackConnect(old(b.data)))
  {
    hide Wire.ReadBin, ReadWill, ReadConnectHeader;
    var h :- UnpackConnectHeader(b);
    var clientID :- b.ReadBinary();
    var will, username, password := None, None, None;
    if h.flags.b2 {
      var w :- UnpackWill(b);
      will := Some(w);
    }
    if h.flags.b7 {
      var u :- b.ReadBinary();
      username := Some(u);
    }
    if h.flags.b6 {
      var p :- b.ReadBinary();
      password := Some(p);
    }
    return Ok(Connect(h.protocolName, h.protocolVersion, h.flags.b1, h.keepAlive, h.properties, clientID, will,
                      TwoBits(h.flags.b3, h.flags.b4), h.flags.b5, username, password));
  }

  method UnpackBody(first: byte, b: Buffer) returns (r: Result<Packet>)
    modifies b
    ensures r == S.UnpackBody(first, old(b.data))
  {
    hide K.UnpackConnect, K.UnpackPublish, K.UnpackAck, K.UnpackSubscribe, K.UnpackUnsubscribe, FromByte;
    var kind := first / 16;
    if kind == CONNECT {
      var c :- UnpackConnect(b);
      return Ok(ConnectPacket(c));
    } else if kind == PUBLISH {
      var f := FromByte(first);
      var m :- UnpackPublish(b, TwoBits(f.b1, f.b2), f.b3, f.b0);
      return Ok(PublishPacket(m));
    } else if PUBACK <= kind <= PUBCOMP {
      r := UnpackAck(kind, b);
    } else if kind == SUBSCRIBE {
      r := UnpackSubscribe(b);
    } else if kind == UNSUBSCRIBE {
      r := UnpackUnsubscribe(b);
    } else {
      return Err(UnknownType(kind));
    }
  }

  method ReadPacket(b: Buffer) returns (r: Result<Packet>)
    modifies b
    ensures Reads(r, b.data, S.ReadPacket(old(b.data)))
  {
    hide S.UnpackBody, Wire.ReadVbi;
    var first :- b.ReadByte();
    if !S.KnownType(first / 16) {
      return Err(UnknownType(first / 16));
    }
    var size :- b.ReadVbi();
    if |b.data| < size {
      return Err(if b.data == [] then EOF else UnexpectedEOF);
    }
    var body := new Buffer(b.data[..size]);
    b.data := b.data[size..];
    r := UnpackBody(first, body);
  }

  /** Writing packets to a buffer and reading until it is empty gives the packets back. */
  method Transfer(ps: seq<Packet>, wire: Buffer) returns (received: seq<Packet>)
    requires wire.data == [] && forall i | 0 <= i < |ps| :: S.Sendable(ps[i])
    modifies wire
    ensures received == ps && wire.data == []
  {
    hide S.Sendable, S.ReadPacket, S.Encode, S.Written;
    var i := 0;
    while i < |ps|
      invariant 0 <= i <= |ps| && wire.data == S.WrittenAll(ps[..i])
    {
      S.WrittenAllAppend(ps[..i], [ps[i]]);
      assert ps[..i + 1] == ps[..i] + [ps[i]];
      WrittenOne(ps[i]);
      var _ := WriteTo(ps[i], wire);
      i := i + 1;
    }
    assert ps[..i] == ps;
    S.StreamRoundTrip(ps);
    received := [];
    AfterNone(S.ReadAll(wire.data));
    while wire.data != []
      invariant After(received, S.ReadAll(wire.data)) == Ok(ps)
      decreases |wire.data|
    {
      ghost var left := wire.data;
      ReadStep(received, left);
      var p := ReadPacket(wire);
      received := received + [p.value];
    }
    AfterNothing(received);
  }

  lemma WrittenOne(p: Packet)
    ensures S.WrittenAll([p]) == S.Written(p)
  {
    assert S.Written(p) + [] == S.Written(p);
  }

  lemma ReadStep(done: seq<Packet>, s: seq<byte>)
    requires s != [] && After(done, S.ReadAll(s)).Ok?
    ensures S.ReadPacket(s).Done?
    ensures After(done, S.ReadAll(s))
         == After(done + [S.ReadPacket(s).value], S.ReadAll(S.ReadPacket(s).rest))
  {
    hide S.ReadPacket;
    var p := S.ReadPacket(s);
    assert p.Done?;
    AfterOne(done, p.value, S.ReadAll(p.rest));
  }
}
