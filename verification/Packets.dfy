/** The packet bodies of packets/: CONNECT, PUBLISH, the four publish acknowledgements, SUBSCRIBE
    and UNSUBSCRIBE. For each: the bytes its Buffers method produces, the packet its Unpack method
    reads, and the round trip between them. */
module Packets {
  import opened Basics
  import opened Wire
  import opened Bits
  import opened Properties

  /** The acknowledgements of a PUBLISH share one layout. */
  type AckType = t: byte | PUBACK <= t <= PUBCOMP witness PUBACK

  datatype Publish = Publish(
    topic: seq<byte>,
    payload: seq<byte>,
    properties: Properties,
    packetID: uint16,
    qos: byte,
    duplicate: bool,
    retain: bool)

  datatype Will = Will(
    topic: seq<byte>,
    message: seq<byte>,
    properties: Properties)

  /** CONNECT. The source keeps the Will, user name and password beside flags that say whether they
      are sent; the flags are the options here, and qos and retain are those of the Will. */
  datatype Connect = Connect(
    protocolName: seq<byte>,
    protocolVersion: byte,
    cleanStart: bool,
    keepAlive: uint16,
    properties: Properties,
    clientID: seq<byte>,
    will: Option<Will>,
    willQos: byte,
    willRetain: bool,
    username: Option<seq<byte>>,
    password: Option<seq<byte>>)

  datatype SubOption = SubOption(
    topic: seq<byte>,
    qos: byte,
    retainHandling: byte,
    noLocal: bool,
    retainAsPublished: bool)

  datatype Packet =
    | ConnectPacket(connect: Connect)
    | PublishPacket(publish: Publish)
    | AckPacket(ack: AckType, packetID: uint16, reasonCode: byte, properties: Properties)
    | SubscribePacket(packetID: uint16, subscriptions: seq<SubOption>, properties: Properties)
    | UnsubscribePacket(packetID: uint16, topics: seq<seq<byte>>, properties: Properties)

  // ---- Flag bytes ----

  /** The fixed-header byte of a PUBLISH: type 3 in the high half, and QoS << 1, DUP and RETAIN
      or-ed in. */
  function PublishHeader(p: Publish): Flags {
    var q := FromByte(p.qos);
    Flags(p.retain, q.b0, q.b1, q.b2 || p.duplicate, true, true, q.b5, q.b6)
  }

  /** A QoS of two bits leaves every flag of the header byte where a reader looks for it. */
  lemma PublishHeaderReads(p: Publish)
    requires p.qos < 4
    ensures var b := ToByte(PublishHeader(p));
      && b / 16 == PUBLISH
      && TwoBits(FromByte(b).b1, FromByte(b).b2) == p.qos
      && FromByte(b).b3 == p.duplicate
      && FromByte(b).b0 == p.retain
  {
    BitsOfByte(PublishHeader(p));
    SmallByte(p.qos);
  }

  /** Connect.PackFlags: the Will bits, with WillQOS << 3, are or-ed in only when there is a Will. */
  function ConnectFlags(c: Connect): Flags {
    var q, w := FromByte(c.willQos), c.will.Some?;
    Flags(false, c.cleanStart, w, w && q.b0, w && q.b1, w && (q.b2 || c.willRetain),
          c.password.Some? || (w && q.b3), c.username.Some? || (w && q.b4))
  }

  function SubOptionByte(o: SubOption): byte {
    o.qos % 4 + Bit(o.noLocal) * 4 + Bit(o.retainAsPublished) * 8 + o.retainHandling % 4 * 16
  }

  // ---- Writing ----

  function PublishBody(p: Publish): Result<seq<byte>> {
    var section :- Section(p.properties, PUBLISH);
    Ok(Bin(p.topic) + (if p.qos > 0 then U16(p.packetID) else []) + section + p.payload)
  }

  /** PUBACK always writes the property length; the others leave it out when there is nothing to follow. */
  function AckBody(ack: AckType, packetID: uint16, reasonCode: byte, properties: Properties): Result<seq<byte>> {
    var packed :- Pack(properties, ack);
    var size :- EncodeVbi(|packed|);
    Ok(U16(packetID) + [reasonCode] + (if packed != [] || ack == PUBACK then size + packed else []))
  }

  function SubsBytes(subs: seq<SubOption>): seq<byte> {
    if subs == [] then [] else Bin(subs[0].topic) + [SubOptionByte(subs[0])] + SubsBytes(subs[1..])
  }

  function SubscribeBody(packetID: uint16, subs: seq<SubOption>, properties: Properties): Result<seq<byte>> {
    var section :- Section(properties, SUBSCRIBE);
    Ok(U16(packetID) + section + SubsBytes(subs))
  }

  function TopicsBytes(topics: seq<seq<byte>>): seq<byte> {
    if topics == [] then [] else Bin(topics[0]) + TopicsBytes(topics[1..])
  }

  function UnsubscribeBody(packetID: uint16, topics: seq<seq<byte>>, properties: Properties): Result<seq<byte>> {
    var section :- Section(properties, UNSUBSCRIBE);
    Ok(U16(packetID) + section + TopicsBytes(topics))
  }

  function WillBytes(will: Option<Will>): Result<seq<byte>> {
    match will
    case None => Ok([])
    case Some(w) =>
      var section :- Section(w.properties, CONNECT);
      Ok(section + Bin(w.topic) + Bin(w.message))
  }

  function OptionalBin(d: Option<seq<byte>>): seq<byte> {
    match d
    case None => []
    case Some(b) => Bin(b)
  }

  /** The variable header of CONNECT. */
  datatype ConnectHeader = ConnectHeader(
    protocolName: seq<byte>, protocolVersion: byte, flags: Flags, keepAlive: uint16, properties: Properties)

  function ConnectHeaderOf(c: Connect): ConnectHeader {
    ConnectHeader(c.protocolName, c.protocolVersion, ConnectFlags(c), c.keepAlive, c.properties)
  }

  function ConnectHeaderBytes(h: ConnectHeader): Result<seq<byte>> {
    var section :- Section(h.properties, CONNECT);
    Ok(Bin(h.protocolName) + [h.protocolVersion, ToByte(h.flags)] + U16(h.keepAlive) + section)
  }

  function ConnectBody(c: Connect): Result<seq<byte>> {
    var header :- ConnectHeaderBytes(ConnectHeaderOf(c));
    var will :- WillBytes(c.will);
    Ok(header + Bin(c.clientID) + will + OptionalBin(c.username) + OptionalBin(c.password))
  }

  // ---- Reading ----

  function UnpackPublish(s: seq<byte>, qos: byte, duplicate: bool, retain: bool): Result<Publish> {
    match ReadBin(s)
    case Fail(e) => Err(e)
    case Done(topic, t) =>
      match if qos > 0 then ReadU16(t) else Done(0, t)
      case Fail(e) => Err(e)
      case Done(id, u) =>
        match Unpack(u, PUBLISH, NoProperties)
        case Fail(e) => Err(e)
        case Done(props, payload) => Ok(Publish(topic, payload, props, id, qos, duplicate, retain))
  }

  /** Two bytes mean success, three a reason code without properties. */
  function UnpackAck(ack: AckType, s: seq<byte>): Result<Packet> {
    match ReadU16(s)
    case Fail(e) => Err(e)
    case Done(id, t) =>
      if |s| == 2 then Ok(AckPacket(ack, id, 0, NoProperties))
      else
        match ReadByte(t)
        case Fail(e) => Err(e)
        case Done(reason, u) =>
          if |s| == 3 then Ok(AckPacket(ack, id, reason, NoProperties))
          else
            match Unpack(u, PUBACK, NoProperties)
            case Fail(e) => Err(e)
            case Done(props, _) => Ok(AckPacket(ack, id, reason, props))
  }

  function SubOptionFrom(topic: seq<byte>, b: byte): SubOption {
    SubOption(topic, b % 4, b / 16 % 4, b / 4 % 2 == 1, b / 8 % 2 == 1)
  }

  function ReadSubs(s: seq<byte>): Result<seq<SubOption>>
    decreases |s|
  {
    if s == [] then Ok([])
    else
      match ReadBin(s)
      case Fail(e) => Err(e)
      case Done(topic, t) =>
        match ReadByte(t)
        case Fail(e) => Err(e)
        case Done(b, u) =>
          var more :- ReadSubs(u);
          Ok([SubOptionFrom(topic, b)] + more)
  }

  function UnpackSubscribe(s: seq<byte>): Result<Packet> {
    match ReadU16(s)
    case Fail(e) => Err(e)
    case Done(id, t) =>
      match Unpack(t, SUBSCRIBE, NoProperties)
      case Fail(e) => Err(e)
      case Done(props, u) =>
        var subs :- ReadSubs(u);
        Ok(SubscribePacket(id, subs, props))
  }

  /** The list of topics ends at the first end-of-file error, even one inside a length. */
  function ReadTopics(s: seq<byte>): Result<seq<seq<byte>>>
    decreases |s|
  {
    match ReadBin(s)
    case Fail(e) => if e == EOF then Ok([]) else Err(e)
    case Done(topic, t) =>
      var more :- ReadTopics(t);
      Ok([topic] + more)
  }

  function UnpackUnsubscribe(s: seq<byte>): Result<Packet> {
    match ReadU16(s)
    case Fail(e) => Err(e)
    case Done(id, t) =>
      match Unpack(t, UNSUBSCRIBE, NoProperties)
      case Fail(e) => Err(e)
      case Done(props, u) =>
        var topics :- ReadTopics(u);
        Ok(UnsubscribePacket(id, topics, props))
  }

  function ReadWill(s: seq<byte>): Read<Will> {
    var (props, t) :- Unpack(s, CONNECT, NoProperties);
    var (topic, u) :- ReadBin(t);
    var (message, v) :- ReadBin(u);
    Done(Will(topic, message, props), v)
  }

  function ReadOptional<T>(present: bool, s: seq<byte>, read: seq<byte> -> Read<T>): Read<Option<T>> {
    if present then
      var (v, t) :- read(s);
      Done(Some(v), t)
    else Done(None, s)
  }

  function ReadConnectHeader(s: seq<byte>): Read<ConnectHeader> {
    var (name, s1) :- ReadBin(s);
    var (version, s2) :- ReadByte(s1);
    var (flags, s3) :- ReadByte(s2);
    var (keepAlive, s4) :- ReadU16(s3);
    var (props, s5) :- Unpack(s4, CONNECT, NoProperties);
    Done(ConnectHeader(name, version, FromByte(flags), keepAlive, props), s5)
  }

  function UnpackConnect(s: seq<byte>): Read<Connect> {
    var (h, s1) :- ReadConnectHeader(s);
    var (clientID, s2) :- ReadBin(s1);
    var (will, s3) :- ReadOptional(h.flags.b2, s2, ReadWill);
    var (username, s4) :- ReadOptional(h.flags.b7, s3, ReadBin);
    var (password, s5) :- ReadOptional(h.flags.b6, s4, ReadBin);
    Done(Connect(h.protocolName, h.protocolVersion, h.flags.b1, h.keepAlive, h.properties, clientID, will,
                 TwoBits(h.flags.b3, h.flags.b4), h.flags.b5, username, password), s5)
  }

  // ---- What round trips ----

  predicate PropertiesFaithful(p: Properties, t: byte) {
    Canonical(p, t) && Readable(p, t)
  }

  /** The packets a reader gives back exactly as they were written. */
  predicate Faithful(p: Packet) {
    match p
    case ConnectPacket(c) =>
      && |c.protocolName| <= MAX_STRING
      && |c.clientID| <= MAX_STRING
      && c.willQos < 4
      && PropertiesFaithful(c.properties, CONNECT)
      && (c.will.None? ==> c.willQos == 0 && !c.willRetain)
      && (c.will.Some? ==>
            && |c.will.value.topic| <= MAX_STRING
            && |c.will.value.message| <= MAX_STRING
            && PropertiesFaithful(c.will.value.properties, CONNECT))
      && (c.username.Some? ==> |c.username.value| <= MAX_STRING)
      && (c.password.Some? ==> |c.password.value| <= MAX_STRING)
    case PublishPacket(m) =>
      && |m.topic| <= MAX_STRING
      && m.qos < 4
      && (m.qos == 0 ==> m.packetID == 0)
      && PropertiesFaithful(m.properties, PUBLISH)
    case AckPacket(ack, _, _, props) => PropertiesFaithful(props, ack)
    case SubscribePacket(_, subs, props) =>
      && (forall i | 0 <= i < |subs| :: |subs[i].topic| <= MAX_STRING && subs[i].qos < 4 && subs[i].retainHandling < 4)
      && PropertiesFaithful(props, SUBSCRIBE)
    case UnsubscribePacket(_, topics, props) =>
      && (forall i | 0 <= i < |topics| :: |topics[i]| <= MAX_STRING)
      && PropertiesFaithful(props, UNSUBSCRIBE)
  }

  // ---- Body round trips ----

  lemma SectionRoundTrip(p: Properties, t: byte, rest: seq<byte>)
    requires HasProperties(t) && Section(p, t).Ok? && PropertiesFaithful(p, t)
    ensures Unpack(Section(p, t).value + rest, t, NoProperties) == Done(p, rest)
  {
    PropertiesRoundTrip(p, t, rest);
    SelectedIsAll(p, t);
  }

  /** What is left of a PUBLISH after a trip over the wire. */
  function KeptPublish(p: Publish): Publish {
    p.(topic := Truncated(p.topic),
       properties := Selected(p.properties, PUBLISH),
       packetID := if p.qos > 0 then p.packetID else 0)
  }

  lemma PublishParts(s: seq<byte>, p: Publish, s1: seq<byte>, s2: seq<byte>)
    requires ReadBin(s) == Done(p.topic, s1)
    requires (if p.qos > 0 then ReadU16(s1) else Done(0, s1)) == Done(p.packetID, s2)
    ensures UnpackPublish(s, p.qos, p.duplicate, p.retain)
         == match Unpack(s2, PUBLISH, NoProperties)
            case Fail(e) => Err(e)
            case Done(props, payload) => Ok(p.(properties := props, payload := payload))
  {}

  /** Every PUBLISH body that can be written is read back up to truncation, unless it carries a
      reason string, which the reader refuses. */
  lemma PublishBodyRoundTrip(p: Publish)
    requires PublishBody(p).Ok?
    ensures var r := UnpackPublish(PublishBody(p).value, p.qos, p.duplicate, p.retain);
      if Readable(p.properties, PUBLISH) then r == Ok(KeptPublish(p)) else r.Err?
  {
    var section := Section(p.properties, PUBLISH).value;
    var id := if p.qos > 0 then U16(p.packetID) else [];
    Reassociate4(Bin(p.topic), id, section, p.payload);
    BinRoundTrip(p.topic, id + (section + p.payload));
    if p.qos > 0 {
      U16RoundTrip(p.packetID, section + p.payload);
    } else {
      assert id + (section + p.payload) == section + p.payload;
    }
    PropertiesRoundTrip(p.properties, PUBLISH, p.payload);
    PublishParts(Bin(p.topic) + (id + (section + p.payload)), KeptPublish(p),
                 id + (section + p.payload), section + p.payload);
  }

  /** What is kept of a PUBLISH has the same body. */
  lemma KeptBody(p: Publish)
    requires PublishBody(p).Ok?
    ensures PublishBody(KeptPublish(p)) == PublishBody(p)
  {
    hide Pack;
    PackSelected(p.properties, PUBLISH);
    TruncatedTwice(p.topic);
  }

  lemma TruncatedTwice(d: seq<byte>)
    ensures Bin(Truncated(d)) == Bin(d)
  {}

  lemma KeptIsFaithful(p: Publish)
    requires p.qos < 4 && Readable(p.properties, PUBLISH)
    ensures KeptPublish(p) == p <==> Faithful(PublishPacket(p))
  {
    SelectedIsAll(p.properties, PUBLISH);
  }

  /** PUBREC, PUBREL and PUBCOMP pack for their own type and unpack for PUBACK; the two agree. */
  lemma AckTypesAgree(p: Properties, ack: AckType)
    ensures Pack(p, ack) == Pack(p, PUBACK) && Section(p, ack) == Section(p, PUBACK)
    ensures PropertiesFaithful(p, ack) <==> PropertiesFaithful(p, PUBACK)
  {
    assert PackOrder(ack) == PackOrder(PUBACK) == [31];
  }

  lemma AckBodyRoundTrip(ack: AckType, packetID: uint16, reasonCode: byte, props: Properties)
    requires AckBody(ack, packetID, reasonCode, props).Ok? && PropertiesFaithful(props, ack)
    ensures UnpackAck(ack, AckBody(ack, packetID, reasonCode, props).value)
         == Ok(AckPacket(ack, packetID, reasonCode, props))
  {
    hide Pack, Unpack, Vbi, ReadU16;
    var packed := Pack(props, ack).value;
    var tail := if packed != [] || ack == PUBACK then Vbi(|packed|) + packed else [];
    Associate(U16(packetID), [reasonCode], tail);
    U16RoundTrip(packetID, [reasonCode] + tail);
    assert ([reasonCode] + tail)[1..] == tail;
    AckTypesAgree(props, ack);
    SectionRoundTrip(props, PUBACK, []);
    if tail == [] {
      NothingPacked(props, ack);
    } else {
      assert Section(props, PUBACK).value + [] == tail;
    }
  }

  /** An empty packing of a faithful set comes from the empty set. */
  lemma NothingPacked(p: Properties, t: byte)
    requires HasProperties(t) && PropertiesFaithful(p, t) && Pack(p, t) == Ok([])
    ensures p == NoProperties
  {
    SectionRoundTrip(p, t, []);
    UnpackFramed([], t, NoProperties, []);
    assert Section(p, t).value + [] == Vbi(0) + [] + [];
  }

  lemma SubOptionRoundTrip(o: SubOption)
    requires o.qos < 4 && o.retainHandling < 4
    ensures SubOptionFrom(o.topic, SubOptionByte(o)) == o
  {
    var b := SubOptionByte(o);
    assert b / 4 == Bit(o.noLocal) + Bit(o.retainAsPublished) * 2 + o.retainHandling * 4;
    assert b / 8 == Bit(o.retainAsPublished) + o.retainHandling * 2;
    assert b / 16 == o.retainHandling;
  }

  lemma {:induction false} SubsRoundTrip(subs: seq<SubOption>)
    requires forall i | 0 <= i < |subs| ::
               |subs[i].topic| <= MAX_STRING && subs[i].qos < 4 && subs[i].retainHandling < 4
    ensures ReadSubs(SubsBytes(subs)) == Ok(subs)
    decreases |subs|
  {
    if subs != [] {
      var o, more := subs[0], SubsBytes(subs[1..]);
      assert SubsBytes(subs) == Bin(o.topic) + ([SubOptionByte(o)] + more);
      BinRoundTrip(o.topic, [SubOptionByte(o)] + more);
      assert ([SubOptionByte(o)] + more)[1..] == more;
      SubsRoundTrip(subs[1..]);
      SubOptionRoundTrip(o);
      assert [o] + subs[1..] == subs;
    }
  }

  lemma SubscribeBodyRoundTrip(packetID: uint16, subs: seq<SubOption>, props: Properties)
    requires SubscribeBody(packetID, subs, props).Ok? && Faithful(SubscribePacket(packetID, subs, props))
    ensures UnpackSubscribe(SubscribeBody(packetID, subs, props).value) == Ok(SubscribePacket(packetID, subs, props))
  {
    var section := Section(props, SUBSCRIBE).value;
    assert SubscribeBody(packetID, subs, props).value == U16(packetID) + (section + SubsBytes(subs));
    U16RoundTrip(packetID, section + SubsBytes(subs));
    SectionRoundTrip(props, SUBSCRIBE, SubsBytes(subs));
    SubsRoundTrip(subs);
  }

  lemma {:induction false} TopicsRoundTrip(topics: seq<seq<byte>>)
    requires forall i | 0 <= i < |topics| :: |topics[i]| <= MAX_STRING
    ensures ReadTopics(TopicsBytes(topics)) == Ok(topics)
    decreases |topics|
  {
    if topics != [] {
      BinRoundTrip(topics[0], TopicsBytes(topics[1..]));
      TopicsRoundTrip(topics[1..]);
      assert [topics[0]] + topics[1..] == topics;
    }
  }

  lemma UnsubscribeBodyRoundTrip(packetID: uint16, topics: seq<seq<byte>>, props: Properties)
    requires UnsubscribeBody(packetID, topics, props).Ok? && Faithful(UnsubscribePacket(packetID, topics, props))
    ensures UnpackUnsubscribe(UnsubscribeBody(packetID, topics, props).value)
         == Ok(UnsubscribePacket(packetID, topics, props))
  {
    var section := Section(props, UNSUBSCRIBE).value;
    assert UnsubscribeBody(packetID, topics, props).value == U16(packetID) + (section + TopicsBytes(topics));
    U16RoundTrip(packetID, section + TopicsBytes(topics));
    SectionRoundTrip(props, UNSUBSCRIBE, TopicsBytes(topics));
    TopicsRoundTrip(topics);
  }

  lemma Reassociate4(a: seq<byte>, b: seq<byte>, c: seq<byte>, d: seq<byte>)
    ensures a + b + c + d == a + (b + (c + d))
  {}

  lemma WillParts(s: seq<byte>, w: Will, s1: seq<byte>, s2: seq<byte>, s3: seq<byte>)
    requires Unpack(s, CONNECT, NoProperties) == Done(w.properties, s1)
    requires ReadBin(s1) == Done(w.topic, s2) && ReadBin(s2) == Done(w.message, s3)
    ensures ReadWill(s) == Done(w, s3)
  {}

  function KeptWill(w: Will): Will {
    Will(Truncated(w.topic), Truncated(w.message), Selected(w.properties, CONNECT))
  }

  function KeptOption(d: Option<seq<byte>>): Option<seq<byte>> {
    if d.Some? then Some(Truncated(d.value)) else None
  }

  function KeptHeader(h: ConnectHeader): ConnectHeader {
    h.(protocolName := Truncated(h.protocolName), properties := Selected(h.properties, CONNECT))
  }

  /** What the encoding of a CONNECT keeps of it. */
  function KeptConnect(c: Connect): Connect {
    c.(protocolName := Truncated(c.protocolName),
       properties := Selected(c.properties, CONNECT),
       clientID := Truncated(c.clientID),
       will := if c.will.Some? then Some(KeptWill(c.will.value)) else None,
       willQos := if c.will.Some? then c.willQos else 0,
       willRetain := c.will.Some? && c.willRetain,
       username := KeptOption(c.username),
       password := KeptOption(c.password))
  }

  lemma WillRoundTrip(w: Will, rest: seq<byte>)
    requires WillBytes(Some(w)).Ok?
    ensures ReadWill(WillBytes(Some(w)).value + rest) == Done(KeptWill(w), rest)
  {
    hide Section, Unpack, Bin, ReadBin, Selected, ReadWill;
    var section := Section(w.properties, CONNECT).value;
    var s2 := Bin(w.message) + rest;
    var s1 := Bin(w.topic) + s2;
    Reassociate4(section, Bin(w.topic), Bin(w.message), rest);
    PropertiesRoundTrip(w.properties, CONNECT, s1);
    BinRoundTrip(w.topic, s2);
    BinRoundTrip(w.message, rest);
    WillParts(section + s1, KeptWill(w), s1, s2, rest);
  }

  lemma OptionalBinRoundTrip(d: Option<seq<byte>>, rest: seq<byte>)
    ensures ReadOptional(d.Some?, OptionalBin(d) + rest, ReadBin) == Done(KeptOption(d), rest)
  {
    if d.Some? {
      BinRoundTrip(d.value, rest);
    } else {
      assert [] + rest == rest;
    }
  }

  lemma ReassociateHeader(name: seq<byte>, version: byte, flags: byte, d: seq<byte>, e: seq<byte>, f: seq<byte>)
    ensures name + [version, flags] + d + e + f == name + ([version] + ([flags] + (d + (e + f))))
  {}

  lemma ReassociatePayload(a: seq<byte>, b: seq<byte>, c: seq<byte>, d: seq<byte>, e: seq<byte>)
    ensures a + b + c + d + e == a + (b + (c + (d + (e + []))))
  {}

  lemma ConnectHeaderParts(
      s: seq<byte>, h: ConnectHeader, flags: byte,
      s1: seq<byte>, s2: seq<byte>, s3: seq<byte>, s4: seq<byte>, s5: seq<byte>)
    requires ReadBin(s) == Done(h.protocolName, s1) && ReadByte(s1) == Done(h.protocolVersion, s2)
    requires ReadByte(s2) == Done(flags, s3) && FromByte(flags) == h.flags
    requires ReadU16(s3) == Done(h.keepAlive, s4) && Unpack(s4, CONNECT, NoProperties) == Done(h.properties, s5)
    ensures ReadConnectHeader(s) == Done(h, s5)
  {}

  lemma ConnectHeaderRoundTrip(h: ConnectHeader, rest: seq<byte>)
    requires ConnectHeaderBytes(h).Ok?
    ensures ReadConnectHeader(ConnectHeaderBytes(h).value + rest) == Done(KeptHeader(h), rest)
  {
    hide Section, Unpack, Bin, ReadBin, Selected, ToByte, FromByte, U16, ReadU16, ReadConnectHeader;
    var section := Section(h.properties, CONNECT).value;
    var s4 := section + rest;
    var s3 := U16(h.keepAlive) + s4;
    var s2 := [ToByte(h.flags)] + s3;
    var s1 := [h.protocolVersion] + s2;
    ReassociateHeader(Bin(h.protocolName), h.protocolVersion, ToByte(h.flags), U16(h.keepAlive), section, rest);
    BinRoundTrip(h.protocolName, s1);
    BitsOfByte(h.flags);
    U16RoundTrip(h.keepAlive, s4);
    PropertiesRoundTrip(h.properties, CONNECT, rest);
    assert s1[1..] == s2 && s2[1..] == s3;
    ConnectHeaderParts(Bin(h.protocolName) + s1, KeptHeader(h), ToByte(h.flags), s1, s2, s3, s4, rest);
  }

  lemma ConnectParts(
      s: seq<byte>, c: Connect,
      s1: seq<byte>, s2: seq<byte>, s3: seq<byte>, s4: seq<byte>, s5: seq<byte>)
    requires ReadConnectHeader(s) == Done(ConnectHeaderOf(c), s1) && ReadBin(s1) == Done(c.clientID, s2)
    requires ReadOptional(c.will.Some?, s2, ReadWill) == Done(c.will, s3)
    requires ReadOptional(c.username.Some?, s3, ReadBin) == Done(c.username, s4)
    requires ReadOptional(c.password.Some?, s4, ReadBin) == Done(c.password, s5)
    requires c.willQos < 4 && (c.will.None? ==> c.willQos == 0 && !c.willRetain)
    ensures UnpackConnect(s) == Done(c, s5)
  {
    SmallByte(c.willQos);
  }

  lemma OptionalWillRoundTrip(w: Option<Will>, rest: seq<byte>)
    requires WillBytes(w).Ok?
    ensures ReadOptional(w.Some?, WillBytes(w).value + rest, ReadWill)
         == Done(if w.Some? then Some(KeptWill(w.value)) else None, rest)
  {
    hide Section, KeptWill;
    if w.Some? {
      WillRoundTrip(w.value, rest);
    } else {
      assert [] + rest == rest;
    }
  }

  lemma KeptFlags(c: Connect)
    ensures ConnectHeaderOf(KeptConnect(c)) == KeptHeader(ConnectHeaderOf(c))
  {
    hide Selected, FromByte;
  }

  /** A CONNECT whose Will, if any, has a two-bit QoS is read back up to truncation and what Pack leaves out. */
  lemma ConnectBodyRoundTrip(c: Connect)
    requires ConnectBody(c).Ok? && (c.will.Some? ==> c.willQos < 4)
    ensures UnpackConnect(ConnectBody(c).value) == Done(KeptConnect(c), [])
  {
    hide Section, Unpack, Bin, ReadBin, Selected, ConnectFlags, ReadWill, ReadConnectHeader, KeptWill, UnpackConnect,
         ConnectHeaderBytes, WillBytes, OptionalBin, ReadOptional, ConnectHeaderOf;
    var header, will := ConnectHeaderBytes(ConnectHeaderOf(c)).value, WillBytes(c.will).value;
    var s4 := OptionalBin(c.password) + [];
    var s3 := OptionalBin(c.username) + s4;
    var s2 := will + s3;
    var s1 := Bin(c.clientID) + s2;
    ReassociatePayload(header, Bin(c.clientID), will, OptionalBin(c.username), OptionalBin(c.password));
    ConnectHeaderRoundTrip(ConnectHeaderOf(c), s1);
    BinRoundTrip(c.clientID, s2);
    OptionalWillRoundTrip(c.will, s3);
    OptionalBinRoundTrip(c.username, s4);
    OptionalBinRoundTrip(c.password, []);
    KeptFlags(c);
    ConnectParts(header + s1, KeptConnect(c), s1, s2, s3, s4, []);
  }

  /** Nothing is lost exactly when the CONNECT is faithful. */
  lemma KeptConnectIsFaithful(c: Connect)
    requires c.will.Some? ==> c.willQos < 4
    ensures KeptConnect(c) == c <==> Faithful(ConnectPacket(c))
  {
    hide Selected, Canonical;
    SelectedIsAll(c.properties, CONNECT);
    if c.will.Some? {
      SelectedIsAll(c.will.value.properties, CONNECT);
    }
  }

  lemma ReadWillQos(s: seq<byte>)
    requires UnpackConnect(s).Done?
    ensures UnpackConnect(s).value.willQos < 4
  {
    hide ReadWill, ReadConnectHeader, ReadBin, ReadOptional;
  }

  // ---- What a reader returns ----

  lemma SetItemFits(p: Properties, id: byte, s: seq<byte>, t: byte)
    requires ValidateID(t, id) && KindFor(id).Some? && ReadValue(KindFor(id).value, s).Done?
    requires StringsFit(p) && forall x <- p.fields :: ValidateID(t, x)
    ensures var q := SetItem(p, Item(id, ReadValue(KindFor(id).value, s).value));
      StringsFit(q) && forall x <- q.fields :: ValidateID(t, x)
  {
    hide ValidateID;
  }

  lemma {:induction false} UnpackedFields(s: seq<byte>, t: byte, p: Properties)
    requires UnpackItems(s, t, p).Ok? && StringsFit(p) && forall id <- p.fields :: ValidateID(t, id)
    ensures var q := UnpackItems(s, t, p).value; StringsFit(q) && forall id <- q.fields :: ValidateID(t, id)
    decreases |s|
  {
    hide ValidateID, KindFor, ReadValue, StringsFit, SetItem;
    if s != [] {
      ValidHasKind(t, s[0]);
      var r := ReadValue(KindFor(s[0]).value, s[1..]);
      SetItemFits(p, s[0], s[1..], t);
      UnpackedFields(r.rest, t, SetItem(p, Item(s[0], r.value)));
    }
  }

  /** What Unpack accepts for any type but CONNECT is what Pack writes and Unpack reads back. */
  lemma UnpackedIsFaithful(s: seq<byte>, t: byte)
    requires HasProperties(t) && t != CONNECT && Unpack(s, t, NoProperties).Done?
    ensures PropertiesFaithful(Unpack(s, t, NoProperties).value, t)
  {
    hide PackOrder, ValidateID, UnpackItems, ReadVbi;
    var r := ReadVbi(s);
    var q := Unpack(s, t, NoProperties).value;
    NoReasonString(t);
    if r.value != 0 {
      UnpackedFields(r.rest[..Min(r.value, |r.rest|)], t, NoProperties);
      forall id | id in q.fields
        ensures id in PackOrder(t)
      {
        PackAgainstValidate(t, id);
      }
    }
  }

  lemma {:induction false} ReadSubsFaithful(s: seq<byte>)
    requires ReadSubs(s).Ok?
    ensures forall o <- ReadSubs(s).value :: |o.topic| <= MAX_STRING && o.qos < 4 && o.retainHandling < 4
    decreases |s|
  {
    if s != [] {
      ReadSubsFaithful(ReadByte(ReadBin(s).rest).rest);
    }
  }

  lemma {:induction false} ReadTopicsFaithful(s: seq<byte>)
    requires ReadTopics(s).Ok?
    ensures forall topic <- ReadTopics(s).value :: |topic| <= MAX_STRING
    decreases |s|
  {
    if ReadBin(s).Done? {
      ReadTopicsFaithful(ReadBin(s).rest);
    }
  }
}
