/** The application's view of a PUBLISH in paho/cp_publish.go, and its conversions to and from the wire
    packet. */
module Messages {
  import opened Basics
  import opened Properties
  import opened Packets

  datatype MessageProperties = MessageProperties(
    payloadFormat: Option<byte>,
    messageExpiry: Option<uint32>,
    contentType: seq<byte>,
    responseTopic: seq<byte>,
    correlationData: seq<byte>,
    topicAlias: Option<uint16>,
    subscriptionIdentifier: Option<int>,
    user: seq<User>)

  datatype Message = Message(
    packetID: uint16,
    qos: byte,
    duplicate: bool,
    retain: bool,
    topic: seq<byte>,
    properties: MessageProperties,
    payload: seq<byte>)

  const CODES: set<byte> := {1, 2, 3, 8, 9, 11, TOPIC_ALIAS}

  function DataField(d: seq<byte>): Option<Value> {
    if d == [] then None else Some(DataValue(d))
  }

  function FieldOf(p: MessageProperties, id: byte): Option<Value> {
    match id
    case 1 => if p.payloadFormat.Some? then Some(ByteValue(p.payloadFormat.value)) else None
    case 2 => if p.messageExpiry.Some? then Some(U32Value(p.messageExpiry.value)) else None
    case 3 => DataField(p.contentType)
    case 8 => DataField(p.responseTopic)
    case 9 => DataField(p.correlationData)
    case 11 => if p.subscriptionIdentifier.Some? then Some(VbiValue(p.subscriptionIdentifier.value)) else None
    case 35 => if p.topicAlias.Some? then Some(U16Value(p.topicAlias.value)) else None
    case _ => None
  }

  /** Publish.Packet. */
  function ToPacket(m: Message): Publish {
    var fields := map id | id in CODES && FieldOf(m.properties, id).Some? :: FieldOf(m.properties, id).value;
    Publish(m.topic, m.payload, PropertySet(fields, m.properties.user), m.packetID, m.qos, m.duplicate, m.retain)
  }

  function InitProperties(p: Properties): MessageProperties {
    var f := p.fields;
    MessageProperties(
      if 1 in f then Some(f[1].b) else None,
      if 2 in f then Some(f[2].u32) else None,
      if 3 in f then f[3].data else [],
      if 8 in f then f[8].data else [],
      if 9 in f then f[9].data else [],
      if 35 in f then Some(f[35].u16) else None,
      if 11 in f then Some(f[11].n) else None,
      p.user)
  }

  /** PublishFromPacketPublish. */
  function FromPacket(p: Publish): Message {
    Message(p.packetID, p.qos, p.duplicate, p.retain, p.topic, InitProperties(p.properties), p.payload)
  }

  /** No field is lost on the way to the packet and back. */
  lemma MessageRoundTrip(m: Message)
    ensures FromPacket(ToPacket(m)) == m
  {
    var f, p := ToPacket(m).properties.fields, m.properties;
    assert forall id | id in CODES :: id in f <==> FieldOf(p, id).Some?;
  }

  lemma FieldBack(p: Properties, id: byte)
    requires id in CODES
    ensures FieldOf(InitProperties(p), id) == if id in p.fields then Some(p.fields[id]) else None
  {
    assert id in p.fields ==> FieldOk(id, p.fields[id]);
  }

  lemma UserBack(p: Properties)
    ensures InitProperties(p).user == p.user
  {}

  /** A packet survives the conversions exactly when it has no properties but those of a message. */
  lemma PacketRoundTripsExactly(p: Publish)
    ensures ToPacket(FromPacket(p)) == p <==> p.properties.fields.Keys <= CODES
  {
    hide FieldOf, InitProperties;
    var f, g := p.properties.fields, ToPacket(FromPacket(p)).properties.fields;
    forall id | id in CODES
      ensures id in g <==> id in f
      ensures id in f ==> g[id] == f[id]
    {
      FieldBack(p.properties, id);
    }
    UserBack(p.properties);
    assert g.Keys <= CODES;
    if f.Keys <= CODES {
      assert g.Keys == f.Keys;
      assert f == g;
    }
  }

  /** A message has no reason string, so its packet reads back as it was written, up to truncation. */
  lemma MessageReadable(m: Message)
    ensures Readable(ToPacket(m).properties, PUBLISH)
  {}

  /** Each property of a message under the code the standard gives it, and no others. */
  lemma MessageCodes(m: Message)
    ensures var f, p := ToPacket(m).properties.fields, m.properties;
      && (0x01 in f <==> p.payloadFormat.Some?) && (0x01 in f ==> f[0x01] == ByteValue(p.payloadFormat.value))
      && (0x02 in f <==> p.messageExpiry.Some?) && (0x02 in f ==> f[0x02] == U32Value(p.messageExpiry.value))
      && (0x03 in f <==> p.contentType != []) && (0x03 in f ==> f[0x03] == DataValue(p.contentType))
      && (0x08 in f <==> p.responseTopic != []) && (0x08 in f ==> f[0x08] == DataValue(p.responseTopic))
      && (0x09 in f <==> p.correlationData != []) && (0x09 in f ==> f[0x09] == DataValue(p.correlationData))
      && (0x0B in f <==> p.subscriptionIdentifier.Some?)
      && (0x0B in f ==> f[0x0B] == VbiValue(p.subscriptionIdentifier.value))
      && (0x23 in f <==> p.topicAlias.Some?) && (0x23 in f ==> f[0x23] == U16Value(p.topicAlias.value))
      && f.Keys <= {0x01, 0x02, 0x03, 0x08, 0x09, 0x0B, 0x23}
  {}
}
