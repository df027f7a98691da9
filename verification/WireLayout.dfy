/** The wire format byte by byte, as sections 1.5, 2.1, 2.2 and 3 of MQTT 5.0 lay it out, and what a reader makes of
    bytes that no writer here produces. */
module WireLayout {
  import opened Basics
  import opened Wire
  import opened Bits
  import opened Properties
  import opened Packets
  import opened Stream

  // ---- Integers ----

  /** Two bytes, the high one first. */
  lemma U16Layout(n: uint16, a: byte, b: byte, rest: seq<byte>)
    ensures |U16(n)| == 2 && U16(n)[0] as int * 256 + U16(n)[1] == n
    ensures ReadU16([a, b] + rest) == Done(a as int * 256 + b, rest)
  {
    assert ([a, b] + rest)[2..] == rest;
  }

  /** Four bytes, the high one first. */
  lemma U32Layout(n: uint32, a: byte, b: byte, c: byte, d: byte, rest: seq<byte>)
    ensures |U32(n)| == 4
    ensures U32(n)[0] as int * 0x100_0000 + U32(n)[1] as int * 0x1_0000 + U32(n)[2] as int * 256 + U32(n)[3] == n
    ensures ReadU32([a, b, c, d] + rest)
         == Done(a as int * 0x100_0000 + b as int * 0x1_0000 + c as int * 256 + d, rest)
  {
    U32Digits(n);
    assert ([a, b, c, d] + rest)[4..] == rest;
  }

  /** What the digits of a variable byte integer stand for: seven bits each, the low ones first. */
  function Digits(s: seq<byte>): nat {
    if s == [] then 0 else s[0] % 128 + 128 * Digits(s[1..])
  }

  /** The top bit is set on all but the last digit. */
  ghost predicate Continued(s: seq<byte>) {
    s != [] && s[|s| - 1] < 128 && forall i | 0 <= i < |s| - 1 :: s[i] >= 128
  }

  lemma OneMoreDigit(low: nat, s: seq<byte>)
    requires low < 128 && Continued(s)
    ensures var t := [low + 128] + s;
      Digits(t) == low + 128 * Digits(s) && Continued(t) && t[|t| - 1] == s[|s| - 1]
  {
    assert ([low + 128] + s)[1..] == s;
  }

  lemma VbiDigit(n: nat)
    requires n >= 128
    ensures Vbi(n) == [n % 128 + 128] + Vbi(n / 128)
  {}

  /** The encoding stands for the number, and no shorter one does. */
  lemma {:induction false} VbiLayout(n: nat)
    ensures Digits(Vbi(n)) == n && Continued(Vbi(n)) && (|Vbi(n)| > 1 ==> Vbi(n)[|Vbi(n)| - 1] > 0)
    decreases n
  {
    if n < 128 {
      assert Vbi(n)[1..] == [];
    } else {
      hide Vbi, Digits, Continued;
      VbiDigit(n);
      VbiLayout(n / 128);
      OneMoreDigit(n % 128, Vbi(n / 128));
    }
  }

  lemma {:induction false} VbiSize(n: nat, k: nat)
    requires k < 4
    ensures |Vbi(n)| <= 4 - k <==> n < Capacity(4 - k)
    decreases 4 - k
  {
    if n >= 128 && k < 3 {
      VbiSize(n / 128, k + 1);
    } else if n >= 128 {
      assert |Vbi(n / 128)| >= 1;
    }
  }

  /** Four bytes hold the numbers up to 268435455, and those are the ones that are encoded. */
  lemma VbiLimit(n: nat)
    ensures |Vbi(n)| <= 4 <==> n <= 268435455
    ensures EncodeVbi(n) == if |Vbi(n)| <= 4 then Ok(Vbi(n)) else Err(TooLong)
  {
    VbiSize(n, 0);
  }

  /** Of a string the first 65535 bytes are written. */
  lemma StringLimit(d: seq<byte>)
    ensures Truncated(d) == d[..Min(|d|, 65535)] && |Bin(d)| == Min(|d|, 65535) + 2
  {}

  /** The first k bytes have the top bit set and the next one, if any, has not. */
  ghost predicate EndsAt(s: seq<byte>, k: nat) {
    k <= |s| && (k < |s| ==> s[k] < 128) && forall i | 0 <= i < k :: s[i] >= 128
  }

  lemma {:induction false} GetVbiExactly(s: seq<byte>, got: nat, k: nat)
    requires got < 4 && EndsAt(s, k)
    ensures GetVbi(s, got)
         == if k < |s| && got + k < 4 then Done(s[..k + 1], s[k + 1..])
            else Fail(if got + k < 4 then EOF else Malformed)
    decreases |s|
  {
    if s != [] && s[0] >= 128 && got < 3 {
      assert forall i | 0 <= i < k - 1 :: s[1..][i] == s[i + 1];
      GetVbiExactly(s[1..], got + 1, k - 1);
      if k < |s| && got + k < 4 {
        assert s[1..][..k] == s[1..k + 1] && [s[0]] + s[1..k + 1] == s[..k + 1];
        assert s[1..][k..] == s[k + 1..];
      }
    }
  }

  lemma {:induction false} DecodeDigits(s: seq<byte>, k: nat)
    requires Continued(s) && k + |s| <= 4
    ensures DecodeVbi(s, k) == Done(Digits(s), [])
    decreases |s|
  {
    if s[0] >= 128 {
      DecodeDigits(s[1..], k + 1);
      assert s[0] % 128 == s[0] - 128;
    } else {
      assert s == [s[0]];
      assert s[1..] == [];
    }
  }

  /** Whatever bytes come, a variable byte integer is read exactly when one of the first four has no top bit: up to
      and with that one. Otherwise it is malformed, or cut off by the end. */
  lemma ReadVbiExactly(s: seq<byte>, k: nat)
    requires EndsAt(s, k)
    ensures ReadVbi(s)
         == if k < |s| && k < 4 then Done(Digits(s[..k + 1]), s[k + 1..]) else Fail(if k < 4 then EOF else Malformed)
  {
    GetVbiExactly(s, 0, k);
    if k < |s| && k < 4 {
      DecodeDigits(s[..k + 1], 0);
    }
  }

  /** A subscription identifier that is cut off by the end of its buffer reads as if a zero followed. */
  lemma {:induction false} DecodeCutOff(s: seq<byte>, k: nat)
    requires k + |s| < 4 && forall i | 0 <= i < |s| :: s[i] >= 128
    ensures DecodeVbi(s, k) == Done(Digits(s), [])
    decreases |s|
  {
    if s != [] {
      DecodeCutOff(s[1..], k + 1);
      assert s[0] % 128 == s[0] - 128;
    }
  }

  // ---- Flag bytes ----

  /** The first byte of every packet. */
  lemma FirstByteLayout(p: Packet)
    requires p.PublishPacket? ==> p.publish.qos < 4
    ensures HeaderByte(p)
         == match p
            case ConnectPacket(_) => 0x10
            case PublishPacket(m) => 0x30 + 8 * Bit(m.duplicate) + 2 * m.qos + Bit(m.retain)
            case AckPacket(ack, _, _, _) => AckFirst(ack)
            case SubscribePacket(_, _, _) => 0x82
            case UnsubscribePacket(_, _, _) => 0xA2
  {
    if p.PublishPacket? {
      SmallByte(p.publish.qos);
    }
  }

  lemma FlagsSum(f: Flags)
    ensures ToByte(f) == Bit(f.b0) + 2 * Bit(f.b1) + 4 * Bit(f.b2) + 8 * TwoBits(f.b3, f.b4) + 0x20 * Bit(f.b5)
                         + 0x40 * Bit(f.b6) + 0x80 * Bit(f.b7)
  {}

  /** The flags of CONNECT, the reserved bit 0 clear. */
  lemma ConnectFlagsLayout(c: Connect)
    requires c.willQos < 4
    ensures ToByte(ConnectFlags(c))
         == 0x80 * Bit(c.username.Some?) + 0x40 * Bit(c.password.Some?) + 2 * Bit(c.cleanStart)
            + if c.will.Some? then 0x20 * Bit(c.willRetain) + 8 * c.willQos + 4 else 0
  {
    hide FromByte, ToByte;
    SmallByte(c.willQos);
    FlagsSum(ConnectFlags(c));
  }

  /** Subscription options: retain handling, retain as published, no local and QoS from bit 4 down. */
  lemma SubOptionLayout(o: SubOption)
    requires o.qos < 4 && o.retainHandling < 4
    ensures var b := SubOptionByte(o);
      && b < 0x40 && b / 16 == o.retainHandling && b % 4 == o.qos
      && (b / 8 % 2 == 1 <==> o.retainAsPublished) && (b / 4 % 2 == 1 <==> o.noLocal)
  {
    var b := SubOptionByte(o);
    assert b / 4 == Bit(o.noLocal) + Bit(o.retainAsPublished) * 2 + o.retainHandling * 4;
    assert b / 8 == Bit(o.retainAsPublished) + o.retainHandling * 2;
  }

  // ---- Properties ----

  datatype Row = Row(kind: Kind, packets: set<byte>)

  const ALL_PACKETS: set<byte> := {1, 2, 3, 4, 5, 6, 7, 8, 9, 10, 11, 14, 15}

  /** Table 2-4 of the standard; CONNECT stands for the Will properties too. */
  const TABLE: map<byte, Row> := map[
    0x01 := Row(ByteKind, {1, 3}),
    0x02 := Row(U32Kind, {1, 3}),
    0x03 := Row(DataKind, {1, 3}),
    0x08 := Row(DataKind, {1, 3}),
    0x09 := Row(DataKind, {1, 3}),
    0x0B := Row(VbiKind, {3, 8}),
    0x11 := Row(U32Kind, {1, 2, 14}),
    0x12 := Row(DataKind, {2}),
    0x13 := Row(U16Kind, {2}),
    0x15 := Row(DataKind, {1, 2, 15}),
    0x16 := Row(DataKind, {1, 2, 15}),
    0x17 := Row(ByteKind, {1}),
    0x18 := Row(U32Kind, {1}),
    0x19 := Row(ByteKind, {1}),
    0x1A := Row(DataKind, {2}),
    0x1C := Row(DataKind, {2, 14}),
    0x1F := Row(DataKind, {2, 4, 5, 6, 7, 9, 11, 14, 15}),
    0x21 := Row(U16Kind, {1, 2}),
    0x22 := Row(U16Kind, {1, 2}),
    0x23 := Row(U16Kind, {3}),
    0x24 := Row(ByteKind, {2}),
    0x25 := Row(ByteKind, {2}),
    0x26 := Row(PairKind, ALL_PACKETS),
    0x27 := Row(U32Kind, {1, 2}),
    0x28 := Row(ByteKind, {2}),
    0x29 := Row(ByteKind, {2}),
    0x2A := Row(ByteKind, {2})]

  /** Which properties there are, how their values are laid out and where they may appear. */
  lemma PropertyTable(id: byte, t: byte)
    ensures KindFor(id) == if id in TABLE then Some(TABLE[id].kind) else None
    ensures ValidateID(t, id) <==> id in TABLE && t in TABLE[id].packets
  {
    hide KindFor, ValidateID;
    KindTable(id);
    PacketTable(id, t);
  }

  lemma KindTable(id: byte)
    ensures KindFor(id) == if id in TABLE then Some(TABLE[id].kind) else None
  {}

  lemma PacketTable(id: byte, t: byte)
    ensures ValidateID(t, id) <==> id in TABLE && t in TABLE[id].packets
  {}

  /** A value of each kind. */
  lemma ValueLayout(v: Value)
    requires ValueFits(v)
    ensures match v
      case ByteValue(b) => EncodeValue(v) == [b]
      case U16Value(n) => EncodeValue(v) == [n / 256, n % 256]
      case U32Value(n) => |EncodeValue(v)| == 4
      case VbiValue(n) => Digits(EncodeValue(v)) == n && Continued(EncodeValue(v))
      case DataValue(d) => |d| <= MAX_STRING ==> EncodeValue(v) == [|d| / 256, |d| % 256] + d
      case PairValue(k, d) => |k| <= MAX_STRING && |d| <= MAX_STRING ==>
        EncodeValue(v) == [|k| / 256, |k| % 256] + k + ([|d| / 256, |d| % 256] + d)
  {
    if v.VbiValue? {
      VbiLayout(v.n);
    }
  }

  /** A property section whose length does not fit the buffer is read from what there is. */
  lemma OverlongSection(size: nat, packed: seq<byte>, t: byte, p: Properties)
    requires |packed| < size <= MAX_VBI
    ensures Unpack(Vbi(size) + packed, t, p)
         == match UnpackItems(packed, t, p)
            case Err(e) => Fail(e)
            case Ok(q) => Done(q, [])
  {
    hide Vbi, ReadVbi, UnpackItems;
    VbiRoundTrip(size, packed);
    assert packed[..|packed|] == packed;
  }

  /** Of a property that comes twice the later value counts. */
  lemma RepeatedProperty(id: byte, a: Value, b: Value, t: byte)
    requires FieldOk(id, a) && FieldOk(id, b) && ValueFits(a) && ValueFits(b) && ValidateID(t, id)
    ensures UnpackItems([id] + EncodeValue(a) + ([id] + EncodeValue(b) + []), t, NoProperties)
         == Ok(PropertySet(map[id := Kept(b)], []))
  {
    hide EncodeValue, ReadValue, ValidateID, KindFor, UnpackItems;
    var first := SetItem(NoProperties, Item(id, Kept(a)));
    ItemRoundTrip(Item(id, a), [id] + EncodeValue(b) + [], t, NoProperties);
    ItemRoundTrip(Item(id, b), [], t, first);
    UnpackNothing(t, SetItem(first, Item(id, Kept(b))));
    assert first.fields == map[id := Kept(a)] && first.fields[id := Kept(b)] == map[id := Kept(b)];
  }

  /** An empty string or byte slice is a property that is not set. */
  lemma EmptyProperty(id: byte, t: byte)
    requires KindFor(id) == Some(DataKind) && ValidateID(t, id)
    ensures UnpackItems([id] + [0, 0], t, NoProperties) == Ok(NoProperties)
  {
    hide ValidateID, ReadValue;
    var s := [id] + [0, 0];
    assert s[1..] == [0, 0];
    EmptyData();
    assert NoProperties.fields - {id} == map[];
    assert SetItem(NoProperties, Item(id, DataValue([]))) == NoProperties;
    UnpackNothing(t, NoProperties);
  }

  lemma EmptyData()
    ensures ReadValue(DataKind, [0, 0]) == Done(DataValue([]), [])
  {
    assert [0, 0][2..] == [];
  }

  // ---- Acknowledgements ----

  function AckFirst(ack: AckType): byte {
    if ack == PUBACK then 0x40 else if ack == PUBREC then 0x50 else if ack == PUBREL then 0x62 else 0x70
  }

  lemma ShortAck(ack: AckType, id: uint16, body: seq<byte>, rest: seq<byte>)
    requires |body| <= 4
    ensures ReadPacket([HeaderByte(AckPacket(ack, id, 0, NoProperties))] + [|body|] + body + rest)
         == match UnpackAck(ack, body)
            case Err(e) => Fail(e)
            case Ok(p) => Done(p, rest)
  {
    hide ReadPacket, UnpackAck;
    var first := HeaderByte(AckPacket(ack, id, 0, NoProperties));
    assert Vbi(|body|) == [|body|];
    ReadFramed(first, body, rest);
    AckUnpack(first, ack, body);
  }

  /** An acknowledgement of two bytes is the identifier and means success; of three, the identifier and the
      reason; of four with an empty property section, the same. */
  lemma AckForms(ack: AckType, id: uint16, reason: byte, rest: seq<byte>)
    ensures var first := AckFirst(ack);
      && ReadPacket([first] + [2] + [id / 256, id % 256] + rest) == Done(AckPacket(ack, id, 0, NoProperties), rest)
      && ReadPacket([first] + [3] + [id / 256, id % 256, reason] + rest)
         == Done(AckPacket(ack, id, reason, NoProperties), rest)
      && ReadPacket([first] + [4] + [id / 256, id % 256, reason, 0] + rest)
         == Done(AckPacket(ack, id, reason, NoProperties), rest)
  {
    hide ReadPacket;
    FirstByteLayout(AckPacket(ack, id, 0, NoProperties));
    ShortAck(ack, id, [id / 256, id % 256], rest);
    ShortAck(ack, id, [id / 256, id % 256, reason], rest);
    ShortAck(ack, id, [id / 256, id % 256, reason, 0], rest);
    AckBodies(ack, id, reason);
  }

  lemma AckBodies(ack: AckType, id: uint16, reason: byte)
    ensures UnpackAck(ack, [id / 256, id % 256]) == Ok(AckPacket(ack, id, 0, NoProperties))
    ensures UnpackAck(ack, [id / 256, id % 256, reason]) == Ok(AckPacket(ack, id, reason, NoProperties))
    ensures UnpackAck(ack, [id / 256, id % 256, reason, 0]) == Ok(AckPacket(ack, id, reason, NoProperties))
  {
    hide UnpackItems;
    var s := [id / 256, id % 256, reason, 0];
    assert s[2..] == [reason, 0] && s[2..][1..] == [0];
    assert Vbi(0) + [] + [] == [0];
    UnpackFramed([], PUBACK, NoProperties, []);
    UnpackNothing(PUBACK, NoProperties);
  }

  /** An acknowledgement without properties is written with three bytes, PUBACK with four. */
  lemma AckLayout(ack: AckType, id: uint16, reason: byte)
    ensures Encode(AckPacket(ack, id, reason, NoProperties))
         == Ok(if ack == PUBACK then [0x40, 4, id / 256, id % 256, reason, 0]
               else [AckFirst(ack), 3, id / 256, id % 256, reason])
  {
    hide Pack, Encode, HeaderByte;
    NothingToPack(ack);
    FirstByteLayout(AckPacket(ack, id, reason, NoProperties));
    assert EncodeVbi(0) == Ok([0]);
    var body := if ack == PUBACK then [id / 256, id % 256, reason, 0] else [id / 256, id % 256, reason];
    assert U16(id) + [reason] + [] == [id / 256, id % 256, reason];
    assert U16(id) + [reason] + ([0] + []) == [id / 256, id % 256, reason, 0];
    OneByteLength(AckPacket(ack, id, reason, NoProperties), body);
    assert [AckFirst(ack), 3] + [id / 256, id % 256, reason] == [AckFirst(ack), 3, id / 256, id % 256, reason];
    assert [AckFirst(ack), 4] + [id / 256, id % 256, reason, 0] == [AckFirst(ack), 4, id / 256, id % 256, reason, 0];
  }

  lemma NothingToPack(t: byte)
    ensures Pack(NoProperties, t) == Ok([]) && Section(NoProperties, t) == Ok([0])
  {
    NoFields(PackOrder(t));
    assert Vbi(0) + [] == [0];
    assert FieldItems(NoProperties.fields, PackOrder(t)) + UserItems([]) == [];
  }

  lemma {:induction false} NoFields(ids: seq<byte>)
    ensures FieldItems(map[], ids) == []
    decreases |ids|
  {
    if ids != [] {
      NoFields(ids[1..]);
    }
  }

  // ---- Packets without properties, short enough for one byte of length ----

  lemma OneByteLength(p: Packet, body: seq<byte>)
    requires Body(p) == Ok(body) && |body| < 128
    ensures Encode(p) == Ok([HeaderByte(p), |body|] + body)
  {
    hide Body, HeaderByte;
    assert Vbi(|body|) == [|body|];
    assert [HeaderByte(p)] + [|body|] + body == [HeaderByte(p), |body|] + body;
  }

  lemma ShortString(d: seq<byte>)
    requires |d| < 256
    ensures Bin(d) == [0, |d|] + d
  {}

  /** PUBLISH: topic, identifier unless QoS 0, properties, payload. */
  lemma PublishLayout(m: Publish)
    requires m.qos < 4 && m.properties == NoProperties && |m.topic| + |m.payload| < 120
    ensures var id := if m.qos > 0 then [m.packetID / 256, m.packetID % 256] else [];
      Encode(PublishPacket(m))
      == Ok([0x30 + 8 * Bit(m.duplicate) + 2 * m.qos + Bit(m.retain), |m.topic| + |m.payload| + |id| + 3]
            + ([0, |m.topic|] + m.topic + id + [0] + m.payload))
  {
    hide Encode, Section, HeaderByte;
    NothingToPack(PUBLISH);
    ShortString(m.topic);
    FirstByteLayout(PublishPacket(m));
    OneByteLength(PublishPacket(m), PublishBody(m).value);
  }

  /** SUBSCRIBE: identifier, properties, then each topic filter with its options. */
  lemma SubscribeLayout(id: uint16, o: SubOption)
    requires |o.topic| < 120
    ensures Encode(SubscribePacket(id, [o], NoProperties))
         == Ok([0x82, |o.topic| + 6] + ([id / 256, id % 256] + [0] + ([0, |o.topic|] + o.topic + [SubOptionByte(o)])))
  {
    hide Encode, Section, SubOptionByte;
    NothingToPack(SUBSCRIBE);
    ShortString(o.topic);
    assert SubsBytes([o]) == Bin(o.topic) + [SubOptionByte(o)] by {
      assert [o][1..] == [];
    }
    OneByteLength(SubscribePacket(id, [o], NoProperties), SubscribeBody(id, [o], NoProperties).value);
  }

  lemma {:induction false} SubsInOrder(a: seq<SubOption>, b: seq<SubOption>)
    ensures SubsBytes(a + b) == SubsBytes(a) + SubsBytes(b)
    decreases |a|
  {
    hide Bin, SubOptionByte;
    if a == [] {
      assert a + b == b;
    } else {
      assert (a + b)[1..] == a[1..] + b;
      SubsInOrder(a[1..], b);
      Associate(Bin(a[0].topic) + [SubOptionByte(a[0])], SubsBytes(a[1..]), SubsBytes(b));
    }
  }

  /** UNSUBSCRIBE: identifier, properties, then each topic filter. */
  lemma UnsubscribeLayout(id: uint16, topic: seq<byte>)
    requires |topic| < 120
    ensures Encode(UnsubscribePacket(id, [topic], NoProperties))
         == Ok([0xA2, |topic| + 5] + ([id / 256, id % 256] + [0] + ([0, |topic|] + topic)))
  {
    hide Encode, Section;
    NothingToPack(UNSUBSCRIBE);
    ShortString(topic);
    assert TopicsBytes([topic]) == Bin(topic) by {
      assert [topic][1..] == [];
    }
    OneByteLength(UnsubscribePacket(id, [topic], NoProperties), UnsubscribeBody(id, [topic], NoProperties).value);
  }

  lemma {:induction false} TopicsInOrder(a: seq<seq<byte>>, b: seq<seq<byte>>)
    ensures TopicsBytes(a + b) == TopicsBytes(a) + TopicsBytes(b)
    decreases |a|
  {
    hide Bin;
    if a == [] {
      assert a + b == b;
    } else {
      assert (a + b)[1..] == a[1..] + b;
      TopicsInOrder(a[1..], b);
      Associate(Bin(a[0]), TopicsBytes(a[1..]), TopicsBytes(b));
    }
  }

  /** The bytes of a short string with its length, or nothing. */
  function ShortOption(d: Option<seq<byte>>): seq<byte>
    requires d.Some? ==> |d.value| < 256
  {
    if d.Some? then [0, |d.value|] + d.value else []
  }

  /** CONNECT: protocol name and version, flags, keep alive, properties; then client identifier, Will properties,
      topic and payload, user name, password. */
  lemma ConnectLayout(c: Connect)
    requires c.properties == NoProperties && (c.will.Some? ==> c.will.value.properties == NoProperties)
    requires |c.protocolName| < 256 && |c.clientID| < 256
    requires c.will.Some? ==> |c.will.value.topic| < 256 && |c.will.value.message| < 256
    requires (c.username.Some? ==> |c.username.value| < 256) && (c.password.Some? ==> |c.password.value| < 256)
    ensures ConnectBody(c)
         == Ok([0, |c.protocolName|] + c.protocolName
               + [c.protocolVersion, ToByte(ConnectFlags(c))] + [c.keepAlive / 256, c.keepAlive % 256] + [0]
               + ([0, |c.clientID|] + c.clientID)
               + (if c.will.Some? then
                    [0] + ([0, |c.will.value.topic|] + c.will.value.topic)
                    + ([0, |c.will.value.message|] + c.will.value.message)
                  else [])
               + ShortOption(c.username) + ShortOption(c.password))
  {
    hide Section, ConnectFlags;
    NothingToPack(CONNECT);
    ShortString(c.protocolName);
    ShortString(c.clientID);
    if c.will.Some? {
      ShortString(c.will.value.topic);
      ShortString(c.will.value.message);
    }
    if c.username.Some? {
      ShortString(c.username.value);
    }
    if c.password.Some? {
      ShortString(c.password.value);
    }
  }

  // ---- Bytes that stop early ----

  lemma {:induction false} GetVbiExtends(s: seq<byte>, more: seq<byte>, got: nat)
    requires got < 4 && GetVbi(s, got).Done?
    ensures GetVbi(s + more, got) == Done(GetVbi(s, got).value, GetVbi(s, got).rest + more)
    decreases |s|
  {
    assert (s + more)[1..] == s[1..] + more;
    if s[0] > 127 {
      GetVbiExtends(s[1..], more, got + 1);
    }
  }

  /** A packet that was read is read the same when more follows. */
  lemma ReadExtends(s: seq<byte>, more: seq<byte>)
    requires ReadPacket(s).Done?
    ensures ReadPacket(s + more) == Done(ReadPacket(s).value, ReadPacket(s).rest + more)
  {
    hide UnpackBody, GetVbi, DecodeVbi;
    assert (s + more)[1..] == s[1..] + more;
    GetVbiExtends(s[1..], more, 0);
    var size, u := ReadVbi(s[1..]).value, ReadVbi(s[1..]).rest;
    assert (u + more)[..size] == u[..size] && (u + more)[size..] == u[size..] + more;
  }

  /** No packet that was cut off is taken for a packet. */
  lemma CutOffFails(p: Packet, k: nat)
    requires Sendable(p) && k < |Written(p)|
    ensures ReadPacket(Written(p)[..k]).Fail?
  {
    hide ReadPacket, Sendable, Written;
    var s, more := Written(p)[..k], Written(p)[k..];
    SendableReads(p, []);
    assert Written(p) + [] == Written(p) && s + more == Written(p);
    if ReadPacket(s).Done? {
      ReadExtends(s, more);
    }
  }

  lemma NoTopicLeft(tail: seq<byte>)
    requires ReadBin(tail).Fail?
    ensures ReadTopics(tail) == if |tail| <= 2 then Ok([]) else Err(UnexpectedEOF)
  {}

  lemma NextTopic(topic: seq<byte>, rest: seq<byte>)
    requires |topic| <= MAX_STRING
    ensures ReadTopics(Bin(topic) + rest)
         == match ReadTopics(rest)
            case Err(e) => Err(e)
            case Ok(more) => Ok([topic] + more)
  {
    BinRoundTrip(topic, rest);
    hide Bin, ReadBin;
  }

  /** The topics of an UNSUBSCRIBE end where nothing, or one byte, or a length without its first byte is left; a
      topic that is cut off later is an error. */
  lemma {:induction false} TopicsCutOff(topics: seq<seq<byte>>, tail: seq<byte>)
    requires forall i | 0 <= i < |topics| :: |topics[i]| <= MAX_STRING
    requires ReadBin(tail).Fail?
    ensures ReadTopics(TopicsBytes(topics) + tail)
         == if |tail| <= 2 then Ok(topics) else Err(UnexpectedEOF)
    decreases |topics|
  {
    hide ReadBin, ReadTopics, Bin;
    if topics == [] {
      assert [] + tail == tail;
      NoTopicLeft(tail);
    } else {
      Associate(Bin(topics[0]), TopicsBytes(topics[1..]), tail);
      NextTopic(topics[0], TopicsBytes(topics[1..]) + tail);
      TopicsCutOff(topics[1..], tail);
      assert [topics[0]] + topics[1..] == topics;
    }
  }

  /** No packet has type 0. */
  lemma NoTypeZero(first: byte, rest: seq<byte>)
    requires first < 0x10
    ensures ReadPacket([first] + rest).Fail?
  {}

  /** A body that is cut off is an unexpected end, unless nothing of it is there. */
  lemma BodyCutOff(first: byte, size: nat, have: seq<byte>)
    requires KnownType(first / 16) && |have| < size <= MAX_VBI
    ensures ReadPacket([first] + Vbi(size) + have) == Fail(if have == [] then EOF else UnexpectedEOF)
  {
    hide Vbi, ReadVbi;
    assert ([first] + Vbi(size) + have)[1..] == Vbi(size) + have;
    VbiRoundTrip(size, have);
  }

  /** A fourth digit is never continued. */
  lemma {:induction false} DecodeMalformed(s: seq<byte>, k: nat)
    requires k < 4 <= |s| + k && forall i | 0 <= i < 4 - k :: s[i] >= 128
    ensures DecodeVbi(s, k) == Fail(Malformed)
    decreases |s|
  {
    if k < 3 {
      DecodeMalformed(s[1..], k + 1);
    }
  }
}
