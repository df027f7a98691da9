/** The property sets of packets/properties.go (section 2.2.2 of MQTT 5.0).

    The source keeps a property set as a struct of optional fields, one for each property code, and
    a list of user properties. Here the fields that are set form a map from property code to value;
    an empty string or byte slice is a field that is not set, as Pack treats it. A nil property set
    is the empty one. */
module Properties {
  import opened Basics
  import opened Wire

  // Control packet types.
  const CONNECT: byte := 1
  const CONNACK: byte := 2
  const PUBLISH: byte := 3
  const PUBACK: byte := 4
  const PUBREC: byte := 5
  const PUBREL: byte := 6
  const PUBCOMP: byte := 7
  const SUBSCRIBE: byte := 8
  const SUBACK: byte := 9
  const UNSUBSCRIBE: byte := 10
  const UNSUBACK: byte := 11
  const DISCONNECT: byte := 14
  const AUTH: byte := 15

  /** The packet types that carry properties. */
  predicate HasProperties(t: byte) {
    1 <= t <= 11 || t == DISCONNECT || t == AUTH
  }

  const TOPIC_ALIAS: byte := 35
  const REASON_STRING: byte := 31
  const USER: byte := 38

  datatype Kind = ByteKind | U16Kind | U32Kind | VbiKind | DataKind | PairKind

  datatype Value =
    | ByteValue(b: byte)
    | U16Value(u16: uint16)
    | U32Value(u32: uint32)
    | VbiValue(n: int)
    | DataValue(data: seq<byte>)
    | PairValue(key: seq<byte>, data: seq<byte>)
  {
    function KindOf(): Kind {
      match this
      case ByteValue(_) => ByteKind
      case U16Value(_) => U16Kind
      case U32Value(_) => U32Kind
      case VbiValue(_) => VbiKind
      case DataValue(_) => DataKind
      case PairValue(_, _) => PairKind
    }
  }

  datatype User = User(key: seq<byte>, value: seq<byte>)

  /** How the value of each property code is laid out. */
  function KindFor(id: byte): Option<Kind> {
    match id
    case 1 | 23 | 25 | 36 | 37 | 40 | 41 | 42 => Some(ByteKind)
    case 19 | 33 | 34 | 35 => Some(U16Kind)
    case 2 | 17 | 24 | 39 => Some(U32Kind)
    case 11 => Some(VbiKind)
    case 3 | 8 | 9 | 18 | 21 | 22 | 26 | 28 | 31 => Some(DataKind)
    case 38 => Some(PairKind)
    case _ => None
  }

  /** A field of the struct holds a value of the kind its code calls for, and is not empty. */
  predicate FieldOk(id: byte, v: Value) {
    id != USER && KindFor(id) == Some(v.KindOf()) && v != DataValue([])
  }

  datatype PropertySet = PropertySet(fields: map<byte, Value>, user: seq<User>)

  predicate Typed(p: PropertySet) {
    forall id <- p.fields :: FieldOk(id, p.fields[id])
  }

  const NoProperties := PropertySet(map[], [])

  type Properties = p: PropertySet | Typed(p) witness NoProperties

  /** ValidProperties: which property codes may appear in which packets. CONNECT covers the Will
      properties too. */
  predicate ValidateID(t: byte, id: byte) {
    match id
    case 1 | 2 | 3 | 8 | 9 => t in {CONNECT, PUBLISH}
    case 35 => t == PUBLISH
    case 11 => t in {PUBLISH, SUBSCRIBE}
    case 17 => t in {CONNECT, CONNACK, DISCONNECT}
    case 18 | 19 | 40 | 41 | 42 | 37 | 26 | 36 => t == CONNACK
    case 21 | 22 => t in {CONNECT, CONNACK, AUTH}
    case 23 | 24 | 25 => t == CONNECT
    case 28 => t in {CONNACK, DISCONNECT}
    case 31 => t in {CONNACK, PUBACK, PUBREC, PUBREL, PUBCOMP, SUBACK, UNSUBACK, DISCONNECT, AUTH}
    case 33 | 34 | 39 => t in {CONNECT, CONNACK}
    case 38 => HasProperties(t)
    case _ => false
  }

  // ---- Packing ----

  /** The fields Pack looks at for a packet type, in the order it writes them. */
  function PackOrder(t: byte): seq<byte> {
    (if t == PUBLISH then [1, 2, 3, 8, 9, 35] else []) +
    (if t in {PUBLISH, SUBSCRIBE} then [11] else []) +
    (if t in {CONNECT, CONNACK} then [33, 34, 39] else []) +
    (if t == CONNACK then [36, 18, 19, 40, 41, 42, 37, 26] else []) +
    (if t == CONNECT then [23, 24, 25] else []) +
    (if t in {CONNECT, CONNACK, DISCONNECT} then [17] else []) +
    (if t in {CONNECT, CONNACK, AUTH} then [21, 22] else []) +
    (if t in {CONNACK, DISCONNECT} then [28] else []) +
    (if t != CONNECT then [31] else [])
  }

  datatype Item = Item(id: byte, value: Value)

  function FieldItems(fields: map<byte, Value>, ids: seq<byte>): seq<Item> {
    if ids == [] then []
    else (if ids[0] in fields then [Item(ids[0], fields[ids[0]])] else []) + FieldItems(fields, ids[1..])
  }

  function UserItems(user: seq<User>): seq<Item> {
    if user == [] then []
    else [Item(USER, PairValue(user[0].key, user[0].value))] + UserItems(user[1..])
  }

  function Items(p: Properties, t: byte): seq<Item> {
    FieldItems(p.fields, PackOrder(t)) + UserItems(p.user)
  }

  /** A subscription identifier must fit a variable byte integer. */
  predicate ValueFits(v: Value) {
    v.VbiValue? ==> 0 <= v.n <= MAX_VBI
  }

  predicate PackFits(p: Properties, t: byte) {
    forall id <- p.fields :: id in PackOrder(t) ==> ValueFits(p.fields[id])
  }

  function EncodeValue(v: Value): seq<byte>
    requires ValueFits(v)
  {
    match v
    case ByteValue(b) => [b]
    case U16Value(n) => U16(n)
    case U32Value(n) => U32(n)
    case VbiValue(n) => Vbi(n)
    case DataValue(d) => Bin(d)
    case PairValue(k, d) => Bin(k) + Bin(d)
  }

  function EncodeItems(items: seq<Item>): seq<byte>
    requires forall i | 0 <= i < |items| :: ValueFits(items[i].value)
  {
    if items == [] then []
    else [items[0].id] + EncodeValue(items[0].value) + EncodeItems(items[1..])
  }

  /** Properties.Pack. It fails only on a subscription identifier out of range. */
  function Pack(p: Properties, t: byte): (r: Result<seq<byte>>)
    ensures r.Ok? <==> PackFits(p, t)
  {
    if PackFits(p, t) then
      ItemsFit(p, t);
      Ok(EncodeItems(Items(p, t)))
    else Err(TooLong)
  }

  // ---- Unpacking ----

  function ReadValue(k: Kind, s: seq<byte>): (r: Read<Value>)
    ensures r.Done? ==> r.value.KindOf() == k && |r.rest| <= |s|
  {
    match k
    case ByteKind =>
      var (b, t) :- ReadByte(s);
      Done(ByteValue(b), t)
    case U16Kind =>
      var (n, t) :- ReadU16(s);
      Done(U16Value(n), t)
    case U32Kind =>
      var (n, t) :- ReadU32(s);
      Done(U32Value(n), t)
    case VbiKind =>
      var (n, t) :- DecodeVbi(s, 0);
      Done(VbiValue(n), t)
    case DataKind =>
      var (d, t) :- ReadBin(s);
      Done(DataValue(d), t)
    case PairKind =>
      var (key, t) :- ReadBin(s);
      var (d, u) :- ReadBin(t);
      Done(PairValue(key, d), u)
  }

  /** Store a value read for a property: user properties accumulate, a later value of another
      property replaces an earlier one, and an empty string leaves the field unset. */
  function SetItem(p: Properties, it: Item): Properties
    requires KindFor(it.id) == Some(it.value.KindOf())
  {
    if it.id == USER then p.(user := p.user + [User(it.value.key, it.value.data)])
    else if it.value == DataValue([]) then p.(fields := p.fields - {it.id})
    else p.(fields := p.fields[it.id := it.value])
  }

  /** The loop of Properties.Unpack over the bytes of the property section. */
  function UnpackItems(s: seq<byte>, t: byte, p: Properties): Result<Properties>
    decreases |s|
  {
    if s == [] then Ok(p)
    else if !ValidateID(t, s[0]) then Err(BadProperty(s[0]))
    else
      ValidHasKind(t, s[0]);
      match ReadValue(KindFor(s[0]).value, s[1..])
      case Fail(e) => Err(e)
      case Done(v, rest) => UnpackItems(rest, t, SetItem(p, Item(s[0], v)))
  }

  /** Properties.Unpack: the length, then that many bytes (fewer when the buffer ends first). */
  function Unpack(s: seq<byte>, t: byte, p: Properties): (r: Read<Properties>)
    ensures r.Done? ==> |r.rest| < |s|
  {
    var (size, rest) :- ReadVbi(s);
    if size == 0 then Done(p, rest)
    else
      var n := Min(size, |rest|);
      match UnpackItems(rest[..n], t, p)
      case Err(e) => Fail(e)
      case Ok(q) => Done(q, rest[n..])
  }

  /** A property section as every packet body writes it: the length, then the properties. */
  function Section(p: Properties, t: byte): (r: Result<seq<byte>>) {
    var packed :- Pack(p, t);
    var size :- EncodeVbi(|packed|);
    Ok(size + packed)
  }

  // ---- What is kept ----

  /** What the writers keep of a value: at most 65535 bytes of each string. */
  function Kept(v: Value): (k: Value)
    ensures k.KindOf() == v.KindOf() && (k == DataValue([]) <==> v == DataValue([]))
  {
    match v
    case DataValue(d) => DataValue(Truncated(d))
    case PairValue(k, d) => PairValue(Truncated(k), Truncated(d))
    case _ => v
  }

  function KeptUsers(user: seq<User>): seq<User> {
    seq(|user|, i requires 0 <= i < |user| => User(Truncated(user[i].key), Truncated(user[i].value)))
  }

  function KeptFields(fields: map<byte, Value>, ids: seq<byte>): map<byte, Value> {
    map id | id in fields && id in ids :: Kept(fields[id])
  }

  /** The part of a property set that Pack writes for a packet type. */
  function Selected(p: Properties, t: byte): Properties {
    PropertySet(KeptFields(p.fields, PackOrder(t)), KeptUsers(p.user))
  }

  /** Every string of the property set fits its two-byte length. */
  predicate StringsFit(p: Properties) {
    && (forall id <- p.fields :: p.fields[id].DataValue? ==> |p.fields[id].data| <= MAX_STRING)
    && (forall i | 0 <= i < |p.user| :: |p.user[i].key| <= MAX_STRING && |p.user[i].value| <= MAX_STRING)
  }

  /** The property set holds only what Pack writes for the packet type. */
  predicate Canonical(p: Properties, t: byte) {
    StringsFit(p) && forall id <- p.fields :: id in PackOrder(t)
  }

  // ---- Lemmas ----

  lemma ValidHasKind(t: byte, id: byte)
    requires ValidateID(t, id)
    ensures KindFor(id).Some?
  {}

  lemma {:induction false} FieldItemsIn(fields: map<byte, Value>, ids: seq<byte>)
    ensures forall it <- FieldItems(fields, ids) :: it.id in ids && it.id in fields && fields[it.id] == it.value
  {
    if ids != [] {
      FieldItemsIn(fields, ids[1..]);
    }
  }

  lemma {:induction false} UserItemsIn(user: seq<User>)
    ensures forall it <- UserItems(user) :: it.id == USER && it.value.PairValue?
  {
    if user != [] {
      UserItemsIn(user[1..]);
    }
  }

  lemma ItemsFit(p: Properties, t: byte)
    requires PackFits(p, t)
    ensures forall i | 0 <= i < |Items(p, t)| :: ValueFits(Items(p, t)[i].value)
  {
    FieldItemsIn(p.fields, PackOrder(t));
    UserItemsIn(p.user);
    forall i | 0 <= i < |Items(p, t)|
      ensures ValueFits(Items(p, t)[i].value)
    {
      assert Items(p, t)[i] in FieldItems(p.fields, PackOrder(t)) || Items(p, t)[i] in UserItems(p.user);
    }
  }

  /** The blocks of PackOrder, put together for each packet type. */
  function OrderOf(t: byte): seq<byte> {
    match t
    case 1 => [33, 34, 39, 23, 24, 25, 17, 21, 22]
    case 2 => [33, 34, 39, 36, 18, 19, 40, 41, 42, 37, 26, 17, 21, 22, 28, 31]
    case 3 => [1, 2, 3, 8, 9, 35, 11, 31]
    case 8 => [11, 31]
    case 14 => [17, 28, 31]
    case 15 => [21, 22, 31]
    case _ => [31]
  }

  lemma PackOrderByType(t: byte)
    ensures PackOrder(t) == OrderOf(t)
  {}

  lemma OrderAgainstValidate(t: byte, id: byte)
    requires HasProperties(t) && id != USER
    ensures id in OrderOf(t) <==>
              || (ValidateID(t, id) && !(t == CONNECT && id in {1, 2, 3, 8, 9}))
              || (id == REASON_STRING && t in {PUBLISH, SUBSCRIBE, UNSUBSCRIBE})
  {}

  /** Pack and ValidateID disagree in exactly two ways. Pack leaves the five Will fields of CONNECT
      out, and it writes a reason string for PUBLISH, SUBSCRIBE and UNSUBSCRIBE, where a reader
      rejects it. */
  lemma PackAgainstValidate(t: byte, id: byte)
    requires HasProperties(t) && id != USER
    ensures id in PackOrder(t) <==>
              || (ValidateID(t, id) && !(t == CONNECT && id in {1, 2, 3, 8, 9}))
              || (id == REASON_STRING && t in {PUBLISH, SUBSCRIBE, UNSUBSCRIBE})
  {
    PackOrderByType(t);
    OrderAgainstValidate(t, id);
  }

  lemma PairRoundTrip(k: seq<byte>, d: seq<byte>, rest: seq<byte>)
    ensures ReadValue(PairKind, Bin(k) + Bin(d) + rest) == Done(PairValue(Truncated(k), Truncated(d)), rest)
  {
    hide Bin, ReadBin;
    Associate(Bin(k), Bin(d), rest);
    BinRoundTrip(k, Bin(d) + rest);
    BinRoundTrip(d, rest);
  }

  /** Reading back one value gives what the writer kept of it. */
  lemma ValueRoundTrip(v: Value, rest: seq<byte>)
    requires ValueFits(v)
    ensures ReadValue(v.KindOf(), EncodeValue(v) + rest) == Done(Kept(v), rest)
  {
    match v {
      case ByteValue(b) => assert ([b] + rest)[1..] == rest;
      case U16Value(n) => U16RoundTrip(n, rest);
      case U32Value(n) => U32RoundTrip(n, rest);
      case VbiValue(n) => VbiRoundTrip(n, rest);
      case DataValue(d) => BinRoundTrip(d, rest);
      case PairValue(k, d) => PairRoundTrip(k, d, rest);
    }
  }

  predicate ItemsTyped(items: seq<Item>) {
    forall i | 0 <= i < |items| :: ValueFits(items[i].value) && KindFor(items[i].id) == Some(items[i].value.KindOf())
  }

  function ApplyItems(p: Properties, items: seq<Item>): Properties
    requires ItemsTyped(items)
    decreases |items|
  {
    if items == [] then p
    else ApplyItems(SetItem(p, Item(items[0].id, Kept(items[0].value))), items[1..])
  }

  /** One turn of the Unpack loop on an encoded item. */
  lemma ItemRoundTrip(it: Item, more: seq<byte>, t: byte, p: Properties)
    requires ValueFits(it.value) && KindFor(it.id) == Some(it.value.KindOf())
    ensures UnpackItems([it.id] + EncodeValue(it.value) + more, t, p)
         == if ValidateID(t, it.id) then UnpackItems(more, t, SetItem(p, Item(it.id, Kept(it.value))))
            else Err(BadProperty(it.id))
  {
    var s := [it.id] + EncodeValue(it.value) + more;
    assert s[1..] == EncodeValue(it.value) + more;
    ValueRoundTrip(it.value, more);
  }

  /** Reading a run of encoded items sets each in turn when every one is valid for the packet type,
      and fails otherwise. */
  lemma {:induction false} ItemsRoundTrip(items: seq<Item>, t: byte, p: Properties)
    requires ItemsTyped(items)
    ensures var r := UnpackItems(EncodeItems(items), t, p);
      if forall i | 0 <= i < |items| :: ValidateID(t, items[i].id) then r == Ok(ApplyItems(p, items)) else r.Err?
    decreases |items|
  {
    if items != [] {
      ItemRoundTrip(items[0], EncodeItems(items[1..]), t, p);
      ItemsRoundTrip(items[1..], t, SetItem(p, Item(items[0].id, Kept(items[0].value))));
      assert forall i | 1 <= i < |items| :: items[1..][i - 1] == items[i];
    }
  }

  lemma {:induction false} ApplyAppend(p: Properties, a: seq<Item>, b: seq<Item>)
    requires ItemsTyped(a) && ItemsTyped(b)
    ensures ApplyItems(p, a + b) == ApplyItems(ApplyItems(p, a), b)
    decreases |a|
  {
    if a == [] {
      assert a + b == b;
    } else {
      assert (a + b)[1..] == a[1..] + b;
      ApplyAppend(SetItem(p, Item(a[0].id, Kept(a[0].value))), a[1..], b);
    }
  }

  lemma KeptFieldsStep(base: map<byte, Value>, fields: map<byte, Value>, ids: seq<byte>)
    requires ids != []
    ensures base + KeptFields(fields, ids)
         == (if ids[0] in fields then base[ids[0] := Kept(fields[ids[0]])] else base) + KeptFields(fields, ids[1..])
  {
    assert forall id :: id in ids <==> id == ids[0] || id in ids[1..];
  }

  lemma {:induction false} ApplyFields(q: Properties, fields: map<byte, Value>, ids: seq<byte>)
    requires ItemsTyped(FieldItems(fields, ids))
    requires forall id <- fields :: FieldOk(id, fields[id])
    ensures q.fields + KeptFields(fields, ids) == ApplyItems(q, FieldItems(fields, ids)).fields
    ensures ApplyItems(q, FieldItems(fields, ids)).user == q.user
    decreases |ids|
  {
    if ids == [] {
      assert q.fields + KeptFields(fields, ids) == q.fields;
    } else {
      KeptFieldsStep(q.fields, fields, ids);
      var items, tail := FieldItems(fields, ids), FieldItems(fields, ids[1..]);
      if ids[0] in fields {
        var it := Item(ids[0], fields[ids[0]]);
        assert items == [it] + tail;
        assert items[0] == it && items[1..] == tail;
        var q1 := SetItem(q, Item(it.id, Kept(it.value)));
        ApplyFields(q1, fields, ids[1..]);
      } else {
        assert items == tail;
        ApplyFields(q, fields, ids[1..]);
      }
    }
  }

  lemma {:induction false} ApplyUsers(q: Properties, user: seq<User>)
    requires ItemsTyped(UserItems(user))
    ensures ApplyItems(q, UserItems(user)) == q.(user := q.user + KeptUsers(user))
    decreases |user|
  {
    if user == [] {
      assert q.user + KeptUsers(user) == q.user;
    } else {
      var first := Item(USER, PairValue(user[0].key, user[0].value));
      assert UserItems(user)[1..] == UserItems(user[1..]);
      var q1 := SetItem(q, Item(first.id, Kept(first.value)));
      ApplyUsers(q1, user[1..]);
      assert q1.user + KeptUsers(user[1..]) == q.user + KeptUsers(user);
    }
  }

  lemma FieldItemsTyped(fields: map<byte, Value>, ids: seq<byte>)
    requires forall id <- fields :: FieldOk(id, fields[id]) && (id in ids ==> ValueFits(fields[id]))
    ensures ItemsTyped(FieldItems(fields, ids))
  {
    FieldItemsIn(fields, ids);
    var items := FieldItems(fields, ids);
    forall i | 0 <= i < |items|
      ensures ValueFits(items[i].value) && KindFor(items[i].id) == Some(items[i].value.KindOf())
    {
      assert items[i] in items;
    }
  }

  lemma ItemsAreTyped(p: Properties, t: byte)
    requires PackFits(p, t)
    ensures ItemsTyped(FieldItems(p.fields, PackOrder(t))) && ItemsTyped(UserItems(p.user)) && ItemsTyped(Items(p, t))
  {
    FieldItemsTyped(p.fields, PackOrder(t));
    UserItemsIn(p.user);
    assert forall i | 0 <= i < |UserItems(p.user)| :: UserItems(p.user)[i] in UserItems(p.user);
  }

  /** A property set is readable for a packet type unless Pack writes a reason string where
      ValidateID refuses one. */
  predicate Readable(p: Properties, t: byte) {
    !(t in {PUBLISH, SUBSCRIBE, UNSUBSCRIBE} && REASON_STRING in p.fields)
  }

  lemma NoReasonString(t: byte)
    requires HasProperties(t)
    ensures t in {PUBLISH, SUBSCRIBE, UNSUBSCRIBE} ==> !ValidateID(t, REASON_STRING)
    ensures ValidateID(t, USER)
  {}

  lemma PackedItemsValid(p: Properties, t: byte)
    requires HasProperties(t) && PackFits(p, t)
    ensures Readable(p, t) <==> forall i | 0 <= i < |Items(p, t)| :: ValidateID(t, Items(p, t)[i].id)
  {
    hide PackOrder, ValidateID, FieldItems, UserItems;
    var items, order := Items(p, t), PackOrder(t);
    FieldItemsIn(p.fields, order);
    UserItemsIn(p.user);
    PackAgainstValidate(t, REASON_STRING);
    NoReasonString(t);
    if Readable(p, t) {
      forall i | 0 <= i < |items|
        ensures ValidateID(t, items[i].id)
      {
        if i < |FieldItems(p.fields, order)| {
          assert items[i] in FieldItems(p.fields, order);
          PackAgainstValidate(t, items[i].id);
        } else {
          assert items[i] in UserItems(p.user);
        }
      }
    } else {
      FieldPresent(p.fields, order, REASON_STRING);
      var k :| 0 <= k < |FieldItems(p.fields, order)| && FieldItems(p.fields, order)[k].id == REASON_STRING;
      assert items[k].id == REASON_STRING && !ValidateID(t, REASON_STRING);
    }
  }

  lemma {:induction false} FieldPresent(fields: map<byte, Value>, ids: seq<byte>, id: byte)
    requires id in ids && id in fields
    ensures exists k :: 0 <= k < |FieldItems(fields, ids)| && FieldItems(fields, ids)[k].id == id
  {
    var items := FieldItems(fields, ids);
    if ids[0] == id {
      assert items[0].id == id;
    } else {
      FieldPresent(fields, ids[1..], id);
      var k :| 0 <= k < |FieldItems(fields, ids[1..])| && FieldItems(fields, ids[1..])[k].id == id;
      var shift := if ids[0] in fields then 1 else 0;
      assert items[k + shift] == FieldItems(fields, ids[1..])[k];
    }
  }

  /** Setting the packed items one by one on an empty set gives the selected part. */
  lemma ApplyPacked(p: Properties, t: byte)
    requires PackFits(p, t)
    ensures ItemsTyped(Items(p, t)) && ApplyItems(NoProperties, Items(p, t)) == Selected(p, t)
  {
    var order := PackOrder(t);
    ItemsAreTyped(p, t);
    ApplyAppend(NoProperties, FieldItems(p.fields, order), UserItems(p.user));
    ApplyFields(NoProperties, p.fields, order);
    var q := ApplyItems(NoProperties, FieldItems(p.fields, order));
    ApplyUsers(q, p.user);
    assert q.fields == KeptFields(p.fields, order);
    assert q.user + KeptUsers(p.user) == KeptUsers(p.user);
  }

  lemma UnpackNothing(t: byte, p: Properties)
    ensures UnpackItems([], t, p) == Ok(p)
  {}

  /** Unpack of a length-prefixed run of bytes is the loop over exactly those bytes. */
  lemma UnpackFramed(packed: seq<byte>, t: byte, p: Properties, rest: seq<byte>)
    requires |packed| <= MAX_VBI
    ensures Unpack(Vbi(|packed|) + packed + rest, t, p)
         == match UnpackItems(packed, t, p)
            case Err(e) => Fail(e)
            case Ok(q) => Done(q, rest)
  {
    hide Vbi, ReadVbi, UnpackItems;
    UnpackNothing(t, p);
    Associate(Vbi(|packed|), packed, rest);
    VbiRoundTrip(|packed|, packed + rest);
    Cut(packed, rest);
  }

  /** Unpacking what was packed returns exactly the fields Pack selects for the packet type, with
      the user properties in order, and leaves the bytes that follow untouched. It succeeds if and
      only if no reason string is set for PUBLISH, SUBSCRIBE or UNSUBSCRIBE. */
  lemma PropertiesRoundTrip(p: Properties, t: byte, rest: seq<byte>)
    requires HasProperties(t) && Section(p, t).Ok?
    ensures var r := Unpack(Section(p, t).value + rest, t, NoProperties);
      if Readable(p, t) then r == Done(Selected(p, t), rest) else r.Fail?
  {
    UnpackFramed(Pack(p, t).value, t, NoProperties, rest);
    ApplyPacked(p, t);
    ItemsRoundTrip(Items(p, t), t, NoProperties);
    PackedItemsValid(p, t);
  }

  /** Nothing is lost exactly when the set holds only fields written for the type, all within length. */
  lemma SelectedIsAll(p: Properties, t: byte)
    ensures Selected(p, t) == p <==> Canonical(p, t)
  {
    KeptIsAll(p, PackOrder(t));
  }

  /** The items of what is kept: the same codes, each with what is kept of its value. */
  ghost predicate KeptItems(items: seq<Item>, kept: seq<Item>) {
    |items| == |kept| && forall i | 0 <= i < |items| :: kept[i] == Item(items[i].id, Kept(items[i].value))
  }

  lemma KeptValueBytes(v: Value)
    requires ValueFits(v)
    ensures ValueFits(Kept(v)) && EncodeValue(Kept(v)) == EncodeValue(v)
  {}

  lemma {:induction false} KeptItemsBytes(items: seq<Item>, kept: seq<Item>)
    requires KeptItems(items, kept) && forall i | 0 <= i < |items| :: ValueFits(items[i].value)
    ensures (forall i | 0 <= i < |kept| :: ValueFits(kept[i].value)) && EncodeItems(kept) == EncodeItems(items)
    decreases |items|
  {
    hide Kept, EncodeValue, ValueFits;
    forall i | 0 <= i < |kept|
      ensures ValueFits(kept[i].value)
    {
      KeptValueBytes(items[i].value);
    }
    if items != [] {
      KeptValueBytes(items[0].value);
      KeptItemsBytes(items[1..], kept[1..]);
    }
  }

  lemma {:induction false} KeptFieldItems(fields: map<byte, Value>, order: seq<byte>, ids: seq<byte>)
    requires forall id <- ids :: id in order
    ensures KeptItems(FieldItems(fields, ids), FieldItems(KeptFields(fields, order), ids))
    decreases |ids|
  {
    hide Kept;
    if ids != [] {
      assert ids[0] in ids;
      KeptFieldItems(fields, order, ids[1..]);
    }
  }

  lemma {:induction false} KeptUserItems(user: seq<User>)
    ensures KeptItems(UserItems(user), UserItems(KeptUsers(user)))
    decreases |user|
  {
    if user != [] {
      KeptUserItems(user[1..]);
      assert KeptUsers(user)[1..] == KeptUsers(user[1..]);
    }
  }

  /** Packing what is kept of a set gives the same bytes as packing the set. */
  lemma PackSelected(p: Properties, t: byte)
    requires PackFits(p, t)
    ensures Pack(Selected(p, t), t) == Pack(p, t)
  {
    hide FieldItems, UserItems, PackOrder, EncodeItems, EncodeValue;
    var order := PackOrder(t);
    KeptFieldItems(p.fields, order, order);
    KeptUserItems(p.user);
    ItemsFit(p, t);
    KeptItemsBytes(Items(p, t), Items(Selected(p, t), t));
  }

  lemma KeptIsAll(p: Properties, ids: seq<byte>)
    ensures KeptFields(p.fields, ids) == p.fields && KeptUsers(p.user) == p.user
       <==> StringsFit(p) && forall id <- p.fields :: id in ids
  {
    if StringsFit(p) && forall id <- p.fields :: id in ids {
      assert KeptFields(p.fields, ids) == p.fields;
      assert KeptUsers(p.user) == p.user;
    } else if KeptFields(p.fields, ids) == p.fields && KeptUsers(p.user) == p.user {
      forall id | id in p.fields
        ensures id in ids && (p.fields[id].DataValue? ==> |p.fields[id].data| <= MAX_STRING)
      {
        assert id in KeptFields(p.fields, ids);
      }
      forall i | 0 <= i < |p.user|
        ensures |p.user[i].key| <= MAX_STRING && |p.user[i].value| <= MAX_STRING
      {
        assert KeptUsers(p.user)[i] == p.user[i];
      }
    }
  }
}
