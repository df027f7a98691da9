/** Properties.Pack and Properties.Unpack of packets/properties.go over buffers, proved against module
    Properties. */
module PropertyBuffers {
  import opened Basics
  import opened Wire
  import opened P = Properties
  import opened WireBuffers

  // ---- Pack ----

  ghost function ItemBytes(it: Item): seq<byte> {
    if ValueFits(it.value) then [it.id] + EncodeValue(it.value) else []
  }

  /** The encoding of a list of items, built from the front. */
  ghost function Appended(items: seq<Item>): seq<byte> {
    if items == [] then [] else Appended(items[..|items| - 1]) + ItemBytes(items[|items| - 1])
  }

  lemma AppendedStep(items: seq<Item>, it: Item)
    ensures Appended(items + [it]) == Appended(items) + ItemBytes(it)
  {
    assert (items + [it])[..|items|] == items;
  }

  lemma {:induction false} AppendedFront(it: Item, items: seq<Item>)
    ensures Appended([it] + items) == ItemBytes(it) + Appended(items)
    decreases |items|
  {
    hide ItemBytes;
    if items == [] {
      assert [it] + items == [] + [it];
      AppendedStep([], it);
    } else {
      var n := |items| - 1;
      AppendedFront(it, items[..n]);
      AppendedStep([it] + items[..n], items[n]);
      assert [it] + items == ([it] + items[..n]) + [items[n]];
      Associate(ItemBytes(it), Appended(items[..n]), ItemBytes(items[n]));
    }
  }

  lemma {:induction false} AppendedIsEncoding(items: seq<Item>)
    requires forall i | 0 <= i < |items| :: ValueFits(items[i].value)
    ensures Appended(items) == EncodeItems(items)
    decreases |items|
  {
    if items != [] {
      AppendedIsEncoding(items[1..]);
      AppendedFront(items[0], items[1..]);
      assert [items[0]] + items[1..] == items;
    }
  }

  lemma {:induction false} FieldItemsStep(fields: map<byte, Value>, ids: seq<byte>, id: byte)
    ensures FieldItems(fields, ids + [id])
         == FieldItems(fields, ids) + if id in fields then [Item(id, fields[id])] else []
    decreases |ids|
  {
    if ids != [] {
      FieldItemsStep(fields, ids[1..], id);
      assert (ids + [id])[1..] == ids[1..] + [id];
    }
  }

  /** The properties in these fields are what the buffer holds. */
  ghost predicate Holds(b: Buffer, p: Properties, done: seq<byte>)
    reads b
  {
    b.data == Appended(FieldItems(p.fields, done))
  }

  lemma HoldsNothing(b: Buffer, p: Properties)
    requires b.data == []
    ensures Holds(b, p, [])
  {}

  lemma HoldsMore(b: Buffer, p: Properties, done: seq<byte>, id: byte)
    requires Holds(b, p, done)
    ensures Appended(FieldItems(p.fields, done + [id]))
         == b.data + if id in p.fields then ItemBytes(Item(id, p.fields[id])) else []
  {
    hide ItemBytes, Appended, FieldItems;
    var items := FieldItems(p.fields, done);
    FieldItemsStep(p.fields, done, id);
    if id in p.fields {
      AppendedStep(items, Item(id, p.fields[id]));
    } else {
      assert items + [] == items && b.data + [] == b.data;
    }
  }

  lemma FieldKind(p: Properties, id: byte)
    requires id in p.fields
    ensures p.fields[id].VbiValue? <==> id == 11
    ensures !p.fields[id].PairValue?
  {
    assert FieldOk(id, p.fields[id]);
  }

  method WriteValue(b: Buffer, v: Value)
    requires !v.VbiValue? && !v.PairValue?
    modifies b
    ensures b.data == old(b.data) + EncodeValue(v)
  {
    hide U16, U32, Bin;
    match v {
      case ByteValue(n) => b.WriteByte(n);
      case U16Value(n) => b.WriteUint16(n);
      case U32Value(n) => b.WriteUint32(n);
      case DataValue(d) => b.WriteBinary(d);
    }
  }

  /** Write one field if it is set. */
  method Field(b: Buffer, p: Properties, id: byte, ghost done: seq<byte>) returns (ghost more: seq<byte>)
    requires Holds(b, p, done) && id != 11
    modifies b
    ensures more == done + [id] && Holds(b, p, more)
  {
    hide Appended, FieldItems, KindFor, EncodeValue;
    more := done + [id];
    HoldsMore(b, p, done, id);
    if id in p.fields {
      FieldKind(p, id);
      Associate(b.data, [id], EncodeValue(p.fields[id]));
      b.WriteByte(id);
      WriteValue(b, p.fields[id]);
    }
  }

  /** The subscription identifier is the one field that may not fit. */
  method SubscriptionIdentifier(b: Buffer, p: Properties, ghost done: seq<byte>)
    returns (ok: bool, ghost more: seq<byte>)
    requires Holds(b, p, done)
    modifies b
    ensures more == done + [11]
    ensures ok <==> (11 in p.fields ==> ValueFits(p.fields[11]))
    ensures ok ==> Holds(b, p, more)
  {
    hide Appended, FieldItems, KindFor, Vbi;
    ok, more := true, done + [11];
    HoldsMore(b, p, done, 11);
    if 11 in p.fields {
      FieldKind(p, 11);
      b.WriteByte(11);
      ok := b.WriteVbi(p.fields[11].n);
    }
  }

  method PublishFields(b: Buffer, p: Properties, ghost done: seq<byte>) returns (ghost more: seq<byte>)
    requires Holds(b, p, done)
    modifies b
    ensures more == done + [1, 2, 3, 8, 9, 35] && Holds(b, p, more)
  {
    hide Holds;
    more := Field(b, p, 1, done);
    more := Field(b, p, 2, more);
    more := Field(b, p, 3, more);
    more := Field(b, p, 8, more);
    more := Field(b, p, 9, more);
    more := Field(b, p, 35, more);
  }

  method ConnackFields(b: Buffer, p: Properties, ghost done: seq<byte>) returns (ghost more: seq<byte>)
    requires Holds(b, p, done)
    modifies b
    ensures more == done + [36, 18, 19, 40, 41, 42, 37, 26] && Holds(b, p, more)
  {
    hide Holds;
    more := Field(b, p, 36, done);
    more := Field(b, p, 18, more);
    more := Field(b, p, 19, more);
    more := Field(b, p, 40, more);
    more := Field(b, p, 41, more);
    more := Field(b, p, 42, more);
    more := Field(b, p, 37, more);
    more := Field(b, p, 26, more);
  }

  /** The fields Pack writes first, up to those of CONNACK alone. */
  function Early(t: byte): seq<byte> {
    (if t == PUBLISH then [1, 2, 3, 8, 9, 35] else []) +
    (if t in {PUBLISH, SUBSCRIBE} then [11] else []) +
    (if t in {CONNECT, CONNACK} then [33, 34, 39] else []) +
    (if t == CONNACK then [36, 18, 19, 40, 41, 42, 37, 26] else [])
  }

  method EarlyFields(b: Buffer, p: Properties, t: byte) returns (ok: bool)
    requires b.data == []
    modifies b
    ensures ok <==> (t in {PUBLISH, SUBSCRIBE} && 11 in p.fields ==> ValueFits(p.fields[11]))
    ensures ok ==> Holds(b, p, Early(t))
  {
    hide Holds;
    HoldsNothing(b, p);
    ghost var done: seq<byte> := [];
    if t == PUBLISH {
      done := PublishFields(b, p, done);
    }
    if t == PUBLISH || t == SUBSCRIBE {
      ok, done := SubscriptionIdentifier(b, p, done);
      if !ok {
        return;
      }
    }
    if t == CONNECT || t == CONNACK {
      done := Field(b, p, 33, done);
      done := Field(b, p, 34, done);
      done := Field(b, p, 39, done);
    }
    if t == CONNACK {
      done := ConnackFields(b, p, done);
    }
    assert done == Early(t);
    ok := true;
  }

  method LateFields(b: Buffer, p: Properties, t: byte, ghost early: seq<byte>) returns (ghost done: seq<byte>)
    requires Holds(b, p, early)
    modifies b
    ensures done == early +
      (if t == CONNECT then [23, 24, 25] else []) +
      (if t in {CONNECT, CONNACK, DISCONNECT} then [17] else []) +
      (if t in {CONNECT, CONNACK, AUTH} then [21, 22] else []) +
      (if t in {CONNACK, DISCONNECT} then [28] else []) +
      (if t != CONNECT then [31] else [])
    ensures Holds(b, p, done)
  {
    hide Holds;
    done := early;
    if t == CONNECT {
      done := Field(b, p, 23, done);
      done := Field(b, p, 24, done);
      done := Field(b, p, 25, done);
    }
    if t == CONNECT || t == CONNACK || t == DISCONNECT {
      done := Field(b, p, 17, done);
    }
    if t == CONNECT || t == CONNACK || t == AUTH {
      done := Field(b, p, 21, done);
      done := Field(b, p, 22, done);
    }
    if t == CONNACK || t == DISCONNECT {
      done := Field(b, p, 28, done);
    }
    if t != CONNECT {
      done := Field(b, p, 31, done);
    }
  }

  lemma SubscriptionOrder(t: byte)
    ensures 11 in PackOrder(t) <==> t in {PUBLISH, SUBSCRIBE}
  {}

  lemma FitsExactly(p: Properties, t: byte)
    ensures PackFits(p, t) <==> (t in {PUBLISH, SUBSCRIBE} && 11 in p.fields ==> ValueFits(p.fields[11]))
  {
    hide PackOrder;
    SubscriptionOrder(t);
    forall id <- p.fields | id != 11
      ensures ValueFits(p.fields[id])
    {
      assert FieldOk(id, p.fields[id]);
    }
  }

  method Pack(p: Properties, t: byte) returns (r: Result<seq<byte>>)
    ensures r == P.Pack(p, t)
  {
    hide Holds, EncodeItems, Appended, FieldItems, U16, PackFits;
    FitsExactly(p, t);
    var b := new Buffer([]);
    var ok := EarlyFields(b, p, t);
    if !ok {
      return Err(TooLong);
    }
    ghost var done := LateFields(b, p, t, Early(t));
    assert done == PackOrder(t);
    HoldsIs(b, p, done);
    ghost var items := FieldItems(p.fields, PackOrder(t));
    var i := 0;
    UsersNone(items);
    while i < |p.user|
      invariant 0 <= i <= |p.user|
      invariant b.data == Appended(items + UserItems(p.user[..i]))
    {
      UserStep(items, p.user, i);
      b.WriteByte(USER);
      b.WriteBinary(p.user[i].key);
      b.WriteBinary(p.user[i].value);
      i := i + 1;
    }
    assert p.user[..i] == p.user;
    ItemsFit(p, t);
    AppendedIsEncoding(Items(p, t));
    return Ok(b.data);
  }

  lemma HoldsIs(b: Buffer, p: Properties, done: seq<byte>)
    requires Holds(b, p, done)
    ensures b.data == Appended(FieldItems(p.fields, done))
  {}

  lemma UsersNone(items: seq<Item>)
    ensures items + UserItems([]) == items
  {}

  lemma {:induction false} UserItemsStep(user: seq<User>, u: User)
    ensures UserItems(user + [u]) == UserItems(user) + [Item(USER, PairValue(u.key, u.value))]
    decreases |user|
  {
    if user != [] {
      UserItemsStep(user[1..], u);
      assert (user + [u])[1..] == user[1..] + [u];
    }
  }

  lemma UserStep(items: seq<Item>, user: seq<User>, i: nat)
    requires i < |user|
    ensures Appended(items + UserItems(user[..i + 1]))
         == Appended(items + UserItems(user[..i])) + [USER] + Bin(user[i].key) + Bin(user[i].value)
  {
    hide Appended, UserItems, Bin;
    var it := Item(USER, PairValue(user[i].key, user[i].value));
    assert user[..i + 1] == user[..i] + [user[i]];
    UserItemsStep(user[..i], user[i]);
    Associate(items, UserItems(user[..i]), [it]);
    AppendedStep(items + UserItems(user[..i]), it);
    AssociateUser(Appended(items + UserItems(user[..i])), Bin(user[i].key), Bin(user[i].value));
  }

  lemma AssociateUser(a: seq<byte>, k: seq<byte>, v: seq<byte>)
    ensures a + ([USER] + (k + v)) == a + [USER] + k + v
  {}

  // ---- Unpack ----

  method ReadValue(b: Buffer, k: Kind) returns (r: Result<Value>)
    modifies b
    ensures Reads(r, b.data, P.ReadValue(k, old(b.data)))
  {
    match k {
      case ByteKind =>
        var v :- b.ReadByte();
        return Ok(ByteValue(v));
      case U16Kind =>
        var v :- b.ReadUint16();
        return Ok(U16Value(v));
      case U32Kind =>
        var v :- b.ReadUint32();
        return Ok(U32Value(v));
      case VbiKind =>
        var v :- b.DecodeVbi();
        return Ok(VbiValue(v));
      case DataKind =>
        var v :- b.ReadBinary();
        return Ok(DataValue(v));
      case PairKind =>
        var key :- b.ReadBinary();
        var v :- b.ReadBinary();
        return Ok(PairValue(key, v));
    }
  }

  method Unpack(b: Buffer, t: byte, p: Properties) returns (r: Result<Properties>)
    modifies b
    ensures Reads(r, b.data, P.Unpack(old(b.data), t, p))
  {
    hide Wire.ReadVbi, UnpackItems;
    var size :- b.ReadVbi();
    if size == 0 {
      return Ok(p);
    }
    var n := Min(size, |b.data|);
    var buf := new Buffer(b.data[..n]);
    b.data := b.data[n..];
    r := UnpackAll(buf, t, p);
  }

  /** The loop over the bytes of the property section. */
  method UnpackAll(buf: Buffer, t: byte, p: Properties) returns (r: Result<Properties>)
    modifies buf
    ensures r == UnpackItems(old(buf.data), t, p)
  {
    hide P.ReadValue, ValidateID, KindFor;
    var q := p;
    while true
      invariant UnpackItems(old(buf.data), t, p) == UnpackItems(buf.data, t, q)
      decreases |buf.data|
    {
      ghost var left := buf.data;
      var propType := buf.ReadByte();
      if propType.Err? {
        return Ok(q);
      }
      if !ValidateID(t, propType.value) {
        return Err(BadProperty(propType.value));
      }
      ValidHasKind(t, propType.value);
      var v :- ReadValue(buf, KindFor(propType.value).value);
      q := SetItem(q, Item(propType.value, v));
    }
  }

  /** The length-prefixed property section. */
  method WriteSection(b: Buffer, p: Properties, t: byte) returns (r: Result<()>)
    modifies b
    ensures match Section(p, t)
      case Ok(bytes) => r == Ok(()) && b.data == old(b.data) + bytes
      case Err(e) => r == Err(e)
  {
    hide P.Pack, Vbi;
    var packed :- Pack(p, t);
    Associate(b.data, Vbi(|packed|), packed);
    var ok := b.WriteVbi(|packed|);
    if !ok {
      return Err(TooLong);
    }
    b.Write(packed);
    return Ok(());
  }
}
