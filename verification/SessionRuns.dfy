/** Every run of a session: connections that come and go, restarts, publishers that wait for a slot
    and then add their packet, packets from the server, acknowledgements and shutdown. */
module SessionRuns {
  import opened Basics
  import opened Wire
  import opened Properties
  import opened Packets
  import opened Stream
  import opened StoreLog
  import opened SendQuota
  import opened Session
  import PacketIds

  /** The session with its environment: the publishers that hold a slot and have not stored their
      packet yet, and the response channels that have been passed in so far. */
  datatype World = World(s: State, pending: set<Ticket>, used: set<nat>)

  datatype Event =
    | ConAckEvent(connectExpiry: Option<uint32>, ca: Connack, writable: nat)
    | LostEvent(interval: Option<uint32>)
    | RestartEvent
    | EnterEvent(t: Ticket)
    | CancelEvent(t: Ticket)
    | PublishEvent(t: Ticket, m: Publish, chan: nat, storeFails: bool)
    | RequestEvent(kind: byte, chan: nat)
    | ReceiveEvent(p: Incoming)
    | AckEvent(m: Publish)
    | CloseEvent

  /** A PUBLISH that goes through the session: QoS above 0 in two bits, and it can be encoded and read back.
      Of strings that are too long, and of properties that a PUBLISH does not have, it is stored and sent
      what the encoding keeps. */
  predicate Storable(m: Publish) {
    0 < m.qos < 4 && Encode(PublishPacket(m)).Ok? && Readable(m.properties, PUBLISH)
  }

  /** What the callers of the session keep to. Requests are made while the connection is set, usable or not,
      and with a fresh channel. Packets are handled after the first connection, and while one is set if
      they make the session write to it without looking. */
  predicate Enabled(w: World, e: Event) {
    match e
    case EnterEvent(t) => !w.s.conn.Down? && t !in w.pending && t !in w.s.quota.waiters
    case CancelEvent(t) => t in w.s.quota.waiters
    case PublishEvent(t, m, chan, _) => t in w.pending && chan !in w.used && Storable(m)
    case RequestEvent(kind, chan) => !w.s.conn.Down? && chan !in w.used && kind in {SUBSCRIBE, UNSUBSCRIBE}
    case ReceiveEvent(p) => w.s.server.Some? && (Writes(w.s, p) ==> !w.s.conn.Down?)
    case AckEvent(m) => w.s.server.Some?
    case _ => true
  }

  /** The waiter, if any, to which an operation handed a slot. */
  function Woken(before: Quota, after: Quota): set<Ticket> {
    if |after.waiters| < |before.waiters| then {before.waiters[0]} else {}
  }

  /** The world after a packet was handled. */
  function Handled(w: World, s': State): World {
    w.(s := s', pending := w.pending + Woken(w.s.quota, s'.quota))
  }

  ghost function Next(w: World, e: Event): (World, Out)
    requires WellFormed(w.s.clientStore) && Enabled(w, e)
  {
    var s := w.s;
    match e
    case ConAckEvent(connectExpiry, ca, writable) =>
      var (s', out) := ConAck(s, connectExpiry, ca, writable);
      (w.(s := s'), out)
    case LostEvent(interval) => (w.(s := ConnectionLost(s, interval)), Quiet)
    case RestartEvent => (w.(s := Restarted(s), pending := {}), Quiet)
    case EnterEvent(t) =>
      (w.(s := s.(quota := Enter(s.quota, t, false)), pending := if Free(s.quota) then w.pending + {t} else w.pending),
       Quiet)
    case CancelEvent(t) => (w.(s := s.(quota := Leave(s.quota, t))), Quiet)
    case PublishEvent(t, m, chan, storeFails) =>
      var (s', added) := AddPublish(s, m, Caller(chan), storeFails);
      (World(s', w.pending - {t} + Woken(s.quota, s'.quota), w.used + {chan}),
       Quiet.(sent := if added.Added? then [PublishPacket(m.(packetID := added.id))] else [], failed := !added.Added?))
    case RequestEvent(kind, chan) =>
      var (s', added) := AddRequest(s, kind, Caller(chan));
      (w.(s := s', used := w.used + {chan}), Quiet.(failed := !added.Added?))
    case ReceiveEvent(p) =>
      var (s', out) := Receive(s, p);
      (Handled(w, s'), out)
    case AckEvent(m) =>
      var (s', out) := Acknowledge(s, m);
      (w.(s := s'), out)
    case CloseEvent =>
      var (s', out) := Closed(s);
      (w.(s := s'), out)
  }

  // ---- The invariant ----

  /** A packet of the client store: a PUBLISH or PUBREL under its own identifier that can be read back
      and sent. */
  predicate ClientStored(id: Id, packet: seq<byte>) {
    var r := ReadPacket(packet);
    && r.Done?
    && Sendable(r.value)
    && match r.value
       case PublishPacket(m) => m.packetID == id && m.qos > 0
       case AckPacket(ack, packetID, _, _) => ack == PUBREL && packetID == id
       case _ => false
  }

  ghost predicate ClientStoreOk(store: Log) {
    WellFormed(store) && forall id | id in store.data :: ClientStored(id, store.data[id].packet)
  }

  ghost predicate ServerStoreOk(store: Log) {
    WellFormed(store) && forall id | id in store.data :: StoredType(store.data[id].packet) == Some(PUBREC)
  }

  /** What is known of the server's messages is exactly what is stored about them. */
  ghost predicate ServerOk(server: map<Id, byte>, store: Log) {
    server.Keys == store.data.Keys && forall id | id in server :: server[id] == PUBREC
  }

  /** The registered publishes are stored, and no other request shares an identifier with a stored
      packet. */
  ghost predicate ClientOk(client: map<Id, Entry>, store: Log) {
    forall id | id in client :: IsPublish(client[id]) <==> id in store.data
  }

  ghost predicate AllRegistered(client: map<Id, Entry>, store: Log) {
    forall id | id in store.data :: id in client
  }

  /** Nobody waits twice, or waits while holding a slot. */
  ghost predicate WaitersOk(waiters: seq<Ticket>, pending: set<Ticket>) {
    && (forall i, j | 0 <= i < j < |waiters| :: waiters[i] != waiters[j])
    && (forall i | 0 <= i < |waiters| :: waiters[i] !in pending)
  }

  ghost predicate QuotaOk(q: Quota, stored: nat, pending: nat) {
    Held(q) == stored + pending && (q.waiters != [] ==> q.quota <= 0)
  }

  /** Channels in use were passed in, each for one request. */
  ghost predicate ChannelsOk(client: map<Id, Entry>, used: set<nat>) {
    && (forall id | id in client && client[id].chan.Caller? :: client[id].chan.n in used)
    && (forall a, b | a in client && b in client && a != b && client[a].chan.Caller? ::
          client[a].chan != client[b].chan)
  }

  /** What holds in every state. */
  ghost predicate Base(s: State, used: set<nat>) {
    && ClientStoreOk(s.clientStore)
    && ServerStoreOk(s.serverStore)
    && (s.server.Some? ==> ServerOk(s.server.value, s.serverStore))
    && ChannelsOk(s.client, used)
  }

  /** What every run keeps. */
  ghost predicate Invariant(w: World) {
    && Base(w.s, w.used)
    && (w.s.server.None? ==> w.s.conn.Down?)
    && WaitersOk(w.s.quota.waiters, w.pending)
    && w.s.quota.quota <= w.s.quota.initial
  }

  /** The registered publishes are stored and no other request has the identifier of a stored packet; with a
      live connection every stored packet is registered. */
  ghost predicate Matched(w: World) {
    ClientOk(w.s.client, w.s.clientStore) && (w.s.conn.Up? ==> AllRegistered(w.s.client, w.s.clientStore))
  }

  /** The only events that lose it: a request is given the identifier of a stored packet, or the server answers
      one that is not a publish with PUBREC. */
  ghost predicate Mixes(w: World, e: Event) {
    match e
    case RequestEvent(_, _) =>
      var id := PacketIds.NextFree(w.s.last, w.s.client.Keys);
      id.Some? && id.value in w.s.clientStore.data
    case ReceiveEvent(Pubrec(id, reason)) => reason < 0x80 && id in w.s.client && !IsPublish(w.s.client[id])
    case _ => false
  }

  /** With a live connection every stored packet holds a slot, and so does every publisher about to store;
      nothing else does. */
  ghost predicate Counted(w: World) {
    w.s.conn.Up? ==> QuotaOk(w.s.quota, |w.s.clientStore.data|, |w.pending|)
  }

  /** The only event that loses it: a connection is established while a publisher is between its slot and the
      store. */
  predicate LosesCount(w: World, e: Event) {
    e.ConAckEvent? && w.pending != {}
  }

  /** Every stored packet is registered while there is, or may yet be, a publisher about to store. */
  ghost predicate Settled(w: World) {
    w.pending != {} || (w.s.quota.waiters != [] && (w.s.client != map[] || !w.s.conn.Down?)) ==>
      AllRegistered(w.s.client, w.s.clientStore)
  }

  /** The only events that lose it: the session is closed while a publisher is between its slot and the store,
      or a publisher comes while not every stored packet is registered. */
  ghost predicate Unsettles(w: World, e: Event) {
    (e.CloseEvent? && w.pending != {}) || (e.EnterEvent? && !AllRegistered(w.s.client, w.s.clientStore))
  }

  /** An event that loses nothing. */
  ghost predicate Keeps(w: World, w': World) {
    && Invariant(w')
    && (Matched(w) ==> Matched(w') && (Counted(w) ==> Counted(w')) && (Settled(w) ==> Settled(w')))
  }

  // ---- Packets in the store ----

  lemma PublishSizes(m: Publish, id: Id)
    requires m.qos > 0 && PublishBody(m).Ok?
    ensures PublishBody(m.(packetID := id)).Ok? && PublishBody(m.(duplicate := true)) == PublishBody(m)
    ensures |PublishBody(m.(packetID := id)).value| == |PublishBody(m).value|
  {}

  lemma EncodesWithId(m: Publish, id: Id)
    requires m.qos > 0 && Encode(PublishPacket(m)).Ok?
    ensures Encode(PublishPacket(m.(packetID := id))).Ok? && Encode(PublishPacket(m.(duplicate := true))).Ok?
  {
    hide PublishBody;
    PublishSizes(m, id);
  }

  lemma DuplicateSendable(m: Publish)
    requires m.qos > 0 && Sendable(PublishPacket(m))
    ensures Sendable(PublishPacket(m.(duplicate := true)))
  {
    hide Encode;
    EncodesWithId(m, m.packetID);
  }

  /** What is kept of a PUBLISH encodes to the same bytes. */
  lemma KeptEncodes(m: Publish)
    requires Encode(PublishPacket(m)).Ok?
    ensures Encode(PublishPacket(KeptPublish(m))) == Encode(PublishPacket(m))
  {
    hide PublishBody;
    KeptBody(m);
  }

  /** A stored PUBLISH is read back as what the encoding kept of it under its identifier, and can be sent. */
  lemma PublishIsStored(m: Publish, id: Id)
    requires Storable(m)
    ensures ReadPacket(Written(PublishPacket(m.(packetID := id))))
         == Done(PublishPacket(KeptPublish(m.(packetID := id))), [])
    ensures ClientStored(id, Written(PublishPacket(m.(packetID := id))))
  {
    hide Encode, ReadPacket, Faithful, Readable, KeptPublish;
    var stored := m.(packetID := id);
    var bytes := Written(PublishPacket(stored));
    EncodesWithId(m, id);
    PublishRoundTrip(stored, []);
    assert bytes + [] == bytes;
    ReadIsFaithful(bytes);
    KeptEncodes(stored);
    KeptIdentity(stored);
  }

  lemma KeptIdentity(m: Publish)
    requires m.qos > 0
    ensures KeptPublish(m).packetID == m.packetID && KeptPublish(m).qos == m.qos
  {}

  /** An encodable PUBLISH can be sent again from the store exactly when it carries no reason string; with
      one it is taken for corrupt and dropped at the next connection. */
  lemma StorableExactly(m: Publish, id: Id)
    requires 0 < m.qos < 4 && Encode(PublishPacket(m)).Ok?
    ensures Resendable(Written(PublishPacket(m.(packetID := id)))).Some? <==> Readable(m.properties, PUBLISH)
  {
    hide Encode, ReadPacket, KeptPublish;
    var stored := m.(packetID := id);
    EncodesWithId(m, id);
    PublishRoundTrip(stored, []);
    assert Written(PublishPacket(stored)) + [] == Written(PublishPacket(stored));
  }

  lemma AckSendable(ack: AckType, id: Id, reason: byte)
    ensures Sendable(AckPacket(ack, id, reason, NoProperties))
    ensures StoredType(Written(AckPacket(ack, id, reason, NoProperties))) == Some(ack)
  {
    var p := AckPacket(ack, id, reason, NoProperties);
    assert Pack(NoProperties, ack) == Ok([]) by {
      NoItems(PackOrder(ack));
      assert FieldItems(NoProperties.fields, PackOrder(ack)) + UserItems([]) == [];
    }
    assert |Body(p).value| <= 4;
  }

  lemma {:induction false} NoItems(ids: seq<byte>)
    ensures FieldItems(map[], ids) == []
  {
    if ids != [] {
      NoItems(ids[1..]);
    }
  }

  lemma PubrelIsStored(id: Id)
    ensures ReadPacket(Written(PubrelFor(id, 0))) == Done(PubrelFor(id, 0), [])
    ensures ClientStored(id, Written(PubrelFor(id, 0)))
  {
    AckSendable(PUBREL, id, 0);
    SendableReads(PubrelFor(id, 0), []);
    assert Written(PubrelFor(id, 0)) + [] == Written(PubrelFor(id, 0));
  }

  /** A stored packet can always be sent again, and goes out under its identifier. */
  lemma StoredResends(id: Id, packet: seq<byte>)
    requires ClientStored(id, packet)
    ensures Resendable(packet).Some? && Encode(Resendable(packet).value).Ok?
    ensures TypeOf(Resendable(packet).value) in {PUBLISH, PUBREL}
  {
    var p := ReadPacket(packet).value;
    if p.PublishPacket? {
      DuplicateSendable(p.publish);
    }
  }

  // ---- Retransmission ----

  /** New entries are for stored packets, and nobody waits on them. */
  ghost predicate Grown(client: map<Id, Entry>, client': map<Id, Entry>, store: Log) {
    && (forall id | id in client :: id in client' && client'[id] == client[id])
    && (forall id | id in client' && id !in client ::
          id in store.data && IsPublish(client'[id]) && client'[id].chan == Internal)
  }

  /** Exactly these identifiers were registered if they were not before. */
  ghost predicate Registered(client: map<Id, Entry>, client': map<Id, Entry>, ids: seq<Id>) {
    forall id: Id :: id in client' <==> id in client || id in ids
  }

  ghost predicate SentFor(store: Log, ids: seq<Id>, sent: seq<Packet>) {
    && |sent| <= |ids|
    && forall i | 0 <= i < |sent| ::
         ids[i] in store.data && Resendable(store.data[ids[i]].packet) == Some(sent[i])
  }

  /** What the retransmission loop leaves behind: the packets sent, one slot for each, and an entry for
      each identifier that had none. */
  ghost predicate Resent(s: State, ids: seq<Id>, s': State, sent: seq<Packet>, slots: nat) {
    && SentFor(s.clientStore, ids, sent)
    && s' == s.(client := s'.client, quota := s.quota.(quota := s.quota.quota - slots))
    && Grown(s.client, s'.client, s.clientStore)
    && Registered(s.client, s'.client, ids[..|sent|])
  }

  function AfterResend(s: State, id: Id, p: Packet): State {
    var s1 := s.(quota := s.quota.(quota := s.quota.quota - 1));
    if id in s.client then s1 else s1.(client := s.client[id := Entry(TypeOf(p), Internal)])
  }

  lemma ResendOne(s: State, ids: seq<Id>, writable: nat, p: Packet)
    requires ids != [] && ids[0] in s.clientStore.data
    requires Resendable(s.clientStore.data[ids[0]].packet) == Some(p) && Encode(p).Ok?
    ensures writable == 0 ==>
              Resend(s, ids, writable) == (s.(quota := s.quota.(quota := s.quota.quota - 1)), [], false)
    ensures writable > 0 ==>
              var (s3, sent, ok) := Resend(AfterResend(s, ids[0], p), ids[1..], writable - 1);
              Resend(s, ids, writable) == (s3, [p] + sent, ok)
  {
    hide ReadPacket, Encode, Resendable;
  }

  lemma {:induction false} ResendAll(s: State, ids: seq<Id>, writable: nat)
    requires forall id <- ids :: id in s.clientStore.data && ClientStored(id, s.clientStore.data[id].packet)
    ensures var (s', sent, ok) := Resend(s, ids, writable);
      && (ok <==> |ids| <= writable)
      && |sent| == Min(|ids|, writable)
      && Resent(s, ids, s', sent, if ok then |ids| else writable + 1)
    decreases |ids|
  {
    hide ReadPacket, Encode, Resendable, ClientStored, Resend, Resent, TypeOf;
    if ids == [] {
      ResentNone(s, ids, writable);
    } else {
      var id := ids[0];
      StoredResends(id, s.clientStore.data[id].packet);
      var p := Resendable(s.clientStore.data[id].packet).value;
      ResendOne(s, ids, writable, p);
      if writable > 0 {
        var s2 := AfterResend(s, id, p);
        ResendAll(s2, ids[1..], writable - 1);
        var (s3, sent, ok) := Resend(s2, ids[1..], writable - 1);
        ResentStep(s, ids, s3, p, sent, if ok then |ids| - 1 else writable);
      } else {
        ResentNone(s, ids, writable);
      }
    }
  }

  lemma ResentNone(s: State, ids: seq<Id>, writable: nat)
    ensures ids == [] ==> Resend(s, ids, writable) == (s, [], true) && Resent(s, ids, s, [], 0)
    ensures Resent(s, ids, s.(quota := s.quota.(quota := s.quota.quota - 1)), [], 1)
  {
    hide Resendable, Encode;
  }

  lemma SentForStep(store: Log, ids: seq<Id>, p: Packet, sent: seq<Packet>)
    requires ids != [] && ids[0] in store.data && Resendable(store.data[ids[0]].packet) == Some(p)
    requires SentFor(store, ids[1..], sent)
    ensures SentFor(store, ids, [p] + sent)
  {
    hide Resendable;
    assert forall i | 0 < i < |sent| + 1 :: ids[i] == ids[1..][i - 1] && ([p] + sent)[i] == sent[i - 1];
  }

  lemma GrownStep(client: map<Id, Entry>, e: Entry, id: Id, client': map<Id, Entry>, store: Log, rest: seq<Id>)
    requires id in store.data && IsPublish(e) && e.chan == Internal
    requires var mid := if id in client then client else client[id := e];
      Grown(mid, client', store) && Registered(mid, client', rest)
    ensures Grown(client, client', store) && Registered(client, client', [id] + rest)
  {}

  lemma ResentStep(s: State, ids: seq<Id>, s3: State, p: Packet, sent: seq<Packet>, slots: nat)
    requires ids != [] && ids[0] in s.clientStore.data && Resendable(s.clientStore.data[ids[0]].packet) == Some(p)
    requires TypeOf(p) in {PUBLISH, PUBREL}
    requires Resent(AfterResend(s, ids[0], p), ids[1..], s3, sent, slots)
    ensures Resent(s, ids, s3, [p] + sent, slots + 1)
  {
    hide SentFor, Grown, Registered, Resendable, TypeOf;
    SentForStep(s.clientStore, ids, p, sent);
    assert |sent| <= |ids[1..]| by {
      SentSize(s.clientStore, ids[1..], sent);
    }
    GrownStep(s.client, Entry(TypeOf(p), Internal), ids[0], s3.client, s.clientStore, ids[1..][..|sent|]);
    assert ids[..|sent| + 1] == [ids[0]] + ids[1..][..|sent|];
  }

  lemma SentSize(store: Log, ids: seq<Id>, sent: seq<Packet>)
    requires SentFor(store, ids, sent)
    ensures |sent| <= |ids|
  {}

  // ---- Each event keeps the invariant ----

  lemma CleanBase(s: State, used: set<nat>)
    requires Base(s, used)
    ensures Base(Clean(s), used)
  {}

  lemma LostKeeps(w: World, interval: Option<uint32>)
    requires Invariant(w)
    ensures Keeps(w, w.(s := ConnectionLost(w.s, interval))) && ConnectionLost(w.s, interval).conn.Down?
  {
    hide ClientStored;
  }

  lemma LoadBase(s: State, used: set<nat>)
    requires Base(s, used)
    ensures Base(LoadServer(s), used)
  {
    hide ClientStored;
    assert LoadServer(s).serverStore.data == s.serverStore.data;
  }

  lemma ConnectedOk(w: World, connectExpiry: Option<uint32>, ca: Connack)
    requires Invariant(w)
    ensures var s := Connected(w.s, connectExpiry, ca);
      && Base(s, w.used) && s.conn.Up? && s.server.Some?
      && s.quota.quota == s.quota.initial && s.quota.waiters == []
  {
    hide ClientStoreOk, ServerStoreOk, ServerOk, ClientOk, ChannelsOk;
    LostKeeps(w, None);
    var s1 := ConnectionLost(w.s, None).(conn := Up);
    CleanBase(s1, w.used);
    var s2 := if ca.sessionPresent then s1 else Clean(s1);
    LoadBase(s2.(expiry := Connected(w.s, connectExpiry, ca).expiry), w.used);
  }

  /** What ConAckReceived may change once the connection is set up: the entries, the slots, and whether
      the connection is usable. It answers nobody and delivers nothing. */
  lemma ConAckShape(w: World, connectExpiry: Option<uint32>, ca: Connack, writable: nat)
    requires Invariant(w)
    ensures WellFormed(Connected(w.s, connectExpiry, ca).clientStore)
    ensures var s := Connected(w.s, connectExpiry, ca);
      var (s', out) := ConAck(w.s, connectExpiry, ca, writable);
      && s' == s.(conn := s'.conn, client := s'.client, quota := s'.quota)
      && Grown(s.client, s'.client, s.clientStore)
      && |out.sent| == Min(|Order(s.clientStore)|, writable)
      && Registered(s.client, s'.client, Order(s.clientStore)[..|out.sent|])
      && out == Quiet.(sent := out.sent, failed := out.failed)
  {
    hide ClientStored, Resendable, Resend, Connected;
    ConnectedOk(w, connectExpiry, ca);
    var s := Connected(w.s, connectExpiry, ca);
    var ids := Order(s.clientStore);
    ListingSize(ids, s.clientStore.data);
    ResendAll(s, ids, writable);
  }

  lemma ConAckKeeps(w: World, connectExpiry: Option<uint32>, ca: Connack, writable: nat)
    requires Invariant(w)
    ensures var w' := w.(s := ConAck(w.s, connectExpiry, ca, writable).0);
      && Invariant(w')
      && (Matched(w) ==> Matched(w') && (w.pending == {} ==> Counted(w')) && (Settled(w) ==> Settled(w')))
  {
    hide ClientStored, Resend, Resendable, Connected, Resent, ServerStoreOk, ServerOk, ClientOk, ChannelsOk, WaitersOk,
         AllRegistered, QuotaOk;
    ConnectedRegistered(w, connectExpiry, ca);
    ConnectedOk(w, connectExpiry, ca);
    var s := Connected(w.s, connectExpiry, ca);
    var ids := Order(s.clientStore);
    ListingSize(ids, s.clientStore.data);
    ResendAll(s, ids, writable);
    var (s', sent, ok) := Resend(s, ids, writable);
    ResentKeeps(w, s, ids, s', sent, ok, if ok then |ids| else writable + 1);
  }

  lemma GrownOk(client: map<Id, Entry>, client': map<Id, Entry>, store: Log, used: set<nat>)
    requires Grown(client, client', store)
    ensures ChannelsOk(client, used) ==> ChannelsOk(client', used)
    ensures ClientOk(client, store) ==> ClientOk(client', store)
    ensures AllRegistered(client, store) ==> AllRegistered(client', store)
  {}

  lemma ListedRegistered(ids: seq<Id>, store: Log, client: map<Id, Entry>)
    requires Listing(ids, store.data) && forall i | 0 <= i < |ids| :: ids[i] in client
    ensures AllRegistered(client, store)
  {}

  lemma ConnectedRegistered(w: World, connectExpiry: Option<uint32>, ca: Connack)
    ensures var s := Connected(w.s, connectExpiry, ca);
      && (AllRegistered(w.s.client, w.s.clientStore) ==> AllRegistered(s.client, s.clientStore))
      && (ClientOk(w.s.client, w.s.clientStore) ==> ClientOk(s.client, s.clientStore))
  {}

  lemma ResentKeeps(w: World, s: State, ids: seq<Id>, s': State, sent: seq<Packet>, ok: bool, slots: nat)
    requires s.conn.Up? && s.server.Some? && Base(s, w.used)
    requires s.quota.quota == s.quota.initial && s.quota.waiters == []
    requires Listing(ids, s.clientStore.data) && |ids| == |s.clientStore.data|
    requires Resent(s, ids, s', sent, slots) && (ok ==> slots == |ids| == |sent|)
    ensures var w' := w.(s := if ok then s' else s'.(conn := Broken));
      && Invariant(w')
      && (ClientOk(s.client, s.clientStore) ==> Matched(w'))
      && (w.pending == {} ==> Counted(w') && Settled(w'))
      && (AllRegistered(s.client, s.clientStore) ==> Settled(w'))
  {
    hide ClientStoreOk, ServerStoreOk, ServerOk, ClientOk, ChannelsOk, AllRegistered, Listing, Resendable, Grown;
    GrownOk(s.client, s'.client, s.clientStore, w.used);
    if ok {
      assert ids[..|sent|] == ids;
      ListedRegistered(ids, s.clientStore, s'.client);
    }
  }

  lemma EnterKeeps(w: World, t: Ticket)
    requires Invariant(w) && t !in w.pending && t !in w.s.quota.waiters
    ensures var q := w.s.quota;
      var w' := w.(s := w.s.(quota := Enter(q, t, false)), pending := if Free(q) then w.pending + {t} else w.pending);
      && Invariant(w') && (Matched(w) ==> Matched(w')) && (Counted(w) ==> Counted(w'))
      && (AllRegistered(w.s.client, w.s.clientStore) ==> Settled(w'))
  {
    hide ClientStoreOk, ServerStoreOk, ServerOk, ClientOk, ChannelsOk, AllRegistered;
  }

  lemma {:induction false} RemoveSubset(ts: seq<Ticket>, t: Ticket, pending: set<Ticket>)
    requires WaitersOk(ts, pending)
    ensures WaitersOk(Remove(ts, t), pending) && forall x <- Remove(ts, t) :: x in ts
  {
    if ts != [] && ts[0] != t {
      RemoveSubset(ts[1..], t, pending);
      assert ts[0] !in ts[1..];
      assert ts[0] !in Remove(ts[1..], t);
    }
  }

  lemma CancelKeeps(w: World, t: Ticket)
    requires Invariant(w) && t in w.s.quota.waiters
    ensures Keeps(w, w.(s := w.s.(quota := Leave(w.s.quota, t))))
  {
    hide ClientStoreOk, ServerStoreOk, ServerOk, ClientOk, ChannelsOk, AllRegistered;
    RemoveSubset(w.s.quota.waiters, t, w.pending);
  }

  /** Giving a slot back: the count of slots in use falls by one, or a waiter takes it over. */
  lemma GiveBackKeeps(q: Quota, stored: nat, pending: set<Ticket>)
    requires WaitersOk(q.waiters, pending) && QuotaOk(q, stored, |pending| + 1)
    ensures var (q', outcome) := GiveBack(q);
      && WaitersOk(q'.waiters, pending + Woken(q, q'))
      && QuotaOk(q', stored, |pending + Woken(q, q')|)
      && !outcome.Unexpected?
  {}

  lemma GiveBackWaiters(q: Quota, pending: set<Ticket>)
    requires WaitersOk(q.waiters, pending)
    ensures var q' := GiveBack(q).0; WaitersOk(q'.waiters, pending + Woken(q, q'))
  {}

  lemma RegisterOk(client: map<Id, Entry>, store: Log, used: set<nat>, id: Id, e: Entry)
    requires id !in client && e.chan.Caller? && e.chan.n !in used
    ensures ChannelsOk(client, used) ==> ChannelsOk(client[id := e], used + {e.chan.n})
    ensures ClientOk(client, store) && (IsPublish(e) <==> id in store.data) ==> ClientOk(client[id := e], store)
    ensures AllRegistered(client, store) ==> AllRegistered(client[id := e], store)
  {}

  /** A publisher that gives up returns its slot and changes nothing else but lastMid. */
  lemma GiveUpKeeps(w: World, t: Ticket, last: Id, used: set<nat>)
    requires Invariant(w) && t in w.pending && w.used <= used
    ensures var q := GiveBack(w.s.quota).0;
      Keeps(w, World(w.s.(last := last, quota := q), w.pending - {t} + Woken(w.s.quota, q), used))
  {
    hide ClientStoreOk, ServerStoreOk, ServerOk, ClientOk, AllRegistered;
    GiveBackWaiters(w.s.quota, w.pending - {t});
    if w.s.conn.Up? && Counted(w) {
      GiveBackKeeps(w.s.quota, |w.s.clientStore.data|, w.pending - {t});
    }
  }

  lemma StorePacketOk(store: Log, id: Id, packet: seq<byte>)
    requires ClientStoreOk(store) && ClientStored(id, packet)
    ensures ClientStoreOk(Put(store, id, packet))
  {
    hide ClientStored;
  }

  /** A publisher that stores its packet turns its slot into the slot of the stored packet. */
  lemma StoreKeeps(w: World, t: Ticket, id: Id, packet: seq<byte>, chan: nat)
    requires Invariant(w) && t in w.pending && chan !in w.used && id !in w.s.client && ClientStored(id, packet)
    ensures var client := w.s.client[id := Entry(PUBLISH, Caller(chan))];
      var w' := World(w.s.(last := id, client := client, clientStore := Put(w.s.clientStore, id, packet)),
                      w.pending - {t}, w.used + {chan});
      Keeps(w, w')
  {
    hide ClientStored, ClientStoreOk, ServerStoreOk, ServerOk, ChannelsOk;
    StorePacketOk(w.s.clientStore, id, packet);
    PutSize(w.s.clientStore, id, packet);
    RegisterOk(w.s.client, Put(w.s.clientStore, id, packet), w.used, id, Entry(PUBLISH, Caller(chan)));
    assert w.pending - {t} + {t} == w.pending;
  }

  lemma RequestKeeps(w: World, id: Id, kind: byte, chan: nat)
    requires Invariant(w) && chan !in w.used && id !in w.s.client && kind in {SUBSCRIBE, UNSUBSCRIBE}
    ensures var s' := w.s.(last := id, client := w.s.client[id := Entry(kind, Caller(chan))]);
      var w' := w.(s := s', used := w.used + {chan});
      Invariant(w') && (id !in w.s.clientStore.data && !w.s.conn.Down? ==> Keeps(w, w'))
  {
    hide ClientStoreOk, ServerStoreOk, ServerOk, ClientOk, ChannelsOk, AllRegistered;
    RegisterOk(w.s.client, w.s.clientStore, w.used, id, Entry(kind, Caller(chan)));
  }

  lemma DeletePacketOk(store: Log, id: Id)
    requires ClientStoreOk(store)
    ensures ClientStoreOk(Delete(store, id))
  {
    hide ClientStored;
  }

  lemma PublishStored(client: map<Id, Entry>, store: Log, id: Id)
    requires ClientOk(client, store) && id in client && IsPublish(client[id])
    ensures id in store.data
  {}

  lemma EndRegistered(client: map<Id, Entry>, store: Log, id: Id, used: set<nat>)
    requires id in client
    ensures ChannelsOk(client, used) ==> ChannelsOk(client - {id}, used)
    ensures ClientOk(client, store) ==> ClientOk(client - {id}, Delete(store, id)) && ClientOk(client - {id}, store)
    ensures AllRegistered(client, store) ==> AllRegistered(client - {id}, Delete(store, id))
    ensures AllRegistered(client, store) && ClientOk(client, store) && !IsPublish(client[id]) ==>
              AllRegistered(client - {id}, store)
  {}

  lemma EndPublishKeeps(w: World, id: Id)
    requires Invariant(w) && id in w.s.client && IsPublish(w.s.client[id])
    ensures var q := GiveBack(w.s.quota).0;
      var s' := w.s.(client := w.s.client - {id}, quota := q, clientStore := Delete(w.s.clientStore, id));
      Keeps(w, w.(s := s', pending := w.pending + Woken(w.s.quota, q)))
  {
    hide ClientStoreOk, ServerStoreOk, ServerOk, ClientOk, ChannelsOk, WaitersOk, AllRegistered;
    var s := w.s;
    EndRegistered(s.client, s.clientStore, id, w.used);
    DeletePacketOk(s.clientStore, id);
    GiveBackWaiters(s.quota, w.pending);
    if s.conn.Up? && Matched(w) && Counted(w) {
      PublishStored(s.client, s.clientStore, id);
      DeleteSize(s.clientStore, id);
      GiveBackKeeps(s.quota, |s.clientStore.data| - 1, w.pending);
    }
  }

  lemma EndRequestKeeps(w: World, id: Id)
    requires Invariant(w) && id in w.s.client && !IsPublish(w.s.client[id])
    ensures Keeps(w, w.(s := w.s.(client := w.s.client - {id})))
  {
    hide ClientStoreOk, ServerStoreOk, ServerOk, ClientOk, ChannelsOk, WaitersOk, AllRegistered;
    EndRegistered(w.s.client, w.s.clientStore, id, w.used);
  }

  lemma KeepsItself(w: World)
    requires Invariant(w)
    ensures Keeps(w, w)
  {
    hide Invariant, Matched, Counted, Settled;
  }

  lemma EndKeeps(w: World, id: Id, p: Incoming)
    requires Invariant(w)
    ensures Keeps(w, Handled(w, End(w.s, id, p).0))
  {
    hide Keeps, Invariant;
    assert w.pending + {} == w.pending;
    if id !in w.s.client {
      assert Handled(w, End(w.s, id, p).0) == w;
      KeepsItself(w);
    } else if IsPublish(w.s.client[id]) {
      EndPublishKeeps(w, id);
    } else {
      EndRequestKeeps(w, id);
    }
  }

  lemma PubrecKeeps(w: World, id: Id)
    requires Invariant(w) && id in w.s.client
    ensures var w' := w.(s := w.s.(clientStore := Put(w.s.clientStore, id, Written(PubrelFor(id, 0)))));
      Invariant(w') && (IsPublish(w.s.client[id]) ==> Keeps(w, w'))
  {
    hide ClientStored, ClientStoreOk, ServerStoreOk, ServerOk, ChannelsOk, Written;
    PubrelIsStored(id);
    StorePacketOk(w.s.clientStore, id, Written(PubrelFor(id, 0)));
    PutSize(w.s.clientStore, id, Written(PubrelFor(id, 0)));
  }

  lemma RecordOk(server: map<Id, byte>, store: Log, id: Id, packet: seq<byte>)
    requires ServerStoreOk(store) && ServerOk(server, store) && StoredType(packet) == Some(PUBREC)
    ensures ServerStoreOk(Put(store, id, packet)) && ServerOk(server[id := PUBREC], Put(store, id, packet))
  {}

  lemma AcknowledgeKeeps(w: World, m: Publish)
    requires Invariant(w) && w.s.server.Some?
    ensures Keeps(w, w.(s := Acknowledge(w.s, m).0))
    ensures Acknowledge(w.s, m).0.quota == w.s.quota
  {
    hide ClientStored, ClientStoreOk, ChannelsOk, ClientOk, AllRegistered, ServerStoreOk, ServerOk;
    var reply := AckPacket(PUBREC, m.packetID, 0, NoProperties);
    AckSendable(PUBREC, m.packetID, 0);
    RecordOk(w.s.server.value, w.s.serverStore, m.packetID, Written(reply));
  }

  lemma PubrelKeeps(w: World, id: Id, reason: byte)
    requires Invariant(w) && w.s.server.Some?
    ensures Keeps(w, w.(s := ReceivePubrel(w.s, id, reason).0))
    ensures ReceivePubrel(w.s, id, reason).0.quota == w.s.quota
  {
    hide ClientStored, ClientStoreOk, ChannelsOk, ClientOk, AllRegistered;
  }

  lemma RestartKeeps(w: World)
    requires Invariant(w)
    ensures var w' := w.(s := Restarted(w.s), pending := {}); Invariant(w') && Matched(w') && Counted(w') && Settled(w')
  {
    hide ClientStored;
  }

  lemma CloseKeeps(w: World)
    requires Invariant(w)
    ensures var w' := w.(s := Closed(w.s).0);
      Invariant(w') && Matched(w') && Counted(w') && (w.pending == {} ==> Settled(w'))
  {
    hide ClientStored;
    LostKeeps(w, None);
  }

  lemma NobodyWoken(w: World, s': State)
    requires s'.quota == w.s.quota
    ensures Handled(w, s') == w.(s := s')
  {
    assert w.pending + {} == w.pending;
  }

  lemma ReceivePubrecKeeps(w: World, id: Id, reason: byte)
    requires Invariant(w)
    ensures var w' := Handled(w, ReceivePubrec(w.s, id, reason).0);
      Invariant(w') && (!Mixes(w, ReceiveEvent(Pubrec(id, reason))) ==> Keeps(w, w'))
  {
    hide Invariant, Matched, Counted, Settled, End, Written;
    var s' := ReceivePubrec(w.s, id, reason).0;
    if id in w.s.client && reason >= 0x80 {
      EndKeeps(w, id, Pubrec(id, reason));
    } else {
      NobodyWoken(w, s');
      if id in w.s.client {
        PubrecKeeps(w, id);
      } else {
        assert w.(s := s') == w;
      }
    }
  }

  lemma ReceivePublishKeeps(w: World, m: Publish)
    requires Invariant(w) && w.s.server.Some?
    ensures Keeps(w, Handled(w, ReceivePublish(w.s, m).0))
  {
    hide Invariant, Matched, Counted, Settled, Acknowledge;
    AcknowledgeKeeps(w, m);
    NobodyWoken(w, ReceivePublish(w.s, m).0);
    assert w.(s := w.s) == w;
  }

  lemma ReceiveKeeps(w: World, p: Incoming)
    requires Invariant(w) && Enabled(w, ReceiveEvent(p))
    ensures var w' := Handled(w, Receive(w.s, p).0);
      Invariant(w') && (!Mixes(w, ReceiveEvent(p)) ==> Keeps(w, w'))
  {
    hide Invariant, Matched, Counted, Settled, End, ReceivePublish, ReceivePubrel, ReceivePubrec;
    match p {
      case Suback(id) => EndKeeps(w, id, p);
      case Unsuback(id) => EndKeeps(w, id, p);
      case Puback(id) => EndKeeps(w, id, p);
      case Pubcomp(id) => EndKeeps(w, id, p);
      case Pubrec(id, reason) => ReceivePubrecKeeps(w, id, reason);
      case PublishIn(m) => ReceivePublishKeeps(w, m);
      case Pubrel(id, reason) =>
        PubrelKeeps(w, id, reason);
        NobodyWoken(w, ReceivePubrel(w.s, id, reason).0);
    }
  }

  lemma AddPublishKeeps(w: World, t: Ticket, m: Publish, chan: nat, storeFails: bool)
    requires Invariant(w) && t in w.pending && chan !in w.used && Storable(m)
    ensures var s' := AddPublish(w.s, m, Caller(chan), storeFails).0;
      Keeps(w, World(s', w.pending - {t} + Woken(w.s.quota, s'.quota), w.used + {chan}))
  {
    hide Invariant, Matched, Counted, Settled, ClientStored, Storable, Written;
    var id := PacketIds.NextFree(w.s.last, w.s.client.Keys);
    if id.None? || storeFails {
      GiveUpKeeps(w, t, PacketIds.LastAfter(w.s.last, id), w.used + {chan});
    } else {
      PublishIsStored(m, id.value);
      StoreKeeps(w, t, id.value, Written(PublishPacket(m.(packetID := id.value))), chan);
      assert w.pending - {t} + {} == w.pending - {t};
    }
  }

  lemma AddRequestKeeps(w: World, kind: byte, chan: nat)
    requires Invariant(w) && Enabled(w, RequestEvent(kind, chan))
    ensures var w' := w.(s := AddRequest(w.s, kind, Caller(chan)).0, used := w.used + {chan});
      Invariant(w') && (!Mixes(w, RequestEvent(kind, chan)) ==> Keeps(w, w'))
  {
    hide ClientStoreOk, ServerStoreOk, ServerOk, ClientOk, AllRegistered, QuotaOk;
    var id := PacketIds.NextFree(w.s.last, w.s.client.Keys);
    if id.Some? {
      RequestKeeps(w, id.value, kind, chan);
    }
  }

  lemma NotMixing(w: World, e: Event)
    ensures !e.RequestEvent? && !e.ReceiveEvent? ==> !Mixes(w, e)
  {}

  /** Every event keeps the invariant, and each of the other three but for the events named above, as long as
      requests and stored packets match. */
  lemma NextKeeps(w: World, e: Event)
    requires Invariant(w) && Enabled(w, e)
    ensures var w' := Next(w, e).0;
      && Invariant(w')
      && (Matched(w) && !Mixes(w, e) ==>
            && Matched(w')
            && (Counted(w) && !LosesCount(w, e) ==> Counted(w'))
            && (Settled(w) && !Unsettles(w, e) ==> Settled(w')))
  {
    hide Invariant, Matched, Counted, Settled, AllRegistered, Mixes, ConAck, ConnectionLost, Restarted, Enter, Leave,
         AddPublish, AddRequest, Receive, Acknowledge, Closed, Storable;
    NotMixing(w, e);
    match e {
      case ConAckEvent(connectExpiry, ca, writable) => ConAckKeeps(w, connectExpiry, ca, writable);
      case LostEvent(interval) => LostKeeps(w, interval);
      case RestartEvent => RestartKeeps(w);
      case EnterEvent(t) => EnterKeeps(w, t);
      case CancelEvent(t) => CancelKeeps(w, t);
      case PublishEvent(t, m, chan, storeFails) => AddPublishKeeps(w, t, m, chan, storeFails);
      case RequestEvent(kind, chan) => AddRequestKeeps(w, kind, chan);
      case ReceiveEvent(p) => ReceiveKeeps(w, p);
      case AckEvent(m) => AcknowledgeKeeps(w, m);
      case CloseEvent => CloseKeeps(w);
    }
  }
}
