/** Retransmission: what a reconnection sends again, how long a stored packet stays, and the sender's half
    of QoS 2. */
module Retransmission {
  import opened Basics
  import opened Properties
  import opened Packets
  import opened Stream
  import opened StoreLog
  import opened SendQuota
  import opened Session
  import opened SessionRuns
  import opened SessionGuarantees
  import PacketIds

  /** The session outlives the connection it had, if any. */
  predicate Survives(s: State) {
    s.conn.Down? || s.expiry != 0
  }

  /** A stored packet as it goes out again: PUBLISH with DUP set, PUBREL unchanged. */
  predicate SentAgain(packet: seq<byte>, p: Packet) {
    match ReadPacket(packet)
    case Fail(_) => false
    case Done(q, _) => p == if q.PublishPacket? then PublishPacket(q.publish.(duplicate := true)) else q
  }

  lemma ResentPacket(id: Id, packet: seq<byte>)
    requires ClientStored(id, packet)
    ensures Resendable(packet).Some?
    ensures SentAgain(packet, Resendable(packet).value) && Sendable(Resendable(packet).value)
  {
    StoredResends(id, packet);
    var p := ReadPacket(packet).value;
    if p.PublishPacket? {
      DuplicateSendable(p.publish);
    }
  }

  /** After any history, a ConAckReceived with the session present sends the stored packets, each once,
      by their latest Put, as far as the connection takes them, and leaves the store as it was. It
      succeeds exactly when the connection takes them all. */
  lemma ConAckResends(w: World, connectExpiry: Option<uint32>, ca: Connack, writable: nat)
    requires Invariant(w) && ca.sessionPresent && Survives(w.s)
    ensures var (s', out) := ConAck(w.s, connectExpiry, ca, writable);
      var ids := Order(w.s.clientStore);
      && s'.clientStore == w.s.clientStore
      && (out.failed <==> writable < |ids|) && (out.failed <==> s'.conn.Broken?) && !s'.conn.Down?
      && |out.sent| == Min(|ids|, writable)
      && (forall i | 0 <= i < |out.sent| :: SentAgain(w.s.clientStore.data[ids[i]].packet, out.sent[i]))
      && ReadAll(WrittenAll(out.sent)) == Ok(out.sent)
  {
    hide ClientStored, Resendable, SentAgain, ReadPacket, Sendable, ReadAll, WrittenAll, Resend;
    ConnectedOk(w, connectExpiry, ca);
    var s := Connected(w.s, connectExpiry, ca);
    var ids := Order(s.clientStore);
    ListingSize(ids, s.clientStore.data);
    ResendAll(s, ids, writable);
    var (s', sent, ok) := Resend(s, ids, writable);
    forall i | 0 <= i < |sent|
      ensures SentAgain(w.s.clientStore.data[ids[i]].packet, sent[i]) && Sendable(sent[i])
    {
      ResentPacket(ids[i], s.clientStore.data[ids[i]].packet);
    }
    StreamRoundTrip(sent);
  }

  // ---- What happens to a stored packet ----

  /** The event ends the session. */
  predicate Cleans(w: World, e: Event) {
    match e
    case ConAckEvent(_, ca, _) => !ca.sessionPresent || !Survives(w.s)
    case LostEvent(interval) => !w.s.conn.Down? && (if interval.Some? then interval.value else w.s.expiry) == 0
    case CloseEvent => !Survives(w.s)
    case _ => false
  }

  /** The event is the final acknowledgement of the identifier. */
  predicate Ends(e: Event, id: Id) {
    e.ReceiveEvent? &&
    match e.p
    case Suback(i) => i == id
    case Unsuback(i) => i == id
    case Puback(i) => i == id
    case Pubcomp(i) => i == id
    case Pubrec(i, reason) => i == id && reason >= 0x80
    case _ => false
  }

  /** The event is the first half of a QoS 2 acknowledgement. */
  predicate Pubrecs(e: Event, id: Id) {
    e.ReceiveEvent? && e.p.Pubrec? && e.p.id == id && e.p.reason < 0x80
  }

  /** The identifier an event acknowledges, if it is an acknowledgement. */
  function Acknowledged(p: Incoming): Option<Id> {
    match p
    case PublishIn(_) => None
    case Pubrel(_, _) => None
    case _ => Some(p.id)
  }

  /** The client store after an event. */
  ghost function StoreAfter(w: World, e: Event): Log {
    var s := w.s;
    if Cleans(w, e) then Reset(s.clientStore)
    else
      match e
      case PublishEvent(_, m, _, storeFails) =>
        var id := PacketIds.NextFree(s.last, s.client.Keys);
        if id.Some? && !storeFails then Put(s.clientStore, id.value, Written(PublishPacket(m.(packetID := id.value))))
        else s.clientStore
      case ReceiveEvent(p) =>
        if Acknowledged(p).None? || p.id !in s.client then s.clientStore
        else if Pubrecs(e, p.id) then Put(s.clientStore, p.id, Written(PubrelFor(p.id, 0)))
        else if IsPublish(s.client[p.id]) then Delete(s.clientStore, p.id)
        else s.clientStore
      case _ => s.clientStore
  }

  lemma ConAckStore(w: World, e: Event)
    requires Invariant(w) && e.ConAckEvent?
    ensures ConAck(w.s, e.connectExpiry, e.ca, e.writable).0.clientStore == StoreAfter(w, e)
  {
    hide ConAck, Invariant;
    ConAckShape(w, e.connectExpiry, e.ca, e.writable);
  }

  lemma ReceiveStore(w: World, p: Incoming)
    requires Invariant(w) && Enabled(w, ReceiveEvent(p))
    ensures Receive(w.s, p).0.clientStore == StoreAfter(w, ReceiveEvent(p))
  {
    hide ClientStored, Written, Invariant;
  }

  /** The client store changes exactly in these ways: it is emptied with the session, a publish is put
      at the end, a first acknowledgement replaces it by its PUBREL, a final one takes it out. */
  lemma NextStore(w: World, e: Event)
    requires Invariant(w) && Enabled(w, e)
    ensures Next(w, e).0.s.clientStore == StoreAfter(w, e)
  {
    hide ClientStored, ConAck, Written, Receive;
    match e {
      case ConAckEvent(_, _, _) => ConAckStore(w, e);
      case ReceiveEvent(p) => ReceiveStore(w, p);
      case _ =>
    }
  }

  /** The event stores a new publish under the identifier. */
  ghost predicate Reissues(w: World, e: Event, id: Id) {
    e.PublishEvent? && !e.storeFails && PacketIds.NextFree(w.s.last, w.s.client.Keys) == Some(id)
  }

  /** An identifier still in the store is never handed out for a new publish while the stored packets are
      registered. */
  lemma FreshIdNotStored(w: World, e: Event, id: Id)
    requires Invariant(w) && Settled(w) && Enabled(w, e) && id in w.s.clientStore.data
    ensures !Reissues(w, e, id)
  {
    hide ClientStored, Storable;
  }

  /** Nothing but its acknowledgements, or the end of the session, changes a stored packet. */
  lemma StepUntouched(w: World, e: Event, id: Id)
    requires Invariant(w) && Enabled(w, e) && id in w.s.clientStore.data
    requires !Cleans(w, e) && !Ends(e, id) && !Pubrecs(e, id) && !Reissues(w, e, id)
    ensures var s' := Next(w, e).0.s; id in s'.clientStore.data && s'.clientStore.data[id] == w.s.clientStore.data[id]
  {
    hide Next, Written, Invariant, Enabled, StoreAfter;
    NextStore(w, e);
    StoreUntouched(w, e, id);
  }

  lemma StoreUntouched(w: World, e: Event, id: Id)
    requires id in w.s.clientStore.data
    requires !Cleans(w, e) && !Ends(e, id) && !Pubrecs(e, id) && !Reissues(w, e, id)
    ensures var store := StoreAfter(w, e); id in store.data && store.data[id] == w.s.clientStore.data[id]
  {
    hide Written, Cleans;
  }

  ghost predicate Untouched(w: World, events: seq<Event>, id: Id)
    requires Legal(w, events)
    decreases |events|
  {
    events == [] ||
    (!Cleans(w, events[0]) && !Ends(events[0], id) && !Pubrecs(events[0], id)
     && Untouched(Next(w, events[0]).0, events[1..], id))
  }

  /** The identifier is not handed out for a new publish. */
  ghost predicate NotReissued(w: World, events: seq<Event>, id: Id)
    requires Legal(w, events)
    decreases |events|
  {
    events == [] || (!Reissues(w, events[0], id) && NotReissued(Next(w, events[0]).0, events[1..], id))
  }

  /** Over any run, through reconnections and restarts, a stored packet keeps its bytes and its place in
      the order until it is acknowledged, its identifier is handed out again or the session ends. */
  lemma {:induction false} StoredStays(w: World, events: seq<Event>, id: Id)
    requires Invariant(w) && Legal(w, events) && id in w.s.clientStore.data
    requires Untouched(w, events, id) && NotReissued(w, events, id)
    ensures var s' := Run(w, events).s; id in s'.clientStore.data && s'.clientStore.data[id] == w.s.clientStore.data[id]
    decreases |events|
  {
    hide Invariant, Next;
    if events != [] {
      StepUntouched(w, events[0], id);
      NextKeeps(w, events[0]);
      StoredStays(Next(w, events[0]).0, events[1..], id);
    }
  }

  /** Both stored packets are among those sent, the first before the second. */
  ghost predicate SentBefore(sent: seq<Packet>, first: seq<byte>, second: seq<byte>) {
    exists i, j :: 0 <= i < j < |sent| && SentAgain(first, sent[i]) && SentAgain(second, sent[j])
  }

  lemma PairResent(w: World, a: Id, b: Id, connectExpiry: Option<uint32>, ca: Connack, writable: nat)
    requires Invariant(w) && ca.sessionPresent && Survives(w.s)
    requires a in w.s.clientStore.data && b in w.s.clientStore.data
    requires w.s.clientStore.data[a].stamp < w.s.clientStore.data[b].stamp
    requires !ConAck(w.s, connectExpiry, ca, writable).1.failed
    ensures SentBefore(ConAck(w.s, connectExpiry, ca, writable).1.sent,
                       w.s.clientStore.data[a].packet, w.s.clientStore.data[b].packet)
  {
    hide ClientStoreOk, ServerStoreOk, ServerOk, ClientOk, ChannelsOk, AllRegistered, ConAck, SentAgain, ReadAll,
         WrittenAll;
    InvariantWellFormed(w);
    var ids := Order(w.s.clientStore);
    ConAckResends(w, connectExpiry, ca, writable);
    ListedBefore(ids, w.s.clientStore.data, a, b);
    var i, j :| 0 <= i < j < |ids| && ids[i] == a && ids[j] == b;
    var sent := ConAck(w.s, connectExpiry, ca, writable).1.sent;
    assert SentAgain(w.s.clientStore.data[ids[i]].packet, sent[i]);
    assert SentAgain(w.s.clientStore.data[ids[j]].packet, sent[j]);
  }

  lemma ListedBefore(ids: seq<Id>, data: map<Id, Stored>, a: Id, b: Id)
    requires Listing(ids, data) && a in data && b in data && data[a].stamp < data[b].stamp
    ensures exists i, j :: 0 <= i < j < |ids| && ids[i] == a && ids[j] == b
  {
    var i :| 0 <= i < |ids| && ids[i] == a;
    var j :| 0 <= j < |ids| && ids[j] == b;
    assert i < j;
  }

  /** The whole of it: two packets that are unacknowledged through any run are sent again at the next
      reconnection that takes everything, in the order in which they were first stored. */
  lemma ResentInOriginalOrder(w: World, events: seq<Event>, a: Id, b: Id,
                              connectExpiry: Option<uint32>, ca: Connack, writable: nat)
    requires Invariant(w) && Legal(w, events) && ca.sessionPresent
    requires a in w.s.clientStore.data && Untouched(w, events, a) && NotReissued(w, events, a)
    requires b in w.s.clientStore.data && Untouched(w, events, b) && NotReissued(w, events, b)
    requires w.s.clientStore.data[a].stamp < w.s.clientStore.data[b].stamp
    ensures var v := Run(w, events);
      && Invariant(v)
      && (Survives(v.s) && !ConAck(v.s, connectExpiry, ca, writable).1.failed ==>
            SentBefore(ConAck(v.s, connectExpiry, ca, writable).1.sent,
                       w.s.clientStore.data[a].packet, w.s.clientStore.data[b].packet))
  {
    hide Next, ConAck, SentBefore, ClientStoreOk, ServerStoreOk, ServerOk, ClientOk, ChannelsOk, AllRegistered, Legal,
         Run;
    RunKeeps(w, events);
    StoredStays(w, events, a);
    StoredStays(w, events, b);
    var v := Run(w, events);
    assert WellFormed(v.s.clientStore) by {
      InvariantWellFormed(v);
    }
    if Survives(v.s) && !ConAck(v.s, connectExpiry, ca, writable).1.failed {
      PairResent(v, a, b, connectExpiry, ca, writable);
    }
  }

  lemma InvariantWellFormed(w: World)
    requires Invariant(w)
    ensures WellFormed(w.s.clientStore)
  {
    hide ClientStored;
  }

  /** A new publish is listed after everything already stored, and replaces nothing while the stored packets
      are registered. */
  lemma PublishGoesLast(w: World, t: Ticket, m: Publish, chan: nat)
    requires Invariant(w) && Enabled(w, PublishEvent(t, m, chan, false))
    requires PacketIds.NextFree(w.s.last, w.s.client.Keys).Some?
    ensures var id := PacketIds.NextFree(w.s.last, w.s.client.Keys).value;
      var store := StoreAfter(w, PublishEvent(t, m, chan, false));
      && WellFormed(store)
      && Order(store) == Without(Order(w.s.clientStore), id) + [id]
      && (Settled(w) ==> Order(store) == Order(w.s.clientStore) + [id])
      && ReadPacket(store.data[id].packet) == Done(PublishPacket(KeptPublish(m.(packetID := id))), [])
  {
    hide ClientStored, Storable, Written, ReadPacket;
    var id := PacketIds.NextFree(w.s.last, w.s.client.Keys).value;
    PublishIsStored(m, id);
    PutOrder(w.s.clientStore, id, Written(PublishPacket(m.(packetID := id))));
    if Settled(w) {
      NotListed(Order(w.s.clientStore), w.s.clientStore.data, id);
    }
  }

  lemma {:induction false} NotListed(ids: seq<Id>, data: map<Id, Stored>, id: Id)
    requires (forall i | 0 <= i < |ids| :: ids[i] in data) && id !in data
    ensures Without(ids, id) == ids
    decreases |ids|
  {
    if ids != [] {
      NotListed(ids[1..], data, id);
    }
  }

  // ---- QoS 2, sender side ----

  /** The store holds the PUBREL of the identifier. */
  predicate HoldsPubrel(store: Log, id: Id) {
    && id in store.data
    && var r := ReadPacket(store.data[id].packet);
       r.Done? && r.value.AckPacket? && r.value.ack == PUBREL
  }

  /** Handling a PUBREC with a success code replaces the PUBLISH by a PUBREL. */
  lemma PubrecStoresPubrel(w: World, id: Id, reason: byte)
    requires Invariant(w) && Enabled(w, ReceiveEvent(Pubrec(id, reason))) && id in w.s.client && reason < 0x80
    ensures var (w', out) := Next(w, ReceiveEvent(Pubrec(id, reason)));
      HoldsPubrel(w'.s.clientStore, id) && out.sent == [PubrelFor(id, 0)]
  {
    hide ClientStored, ReadPacket, Written;
    PubrelIsStored(id);
  }

  /** The packet is a PUBLISH with this identifier. */
  predicate IsPublishOf(p: Packet, id: Id) {
    p.PublishPacket? && p.publish.packetID == id
  }

  lemma ConAckSendsNoPublish(w: World, e: Event, id: Id)
    requires Invariant(w) && e.ConAckEvent? && !Cleans(w, e) && HoldsPubrel(w.s.clientStore, id)
    ensures forall p <- ConAck(w.s, e.connectExpiry, e.ca, e.writable).1.sent :: !IsPublishOf(p, id)
  {
    hide ClientStored, Resendable, ReadPacket, Sendable;
    ConnectedOk(w, e.connectExpiry, e.ca);
    var s := Connected(w.s, e.connectExpiry, e.ca);
    var ids := Order(s.clientStore);
    ListingSize(ids, s.clientStore.data);
    ResendAll(s, ids, e.writable);
    var (s', sent, ok) := Resend(s, ids, e.writable);
    forall i | 0 <= i < |sent|
      ensures !IsPublishOf(sent[i], id)
    {
      ResentIdentity(ids[i], s.clientStore.data[ids[i]].packet, sent[i]);
      if ids[i] == id {
        PubrelStaysPubrel(s.clientStore.data[id].packet, sent[i]);
      }
    }
  }

  lemma ResentIdentity(id: Id, packet: seq<byte>, p: Packet)
    requires ClientStored(id, packet) && Resendable(packet) == Some(p)
    ensures p.PublishPacket? ==> p.publish.packetID == id
  {}

  lemma PubrelStaysPubrel(packet: seq<byte>, p: Packet)
    requires Resendable(packet) == Some(p)
    requires ReadPacket(packet).Done? && ReadPacket(packet).value.AckPacket?
    ensures !p.PublishPacket?
  {}

  lemma StepKeepsPubrel(w: World, e: Event, id: Id)
    requires Invariant(w) && Enabled(w, e) && HoldsPubrel(w.s.clientStore, id)
    requires !Cleans(w, e) && !Ends(e, id) && !Reissues(w, e, id)
    ensures HoldsPubrel(Next(w, e).0.s.clientStore, id)
  {
    hide Next, Written, ReadPacket;
    NextStore(w, e);
    if Pubrecs(e, id) {
      PubrelIsStored(id);
    } else {
      StepUntouched(w, e, id);
    }
  }

  lemma RepliesAreAcks(s: State, p: Incoming)
    requires s.server.Some?
    ensures forall q <- Receive(s, p).1.sent :: q.AckPacket?
  {
    hide Written;
  }

  lemma StepSendsNoPublish(w: World, e: Event, id: Id)
    requires Invariant(w) && Enabled(w, e) && HoldsPubrel(w.s.clientStore, id)
    requires !Cleans(w, e) && !Reissues(w, e, id)
    ensures forall p <- Next(w, e).1.sent :: !IsPublishOf(p, id)
  {
    hide ReadPacket, ConAck, Written, Receive, ConnectionLost, Restarted, AddRequest, ClientStored, Storable;
    match e {
      case ConAckEvent(_, _, _) => ConAckSendsNoPublish(w, e, id);
      case ReceiveEvent(p) => RepliesAreAcks(w.s, p);
      case _ =>
    }
  }

  ghost predicate Unended(w: World, events: seq<Event>, id: Id)
    requires Legal(w, events)
    decreases |events|
  {
    events == [] ||
    (!Cleans(w, events[0]) && !Ends(events[0], id) && Unended(Next(w, events[0]).0, events[1..], id))
  }

  /** Everything a run writes to its connections. */
  ghost function Sent(w: World, events: seq<Event>): seq<Packet>
    requires Legal(w, events)
    decreases |events|
  {
    if events == [] then [] else Next(w, events[0]).1.sent + Sent(Next(w, events[0]).0, events[1..])
  }

  /** Once a PUBREC was handled for an identifier, no PUBLISH with it is sent again, across any number of
      reconnections and restarts, until the identifier ends or is handed out again or the session ends. */
  lemma {:induction false} OnlyPubrelSent(w: World, events: seq<Event>, id: Id)
    requires Invariant(w) && Legal(w, events) && HoldsPubrel(w.s.clientStore, id)
    requires Unended(w, events, id) && NotReissued(w, events, id)
    ensures HoldsPubrel(Run(w, events).s.clientStore, id)
    ensures forall p <- Sent(w, events) :: !IsPublishOf(p, id)
    decreases |events|
  {
    hide Invariant, Next, HoldsPubrel;
    if events != [] {
      StepKeepsPubrel(w, events[0], id);
      StepSendsNoPublish(w, events[0], id);
      NextKeeps(w, events[0]);
      OnlyPubrelSent(Next(w, events[0]).0, events[1..], id);
    }
  }

  lemma StepStored(w: World, e: Event, id: Id)
    requires Invariant(w) && Enabled(w, e) && id in w.s.clientStore.data && !Cleans(w, e) && !Ends(e, id)
    ensures id in Next(w, e).0.s.clientStore.data
  {
    hide Next, Written, Invariant, Enabled, Cleans;
    NextStore(w, e);
  }

  /** An unacknowledged publish is never dropped: over any run its identifier stays in the store, with a PUBLISH or a
      PUBREL, until it ends or the session does. */
  lemma {:induction false} UnackedSurvives(w: World, events: seq<Event>, id: Id)
    requires Invariant(w) && Legal(w, events) && id in w.s.clientStore.data && Unended(w, events, id)
    ensures id in Run(w, events).s.clientStore.data
    decreases |events|
  {
    hide Invariant, Next, Written;
    if events != [] {
      StepStored(w, events[0], id);
      NextKeeps(w, events[0]);
      UnackedSurvives(Next(w, events[0]).0, events[1..], id);
    }
  }

  // ---- When an identifier is handed out again ----

  /** Unless the session is closed while a publisher is between its slot and the store, or publishers or
      requests come while a stored packet is not registered, no identifier is handed out again while its
      packet is stored. So everything above holds of every such run as it stands. */
  lemma {:induction false} NeverReissued(w: World, events: seq<Event>, id: Id)
    requires Invariant(w) && Matched(w) && Settled(w)
    requires Legal(w, events) && KeepsMatch(w, events) && StaysSettled(w, events)
    requires id in w.s.clientStore.data && Unended(w, events, id)
    ensures NotReissued(w, events, id)
    decreases |events|
  {
    hide Invariant, Matched, Counted, Settled, Mixes, Unsettles, Next, Written, Reissues;
    if events != [] {
      FreshIdNotStored(w, events[0], id);
      StepStored(w, events[0], id);
      NextKeeps(w, events[0]);
      NeverReissued(Next(w, events[0]).0, events[1..], id);
    }
  }

  /** So once a PUBREC was handled for an identifier, no PUBLISH with it is sent again until the identifier ends
      or the session does. */
  lemma NoPublishAfterPubrec(w: World, events: seq<Event>, id: Id)
    requires Invariant(w) && Matched(w) && Settled(w)
    requires Legal(w, events) && KeepsMatch(w, events) && StaysSettled(w, events)
    requires HoldsPubrel(w.s.clientStore, id) && Unended(w, events, id)
    ensures HoldsPubrel(Run(w, events).s.clientStore, id)
    ensures forall p <- Sent(w, events) :: !IsPublishOf(p, id)
  {
    hide Invariant, Matched, Settled, Next, Legal, Run, KeepsMatch, StaysSettled, Unended, Sent, NotReissued,
         ReadPacket;
    NeverReissued(w, events, id);
    OnlyPubrelSent(w, events, id);
  }

  /** The failure in full: a publisher takes a slot, the session is closed and forgets what is registered, and
      the publisher then stores its packet over the PUBREL of the identifier it is given, and sends it. */
  lemma OverwrittenAfterClose(w: World, t: Ticket, m: Publish, chan: nat)
    requires Invariant(w) && w.s.conn.Up? && w.s.expiry > 0 && Free(w.s.quota)
    requires t !in w.pending && chan !in w.used && Storable(m)
    requires HoldsPubrel(w.s.clientStore, After(w.s.last))
    ensures var id := After(w.s.last);
      var w1 := Next(w, EnterEvent(t)).0;
      && Enabled(w, EnterEvent(t))
      && WellFormed(w1.s.clientStore) && Enabled(w1, CloseEvent) && Unsettles(w1, CloseEvent)
      && var w2 := Next(w1, CloseEvent).0;
         && WellFormed(w2.s.clientStore) && Enabled(w2, PublishEvent(t, m, chan, false))
         && var (w3, out) := Next(w2, PublishEvent(t, m, chan, false));
            && !HoldsPubrel(w3.s.clientStore, id)
            && out.sent == [PublishPacket(m.(packetID := id))]
  {
    hide ReadPacket, Written, ClientStored, Storable, PacketIds.NextFree;
    CloseReissuesExactly(w.s.(quota := Enter(w.s.quota, t, false)));
    PublishIsStored(m, After(w.s.last));
  }

  /** A process starts, and its first connection fails before anything could be written. */
  lemma FirstConnectionFails(clientStore: Log, serverStore: Log, connectExpiry: Option<uint32>, ca: Connack)
    requires ClientStoreOk(clientStore) && ServerStoreOk(serverStore) && clientStore.data != map[] && ca.sessionPresent
    ensures var s := Start(clientStore, serverStore).s;
      var (s', out) := ConAck(s, connectExpiry, ca, 0);
      && s'.conn.Broken? && s'.client == map[] && s'.clientStore == clientStore && s'.last == 0 && s'.server.Some?
      && s'.expiry == Connected(s, connectExpiry, ca).expiry
      && s'.quota == Quota(ReceiveMaximum(ca), ReceiveMaximum(ca) - 1, [])
  {
    hide ClientStored, Resendable, ReadPacket;
    var w := Start(clientStore, serverStore);
    StartOk(clientStore, serverStore);
    ConnectedOk(w, connectExpiry, ca);
    var s := Connected(w.s, connectExpiry, ca);
    var ids := Order(s.clientStore);
    ListingSize(ids, s.clientStore.data);
    ResendAll(s, ids, 0);
    assert ids[..0] == [];
    assert ConAck(w.s, connectExpiry, ca, 0).0.client.Keys == {};
  }

  function ReceiveMaximum(ca: Connack): uint16 {
    if ca.receiveMaximum.Some? then ca.receiveMaximum.value else 65535
  }

  /** The same without Close: a process starts on a stored PUBREL, its first connection fails, and a publish
      made while that connection is still set overwrites the PUBREL. */
  lemma OverwrittenWhenBroken(clientStore: Log, serverStore: Log, connectExpiry: Option<uint32>, ca: Connack,
                              t: Ticket, m: Publish, chan: nat)
    requires ClientStoreOk(clientStore) && ServerStoreOk(serverStore) && HoldsPubrel(clientStore, 1)
    requires ca.sessionPresent && ReceiveMaximum(ca) > 1 && Storable(m)
    ensures var w := Start(clientStore, serverStore);
      var w1 := Next(w, ConAckEvent(connectExpiry, ca, 0)).0;
      && WellFormed(w1.s.clientStore) && Enabled(w1, EnterEvent(t)) && Unsettles(w1, EnterEvent(t))
      && var w2 := Next(w1, EnterEvent(t)).0;
         && WellFormed(w2.s.clientStore) && Enabled(w2, PublishEvent(t, m, chan, false))
         && var (w3, out) := Next(w2, PublishEvent(t, m, chan, false));
            !HoldsPubrel(w3.s.clientStore, 1) && out.sent == [PublishPacket(m.(packetID := 1))]
  {
    hide ReadPacket, Written, ClientStored, Storable, PacketIds.NextFree, ConAck;
    FirstConnectionFails(clientStore, serverStore, connectExpiry, ca);
    assert PacketIds.NextFree(0, {}) == Some(1) by {
      PacketIds.NextFreeIs(0, {}, 1);
    }
    PublishIsStored(m, 1);
  }

  /** And a SUBSCRIBE made then shares the identifier of the stored packet, also after a connection that works:
      the store no longer holds exactly the registered publishes. */
  lemma MixedWhenBroken(clientStore: Log, serverStore: Log, connectExpiry: Option<uint32>, ca: Connack, chan: nat)
    requires ClientStoreOk(clientStore) && ServerStoreOk(serverStore) && 1 in clientStore.data
    requires ca.sessionPresent && ca.expiry.Some? && ca.expiry.value > 0
    ensures var w := Start(clientStore, serverStore);
      var w1 := Next(w, ConAckEvent(connectExpiry, ca, 0)).0;
      && WellFormed(w1.s.clientStore) && Enabled(w1, RequestEvent(SUBSCRIBE, chan))
      && Mixes(w1, RequestEvent(SUBSCRIBE, chan))
      && var w2 := Next(w1, RequestEvent(SUBSCRIBE, chan)).0;
         && WellFormed(w2.s.clientStore)
         && var s3 := Next(w2, ConAckEvent(connectExpiry, ca, |clientStore.data|)).0.s;
            s3.conn.Up? && 1 in s3.clientStore.data && 1 !in PublishIds(s3.client)
  {
    hide Invariant, PacketIds.NextFree, ConAck, PublishIds, ClientStoreOk, ServerStoreOk, Connected;
    FirstConnectionFails(clientStore, serverStore, connectExpiry, ca);
    assert PacketIds.NextFree(0, {}) == Some(1) by {
      PacketIds.NextFreeIs(0, {}, 1);
    }
    StartOk(clientStore, serverStore);
    var w := Start(clientStore, serverStore);
    InvariantWellFormed(w);
    NextKeeps(w, ConAckEvent(connectExpiry, ca, 0));
    var w1 := Next(w, ConAckEvent(connectExpiry, ca, 0)).0;
    NextKeeps(w1, RequestEvent(SUBSCRIBE, chan));
    var w2 := Next(w1, RequestEvent(SUBSCRIBE, chan)).0;
    ExpiryGiven(w.s, connectExpiry, ca);
    MixedStays(w2, connectExpiry, ca, |clientStore.data|, 1);
  }

  lemma ExpiryGiven(s: State, connectExpiry: Option<uint32>, ca: Connack)
    requires ca.expiry.Some?
    ensures Connected(s, connectExpiry, ca).expiry == ca.expiry.value
  {}

  lemma MixedStays(w: World, connectExpiry: Option<uint32>, ca: Connack, writable: nat, id: Id)
    requires Invariant(w) && ca.sessionPresent && Survives(w.s) && |w.s.clientStore.data| <= writable
    requires id in w.s.client && !IsPublish(w.s.client[id]) && id in w.s.clientStore.data
    ensures var s' := ConAck(w.s, connectExpiry, ca, writable).0;
      s'.conn.Up? && id in s'.clientStore.data && id !in PublishIds(s'.client)
  {
    hide ClientStored, ConAck, ReadAll, WrittenAll, SentAgain;
    ListingSize(Order(w.s.clientStore), w.s.clientStore.data);
    ConAckResends(w, connectExpiry, ca, writable);
    ConAckShape(w, connectExpiry, ca, writable);
  }
}
