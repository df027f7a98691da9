/** The receiver's half of QoS 2: a message that was acknowledged is not delivered again. */
module Deduplication {
  import opened Basics
  import opened Properties
  import opened Packets
  import opened Stream
  import opened StoreLog
  import opened SendQuota
  import opened Session
  import opened SessionRuns
  import opened SessionGuarantees
  import opened Retransmission

  /** In every reachable state in which the server's identifiers are loaded, and so whenever there is a
      connection, they are exactly the stored ones, each recorded as PUBREC. */
  lemma ServerAgrees(clientStore: Log, serverStore: Log, events: seq<Event>)
    requires ClientStoreOk(clientStore) && ServerStoreOk(serverStore)
    requires Legal(Start(clientStore, serverStore), events)
    ensures var s := Run(Start(clientStore, serverStore), events).s;
      && (!s.conn.Down? ==> s.server.Some?)
      && (s.server.Some? ==> s.server.value.Keys == s.serverStore.data.Keys)
      && (s.server.Some? ==> forall id | id in s.server.value ::
            Some(s.server.value[id]) == StoredType(s.serverStore.data[id].packet) == Some(PUBREC))
  {
    hide ClientStored, Next;
    StartOk(clientStore, serverStore);
    RunKeeps(Start(clientStore, serverStore), events);
  }

  /** The message was acknowledged and its PUBREL has not been handled. */
  predicate Recorded(s: State, id: Id) {
    id in s.serverStore.data
  }

  /** A PUBREL for the identifier is handled successfully on a connection. */
  predicate Forgets(w: World, e: Event, id: Id) {
    e.ReceiveEvent? && e.p.Pubrel? && e.p.id == id && e.p.reason < 0x80 && !w.s.conn.Down?
  }

  predicate IsDuplicateOf(m: Publish, id: Id) {
    m.qos == 2 && m.duplicate && m.packetID == id
  }

  lemma AckRecords(w: World, m: Publish)
    requires Invariant(w) && Enabled(w, AckEvent(m)) && m.qos == 2
    ensures Recorded(Next(w, AckEvent(m)).0.s, m.packetID)
  {
    hide Written;
  }

  lemma ConAckServer(w: World, e: Event)
    requires Invariant(w) && e.ConAckEvent? && !Cleans(w, e)
    ensures ConAck(w.s, e.connectExpiry, e.ca, e.writable).0.serverStore.data == w.s.serverStore.data
  {
    hide ClientStored, ConAck;
    ConAckShape(w, e.connectExpiry, e.ca, e.writable);
    assert LoadServer(w.s).serverStore.data == w.s.serverStore.data;
  }

  lemma ReceiveKeepsRecord(w: World, p: Incoming, id: Id)
    requires w.s.server.Some? && Recorded(w.s, id) && !Forgets(w, ReceiveEvent(p), id)
    ensures Recorded(Receive(w.s, p).0, id)
  {
    hide Written;
  }

  lemma StepKeepsRecord(w: World, e: Event, id: Id)
    requires Invariant(w) && Enabled(w, e) && Recorded(w.s, id) && !Cleans(w, e) && !Forgets(w, e, id)
    ensures Recorded(Next(w, e).0.s, id)
  {
    hide ConAck, Written, ClientStored, Storable, Receive;
    match e {
      case ConAckEvent(_, _, _) => ConAckServer(w, e);
      case ReceiveEvent(p) => ReceiveKeepsRecord(w, p, id);
      case _ =>
    }
  }

  lemma ReceiveSuppresses(w: World, p: Incoming, id: Id)
    requires Invariant(w) && w.s.server.Some? && Recorded(w.s, id)
    ensures forall m <- Receive(w.s, p).1.delivered :: !IsDuplicateOf(m, id)
  {
    hide Written, ClientStored;
  }

  lemma StepSuppresses(w: World, e: Event, id: Id)
    requires Invariant(w) && Enabled(w, e) && Recorded(w.s, id)
    ensures forall m <- Next(w, e).1.delivered :: !IsDuplicateOf(m, id)
  {
    hide ConAck, Written, ClientStored, Storable, Receive;
    match e {
      case ConAckEvent(_, _, _) => ConAckShape(w, e.connectExpiry, e.ca, e.writable);
      case ReceiveEvent(p) => ReceiveSuppresses(w, p, id);
      case _ =>
    }
  }

  ghost predicate Remembered(w: World, events: seq<Event>, id: Id)
    requires Legal(w, events)
    decreases |events|
  {
    events == [] ||
    (!Cleans(w, events[0]) && !Forgets(w, events[0], id) && Remembered(Next(w, events[0]).0, events[1..], id))
  }

  /** Everything a run passes to the application. */
  ghost function Delivered(w: World, events: seq<Event>): seq<Publish>
    requires Legal(w, events)
    decreases |events|
  {
    if events == [] then [] else Next(w, events[0]).1.delivered + Delivered(Next(w, events[0]).0, events[1..])
  }

  /** Once a QoS 2 message was acknowledged, no duplicate of it reaches the application until its PUBREL
      is handled on a connection or the session ends, even across restarts. */
  lemma {:induction false} NoDuplicateDelivered(w: World, events: seq<Event>, id: Id)
    requires Invariant(w) && Legal(w, events) && Recorded(w.s, id) && Remembered(w, events, id)
    ensures Recorded(Run(w, events).s, id)
    ensures forall m <- Delivered(w, events) :: !IsDuplicateOf(m, id)
    decreases |events|
  {
    hide Invariant, Next;
    if events != [] {
      StepKeepsRecord(w, events[0], id);
      StepSuppresses(w, events[0], id);
      NextKeeps(w, events[0]);
      NoDuplicateDelivered(Next(w, events[0]).0, events[1..], id);
    }
  }

  /** So from the acknowledgement of a QoS 2 message on none of its duplicates is delivered, until then. */
  lemma NoDuplicateAfterAck(w: World, m: Publish, events: seq<Event>)
    requires Invariant(w) && Enabled(w, AckEvent(m)) && m.qos == 2
    requires Legal(Next(w, AckEvent(m)).0, events) && Remembered(Next(w, AckEvent(m)).0, events, m.packetID)
    ensures forall p <- Delivered(Next(w, AckEvent(m)).0, events) :: !IsDuplicateOf(p, m.packetID)
  {
    hide Invariant, Next, Legal, Remembered, Delivered, Recorded, Enabled;
    InvariantWellFormed(w);
    AckRecords(w, m);
    NextKeeps(w, AckEvent(m));
    NoDuplicateDelivered(Next(w, AckEvent(m)).0, events, m.packetID);
  }

  /** A PUBREL ends the record exactly when its code is no failure and the connection is set. */
  lemma PubrelForgetsExactly(s: State, id: Id, reason: byte)
    requires s.server.Some? && Recorded(s, id)
    ensures !Recorded(ReceivePubrel(s, id, reason).0, id) <==> reason < 0x80 && !s.conn.Down?
  {}

  // ---- What is delivered ----

  /** The message is passed on: it has an identifier if it needs one, and it is no duplicate of a QoS 2 message
      that was acknowledged before. */
  predicate Acceptable(s: State, m: Publish) {
    (m.qos == 0 || m.packetID > 0) && !(IsDuplicateOf(m, m.packetID) && Recorded(s, m.packetID))
  }

  /** An incoming message is delivered, once, exactly when it is acceptable; only a missing identifier is an
      error. */
  lemma DeliversExactly(w: World, m: Publish)
    requires Invariant(w) && Enabled(w, ReceiveEvent(PublishIn(m)))
    ensures var out := Next(w, ReceiveEvent(PublishIn(m))).1;
      && out.delivered == (if Acceptable(w.s, m) then [m] else [])
      && (out.failed <==> m.qos > 0 && m.packetID == 0)
  {
    hide Written, ClientStored;
  }

  /** The messages that come in over a run and are acceptable when they do. */
  ghost function Arrived(w: World, events: seq<Event>): seq<Publish>
    requires Legal(w, events)
    decreases |events|
  {
    if events == [] then []
    else
      var e := events[0];
      (if e.ReceiveEvent? && e.p.PublishIn? && Acceptable(w.s, e.p.message) then [e.p.message] else [])
      + Arrived(Next(w, e).0, events[1..])
  }

  lemma OthersDeliverNothing(w: World, e: Event)
    requires Invariant(w) && Enabled(w, e) && !(e.ReceiveEvent? && e.p.PublishIn?)
    ensures Next(w, e).1.delivered == []
  {
    hide ConAck, Written, ClientStored, Storable;
    if e.ConAckEvent? {
      ConAckShape(w, e.connectExpiry, e.ca, e.writable);
    }
  }

  /** A run delivers exactly those, each once and in the order they came. */
  lemma {:induction false} DeliveredExactly(w: World, events: seq<Event>)
    requires Invariant(w) && Legal(w, events)
    ensures Delivered(w, events) == Arrived(w, events)
    decreases |events|
  {
    hide Invariant, Next, Acceptable;
    if events != [] {
      if events[0].ReceiveEvent? && events[0].p.PublishIn? {
        DeliversExactly(w, events[0].p.message);
      } else {
        OthersDeliverNothing(w, events[0]);
      }
      NextKeeps(w, events[0]);
      DeliveredExactly(Next(w, events[0]).0, events[1..]);
    }
  }

  /** A message is recorded after an event exactly when the event acknowledges it as QoS 2, or it was recorded
      before and the event neither releases it nor ends the session. */
  lemma RecordedExactly(w: World, e: Event, id: Id)
    requires Invariant(w) && Enabled(w, e)
    ensures Recorded(Next(w, e).0.s, id) <==>
      || (e.AckEvent? && e.m.qos == 2 && e.m.packetID == id)
      || (Recorded(w.s, id) && !Cleans(w, e) && !Forgets(w, e, id))
  {
    hide ConAck, Written, ClientStored, Storable, Receive, Next, Invariant, Acknowledge;
    if Recorded(w.s, id) && !Cleans(w, e) && !Forgets(w, e, id) {
      StepKeepsRecord(w, e, id);
    } else if e.AckEvent? && e.m.qos == 2 && e.m.packetID == id {
      AckRecords(w, e.m);
    } else {
      StepRecordsNothing(w, e, id);
    }
  }

  lemma StepRecordsNothing(w: World, e: Event, id: Id)
    requires Invariant(w) && Enabled(w, e) && !(e.AckEvent? && e.m.qos == 2 && e.m.packetID == id)
    requires !Recorded(w.s, id) || Cleans(w, e) || Forgets(w, e, id)
    ensures !Recorded(Next(w, e).0.s, id)
  {
    hide ConAck, Written, ClientStored, Storable, Receive;
    match e {
      case ConAckEvent(_, _, _) => ConAckShape(w, e.connectExpiry, e.ca, e.writable);
      case ReceiveEvent(p) => ReceiveRecordsNothing(w, p, id);
      case _ =>
    }
  }

  lemma ReceiveRecordsNothing(w: World, p: Incoming, id: Id)
    requires Invariant(w) && w.s.server.Some? && (!Recorded(w.s, id) || Forgets(w, ReceiveEvent(p), id))
    ensures !Recorded(Receive(w.s, p).0, id)
  {
    hide Written, ClientStored;
  }

  /** A CONNACK without a session leaves nothing of the old one, so that nothing acknowledged in it makes a
      message look like a duplicate. */
  lemma NoSessionPresent(w: World, connectExpiry: Option<uint32>, ca: Connack, writable: nat)
    requires Invariant(w) && !ca.sessionPresent
    ensures var (s', out) := ConAck(w.s, connectExpiry, ca, writable);
      && s'.client == map[] && s'.clientStore.data == map[]
      && s'.server == Some(map[]) && s'.serverStore.data == map[]
      && s'.conn.Up? && out.sent == []
      && forall m: Publish :: (m.qos == 0 || m.packetID > 0) ==> Acceptable(s', m)
  {
    hide ClientStored, Resendable;
    var s := Connected(w.s, connectExpiry, ca);
    assert Order(s.clientStore) == [];
  }
}
