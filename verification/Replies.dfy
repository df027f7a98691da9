/** What a session writes to its connection, packet by packet, and why. */
module Replies {
  import opened Basics
  import opened Properties
  import opened Packets
  import opened Stream
  import opened StoreLog
  import opened SendQuota
  import opened Session
  import opened SessionRuns
  import opened SessionGuarantees
  import opened Retransmission
  import opened Deduplication
  import PacketIds

  /** The event is, or handles, the acknowledgement of a message. */
  predicate Acks(e: Event, id: Id, qos: byte) {
    e.AckEvent? && e.m.packetID == id && e.m.qos == qos
  }

  /** The event is a duplicate of a QoS 2 message that was acknowledged before. */
  predicate Repeats(w: World, e: Event, id: Id) {
    && e.ReceiveEvent? && e.p.PublishIn? && id > 0
    && IsDuplicateOf(e.p.message, id) && Recorded(w.s, id)
  }

  /** Why an acknowledgement is sent: PUBACK for a QoS 1 message; PUBREC for a QoS 2 one, again for each duplicate;
      PUBREL for a PUBREC, with the code for an unknown identifier when it is one; PUBCOMP for a PUBREL. */
  predicate AckCause(w: World, e: Event, ack: AckType, id: Id, reason: byte) {
    if ack == PUBACK then reason == 0 && !w.s.conn.Down? && Acks(e, id, 1)
    else if ack == PUBREC then reason == 0 && !w.s.conn.Down? && (Acks(e, id, 2) || Repeats(w, e, id))
    else if ack == PUBREL then
      && e.ReceiveEvent? && e.p.Pubrec? && e.p.id == id
      && if id in w.s.client then e.p.reason < 0x80 && reason == 0 else reason == 0x92
    else reason == 0 && !w.s.conn.Down? && e.ReceiveEvent? && e.p.Pubrel? && e.p.id == id && e.p.reason < 0x80
  }

  /** Why a packet is sent other than by retransmission. */
  ghost predicate Cause(w: World, e: Event, q: Packet) {
    match q
    case PublishPacket(m) => Reissues(w, e, m.packetID) && m == e.m.(packetID := m.packetID)
    case AckPacket(ack, id, reason, props) => props == NoProperties && AckCause(w, e, ack, id, reason)
    case _ => false
  }

  lemma ReceiveSends(w: World, p: Incoming, q: Packet)
    requires Invariant(w) && Enabled(w, ReceiveEvent(p))
    ensures q in Receive(w.s, p).1.sent <==> Cause(w, ReceiveEvent(p), q)
    ensures |Receive(w.s, p).1.sent| <= 1
  {
    hide Written, ClientStored, Storable;
  }

  /** But for retransmission an event sends at most one packet, and sends it exactly when there is this cause. */
  lemma SentExactly(w: World, e: Event, q: Packet)
    requires Invariant(w) && Enabled(w, e) && !e.ConAckEvent?
    ensures q in Next(w, e).1.sent <==> Cause(w, e, q)
    ensures |Next(w, e).1.sent| <= 1
  {
    hide Written, ClientStored, Storable, Receive, ClientStoreOk, ServerStoreOk, ChannelsOk;
    if e.ReceiveEvent? {
      ReceiveSends(w, e.p, q);
    }
  }

  /** Retransmission sends PUBLISH and PUBREL only. */
  lemma ConAckSends(w: World, e: Event, q: Packet)
    requires Invariant(w) && e.ConAckEvent? && q in ConAck(w.s, e.connectExpiry, e.ca, e.writable).1.sent
    ensures q.PublishPacket? || (q.AckPacket? && q.ack == PUBREL)
  {
    hide ClientStored, Resendable, ReadPacket, Sendable;
    ConnectedOk(w, e.connectExpiry, e.ca);
    var s := Connected(w.s, e.connectExpiry, e.ca);
    var ids := Order(s.clientStore);
    ListingSize(ids, s.clientStore.data);
    ResendAll(s, ids, e.writable);
    var (s', sent, ok) := Resend(s, ids, e.writable);
    var i :| 0 <= i < |sent| && sent[i] == q;
    ResendableType(s.clientStore.data[ids[i]].packet);
  }

  lemma ResendableType(packet: seq<byte>)
    ensures var p := Resendable(packet);
      p.Some? ==> p.value.PublishPacket? || (p.value.AckPacket? && p.value.ack == PUBREL)
  {
    hide ReadPacket;
  }

  /** The event that accounts for a packet, whatever the state. */
  predicate Accounts(e: Event, q: Packet) {
    match q
    case PublishPacket(m) => e.ConAckEvent? || (e.PublishEvent? && e.m.(packetID := m.packetID) == m)
    case AckPacket(ack, id, _, _) =>
      if ack == PUBACK then Acks(e, id, 1)
      else if ack == PUBREC then
        Acks(e, id, 2) || (e.ReceiveEvent? && e.p.PublishIn? && IsDuplicateOf(e.p.message, id))
      else if ack == PUBREL then e.ConAckEvent? || (e.ReceiveEvent? && e.p.Pubrec? && e.p.id == id)
      else e.ReceiveEvent? && e.p.Pubrel? && e.p.id == id && e.p.reason < 0x80
    case _ => false
  }

  /** Over a whole run every packet sent is accounted for. A PUBACK is sent only for a QoS 1 message, a PUBREC
      only for a QoS 2 message, a PUBCOMP only for a PUBREL. */
  lemma {:induction false} SentAccounted(w: World, events: seq<Event>, q: Packet)
    requires Invariant(w) && Legal(w, events) && q in Sent(w, events)
    ensures exists e :: e in events && Accounts(e, q)
    decreases |events|
  {
    hide Invariant, Next, Accounts;
    if q in Next(w, events[0]).1.sent {
      StepAccounted(w, events[0], q);
      assert events[0] in events;
    } else {
      NextKeeps(w, events[0]);
      SentAccounted(Next(w, events[0]).0, events[1..], q);
      var e :| e in events[1..] && Accounts(e, q);
      assert e in events;
    }
  }

  lemma StepAccounted(w: World, e: Event, q: Packet)
    requires Invariant(w) && Enabled(w, e) && q in Next(w, e).1.sent
    ensures Accounts(e, q)
  {
    hide Invariant, ConAck;
    if e.ConAckEvent? {
      ConAckSends(w, e, q);
    } else {
      hide Next;
      SentExactly(w, e, q);
    }
  }

  /** The packets that are written without asking whether there is a connection are those that are sent without
      one. */
  lemma WritesExactly(s: State, p: Incoming)
    requires s.server.Some? && s.conn.Down?
    ensures Writes(s, p) <==> Receive(s, p).1.sent != []
  {
    hide Written;
  }

  /** Acknowledging fails exactly for a message that is neither QoS 1 nor QoS 2, and then changes nothing. */
  lemma AckFailsExactly(s: State, m: Publish)
    requires s.server.Some?
    ensures Acknowledge(s, m).1.failed <==> m.qos != 1 && m.qos != 2
    ensures Acknowledge(s, m).1.failed ==> Acknowledge(s, m) == (s, Quiet.(failed := true))
  {
    hide Written;
  }
}
