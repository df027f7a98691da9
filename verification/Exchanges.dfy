/** Whole exchanges: a QoS 1 or 2 message sent on a free slot and fully acknowledged, and a QoS 2 message
    received, acknowledged, repeated and released. */
module Exchanges {
  import opened Basics
  import opened Properties
  import opened Packets
  import opened Stream
  import opened StoreLog
  import opened SendQuota
  import opened Session
  import opened SessionRuns
  import opened SessionGuarantees
  import PacketIds

  // ---- Sending ----

  /** A slot and this identifier are free, and nothing of an earlier exchange is left under it. */
  ghost predicate Ready(s: State, id: Id) {
    && s.conn.Up? && s.server.Some? && Free(s.quota) && s.quota.quota <= s.quota.initial
    && PacketIds.NextFree(s.last, s.client.Keys) == Some(id)
    && id !in s.client && id !in s.clientStore.data
  }

  /** With a live connection that takes no more than a free slot and identifier. */
  lemma ReadyWhenFree(w: World, id: Id)
    requires Invariant(w) && Matched(w) && w.s.conn.Up? && Free(w.s.quota)
    requires PacketIds.NextFree(w.s.last, w.s.client.Keys) == Some(id)
    ensures Ready(w.s, id)
  {
    hide ClientStored;
  }

  /** The packet is stored and registered under the identifier, and its slot in use. */
  function InFlight(s: State, id: Id, chan: Channel, store: Log): State {
    s.(quota := s.quota.(quota := s.quota.quota - 1), last := id,
       client := s.client[id := Entry(PUBLISH, chan)], clientStore := store)
  }

  /** As before the exchange, but for the position of the allocator and the number of Puts. */
  function Finished(s: State, id: Id, puts: nat): State {
    s.(last := id, clientStore := s.clientStore.(next := s.clientStore.next + puts))
  }

  lemma Stores(s: State, m: Publish, chan: Channel, id: Id)
    requires Ready(s, id)
    ensures AddToSession(s, m, chan, false)
         == (InFlight(s, id, chan, Put(s.clientStore, id, Written(PublishPacket(m.(packetID := id))))), Added(id))
  {
    hide Written, PacketIds.NextFree;
  }

  lemma Ends(s: State, id: Id, chan: Channel, store: Log, puts: nat, p: Incoming)
    requires Ready(s, id) && (p == Puback(id) || p == Pubcomp(id))
    requires store.data - {id} == s.clientStore.data && store.next == s.clientStore.next + puts
    ensures Receive(InFlight(s, id, chan, store), p)
         == (Finished(s, id, puts), Quiet.(answers := map[id := Answer(chan, Reply(p))]))
  {
    hide PacketIds.NextFree, Written;
    assert s.client[id := Entry(PUBLISH, chan)] - {id} == s.client;
  }

  /** A QoS 1 exchange: the packet is stored under a fresh identifier, and its PUBACK answers the caller and
      leaves the session as it was. */
  lemma SendQoS1(s: State, m: Publish, chan: Channel, id: Id)
    requires Ready(s, id)
    ensures var (s1, added) := AddToSession(s, m, chan, false);
      && added == Added(id) && s1.server.Some?
      && id in s1.clientStore.data && s1.clientStore.data[id].packet == Written(PublishPacket(m.(packetID := id)))
      && Receive(s1, Puback(id)) == (Finished(s, id, 1), Quiet.(answers := map[id := Answer(chan, Reply(Puback(id)))]))
  {
    hide Written, PacketIds.NextFree, Receive;
    var store := Put(s.clientStore, id, Written(PublishPacket(m.(packetID := id))));
    Stores(s, m, chan, id);
    assert store.data - {id} == s.clientStore.data;
    Ends(s, id, chan, store, 1, Puback(id));
  }

  /** A QoS 2 exchange: the packet is stored, PUBREC puts the PUBREL in its place and sends it, and PUBCOMP
      answers the caller and leaves the session as it was. */
  lemma SendQoS2(s: State, m: Publish, chan: Channel, id: Id, reason: byte)
    requires Ready(s, id) && reason < 0x80
    ensures var (s1, added) := AddToSession(s, m, chan, false);
      && added == Added(id) && s1.server.Some?
      && var (s2, out) := Receive(s1, Pubrec(id, reason));
         && s2.server.Some? && out == Quiet.(sent := [PubrelFor(id, 0)])
         && id in s2.clientStore.data && s2.clientStore.data[id].packet == Written(PubrelFor(id, 0))
         && Receive(s2, Pubcomp(id))
            == (Finished(s, id, 2), Quiet.(answers := map[id := Answer(chan, Reply(Pubcomp(id)))]))
  {
    hide Written, PacketIds.NextFree;
    var store := Put(s.clientStore, id, Written(PublishPacket(m.(packetID := id))));
    var store' := Put(store, id, Written(PubrelFor(id, 0)));
    Stores(s, m, chan, id);
    assert store'.data - {id} == s.clientStore.data;
    Ends(s, id, chan, store', 2, Pubcomp(id));
  }

  // ---- Receiving ----

  function Replies(ack: AckType, id: Id): Out {
    Quiet.(sent := [AckPacket(ack, id, 0, NoProperties)])
  }

  /** The message is recorded as acknowledged. */
  function Recording(s: State, id: Id): State
    requires s.server.Some?
  {
    s.(serverStore := Put(s.serverStore, id, Written(AckPacket(PUBREC, id, 0, NoProperties))),
       server := Some(s.server.value[id := PUBREC]))
  }

  /** A QoS 1 message: delivered every time it comes, duplicate or not; its acknowledgement is a PUBACK while the
      connection is set and nothing otherwise; nothing is remembered. */
  lemma ReceiveQoS1(s: State, m: Publish, again: bool)
    requires s.server.Some? && m.qos == 1 && m.packetID > 0
    ensures Receive(s, PublishIn(m.(duplicate := again))) == (s, Quiet.(delivered := [m.(duplicate := again)]))
    ensures Acknowledge(s, m)
         == (s, Quiet.(sent := if s.conn.Down? then [] else [AckPacket(PUBACK, m.packetID, 0, NoProperties)]))
  {
    hide Written;
  }

  /** A QoS 2 message on a live connection: delivered; acknowledged and recorded; its duplicate acknowledged
      again and not delivered; PUBREL answered with PUBCOMP, which leaves nothing of it behind. */
  lemma ReceiveQoS2(s: State, m: Publish, reason: byte)
    requires s.conn.Up? && s.server.Some? && m.qos == 2 && m.packetID > 0 && reason < 0x80
    requires m.packetID !in s.server.value && m.packetID !in s.serverStore.data
    ensures var id := m.packetID;
      var s1 := Recording(s, id);
      var s2 := Recording(s1, id);
      && Receive(s, PublishIn(m)) == (s, Quiet.(delivered := [m]))
      && Acknowledge(s, m) == (s1, Replies(PUBREC, id))
      && Receive(s1, PublishIn(m.(duplicate := true))) == (s2, Replies(PUBREC, id))
      && Receive(s2, Pubrel(id, reason))
         == (s.(serverStore := s.serverStore.(next := s.serverStore.next + 2)), Replies(PUBCOMP, id))
  {
    hide Written;
    var s2 := Recording(Recording(s, m.packetID), m.packetID);
    assert s2.server.value - {m.packetID} == s.server.value;
    assert s2.serverStore.data - {m.packetID} == s.serverStore.data;
  }
}
