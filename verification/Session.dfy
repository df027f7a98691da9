/** The session state of paho/session/state/state.go as a value, with each of its operations as a
    function from state to state and output. */
module Session {
  import opened Basics
  import opened Properties
  import opened Packets
  import opened Stream
  import opened StoreLog
  import opened SendQuota
  import PacketIds

  /** Down: no connection. Up: the last ConAckReceived succeeded. Broken: it returned an error, so the
      connection is set but must not be used. */
  datatype Conn = Down | Up | Broken

  /** Where the final answer to a request goes: a channel its caller passed in, or one made for a
      packet found in the store, which nobody waits on. */
  datatype Channel = Caller(n: nat) | Internal

  /** clientGenerated: the type of the request and its response channel. */
  datatype Entry = Entry(kind: byte, chan: Channel)

  datatype State = State(
    conn: Conn,
    expiry: uint32,
    client: map<Id, Entry>,
    clientStore: Log,
    last: Id,
    server: Option<map<Id, byte>>,
    serverStore: Log,
    quota: Quota)

  /** The packets a server sends that carry a packet identifier. */
  datatype Incoming =
    | Suback(id: Id)
    | Unsuback(id: Id)
    | Puback(id: Id)
    | Pubrec(id: Id, reason: byte)
    | Pubcomp(id: Id)
    | PublishIn(message: Publish)
    | Pubrel(id: Id, reason: byte)

  datatype Response = Reply(packet: Incoming) | Shutdown

  datatype Answer = Answer(chan: Channel, response: Response)

  /** What an operation does besides changing the state: packets written to the connection, answers
      by the identifier of the request they end, messages passed to the application. */
  datatype Out = Out(
    sent: seq<Packet>,
    answers: map<Id, Answer>,
    delivered: seq<Publish>,
    failed: bool)

  const Quiet := Out([], map[], [], false)

  predicate IsPublish(e: Entry) {
    e.kind == PUBLISH || e.kind == PUBREL
  }

  // ---- Connection events ----

  function Clean(s: State): State {
    s.(server := Some(map[]), client := map[], serverStore := Reset(s.serverStore), clientStore := Reset(s.clientStore))
  }

  /** connectionLost: a DISCONNECT may carry a new session expiry interval, and interval 0 ends the
      session with the connection. */
  function ConnectionLost(s: State, interval: Option<uint32>): State {
    if s.conn.Down? then s
    else
      var s1 := s.(conn := Down, expiry := if interval.Some? then interval.value else s.expiry);
      if s1.expiry == 0 then Clean(s1) else s1
  }

  /** The packet type in the first byte of a stored packet. */
  function StoredType(packet: seq<byte>): Option<byte> {
    if packet == [] then None else Some(packet[0] / 16)
  }

  predicate ServerType(packet: seq<byte>) {
    StoredType(packet) in {Some(PUBLISH), Some(PUBREC)}
  }

  /** loadServerSession: what can be used is remembered, the rest is quarantined. */
  function LoadServer(s: State): State {
    var store := s.serverStore;
    s.(server := Some(map id | id in store.data && ServerType(store.data[id].packet) ::
                        StoredType(store.data[id].packet).value),
       serverStore := store.(data := map id | id in store.data && ServerType(store.data[id].packet) :: store.data[id]))
  }

  /** What is sent again for a stored packet: a PUBLISH with DUP set, a PUBREL as it is. */
  function Resendable(packet: seq<byte>): Option<Packet> {
    match ReadPacket(packet)
    case Fail(_) => None
    case Done(p, _) =>
      match p
      case PublishPacket(m) => Some(PublishPacket(m.(duplicate := true)))
      case AckPacket(ack, _, _, _) => if ack == PUBREL then Some(p) else None
      case _ => None
  }

  function TypeOf(p: Packet): byte {
    match p
    case ConnectPacket(_) => CONNECT
    case PublishPacket(_) => PUBLISH
    case AckPacket(ack, _, _, _) => ack
    case SubscribePacket(_, _, _) => SUBSCRIBE
    case UnsubscribePacket(_, _, _) => UNSUBSCRIBE
  }

  /** The retransmission loop of ConAckReceived, with the number of writes the connection still takes. */
  function Resend(s: State, ids: seq<Id>, writable: nat): (State, seq<Packet>, bool)
    decreases |ids|
  {
    if ids == [] then (s, [], true)
    else if ids[0] !in s.clientStore.data then Resend(s, ids[1..], writable)
    else
      match Resendable(s.clientStore.data[ids[0]].packet)
      case None => Resend(s.(clientStore := Delete(s.clientStore, ids[0])), ids[1..], writable)
      case Some(p) =>
        var s1 := s.(quota := Enter(s.quota, 0, true));
        if writable == 0 || Encode(p).Err? then (s1, [], false)
        else
          var s2 := if ids[0] in s.client then s1 else s1.(client := s.client[ids[0] := Entry(TypeOf(p), Internal)]);
          var (s3, sent, ok) := Resend(s2, ids[1..], writable - 1);
          (s3, [p] + sent, ok)
  }

  datatype Connack = Connack(sessionPresent: bool, expiry: Option<uint32>, receiveMaximum: Option<uint16>)

  /** ConAckReceived up to the retransmission loop. */
  function Connected(s: State, connectExpiry: Option<uint32>, ca: Connack): State {
    var s1 := ConnectionLost(s, None).(conn := Up);
    var s2 := if ca.sessionPresent then s1 else Clean(s1);
    var expiry :=
      if ca.expiry.Some? then ca.expiry.value else if connectExpiry.Some? then connectExpiry.value else 0;
    var s3 := s2.(expiry := expiry);
    var s4 := if s3.server.None? then LoadServer(s3) else s3;
    s4.(quota := New(if ca.receiveMaximum.Some? then ca.receiveMaximum.value else 65535))
  }

  ghost function ConAck(s: State, connectExpiry: Option<uint32>, ca: Connack, writable: nat): (State, Out)
    requires WellFormed(s.clientStore)
  {
    var s1 := Connected(s, connectExpiry, ca);
    var (s2, sent, ok) := Resend(s1, Order(s1.clientStore), writable);
    (if ok then s2 else s2.(conn := Broken), Quiet.(sent := sent, failed := !ok))
  }

  /** A new process: the maps, the allocator and the quota are gone, the stores are not. */
  function Restarted(s: State): State {
    State(Down, 0, map[], s.clientStore, 0, None, s.serverStore, New(0))
  }

  /** Close: every request still registered once the connection is lost is told about the shutdown, and the
      store keeps its packets. A session that ends with its connection has been cleaned by then. */
  function Closed(s: State): (State, Out) {
    var s1 := ConnectionLost(s, None);
    (s1.(client := map[]), Quiet.(answers := map id | id in s1.client :: Answer(s1.client[id].chan, Shutdown)))
  }

  // ---- Requests ----

  datatype Added = Added(id: Id) | NoIdentifier | StoreFailed

  /** AddToSession for a PUBLISH that has been granted a slot: take an identifier, register the channel
      and store the packet. A failure gives the slot back. */
  ghost function AddPublish(s: State, m: Publish, chan: Channel, storeFails: bool): (State, Added) {
    var id := PacketIds.NextFree(s.last, s.client.Keys);
    var s1 := s.(last := PacketIds.LastAfter(s.last, id));
    match id
    case None => (s1.(quota := GiveBack(s.quota).0), NoIdentifier)
    case Some(id) =>
      if storeFails then (s1.(quota := GiveBack(s.quota).0), StoreFailed)
      else
        (s1.(client := s.client[id := Entry(PUBLISH, chan)],
             clientStore := Put(s.clientStore, id, Written(PublishPacket(m.(packetID := id))))), Added(id))
  }

  /** AddToSession for SUBSCRIBE and UNSUBSCRIBE, which are not stored and take no slot. */
  ghost function AddRequest(s: State, kind: byte, chan: Channel): (State, Added) {
    var id := PacketIds.NextFree(s.last, s.client.Keys);
    var s1 := s.(last := PacketIds.LastAfter(s.last, id));
    match id
    case None => (s1, NoIdentifier)
    case Some(id) => (s1.(client := s.client[id := Entry(kind, chan)]), Added(id))
  }

  // ---- Incoming packets ----

  /** endClientGenerated: answer the caller, free the identifier, and for a PUBLISH also its slot and
      its place in the store. */
  function End(s: State, id: Id, packet: Incoming): (State, Out) {
    if id !in s.client then (s, Quiet)
    else
      var e := s.client[id];
      var s1 := s.(client := s.client - {id});
      (if IsPublish(e) then s1.(quota := GiveBack(s.quota).0, clientStore := Delete(s.clientStore, id)) else s1,
       Quiet.(answers := map[id := Answer(e.chan, Reply(packet))]))
  }

  function PubrelFor(id: Id, reason: byte): Packet {
    AckPacket(PUBREL, id, reason, NoProperties)
  }

  function ReceivePubrec(s: State, id: Id, reason: byte): (State, Out) {
    if id !in s.client then (s, Quiet.(sent := [PubrelFor(id, 0x92)]))
    else if reason >= 0x80 then End(s, id, Pubrec(id, reason))
    else
      (s.(clientStore := Put(s.clientStore, id, Written(PubrelFor(id, 0)))), Quiet.(sent := [PubrelFor(id, 0)]))
  }

  /** ack: PUBACK for QoS 1, PUBREC for QoS 2, which is also recorded; an error otherwise. */
  function Acknowledge(s: State, m: Publish): (State, Out)
    requires s.server.Some?
  {
    var reply := AckPacket(if m.qos == 1 then PUBACK else PUBREC, m.packetID, 0, NoProperties);
    var out := Quiet.(sent := if s.conn.Down? then [] else [reply]);
    if m.qos == 1 then (s, out)
    else if m.qos == 2 then
      (s.(serverStore := Put(s.serverStore, m.packetID, Written(reply)),
          server := Some(s.server.value[m.packetID := PUBREC])), out)
    else (s, Quiet.(failed := true))
  }

  /** A QoS 2 message that was acknowledged before and is marked as a duplicate is acknowledged again
      and not delivered. Everything else with an identifier is. */
  function ReceivePublish(s: State, m: Publish): (State, Out)
    requires s.server.Some?
  {
    if m.qos > 0 && m.packetID == 0 then (s, Quiet.(failed := true))
    else if m.qos == 2 && m.packetID in s.server.value && s.server.value[m.packetID] == PUBREC && m.duplicate then
      Acknowledge(s, m)
    else (s, Quiet.(delivered := [m]))
  }

  /** PUBREL: answered and forgotten while connected; with a failure code or no connection it changes
      nothing. */
  function ReceivePubrel(s: State, id: Id, reason: byte): (State, Out)
    requires s.server.Some?
  {
    if reason >= 0x80 || s.conn.Down? then (s, Quiet)
    else
      (s.(server := Some(s.server.value - {id}), serverStore := Delete(s.serverStore, id)),
       Quiet.(sent := [AckPacket(PUBCOMP, id, 0, NoProperties)]))
  }

  /** Handling the packet writes to the connection without asking whether there is one. */
  predicate Writes(s: State, p: Incoming) {
    p.Pubrec? && (p.id !in s.client || p.reason < 0x80)
  }

  function Receive(s: State, p: Incoming): (State, Out)
    requires s.server.Some?
  {
    match p
    case Suback(id) => End(s, id, p)
    case Unsuback(id) => End(s, id, p)
    case Puback(id) => End(s, id, p)
    case Pubcomp(id) => End(s, id, p)
    case Pubrec(id, reason) => ReceivePubrec(s, id, reason)
    case PublishIn(m) => ReceivePublish(s, m)
    case Pubrel(id, reason) => ReceivePubrel(s, id, reason)
  }
}
