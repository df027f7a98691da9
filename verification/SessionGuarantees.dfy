/** What a session guarantees over every run of its events. */
module SessionGuarantees {
  import opened Basics
  import opened Properties
  import opened Packets
  import opened Stream
  import opened StoreLog
  import opened SendQuota
  import opened Session
  import opened SessionRuns
  import PacketIds

  // ---- Runs ----

  /** A process that has just started on what earlier ones left in the stores. */
  function Start(clientStore: Log, serverStore: Log): World {
    World(State(Down, 0, map[], clientStore, 0, None, serverStore, New(0)), {}, {})
  }

  ghost predicate Legal(w: World, events: seq<Event>)
    decreases |events|
  {
    events == [] ||
    (WellFormed(w.s.clientStore) && Enabled(w, events[0]) && Legal(Next(w, events[0]).0, events[1..]))
  }

  ghost function Run(w: World, events: seq<Event>): World
    requires Legal(w, events)
    decreases |events|
  {
    if events == [] then w else Run(Next(w, events[0]).0, events[1..])
  }

  /** No request is given the identifier of a stored packet, and PUBREC comes for publishes only. */
  ghost predicate KeepsMatch(w: World, events: seq<Event>)
    requires Legal(w, events)
    decreases |events|
  {
    events == [] || (!Mixes(w, events[0]) && KeepsMatch(Next(w, events[0]).0, events[1..]))
  }

  /** No connection is established while a publisher is between its slot and the store. */
  ghost predicate KeepsCount(w: World, events: seq<Event>)
    requires Legal(w, events)
    decreases |events|
  {
    events == [] || (!LosesCount(w, events[0]) && KeepsCount(Next(w, events[0]).0, events[1..]))
  }

  /** The session is not closed while a publisher is between its slot and the store, and no publisher comes
      while a stored packet is not registered. */
  ghost predicate StaysSettled(w: World, events: seq<Event>)
    requires Legal(w, events)
    decreases |events|
  {
    events == [] || (!Unsettles(w, events[0]) && StaysSettled(Next(w, events[0]).0, events[1..]))
  }

  lemma {:induction false} RunKeeps(w: World, events: seq<Event>)
    requires Invariant(w) && Legal(w, events)
    ensures Invariant(Run(w, events))
    ensures Matched(w) && KeepsMatch(w, events) ==>
      && Matched(Run(w, events))
      && (Counted(w) && KeepsCount(w, events) ==> Counted(Run(w, events)))
      && (Settled(w) && StaysSettled(w, events) ==> Settled(Run(w, events)))
    decreases |events|
  {
    hide Invariant, Matched, Counted, Settled, Mixes, Unsettles, LosesCount, Next;
    if events != [] {
      NextKeeps(w, events[0]);
      RunKeeps(Next(w, events[0]).0, events[1..]);
    }
  }

  lemma StartOk(clientStore: Log, serverStore: Log)
    requires ClientStoreOk(clientStore) && ServerStoreOk(serverStore)
    ensures var w := Start(clientStore, serverStore); Invariant(w) && Matched(w) && Counted(w) && Settled(w)
  {
    hide ClientStored;
  }

  // ---- The store, the registered publishes and the send quota ----

  function PublishIds(client: map<Id, Entry>): set<Id> {
    set id | id in client && IsPublish(client[id])
  }

  /** In every reachable state with a live connection the identifiers in the client store are exactly
      the registered publishes, and the slots in use are one for each of them and one for each publisher
      about to store, unless one of the events happened that lose the one or the other. */
  lemma StoreMatchesQuota(clientStore: Log, serverStore: Log, events: seq<Event>)
    requires ClientStoreOk(clientStore) && ServerStoreOk(serverStore)
    requires Legal(Start(clientStore, serverStore), events) && KeepsMatch(Start(clientStore, serverStore), events)
    ensures var w := Run(Start(clientStore, serverStore), events);
      w.s.conn.Up? ==>
        && w.s.clientStore.data.Keys == PublishIds(w.s.client)
        && (KeepsCount(Start(clientStore, serverStore), events) ==>
              w.s.quota.initial - w.s.quota.quota == |PublishIds(w.s.client)| + |w.pending|)
  {
    hide ClientStored, Next, KeepsMatch, KeepsCount, Legal, Run;
    StartOk(clientStore, serverStore);
    RunKeeps(Start(clientStore, serverStore), events);
    var w := Run(Start(clientStore, serverStore), events);
    if w.s.conn.Up? {
      assert w.s.clientStore.data.Keys == PublishIds(w.s.client);
      assert |w.s.clientStore.data| == |w.s.clientStore.data.Keys|;
    }
  }

  /** With a live connection, requests and store matched and the slots counted, ending a publish never
      releases a slot that was not taken. */
  lemma NoUnexpectedRelease(w: World, id: Id)
    requires Invariant(w) && Matched(w) && Counted(w) && w.s.conn.Up? && id in w.s.client && IsPublish(w.s.client[id])
    ensures !GiveBack(w.s.quota).1.Unexpected?
  {
    hide ClientStored;
    DeleteSize(w.s.clientStore, id);
  }

  /** A successful ConAckReceived takes exactly one slot for each stored packet, so that the rest of the
      receive maximum is left for new messages. */
  lemma ConAckSlots(w: World, connectExpiry: Option<uint32>, ca: Connack, writable: nat)
    requires Invariant(w)
    ensures var (s', out) := ConAck(w.s, connectExpiry, ca, writable);
      !out.failed ==>
        && Held(s'.quota) == |s'.clientStore.data|
        && s'.quota.quota + |s'.clientStore.data|
           == (if ca.receiveMaximum.Some? then ca.receiveMaximum.value else 65535)
  {
    hide ClientStored;
    ConnectedOk(w, connectExpiry, ca);
    var s := Connected(w.s, connectExpiry, ca);
    var ids := Order(s.clientStore);
    ListingSize(ids, s.clientStore.data);
    ResendAll(s, ids, writable);
  }

  /** The count of slots survives a reconnection exactly when no publisher was between its slot and the
      store: its slot is forgotten with the old connection. */
  lemma ReconnectExactly(w: World, connectExpiry: Option<uint32>, ca: Connack, writable: nat)
    requires Invariant(w) && !ConAck(w.s, connectExpiry, ca, writable).1.failed
    ensures var s' := ConAck(w.s, connectExpiry, ca, writable).0;
      Held(s'.quota) == |s'.clientStore.data| + |w.pending| <==> w.pending == {}
  {
    ConAckSlots(w, connectExpiry, ca, writable);
  }

  /** PUBREC with a success code keeps store and registrations in step exactly when the identifier
      belongs to a publish. */
  lemma PubrecExactly(w: World, id: Id, reason: byte)
    requires Matched(w) && id in w.s.client && reason < 0x80
    ensures var s' := ReceivePubrec(w.s, id, reason).0;
      ClientOk(s'.client, s'.clientStore) <==> IsPublish(w.s.client[id])
  {
    hide ClientStored, Written;
  }

  /** A SUBSCRIBE or UNSUBSCRIBE does exactly when the identifier it is given is not in the store, which is
      always so on a usable connection. */
  lemma RequestExactly(w: World, kind: byte, chan: nat)
    requires Matched(w) && Enabled(w, RequestEvent(kind, chan))
    ensures var s' := AddRequest(w.s, kind, Caller(chan)).0;
      ClientOk(s'.client, s'.clientStore) <==> !Mixes(w, RequestEvent(kind, chan))
    ensures w.s.conn.Up? ==> !Mixes(w, RequestEvent(kind, chan))
  {
    hide Storable;
    var id := PacketIds.NextFree(w.s.last, w.s.client.Keys);
    if Mixes(w, RequestEvent(kind, chan)) {
      var s' := AddRequest(w.s, kind, Caller(chan)).0;
      assert id.value in s'.client && !IsPublish(s'.client[id.value]);
    }
  }

  /** After ConAckReceived every stored packet is registered exactly when those that could not be written were
      before; in particular when it succeeds. */
  lemma ConAckRegistersExactly(w: World, connectExpiry: Option<uint32>, ca: Connack, writable: nat)
    requires Invariant(w)
    ensures WellFormed(Connected(w.s, connectExpiry, ca).clientStore)
    ensures var s := Connected(w.s, connectExpiry, ca);
      var s' := ConAck(w.s, connectExpiry, ca, writable).0;
      var ids := Order(s.clientStore);
      AllRegistered(s'.client, s'.clientStore) <==> forall i | writable <= i < |ids| :: ids[i] in s.client
  {
    hide ClientStored, Connected, ConAck, Order;
    ConAckShape(w, connectExpiry, ca, writable);
    var s := Connected(w.s, connectExpiry, ca);
    var (s', out) := ConAck(w.s, connectExpiry, ca, writable);
    PrefixRegisters(Order(s.clientStore), s.clientStore, |out.sent|, s.client, s'.client);
  }

  lemma PrefixRegisters(ids: seq<Id>, store: Log, n: nat, client: map<Id, Entry>, client': map<Id, Entry>)
    requires Listing(ids, store.data) && n <= |ids| && Registered(client, client', ids[..n])
    ensures AllRegistered(client', store) <==> forall i | n <= i < |ids| :: ids[i] in client
  {
    if AllRegistered(client', store) {
      forall i | n <= i < |ids|
        ensures ids[i] in client
      {
        assert ids[i] in client';
        assert forall k | 0 <= k < n :: ids[..n][k] != ids[i];
      }
    }
    if forall i | n <= i < |ids| :: ids[i] in client {
      forall id | id in store.data
        ensures id in client'
      {
        var i :| 0 <= i < |ids| && ids[i] == id;
        if i < n {
          assert ids[..n][i] == id;
        }
      }
    }
  }

  /** The failure in full: a publisher takes the only slot, the connection is replaced before it stores
      its packet, and the acknowledgement of that packet then releases a slot nobody holds. */
  lemma SlotForgotten(s: State, connectExpiry: Option<uint32>, ca: Connack, m: Publish, chan: Channel)
    requires s.conn.Up? && s.expiry > 0 && s.client == map[] && s.clientStore.data == map[] && Free(s.quota)
    requires ca.sessionPresent && connectExpiry == None && ca.expiry.Some?
    ensures WellFormed(s.clientStore)
    ensures var s1 := ConAck(s.(quota := Enter(s.quota, 0, false)), connectExpiry, ca, 0).0;
      var (s2, added) := AddPublish(s1, m, chan, false);
      added.Added? && added.id in s2.client && GiveBack(s2.quota).1.Unexpected?
  {
    var s0 := s.(quota := Enter(s.quota, 0, false));
    var s1 := Connected(s0, connectExpiry, ca);
    assert Order(s1.clientStore) == [];
    assert PacketIds.IsId(1) && 1 !in s1.client.Keys;
  }

  /** The identifier after this one, around the circle. */
  function After(last: Id): Id {
    if last == 65535 then 1 else last + 1
  }

  /** Close forgets the registrations but not the stored packets. A publisher still about to store is then
      given an identifier that is in the store exactly when the session outlives the connection and the
      identifier after the last one issued is stored. */
  lemma CloseReissuesExactly(s: State)
    ensures var s' := Closed(s).0;
      && PacketIds.NextFree(s'.last, s'.client.Keys) == Some(After(s.last))
      && (After(s.last) in s'.clientStore.data <==>
            (s.conn.Down? || s.expiry > 0) && After(s.last) in s.clientStore.data)
  {
    assert PacketIds.IsNextFree(s.last, {}, After(s.last));
    PacketIds.NextFreeIs(s.last, {}, After(s.last));
    assert Closed(s).0.client.Keys == {};
  }

  // ---- Stores that hold anything ----

  /** A stored packet is sent again exactly when it can be read and is a PUBLISH, which gets DUP, or a PUBREL. */
  lemma ResendableExactly(packet: seq<byte>, p: Packet)
    ensures Resendable(packet) == Some(p) <==>
      && ReadPacket(packet).Done?
      && var q := ReadPacket(packet).value;
         || (q.PublishPacket? && p == PublishPacket(q.publish.(duplicate := true)))
         || (q.AckPacket? && q.ack == PUBREL && p == q)
  {
    hide ReadPacket;
  }

  /** What can be sent again of some identifiers. */
  function Again(store: Log, ids: seq<Id>): seq<Packet>
    decreases |ids|
  {
    if ids == [] then []
    else
      (if ids[0] !in store.data then []
       else
         match Resendable(store.data[ids[0]].packet)
         case None => []
         case Some(p) => [p])
      + Again(store, ids[1..])
  }

  /** A store without the packets among these identifiers that cannot be sent again. */
  ghost function Sound(store: Log, ids: seq<Id>): Log {
    store.(data :=
      map id | id in store.data && (id in ids ==> Resendable(store.data[id].packet).Some?) :: store.data[id])
  }

  lemma {:induction false} AgainWithout(store: Log, id: Id, ids: seq<Id>)
    requires id !in ids
    ensures Again(Delete(store, id), ids) == Again(store, ids)
    decreases |ids|
  {
    hide Resendable;
    if ids != [] {
      AgainWithout(store, id, ids[1..]);
    }
  }

  lemma SoundStep(store: Log, ids: seq<Id>)
    requires ids != [] && ids[0] !in ids[1..] && ids[0] in store.data
    ensures Sound(store, ids)
         == Sound(if Resendable(store.data[ids[0]].packet).Some? then store else Delete(store, ids[0]), ids[1..])
  {
    hide Resendable;
    assert forall id :: id in ids <==> id == ids[0] || id in ids[1..];
  }

  /** The retransmission loop over any store, corrupt packets included: it fails exactly when not everything that
      can be sent again can be written. If it does not, it has sent exactly that, in order, with a slot for each, and
      dropped exactly the rest. */
  lemma {:induction false} ResendAny(s: State, ids: seq<Id>, writable: nat)
    requires forall i, j | 0 <= i < j < |ids| :: ids[i] != ids[j]
    requires forall i | 0 <= i < |ids| :: ids[i] in s.clientStore.data
    ensures var (s', sent, ok) := Resend(s, ids, writable);
      (ok <==> |Again(s.clientStore, ids)| <= writable && forall p <- Again(s.clientStore, ids) :: Encode(p).Ok?)
    ensures var (s', sent, ok) := Resend(s, ids, writable);
      ok ==>
        && sent == Again(s.clientStore, ids)
        && s' == s.(client := s'.client, clientStore := Sound(s.clientStore, ids), quota := s'.quota)
        && s'.quota == s.quota.(quota := s.quota.quota - |sent|)
        && (forall id <- ids :: id in s'.clientStore.data ==> id in s'.client)
        && (forall id | id in s.client :: id in s'.client && s'.client[id] == s.client[id])
    decreases |ids|
  {
    hide Resendable, Encode, TypeOf, Sound;
    if ids == [] {
      SoundNone(s.clientStore);
    } else {
      assert ids[0] !in ids[1..];
      SoundStep(s.clientStore, ids);
      match Resendable(s.clientStore.data[ids[0]].packet) {
        case None =>
          AgainWithout(s.clientStore, ids[0], ids[1..]);
          ResendAny(s.(clientStore := Delete(s.clientStore, ids[0])), ids[1..], writable);
          SoundDrops(s.clientStore, ids);
        case Some(p) =>
          if writable > 0 && Encode(p).Ok? {
            var s1 := s.(quota := Enter(s.quota, 0, true));
            var s2 := if ids[0] in s.client then s1
                      else s1.(client := s.client[ids[0] := Entry(TypeOf(p), Internal)]);
            ResendAny(s2, ids[1..], writable - 1);
          }
      }
    }
  }

  lemma SoundNone(store: Log)
    ensures Sound(store, []) == store
  {}

  lemma SoundDrops(store: Log, ids: seq<Id>)
    requires ids != [] && ids[0] in store.data && Resendable(store.data[ids[0]].packet).None?
    ensures ids[0] !in Sound(store, ids).data
  {
    hide Resendable;
  }

  /** Loading the server's half keeps exactly the packets whose first byte says PUBLISH or PUBREC, each with its
      type, and drops the rest. */
  lemma LoadsExactly(s: State, id: Id)
    requires id in s.serverStore.data
    ensures var s' := LoadServer(s);
      var packet := s.serverStore.data[id].packet;
      && s'.server.Some? && s'.server.value.Keys == s'.serverStore.data.Keys <= s.serverStore.data.Keys
      && (id in s'.server.value <==> packet != [] && (0x30 <= packet[0] < 0x40 || 0x50 <= packet[0] < 0x60))
      && (id in s'.server.value ==>
            && s'.server.value[id] == (if packet[0] < 0x40 then PUBLISH else PUBREC)
            && s'.serverStore.data[id] == s.serverStore.data[id])
  {}

  // ---- The end of a session ----

  /** The first interval that is given; 0 when there is none. */
  function FirstGiven(intervals: seq<Option<uint32>>): uint32 {
    if intervals == [] then 0
    else if intervals[0].Some? then intervals[0].value
    else FirstGiven(intervals[1..])
  }

  /** The session outlives the connection exactly when the interval from the DISCONNECT, or else the
      CONNACK, or else the CONNECT, is not 0. Then everything is kept; otherwise nothing is. */
  lemma SessionKeptExactly(s: State, connectExpiry: Option<uint32>, ca: Connack, interval: Option<uint32>)
    ensures var s1 := Connected(s, connectExpiry, ca);
      var s2 := ConnectionLost(s1, interval);
      && s2.conn.Down? && s2.quota == s1.quota && s2.last == s1.last
      && if FirstGiven([interval, ca.expiry, connectExpiry]) > 0 then
           s2.client == s1.client && s2.clientStore == s1.clientStore
           && s2.server == s1.server && s2.serverStore == s1.serverStore
         else
           s2.client == map[] && s2.clientStore.data == map[]
           && s2.server == Some(map[]) && s2.serverStore.data == map[]
  {
    FirstOfThree(interval, ca.expiry, connectExpiry);
  }

  lemma FirstOfThree(a: Option<uint32>, b: Option<uint32>, c: Option<uint32>)
    ensures FirstGiven([a, b, c])
         == if a.Some? then a.value else if b.Some? then b.value else if c.Some? then c.value else 0
  {
    assert [a, b, c][1..] == [b, c] && [b, c][1..] == [c];
    assert FirstGiven([c]) == if c.Some? then c.value else 0;
    assert FirstGiven([b, c]) == if b.Some? then b.value else FirstGiven([c]);
  }

  /** Reporting the loss of a connection again changes nothing. */
  lemma LostOnce(s: State, a: Option<uint32>, b: Option<uint32>)
    ensures ConnectionLost(ConnectionLost(s, a), b) == ConnectionLost(s, a)
  {}

  // ---- Failed requests ----

  /** AddToSession for a PUBLISH when a slot is free: take the slot, then the rest. */
  ghost function AddToSession(s: State, m: Publish, chan: Channel, storeFails: bool): (State, Added) {
    AddPublish(s.(quota := Enter(s.quota, 0, false)), m, chan, storeFails)
  }

  /** A failed AddToSession leaves everything as it was but the allocator's position, which has moved past the
      identifier that was tried, or off 0 when there was none. */
  lemma FailedAddUndone(s: State, m: Publish, chan: Channel, storeFails: bool)
    requires Free(s.quota) && s.quota.quota <= s.quota.initial && !AddToSession(s, m, chan, storeFails).1.Added?
    ensures AddToSession(s, m, chan, storeFails).0
         == s.(last := PacketIds.LastAfter(s.last, PacketIds.NextFree(s.last, s.client.Keys)))
    ensures AddToSession(s, m, chan, storeFails).1
         == if PacketIds.Exhausted(s.client.Keys) then NoIdentifier else StoreFailed
  {}

  /** The slot of a failed publisher is not lost: with others waiting it goes to the first of them. */
  lemma FailedAddHandsOver(w: World, t: Ticket, m: Publish, chan: nat, storeFails: bool)
    requires Invariant(w) && Counted(w) && Enabled(w, PublishEvent(t, m, chan, storeFails)) && w.s.conn.Up?
    requires Next(w, PublishEvent(t, m, chan, storeFails)).1.failed
    ensures var w' := Next(w, PublishEvent(t, m, chan, storeFails)).0;
      && w'.s.client == w.s.client && w'.s.clientStore == w.s.clientStore
      && (w.s.quota.waiters != [] && w.s.quota.quota == 0 ==>
            w'.pending == w.pending - {t} + {w.s.quota.waiters[0]} && Held(w'.s.quota) == Held(w.s.quota))
      && (w.s.quota.waiters == [] || w.s.quota.quota < 0 ==>
            w'.pending == w.pending - {t} && Held(w'.s.quota) == Held(w.s.quota) - 1)
  {
    hide ClientStored, Storable, Written, AddPublish, ClientStoreOk, ServerStoreOk, ServerOk, ClientOk, ChannelsOk,
         AllRegistered;
    AddFailure(w.s, m, Caller(chan), storeFails);
  }

  lemma AddFailure(s: State, m: Publish, chan: Channel, storeFails: bool)
    ensures var (s', added) := AddPublish(s, m, chan, storeFails);
      !added.Added? ==> s' == s.(last := s'.last, quota := GiveBack(s.quota).0)
  {
    hide Written;
  }
}
