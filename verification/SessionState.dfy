/** The State object of paho/session/state/state.go. Each method is proved against the function of the
    same operation in module Session. */
module SessionState {
  import opened Basics
  import opened Properties
  import opened Packets
  import opened Stream
  import opened StoreLog
  import opened MemoryStore
  import opened SendQuota
  import opened PacketIds
  import S = Session
  import opened SessionRuns

  class State {
    /** Whether the connection is set. */
    var conn: bool
    /** Whether the ConAckReceived that set it returned without error. */
    ghost var usable: bool
    var sessionExpiryInterval: uint32
    var clientPackets: map<Id, S.Entry>
    const clientStore: Store
    var lastMid: Id
    /** None stands for the nil map of a session that has not been loaded. */
    var serverPackets: Option<map<Id, byte>>
    const serverStore: Store
    var inflight: SendQuota

    ghost predicate Valid()
      reads this, clientStore, serverStore
    {
      clientStore != serverStore && clientStore.Valid() && serverStore.Valid()
    }

    ghost function View(): S.State
      reads this, clientStore, serverStore, inflight
    {
      S.State(if !conn then S.Down else if usable then S.Up else S.Broken, sessionExpiryInterval, clientPackets,
              clientStore.View(), lastMid, serverPackets, serverStore.View(), inflight.View())
    }

    constructor (client: Store, server: Store)
      requires client != server && client.Valid() && server.Valid()
      ensures Valid() && clientStore == client && serverStore == server
      ensures View() == S.State(S.Down, 0, map[], client.View(), 0, None, server.View(), New(0))
      ensures fresh(inflight)
    {
      conn, usable, sessionExpiryInterval, clientPackets, lastMid, serverPackets := false, false, 0, map[], 0, None;
      clientStore, serverStore := client, server;
      inflight := new SendQuota(0);
    }

    method Clean()
      requires Valid()
      modifies this, clientStore, serverStore
      ensures Valid() && inflight == old(inflight) && conn == old(conn) && usable == old(usable)
      ensures View() == S.Clean(old(View()))
    {
      serverPackets := Some(map[]);
      clientPackets := map[];
      serverStore.Reset();
      clientStore.Reset();
    }

    method ConnectionLost(interval: Option<uint32>)
      requires Valid()
      modifies this, clientStore, serverStore
      ensures Valid() && inflight == old(inflight)
      ensures View() == S.ConnectionLost(old(View()), interval)
    {
      if !conn {
        return;
      }
      conn := false;
      if interval.Some? {
        sessionExpiryInterval := interval.value;
      }
      if sessionExpiryInterval == 0 {
        Clean();
      }
    }

    /** Read the type of every stored packet; one that cannot be used is quarantined. */
    method LoadServerSession()
      requires Valid()
      modifies this, serverStore
      ensures Valid() && inflight == old(inflight) && conn == old(conn) && usable == old(usable)
      ensures View() == S.LoadServer(old(View()))
    {
      hide Loaded, Types, Listing, WellFormed, S.LoadServer;
      var packets: map<Id, byte> := map[];
      var ids := serverStore.List();
      ghost var was := serverStore.data;
      LoadNone(was);
      var i := 0;
      while i < |ids|
        invariant 0 <= i <= |ids| && serverStore.Valid()
        invariant serverStore.c == old(serverStore.c)
        invariant serverStore.data == Loaded(was, ids[..i])
        invariant packets == Types(was, ids[..i])
        modifies serverStore
      {
        NotSeen(was, ids, i);
        LoadStep(was, ids, i);
        var r := serverStore.Get(ids[i]);
        if r.Some? && S.ServerType(r.value) {
          packets := packets[ids[i] := S.StoredType(r.value).value];
        } else if r.Some? {
          var _ := serverStore.Quarantine(ids[i]);
        }
        i := i + 1;
      }
      assert ids[..i] == ids;
      LoadDone(old(View()), ids);
      serverPackets := Some(packets);
    }

    /** ConAckReceived up to the retransmission loop. */
    method Connect(connectExpiry: Option<uint32>, ca: S.Connack)
      requires Valid()
      modifies this, clientStore, serverStore
      ensures Valid() && fresh(inflight) && conn && usable
      ensures View() == S.Connected(old(View()), connectExpiry, ca)
    {
      hide S.LoadServer, S.Clean, S.ConnectionLost, WellFormed;
      ConnectionLost(None);
      conn, usable := true, true;
      if !ca.sessionPresent {
        Clean();
      }
      if ca.expiry.Some? {
        sessionExpiryInterval := ca.expiry.value;
      } else if connectExpiry.Some? {
        sessionExpiryInterval := connectExpiry.value;
      } else {
        sessionExpiryInterval := 0;
      }
      if serverPackets.None? {
        LoadServerSession();
      }
      var recvMax: uint16 := 65535;
      if ca.receiveMaximum.Some? {
        recvMax := ca.receiveMaximum.value;
      }
      inflight := new SendQuota(recvMax);
    }

    /** One turn of the retransmission loop. */
    method ResendOne(id: Id, writable: bool) returns (sent: Option<Packet>, ok: bool)
      requires Valid()
      modifies this, clientStore, inflight
      ensures Valid() && inflight == old(inflight) && conn == old(conn) && usable == old(usable)
      ensures One(old(View()), id, writable) == (View(), sent, ok)
    {
      hide WellFormed, ReadPacket, Encode;
      var r := clientStore.Get(id);
      if r.None? {
        return None, true;
      }
      var p: Packet;
      match ReadPacket(r.value) {
        case Done(PublishPacket(m), _) =>
          p := PublishPacket(m.(duplicate := true));
        case Done(AckPacket(ack, pid, reason, props), _) =>
          if ack != PUBREL {
            var _ := clientStore.Quarantine(id);
            return None, true;
          }
          p := AckPacket(ack, pid, reason, props);
        case _ =>
          var _ := clientStore.Quarantine(id);
          return None, true;
      }
      var _ := inflight.Acquire(0, true);
      if !writable || Encode(p).Err? {
        return None, false;
      }
      if id !in clientPackets {
        clientPackets := clientPackets[id := S.Entry(S.TypeOf(p), S.Internal)];
      }
      return Some(p), true;
    }

    /** The retransmission loop: the connection takes writable more packets before it fails. */
    method ResendStored(writable: nat) returns (sent: seq<Packet>, ok: bool)
      requires Valid()
      modifies this, clientStore, inflight
      ensures Valid() && inflight == old(inflight) && conn == old(conn) && usable == old(usable)
      ensures S.Resend(old(View()), Order(old(clientStore.View())), writable) == (View(), sent, ok)
    {
      hide WellFormed, Listing, S.Resend, One, Remaining;
      var ids := clientStore.List();
      ghost var start := S.Resend(View(), ids, writable);
      ResendAtStart(View(), ids, writable);
      sent := [];
      var i := 0;
      while i < |ids|
        invariant 0 <= i <= |ids| && |sent| <= writable
        invariant Valid() && inflight == old(inflight) && conn == old(conn) && usable == old(usable)
        invariant Remaining(start, View(), ids[i..], sent, writable - |sent|)
      {
        ResendStep(start, View(), ids[i..], sent, writable - |sent|);
        var p;
        p, ok := ResendOne(ids[i], |sent| < writable);
        if !ok {
          return;
        }
        sent := sent + Sent(p);
        assert ids[i..][1..] == ids[i + 1..];
        i := i + 1;
      }
      ResendDone(start, View(), sent, writable - |sent|);
      return sent, true;
    }

    method ConAckReceived(connectExpiry: Option<uint32>, ca: S.Connack, writable: nat)
      returns (sent: seq<Packet>, failed: bool)
      requires Valid()
      modifies this, clientStore, serverStore
      ensures Valid() && fresh(inflight)
      ensures S.ConAck(old(View()), connectExpiry, ca, writable)
           == (View(), S.Quiet.(sent := sent, failed := failed))
    {
      hide WellFormed, S.Resend, S.Connected;
      Connect(connectExpiry, ca);
      var ok;
      sent, ok := ResendStored(writable);
      usable := ok;
      failed := !ok;
    }

    /** Register a request under the next free identifier. */
    method AllocateNextPacketId(kind: byte, chan: S.Channel) returns (id: Option<Id>)
      modifies this
      ensures id == NextFree(old(lastMid), old(clientPackets).Keys)
      ensures View() == old(View()).(
        last := LastAfter(old(lastMid), id),
        client := if id.Some? then old(clientPackets)[id.value := S.Entry(kind, chan)] else old(clientPackets))
      ensures inflight == old(inflight)
    {
      id, lastMid := FindFree(lastMid, clientPackets.Keys);
      if id.Some? {
        clientPackets := clientPackets[id.value := S.Entry(kind, chan)];
      }
    }

    /** AddToSession for a PUBLISH once Acquire has granted it a slot. The identifier is what is left
        in the packet. A packet that cannot be encoded makes the memory store panic with the identifier
        registered and nothing stored. */
    method AddPublish(m: Publish, chan: S.Channel, storeFails: bool)
      returns (added: S.Added, identifier: Id, panics: bool)
      requires Valid()
      modifies this, clientStore, inflight
      ensures Valid() && inflight == old(inflight)
      ensures var id := NextFree(old(lastMid), old(clientPackets).Keys);
        panics <==> !storeFails && id.Some? && Encode(PublishPacket(m.(packetID := id.value))).Err?
      ensures if panics then View() == S.AddRequest(old(View()), PUBLISH, chan).0
              else (View(), added) == S.AddPublish(old(View()), m, chan, storeFails)
      ensures identifier == if added.Added? then added.id else if added.StoreFailed? then 0 else m.packetID
    {
      hide Encode, NextFree;
      panics := false;
      var id := AllocateNextPacketId(PUBLISH, chan);
      if id.None? {
        var _ := inflight.Release();
        return S.NoIdentifier, m.packetID, false;
      }
      if storeFails {
        NextFreeIsFree(old(lastMid), old(clientPackets).Keys);
        assert clientPackets - {id.value} == old(clientPackets);
        clientPackets := clientPackets - {id.value};
        var _ := inflight.Release();
        return S.StoreFailed, 0, false;
      }
      panics := clientStore.Put(id.value, Encode(PublishPacket(m.(packetID := id.value))));
      return S.Added.Added(id.value), id.value, panics;
    }

    /** AddToSession for a SUBSCRIBE or UNSUBSCRIBE. */
    method AddRequest(kind: byte, chan: S.Channel) returns (added: S.Added)
      requires Valid()
      modifies this
      ensures Valid() && inflight == old(inflight)
      ensures (View(), added) == S.AddRequest(old(View()), kind, chan)
    {
      hide NextFree;
      var id := AllocateNextPacketId(kind, chan);
      return if id.None? then S.NoIdentifier else S.Added.Added(id.value);
    }

    method EndClientGenerated(id: Id, packet: S.Incoming) returns (out: S.Out)
      requires Valid()
      modifies this, clientStore, inflight
      ensures Valid() && inflight == old(inflight)
      ensures (View(), out) == S.End(old(View()), id, packet) && out.sent == [] && !out.failed
    {
      out := S.Quiet;
      if id in clientPackets {
        var cg := clientPackets[id];
        out := out.(answers := map[id := S.Answer(cg.chan, S.Reply(packet))]);
        clientPackets := clientPackets - {id};
        if cg.kind == PUBLISH || cg.kind == PUBREL {
          var _ := inflight.Release();
          var _ := clientStore.Delete(id);
        }
      }
    }

    /** A failed write is returned as an error after the acknowledgement has been recorded. */
    method Ack(m: Publish, writeFails: bool) returns (out: S.Out, err: bool)
      requires Valid() && serverPackets.Some?
      modifies this, serverStore
      ensures Valid() && inflight == old(inflight)
      ensures var (s', full) := S.Acknowledge(old(View()), m);
        && View() == s'
        && out == (if writeFails then full.(sent := []) else full)
        && (err <==> full.failed || (writeFails && full.sent != []))
    {
      hide Encode;
      out, err := S.Quiet, false;
      if m.qos == 1 {
        if conn {
          out, err := Write(AckPacket(PUBACK, m.packetID, 0, NoProperties), writeFails);
        }
      } else if m.qos == 2 {
        var pr := AckPacket(PUBREC, m.packetID, 0, NoProperties);
        if conn {
          out, err := Write(pr, writeFails);
        }
        AckSendable(PUBREC, m.packetID, 0);
        var _ := serverStore.Put(m.packetID, Encode(pr));
        serverPackets := Some(serverPackets.value[m.packetID := PUBREC]);
      } else {
        out, err := out.(failed := true), true;
      }
    }

    method Write(p: Packet, fails: bool) returns (out: S.Out, err: bool)
      ensures out == S.Quiet.(sent := if fails then [] else [p]) && err == fails
    {
      return S.Quiet.(sent := if fails then [] else [p]), fails;
    }

    /** A write to a connection that is not there panics, after the store has been updated. Writing a PUBREL
        may fail without an error. */
    method PacketReceived(p: S.Incoming, writeFails: bool) returns (out: S.Out, err: bool, panics: bool)
      requires Valid() && serverPackets.Some?
      modifies this, clientStore, serverStore, inflight
      ensures Valid() && inflight == old(inflight)
      ensures panics <==> !old(conn) && S.Writes(old(View()), p)
      ensures var (s', full) := S.Receive(old(View()), p);
        && View() == s'
        && out == (if writeFails || panics then full.(sent := []) else full)
        && (err <==> full.failed || (writeFails && full.sent != [] && !p.Pubrec?))
    {
      hide Encode, S.End, S.Acknowledge, WellFormed;
      out, err, panics := S.Quiet, false, false;
      match p {
        case Suback(id) => out := EndClientGenerated(id, p);
        case Unsuback(id) => out := EndClientGenerated(id, p);
        case Puback(id) => out := EndClientGenerated(id, p);
        case Pubcomp(id) => out := EndClientGenerated(id, p);
        case Pubrec(id, reason) =>
          if id in clientPackets && reason >= 0x80 {
            out := EndClientGenerated(id, p);
            return;
          }
          var pl := S.PubrelFor(id, 0x92);
          if id in clientPackets {
            pl := S.PubrelFor(id, 0);
            AckSendable(PUBREL, id, 0);
            var _ := clientStore.Put(id, Encode(pl));
          }
          if !conn {
            panics := true;
            return;
          }
          var ignored;
          out, ignored := Write(pl, writeFails);
        case PublishIn(m) =>
          if m.qos > 0 {
            if m.packetID == 0 {
              return out.(failed := true), true, false;
            }
            if m.qos == 2 && m.packetID in serverPackets.value {
              if serverPackets.value[m.packetID] == PUBREC && m.duplicate {
                out, err := Ack(m, writeFails);
                return;
              }
            }
          }
          out := out.(delivered := [m]);
        case Pubrel(id, reason) =>
          if reason < 0x80 && conn {
            out, err := Write(AckPacket(PUBCOMP, id, 0, NoProperties), writeFails);
            serverPackets := Some(serverPackets.value - {id});
            var _ := serverStore.Delete(id);
          }
      }
    }

    /** Every outstanding request is told, in whatever order the map is iterated. */
    method Close() returns (out: S.Out)
      requires Valid()
      modifies this, clientStore, serverStore
      ensures Valid() && inflight == old(inflight)
      ensures (View(), out) == S.Closed(old(View()))
    {
      hide S.ConnectionLost, WellFormed;
      ConnectionLost(None);
      ghost var all := clientPackets;
      ghost var lost := View();
      out := S.Quiet;
      while clientPackets != map[]
        invariant forall id | id in clientPackets :: id in all && clientPackets[id] == all[id]
        invariant View() == lost.(client := clientPackets)
        invariant out == S.Quiet.(answers := Told(all, all.Keys - clientPackets.Keys))
        modifies `clientPackets
        decreases clientPackets.Keys
      {
        var packetID :| packetID in clientPackets;
        assert all.Keys - (clientPackets - {packetID}).Keys == (all.Keys - clientPackets.Keys) + {packetID};
        out := out.(answers := out.answers[packetID := S.Answer(clientPackets[packetID].chan, S.Shutdown)]);
        clientPackets := clientPackets - {packetID};
      }
      assert all.Keys - clientPackets.Keys == all.Keys;
      assert out.answers == S.Closed(old(View())).1.answers;
    }
  }

  /** What is left of a server store once the first identifiers have been looked at. */
  ghost function Loaded(was: map<Id, Stored>, seen: seq<Id>): map<Id, Stored> {
    map id | id in was && (id in seen ==> S.ServerType(was[id].packet)) :: was[id]
  }

  ghost function Types(was: map<Id, Stored>, seen: seq<Id>): map<Id, byte> {
    map id | id in was && id in seen && S.ServerType(was[id].packet) :: S.StoredType(was[id].packet).value
  }

  lemma LoadStep(was: map<Id, Stored>, ids: seq<Id>, i: nat)
    requires i < |ids| && ids[i] in was && ids[i] !in ids[..i]
    ensures ids[i] in Loaded(was, ids[..i]) && Loaded(was, ids[..i])[ids[i]] == was[ids[i]]
    ensures S.ServerType(was[ids[i]].packet) ==>
              && Loaded(was, ids[..i + 1]) == Loaded(was, ids[..i])
              && Types(was, ids[..i + 1]) == Types(was, ids[..i])[ids[i] := S.StoredType(was[ids[i]].packet).value]
    ensures !S.ServerType(was[ids[i]].packet) ==>
              && Loaded(was, ids[..i + 1]) == Loaded(was, ids[..i]) - {ids[i]}
              && Types(was, ids[..i + 1]) == Types(was, ids[..i])
  {
    assert ids[..i + 1] == ids[..i] + [ids[i]];
  }

  lemma NotSeen(was: map<Id, Stored>, ids: seq<Id>, i: nat)
    requires i < |ids| && Listing(ids, was)
    ensures ids[i] in was && ids[i] !in ids[..i]
  {}

  lemma LoadNone(was: map<Id, Stored>)
    ensures Loaded(was, []) == was && Types(was, []) == map[]
  {}

  lemma LoadDone(s: S.State, ids: seq<Id>)
    requires Listing(ids, s.serverStore.data)
    ensures S.LoadServer(s)
         == s.(server := Some(Types(s.serverStore.data, ids)),
               serverStore := s.serverStore.(data := Loaded(s.serverStore.data, ids)))
  {
    var was := s.serverStore.data;
    assert Loaded(was, ids) == S.LoadServer(s).serverStore.data;
    assert Types(was, ids) == S.LoadServer(s).server.value;
  }

  /** From here the loop still has these identifiers to resend, and ends as it would have from its start. */
  ghost predicate Remaining(
      start: (S.State, seq<Packet>, bool), s: S.State, ids: seq<Id>, sent: seq<Packet>, left: nat) {
    var (last, more, ok) := S.Resend(s, ids, left);
    start == (last, sent + more, ok)
  }

  ghost function One(s: S.State, id: Id, writable: bool): (S.State, Option<Packet>, bool) {
    if id !in s.clientStore.data then (s, None, true)
    else
      match S.Resendable(s.clientStore.data[id].packet)
      case None => (s.(clientStore := Delete(s.clientStore, id)), None, true)
      case Some(p) =>
        var s1 := s.(quota := Enter(s.quota, 0, true));
        if !writable || Encode(p).Err? then (s1, None, false)
        else
          (if id in s.client then s1 else s1.(client := s.client[id := S.Entry(S.TypeOf(p), S.Internal)]),
           Some(p), true)
  }

  function Sent(p: Option<Packet>): seq<Packet> {
    if p.Some? then [p.value] else []
  }

  lemma ResendAtStart(s: S.State, ids: seq<Id>, left: nat)
    ensures ids[0..] == ids && Remaining(S.Resend(s, ids, left), s, ids, [], left)
  {
    hide S.Resend;
    var (last, more, ok) := S.Resend(s, ids, left);
    assert [] + more == more;
  }

  lemma ResendStep(start: (S.State, seq<Packet>, bool), s: S.State, ids: seq<Id>, sent: seq<Packet>, left: nat)
    requires ids != [] && Remaining(start, s, ids, sent, left)
    ensures var (next, p, ok) := One(s, ids[0], left > 0);
      if ok then |Sent(p)| <= left && Remaining(start, next, ids[1..], sent + Sent(p), left - |Sent(p)|)
      else start == (next, sent, false)
  {
    hide S.Resendable, Encode;
    var (next, p, ok) := One(s, ids[0], left > 0);
    assert sent + [] == sent;
    if p.Some? {
      var (last, more, done) := S.Resend(next, ids[1..], left - 1);
      assert sent + ([p.value] + more) == (sent + [p.value]) + more;
    }
  }

  lemma ResendDone(start: (S.State, seq<Packet>, bool), s: S.State, sent: seq<Packet>, left: nat)
    requires Remaining(start, s, [], sent, left)
    ensures start == (s, sent, true)
  {
    assert sent + [] == sent;
  }

  lemma NextFreeIsFree(last: Id, taken: set<Id>)
    ensures NextFree(last, taken).Some? ==> NextFree(last, taken).value !in taken
  {}

  ghost function Told(all: map<Id, S.Entry>, ids: set<Id>): map<Id, S.Answer> {
    map id | id in ids && id in all :: S.Answer(all[id].chan, S.Shutdown)
  }
}
