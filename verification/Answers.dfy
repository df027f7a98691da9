/** The answers a session gives to its callers. */
module Answers {
  import opened Basics
  import opened Properties
  import opened Packets
  import opened Stream
  import opened StoreLog
  import opened SendQuota
  import opened Session
  import opened SessionRuns
  import opened SessionGuarantees
  import opened Retransmission
  import PacketIds

  /** The requests waiting on a channel. */
  function Waiting(client: map<Id, Entry>, chan: nat): set<Id> {
    set id | id in client && client[id].chan == Caller(chan)
  }

  /** How many packets an operation sends to a channel. */
  function Sends(out: Out, chan: nat): nat {
    |set id | id in out.answers && out.answers[id].chan == Caller(chan)|
  }

  /** How many more packets a channel may receive: one until it has been passed in and no request waits
      on it any more. */
  function Allowance(w: World, chan: nat): nat {
    if chan in w.used then |Waiting(w.s.client, chan)| else 1
  }

  lemma AllowanceAtMostOne(w: World, chan: nat)
    requires ChannelsOk(w.s.client, w.used)
    ensures Allowance(w, chan) <= 1
    ensures chan !in w.used ==> Waiting(w.s.client, chan) == {}
  {
    var waiting := Waiting(w.s.client, chan);
    if waiting != {} {
      var a :| a in waiting;
      forall b | b in waiting
        ensures b == a
      {
      }
      assert waiting == {a};
    }
  }

  lemma WaitingSplit(client: map<Id, Entry>, id: Id, chan: nat)
    requires id in client
    ensures |Waiting(client, chan)|
         == |Waiting(client - {id}, chan)| + (if client[id].chan == Caller(chan) then 1 else 0)
  {
    if client[id].chan == Caller(chan) {
      assert Waiting(client, chan) == Waiting(client - {id}, chan) + {id};
    } else {
      assert Waiting(client, chan) == Waiting(client - {id}, chan);
    }
  }

  lemma QuietSends(out: Out, chan: nat)
    requires out.answers == map[]
    ensures Sends(out, chan) == 0
  {
    assert (set id | id in out.answers && out.answers[id].chan == Caller(chan)) == {};
  }

  /** Ending a request sends one packet to its channel, and takes exactly that request off it. */
  lemma EndAnswers(s: State, id: Id, p: Incoming, chan: nat)
    ensures var (s', out) := End(s, id, p); Sends(out, chan) + |Waiting(s'.client, chan)| == |Waiting(s.client, chan)|
  {
    var (s', out) := End(s, id, p);
    if id in s.client {
      WaitingSplit(s.client, id, chan);
      assert (set i | i in out.answers && out.answers[i].chan == Caller(chan))
          == if s.client[id].chan == Caller(chan) then {id} else {};
    } else {
      QuietSends(out, chan);
    }
  }

  lemma ReceiveAnswers(s: State, p: Incoming, chan: nat)
    requires s.server.Some?
    ensures var (s', out) := Receive(s, p); Sends(out, chan) + |Waiting(s'.client, chan)| == |Waiting(s.client, chan)|
  {
    hide End, Sends, Written;
    match p {
      case Suback(id) => EndAnswers(s, id, p, chan);
      case Unsuback(id) => EndAnswers(s, id, p, chan);
      case Puback(id) => EndAnswers(s, id, p, chan);
      case Pubcomp(id) => EndAnswers(s, id, p, chan);
      case Pubrec(id, reason) =>
        if id in s.client && reason >= 0x80 {
          EndAnswers(s, id, p, chan);
        } else {
          QuietSends(Receive(s, p).1, chan);
        }
      case PublishIn(m) => QuietSends(Receive(s, p).1, chan);
      case Pubrel(id, reason) => QuietSends(Receive(s, p).1, chan);
    }
  }

  lemma Subset(a: set<Id>, b: set<Id>)
    requires a <= b
    ensures |a| <= |b|
  {
    assert b == a + (b - a);
  }

  lemma LostAnswers(s: State, interval: Option<uint32>, chan: nat)
    ensures |Waiting(ConnectionLost(s, interval).client, chan)| <= |Waiting(s.client, chan)|
  {
    Subset(Waiting(ConnectionLost(s, interval).client, chan), Waiting(s.client, chan));
  }

  /** Closing sends one packet to every channel with a request waiting, and leaves none. */
  lemma CloseAnswers(s: State, chan: nat)
    ensures var (s', out) := Closed(s); Sends(out, chan) <= |Waiting(s.client, chan)| && Waiting(s'.client, chan) == {}
  {
    var s1 := ConnectionLost(s, None);
    LostAnswers(s, None, chan);
    assert (set id | id in Closed(s).1.answers && Closed(s).1.answers[id].chan == Caller(chan))
        == Waiting(s1.client, chan);
  }

  lemma ConAckAnswers(w: World, e: Event, chan: nat)
    requires Invariant(w) && e.ConAckEvent?
    ensures var (s', out) := ConAck(w.s, e.connectExpiry, e.ca, e.writable);
      Sends(out, chan) == 0 && |Waiting(s'.client, chan)| <= |Waiting(w.s.client, chan)|
  {
    hide ConAck, ClientStored;
    ConAckShape(w, e.connectExpiry, e.ca, e.writable);
    var s := Connected(w.s, e.connectExpiry, e.ca);
    var (s', out) := ConAck(w.s, e.connectExpiry, e.ca, e.writable);
    QuietSends(out, chan);
    assert Waiting(s'.client, chan) <= Waiting(s.client, chan);
    assert Waiting(s.client, chan) <= Waiting(w.s.client, chan);
    Subset(Waiting(s'.client, chan), Waiting(w.s.client, chan));
  }

  lemma RegisterAnswers(client: map<Id, Entry>, id: Id, e: Entry, chan: nat)
    requires id !in client
    ensures |Waiting(client[id := e], chan)| == |Waiting(client, chan)| + (if e.chan == Caller(chan) then 1 else 0)
  {
    assert client[id := e] - {id} == client;
    WaitingSplit(client[id := e], id, chan);
  }

  lemma AddAnswers(w: World, e: Event, chan: nat)
    requires Invariant(w) && Enabled(w, e) && (e.PublishEvent? || e.RequestEvent?)
    ensures Allowance(Next(w, e).0, chan) <= Allowance(w, chan)
  {
    hide ClientStored, Storable, Written;
    AllowanceAtMostOne(w, chan);
    var id := PacketIds.NextFree(w.s.last, w.s.client.Keys);
    if id.Some? {
      RegisterAnswers(w.s.client, id.value, Entry(if e.PublishEvent? then PUBLISH else e.kind, Caller(e.chan)), chan);
    }
  }

  /** What an event sends to a channel is taken off what the channel may still receive. */
  lemma StepAnswers(w: World, e: Event, chan: nat)
    requires Invariant(w) && Enabled(w, e)
    ensures var (w', out) := Next(w, e); Sends(out, chan) + Allowance(w', chan) <= Allowance(w, chan)
  {
    hide ClientStored, Sends, Waiting, ConAck, ConnectionLost, AddPublish, AddRequest, Receive, Closed, Storable,
         Written;
    AllowanceAtMostOne(w, chan);
    QuietSends(Quiet, chan);
    match e {
      case ConAckEvent(_, _, _) => ConAckAnswers(w, e, chan);
      case LostEvent(interval) => LostAnswers(w.s, interval, chan);
      case RestartEvent => NobodyWaits(chan);
      case PublishEvent(_, _, _, _) =>
        AddAnswers(w, e, chan);
        QuietSends(Next(w, e).1, chan);
      case RequestEvent(_, _) =>
        AddAnswers(w, e, chan);
        QuietSends(Next(w, e).1, chan);
      case ReceiveEvent(p) => ReceiveAnswers(w.s, p, chan);
      case AckEvent(m) => QuietSends(Next(w, e).1, chan);
      case CloseEvent => CloseAnswers(w.s, chan);
      case _ =>
    }
  }

  lemma NobodyWaits(chan: nat)
    ensures Waiting(map[], chan) == {}
  {}

  ghost function TotalSends(w: World, events: seq<Event>, chan: nat): nat
    requires Legal(w, events)
    decreases |events|
  {
    if events == [] then 0 else Sends(Next(w, events[0]).1, chan) + TotalSends(Next(w, events[0]).0, events[1..], chan)
  }

  lemma {:induction false} SendsWithinAllowance(w: World, events: seq<Event>, chan: nat)
    requires Invariant(w) && Legal(w, events)
    ensures TotalSends(w, events, chan) <= Allowance(w, chan)
    decreases |events|
  {
    hide Invariant, Next, Allowance, Sends;
    if events != [] {
      StepAnswers(w, events[0], chan);
      NextKeeps(w, events[0]);
      SendsWithinAllowance(Next(w, events[0]).0, events[1..], chan);
    }
  }

  /** Over a whole run, reconnections and shutdown included, a response channel receives at most one
      packet, so a send on a channel with room for one never blocks. */
  lemma AtMostOneAnswer(clientStore: Log, serverStore: Log, events: seq<Event>, chan: nat)
    requires ClientStoreOk(clientStore) && ServerStoreOk(serverStore)
    requires Legal(Start(clientStore, serverStore), events)
    ensures TotalSends(Start(clientStore, serverStore), events, chan) <= 1
  {
    hide ClientStored, Next;
    StartOk(clientStore, serverStore);
    SendsWithinAllowance(Start(clientStore, serverStore), events, chan);
  }

  /** A request leaves the session only with an answer on its own channel, unless the session ends or the
      process does. */
  lemma NoSilentEnd(w: World, e: Event, id: Id)
    requires Invariant(w) && Enabled(w, e) && id in w.s.client && !Cleans(w, e) && !e.RestartEvent?
    ensures var (w', out) := Next(w, e);
      || (id in w'.s.client && w'.s.client[id] == w.s.client[id] && id !in out.answers)
      || (id !in w'.s.client && id in out.answers && out.answers[id].chan == w.s.client[id].chan)
  {
    hide ClientStored, ConAck, Storable, Written, Receive;
    match e {
      case ConAckEvent(_, _, _) => ConAckKeepsEntry(w, e, id);
      case ReceiveEvent(p) => ReceiveAnswersEntry(w.s, p, id);
      case _ =>
    }
  }

  lemma ConAckKeepsEntry(w: World, e: Event, id: Id)
    requires Invariant(w) && e.ConAckEvent? && id in w.s.client
    ensures var (s', out) := ConAck(w.s, e.connectExpiry, e.ca, e.writable);
      && out.answers == map[]
      && if Cleans(w, e) then id !in s'.client else id in s'.client && s'.client[id] == w.s.client[id]
  {
    hide ClientStored, ConAck;
    ConAckShape(w, e.connectExpiry, e.ca, e.writable);
  }

  /** A request leaves the session without an answer exactly when the session ends or the process does. */
  lemma SilentExactly(w: World, e: Event, id: Id)
    requires Invariant(w) && Enabled(w, e) && id in w.s.client
    ensures var (w', out) := Next(w, e);
      id !in w'.s.client && id !in out.answers <==> Cleans(w, e) || e.RestartEvent?
  {
    hide ClientStored, ConAck, Storable, Written, Receive, Next;
    if !Cleans(w, e) && !e.RestartEvent? {
      NoSilentEnd(w, e, id);
    } else {
      CleansSilently(w, e, id);
    }
  }

  lemma CleansSilently(w: World, e: Event, id: Id)
    requires Invariant(w) && Enabled(w, e) && id in w.s.client && (Cleans(w, e) || e.RestartEvent?)
    ensures var (w', out) := Next(w, e); id !in w'.s.client && id !in out.answers
  {
    hide ClientStored, ConAck, Storable, Written, Receive;
    if e.ConAckEvent? {
      ConAckKeepsEntry(w, e, id);
    }
  }

  /** Close tells every request, on its own channel and with the shutdown packet, when the session outlives the
      connection, and none otherwise. */
  lemma CloseTellsExactly(s: State)
    ensures Closed(s).1.answers
         == if Survives(s) then map id | id in s.client :: Answer(s.client[id].chan, Shutdown) else map[]
  {}

  /** A request dropped in silence: it is registered, and a DISCONNECT then sets the expiry interval to 0. */
  lemma DroppedInSilence(w: World, kind: byte, chan: nat, id: Id)
    requires Invariant(w) && Enabled(w, RequestEvent(kind, chan))
    requires PacketIds.NextFree(w.s.last, w.s.client.Keys) == Some(id)
    ensures WellFormed(w.s.clientStore)
    ensures var w1 := Next(w, RequestEvent(kind, chan)).0;
      && WellFormed(w1.s.clientStore) && id in w1.s.client && w1.s.client[id].chan == Caller(chan)
      && var (w2, out) := Next(w1, LostEvent(Some(0)));
         id !in w2.s.client && out.answers == map[]
  {
    hide ClientStored, Storable, Written, PacketIds.NextFree;
  }

  /** An incoming packet answers a request exactly when it is the final acknowledgement of its
      identifier, and then with the packet itself. */
  lemma ReceiveAnswersEntry(s: State, p: Incoming, id: Id)
    requires s.server.Some? && id in s.client
    ensures var (s', out) := Receive(s, p);
      if Ends(ReceiveEvent(p), id) then
        id !in s'.client && out.answers == map[id := Answer(s.client[id].chan, Reply(p))]
      else id in s'.client && s'.client[id] == s.client[id] && id !in out.answers
  {
    hide Written;
  }

  /** The server answers each identifier with a packet of the exchange it was used for. */
  predicate Answering(s: State, p: Incoming) {
    p.Suback? || p.Unsuback? || p.Puback? || p.Pubrec? || p.Pubcomp? ==>
      p.id in s.client ==> (IsPublish(s.client[p.id]) <==> p.Puback? || p.Pubrec? || p.Pubcomp?)
  }

  /** A publish ends only with PUBACK, PUBCOMP, PUBREC with a failure code, or the shutdown packet. */
  lemma PublishAnswers(w: World, e: Event, id: Id)
    requires Invariant(w) && Enabled(w, e) && (e.ReceiveEvent? ==> Answering(w.s, e.p))
    requires id in Next(w, e).1.answers && id in w.s.client && IsPublish(w.s.client[id])
    ensures match Next(w, e).1.answers[id].response
            case Shutdown => e.CloseEvent?
            case Reply(p) => p == Puback(id) || p == Pubcomp(id) || (p.Pubrec? && p.id == id && p.reason >= 0x80)
  {
    hide ClientStored, ConAck, Storable, Written, Receive;
    match e {
      case ConAckEvent(_, _, _) => ConAckSilent(w, e);
      case ReceiveEvent(p) => ReceiveAnswersEntry(w.s, p, id);
      case _ =>
    }
  }

  lemma ConAckSilent(w: World, e: Event)
    requires Invariant(w) && e.ConAckEvent?
    ensures ConAck(w.s, e.connectExpiry, e.ca, e.writable).1.answers == map[]
  {
    hide ClientStored, Resend;
  }

  /** Whatever request is answered: with the shutdown packet exactly by Close, and with a packet exactly when that
      packet was received. */
  lemma ResponseExactly(w: World, e: Event, id: Id)
    requires Invariant(w) && Enabled(w, e) && id in Next(w, e).1.answers
    ensures var r := Next(w, e).1.answers[id].response;
      && (r.Shutdown? <==> e.CloseEvent?)
      && (r.Reply? <==> e.ReceiveEvent? && e.p == r.packet)
  {
    hide ClientStored, ConAck, Storable, Written, Receive;
    match e {
      case ConAckEvent(_, _, _) => ConAckSilent(w, e);
      case ReceiveEvent(p) => RepliesThemselves(w.s, p, id);
      case _ =>
    }
  }

  lemma RepliesThemselves(s: State, p: Incoming, id: Id)
    requires s.server.Some? && id in Receive(s, p).1.answers
    ensures Receive(s, p).1.answers[id].response == Reply(p)
  {
    hide Written;
  }

  /** An event answers on the channel. */
  ghost predicate Tells(out: Out, chan: nat, r: Response) {
    exists id :: id in out.answers && out.answers[id] == Answer(Caller(chan), r)
  }

  ghost predicate Told(w: World, events: seq<Event>, chan: nat, r: Response)
    requires Legal(w, events)
    decreases |events|
  {
    events != [] && (Tells(Next(w, events[0]).1, chan, r) || Told(Next(w, events[0]).0, events[1..], chan, r))
  }

  /** Over a whole run a caller is told only what happened: a packet that was received, or the shutdown. */
  lemma {:induction false} ToldWhatHappened(w: World, events: seq<Event>, chan: nat, r: Response)
    requires Invariant(w) && Legal(w, events) && Told(w, events, chan, r)
    ensures if r.Shutdown? then CloseEvent in events else ReceiveEvent(r.packet) in events
    decreases |events|
  {
    hide Invariant, Next;
    if Tells(Next(w, events[0]).1, chan, r) {
      var id :| id in Next(w, events[0]).1.answers && Next(w, events[0]).1.answers[id] == Answer(Caller(chan), r);
      ResponseExactly(w, events[0], id);
    } else {
      NextKeeps(w, events[0]);
      ToldWhatHappened(Next(w, events[0]).0, events[1..], chan, r);
    }
  }

  /** A SUBSCRIBE or UNSUBSCRIBE is registered under the identifier that is returned for its packet, and the
      acknowledgement of that identifier answers its channel and frees it. */
  lemma RequestAnswered(s: State, kind: byte, chan: Channel, p: Incoming)
    requires s.server.Some? && kind in {SUBSCRIBE, UNSUBSCRIBE} && AddRequest(s, kind, chan).1.Added?
    requires var id := AddRequest(s, kind, chan).1.id; p == Suback(id) || p == Unsuback(id)
    ensures var (s1, added) := AddRequest(s, kind, chan);
      && added.id != 0 && added.id !in s.client && s1.client.Keys == s.client.Keys + {added.id}
      && s1.server.Some? && s1.clientStore == s.clientStore && s1.quota == s.quota
      && Receive(s1, p)
         == (s.(last := added.id), Quiet.(answers := map[added.id := Answer(chan, Reply(p))]))
  {
    hide Written;
    var (s1, added) := AddRequest(s, kind, chan);
    assert s1.client - {added.id} == s.client;
  }
}
