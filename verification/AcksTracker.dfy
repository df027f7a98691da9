/** The tracker of paho/acks_tracker.go that sends acknowledgements in the order messages were received
    (section 4.6 of MQTT 5.0), whatever order the application acknowledges them in. */
module AcksTracker {
  import opened Basics
  import opened Packets

  datatype Entry = Entry(pb: Publish, acknowledged: bool)

  /** The position of the first entry with an identifier; the length when there is none. */
  function Find(order: seq<Entry>, id: uint16): (k: nat)
    ensures k <= |order| && (k < |order| ==> order[k].pb.packetID == id)
    ensures forall i | 0 <= i < k :: order[i].pb.packetID != id
  {
    if order == [] || order[0].pb.packetID == id then 0 else 1 + Find(order[1..], id)
  }

  function Added(order: seq<Entry>, pb: Publish): seq<Entry> {
    if Find(order, pb.packetID) < |order| then order else order + [Entry(pb, false)]
  }

  function Marked(order: seq<Entry>, id: uint16): seq<Entry> {
    var k := Find(order, id);
    if k < |order| then order[k := order[k].(acknowledged := true)] else order
  }

  /** How many entries a flush takes: those before the first unacknowledged one. */
  function Ready(order: seq<Entry>): (n: nat)
    ensures n <= |order| && (n < |order| ==> !order[n].acknowledged)
    ensures forall i | 0 <= i < n :: order[i].acknowledged
  {
    if order == [] || !order[0].acknowledged then 0 else 1 + Ready(order[1..])
  }

  function Messages(order: seq<Entry>): (ms: seq<Publish>)
    ensures |ms| == |order| && forall i | 0 <= i < |ms| :: ms[i] == order[i].pb
  {
    seq(|order|, i requires 0 <= i < |order| => order[i].pb)
  }

  lemma FindIs(order: seq<Entry>, id: uint16, k: nat)
    requires k <= |order| && (k < |order| ==> order[k].pb.packetID == id)
    requires forall i | 0 <= i < k :: order[i].pb.packetID != id
    ensures Find(order, id) == k
  {}

  lemma ReadyIs(order: seq<Entry>, n: nat)
    requires n <= |order| && (n < |order| ==> !order[n].acknowledged)
    requires forall i | 0 <= i < n :: order[i].acknowledged
    ensures Ready(order) == n
  {}

  // ---- The object ----

  class Tracker {
    var order: seq<Entry>

    constructor ()
      ensures order == []
    {
      order := [];
    }

    method Add(pb: Publish)
      modifies this
      ensures order == Added(old(order), pb)
    {
      var i := 0;
      while i < |order|
        invariant 0 <= i <= |order|
        invariant forall k | 0 <= k < i :: order[k].pb.packetID != pb.packetID
      {
        if order[i].pb.packetID == pb.packetID {
          FindIs(order, pb.packetID, i);
          return;
        }
        i := i + 1;
      }
      FindIs(order, pb.packetID, i);
      order := order + [Entry(pb, false)];
    }

    /** Reports a packet that is not being tracked. */
    method MarkAsAcked(pb: Publish) returns (found: bool)
      modifies this
      ensures order == Marked(old(order), pb.packetID)
      ensures found <==> exists k :: 0 <= k < |old(order)| && old(order)[k].pb.packetID == pb.packetID
    {
      var k := 0;
      while k < |order|
        invariant 0 <= k <= |order| && order == old(order)
        invariant forall i | 0 <= i < k :: order[i].pb.packetID != pb.packetID
      {
        if order[k].pb.packetID == pb.packetID {
          FindIs(order, pb.packetID, k);
          order := order[k := order[k].(acknowledged := true)];
          return true;
        }
        k := k + 1;
      }
      FindIs(order, pb.packetID, k);
      return false;
    }

    /** The messages handed to the callback that sends their acknowledgements. */
    method Flush() returns (buf: seq<Publish>)
      modifies this
      ensures buf == Messages(old(order)[..Ready(old(order))])
      ensures order == old(order)[Ready(old(order))..]
    {
      buf := [];
      var i := 0;
      while i < |order| && order[i].acknowledged
        invariant 0 <= i <= |order| && order == old(order)
        invariant forall k | 0 <= k < i :: order[k].acknowledged
        invariant buf == Messages(order[..i])
      {
        buf := buf + [order[i].pb];
        i := i + 1;
      }
      ReadyIs(order, i);
      if |buf| == 0 {
        return;
      }
      order := order[|buf|..];
    }

    method Reset()
      modifies this
      ensures order == []
    {
      order := [];
    }
  }

  // ---- Every run between resets ----

  datatype Event = Received(pb: Publish) | Acked(id: uint16) | Flushed | Reset

  /** The tracker with what happened since the last reset: the messages it accepted, the positions
      among them the application has acknowledged, and the acknowledgements sent. */
  datatype World = World(order: seq<Entry>, added: seq<Publish>, marked: set<nat>, sent: seq<Publish>)

  const Start := World([], [], {}, [])

  function Next(w: World, e: Event): World {
    match e
    case Received(pb) =>
      var order := Added(w.order, pb);
      w.(order := order, added := if |order| > |w.order| then w.added + [pb] else w.added)
    case Acked(id) =>
      var k := Find(w.order, id);
      w.(order := Marked(w.order, id), marked := if k < |w.order| then w.marked + {|w.sent| + k} else w.marked)
    case Flushed =>
      var n := Ready(w.order);
      w.(order := w.order[n..], sent := w.sent + Messages(w.order[..n]))
    case Reset => Start
  }

  function Run(events: seq<Event>): World {
    if events == [] then Start else Next(Run(events[..|events| - 1]), events[|events| - 1])
  }

  ghost predicate Invariant(w: World) {
    && w.sent + Messages(w.order) == w.added
    && (forall i | 0 <= i < |w.sent| :: i in w.marked)
    && (forall i | 0 <= i < |w.order| :: w.order[i].acknowledged <==> |w.sent| + i in w.marked)
    && (forall i | i in w.marked :: i < |w.added|)
    && (forall i, j | 0 <= i < j < |w.order| :: w.order[i].pb.packetID != w.order[j].pb.packetID)
  }

  lemma ReceivedKeeps(w: World, pb: Publish)
    requires Invariant(w)
    ensures Invariant(Next(w, Received(pb)))
  {
    var v := Next(w, Received(pb));
    if |v.order| > |w.order| {
      assert Messages(v.order) == Messages(w.order) + [pb];
      assert |w.sent| + |w.order| == |w.added|;
      assert |w.added| !in w.marked;
    }
  }

  lemma AckedKeeps(w: World, id: uint16)
    requires Invariant(w)
    ensures Invariant(Next(w, Acked(id)))
  {
    var v := Next(w, Acked(id));
    assert Messages(v.order) == Messages(w.order);
    assert |w.sent| + |w.order| == |w.added|;
  }

  lemma SplitMessages(sent: seq<Publish>, order: seq<Entry>, n: nat)
    requires n <= |order|
    ensures (sent + Messages(order[..n])) + Messages(order[n..]) == sent + Messages(order)
  {}

  lemma FlushedKeeps(w: World)
    requires Invariant(w)
    ensures Invariant(Next(w, Flushed))
  {
    hide Messages, Ready;
    var v, n := Next(w, Flushed), Ready(w.order);
    SplitMessages(w.sent, w.order, n);
    SentMarked(w.order, n, w.marked, |w.sent|);
    PendingMarked(w.order, n, w.marked, |w.sent|);
    PendingDistinct(w.order, n);
  }

  /** The entries a flush takes are marked. */
  lemma SentMarked(order: seq<Entry>, n: nat, marked: set<nat>, sent: nat)
    requires n <= |order| && (forall i | 0 <= i < sent :: i in marked)
    requires forall i | 0 <= i < |order| :: order[i].acknowledged <==> sent + i in marked
    requires forall i | 0 <= i < n :: order[i].acknowledged
    ensures forall i | 0 <= i < sent + n :: i in marked
  {
    forall i | 0 <= i < sent + n
      ensures i in marked
    {
      if i >= sent {
        assert order[i - sent].acknowledged;
      }
    }
  }

  /** The entries it leaves keep their marks. */
  lemma PendingMarked(order: seq<Entry>, n: nat, marked: set<nat>, sent: nat)
    requires n <= |order|
    requires forall i | 0 <= i < |order| :: order[i].acknowledged <==> sent + i in marked
    ensures forall i | 0 <= i < |order[n..]| :: order[n..][i].acknowledged <==> sent + n + i in marked
  {
    forall i | 0 <= i < |order[n..]|
      ensures order[n..][i].acknowledged <==> sent + n + i in marked
    {
      assert order[n..][i] == order[n + i];
      assert order[n + i].acknowledged <==> sent + (n + i) in marked;
    }
  }

  lemma PendingDistinct(order: seq<Entry>, n: nat)
    requires n <= |order| && forall i, j | 0 <= i < j < |order| :: order[i].pb.packetID != order[j].pb.packetID
    ensures var rest := order[n..];
      forall i, j | 0 <= i < j < |rest| :: rest[i].pb.packetID != rest[j].pb.packetID
  {}

  lemma NextKeeps(w: World, e: Event)
    requires Invariant(w)
    ensures Invariant(Next(w, e))
  {
    match e {
      case Received(pb) => ReceivedKeeps(w, pb);
      case Acked(id) => AckedKeeps(w, id);
      case Flushed => FlushedKeeps(w);
      case Reset =>
    }
  }

  lemma {:induction false} RunKeeps(events: seq<Event>)
    ensures Invariant(Run(events))
  {
    if events != [] {
      RunKeeps(events[..|events| - 1]);
      NextKeeps(Run(events[..|events| - 1]), events[|events| - 1]);
    }
  }

  /** After every run the acknowledgements sent followed by the messages still tracked are the accepted
      messages in the order they were received. Nothing is sent twice or out of order, everything sent
      was acknowledged by the application, and tracked messages have different identifiers. */
  lemma SentInOrder(events: seq<Event>)
    ensures var w := Run(events);
      && w.sent + Messages(w.order) == w.added
      && w.sent == w.added[..|w.sent|]
      && (forall i | 0 <= i < |w.sent| :: i in w.marked)
      && (forall i, j | 0 <= i < j < |w.order| :: w.order[i].pb.packetID != w.order[j].pb.packetID)
  {
    RunKeeps(events);
    var w := Run(events);
    assert w.added[..|w.sent|] == w.sent;
  }

  /** A flush sends as much as the order allows: a message has been acknowledged to the server exactly
      when the application has acknowledged it and everything accepted before it. */
  lemma FlushSendsAll(events: seq<Event>, i: nat)
    requires i < |Run(events + [Flushed]).added|
    ensures var w := Run(events + [Flushed]);
      && (w.order == [] || !w.order[0].acknowledged)
      && (i < |w.sent| <==> forall j | 0 <= j <= i :: j in w.marked)
  {
    assert (events + [Flushed])[..|events|] == events;
    var v, w := Run(events), Run(events + [Flushed]);
    RunKeeps(events);
    RunKeeps(events + [Flushed]);
    var n := Ready(v.order);
    assert |w.sent| + |w.order| == |w.added|;
    if n < |v.order| {
      assert w.order[0] == v.order[n];
      assert |w.sent| + 0 !in w.marked;
    }
  }

  /** A message is accepted exactly when no tracked message has its identifier. */
  lemma AcceptsExactly(w: World, pb: Publish)
    ensures Next(w, Received(pb)).added
         == if forall k | 0 <= k < |w.order| :: w.order[k].pb.packetID != pb.packetID then w.added + [pb] else w.added
  {
    var k := Find(w.order, pb.packetID);
    if k < |w.order| {
      assert w.order[k].pb.packetID == pb.packetID;
    }
  }

  /** Marking sets the mark of every tracked message with the identifier, and changes nothing else. */
  lemma MarksExactly(w: World, id: uint16, k: nat)
    requires Invariant(w) && k < |w.order|
    ensures var order := Next(w, Acked(id)).order;
      && |order| == |w.order|
      && order[k] == w.order[k].(acknowledged := w.order[k].acknowledged || w.order[k].pb.packetID == id)
  {
    hide Messages;
    var i := Find(w.order, id);
    if i < |w.order| && i != k {
      assert w.order[i].pb.packetID != w.order[k].pb.packetID;
    }
  }
}
