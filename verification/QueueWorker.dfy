/** The publish queue and the worker that drains it: PublishViaQueue and managePublishQueue of
    autopaho/auto.go, with the outcome of PublishWithOptions and publishQoS12 of paho/client.go. */
module QueueWorker {
  import opened Basics
  import opened Wire
  import opened Properties
  import opened Packets
  import opened Stream
  import opened Messages
  import opened PublishQueue
  import R = SessionRuns

  datatype ServerProps = ServerProps(maximumQoS: byte, topicAliasMaximum: uint16, retainAvailable: bool)

  /** What the worker cannot foresee about one call of PublishWithOptions: the limits of the connected
      server, what the PublishHook makes of the message, whether the session takes the packet, and
      whether the connection does. */
  datatype Env = Env(props: ServerProps, hook: Message -> Message, addFails: bool, writeFails: bool)

  /** ErrInvalidArguments before the hook is called. */
  predicate Refused(props: ServerProps, m: Message) {
    || m.qos > props.maximumQoS
    || (m.properties.topicAlias.Some? && props.topicAliasMaximum > 0
        && m.properties.topicAlias.value > props.topicAliasMaximum)
    || (!props.retainAvailable && m.retain)
    || (m.properties.topicAlias.None? && m.topic == [])
  }

  /** How PublishWithOptions ends for a message sent with PublishMethod_AsyncSend: an error to retry,
      an error not to retry, the packet in the session (written to the connection or not) or, with QoS 0,
      on the connection; or a panic of the session's memory store, which cannot encode the packet. */
  datatype Outcome = Retry | Invalid | InSession(pb: Publish, written: bool) | OnConnection(pb: Publish) | Panics

  function PublishOutcome(m: Message, env: Env): Outcome {
    if Refused(env.props, m) then Invalid
    else
      var pb := ToPacket(env.hook(m));
      if pb.qos == 0 then
        if env.writeFails || Encode(PublishPacket(pb)).Err? then Retry else OnConnection(pb)
      else if pb.qos > 2 then Invalid
      else if env.addFails then Retry
      else if Encode(PublishPacket(pb)).Err? then Panics
      else InSession(pb, !env.writeFails)
  }

  /** PublishWithOptions returned an error. */
  predicate Errs(o: Outcome) {
    o.Retry? || o.Invalid? || (o.InSession? && !o.written)
  }

  /** The message the worker publishes for a packet it read from the queue. */
  function Requeued(pub: Publish): Message {
    FromPacket(pub).(packetID := 0, duplicate := false)
  }

  /** What became of a message taken off the queue. */
  datatype Fate = ToSession(pb: Publish) | ToConnection(pb: Publish) | Unsendable | Undecodable

  function FateOf(o: Outcome): Option<Fate> {
    match o
    case Retry | Panics => None
    case Invalid => Some(Unsendable)
    case InSession(pb, _) => Some(ToSession(pb))
    case OnConnection(pb) => Some(ToConnection(pb))
  }

  /** What the worker does with an entry; None leaves it in the queue. */
  function Handle(entry: seq<byte>, env: Env): Option<Fate> {
    var o := OutcomeOf(entry, env);
    if o.Some? then FateOf(o.value) else Some(Undecodable)
  }

  /** How publishing the entry ended, if it could be decoded. */
  function OutcomeOf(entry: seq<byte>, env: Env): Option<Outcome> {
    match ReadPacket(entry)
    case Done(PublishPacket(pub), _) => Some(PublishOutcome(Requeued(pub), env))
    case _ => None
  }

  /** PublishViaQueue: a message that cannot be encoded is refused. */
  method PublishViaQueue(q: Queue, m: Message) returns (ok: bool)
    requires q.Valid()
    modifies q
    ensures q.Valid() && ok == Encode(PublishPacket(ToPacket(m))).Ok?
    ensures q.messages == old(q.messages) + if ok then [Written(PublishPacket(ToPacket(m)))] else []
  {
    hide Encode;
    match Encode(PublishPacket(ToPacket(m))) {
      case Err(_) =>
        return false;
      case Ok(b) =>
        q.Enqueue(b);
        return true;
    }
  }

  /** What the worker sees when it looks up after an error. */
  datatype Signal = Nothing | ConnectionDown | ContextDone

  /** One turn of the inner loop, and what it looks up to after an error. */
  datatype Attempt = Attempt(env: Env, after: Signal)

  datatype Turn = Empty | Again | Lost | Stopped | Crashed

  function TurnAfter(signal: Signal): Turn {
    match signal
    case Nothing => Again
    case ConnectionDown => Lost
    case ContextDone => Stopped
  }

  /** Where the worker goes after an entry. */
  function TurnOf(entry: seq<byte>, a: Attempt): (turn: Turn)
    ensures !turn.Empty?
  {
    var o := OutcomeOf(entry, a.env);
    if o == Some(Panics) then Crashed else if o.Some? && Errs(o.value) then TurnAfter(a.after) else Again
  }

  /** One turn of the worker's inner loop with nobody else at the queue. */
  method DrainOne(q: Queue, a: Attempt) returns (turn: Turn, fate: Option<Fate>)
    requires q.Valid()
    modifies q
    ensures q.Valid() && turn == if old(q.messages) == [] then Empty else TurnOf(old(q.messages)[0], a)
    ensures fate == if old(q.messages) == [] then None else Handle(old(q.messages)[0], a.env)
    ensures q.messages == if fate.Some? then old(q.messages)[1..] else old(q.messages)
  {
    hide ReadPacket, Encode, Refused;
    var entry := q.Peek();
    if entry.None? {
      return Empty, None;
    }
    match ReadPacket(entry.value) {
      case Done(PublishPacket(pub), _) =>
        var outcome := PublishOutcome(Requeued(pub), a.env);
        if outcome.Panics? {
          return Crashed, None;
        }
        if !outcome.Retry? {
          var _ := q.Remove();
        }
        return if Errs(outcome) then TurnAfter(a.after) else Again, FateOf(outcome);
      case _ =>
        var _ := q.Remove();
        return Again, Some(Undecodable);
    }
  }

  /** What a stretch of the worker's loops leaves in the queue, the fates it met, and where it goes next. */
  datatype Stretch = Stretch(left: seq<seq<byte>>, fates: seq<Fate>, turn: Turn)

  function Fates(f: Option<Fate>): seq<Fate> {
    if f.Some? then [f.value] else []
  }

  /** The inner loop: one attempt after the other at the oldest message, until the queue is empty, an error was
      met with the connection down or the context done, or the attempts are used up. */
  ghost function Drained(queue: seq<seq<byte>>, attempts: seq<Attempt>): Stretch
    decreases |attempts|
  {
    if attempts == [] then Stretch(queue, [], Again)
    else if queue == [] then Stretch(queue, [], Empty)
    else
      var f, turn := Handle(queue[0], attempts[0].env), TurnOf(queue[0], attempts[0]);
      var left := if f.Some? then queue[1..] else queue;
      if !turn.Again? then Stretch(left, Fates(f), turn)
      else
        var rest := Drained(left, attempts[1..]);
        rest.(fates := Fates(f) + rest.fates)
  }

  /** Every time the queue has something on a connection; when the rounds are over it has gone down. */
  ghost function Served(queue: seq<seq<byte>>, rounds: seq<seq<Attempt>>): Stretch
    decreases |rounds|
  {
    if rounds == [] then Stretch(queue, [], Lost)
    else
      var first := Drained(queue, rounds[0]);
      if !first.turn.Empty? && !first.turn.Again? then first
      else
        var rest := Served(first.left, rounds[1..]);
        rest.(fates := first.fates + rest.fates)
  }

  /** One connection after the other, until the context is done or the worker crashes. */
  ghost function Managed(queue: seq<seq<byte>>, connections: seq<seq<seq<Attempt>>>): Stretch
    decreases |connections|
  {
    if connections == [] then Stretch(queue, [], Lost)
    else
      var first := Served(queue, connections[0]);
      if !first.turn.Lost? then first
      else
        var rest := Managed(first.left, connections[1..]);
        rest.(fates := first.fates + rest.fates)
  }

  /** A stretch that follows on some fates. */
  ghost function After(fates: seq<Fate>, rest: Stretch): Stretch {
    rest.(fates := fates + rest.fates)
  }

  lemma AfterNone(rest: Stretch)
    ensures After([], rest) == rest
  {
    assert [] + rest.fates == rest.fates;
  }

  lemma AfterNothing(fates: seq<Fate>, left: seq<seq<byte>>, turn: Turn)
    ensures After(fates, Stretch(left, [], turn)) == Stretch(left, fates, turn)
  {
    assert fates + [] == fates;
  }

  lemma AfterMore(fates: seq<Fate>, more: seq<Fate>, rest: Stretch)
    ensures After(fates, rest.(fates := more + rest.fates)) == After(fates + more, rest)
  {
    Associate(fates, more, rest.fates);
  }

  lemma DrainedStep(fates: seq<Fate>, queue: seq<seq<byte>>, attempts: seq<Attempt>)
    requires attempts != [] && queue != []
    ensures var f, turn := Handle(queue[0], attempts[0].env), TurnOf(queue[0], attempts[0]);
      var left := if f.Some? then queue[1..] else queue;
      After(fates, Drained(queue, attempts))
      == if turn.Again? then After(fates + Fates(f), Drained(left, attempts[1..]))
         else Stretch(left, fates + Fates(f), turn)
  {
    hide Handle, TurnOf;
    var f := Handle(queue[0], attempts[0].env);
    AfterMore(fates, Fates(f), Drained(if f.Some? then queue[1..] else queue, attempts[1..]));
  }

  lemma DrainedEnds(fates: seq<Fate>, queue: seq<seq<byte>>, attempts: seq<Attempt>)
    requires attempts == [] || queue == []
    ensures After(fates, Drained(queue, attempts)) == Stretch(queue, fates, if attempts == [] then Again else Empty)
  {
    AfterNothing(fates, queue, if attempts == [] then Again else Empty);
  }

  method Drain(q: Queue, attempts: seq<Attempt>) returns (turn: Turn, fates: seq<Fate>)
    requires q.Valid()
    modifies q
    ensures q.Valid() && Drained(old(q.messages), attempts) == Stretch(q.messages, fates, turn)
  {
    hide Handle, TurnOf, Drained, After, Fates;
    fates := [];
    AfterNone(Drained(q.messages, attempts));
    var i := 0;
    while i < |attempts|
      invariant q.Valid() && 0 <= i <= |attempts|
      invariant After(fates, Drained(q.messages, attempts[i..])) == Drained(old(q.messages), attempts)
    {
      assert attempts[i..][1..] == attempts[i + 1..];
      if q.messages == [] {
        DrainedEnds(fates, q.messages, attempts[i..]);
      } else {
        DrainedStep(fates, q.messages, attempts[i..]);
      }
      var fate;
      turn, fate := DrainOne(q, attempts[i]);
      if turn.Empty? {
        return;
      }
      fates := fates + Fates(fate);
      if !turn.Again? {
        return;
      }
      i := i + 1;
    }
    DrainedEnds(fates, q.messages, attempts[i..]);
    turn := Again;
  }

  lemma ServedStep(fates: seq<Fate>, queue: seq<seq<byte>>, rounds: seq<seq<Attempt>>)
    ensures rounds == [] ==> After(fates, Served(queue, rounds)) == Stretch(queue, fates, Lost)
    ensures rounds != [] ==>
      var first := Drained(queue, rounds[0]);
      After(fates, Served(queue, rounds))
      == if first.turn.Empty? || first.turn.Again? then After(fates + first.fates, Served(first.left, rounds[1..]))
         else After(fates, first)
  {
    hide Drained;
    if rounds == [] {
      AfterNothing(fates, queue, Lost);
    } else {
      var first := Drained(queue, rounds[0]);
      AfterMore(fates, first.fates, Served(first.left, rounds[1..]));
    }
  }

  /** The loop over the wake-ups of one connection. */
  method Serve(q: Queue, rounds: seq<seq<Attempt>>) returns (turn: Turn, fates: seq<Fate>)
    requires q.Valid()
    modifies q
    ensures q.Valid() && Served(old(q.messages), rounds) == Stretch(q.messages, fates, turn)
  {
    hide Drained, Served;
    fates := [];
    AfterNone(Served(q.messages, rounds));
    var i := 0;
    while i < |rounds|
      invariant q.Valid() && 0 <= i <= |rounds|
      invariant After(fates, Served(q.messages, rounds[i..])) == Served(old(q.messages), rounds)
    {
      ServedStep(fates, q.messages, rounds[i..]);
      assert rounds[i..][1..] == rounds[i + 1..];
      var more;
      turn, more := Drain(q, rounds[i]);
      fates := fates + more;
      if !turn.Empty? && !turn.Again? {
        return;
      }
      i := i + 1;
    }
    ServedStep(fates, q.messages, rounds[i..]);
    turn := Lost;
  }

  lemma ManagedStep(fates: seq<Fate>, queue: seq<seq<byte>>, connections: seq<seq<seq<Attempt>>>)
    ensures connections == [] ==> After(fates, Managed(queue, connections)) == Stretch(queue, fates, Lost)
    ensures connections != [] ==>
      var first := Served(queue, connections[0]);
      After(fates, Managed(queue, connections))
      == if first.turn.Lost? then After(fates + first.fates, Managed(first.left, connections[1..]))
         else After(fates, first)
  {
    hide Served;
    if connections == [] {
      AfterNothing(fates, queue, Lost);
    } else {
      var first := Served(queue, connections[0]);
      AfterMore(fates, first.fates, Managed(first.left, connections[1..]));
    }
  }

  /** managePublishQueue, over the connections there will be. */
  method ManagePublishQueue(q: Queue, connections: seq<seq<seq<Attempt>>>) returns (turn: Turn, fates: seq<Fate>)
    requires q.Valid()
    modifies q
    ensures q.Valid() && Managed(old(q.messages), connections) == Stretch(q.messages, fates, turn)
  {
    hide Served, Managed;
    fates := [];
    AfterNone(Managed(q.messages, connections));
    var i := 0;
    while i < |connections|
      invariant q.Valid() && 0 <= i <= |connections|
      invariant After(fates, Managed(q.messages, connections[i..])) == Managed(old(q.messages), connections)
    {
      ManagedStep(fates, q.messages, connections[i..]);
      assert connections[i..][1..] == connections[i + 1..];
      var more;
      turn, more := Serve(q, connections[i]);
      fates := fates + more;
      if !turn.Lost? {
        return;
      }
      i := i + 1;
    }
    ManagedStep(fates, q.messages, connections[i..]);
    turn := Lost;
  }

  /** Some attempt at the entry ended like this. */
  ghost predicate Met(entry: seq<byte>, f: Fate) {
    exists env :: Handle(entry, env) == Some(f)
  }

  /** Messages are taken off the front only, one for each fate, and each fate is one of its message. */
  ghost predicate InOrder(queue: seq<seq<byte>>, s: Stretch) {
    && |s.fates| <= |queue| && s.left == queue[|s.fates|..]
    && forall i | 0 <= i < |s.fates| :: Met(queue[i], s.fates[i])
  }

  lemma InOrderAppend(queue: seq<seq<byte>>, first: Stretch, rest: Stretch)
    requires InOrder(queue, first) && InOrder(first.left, rest)
    ensures InOrder(queue, After(first.fates, rest))
  {
    hide Met;
    var n := |first.fates|;
    forall i | n <= i < n + |rest.fates|
      ensures Met(queue[i], rest.fates[i - n])
    {
      assert first.left[i - n] == queue[i];
    }
  }

  lemma {:induction false} DrainedInOrder(queue: seq<seq<byte>>, attempts: seq<Attempt>)
    ensures InOrder(queue, Drained(queue, attempts))
    decreases |attempts|
  {
    hide Handle, TurnOf, Met;
    if attempts != [] && queue != [] {
      var f := Handle(queue[0], attempts[0].env);
      var left := if f.Some? then queue[1..] else queue;
      if f.Some? {
        MetBy(queue[0], attempts[0].env, f.value);
      }
      DrainedInOrder(left, attempts[1..]);
      InOrderAppend(queue, Stretch(left, Fates(f), Again), Drained(left, attempts[1..]));
    }
  }

  lemma MetBy(entry: seq<byte>, env: Env, f: Fate)
    requires Handle(entry, env) == Some(f)
    ensures Met(entry, f)
  {}

  lemma {:induction false} ServedInOrder(queue: seq<seq<byte>>, rounds: seq<seq<Attempt>>)
    ensures InOrder(queue, Served(queue, rounds))
    decreases |rounds|
  {
    hide Drained, InOrder;
    if rounds == [] {
      NothingInOrder(queue);
    } else {
      var first := Drained(queue, rounds[0]);
      DrainedInOrder(queue, rounds[0]);
      ServedInOrder(first.left, rounds[1..]);
      InOrderAppend(queue, first, Served(first.left, rounds[1..]));
    }
  }

  lemma NothingInOrder(queue: seq<seq<byte>>)
    ensures InOrder(queue, Stretch(queue, [], Lost))
  {}

  /** Over all its connections the worker takes messages off the front of the queue, each once and in order,
      and gives each a fate that some attempt at it had. */
  lemma {:induction false} ManagedInOrder(queue: seq<seq<byte>>, connections: seq<seq<seq<Attempt>>>)
    ensures InOrder(queue, Managed(queue, connections))
    decreases |connections|
  {
    hide Served, InOrder;
    if connections == [] {
      NothingInOrder(queue);
    } else {
      var first := Served(queue, connections[0]);
      ServedInOrder(queue, connections[0]);
      ManagedInOrder(first.left, connections[1..]);
      InOrderAppend(queue, first, Managed(first.left, connections[1..]));
    }
  }

  // ---- Every run ----

  /** The worker between two turns, holding an entry it peeked at, about to remove or leave it, or gone with
      the process. */
  datatype Phase = Idle | Holding(entry: seq<byte>) | Handled(remove: bool) | Dead

  datatype Event = Enqueue(m: Message) | Peek | Publish(env: Env) | Finish

  /** The queue and the worker, with the messages that were accepted, what became of them, and the attempts
      that did so. */
  datatype World = World(
    queue: seq<seq<byte>>, phase: Phase, accepted: seq<Message>, fates: seq<Fate>, tries: seq<Env>)

  const Start := World([], Idle, [], [], [])

  function Bytes(m: Message): seq<byte> {
    Written(PublishPacket(ToPacket(m)))
  }

  /** Messages arrive at any time, also between two steps of the worker. A step that the worker is not
      about to take changes nothing. */
  ghost function Next(w: World, e: Event): World {
    if w.phase.Dead? then w
    else
      match e
      case Enqueue(m) =>
        if Encode(PublishPacket(ToPacket(m))).Ok? then w.(queue := w.queue + [Bytes(m)], accepted := w.accepted + [m])
        else w
      case Peek => if w.phase.Idle? && w.queue != [] then w.(phase := Holding(w.queue[0])) else w
      case Publish(env) =>
        if !w.phase.Holding? then w
        else if OutcomeOf(w.phase.entry, env) == Some(Panics) then w.(phase := Dead)
        else
          (match Handle(w.phase.entry, env)
           case None => w.(phase := Handled(false))
           case Some(fate) => w.(phase := Handled(true), fates := w.fates + [fate], tries := w.tries + [env]))
      case Finish =>
        if !w.phase.Handled? then w
        else w.(phase := Idle, queue := if w.phase.remove && w.queue != [] then w.queue[1..] else w.queue)
  }

  ghost function Run(events: seq<Event>): World {
    if events == [] then Start else Next(Run(events[..|events| - 1]), events[|events| - 1])
  }

  /** The messages whose entries have left the queue. */
  function Gone(w: World): int {
    |w.fates| - if w.phase == Handled(true) then 1 else 0
  }

  ghost predicate QueueMatches(queue: seq<seq<byte>>, accepted: seq<Message>, gone: int) {
    && 0 <= gone && |queue| == |accepted| - gone
    && forall i | 0 <= i < |queue| :: queue[i] == Bytes(accepted[gone + i])
  }

  /** Every accepted message can be encoded, and every fate is the one its entry was given. */
  ghost predicate FatesMatch(accepted: seq<Message>, fates: seq<Fate>, tries: seq<Env>) {
    && |fates| == |tries| <= |accepted|
    && (forall i | 0 <= i < |accepted| :: Encode(PublishPacket(ToPacket(accepted[i]))).Ok?)
    && (forall i | 0 <= i < |fates| :: Handle(Bytes(accepted[i]), tries[i]) == Some(fates[i]))
  }

  ghost predicate Invariant(w: World) {
    && QueueMatches(w.queue, w.accepted, Gone(w))
    && FatesMatch(w.accepted, w.fates, w.tries)
    && (w.phase.Holding? ==> w.queue != [] && w.phase.entry == w.queue[0])
    && (w.phase.Handled? ==> w.queue != [])
  }

  lemma PublishKeeps(w: World, env: Env)
    requires Invariant(w)
    ensures Invariant(Next(w, Event.Publish(env)))
  {
    hide Encode, Bytes, Handle, OutcomeOf, ToPacket;
    if w.phase.Holding? {
      var n, v := |w.fates|, Next(w, Event.Publish(env));
      assert w.queue[0] == Bytes(w.accepted[n + 0]);
      if v.phase.Handled? && v.phase.remove {
        assert Handle(Bytes(v.accepted[n]), v.tries[n]) == Some(v.fates[n]);
      }
    }
  }

  lemma NextKeeps(w: World, e: Event)
    requires Invariant(w)
    ensures Invariant(Next(w, e))
  {
    hide Encode, Bytes, Handle, OutcomeOf, ToPacket;
    match e {
      case Enqueue(m) =>
      case Peek =>
      case Publish(env) => PublishKeeps(w, env);
      case Finish =>
    }
  }

  lemma {:induction false} RunKeeps(events: seq<Event>)
    ensures Invariant(Run(events))
    decreases |events|
  {
    if events != [] {
      RunKeeps(events[..|events| - 1]);
      NextKeeps(Run(events[..|events| - 1]), events[|events| - 1]);
    }
  }

  // ---- What is handed over ----

  /** The packet the worker reads from the entry of a message. */
  function Decoded(m: Message): Option<Publish> {
    match ReadPacket(Bytes(m))
    case Done(PublishPacket(pub), _) => Some(pub)
    case _ => None
  }

  /** It is the message, up to truncation, exactly when its QoS has two bits: the bits of a larger one overlap
      the other flags of the header. */
  lemma DecodedExactly(m: Message)
    requires Encode(PublishPacket(ToPacket(m))).Ok?
    ensures Decoded(m) == Some(KeptPublish(ToPacket(m))) <==> m.qos < 4
  {
    hide ReadPacket, Encode;
    if m.qos < 4 {
      MessageReadable(m);
      PublishRoundTrip(ToPacket(m), []);
      assert Bytes(m) + [] == Bytes(m);
    } else if Decoded(m).Some? {
      ReadIsFaithful(Bytes(m));
    }
  }

  /** The message as it comes out of the queue. */
  function Queued(m: Message): Message {
    Requeued(KeptPublish(ToPacket(m)))
  }

  /** The fate of a message that was read as this one: what the hook makes of it goes to the session with
      QoS 1 and 2 and to the connection with QoS 0, unless the server it was to be sent to does not take
      it. */
  predicate Due(m: Message, env: Env, f: Fate) {
    match f
    case ToSession(pb) => pb == ToPacket(env.hook(m)) && pb.qos in {1, 2} && !Refused(env.props, m)
    case ToConnection(pb) => pb == ToPacket(env.hook(m)) && pb.qos == 0 && !Refused(env.props, m)
    case Unsendable => Refused(env.props, m) || env.hook(m).qos > 2
    case Undecodable => false
  }

  lemma HandledAsDue(m: Message, env: Env, f: Fate)
    requires Encode(PublishPacket(ToPacket(m))).Ok? && Handle(Bytes(m), env) == Some(f)
    ensures if Decoded(m).Some? then Due(Requeued(Decoded(m).value), env, f) else f == Undecodable
    ensures m.qos < 4 ==> Due(Queued(m), env, f)
  {
    hide ReadPacket, Encode, KeptPublish;
    DecodedExactly(m);
  }

  /** Over every run each accepted message has met exactly one fate or its entry is still in the queue, and
      fates are met in the order of acceptance. The fate is the one due to what the worker reads, and that
      is the message itself when its QoS has two bits. While the worker is about to remove an entry that
      entry has already met its fate. */
  lemma Conservation(events: seq<Event>)
    ensures var w := Run(events);
      && |w.fates| == |w.tries| <= |w.accepted|
      && (forall i | 0 <= i < |w.fates| ::
            var read := Decoded(w.accepted[i]);
            if read.Some? then Due(Requeued(read.value), w.tries[i], w.fates[i]) else w.fates[i] == Undecodable)
      && (forall i | 0 <= i < |w.fates| && w.accepted[i].qos < 4 :: Due(Queued(w.accepted[i]), w.tries[i], w.fates[i]))
      && QueueMatches(w.queue, w.accepted, Gone(w))
  {
    hide Encode, Bytes, Handle, Due, Decoded, Queued;
    RunKeeps(events);
    var w := Run(events);
    forall i | 0 <= i < |w.fates|
      ensures var read := Decoded(w.accepted[i]);
        if read.Some? then Due(Requeued(read.value), w.tries[i], w.fates[i]) else w.fates[i] == Undecodable
      ensures w.accepted[i].qos < 4 ==> Due(Queued(w.accepted[i]), w.tries[i], w.fates[i])
    {
      HandledAsDue(w.accepted[i], w.tries[i], w.fates[i]);
    }
  }

  /** Later events never change a fate, nor the list of accepted messages, except by adding to them. */
  lemma {:induction false} FatesAreFinal(events: seq<Event>, more: seq<Event>)
    ensures Run(events).fates <= Run(events + more).fates
    ensures Run(events).accepted <= Run(events + more).accepted
    decreases |more|
  {
    hide Encode, Handle, OutcomeOf, Bytes;
    if more == [] {
      assert events + more == events;
    } else {
      FatesAreFinal(events, more[..|more| - 1]);
      assert (events + more)[..|events + more| - 1] == events + more[..|more| - 1];
    }
  }

  /** Every string of the message fits its two-byte length. */
  predicate Fits(m: Message) {
    |m.topic| <= MAX_STRING && StringsFit(ToPacket(m).properties)
  }

  /** A message whose strings fit comes out of the queue with the same topic, payload, QoS, retain flag and
      properties, and that is what is handed over unless a hook changes it. */
  lemma HandedOverUnchanged(m: Message)
    requires Fits(m)
    ensures Queued(m) == m.(packetID := 0, duplicate := false)
  {
    hide StringsFit;
    FitsIsCanonical(m);
    SelectedIsAll(ToPacket(m).properties, PUBLISH);
    MessageRoundTrip(m.(packetID := 0, duplicate := false));
  }

  lemma FitsIsCanonical(m: Message)
    requires Fits(m)
    ensures Canonical(ToPacket(m).properties, PUBLISH)
  {
    var f := ToPacket(m).properties.fields;
    assert forall id | id in CODES :: id in PackOrder(PUBLISH);
    assert f.Keys <= CODES;
  }

  /** Without a hook the session can store it under any identifier and send it again. */
  lemma HandedOverStorable(m: Message, id: uint16)
    requires m.qos in {1, 2} && Encode(PublishPacket(ToPacket(m))).Ok?
    ensures R.Storable(ToPacket(Queued(m)).(packetID := id))
  {
    hide Encode, KeptPublish;
    var pub := KeptPublish(ToPacket(m));
    QueuedPacket(m);
    R.KeptIdentity(ToPacket(m));
    R.KeptEncodes(ToPacket(m));
    EncodesPlain(pub, id);
    MessageReadable(Queued(m));
  }

  lemma QueuedPacket(m: Message)
    ensures ToPacket(Queued(m)) == KeptPublish(ToPacket(m)).(packetID := 0, duplicate := false)
  {
    var pub := KeptPublish(ToPacket(m)).(packetID := 0, duplicate := false);
    PacketRoundTripsExactly(pub);
    assert pub.properties.fields.Keys <= CODES;
  }

  lemma EncodesPlain(p: Publish, id: uint16)
    requires Encode(PublishPacket(p)).Ok?
    ensures Encode(PublishPacket(p.(packetID := id, duplicate := false))).Ok?
  {
    assert |PublishBody(p).value| == |PublishBody(p.(packetID := id, duplicate := false)).value|;
  }

  // ---- What is refused, and what is not ----

  /** The server takes the message: its QoS is one it supports, a retained message only where it keeps them, an
      alias only within its maximum (0 is not checked), and a topic unless there is an alias. */
  predicate WithinLimits(props: ServerProps, m: Message) {
    && m.qos <= 2 && m.qos <= props.maximumQoS
    && (m.retain ==> props.retainAvailable)
    && match m.properties.topicAlias
       case Some(a) => props.topicAliasMaximum == 0 || a <= props.topicAliasMaximum
       case None => m.topic != []
  }

  lemma QueuedEncodes(m: Message)
    requires Encode(PublishPacket(ToPacket(m))).Ok?
    ensures Encode(PublishPacket(ToPacket(Queued(m)))).Ok?
  {
    hide Encode, KeptPublish;
    QueuedPacket(m);
    R.KeptEncodes(ToPacket(m));
    EncodesPlain(KeptPublish(ToPacket(m)), 0);
  }

  /** The call failed on the session or the connection. */
  predicate Fails(m: Message, env: Env) {
    env.writeFails || (m.qos > 0 && env.addFails)
  }

  /** What becomes of a queued message in one attempt without a hook: discarded exactly when it is beyond the limits
      of the server; otherwise left in the queue when the session, or with QoS 0 the connection, did not take it,
      and handed to the one or the other when it did. */
  lemma HandledExactly(m: Message, env: Env)
    requires m.qos < 4 && Encode(PublishPacket(ToPacket(m))).Ok? && env.hook(Queued(m)) == Queued(m)
    ensures Handle(Bytes(m), env)
         == if !WithinLimits(env.props, Queued(m)) then Some(Unsendable)
            else if m.qos == 0 then (if env.writeFails then None else Some(ToConnection(ToPacket(Queued(m)))))
            else if env.addFails then None
            else Some(ToSession(ToPacket(Queued(m))))
  {
    hide ReadPacket, Encode, KeptPublish;
    DecodedExactly(m);
    QueuedEncodes(m);
    QueuedQos(m);
  }

  /** The same with a hook, for whatever was read from the queue: the limits apply to the message before the hook,
      and what the hook makes of it decides the rest. A packet of QoS 1 or 2 that cannot be encoded crashes the
      worker. */
  lemma HookedExactly(entry: seq<byte>, pub: Publish, rest: seq<byte>, a: Attempt)
    requires ReadPacket(entry) == Done(PublishPacket(pub), rest) && pub.qos <= 2
    ensures var pb := ToPacket(a.env.hook(Requeued(pub)));
      var encodes := Encode(PublishPacket(pb)).Ok?;
      && Handle(entry, a.env)
         == (if !WithinLimits(a.env.props, Requeued(pub)) || pb.qos > 2 then Some(Unsendable)
             else if pb.qos == 0 then (if encodes && !a.env.writeFails then Some(ToConnection(pb)) else None)
             else if encodes && !a.env.addFails then Some(ToSession(pb)) else None)
      && (TurnOf(entry, a).Crashed? <==>
            && WithinLimits(a.env.props, Requeued(pub)) && pb.qos in {1, 2} && !a.env.addFails && !encodes)
  {
    hide ReadPacket, Encode;
  }

  lemma QueuedQos(m: Message)
    ensures Queued(m).qos == m.qos && ToPacket(Queued(m)).qos == m.qos
  {}

  /** After an attempt the worker goes on, unless the message was refused or something failed and it finds the
      connection down, when it waits for the next one, or its context done, when it stops. */
  lemma TurnExactly(m: Message, env: Env, after: Signal)
    requires m.qos < 4 && Encode(PublishPacket(ToPacket(m))).Ok? && env.hook(Queued(m)) == Queued(m)
    ensures var turn := TurnOf(Bytes(m), Attempt(env, after));
      var erred := !WithinLimits(env.props, Queued(m)) || Fails(m, env);
      && (turn.Lost? <==> erred && after.ConnectionDown?)
      && (turn.Stopped? <==> erred && after.ContextDone?)
      && !turn.Crashed?
  {
    hide ReadPacket, Encode, KeptPublish;
    DecodedExactly(m);
    QueuedEncodes(m);
    QueuedQos(m);
  }

  /** An entry that is no PUBLISH is discarded, and the worker goes on. */
  lemma UndecodableExactly(entry: seq<byte>, a: Attempt)
    ensures Handle(entry, a.env) == Some(Undecodable)
       <==> !(ReadPacket(entry).Done? && ReadPacket(entry).value.PublishPacket?)
    ensures Handle(entry, a.env) == Some(Undecodable) ==> TurnOf(entry, a) == Again
  {
    hide ReadPacket, Encode, Refused;
  }

  // ---- A queue that is drained ----

  /** An attempt with which nothing goes wrong. */
  ghost predicate Smooth(a: Attempt) {
    !a.env.addFails && !a.env.writeFails && a.after.Nothing? && forall m :: a.env.hook(m) == m
  }

  /** The fate of a message when nothing goes wrong. */
  function Expected(m: Message, props: ServerProps): Fate {
    if !WithinLimits(props, Queued(m)) then Unsendable
    else if m.qos == 0 then ToConnection(ToPacket(Queued(m)))
    else ToSession(ToPacket(Queued(m)))
  }

  function Entries(ms: seq<Message>): seq<seq<byte>> {
    if ms == [] then [] else [Bytes(ms[0])] + Entries(ms[1..])
  }

  function ExpectedAll(ms: seq<Message>, attempts: seq<Attempt>): (fates: seq<Fate>)
    requires |attempts| >= |ms|
    ensures |fates| == |ms| && forall i | 0 <= i < |ms| :: fates[i] == Expected(ms[i], attempts[i].env.props)
  {
    if ms == [] then [] else [Expected(ms[0], attempts[0].env.props)] + ExpectedAll(ms[1..], attempts[1..])
  }

  /** With as many attempts as messages, and nothing going wrong, the whole queue is handed over: every message
      within the limits to the session or the connection, in order, and only the others discarded. */
  lemma {:induction false} DrainsAll(ms: seq<Message>, attempts: seq<Attempt>)
    requires |attempts| >= |ms| && forall i | 0 <= i < |ms| :: Smooth(attempts[i])
    requires forall i | 0 <= i < |ms| :: ms[i].qos < 4 && Encode(PublishPacket(ToPacket(ms[i]))).Ok?
    ensures var d := Drained(Entries(ms), attempts);
      d.left == [] && (d.turn.Empty? || d.turn.Again?) && d.fates == ExpectedAll(ms, attempts)
    decreases |ms|
  {
    hide Handle, TurnOf, Encode, Bytes, Expected, Smooth, ToPacket;
    if ms != [] {
      SmoothAttempt(ms[0], attempts[0]);
      assert Entries(ms)[0] == Bytes(ms[0]) && Entries(ms)[1..] == Entries(ms[1..]);
      DrainsAll(ms[1..], attempts[1..]);
    }
  }

  lemma SmoothAttempt(m: Message, a: Attempt)
    requires Smooth(a) && m.qos < 4 && Encode(PublishPacket(ToPacket(m))).Ok?
    ensures Handle(Bytes(m), a.env) == Some(Expected(m, a.env.props)) && TurnOf(Bytes(m), a) == Again
  {
    hide Handle, TurnOf, Encode, Bytes, Queued, WithinLimits;
    HandledExactly(m, a.env);
    TurnExactly(m, a.env, a.after);
    TurnNotEmpty(Bytes(m), a);
  }

  lemma TurnNotEmpty(entry: seq<byte>, a: Attempt)
    ensures !TurnOf(entry, a).Empty?
  {}
}
