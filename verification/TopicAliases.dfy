/** Topic aliases (section 3.3.2.3.4 of MQTT 5.0): the sender's table of
    paho/extensions/topicaliases/topicliases.go, and the receiver in paho/router.go that resolves them. */
module TopicAliases {
  import opened Basics
  import opened Properties
  import opened Packets
  import opened Router

  /** Slot 0 is never handed out, and an empty topic is a free slot. */
  type Table = seq<Topic>

  /** NewTAHandler: one slot more than the maximum, computed in 16 bits. */
  function Slots(max: uint16): uint16 {
    (max + 1) % 0x1_0000
  }

  function NewTable(max: uint16): Table {
    seq(Slots(max), _ => [])
  }

  /** The first slot with this topic, slot 0 included; 0 when there is none. */
  function GetAlias(t: Table, topic: Topic): (a: nat)
    ensures a == 0 || (a < |t| && t[a] == topic && forall i | 0 <= i < a :: t[i] != topic)
    ensures a == 0 ==> (|t| > 0 && t[0] == topic) || topic !in t
  {
    if t == [] || t[0] == topic then 0
    else
      var a := GetAlias(t[1..], topic);
      if a > 0 || (|t| > 1 && t[1] == topic) then a + 1 else 0
  }

  predicate FreeSlot(t: Table, a: nat) {
    1 <= a < |t| && t[a] == []
  }

  /** The lowest free slot from a on; the length when there is none. */
  function FirstFree(t: Table, a: nat): (k: nat)
    requires 1 <= a <= |t|
    ensures a <= k <= |t| && (k < |t| ==> FreeSlot(t, k)) && forall i | a <= i < k :: !FreeSlot(t, i)
    decreases |t| - a
  {
    if a == |t| || t[a] == [] then a else FirstFree(t, a + 1)
  }

  /** What a call that may index its slice out of range comes to. */
  datatype Attempt<+T> = Panics | Returns(value: T)

  /** SetAlias: the loop runs one past the last slot, so a full table panics instead of giving 0. */
  function SetAlias(t: Table, topic: Topic): Attempt<(Table, uint16)>
    requires |t| <= 65535
  {
    if t == [] then Returns((t, 0))
    else
      var a := FirstFree(t, 1);
      if a < |t| then Returns((t[a := topic], a)) else Panics
  }

  // ---- The hook ----

  function AliasOf(m: Publish): Option<uint16> {
    if TOPIC_ALIAS in m.properties.fields then Some(m.properties.fields[TOPIC_ALIAS].u16) else None
  }

  function WithAlias(m: Publish, a: uint16): (r: Publish)
    ensures AliasOf(r) == Some(a) && r == m.(properties := r.properties)
  {
    m.(properties := m.properties.(fields := m.properties.fields[TOPIC_ALIAS := U16Value(a)]))
  }

  /** PublishHook: a message with an alias redefines it, a topic that has an alias is replaced by it,
      and any other topic is given a free one. */
  function Hook(t: Table, m: Publish): Attempt<(Table, Publish)>
    requires |t| <= 65535
  {
    var own := AliasOf(m);
    if own.Some? then
      if own.value < |t| then Returns((t[own.value := m.topic], m)) else Panics
    else
      var a := GetAlias(t, m.topic);
      if a != 0 then Returns((t, WithAlias(m, a).(topic := [])))
      else
        match SetAlias(t, m.topic)
        case Panics => Panics
        case Returns((t', a)) => Returns((t', if a != 0 then WithAlias(m, a) else m))
  }

  /** When the hook panics: the message's own alias is beyond the table, or its topic has no alias and
      the table, unless it has no slots at all, has none free. */
  lemma HookPanicsExactly(t: Table, m: Publish)
    requires |t| <= 65535
    ensures Hook(t, m).Panics? <==>
      if AliasOf(m).Some? then AliasOf(m).value >= |t|
      else |t| > 0 && (m.topic == t[0] || m.topic !in t) && forall a | 1 <= a < |t| :: !FreeSlot(t, a)
  {}

  // ---- The object ----

  class TAHandler {
    const aliasMax: uint16
    const aliases: array<Topic>

    ghost predicate Valid() {
      aliases.Length == aliasMax
    }

    ghost function View(): Table
      reads this, aliases
    {
      aliases[..]
    }

    constructor (max: uint16)
      ensures Valid() && View() == NewTable(max) && fresh(aliases)
    {
      aliasMax := (max + 1) % 0x1_0000;
      aliases := new Topic[(max + 1) % 0x1_0000](_ => []);
    }

    method FindAlias(topic: Topic) returns (a: uint16)
      requires Valid()
      ensures a == GetAlias(View(), topic)
    {
      var i := 0;
      while i < aliases.Length
        invariant 0 <= i <= aliases.Length
        invariant forall k | 0 <= k < i :: aliases[k] != topic
      {
        if aliases[i] == topic {
          assert View()[i] == topic;
          return i;
        }
        i := i + 1;
      }
      return 0;
    }

    method NewAlias(topic: Topic) returns (a: Attempt<uint16>)
      requires Valid()
      modifies aliases
      ensures match SetAlias(old(View()), topic)
        case Panics => a.Panics? && View() == old(View())
        case Returns((t, k)) => a == Returns(k) && View() == t
    {
      var i: int := 1;
      while i <= aliasMax
        invariant 1 <= i <= aliasMax + 1
        invariant View() == old(View())
        invariant View() != [] ==> i <= |View()| && FirstFree(View(), 1) == FirstFree(View(), i)
      {
        if i >= aliases.Length {
          return Panics;
        }
        if aliases[i] == [] {
          aliases[i] := topic;
          return Returns(i);
        }
        i := i + 1;
      }
      return Returns(0);
    }

    method ResetAll()
      modifies aliases
      ensures View() == seq(|old(View())|, _ => [])
    {
      forall i | 0 <= i < aliases.Length {
        aliases[i] := [];
      }
    }

    method PublishHook(m: Publish) returns (r: Attempt<Publish>)
      requires Valid()
      modifies aliases
      ensures match Hook(old(View()), m)
        case Panics => r.Panics? && View() == old(View())
        case Returns((t, p)) => r == Returns(p) && View() == t
    {
      var own := AliasOf(m);
      if own.Some? {
        if own.value >= aliases.Length {
          return Panics;
        }
        aliases[own.value] := m.topic;
        return Returns(m);
      }
      var a := FindAlias(m.topic);
      if a != 0 {
        return Returns(WithAlias(m, a).(topic := []));
      }
      var b := NewAlias(m.topic);
      match b {
        case Panics => return Panics;
        case Returns(k) => return Returns(if k != 0 then WithAlias(m, k) else m);
      }
    }
  }

  // ---- Every sequence of messages ----

  datatype Event = Send(m: Publish) | Reconnect

  /** The sender's table, the receiver's aliases, and the topics the receiver made of the messages sent
      so far with the topics they were published to. */
  datatype World = World(table: Table, aliases: map<uint16, Topic>, resolved: seq<Topic>, published: seq<Topic>)

  function Start(max: uint16): World {
    World(NewTable(max), map[], [], [])
  }

  function Next(w: World, e: Event): Attempt<World>
    requires |w.table| <= 65535
  {
    match e
    case Reconnect => Returns(w.(table := seq(|w.table|, _ => []), aliases := map[]))
    case Send(m) =>
      match Hook(w.table, m)
      case Panics => Panics
      case Returns((table, sent)) =>
        var (aliases, topic) := Resolve(w.aliases, sent.topic, AliasOf(sent));
        Returns(World(table, aliases, w.resolved + [topic], w.published + [m.topic]))
  }

  /** Nothing after a panic. */
  function Run(w: World, events: seq<Event>): (r: Attempt<World>)
    requires |w.table| <= 65535
    ensures r.Returns? ==> |r.value.table| == |w.table|
    decreases |events|
  {
    if events == [] then Returns(w)
    else
      match Next(w, events[0])
      case Panics => Panics
      case Returns(v) => Run(v, events[1..])
  }

  /** Every topic in the sender's table is what the receiver has for that alias. */
  ghost predicate Agree(table: Table, aliases: map<uint16, Topic>) {
    forall a: uint16 | a < |table| && table[a] != [] :: a in aliases && aliases[a] == table[a]
  }

  ghost predicate Resolved(resolved: seq<Topic>, published: seq<Topic>) {
    |resolved| == |published| && forall i | 0 <= i < |resolved| :: published[i] != [] ==> resolved[i] == published[i]
  }

  lemma HookAgrees(t: Table, aliases: map<uint16, Topic>, m: Publish)
    requires |t| <= 65535 && Agree(t, aliases) && Hook(t, m).Returns?
    ensures var (t', sent) := Hook(t, m).value;
      var (known, topic) := Resolve(aliases, sent.topic, AliasOf(sent));
      && |t'| == |t| && Agree(t', known)
      && (m.topic != [] ==> topic == m.topic)
      && sent.payload == m.payload && sent.qos == m.qos && sent.retain == m.retain
  {}

  lemma {:induction false} RunAgrees(w: World, events: seq<Event>)
    requires |w.table| <= 65535 && Agree(w.table, w.aliases) && Resolved(w.resolved, w.published)
    requires Run(w, events).Returns?
    ensures Agree(Run(w, events).value.table, Run(w, events).value.aliases)
    ensures Resolved(Run(w, events).value.resolved, Run(w, events).value.published)
    decreases |events|
  {
    if events != [] {
      if events[0].Send? {
        HookAgrees(w.table, w.aliases, events[0].m);
      }
      RunAgrees(Next(w, events[0]).value, events[1..]);
    }
  }

  /** Whatever is published through the hook, with reconnections in between, and as long as a needed
      slot is free, the receiver resolves every message that had a topic to that topic. */
  lemma AliasesResolve(max: uint16, events: seq<Event>)
    requires Run(Start(max), events).Returns?
    ensures var w := Run(Start(max), events).value;
      Resolved(w.resolved, w.published) && Agree(w.table, w.aliases)
  {
    RunAgrees(Start(max), events);
  }

  // ---- When a run panics ----

  /** The table after these topics, all different, have been given the first slots. */
  function TableFor(seen: seq<Topic>, max: nat): (t: Table)
    requires |seen| <= max
    ensures |t| == max + 1
  {
    [[]] + seen + seq(max - |seen|, _ => [])
  }

  ghost predicate Distinct(seen: seq<Topic>) {
    && [] !in seen
    && forall i, j | 0 <= i < j < |seen| :: seen[i] != seen[j]
  }

  /** The topics in order of first use. */
  function Seen(seen: seq<Topic>, topic: Topic): seq<Topic> {
    if topic in seen then seen else seen + [topic]
  }

  function SeenAll(seen: seq<Topic>, events: seq<Event>): (r: seq<Topic>)
    ensures |r| >= |seen|
    decreases |events|
  {
    if events == [] then seen
    else SeenAll(if events[0].Send? then Seen(seen, events[0].m.topic) else seen, events[1..])
  }

  lemma HookFills(seen: seq<Topic>, max: nat, m: Publish)
    requires |seen| <= max < 65535 && Distinct(seen) && m.topic != [] && AliasOf(m).None?
    ensures Distinct(Seen(seen, m.topic))
    ensures var next := Seen(seen, m.topic);
      if |next| <= max then
        Hook(TableFor(seen, max), m).Returns? && Hook(TableFor(seen, max), m).value.0 == TableFor(next, max)
      else Hook(TableFor(seen, max), m).Panics?
  {
    var t, next := TableFor(seen, max), Seen(seen, m.topic);
    if m.topic in seen {
      var k :| 0 <= k < |seen| && seen[k] == m.topic;
      assert t[k + 1] == m.topic;
    } else {
      assert forall i | 1 <= i <= |seen| :: t[i] == seen[i - 1];
      assert m.topic !in t;
      assert forall i | 1 <= i <= |seen| :: !FreeSlot(t, i) by {
        assert forall i | 0 <= i < |seen| :: seen[i] in seen;
      }
      assert |seen| < max ==> FreeSlot(t, |seen| + 1);
      var a := FirstFree(t, 1);
      assert a == |seen| + 1;
      if a < |t| {
        assert t[a := m.topic] == TableFor(next, max);
      }
    }
  }

  lemma {:induction false} RunFills(w: World, seen: seq<Topic>, max: nat, events: seq<Event>)
    requires |seen| <= max < 65535 && Distinct(seen) && w.table == TableFor(seen, max)
    requires forall e | e in events :: e.Send? && e.m.topic != [] && AliasOf(e.m).None?
    ensures Run(w, events).Returns? <==> |SeenAll(seen, events)| <= max
    decreases |events|
  {
    if events != [] {
      hide Hook;
      var m := events[0].m;
      assert events[0] in events;
      HookFills(seen, max, m);
      var next := Seen(seen, m.topic);
      if |next| <= max {
        RunFills(Next(w, events[0]).value, next, max, events[1..]);
      }
    }
  }

  /** Over one connection, messages without aliases of their own never meet a full table exactly when
      they use no more topics than there are aliases. */
  lemma SlotsSuffice(max: uint16, events: seq<Event>)
    requires max < 65535 && forall e | e in events :: e.Send? && e.m.topic != [] && AliasOf(e.m).None?
    ensures Run(Start(max), events).Returns? <==> |SeenAll([], events)| <= max
  {
    assert NewTable(max) == TableFor([], max);
    RunFills(Start(max), [], max, events);
  }

  /** A maximum of 65535 wraps to a table without slots: every message without an alias of its own is
      sent as it is. */
  lemma MaximumDisables(m: Publish)
    requires AliasOf(m).None?
    ensures NewTable(65535) == [] && Hook(NewTable(65535), m) == Returns((NewTable(65535), m))
  {
    assert NewTable(65535) == [];
  }

  // ---- What is saved ----

  /** A topic without an alias of its own is replaced exactly when the table has it, and by the alias the table
      has it under; otherwise it goes out with the alias it is given, and the next one with it is replaced. */
  lemma HookShortensExactly(t: Table, m: Publish)
    requires 0 < |t| <= 65535 && t[0] == [] && AliasOf(m).None? && m.topic != [] && Hook(t, m).Returns?
    ensures var (t', sent) := Hook(t, m).value;
      var a := AliasOf(sent);
      && a.Some? && 1 <= a.value < |t'| == |t| && t'[a.value] == m.topic
      && (sent.topic == [] <==> m.topic in t) && (m.topic !in t ==> sent.topic == m.topic)
      && (m.topic in t ==> t' == t) && (m.topic !in t ==> t[a.value] == [] && t' == t[a.value := m.topic])
  {}

  /** After a message that brings an alias of its own its topic is replaced in messages without one. */
  lemma OwnAliasUsed(t: Table, first: Publish, next: Publish)
    requires 0 < |t| <= 65535 && t[0] == [] && first.topic != [] && next.topic == first.topic && AliasOf(next).None?
    requires AliasOf(first).Some? && 1 <= AliasOf(first).value < |t|
    ensures Hook(t, first).Returns? && Hook(t, first).value.1 == first
    ensures var t' := Hook(t, first).value.0;
      && |t'| == |t| && Hook(t', next).Returns? && Hook(t', next).value.1.topic == []
      && (first.topic !in t ==> AliasOf(Hook(t', next).value.1) == AliasOf(first))
  {
    var t' := Hook(t, first).value.0;
    assert t'[AliasOf(first).value] == next.topic;
    HookShortensExactly(t', next);
  }
}
