/** The packet identifier allocator of paho/session/state/state.go (section 2.2.1 of MQTT 5.0):
    round robin over 1..65535 with 16-bit wrap-around. */
module PacketIds {
  import opened Basics

  type Id = uint16

  const MID_MAX := 65535

  predicate IsId(id: Id) {
    1 <= id
  }

  /** How far id lies after last, counting cyclically over 1..65535; last itself comes round again
      after all the others. */
  function Distance(last: Id, id: Id): (d: nat)
    requires IsId(id)
    ensures 1 <= d <= MID_MAX
  {
    if id > last then id - last else id - last + MID_MAX
  }

  lemma DistanceInjective(last: Id, a: Id, b: Id)
    requires IsId(a) && IsId(b) && Distance(last, a) == Distance(last, b)
    ensures a == b
  {}

  /** id is the cyclically next free identifier after last. */
  ghost predicate IsNextFree(last: Id, taken: set<Id>, id: Id) {
    && IsId(id)
    && id !in taken
    && forall x: Id | IsId(x) && Distance(last, x) < Distance(last, id) :: x in taken
  }

  ghost predicate Exhausted(taken: set<Id>) {
    forall x: Id | IsId(x) :: x in taken
  }

  lemma NextFreeUnique(last: Id, taken: set<Id>, a: Id, b: Id)
    requires IsNextFree(last, taken, a) && IsNextFree(last, taken, b)
    ensures a == b
  {
    if Distance(last, a) == Distance(last, b) {
      DistanceInjective(last, a, b);
    }
  }

  lemma SearchFree(last: Id, taken: set<Id>, k: nat) returns (r: Option<Id>)
    requires 1 <= k <= MID_MAX + 1
    requires forall x: Id | IsId(x) && Distance(last, x) < k :: x in taken
    ensures if r.Some? then IsNextFree(last, taken, r.value) else Exhausted(taken)
    decreases MID_MAX + 1 - k
  {
    if k > MID_MAX {
      return None;
    }
    var id := if last + k <= MID_MAX then last + k else last + k - MID_MAX;
    if id !in taken {
      return Some(id);
    }
    forall x: Id | IsId(x) && Distance(last, x) == k
      ensures x in taken
    {
      DistanceInjective(last, x, id);
    }
    r := SearchFree(last, taken, k + 1);
  }

  lemma NextFreeExists(last: Id, taken: set<Id>)
    ensures Exhausted(taken) || exists id :: IsNextFree(last, taken, id)
  {
    var r := SearchFree(last, taken, 1);
  }

  /** The identifier allocateNextPacketId returns. */
  ghost function NextFree(last: Id, taken: set<Id>): (r: Option<Id>)
    ensures r.Some? ==> IsNextFree(last, taken, r.value)
    ensures r.None? <==> Exhausted(taken)
  {
    NextFreeExists(last, taken);
    if id: Id :| IsNextFree(last, taken, id) then Some(id)
    else None
  }

  /** lastMid after the call. A failed call moves it only from its initial value 0. */
  function LastAfter(last: Id, r: Option<Id>): Id {
    match r
    case Some(id) => id
    case None => if last == 0 then 1 else last
  }

  /** allocateNextPacketId without the map update: scan from lastMid + 1 until the counter wraps to 0,
      then from the start of the range up to lastMid. */
  method FindFree(last: Id, taken: set<Id>) returns (r: Option<Id>, last': Id)
    ensures r == NextFree(last, taken)
    ensures last' == LastAfter(last, r)
  {
    var i := (last + 1) % 0x1_0000;
    while i != 0
      invariant i == 0 || last < i <= MID_MAX
      invariant forall x: Id | last < x && (i == 0 || x < i) :: x in taken
      decreases if i == 0 then 0 else 0x1_0000 - i
    {
      if i !in taken {
        NextFreeIs(last, taken, i);
        return Some(i), i;
      }
      i := (i + 1) % 0x1_0000;
    }
    if last == 0 {
      return None, 1;
    }
    var j := 0;
    while j < last
      invariant 0 <= j <= last
      invariant forall x: Id | last < x || 1 <= x <= j :: x in taken
    {
      if j + 1 !in taken {
        NextFreeIs(last, taken, j + 1);
        return Some(j + 1), j + 1;
      }
      j := j + 1;
    }
    return None, last;
  }

  lemma NextFreeIs(last: Id, taken: set<Id>, id: Id)
    requires IsNextFree(last, taken, id)
    ensures NextFree(last, taken) == Some(id)
  {
    NextFreeUnique(last, taken, id, NextFree(last, taken).value);
  }

  /** After an attempt the position is the identifier that was issued, or, when there was none, where it was but
      never 0. */
  lemma PositionAfter(last: Id, taken: set<Id>)
    ensures var r := NextFree(last, taken);
      LastAfter(last, r) == if !Exhausted(taken) then r.value else if last >= 1 then last else 1
  {}

  // ---- Over runs ----

  /** A packet identifier is asked for, or the set of those in use changes for another reason. */
  datatype Event = Issue | Change(taken: set<Id>)

  datatype State = State(last: Id, taken: set<Id>)

  ghost function Step(s: State, e: Event): State {
    match e
    case Change(taken) => s.(taken := taken)
    case Issue =>
      var r := NextFree(s.last, s.taken);
      State(LastAfter(s.last, r), if r.Some? then s.taken + {r.value} else s.taken)
  }

  ghost predicate StaysFree(s: State, events: seq<Event>, id: Id)
    decreases |events|
  {
    id !in s.taken && (events == [] || StaysFree(Step(s, events[0]), events[1..], id))
  }

  ghost function Issued(s: State, events: seq<Event>): seq<Id>
    decreases |events|
  {
    if events == [] then []
    else
      (if events[0].Issue? && NextFree(s.last, s.taken).Some? then [NextFree(s.last, s.taken).value] else [])
      + Issued(Step(s, events[0]), events[1..])
  }

  /** Steps forward from a to b around the circle. */
  function Gap(a: Id, b: Id): nat
    requires IsId(a) && IsId(b)
  {
    if b >= a then b - a else b - a + MID_MAX
  }

  lemma {:induction false} NotReissuedFrom(s: State, events: seq<Event>, id: Id, free: Id)
    requires IsId(id) && IsId(free) && IsId(s.last)
    requires Gap(id, s.last) < Gap(id, free) && StaysFree(s, events, free)
    ensures id !in Issued(s, events)
    decreases |events|
  {
    if events != [] {
      var r := NextFree(s.last, s.taken);
      if events[0].Issue? {
        assert r.Some?;
        assert r.value != free;
        assert Distance(s.last, r.value) < Distance(s.last, free) by {
          if Distance(s.last, r.value) == Distance(s.last, free) {
            DistanceInjective(s.last, r.value, free);
          }
        }
      }
      NotReissuedFrom(Step(s, events[0]), events[1..], id, free);
    }
  }

  /** Once issued, an identifier is not issued again while some other identifier has stayed free
      since, whatever else is allocated or freed in between. */
  lemma NotReissued(s: State, events: seq<Event>, id: Id, free: Id)
    requires s.last == id && IsId(id) && IsId(free) && free != id
    requires StaysFree(s, events, free)
    ensures id !in Issued(s, events)
  {
    NotReissuedFrom(s, events, id, free);
  }
}
