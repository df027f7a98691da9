/** Every interleaving of acquire, cancellation, retransmission and release on a send quota. */
module QuotaRuns {
  import opened SendQuota

  /** The quota with its callers: those whose channel was closed but who have not run since, those
      who hold a slot, and the slots taken for retransmission; and the history of the calls. */
  datatype System = System(
    q: Quota,
    ready: set<Ticket>,
    holding: set<Ticket>,
    resent: nat,
    arrivals: seq<Ticket>,
    grants: seq<Ticket>,
    cancelled: set<Ticket>)

  datatype Event =
    | Acquire(t: Ticket)    // a publisher asks for a slot
    | Retransmit            // a stored message is sent again
    | Notice(t: Ticket)     // a waiter sees its closed channel
    | Cancel(t: Ticket)     // a waiter sees its context done first
    | Finish(t: Ticket)     // a holder releases its slot
    | FinishResent          // a retransmitted message is acknowledged

  predicate Enabled(s: System, e: Event) {
    match e
    case Acquire(t) => t !in s.arrivals
    case Retransmit => true
    case Notice(t) => t in s.ready
    case Cancel(t) => t in s.ready || t in s.q.waiters
    case Finish(t) => t in s.holding
    case FinishResent => s.resent > 0
  }

  /** Release as seen by the callers: a handed-over slot makes its waiter ready. */
  function Released(s: System): System {
    var (q, outcome) := GiveBack(s.q);
    match outcome
    case Handed(t) => s.(q := q, ready := s.ready + {t}, grants := s.grants + [t])
    case _ => s.(q := q)
  }

  function Next(s: System, e: Event): System
    requires Enabled(s, e)
  {
    match e
    case Acquire(t) =>
      var s1 := s.(q := Enter(s.q, t, false), arrivals := s.arrivals + [t]);
      if Free(s.q) then s1.(holding := s.holding + {t}, grants := s.grants + [t]) else s1
    case Retransmit => s.(q := Enter(s.q, 0, true), resent := s.resent + 1)
    case Notice(t) => s.(ready := s.ready - {t}, holding := s.holding + {t})
    case Cancel(t) =>
      if t in s.ready then s.(ready := s.ready - {t}, holding := s.holding + {t})
      else s.(q := Leave(s.q, t), cancelled := s.cancelled + {t})
    case Finish(t) => Released(s.(holding := s.holding - {t}))
    case FinishResent => Released(s.(resent := s.resent - 1))
  }

  function Start(initial: nat): System {
    System(Quota(initial, initial, []), {}, {}, 0, [], [], {})
  }

  predicate Legal(s: System, events: seq<Event>)
    decreases |events|
  {
    events == [] || (Enabled(s, events[0]) && Legal(Next(s, events[0]), events[1..]))
  }

  function Run(s: System, events: seq<Event>): System
    requires Legal(s, events)
    decreases |events|
  {
    if events == [] then s else Run(Next(s, events[0]), events[1..])
  }

  // ---- The invariant ----

  predicate Distinct(ts: seq<Ticket>) {
    forall i, j | 0 <= i < j < |ts| :: ts[i] != ts[j]
  }

  /** The calls, in order of arrival, that were not cancelled. */
  function Uncancelled(arrivals: seq<Ticket>, cancelled: set<Ticket>): seq<Ticket> {
    if arrivals == [] then []
    else
      var n := |arrivals| - 1;
      Uncancelled(arrivals[..n], cancelled) + (if arrivals[n] in cancelled then [] else [arrivals[n]])
  }

  /** Slots held by callers. */
  function Holders(s: System): nat {
    |s.ready| + |s.holding| + s.resent
  }

  /** Arrival order is grant order followed by queue order, and nobody waits while a slot is free. */
  ghost predicate QueueOk(s: System) {
    && (s.q.waiters != [] ==> s.q.quota <= 0)
    && Distinct(s.arrivals)
    && (forall t <- s.cancelled :: t in s.arrivals)
    && Uncancelled(s.arrivals, s.cancelled) == s.grants + s.q.waiters
    && s.ready !! s.holding
    && (forall t | t in s.ready || t in s.holding :: t in s.grants)
  }

  ghost predicate Invariant(s: System) {
    Held(s.q) == Holders(s) && QueueOk(s)
  }

  // ---- Facts about the queue ----

  lemma {:induction false} UncancelledMembers(arrivals: seq<Ticket>, cancelled: set<Ticket>)
    ensures forall t :: t in Uncancelled(arrivals, cancelled) <==> t in arrivals && t !in cancelled
  {
    if arrivals != [] {
      var n := |arrivals| - 1;
      UncancelledMembers(arrivals[..n], cancelled);
      assert arrivals == arrivals[..n] + [arrivals[n]];
    }
  }

  lemma {:induction false} UncancelledDistinct(arrivals: seq<Ticket>, cancelled: set<Ticket>)
    requires Distinct(arrivals)
    ensures Distinct(Uncancelled(arrivals, cancelled))
  {
    if arrivals != [] {
      var n := |arrivals| - 1;
      UncancelledDistinct(arrivals[..n], cancelled);
      UncancelledMembers(arrivals[..n], cancelled);
      assert arrivals[n] !in arrivals[..n];
      assert arrivals[n] !in Uncancelled(arrivals[..n], cancelled);
    }
  }

  lemma DistinctArrive(arrivals: seq<Ticket>, t: Ticket)
    requires Distinct(arrivals) && t !in arrivals
    ensures Distinct(arrivals + [t])
  {}

  lemma UncancelledArrive(arrivals: seq<Ticket>, cancelled: set<Ticket>, t: Ticket)
    requires t !in cancelled
    ensures Uncancelled(arrivals + [t], cancelled) == Uncancelled(arrivals, cancelled) + [t]
  {
    assert (arrivals + [t])[..|arrivals|] == arrivals;
  }

  lemma {:induction false} RemoveAbsent(ts: seq<Ticket>, t: Ticket)
    requires t !in ts
    ensures Remove(ts, t) == ts
  {
    if ts != [] {
      RemoveAbsent(ts[1..], t);
    }
  }

  lemma {:induction false} RemoveAppend(a: seq<Ticket>, b: seq<Ticket>, t: Ticket)
    ensures Remove(a + b, t) == if t in a then Remove(a, t) + b else a + Remove(b, t)
    decreases |a|
  {
    if a == [] {
      assert a + b == b;
    } else {
      assert (a + b)[1..] == a[1..] + b;
      RemoveAppend(a[1..], b, t);
      assert t in a <==> t == a[0] || t in a[1..];
    }
  }

  /** Cancelling a call takes it out of the uncancelled arrivals and leaves the others in order. */
  lemma {:induction false} UncancelledCancel(arrivals: seq<Ticket>, cancelled: set<Ticket>, t: Ticket)
    requires Distinct(arrivals)
    ensures Uncancelled(arrivals, cancelled + {t}) == Remove(Uncancelled(arrivals, cancelled), t)
    decreases |arrivals|
  {
    if arrivals != [] {
      var n := |arrivals| - 1;
      var u, last := Uncancelled(arrivals[..n], cancelled), if arrivals[n] in cancelled then [] else [arrivals[n]];
      UncancelledCancel(arrivals[..n], cancelled, t);
      UncancelledMembers(arrivals[..n], cancelled);
      RemoveAppend(u, last, t);
      if t in u {
        assert arrivals[n] != t;
      } else {
        RemoveAbsent(u, t);
        assert Remove([arrivals[n]], t) == if arrivals[n] == t then [] else [arrivals[n]];
      }
    }
  }

  /** A ticket is granted or waiting, and not both. */
  lemma WaitersNotGranted(s: System)
    requires QueueOk(s)
    ensures forall t | t in s.q.waiters :: t !in s.grants
    ensures Distinct(s.q.waiters)
  {
    UncancelledDistinct(s.arrivals, s.cancelled);
    var all := s.grants + s.q.waiters;
    forall t | t in s.q.waiters
      ensures t !in s.grants
    {
      var j :| 0 <= j < |s.q.waiters| && s.q.waiters[j] == t;
      assert all[|s.grants| + j] == t;
      forall i | 0 <= i < |s.grants|
        ensures s.grants[i] != t
      {
        assert all[i] != all[|s.grants| + j];
      }
    }
    forall i, j | 0 <= i < j < |s.q.waiters|
      ensures s.q.waiters[i] != s.q.waiters[j]
    {
      assert all[|s.grants| + i] != all[|s.grants| + j];
    }
  }

  // ---- Steps keep the invariant ----

  lemma ReleasedKeeps(s: System)
    requires QueueOk(s) && Held(s.q) == Holders(s) + 1
    ensures Invariant(Released(s)) && !GiveBack(s.q).1.Unexpected?
    ensures GiveBack(s.q).1.Handed? ==> Holders(Released(s)) <= s.q.initial
  {
    WaitersNotGranted(s);
    if s.q.quota >= 0 && s.q.waiters != [] {
      assert s.q.waiters == [s.q.waiters[0]] + s.q.waiters[1..];
      assert s.grants + s.q.waiters == (s.grants + [s.q.waiters[0]]) + s.q.waiters[1..];
    }
  }

  lemma AcquireKeeps(s: System, t: Ticket)
    requires Invariant(s) && t !in s.arrivals
    ensures Invariant(Next(s, Acquire(t)))
    ensures Free(s.q) ==> Holders(Next(s, Acquire(t))) <= s.q.initial
  {
    UncancelledArrive(s.arrivals, s.cancelled, t);
    DistinctArrive(s.arrivals, t);
    assert t !in s.holding && t !in s.ready by {
      UncancelledMembers(s.arrivals, s.cancelled);
      assert forall x | x in s.grants :: x in s.grants + s.q.waiters;
    }
    if Free(s.q) {
      assert s.grants + s.q.waiters + [t] == (s.grants + [t]) + s.q.waiters;
    } else {
      assert s.grants + s.q.waiters + [t] == s.grants + (s.q.waiters + [t]);
    }
  }

  lemma CancelKeeps(s: System, t: Ticket)
    requires Invariant(s) && Enabled(s, Cancel(t))
    ensures Invariant(Next(s, Cancel(t)))
  {
    WaitersNotGranted(s);
    if t !in s.ready {
      UncancelledCancel(s.arrivals, s.cancelled, t);
      RemoveAppend(s.grants, s.q.waiters, t);
      UncancelledMembers(s.arrivals, s.cancelled);
      assert t in s.grants + s.q.waiters;
    }
  }

  lemma NextKeeps(s: System, e: Event)
    requires Invariant(s) && Enabled(s, e)
    ensures Invariant(Next(s, e))
  {
    match e {
      case Acquire(t) => AcquireKeeps(s, t);
      case Retransmit =>
      case Notice(t) =>
      case Cancel(t) => CancelKeeps(s, t);
      case Finish(t) => ReleasedKeeps(s.(holding := s.holding - {t}));
      case FinishResent => ReleasedKeeps(s.(resent := s.resent - 1));
    }
  }

  // ---- Results over every run ----

  /** In every reachable state the slots held are the initial quota less the counter, nobody waits
      while a slot is free, and the uncancelled calls have been granted, and will be, in order of
      arrival. */
  lemma {:induction false} RunKeeps(s: System, events: seq<Event>)
    requires Invariant(s) && Legal(s, events)
    ensures Invariant(Run(s, events))
    decreases |events|
  {
    if events != [] {
      NextKeeps(s, events[0]);
      RunKeeps(Next(s, events[0]), events[1..]);
    }
  }

  lemma Reachable(initial: nat, events: seq<Event>)
    requires Legal(Start(initial), events)
    ensures Invariant(Run(Start(initial), events))
  {
    RunKeeps(Start(initial), events);
  }

  /** A publisher that is granted a slot, at once or by hand-over, makes at most the receive maximum
      held. Only retransmission can exceed it. */
  lemma GrantWithinQuota(s: System, e: Event)
    requires Invariant(s) && Enabled(s, e) && |Next(s, e).grants| > |s.grants|
    ensures Holders(Next(s, e)) <= s.q.initial
  {
    match e {
      case Acquire(t) => AcquireKeeps(s, t);
      case Finish(t) => ReleasedKeeps(s.(holding := s.holding - {t}));
      case FinishResent => ReleasedKeeps(s.(resent := s.resent - 1));
      case _ =>
    }
  }

  /** A matched release is never reported as unexpected. */
  lemma ReleaseExpected(s: System)
    requires Invariant(s) && Holders(s) > 0
    ensures !GiveBack(s.q).1.Unexpected?
  {}

  /** A cancellation that races a hand-over neither loses nor duplicates a slot. A caller whose
      channel was already closed keeps its slot; one still waiting leaves without one, and everyone
      else keeps their place. */
  lemma CancelRace(s: System, t: Ticket)
    requires Invariant(s) && Enabled(s, Cancel(t))
    ensures Holders(Next(s, Cancel(t))) == Holders(s)
    ensures t in s.ready <==> t in Next(s, Cancel(t)).holding
    ensures t in s.ready <==> Next(s, Cancel(t)).q.waiters == s.q.waiters
    ensures t !in Next(s, Cancel(t)).q.waiters && t !in Next(s, Cancel(t)).ready
    ensures Next(s, Cancel(t)).grants == s.grants
  {
    CancelKeeps(s, t);
    WaitersNotGranted(s);
    WaitersNotGranted(Next(s, Cancel(t)));
    if t !in s.ready {
      UncancelledMembers(Next(s, Cancel(t)).arrivals, Next(s, Cancel(t)).cancelled);
      var waiters := Next(s, Cancel(t)).q.waiters;
      assert forall x | x in waiters :: x in Next(s, Cancel(t)).grants + waiters;
    }
  }

  function GiveBackTimes(q: Quota, n: nat): Quota
    decreases n
  {
    if n == 0 then q else GiveBackTimes(GiveBack(q).0, n - 1)
  }

  /** No lost wake-up: with waiters queued, the releases that first cover the overdraft leave the
      queue alone, and the next one wakes its head. */
  lemma {:induction false} ReleasesWakeHead(q: Quota)
    requires q.waiters != [] && q.quota <= 0 <= q.initial
    ensures var r := GiveBackTimes(q, -q.quota); r == q.(quota := 0) && GiveBack(r).1 == Handed(q.waiters[0])
    decreases -q.quota
  {
    if q.quota < 0 {
      ReleasesWakeHead(GiveBack(q).0);
    }
  }
}
