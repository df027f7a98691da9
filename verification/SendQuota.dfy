/** The send quota of paho/session/state/sendquota.go (section 4.9 of MQTT 5.0): a signed counter of
    free slots with a queue of waiters. A ticket stands for one call of acquire and the channel it
    waits on. */
module SendQuota {
  import opened Basics

  type Ticket = nat

  datatype Quota = Quota(initial: int, quota: int, waiters: seq<Ticket>)

  function New(quota: uint16): Quota {
    Quota(quota, quota, [])
  }

  datatype Outcome = Handed(to: Ticket) | Returned | Unexpected

  predicate Free(q: Quota) {
    q.quota > 0 && q.waiters == []
  }

  /** The first half of acquire: take a slot now, or join the queue. */
  function Enter(q: Quota, t: Ticket, noWait: bool): Quota {
    if noWait || Free(q) then q.(quota := q.quota - 1) else q.(waiters := q.waiters + [t])
  }

  /** Hand the slot to the first waiter, or return it to the pool. */
  function GiveBack(q: Quota): (Quota, Outcome) {
    if q.quota >= 0 && q.waiters != [] then (q.(waiters := q.waiters[1..]), Handed(q.waiters[0]))
    else if q.quota < q.initial then (q.(quota := q.quota + 1), Returned)
    else (q, Unexpected)
  }

  function Remove(ts: seq<Ticket>, t: Ticket): seq<Ticket> {
    if ts == [] then []
    else if ts[0] == t then ts[1..]
    else [ts[0]] + Remove(ts[1..], t)
  }

  lemma {:induction false} RemoveAt(ts: seq<Ticket>, t: Ticket, i: nat)
    requires i <= |ts| && (i < |ts| ==> ts[i] == t) && forall k | 0 <= k < i :: ts[k] != t
    ensures Remove(ts, t) == if i < |ts| then ts[..i] + ts[i + 1..] else ts
    decreases |ts|
  {
    if i > 0 {
      RemoveAt(ts[1..], t, i - 1);
      assert ts == [ts[0]] + ts[1..];
      if i < |ts| {
        RemoveShift(ts, i);
      }
    }
  }

  lemma RemoveShift(ts: seq<Ticket>, i: nat)
    requires 0 < i < |ts|
    ensures [ts[0]] + (ts[1..][..i - 1] + ts[1..][i..]) == ts[..i] + ts[i + 1..]
  {}

  /** A waiter whose context is done leaves the queue. */
  function Leave(q: Quota, t: Ticket): Quota {
    q.(waiters := Remove(q.waiters, t))
  }

  /** Slots in use. */
  function Held(q: Quota): int {
    q.initial - q.quota
  }

  // ---- The object ----

  class SendQuota {
    const initialQuota: int
    var quota: int
    var waiters: seq<Ticket>
    /** The channels that have been closed to signal their waiters. */
    var closed: set<Ticket>

    ghost function View(): Quota
      reads this
    {
      Quota(initialQuota, quota, waiters)
    }

    constructor (quota: uint16)
      ensures View() == New(quota) && closed == {}
    {
      initialQuota := quota;
      this.quota, waiters, closed := quota, [], {};
    }

    method Acquire(t: Ticket, noWait: bool) returns (granted: bool)
      modifies this
      ensures View() == Enter(old(View()), t, noWait) && closed == old(closed)
      ensures granted == (noWait || Free(old(View())))
    {
      if noWait || (quota > 0 && |waiters| == 0) {
        quota := quota - 1;
        return true;
      }
      waiters := waiters + [t];
      return false;
    }

    /** The branch of acquire taken when the context is done. A channel closed in the meantime means
        the slot is ours after all; otherwise the waiter takes itself off the queue. */
    method Cancelled(t: Ticket) returns (failed: bool)
      modifies this
      ensures closed == old(closed) && failed == (t !in closed)
      ensures View() == if failed then Leave(old(View()), t) else old(View())
    {
      if t in closed {
        return false;
      }
      var i := 0;
      while i < |waiters| && waiters[i] != t
        invariant 0 <= i <= |waiters|
        invariant waiters == old(waiters) && closed == old(closed)
        invariant forall k | 0 <= k < i :: waiters[k] != t
      {
        i := i + 1;
      }
      RemoveAt(waiters, t, i);
      if i < |waiters| {
        waiters := waiters[..i] + waiters[i + 1..];
      }
      return true;
    }

    method Release() returns (outcome: Outcome)
      modifies this
      ensures (View(), outcome) == GiveBack(old(View()))
      ensures closed == if outcome.Handed? then old(closed) + {outcome.to} else old(closed)
    {
      if quota >= 0 && |waiters| > 0 {
        outcome := Handed(waiters[0]);
        closed := closed + {waiters[0]};
        waiters := waiters[1..];
      } else if quota < initialQuota {
        quota := quota + 1;
        outcome := Returned;
      } else {
        outcome := Unexpected;
      }
    }
  }
}
