/** The keep-alive of paho/pinger.go (section 3.1.2.10 of MQTT 5.0) as a timed state machine. Time is
    a whole number of nanoseconds, 0 the zero time of a field that was never set, and the timer is
    ideal: it fires at its deadline and is handled at once. */
module Pinger {
  import opened Basics

  const SECOND := 1_000_000_000

  datatype Fields = Fields(lastPacketSent: int, lastPacketReceived: int, lastPingResponse: int)

  datatype Phase =
    | Stopped
    | Running(interval: int, start: int, timer: int, lastPing: Option<int>)
    | TimedOut(run: Phase, fields: Fields, at: int)
    | WriteFailed

  /** The clock, the pinger, and the times at which the client transmitted something since the run
      started, PINGREQs included, with the start in front. */
  datatype World = World(now: int, fields: Fields, phase: Phase, times: seq<int>)

  datatype Event =
    | Advance(d: nat)             // time passes
    | PacketSent                  // something other than a PINGREQ is sent
    | PacketReceived              // anything is received
    | PingResp                    // it is a PINGRESP
    | StartRun(keepAlive: uint16)
    | TimerFires
    | Cancel                      // the context is done
    | PingNotWritten              // writing a PINGREQ returned an error

  function Start(now: nat): World {
    World(now, Fields(0, 0, 0), Stopped, [])
  }

  /** When nothing has been sent, or nothing received, for this long a PINGREQ is due. */
  function PingDue(f: Fields, interval: int): int {
    (if f.lastPacketSent < f.lastPacketReceived then f.lastPacketSent else f.lastPacketReceived) + interval
  }

  predicate Unanswered(lastPing: Option<int>, f: Fields) {
    lastPing.Some? && lastPing.value > f.lastPingResponse
  }

  /** The timer case of the loop in Run. */
  function Check(w: World): World
    requires w.phase.Running?
  {
    var p := w.phase;
    if Unanswered(p.lastPing, w.fields) then w.(phase := TimedOut(p, w.fields, w.now))
    else
      var due := PingDue(w.fields, p.interval);
      if w.now < due then w.(phase := p.(timer := due))
      else w.(phase := p.(lastPing := Some(w.now), timer := w.now + p.interval), times := w.times + [w.now])
  }

  /** Time does not pass a deadline before the timer has fired. An event that cannot happen changes
      nothing. */
  function Next(w: World, e: Event): World {
    match e
    case Advance(d) => if w.phase.Running? && w.now + d > w.phase.timer then w else w.(now := w.now + d)
    case PacketSent =>
      w.(fields := w.fields.(lastPacketSent := w.now),
         times := if w.phase.Running? then w.times + [w.now] else w.times)
    case PacketReceived => w.(fields := w.fields.(lastPacketReceived := w.now))
    case PingResp => w.(fields := w.fields.(lastPingResponse := w.now))
    case StartRun(k) =>
      if w.phase.Running? || k == 0 then w
      else w.(phase := Running(k * SECOND, w.now, w.now, None), times := [w.now])
    case TimerFires => if w.phase.Running? && w.now == w.phase.timer then Check(w) else w
    case Cancel => if w.phase.Running? then w.(phase := Stopped) else w
    case PingNotWritten => if w.phase.Running? && w.phase.lastPing.Some? then w.(phase := WriteFailed) else w
  }

  function RunAll(w: World, events: seq<Event>): World {
    if events == [] then w else Next(RunAll(w, events[..|events| - 1]), events[|events| - 1])
  }

  // ---- Invariants ----

  /** The last sign of life of the server, or the start of the run. */
  function Heard(f: Fields, start: int): int {
    var h := if f.lastPacketReceived > f.lastPingResponse then f.lastPacketReceived else f.lastPingResponse;
    if h > start then h else start
  }

  predicate Past(f: Fields, now: int) {
    f.lastPacketSent <= now && f.lastPacketReceived <= now && f.lastPingResponse <= now
  }

  ghost predicate GapsWithin(times: seq<int>, interval: int) {
    forall i | 0 <= i < |times| - 1 :: times[i] <= times[i + 1] <= times[i] + interval
  }

  /** The timer is never set beyond one interval after the last transmission. */
  ghost predicate Transmitting(w: World)
    requires w.phase.Running?
  {
    var p := w.phase;
    && |w.times| > 0 && w.times[0] == p.start
    && GapsWithin(w.times, p.interval)
    && var last := w.times[|w.times| - 1];
       && w.fields.lastPacketSent <= last <= w.now <= p.timer <= last + p.interval
       && (p.lastPing.Some? ==> p.lastPing.value <= last)
  }

  /** While a PINGREQ is unanswered the timer is one interval after it; otherwise it is never set beyond
      one interval after the server was last heard. */
  predicate Listening(w: World)
    requires w.phase.Running?
  {
    var p, heard := w.phase, Heard(w.fields, w.phase.start);
    && 0 < p.interval <= 65535 * SECOND
    && (p.lastPing.Some? ==> p.start <= p.lastPing.value)
    && if Unanswered(p.lastPing, w.fields) then
         p.timer == p.lastPing.value + p.interval && p.lastPing.value <= heard + p.interval
       else p.timer <= heard + p.interval
  }

  ghost predicate Invariant(w: World) {
    && Past(w.fields, w.now)
    && match w.phase
       case Running(_, start, _, _) => start <= w.now && Transmitting(w) && Listening(w)
       case TimedOut(p, fields, at) =>
         && p.Running? && Unanswered(p.lastPing, fields)
         && p.start <= p.lastPing.value
         && at == p.lastPing.value + p.interval <= Heard(fields, p.start) + 2 * p.interval
       case _ => true
  }

  lemma Append(times: seq<int>, t: int, interval: int)
    requires times != [] && GapsWithin(times, interval)
    requires times[|times| - 1] <= t <= times[|times| - 1] + interval
    ensures GapsWithin(times + [t], interval)
  {
    var more := times + [t];
    forall i | 0 <= i < |more| - 1
      ensures more[i] <= more[i + 1] <= more[i] + interval
    {
      assert i < |times| - 1 ==> times[i] <= times[i + 1] <= times[i] + interval;
    }
  }

  lemma CheckKeeps(w: World)
    requires Invariant(w) && w.phase.Running? && w.now == w.phase.timer
    ensures Invariant(Check(w))
  {
    hide GapsWithin;
    Append(w.times, w.now, w.phase.interval);
  }

  lemma RunningKeeps(w: World, e: Event)
    requires Invariant(w) && w.phase.Running? && !e.TimerFires?
    ensures Invariant(Next(w, e))
  {
    hide GapsWithin;
    Append(w.times, w.now, w.phase.interval);
  }

  lemma NextKeeps(w: World, e: Event)
    requires Invariant(w)
    ensures Invariant(Next(w, e))
  {
    if w.phase.Running? {
      if e.TimerFires? {
        if w.now == w.phase.timer {
          CheckKeeps(w);
        }
      } else {
        RunningKeeps(w, e);
      }
    }
  }

  lemma {:induction false} RunKeeps(w: World, events: seq<Event>)
    requires Invariant(w)
    ensures Invariant(RunAll(w, events))
    decreases |events|
  {
    if events != [] {
      RunKeeps(w, events[..|events| - 1]);
      NextKeeps(RunAll(w, events[..|events| - 1]), events[|events| - 1]);
    }
  }

  // ---- What the keep-alive promises ----

  /** While the pinger runs, no more than the keep-alive interval passes between its start and the client's
      first transmission, between any two consecutive ones, and from the last until now. */
  lemma KeepsTransmitting(now: nat, events: seq<Event>)
    requires RunAll(Start(now), events).phase.Running?
    ensures var w := RunAll(Start(now), events);
      && w.times != [] && w.times[0] == w.phase.start
      && (forall i | 0 <= i < |w.times| - 1 :: w.times[i + 1] <= w.times[i] + w.phase.interval)
      && w.now <= w.times[|w.times| - 1] + w.phase.interval
  {
    RunKeeps(Start(now), events);
  }

  /** A pinger still runs only within two intervals of the last packet from the server or its own start,
      so it has returned by then; and it reports a timeout no later. */
  lemma NoticesSilence(now: nat, events: seq<Event>)
    ensures var w := RunAll(Start(now), events);
      && (w.phase.Running? ==> w.now <= Heard(w.fields, w.phase.start) + 2 * w.phase.interval)
      && (w.phase.TimedOut? ==>
            var p := w.phase.run;
            p.Running? && w.phase.at <= Heard(w.phase.fields, p.start) + 2 * p.interval)
  {
    RunKeeps(Start(now), events);
  }

  /** A timeout means that a PINGREQ of this run was sent one interval earlier and no PINGRESP has come
      since. */
  lemma TimesOutOnlyUnanswered(now: nat, events: seq<Event>)
    requires RunAll(Start(now), events).phase.TimedOut?
    ensures var t := RunAll(Start(now), events).phase;
      && t.run.Running? && t.run.lastPing.Some?
      && t.at == t.run.lastPing.value + t.run.interval
      && t.fields.lastPingResponse < t.run.lastPing.value
  {
    RunKeeps(Start(now), events);
  }

  // ---- Timeouts in terms of what happened ----

  /** The world before event k. */
  function At(now: nat, events: seq<Event>, k: nat): World
    requires k <= |events|
  {
    RunAll(Start(now), events[..k])
  }

  lemma AtNext(now: nat, events: seq<Event>, k: nat)
    requires k < |events|
    ensures At(now, events, k + 1) == Next(At(now, events, k), events[k])
    ensures Invariant(At(now, events, k))
  {
    assert events[..k + 1][..k] == events[..k];
    RunKeeps(Start(now), events[..k]);
  }

  lemma StartsStopped(now: nat, events: seq<Event>)
    ensures At(now, events, 0) == Start(now)
  {
    assert events[..0] == [];
  }

  /** At event j the timer of a running pinger fires. */
  predicate Fires(now: nat, events: seq<Event>, j: nat) {
    j < |events| && events[j].TimerFires? &&
    var v := At(now, events, j);
    v.phase.Running? && v.now == v.phase.timer
  }

  /** Event i sends a PINGREQ. */
  predicate Pings(now: nat, events: seq<Event>, i: nat) {
    Fires(now, events, i) && |At(now, events, i + 1).times| > |At(now, events, i).times|
  }

  /** The pinger runs on from event i to j, and its timer does not fire in between. */
  ghost predicate Undisturbed(now: nat, events: seq<Event>, i: nat, j: nat) {
    && i < j <= |events|
    && (forall k | i < k <= j :: At(now, events, k).phase.Running?)
    && (forall k | i < k < j :: !Fires(now, events, k))
  }

  /** Event j is the first time the timer fires after the PINGREQ of event i. */
  ghost predicate ChecksPing(now: nat, events: seq<Event>, i: nat, j: nat) {
    Pings(now, events, i) && Undisturbed(now, events, i, j) && Fires(now, events, j)
  }

  /** What the pinger is told of. */
  datatype News = Sending | Receiving | Responding

  predicate Brings(e: Event, n: News) {
    match n
    case Sending => e.PacketSent?
    case Receiving => e.PacketReceived?
    case Responding => e.PingResp?
  }

  function Latest(f: Fields, n: News): int {
    match n
    case Sending => f.lastPacketSent
    case Receiving => f.lastPacketReceived
    case Responding => f.lastPingResponse
  }

  /** Event k brings the news, before event j and not before the time t. */
  predicate HappensAt(now: nat, events: seq<Event>, n: News, t: int, j: nat, k: nat) {
    k < j <= |events| && Brings(events[k], n) && t <= At(now, events, k).now
  }

  ghost predicate HappenedSince(now: nat, events: seq<Event>, n: News, t: int, j: nat) {
    exists k: nat :: HappensAt(now, events, n, t, j, k)
  }

  lemma {:induction false} TimeGoesOn(now: nat, events: seq<Event>, i: nat, j: nat)
    requires i <= j <= |events|
    ensures At(now, events, i).now <= At(now, events, j).now
    decreases j
  {
    if i < j {
      AtNext(now, events, j - 1);
      TimeGoesOn(now, events, i, j - 1);
    }
  }

  /** What is recorded is the latest of each. */
  lemma {:induction false} LatestRecorded(now: nat, events: seq<Event>, n: News, t: int, j: nat)
    requires 0 < t && j <= |events|
    ensures t <= Latest(At(now, events, j).fields, n) <==> HappenedSince(now, events, n, t, j)
    decreases j
  {
    hide HappenedSince, GapsWithin;
    if j == 0 {
      assert events[..0] == [];
      NothingBefore(now, events, n, t);
    } else {
      AtNext(now, events, j - 1);
      LatestRecorded(now, events, n, t, j - 1);
      HappenedStep(now, events, n, t, j);
      LatestPast(now, events, n, j - 1);
    }
  }

  lemma NothingBefore(now: nat, events: seq<Event>, n: News, t: int)
    ensures !HappenedSince(now, events, n, t, 0)
  {}

  lemma LatestPast(now: nat, events: seq<Event>, n: News, j: nat)
    requires j < |events|
    ensures Latest(At(now, events, j).fields, n) <= At(now, events, j).now
  {
    AtNext(now, events, j);
  }

  lemma HappenedStep(now: nat, events: seq<Event>, n: News, t: int, j: nat)
    requires 0 < j <= |events|
    ensures HappenedSince(now, events, n, t, j) <==>
      HappenedSince(now, events, n, t, j - 1) || (Brings(events[j - 1], n) && t <= At(now, events, j - 1).now)
  {
    hide At;
    if HappenedSince(now, events, n, t, j - 1) {
      var k: nat :| HappensAt(now, events, n, t, j - 1, k);
      assert HappensAt(now, events, n, t, j, k);
    }
    if Brings(events[j - 1], n) && t <= At(now, events, j - 1).now {
      assert HappensAt(now, events, n, t, j, j - 1);
    }
    if HappenedSince(now, events, n, t, j) {
      var k: nat :| HappensAt(now, events, n, t, j, k);
      assert k < j - 1 ==> HappensAt(now, events, n, t, j - 1, k);
    }
  }

  /** Until the timer fires again a running pinger remembers when its PINGREQ was sent. */
  lemma {:induction false} PingRemembered(now: nat, events: seq<Event>, i: nat, j: nat)
    requires Pings(now, events, i) && Undisturbed(now, events, i, j)
    ensures At(now, events, j).phase.Running? && At(now, events, j).phase.lastPing == Some(At(now, events, i).now)
    decreases j
  {
    hide GapsWithin, RunAll, Heard;
    AtNext(now, events, j - 1);
    if j == i + 1 {
      assert At(now, events, j).phase.Running?;
    } else {
      assert Undisturbed(now, events, i, j - 1);
      PingRemembered(now, events, i, j - 1);
      assert !Fires(now, events, j - 1);
    }
  }

  /** A PINGREQ that a running pinger takes for unanswered was sent, and not checked since. */
  lemma {:induction false} PingFound(now: nat, events: seq<Event>, j: nat) returns (i: nat)
    requires j <= |events| && At(now, events, j).phase.Running?
    requires Unanswered(At(now, events, j).phase.lastPing, At(now, events, j).fields)
    ensures Pings(now, events, i) && Undisturbed(now, events, i, j)
    decreases j
  {
    hide GapsWithin, RunAll, Heard;
    StartsStopped(now, events);
    var u := At(now, events, j - 1);
    AtNext(now, events, j - 1);
    if Fires(now, events, j - 1) {
      i := j - 1;
    } else {
      assert u.phase.Running? && Unanswered(u.phase.lastPing, u.fields);
      i := PingFound(now, events, j - 1);
    }
  }

  /** The pinger gives up on a PINGREQ at event j. */
  predicate TimesOutAt(now: nat, events: seq<Event>, j: nat) {
    j < |events| && At(now, events, j).phase.Running? && At(now, events, j + 1).phase.TimedOut?
  }

  /** It gives up exactly when the timer fires for the first time after a PINGREQ and no PINGRESP has been
      handled since that was sent. */
  lemma TimesOutExactly(now: nat, events: seq<Event>, j: nat)
    requires 0 < now
    ensures TimesOutAt(now, events, j) <==>
      exists i: nat :: ChecksPing(now, events, i, j)
                    && !HappenedSince(now, events, Responding, At(now, events, i).now, j)
  {
    if TimesOutAt(now, events, j) {
      AtNext(now, events, j);
      var i := PingFound(now, events, j);
      PingRemembered(now, events, i, j);
      PingResponses(now, events, i, j);
      assert ChecksPing(now, events, i, j);
    }
    if i: nat :| ChecksPing(now, events, i, j) && !HappenedSince(now, events, Responding, At(now, events, i).now, j) {
      AtNext(now, events, j);
      PingRemembered(now, events, i, j);
      PingResponses(now, events, i, j);
    }
  }

  lemma PingResponses(now: nat, events: seq<Event>, i: nat, j: nat)
    requires 0 < now && i <= |events| && j <= |events|
    ensures At(now, events, i).now <= At(now, events, j).fields.lastPingResponse
       <==> HappenedSince(now, events, Responding, At(now, events, i).now, j)
  {
    TimeGoesOn(now, events, 0, i);
    assert events[..0] == [];
    LatestRecorded(now, events, Responding, At(now, events, i).now, j);
  }

  /** Every PINGREQ is followed by a PINGRESP before the timer fires again. */
  ghost predicate AlwaysAnswered(now: nat, events: seq<Event>) {
    forall i: nat, j: nat | ChecksPing(now, events, i, j) :: exists k: nat :: i < k < j && events[k].PingResp?
  }

  /** Against a server that always answers in time the pinger never times out, over every run. */
  lemma NeverTimesOut(now: nat, events: seq<Event>, n: nat)
    requires 0 < now && n <= |events| && AlwaysAnswered(now, events)
    ensures !At(now, events, n).phase.TimedOut?
  {
    if At(now, events, n).phase.TimedOut? {
      var j := TimeoutFound(now, events, n);
      TimesOutExactly(now, events, j);
      var i: nat :| ChecksPing(now, events, i, j) && !HappenedSince(now, events, Responding, At(now, events, i).now, j);
      var k: nat :| i < k < j && events[k].PingResp?;
      TimeGoesOn(now, events, i, k);
      assert HappensAt(now, events, Responding, At(now, events, i).now, j, k);
    }
  }

  lemma {:induction false} TimeoutFound(now: nat, events: seq<Event>, n: nat) returns (j: nat)
    requires n <= |events| && At(now, events, n).phase.TimedOut?
    ensures j < n && TimesOutAt(now, events, j)
    decreases n
  {
    assert events[..0] == [];
    AtNext(now, events, n - 1);
    if At(now, events, n - 1).phase.TimedOut? {
      j := TimeoutFound(now, events, n - 1);
    } else {
      j := n - 1;
    }
  }

  /** When its timer fires and it does not give up, the pinger sends a PINGREQ exactly when the client has sent
      nothing, or received nothing, during the last interval. The clock starts more than the longest interval after
      the zero time. */
  lemma PingsExactly(now: nat, events: seq<Event>, i: nat)
    requires now > 65535 * SECOND && Fires(now, events, i) && !TimesOutAt(now, events, i)
    ensures var v := At(now, events, i);
      var t := v.now - v.phase.interval + 1;
      Pings(now, events, i) <==>
        !HappenedSince(now, events, Sending, t, i) || !HappenedSince(now, events, Receiving, t, i)
  {
    hide GapsWithin, RunAll, HappenedSince;
    var v := At(now, events, i);
    var t := v.now - v.phase.interval + 1;
    AtNext(now, events, i);
    TimeGoesOn(now, events, 0, i);
    StartsStopped(now, events);
    LatestRecorded(now, events, Sending, t, i);
    LatestRecorded(now, events, Receiving, t, i);
  }

  /** A pinger stops running exactly when its context is done, a PINGREQ could not be written, or its timer fires on
      an unanswered one. */
  lemma EndsExactly(w: World, e: Event)
    requires w.phase.Running?
    ensures var v := Next(w, e);
      && (v.phase.Stopped? <==> e.Cancel?)
      && (v.phase.WriteFailed? <==> e.PingNotWritten? && w.phase.lastPing.Some?)
      && (v.phase.TimedOut? <==>
            && e.TimerFires? && w.now == w.phase.timer
            && w.phase.lastPing.Some? && w.fields.lastPingResponse < w.phase.lastPing.value)
  {}

  /** A run starts with a timer that fires at once, and with keep-alive 0 there is none. */
  lemma StartsAtOnce(w: World, keepAlive: uint16)
    requires !w.phase.Running?
    ensures var v := Next(w, StartRun(keepAlive));
      if keepAlive == 0 then v == w
      else v.phase.Running? && v.phase.timer == v.phase.start == w.now && v.phase.lastPing.None? && v.times == [w.now]
  {}

  /** A pinger that runs was started some time ago, and its interval is that many seconds. */
  lemma {:induction false} RunningSince(now: nat, events: seq<Event>, j: nat) returns (i: nat, keepAlive: uint16)
    requires j <= |events| && At(now, events, j).phase.Running?
    ensures i < j && events[i] == StartRun(keepAlive) && keepAlive > 0
    ensures At(now, events, j).phase.start == At(now, events, i).now
    ensures At(now, events, j).phase.interval == keepAlive * 1_000_000_000
    decreases j
  {
    hide GapsWithin, RunAll, Heard;
    StartsStopped(now, events);
    AtNext(now, events, j - 1);
    if At(now, events, j - 1).phase.Running? {
      i, keepAlive := RunningSince(now, events, j - 1);
    } else {
      i, keepAlive := j - 1, events[j - 1].keepAlive;
    }
  }

  // ---- The object ----

  datatype Result = Pending | Returned | Failed | Disconnected | AlreadyRunning

  class DefaultPinger {
    var lastPacketSent: int
    var lastPacketReceived: int
    var lastPingResponse: int
    var running: bool

    ghost function View(): Fields
      reads this
    {
      Fields(lastPacketSent, lastPacketReceived, lastPingResponse)
    }

    constructor ()
      ensures View() == Fields(0, 0, 0) && !running
    {
      lastPacketSent, lastPacketReceived, lastPingResponse, running := 0, 0, 0, false;
    }

    method Sent(now: int)
      modifies this
      ensures View() == old(View()).(lastPacketSent := now) && running == old(running)
    {
      lastPacketSent := now;
    }

    method Received(now: int)
      modifies this
      ensures View() == old(View()).(lastPacketReceived := now) && running == old(running)
    {
      lastPacketReceived := now;
    }

    method Response(now: int)
      modifies this
      ensures View() == old(View()).(lastPingResponse := now) && running == old(running)
    {
      lastPingResponse := now;
    }

    /** Run, with everything that happens meanwhile given as a list of events. It handles the first n of
        them, and has not returned if the list ends before it does. */
    method Run(keepAlive: uint16, connected: bool, clock: int, events: seq<Event>)
      returns (result: Result, ghost n: nat, ghost w: World)
      modifies this
      ensures n <= |events|
      ensures keepAlive == 0 ==> result.Returned?
      ensures keepAlive > 0 ==> (result.Disconnected? <==> !connected)
      ensures keepAlive > 0 && connected ==> (result.AlreadyRunning? <==> old(running))
      ensures keepAlive > 0 && connected && !old(running) ==>
        && w == RunAll(Next(World(clock, old(View()), Stopped, []), StartRun(keepAlive)), events[..n])
        && w.fields == View()
        && running == w.phase.Running?
        && (result.Pending? <==> w.phase.Running?)
        && (result.Pending? ==> n == |events|)
        && (result.Failed? <==> w.phase.TimedOut? || w.phase.WriteFailed?)
    {
      n, w := 0, World(clock, View(), Stopped, []);
      if keepAlive == 0 {
        return Returned, n, w;
      }
      if !connected {
        return Disconnected, n, w;
      }
      if running {
        return AlreadyRunning, n, w;
      }
      running := true;
      var now := clock;
      var interval := keepAlive * SECOND;
      var timer := now;
      var lastPingSent: Option<int> := None;
      w := Next(w, StartRun(keepAlive));
      ghost var start := w;
      var i := 0;
      while i < |events|
        invariant 0 <= i <= |events| && n == i && running
        invariant w == RunAll(start, events[..i])
        invariant w.fields == View() && w.now == now
        invariant w.phase == Running(interval, clock, timer, lastPingSent)
      {
        assert events[..i + 1][..i] == events[..i];
        w := Next(w, events[i]);
        n := i + 1;
        match events[i] {
          case Advance(d) =>
            if now + d <= timer {
              now := now + d;
            }
          case PacketSent => Sent(now);
          case PacketReceived => Received(now);
          case PingResp => Response(now);
          case StartRun(_) =>
          case Cancel =>
            running := false;
            return Returned, n, w;
          case PingNotWritten =>
            if lastPingSent.Some? {
              running := false;
              return Failed, n, w;
            }
          case TimerFires =>
            if now == timer {
              var pingDue;
              if lastPacketSent < lastPacketReceived {
                pingDue := lastPacketSent + interval;
              } else {
                pingDue := lastPacketReceived + interval;
              }
              if lastPingSent.Some? && lastPingSent.value > lastPingResponse {
                running := false;
                return Failed, n, w;
              }
              if now < pingDue {
                timer := now + (pingDue - now);
              } else {
                lastPingSent := Some(now);
                timer := now + interval;
              }
            }
        }
        i := i + 1;
      }
      assert events[..i] == events;
      return Pending, n, w;
    }
  }
}
