/** That the threads get done: a round takes boundedly many steps, a stop winds the threads down, and no
    insert gets stuck between them. How steps are scheduled is left open; the bounds are on their number. */
module Liveness {
  import opened Words
  import O = Ownership
  import R = Rounds

  /** The number of positions from `a` up to `b` at which `q` holds. */
  function CountFrom(q: nat -> bool, a: nat, b: nat): nat
    requires a <= b
  {
    if a == b then 0 else CountFrom(q, a, b - 1) + if q(b - 1) then 1 else 0
  }

  /** What never grows and shrinks at each of these positions bounds their number. */
  lemma {:induction false} Descends(w: nat -> nat, q: nat -> bool, a: nat, b: nat)
    requires a <= b && forall k: nat :: a <= k < b ==> w(k + 1) + (if q(k) then 1 else 0) <= w(k)
    ensures CountFrom(q, a, b) + w(b) <= w(a)
    decreases b - a
  {
    if a == b {
    } else {
      Descends(w, q, a, b - 1);
    }
  }

  // A round.

  /** How many steps a poller may take before it waits or leaves, unless it is handed another host. */
  function Ahead(p: R.Poller): nat {
    match p
    case Blocked(_) => 0
    case Exited(_) => 0
    case AtInactive(_) => 1
    case Head(_) => 2
    case Fetching(_) => 3
    case Testing(_) => 4
    case Holding(_, _) => 5
    case Activating(_) => 5
    case Woken(_) => 6
  }

  /** How many steps a poller may take before it leaves, once a stop is requested; a wake-up counts. */
  function BeforeExit(p: R.Poller): nat {
    match p
    case Exited(_) => 0
    case Head(_) => 1
    case Woken(_) => 1
    case Blocked(_) => 2
    case Testing(_) => 2
    case AtInactive(_) => 3
    case Activating(_) => 3
    case Holding(_, _) => 3
    case Fetching(_) => 4
  }

  function SumOver(pollers: seq<R.Poller>, f: R.Poller -> nat, n: nat): nat
    requires n <= |pollers|
  {
    if n == 0 then 0 else SumOver(pollers, f, n - 1) + f(pollers[n - 1])
  }

  lemma {:induction false} SumOne(pollers: seq<R.Poller>, i: nat, p: R.Poller, f: R.Poller -> nat, n: nat)
    requires i < |pollers| && n <= |pollers|
    ensures SumOver(pollers[i := p], f, n) == SumOver(pollers, f, n) + if i < n then f(p) - f(pollers[i]) else 0
  {
    if n == 0 {
    } else {
      SumOne(pollers, i, p, f, n - 1);
    }
  }

  lemma {:induction false} SumAtMost(a: seq<R.Poller>, b: seq<R.Poller>, f: R.Poller -> nat, n: nat)
    requires n <= |a| == |b| && forall i :: 0 <= i < |a| ==> f(a[i]) <= f(b[i])
    ensures SumOver(a, f, n) <= SumOver(b, f, n)
  {
    if n == 0 {
    } else {
      SumAtMost(a, b, f, n - 1);
    }
  }

  lemma {:induction false} SumBelow(a: seq<R.Poller>, f: R.Poller -> nat, most: nat, n: nat)
    requires n <= |a| && forall i :: 0 <= i < |a| ==> f(a[i]) <= most
    ensures SumOver(a, f, n) <= most * n
  {
    if n == 0 {
    } else {
      SumBelow(a, f, most, n - 1);
      assert most * n == most * (n - 1) + most;
    }
  }

  /** What is left of a round: three steps for each host still to be handed out, and what each poller has
      ahead of it. */
  function RoundWork(s: R.State, nhosts: nat): nat
    requires s.next <= nhosts
  {
    3 * (nhosts - s.next) + SumOver(s.pollers, Ahead, |s.pollers|)
  }

  lemma PollerWorks(s: R.State, i: nat, nhosts: nat)
    requires s.next <= nhosts && R.Enabled(s, R.PollerStep(i))
    ensures var s' := R.Do(s, R.PollerStep(i), nhosts);
            s'.next <= nhosts && RoundWork(s', nhosts) < RoundWork(s, nhosts)
  {
    SumOne(s.pollers, i, R.Move(s.pollers[i], s.stop, s.next, nhosts), Ahead, |s.pollers|);
  }

  lemma {:induction false} CursorStays(trace: seq<R.State>, steps: seq<R.Step>, n: nat, nhosts: nat, k: nat)
    requires R.IsHastyRun(trace, steps, n, nhosts) && k < |trace|
    ensures trace[k].next <= nhosts && |trace[k].pollers| == n
  {
    if k == 0 {
    } else {
      CursorStays(trace, steps, n, nhosts, k - 1);
      assert R.Enabled(trace[k - 1], steps[k - 1]) && trace[k] == R.Do(trace[k - 1], steps[k - 1], nhosts);
    }
  }

  /** Steps that wake pollers up. */
  predicate Wakes(s: R.State, step: R.Step) {
    step.StopBroadcast? || (step.MonitorStep? && s.monitor.Start?)
  }

  function ByPoller(steps: seq<R.Step>): nat -> bool {
    (k: nat) => k < |steps| && steps[k].PollerStep?
  }

  function RoundWorkAt(trace: seq<R.State>, nhosts: nat): nat -> nat {
    (k: nat) => if k < |trace| && trace[k].next <= nhosts then RoundWork(trace[k], nhosts) else 0
  }

  lemma RoundStepAt(trace: seq<R.State>, steps: seq<R.Step>, n: nat, nhosts: nat, k: nat)
    requires R.IsHastyRun(trace, steps, n, nhosts) && k < |steps| && !Wakes(trace[k], steps[k])
    ensures RoundWorkAt(trace, nhosts)(k + 1) + (if ByPoller(steps)(k) then 1 else 0) <= RoundWorkAt(trace, nhosts)(k)
  {
    CursorStays(trace, steps, n, nhosts, k);
    CursorStays(trace, steps, n, nhosts, k + 1);
    assert R.Enabled(trace[k], steps[k]) && trace[k + 1] == R.Do(trace[k], steps[k], nhosts);
    if steps[k].PollerStep? {
      PollerWorks(trace[k], steps[k].i, nhosts);
    }
  }

  lemma RoundWorkAtMost(s: R.State, nhosts: nat)
    requires s.next <= nhosts
    ensures RoundWork(s, nhosts) <= 3 * nhosts + 6 * |s.pollers|
  {
    SumBelow(s.pollers, Ahead, 6, |s.pollers|);
  }

  /** Between two wake-ups the pollers take at most as many steps as the round has work left; for `n`
      pollers that is never more than 3 for each host and 6 for each poller. */
  lemma RoundIsBounded(trace: seq<R.State>, steps: seq<R.Step>, n: nat, nhosts: nat, a: nat, b: nat)
    requires R.IsHastyRun(trace, steps, n, nhosts) && a <= b <= |steps|
    requires forall k :: a <= k < b ==> !Wakes(trace[k], steps[k])
    ensures trace[a].next <= nhosts && trace[b].next <= nhosts
    ensures CountFrom(ByPoller(steps), a, b) + RoundWork(trace[b], nhosts) <= RoundWork(trace[a], nhosts) <= 3 * nhosts + 6 * n
  {
    var w, q := RoundWorkAt(trace, nhosts), ByPoller(steps);
    forall k: nat | a <= k < b
      ensures w(k + 1) + (if q(k) then 1 else 0) <= w(k)
    {
      RoundStepAt(trace, steps, n, nhosts, k);
    }
    Descends(w, q, a, b);
    CursorStays(trace, steps, n, nhosts, a);
    CursorStays(trace, steps, n, nhosts, b);
    RoundWorkAtMost(trace[a], nhosts);
    assert w(a) == RoundWork(trace[a], nhosts) && w(b) == RoundWork(trace[b], nhosts);
  }

  // A stop.

  function MonitorSteps(m: R.Monitor): nat {
    match m
    case Gone => 0
    case TestStop => 1
    case CheckEnd => 2
    case Start => 3
    case CheckStart => 4
  }

  /** What is left to do before all threads have left. */
  function StopWork(s: R.State): nat {
    SumOver(s.pollers, BeforeExit, |s.pollers|) + MonitorSteps(s.monitor)
  }

  lemma WakingHelps(s: R.State)
    ensures var woken := R.WakeAll(s.pollers);
            SumOver(woken, BeforeExit, |woken|) <= SumOver(s.pollers, BeforeExit, |s.pollers|)
  {
    SumAtMost(R.WakeAll(s.pollers), s.pollers, BeforeExit, |s.pollers|);
  }

  /** After a stop every step of a poller or of the monitor leaves less to do, and no other step more. */
  lemma StopStep(s: R.State, step: R.Step, nhosts: nat)
    requires s.stop && R.Enabled(s, step)
    ensures var s' := R.Do(s, step, nhosts);
            s'.stop && StopWork(s') + (if step.PollerStep? || step.MonitorStep? then 1 else 0) <= StopWork(s)
  {
    match step {
      case PollerStep(i) =>
        var p := R.Move(s.pollers[i], true, s.next, nhosts);
        SumOne(s.pollers, i, p, BeforeExit, |s.pollers|);
        assert BeforeExit(p) < BeforeExit(s.pollers[i]);
      case _ => WakingHelps(s);
    }
  }

  function ByThread(steps: seq<R.Step>): nat -> bool {
    (k: nat) => k < |steps| && (steps[k].PollerStep? || steps[k].MonitorStep?)
  }

  function StopWorkAt(trace: seq<R.State>): nat -> nat {
    (k: nat) => if k < |trace| then StopWork(trace[k]) else 0
  }

  lemma {:induction false} StopStays(trace: seq<R.State>, steps: seq<R.Step>, n: nat, nhosts: nat, a: nat, k: nat)
    requires R.IsHastyRun(trace, steps, n, nhosts) && a <= k <= |steps| && trace[a].stop
    ensures trace[k].stop
    decreases k - a
  {
    if k == a {
    } else {
      StopStays(trace, steps, n, nhosts, a, k - 1);
      assert R.Enabled(trace[k - 1], steps[k - 1]) && trace[k] == R.Do(trace[k - 1], steps[k - 1], nhosts);
      StopStep(trace[k - 1], steps[k - 1], nhosts);
    }
  }

  lemma StopStepAt(trace: seq<R.State>, steps: seq<R.Step>, n: nat, nhosts: nat, k: nat)
    requires R.IsHastyRun(trace, steps, n, nhosts) && k < |steps| && trace[k].stop
    ensures StopWorkAt(trace)(k + 1) + (if ByThread(steps)(k) then 1 else 0) <= StopWorkAt(trace)(k)
  {
    assert R.Enabled(trace[k], steps[k]) && trace[k + 1] == R.Do(trace[k], steps[k], nhosts);
    StopStep(trace[k], steps[k], nhosts);
  }

  lemma StopWorkAtMost(s: R.State)
    ensures StopWork(s) <= 4 * (|s.pollers| + 1)
  {
    SumBelow(s.pollers, BeforeExit, 4, |s.pollers|);
  }

  /** After a stop the threads take at most 4 steps each, whatever else happens. */
  lemma StopIsBounded(trace: seq<R.State>, steps: seq<R.Step>, n: nat, nhosts: nat, a: nat, b: nat)
    requires R.IsHastyRun(trace, steps, n, nhosts) && a <= b <= |steps| && trace[a].stop
    ensures CountFrom(ByThread(steps), a, b) + StopWork(trace[b]) <= StopWork(trace[a]) <= 4 * (n + 1)
  {
    var w, q := StopWorkAt(trace), ByThread(steps);
    forall k: nat | a <= k < b
      ensures w(k + 1) + (if q(k) then 1 else 0) <= w(k)
    {
      StopStays(trace, steps, n, nhosts, a, k);
      StopStepAt(trace, steps, n, nhosts, k);
    }
    Descends(w, q, a, b);
    CursorStays(trace, steps, n, nhosts, a);
    StopWorkAtMost(trace[a]);
    assert w(a) == StopWork(trace[a]) && w(b) == StopWork(trace[b]);
  }

  /** When no thread can take a step after a stop, the monitor and every poller that was not waiting have
      left, and a broadcast leaves nobody waiting. */
  lemma StoppedThreadsLeave(s: R.State, nhosts: nat)
    requires s.stop
    requires forall step: R.Step :: (step.PollerStep? || step.MonitorStep?) ==> !R.Enabled(s, step)
    ensures s.monitor.Gone? && forall i :: 0 <= i < |s.pollers| ==> s.pollers[i].Blocked? || s.pollers[i].Exited?
    ensures R.Enabled(s, R.StopBroadcast)
    ensures var s' := R.Do(s, R.StopBroadcast, nhosts);
            |s'.pollers| == |s.pollers| && forall i :: 0 <= i < |s'.pollers| ==> !s'.pollers[i].Blocked?
  {
    assert !R.Enabled(s, R.MonitorStep(true));
    forall i | 0 <= i < |s.pollers|
      ensures s.pollers[i].Blocked? || s.pollers[i].Exited?
    {
      assert !R.Enabled(s, R.PollerStep(i));
    }
  }

  ghost predicate NobodyLeft(s: R.State) {
    !s.monitor.Gone? && forall i :: 0 <= i < |s.pollers| ==> !s.pollers[i].Exited?
  }

  lemma StepLeavesNobody(s: R.State, step: R.Step, nhosts: nat)
    requires R.Enabled(s, step) && (!s.stop ==> NobodyLeft(s))
    ensures var s' := R.Do(s, step, nhosts); !s'.stop ==> NobodyLeft(s')
  {
  }

  /** Nobody leaves unless a stop is requested. */
  lemma {:induction false} NobodyLeavesUnasked(trace: seq<R.State>, steps: seq<R.Step>, n: nat, nhosts: nat, k: nat)
    requires R.IsHastyRun(trace, steps, n, nhosts) && k < |trace|
    ensures !trace[k].stop ==>
              !trace[k].monitor.Gone? && forall i :: 0 <= i < |trace[k].pollers| ==> !trace[k].pollers[i].Exited?
  {
    if k == 0 {
    } else {
      NobodyLeavesUnasked(trace, steps, n, nhosts, k - 1);
      StepLeavesNobody(trace[k - 1], steps[k - 1], nhosts);
    }
  }

  /** A stop may be requested and broadcast at any time, and no thread needs another to move. */
  lemma AnyoneMayMove(s: R.State, nhosts: nat, i: nat, due: bool)
    ensures R.Allowed(s, R.SetStop) && R.Do(s, R.SetStop, nhosts).stop
    ensures R.Allowed(R.Do(s, R.SetStop, nhosts), R.StopBroadcast)
    ensures i < |s.pollers| && !s.pollers[i].Blocked? && !s.pollers[i].Exited? ==> R.Allowed(s, R.PollerStep(i))
    ensures !s.monitor.Gone? ==> R.Enabled(s, R.MonitorStep(due))
  {
  }

  // The monitor's decision.

  /** The monitor is about to start a round only because it last found the threads idle and the clock past
      the next start. */
  lemma {:induction false} StartsWhenIdleAndDue(trace: seq<R.State>, steps: seq<R.Step>, n: nat, nhosts: nat, k: nat)
    returns (j: nat)
    requires R.IsHastyRun(trace, steps, n, nhosts) && k < |trace| && trace[k].monitor.Start?
    ensures j < k && trace[j].monitor.CheckStart? && trace[j].active == 0 && steps[j] == R.MonitorStep(true)
    ensures forall i :: j < i < k ==> !steps[i].MonitorStep?
  {
    assert k > 0;
    assert R.Enabled(trace[k - 1], steps[k - 1]) && trace[k] == R.Do(trace[k - 1], steps[k - 1], nhosts);
    if steps[k - 1].MonitorStep? {
      j := k - 1;
    } else {
      j := StartsWhenIdleAndDue(trace, steps, n, nhosts, k - 1);
    }
  }

  /** And then it does: the cursor is reset and every waiting poller woken. */
  lemma IdleAndDueStarts(s: R.State, nhosts: nat)
    requires s.monitor.CheckStart? && s.active == 0
    ensures var s' := R.Do(s, R.MonitorStep(true), nhosts);
            && R.Enabled(s', R.MonitorStep(true))
            && var s'' := R.Do(s', R.MonitorStep(true), nhosts);
               && s''.next == 0 && s''.started && |s''.pollers| == |s.pollers|
               && forall i :: 0 <= i < |s.pollers| ==>
                    s''.pollers[i] == if s.pollers[i].Blocked? then R.Woken(s.pollers[i].iters) else s.pollers[i]
  {
  }

  // Inserts.

  function ProducerSteps(p: O.Producer): nat {
    if p.at <= |p.list| then 6 * (|p.list| - p.at) + (if p.space.None? then 1 else 0) else 0
  }

  function ConsumerSteps(c: O.Consumer): nat {
    match c
    case Idle => 1
    case SawUsed => 0
    case Hand(_) => 2
  }

  function ProducersSteps(producers: seq<O.Producer>, n: nat): nat
    requires n <= |producers|
  {
    if n == 0 then 0 else ProducersSteps(producers, n - 1) + ProducerSteps(producers[n - 1])
  }

  function ConsumersSteps(consumers: seq<O.Consumer>, n: nat): nat
    requires n <= |consumers|
  {
    if n == 0 then 0 else ConsumersSteps(consumers, n - 1) + ConsumerSteps(consumers[n - 1])
  }

  lemma {:induction false} ProducersOne(a: seq<O.Producer>, i: nat, p: O.Producer, n: nat)
    requires i < |a| && n <= |a|
    ensures ProducersSteps(a[i := p], n) == ProducersSteps(a, n) + if i < n then ProducerSteps(p) - ProducerSteps(a[i]) else 0
  {
    if n == 0 {
    } else {
      ProducersOne(a, i, p, n - 1);
    }
  }

  lemma {:induction false} ConsumersOne(a: seq<O.Consumer>, i: nat, c: O.Consumer, n: nat)
    requires i < |a| && n <= |a|
    ensures ConsumersSteps(a[i := c], n) == ConsumersSteps(a, n) + if i < n then ConsumerSteps(c) - ConsumerSteps(a[i]) else 0
  {
    if n == 0 {
    } else {
      ConsumersOne(a, i, c, n - 1);
    }
  }

  /** A bound on the steps before every insert has found its place. */
  function LeftToDo(s: O.State): nat {
    ProducersSteps(s.producers, |s.producers|) + 4 * |s.queue| + ConsumersSteps(s.consumers, |s.consumers|)
  }

  ghost predicate Going(s: O.State, step: O.Step, limits: O.Limits) {
    !step.Build? && O.Enabled(s, step) && LeftToDo(O.Do(s, step, limits)) < LeftToDo(s)
  }

  /** Some thread still has an insert to see to. */
  ghost predicate Unsettled(s: O.State) {
    || (exists p :: 0 <= p < |s.producers| && s.producers[p].at < |s.producers[p].list|)
    || s.queue != []
    || (exists c :: 0 <= c < |s.consumers| && s.consumers[c].Hand?)
  }

  lemma ProducerGoesOn(s: O.State, p: nat, limits: O.Limits) returns (step: O.Step)
    requires p < |s.producers| && s.producers[p].at < |s.producers[p].list|
    ensures Going(s, step, limits)
  {
    var producer := s.producers[p];
    if producer.space.None? {
      step := O.CheckFree(p);
      ProducersOne(s.producers, p, producer.(space := Some(|s.queue| < limits.capacity)), |s.producers|);
    } else {
      step := O.Send(p);
      ProducersOne(s.producers, p, O.Past(producer), |s.producers|);
    }
  }

  lemma ConsumerGoesOn(s: O.State, c: nat, limits: O.Limits) returns (step: O.Step)
    requires c < |s.consumers| && (s.consumers[c].Hand? || s.queue != [])
    ensures Going(s, step, limits)
  {
    match s.consumers[c] {
      case Idle =>
        step := O.CheckUsed(c);
        ConsumersOne(s.consumers, c, O.SawUsed, |s.consumers|);
      case SawUsed =>
        step := O.Take(c);
        ConsumersOne(s.consumers, c, O.Hand(s.queue[0]), |s.consumers|);
      case Hand(_) =>
        step := O.Finish(c, true);
        ConsumersOne(s.consumers, c, O.Idle, |s.consumers|);
    }
  }

  /** As long as an insert is in a list, the queue or a hand, and there is a database thread, some thread
      can take a step that brings the inserts closer to rest, whatever the capacity. */
  lemma SomeoneCanGoOn(s: O.State, limits: O.Limits) returns (step: O.Step)
    requires s.consumers != [] && Unsettled(s)
    ensures !step.Build? && O.Enabled(s, step) && LeftToDo(O.Do(s, step, limits)) < LeftToDo(s)
  {
    if p :| 0 <= p < |s.producers| && s.producers[p].at < |s.producers[p].list| {
      step := ProducerGoesOn(s, p, limits);
    } else if c :| 0 <= c < |s.consumers| && s.consumers[c].Hand? {
      step := ConsumerGoesOn(s, c, limits);
    } else {
      step := ConsumerGoesOn(s, 0, limits);
    }
  }

  /** Steps of pollers and database threads from this state on, none of which builds new inserts. */
  ghost predicate GoesOn(trace: seq<O.State>, steps: seq<O.Step>, limits: O.Limits) {
    && |trace| == |steps| + 1
    && forall k :: 0 <= k < |steps| ==>
         !steps[k].Build? && O.Enabled(trace[k], steps[k]) && trace[k + 1] == O.Do(trace[k], steps[k], limits)
  }

  lemma StepBefore(s: O.State, step: O.Step, trace: seq<O.State>, steps: seq<O.Step>, limits: O.Limits)
    requires GoesOn(trace, steps, limits) && !step.Build? && O.Enabled(s, step) && trace[0] == O.Do(s, step, limits)
    ensures GoesOn([s] + trace, [step] + steps, limits)
  {
    var trace', steps' := [s] + trace, [step] + steps;
    forall k | 0 <= k < |steps'|
      ensures !steps'[k].Build? && O.Enabled(trace'[k], steps'[k]) && trace'[k + 1] == O.Do(trace'[k], steps'[k], limits)
    {
      if k > 0 {
        assert trace'[k] == trace[k - 1] && trace'[k + 1] == trace[k] && steps'[k] == steps[k - 1];
      }
    }
  }

  lemma ThreadsStay(s: O.State, step: O.Step, limits: O.Limits)
    requires O.Enabled(s, step)
    ensures |O.Do(s, step, limits).consumers| == |s.consumers|
  {
  }

  /** From any state the threads can bring every insert to its place in so many steps. */
  lemma {:induction false} CanComeToRest(s: O.State, limits: O.Limits) returns (trace: seq<O.State>, steps: seq<O.Step>)
    requires s.consumers != []
    ensures GoesOn(trace, steps, limits) && trace[0] == s && |steps| <= LeftToDo(s) && !Unsettled(trace[|steps|])
    decreases LeftToDo(s)
  {
    if Unsettled(s) {
      var step := SomeoneCanGoOn(s, limits);
      var s' := O.Do(s, step, limits);
      ThreadsStay(s, step, limits);
      trace, steps := CanComeToRest(s', limits);
      StepBefore(s, step, trace, steps, limits);
      trace, steps := [s] + trace, [step] + steps;
    } else {
      trace, steps := [s], [];
    }
  }
}
