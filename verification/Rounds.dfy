/** Polling rounds as a protocol between N poller threads and the monitor (poller_run, thread_inactive
    and thread_active of src/poller.c, monitor_run and start_iteration of src/monitor.c, the host
    cursor of src/rtgtargets.c, the signal handlers of src/main.c). A step is what one thread does
    while it holds a lock, or one access to a shared variable it makes without one. */
module Rounds {
  import opened Words

  /** Where a poller is; `iters` is its own count of finished rounds. */
  datatype Poller =
    | Head(iters: nat)               // about to test the stop flag of the outer loop
    | AtInactive(iters: nat)         // about to take the lock in thread_inactive
    | Blocked(iters: nat)            // waiting on the condition variable
    | Woken(iters: nat)              // back from the wait, about to test the stop flag
    | Activating(iters: nat)         // about to count itself in
    | Testing(iters: nat)            // about to test the stop flag of the host loop
    | Fetching(iters: nat)           // about to ask for the next host
    | Holding(iters: nat, host: nat) // processing a host
    | Exited(counted: bool)          // left the outer loop, still counted as active or not

  datatype Monitor = TestStop | CheckStart | Start | CheckEnd | Gone

  /** `handed` and `processed` are the hosts handed out and finished since the last reset; `left`
      says that a poller has left its host loop since then, `fired` that the last start woke one. */
  datatype State = State(
    pollers: seq<Poller>, active: u32, next: nat, stop: bool, monitor: Monitor, started: bool,
    handed: seq<nat>, processed: seq<nat>, left: bool, fired: bool)

  /** `due` is what the monitor finds when it compares the clock with the next start. */
  datatype Step = PollerStep(i: nat) | MonitorStep(due: bool) | SetStop | StopBroadcast

  /** Counted in: past the increment in thread_active and not yet past the matching decrement. */
  predicate Counted(p: Poller) {
    match p
    case Head(k) => k > 0
    case AtInactive(k) => k > 0
    case Exited(c) => c
    case Testing(_) => true
    case Fetching(_) => true
    case Holding(_, _) => true
    case _ => false
  }

  function Wake(p: Poller): Poller {
    if p.Blocked? then Woken(p.iters) else p
  }

  function WakeAll(pollers: seq<Poller>): (w: seq<Poller>)
    ensures |w| == |pollers| && forall i :: 0 <= i < |w| ==> w[i] == Wake(pollers[i])
  {
    if pollers == [] then [] else WakeAll(pollers[..|pollers| - 1]) + [Wake(pollers[|pollers| - 1])]
  }

  function Init(n: nat): State {
    State(seq(n, i => Head(0)), 0, 0, false, TestStop, false, [], [], false, false)
  }

  predicate Enabled(s: State, step: Step) {
    match step
    case PollerStep(i) => i < |s.pollers| && !s.pollers[i].Blocked? && !s.pollers[i].Exited?
    case MonitorStep(_) => !s.monitor.Gone?
    case SetStop => true
    case StopBroadcast => s.stop
  }

  /** Where a poller goes next, given the stop flag and the cursor. */
  function Move(p: Poller, stop: bool, next: nat, nhosts: nat): Poller
    requires !p.Blocked? && !p.Exited?
  {
    match p
    case Head(k) => if stop then Exited(k > 0) else AtInactive(k)
    case AtInactive(k) => Blocked(k)
    case Woken(k) => if stop then Exited(false) else Activating(k)
    case Activating(k) => Testing(k)
    case Testing(k) => if stop then Head(k + 1) else Fetching(k)
    case Fetching(k) => if next < nhosts then Holding(k, next) else Head(k + 1)
    case Holding(k, _) => Testing(k)
  }

  /** What the poller does to the counter on the way: thread_inactive decrements it unless this is
      the thread's first round, thread_active increments it. */
  function MoveCount(p: Poller, active: u32): u32 {
    match p
    case AtInactive(k) => if k > 0 then Wrap32(active - 1) else active
    case Activating(_) => Wrap32(active + 1)
    case _ => active
  }

  function DoPoller(s: State, i: nat, nhosts: nat): State
    requires Enabled(s, PollerStep(i))
  {
    var p := s.pollers[i];
    var p' := Move(p, s.stop, s.next, nhosts);
    s.(pollers := s.pollers[i := p'],
       active := MoveCount(p, s.active),
       next := if p'.Holding? then s.next + 1 else s.next,
       handed := if p'.Holding? then s.handed + [s.next] else s.handed,
       processed := if p.Holding? then s.processed + [p.host] else s.processed,
       left := s.left || (p'.Head? && (p.Testing? || p.Fetching?)))
  }

  function DoMonitor(s: State, due: bool): State
    requires !s.monitor.Gone?
  {
    match s.monitor
    case TestStop => s.(monitor := if s.stop then Gone else CheckStart)
    case CheckStart => s.(monitor := if s.active == 0 && due then Start else CheckEnd)
    case Start =>
      s.(monitor := CheckEnd, started := true, next := 0, pollers := WakeAll(s.pollers),
         handed := [], processed := [], left := false, fired := exists p :: p in s.pollers && p.Blocked?)
    case CheckEnd => s.(monitor := TestStop, started := s.started && s.active != 0)
  }

  function Do(s: State, step: Step, nhosts: nat): State
    requires Enabled(s, step)
  {
    match step
    case PollerStep(i) => DoPoller(s, i, nhosts)
    case MonitorStep(due) => DoMonitor(s, due)
    case SetStop => s.(stop := true)
    case StopBroadcast => s.(pollers := WakeAll(s.pollers))
  }

  /** Every woken poller has counted itself in (or gone). While no stop is requested, the monitor's
      sleeps stand for this. */
  predicate Settled(s: State) {
    forall p :: p in s.pollers ==> !p.Woken? && !p.Activating?
  }

  /** The steps the protocol relies on: the monitor looks at the counter only in settled states. No
      sleep waits for the pollers a signal handler has woken, so after a stop it may look at any time. */
  predicate Allowed(s: State, step: Step) {
    && Enabled(s, step)
    && (step.MonitorStep? && (s.monitor.CheckStart? || s.monitor.CheckEnd?) ==> s.stop || Settled(s))
  }

  /** A run of `n` pollers over `nhosts` hosts, whatever the scheduling: the state after each number of
      steps. */
  ghost predicate IsHastyRun(trace: seq<State>, steps: seq<Step>, n: nat, nhosts: nat) {
    && |trace| == |steps| + 1 && trace[0] == Init(n)
    && forall k :: 0 <= k < |steps| ==> Enabled(trace[k], steps[k]) && trace[k + 1] == Do(trace[k], steps[k], nhosts)
  }

  /** A run in which the sleeps do their work. */
  ghost predicate IsRun(trace: seq<State>, steps: seq<Step>, n: nat, nhosts: nat) {
    IsHastyRun(trace, steps, n, nhosts) && forall k :: 0 <= k < |steps| ==> Allowed(trace[k], steps[k])
  }

  // The invariant.

  function ActiveCount(pollers: seq<Poller>, n: nat): (c: nat)
    requires n <= |pollers|
    ensures c <= n
  {
    if n == 0 then 0 else ActiveCount(pollers, n - 1) + if Counted(pollers[n - 1]) then 1 else 0
  }

  /** How many pollers hold host `h`. */
  function Holders(pollers: seq<Poller>, h: nat, n: nat): nat
    requires n <= |pollers|
  {
    if n == 0 then 0 else Holders(pollers, h, n - 1) + Holds(pollers[n - 1], h)
  }

  function Holds(p: Poller, h: nat): nat {
    if p.Holding? && p.host == h then 1 else 0
  }

  /** How often host `h` was finished. */
  function Times(processed: seq<nat>, h: nat, n: nat): nat
    requires n <= |processed|
  {
    if n == 0 then 0 else Times(processed, h, n - 1) + if processed[n - 1] == h then 1 else 0
  }

  function Tally(s: State, h: nat): nat {
    Times(s.processed, h, |s.processed|) + Holders(s.pollers, h, |s.pollers|)
  }

  predicate Busy(p: Poller) {
    p.Woken? || p.Activating? || p.Testing? || p.Fetching? || p.Holding?
  }

  ghost predicate SomeBusy(s: State) {
    exists i :: 0 <= i < |s.pollers| && Busy(s.pollers[i])
  }

  /** The counter is the number of pollers counted in. */
  ghost predicate CounterInv(s: State) {
    |s.pollers| < TWO32 && s.active == ActiveCount(s.pollers, |s.pollers|)
  }

  /** The hosts handed out are the first `next`, each once and in order, and each of them is either
      held by one poller or processed once. */
  ghost predicate CursorInv(s: State, nhosts: nat) {
    && s.next == |s.handed| <= nhosts
    && (forall i :: 0 <= i < s.next ==> s.handed[i] == i)
    && (forall h: nat :: Tally(s, h) == if h < s.next then 1 else 0)
  }

  /** Nobody holds a host or can get one; without a stop nobody is in a round or can enter one. */
  ghost predicate Quiet(s: State) {
    forall i :: 0 <= i < |s.pollers| ==>
      var p := s.pollers[i];
      !p.Fetching? && !p.Holding? && (!s.stop ==> !Counted(p) && !p.Woken? && !p.Activating?)
  }

  /** All is quiet between the monitor's check and its reset, and while no round is taken to be running. */
  ghost predicate QuietInv(s: State) {
    s.monitor.Start? || !s.started ==> Quiet(s)
  }

  /** Without a stop a poller leaves its host loop only when the hosts are exhausted, and a round that
      woke a poller is over only when one has left its host loop. */
  ghost predicate LeftInv(s: State, nhosts: nat) {
    && (s.left && !s.stop ==> s.next == nhosts)
    && (s.fired && !s.stop ==> s.left || SomeBusy(s))
  }

  ghost predicate Inv(s: State, nhosts: nat) {
    CounterInv(s) && CursorInv(s, nhosts) && QuietInv(s) && LeftInv(s, nhosts)
  }

  lemma {:induction false} CountOne(a: seq<Poller>, i: nat, p: Poller, n: nat)
    requires i < |a| && n <= |a|
    ensures ActiveCount(a[i := p], n) ==
            ActiveCount(a, n) + if i < n then (if Counted(p) then 1 else 0) - (if Counted(a[i]) then 1 else 0) else 0
  {
    if n == 0 {
    } else {
      CountOne(a, i, p, n - 1);
    }
  }

  lemma {:induction false} HoldersOne(a: seq<Poller>, i: nat, p: Poller, h: nat, n: nat)
    requires i < |a| && n <= |a|
    ensures Holders(a[i := p], h, n) == Holders(a, h, n) + if i < n then Holds(p, h) - Holds(a[i], h) else 0
  {
    if n == 0 {
    } else {
      HoldersOne(a, i, p, h, n - 1);
    }
  }

  lemma {:induction false} TimesPrefix(a: seq<nat>, x: nat, h: nat, n: nat)
    requires n <= |a|
    ensures Times(a + [x], h, n) == Times(a, h, n)
  {
    if n == 0 {
    } else {
      TimesPrefix(a, x, h, n - 1);
    }
  }

  lemma {:induction false} WakingChangesNothing(a: seq<Poller>, h: nat, n: nat)
    requires n <= |a|
    ensures ActiveCount(WakeAll(a), n) == ActiveCount(a, n) && Holders(WakeAll(a), h, n) == Holders(a, h, n)
  {
    if n == 0 {
    } else {
      WakingChangesNothing(a, h, n - 1);
    }
  }

  lemma {:induction false} NoneCounted(a: seq<Poller>, n: nat)
    requires n <= |a|
    ensures ActiveCount(a, n) == 0 <==> forall i :: 0 <= i < n ==> !Counted(a[i])
  {
    if n == 0 {
    } else {
      NoneCounted(a, n - 1);
    }
  }

  lemma {:induction false} NoneHeld(a: seq<Poller>, h: nat, n: nat)
    requires n <= |a| && forall i :: 0 <= i < n ==> !a[i].Holding?
    ensures Holders(a, h, n) == 0
  {
    if n == 0 {
    } else {
      NoneHeld(a, h, n - 1);
    }
  }

  lemma {:induction false} SomeHolder(a: seq<Poller>, i: nat, n: nat)
    requires i < n <= |a|
    ensures Counted(a[i]) ==> ActiveCount(a, n) >= 1
  {
    if i == n - 1 {
    } else {
      SomeHolder(a, i, n - 1);
    }
  }

  lemma InitInv(n: nat, nhosts: nat)
    requires n < TWO32
    ensures Inv(Init(n), nhosts)
  {
    var s := Init(n);
    NoneCounted(s.pollers, n);
    forall h: nat
      ensures Tally(s, h) == 0
    {
      NoneHeld(s.pollers, h, n);
    }
  }

  lemma MoveCounts(p: Poller, active: u32, stop: bool, next: nat, nhosts: nat)
    requires !p.Blocked? && !p.Exited?
    requires if Counted(p) then active > 0 else active < TWO32 - 1
    ensures MoveCount(p, active) ==
            active + (if Counted(Move(p, stop, next, nhosts)) then 1 else 0) - (if Counted(p) then 1 else 0)
  {
  }

  /** The counter never underflows: whoever decrements it is counted in. */
  lemma PollerCounterInv(s: State, i: nat, nhosts: nat)
    requires CounterInv(s) && Enabled(s, PollerStep(i))
    ensures CounterInv(DoPoller(s, i, nhosts))
  {
    var n := |s.pollers|;
    SomeHolder(s.pollers, i, n);
    if s.active == n {
      AllCounted(s.pollers, i, n);
    }
    CountOne(s.pollers, i, Move(s.pollers[i], s.stop, s.next, nhosts), n);
    MoveCounts(s.pollers[i], s.active, s.stop, s.next, nhosts);
  }

  lemma {:induction false} AllCounted(a: seq<Poller>, i: nat, n: nat)
    requires i < n <= |a| && ActiveCount(a, n) == n
    ensures Counted(a[i])
  {
    if i == n - 1 {
    } else {
      AllCounted(a, i, n - 1);
    }
  }

  lemma TallyStep(s: State, i: nat, nhosts: nat, h: nat)
    requires Enabled(s, PollerStep(i))
    ensures var s' := DoPoller(s, i, nhosts);
            Tally(s', h) == Tally(s, h) + if s'.next > s.next && h == s.next then 1 else 0
  {
    var s' := DoPoller(s, i, nhosts);
    HoldersOne(s.pollers, i, s'.pollers[i], h, |s.pollers|);
    if s.pollers[i].Holding? {
      TimesPrefix(s.processed, s.pollers[i].host, h, |s.processed|);
    }
  }

  lemma PollerCursorInv(s: State, i: nat, nhosts: nat)
    requires CursorInv(s, nhosts) && Enabled(s, PollerStep(i))
    ensures CursorInv(DoPoller(s, i, nhosts), nhosts)
  {
    var s' := DoPoller(s, i, nhosts);
    forall h: nat
      ensures Tally(s', h) == if h < s'.next then 1 else 0
    {
      assert Tally(s, h) == if h < s.next then 1 else 0;
      TallyStep(s, i, nhosts, h);
    }
  }

  lemma PollerOtherInv(s: State, i: nat, nhosts: nat)
    requires Inv(s, nhosts) && Enabled(s, PollerStep(i))
    ensures QuietInv(DoPoller(s, i, nhosts)) && LeftInv(DoPoller(s, i, nhosts), nhosts)
  {
    var s' := DoPoller(s, i, nhosts);
    assert !Busy(s'.pollers[i]) ==> s'.left || s'.stop || !Busy(s.pollers[i]);
    if s.fired && !s.stop && !s.left {
      var j :| 0 <= j < |s.pollers| && Busy(s.pollers[j]);
      assert j != i ==> s'.pollers[j] == s.pollers[j];
      assert Busy(s'.pollers[j]) || s'.left;
    }
  }

  lemma StartInv(s: State, due: bool, nhosts: nat)
    requires Inv(s, nhosts) && s.monitor.Start?
    ensures Inv(DoMonitor(s, due), nhosts)
  {
    var s', n := DoMonitor(s, due), |s.pollers|;
    WakingChangesNothing(s.pollers, 0, n);
    forall h: nat
      ensures Tally(s', h) == 0
    {
      WakingChangesNothing(s.pollers, h, n);
      NoneHeld(s.pollers, h, n);
    }
    if s'.fired {
      var p :| p in s.pollers && p.Blocked?;
      var j :| 0 <= j < n && s.pollers[j] == p;
      assert Busy(s'.pollers[j]);
    }
  }

  /** The monitor's other steps touch no poller and no cursor. */
  lemma MonitorMoves(s: State, m: Monitor, started: bool, nhosts: nat)
    requires Inv(s, nhosts) && (m.Start? || started != s.started ==> s.active == 0 && (s.stop || Settled(s)))
    ensures Inv(s.(monitor := m, started := started), nhosts)
  {
    var s' := s.(monitor := m, started := started);
    NoneCounted(s.pollers, |s.pollers|);
    assert forall h: nat :: Tally(s', h) == Tally(s, h);
    assert SomeBusy(s) ==> SomeBusy(s');
  }

  lemma MonitorStepInv(s: State, due: bool, nhosts: nat)
    requires Inv(s, nhosts) && Allowed(s, MonitorStep(due))
    ensures Inv(DoMonitor(s, due), nhosts)
  {
    if s.monitor.Start? {
      StartInv(s, due, nhosts);
    } else {
      MonitorMoves(s, DoMonitor(s, due).monitor, DoMonitor(s, due).started, nhosts);
    }
  }

  lemma BroadcastInv(s: State, nhosts: nat)
    requires Inv(s, nhosts) && s.stop
    ensures Inv(Do(s, StopBroadcast, nhosts), nhosts)
  {
    var s', n := Do(s, StopBroadcast, nhosts), |s.pollers|;
    WakingChangesNothing(s.pollers, 0, n);
    forall h: nat
      ensures Tally(s', h) == Tally(s, h)
    {
      WakingChangesNothing(s.pollers, h, n);
    }
  }

  lemma StepInv(s: State, step: Step, nhosts: nat)
    requires Inv(s, nhosts) && Allowed(s, step)
    ensures Inv(Do(s, step, nhosts), nhosts)
  {
    match step {
      case PollerStep(i) =>
        PollerCounterInv(s, i, nhosts);
        PollerCursorInv(s, i, nhosts);
        PollerOtherInv(s, i, nhosts);
      case MonitorStep(due) => MonitorStepInv(s, due, nhosts);
      case SetStop =>
        assert forall h: nat :: Tally(s.(stop := true), h) == Tally(s, h);
      case StopBroadcast => BroadcastInv(s, nhosts);
    }
  }

  lemma {:induction false} RunInv(trace: seq<State>, steps: seq<Step>, n: nat, nhosts: nat, k: nat)
    requires IsRun(trace, steps, n, nhosts) && n < TWO32 && k < |trace|
    ensures Inv(trace[k], nhosts)
  {
    if k == 0 {
      InitInv(n, nhosts);
    } else {
      RunInv(trace, steps, n, nhosts, k - 1);
      StepInv(trace[k - 1], steps[k - 1], nhosts);
    }
  }

  // What the invariant means.

  lemma {:induction false} TwoHolders(a: seq<Poller>, i: nat, j: nat, n: nat)
    requires i < j < n <= |a| && a[i].Holding? && a[j].Holding? && a[i].host == a[j].host
    ensures Holders(a, a[i].host, n) >= 2
  {
    if j < n - 1 {
      TwoHolders(a, i, j, n - 1);
    } else {
      OneHolder(a, i, n - 1);
    }
  }

  lemma {:induction false} OneHolder(a: seq<Poller>, i: nat, n: nat)
    requires i < n <= |a| && a[i].Holding?
    ensures Holders(a, a[i].host, n) >= 1
  {
    if i == n - 1 {
    } else {
      OneHolder(a, i, n - 1);
    }
  }

  /** A held host is held by no other poller and has not been processed in the round. */
  ghost predicate HeldOnce(s: State, i: nat)
    requires i < |s.pollers| && s.pollers[i].Holding?
  {
    && s.pollers[i].host < s.next
    && (forall j :: 0 <= j < |s.pollers| && j != i && s.pollers[j].Holding? ==> s.pollers[j].host != s.pollers[i].host)
    && Times(s.processed, s.pollers[i].host, |s.processed|) == 0
  }

  lemma HoldersAreAlone(s: State, nhosts: nat, i: nat)
    requires CursorInv(s, nhosts) && i < |s.pollers| && s.pollers[i].Holding?
    ensures HeldOnce(s, i)
  {
    var h := s.pollers[i].host;
    assert Tally(s, h) == if h < s.next then 1 else 0;
    OneHolder(s.pollers, i, |s.pollers|);
    forall j | 0 <= j < |s.pollers| && j != i && s.pollers[j].Holding? && s.pollers[j].host == h
      ensures false
    {
      TwoHolders(s.pollers, if i < j then i else j, if i < j then j else i, |s.pollers|);
    }
  }

  /** In every run no host is ever held by two pollers, or held again once processed in the round. */
  lemma NoHostHeldTwice(trace: seq<State>, steps: seq<Step>, n: nat, nhosts: nat, k: nat, i: nat)
    requires IsRun(trace, steps, n, nhosts) && n < TWO32 && k < |trace|
    requires var ps := trace[k].pollers; i < |ps| && ps[i].Holding?
    ensures HeldOnce(trace[k], i) && trace[k].next <= nhosts
  {
    RunInv(trace, steps, n, nhosts, k);
    HoldersAreAlone(trace[k], nhosts, i);
  }

  /** The hosts handed out since the last reset are the first `next`, each once and in order. */
  lemma HandedOutInOrder(trace: seq<State>, steps: seq<Step>, n: nat, nhosts: nat, k: nat)
    requires IsRun(trace, steps, n, nhosts) && n < TWO32 && k < |trace|
    ensures var s := trace[k]; s.handed == seq(s.next, i => i) && s.next <= nhosts
  {
    RunInv(trace, steps, n, nhosts, k);
  }

  lemma StepCounterInv(s: State, step: Step, nhosts: nat)
    requires CounterInv(s) && Enabled(s, step)
    ensures CounterInv(Do(s, step, nhosts))
  {
    WakingChangesNothing(s.pollers, 0, |s.pollers|);
    match step {
      case PollerStep(i) => PollerCounterInv(s, i, nhosts);
      case _ =>
    }
  }

  lemma {:induction false} HastyCounterInv(trace: seq<State>, steps: seq<Step>, n: nat, nhosts: nat, k: nat)
    requires IsHastyRun(trace, steps, n, nhosts) && n < TWO32 && k < |trace|
    ensures CounterInv(trace[k])
  {
    if k == 0 {
      InitInv(n, nhosts);
    } else {
      HastyCounterInv(trace, steps, n, nhosts, k - 1);
      StepCounterInv(trace[k - 1], steps[k - 1], nhosts);
    }
  }

  /** The counter is exact in every run, whether or not the sleeps do their work, and a decrement never
      finds it at zero. */
  lemma CounterIsExact(trace: seq<State>, steps: seq<Step>, n: nat, nhosts: nat, k: nat)
    requires IsHastyRun(trace, steps, n, nhosts) && n < TWO32 && k < |trace|
    ensures var s := trace[k];
            && s.active == ActiveCount(s.pollers, |s.pollers|)
            && forall i :: 0 <= i < |s.pollers| && s.pollers[i].AtInactive? && s.pollers[i].iters > 0 ==> s.active > 0
  {
    HastyCounterInv(trace, steps, n, nhosts, k);
    var s := trace[k];
    forall i | 0 <= i < |s.pollers| && s.pollers[i].AtInactive? && s.pollers[i].iters > 0
      ensures s.active > 0
    {
      SomeHolder(s.pollers, i, |s.pollers|);
    }
  }

  /** Every host has been processed exactly once, and nothing else has. */
  ghost predicate Complete(s: State, nhosts: nat) {
    forall h: nat :: Times(s.processed, h, |s.processed|) == if h < nhosts then 1 else 0
  }

  lemma IdleMeansComplete(s: State, nhosts: nat)
    requires Inv(s, nhosts) && s.next == nhosts && s.active == 0
    ensures Complete(s, nhosts)
  {
    NoneCounted(s.pollers, |s.pollers|);
    forall h: nat
      ensures Times(s.processed, h, |s.processed|) == if h < nhosts then 1 else 0
    {
      assert Tally(s, h) == if h < s.next then 1 else 0;
      NoneHeld(s.pollers, h, |s.pollers|);
    }
  }

  /** With no stop requested, once a poller has left its host loop an idle counter means that the
      cursor is at the end and every host was processed exactly once in the round. */
  lemma RoundIsComplete(trace: seq<State>, steps: seq<Step>, n: nat, nhosts: nat, k: nat)
    requires IsRun(trace, steps, n, nhosts) && n < TWO32 && k < |trace|
    requires var s := trace[k]; !s.stop && s.left && s.active == 0
    ensures trace[k].next == nhosts && Complete(trace[k], nhosts)
  {
    RunInv(trace, steps, n, nhosts, k);
    IdleMeansComplete(trace[k], nhosts);
  }

  /** The monitor ends a round: it takes one to be running and finds nobody active. */
  predicate Ends(s: State) {
    s.monitor.CheckEnd? && s.started && s.active == 0
  }

  lemma EndIsComplete(s: State, nhosts: nat)
    requires Inv(s, nhosts) && Settled(s) && Ends(s) && s.fired && !s.stop
    ensures Complete(s, nhosts)
  {
    NoneCounted(s.pollers, |s.pollers|);
    forall i | 0 <= i < |s.pollers|
      ensures !Busy(s.pollers[i])
    {
      assert s.pollers[i] in s.pollers;
    }
    IdleMeansComplete(s, nhosts);
  }

  /** What the monitor concludes is true: when it ends a round that woke a poller, with no stop
      requested, every host was processed exactly once. */
  lemma EndOfRoundIsComplete(trace: seq<State>, steps: seq<Step>, n: nat, nhosts: nat, k: nat)
    requires IsRun(trace, steps, n, nhosts) && n < TWO32 && k < |steps|
    requires steps[k].MonitorStep? && Ends(trace[k]) && trace[k].fired && !trace[k].stop
    ensures Complete(trace[k], nhosts)
  {
    RunInv(trace, steps, n, nhosts, k);
    assert Allowed(trace[k], steps[k]);
    EndIsComplete(trace[k], nhosts);
  }

  // Without the assumption behind the sleeps the protocol is broken.

  ghost predicate HastilyReached(s: State, n: nat, nhosts: nat) {
    exists trace, steps :: IsHastyRun(trace, steps, n, nhosts) && trace[|steps|] == s
  }

  lemma HastyStep(s: State, step: Step, n: nat, nhosts: nat) returns (s': State)
    requires HastilyReached(s, n, nhosts) && Enabled(s, step)
    ensures s' == Do(s, step, nhosts) && HastilyReached(s', n, nhosts)
  {
    s' := Do(s, step, nhosts);
    var trace, steps :| IsHastyRun(trace, steps, n, nhosts) && trace[|steps|] == s;
    assert IsHastyRun(trace + [s'], steps + [step], n, nhosts);
    assert (trace + [s'])[|steps + [step]|] == s';
  }

  lemma InitReached(n: nat, nhosts: nat)
    ensures HastilyReached(Init(n), n, nhosts)
  {
    var trace, steps: seq<Step> := [Init(n)], [];
    assert IsHastyRun(trace, steps, n, nhosts) && trace[|steps|] == Init(n);
  }

  /** A woken poller takes the host at the cursor. */
  lemma HastyGrab(s: State, i: nat) returns (s': State)
    requires HastilyReached(s, 2, 1) && i < 2 == |s.pollers| && s.pollers[i] == Woken(0)
    requires !s.stop && s.next == 0 && s.active <= 1
    ensures HastilyReached(s', 2, 1) && s'.pollers == s.pollers[i := Holding(0, 0)]
    ensures s'.monitor == s.monitor && !s'.stop && s'.active == s.active + 1
  {
    s' := HastyStep(s, PollerStep(i), 2, 1);
    s' := HastyStep(s', PollerStep(i), 2, 1);
    s' := HastyStep(s', PollerStep(i), 2, 1);
    s' := HastyStep(s', PollerStep(i), 2, 1);
    assert s'.pollers == s.pollers[i := Holding(0, 0)];
  }

  lemma HastyBlock(s: State, i: nat) returns (s': State)
    requires HastilyReached(s, 2, 1) && i < 2 == |s.pollers| && s.pollers[i] == Head(0) && !s.stop
    ensures HastilyReached(s', 2, 1) && s' == s.(pollers := s.pollers[i := Blocked(0)])
  {
    s' := HastyStep(s, PollerStep(i), 2, 1);
    s' := HastyStep(s', PollerStep(i), 2, 1);
  }

  lemma HastyStart() returns (s: State)
    ensures HastilyReached(s, 2, 1) && s.pollers == [Woken(0), Woken(0)]
    ensures s.monitor == CheckEnd && !s.stop && s.next == 0 && s.active == 0
  {
    InitReached(2, 1);
    s := HastyBlock(Init(2), 0);
    s := HastyBlock(s, 1);
    assert s.pollers == [Blocked(0), Blocked(0)];
    s := HastyStep(s, MonitorStep(true), 2, 1);
    s := HastyStep(s, MonitorStep(true), 2, 1);
    s := HastyStep(s, MonitorStep(true), 2, 1);
    assert s.pollers == [Woken(0), Woken(0)];
  }

  /** The monitor starts a round, wakes both pollers and, finding none counted in yet, decides on
      another start. */
  lemma HastyDecision() returns (s: State)
    ensures HastilyReached(s, 2, 1) && s.pollers == [Woken(0), Woken(0)]
    ensures s.monitor == Start && !s.stop && s.next == 0 && s.active == 0
  {
    s := HastyStart();
    s := HastyStep(s, MonitorStep(true), 2, 1);
    s := HastyStep(s, MonitorStep(true), 2, 1);
    s := HastyStep(s, MonitorStep(true), 2, 1);
  }

  /** If the monitor may look before woken pollers have counted themselves in, two pollers can hold
      the same host. */
  lemma SleepAssumptionIsNeeded() returns (s: State)
    ensures HastilyReached(s, 2, 1) && s.pollers == [Holding(0, 0), Holding(0, 0)]
  {
    s := HastyDecision();
    s := HastyGrab(s, 0);
    s := HastyStep(s, MonitorStep(true), 2, 1);
    assert s.pollers == [Holding(0, 0), Woken(0)];
    s := HastyGrab(s, 1);
  }
}
