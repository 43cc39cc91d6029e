/** Two runs of the daemon, with one poller and one row that never answers, whose round ends with
    statistics that are not the round's own. */
module Miscount {
  import opened Words
  import opened Targets
  import opened Daemon
  import C = Clinsert
  import O = Ownership
  import P = Poller
  import R = Rounds

  const TARGET := Target(Row("1", Some("t"), 1, 32, 1), NO_CACHE)
  const IDLE := O.Producer([], 0, None)
  const SILENCE: seq<P.Answer> := [P.Failed]
  const NOTHING := P.Poll([TARGET], [], [], 1, 1)
  const REPORTED := Report(SILENCE, NOTHING)

  lemma SilentPoll(maxErrors: nat)
    ensures P.AllPollable([TARGET], SILENCE) && P.PollRows([TARGET], SILENCE, maxErrors) == NOTHING
  {
    assert P.Pass([TARGET], SILENCE, 0) == P.Poll([TARGET], [], [], 0, 0);
    assert P.SampleOf(TARGET, P.Failed) == None;
    assert [TARGET][0 := TARGET] == [TARGET];
    assert P.Pass([TARGET], SILENCE, 1) == NOTHING;
  }

  /** A state of a run that started with this many failed gets left over. */
  ghost predicate Reached(s: State, leftover: u32, limits: O.Limits) {
    exists trace: seq<State>, steps: seq<Step> ::
      IsRun(trace, steps, 1, limits) && trace[|steps|] == s && trace[0].counters == Counters(0, 0, leftover, 0)
  }

  /** A run that takes this step last. */
  lemma GoOn(s: State, step: Step, leftover: u32, limits: O.Limits) returns (trace: seq<State>, steps: seq<Step>)
    requires Reached(s, leftover, limits) && Allowed(s, step)
    ensures IsRun(trace, steps, 1, limits) && steps != [] && steps[|steps| - 1] == step
    ensures trace[|steps| - 1] == s && trace[|steps|] == Do(s, step, limits)
    ensures trace[0].counters == Counters(0, 0, leftover, 0)
  {
    var before: seq<State>, taken: seq<Step> :|
      IsRun(before, taken, 1, limits) && before[|taken|] == s && before[0].counters == Counters(0, 0, leftover, 0);
    RunGrows(before, taken, step, 1, limits);
    trace, steps := before + [Do(s, step, limits)], taken + [step];
    assert trace[|steps| - 1] == s && trace[0] == before[0];
  }

  lemma TakeStep(s: State, step: Step, leftover: u32, limits: O.Limits) returns (s': State)
    requires Reached(s, leftover, limits) && Allowed(s, step)
    ensures s' == Do(s, step, limits) && Reached(s', leftover, limits)
  {
    s' := Do(s, step, limits);
    var trace, steps := GoOn(s, step, leftover, limits);
    assert trace[|steps|] == s';
  }

  /** Where the poller and the monitor are, what has been counted, and what the round found. */
  datatype Point = Point(p: R.Poller, active: u32, next: nat, monitor: R.Monitor, started: bool,
                         fails: u32, reported: bool, base: u32, overran: bool)

  ghost predicate At(s: State, a: Point) {
    && s.rounds.pollers == [a.p] && s.rounds.active == a.active && s.rounds.next == a.next
    && s.rounds.monitor == a.monitor && s.rounds.started == a.started && !s.rounds.stop
    && (a.started ==> s.rounds.fired)
    && s.own.producers == [IDLE] && s.caches == [[TARGET]] && s.locals == [AWAY]
    && s.counters == Counters(0, 0, a.fails, 0) && s.begun.counters == Counters(0, 0, a.base, 0)
    && s.begun.overran == a.overran
    && s.reports == if a.reported then map[0 := REPORTED] else map[]
  }

  /** Some run comes to this point. */
  ghost predicate Visited(a: Point, leftover: u32, limits: O.Limits) {
    exists s :: Reached(s, leftover, limits) && At(s, a)
  }

  lemma FirstVisited(leftover: u32, limits: O.Limits)
    ensures Visited(Point(R.Head(0), 0, 0, R.TestStop, false, leftover, false, leftover, false), leftover, limits)
  {
    var a := Point(R.Head(0), 0, 0, R.TestStop, false, leftover, false, leftover, false);
    var s := Init(1, 0, [[TARGET]], leftover, 0);
    var trace, steps: seq<Step> := [s], [];
    assert s == Init(1, 0, [[TARGET]], leftover, 0);
    assert IsRun(trace, steps, 1, limits) && trace[|steps|] == s;
    assert Reached(s, leftover, limits) && At(s, a);
  }

  function Moved(a: Point): Point
    requires !a.p.Blocked? && !a.p.Exited?
  {
    var p := R.Move(a.p, false, a.next, 1);
    a.(p := p, active := R.MoveCount(a.p, a.active), next := if p.Holding? then a.next + 1 else a.next)
  }

  lemma PollerStepAt(s: State, a: Point, limits: O.Limits)
    requires At(s, a) && !a.p.Blocked? && !a.p.Exited? && !a.p.Holding?
    ensures Allowed(s, Other(R.PollerStep(0))) && At(Do(s, Other(R.PollerStep(0)), limits), Moved(a))
  {
    assert [a.p][0 := Moved(a).p] == [Moved(a).p];
  }

  function HostFailed(a: Point): Point
    requires a.p.Holding?
  {
    a.(p := R.Testing(a.p.iters), fails := Wrap32(a.fails + 1), reported := true)
  }

  lemma PollAt(s: State, a: Point, limits: O.Limits)
    requires At(s, a) && !a.reported && a.p.Holding? && a.p.host == 0
    ensures Allowed(s, Poll(0, SILENCE))
    ensures var polled := Do(s, Poll(0, SILENCE), limits);
            && polled.rounds == s.rounds && polled.begun == s.begun
            && polled.own.producers == [IDLE] && polled.caches == [[TARGET]] && polled.locals == [Local(true, 0, 0)]
            && polled.counters == Counters(0, 0, Wrap32(a.fails + 1), 0) && polled.reports == map[0 := REPORTED]
  {
    SilentPoll(limits.maxErrors);
  }

  lemma ReturnAt(polled: State, a: Point, limits: O.Limits)
    requires a.p.Holding? && At(polled.(locals := [AWAY], counters := polled.begun.counters, reports := map[]),
                                a.(fails := a.base, reported := false))
    requires polled.locals == [Local(true, 0, 0)] && polled.reports == map[0 := REPORTED]
    requires polled.counters == Counters(0, 0, Wrap32(a.fails + 1), 0)
    ensures Allowed(polled, Return(0)) && At(Do(polled, Return(0), limits), HostFailed(a))
  {
  }

  function Watched(a: Point, due: bool): Point {
    a.(monitor := match a.monitor
                  case TestStop => R.CheckStart
                  case CheckStart => if a.active == 0 && due then R.Start else R.CheckEnd
                  case _ => R.TestStop)
  }

  predicate CanWatch(a: Point) {
    && !a.p.Woken? && !a.p.Activating? && !a.monitor.Gone? && !a.monitor.Start?
    && !(a.monitor.CheckEnd? && a.started && a.active == 0)
  }

  lemma MonitorStepAt(s: State, a: Point, due: bool, limits: O.Limits)
    requires At(s, a) && CanWatch(a)
    ensures Allowed(s, Other(R.MonitorStep(due))) && At(Do(s, Other(R.MonitorStep(due)), limits), Watched(a, due))
  {
  }

  function Started(a: Point): Point
    requires a.p.Blocked?
  {
    Point(R.Woken(a.p.iters), a.active, 0, R.CheckEnd, true, a.fails, false, a.fails, a.started)
  }

  /** A set of points closed under the steps of such a run: of the poller, of its vain poll, and of the
      monitor, at a start and otherwise. */
  ghost predicate Closed(v: Point -> bool) {
    && (forall a {:trigger v(Moved(a))} :: v(a) && !a.p.Blocked? && !a.p.Exited? && !a.p.Holding? ==> v(Moved(a)))
    && (forall a {:trigger v(HostFailed(a))} :: v(a) && !a.reported && a.p.Holding? && a.p.host == 0 ==> v(HostFailed(a)))
    && (forall a {:trigger v(Watched(a, true))} :: v(a) && CanWatch(a) ==> v(Watched(a, true)))
    && (forall a {:trigger v(Started(a))} :: v(a) && a.monitor.Start? && a.p.Blocked? ==> v(Started(a)))
  }

  lemma PollerMoves(leftover: u32, limits: O.Limits)
    ensures forall a :: Visited(a, leftover, limits) && !a.p.Blocked? && !a.p.Exited? && !a.p.Holding? ==>
              Visited(Moved(a), leftover, limits)
  {
    forall a | Visited(a, leftover, limits) && !a.p.Blocked? && !a.p.Exited? && !a.p.Holding?
      ensures Visited(Moved(a), leftover, limits)
    {
      var s :| Reached(s, leftover, limits) && At(s, a);
      PollerStepAt(s, a, limits);
      var s' := TakeStep(s, Other(R.PollerStep(0)), leftover, limits);
    }
  }

  /** The poller polls its host in vain and lets go of it. */
  lemma HostFails(leftover: u32, limits: O.Limits)
    ensures forall a :: Visited(a, leftover, limits) && !a.reported && a.p.Holding? && a.p.host == 0 ==>
              Visited(HostFailed(a), leftover, limits)
  {
    forall a | Visited(a, leftover, limits) && !a.reported && a.p.Holding? && a.p.host == 0
      ensures Visited(HostFailed(a), leftover, limits)
    {
      var s :| Reached(s, leftover, limits) && At(s, a);
      PollAt(s, a, limits);
      var polled := TakeStep(s, Poll(0, SILENCE), leftover, limits);
      ReturnAt(polled, a, limits);
      var s' := TakeStep(polled, Return(0), leftover, limits);
    }
  }

  /** A step of the monitor that neither starts nor ends a round. */
  lemma MonitorMoves(leftover: u32, limits: O.Limits)
    ensures forall a :: Visited(a, leftover, limits) && CanWatch(a) ==> Visited(Watched(a, true), leftover, limits)
  {
    forall a | Visited(a, leftover, limits) && CanWatch(a)
      ensures Visited(Watched(a, true), leftover, limits)
    {
      var s :| Reached(s, leftover, limits) && At(s, a);
      MonitorStepAt(s, a, true, limits);
      var s' := TakeStep(s, Other(R.MonitorStep(true)), leftover, limits);
    }
  }

  /** The monitor starts a round and wakes the poller. */
  lemma RoundStarts(leftover: u32, limits: O.Limits)
    ensures forall a :: Visited(a, leftover, limits) && a.monitor.Start? && a.p.Blocked? ==>
              Visited(Started(a), leftover, limits)
  {
    forall a | Visited(a, leftover, limits) && a.monitor.Start? && a.p.Blocked?
      ensures Visited(Started(a), leftover, limits)
    {
      var s :| Reached(s, leftover, limits) && At(s, a);
      assert a.p in s.rounds.pollers;
      var s' := TakeStep(s, Other(R.MonitorStep(true)), leftover, limits);
      assert R.WakeAll([a.p]) == [R.Woken(a.p.iters)];
      assert At(s', Started(a));
    }
  }

  lemma VisitedIsClosed(leftover: u32, limits: O.Limits)
    ensures Closed(a => Visited(a, leftover, limits))
  {
    PollerMoves(leftover, limits);
    HostFails(leftover, limits);
    MonitorMoves(leftover, limits);
    RoundStarts(leftover, limits);
  }

  // The two runs, point by point.

  function First(leftover: u32): Point {
    Point(R.Head(0), 0, 0, R.TestStop, false, leftover, false, leftover, false)
  }

  /** The first start, out of the initial state. */
  lemma FirstStart(v: Point -> bool, leftover: u32)
    requires Closed(v) && v(First(leftover))
    ensures v(Point(R.Woken(0), 0, 0, R.CheckEnd, true, leftover, false, leftover, false))
  {
    var a1 := Moved(First(leftover));
    var a2 := Moved(a1);
    var a3 := Watched(a2, true);
    var a4 := Watched(a3, true);
    assert v(a1) && v(a2) && v(a3) && v(a4);
    assert a4 == Point(R.Blocked(0), 0, 0, R.Start, false, leftover, false, leftover, false);
    assert v(Started(a4));
  }

  lemma CountsIn(v: Point -> bool, a: Point)
    requires Closed(v) && v(a) && a.p.Woken? && a.active == 0
    ensures v(a.(p := R.Testing(a.p.iters), active := 1))
  {
    var a1 := Moved(a);
    assert v(a1) && a1 == a.(p := R.Activating(a.p.iters));
    assert v(Moved(a1));
  }

  lemma TakesHost(v: Point -> bool, a: Point)
    requires Closed(v) && v(a) && a.p.Testing? && a.next == 0
    ensures v(a.(p := R.Holding(a.p.iters, 0), next := 1))
  {
    var a1 := Moved(a);
    assert v(a1) && a1 == a.(p := R.Fetching(a.p.iters));
    assert v(Moved(a1));
  }

  lemma FindsNoHost(v: Point -> bool, a: Point)
    requires Closed(v) && v(a) && a.p.Testing? && a.next == 1
    ensures v(a.(p := R.Head(a.p.iters + 1)))
  {
    var a1 := Moved(a);
    assert v(a1) && a1 == a.(p := R.Fetching(a.p.iters));
    assert v(Moved(a1));
  }

  lemma CountsOut(v: Point -> bool, a: Point)
    requires Closed(v) && v(a) && a.p.Head? && a.p.iters > 0 && a.active == 1
    ensures v(a.(p := R.Blocked(a.p.iters), active := 0))
  {
    var a1 := Moved(a);
    assert v(a1) && a1 == a.(p := R.AtInactive(a.p.iters));
    assert v(Moved(a1));
  }

  /** The poller's whole round, from counting in to waiting again. */
  lemma WorksAlone(v: Point -> bool, a: Point)
    requires Closed(v) && v(a) && a.p.Testing? && a.active == 1 && a.next == 0 && !a.reported
    ensures v(a.(p := R.Blocked(a.p.iters + 1), active := 0, next := 1, fails := Wrap32(a.fails + 1), reported := true))
  {
    var k := a.p.iters;
    TakesHost(v, a);
    var held := a.(p := R.Holding(k, 0), next := 1);
    var failed := HostFailed(held);
    assert v(failed);
    FindsNoHost(v, failed);
    CountsOut(v, failed.(p := R.Head(k + 1)));
  }

  /** The end of a round, in a run that shows how it came about. */
  lemma RoundEnds(a: Point, leftover: u32, limits: O.Limits) returns (trace: seq<State>, steps: seq<Step>)
    requires Visited(a, leftover, limits)
    requires a.p.Blocked? && a.active == 0 && a.monitor.CheckEnd? && a.started
    ensures steps != [] && trace != [] && EndsRound(trace, steps, 1, limits, |steps| - 1) && At(trace[|steps| - 1], a)
    ensures trace[0].counters == Counters(0, 0, leftover, 0)
  {
    var s :| Reached(s, leftover, limits) && At(s, a);
    trace, steps := GoOn(s, Other(R.MonitorStep(true)), leftover, limits);
  }

  lemma OneFailure(s: State, a: Point)
    requires At(s, a) && a.reported
    ensures RoundTotal(s.reports, Failed(), |s.caches|) == 1 && s.counters.snmpFail == a.fails
    ensures s.begun.overran == a.overran
  {
    assert RoundTotal(s.reports, Failed(), 0) == 0;
  }

  /** The monitor looks while the poller is at work, and next when it has finished. */
  lemma LooksTooEarly(v: Point -> bool)
    requires Closed(v) && v(First(0))
    ensures v(Point(R.Blocked(1), 0, 1, R.CheckStart, true, 1, true, 0, false))
  {
    FirstStart(v, 0);
    CountsIn(v, Point(R.Woken(0), 0, 0, R.CheckEnd, true, 0, false, 0, false));
    var a := Point(R.Testing(0), 1, 0, R.CheckEnd, true, 0, false, 0, false);
    var a1 := Watched(a, true);
    assert v(a1) && a1 == a.(monitor := R.TestStop);
    var a2 := Watched(a1, true);
    assert v(a2) && a2 == Point(R.Testing(0), 1, 0, R.CheckStart, true, 0, false, 0, false);
    WorksAlone(v, a2);
    assert a2.fails + 1 == 1 && Wrap32(1) == 1;
  }

  /** So it starts the next round without having ended the one before. */
  lemma OverrunPoint(v: Point -> bool, b: Point)
    requires Closed(v) && v(b) && b == Point(R.Blocked(1), 0, 1, R.CheckStart, true, 1, true, 0, false)
    ensures v(Point(R.Blocked(2), 0, 1, R.CheckEnd, true, 2, true, 1, true))
  {
    var b1 := Watched(b, true);
    assert v(b1) && b1 == b.(monitor := R.Start);
    assert v(Started(b1));
    CountsIn(v, Point(R.Woken(1), 0, 0, R.CheckEnd, true, 1, false, 1, true));
    WorksAlone(v, Point(R.Testing(1), 1, 0, R.CheckEnd, true, 1, false, 1, true));
  }

  lemma LeftoverPoint(v: Point -> bool, leftover: u32)
    requires Closed(v) && v(First(leftover))
    ensures v(Point(R.Blocked(1), 0, 1, R.CheckEnd, true, Wrap32(leftover + 1), true, leftover, false))
  {
    FirstStart(v, leftover);
    CountsIn(v, Point(R.Woken(0), 0, 0, R.CheckEnd, true, leftover, false, leftover, false));
    WorksAlone(v, Point(R.Testing(0), 1, 0, R.CheckEnd, true, leftover, false, leftover, false));
  }

  /** A round that starts after the threads have finished the one before, but before the monitor has ended
      it, reports the failures of both: two, where its only get failed once. */
  lemma OverrunIsMiscounted(limits: O.Limits) returns (trace: seq<State>, steps: seq<Step>)
    ensures steps != [] && trace != [] && EndsRound(trace, steps, 1, limits, |steps| - 1)
    ensures var s := trace[|steps| - 1];
            && trace[0].counters == ZERO && s.begun.overran && s.counters.snmpFail == 2
            && RoundTotal(s.reports, Failed(), |s.caches|) == 1
  {
    var a := Point(R.Blocked(2), 0, 1, R.CheckEnd, true, 2, true, 1, true);
    FirstVisited(0, limits);
    VisitedIsClosed(0, limits);
    LooksTooEarly(a => Visited(a, 0, limits));
    OverrunPoint(a => Visited(a, 0, limits), Point(R.Blocked(1), 0, 1, R.CheckStart, true, 1, true, 0, false));
    trace, steps := RoundEnds(a, 0, limits);
    OneFailure(trace[|steps| - 1], a);
  }

  /** After a reload the first round reports what the threads before had left, too. */
  lemma LeftoverIsMiscounted(leftover: u32, limits: O.Limits) returns (trace: seq<State>, steps: seq<Step>)
    ensures steps != [] && trace != [] && EndsRound(trace, steps, 1, limits, |steps| - 1)
    ensures var s := trace[|steps| - 1];
            && trace[0].counters.snmpFail == leftover && !s.begun.overran && s.counters.snmpFail == Wrap32(leftover + 1)
            && RoundTotal(s.reports, Failed(), |s.caches|) == 1
  {
    var a := Point(R.Blocked(1), 0, 1, R.CheckEnd, true, Wrap32(leftover + 1), true, leftover, false);
    FirstVisited(leftover, limits);
    VisitedIsClosed(leftover, limits);
    LeftoverPoint(a => Visited(a, leftover, limits), leftover);
    trace, steps := RoundEnds(a, leftover, limits);
    OneFailure(trace[|steps| - 1], a);
  }
}
