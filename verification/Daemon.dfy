/** The whole daemon at work: the pollers and the monitor of Rounds, each poller taking the host it holds
    through get_clinserts and process_queries (src/poller.c) before it lets go of it, around the queue
    and the database threads of Ownership, with the row caches and the shared statistics. */
module Daemon {
  import opened Words
  import opened Targets
  import C = Clinsert
  import E = EndToEnd
  import O = Ownership
  import P = Poller
  import R = Rounds
  import Sql

  /** The counters of the shared statistics that pollers add to. */
  datatype Counters = Counters(insertRows: u32, insertQueries: u32, snmpFail: u32, snmpSuccess: u32)

  const ZERO := Counters(0, 0, 0, 0)

  /** A poller at work on its host: whether the host is polled, and the inserts and values queued since. */
  datatype Local = Local(polled: bool, queries: nat, values: nat)

  const AWAY := Local(false, 0, 0)

  /** A host's part in a round: what its rows answered and what became of it. */
  datatype Report = Report(answers: seq<P.Answer>, poll: P.Poll)

  /** What the last start of a round found; `overran` says that it came before the previous round ended. */
  datatype Begun = Begun(rows: seq<seq<Target>>, own: O.State, counters: Counters, overran: bool)

  datatype State = State(
    rounds: R.State, own: O.State, caches: seq<seq<Target>>, locals: seq<Local>, counters: Counters,
    begun: Begun, reports: map<nat, Report>)

  datatype Step =
    | Poll(i: nat, answers: seq<P.Answer>) // get_clinserts on the host that poller `i` holds
    | Queue(call: O.Step)                  // a call on the queue, by a poller or a database thread
    | Return(i: nat)                       // process_queries ends, and with it process_host
    | Other(move: R.Step)                  // any other step of a poller, the monitor or a signal handler

  predicate AtWork(s: State, i: nat) {
    && i < |s.rounds.pollers| && i < |s.locals| && i < |s.own.producers|
    && s.rounds.pollers[i].Holding? && s.own.producers[i].at == |s.own.producers[i].list|
  }

  ghost predicate Enabled(s: State, step: Step) {
    match step
    case Poll(i, answers) =>
      && AtWork(s, i) && !s.locals[i].polled
      && var h := s.rounds.pollers[i].host; h < |s.caches| && P.AllPollable(s.caches[h], answers)
    case Queue(q) => !q.Build? && O.Enabled(s.own, q) && (q.Send? ==> q.p < |s.locals|)
    case Return(i) => AtWork(s, i) && s.locals[i].polled
    case Other(r) => R.Enabled(s.rounds, r) && !(r.PollerStep? && s.rounds.pollers[r.i].Holding?)
  }

  /** The sleeps do their work, as in Rounds. */
  ghost predicate Allowed(s: State, step: Step) {
    Enabled(s, step) && (step.Other? ==> R.Allowed(s.rounds, step.move))
  }

  function Do(s: State, step: Step, limits: O.Limits): State
    requires Enabled(s, step)
  {
    match step
    case Poll(i, answers) => DoPoll(s, i, answers, limits)
    case Queue(q) => DoQueue(s, q, limits)
    case Return(i) => DoReturn(s, i)
    case Other(r) =>
      var s' := s.(rounds := R.Do(s.rounds, r, |s.caches|));
      if r.MonitorStep? && s.rounds.monitor.Start? then DoStart(s', s.rounds.started)
      else if r.MonitorStep? && R.Ends(s.rounds) then DoEnd(s')
      else s'
  }

  function DoPoll(s: State, i: nat, answers: seq<P.Answer>, limits: O.Limits): State
    requires Enabled(s, Poll(i, answers))
  {
    var h := s.rounds.pollers[i].host;
    var poll := P.PollRows(s.caches[h], answers, limits.maxErrors);
    s.(own := O.Do(s.own, O.Build(i, s.caches[h], answers), limits),
       caches := s.caches[h := poll.rows],
       locals := s.locals[i := Local(true, 0, 0)],
       counters := s.counters.(snmpFail := Wrap32(s.counters.snmpFail + poll.failed),
                               snmpSuccess := Wrap32(s.counters.snmpSuccess + poll.polled - poll.failed)),
       reports := s.reports[h := Report(answers, poll)])
  }

  function DoQueue(s: State, q: O.Step, limits: O.Limits): State
    requires Enabled(s, Queue(q))
  {
    var own := O.Do(s.own, q, limits);
    if q.Send? && |own.pushed| > |s.own.pushed| then
      var l, insert := s.locals[q.p], own.pushed[|s.own.pushed|].insert;
      s.(own := own, locals := s.locals[q.p := l.(queries := l.queries + 1, values := l.values + |insert.values|)])
    else s.(own := own)
  }

  function DoReturn(s: State, i: nat): State
    requires Enabled(s, Return(i))
  {
    var l := s.locals[i];
    s.(rounds := R.Do(s.rounds, R.PollerStep(i), |s.caches|),
       locals := s.locals[i := AWAY],
       counters := s.counters.(insertRows := Wrap32(s.counters.insertRows + l.values),
                               insertQueries := Wrap32(s.counters.insertQueries + l.queries)))
  }

  /** A start: the history begins anew. */
  function DoStart(s: State, overran: bool): State {
    s.(begun := Begun(s.caches, s.own, s.counters, overran), reports := map[])
  }

  /** end_iteration zeroes the counters. */
  function DoEnd(s: State): State {
    s.(counters := ZERO, begun := s.begun.(counters := ZERO))
  }

  /** run_threads zeroes the insert counters but leaves those of the gets as the run before left them. */
  function Init(n: nat, consumers: nat, rows: seq<seq<Target>>, snmpFail: u32, snmpSuccess: u32): State {
    var counters := Counters(0, 0, snmpFail, snmpSuccess);
    var own := O.State(seq(n, i => O.Producer([], 0, None)), [], seq(consumers, i => O.Idle), [], [], [], [], [], [], []);
    State(R.Init(n), own, rows, seq(n, i => AWAY), counters, Begun(rows, own, counters, false), map[])
  }

  ghost predicate IsInit(s: State, n: nat) {
    exists consumers, rows, snmpFail, snmpSuccess :: s == Init(n, consumers, rows, snmpFail, snmpSuccess)
  }

  ghost predicate IsRun(trace: seq<State>, steps: seq<Step>, n: nat, limits: O.Limits) {
    && |trace| == |steps| + 1
    && IsInit(trace[0], n)
    && forall k :: 0 <= k < |steps| ==> Allowed(trace[k], steps[k]) && trace[k + 1] == Do(trace[k], steps[k], limits)
  }

  lemma RunGrows(trace: seq<State>, steps: seq<Step>, step: Step, n: nat, limits: O.Limits)
    requires IsRun(trace, steps, n, limits) && Allowed(trace[|steps|], step)
    ensures IsRun(trace + [Do(trace[|steps|], step, limits)], steps + [step], n, limits)
  {
    var trace', steps' := trace + [Do(trace[|steps|], step, limits)], steps + [step];
    forall k | 0 <= k < |steps'|
      ensures Allowed(trace'[k], steps'[k]) && trace'[k + 1] == Do(trace'[k], steps'[k], limits)
    {
      if k < |steps| {
        assert trace'[k] == trace[k] && trace'[k + 1] == trace[k + 1] && steps'[k] == steps[k];
      }
    }
  }

  // Who works on what.

  ghost predicate Shape(s: State) {
    |s.locals| == |s.own.producers| == |s.rounds.pollers| && |s.begun.rows| == |s.caches|
  }

  /** A poller's part: polled is exactly what has been reported, and who is not polled has nothing to send. */
  ghost predicate PollerInv(s: State, i: nat)
    requires Shape(s) && i < |s.locals|
  {
    var p, l := s.rounds.pollers[i], s.locals[i];
    && (p.Holding? ==> p.host < |s.caches| && (l.polled <==> p.host in s.reports))
    && (!p.Holding? ==> !l.polled)
    && (!l.polled ==> l == AWAY && s.own.producers[i].at == |s.own.producers[i].list|)
  }

  /** A host's part: reported hosts are handed out and polled once, from the rows the round found. */
  ghost predicate HostInv(s: State, limits: O.Limits, h: nat)
    requires Shape(s) && h < |s.caches|
  {
    if h in s.reports then
      var r := s.reports[h];
      && P.AllPollable(s.begun.rows[h], r.answers)
      && r.poll == P.PollRows(s.begun.rows[h], r.answers, limits.maxErrors) && s.caches[h] == r.poll.rows
    else s.caches[h] == s.begun.rows[h]
  }

  ghost predicate WorkInv(s: State, limits: O.Limits) {
    && Shape(s)
    && (forall i :: 0 <= i < |s.locals| ==> PollerInv(s, i))
    && (forall h :: 0 <= h < |s.caches| ==> HostInv(s, limits, h))
    && (forall h :: h in s.reports ==> h < s.rounds.next)
    && (forall h: nat :: R.Times(s.rounds.processed, h, |s.rounds.processed|) > 0 ==> h in s.reports)
  }

  lemma PollKeepsWork(s: State, i: nat, answers: seq<P.Answer>, limits: O.Limits)
    requires R.Inv(s.rounds, |s.caches|) && WorkInv(s, limits) && Enabled(s, Poll(i, answers))
    ensures WorkInv(DoPoll(s, i, answers, limits), limits)
  {
    var s' := DoPoll(s, i, answers, limits);
    var h := s.rounds.pollers[i].host;
    R.HoldersAreAlone(s.rounds, |s.caches|, i);
    assert PollerInv(s, i) && HostInv(s, limits, h);
    forall j | 0 <= j < |s'.locals|
      ensures PollerInv(s', j)
    {
      assert PollerInv(s, j);
    }
    forall j | 0 <= j < |s'.caches|
      ensures HostInv(s', limits, j)
    {
      assert HostInv(s, limits, j);
    }
  }

  lemma QueueKeepsWork(s: State, q: O.Step, limits: O.Limits)
    requires WorkInv(s, limits) && Enabled(s, Queue(q))
    ensures WorkInv(DoQueue(s, q, limits), limits)
  {
    var s' := DoQueue(s, q, limits);
    forall j | 0 <= j < |s'.locals|
      ensures PollerInv(s', j)
    {
      assert PollerInv(s, j);
    }
    forall j | 0 <= j < |s'.caches|
      ensures HostInv(s', limits, j)
    {
      assert HostInv(s, limits, j);
    }
  }

  lemma ReturnKeepsWork(s: State, i: nat, limits: O.Limits)
    requires WorkInv(s, limits) && Enabled(s, Return(i))
    ensures WorkInv(DoReturn(s, i), limits)
  {
    var s' := DoReturn(s, i);
    var p := s.rounds.pollers[i];
    assert PollerInv(s, i);
    forall j | 0 <= j < |s'.locals|
      ensures PollerInv(s', j)
    {
      assert PollerInv(s, j);
    }
    forall j | 0 <= j < |s'.caches|
      ensures HostInv(s', limits, j)
    {
      assert HostInv(s, limits, j);
    }
    forall h: nat | R.Times(s'.rounds.processed, h, |s'.rounds.processed|) > 0
      ensures h in s'.reports
    {
      R.TimesPrefix(s.rounds.processed, p.host, h, |s.rounds.processed|);
    }
  }

  /** The pollers after a step in which none lets go of a host. */
  lemma OtherKeepsPollers(s: State, r: R.Step, i: nat)
    requires Shape(s) && Enabled(s, Other(r)) && i < |s.rounds.pollers|
    ensures var s' := R.Do(s.rounds, r, |s.caches|);
            && |s'.pollers| == |s.rounds.pollers|
            && (s.rounds.pollers[i].Holding? ==> s'.pollers[i] == s.rounds.pollers[i])
            && (s'.pollers[i].Holding? && !s.rounds.pollers[i].Holding? ==>
                  s'.pollers[i].host == s.rounds.next < s'.next && s.rounds.next < |s.caches|)
  {
    match r {
      case PollerStep(j) => assert s.rounds.pollers[i := s.rounds.pollers[i]] == s.rounds.pollers;
      case _ => assert R.Wake(s.rounds.pollers[i]).Holding? <==> s.rounds.pollers[i].Holding?;
    }
  }

  lemma OtherKeepsWork(s: State, r: R.Step, limits: O.Limits)
    requires R.Inv(s.rounds, |s.caches|) && WorkInv(s, limits) && Enabled(s, Other(r))
    requires !(r.MonitorStep? && s.rounds.monitor.Start?)
    ensures WorkInv(s.(rounds := R.Do(s.rounds, r, |s.caches|)), limits)
  {
    var s' := s.(rounds := R.Do(s.rounds, r, |s.caches|));
    forall i | 0 <= i < |s'.locals|
      ensures PollerInv(s', i)
    {
      assert PollerInv(s, i);
      OtherKeepsPollers(s, r, i);
    }
    forall j | 0 <= j < |s'.caches|
      ensures HostInv(s', limits, j)
    {
      assert HostInv(s, limits, j);
    }
  }

  /** At a start nobody holds a host. */
  lemma StartKeepsWork(s: State, due: bool, limits: O.Limits)
    requires R.Inv(s.rounds, |s.caches|) && WorkInv(s, limits) && s.rounds.monitor.Start?
    ensures WorkInv(DoStart(s.(rounds := R.DoMonitor(s.rounds, due)), s.rounds.started), limits)
  {
    var s' := DoStart(s.(rounds := R.DoMonitor(s.rounds, due)), s.rounds.started);
    forall i | 0 <= i < |s'.locals|
      ensures PollerInv(s', i)
    {
      assert PollerInv(s, i);
      assert !s.rounds.pollers[i].Holding?;
    }
  }

  lemma EndKeepsWork(s: State, limits: O.Limits)
    requires WorkInv(s, limits)
    ensures WorkInv(DoEnd(s), limits)
  {
    var s' := DoEnd(s);
    forall i | 0 <= i < |s'.locals|
      ensures PollerInv(s', i)
    {
      assert PollerInv(s, i);
    }
    forall j | 0 <= j < |s'.caches|
      ensures HostInv(s', limits, j)
    {
      assert HostInv(s, limits, j);
    }
  }

  lemma StepKeepsWork(s: State, step: Step, limits: O.Limits)
    requires R.Inv(s.rounds, |s.caches|) && WorkInv(s, limits) && Enabled(s, step)
    ensures WorkInv(Do(s, step, limits), limits)
  {
    match step {
      case Poll(i, answers) => PollKeepsWork(s, i, answers, limits);
      case Queue(q) => QueueKeepsWork(s, q, limits);
      case Return(i) => ReturnKeepsWork(s, i, limits);
      case Other(r) =>
        if r.MonitorStep? && s.rounds.monitor.Start? {
          StartKeepsWork(s, r.due, limits);
        } else {
          OtherKeepsWork(s, r, limits);
          EndKeepsWork(s.(rounds := R.Do(s.rounds, r, |s.caches|)), limits);
        }
    }
  }

  // Totals over the hosts of a round.

  function RoundTotal(reports: map<nat, Report>, m: P.Poll -> int, n: nat): int {
    if n == 0 then 0 else RoundTotal(reports, m, n - 1) + if n - 1 in reports then m(reports[n - 1].poll) else 0
  }

  lemma {:induction false} OneMoreReport(reports: map<nat, Report>, h: nat, r: Report, m: P.Poll -> int, n: nat)
    requires h !in reports
    ensures RoundTotal(reports[h := r], m, n) == RoundTotal(reports, m, n) + if h < n then m(r.poll) else 0
  {
    if n == 0 {
    } else {
      OneMoreReport(reports, h, r, m, n - 1);
    }
  }

  lemma {:induction false} NoReports(m: P.Poll -> int, n: nat)
    ensures RoundTotal(map[], m, n) == 0
  {
    if n == 0 {
    } else {
      NoReports(m, n - 1);
    }
  }

  /** Any measure of the samples a host contributes. */
  function SampleSum(g: C.Sample -> nat): P.Poll -> int {
    (p: P.Poll) => C.Sum(p.samples, g, |p.samples|)
  }

  function Failed(): P.Poll -> int {
    (p: P.Poll) => p.failed
  }

  function Succeeded(): P.Poll -> int {
    (p: P.Poll) => p.polled - p.failed
  }

  // The books of a round.

  /** The queue side balances now and did when the round began; what was accepted since is what the hosts
      reported; and the histories have only grown. */
  ghost predicate RoundBooks(own: O.State, base: O.State, reports: map<nat, Report>, nhosts: nat, g: C.Sample -> nat) {
    && E.Books(own, g) && E.Books(base, g)
    && C.Sum(own.accepted, g, |own.accepted|)
       == C.Sum(base.accepted, g, |base.accepted|) + RoundTotal(reports, SampleSum(g), nhosts)
    && base.done <= own.done && base.freed <= own.freed && base.failed <= own.failed
  }

  ghost predicate BookInv(s: State, g: C.Sample -> nat) {
    RoundBooks(s.own, s.begun.own, s.reports, |s.caches|, g)
  }

  lemma HistoriesGrow(s: O.State, q: O.Step, limits: O.Limits)
    requires O.Enabled(s, q)
    ensures var s' := O.Do(s, q, limits);
            && s.done <= s'.done && s.freed <= s'.freed && s.failed <= s'.failed
            && (!q.Build? ==> s'.accepted == s.accepted && s.pushed <= s'.pushed)
            && (q.Build? ==> s'.pushed == s.pushed)
  {
  }

  lemma BuildAccepts(own: O.State, p: nat, rows: seq<Target>, answers: seq<P.Answer>, limits: O.Limits, g: C.Sample -> nat)
    requires O.Enabled(own, O.Build(p, rows, answers))
    ensures var own', samples := O.Do(own, O.Build(p, rows, answers), limits),
                                 P.PollRows(rows, answers, limits.maxErrors).samples;
            && C.Sum(own'.accepted, g, |own'.accepted|) == C.Sum(own.accepted, g, |own.accepted|) + C.Sum(samples, g, |samples|)
            && own'.done == own.done && own'.freed == own.freed && own'.failed == own.failed
  {
    var samples := P.PollRows(rows, answers, limits.maxErrors).samples;
    C.SumConcat(own.accepted, samples, g, |samples|);
  }

  lemma BuildKeepsBooks(own: O.State, base: O.State, reports: map<nat, Report>, nhosts: nat, g: C.Sample -> nat,
                        p: nat, rows: seq<Target>, answers: seq<P.Answer>, h: nat, limits: O.Limits)
    requires RoundBooks(own, base, reports, nhosts, g) && O.Enabled(own, O.Build(p, rows, answers))
    requires h !in reports && h < nhosts
    ensures var r := Report(answers, P.PollRows(rows, answers, limits.maxErrors));
            RoundBooks(O.Do(own, O.Build(p, rows, answers), limits), base, reports[h := r], nhosts, g)
  {
    var poll := P.PollRows(rows, answers, limits.maxErrors);
    E.StepKeepsBooks(own, O.Build(p, rows, answers), limits, g);
    BuildAccepts(own, p, rows, answers, limits, g);
    OneMoreReport(reports, h, Report(answers, poll), SampleSum(g), nhosts);
  }

  lemma PollKeepsBooks(s: State, i: nat, answers: seq<P.Answer>, limits: O.Limits, g: C.Sample -> nat)
    requires WorkInv(s, limits) && BookInv(s, g) && Enabled(s, Poll(i, answers))
    ensures BookInv(DoPoll(s, i, answers, limits), g)
  {
    var h := s.rounds.pollers[i].host;
    assert PollerInv(s, i);
    BuildKeepsBooks(s.own, s.begun.own, s.reports, |s.caches|, g, i, s.caches[h], answers, h, limits);
  }

  lemma QueueKeepsBooks(s: State, q: O.Step, limits: O.Limits, g: C.Sample -> nat)
    requires BookInv(s, g) && Enabled(s, Queue(q))
    ensures BookInv(DoQueue(s, q, limits), g)
  {
    E.StepKeepsBooks(s.own, q, limits, g);
    HistoriesGrow(s.own, q, limits);
  }

  lemma OtherKeepsBooks(s: State, r: R.Step, limits: O.Limits, g: C.Sample -> nat)
    requires BookInv(s, g) && Enabled(s, Other(r))
    ensures BookInv(Do(s, Other(r), limits), g)
  {
    var s' := Do(s, Other(r), limits);
    assert s'.own == s.own && s'.caches == s.caches;
    if r.MonitorStep? && s.rounds.monitor.Start? {
      NoReports(SampleSum(g), |s.caches|);
      assert s'.begun.own == s.own && s'.reports == map[];
    } else {
      assert s'.begun.own == s.begun.own && s'.reports == s.reports;
    }
  }

  lemma StepKeepsBooks(s: State, step: Step, limits: O.Limits, g: C.Sample -> nat)
    requires WorkInv(s, limits) && BookInv(s, g) && Enabled(s, step)
    ensures BookInv(Do(s, step, limits), g)
  {
    match step {
      case Poll(i, answers) => PollKeepsBooks(s, i, answers, limits, g);
      case Queue(q) => QueueKeepsBooks(s, q, limits, g);
      case Return(_) =>
      case Other(r) => OtherKeepsBooks(s, r, limits, g);
    }
  }

  // The counters of a round.

  function LocalQueries(locals: seq<Local>, n: nat): nat
    requires n <= |locals|
  {
    if n == 0 then 0 else LocalQueries(locals, n - 1) + locals[n - 1].queries
  }

  function LocalValues(locals: seq<Local>, n: nat): nat
    requires n <= |locals|
  {
    if n == 0 then 0 else LocalValues(locals, n - 1) + locals[n - 1].values
  }

  lemma {:induction false} OneLocal(a: seq<Local>, i: nat, l: Local, n: nat)
    requires i < |a| && n <= |a|
    ensures LocalQueries(a[i := l], n) == LocalQueries(a, n) + if i < n then l.queries - a[i].queries else 0
    ensures LocalValues(a[i := l], n) == LocalValues(a, n) + if i < n then l.values - a[i].values else 0
  {
    if n == 0 {
    } else {
      OneLocal(a, i, l, n - 1);
    }
  }

  lemma {:induction false} AllAway(a: seq<Local>, n: nat)
    requires n <= |a| && forall i :: 0 <= i < n ==> a[i] == AWAY
    ensures LocalQueries(a, n) == 0 && LocalValues(a, n) == 0
  {
    if n == 0 {
    } else {
      AllAway(a, n - 1);
    }
  }

  function Size(): O.Item -> nat {
    (item: O.Item) => |item.insert.values|
  }

  /** The inserts queued since the round began, and their values. */
  function QueuedQueries(own: O.State, base: O.State): int {
    |own.pushed| - |base.pushed|
  }

  function QueuedValues(own: O.State, base: O.State): int {
    O.Weigh(own.pushed, Size(), |own.pushed|) - O.Weigh(base.pushed, Size(), |base.pushed|)
  }

  /** What these many rows, inserts, failed and successful gets make of the counters a round has found. */
  function Added(base: Counters, values: int, queries: int, failures: int, successes: int): Counters {
    Counters(Wrap32(base.insertRows + values), Wrap32(base.insertQueries + queries),
             Wrap32(base.snmpFail + failures), Wrap32(base.snmpSuccess + successes))
  }

  /** The counters when these many queries and values were counted and these hosts have reported. */
  function Counted(base: Counters, queries: int, values: int, reports: map<nat, Report>, nhosts: nat): Counters {
    Added(base, values, queries, RoundTotal(reports, Failed(), nhosts), RoundTotal(reports, Succeeded(), nhosts))
  }

  /** While a round is taken to be running the counters hold what its hosts have reported and what was
      queued in it, less what pollers have yet to add; otherwise they are as the next round will find them. */
  ghost predicate CountInv(s: State) {
    var n, base := |s.locals|, s.begun;
    s.counters ==
    if s.rounds.started
    then Counted(base.counters, QueuedQueries(s.own, base.own) - LocalQueries(s.locals, n),
                 QueuedValues(s.own, base.own) - LocalValues(s.locals, n), s.reports, |s.caches|)
    else base.counters
  }

  ghost predicate ListsInBounds(own: O.State) {
    forall p :: 0 <= p < |own.producers| ==> own.producers[p].at <= |own.producers[p].list|
  }

  lemma StepKeepsBounds(own: O.State, q: O.Step, limits: O.Limits)
    requires ListsInBounds(own) && O.Enabled(own, q)
    ensures ListsInBounds(O.Do(own, q, limits))
  {
  }

  lemma {:induction false} RunKeepsBounds(trace: seq<State>, steps: seq<Step>, n: nat, limits: O.Limits, k: nat)
    requires IsRun(trace, steps, n, limits) && k < |trace|
    ensures ListsInBounds(trace[k].own)
  {
    if k == 0 {
    } else {
      RunKeepsBounds(trace, steps, n, limits, k - 1);
      var s, step := trace[k - 1], steps[k - 1];
      assert Allowed(s, step) && trace[k] == Do(s, step, limits);
      match step {
        case Poll(i, answers) => StepKeepsBounds(s.own, O.Build(i, s.caches[s.rounds.pollers[i].host], answers), limits);
        case Queue(q) => StepKeepsBounds(s.own, q, limits);
        case Return(_) =>
        case Other(_) =>
      }
    }
  }

  /** Whoever holds a host does so in a round. */
  lemma OnlyInRound(s: State, i: nat)
    requires R.QuietInv(s.rounds) && i < |s.rounds.pollers| && s.rounds.pollers[i].Holding?
    ensures s.rounds.started
  {
  }

  lemma CountedMore(base: Counters, queries: int, values: int, reports: map<nat, Report>, nhosts: nat,
                    h: nat, r: Report)
    requires h !in reports && h < nhosts
    ensures var c := Counted(base, queries, values, reports, nhosts);
            Counted(base, queries, values, reports[h := r], nhosts)
            == c.(snmpFail := Wrap32(c.snmpFail + r.poll.failed),
                  snmpSuccess := Wrap32(c.snmpSuccess + r.poll.polled - r.poll.failed))
  {
    var fail, success := RoundTotal(reports, Failed(), nhosts), RoundTotal(reports, Succeeded(), nhosts);
    OneMoreReport(reports, h, r, Failed(), nhosts);
    OneMoreReport(reports, h, r, Succeeded(), nhosts);
    WrapAdd32(base.snmpFail + fail, r.poll.failed);
    WrapAdd32(base.snmpSuccess + success, r.poll.polled - r.poll.failed);
  }

  lemma AddedToCounted(base: Counters, queries: int, values: int, reports: map<nat, Report>, nhosts: nat, l: Local)
    ensures var c := Counted(base, queries, values, reports, nhosts);
            Counted(base, queries + l.queries, values + l.values, reports, nhosts)
            == c.(insertRows := Wrap32(c.insertRows + l.values), insertQueries := Wrap32(c.insertQueries + l.queries))
  {
    WrapAdd32(base.insertQueries + queries, l.queries);
    WrapAdd32(base.insertRows + values, l.values);
  }

  lemma PollKeepsCount(s: State, i: nat, answers: seq<P.Answer>, limits: O.Limits)
    requires R.QuietInv(s.rounds) && WorkInv(s, limits) && CountInv(s) && Enabled(s, Poll(i, answers))
    ensures CountInv(DoPoll(s, i, answers, limits))
  {
    var h := s.rounds.pollers[i].host;
    var n, base := |s.locals|, s.begun;
    var r := Report(answers, P.PollRows(s.caches[h], answers, limits.maxErrors));
    assert PollerInv(s, i);
    OnlyInRound(s, i);
    OneLocal(s.locals, i, Local(true, 0, 0), n);
    HistoriesGrow(s.own, O.Build(i, s.caches[h], answers), limits);
    assert DoPoll(s, i, answers, limits).own.pushed == s.own.pushed;
    CountedMore(base.counters, QueuedQueries(s.own, base.own) - LocalQueries(s.locals, n),
                QueuedValues(s.own, base.own) - LocalValues(s.locals, n), s.reports, |s.caches|, h, r);
  }

  /** A push is counted by its poller first. */
  lemma PushIsLocal(s: State, q: O.Step, limits: O.Limits)
    requires WorkInv(s, limits) && Enabled(s, Queue(q))
    ensures var s' := DoQueue(s, q, limits);
            && QueuedQueries(s'.own, s.begun.own) - LocalQueries(s'.locals, |s.locals|)
               == QueuedQueries(s.own, s.begun.own) - LocalQueries(s.locals, |s.locals|)
            && QueuedValues(s'.own, s.begun.own) - LocalValues(s'.locals, |s.locals|)
               == QueuedValues(s.own, s.begun.own) - LocalValues(s.locals, |s.locals|)
  {
    var s' := DoQueue(s, q, limits);
    if q.Send? && |s'.own.pushed| > |s.own.pushed| {
      var item := s.own.producers[q.p].list[s.own.producers[q.p].at];
      assert s'.own.pushed == s.own.pushed + [item];
      O.WeighAppend(s.own.pushed, item, Size());
      OneLocal(s.locals, q.p, s'.locals[q.p], |s.locals|);
    } else {
      assert s'.own.pushed == s.own.pushed;
    }
  }

  lemma QueueKeepsCount(s: State, q: O.Step, limits: O.Limits)
    requires WorkInv(s, limits) && CountInv(s) && Enabled(s, Queue(q))
    ensures CountInv(DoQueue(s, q, limits))
  {
    PushIsLocal(s, q, limits);
  }

  lemma ReturnMoves(s: State, i: nat)
    requires Enabled(s, Return(i))
    ensures var s', l := DoReturn(s, i), s.locals[i];
            && s'.own == s.own && s'.begun == s.begun && s'.reports == s.reports && |s'.caches| == |s.caches|
            && |s'.locals| == |s.locals| && s'.rounds.started == s.rounds.started
            && LocalQueries(s'.locals, |s.locals|) == LocalQueries(s.locals, |s.locals|) - l.queries
            && LocalValues(s'.locals, |s.locals|) == LocalValues(s.locals, |s.locals|) - l.values
            && s'.counters == s.counters.(insertRows := Wrap32(s.counters.insertRows + l.values),
                                          insertQueries := Wrap32(s.counters.insertQueries + l.queries))
  {
    OneLocal(s.locals, i, AWAY, |s.locals|);
  }

  lemma ReturnKeepsCount(s: State, i: nat, limits: O.Limits)
    requires R.QuietInv(s.rounds) && WorkInv(s, limits) && CountInv(s) && Enabled(s, Return(i))
    ensures CountInv(DoReturn(s, i))
  {
    var n, base, l := |s.locals|, s.begun, s.locals[i];
    OnlyInRound(s, i);
    ReturnMoves(s, i);
    AddedToCounted(base.counters, QueuedQueries(s.own, base.own) - LocalQueries(s.locals, n),
                   QueuedValues(s.own, base.own) - LocalValues(s.locals, n), s.reports, |s.caches|, l);
  }

  lemma StartKeepsCount(s: State, due: bool, limits: O.Limits)
    requires R.QuietInv(s.rounds) && WorkInv(s, limits) && s.rounds.monitor.Start?
    ensures CountInv(DoStart(s.(rounds := R.DoMonitor(s.rounds, due)), s.rounds.started))
  {
    forall i | 0 <= i < |s.locals|
      ensures s.locals[i] == AWAY
    {
      assert PollerInv(s, i);
    }
    AllAway(s.locals, |s.locals|);
    NoReports(Failed(), |s.caches|);
    NoReports(Succeeded(), |s.caches|);
  }

  lemma OtherKeepsCount(s: State, r: R.Step, limits: O.Limits)
    requires R.QuietInv(s.rounds) && WorkInv(s, limits) && CountInv(s) && Enabled(s, Other(r))
    ensures CountInv(Do(s, Other(r), limits))
  {
    if r.MonitorStep? && s.rounds.monitor.Start? {
      StartKeepsCount(s, r.due, limits);
    } else {
      assert R.Do(s.rounds, r, |s.caches|).started == (s.rounds.started && !(r.MonitorStep? && R.Ends(s.rounds)));
    }
  }

  lemma StepKeepsCount(s: State, step: Step, limits: O.Limits)
    requires R.QuietInv(s.rounds) && WorkInv(s, limits) && CountInv(s) && Enabled(s, step)
    ensures CountInv(Do(s, step, limits))
  {
    match step {
      case Poll(i, answers) => PollKeepsCount(s, i, answers, limits);
      case Queue(q) => QueueKeepsCount(s, q, limits);
      case Return(i) => ReturnKeepsCount(s, i, limits);
      case Other(r) => OtherKeepsCount(s, r, limits);
    }
  }

  // Whole runs.

  /** A round that started after the one before it had ended found the counters at zero, or as they were
      when the threads were created. */
  ghost predicate BaseInv(s: State, first: Counters) {
    if s.rounds.started then s.begun.overran || s.begun.counters in {ZERO, first}
    else s.begun.counters in {ZERO, first}
  }

  ghost predicate Inv(s: State, limits: O.Limits, g: C.Sample -> nat, first: Counters) {
    R.Inv(s.rounds, |s.caches|) && WorkInv(s, limits) && BookInv(s, g) && CountInv(s) && BaseInv(s, first)
  }

  lemma InitInv(n: nat, consumers: nat, rows: seq<seq<Target>>, snmpFail: u32, snmpSuccess: u32,
                limits: O.Limits, g: C.Sample -> nat)
    requires n < TWO32
    ensures Inv(Init(n, consumers, rows, snmpFail, snmpSuccess), limits, g, Counters(0, 0, snmpFail, snmpSuccess))
  {
    var s := Init(n, consumers, rows, snmpFail, snmpSuccess);
    R.InitInv(n, |rows|);
    E.InitialBooks(s.own, g);
    NoReports(SampleSum(g), |rows|);
  }

  /** The rounds of the daemon are rounds of the protocol. */
  lemma StepKeepsRounds(s: State, step: Step, limits: O.Limits)
    requires R.Inv(s.rounds, |s.caches|) && Allowed(s, step)
    ensures R.Inv(Do(s, step, limits).rounds, |s.caches|) && |Do(s, step, limits).caches| == |s.caches|
  {
    match step {
      case Poll(_, _) =>
      case Queue(_) =>
      case Return(i) => R.StepInv(s.rounds, R.PollerStep(i), |s.caches|);
      case Other(r) => R.StepInv(s.rounds, r, |s.caches|);
    }
  }

  lemma StepKeepsBase(s: State, step: Step, limits: O.Limits, first: Counters)
    requires CountInv(s) && BaseInv(s, first) && Enabled(s, step)
    ensures BaseInv(Do(s, step, limits), first)
  {
  }

  lemma StepInv(s: State, step: Step, limits: O.Limits, g: C.Sample -> nat, first: Counters)
    requires Inv(s, limits, g, first) && Allowed(s, step)
    ensures Inv(Do(s, step, limits), limits, g, first)
  {
    StepKeepsRounds(s, step, limits);
    StepKeepsWork(s, step, limits);
    StepKeepsBooks(s, step, limits, g);
    StepKeepsCount(s, step, limits);
    StepKeepsBase(s, step, limits, first);
  }

  lemma {:induction false} RunInv(trace: seq<State>, steps: seq<Step>, n: nat, limits: O.Limits, g: C.Sample -> nat, k: nat)
    requires IsRun(trace, steps, n, limits) && n < TWO32 && k < |trace|
    ensures Inv(trace[k], limits, g, trace[0].counters)
  {
    if k == 0 {
      var consumers, rows, snmpFail, snmpSuccess :| trace[0] == Init(n, consumers, rows, snmpFail, snmpSuccess);
      InitInv(n, consumers, rows, snmpFail, snmpSuccess, limits, g);
    } else {
      RunInv(trace, steps, n, limits, g, k - 1);
      StepInv(trace[k - 1], steps[k - 1], limits, g, trace[0].counters);
    }
  }

  /** The monitor is about to end a round that woke a poller, and no stop is requested. */
  ghost predicate EndsRound(trace: seq<State>, steps: seq<Step>, n: nat, limits: O.Limits, k: nat) {
    && IsRun(trace, steps, n, limits) && n < TWO32 && k < |steps|
    && steps[k].Other? && steps[k].move.MonitorStep? && R.Ends(trace[k].rounds)
    && trace[k].rounds.fired && !trace[k].rounds.stop
  }

  /** The report of every host, polled once, from the rows as the round found them. */
  ghost predicate AllReported(s: State, limits: O.Limits) {
    && |s.begun.rows| == |s.caches|
    && forall h :: 0 <= h < |s.caches| ==>
         && h in s.reports && P.AllPollable(s.begun.rows[h], s.reports[h].answers)
         && s.reports[h].poll == P.PollRows(s.begun.rows[h], s.reports[h].answers, limits.maxErrors)
         && s.caches[h] == s.reports[h].poll.rows
  }

  lemma EndReports(s: State, limits: O.Limits)
    requires R.Inv(s.rounds, |s.caches|) && WorkInv(s, limits)
    requires R.Ends(s.rounds) && R.Settled(s.rounds) && s.rounds.fired && !s.rounds.stop
    ensures AllReported(s, limits) && R.Complete(s.rounds, |s.caches|)
  {
    R.EndIsComplete(s.rounds, |s.caches|);
    forall h | 0 <= h < |s.caches|
      ensures h in s.reports && P.AllPollable(s.begun.rows[h], s.reports[h].answers)
      ensures s.reports[h].poll == P.PollRows(s.begun.rows[h], s.reports[h].answers, limits.maxErrors)
      ensures s.caches[h] == s.reports[h].poll.rows
    {
      assert R.Times(s.rounds.processed, h, |s.rounds.processed|) == 1;
      assert HostInv(s, limits, h);
    }
  }

  /** At the end of a round every host has been polled, exactly once and from the rows that the round
      found, and its caches are what that poll left. */
  lemma EveryHostReports(trace: seq<State>, steps: seq<Step>, n: nat, limits: O.Limits, k: nat)
    requires EndsRound(trace, steps, n, limits, k)
    ensures AllReported(trace[k], limits) && R.Complete(trace[k].rounds, |trace[k].caches|)
  {
    RunInv(trace, steps, n, limits, x => 0, k);
    assert Allowed(trace[k], steps[k]);
    EndReports(trace[k], limits);
  }

  lemma Since(a: seq<O.Item>, b: seq<O.Item>, f: O.Item -> nat)
    requires a <= b
    ensures O.Weigh(b, f, |b|) == O.Weigh(a, f, |a|) + O.Weigh(b[|a|..], f, |b| - |a|)
  {
    assert b == a + b[|a|..];
    O.WeighConcat(a, b[|a|..], f, |b| - |a|);
  }

  /** What has been settled since the round began. */
  function SettledSince(own: O.State, base: O.State, cfg: Sql.Config, m: (string, Sql.Row) -> nat): nat
    requires base.done <= own.done && base.freed <= own.freed && base.failed <= own.failed
  {
    E.Settled(cfg, own.done[|base.done|..], own.freed[|base.freed|..], own.failed[|base.failed|..], m)
  }

  lemma GoneSince(own: O.State, base: O.State, f: O.Item -> nat)
    requires base.done <= own.done && base.freed <= own.freed && base.failed <= own.failed
    ensures E.Gone(own.done, own.freed, own.failed, f)
         == E.Gone(base.done, base.freed, base.failed, f)
            + E.Gone(own.done[|base.done|..], own.freed[|base.freed|..], own.failed[|base.failed|..], f)
  {
    Since(base.done, own.done, f);
    Since(base.freed, own.freed, f);
    Since(base.failed, own.failed, f);
  }

  lemma BooksBalance(own: O.State, base: O.State, reports: map<nat, Report>, nhosts: nat, g: C.Sample -> nat)
    requires RoundBooks(own, base, reports, nhosts, g)
    ensures E.UnderWay(base, g) + RoundTotal(reports, SampleSum(g), nhosts)
         == E.UnderWay(own, g)
            + E.Gone(own.done[|base.done|..], own.freed[|base.freed|..], own.failed[|base.failed|..], E.Measure(g))
  {
    E.BooksBalance(own, g);
    E.BooksBalance(base, g);
    GoneSince(own, base, E.Measure(g));
  }

  lemma BooksSettle(own: O.State, base: O.State, reports: map<nat, Report>, nhosts: nat, cfg: Sql.Config,
                    m: (string, Sql.Row) -> nat)
    requires RoundBooks(own, base, reports, nhosts, E.Shown(cfg, m))
    ensures var g := E.Shown(cfg, m);
            E.UnderWay(base, g) + RoundTotal(reports, SampleSum(g), nhosts)
            == E.UnderWay(own, g) + SettledSince(own, base, cfg, m)
  {
    BooksBalance(own, base, reports, nhosts, E.Shown(cfg, m));
    E.SettledWeighs(cfg, own.done[|base.done|..], own.freed[|base.freed|..], own.failed[|base.failed|..], m);
  }

  /** End to end over a round, at any moment and for any measure of rows: what was under way when the round
      began, and the samples get_clinserts has accepted from the hosts since, are what is under way now
      and what has been settled since: executed as rows, filtered, freed or refused. */
  lemma RoundIsAccountedFor(trace: seq<State>, steps: seq<Step>, n: nat, limits: O.Limits, k: nat,
                            cfg: Sql.Config, m: (string, Sql.Row) -> nat)
    requires IsRun(trace, steps, n, limits) && n < TWO32 && k < |trace|
    ensures var s, g := trace[k], E.Shown(cfg, m);
            && s.begun.own.done <= s.own.done && s.begun.own.freed <= s.own.freed && s.begun.own.failed <= s.own.failed
            && E.UnderWay(s.begun.own, g) + RoundTotal(s.reports, SampleSum(g), |s.caches|)
               == E.UnderWay(s.own, g) + SettledSince(s.own, s.begun.own, cfg, m)
  {
    var s := trace[k];
    RunInv(trace, steps, n, limits, E.Shown(cfg, m), k);
    BooksSettle(s.own, s.begun.own, s.reports, |s.caches|, cfg, m);
  }

  /** When the round ends that is about all the hosts, and with the queue at rest all is settled. */
  lemma RestedRoundIsSettled(trace: seq<State>, steps: seq<Step>, n: nat, limits: O.Limits, k: nat,
                             cfg: Sql.Config, m: (string, Sql.Row) -> nat)
    requires EndsRound(trace, steps, n, limits, k) && E.AtRest(trace[k].own)
    ensures AllReported(trace[k], limits)
    ensures var s, g := trace[k], E.Shown(cfg, m);
            && s.begun.own.done <= s.own.done && s.begun.own.freed <= s.own.freed && s.begun.own.failed <= s.own.failed
            && E.UnderWay(s.begun.own, g) + RoundTotal(s.reports, SampleSum(g), |s.caches|)
               == SettledSince(s.own, s.begun.own, cfg, m)
  {
    EveryHostReports(trace, steps, n, limits, k);
    RoundIsAccountedFor(trace, steps, n, limits, k, cfg, m);
    E.RestHasNothing(trace[k].own, E.Shown(cfg, m));
  }

  /** What a host reports as failed and answered are the failed and the answered gets of its polled rows. */
  lemma ReportsCountGets(s: State, limits: O.Limits, h: nat)
    requires AllReported(s, limits) && h < |s.caches|
    ensures var r := s.reports[h];
            && r.poll.polled <= |r.answers| && Failed()(r.poll) == |P.FailedAt(r.answers, r.poll.polled)|
            && Succeeded()(r.poll) == |P.GotAt(r.answers, r.poll.polled)|
  {
    P.PollCountsGets(s.begun.rows[h], s.reports[h].answers, limits.maxErrors);
  }

  lemma EndCounts(s: State, limits: O.Limits)
    requires R.Inv(s.rounds, |s.caches|) && WorkInv(s, limits) && CountInv(s) && R.Ends(s.rounds)
    ensures s.counters == Counted(s.begun.counters, QueuedQueries(s.own, s.begun.own),
                                  QueuedValues(s.own, s.begun.own), s.reports, |s.caches|)
  {
    R.NoneCounted(s.rounds.pollers, |s.rounds.pollers|);
    forall i | 0 <= i < |s.locals|
      ensures s.locals[i] == AWAY
    {
      assert PollerInv(s, i);
    }
    AllAway(s.locals, |s.locals|);
  }

  lemma WrapIsOwn(base: u32, x: int)
    ensures Wrap32(base + x) == Wrap32(x) <==> base == 0
  {
    var m := 0x1_0000_0000;
    assert x == (x / m) * m + Wrap32(x);
    assert base + x == ((base + x) / m) * m + Wrap32(base + x);
  }

  /** The counters are the round's own exactly if it found them at zero. */
  /** The counters are a round's own exactly if it found them at zero. */
  lemma AddedIsOwn(base: Counters, values: int, queries: int, failures: int, successes: int)
    ensures Added(base, values, queries, failures, successes)
            == Counters(Wrap32(values), Wrap32(queries), Wrap32(failures), Wrap32(successes))
       <==> base == ZERO
  {
    WrapIsOwn(base.insertRows, values);
    WrapIsOwn(base.insertQueries, queries);
    WrapIsOwn(base.snmpFail, failures);
    WrapIsOwn(base.snmpSuccess, successes);
  }

  lemma EndFindsCounters(trace: seq<State>, steps: seq<Step>, n: nat, limits: O.Limits, k: nat)
    requires EndsRound(trace, steps, n, limits, k)
    ensures var s := trace[k];
            && s.counters == Added(s.begun.counters, QueuedValues(s.own, s.begun.own), QueuedQueries(s.own, s.begun.own),
                                   RoundTotal(s.reports, Failed(), |s.caches|), RoundTotal(s.reports, Succeeded(), |s.caches|))
            && (s.begun.overran || s.begun.counters in {ZERO, trace[0].counters})
  {
    RunInv(trace, steps, n, limits, x => 0, k);
    EndCounts(trace[k], limits);
  }

  lemma EndLeavesZero(trace: seq<State>, steps: seq<Step>, n: nat, limits: O.Limits, k: nat)
    requires EndsRound(trace, steps, n, limits, k)
    ensures trace[0].counters.insertRows == trace[0].counters.insertQueries == 0 && trace[k + 1].counters == ZERO
  {
    assert trace[k + 1] == Do(trace[k], steps[k], limits);
  }

  /** The statistics of a round, as its end reports them: modulo 2^32, the failures and successes of all the
      hosts and the inserts and values queued in the round, on top of what the round found. So they are
      the round's own if and only if it found the counters at zero. It did, or it was the first and found
      what an earlier run of the threads had left, unless the round before had not been ended. */
  lemma RoundIsCounted(trace: seq<State>, steps: seq<Step>, n: nat, limits: O.Limits, k: nat)
    requires EndsRound(trace, steps, n, limits, k)
    ensures AllReported(trace[k], limits)
    ensures var s := trace[k];
            var values, queries := QueuedValues(s.own, s.begun.own), QueuedQueries(s.own, s.begun.own);
            var failures := RoundTotal(s.reports, Failed(), |s.caches|);
            var successes := RoundTotal(s.reports, Succeeded(), |s.caches|);
            && s.counters == Added(s.begun.counters, values, queries, failures, successes)
            && (s.counters == Counters(Wrap32(values), Wrap32(queries), Wrap32(failures), Wrap32(successes))
                <==> s.begun.counters == ZERO)
            && (s.begun.overran || s.begun.counters in {ZERO, trace[0].counters})
            && trace[0].counters.insertRows == trace[0].counters.insertQueries == 0
    ensures trace[k + 1].counters == ZERO
  {
    var s := trace[k];
    EveryHostReports(trace, steps, n, limits, k);
    EndFindsCounters(trace, steps, n, limits, k);
    EndLeavesZero(trace, steps, n, limits, k);
    AddedIsOwn(s.begun.counters, QueuedValues(s.own, s.begun.own), QueuedQueries(s.own, s.begun.own),
               RoundTotal(s.reports, Failed(), |s.caches|), RoundTotal(s.reports, Succeeded(), |s.caches|));
  }

  /** A poller that holds a host can always take its next step: poll it, whatever it answers; then check and
      send each insert; then return. */
  lemma HolderCanGoOn(trace: seq<State>, steps: seq<Step>, n: nat, limits: O.Limits, k: nat, i: nat, answers: seq<P.Answer>)
    requires IsRun(trace, steps, n, limits) && n < TWO32 && k < |trace|
    requires i < |trace[k].rounds.pollers| && trace[k].rounds.pollers[i].Holding?
    ensures var s, h := trace[k], trace[k].rounds.pollers[i].host;
            && i < |s.locals| && i < |s.own.producers| && h < |s.caches|
            && if !s.locals[i].polled then P.AllPollable(s.caches[h], answers) ==> Allowed(s, Poll(i, answers))
               else if s.own.producers[i].at == |s.own.producers[i].list| then Allowed(s, Return(i))
               else if s.own.producers[i].space.None? then Allowed(s, Queue(O.CheckFree(i)))
               else Allowed(s, Queue(O.Send(i)))
  {
    RunInv(trace, steps, n, limits, x => 0, k);
    RunKeepsBounds(trace, steps, n, limits, k);
    assert PollerInv(trace[k], i);
  }
}
