/** The monitor thread's schedule (src/monitor.c) and what run_threads carries from one run to the
    next (src/main.c). Clock readings and idle checks are arbitrary observations. */
module Monitor {
  import opened Words
  import opened Cltime

  /** What one pass of the monitor loop sees: the clock, and whether no thread is active at the
      check that may start a round and at the check that may end one. */
  datatype Observation = Observation(now: int, idleAtStart: bool, idleAtEnd: bool)

  /** Where the monitor has got to: the starts, oldest first, the next start, the round it takes to be
      running (its start, or zero), and how many rounds it has ended. */
  datatype Progress = Progress(starts: seq<int>, next: int, running: int, ends: nat)

  function Initial(next: int): Progress {
    Progress([], next, 0, 0)
  }

  /** One pass of the loop: a round may start, and a running one may end. */
  function AfterPass(s: Progress, o: Observation, p: int): Progress
    requires p > 0
  {
    var s' := if o.idleAtStart && o.now >= s.next
              then Progress(s.starts + [o.now], NextInterval(o.now, p), o.now, s.ends)
              else s;
    if o.idleAtEnd && s'.running != 0 then s'.(running := 0, ends := s'.ends + 1) else s'
  }

  /** The passes over a run of observations. */
  function RunMonitor(observations: seq<Observation>, s: Progress, p: int): Progress
    requires p > 0
  {
    if observations == [] then s else RunMonitor(observations[1..], AfterPass(s, observations[0], p), p)
  }

  /** The daemon's life under one interval: each element is the run between two reloads. A new run knows
      of no running round. */
  function RunReloads(runs: seq<seq<Observation>>, s: Progress, p: int): Progress
    requires p > 0
  {
    if runs == [] then s else RunReloads(runs[1..], RunMonitor(runs[0], s.(running := 0), p), p)
  }

  function Flatten(runs: seq<seq<Observation>>): seq<Observation> {
    if runs == [] then [] else runs[0] + Flatten(runs[1..])
  }

  ghost predicate SlotsIncrease(starts: seq<int>, p: int)
    requires p > 0
  {
    forall i, j :: 0 <= i < j < |starts| ==> Slot(starts[i], p) < Slot(starts[j], p)
  }

  lemma {:induction false} RunMonitorConcat(a: seq<Observation>, b: seq<Observation>, s: Progress, p: int)
    requires p > 0
    ensures RunMonitor(a + b, s, p) == RunMonitor(b, RunMonitor(a, s, p), p)
  {
    if a == [] {
      assert a + b == b;
    } else {
      assert (a + b)[1..] == a[1..] + b;
      RunMonitorConcat(a[1..], b, AfterPass(s, a[0], p), p);
    }
  }

  /** One more pass of the loop. */
  lemma RunMonitorStep(observations: seq<Observation>, k: nat, s: Progress, p: int)
    requires p > 0 && k < |observations|
    ensures RunMonitor(observations[..k + 1], s, p) == AfterPass(RunMonitor(observations[..k], s, p), observations[k], p)
  {
    var last := [observations[k]];
    assert observations[..k + 1] == observations[..k] + last;
    RunMonitorConcat(observations[..k], last, s, p);
    assert last[1..] == [];
  }

  ghost predicate SameSchedule(a: Progress, b: Progress) {
    a.starts == b.starts && a.next == b.next
  }

  /** Whether a round is taken to be running makes no difference to the schedule. */
  lemma {:induction false} RunningIsIrrelevant(observations: seq<Observation>, a: Progress, b: Progress, p: int)
    requires p > 0 && SameSchedule(a, b)
    ensures SameSchedule(RunMonitor(observations, a, p), RunMonitor(observations, b, p))
  {
    if observations == [] {
    } else {
      RunningIsIrrelevant(observations[1..], AfterPass(a, observations[0], p), AfterPass(b, observations[0], p), p);
    }
  }

  /** Carrying next_iteration across reloads makes them invisible to the schedule. */
  lemma {:induction false} ReloadsAreInvisible(runs: seq<seq<Observation>>, s: Progress, p: int)
    requires p > 0
    ensures SameSchedule(RunReloads(runs, s, p), RunMonitor(Flatten(runs), s, p))
  {
    if runs == [] {
    } else {
      var after := RunMonitor(runs[0], s.(running := 0), p);
      ReloadsAreInvisible(runs[1..], after, p);
      RunMonitorConcat(runs[0], Flatten(runs[1..]), s, p);
      RunningIsIrrelevant(runs[0], s.(running := 0), s, p);
      RunningIsIrrelevant(Flatten(runs[1..]), after, RunMonitor(runs[0], s, p), p);
    }
  }

  /** No start comes before its time, no two share an aligned slot, and the next start follows the last. */
  ghost predicate Spaced(s: Progress, first: int, p: int)
    requires p > 0
  {
    && (forall i :: 0 <= i < |s.starts| ==> s.starts[i] >= first)
    && SlotsIncrease(s.starts, p)
    && s.next == if s.starts == [] then first else NextInterval(s.starts[|s.starts| - 1], p)
  }

  lemma PassKeepsSpaced(s: Progress, o: Observation, first: int, p: int)
    requires p > 0 && Spaced(s, first, p)
    ensures Spaced(AfterPass(s, o, p), first, p)
  {
    if o.idleAtStart && o.now >= s.next && s.starts != [] {
      var last := s.starts[|s.starts| - 1];
      NextStartIsAligned(last, p);
      NextStartLeavesSlot(last, o.now, p);
    }
  }

  /** Over any run of the monitor, whatever the clock does, at most one round starts in each slot. */
  lemma {:induction false} StartsAreSpaced(observations: seq<Observation>, s: Progress, first: int, p: int)
    requires p > 0 && Spaced(s, first, p)
    ensures Spaced(RunMonitor(observations, s, p), first, p)
  {
    if observations == [] {
    } else {
      PassKeepsSpaced(s, observations[0], first, p);
      StartsAreSpaced(observations[1..], AfterPass(s, observations[0], p), first, p);
    }
  }

  /** At most one round per aligned slot over the whole life of the daemon, reloads included. */
  lemma OneRoundPerSlot(runs: seq<seq<Observation>>, first: int, p: int)
    requires p > 0
    ensures SlotsIncrease(RunReloads(runs, Initial(first), p).starts, p)
  {
    ReloadsAreInvisible(runs, Initial(first), p);
    StartsAreSpaced(Flatten(runs), Initial(first), first, p);
  }

  lemma {:induction false} StartsGrow(observations: seq<Observation>, s: Progress, p: int)
    requires p > 0
    ensures s.starts <= RunMonitor(observations, s, p).starts
  {
    if observations == [] {
    } else {
      StartsGrow(observations[1..], AfterPass(s, observations[0], p), p);
    }
  }

  ghost predicate NoneAfter(starts: seq<int>, t: int) {
    forall i :: 0 <= i < |starts| ==> starts[i] <= t
  }

  lemma {:induction false} StartsNotAfter(observations: seq<Observation>, s: Progress, t: int, p: int)
    requires p > 0 && forall i :: 0 <= i < |observations| ==> observations[i].now <= t
    requires NoneAfter(s.starts, t)
    ensures NoneAfter(RunMonitor(observations, s, p).starts, t)
  {
    if observations == [] {
    } else {
      var s' := AfterPass(s, observations[0], p);
      assert s'.starts == s.starts || s'.starts == s.starts + [observations[0].now];
      StartsNotAfter(observations[1..], s', t, p);
    }
  }

  /** A clock that does not go back and does not precede the epoch. */
  ghost predicate Steady(observations: seq<Observation>) {
    && (forall i :: 0 <= i < |observations| ==> observations[i].now >= 0)
    && forall i, j :: 0 <= i < j < |observations| ==> observations[i].now <= observations[j].now
  }

  ghost predicate StartsIn(starts: seq<int>, slot: int, p: int)
    requires p > 0
  {
    exists i :: 0 <= i < |starts| && Slot(starts[i], p) == slot
  }

  lemma SlotHasStart(s: Progress, o: Observation, first: int, p: int)
    requires p > 0 && Spaced(s, first, p) && o.idleAtStart && first <= o.now
    requires 0 <= first && NoneAfter(s.starts, o.now)
    ensures StartsIn(AfterPass(s, o, p).starts, Slot(o.now, p), p)
  {
    var s' := AfterPass(s, o, p);
    var i := |s'.starts| - 1;
    if o.now < s.next {
      SameSlot(s.starts[i], o.now, p);
    }
    assert Slot(s'.starts[i], p) == Slot(o.now, p);
  }

  lemma IdleSlotInRun(observations: seq<Observation>, first: int, p: int, k: nat)
    requires p > 0 && Steady(observations) && 0 <= first
    requires k < |observations| && observations[k].idleAtStart && observations[k].now >= first
    ensures StartsIn(RunMonitor(observations, Initial(first), p).starts, Slot(observations[k].now, p), p)
  {
    var o := observations[k];
    var before := RunMonitor(observations[..k], Initial(first), p);
    StartsAreSpaced(observations[..k], Initial(first), first, p);
    StartsNotAfter(observations[..k], Initial(first), o.now, p);
    RunMonitorStep(observations, k, Initial(first), p);
    SlotHasStart(before, o, first, p);
    var after := RunMonitor(observations[..k + 1], Initial(first), p);
    assert observations == observations[..k + 1] + observations[k + 1..];
    RunMonitorConcat(observations[..k + 1], observations[k + 1..], Initial(first), p);
    StartsGrow(observations[k + 1..], after, p);
    var i :| 0 <= i < |after.starts| && Slot(after.starts[i], p) == Slot(o.now, p);
    assert RunMonitor(observations, Initial(first), p).starts[i] == after.starts[i];
  }

  /** No slot is skipped, over the whole life of the daemon, reloads included: under a steady clock every
      slot in which the monitor finds the threads idle, at or after the time of the first start, has a
      round; with at most one per slot, exactly one. */
  lemma IdleSlotGetsRound(runs: seq<seq<Observation>>, first: int, p: int, k: nat)
    requires p > 0 && Steady(Flatten(runs)) && 0 <= first
    requires k < |Flatten(runs)| && Flatten(runs)[k].idleAtStart && Flatten(runs)[k].now >= first
    ensures StartsIn(RunReloads(runs, Initial(first), p).starts, Slot(Flatten(runs)[k].now, p), p)
  {
    IdleSlotInRun(Flatten(runs), first, p, k);
    ReloadsAreInvisible(runs, Initial(first), p);
  }

  // The whole schedule at once: which passes start a round and which end one.

  /** The clock has reached the first start, and the next one after each start before. */
  ghost predicate IsDue(observations: seq<Observation>, ix: seq<nat>, first: int, p: int, k: nat)
    requires p > 0 && k < |observations| && Increasing(ix, |observations|)
  {
    && observations[k].now >= first
    && forall j :: 0 <= j < |ix| && ix[j] < k ==> observations[k].now >= NextInterval(observations[ix[j]].now, p)
  }

  /** The starts are the clock readings of the passes at these positions, and no start is due before `next`. */
  ghost predicate StartsAt(s: Progress, observations: seq<Observation>, ix: seq<nat>, n: nat, first: int, p: int)
    requires p > 0
  {
    && n <= |observations| && Increasing(ix, n) && |s.starts| == |ix|
    && (forall j :: 0 <= j < |ix| ==> s.starts[j] == observations[ix[j]].now)
    && first <= s.next && (forall j :: 0 <= j < |ix| ==> NextInterval(observations[ix[j]].now, p) <= s.next)
    && s.next == if ix == [] then first else NextInterval(observations[ix[|ix| - 1]].now, p)
  }

  lemma IncreasingBelow(ix: seq<nat>, n: nat, m: nat)
    requires Increasing(ix, n) && n <= m
    ensures Increasing(ix, m)
  {
  }

  lemma PassStarts(s: Progress, observations: seq<Observation>, ix: seq<nat>, n: nat, first: int, p: int) returns (starts: bool)
    requires p > 0 && n < |observations| && StartsAt(s, observations, ix, n, first, p)
    ensures var ix' := ix + if starts then [n] else [];
            StartsAt(AfterPass(s, observations[n], p), observations, ix', n + 1, first, p)
    ensures starts <==> observations[n].idleAtStart && observations[n].now >= s.next
    ensures Increasing(ix, |observations|) && (starts <==> observations[n].idleAtStart && IsDue(observations, ix, first, p, n))
  {
    var o := observations[n];
    starts := o.idleAtStart && o.now >= s.next;
    IncreasingBelow(ix, n, |observations|);
    SelectNext(ix, n, starts);
    NextStartIsAligned(o.now, p);
    assert (o.now >= s.next) <==> IsDue(observations, ix, first, p, n) by {
      if ix != [] {
        assert ix[|ix| - 1] < n;
      }
    }
  }

  /** Pass `k` finds the threads idle again for the first time since the last start; a start at clock zero
      does not count as running. */
  ghost predicate EndsAt(observations: seq<Observation>, ix: seq<nat>, k: nat)
    requires k < |observations| && Increasing(ix, |observations|)
  {
    observations[k].idleAtEnd && exists j :: 0 <= j < |ix| && IsRunning(observations, ix, k, j)
  }

  /** Start `j` is the last up to pass `k`, and no pass from it up to `k` has ended its round. */
  ghost predicate IsRunning(observations: seq<Observation>, ix: seq<nat>, k: nat, j: nat)
    requires k < |observations| && Increasing(ix, |observations|) && j < |ix|
  {
    && ix[j] <= k && (j + 1 < |ix| ==> k < ix[j + 1]) && observations[ix[j]].now != 0
    && forall m :: ix[j] <= m < k ==> !observations[m].idleAtEnd
  }

  ghost function Ends(observations: seq<Observation>, ix: seq<nat>): nat -> bool
    requires Increasing(ix, |observations|)
  {
    (k: nat) => k < |observations| && EndsAt(observations, ix, k)
  }

  /** The round taken to be running after `n` passes, and the number that have ended. */
  ghost predicate EndsCounted(s: Progress, observations: seq<Observation>, ix: seq<nat>, n: nat)
    requires n <= |observations| && Increasing(ix, n)
  {
    IncreasingBelow(ix, n, |observations|);
    && s.ends == CountWhere(Ends(observations, ix), n)
    && s.running == if ix != [] && forall m :: ix[|ix| - 1] <= m < n ==> !observations[m].idleAtEnd
                    then observations[ix[|ix| - 1]].now
                    else 0
  }

  /** A later start makes no difference to the ends before it. */
  lemma SameEnds(observations: seq<Observation>, ix: seq<nat>, starts: bool, n: nat)
    requires n < |observations| && Increasing(ix, n)
    ensures var ix' := ix + if starts then [n] else [];
            && Increasing(ix, |observations|) && Increasing(ix', |observations|)
            && CountWhere(Ends(observations, ix'), n) == CountWhere(Ends(observations, ix), n)
  {
    var ix' := ix + if starts then [n] else [];
    IncreasingBelow(ix, n, |observations|);
    SelectNext(ix, n, starts);
    IncreasingBelow(ix', n + 1, |observations|);
    forall k: nat | k < n
      ensures Ends(observations, ix')(k) == Ends(observations, ix)(k)
    {
      assert forall j :: 0 <= j < |ix| ==> (IsRunning(observations, ix', k, j) <==> IsRunning(observations, ix, k, j));
    }
    SameCount(Ends(observations, ix'), Ends(observations, ix), n);
  }

  lemma EndsNow(observations: seq<Observation>, ix: seq<nat>, n: nat, running: int)
    requires n < |observations| && Increasing(ix, n + 1) && Increasing(ix, |observations|)
    requires running == if ix != [] && forall m :: ix[|ix| - 1] <= m < n ==> !observations[m].idleAtEnd
                        then observations[ix[|ix| - 1]].now
                        else 0
    ensures EndsAt(observations, ix, n) <==> observations[n].idleAtEnd && running != 0
  {
    assert running != 0 ==> IsRunning(observations, ix, n, |ix| - 1);
    if EndsAt(observations, ix, n) {
      var j :| 0 <= j < |ix| && IsRunning(observations, ix, n, j);
      assert j == |ix| - 1;
    }
  }

  lemma PassEnds(s: Progress, observations: seq<Observation>, ix: seq<nat>, n: nat, starts: bool, p: int)
    requires p > 0 && n < |observations| && Increasing(ix, n) && EndsCounted(s, observations, ix, n)
    requires starts <==> observations[n].idleAtStart && observations[n].now >= s.next
    ensures var ix' := ix + if starts then [n] else [];
            Increasing(ix', n + 1) && EndsCounted(AfterPass(s, observations[n], p), observations, ix', n + 1)
  {
    var ix' := ix + if starts then [n] else [];
    SelectNext(ix, n, starts);
    SameEnds(observations, ix, starts, n);
    EndsNow(observations, ix', n, if starts then observations[n].now else s.running);
  }

  /** A later start makes no difference to what is due. */
  lemma SameBefore(observations: seq<Observation>, ix: seq<nat>, ix': seq<nat>, first: int, p: int, k: nat)
    requires p > 0 && Increasing(ix, |observations|) && Increasing(ix', |observations|) && k < |observations|
    requires ix <= ix' && forall j :: |ix| <= j < |ix'| ==> k <= ix'[j]
    ensures IsDue(observations, ix, first, p, k) <==> IsDue(observations, ix', first, p, k)
  {
    assert forall j :: 0 <= j < |ix| ==> ix'[j] == ix[j];
  }

  ghost predicate StartsWhenDue(observations: seq<Observation>, ix: seq<nat>, n: nat, first: int, p: int)
    requires p > 0 && n <= |observations| && Increasing(ix, |observations|)
  {
    forall k {:trigger IsDue(observations, ix, first, p, k)} :: 0 <= k < n ==>
      (k in ix <==> observations[k].idleAtStart && IsDue(observations, ix, first, p, k))
  }

  lemma PassIsDue(observations: seq<Observation>, ix: seq<nat>, n: nat, starts: bool, first: int, p: int)
    requires p > 0 && n < |observations| && Increasing(ix, n) && Increasing(ix, |observations|)
    requires StartsWhenDue(observations, ix, n, first, p)
    requires starts <==> observations[n].idleAtStart && IsDue(observations, ix, first, p, n)
    ensures var ix' := ix + if starts then [n] else [];
            Increasing(ix', |observations|) && StartsWhenDue(observations, ix', n + 1, first, p)
  {
    var ix' := ix + if starts then [n] else [];
    SelectNext(ix, n, starts);
    IncreasingBelow(ix', n + 1, |observations|);
    forall k | 0 <= k <= n
      ensures k in ix' <==> observations[k].idleAtStart && IsDue(observations, ix', first, p, k)
    {
      SameBefore(observations, ix, ix', first, p, k);
    }
  }

  /** The starts and ends after `n` passes are those of the passes at these positions. */
  ghost predicate Accounts(s: Progress, observations: seq<Observation>, ix: seq<nat>, n: nat, first: int, p: int)
    requires p > 0
  {
    && StartsAt(s, observations, ix, n, first, p) && EndsCounted(s, observations, ix, n)
    && Increasing(ix, |observations|) && StartsWhenDue(observations, ix, n, first, p)
  }

  lemma PassAccounts(s: Progress, observations: seq<Observation>, ix: seq<nat>, n: nat, first: int, p: int)
    returns (ix': seq<nat>)
    requires p > 0 && n < |observations| && Accounts(s, observations, ix, n, first, p)
    ensures Accounts(AfterPass(s, observations[n], p), observations, ix', n + 1, first, p)
  {
    var starts := PassStarts(s, observations, ix, n, first, p);
    PassEnds(s, observations, ix, n, starts, p);
    PassIsDue(observations, ix, n, starts, first, p);
    ix' := ix + if starts then [n] else [];
  }

  lemma NoPasses(observations: seq<Observation>, first: int, p: int)
    requires p > 0
    ensures Accounts(Initial(first), observations, [], 0, first, p)
  {
  }

  /** Some positions account for the starts and ends of the first `k` passes. */
  ghost predicate HasAccounts(observations: seq<Observation>, first: int, p: int, k: nat)
    requires p > 0 && k <= |observations|
  {
    exists ix :: Accounts(RunMonitor(observations[..k], Initial(first), p), observations, ix, k, first, p)
  }

  lemma OneMorePass(observations: seq<Observation>, first: int, p: int, k: nat)
    requires p > 0 && k < |observations| && HasAccounts(observations, first, p, k)
    ensures HasAccounts(observations, first, p, k + 1)
  {
    var before := RunMonitor(observations[..k], Initial(first), p);
    var ix :| Accounts(before, observations, ix, k, first, p);
    var ix' := PassAccounts(before, observations, ix, k, first, p);
    RunMonitorStep(observations, k, Initial(first), p);
  }

  /** A pass starts a round exactly if it finds the threads idle and the clock has reached the first start
      and the next after every start before it; it ends one exactly if it finds them idle at its end for
      the first time since the last start. */
  lemma RoundsAre(observations: seq<Observation>, first: int, p: int) returns (ix: seq<nat>)
    requires p > 0
    ensures Accounts(RunMonitor(observations, Initial(first), p), observations, ix, |observations|, first, p)
  {
    var q: nat -> bool := (k: nat) => k <= |observations| && HasAccounts(observations, first, p, k);
    assert Accounts(RunMonitor(observations[..0], Initial(first), p), observations, [], 0, first, p) by {
      NoPasses(observations, first, p);
    }
    forall k | 0 <= k < |observations| && q(k)
      ensures q(k + 1)
    {
      OneMorePass(observations, first, p, k);
    }
    StepByStep(q, |observations|);
    assert observations[..|observations|] == observations;
    ix :| Accounts(RunMonitor(observations, Initial(first), p), observations, ix, |observations|, first, p);
  }

  /** The same over the whole life of the daemon, reloads included. */
  lemma ScheduleIs(runs: seq<seq<Observation>>, first: int, p: int) returns (ix: seq<nat>)
    requires p > 0
    ensures var observations, starts := Flatten(runs), RunReloads(runs, Initial(first), p).starts;
            && Increasing(ix, |observations|) && |starts| == |ix|
            && (forall j :: 0 <= j < |ix| ==> starts[j] == observations[ix[j]].now)
            && StartsWhenDue(observations, ix, |observations|, first, p)
  {
    var observations := Flatten(runs);
    ix := RoundsAre(observations, first, p);
    ReloadsAreInvisible(runs, Initial(first), p);
  }

  /** No round ends twice or before it starts, and the running one is the last to have started. */
  ghost predicate EndsMatch(s: Progress) {
    && s.ends + (if s.running != 0 then 1 else 0) <= |s.starts|
    && (s.running != 0 ==> s.starts[|s.starts| - 1] == s.running)
  }

  lemma {:induction false} RoundsEndOnce(observations: seq<Observation>, s: Progress, p: int)
    requires p > 0 && EndsMatch(s)
    ensures EndsMatch(RunMonitor(observations, s, p))
    ensures observations != [] && observations[|observations| - 1].idleAtEnd ==> RunMonitor(observations, s, p).running == 0
  {
    if observations == [] {
    } else {
      RoundsEndOnce(observations[1..], AfterPass(s, observations[0], p), p);
    }
  }

  /** The per-round counters of globals.h. */
  class Statistics {
    var insertRows: u32
    var insertQueries: u32
    var iterations: u32
    var snmpFail: u32
    var snmpSuccess: u32
    var droppedQueries: u32
    var maxQueueDepth: u32

    /** Every counter but the round number. */
    function Counts(): seq<u32>
      reads this
    {
      [insertRows, insertQueries, snmpFail, snmpSuccess, droppedQueries, maxQueueDepth]
    }

    constructor ()
      ensures insertRows == insertQueries == iterations == snmpFail == snmpSuccess == droppedQueries == maxQueueDepth == 0
    {
      insertRows, insertQueries, iterations, snmpFail, snmpSuccess, droppedQueries, maxQueueDepth := 0, 0, 0, 0, 0, 0, 0;
    }

    /** What get_clinserts adds under the lock. */
    method CountGets(failed: nat, succeeded: nat)
      modifies this`snmpFail, this`snmpSuccess
      ensures snmpFail == Wrap32(old(snmpFail) + failed)
      ensures snmpSuccess == Wrap32(old(snmpSuccess) + succeeded)
    {
      snmpFail := Wrap32(snmpFail + failed);
      snmpSuccess := Wrap32(snmpSuccess + succeeded);
    }

    /** What process_queries adds under the lock. */
    method CountInserts(rows: nat, queries: nat, dropped: nat, depth: u32)
      modifies this`insertRows, this`insertQueries, this`droppedQueries, this`maxQueueDepth
      ensures insertRows == Wrap32(old(insertRows) + rows)
      ensures insertQueries == Wrap32(old(insertQueries) + queries)
      ensures droppedQueries == Wrap32(old(droppedQueries) + dropped)
      ensures maxQueueDepth == if old(maxQueueDepth) > depth then old(maxQueueDepth) else depth
    {
      insertRows := Wrap32(insertRows + rows);
      insertQueries := Wrap32(insertQueries + queries);
      droppedQueries := Wrap32(droppedQueries + dropped);
      maxQueueDepth := if maxQueueDepth > depth then maxQueueDepth else depth;
    }

    /** The count at the start of a round. */
    method StartIteration()
      modifies this`iterations
      ensures iterations == Wrap32(old(iterations) + 1)
    {
      iterations := Wrap32(iterations + 1);
    }

    /** The reset at the end of a round: every counter but the round number. */
    method EndIteration()
      modifies this
      ensures insertRows == insertQueries == snmpFail == snmpSuccess == droppedQueries == maxQueueDepth == 0
      ensures iterations == old(iterations)
    {
      insertRows, insertQueries, snmpFail, snmpSuccess, droppedQueries, maxQueueDepth := 0, 0, 0, 0, 0, 0;
    }
  }

  /** The loop of monitor_run over the passes it makes before a stop is requested. */
  method MonitorRun(observations: seq<Observation>, pollInterval: int, firstIteration: int, statistics: Statistics)
    returns (starts: seq<int>, ends: nat, nextIteration: int)
    requires pollInterval > 0
    modifies statistics
    ensures var s := RunMonitor(observations, Initial(firstIteration), pollInterval);
            starts == s.starts && ends == s.ends && nextIteration == s.next
    ensures statistics.iterations == Wrap32(old(statistics.iterations) + |starts|)
    ensures if ends == 0 then statistics.Counts() == old(statistics.Counts()) else statistics.Counts() == [0, 0, 0, 0, 0, 0]
  {
    starts, ends, nextIteration := [], 0, firstIteration;
    ghost var first := statistics.iterations;
    var thisIteration := 0;
    for i := 0 to |observations|
      invariant Progress(starts, nextIteration, thisIteration, ends)
             == RunMonitor(observations[..i], Initial(firstIteration), pollInterval)
      invariant statistics.iterations == Wrap32(first + |starts|)
      invariant statistics.Counts() == if ends == 0 then old(statistics.Counts()) else [0, 0, 0, 0, 0, 0]
    {
      var o := observations[i];
      RunMonitorStep(observations, i, Initial(firstIteration), pollInterval);
      if o.idleAtStart && o.now >= nextIteration {
        statistics.StartIteration();
        WrapAdd32(first + |starts|, 1);
        starts := starts + [o.now];
        thisIteration := o.now;
        nextIteration := NextInterval(o.now, pollInterval);
      }
      if o.idleAtEnd && thisIteration != 0 {
        statistics.EndIteration();
        ends := ends + 1;
        thisIteration := 0;
      }
    }
    assert observations[..|observations|] == observations;
  }

  /** run_threads keeps the next start in a static variable, so that a reload does not forget it. */
  class Scheduler {
    var nextIteration: int

    constructor ()
      ensures nextIteration == 0
    {
      nextIteration := 0;
    }

    method RunThreads(observations: seq<Observation>, pollInterval: int, statistics: Statistics)
      returns (starts: seq<int>)
      requires pollInterval > 0
      modifies this, statistics
      ensures var s := RunMonitor(observations, Initial(old(nextIteration)), pollInterval);
              && starts == s.starts && nextIteration == s.next
              && statistics.Counts() == if s.ends == 0 then [0, 0] + old(statistics.Counts())[2..] else [0, 0, 0, 0, 0, 0]
      ensures statistics.iterations == Wrap32(|starts|)
    {
      statistics.insertRows, statistics.insertQueries, statistics.iterations := 0, 0, 0;
      var ends;
      starts, ends, nextIteration := MonitorRun(observations, pollInterval, nextIteration, statistics);
    }
  }

  /** The starts of a run come after those before it and do not depend on them. */
  lemma {:induction false} EarlierStartsStay(observations: seq<Observation>, earlier: seq<int>, s: Progress, p: int)
    requires p > 0
    ensures var r := RunMonitor(observations, s, p);
            SameSchedule(RunMonitor(observations, s.(starts := earlier + s.starts), p), r.(starts := earlier + r.starts))
  {
    if observations == [] {
    } else {
      var o := observations[0];
      var s' := AfterPass(s, o, p);
      EarlierStartsStay(observations[1..], earlier, s', p);
      assert earlier + (s.starts + [o.now]) == (earlier + s.starts) + [o.now];
    }
  }

  lemma NextRun(run: seq<Observation>, starts: seq<int>, next: int, ends: nat, p: int)
    requires p > 0
    ensures var r := RunMonitor(run, Initial(next), p);
            SameSchedule(RunMonitor(run, Progress(starts, next, 0, ends), p), r.(starts := starts + r.starts))
  {
    EarlierStartsStay(run, starts, Initial(next), p);
    assert starts + [] == starts;
    RunningIsIrrelevant(run, Progress(starts, next, 0, ends), Progress(starts, next, 0, 0), p);
  }

  lemma {:induction false} ReloadsFollowSchedule(runs: seq<seq<Observation>>, a: Progress, b: Progress, p: int)
    requires p > 0 && SameSchedule(a, b)
    ensures SameSchedule(RunReloads(runs, a, p), RunReloads(runs, b, p))
  {
    if runs == [] {
    } else {
      RunningIsIrrelevant(runs[0], a.(running := 0), b.(running := 0), p);
      ReloadsFollowSchedule(runs[1..], RunMonitor(runs[0], a.(running := 0), p), RunMonitor(runs[0], b.(running := 0), p), p);
    }
  }

  /** The reload loop of main, seen by the schedule: the starts of all runs are those of one long run. */
  method ReloadLoop(runs: seq<seq<Observation>>, pollInterval: int) returns (starts: seq<int>, next: int)
    requires pollInterval > 0
    ensures var s := RunMonitor(Flatten(runs), Initial(0), pollInterval); starts == s.starts && next == s.next
    ensures SlotsIncrease(starts, pollInterval)
  {
    var scheduler := new Scheduler();
    var statistics := new Statistics();
    starts := [];
    ghost var rest := runs;
    for i := 0 to |runs|
      invariant rest == runs[i..]
      invariant SameSchedule(RunReloads(runs, Initial(0), pollInterval),
                             RunReloads(rest, Progress(starts, scheduler.nextIteration, 0, 0), pollInterval))
    {
      ghost var before := Progress(starts, scheduler.nextIteration, 0, 0);
      NextRun(runs[i], starts, scheduler.nextIteration, 0, pollInterval);
      var s := scheduler.RunThreads(runs[i], pollInterval, statistics);
      starts := starts + s;
      ReloadsFollowSchedule(rest[1..], RunMonitor(rest[0], before, pollInterval),
                            Progress(starts, scheduler.nextIteration, 0, 0), pollInterval);
      rest := rest[1..];
    }
    next := scheduler.nextIteration;
    ReloadsAreInvisible(runs, Initial(0), pollInterval);
    OneRoundPerSlot(runs, 0, pollInterval);
  }
}
