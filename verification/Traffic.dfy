/** What becomes of the traffic of one counter row over a whole run of the daemon: the books of Ledger,
    kept on what the daemon does to the row, joined to the statements that leave it. */
module Traffic {
  import opened Words
  import opened Targets
  import opened Daemon
  import C = Clinsert
  import E = EndToEnd
  import L = Ledger
  import O = Ownership
  import P = Poller
  import Sql

  /** A place in the target set: a row of a host. */
  datatype Place = Place(h: nat, r: nat)

  predicate InTree(caches: seq<seq<Target>>, at: Place) {
    at.h < |caches| && at.r < |caches[at.h]|
  }

  function CounterIn(table: string, id: u32, t: string, row: Sql.Row): nat {
    if t == table && row.id == id then row.counter else 0
  }

  /** The measure of table rows that reads the counter of those with this table and id. */
  function CounterOf(table: string, id: u32): (string, Sql.Row) -> nat {
    (t: string, row: Sql.Row) => CounterIn(table, id, t, row)
  }

  /** What a polled row contributes. */
  function Contribution(t: Target, a: P.Answer, g: C.Sample -> nat): nat
    requires P.Pollable(t, a)
  {
    match P.SampleOf(t, a)
    case None => 0
    case Some(s) => g(s)
  }

  /** A row contributes the difference it has inserted, if that is under this table and id. */
  lemma ContributesItsCounter(t: Target, a: P.Answer, cfg: Sql.Config, table: string, id: u32)
    requires P.Pollable(t, a)
    ensures Contribution(t, a, E.Shown(cfg, CounterOf(table, id)))
         == if P.SampleOf(t, a).Some? && t.row.table == Some(table) && t.row.id == id
            then P.SampleOf(t, a).value.value.counter
            else 0
  {
    match P.SampleOf(t, a) {
      case None =>
      case Some(s) =>
        assert E.Shown(cfg, CounterOf(table, id))(s) == CounterIn(table, id, s.table, Sql.RowOf(cfg, s.value));
    }
  }

  lemma OneSampleAtMost(sample: Option<C.Sample>, g: C.Sample -> nat)
    ensures C.Sum(Listed(sample), g, |Listed(sample)|) == match sample case None => 0 case Some(s) => g(s)
  {
    match sample {
      case None =>
      case Some(s) => assert C.Sum([s], g, 1) == C.Sum([s], g, 0) + g(s);
    }
  }

  lemma RowContributes(rows: seq<Target>, answers: seq<P.Answer>, n: nat, g: C.Sample -> nat)
    requires P.AllPollable(rows, answers) && 0 < n <= |rows|
    ensures var before, samples := P.Pass(rows, answers, n - 1).samples, P.Pass(rows, answers, n).samples;
            C.Sum(samples, g, |samples|) == C.Sum(before, g, |before|) + Contribution(rows[n - 1], answers[n - 1], g)
  {
    var before, own := P.Pass(rows, answers, n - 1).samples, Listed(P.SampleOf(rows[n - 1], answers[n - 1]));
    C.SumConcat(before, own, g, |own|);
    OneSampleAtMost(P.SampleOf(rows[n - 1], answers[n - 1]), g);
    P.PassSamples(rows, answers, n);
  }

  /** Among rows of which only one can contribute, the samples measure what that one does. */
  lemma {:induction false} PassContributes(rows: seq<Target>, answers: seq<P.Answer>, n: nat, r: nat, g: C.Sample -> nat)
    requires P.AllPollable(rows, answers) && n <= |rows|
    requires forall i :: 0 <= i < |rows| && i != r ==> Contribution(rows[i], answers[i], g) == 0
    ensures var samples := P.Pass(rows, answers, n).samples;
            C.Sum(samples, g, |samples|) == if r < n then Contribution(rows[r], answers[r], g) else 0
  {
    if n == 0 {
    } else {
      PassContributes(rows, answers, n - 1, r, g);
      RowContributes(rows, answers, n, g);
    }
  }

  /** No other row of any host is inserted under the same table and id. */
  ghost predicate UniqueKey(caches: seq<seq<Target>>, at: Place)
    requires InTree(caches, at)
  {
    var row := caches[at.h][at.r].row;
    forall h, r :: 0 <= h < |caches| && 0 <= r < |caches[h]| && (h != at.h || r != at.r) ==>
      caches[h][r].row.table != row.table || caches[h][r].row.id != row.id
  }

  lemma OthersContributeNothing(caches: seq<seq<Target>>, at: Place, h: nat, answers: seq<P.Answer>, cfg: Sql.Config)
    requires InTree(caches, at) && UniqueKey(caches, at) && caches[at.h][at.r].row.table.Some?
    requires h < |caches| && P.AllPollable(caches[h], answers)
    ensures var row := caches[at.h][at.r].row;
            var g := E.Shown(cfg, CounterOf(row.table.value, row.id));
            forall i :: 0 <= i < |caches[h]| && (h != at.h || i != at.r) ==> Contribution(caches[h][i], answers[i], g) == 0
  {
    var row := caches[at.h][at.r].row;
    var g := E.Shown(cfg, CounterOf(row.table.value, row.id));
    forall i | 0 <= i < |caches[h]| && (h != at.h || i != at.r)
      ensures Contribution(caches[h][i], answers[i], g) == 0
    {
      assert caches[h][i].row.table != row.table || caches[h][i].row.id != row.id;
      ContributesItsCounter(caches[h][i], answers[i], cfg, row.table.value, row.id);
    }
  }

  // The row's readings.

  /** What a step of the daemon is to the row: a successful get, at which the true count is `total`, or
      nothing that changes its books. */
  function ReadingOf(s: State, step: Step, at: Place, total: nat, limits: O.Limits): L.Reading {
    match step
    case Poll(i, answers) =>
      if i < |s.rounds.pollers| && s.rounds.pollers[i].Holding? && s.rounds.pollers[i].host == at.h
         && at.r < P.StopsAt(answers, limits.maxErrors, 0)
      then
        match answers[at.r]
        case Failed => L.Missed
        case Got(_, time) => L.Counted(total, time)
      else L.Missed
    case _ => L.Missed
  }

  /** The books of the row after `k` steps, given the true count at each. */
  function BooksAt(trace: seq<State>, steps: seq<Step>, at: Place, truth: nat -> nat, limits: O.Limits, l: L.Ledger,
                   k: nat): L.Ledger
    requires k <= |steps| && k <= |trace|
  {
    if k == 0 then l
    else L.Step(BooksAt(trace, steps, at, truth, limits, l, k - 1),
                ReadingOf(trace[k - 1], steps[k - 1], at, truth(k - 1), limits))
  }

  /** The device tells the truth modulo the counter's width, time moves on, and the counter grows by less
      than its modulus between successful gets. */
  ghost predicate Honest(s: State, step: Step, at: Place, total: nat, limits: O.Limits, l: L.Ledger) {
    var reading := ReadingOf(s, step, at, total, limits);
    && L.Plausible(l, reading)
    && (reading.Counted? ==> step.answers[at.r] == L.Reported(l, total, reading.time))
  }

  /** The books are about the row as it is, and balance; and what they say was inserted was accepted. */
  ghost predicate Kept(s: State, at: Place, l: L.Ledger, g: C.Sample -> nat) {
    && InTree(s.caches, at) && s.caches[at.h][at.r] == l.target && L.Balanced(l)
    && C.Sum(s.own.accepted, g, |s.own.accepted|) == l.inserted
  }

  /** Host and row descriptions never change within a run. */
  ghost predicate SameRows(a: seq<seq<Target>>, b: seq<seq<Target>>) {
    && |a| == |b|
    && forall h :: 0 <= h < |a| ==> |a[h]| == |b[h]| && forall r :: 0 <= r < |a[h]| ==> a[h][r].row == b[h][r].row
  }

  lemma PollKeepsRows(rows: seq<Target>, answers: seq<P.Answer>, maxErrors: nat)
    requires P.AllPollable(rows, answers)
    ensures var after, n := P.PollRows(rows, answers, maxErrors).rows, P.StopsAt(answers, maxErrors, 0);
            && |after| == |rows|
            && forall r :: 0 <= r < |rows| ==>
                 after[r].row == rows[r].row && after[r] == if r < n then P.Refreshed(rows[r], answers[r]) else rows[r]
  {
    P.PassRefreshes(rows, answers, P.StopsAt(answers, maxErrors, 0));
  }

  lemma StepKeepsRows(s: State, step: Step, limits: O.Limits)
    requires Enabled(s, step)
    ensures SameRows(Do(s, step, limits).caches, s.caches)
  {
    match step {
      case Poll(i, answers) => PollKeepsRows(s.caches[s.rounds.pollers[i].host], answers, limits.maxErrors);
      case Queue(_) =>
      case Return(_) =>
      case Other(_) =>
    }
  }

  /** Steps that poll nothing accept nothing and leave the caches alone. */
  lemma QuietStep(s: State, step: Step, limits: O.Limits)
    requires Enabled(s, step) && !step.Poll?
    ensures var s' := Do(s, step, limits); s'.caches == s.caches && s'.own.accepted == s.own.accepted
  {
    match step {
      case Queue(q) => HistoriesGrow(s.own, q, limits);
      case Return(_) =>
      case Other(_) =>
    }
  }

  /** A poll of a host adds what its one row of this key contributes. */
  lemma PollAccepts(s: State, i: nat, answers: seq<P.Answer>, limits: O.Limits, at: Place, cfg: Sql.Config)
    requires Enabled(s, Poll(i, answers)) && InTree(s.caches, at)
    requires UniqueKey(s.caches, at) && s.caches[at.h][at.r].row.table.Some?
    ensures var row, h := s.caches[at.h][at.r].row, s.rounds.pollers[i].host;
            var g, own := E.Shown(cfg, CounterOf(row.table.value, row.id)), DoPoll(s, i, answers, limits).own;
            C.Sum(own.accepted, g, |own.accepted|)
            == C.Sum(s.own.accepted, g, |s.own.accepted|)
               + if h == at.h && at.r < P.StopsAt(answers, limits.maxErrors, 0)
                 then Contribution(s.caches[h][at.r], answers[at.r], g)
                 else 0
  {
    var row, h := s.caches[at.h][at.r].row, s.rounds.pollers[i].host;
    var g := E.Shown(cfg, CounterOf(row.table.value, row.id));
    OthersContributeNothing(s.caches, at, h, answers, cfg);
    PassContributes(s.caches[h], answers, P.StopsAt(answers, limits.maxErrors, 0),
                    if h == at.h then at.r else |s.caches[h]|, g);
    BuildAccepts(s.own, i, s.caches[h], answers, limits, g);
  }

  /** A reading of the row enters its books as the daemon treats it. */
  lemma ReadingIsBooked(t: Target, a: P.Answer, l: L.Ledger, total: nat, time: nat, cfg: Sql.Config)
    requires L.Balanced(l) && l.target == t && L.Plausible(l, L.Counted(total, time)) && a == L.Reported(l, total, time)
    requires P.Pollable(t, a)
    ensures var l' := L.Step(l, L.Counted(total, time));
            && l'.target == P.Refreshed(t, a)
            && l'.inserted == l.inserted + Contribution(t, a, E.Shown(cfg, CounterOf(t.row.table.value, t.row.id)))
  {
    ContributesItsCounter(t, a, cfg, t.row.table.value, t.row.id);
  }

  lemma PollKeepsBooks(s: State, i: nat, answers: seq<P.Answer>, limits: O.Limits, at: Place, total: nat, l: L.Ledger,
                       cfg: Sql.Config)
    requires Enabled(s, Poll(i, answers)) && InTree(s.caches, at) && UniqueKey(s.caches, at)
    requires Honest(s, Poll(i, answers), at, total, limits, l)
    requires L.Balanced(l) && Kept(s, at, l, E.Shown(cfg, CounterOf(l.target.row.table.value, l.target.row.id)))
    ensures var s', l' := DoPoll(s, i, answers, limits), L.Step(l, ReadingOf(s, Poll(i, answers), at, total, limits));
            Kept(s', at, l', E.Shown(cfg, CounterOf(l.target.row.table.value, l.target.row.id)))
  {
    var h := s.rounds.pollers[i].host;
    var reading := ReadingOf(s, Poll(i, answers), at, total, limits);
    PollKeepsRows(s.caches[h], answers, limits.maxErrors);
    PollAccepts(s, i, answers, limits, at, cfg);
    L.StepKeepsBalance(l, reading);
    if h == at.h && at.r < P.StopsAt(answers, limits.maxErrors, 0) {
      match answers[at.r] {
        case Failed =>
          ContributesItsCounter(l.target, P.Failed, cfg, l.target.row.table.value, l.target.row.id);
        case Got(_, time) => ReadingIsBooked(l.target, answers[at.r], l, total, time, cfg);
      }
    }
  }

  lemma StepKeepsBooks(s: State, step: Step, limits: O.Limits, at: Place, total: nat, l: L.Ledger, cfg: Sql.Config)
    requires Enabled(s, step) && InTree(s.caches, at) && UniqueKey(s.caches, at)
    requires Honest(s, step, at, total, limits, l)
    requires L.Balanced(l) && Kept(s, at, l, E.Shown(cfg, CounterOf(l.target.row.table.value, l.target.row.id)))
    ensures Kept(Do(s, step, limits), at, L.Step(l, ReadingOf(s, step, at, total, limits)),
                 E.Shown(cfg, CounterOf(l.target.row.table.value, l.target.row.id)))
  {
    match step {
      case Poll(i, answers) => PollKeepsBooks(s, i, answers, limits, at, total, l, cfg);
      case _ => QuietStep(s, step, limits);
    }
  }

  lemma UniqueKeyStays(a: seq<seq<Target>>, b: seq<seq<Target>>, at: Place)
    requires SameRows(a, b) && InTree(b, at) && UniqueKey(b, at)
    ensures InTree(a, at) && UniqueKey(a, at)
  {
    assert a[at.h][at.r].row == b[at.h][at.r].row;
    forall h, r | 0 <= h < |a| && 0 <= r < |a[h]| && (h != at.h || r != at.r)
      ensures a[h][r].row.table != a[at.h][at.r].row.table || a[h][r].row.id != a[at.h][at.r].row.id
    {
      assert a[h][r].row == b[h][r].row;
    }
  }

  lemma SameRowsTrans(a: seq<seq<Target>>, b: seq<seq<Target>>, c: seq<seq<Target>>)
    requires SameRows(a, b) && SameRows(b, c)
    ensures SameRows(a, c)
  {
    forall h, r | 0 <= h < |a| && 0 <= r < |a[h]|
      ensures a[h][r].row == c[h][r].row
    {
      assert a[h][r].row == b[h][r].row;
    }
  }

  /** A run that answers honestly for one row, whose books `l` are open: so far nothing is inserted. */
  ghost predicate HonestRun(trace: seq<State>, steps: seq<Step>, n: nat, limits: O.Limits, at: Place,
                            truth: nat -> nat, l: L.Ledger, k: nat)
  {
    && IsRun(trace, steps, n, limits) && k < |trace|
    && InTree(trace[0].caches, at) && UniqueKey(trace[0].caches, at) && trace[0].caches[at.h][at.r] == l.target
    && L.Balanced(l) && l.inserted == 0
    && forall i :: 0 <= i < k ==>
         Honest(trace[i], steps[i], at, truth(i), limits, BooksAt(trace, steps, at, truth, limits, l, i))
  }

  /** The samples accepted of the row's key. */
  function KeyMeasure(cfg: Sql.Config, l: L.Ledger): C.Sample -> nat
    requires l.target.row.table.Some?
  {
    E.Shown(cfg, CounterOf(l.target.row.table.value, l.target.row.id))
  }

  lemma {:induction false} RunIsBooked(trace: seq<State>, steps: seq<Step>, n: nat, limits: O.Limits, at: Place,
                                       truth: nat -> nat, l: L.Ledger, cfg: Sql.Config, k: nat)
    requires HonestRun(trace, steps, n, limits, at, truth, l, k)
    ensures SameRows(trace[k].caches, trace[0].caches)
    ensures var now := BooksAt(trace, steps, at, truth, limits, l, k);
            now.target.row == l.target.row && Kept(trace[k], at, now, KeyMeasure(cfg, l))
  {
    if k == 0 {
      var consumers, rows, snmpFail, snmpSuccess :| trace[0] == Init(n, consumers, rows, snmpFail, snmpSuccess);
    } else {
      RunIsBooked(trace, steps, n, limits, at, truth, l, cfg, k - 1);
      var s, step := trace[k - 1], steps[k - 1];
      var now := BooksAt(trace, steps, at, truth, limits, l, k - 1);
      assert Allowed(s, step) && trace[k] == Do(s, step, limits);
      UniqueKeyStays(s.caches, trace[0].caches, at);
      StepKeepsBooks(s, step, limits, at, truth(k - 1), now, cfg);
      StepKeepsRows(s, step, limits);
      SameRowsTrans(trace[k].caches, s.caches, trace[0].caches);
    }
  }

  /** The whole way of one counter row's traffic, at any moment of any run: its true growth between its first
      and its last successful get is the sum of the counters under its key in the text of the statements
      taken, of those filtered out of them, freed, refused and under way, and of what the speed check and
      the zero-previous-value check have discarded. */
  lemma TrafficIsAccountedFor(trace: seq<State>, steps: seq<Step>, n: nat, limits: O.Limits, at: Place,
                              truth: nat -> nat, l: L.Ledger, cfg: Sql.Config, k: nat)
    requires HonestRun(trace, steps, n, limits, at, truth, l, k) && n < TWO32
    ensures var own, now := trace[k].own, BooksAt(trace, steps, at, truth, limits, l, k);
            var m := CounterOf(l.target.row.table.value, l.target.row.id);
            now.first.Some? ==>
              E.UnderWay(own, E.Shown(cfg, m)) + E.Settled(cfg, own.done, own.freed, own.failed, m) + now.discarded
              == now.last - now.first.value
  {
    var own, m := trace[k].own, CounterOf(l.target.row.table.value, l.target.row.id);
    RunIsBooked(trace, steps, n, limits, at, truth, l, cfg, k);
    RunInv(trace, steps, n, limits, E.Shown(cfg, m), k);
    E.BooksBalance(own, E.Shown(cfg, m));
    E.SettledWeighs(cfg, own.done, own.freed, own.failed, m);
  }
}
