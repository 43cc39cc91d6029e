/** Polling one host and queueing its inserts (src/poller.c). SNMP answers are arbitrary. */
module Poller {
  import opened Words
  import opened Rate
  import opened Targets
  import C = Clinsert
  import B = Clbuf
  import Monitor

  /** What clsnmp_get delivers for one row. */
  datatype Answer = Failed | Got(counter: u64, time: nat)

  /** Whether the loop body reaches the rate computation: there is a previous value to compare with
      (a gauge needs none), and it is not a zero followed by something else. */
  predicate Computes(t: Target, a: Answer) {
    && a.Got?
    && (t.row.bits == 0 || t.cache.time != 0)
    && (t.cache.counter > 0 || a.counter == 0)
  }

  /** The original exits when a counter is polled twice in the same second, and a row without a
      table cannot be inserted. */
  predicate Pollable(t: Target, a: Answer) {
    Computes(t, a) ==> t.row.table.Some? && (t.row.bits != 0 ==> t.cache.time != a.time)
  }

  function ValueOf(t: Target, a: Answer): C.Value
    requires Computes(t, a) && Pollable(t, a)
  {
    var diff := CounterDiff(t.cache.counter, a.counter, t.row.bits);
    C.Value(t.row.id, diff, RateOf(diff, t.cache.time, a.time, t.row.bits), a.time, a.counter)
  }

  /** The sample a row contributes, if any. */
  function SampleOf(t: Target, a: Answer): Option<C.Sample>
    requires Pollable(t, a)
  {
    if Computes(t, a) && ValueOf(t, a).rate < t.row.speed
    then Some(C.Sample(t.row.table.value, ValueOf(t, a)))
    else None
  }

  /** A successful answer becomes the cache; a failed one leaves it. */
  function Refreshed(t: Target, a: Answer): Target {
    if a.Got? then Target(t.row, Cache(a.time, a.counter)) else t
  }

  ghost predicate AllPollable(rows: seq<Target>, answers: seq<Answer>) {
    |rows| == |answers| && forall i :: 0 <= i < |rows| ==> Pollable(rows[i], answers[i])
  }

  /** Where a pass over the rows of a host has got to: the rows as they are now, the samples so far
      and the inserts they are clustered into, and how many rows were polled and failed. */
  datatype Poll = Poll(rows: seq<Target>, samples: seq<C.Sample>, inserts: seq<C.Insert>, polled: nat, failed: nat)

  /** The first `n` rows polled: each is refreshed, and contributes its sample in row order. */
  function Pass(rows: seq<Target>, answers: seq<Answer>, n: nat): (p: Poll)
    requires AllPollable(rows, answers) && n <= |rows|
    ensures p.polled == n && |p.rows| == |rows|
  {
    if n == 0 then Poll(rows, [], [], 0, 0)
    else
      var p := Pass(rows, answers, n - 1);
      var t, a := rows[n - 1], answers[n - 1];
      Poll(p.rows[n - 1 := Refreshed(t, a)],
           p.samples + Listed(SampleOf(t, a)),
           Clustered(p.inserts, SampleOf(t, a)),
           n, p.failed + FailureOf(a))
  }

  /** Polled rows with an answer are refreshed; failed and unpolled rows keep their cache. */
  lemma {:induction false} PassRefreshes(rows: seq<Target>, answers: seq<Answer>, n: nat)
    requires AllPollable(rows, answers) && n <= |rows|
    ensures var p := Pass(rows, answers, n);
            forall i :: 0 <= i < |rows| ==> p.rows[i] == if i < n then Refreshed(rows[i], answers[i]) else rows[i]
  {
    if n == 0 {
    } else {
      PassRefreshes(rows, answers, n - 1);
    }
  }

  function Clustered(inserts: seq<C.Insert>, sample: Option<C.Sample>): seq<C.Insert> {
    match sample
    case None => inserts
    case Some(s) => C.Add(inserts, s)
  }

  function FailureOf(a: Answer): nat {
    if a.Failed? then 1 else 0
  }

  function Failures(answers: seq<Answer>, n: nat): nat
    requires n <= |answers|
  {
    if n == 0 then 0 else Failures(answers, n - 1) + FailureOf(answers[n - 1])
  }

  /** The number of rows polled before the host is given up or done with, looking on from row `n`:
      the failures are compared with the limit after every row. */
  function StopsAt(answers: seq<Answer>, maxErrors: nat, n: nat): (m: nat)
    requires n <= |answers|
    ensures n <= m <= |answers|
    decreases |answers| - n
  {
    if n == |answers| then n
    else if Failures(answers, n + 1) >= maxErrors then n + 1
    else StopsAt(answers, maxErrors, n + 1)
  }

  function PollRows(rows: seq<Target>, answers: seq<Answer>, maxErrors: nat): Poll
    requires AllPollable(rows, answers)
  {
    Pass(rows, answers, StopsAt(answers, maxErrors, 0))
  }

  /** The gets that failed among the first `n`, and those that did not. */
  ghost function FailedAt(answers: seq<Answer>, n: nat): set<nat>
    requires n <= |answers|
  {
    set i | 0 <= i < n && answers[i].Failed?
  }

  ghost function GotAt(answers: seq<Answer>, n: nat): set<nat>
    requires n <= |answers|
  {
    set i | 0 <= i < n && answers[i].Got?
  }

  lemma {:induction false} FailuresAreCounted(answers: seq<Answer>, n: nat)
    requires n <= |answers|
    ensures Failures(answers, n) == |FailedAt(answers, n)| && n - Failures(answers, n) == |GotAt(answers, n)|
  {
    if n == 0 {
      assert FailedAt(answers, 0) == {} && GotAt(answers, 0) == {};
    } else {
      FailuresAreCounted(answers, n - 1);
      if answers[n - 1].Failed? {
        assert FailedAt(answers, n) == FailedAt(answers, n - 1) + {n - 1} && GotAt(answers, n) == GotAt(answers, n - 1);
      } else {
        assert GotAt(answers, n) == GotAt(answers, n - 1) + {n - 1} && FailedAt(answers, n) == FailedAt(answers, n - 1);
      }
    }
  }

  lemma {:induction false} StopsByCount(answers: seq<Answer>, maxErrors: nat, n: nat)
    requires n <= |answers|
    ensures var m := StopsAt(answers, maxErrors, n);
            && (m < |answers| ==> m > n && Failures(answers, m) >= maxErrors)
            && (forall k :: n < k < m ==> Failures(answers, k) < maxErrors)
    decreases |answers| - n
  {
    if n == |answers| || Failures(answers, n + 1) >= maxErrors {
    } else {
      StopsByCount(answers, maxErrors, n + 1);
    }
  }

  /** Polling stops exactly at the first row where so many gets have failed as the limit says. */
  lemma StopsAtLimit(answers: seq<Answer>, maxErrors: nat)
    ensures var m := StopsAt(answers, maxErrors, 0);
            && (m < |answers| ==> m > 0 && |FailedAt(answers, m)| >= maxErrors)
            && (forall k :: 0 < k < m ==> |FailedAt(answers, k)| < maxErrors)
  {
    StopsByCount(answers, maxErrors, 0);
    forall k | 0 <= k <= |answers|
      ensures Failures(answers, k) == |FailedAt(answers, k)|
    {
      FailuresAreCounted(answers, k);
    }
  }

  /** A host is not given up within answers of which none failed. */
  lemma NotGivenUp(answers: seq<Answer>, maxErrors: nat, n: nat)
    requires maxErrors > 0 && n <= |answers| && forall i :: 0 <= i < n ==> answers[i].Got?
    ensures StopsAt(answers, maxErrors, 0) >= n
  {
    var m := StopsAt(answers, maxErrors, 0);
    StopsAtLimit(answers, maxErrors);
    if m <= n {
      assert FailedAt(answers, m) == {};
    }
  }

  /** What is counted as failed and as succeeded are the failed and the answered gets of the rows polled. */
  lemma PollCountsGets(rows: seq<Target>, answers: seq<Answer>, maxErrors: nat)
    requires AllPollable(rows, answers)
    ensures var p := PollRows(rows, answers, maxErrors);
            && p.polled == StopsAt(answers, maxErrors, 0)
            && p.failed == |FailedAt(answers, p.polled)| && p.polled - p.failed == |GotAt(answers, p.polled)|
  {
    var n := StopsAt(answers, maxErrors, 0);
    PassCountsFailures(rows, answers, n);
    FailuresAreCounted(answers, n);
  }

  lemma {:induction false} PassCountsFailures(rows: seq<Target>, answers: seq<Answer>, n: nat)
    requires AllPollable(rows, answers) && n <= |rows|
    ensures Pass(rows, answers, n).failed == Failures(answers, n)
  {
    if n == 0 {
    } else {
      PassCountsFailures(rows, answers, n - 1);
    }
  }

  /** With `n` rows polled the host has neither been given up nor done with before. */
  ghost predicate InProgress(rows: seq<Target>, answers: seq<Answer>, maxErrors: nat, n: nat, p: Poll)
    requires AllPollable(rows, answers) && n <= |rows|
  {
    p == Pass(rows, answers, n) && StopsAt(answers, maxErrors, n) == StopsAt(answers, maxErrors, 0)
  }

  lemma AtStart(rows: seq<Target>, answers: seq<Answer>, maxErrors: nat)
    requires AllPollable(rows, answers)
    ensures InProgress(rows, answers, maxErrors, 0, Poll(rows, [], [], 0, 0))
  {
  }

  /** After one more row: given up at the limit, otherwise still in progress. */
  lemma NextRow(rows: seq<Target>, answers: seq<Answer>, maxErrors: nat, n: nat, p: Poll, p': Poll)
    requires AllPollable(rows, answers) && n < |rows|
    requires InProgress(rows, answers, maxErrors, n, p) && p' == Pass(rows, answers, n + 1)
    ensures p'.polled == n + 1
    ensures if p'.failed >= maxErrors then p' == PollRows(rows, answers, maxErrors)
            else InProgress(rows, answers, maxErrors, n + 1, p')
  {
    PassCountsFailures(rows, answers, n + 1);
  }

  lemma AtEnd(rows: seq<Target>, answers: seq<Answer>, maxErrors: nat, p: Poll)
    requires AllPollable(rows, answers) && InProgress(rows, answers, maxErrors, |rows|, p)
    ensures p == PollRows(rows, answers, maxErrors)
  {
  }

  lemma ClusterStep(inserts: seq<C.Insert>, samples: seq<C.Sample>, sample: Option<C.Sample>)
    requires inserts == C.Group(samples, |samples|)
    ensures var samples' := samples + Listed(sample); Clustered(inserts, sample) == C.Group(samples', |samples'|)
  {
    match sample {
      case None => assert samples + [] == samples;
      case Some(s) => C.PrefixGroup(samples, s, |samples|);
    }
  }

  /** The inserts are the group-by of the samples. */
  lemma {:induction false} PassGroups(rows: seq<Target>, answers: seq<Answer>, n: nat)
    requires AllPollable(rows, answers) && n <= |rows|
    ensures var p := Pass(rows, answers, n); p.inserts == C.Group(p.samples, |p.samples|)
  {
    if n == 0 {
    } else {
      PassGroups(rows, answers, n - 1);
      var p := Pass(rows, answers, n - 1);
      ClusterStep(p.inserts, p.samples, SampleOf(rows[n - 1], answers[n - 1]));
    }
  }

  /** Clustering a host's samples is a stable group-by that loses and invents none: any measure of
      samples adds up to the same over the inserts. */
  lemma ClusteringIsStableGroupBy(rows: seq<Target>, answers: seq<Answer>, maxErrors: nat, g: C.Sample -> nat)
    requires AllPollable(rows, answers)
    ensures var p := PollRows(rows, answers, maxErrors);
            && C.IsGrouping(p.inserts, p.samples, |p.samples|)
            && C.ListSum(p.inserts, g, |p.inserts|) == C.Sum(p.samples, g, |p.samples|)
  {
    var p := PollRows(rows, answers, maxErrors);
    PassGroups(rows, answers, StopsAt(answers, maxErrors, 0));
    C.GroupIsStable(p.samples, |p.samples|);
    C.GroupKeepsSum(p.samples, g, |p.samples|);
  }

  ghost predicate DistinctRowKeys(rows: seq<Target>) {
    forall i, j :: 0 <= i < j < |rows| ==> rows[i].row.table != rows[j].row.table || rows[i].row.id != rows[j].row.id
  }

  ghost predicate FromRow(rows: seq<Target>, answers: seq<Answer>, n: nat, s: C.Sample)
    requires AllPollable(rows, answers) && n <= |rows|
  {
    exists i :: 0 <= i < n && SampleOf(rows[i], answers[i]) == Some(s)
  }

  lemma OwnKeyIsNew(rows: seq<Target>, answers: seq<Answer>, n: nat, s: C.Sample)
    requires AllPollable(rows, answers) && DistinctRowKeys(rows) && n < |rows|
    requires FromRow(rows, answers, n, s) && SampleOf(rows[n], answers[n]).Some?
    ensures var own := SampleOf(rows[n], answers[n]).value; s.table != own.table || s.value.id != own.value.id
  {
    var i :| 0 <= i < n && SampleOf(rows[i], answers[i]) == Some(s);
  }

  lemma FromEarlierRow(rows: seq<Target>, answers: seq<Answer>, n: nat, s: C.Sample)
    requires AllPollable(rows, answers) && n < |rows| && FromRow(rows, answers, n, s)
    ensures FromRow(rows, answers, n + 1, s)
  {
    var i :| 0 <= i < n && SampleOf(rows[i], answers[i]) == Some(s);
    assert 0 <= i < n + 1;
  }

  ghost predicate AllFromRows(rows: seq<Target>, answers: seq<Answer>, n: nat, samples: seq<C.Sample>)
    requires AllPollable(rows, answers) && n <= |rows|
  {
    forall k :: 0 <= k < |samples| ==> FromRow(rows, answers, n, samples[k])
  }

  lemma OneMoreFromRows(rows: seq<Target>, answers: seq<Answer>, n: nat, samples: seq<C.Sample>)
    requires AllPollable(rows, answers) && n < |rows| && AllFromRows(rows, answers, n, samples)
    ensures AllFromRows(rows, answers, n + 1, samples + Listed(SampleOf(rows[n], answers[n])))
  {
    var own := SampleOf(rows[n], answers[n]);
    var more := samples + Listed(own);
    forall k | 0 <= k < |more|
      ensures FromRow(rows, answers, n + 1, more[k])
    {
      if k < |samples| {
        FromEarlierRow(rows, answers, n, samples[k]);
        assert more[k] == samples[k];
      } else {
        assert SampleOf(rows[n], answers[n]) == Some(more[k]);
      }
    }
  }

  /** Every sample comes from a polled row. */
  lemma {:induction false} SamplesFromRows(rows: seq<Target>, answers: seq<Answer>, n: nat)
    requires AllPollable(rows, answers) && n <= |rows|
    ensures AllFromRows(rows, answers, n, Pass(rows, answers, n).samples)
  {
    if n == 0 {
    } else {
      SamplesFromRows(rows, answers, n - 1);
      OneMoreFromRows(rows, answers, n - 1, Pass(rows, answers, n - 1).samples);
    }
  }

  lemma PassSamples(rows: seq<Target>, answers: seq<Answer>, n: nat)
    requires AllPollable(rows, answers) && 0 < n <= |rows|
    ensures Pass(rows, answers, n).samples
         == Pass(rows, answers, n - 1).samples + Listed(SampleOf(rows[n - 1], answers[n - 1]))
  {
  }

  /** No sample shares table and id with this one. */
  ghost predicate NewKey(samples: seq<C.Sample>, own: C.Sample) {
    forall k :: 0 <= k < |samples| ==> samples[k].table != own.table || samples[k].value.id != own.value.id
  }

  lemma NextKeyIsNew(rows: seq<Target>, answers: seq<Answer>, n: nat)
    requires AllPollable(rows, answers) && DistinctRowKeys(rows) && n < |rows| && SampleOf(rows[n], answers[n]).Some?
    ensures NewKey(Pass(rows, answers, n).samples, SampleOf(rows[n], answers[n]).value)
  {
    var samples, own := Pass(rows, answers, n).samples, SampleOf(rows[n], answers[n]).value;
    SamplesFromRows(rows, answers, n);
    forall k | 0 <= k < |samples|
      ensures samples[k].table != own.table || samples[k].value.id != own.value.id
    {
      OwnKeyIsNew(rows, answers, n, samples[k]);
    }
  }

  lemma OneMoreKey(samples: seq<C.Sample>, own: Option<C.Sample>, samples': seq<C.Sample>)
    requires C.DistinctKeys(samples) && (own.Some? ==> NewKey(samples, own.value)) && samples' == samples + Listed(own)
    ensures C.DistinctKeys(samples')
  {
  }

  /** No two samples share table and id. */
  lemma {:induction false} SampleKeysDistinct(rows: seq<Target>, answers: seq<Answer>, n: nat)
    requires AllPollable(rows, answers) && DistinctRowKeys(rows) && n <= |rows|
    ensures C.DistinctKeys(Pass(rows, answers, n).samples)
  {
    if n == 0 {
    } else {
      var own := SampleOf(rows[n - 1], answers[n - 1]);
      SampleKeysDistinct(rows, answers, n - 1);
      PassSamples(rows, answers, n);
      if own.Some? {
        NextKeyIsNew(rows, answers, n - 1);
      }
      OneMoreKey(Pass(rows, answers, n - 1).samples, own, Pass(rows, answers, n).samples);
    }
  }

  /** A host whose rows have distinct (table, id), as the reader guarantees, never yields an insert
      with two values of the same id. */
  lemma NoInsertRepeatsAnId(rows: seq<Target>, answers: seq<Answer>, maxErrors: nat, k: nat)
    requires AllPollable(rows, answers) && DistinctRowKeys(rows)
    requires k < |PollRows(rows, answers, maxErrors).inserts|
    ensures var vs := PollRows(rows, answers, maxErrors).inserts[k].values;
            forall i, j :: 0 <= i < j < |vs| ==> vs[i].id != vs[j].id
  {
    var n := StopsAt(answers, maxErrors, 0);
    SampleKeysDistinct(rows, answers, n);
    ClusteringIsStableGroupBy(rows, answers, maxErrors, s => 0);
    C.InsertIdsDistinct(Pass(rows, answers, n).inserts, Pass(rows, answers, n).samples, k);
  }

  lemma {:induction false} SampleTables(rows: seq<Target>, answers: seq<Answer>, n: nat)
    requires AllPollable(rows, answers) && n <= |rows|
    ensures forall s :: s in Pass(rows, answers, n).samples ==> s.table in TableNames(rows)
  {
    if n == 0 {
    } else {
      SampleTables(rows, answers, n - 1);
      assert rows[n - 1] in rows;
    }
  }

  ghost function TableNames(rows: seq<Target>): set<string> {
    set t | t in rows && t.row.table.Some? :: t.row.table.value
  }

  /** One pass of the loop body over a row: refresh its cache and hand out its sample. */
  method PollRow(row: QueryRow, answer: Answer) returns (sample: Option<C.Sample>)
    requires Pollable(row.State(), answer)
    modifies row
    ensures sample == SampleOf(old(row.State()), answer)
    ensures row.State() == Refreshed(old(row.State()), answer)
  {
    sample := None;
    if answer.Got? {
      if row.row.bits == 0 || row.cachedTime != 0 {
        if row.cachedCounter > 0 || (row.cachedCounter == 0 && answer.counter == 0) {
          var counterDiff, rate :=
            CalculateRate(row.cachedTime, row.cachedCounter, answer.time, answer.counter, row.row.bits);
          if rate < row.row.speed {
            sample := Some(C.Sample(row.row.table.value,
                                    C.Value(row.row.id, counterDiff, rate, answer.time, answer.counter)));
          }
        }
      }
      row.cachedTime := answer.time;
      row.cachedCounter := answer.counter;
    }
  }

  /** A host with at most MAX_TABLES table names never overflows its list of inserts. */
  lemma RoomForSample(rows: seq<Target>, answers: seq<Answer>, n: nat)
    requires AllPollable(rows, answers) && n < |rows| && |TableNames(rows)| <= C.MAX_TABLES
    ensures Room(Pass(rows, answers, n).inserts, SampleOf(rows[n], answers[n]))
  {
    SampleTables(rows, answers, n);
    PassGroups(rows, answers, n);
    assert rows[n] in rows;
    var p, sample := Pass(rows, answers, n), SampleOf(rows[n], answers[n]);
    C.GroupIsStable(p.samples, |p.samples|);
    if sample.Some? {
      C.GroupFits(p.inserts, p.samples, TableNames(rows), sample.value.table);
    }
  }

  ghost predicate Room(inserts: seq<C.Insert>, sample: Option<C.Sample>) {
    sample.Some? ==> C.HasTable(inserts, sample.value.table) || |inserts| < C.MAX_TABLES
  }

  /** What the row objects hold; they are separate objects. */
  ghost predicate Rows(rows: seq<QueryRow>, now: seq<Target>)
    reads rows
  {
    && |rows| == |now|
    && (forall i, j :: 0 <= i < j < |rows| ==> rows[i] != rows[j])
    && (forall i :: 0 <= i < |rows| ==> rows[i].State() == now[i])
  }

  /** The loop body up to the error count: poll one row and cluster its sample. */
  method PollInto(row: QueryRow, answer: Answer, inserts: array<C.Clinsert?>, ghost list: seq<C.Clinsert>,
                  ghost held: seq<C.Insert>, ghost repr: set<object>)
    returns (ghost list': seq<C.Clinsert>, ghost repr': set<object>)
    requires Pollable(row.State(), answer)
    requires C.Filed(inserts, list, held, repr) && row !in repr
    requires Room(held, SampleOf(row.State(), answer))
    modifies row, repr
    ensures row.State() == Refreshed(old(row.State()), answer)
    ensures repr <= repr' && fresh(repr' - repr)
    ensures C.Filed(inserts, list', Clustered(held, SampleOf(old(row.State()), answer)), repr')
  {
    var sample := PollRow(row, answer);
    list', repr' := list, repr;
    match sample {
      case None =>
      case Some(s) =>
        list', repr' := C.PushSample(inserts, s, list, held, repr);
    }
  }

  /** The state of the loop with `n` rows polled: rows, inserts and error count are those of the pass. */
  ghost predicate Polled(rows: seq<QueryRow>, inserts: array<C.Clinsert?>, list: seq<C.Clinsert>, repr: set<object>,
                         p: Poll)
    reads rows, repr
  {
    Rows(rows, p.rows) && C.Filed(inserts, list, p.inserts, repr)
  }

  /** The loop is still going after `n` rows. */
  ghost predicate InLoop(rows: seq<QueryRow>, inserts: array<C.Clinsert?>, list: seq<C.Clinsert>, repr: set<object>,
                         before: seq<Target>, answers: seq<Answer>, maxErrors: nat, n: nat, p: Poll)
    requires AllPollable(before, answers) && n <= |before|
    reads rows, repr
  {
    && InProgress(before, answers, maxErrors, n, p) && Polled(rows, inserts, list, repr, p) && p.polled == n
    && (forall r :: r in rows ==> r !in repr)
  }

  /** What the loop has counted. */
  ghost predicate Tally(p: Poll, snmpFail: nat, snmpSuccess: nat) {
    snmpFail == p.failed && snmpFail + snmpSuccess == p.polled
  }

  /** How a pass goes on with the next row. */
  ghost predicate Follows(p: Poll, i: nat, answer: Answer, p': Poll) {
    && i < |p.rows| && Pollable(p.rows[i], answer)
    && p'.rows == p.rows[i := Refreshed(p.rows[i], answer)]
    && p'.inserts == Clustered(p.inserts, SampleOf(p.rows[i], answer))
    && p'.failed == p.failed + FailureOf(answer)
  }

  lemma PassStep(rows: seq<Target>, answers: seq<Answer>, n: nat)
    requires AllPollable(rows, answers) && n < |rows|
    ensures Follows(Pass(rows, answers, n), n, answers[n], Pass(rows, answers, n + 1))
    ensures Pass(rows, answers, n).rows[n] == rows[n]
  {
    PassRefreshes(rows, answers, n);
  }

  /** The loop body at a row: the rows and inserts follow the pass. */
  method PollRowAt(rows: seq<QueryRow>, i: nat, answer: Answer, inserts: array<C.Clinsert?>, ghost list: seq<C.Clinsert>,
                   ghost repr: set<object>, ghost p: Poll, ghost p': Poll)
    returns (ghost list': seq<C.Clinsert>, ghost repr': set<object>)
    requires i < |rows| && Polled(rows, inserts, list, repr, p) && Follows(p, i, answer, p')
    requires Room(p.inserts, SampleOf(p.rows[i], answer)) && forall r :: r in rows ==> r !in repr
    modifies rows, repr
    ensures repr <= repr' && fresh(repr' - repr)
    ensures Polled(rows, inserts, list', repr', p') && forall r :: r in rows ==> r !in repr'
  {
    list', repr' := PollInto(rows[i], answer, inserts, list, p.inserts, repr);
  }

  /** One pass of the loop over the rows, with its count; whether it is the last. */
  method PollStep(rows: seq<QueryRow>, i: nat, answers: seq<Answer>, inserts: array<C.Clinsert?>, maxErrors: u32,
                  snmpFail: nat, snmpSuccess: nat, ghost before: seq<Target>, ghost list: seq<C.Clinsert>,
                  ghost repr: set<object>, ghost p: Poll)
    returns (snmpFail': nat, snmpSuccess': nat, stop: bool, ghost list': seq<C.Clinsert>, ghost repr': set<object>,
             ghost p': Poll)
    requires AllPollable(before, answers) && |TableNames(before)| <= C.MAX_TABLES && i < |rows| == |before|
    requires InLoop(rows, inserts, list, repr, before, answers, maxErrors, i, p) && Tally(p, snmpFail, snmpSuccess)
    modifies rows, repr
    ensures repr <= repr' && fresh(repr' - repr)
    ensures Polled(rows, inserts, list', repr', p') && Tally(p', snmpFail', snmpSuccess')
    ensures if stop then p' == PollRows(before, answers, maxErrors)
            else InLoop(rows, inserts, list', repr', before, answers, maxErrors, i + 1, p')
  {
    p' := Pass(before, answers, i + 1);
    RoomForSample(before, answers, i);
    PassStep(before, answers, i);
    NextRow(before, answers, maxErrors, i, p, p');
    list', repr' := PollRowAt(rows, i, answers[i], inserts, list, repr, p, p');
    snmpFail', snmpSuccess' := CountAnswer(answers[i], snmpFail, snmpSuccess);
    stop := snmpFail' >= maxErrors;
  }

  method CountAnswer(answer: Answer, snmpFail: nat, snmpSuccess: nat) returns (snmpFail': nat, snmpSuccess': nat)
    ensures snmpFail' == snmpFail + FailureOf(answer) && snmpFail' + snmpSuccess' == snmpFail + snmpSuccess + 1
  {
    snmpFail', snmpSuccess' := snmpFail, snmpSuccess;
    if answer.Got? {
      snmpSuccess' := snmpSuccess' + 1;
    } else {
      snmpFail' := snmpFail' + 1;
    }
  }

  /** The loop over the rows of a host, with what it counted. */
  method PollAllRows(rows: seq<QueryRow>, maxErrors: u32, answers: seq<Answer>, inserts: array<C.Clinsert?>,
                     ghost before: seq<Target>)
    returns (snmpFail: nat, snmpSuccess: nat, ghost list: seq<C.Clinsert>, ghost repr: set<object>, ghost p: Poll)
    requires Rows(rows, before) && AllPollable(before, answers)
    requires |TableNames(before)| <= C.MAX_TABLES && C.Filed(inserts, [], [], {inserts})
    modifies rows, inserts
    ensures fresh(repr - {inserts})
    ensures p == PollRows(before, answers, maxErrors) && Polled(rows, inserts, list, repr, p)
    ensures snmpFail == p.failed && snmpSuccess == p.polled - p.failed
  {
    list, repr, p := [], {inserts}, Poll(before, [], [], 0, 0);
    snmpFail, snmpSuccess := 0, 0;
    AtStart(before, answers, maxErrors);
    for i := 0 to |rows|
      invariant Tally(p, snmpFail, snmpSuccess)
      invariant fresh(repr - {inserts}) && InLoop(rows, inserts, list, repr, before, answers, maxErrors, i, p)
    {
      var stop;
      snmpFail, snmpSuccess, stop, list, repr, p :=
        PollStep(rows, i, answers, inserts, maxErrors, snmpFail, snmpSuccess, before, list, repr, p);
      if stop {
        return;
      }
    }
    AtEnd(before, answers, maxErrors, p);
  }

  /** The same into a list of its own. */
  method PollHost(rows: seq<QueryRow>, maxErrors: u32, answers: seq<Answer>, ghost before: seq<Target>)
    returns (inserts: array<C.Clinsert?>, snmpFail: nat, snmpSuccess: nat, ghost list: seq<C.Clinsert>,
             ghost repr: set<object>, ghost p: Poll)
    requires Rows(rows, before) && AllPollable(before, answers)
    requires |TableNames(before)| <= C.MAX_TABLES
    modifies rows
    ensures fresh(repr)
    ensures p == PollRows(before, answers, maxErrors) && p.polled <= |answers| && Polled(rows, inserts, list, repr, p)
    ensures snmpFail == |FailedAt(answers, p.polled)| && snmpSuccess == |GotAt(answers, p.polled)|
  {
    inserts := C.NewList();
    snmpFail, snmpSuccess, list, repr, p := PollAllRows(rows, maxErrors, answers, inserts, before);
    PollCountsGets(before, answers, maxErrors);
  }

  /** The inserts of one polling round of a host: the stable group-by of the samples of the rows
      polled, while the caches of exactly those rows are brought up to date. */
  method GetClinserts(host: QueryHost, maxErrors: u32, answers: seq<Answer>, statistics: Monitor.Statistics,
                      ghost before: seq<Target>)
    returns (inserts: array<C.Clinsert?>, ghost list: seq<C.Clinsert>, ghost repr: set<object>, ghost p: Poll)
    requires host.snmpver == 1 || host.snmpver == 2
    requires Rows(host.rows, before) && AllPollable(before, answers)
    requires |TableNames(before)| <= C.MAX_TABLES
    modifies host.rows, statistics`snmpFail, statistics`snmpSuccess
    ensures fresh(repr)
    ensures p == PollRows(before, answers, maxErrors) && p.polled <= |answers|
    ensures Polled(host.rows, inserts, list, repr, p)
    ensures statistics.snmpFail == Wrap32(old(statistics.snmpFail) + |FailedAt(answers, p.polled)|)
    ensures statistics.snmpSuccess == Wrap32(old(statistics.snmpSuccess) + |GotAt(answers, p.polled)|)
  {
    var snmpFail, snmpSuccess;
    inserts, snmpFail, snmpSuccess, list, repr, p := PollHost(host.rows, maxErrors, answers, before);
    statistics.CountGets(snmpFail, snmpSuccess);
  }

  // Queueing, with other threads at the same queue.

  /** What the other threads do to the queue around one insert: before the check for space, and between
      the check and the push. */
  datatype Others<T> = Others(before: seq<B.Op<T>>, between: seq<B.Op<T>>)

  /** The queue, and which of the inserts so far were queued. */
  datatype Sent<T> = Sent(queue: seq<T>, bits: seq<bool>)

  function After<T>(queue: seq<T>, ops: seq<B.Op<T>>, capacity: nat): seq<T> {
    B.RunFifo(ops, |ops|, queue, capacity).queue
  }

  function SendOne<T>(s: Sent<T>, x: T, others: Others<T>, capacity: nat): Sent<T> {
    var checked := After(s.queue, others.before, capacity);
    var pushed := After(checked, others.between, capacity);
    var ok := |checked| < capacity && |pushed| < capacity;
    Sent(if ok then pushed + [x] else pushed, s.bits + [ok])
  }

  /** The first `n` inserts sent: one is queued exactly if there was room both at the check and at the push. */
  function SendAll<T>(list: seq<T>, others: seq<Others<T>>, n: nat, queue: seq<T>, capacity: nat): (s: Sent<T>)
    requires n <= |list| && n <= |others|
    ensures |s.bits| == n
  {
    if n == 0 then Sent(queue, [])
    else SendOne(SendAll(list, others, n - 1, queue, capacity), list[n - 1], others[n - 1], capacity)
  }

  /** Those of the first `n` inserts whose bit is `b`, in order. */
  function Chosen<T>(list: seq<T>, bits: seq<bool>, b: bool, n: nat): seq<T>
    requires n <= |list| && n <= |bits|
  {
    if n == 0 then []
    else Chosen(list, bits, b, n - 1) + if bits[n - 1] == b then [list[n - 1]] else []
  }

  lemma {:induction false} ChosenPrefix<T>(list: seq<T>, bits: seq<bool>, more: seq<bool>, b: bool, n: nat)
    requires n <= |list| && n <= |bits|
    ensures Chosen(list, bits + more, b, n) == Chosen(list, bits, b, n)
  {
    if n == 0 {
    } else {
      ChosenPrefix(list, bits, more, b, n - 1);
    }
  }

  function CountQueued(bits: seq<bool>, n: nat): nat
    requires n <= |bits|
  {
    if n == 0 then 0 else CountQueued(bits, n - 1) + if bits[n - 1] then 1 else 0
  }

  /** The values in the inserts queued, given the number in each insert. */
  function CountValues(sizes: seq<nat>, bits: seq<bool>, n: nat): nat
    requires n <= |sizes| && n <= |bits|
  {
    if n == 0 then 0 else CountValues(sizes, bits, n - 1) + if bits[n - 1] then sizes[n - 1] else 0
  }

  lemma {:induction false} CountPrefix(sizes: seq<nat>, bits: seq<bool>, more: seq<bool>, n: nat)
    requires n <= |sizes| && n <= |bits|
    ensures CountQueued(bits + more, n) == CountQueued(bits, n)
    ensures CountValues(sizes, bits + more, n) == CountValues(sizes, bits, n)
  {
    if n == 0 {
    } else {
      CountPrefix(sizes, bits, more, n - 1);
    }
  }

  /** Every insert is queued or freed, and as many are queued as are counted. */
  lemma {:induction false} QueuedAndFreedAreAll<T>(list: seq<T>, bits: seq<bool>, n: nat)
    requires n <= |list| && n <= |bits|
    ensures |Chosen(list, bits, true, n)| == CountQueued(bits, n)
    ensures |Chosen(list, bits, true, n)| + |Chosen(list, bits, false, n)| == n
    ensures forall i :: 0 <= i < n ==> list[i] in Chosen(list, bits, bits[i], n)
  {
    if n == 0 {
    } else {
      QueuedAndFreedAreAll(list, bits, n - 1);
    }
  }

  function Total<T>(list: seq<T>, f: T -> nat): nat {
    if list == [] then 0 else Total(list[..|list| - 1], f) + f(list[|list| - 1])
  }

  /** The values counted are those in the inserts queued. */
  lemma {:induction false} QueuedValuesAreAll<T>(list: seq<T>, sizes: seq<nat>, bits: seq<bool>, n: nat, f: T -> nat)
    requires n <= |list| == |sizes| && n <= |bits| && forall i :: 0 <= i < |list| ==> sizes[i] == f(list[i])
    ensures CountValues(sizes, bits, n) == Total(Chosen(list, bits, true, n), f)
  {
    if n == 0 {
    } else {
      QueuedValuesAreAll(list, sizes, bits, n - 1, f);
      var before := Chosen(list, bits, true, n - 1);
      assert (before + [list[n - 1]])[..|before|] == before;
      assert before + [] == before;
    }
  }

  /** A poller alone at the queue queues as many inserts as there is room for, and frees the rest. */
  lemma {:induction false} AloneItQueuesWhatFits<T>(list: seq<T>, others: seq<Others<T>>, n: nat, queue: seq<T>, capacity: nat)
    requires n <= |list| && n <= |others| && |queue| <= capacity
    requires forall i :: 0 <= i < |others| ==> others[i] == Others([], [])
    ensures var s, room := SendAll(list, others, n, queue, capacity), capacity - |queue|;
            && s.queue == queue + list[..if n <= room then n else room]
            && forall i :: 0 <= i < n ==> s.bits[i] == (i < room)
  {
    if n == 0 {
    } else {
      AloneItQueuesWhatFits(list, others, n - 1, queue, capacity);
      var room := capacity - |queue|;
      if n <= room {
        assert list[..n] == list[..n - 1] + [list[n - 1]];
        assert queue + list[..n] == (queue + list[..n - 1]) + [list[n - 1]];
      }
    }
  }

  /** The check for space and the push, two separate calls on a queue that others use before and between. */
  method QueueInsert(queries: B.Clbuf<C.Clinsert>, insert: C.Clinsert, others: Others<C.Clinsert>, ghost s: Sent<C.Clinsert>)
    returns (queued: bool, ghost s': Sent<C.Clinsert>)
    requires queries.Valid() && queries.Contents == s.queue
    modifies queries, queries.buffer
    ensures queries.Valid() && queries.Contents == s'.queue
    ensures s' == SendOne(s, insert, others, queries.allocatedSize) && s'.bits == s.bits + [queued]
    ensures var checked := B.RunFifo(others.before, |others.before|, old(queries.Contents), queries.allocatedSize).queue;
            var pushed := B.RunFifo(others.between, |others.between|, checked, queries.allocatedSize).queue;
            && (queued <==> |checked| < queries.allocatedSize && |pushed| < queries.allocatedSize)
            && queries.Contents == if queued then pushed + [insert] else pushed
  {
    s' := SendOne(s, insert, others, queries.allocatedSize);
    var replies := B.RunOps(queries, others.before);
    var result := None;
    var free := queries.CountFree();
    replies := B.RunOps(queries, others.between);
    if free > 0 {
      result := queries.Push(Some(insert));
    }
    queued := result.Some?;
  }

  /** What the loop has counted once `n` inserts are sent as these bits say. */
  ghost predicate Tallied(list: seq<C.Clinsert>, sizes: seq<nat>, bits: seq<bool>, freed: seq<C.Clinsert>,
                          queries: nat, values: nat)
  {
    && |bits| <= |list| == |sizes|
    && freed == Chosen(list, bits, false, |bits|)
    && queries == CountQueued(bits, |bits|) && values == CountValues(sizes, bits, |bits|)
  }

  lemma TallyOneMore(list: seq<C.Clinsert>, sizes: seq<nat>, bits: seq<bool>, ok: bool, freed: seq<C.Clinsert>,
                     queries: nat, values: nat)
    requires |bits| < |list| && Tallied(list, sizes, bits, freed, queries, values)
    ensures var n := |bits|;
            Tallied(list, sizes, bits + [ok], if ok then freed else freed + [list[n]],
                    if ok then queries + 1 else queries, if ok then values + sizes[n] else values)
  {
    var n := |bits|;
    ChosenPrefix(list, bits, [ok], false, n);
    CountPrefix(sizes, bits, [ok], n);
  }

  ghost predicate Sizes(list: seq<C.Clinsert>, sizes: seq<nat>)
    reads list
  {
    |sizes| == |list| && forall i :: 0 <= i < |list| ==> list[i].nvalues == sizes[i]
  }

  /** The loop with `n` inserts sent. */
  ghost predicate Sending(queries: B.Clbuf<C.Clinsert>, before: seq<C.Clinsert>, list: seq<C.Clinsert>,
                          others: seq<Others<C.Clinsert>>, n: nat, s: Sent<C.Clinsert>)
    reads queries, queries.buffer
  {
    && n <= |list| == |others| && queries.Valid() && queries.Contents == s.queue && |s.bits| == n
    && s == SendAll(list, others, n, before, queries.allocatedSize)
  }

  /** One pass of the loop: the insert is queued and counted, or freed. */
  method SendInsert(queries: B.Clbuf<C.Clinsert>, insert: C.Clinsert, others: seq<Others<C.Clinsert>>, processed: nat,
                    freed: seq<C.Clinsert>, queuedQueries: nat, queuedValues: nat, ghost before: seq<C.Clinsert>,
                    ghost list: seq<C.Clinsert>, ghost sizes: seq<nat>, ghost s: Sent<C.Clinsert>)
    returns (freed': seq<C.Clinsert>, queuedQueries': nat, queuedValues': nat, ghost s': Sent<C.Clinsert>)
    requires Sending(queries, before, list, others, processed, s) && Sizes(list, sizes)
    requires processed < |list| && list[processed] == insert && Tallied(list, sizes, s.bits, freed, queuedQueries, queuedValues)
    modifies queries, queries.buffer
    ensures Sending(queries, before, list, others, processed + 1, s')
    ensures Tallied(list, sizes, s'.bits, freed', queuedQueries', queuedValues')
  {
    var values := insert.nvalues;
    var ok;
    ok, s' := QueueInsert(queries, insert, others[processed], s);
    TallyOneMore(list, sizes, s.bits, ok, freed, queuedQueries, queuedValues);
    freed', queuedQueries', queuedValues' := freed, queuedQueries, queuedValues;
    if ok {
      queuedQueries' := queuedQueries + 1;
      queuedValues' := queuedValues + values;
    } else {
      freed' := freed + [insert];
    }
  }

  /** The loop of process_queries, whatever other threads do in between: each insert is queued or freed,
      in order, and exactly the queued ones and their values are counted. */
  method QueueAll(inserts: array<C.Clinsert?>, nQueries: nat, queries: B.Clbuf<C.Clinsert>,
                  others: seq<Others<C.Clinsert>>, ghost list: seq<C.Clinsert>, ghost sizes: seq<nat>)
    returns (freed: seq<C.Clinsert>, queuedQueries: nat, queuedValues: nat, processed: nat, ghost s: Sent<C.Clinsert>)
    requires C.Lists(inserts, list) && Sizes(list, sizes) && nQueries == |list| == |others| && queries.Valid()
    modifies queries, queries.buffer
    ensures queries.Valid() && queries.Contents == s.queue && processed == nQueries
    ensures s == SendAll(list, others, |list|, old(queries.Contents), queries.allocatedSize)
    ensures Tallied(list, sizes, s.bits, freed, queuedQueries, queuedValues)
  {
    ghost var before := queries.Contents;
    freed, queuedQueries, queuedValues, processed := [], 0, 0, 0;
    s := Sent(before, []);
    while processed < nQueries
      invariant 0 <= processed <= nQueries && Sending(queries, before, list, others, processed, s)
      invariant Tallied(list, sizes, s.bits, freed, queuedQueries, queuedValues)
    {
      freed, queuedQueries, queuedValues, s :=
        SendInsert(queries, inserts[processed], others, processed, freed, queuedQueries, queuedValues, before, list, sizes, s);
      processed := processed + 1;
    }
  }

  /** All of process_queries but the statistics: what it counts for them, and the depth of the queue after
      more steps of the other threads. */
  method QueueList(inserts: array<C.Clinsert?>, queries: B.Clbuf<C.Clinsert>, others: seq<Others<C.Clinsert>>,
                   afterwards: seq<B.Op<C.Clinsert>>, ghost list: seq<C.Clinsert>, ghost sizes: seq<nat>)
    returns (freed: seq<C.Clinsert>, queuedQueries: nat, queuedValues: nat, dropped: nat, depth: u32,
             ghost s: Sent<C.Clinsert>)
    requires C.Lists(inserts, list) && Sizes(list, sizes) && |list| < C.MAX_TABLES
    requires |others| == |list| && queries.Valid()
    modifies queries, queries.buffer
    ensures queries.Valid() && queries.Contents == After(s.queue, afterwards, queries.allocatedSize)
    ensures s == SendAll(list, others, |list|, old(queries.Contents), queries.allocatedSize)
    ensures freed == Chosen(list, s.bits, false, |list|)
    ensures queuedQueries == CountQueued(s.bits, |list|) && queuedValues == CountValues(sizes, s.bits, |list|)
    ensures dropped == 0 && depth == |queries.Contents|
  {
    var nQueries := C.Count(inserts, list);
    var processed;
    freed, queuedQueries, queuedValues, processed, s := QueueAll(inserts, nQueries, queries, others, list, sizes);
    var replies := B.RunOps(queries, afterwards);
    depth := queries.CountUsed();
    dropped := nQueries - processed;
  }

  /** Of a list of inserts each is queued or freed, as the other threads leave room; the statistics count
      the queued ones and their values. The statistic of dropped queries never moves: it is computed
      after a loop that always runs to the end. */
  method ProcessQueries(inserts: array<C.Clinsert?>, queries: B.Clbuf<C.Clinsert>, others: seq<Others<C.Clinsert>>,
                        afterwards: seq<B.Op<C.Clinsert>>, statistics: Monitor.Statistics,
                        ghost list: seq<C.Clinsert>, ghost sizes: seq<nat>)
    returns (freed: seq<C.Clinsert>, ghost s: Sent<C.Clinsert>)
    requires C.Lists(inserts, list) && Sizes(list, sizes) && |list| < C.MAX_TABLES
    requires |others| == |list| && queries.Valid()
    modifies queries, queries.buffer
    modifies statistics`insertRows, statistics`insertQueries, statistics`droppedQueries, statistics`maxQueueDepth
    ensures queries.Valid() && queries.Contents == After(s.queue, afterwards, queries.allocatedSize)
    ensures s == SendAll(list, others, |list|, old(queries.Contents), queries.allocatedSize)
    ensures freed == Chosen(list, s.bits, false, |list|)
    ensures statistics.insertQueries == Wrap32(old(statistics.insertQueries) + CountQueued(s.bits, |list|))
    ensures statistics.insertRows == Wrap32(old(statistics.insertRows) + CountValues(sizes, s.bits, |list|))
    ensures statistics.droppedQueries == old(statistics.droppedQueries)
    ensures var depth := |queries.Contents|;
            statistics.maxQueueDepth == if old(statistics.maxQueueDepth) > depth then old(statistics.maxQueueDepth) else depth
  {
    var queuedQueries, queuedValues, dropped, depth;
    freed, queuedQueries, queuedValues, dropped, depth, s := QueueList(inserts, queries, others, afterwards, list, sizes);
    statistics.CountInserts(queuedValues, queuedQueries, dropped, depth);
  }
}
