/** From the samples a round accepts to the rows MySQL executes: what the pollers put into the queue
    (src/poller.c) is what the database threads send (src/database.c), but for what is accounted for. */
module EndToEnd {
  import opened Words
  import opened Sql
  import C = Clinsert
  import O = Ownership
  import Poller
  import T = Targets

  /** Measuring an insert by its samples. */
  function Measure(g: C.Sample -> nat): O.Item -> nat {
    (item: O.Item) => C.InsertSum(item.insert, g, |item.insert.values|)
  }

  lemma {:induction false} NumberedSum(inserts: seq<C.Insert>, id: nat, g: C.Sample -> nat, n: nat)
    requires n <= |inserts|
    ensures O.Weigh(O.Numbered(inserts, id), Measure(g), n) == C.ListSum(inserts, g, n)
  {
    if n == 0 {
    } else {
      NumberedSum(inserts, id, g, n - 1);
    }
  }

  /** The inserts of a polled host weigh what its samples do. */
  lemma PollWeighs(rows: seq<T.Target>, answers: seq<Poller.Answer>, maxErrors: nat, id: nat, g: C.Sample -> nat)
    requires Poller.AllPollable(rows, answers)
    ensures var poll := Poller.PollRows(rows, answers, maxErrors);
            var items := O.Numbered(poll.inserts, id);
            O.Weigh(items, Measure(g), |items|) == C.Sum(poll.samples, g, |poll.samples|)
  {
    var poll := Poller.PollRows(rows, answers, maxErrors);
    NumberedSum(poll.inserts, id, g, |poll.inserts|);
    Poller.ClusteringIsStableGroupBy(rows, answers, maxErrors, g);
  }

  lemma BuildKeepsSum(s: O.State, p: nat, items: seq<O.Item>, samples: seq<C.Sample>, g: C.Sample -> nat)
    requires p < |s.producers| && O.Weigh(s.made, Measure(g), |s.made|) == C.Sum(s.accepted, g, |s.accepted|)
    requires O.Weigh(items, Measure(g), |items|) == C.Sum(samples, g, |samples|)
    ensures var s' := O.DoBuild(s, p, items, samples);
            O.Weigh(s'.made, Measure(g), |s'.made|) == C.Sum(s'.accepted, g, |s'.accepted|)
  {
    O.WeighConcat(s.made, items, Measure(g), |items|);
    C.SumConcat(s.accepted, samples, g, |samples|);
  }

  /** The places together hold what was built, and that is what get_clinserts accepted. */
  ghost predicate Books(s: O.State, g: C.Sample -> nat) {
    && O.Conserved(s, Measure(g))
    && O.Weigh(s.made, Measure(g), |s.made|) == C.Sum(s.accepted, g, |s.accepted|)
  }

  lemma StepKeepsBooks(s: O.State, step: O.Step, limits: O.Limits, g: C.Sample -> nat)
    requires Books(s, g) && O.Enabled(s, step)
    ensures Books(O.Do(s, step, limits), g)
  {
    O.StepConserves(s, step, limits, Measure(g));
    match step {
      case Build(p, rows, answers) =>
        var poll := Poller.PollRows(rows, answers, limits.maxErrors);
        PollWeighs(rows, answers, limits.maxErrors, |s.made|, g);
        BuildKeepsSum(s, p, O.Numbered(poll.inserts, |s.made|), poll.samples, g);
      case _ =>
    }
  }

  lemma InitialBooks(s: O.State, g: C.Sample -> nat)
    requires O.IsInit(s)
    ensures Books(s, g)
  {
    O.NothingAtFirst(s, Measure(g), |s.producers|, |s.consumers|);
  }

  /** In every interleaving the inserts built hold exactly the samples get_clinserts accepted. */
  lemma {:induction false} MadeIsAccepted(trace: seq<O.State>, steps: seq<O.Step>, limits: O.Limits,
                                          g: C.Sample -> nat, k: nat)
    requires O.IsRun(trace, steps, limits) && k < |trace|
    ensures Books(trace[k], g)
  {
    if k == 0 {
      InitialBooks(trace[0], g);
    } else {
      MadeIsAccepted(trace, steps, limits, g, k - 1);
      StepKeepsBooks(trace[k - 1], steps[k - 1], limits, g);
    }
  }

  /** What is still on its way: in the pollers' lists, the queue and the database threads' hands. */
  function UnderWay(s: O.State, g: C.Sample -> nat): nat {
    O.InLists(s.producers, Measure(g), |s.producers|) + O.Weigh(s.queue, Measure(g), |s.queue|)
    + O.InHands(s.consumers, Measure(g), |s.consumers|)
  }

  /** What has left: executed, freed or refused. */
  function Gone(done: seq<O.Item>, freed: seq<O.Item>, failed: seq<O.Item>, f: O.Item -> nat): nat {
    O.Weigh(done, f, |done|) + O.Weigh(freed, f, |freed|) + O.Weigh(failed, f, |failed|)
  }

  lemma BooksBalance(s: O.State, g: C.Sample -> nat)
    requires Books(s, g)
    ensures C.Sum(s.accepted, g, |s.accepted|) == UnderWay(s, g) + Gone(s.done, s.freed, s.failed, Measure(g))
  {
  }

  /** The pollers are through with their lists and the database threads with the queue. */
  ghost predicate AtRest(s: O.State) {
    && (forall p :: 0 <= p < |s.producers| ==> s.producers[p].at == |s.producers[p].list|)
    && s.queue == []
    && (forall c :: 0 <= c < |s.consumers| ==> !s.consumers[c].Hand?)
  }

  lemma {:induction false} NothingUnderWay(s: O.State, f: O.Item -> nat, n: nat, m: nat)
    requires AtRest(s) && n <= |s.producers| && m <= |s.consumers|
    ensures O.InLists(s.producers, f, n) == 0 && O.InHands(s.consumers, f, m) == 0
    decreases n + m
  {
    if n > 0 {
      NothingUnderWay(s, f, n - 1, m);
    } else if m > 0 {
      NothingUnderWay(s, f, n, m - 1);
    }
  }

  lemma RestHasNothing(s: O.State, g: C.Sample -> nat)
    requires AtRest(s)
    ensures UnderWay(s, g) == 0
  {
    NothingUnderWay(s, Measure(g), |s.producers|, |s.consumers|);
  }

  // The zero filter splits a measure in two.

  function Passing(cfg: Config, g: C.Sample -> nat): C.Sample -> nat {
    (s: C.Sample) => if Keeps(cfg, s.value) then g(s) else 0
  }

  function Filtered(cfg: Config, g: C.Sample -> nat): C.Sample -> nat {
    (s: C.Sample) => if Keeps(cfg, s.value) then 0 else g(s)
  }

  lemma {:induction false} FilterSplits(cfg: Config, g: C.Sample -> nat, insert: C.Insert, n: nat)
    requires n <= |insert.values|
    ensures C.InsertSum(insert, g, n) == C.InsertSum(insert, Passing(cfg, g), n) + C.InsertSum(insert, Filtered(cfg, g), n)
  {
    if n == 0 {
    } else {
      FilterSplits(cfg, g, insert, n - 1);
    }
  }

  lemma {:induction false} WeightSplits(cfg: Config, g: C.Sample -> nat, items: seq<O.Item>, n: nat)
    requires n <= |items|
    ensures O.Weigh(items, Measure(g), n)
         == O.Weigh(items, Measure(Passing(cfg, g)), n) + O.Weigh(items, Measure(Filtered(cfg, g)), n)
  {
    if n == 0 {
    } else {
      WeightSplits(cfg, g, items, n - 1);
      FilterSplits(cfg, g, items[n - 1].insert, |items[n - 1].insert.values|);
    }
  }

  // The rows in the statements, as a reader of the text counts them.

  /** The texts that a query per insert yields; an insert without rows yields none. */
  function Texts(items: seq<O.Item>, query: O.Item -> Option<string>, n: nat): seq<string>
    requires n <= |items|
  {
    if n == 0 then [] else Texts(items, query, n - 1) + Listed(query(items[n - 1]))
  }

  function QueryOf(cfg: Config): O.Item -> Option<string> {
    (item: O.Item) => Query(cfg, item.insert)
  }

  /** The statements sent for these inserts. */
  function Statements(cfg: Config, items: seq<O.Item>): seq<string> {
    Texts(items, QueryOf(cfg), |items|)
  }

  // Any measure of the rows of a table (whether it is a certain row, say, or its counter), over the rows in
  // the text of statements.

  function RowSum(rows: seq<Row>, table: string, m: (string, Row) -> nat, n: nat): nat
    requires n <= |rows|
  {
    if n == 0 then 0 else RowSum(rows, table, m, n - 1) + m(table, rows[n - 1])
  }

  /** The rows a statement inserts, as a reader of its text finds them. */
  function RowsIn(text: string, m: (string, Row) -> nat): nat {
    match Decode(text)
    case None => 0
    case Some(s) => RowSum(s.rows, s.table, m, |s.rows|)
  }

  function RowsInAll(texts: seq<string>, m: (string, Row) -> nat, n: nat): nat
    requires n <= |texts|
  {
    if n == 0 then 0 else RowsInAll(texts, m, n - 1) + RowsIn(texts[n - 1], m)
  }

  /** The measure of a sample by the row that shows it. */
  function Shown(cfg: Config, m: (string, Row) -> nat): C.Sample -> nat {
    (s: C.Sample) => m(s.table, RowOf(cfg, s.value))
  }

  lemma {:induction false} RowSumPrefix(a: seq<Row>, b: seq<Row>, table: string, m: (string, Row) -> nat, n: nat)
    requires n <= |a| && n <= |b| && forall i :: 0 <= i < n ==> a[i] == b[i]
    ensures RowSum(a, table, m, n) == RowSum(b, table, m, n)
  {
    if n == 0 {
    } else {
      RowSumPrefix(a, b, table, m, n - 1);
    }
  }

  lemma OneMoreRow(cfg: Config, values: seq<C.Value>, v: C.Value, table: string, m: (string, Row) -> nat)
    ensures RowSum(RowsOf(cfg, values + [v], 0), table, m, |values| + 1)
         == RowSum(RowsOf(cfg, values, 0), table, m, |values|) + m(table, RowOf(cfg, v))
  {
    RowsAsList(cfg, values);
    RowsAsList(cfg, values + [v]);
    RowSumPrefix(RowsOf(cfg, values + [v], 0), RowsOf(cfg, values, 0), table, m, |values|);
  }

  lemma RowsAsList(cfg: Config, values: seq<C.Value>)
    ensures var rows := RowsOf(cfg, values, 0);
            |rows| == |values| && forall i :: 0 <= i < |rows| ==> rows[i] == RowOf(cfg, values[i])
  {
    var rows := RowsOf(cfg, values, 0);
    forall i | 0 <= i < |rows|
      ensures rows[i] == RowOf(cfg, values[i])
    {
      assert rows[i] == RowOf(cfg, values[0 + i]);
    }
  }

  /** The kept values measure as rows exactly what they measure as samples. */
  lemma {:induction false} KeptAreShown(cfg: Config, insert: C.Insert, m: (string, Row) -> nat, n: nat)
    requires n <= |insert.values|
    ensures var kept := Kept(cfg, insert.values, n);
            C.InsertSum(insert, Passing(cfg, Shown(cfg, m)), n) == RowSum(RowsOf(cfg, kept, 0), insert.table, m, |kept|)
  {
    if n == 0 {
    } else {
      var v, before := insert.values[n - 1], Kept(cfg, insert.values, n - 1);
      KeptAreShown(cfg, insert, m, n - 1);
      OneMoreRow(cfg, before, v, insert.table, m);
      assert Kept(cfg, insert.values, n) == if Keeps(cfg, v) then before + [v] else before;
    }
  }

  function RowsInQuery(query: Option<string>, m: (string, Row) -> nat): nat {
    match query
    case None => 0
    case Some(text) => RowsIn(text, m)
  }

  lemma InsertIsShown(cfg: Config, insert: C.Insert, m: (string, Row) -> nat)
    ensures C.InsertSum(insert, Passing(cfg, Shown(cfg, m)), |insert.values|)
         == RowsInQuery(Query(cfg, insert), m)
  {
    KeptAreShown(cfg, insert, m, |insert.values|);
    DecodeQuery(cfg, insert);
  }

  lemma {:induction false} RowsPrefix(a: seq<string>, b: seq<string>, m: (string, Row) -> nat, n: nat)
    requires n <= |a|
    ensures RowsInAll(a + b, m, n) == RowsInAll(a, m, n)
  {
    if n == 0 {
    } else {
      RowsPrefix(a, b, m, n - 1);
    }
  }

  lemma RowsOneMore(texts: seq<string>, query: Option<string>, m: (string, Row) -> nat)
    ensures var more := texts + Listed(query);
            RowsInAll(more, m, |more|) == RowsInAll(texts, m, |texts|) + RowsInQuery(query, m)
  {
    match query {
      case None => assert texts + [] == texts;
      case Some(text) => RowsPrefix(texts, [text], m, |texts|);
    }
  }

  function RowsOfQuery(query: O.Item -> Option<string>, m: (string, Row) -> nat): O.Item -> nat {
    (item: O.Item) => RowsInQuery(query(item), m)
  }

  lemma {:induction false} TextsShow(items: seq<O.Item>, query: O.Item -> Option<string>, m: (string, Row) -> nat, n: nat)
    requires n <= |items|
    ensures var texts := Texts(items, query, n);
            O.Weigh(items, RowsOfQuery(query, m), n) == RowsInAll(texts, m, |texts|)
  {
    if n == 0 {
    } else {
      TextsShow(items, query, m, n - 1);
      RowsOneMore(Texts(items, query, n - 1), query(items[n - 1]), m);
    }
  }

  lemma {:induction false} SameWeight(items: seq<O.Item>, f: O.Item -> nat, f': O.Item -> nat, n: nat)
    requires n <= |items| && forall i :: 0 <= i < n ==> f(items[i]) == f'(items[i])
    ensures O.Weigh(items, f, n) == O.Weigh(items, f', n)
  {
    if n == 0 {
    } else {
      SameWeight(items, f, f', n - 1);
    }
  }

  /** Reading the text of all statements measures what the inserts hold unfiltered. */
  lemma StatementsShow(cfg: Config, items: seq<O.Item>, m: (string, Row) -> nat)
    ensures var texts := Statements(cfg, items);
            O.Weigh(items, Measure(Passing(cfg, Shown(cfg, m))), |items|)
            == RowsInAll(texts, m, |texts|)
  {
    var f, f' := Measure(Passing(cfg, Shown(cfg, m))), RowsOfQuery(QueryOf(cfg), m);
    forall i | 0 <= i < |items|
      ensures f(items[i]) == f'(items[i])
    {
      InsertIsShown(cfg, items[i].insert, m);
    }
    SameWeight(items, f, f', |items|);
    TextsShow(items, QueryOf(cfg), m, |items|);
  }

  /** What has left the queue's reach: the rows in the text of the statements taken, the zero-rate samples
      the filter left out of them, and the samples in the inserts freed for lack of space and in those
      recorded as refused. */
  function Settled(cfg: Config, done: seq<O.Item>, freed: seq<O.Item>, failed: seq<O.Item>, m: (string, Row) -> nat): nat {
    var g, texts := Shown(cfg, m), Statements(cfg, done);
    RowsInAll(texts, m, |texts|)
    + O.Weigh(done, Measure(Filtered(cfg, g)), |done|)
    + O.Weigh(freed, Measure(g), |freed|) + O.Weigh(failed, Measure(g), |failed|)
  }

  lemma SettledWeighs(cfg: Config, done: seq<O.Item>, freed: seq<O.Item>, failed: seq<O.Item>, m: (string, Row) -> nat)
    ensures Settled(cfg, done, freed, failed, m) == Gone(done, freed, failed, Measure(Shown(cfg, m)))
  {
    WeightSplits(cfg, Shown(cfg, m), done, |done|);
    StatementsShow(cfg, done, m);
  }

  /** End to end, for any interleaving, at any moment and for any measure of rows: the samples accepted
      measure what is under way and what is settled. */
  lemma EveryRowIsAccountedFor(trace: seq<O.State>, steps: seq<O.Step>, limits: O.Limits, cfg: Config,
                               m: (string, Row) -> nat, k: nat)
    requires O.IsRun(trace, steps, limits) && k < |trace|
    ensures var s, g := trace[k], Shown(cfg, m);
            C.Sum(s.accepted, g, |s.accepted|) == UnderWay(s, g) + Settled(cfg, s.done, s.freed, s.failed, m)
  {
    var s, g := trace[k], Shown(cfg, m);
    MadeIsAccepted(trace, steps, limits, g, k);
    BooksBalance(s, g);
    SettledWeighs(cfg, s.done, s.freed, s.failed, m);
  }

  /** Once it has come to rest, everything is settled. */
  lemma AtRestAllIsSettled(trace: seq<O.State>, steps: seq<O.Step>, limits: O.Limits, cfg: Config,
                           m: (string, Row) -> nat, k: nat)
    requires O.IsRun(trace, steps, limits) && k < |trace| && AtRest(trace[k])
    ensures var s, g := trace[k], Shown(cfg, m);
            C.Sum(s.accepted, g, |s.accepted|) == Settled(cfg, s.done, s.freed, s.failed, m)
  {
    EveryRowIsAccountedFor(trace, steps, limits, cfg, m, k);
    RestHasNothing(trace[k], Shown(cfg, m));
  }
}
