/** One row over any number of polls (the loop body of get_clinserts, src/poller.c): which readings are
    inserted, and what they are compared with. */
module History {
  import opened Words
  import opened Rate
  import opened Targets
  import opened Poller
  import C = Clinsert

  /** The row after the first `n` answers. */
  function After(t: Target, answers: seq<Answer>, n: nat): Target
    requires n <= |answers|
  {
    if n == 0 then t else Refreshed(After(t, answers, n - 1), answers[n - 1])
  }

  /** The time and counter of the last successful get among the first `n`; without one, what the row
      started with. */
  ghost predicate IsLastReading(t: Target, answers: seq<Answer>, n: nat, c: Cache)
    requires n <= |answers|
  {
    || (c == t.cache && forall i :: 0 <= i < n ==> answers[i].Failed?)
    || exists j :: 0 <= j < n && answers[j] == Got(c.counter, c.time) && forall i :: j < i < n ==> answers[i].Failed?
  }

  /** The cache is the last reading, with its time. */
  lemma {:induction false} CacheIsLastReading(t: Target, answers: seq<Answer>, n: nat, c: Cache)
    requires n <= |answers| && IsLastReading(t, answers, n, c)
    ensures After(t, answers, n) == Target(t.row, c)
  {
    if n == 0 {
    } else if answers[n - 1].Failed? {
      CacheIsLastReading(t, answers, n - 1, c);
    } else {
      RowStays(t, answers, n - 1);
    }
  }

  lemma {:induction false} RowStays(t: Target, answers: seq<Answer>, n: nat)
    requires n <= |answers|
    ensures After(t, answers, n).row == t.row
  {
    if n == 0 {
    } else {
      RowStays(t, answers, n - 1);
    }
  }

  /** Of a gauge each successful reading is inserted as it is, with its own time, unless it is not zero
      while the last one was, or reaches the limit on 32 bits. */
  lemma GaugeInserts(t: Target, answers: seq<Answer>, n: nat, c: Cache)
    requires n < |answers| && t.row.bits == 0 && t.row.table.Some? && IsLastReading(t, answers, n, c)
    ensures var now, a := After(t, answers, n), answers[n];
            && Pollable(now, a)
            && SampleOf(now, a) ==
               if a.Got? && (c.counter > 0 || a.counter == 0) && a.counter % TWO32 < t.row.speed
               then Some(C.Sample(t.row.table.value, C.Value(t.row.id, a.counter, a.counter % TWO32, a.time, a.counter)))
               else None
  {
    CacheIsLastReading(t, answers, n, c);
  }

  /** Of a counter each successful reading is inserted as the difference to the last one, modulo the
      counter's width, if there is a last one, unless it is not zero while the last one was, or the
      difference per second reaches the limit on 32 bits. */
  lemma CounterInserts(t: Target, answers: seq<Answer>, n: nat, c: Cache)
    requires n < |answers| && (t.row.bits == 32 || t.row.bits == 64) && t.row.table.Some?
    requires IsLastReading(t, answers, n, c) && c.counter < Modulus(t.row.bits)
    requires answers[n].Got? && c.time < answers[n].time && answers[n].counter < Modulus(t.row.bits)
    ensures var now, a := After(t, answers, n), answers[n];
            var diff, dt := (a.counter - c.counter) % Modulus(t.row.bits), a.time - c.time;
            && Pollable(now, a)
            && SampleOf(now, a) ==
               if c.time != 0 && (c.counter > 0 || a.counter == 0) && (diff / dt) % TWO32 < t.row.speed
               then Some(C.Sample(t.row.table.value, C.Value(t.row.id, diff, (diff / dt) % TWO32, a.time, a.counter)))
               else None
  {
    CacheIsLastReading(t, answers, n, c);
    DiffIsResidue(c.counter, answers[n].counter);
  }

  /** A get that fails inserts nothing, and a first reading nothing unless it is a gauge at zero. */
  lemma NothingToCompareWith(t: Target, answers: seq<Answer>, n: nat)
    requires n < |answers| && t.cache == NO_CACHE && Pollable(After(t, answers, n), answers[n])
    ensures answers[n].Failed? ==> SampleOf(After(t, answers, n), answers[n]) == None
    ensures (forall i :: 0 <= i < n ==> answers[i].Failed?)
            && (t.row.bits != 0 || (answers[n].Got? && answers[n].counter != 0)) ==>
              SampleOf(After(t, answers, n), answers[n]) == None
  {
    if forall i :: 0 <= i < n ==> answers[i].Failed? {
      CacheIsLastReading(t, answers, n, t.cache);
    }
  }
}
