/** What becomes of a counter's growth over any run of polls and reloads of one row. */
module Ledger {
  import opened Words
  import opened Rate
  import opened Targets
  import opened Poller

  /** The true history of a row: a get that fails, a get that finds the unbounded counter at `total`,
      or a reload that gives the row a new description and copies its cache. */
  datatype Reading = Missed | Counted(total: nat, time: nat) | Reloaded(row: Row)

  /** The row, the true totals at its first and last successful poll, and what was recorded since:
      the sum of the differences inserted and of those computed or skipped but not inserted. */
  datatype Ledger = Ledger(target: Target, first: Option<nat>, last: nat, inserted: nat, discarded: nat)

  /** The device reports the total modulo the counter's width. */
  function Reported(l: Ledger, total: nat, time: nat): Answer {
    Got(total % Modulus(l.target.row.bits), time)
  }

  function Poll(l: Ledger, total: nat, time: nat): Ledger
    requires Pollable(l.target, Reported(l, total, time))
  {
    var t, a := l.target, Reported(l, total, time);
    var sample := SampleOf(t, a);
    var inserted := if sample.Some? then sample.value.value.counter else 0;
    var discarded := if sample.None? && l.first.Some? then CounterDiff(t.cache.counter, a.counter, t.row.bits) else 0;
    Ledger(Refreshed(t, a), if l.first.None? then Some(total) else l.first, total,
           l.inserted + inserted, l.discarded + discarded)
  }

  function Step(l: Ledger, r: Reading): Ledger {
    match r
    case Missed => l.(target := Refreshed(l.target, Failed))
    case Counted(total, time) => if Pollable(l.target, Reported(l, total, time)) then Poll(l, total, time) else l
    case Reloaded(row) => l.(target := Target(row, l.target.cache))
  }

  /** The books after the first `n` readings, kept on from `l`. */
  function Run(l: Ledger, readings: seq<Reading>, n: nat): Ledger
    requires n <= |readings|
  {
    if n == 0 then l else Step(Run(l, readings, n - 1), readings[n - 1])
  }

  predicate IsCounter(row: Row) {
    (row.bits == 32 || row.bits == 64) && row.table.Some?
  }

  /** Time moves on, and the counter grows by less than its modulus between successful polls. */
  predicate Plausible(l: Ledger, r: Reading) {
    match r
    case Missed => true
    case Counted(total, time) =>
      && l.target.cache.time < time
      && (l.first.Some? ==> l.last <= total < l.last + Modulus(l.target.row.bits))
    case Reloaded(row) => IsCounter(row) && row.bits == l.target.row.bits
  }

  /** The cache is the last total as the device reported it, and the books balance. */
  predicate Balanced(l: Ledger) {
    && IsCounter(l.target.row)
    && (l.first.None? <==> l.target.cache.time == 0)
    && (l.first.Some? ==>
          && l.target.cache.counter == l.last % Modulus(l.target.row.bits)
          && l.inserted + l.discarded == l.last - l.first.value)
    && (l.first.None? ==> l.inserted == l.discarded == 0)
  }

  lemma PollKeepsBalance(l: Ledger, total: nat, time: nat)
    requires Balanced(l) && Plausible(l, Counted(total, time))
    ensures Pollable(l.target, Reported(l, total, time)) && Balanced(Poll(l, total, time))
  {
    if l.first.Some? {
      DiffIsTrueGrowth(l.last, total, l.target.row.bits);
    }
  }

  lemma StepKeepsBalance(l: Ledger, r: Reading)
    requires Balanced(l) && Plausible(l, r)
    ensures Balanced(Step(l, r))
  {
    if r.Counted? {
      PollKeepsBalance(l, r.total, r.time);
    }
  }

  /** Inserted plus discarded differences are the true growth from the first to the last successful
      poll: failed gets and reloads lose nothing. */
  lemma {:induction false} DifferencesTelescope(l: Ledger, readings: seq<Reading>, n: nat)
    requires n <= |readings| && Balanced(l)
    requires forall i :: 0 <= i < n ==> Plausible(Run(l, readings, i), readings[i])
    ensures Balanced(Run(l, readings, n))
  {
    if n == 0 {
    } else {
      DifferencesTelescope(l, readings, n - 1);
      StepKeepsBalance(Run(l, readings, n - 1), readings[n - 1]);
    }
  }

  /** A poll's growth is discarded only by the speed check or because the previous value was zero. */
  lemma DiscardedOnlyForCause(l: Ledger, total: nat, time: nat)
    requires Balanced(l) && Plausible(l, Counted(total, time)) && l.first.Some?
    ensures var a := Reported(l, total, time);
            var diff := CounterDiff(l.target.cache.counter, a.counter, l.target.row.bits);
            Pollable(l.target, a) &&
            var l' := Poll(l, total, time);
            if (l.target.cache.counter == 0 && a.counter != 0)
               || RateOf(diff, l.target.cache.time, time, l.target.row.bits) >= l.target.row.speed
            then l'.inserted == l.inserted && l'.discarded == l.discarded + (total - l.last)
            else l'.inserted == l.inserted + (total - l.last) && l'.discarded == l.discarded
  {
    DiffIsTrueGrowth(l.last, total, l.target.row.bits);
  }

  /** Reading a reload as a copy of the cache is right exactly for the rows a lookup finds: the last
      source row with its host name and OID comes out of the copy with its new description and its old
      cache if and only if the new row is the first of its host name and OID (or has that cache anyway). */
  lemma ReloadIsAStep(l: Ledger, dest: seq<Host>, src: seq<Host>, h: nat, r: nat, h': nat, r': nat)
    requires h < |src| && r < |src[h].rows| && h' < |dest| && r' < |dest[h'].rows|
    requires src[h].name == dest[h'].name && src[h].rows[r].row.oid == dest[h'].rows[r'].row.oid
    requires src[h].rows[r] == l.target && IsLast(src, h, r)
    ensures Step(l, Reloaded(dest[h'].rows[r'].row)).target == Copied(dest, Entries(src))[h'].rows[r']
       <==> IsFirst(dest, h', r') || dest[h'].rows[r'].cache == l.target.cache
  {
    SurvivorKeepsCache(dest, src, h, r, h', r');
  }
}
