/** Clustering of samples into one insert per table (src/clinsert.c). */
module Clinsert {
  import opened Words

  const MAX_TABLES: nat := 64

  datatype Value = Value(id: u32, counter: u64, rate: u32, dtime: nat, currvalue: u64)

  datatype Sample = Sample(table: string, value: Value)

  datatype Insert = Insert(table: string, values: seq<Value>)

  /** The position of a table's insert, looking on from position `i`; the length if there is none. */
  function Find(inserts: seq<Insert>, table: string, i: nat): (k: nat)
    requires i <= |inserts|
    ensures i <= k <= |inserts| && (k < |inserts| ==> inserts[k].table == table)
    ensures forall j :: i <= j < k ==> inserts[j].table != table
    decreases |inserts| - i
  {
    if i == |inserts| || inserts[i].table == table then i else Find(inserts, table, i + 1)
  }

  /** One sample joins the insert of its table, or opens a new last one. */
  function Add(inserts: seq<Insert>, s: Sample): seq<Insert> {
    var k := Find(inserts, s.table, 0);
    if k < |inserts| then inserts[k := Insert(s.table, inserts[k].values + [s.value])]
    else inserts + [Insert(s.table, [s.value])]
  }

  /** The inserts after the first `n` samples. */
  function Group(samples: seq<Sample>, n: nat): seq<Insert>
    requires n <= |samples|
  {
    if n == 0 then [] else Add(Group(samples, n - 1), samples[n - 1])
  }

  // What a stable group-by is, said without running it.

  function ValuesOf(samples: seq<Sample>, table: string, n: nat): seq<Value>
    requires n <= |samples|
  {
    if n == 0 then []
    else ValuesOf(samples, table, n - 1) + if samples[n - 1].table == table then [samples[n - 1].value] else []
  }

  function FirstUses(samples: seq<Sample>, n: nat): seq<string>
    requires n <= |samples|
  {
    if n == 0 then []
    else
      var before, t := FirstUses(samples, n - 1), samples[n - 1].table;
      if t in before then before else before + [t]
  }

  predicate HasTable(inserts: seq<Insert>, table: string) {
    exists i :: 0 <= i < |inserts| && inserts[i].table == table
  }

  ghost predicate DistinctTables(inserts: seq<Insert>) {
    forall i, j :: 0 <= i < j < |inserts| ==> inserts[i].table != inserts[j].table
  }

  ghost predicate IsGrouping(inserts: seq<Insert>, samples: seq<Sample>, n: nat)
    requires n <= |samples|
  {
    && DistinctTables(inserts)
    && |inserts| == |FirstUses(samples, n)|
    && (forall i :: 0 <= i < |inserts| ==> inserts[i].table == FirstUses(samples, n)[i])
    && (forall i :: 0 <= i < |inserts| ==> inserts[i].values == ValuesOf(samples, inserts[i].table, n))
  }

  lemma {:induction false} AbsentTableHasNoValues(samples: seq<Sample>, table: string, n: nat)
    requires n <= |samples| && table !in FirstUses(samples, n)
    ensures ValuesOf(samples, table, n) == []
  {
    if n == 0 {
    } else {
      AbsentTableHasNoValues(samples, table, n - 1);
    }
  }

  lemma GroupStepExisting(inserts: seq<Insert>, samples: seq<Sample>, n: nat, k: nat)
    requires n < |samples| && IsGrouping(inserts, samples, n)
    requires k < |inserts| && inserts[k].table == samples[n].table
    ensures var grown := Insert(inserts[k].table, inserts[k].values + [samples[n].value]);
            IsGrouping(inserts[k := grown], samples, n + 1)
  {
    assert FirstUses(samples, n)[k] == samples[n].table;
    assert FirstUses(samples, n + 1) == FirstUses(samples, n);
  }

  lemma GroupStepNew(inserts: seq<Insert>, samples: seq<Sample>, n: nat)
    requires n < |samples| && IsGrouping(inserts, samples, n)
    requires !HasTable(inserts, samples[n].table)
    ensures IsGrouping(inserts + [Insert(samples[n].table, [samples[n].value])], samples, n + 1)
  {
    var t, first := samples[n].table, FirstUses(samples, n);
    forall k | 0 <= k < |first|
      ensures first[k] != t
    {
      assert inserts[k].table == first[k];
    }
    AbsentTableHasNoValues(samples, t, n);
    assert FirstUses(samples, n + 1) == first + [t];
  }

  /** One more sample keeps a grouping a grouping. */
  lemma GroupStep(inserts: seq<Insert>, samples: seq<Sample>, n: nat)
    requires n < |samples| && IsGrouping(inserts, samples, n)
    ensures IsGrouping(Add(inserts, samples[n]), samples, n + 1)
  {
    var k := Find(inserts, samples[n].table, 0);
    if k < |inserts| {
      GroupStepExisting(inserts, samples, n, k);
    } else {
      GroupStepNew(inserts, samples, n);
    }
  }

  /** Clustering is a stable group-by: distinct tables in order of first use, each with exactly its
      samples in order. */
  lemma {:induction false} GroupIsStable(samples: seq<Sample>, n: nat)
    requires n <= |samples|
    ensures IsGrouping(Group(samples, n), samples, n)
  {
    if n == 0 {
    } else {
      GroupIsStable(samples, n - 1);
      GroupStep(Group(samples, n - 1), samples, n - 1);
    }
  }

  /** The group-by of a list of samples is unique, so the description above fixes the inserts. */
  lemma GroupingIsUnique(inserts: seq<Insert>, samples: seq<Sample>, n: nat)
    requires n <= |samples| && IsGrouping(inserts, samples, n)
    ensures inserts == Group(samples, n)
  {
    GroupIsStable(samples, n);
    var g := Group(samples, n);
    forall i | 0 <= i < |inserts|
      ensures inserts[i] == g[i]
    {
      assert g[i].table == inserts[i].table;
    }
  }

  /** Later samples do not matter. */
  lemma {:induction false} PrefixGroup(samples: seq<Sample>, s: Sample, n: nat)
    requires n <= |samples|
    ensures Group(samples + [s], n) == Group(samples, n)
  {
    if n == 0 {
    } else {
      PrefixGroup(samples, s, n - 1);
    }
  }

  /** A host with few table names never needs more than that many inserts. */
  lemma GroupFits(inserts: seq<Insert>, samples: seq<Sample>, names: set<string>, t: string)
    requires IsGrouping(inserts, samples, |samples|) && t in names
    requires forall s :: s in samples ==> s.table in names
    ensures HasTable(inserts, t) || |inserts| < |names|
  {
    var tables := FirstUses(samples, |samples|);
    FirstUsesInNames(samples, names, |samples|);
    assert forall i :: 0 <= i < |inserts| ==> inserts[i].table == tables[i];
    if t in tables {
      var k :| 0 <= k < |tables| && tables[k] == t;
      assert inserts[k].table == t;
    } else {
      DistinctFits(tables + [t], names);
    }
  }

  lemma {:induction false} FirstUsesInNames(samples: seq<Sample>, names: set<string>, n: nat)
    requires n <= |samples| && forall s :: s in samples ==> s.table in names
    ensures forall t :: t in FirstUses(samples, n) ==> t in names
  {
    if n == 0 {
    } else {
      FirstUsesInNames(samples, names, n - 1);
      assert samples[n - 1] in samples;
    }
  }

  lemma {:induction false} DistinctFits(s: seq<string>, names: set<string>)
    requires forall i, j :: 0 <= i < j < |s| ==> s[i] != s[j]
    requires forall t :: t in s ==> t in names
    ensures |s| <= |names|
  {
    if s == [] {
    } else {
      var last := s[|s| - 1];
      forall t | t in s[..|s| - 1]
        ensures t in names - {last}
      {
      }
      DistinctFits(s[..|s| - 1], names - {last});
    }
  }

  // Nothing is lost or invented by clustering: whatever is measured of a sample (whether it is a certain
  // one, say), the samples and the inserts add up to the same.

  function Sum(samples: seq<Sample>, g: Sample -> nat, n: nat): nat
    requires n <= |samples|
  {
    if n == 0 then 0 else Sum(samples, g, n - 1) + g(samples[n - 1])
  }

  function InsertSum(insert: Insert, g: Sample -> nat, n: nat): nat
    requires n <= |insert.values|
  {
    if n == 0 then 0 else InsertSum(insert, g, n - 1) + g(Sample(insert.table, insert.values[n - 1]))
  }

  function ListSum(inserts: seq<Insert>, g: Sample -> nat, n: nat): nat
    requires n <= |inserts|
  {
    if n == 0 then 0 else ListSum(inserts, g, n - 1) + InsertSum(inserts[n - 1], g, |inserts[n - 1].values|)
  }

  lemma {:induction false} SumPrefix(a: seq<Sample>, b: seq<Sample>, g: Sample -> nat, n: nat)
    requires n <= |a|
    ensures Sum(a + b, g, n) == Sum(a, g, n)
  {
    if n == 0 {
    } else {
      SumPrefix(a, b, g, n - 1);
    }
  }

  lemma {:induction false} SumConcat(a: seq<Sample>, b: seq<Sample>, g: Sample -> nat, n: nat)
    requires n <= |b|
    ensures Sum(a + b, g, |a| + n) == Sum(a, g, |a|) + Sum(b, g, n)
  {
    if n == 0 {
      SumPrefix(a, b, g, |a|);
    } else {
      SumConcat(a, b, g, n - 1);
    }
  }

  lemma {:induction false} InsertSumPrefix(a: Insert, b: Insert, g: Sample -> nat, n: nat)
    requires a.table == b.table && n <= |a.values| && n <= |b.values|
    requires forall i :: 0 <= i < n ==> a.values[i] == b.values[i]
    ensures InsertSum(a, g, n) == InsertSum(b, g, n)
  {
    if n == 0 {
    } else {
      InsertSumPrefix(a, b, g, n - 1);
    }
  }

  lemma {:induction false} ListSumPrefix(a: seq<Insert>, b: seq<Insert>, g: Sample -> nat, n: nat)
    requires n <= |a| && n <= |b| && forall i :: 0 <= i < n ==> a[i] == b[i]
    ensures ListSum(a, g, n) == ListSum(b, g, n)
  {
    if n == 0 {
    } else {
      ListSumPrefix(a, b, g, n - 1);
    }
  }

  /** Appending a value to one insert of a list adds that sample and nothing else. */
  lemma {:induction false} GrowOne(inserts: seq<Insert>, g: Sample -> nat, k: nat, v: Value, n: nat)
    requires k < n <= |inserts|
    ensures var grown := Insert(inserts[k].table, inserts[k].values + [v]);
            ListSum(inserts[k := grown], g, n) == ListSum(inserts, g, n) + g(Sample(inserts[k].table, v))
  {
    var m := |inserts[k].values|;
    var grown := Insert(inserts[k].table, inserts[k].values + [v]);
    if k == n - 1 {
      ListSumPrefix(inserts[k := grown], inserts, g, k);
      InsertSumPrefix(grown, inserts[k], g, m);
    } else {
      GrowOne(inserts, g, k, v, n - 1);
    }
  }

  lemma AddKeepsSum(inserts: seq<Insert>, g: Sample -> nat, s: Sample)
    ensures var added := Add(inserts, s); ListSum(added, g, |added|) == ListSum(inserts, g, |inserts|) + g(s)
  {
    var n := |inserts|;
    var k := Find(inserts, s.table, 0);
    if k < n {
      GrowOne(inserts, g, k, s.value, n);
    } else {
      var one := Insert(s.table, [s.value]);
      ListSumPrefix(inserts + [one], inserts, g, n);
      assert InsertSum(one, g, 1) == InsertSum(one, g, 0) + g(s);
    }
  }

  /** The values of the inserts are exactly the samples. */
  lemma {:induction false} GroupKeepsSum(samples: seq<Sample>, g: Sample -> nat, n: nat)
    requires n <= |samples|
    ensures ListSum(Group(samples, n), g, |Group(samples, n)|) == Sum(samples, g, n)
  {
    if n == 0 {
    } else {
      GroupKeepsSum(samples, g, n - 1);
      AddKeepsSum(Group(samples, n - 1), g, samples[n - 1]);
    }
  }

  ghost predicate DistinctKeys(samples: seq<Sample>) {
    forall i, j :: 0 <= i < j < |samples| ==>
      samples[i].table != samples[j].table || samples[i].value.id != samples[j].value.id
  }

  ghost predicate IsSampled(samples: seq<Sample>, n: nat, s: Sample)
    requires n <= |samples|
  {
    exists i :: 0 <= i < n && samples[i] == s
  }

  /** If no two samples share table and id, no insert holds two values with the same id. */
  lemma {:induction false} DistinctIds(samples: seq<Sample>, table: string, n: nat)
    requires n <= |samples| && DistinctKeys(samples)
    ensures forall k :: 0 <= k < |ValuesOf(samples, table, n)| ==>
              IsSampled(samples, n, Sample(table, ValuesOf(samples, table, n)[k]))
    ensures forall i, j :: 0 <= i < j < |ValuesOf(samples, table, n)| ==>
              ValuesOf(samples, table, n)[i].id != ValuesOf(samples, table, n)[j].id
  {
    if n == 0 {
    } else {
      DistinctIds(samples, table, n - 1);
      var vs := ValuesOf(samples, table, n - 1);
      assert IsSampled(samples, n, samples[n - 1]);
      forall k | 0 <= k < |vs|
        ensures IsSampled(samples, n, Sample(table, vs[k]))
        ensures samples[n - 1].table == table ==> vs[k].id != samples[n - 1].value.id
      {
        assert IsSampled(samples, n - 1, Sample(table, vs[k]));
      }
    }
  }

  lemma InsertIdsDistinct(inserts: seq<Insert>, samples: seq<Sample>, k: nat)
    requires DistinctKeys(samples) && IsGrouping(inserts, samples, |samples|) && k < |inserts|
    ensures var vs := inserts[k].values; forall i, j :: 0 <= i < j < |vs| ==> vs[i].id != vs[j].id
  {
    assert inserts[k].values == ValuesOf(samples, inserts[k].table, |samples|);
    DistinctIds(samples, inserts[k].table, |samples|);
  }

  class Clinsert {
    const table: string
    var values: array<Value>
    var nvalues: nat
    var space: nat

    ghost predicate Valid()
      reads this
    {
      nvalues <= space == values.Length && 8 <= space
    }

    ghost function Contents(): Insert
      reads this, values
      requires Valid()
    {
      Insert(table, values[..nvalues])
    }

    constructor (table: string)
      ensures Valid() && fresh(values) && Contents() == Insert(table, [])
      ensures this.table == table
    {
      this.table := table;
      values := new Value[8](i => Value(0, 0, 0, 0, 0));
      space, nvalues := 8, 0;
    }

    /** The value becomes the last one, through any growth of the array. */
    method PushValue(id: u32, counter: u64, rate: u32, dtime: nat, currvalue: u64)
      requires Valid()
      modifies this, values
      ensures Valid() && (values == old(values) || fresh(values))
      ensures Contents() == Insert(table, old(Contents()).values + [Value(id, counter, rate, dtime, currvalue)])
    {
      if nvalues == space {
        var newSize := space * 3 / 2;
        var larger := new Value[newSize](i => Value(0, 0, 0, 0, 0));
        forall i | 0 <= i < nvalues {
          larger[i] := values[i];
        }
        values := larger;
        space := newSize;
        assert values[..nvalues] == old(values[..nvalues]);
      }
      values[nvalues] := Value(id, counter, rate, dtime, currvalue);
      nvalues := nvalues + 1;
      assert values[..nvalues] == old(values[..nvalues]) + [Value(id, counter, rate, dtime, currvalue)];
    }
  }

  // The list of inserts of one host: an array of MAX_TABLES pointers, non-null ones first.

  ghost predicate Lists(inserts: array<Clinsert?>, list: seq<Clinsert>)
    reads inserts
  {
    && inserts.Length == MAX_TABLES
    && |list| <= MAX_TABLES
    && forall i :: 0 <= i < MAX_TABLES ==> inserts[i] == if i < |list| then list[i] else null
  }

  /** The array lists objects, all separate and all within `repr`, that hold these inserts in order. */
  ghost predicate Filed(inserts: array<Clinsert?>, list: seq<Clinsert>, held: seq<Insert>, repr: set<object>)
    reads repr
  {
    && inserts in repr && Lists(inserts, list) && |list| == |held|
    && (forall i :: 0 <= i < |list| ==> list[i] in repr && list[i].values in repr)
    && (forall i :: 0 <= i < |list| ==> list[i].Valid() && list[i].Contents() == held[i])
    && (forall i, j :: 0 <= i < j < |list| ==> list[i] != list[j] && list[i].values != list[j].values)
  }

  /** An empty list: all pointers null. */
  method NewList() returns (inserts: array<Clinsert?>)
    ensures fresh(inserts) && Filed(inserts, [], [], {inserts})
  {
    inserts := new Clinsert?[MAX_TABLES](i => null);
  }

  /** A new insert in the first free place. */
  method Open(inserts: array<Clinsert?>, table: string, i: nat, ghost list: seq<Clinsert>, ghost held: seq<Insert>,
              ghost repr: set<object>)
    returns (insert: Clinsert, ghost list': seq<Clinsert>, ghost repr': set<object>)
    requires Filed(inserts, list, held, repr) && i == |list| < MAX_TABLES
    modifies inserts
    ensures repr <= repr' && fresh(repr' - repr)
    ensures list' == list + [insert] && insert.table == table
    ensures Filed(inserts, list', held + [Insert(table, [])], repr')
  {
    insert := new Clinsert(table);
    inserts[i] := insert;
    list', repr' := list + [insert], repr + {insert, insert.values};
  }

  /** The insert of a table, created as the last one if there is none. The list must have room. */
  method ForTable(inserts: array<Clinsert?>, table: string, ghost list: seq<Clinsert>, ghost held: seq<Insert>,
                  ghost repr: set<object>)
    returns (insert: Clinsert, ghost k: nat, ghost list': seq<Clinsert>, ghost repr': set<object>)
    requires Filed(inserts, list, held, repr)
    requires HasTable(held, table) || |list| < MAX_TABLES
    modifies inserts
    ensures repr <= repr' && fresh(repr' - repr)
    ensures k == Find(held, table, 0) < |list'| && list'[k] == insert && insert.table == table
    ensures Filed(inserts, list', if k < |held| then held else held + [Insert(table, [])], repr')
  {
    var i := 0;
    while i < MAX_TABLES && inserts[i] != null
      invariant 0 <= i <= |list|
      invariant Find(held, table, i) == Find(held, table, 0)
    {
      assert list[i].Contents() == held[i];
      if inserts[i].table == table {
        return inserts[i], i, list, repr;
      }
      i := i + 1;
    }
    assert i == |list| == Find(held, table, 0);
    assert i != MAX_TABLES;
    insert, list', repr' := Open(inserts, table, i, list, held, repr);
    k := i;
  }

  /** Pushing into one insert of a list leaves all the others alone. */
  method PushInto(insert: Clinsert, v: Value, inserts: array<Clinsert?>, ghost list: seq<Clinsert>,
                  ghost held: seq<Insert>,
                  ghost repr: set<object>, ghost k: nat)
    returns (ghost repr': set<object>)
    requires Filed(inserts, list, held, repr) && k < |list| && list[k] == insert
    modifies insert, insert.values
    ensures repr <= repr' && fresh(repr' - repr)
    ensures Filed(inserts, list, held[k := Insert(insert.table, held[k].values + [v])], repr')
  {
    assert insert.Contents() == held[k];
    insert.PushValue(v.id, v.counter, v.rate, v.dtime, v.currvalue);
    repr' := repr + {insert.values};
  }

  /** Finding the insert of a sample's table and pushing its value there is one step of the group-by. */
  method PushSample(inserts: array<Clinsert?>, s: Sample, ghost list: seq<Clinsert>, ghost held: seq<Insert>,
                    ghost repr: set<object>)
    returns (ghost list': seq<Clinsert>, ghost repr': set<object>)
    requires Filed(inserts, list, held, repr)
    requires HasTable(held, s.table) || |list| < MAX_TABLES
    modifies repr
    ensures repr <= repr' && fresh(repr' - repr)
    ensures Filed(inserts, list', Add(held, s), repr')
  {
    var insert;
    ghost var k;
    insert, k, list', repr' := ForTable(inserts, s.table, list, held, repr);
    ghost var found := if k < |held| then held else held + [Insert(s.table, [])];
    assert [] + [s.value] == [s.value];
    repr' := PushInto(insert, s.value, inserts, list', found, repr', k);
  }

  /** The length of the non-null prefix. With a full list the original reads past the end. */
  method Count(inserts: array<Clinsert?>, ghost list: seq<Clinsert>) returns (count: nat)
    requires Lists(inserts, list) && |list| < MAX_TABLES
    ensures count == |list|
  {
    count := 0;
    while inserts[count] != null && count < MAX_TABLES
      invariant 0 <= count <= |list|
      decreases MAX_TABLES - count
    {
      count := count + 1;
    }
  }
}
