/** Who owns an insert between the poller that builds it and the database thread that frees it:
    any number of pollers running process_queries (src/poller.c) and database threads running
    process_database_queue (src/database.c) around one queue (src/clbuf.c). Each call on the queue is
    one step under its lock; the check before a push or pop is a step of its own. */
module Ownership {
  import opened Words
  import opened Targets
  import opened Poller
  import B = Clbuf
  import C = Clinsert

  /** An insert with the identity of the allocated object. */
  datatype Item = Item(id: nat, insert: C.Insert)

  /** A poller's list of inserts, the position it has got to, and what its check for space found. */
  datatype Producer = Producer(list: seq<Item>, at: nat, space: Option<bool>)

  datatype Consumer = Idle | SawUsed | Hand(item: Item)

  /** `made`, `accepted`, `pushed` and `popped` are histories. A poller frees into `freed` what it
      drops; a database thread frees into `failed` what the database refused, into `done` the rest. */
  datatype State = State(
    producers: seq<Producer>, queue: seq<Item>, consumers: seq<Consumer>,
    made: seq<Item>, accepted: seq<C.Sample>, pushed: seq<Item>, popped: seq<Item>, freed: seq<Item>, done: seq<Item>,
    failed: seq<Item>)

  datatype Step =
    | Build(p: nat, rows: seq<Target>, answers: seq<Answer>) // get_clinserts
    | CheckFree(p: nat)                                      // clbuf_count_free
    | Send(p: nat)                                           // clbuf_push, or clinsert_free
    | CheckUsed(c: nat)                                      // clbuf_count_used
    | Take(c: nat)                                           // clbuf_pop
    | Finish(c: nat, ok: bool)                               // mysql_query, then clinsert_free

  /** The queue's capacity and the errors after which a host is given up. */
  datatype Limits = Limits(capacity: nat, maxErrors: nat)

  ghost predicate Enabled(s: State, step: Step) {
    match step
    case Build(p, rows, answers) =>
      p < |s.producers| && s.producers[p].at == |s.producers[p].list| && AllPollable(rows, answers)
    case CheckFree(p) => p < |s.producers| && s.producers[p].at < |s.producers[p].list| && s.producers[p].space.None?
    case Send(p) => p < |s.producers| && s.producers[p].at < |s.producers[p].list| && s.producers[p].space.Some?
    case CheckUsed(c) => c < |s.consumers| && s.consumers[c].Idle?
    case Take(c) => c < |s.consumers| && s.consumers[c].SawUsed?
    case Finish(c, _) => c < |s.consumers| && s.consumers[c].Hand?
  }

  /** Fresh objects for the inserts, numbered on from `id`. */
  function Numbered(inserts: seq<C.Insert>, id: nat): (items: seq<Item>)
    ensures |items| == |inserts| && forall i :: 0 <= i < |items| ==> items[i] == Item(id + i, inserts[i])
  {
    if inserts == [] then [] else [Item(id, inserts[0])] + Numbered(inserts[1..], id + 1)
  }

  function Do(s: State, step: Step, limits: Limits): State
    requires Enabled(s, step)
  {
    match step
    case Build(p, rows, answers) =>
      var poll := PollRows(rows, answers, limits.maxErrors);
      DoBuild(s, p, Numbered(poll.inserts, |s.made|), poll.samples)
    case CheckFree(p) =>
      s.(producers := s.producers[p := s.producers[p].(space := Some(|s.queue| < limits.capacity))])
    case Send(p) => if s.producers[p].space.value && |s.queue| < limits.capacity then DoPush(s, p) else DoFree(s, p)
    case CheckUsed(c) =>
      s.(consumers := s.consumers[c := if s.queue == [] then Idle else SawUsed])
    case Take(c) => if s.queue == [] then s.(consumers := s.consumers[c := Idle]) else DoPop(s, c)
    case Finish(c, ok) => DoFinish(s, c, ok)
  }

  function DoBuild(s: State, p: nat, items: seq<Item>, samples: seq<C.Sample>): State
    requires p < |s.producers|
  {
    s.(producers := s.producers[p := Producer(items, 0, None)], made := s.made + items, accepted := s.accepted + samples)
  }

  /** The poller is past its current insert. */
  function Past(p: Producer): Producer {
    Producer(p.list, p.at + 1, None)
  }

  function DoPush(s: State, p: nat): State
    requires p < |s.producers| && s.producers[p].at < |s.producers[p].list|
  {
    var item := s.producers[p].list[s.producers[p].at];
    s.(producers := s.producers[p := Past(s.producers[p])], queue := s.queue + [item], pushed := s.pushed + [item])
  }

  function DoFree(s: State, p: nat): State
    requires p < |s.producers| && s.producers[p].at < |s.producers[p].list|
  {
    var item := s.producers[p].list[s.producers[p].at];
    s.(producers := s.producers[p := Past(s.producers[p])], freed := s.freed + [item])
  }

  function DoPop(s: State, c: nat): State
    requires c < |s.consumers| && s.queue != []
  {
    s.(consumers := s.consumers[c := Hand(s.queue[0])], queue := s.queue[1..], popped := s.popped + [s.queue[0]])
  }

  function DoFinish(s: State, c: nat, ok: bool): State
    requires c < |s.consumers| && s.consumers[c].Hand?
  {
    var item := s.consumers[c].item;
    s.(consumers := s.consumers[c := Idle],
       done := if ok then s.done + [item] else s.done,
       failed := if ok then s.failed else s.failed + [item])
  }

  predicate IsInit(s: State) {
    && (forall p :: p in s.producers ==> p == Producer([], 0, None))
    && (forall c :: c in s.consumers ==> c == Idle)
    && s.queue == s.made == s.pushed == s.popped == s.freed == s.done == s.failed == []
    && s.accepted == []
  }

  ghost predicate IsRun(trace: seq<State>, steps: seq<Step>, limits: Limits) {
    && |trace| == |steps| + 1 && IsInit(trace[0])
    && forall k :: 0 <= k < |steps| ==> Enabled(trace[k], steps[k]) && trace[k + 1] == Do(trace[k], steps[k], limits)
  }

  // Weighing what is in each place, by any measure of an insert.

  function Weigh(items: seq<Item>, f: Item -> nat, n: nat): nat
    requires n <= |items|
  {
    if n == 0 then 0 else Weigh(items, f, n - 1) + f(items[n - 1])
  }

  /** What a poller still holds: its list from the current position on. */
  function Pending(items: seq<Item>, f: Item -> nat, k: nat): nat
    requires k <= |items|
    decreases |items| - k
  {
    if k == |items| then 0 else f(items[k]) + Pending(items, f, k + 1)
  }

  function InLists(producers: seq<Producer>, f: Item -> nat, n: nat): nat
    requires n <= |producers|
  {
    if n == 0 then 0 else InLists(producers, f, n - 1) + InList(producers[n - 1], f)
  }

  function InList(p: Producer, f: Item -> nat): nat {
    if p.at <= |p.list| then Pending(p.list, f, p.at) else 0
  }

  function InHands(consumers: seq<Consumer>, f: Item -> nat, n: nat): nat
    requires n <= |consumers|
  {
    if n == 0 then 0 else InHands(consumers, f, n - 1) + InHand(consumers[n - 1], f)
  }

  function InHand(c: Consumer, f: Item -> nat): nat {
    if c.Hand? then f(c.item) else 0
  }

  function Total(s: State, f: Item -> nat): nat {
    InLists(s.producers, f, |s.producers|) + Weigh(s.queue, f, |s.queue|) + InHands(s.consumers, f, |s.consumers|)
    + Weigh(s.freed, f, |s.freed|) + Weigh(s.done, f, |s.done|) + Weigh(s.failed, f, |s.failed|)
  }

  lemma {:induction false} WeighPrefix(a: seq<Item>, b: seq<Item>, f: Item -> nat, n: nat)
    requires n <= |a|
    ensures Weigh(a + b, f, n) == Weigh(a, f, n)
  {
    if n == 0 {
    } else {
      WeighPrefix(a, b, f, n - 1);
    }
  }

  lemma {:induction false} WeighConcat(a: seq<Item>, b: seq<Item>, f: Item -> nat, n: nat)
    requires n <= |b|
    ensures Weigh(a + b, f, |a| + n) == Weigh(a, f, |a|) + Weigh(b, f, n)
  {
    if n == 0 {
      WeighPrefix(a, b, f, |a|);
    } else {
      WeighConcat(a, b, f, n - 1);
    }
  }

  lemma WeighAppend(a: seq<Item>, x: Item, f: Item -> nat)
    ensures Weigh(a + [x], f, |a| + 1) == Weigh(a, f, |a|) + f(x)
  {
    WeighPrefix(a, [x], f, |a|);
  }

  lemma {:induction false} WeighTail(a: seq<Item>, f: Item -> nat, n: nat)
    requires 1 <= n <= |a|
    ensures Weigh(a, f, n) == f(a[0]) + Weigh(a[1..], f, n - 1)
  {
    if n == 1 {
    } else {
      WeighTail(a, f, n - 1);
    }
  }

  lemma {:induction false} PendingIsRest(a: seq<Item>, f: Item -> nat, k: nat)
    requires k <= |a|
    ensures Weigh(a, f, k) + Pending(a, f, k) == Weigh(a, f, |a|)
    decreases |a| - k
  {
    if k == |a| {
    } else {
      PendingIsRest(a, f, k + 1);
    }
  }

  lemma {:induction false} ListsOne(a: seq<Producer>, i: nat, p: Producer, f: Item -> nat, n: nat)
    requires i < |a| && n <= |a|
    ensures InLists(a[i := p], f, n) == InLists(a, f, n) + if i < n then InList(p, f) - InList(a[i], f) else 0
  {
    if n == 0 {
    } else {
      ListsOne(a, i, p, f, n - 1);
    }
  }

  lemma {:induction false} HandsOne(a: seq<Consumer>, i: nat, c: Consumer, f: Item -> nat, n: nat)
    requires i < |a| && n <= |a|
    ensures InHands(a[i := c], f, n) == InHands(a, f, n) + if i < n then InHand(c, f) - InHand(a[i], f) else 0
  {
    if n == 0 {
    } else {
      HandsOne(a, i, c, f, n - 1);
    }
  }

  /** Whatever is weighed, the places together weigh what has been made. */
  predicate Conserved(s: State, f: Item -> nat) {
    Total(s, f) == Weigh(s.made, f, |s.made|)
  }

  lemma BuildConserves(s: State, p: nat, items: seq<Item>, samples: seq<C.Sample>, f: Item -> nat)
    requires Conserved(s, f) && p < |s.producers| && s.producers[p].at == |s.producers[p].list|
    ensures Conserved(DoBuild(s, p, items, samples), f)
  {
    ListsOne(s.producers, p, Producer(items, 0, None), f, |s.producers|);
    PendingIsRest(items, f, 0);
    WeighConcat(s.made, items, f, |items|);
  }

  lemma PushConserves(s: State, p: nat, f: Item -> nat)
    requires Conserved(s, f) && p < |s.producers| && s.producers[p].at < |s.producers[p].list|
    ensures Conserved(DoPush(s, p), f)
  {
    ListsOne(s.producers, p, Past(s.producers[p]), f, |s.producers|);
    WeighAppend(s.queue, s.producers[p].list[s.producers[p].at], f);
  }

  lemma FreeConserves(s: State, p: nat, f: Item -> nat)
    requires Conserved(s, f) && p < |s.producers| && s.producers[p].at < |s.producers[p].list|
    ensures Conserved(DoFree(s, p), f)
  {
    ListsOne(s.producers, p, Past(s.producers[p]), f, |s.producers|);
    WeighAppend(s.freed, s.producers[p].list[s.producers[p].at], f);
  }

  lemma PopConserves(s: State, c: nat, f: Item -> nat)
    requires Conserved(s, f) && c < |s.consumers| && s.consumers[c].SawUsed? && s.queue != []
    ensures Conserved(DoPop(s, c), f)
  {
    HandsOne(s.consumers, c, Hand(s.queue[0]), f, |s.consumers|);
    WeighTail(s.queue, f, |s.queue|);
  }

  lemma FinishConserves(s: State, c: nat, ok: bool, f: Item -> nat)
    requires Conserved(s, f) && c < |s.consumers| && s.consumers[c].Hand?
    ensures Conserved(DoFinish(s, c, ok), f)
  {
    HandsOne(s.consumers, c, Idle, f, |s.consumers|);
    WeighAppend(s.done, s.consumers[c].item, f);
    WeighAppend(s.failed, s.consumers[c].item, f);
  }

  lemma StepConserves(s: State, step: Step, limits: Limits, f: Item -> nat)
    requires Conserved(s, f) && Enabled(s, step)
    ensures Conserved(Do(s, step, limits), f)
  {
    match step {
      case Build(p, rows, answers) =>
        var poll := PollRows(rows, answers, limits.maxErrors);
        BuildConserves(s, p, Numbered(poll.inserts, |s.made|), poll.samples, f);
      case CheckFree(p) =>
        ListsOne(s.producers, p, s.producers[p].(space := Some(|s.queue| < limits.capacity)), f, |s.producers|);
      case Send(p) =>
        PushConserves(s, p, f);
        FreeConserves(s, p, f);
      case CheckUsed(c) =>
        HandsOne(s.consumers, c, if s.queue == [] then Idle else SawUsed, f, |s.consumers|);
      case Take(c) =>
        HandsOne(s.consumers, c, Idle, f, |s.consumers|);
        if s.queue != [] {
          PopConserves(s, c, f);
        }
      case Finish(c, ok) => FinishConserves(s, c, ok, f);
    }
  }

  lemma {:induction false} NothingAtFirst(s: State, f: Item -> nat, n: nat, m: nat)
    requires IsInit(s) && n <= |s.producers| && m <= |s.consumers|
    ensures InLists(s.producers, f, n) == 0 && InHands(s.consumers, f, m) == 0
    decreases n + m
  {
    if n > 0 {
      assert s.producers[n - 1] in s.producers;
      NothingAtFirst(s, f, n - 1, m);
    } else if m > 0 {
      assert s.consumers[m - 1] in s.consumers;
      NothingAtFirst(s, f, n, m - 1);
    }
  }

  /** Over any interleaving nothing is lost and nothing is counted twice. */
  lemma {:induction false} RunConserves(trace: seq<State>, steps: seq<Step>, limits: Limits, f: Item -> nat, k: nat)
    requires IsRun(trace, steps, limits) && k < |trace|
    ensures Conserved(trace[k], f)
  {
    if k == 0 {
      NothingAtFirst(trace[0], f, |trace[0].producers|, |trace[0].consumers|);
    } else {
      RunConserves(trace, steps, limits, f, k - 1);
      StepConserves(trace[k - 1], steps[k - 1], limits, f);
    }
  }

  function Is(id: nat): Item -> nat {
    (x: Item) => if x.id == id then 1 else 0
  }

  lemma {:induction false} MadeOnce(items: seq<Item>, id: nat, n: nat)
    requires n <= |items| && forall i :: 0 <= i < |items| ==> items[i].id == i
    ensures Weigh(items, Is(id), n) == if id < n then 1 else 0
  {
    if n == 0 {
    } else {
      MadeOnce(items, id, n - 1);
    }
  }

  lemma {:induction false} IdsInOrder(trace: seq<State>, steps: seq<Step>, limits: Limits, k: nat)
    requires IsRun(trace, steps, limits) && k < |trace|
    ensures forall i :: 0 <= i < |trace[k].made| ==> trace[k].made[i].id == i
  {
    if k == 0 {
    } else {
      IdsInOrder(trace, steps, limits, k - 1);
      var s, step := trace[k - 1], steps[k - 1];
      assert trace[k] == Do(s, step, limits);
      if step.Build? {
        var items := Numbered(PollRows(step.rows, step.answers, limits.maxErrors).inserts, |s.made|);
        assert trace[k].made == s.made + items;
      } else {
        assert trace[k].made == s.made;
      }
    }
  }

  /** Every insert ever built is at every moment in exactly one place: one poller's list, the queue,
      one database thread's hand, or freed once by one of them. */
  lemma ExactlyOnePlace(trace: seq<State>, steps: seq<Step>, limits: Limits, k: nat, id: nat)
    requires IsRun(trace, steps, limits) && k < |trace|
    ensures Total(trace[k], Is(id)) == if id < |trace[k].made| then 1 else 0
  {
    RunConserves(trace, steps, limits, Is(id), k);
    IdsInOrder(trace, steps, limits, k);
    MadeOnce(trace[k].made, id, |trace[k].made|);
  }

  lemma StepInOrder(s: State, step: Step, limits: Limits)
    requires Enabled(s, step) && s.popped + s.queue == s.pushed && |s.queue| <= limits.capacity
    ensures var s' := Do(s, step, limits); s'.popped + s'.queue == s'.pushed && |s'.queue| <= limits.capacity
  {
    if step.Take? && s.queue != [] {
      assert s.queue == [s.queue[0]] + s.queue[1..];
    }
  }

  /** The queue never exceeds its capacity, and what was popped is always a prefix of what was pushed. */
  lemma {:induction false} PoppedIsPrefix(trace: seq<State>, steps: seq<Step>, limits: Limits, k: nat)
    requires IsRun(trace, steps, limits) && k < |trace|
    ensures trace[k].popped + trace[k].queue == trace[k].pushed && |trace[k].queue| <= limits.capacity
  {
    if k == 0 {
    } else {
      PoppedIsPrefix(trace, steps, limits, k - 1);
      StepInOrder(trace[k - 1], steps[k - 1], limits);
    }
  }

  // The queue of this model is the circular buffer: its steps are a run of the buffer's operations.

  /** The operation of a step on the buffer, if it makes one. */
  function OpOf(s: State, step: Step): Option<B.Op<Item>>
    requires Enabled(s, step)
  {
    match step
    case Send(p) =>
      if s.producers[p].space.value then Some(B.OpPush(Some(s.producers[p].list[s.producers[p].at]))) else None
    case Take(_) => Some(B.OpPop)
    case _ => None
  }

  /** The operations of the first `k` steps. */
  function Ops(trace: seq<State>, steps: seq<Step>, k: nat): seq<B.Op<Item>>
    requires k <= |steps| && k <= |trace| && forall i :: 0 <= i < k ==> Enabled(trace[i], steps[i])
  {
    if k == 0 then [] else Ops(trace, steps, k - 1) + Listed(OpOf(trace[k - 1], steps[k - 1]))
  }

  /** What the buffer's history says of the state: same queue, same pushes, same pops. */
  predicate Mirrors(s: State, f: B.Fifo<Item>) {
    s.queue == f.queue && s.pushed == f.accepted && s.popped == f.delivered
  }

  lemma StepMirrors(s: State, step: Step, limits: Limits, f: B.Fifo<Item>)
    requires Enabled(s, step) && Mirrors(s, f)
    ensures Mirrors(Do(s, step, limits),
                    match OpOf(s, step) case None => f case Some(op) => B.Apply(f, op, limits.capacity))
  {
  }

  /** In every run the queue, what went in and what came out are those of the buffer's operations, in the
      order in which the threads made them. */
  lemma {:induction false} QueueIsBuffer(trace: seq<State>, steps: seq<Step>, limits: Limits, k: nat)
    requires IsRun(trace, steps, limits) && k < |trace|
    ensures var ops := Ops(trace, steps, k); Mirrors(trace[k], B.RunFifo(ops, |ops|, [], limits.capacity))
  {
    if k == 0 {
    } else {
      QueueIsBuffer(trace, steps, limits, k - 1);
      var ops := Ops(trace, steps, k - 1);
      StepMirrors(trace[k - 1], steps[k - 1], limits, B.RunFifo(ops, |ops|, [], limits.capacity));
      match OpOf(trace[k - 1], steps[k - 1]) {
        case None => assert ops + [] == ops;
        case Some(op) => B.RunFifoPrefix(ops, [op], |ops|, [], limits.capacity);
      }
    }
  }

  // What decides where an insert goes: what the checks and the calls on the queue found.

  /** Step `j` is the last check for space of poller `p` before step `k`. */
  predicate IsLastCheck(steps: seq<Step>, p: nat, j: nat, k: nat) {
    j < k <= |steps| && steps[j] == CheckFree(p) && forall i :: j < i < k ==> steps[i] != CheckFree(p)
  }

  /** The list of a poller and the position it has got to. */
  function Work(s: State, p: nat): (seq<Item>, nat)
    requires p < |s.producers|
  {
    (s.producers[p].list, s.producers[p].at)
  }

  lemma NothingCheckedYet(s: State, p: nat)
    requires IsInit(s) && p < |s.producers|
    ensures s.producers[p].space.None?
  {
    assert s.producers[p] in s.producers;
  }

  /** A poller that is past its check made it at the insert it is still at. */
  lemma {:induction false} HasChecked(trace: seq<State>, steps: seq<Step>, limits: Limits, p: nat, k: nat) returns (j: nat)
    requires IsRun(trace, steps, limits) && k < |trace| && p < |trace[k].producers| && trace[k].producers[p].space.Some?
    ensures IsLastCheck(steps, p, j, k)
    ensures p < |trace[j].producers| && Work(trace[j], p) == Work(trace[k], p)
    ensures trace[k].producers[p].space.value == (|trace[j].queue| < limits.capacity)
  {
    if k == 0 {
      NothingCheckedYet(trace[0], p);
    } else {
      assert Enabled(trace[k - 1], steps[k - 1]) && trace[k] == Do(trace[k - 1], steps[k - 1], limits);
      if steps[k - 1] == CheckFree(p) {
        j := k - 1;
      } else {
        assert trace[k - 1].producers[p] == trace[k].producers[p];
        j := HasChecked(trace, steps, limits, p, k - 1);
      }
    }
  }

  /** At step `m` poller `p` is done with this insert; its last check for space was step `j`. */
  ghost predicate Sends(trace: seq<State>, steps: seq<Step>, p: nat, j: nat, m: nat, item: Item) {
    && IsLastCheck(steps, p, j, m) && m < |steps| < |trace| && steps[m] == Send(p)
    && p < |trace[j].producers| && p < |trace[m].producers| && Work(trace[j], p) == Work(trace[m], p)
    && var (list, at) := Work(trace[m], p); at < |list| && list[at] == item
  }

  /** An insert is queued, as the last, if the queue had room both at its poller's check and at the push;
      otherwise it is freed. */
  lemma QueuedIfRoom(trace: seq<State>, steps: seq<Step>, limits: Limits, p: nat, k: nat) returns (j: nat, item: Item)
    requires IsRun(trace, steps, limits) && k < |steps| && steps[k] == Send(p)
    ensures Sends(trace, steps, p, j, k, item)
    ensures var s, s' := trace[k], trace[k + 1];
            if |trace[j].queue| < limits.capacity && |s.queue| < limits.capacity
            then s'.queue == s.queue + [item] && s'.pushed == s.pushed + [item] && s'.freed == s.freed
            else s'.queue == s.queue && s'.pushed == s.pushed && s'.freed == s.freed + [item]
  {
    assert Enabled(trace[k], steps[k]) && trace[k + 1] == Do(trace[k], steps[k], limits);
    var (list, at) := Work(trace[k], p);
    item := list[at];
    j := HasChecked(trace, steps, limits, p, k);
  }

  /** Inserts go nowhere except by such a step. */
  lemma OnlySendsQueueOrFree(s: State, step: Step, limits: Limits)
    requires Enabled(s, step)
    ensures !step.Send? ==> Do(s, step, limits).pushed == s.pushed && Do(s, step, limits).freed == s.freed
  {
  }

  /** What was freed by a poller was once at a full queue: when its poller checked or when it pushed. */
  lemma {:induction false} FreedOnlyWhenFull(trace: seq<State>, steps: seq<Step>, limits: Limits, k: nat, n: nat)
    returns (p: nat, j: nat, m: nat)
    requires IsRun(trace, steps, limits) && k < |trace| && n < |trace[k].freed|
    ensures m < k && Sends(trace, steps, p, j, m, trace[k].freed[n])
    ensures |trace[j].queue| == limits.capacity || |trace[m].queue| == limits.capacity
  {
    if k == 0 {
    } else {
      var s, step := trace[k - 1], steps[k - 1];
      assert Enabled(s, step) && trace[k] == Do(s, step, limits);
      if n < |s.freed| {
        assert trace[k].freed[n] == s.freed[n];
        p, j, m := FreedOnlyWhenFull(trace, steps, limits, k - 1, n);
      } else {
        OnlySendsQueueOrFree(s, step, limits);
        var item;
        p, m := step.p, k - 1;
        j, item := QueuedIfRoom(trace, steps, limits, p, m);
        PoppedIsPrefix(trace, steps, limits, j);
        PoppedIsPrefix(trace, steps, limits, m);
      }
    }
  }

  /** And what was queued found room both times. */
  lemma {:induction false} QueuedOnlyWithRoom(trace: seq<State>, steps: seq<Step>, limits: Limits, k: nat, n: nat)
    returns (p: nat, j: nat, m: nat)
    requires IsRun(trace, steps, limits) && k < |trace| && n < |trace[k].pushed|
    ensures m < k && Sends(trace, steps, p, j, m, trace[k].pushed[n])
    ensures |trace[j].queue| < limits.capacity && |trace[m].queue| < limits.capacity
  {
    if k == 0 {
    } else {
      var s, step := trace[k - 1], steps[k - 1];
      assert Enabled(s, step) && trace[k] == Do(s, step, limits);
      if n < |s.pushed| {
        assert trace[k].pushed[n] == s.pushed[n];
        p, j, m := QueuedOnlyWithRoom(trace, steps, limits, k - 1, n);
      } else {
        OnlySendsQueueOrFree(s, step, limits);
        var item;
        p, m := step.p, k - 1;
        j, item := QueuedIfRoom(trace, steps, limits, p, m);
      }
    }
  }

  /** A database thread goes on to pop exactly if its check finds an entry. */
  lemma PopsIfUsed(s: State, c: nat, limits: Limits)
    requires c < |s.consumers| && s.consumers[c].Idle?
    ensures Enabled(s, CheckUsed(c))
    ensures Enabled(Do(s, CheckUsed(c), limits), Take(c)) <==> s.queue != []
    ensures s.queue == [] ==> Enabled(Do(s, CheckUsed(c), limits), CheckUsed(c))
  {
  }

  /** The pop hands it the oldest entry, or nothing if others were faster. */
  lemma TakesOldest(s: State, c: nat, limits: Limits)
    requires c < |s.consumers| && s.consumers[c].SawUsed?
    ensures Enabled(s, Take(c))
    ensures var s' := Do(s, Take(c), limits);
            if s.queue == [] then s'.popped == s.popped && Enabled(s', CheckUsed(c))
            else s'.popped == s.popped + [s.queue[0]] && s'.consumers[c] == Hand(s.queue[0])
  {
  }

  /** A statement may be taken or refused at any time, and a poller with nothing left meet any answers. */
  lemma AnyAnswerAnyVerdict(s: State, p: nat, rows: seq<Target>, answers: seq<Answer>, c: nat, ok: bool)
    requires p < |s.producers| && s.producers[p].at == |s.producers[p].list| && AllPollable(rows, answers)
    requires c < |s.consumers| && s.consumers[c].Hand?
    ensures Enabled(s, Build(p, rows, answers)) && Enabled(s, Finish(c, ok))
  {
  }

  /** The insert a database thread is done with at a step, if its outcome is this. */
  function FinishedBy(s: State, step: Step, ok: bool): Option<Item>
    requires Enabled(s, step)
  {
    match step
    case Finish(c, verdict) => if verdict == ok then Some(s.consumers[c].item) else None
    case _ => None
  }

  /** The inserts that database threads were done with in the first `k` steps, with this outcome. */
  function Finished(trace: seq<State>, steps: seq<Step>, ok: bool, k: nat): seq<Item>
    requires k <= |steps| && k <= |trace| && forall i :: 0 <= i < k ==> Enabled(trace[i], steps[i])
  {
    if k == 0 then [] else Finished(trace, steps, ok, k - 1) + Listed(FinishedBy(trace[k - 1], steps[k - 1], ok))
  }

  /** What was refused and what was not is told apart by the verdict on it. */
  lemma {:induction false} VerdictsAreKept(trace: seq<State>, steps: seq<Step>, limits: Limits, k: nat)
    requires IsRun(trace, steps, limits) && k < |trace|
    ensures trace[k].done == Finished(trace, steps, true, k) && trace[k].failed == Finished(trace, steps, false, k)
  {
    if k == 0 {
    } else {
      VerdictsAreKept(trace, steps, limits, k - 1);
      assert Enabled(trace[k - 1], steps[k - 1]) && trace[k] == Do(trace[k - 1], steps[k - 1], limits);
    }
  }
}
