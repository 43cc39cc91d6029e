/** The circular buffer of src/clbuf.c. It keeps no count: a full and an empty buffer have equal
    indices and are told apart only by whether the slot there is null (`None`). */
module Clbuf {
  import opened Words

  /** The slot `k` places after index `r`, going round. */
  function At(r: nat, k: nat, size: nat): nat
    requires r < size && k <= size
  {
    if r + k < size then r + k else r + k - size
  }

  /** How many places after `r` the slot `i` lies, going round. */
  function Offset(r: nat, i: nat, size: nat): nat
    requires r < size && i < size
  {
    if i >= r then i - r else i + size - r
  }

  lemma IncrementWraps(i: nat, size: nat)
    requires i < size
    ensures (i + 1) % size == At(i, 1, size)
  {
    if i + 1 == size {
      assert size % size == 0;
    }
  }

  /** The slots and indices stand for these entries, oldest first: the non-null slots are exactly
      the cyclic range from the read index on, and they hold the entries in order. */
  ghost predicate Represents<T>(slots: seq<Option<T>>, r: nat, w: nat, entries: seq<T>) {
    && r < |slots| && |entries| <= |slots| && w == At(r, |entries|, |slots|)
    && (forall i :: 0 <= i < |slots| ==> (slots[i].Some? <==> Offset(r, i, |slots|) < |entries|))
    && (forall i :: 0 <= i < |slots| && slots[i].Some? ==> slots[i].value == entries[Offset(r, i, |slots|)])
  }

  /** The null test at equal indices tells full from empty. */
  lemma EmptyOrFull<T>(slots: seq<Option<T>>, r: nat, w: nat, entries: seq<T>)
    requires Represents(slots, r, w, entries)
    ensures w < |slots|
    ensures w == r && slots[r].None? <==> entries == []
    ensures w == r && slots[r].Some? <==> |entries| == |slots|
    ensures w != r ==> |entries| == if w >= r then w - r else w + |slots| - r
  {
    assert slots[r].Some? <==> Offset(r, r, |slots|) < |entries|;
  }

  lemma PushAppends<T>(slots: seq<Option<T>>, r: nat, w: nat, entries: seq<T>, x: T)
    requires Represents(slots, r, w, entries) && |entries| < |slots|
    ensures w < |slots| && Represents(slots[w := Some(x)], r, At(w, 1, |slots|), entries + [x])
  {
  }

  lemma PopRemovesOldest<T>(slots: seq<Option<T>>, r: nat, w: nat, entries: seq<T>)
    requires Represents(slots, r, w, entries) && entries != []
    ensures slots[r] == Some(entries[0])
    ensures Represents(slots[r := None], At(r, 1, |slots|), w, entries[1..])
  {
    assert slots[r].Some? by {
      assert Offset(r, r, |slots|) < |entries|;
    }
  }

  class Clbuf<T> {
    const allocatedSize: nat
    const buffer: array<Option<T>>
    var readIndex: nat
    var writeIndex: nat
    ghost var Contents: seq<T>  // the abstract value: the queued entries, oldest first

    ghost predicate Valid()
      reads this, buffer
    {
      0 < allocatedSize == buffer.Length < TWO32 && Represents(buffer[..], readIndex, writeIndex, Contents)
    }

    constructor (size: nat)
      requires 0 < size < TWO32
      ensures Valid() && fresh(buffer) && allocatedSize == size
      ensures Contents == []
    {
      allocatedSize := size;
      readIndex, writeIndex := 0, 0;
      Contents := [];
      buffer := new Option<T>[size](i => None);
    }

    /** Null is returned exactly for a null pointer or a full buffer; otherwise the pointer is the
        newest entry. */
    method Push(ptr: Option<T>) returns (r: Option<T>)
      requires Valid()
      modifies this`writeIndex, this`Contents, buffer
      ensures Valid()
      ensures r == if ptr.Some? && |old(Contents)| < allocatedSize then ptr else None
      ensures Contents == if r.Some? then old(Contents) + [r.value] else old(Contents)
    {
      if ptr.None? {
        return None;
      }
      EmptyOrFull(buffer[..], readIndex, writeIndex, Contents);
      if writeIndex == readIndex && buffer[writeIndex].Some? {
        return None;
      }
      PushAppends(buffer[..], readIndex, writeIndex, Contents, ptr.value);
      IncrementWraps(writeIndex, allocatedSize);
      ghost var slots' := buffer[..][writeIndex := ptr];
      buffer[writeIndex] := ptr;
      writeIndex := writeIndex + 1;
      writeIndex := writeIndex % allocatedSize;
      assert buffer[..] == slots';
      Contents := Contents + [ptr.value];
      return ptr;
    }

    /** The oldest entry, or null exactly when there is none. */
    method Pop() returns (popped: Option<T>)
      requires Valid()
      modifies this`readIndex, this`Contents, buffer
      ensures Valid()
      ensures popped == if old(Contents) == [] then None else Some(old(Contents)[0])
      ensures Contents == if popped.Some? then old(Contents)[1..] else old(Contents)
    {
      popped := None;
      EmptyOrFull(buffer[..], readIndex, writeIndex, Contents);
      if writeIndex == readIndex && buffer[readIndex].None? {
        return None;
      }
      PopRemovesOldest(buffer[..], readIndex, writeIndex, Contents);
      IncrementWraps(readIndex, allocatedSize);
      ghost var slots' := buffer[..][readIndex := None];
      popped := buffer[readIndex];
      buffer[readIndex] := None;
      readIndex := readIndex + 1;
      readIndex := readIndex % allocatedSize;
      assert buffer[..] == slots';
      Contents := Contents[1..];
    }

    method CountUsed() returns (count: nat)
      requires Valid()
      ensures count == |Contents| <= allocatedSize
    {
      EmptyOrFull(buffer[..], readIndex, writeIndex, Contents);
      if writeIndex == readIndex && buffer[readIndex].None? {
        count := 0;
      } else if writeIndex == readIndex && buffer[readIndex].Some? {
        count := allocatedSize;
      } else if writeIndex >= readIndex {
        count := writeIndex - readIndex;
      } else {
        // Unsigned arithmetic: the sum may wrap, the difference wraps it back.
        count := Wrap32(Wrap32(writeIndex + allocatedSize) - readIndex);
      }
    }

    method CountFree() returns (free: nat)
      requires Valid()
      ensures free == allocatedSize - |Contents|
    {
      var used := CountUsed();
      free := allocatedSize - used;
    }
  }

  // A run of any operations is a run of a bounded first-in first-out queue.

  datatype Op<T> = OpPush(ptr: Option<T>) | OpPop

  /** A queue with its history: what each operation returned, what was accepted, what was delivered. */
  datatype Fifo<T> = Fifo(queue: seq<T>, replies: seq<Option<T>>, accepted: seq<T>, delivered: seq<T>)

  function Apply<T>(f: Fifo<T>, op: Op<T>, capacity: nat): Fifo<T> {
    match op
    case OpPush(ptr) =>
      if ptr.Some? && |f.queue| < capacity
      then Fifo(f.queue + [ptr.value], f.replies + [ptr], f.accepted + [ptr.value], f.delivered)
      else f.(replies := f.replies + [None])
    case OpPop =>
      if f.queue == [] then f.(replies := f.replies + [None])
      else Fifo(f.queue[1..], f.replies + [Some(f.queue[0])], f.accepted, f.delivered + [f.queue[0]])
  }

  /** The bounded queue after the first `n` operations. */
  function RunFifo<T>(ops: seq<Op<T>>, n: nat, queue: seq<T>, capacity: nat): Fifo<T>
    requires n <= |ops|
  {
    if n == 0 then Fifo(queue, [], [], []) else Apply(RunFifo(ops, n - 1, queue, capacity), ops[n - 1], capacity)
  }

  /** Later operations do not matter. */
  lemma {:induction false} RunFifoPrefix<T>(ops: seq<Op<T>>, more: seq<Op<T>>, n: nat, queue: seq<T>, capacity: nat)
    requires n <= |ops|
    ensures RunFifo(ops + more, n, queue, capacity) == RunFifo(ops, n, queue, capacity)
  {
    if n == 0 {
    } else {
      RunFifoPrefix(ops, more, n - 1, queue, capacity);
    }
  }

  method RunOps<T>(cb: Clbuf<T>, ops: seq<Op<T>>) returns (replies: seq<Option<T>>)
    requires cb.Valid()
    modifies cb, cb.buffer
    ensures cb.Valid()
    ensures var f := RunFifo(ops, |ops|, old(cb.Contents), cb.allocatedSize);
            replies == f.replies && cb.Contents == f.queue
  {
    replies := [];
    ghost var f := Fifo(cb.Contents, [], [], []);
    for i := 0 to |ops|
      invariant cb.Valid() && replies == f.replies && cb.Contents == f.queue
      invariant f == RunFifo(ops, i, old(cb.Contents), cb.allocatedSize)
    {
      f := Apply(f, ops[i], cb.allocatedSize);
      var r;
      match ops[i] {
        case OpPush(ptr) => r := cb.Push(ptr);
        case OpPop => r := cb.Pop();
      }
      replies := replies + [r];
    }
  }

  /** Over any run nothing is lost, duplicated or reordered, and the capacity is respected. */
  lemma {:induction false} DeliveredInOrder<T>(ops: seq<Op<T>>, n: nat, queue: seq<T>, capacity: nat)
    requires n <= |ops| && |queue| <= capacity
    ensures var f := RunFifo(ops, n, queue, capacity);
            && |f.replies| == n && |f.queue| <= capacity
            && f.delivered + f.queue == queue + f.accepted
  {
    if n == 0 {
    } else {
      DeliveredInOrder(ops, n - 1, queue, capacity);
      StepInOrder(RunFifo(ops, n - 1, queue, capacity), ops[n - 1], queue, capacity);
    }
  }

  lemma StepInOrder<T>(f: Fifo<T>, op: Op<T>, queue: seq<T>, capacity: nat)
    requires |f.queue| <= capacity && f.delivered + f.queue == queue + f.accepted
    ensures var f' := Apply(f, op, capacity);
            |f'.queue| <= capacity && f'.delivered + f'.queue == queue + f'.accepted
  {
    var f' := Apply(f, op, capacity);
    if op.OpPush? && f'.queue != f.queue {
      var x := [op.ptr.value];
      assert f.delivered + (f.queue + x) == (f.delivered + f.queue) + x;
      assert (queue + f.accepted) + x == queue + (f.accepted + x);
    } else if op.OpPop? && f.queue != [] {
      assert f.queue == [f.queue[0]] + f.queue[1..];
      assert (f.delivered + [f.queue[0]]) + f.queue[1..] == f.delivered + f.queue;
    }
  }
}
