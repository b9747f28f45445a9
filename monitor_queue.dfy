/** CSharp/Concurrent/BlockingQueue.cs: the older FIFO queue, guarded by the
    native monitor of its inner queue (`lock (_queue)`), pulsed on Enqueue and
    Clear, with a Dequeue that waits on that monitor while the queue is empty. */
module MonitorQueues {
  import opened Wrappers
  import opened Threads
  import opened Monitors
  import opened QueueCopies

  /** Where a Dequeue stands after the wakes it was given: the item it took
      (None while it is still waiting), how many times it waited, and the
      queue it leaves. */
  datatype DequeueOutcome<T> = DequeueOutcome(item: Option<T>, waits: nat, rest: seq<T>)

  function Concat<T>(chunks: seq<seq<T>>): (all: seq<T>)
    ensures chunks == [] ==> all == []
  {
    if chunks == [] then [] else chunks[0] + Concat(chunks[1..])
  }

  /** Dequeue on `queue`, where `arrivals[k]` are the items other threads
      enqueue while this caller waits for the k-th time. The caller waits only
      while the queue is empty and takes the front as soon as it is not. */
  function DequeueRun<T>(queue: seq<T>, arrivals: seq<seq<T>>): DequeueOutcome<T>
    decreases |arrivals|
  {
    if queue != [] then DequeueOutcome(Some(queue[0]), 0, queue[1..])
    else if arrivals == [] then DequeueOutcome(None, 0, [])
    else
      var r := DequeueRun(arrivals[0], arrivals[1..]);
      r.(waits := r.waits + 1)
  }

  /** Dequeue is FIFO over everything that was enqueued before it returns:
      it yields an item iff one ever arrives, that item is the front of the
      queue followed by the arrivals it waited for, and the rest stays in
      order. A non-empty queue is served without waiting. */
  lemma {:induction false} DequeueRunFifo<T>(queue: seq<T>, arrivals: seq<seq<T>>)
    ensures DequeueRun(queue, arrivals).waits <= |arrivals|
    ensures DequeueRun(queue, arrivals).item.Some? <==> queue + Concat(arrivals) != []
    ensures DequeueRun(queue, arrivals).item.Some? ==>
      [DequeueRun(queue, arrivals).item.value] + DequeueRun(queue, arrivals).rest
        == queue + Concat(arrivals[..DequeueRun(queue, arrivals).waits])
    ensures DequeueRun(queue, arrivals).item.None? ==>
      DequeueRun(queue, arrivals).waits == |arrivals| && DequeueRun(queue, arrivals).rest == []
    ensures queue != [] ==> DequeueRun(queue, arrivals).waits == 0
    decreases |arrivals|
  {
    var r := DequeueRun(queue, arrivals);
    if queue != [] {
      assert arrivals[..0] == [];
    } else if arrivals != [] {
      var r' := DequeueRun(arrivals[0], arrivals[1..]);
      DequeueRunFifo(arrivals[0], arrivals[1..]);
      assert Concat(arrivals) == arrivals[0] + Concat(arrivals[1..]);
      assert arrivals[..r.waits][0] == arrivals[0];
      assert arrivals[..r.waits][1..] == arrivals[1..][..r'.waits];
      if r.item.Some? {
        assert Concat(arrivals[..r.waits]) == arrivals[0] + Concat(arrivals[1..][..r'.waits]);
      }
    }
  }

  class BlockingQueue<T(==)> {
    /** The monitor of `_queue`, which every operation locks. */
    const monitor: LockMonitor
    /** `_queue`, front first. */
    var queue: seq<T>

    /** `BlockingQueue()`: an empty queue. */
    constructor ()
      ensures monitor.Valid() && queue == [] && fresh(monitor)
      ensures monitor.owner == None && monitor.pulses == 0 && monitor.waits == 0
    {
      monitor := new LockMonitor();
      queue := [];
    }

    /** `BlockingQueue(int capacity)`: the inner `Queue<T>(capacity)` rejects a
        negative capacity (None, the ArgumentOutOfRangeException); any other
        capacity gives an empty queue with a free monitor. */
    static method WithCapacity(capacity: int) returns (q: Option<BlockingQueue<T>>)
      ensures q.None? <==> capacity < 0
      ensures q.Some? ==> fresh(q.value) && fresh(q.value.monitor) && q.value.queue == []
      ensures q.Some? ==> q.value.monitor.Valid() && q.value.monitor.owner == None
    {
      if capacity < 0 {
        return None;
      }
      var b := new BlockingQueue();
      q := Some(b);
    }

    /** `BlockingQueue(IEnumerable<T>)`: `new Queue<T>(collection)` rejects a null
        collection (None, the ArgumentNullException); otherwise the queue holds
        the collection's items, in order, with a free monitor. */
    static method FromCollection(collection: Option<seq<T>>) returns (q: Option<BlockingQueue<T>>)
      ensures q.None? <==> collection.None?
      ensures q.Some? ==> fresh(q.value) && fresh(q.value.monitor) && q.value.queue == collection.value
      ensures q.Some? ==> q.value.monitor.Valid() && q.value.monitor.owner == None
    {
      if collection.None? {
        return None;
      }
      var b := new BlockingQueue.WithItems(collection.value);
      q := Some(b);
    }

    /** A queue holding `items`, in order: the non-null case of
        `BlockingQueue(IEnumerable<T>)`. */
    constructor WithItems(items: seq<T>)
      ensures monitor.Valid() && queue == items && fresh(monitor)
      ensures monitor.owner == None && monitor.pulses == 0 && monitor.waits == 0
    {
      monitor := new LockMonitor();
      queue := items;
    }

    /** The monitor is held exactly as it was before the call. */
    ghost predicate Released(owner: Option<ThreadId>, depth: nat)
      reads monitor
    {
      monitor.Valid() && monitor.owner == owner && monitor.depth == depth
    }

    /** Append at the back and pulse one waiter. */
    method Enqueue(me: ThreadId, item: T)
      requires monitor.Valid() && monitor.CanEnter(me)
      modifies this, monitor
      ensures queue == old(queue) + [item]
      ensures monitor.pulses == old(monitor.pulses) + 1 && monitor.waits == old(monitor.waits)
      ensures Released(old(monitor.owner), old(monitor.depth))
    {
      monitor.Enter(me);
      queue := queue + [item];
      monitor.Pulse();
      var ok := monitor.Exit(me);
    }

    /** Wait on the monitor while the queue is empty, then remove and return
        the front. `arrivals[k]` is what other threads enqueue during the k-th
        wait; when they run out with the queue still empty the caller is
        still waiting (`item == None`), and the monitor is released as a
        waiting thread releases it. */
    method Dequeue(me: ThreadId, arrivals: seq<seq<T>>) returns (item: Option<T>, waits: nat)
      requires monitor.Valid() && monitor.CanEnter(me)
      modifies this, monitor
      ensures DequeueOutcome(item, waits, queue) == DequeueRun(old(queue), arrivals)
      ensures monitor.waits == old(monitor.waits) + waits && monitor.pulses == old(monitor.pulses)
      ensures Released(old(monitor.owner), old(monitor.depth))
    {
      monitor.Enter(me);
      waits := 0;
      while queue == [] && waits < |arrivals|
        invariant 0 <= waits <= |arrivals|
        invariant DequeueRun(queue, arrivals[waits..]).(waits := DequeueRun(queue, arrivals[waits..]).waits + waits)
          == DequeueRun(old(queue), arrivals)
        invariant monitor.Valid() && monitor.owner == Some(me) && monitor.depth == old(monitor.depth) + 1
        invariant monitor.waits == old(monitor.waits) + waits && monitor.pulses == old(monitor.pulses)
      {
        assert arrivals[waits..][0] == arrivals[waits] && arrivals[waits..][1..] == arrivals[waits + 1..];
        monitor.Wait(me);
        queue := queue + arrivals[waits];
        waits := waits + 1;
      }
      if queue != [] {
        item := Some(queue[0]);
        queue := queue[1..];
      } else {
        item := None;
      }
      var ok := monitor.Exit(me);
    }

    /** Empty the queue and pulse one waiter. */
    method Clear(me: ThreadId)
      requires monitor.Valid() && monitor.CanEnter(me)
      modifies this, monitor
      ensures queue == []
      ensures monitor.pulses == old(monitor.pulses) + 1 && monitor.waits == old(monitor.waits)
      ensures Released(old(monitor.owner), old(monitor.depth))
    {
      monitor.Enter(me);
      queue := [];
      monitor.Pulse();
      var ok := monitor.Exit(me);
    }

    method Contains(me: ThreadId, item: T) returns (found: bool)
      requires monitor.Valid() && monitor.CanEnter(me)
      modifies monitor
      ensures found <==> item in queue
      ensures monitor.pulses == old(monitor.pulses) && monitor.waits == old(monitor.waits)
      ensures Released(old(monitor.owner), old(monitor.depth))
    {
      monitor.Enter(me);
      found := item in queue;
      var ok := monitor.Exit(me);
    }

    /** Copy the items, front first, into `dest` from `arrayIndex` on; the
        three failures leave the array as it was. */
    method CopyTo(me: ThreadId, dest: array?<T>, arrayIndex: int) returns (error: Option<CopyError>)
      requires monitor.Valid() && monitor.CanEnter(me)
      modifies monitor, dest
      ensures error == CopyCheck(if dest == null then None else Some(dest.Length), arrayIndex, |queue|)
      ensures dest != null && error.None? ==>
        dest[..] == old(dest[..arrayIndex]) + queue + old(dest[arrayIndex + |queue|..])
      ensures dest != null && error.Some? ==> dest[..] == old(dest[..])
      ensures Released(old(monitor.owner), old(monitor.depth))
    {
      monitor.Enter(me);
      error := CopyCheck(if dest == null then None else Some(dest.Length), arrayIndex, |queue|);
      if error.None? {
        CopyInto(queue, dest, arrayIndex);
      }
      var ok := monitor.Exit(me);
    }

    /** The front without removing it; `None` when the queue is empty (the
        InvalidOperationException case; the monitor is still released). */
    method Peek(me: ThreadId) returns (front: Option<T>)
      requires monitor.Valid() && monitor.CanEnter(me)
      modifies monitor
      ensures front == if queue == [] then None else Some(queue[0])
      ensures Released(old(monitor.owner), old(monitor.depth))
    {
      monitor.Enter(me);
      front := if queue == [] then None else Some(queue[0]);
      var ok := monitor.Exit(me);
    }

    method ToArray(me: ThreadId) returns (a: array<T>)
      requires monitor.Valid() && monitor.CanEnter(me)
      modifies monitor
      ensures fresh(a) && a[..] == queue
      ensures Released(old(monitor.owner), old(monitor.depth))
    {
      monitor.Enter(me);
      var items := queue;
      a := new T[|items|](i requires 0 <= i < |items| => items[i]);
      var ok := monitor.Exit(me);
    }

    method Count(me: ThreadId) returns (n: nat)
      requires monitor.Valid() && monitor.CanEnter(me)
      modifies monitor
      ensures n == |queue|
      ensures Released(old(monitor.owner), old(monitor.depth))
    {
      monitor.Enter(me);
      n := |queue|;
      var ok := monitor.Exit(me);
    }
  }
}
