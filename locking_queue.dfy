/** CSharp/Collections/Concurrent/BlockingQueue.cs: a FIFO queue guarded by a
    `ReentrantLock`, whose "not empty" condition is signalled on every enqueue.
    Every public operation takes the lock and releases it in a `finally`. */
module LockingQueues {
  import opened Wrappers
  import opened Threads
  import opened Monitors
  import opened LockConditions
  import opened ReentrantLocks
  import opened QueueCopies

  class BlockingQueue<T(==)> {
    /** `_lock` */
    const lock: ReentrantLock
    /** `_notEmpty`: a condition of `_lock`. */
    const notEmpty: LockCondition
    /** `_queue`, front first. */
    var queue: seq<T>

    ghost predicate Valid()
      reads this, lock, lock.monitor, lock.ids, notEmpty, notEmpty.threadSignals
    {
      lock.Valid() && notEmpty.Valid() && notEmpty.monitor == lock.monitor
    }

    /** What one `Lock` / `Unlock` pair by `me` leaves in the lock and its
        monitor, against their state before. */
    ghost predicate LockReleased(me: ThreadId, before: LockState, owner: Option<ThreadId>, depth: nat)
      reads this, lock, lock.monitor
    {
      && lock.State() == AfterUnlock(AfterLock(before, me))
      && lock.monitor.owner == owner && lock.monitor.depth == depth
    }

    /** `BlockingQueue()` (capacity 1): an empty queue on a fresh lock with one
        fresh condition. */
    constructor ()
      ensures Valid() && queue == []
      ensures fresh(lock) && fresh(lock.monitor) && fresh(lock.ids) && fresh(notEmpty) && fresh(notEmpty.threadSignals)
      ensures lock.State() == Unheld && lock.monitor.owner == None && notEmpty.waitingThreads == {}
    {
      var l := new ReentrantLock();
      var c := l.NewCondition();
      lock, notEmpty := l, c;
      queue := [];
    }

    /** `BlockingQueue(int capacity)`: the inner `Queue<T>(capacity)` rejects a
        negative capacity (None, the ArgumentOutOfRangeException); any other
        capacity gives what the default constructor gives. */
    static method WithCapacity(capacity: int) returns (q: Option<BlockingQueue<T>>)
      ensures q.None? <==> capacity < 0
      ensures q.Some? ==> fresh(q.value) && q.value.Valid() && q.value.queue == []
      ensures q.Some? ==> fresh(q.value.lock) && fresh(q.value.lock.monitor) && fresh(q.value.notEmpty)
      ensures q.Some? ==> q.value.lock.State() == Unheld && q.value.notEmpty.waitingThreads == {}
    {
      if capacity < 0 {
        return None;
      }
      var b := new BlockingQueue();
      q := Some(b);
    }

    /** `BlockingQueue(IEnumerable<T>)`: `new Queue<T>(collection)` rejects a null
        collection (None, the ArgumentNullException); otherwise the queue holds
        the collection's items, in order, on a new, free lock. */
    static method FromCollection(collection: Option<seq<T>>) returns (q: Option<BlockingQueue<T>>)
      ensures q.None? <==> collection.None?
      ensures q.Some? ==> fresh(q.value) && q.value.Valid() && q.value.queue == collection.value
      ensures q.Some? ==> fresh(q.value.lock) && fresh(q.value.lock.monitor) && fresh(q.value.notEmpty)
      ensures q.Some? ==> q.value.lock.State() == Unheld && q.value.notEmpty.waitingThreads == {}
    {
      if collection.None? {
        return None;
      }
      var b := new BlockingQueue.WithItems(collection.value);
      q := Some(b);
    }

    /** A queue holding `items`, in order: the non-null case of
        `BlockingQueue(IEnumerable<T>)`. */
    constructor WithItems(items: seq<T>)
      ensures Valid() && queue == items
      ensures fresh(lock) && fresh(lock.monitor) && fresh(lock.ids) && fresh(notEmpty) && fresh(notEmpty.threadSignals)
      ensures lock.State() == Unheld && lock.monitor.owner == None && notEmpty.waitingThreads == {}
    {
      var l := new ReentrantLock();
      var c := l.NewCondition();
      lock, notEmpty := l, c;
      queue := items;
    }

    /** Append at the back and signal `_notEmpty`, under the lock. */
    method Enqueue(me: ThreadId, item: T)
      requires Valid() && lock.monitor.CanEnter(me)
      modifies this, lock, lock.monitor, notEmpty.threadSignals
      ensures Valid() && queue == old(queue) + [item]
      ensures notEmpty.threadSignals.table
        == Signalled(old(notEmpty.threadSignals.table), notEmpty.waitingThreads, notEmpty.signalId)
      ensures lock.monitor.pulseAlls == old(lock.monitor.pulseAlls) + 1
      ensures LockReleased(me, old(lock.State()), old(lock.monitor.owner), old(lock.monitor.depth))
    {
      lock.Lock(me);
      queue := queue + [item];
      notEmpty.Signal();
      var exited := lock.Unlock(me);
    }

    /** Remove and return the front. The caller waits on `_notEmpty` while the
        queue is empty, so the step is taken once there is an item. */
    method Dequeue(me: ThreadId) returns (item: T)
      requires Valid() && lock.monitor.CanEnter(me) && queue != []
      modifies this, lock, lock.monitor
      ensures Valid() && item == old(queue)[0] && queue == old(queue)[1..]
      ensures lock.monitor.pulseAlls == old(lock.monitor.pulseAlls)
      ensures LockReleased(me, old(lock.State()), old(lock.monitor.owner), old(lock.monitor.depth))
    {
      lock.Lock(me);
      item := queue[0];
      queue := queue[1..];
      var exited := lock.Unlock(me);
    }

    /** Empty the queue; nothing is signalled. */
    method Clear(me: ThreadId)
      requires Valid() && lock.monitor.CanEnter(me)
      modifies this, lock, lock.monitor
      ensures Valid() && queue == []
      ensures lock.monitor.pulseAlls == old(lock.monitor.pulseAlls)
      ensures LockReleased(me, old(lock.State()), old(lock.monitor.owner), old(lock.monitor.depth))
    {
      lock.Lock(me);
      queue := [];
      var exited := lock.Unlock(me);
    }

    method Contains(me: ThreadId, item: T) returns (found: bool)
      requires Valid() && lock.monitor.CanEnter(me)
      modifies lock, lock.monitor
      ensures Valid() && (found <==> item in queue)
      ensures LockReleased(me, old(lock.State()), old(lock.monitor.owner), old(lock.monitor.depth))
    {
      lock.Lock(me);
      found := item in queue;
      var exited := lock.Unlock(me);
    }

    /** Copy the items, front first, into `dest` from `arrayIndex` on; the
        three failures leave the array as it was. */
    method CopyTo(me: ThreadId, dest: array?<T>, arrayIndex: int) returns (error: Option<CopyError>)
      requires Valid() && lock.monitor.CanEnter(me)
      modifies lock, lock.monitor, dest
      ensures Valid()
      ensures error == CopyCheck(if dest == null then None else Some(dest.Length), arrayIndex, |queue|)
      ensures dest != null && error.None? ==>
        dest[..] == old(dest[..arrayIndex]) + queue + old(dest[arrayIndex + |queue|..])
      ensures dest != null && error.Some? ==> dest[..] == old(dest[..])
      ensures LockReleased(me, old(lock.State()), old(lock.monitor.owner), old(lock.monitor.depth))
    {
      lock.Lock(me);
      error := CopyCheck(if dest == null then None else Some(dest.Length), arrayIndex, |queue|);
      if error.None? {
        CopyInto(queue, dest, arrayIndex);
      }
      var exited := lock.Unlock(me);
    }

    /** The front without removing it; `None` when the queue is empty (the
        queue raises InvalidOperationException, the lock is still released). */
    method Peek(me: ThreadId) returns (front: Option<T>)
      requires Valid() && lock.monitor.CanEnter(me)
      modifies lock, lock.monitor
      ensures Valid() && front == if queue == [] then None else Some(queue[0])
      ensures LockReleased(me, old(lock.State()), old(lock.monitor.owner), old(lock.monitor.depth))
    {
      lock.Lock(me);
      front := if queue == [] then None else Some(queue[0]);
      var exited := lock.Unlock(me);
    }

    /** A new array holding the items front to back. */
    method ToArray(me: ThreadId) returns (a: array<T>)
      requires Valid() && lock.monitor.CanEnter(me)
      modifies lock, lock.monitor
      ensures Valid() && fresh(a) && a[..] == queue
      ensures LockReleased(me, old(lock.State()), old(lock.monitor.owner), old(lock.monitor.depth))
    {
      lock.Lock(me);
      var items := queue;
      a := new T[|items|](i requires 0 <= i < |items| => items[i]);
      var exited := lock.Unlock(me);
    }

    method Count(me: ThreadId) returns (n: nat)
      requires Valid() && lock.monitor.CanEnter(me)
      modifies lock, lock.monitor
      ensures Valid() && n == |queue|
      ensures LockReleased(me, old(lock.State()), old(lock.monitor.owner), old(lock.monitor.depth))
    {
      lock.Lock(me);
      n := |queue|;
      var exited := lock.Unlock(me);
    }
  }

  /** A Lock / Unlock pair leaves the monitor as it found it and the hold count
      unchanged; on a free lock it leaves the lock free. */
  lemma LockPairRestores(me: ThreadId, before: LockState, after: LockState)
    requires after == AfterUnlock(AfterLock(before, me))
    ensures after.count == before.count
    ensures before == Unheld ==> after == Unheld
  {
    LockThenUnlock(before, me);
  }

  /** Producer then consumer on one fresh queue: the items come out in the order
      they went in. */
  method FifoScenario<T(==)>(me: ThreadId, items: seq<T>) returns (received: seq<T>)
    ensures received == items
  {
    var q := new BlockingQueue<T>();
    var i := 0;
    while i < |items|
      invariant 0 <= i <= |items|
      invariant q.Valid() && q.queue == items[..i]
      invariant q.lock.State() == Unheld && q.lock.monitor.owner == None && q.lock.monitor.depth == 0
      modifies q, q.lock, q.lock.monitor, q.notEmpty.threadSignals
    {
      q.Enqueue(me, items[i]);
      LockPairRestores(me, Unheld, q.lock.State());
      i := i + 1;
    }
    received := [];
    while |received| < |items|
      invariant q.Valid() && received + q.queue == items
      invariant q.lock.State() == Unheld && q.lock.monitor.owner == None && q.lock.monitor.depth == 0
      modifies q, q.lock, q.lock.monitor
      decreases |items| - |received|
    {
      var x := q.Dequeue(me);
      LockPairRestores(me, Unheld, q.lock.State());
      received := received + [x];
    }
  }
}
