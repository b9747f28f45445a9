# CSharp.Atomic: lock, condition and collection bookkeeping in Dafny

This project models the sequential state of the concurrency primitives in
the C# library CSharp.Atomic, and proves what each operation does to that
state. Blocking and interleaving stay outside the model. Each primitive is a
Dafny class with the fields the C# class updates in place. Each method's
`ensures` ties the new state to a pure function of the old one, and lemmas
about those functions state the library's promises.

- `HashStacks` (`hash_stack.dfy`): `HashStack<T,U>`, a dictionary of stacks
  that is created lazily. A stack is a `seq` with its top at the end.
- `LockConditions` (`lock_condition.dfy`): `LockCondition`. `Signal` pushes the
  condition's id onto the token stack of every waiting thread. `Await`
  registers the caller, then waits and pops one token after each wake. It
  leaves only when it pops its own id.
- `ReentrantLocks` (`reentrant_lock.dfy`): `ReentrantLock`, a state machine over
  the holder and a `uint` hold count. The count wraps modulo 2^32.
- `ConditionIdentifiers` (`condition_ids.dfy`): `ConditionIds`, which produces
  `<prefix>-<n>` ids, including the decimal formatting of `long`.
- `LockingQueues` (`locking_queue.dfy`): the `BlockingQueue<T>` built on
  `ReentrantLock` and a `LockCondition`.
- `MonitorQueues` (`monitor_queue.dfy`): the older `BlockingQueue<T>`, built on
  the native monitor of its inner queue.
- `QueueCopies` (`queue_copy.dfy`): the argument checks and the copy of
  `Queue<T>.CopyTo`, which both queues delegate `CopyTo` to.
- `Latches` (`count_down_latch.dfy`): `CountDownLatch`.
- `AtomicBooleans` (`atomic_boolean.dfy`) and `Atomics` (`atomic.dfy`):
  `AtomicBoolean` and `Atomic<T>`.
- `ThreadLocals` (`thread_local.dfy`): `ThreadLocal<T>` and its static state.
- `Monitors` (`lock_monitor.dfy`): `LockMonitor`, used by the lock and its
  conditions. Its source is not part of this model. It is modelled after
  `System.Threading.Monitor`:
  - an owner thread and a reentry depth;
  - `Enter` is enabled when the monitor is free or already the caller's;
  - `Exit` by a thread that does not own the monitor fails and changes
    nothing;
  - `Wait` requires ownership and returns with it;
  - pulses are counted, without a check of the caller.
- `Wrappers` and `Threads` (`wrappers.dfy`): `Option`, where `None` stands for
  null or `default(U)`, and `ThreadId`. `ThreadId` is the string form of
  `ManagedThreadId`, which the calling thread passes in as `me`.

## Model

| member | source | states |
|---|---|---|
| HashStacks.HashStack.constructor | CSharp/Collections/HashStack.cs:43-45 | a new table has no keys |
| HashStacks.HashStack.Push | CSharp/Collections/HashStack.cs:54-59 | the new table is the old one with `value` on top of `key`'s stack; an absent key gets a new stack first |
| HashStacks.PushFrame | CSharp/Collections/HashStack.cs:54-59 | Push adds exactly `value` to `key`'s stack, so CountFor grows by one; every other key's stack is unchanged; the key set gains `key`, and Count grows by one exactly when `key` was absent |
| HashStacks.HashStack.Pop | CSharp/Collections/HashStack.cs:71-77 | returns the top of `key`'s stack and removes it; returns None (default(U)) and changes nothing when the key is absent or its stack is empty; Count is unchanged |
| HashStacks.PopAfterPush | CSharp/Collections/HashStack.cs:54-59 | Pop right after Push(key, value) returns `value` and restores the stack |
| HashStacks.PopOnEmpty | CSharp/Collections/HashStack.cs:71-74 | on an absent key or an empty stack, Pop yields None and the table is unchanged |
| HashStacks.PopKeepsKeys | CSharp/Collections/HashStack.cs:71-77 | Pop never deletes a key, even when the stack becomes empty, so the key count is unchanged; it takes exactly the top element and touches no other key |
| HashStacks.PushAllAppends | CSharp/Collections/HashStack.cs:54-59 | pushing a sequence of values appends them, in order, to one stack and leaves the other stacks alone |
| HashStacks.PopManyNewestFirst | CSharp/Collections/HashStack.cs:71-77 | popping \|top\| times from a stack that ends in `top` yields `top` newest first and leaves the rest of the stack and every other key |
| HashStacks.LastInFirstOut | CSharp/Collections/HashStack.cs:54-77 | each stack is LIFO: pushing n values and then popping n times returns them in reverse and restores the stack |
| HashStacks.HashStack.Remove | CSharp/Collections/HashStack.cs:86-93 | returns the key's whole stack and deletes the key; returns None (null) and changes nothing when the key is absent; afterwards the key is absent |
| HashStacks.HashStack.ContainsKey | CSharp/Collections/HashStack.cs:100-102 | an absent key reads as an empty stack |
| HashStacks.HashStack.ContainsValue | CSharp/Collections/HashStack.cs:110-112 | true iff `value` occurs in the stack under `key`, which requires the key to be present |
| HashStacks.HashStack.CountFor | CSharp/Collections/HashStack.cs:119-124 | the size of the key's stack, 0 for an absent key |
| HashStacks.HashStack.IsStackEmpty | CSharp/Collections/HashStack.cs:131-133 | true iff the key's stack has no elements, i.e. iff CountFor is 0 |
| HashStacks.HashStack.Count | CSharp/Collections/HashStack.cs:139-143 | the number of keys, not the number of values |
| HashStacks.HashStack.IsEmpty | CSharp/Collections/HashStack.cs:149-153 | true iff the table has no keys |
| LockConditions.LockCondition.constructor | CSharp/Locking/LockCondition.cs:43-48 | a condition on the given monitor with its own fresh, empty token table and no waiters |
| LockConditions.LockCondition.Signal | CSharp/Locking/LockCondition.cs:53-62 | the token table becomes Signalled(old table, waiters, id), whatever order the loop visits the waiting set in; the waiting set is unchanged; the monitor is pulsed once and its ownership is not touched |
| LockConditions.SignalDelivers | CSharp/Locking/LockCondition.cs:57-59 | each waiting thread's stack gains exactly one copy of the id, no other stack changes, and with no waiters nothing changes |
| LockConditions.SignalOneMore | CSharp/Locking/LockCondition.cs:57-59 | signalling one more waiter is one more Push, so the foreach loop reaches the same table in any order |
| LockConditions.SignalKeepsOnlyToken | CSharp/Locking/LockCondition.cs:47-58 | if every stored token is the condition's id before a Signal, this still holds after it |
| LockConditions.PopKeepsOnlyToken | CSharp/Locking/LockCondition.cs:77 | under that invariant, a Pop keeps it and yields either nothing or the condition's own id |
| LockConditions.LockCondition.Await | CSharp/Locking/LockCondition.cs:67-82 | the number of waits, whether the loop ended and the caller's pending tokens are AwaitRun(pending, signals during each wait); the caller is in the waiting set while it waits and removed on exit; every other thread's stack is its old stack plus one id per Signal made during the waits taken if it was waiting, and unchanged otherwise (OthersGot); the monitor's owner and depth are unchanged, and Await itself never touches the lock's holder or count |
| LockConditions.LockCondition.SignalWhileWaiting | CSharp/Locking/LockCondition.cs:57-61 | `count` Signals by other threads while the caller waits give the caller `count` more tokens, every other waiter `count` copies of the id, and the monitor `count` pulses |
| LockConditions.LockCondition.WakeOnce | CSharp/Locking/LockCondition.cs:74-78 | one pass of the wait loop: one more wait; the pop finds the id iff a token was pending or signalled during the wait, and takes exactly one; the other waiters keep every token they were sent |
| LockConditions.OthersGotThen | CSharp/Locking/LockCondition.cs:74-78 | tokens delivered to other waiters over successive waits add up, n then m giving n + m copies of the id |
| LockConditions.SignalLeavesOtherCondition | CSharp/Locking/LockCondition.cs:43-62 | two conditions of one lock have separate token tables, so a Signal on one delivers to its own waiters and leaves the other condition's table and waiting set unchanged |
| LockConditions.AwaitWaitsFirst | CSharp/Locking/LockCondition.cs:73-78 | Await waits at least once before any check; it waits at most once per scheduled wake; it exits iff some wake finds a token (pending or newly signalled) |
| LockConditions.AwaitConsumesOneToken | CSharp/Locking/LockCondition.cs:74-78 | each wake pops at most one token: tokens left = tokens present + tokens signalled during the waits taken − one for the exit |
| LockConditions.AwaitIgnoresForeignWakes | CSharp/Locking/LockCondition.cs:74-78 | a caller with no pending tokens that is woken only by pulses that sent it nothing keeps waiting through every wake |
| LockConditions.AwaitConsumesStaleToken | CSharp/Locking/LockCondition.cs:77-81 | a token left from an earlier Signal, which Remove never clears, lets the next Await exit on its first wake |
| ReentrantLocks.LockCounts | CSharp/Locking/ReentrantLock.cs:64-69 | Lock makes the caller the holder and adds one to the count, which wraps to 0 only from 2^32 − 1 |
| ReentrantLocks.UnlockCases | CSharp/Locking/ReentrantLock.cs:118-122 | Unlock from n > 1 gives n − 1 with the same holder; from 1 it gives 0 and no holder; from 0 the uint wraps to 2^32 − 1 and the holder is kept |
| ReentrantLocks.UnlockOfFreeLockBreaksInvariant | CSharp/Locking/ReentrantLock.cs:118-125 | Unlock on a free lock leaves count 2^32 − 1 with no holder, so "count > 0 iff holder" fails |
| ReentrantLocks.HoldInvariantPreserved | CSharp/Locking/ReentrantLock.cs:64-125 | when Unlock is only called with count > 0 (and Lock does not overflow), "count > 0 iff there is a holder" is preserved |
| ReentrantLocks.LockThenUnlock | CSharp/Locking/ReentrantLock.cs:64-125 | one Lock then one Unlock restores the count, and also the holder when the lock was free or already the caller's |
| ReentrantLocks.OthersLockDuringWait | CSharp/Locking/ReentrantLock.cs:64-125 | a waiter that held the lock and whose Await is interleaved with a signaller's Lock/Unlock pair gets back the count but not the holder, which is now the signaller; if another thread also locked and then waited, the count is one higher, so neither is restored |
| ReentrantLocks.LockTimesFromFree | CSharp/Locking/ReentrantLock.cs:64-69 | k Locks by one thread on a free lock give that thread as holder with count k |
| ReentrantLocks.UnlockTimesFromHeld | CSharp/Locking/ReentrantLock.cs:118-122 | j Unlocks from count n ≥ j give count n − j with the same holder, and a free lock when j = n |
| ReentrantLocks.ReentrantRoundTrip | CSharp/Locking/ReentrantLock.cs:64-125 | k Locks then k Unlocks by one thread leave the lock free, and the thread holds it until the last Unlock |
| ReentrantLocks.ReentrantLock.constructor | CSharp/Locking/ReentrantLock.cs:55-59 | a free lock with a new monitor and an id generator with prefix "REL" starting at 1 |
| ReentrantLocks.ReentrantLock.Lock | CSharp/Locking/ReentrantLock.cs:64-69 | enters the monitor (enabled when it is free or the caller's), then the state is AfterLock: count + 1 and the caller as holder |
| ReentrantLocks.ReentrantLock.TryLock | CSharp/Locking/ReentrantLock.cs:80-105 | succeeds iff the monitor can be entered; on success it is Lock; on failure holder, count and monitor are unchanged |
| ReentrantLocks.ReentrantLock.Unlock | CSharp/Locking/ReentrantLock.cs:118-125 | the state becomes AfterUnlock whoever calls it (there is no holder check); the monitor exit succeeds only for its owner |
| ReentrantLocks.ReentrantLock.NewCondition | CSharp/Locking/ReentrantLock.cs:111-113 | a new condition on the lock's monitor, named by the generator's next id "REL-n"; that id was never issued before, so conditions of one lock have distinct ids |
| ReentrantLocks.ReentrantLock.IsHeldByCurrentThread | CSharp/Locking/ReentrantLock.cs:131-135 | true iff the recorded holder is the caller |
| ConditionIdentifiers.NatToDecimal | CSharp/Locking/ConditionIds.cs:45 | the decimal form is non-empty, made only of digits, and a single digit exactly below 10 |
| ConditionIdentifiers.NatToDecimalInjective | CSharp/Locking/ConditionIds.cs:45 | distinct numbers have distinct decimal forms |
| ConditionIdentifiers.LongToStringInjective | CSharp/Locking/ConditionIds.cs:45 | distinct `long` values, negatives included, have distinct strings |
| ConditionIdentifiers.FormatIdInjective | CSharp/Locking/ConditionIds.cs:45 | every id starts with prefix + '-', and ids with one prefix are equal only for equal counters |
| ConditionIdentifiers.NewerIdIsFresh | CSharp/Locking/ConditionIds.cs:44-46 | an id made from a counter beyond every one used so far is not among the ids issued |
| ConditionIdentifiers.ConditionIds.constructor | CSharp/Locking/ConditionIds.cs:35-38 | the prefix and the starting counter are kept, and no id has been issued |
| ConditionIdentifiers.ConditionIds.Next | CSharp/Locking/ConditionIds.cs:44-46 | advances the counter by exactly one and returns prefix + "-" + the new counter; the id starts with the prefix and was never returned before |
| LockingQueues.BlockingQueue.constructor | CSharp/Collections/Concurrent/BlockingQueue.cs:40-43 | an empty queue on a new, free lock, whose condition has no waiters |
| LockingQueues.BlockingQueue.WithCapacity | CSharp/Collections/Concurrent/BlockingQueue.cs:45-49 | fails (the inner queue's ArgumentOutOfRangeException) iff the capacity is negative; otherwise an empty queue on a new, free lock |
| LockingQueues.BlockingQueue.FromCollection | CSharp/Collections/Concurrent/BlockingQueue.cs:51-55 | fails (the inner queue's ArgumentNullException) iff the collection is null; otherwise the collection's items in order, on a new, free lock whose condition has no waiters |
| LockingQueues.BlockingQueue.WithItems | CSharp/Collections/Concurrent/BlockingQueue.cs:51-55 | the non-null case: the items in order, on a new, free lock |
| LockingQueues.BlockingQueue.Enqueue | CSharp/Collections/Concurrent/BlockingQueue.cs:63-72 | appends the item at the back and signals the condition, so each waiter gets one token; the lock pair leaves the monitor as it was |
| LockingQueues.BlockingQueue.Dequeue | CSharp/Collections/Concurrent/BlockingQueue.cs:81-93 | on a non-empty queue, removes and returns the front, signals nothing, and leaves the monitor as it was |
| LockingQueues.BlockingQueue.Clear | CSharp/Collections/Concurrent/BlockingQueue.cs:98-106 | empties the queue without signalling |
| LockingQueues.BlockingQueue.Contains | CSharp/Collections/Concurrent/BlockingQueue.cs:117-125 | true iff the item occurs in the queue |
| LockingQueues.BlockingQueue.CopyTo | CSharp/Collections/Concurrent/BlockingQueue.cs:148-156 | fails on a null array, an index outside 0..length or too little room, leaving the array alone; otherwise writes the queue front first from the index on and no other slot |
| QueueCopies.CopyCheck | CSharp/Collections/Concurrent/BlockingQueue.cs:151 | the copy goes ahead iff the array is non-null and the index and the queue fit in it; an index below 0 or beyond the length is reported as out of range before the space check, as `Queue<T>.CopyTo` does |
| QueueCopies.CopyInto | CSharp/Collections/Concurrent/BlockingQueue.cs:151 | the copy loop writes exactly the given slots |
| LockingQueues.BlockingQueue.Peek | CSharp/Collections/Concurrent/BlockingQueue.cs:169-177 | returns the front without removing it; None (the InvalidOperationException) on an empty queue |
| LockingQueues.BlockingQueue.ToArray | CSharp/Collections/Concurrent/BlockingQueue.cs:183-191 | a new array with the contents front to back |
| LockingQueues.BlockingQueue.Count | CSharp/Collections/Concurrent/BlockingQueue.cs:196-206 | the queue's length |
| LockingQueues.LockPairRestores | CSharp/Collections/Concurrent/BlockingQueue.cs:63-106 | the Lock and Unlock in try/finally leave the count as it was, and a free lock free |
| LockingQueues.FifoScenario | CSharp/Collections/Concurrent/BlockingQueue.cs:63-93 | one thread that enqueues items into a new queue and then dequeues as many gets them back in order, and the lock is free between calls |
| MonitorQueues.BlockingQueue.constructor | CSharp/Concurrent/BlockingQueue.cs:36-38 | an empty queue with a free monitor |
| MonitorQueues.BlockingQueue.WithCapacity | CSharp/Concurrent/BlockingQueue.cs:40-42 | fails (the inner queue's ArgumentOutOfRangeException) iff the capacity is negative; otherwise an empty queue with a free monitor |
| MonitorQueues.BlockingQueue.FromCollection | CSharp/Concurrent/BlockingQueue.cs:44-46 | fails (the inner queue's ArgumentNullException) iff the collection is null; otherwise the collection's items in order, with a free monitor |
| MonitorQueues.BlockingQueue.WithItems | CSharp/Concurrent/BlockingQueue.cs:44-46 | the non-null case: the items in order, with a free monitor |
| MonitorQueues.BlockingQueue.Enqueue | CSharp/Concurrent/BlockingQueue.cs:54-59 | appends at the back and pulses once; the monitor is left as it was |
| MonitorQueues.BlockingQueue.Dequeue | CSharp/Concurrent/BlockingQueue.cs:68-76 | item, waits and the remaining queue are DequeueRun(queue, items arriving during each wait): it waits on the monitor only while the queue is empty |
| MonitorQueues.DequeueRunFifo | CSharp/Concurrent/BlockingQueue.cs:68-76 | Dequeue yields an item iff one ever arrives; a non-empty queue is served without waiting; the item, followed by the remaining queue, is exactly the old queue plus the arrivals it waited for, so order is FIFO |
| MonitorQueues.BlockingQueue.Clear | CSharp/Concurrent/BlockingQueue.cs:81-86 | empties the queue and pulses once |
| MonitorQueues.BlockingQueue.Contains | CSharp/Concurrent/BlockingQueue.cs:97-99 | true iff the item occurs in the queue |
| MonitorQueues.BlockingQueue.CopyTo | CSharp/Concurrent/BlockingQueue.cs:122-124 | the three failures leave the array alone; otherwise the queue is written front first from the index on |
| MonitorQueues.BlockingQueue.Peek | CSharp/Concurrent/BlockingQueue.cs:137-139 | the front without removal; None when the queue is empty |
| MonitorQueues.BlockingQueue.ToArray | CSharp/Concurrent/BlockingQueue.cs:145-147 | a new array with the contents front to back |
| MonitorQueues.BlockingQueue.Count | CSharp/Concurrent/BlockingQueue.cs:152-156 | the queue's length |
| Latches.CountDownLatch.Create | CSharp/Threading/CountDownLatch.cs:49-56 | rejects a count ≤ 0; otherwise a closed latch whose counter is the count |
| Latches.CountDownLatch.CountDown | CSharp/Threading/CountDownLatch.cs:61-65 | lowers the counter by one and opens the latch once the new value is ≤ 0; nothing closes it, and there is no lower guard |
| Latches.CountDownLatch.Await | CSharp/Threading/CountDownLatch.cs:71-73 | passes only once the latch is open, and changes nothing |
| Latches.CountDownLatch.CurrentCount | CSharp/Threading/CountDownLatch.cs:98-102 | the counter, which is ≤ 0 exactly when the latch is open |
| Latches.CountDownsFromFresh | CSharp/Threading/CountDownLatch.cs:49-65 | from a new latch of `count`, k CountDowns leave `count − k` and open it exactly when k ≥ count, so exactly `count` calls are needed |
| Latches.OpenStaysOpen | CSharp/Threading/CountDownLatch.cs:61-65 | an open latch stays open while further CountDowns push the counter below zero |
| Latches.CountDownToOpen | CSharp/Threading/CountDownLatch.cs:49-102 | counting a new latch down `count` times opens it with current count 0; a count ≤ 0 is rejected |
| AtomicBooleans.Encode | CSharp/Atomic/AtomicBoolean.cs:54 | the cell holds 0 or 1, and reading it back gives the boolean |
| AtomicBooleans.EncodeDecode | CSharp/Atomic/AtomicBoolean.cs:102-106 | on 0 and 1, comparing cells agrees with comparing booleans |
| AtomicBooleans.AtomicBoolean.constructor | CSharp/Atomic/AtomicBoolean.cs:45-48 | false |
| AtomicBooleans.AtomicBoolean.WithValue | CSharp/Atomic/AtomicBoolean.cs:53-55 | Get() returns the given value, and the cell is 0 or 1 |
| AtomicBooleans.AtomicBoolean.Get | CSharp/Atomic/AtomicBoolean.cs:63-65 | the boolean whose encoding is the cell |
| AtomicBooleans.AtomicBoolean.Set | CSharp/Atomic/AtomicBoolean.cs:73-75 | a following Get() returns the value; the cell stays 0 or 1 |
| AtomicBooleans.AtomicBoolean.GetAndSet | CSharp/Atomic/AtomicBoolean.cs:86-88 | returns the previous value and stores the new one |
| AtomicBooleans.AtomicBoolean.CompareAndSet | CSharp/Atomic/AtomicBoolean.cs:102-106 | true iff the current value equals `expected`; on true the value becomes `result`, on false it is unchanged |
| AtomicBooleans.AsBool | CSharp/Atomic/AtomicBoolean.cs:111-113 | the implicit cast is true iff the cell is 1, as Get is |
| Atomics.Atomic.constructor | CSharp/Atomic/Atomic.cs:41-44 | holds null |
| Atomics.Atomic.WithValue | CSharp/Atomic/Atomic.cs:49-61 | Get() returns the given reference |
| Atomics.Atomic.Set | CSharp/Atomic/Atomic.cs:69-71 | a following Get() returns the new reference |
| Atomics.Atomic.GetAndSet | CSharp/Atomic/Atomic.cs:82-84 | returns the old reference and stores the new one |
| Atomics.Atomic.CompareAndSet | CSharp/Atomic/Atomic.cs:98-100 | true iff the current reference equals `expected`; it stores `result` on success and leaves the value unchanged otherwise |
| Atomics.AsValue | CSharp/Atomic/Atomic.cs:105-107 | the implicit cast is the stored reference |
| ThreadLocals.ThreadLocalStatics.constructor | CSharp/Threading/ThreadLocal.cs:43-45 | the id counter starts at 0 and no thread has a dictionary |
| ThreadLocals.ThreadLocal.constructor | CSharp/Threading/ThreadLocal.cs:57-60 | takes the incremented counter as its id, an id no earlier instance got, and touches no stored value |
| ThreadLocals.ThreadLocal.Get | CSharp/Threading/ThreadLocal.cs:70-80 | with an entry for this id on the calling thread, returns it with no factory call and no change; otherwise calls the factory once and stores the result for this thread and id only |
| ThreadLocals.ThreadLocal.Set | CSharp/Threading/ThreadLocal.cs:89-95 | stores the instance for this thread and id, creating the thread's dictionary if needed |
| ThreadLocals.StoredFrame | CSharp/Threading/ThreadLocal.cs:70-95 | a store is what that thread then reads for that id; other threads' entries and this thread's other ids are unchanged |
| ThreadLocals.SetThenGet | CSharp/Threading/ThreadLocal.cs:57-95 | two instances get distinct ids; Set(x) then Get() on one thread returns x without calling the factory, and the other instance's slot on that thread keeps its presence and its value |

## Left out

- Blocking, interleaving and fairness are not modelled. A blocking step is an enabling `requires`: `Lock` and `Enqueue` need the monitor to be free or the caller's, `Dequeue` of the lock-based queue needs a non-empty queue, and latch `Await` needs an open latch.
- What other threads do during a wait is an input:
  - `LockCondition.Await` takes the number of Signals per wait;
  - the monitor queue's `Dequeue` takes the items enqueued per wait.
  When that input runs out, the caller counts as still waiting. Clears and Awaits by other threads during a wait are not modelled.
- MonitorQueues.BlockingQueue.Dequeue: items that arrive during a wait only append to the queue. A competing Dequeue by another consumer during the wait is not modelled, so the model never takes an item away from a waiting consumer. When the arrivals run out, the caller that is still waiting does one `Exit`. A reentrant caller (entered d > 0 times before) is then left owning the monitor at depth d, whereas a thread blocked in `Monitor.Wait` has released every level.
- LockingQueues.BlockingQueue.Dequeue: the `while (_queue.Count == 0) _notEmpty.Await()` loop is not modelled. It is replaced by the guard `queue != []`, so the wait inside this Dequeue is not modelled.
- `LockMonitor` is not part of this model. It is modelled as `System.Threading.Monitor` behaves: owner, reentry depth, `Wait`, and counted `Pulse` / `PulseAll`.
- TryLock timeouts are not modelled. Both overloads become one step whose outcome is whether the monitor can be entered.
- The timed `CountDownLatch.Await` overloads are not modelled. They return whether or not the latch opened, so they change nothing.
- ConditionIdentifiers.ConditionIds.Next: `AtomicLong.Increment` is unbounded here, so 64-bit wrap-around of the counter is not modelled.
- Latches.CountDownLatch.CountDown: `AtomicInt.PreDecrement` is unbounded here, so 32-bit wrap-around below `int.MinValue` is not modelled.
- ThreadLocals.ThreadLocal.constructor: `AtomicInt.Increment` is unbounded here, so 32-bit wrap-around of the id counter is not modelled.
- The atomicity and memory-model guarantees of `Interlocked` are not modelled; each operation is one sequential step.
- Atomics.Atomic.CompareAndSet: `T` is compared by value equality, not by reference identity.
- The factory of `ThreadLocal<T>` is a pure function. A factory with side effects, or one whose results differ between calls, is not modelled; the model counts the calls instead.
- The `[ThreadStatic]` dictionary is modelled as a map from thread id, held by one static-state object per `T`.
- The `capacity` argument of the queue constructors only decides failure. A negative capacity fails, as `new Queue<T>(capacity)` throws. Otherwise it only presizes the inner queue, which the model does not represent.
- `GetEnumerator` and `LockingEnumerator` are not modelled; they delegate to the inner queue's enumerator.
- `SingleThreadExecutor` is not modelled; it is thread lifecycle code.
- `ThreadHelper` is not modelled. The calling thread's id is the `me` parameter instead.
- The interfaces `ILock` and `ICondition` are not modelled; they contain no code. Their comments promise an exception when Await or Signal is called without holding the lock (CSharp/Locking/ILock.cs:87-88). The code does not check this itself; see the misuse lines below. They also promise that the lock is reacquired with its hold count restored after Await (CSharp/Locking/ILock.cs:91-92). The code does not keep this promise. Await neither saves nor restores `_lockHolder` and `_lockCount`, and every thread that Signals during the wait runs its own Lock/Unlock pair on them. The waiter therefore returns with the signaller as holder, and with a higher count if another thread locked and then waited meanwhile (ReentrantLocks.OthersLockDuringWait).
- LockConditions.LockCondition.Signal: a Signal by a thread that does not hold the lock is not modelled as an error. In the code, the tokens are pushed first and only then would the monitor's PulseAll raise SynchronizationLockException. Here the pulse is counted whoever calls it.
- LockConditions.LockCondition.Await: other threads' Lock/Unlock on the `ReentrantLock` during the wait are not modelled. Each such Lock sets `_lockHolder` to that thread and raises `_lockCount`, and its Unlock lowers the count but keeps that holder while the count stays above 0. So the waiter can come back without being the recorded holder, or with a higher count. OthersLockDuringWait states these effects on the lock state, but Await itself only states that the monitor's owner and depth are unchanged.
- LockConditions.LockCondition.Await: an Await by a thread that does not hold the lock is excluded by the requires `monitor.owner == Some(me)`. In the code, the caller would be added to the waiting set and then the monitor's Wait would raise SynchronizationLockException, leaving the caller registered.
- Monitors.LockMonitor.Pulse: the caller is not checked, unlike `Exit`; `System.Threading.Monitor.Pulse` by a non-owner raises SynchronizationLockException.
- Monitors.LockMonitor.PulseAll: the caller is not checked, for the same reason as Pulse.
- Monitors.LockMonitor.Wait: a Wait by a non-owner is excluded by a requires, not modelled as an exception. Every call in the model is made by the owner. The signals that other threads make during a wait are modelled as happening inside the owner's Wait, so checking the caller there would clash with that abstraction.
- LockConditions.LockCondition.constructor: the signal id is never null. Conditions get their ids only from NewCondition. With a null id, the loop `while (signal != _signalId)` would not run even once, so Await would return without waiting, and AwaitWaitsFirst would not hold.
- A `Thread` holder is identified by its thread id.
- The ConditionIds.cs doc comment promises ids that never repeat. The model proves this only for ids from one generator, as the class comment scopes it.
