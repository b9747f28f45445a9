/** CSharp/Locking/ReentrantLock.cs: a reentrant lock kept as a holder and an
    unsigned 32-bit hold count on top of a monitor, and the factory of the
    lock's conditions. */
module ReentrantLocks {
  import opened Wrappers
  import opened Threads
  import opened Monitors
  import opened ConditionIdentifiers
  import opened LockConditions

  /** C#'s `uint`. */
  newtype uint32 = x: int | 0 <= x < 0x1_0000_0000

  const UINT32_MAX: uint32 := 0xFFFF_FFFF

  /** `c++` on a `uint` in an unchecked context: wraps from the maximum to 0. */
  function Inc32(c: uint32): uint32
  {
    ((c as int + 1) % 0x1_0000_0000) as uint32
  }

  /** `--c` on a `uint` in an unchecked context: wraps from 0 to the maximum. */
  function Dec32(c: uint32): uint32
  {
    ((c as int - 1) % 0x1_0000_0000) as uint32
  }

  /** `_lockHolder` (null is `None`) and `_lockCount`. */
  datatype LockState = LockState(holder: Option<ThreadId>, count: uint32)

  const Unheld := LockState(None, 0)

  /** The bookkeeping of `Lock` (and of a successful `TryLock`) once the monitor
      has been entered. */
  function AfterLock(s: LockState, me: ThreadId): LockState
  {
    LockState(Some(me), Inc32(s.count))
  }

  /** The bookkeeping of `Unlock`: decrement; `<= 0` on an unsigned value holds
      only for 0, and then the holder is cleared. There is no holder check. */
  function AfterUnlock(s: LockState): LockState
  {
    var c := Dec32(s.count);
    if c <= 0 then LockState(None, 0) else LockState(s.holder, c)
  }

  /** The state after `k` Locks by one thread. */
  function LockTimes(s: LockState, me: ThreadId, k: nat): LockState
    decreases k
  {
    if k == 0 then s else AfterLock(LockTimes(s, me, k - 1), me)
  }

  /** The state after `k` Unlocks. */
  function UnlockTimes(s: LockState, k: nat): LockState
    decreases k
  {
    if k == 0 then s else UnlockTimes(AfterUnlock(s), k - 1)
  }

  lemma Inc32BelowMax(c: uint32)
    requires c < UINT32_MAX
    ensures Inc32(c) as int == c as int + 1
  {
    assert 0 <= c as int + 1 < 0x1_0000_0000;
  }

  lemma Dec32AboveZero(c: uint32)
    requires c > 0
    ensures Dec32(c) as int == c as int - 1
  {
    assert 0 <= c as int - 1 < 0x1_0000_0000;
  }

  /** A hold count is positive exactly when there is a holder. */
  ghost predicate HoldInvariant(s: LockState)
  {
    s.count > 0 <==> s.holder.Some?
  }

  /** Lock makes the caller the holder and adds one to the count, which wraps
      to 0 only from the maximum. */
  lemma LockCounts(s: LockState, me: ThreadId)
    ensures AfterLock(s, me).holder == Some(me)
    ensures s.count < UINT32_MAX ==> AfterLock(s, me).count as int == s.count as int + 1
    ensures s.count == UINT32_MAX ==> AfterLock(s, me).count == 0
  {
  }

  /** Unlock from n > 1 gives n - 1 with the same holder; from 1 it frees the
      lock; from 0 the counter wraps to the maximum and the holder is kept. */
  lemma UnlockCases(s: LockState)
    ensures s.count > 1 ==> AfterUnlock(s) == LockState(s.holder, s.count - 1)
    ensures s.count == 1 ==> AfterUnlock(s) == Unheld
    ensures s.count == 0 ==> AfterUnlock(s) == LockState(s.holder, UINT32_MAX)
  {
  }

  /** Unlock on a free lock leaves a huge count with no holder. */
  lemma UnlockOfFreeLockBreaksInvariant()
    ensures HoldInvariant(Unheld)
    ensures AfterUnlock(Unheld) == LockState(None, UINT32_MAX) && !HoldInvariant(AfterUnlock(Unheld))
  {
  }

  /** When Unlock is only called on a held lock (and Lock never overflows),
      a positive count goes with a holder. */
  lemma HoldInvariantPreserved(s: LockState, me: ThreadId)
    requires HoldInvariant(s)
    ensures s.count < UINT32_MAX ==> HoldInvariant(AfterLock(s, me))
    ensures s.count > 0 ==> HoldInvariant(AfterUnlock(s))
  {
  }

  /** One Lock followed by one Unlock restores the count; the holder is restored
      when the lock was free or already the caller's. */
  lemma LockThenUnlock(s: LockState, me: ThreadId)
    ensures AfterUnlock(AfterLock(s, me)).count == s.count
    ensures AfterUnlock(AfterLock(s, me)).holder == if s.count == 0 then None else Some(me)
    ensures s == Unheld || (s.holder == Some(me) && s.count > 0) ==> AfterUnlock(AfterLock(s, me)) == s
  {
  }

  /** What a waiter inside `Await` finds when it returns, if other threads used
      the lock during its wait. The waiter held the lock with count `s.count`.
      A signaller's Lock/Unlock pair leaves the count but makes itself the
      holder, so `IsHeldByCurrentThread` is false for the waiter. If another
      thread also entered and then blocked in its own Await before the
      signaller came, the count is one higher. Neither holder nor count is
      restored. */
  lemma OthersLockDuringWait(s: LockState, waiter: ThreadId, other: ThreadId, signaller: ThreadId)
    requires s.holder == Some(waiter) && 0 < s.count && s.count as int + 2 <= UINT32_MAX as int
    requires signaller != waiter
    ensures AfterUnlock(AfterLock(s, signaller)) == LockState(Some(signaller), s.count)
    ensures AfterUnlock(AfterLock(s, signaller)).holder != Some(waiter)
    ensures AfterUnlock(AfterLock(AfterLock(s, other), signaller)).count as int == s.count as int + 1
  {
    LockThenUnlock(s, signaller);
    var t := AfterLock(s, other);
    Inc32BelowMax(s.count);
    LockThenUnlock(t, signaller);
  }

  lemma {:induction false} LockTimesFromFree(me: ThreadId, k: nat)
    requires k <= UINT32_MAX as int
    ensures LockTimes(Unheld, me, k) == if k == 0 then Unheld else LockState(Some(me), k as uint32)
    decreases k
  {
    if k > 0 {
      LockTimesFromFree(me, k - 1);
      var before := LockTimes(Unheld, me, k - 1);
      Inc32BelowMax(before.count);
    }
  }

  lemma {:induction false} UnlockTimesFromHeld(me: ThreadId, n: nat, j: nat)
    requires j <= n && 1 <= n <= UINT32_MAX as int
    ensures UnlockTimes(LockState(Some(me), n as uint32), j)
      == if j == n then Unheld else LockState(Some(me), (n - j) as uint32)
    decreases j
  {
    if j > 0 {
      var held := LockState(Some(me), n as uint32);
      Dec32AboveZero(n as uint32);
      assert UnlockTimes(held, j) == UnlockTimes(AfterUnlock(held), j - 1);
      if n > 1 {
        assert AfterUnlock(held) == LockState(Some(me), (n - 1) as uint32);
        UnlockTimesFromHeld(me, n - 1, j - 1);
      } else {
        assert AfterUnlock(held) == Unheld;
      }
    }
  }

  /** Reentrancy: k Locks by one thread and then k Unlocks return the lock to
      free, and the thread stays the holder until the last Unlock. */
  lemma ReentrantRoundTrip(me: ThreadId, k: nat)
    requires k <= UINT32_MAX as int
    ensures UnlockTimes(LockTimes(Unheld, me, k), k) == Unheld
    ensures forall j :: 0 <= j < k ==> UnlockTimes(LockTimes(Unheld, me, k), j).holder == Some(me)
  {
    LockTimesFromFree(me, k);
    if k > 0 {
      UnlockTimesFromHeld(me, k, k);
      forall j | 0 <= j < k
        ensures UnlockTimes(LockTimes(Unheld, me, k), j).holder == Some(me)
      {
        UnlockTimesFromHeld(me, k, j);
      }
    }
  }

  class ReentrantLock {
    /** `_monitor`: shared by the lock and all its conditions. */
    const monitor: LockMonitor
    /** `_ids`: the generator of this lock's condition ids. */
    const ids: ConditionIds
    var holder: Option<ThreadId>
    var count: uint32

    function State(): LockState
      reads this
    {
      LockState(holder, count)
    }

    ghost predicate Valid()
      reads this, monitor, ids
    {
      monitor.Valid() && ids.Valid() && ids.prefix == "REL"
    }

    /** A free lock whose conditions will be named `REL-2`, `REL-3`, ... */
    constructor ()
      ensures Valid() && State() == Unheld && fresh(monitor) && fresh(ids)
      ensures monitor.owner == None && ids.origin == 1 && ids.ids == 1 && ids.issued == []
    {
      ids := new ConditionIds("REL", 1);
      monitor := new LockMonitor();
      holder := None;
      count := 0;
    }

    /** Enter the monitor (the caller blocks until it is free or its own), then
        add one to the count and record the caller as holder. */
    method Lock(me: ThreadId)
      requires Valid() && monitor.CanEnter(me)
      modifies this, monitor
      ensures Valid() && State() == AfterLock(old(State()), me)
      ensures monitor.owner == Some(me) && monitor.depth == old(monitor.depth) + 1
      ensures monitor.waits == old(monitor.waits) && monitor.pulseAlls == old(monitor.pulseAlls)
    {
      monitor.Enter(me);
      count := Inc32(count);
      holder := Some(me);
    }

    /** Both `TryLock` overloads: on success exactly what `Lock` does; on
        failure (the timeout ran out) nothing changes. */
    method TryLock(me: ThreadId) returns (success: bool)
      requires Valid()
      modifies this, monitor
      ensures Valid() && success == old(monitor.CanEnter(me))
      ensures success ==> State() == AfterLock(old(State()), me)
      ensures success ==> monitor.owner == Some(me) && monitor.depth == old(monitor.depth) + 1
      ensures !success ==> State() == old(State())
      ensures !success ==> monitor.owner == old(monitor.owner) && monitor.depth == old(monitor.depth)
      ensures monitor.waits == old(monitor.waits) && monitor.pulseAlls == old(monitor.pulseAlls)
    {
      success := monitor.TryEnter(me);
      if success {
        count := Inc32(count);
        holder := Some(me);
      }
    }

    /** Decrement the count (clearing the holder when it reaches 0) whoever the
        caller is, then exit the monitor. `exited` is false when the caller does
        not own the monitor: the exit then fails, after the count has changed. */
    method Unlock(me: ThreadId) returns (exited: bool)
      requires Valid()
      modifies this, monitor
      ensures Valid() && State() == AfterUnlock(old(State()))
      ensures exited == (old(monitor.owner) == Some(me))
      ensures exited ==> monitor.depth == old(monitor.depth) - 1
      ensures exited ==> monitor.owner == if monitor.depth == 0 then None else Some(me)
      ensures !exited ==> monitor.owner == old(monitor.owner) && monitor.depth == old(monitor.depth)
      ensures monitor.waits == old(monitor.waits) && monitor.pulseAlls == old(monitor.pulseAlls)
    {
      count := Dec32(count);
      if count <= 0 {
        count := 0;
        holder := None;
      }
      exited := monitor.Exit(me);
    }

    /** A new condition on this lock's monitor, named by the next id of the
        lock's generator: no two conditions of one lock share an id. */
    method NewCondition() returns (c: LockCondition)
      requires Valid()
      modifies ids
      ensures Valid() && fresh(c) && fresh(c.threadSignals) && c.Valid()
      ensures c.monitor == monitor && c.waitingThreads == {} && c.threadSignals.table == map[]
      ensures c.signalId == FormatId("REL", ids.ids) && ids.ids == old(ids.ids) + 1
      ensures c.signalId !in old(ids.issued) && ids.issued == old(ids.issued) + [c.signalId]
    {
      var id := ids.Next();
      c := new LockCondition(id, monitor);
    }

    /** Compares the recorded holder with the caller; it does not consult the
        monitor, which an Unlock by another thread can leave owned by the
        caller after the holder was cleared. */
    predicate IsHeldByCurrentThread(me: ThreadId)
      reads this
      ensures IsHeldByCurrentThread(me) <==> State().holder == Some(me)
    {
      holder == Some(me)
    }
  }
}
