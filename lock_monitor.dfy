/** The blocking primitive under a lock. `LockMonitor` (used by
    CSharp/Locking/ReentrantLock.cs and CSharp/Locking/LockCondition.cs) is not
    part of this model's sources; it is modelled after the .NET monitor it
    wraps, which the older queue (CSharp/Concurrent/BlockingQueue.cs) also uses
    directly: a reentrant owner with an entry depth. Blocking becomes an
    enabling condition: a thread can take an `Enter` step only when the monitor
    is free or already its own. */
module Monitors {
  import opened Wrappers
  import opened Threads

  class LockMonitor {
    /** The thread currently inside the monitor, if any. */
    var owner: Option<ThreadId>
    /** How many times the owner has entered without exiting. */
    var depth: nat
    /** Completed `Wait` calls (release, block, wake, reacquire). */
    var waits: nat
    /** `Pulse` calls (wake one waiter). */
    var pulses: nat
    /** `PulseAll` calls (wake every waiter). */
    var pulseAlls: nat

    ghost predicate Valid()
      reads this
    {
      owner.None? <==> depth == 0
    }

    /** A thread can enter when nobody else is inside. */
    predicate CanEnter(me: ThreadId)
      reads this
    {
      owner == None || owner == Some(me)
    }

    constructor ()
      ensures Valid() && owner == None && depth == 0
      ensures waits == 0 && pulses == 0 && pulseAlls == 0
    {
      owner, depth := None, 0;
      waits, pulses, pulseAlls := 0, 0, 0;
    }

    /** The step at which a blocked `Enter` returns. */
    method Enter(me: ThreadId)
      requires Valid() && CanEnter(me)
      modifies this
      ensures Valid() && owner == Some(me) && depth == old(depth) + 1
      ensures waits == old(waits) && pulses == old(pulses) && pulseAlls == old(pulseAlls)
    {
      owner, depth := Some(me), depth + 1;
    }

    /** The step at which `TryEnter(timeout)` returns: it succeeds exactly when the
        monitor is free or already the caller's at that moment. */
    method TryEnter(me: ThreadId) returns (success: bool)
      requires Valid()
      modifies this
      ensures Valid() && success == old(CanEnter(me))
      ensures success ==> owner == Some(me) && depth == old(depth) + 1
      ensures !success ==> owner == old(owner) && depth == old(depth)
      ensures waits == old(waits) && pulses == old(pulses) && pulseAlls == old(pulseAlls)
    {
      success := CanEnter(me);
      if success {
        owner, depth := Some(me), depth + 1;
      }
    }

    /** Leave the monitor once. A caller that does not own it gets `false`
        (the monitor raises SynchronizationLockException) and nothing changes. */
    method Exit(me: ThreadId) returns (ok: bool)
      requires Valid()
      modifies this
      ensures Valid() && ok == (old(owner) == Some(me))
      ensures ok ==> depth == old(depth) - 1 && owner == (if depth == 0 then None else Some(me))
      ensures !ok ==> owner == old(owner) && depth == old(depth)
      ensures waits == old(waits) && pulses == old(pulses) && pulseAlls == old(pulseAlls)
    {
      ok := owner == Some(me);
      if ok {
        depth := depth - 1;
        if depth == 0 {
          owner := None;
        }
      }
    }

    /** One `Wait` by the owner: it releases the monitor, blocks until pulsed and
        reacquires it at the same depth before returning. */
    method Wait(me: ThreadId)
      requires Valid() && owner == Some(me)
      modifies this
      ensures Valid() && owner == old(owner) && depth == old(depth)
      ensures waits == old(waits) + 1 && pulses == old(pulses) && pulseAlls == old(pulseAlls)
    {
      waits := waits + 1;
    }

    method Pulse()
      modifies this
      ensures owner == old(owner) && depth == old(depth)
      ensures waits == old(waits) && pulses == old(pulses) + 1 && pulseAlls == old(pulseAlls)
    {
      pulses := pulses + 1;
    }

    method PulseAll()
      modifies this
      ensures owner == old(owner) && depth == old(depth)
      ensures waits == old(waits) && pulses == old(pulses) && pulseAlls == old(pulseAlls) + 1
    {
      pulseAlls := pulseAlls + 1;
    }
  }
}
