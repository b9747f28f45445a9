/** CSharp/Locking/LockCondition.cs: one condition of a `ReentrantLock`. All
    conditions of a lock block on the lock's single monitor; each condition
    routes its wake-ups through its OWN table of per-thread token stacks, in
    which every token is the condition's own id. */
module LockConditions {
  import opened Wrappers
  import opened Threads
  import opened HashStacks
  import opened Monitors

  /*
   * Signal: one more copy of the condition's id on the stack of every waiter.
   */

  /** The token table after one `Signal` of condition `id` with waiting set `waiters`. */
  function Signalled(t: map<ThreadId, seq<string>>, waiters: set<ThreadId>, id: string): map<ThreadId, seq<string>>
  {
    map k | k in t.Keys + waiters :: if k in waiters then StackAt(t, k) + [id] else t[k]
  }

  ghost predicate AllEqual(s: seq<string>, id: string)
  {
    forall i :: 0 <= i < |s| ==> s[i] == id
  }

  /** The condition's invariant: every stored token is the condition's own id. */
  ghost predicate OnlyToken(t: map<ThreadId, seq<string>>, id: string)
  {
    forall k :: k in t ==> AllEqual(t[k], id)
  }

  /** Signal gives each waiter exactly one more copy of the id, touches no other
      thread's stack, and with nobody waiting changes nothing. */
  lemma SignalDelivers(t: map<ThreadId, seq<string>>, waiters: set<ThreadId>, id: string)
    ensures forall k :: k in waiters ==> StackAt(Signalled(t, waiters, id), k) == StackAt(t, k) + [id]
    ensures forall k :: k !in waiters ==> StackAt(Signalled(t, waiters, id), k) == StackAt(t, k)
    ensures waiters == {} ==> Signalled(t, waiters, id) == t
  {
  }

  /** Signal stores nothing but the condition's id, so the invariant is kept. */
  lemma SignalKeepsOnlyToken(t: map<ThreadId, seq<string>>, waiters: set<ThreadId>, id: string)
    requires OnlyToken(t, id)
    ensures OnlyToken(Signalled(t, waiters, id), id)
  {
    var t' := Signalled(t, waiters, id);
    forall k | k in t'
      ensures AllEqual(t'[k], id)
    {
      if k in waiters {
        assert t'[k] == StackAt(t, k) + [id];
      }
    }
  }

  /** Signalling one more waiter is one more Push: the loop in `Signal` may visit
      the waiting set in any order. */
  lemma SignalOneMore(t: map<ThreadId, seq<string>>, done: set<ThreadId>, x: ThreadId, id: string)
    requires x !in done
    ensures Signalled(t, done + {x}, id) == Pushed(Signalled(t, done, id), x, id)
  {
    var a, b := Signalled(t, done + {x}, id), Pushed(Signalled(t, done, id), x, id);
    assert a.Keys == b.Keys;
    forall k | k in a
      ensures a[k] == b[k]
    {
    }
  }

  /** Pop keeps the invariant, and what it returns is the id or nothing. */
  lemma PopKeepsOnlyToken(t: map<ThreadId, seq<string>>, key: ThreadId, id: string)
    requires OnlyToken(t, id)
    ensures OnlyToken(Popped(t, key), id)
    ensures Top(t, key) == if StackAt(t, key) == [] then None else Some(id)
  {
  }

  /*
   * Await: the outcome of the wait loop for the calling thread.
   */

  /** `wakes`: Wait calls made; `exited`: the loop ended on the condition's own
      id; `leftover`: tokens left on the caller's stack. */
  datatype AwaitOutcome = AwaitOutcome(wakes: nat, exited: bool, leftover: nat)

  function Shifted(r: AwaitOutcome, n: nat): AwaitOutcome
  {
    r.(wakes := r.wakes + n)
  }

  function Sum(s: seq<nat>): nat
  {
    if s == [] then 0 else s[0] + Sum(s[1..])
  }

  /** The wait loop of `Await` for a caller that has `pending` tokens on its stack
      at entry, when other threads call `Signal` on this condition `signals[i]`
      times during its i-th wait. Every wake pops at most one token, and every
      token is the condition's id, so the loop ends at the first wake after which
      the stack is not empty. When `signals` runs out the caller is still
      blocked in a wait. */
  function AwaitRun(pending: nat, signals: seq<nat>): AwaitOutcome
    decreases |signals|
  {
    if signals == [] then AwaitOutcome(0, false, pending)
    else if pending + signals[0] > 0 then AwaitOutcome(1, true, pending + signals[0] - 1)
    else Shifted(AwaitRun(0, signals[1..]), 1)
  }

  /** One step of the wait loop from the i-th wait on. */
  lemma AwaitRunStep(pending: nat, signals: seq<nat>, i: nat)
    requires i < |signals|
    ensures pending + signals[i] > 0 ==>
      AwaitRun(pending, signals[i..]) == AwaitOutcome(1, true, pending + signals[i] - 1)
    ensures pending + signals[i] == 0 ==>
      AwaitRun(pending, signals[i..]) == Shifted(AwaitRun(0, signals[i + 1..]), 1)
  {
    assert signals[i..][0] == signals[i] && signals[i..][1..] == signals[i + 1..];
  }

  /** Await always waits before its first check (`signal` starts as null), never
      waits more often than it is woken, and exits exactly when some token
      reached its stack by then. */
  lemma {:induction false} AwaitWaitsFirst(pending: nat, signals: seq<nat>)
    ensures AwaitRun(pending, signals).wakes <= |signals|
    ensures signals != [] ==> AwaitRun(pending, signals).wakes >= 1
    ensures AwaitRun(pending, signals).exited <==> signals != [] && pending + Sum(signals) > 0
    decreases |signals|
  {
    if signals != [] && pending + signals[0] == 0 {
      AwaitWaitsFirst(0, signals[1..]);
    }
  }

  /** Tokens are conserved: an exit consumes exactly one token, a failed wake
      none, and everything else that was delivered stays on the caller's stack. */
  lemma {:induction false} AwaitConsumesOneToken(pending: nat, signals: seq<nat>)
    ensures var r := AwaitRun(pending, signals);
      r.wakes <= |signals| &&
      r.leftover + (if r.exited then 1 else 0) == pending + Sum(signals[..r.wakes])
    decreases |signals|
  {
    if signals != [] {
      var r := AwaitRun(pending, signals);
      if pending + signals[0] > 0 {
        assert signals[..1] == [signals[0]];
        assert Sum(signals[..1]) == signals[0] + Sum(signals[..1][1..]);
      } else {
        var tail := signals[1..];
        AwaitConsumesOneToken(0, tail);
        assert signals[..r.wakes] == [signals[0]] + tail[..r.wakes - 1];
        assert Sum(signals[..r.wakes]) == signals[0] + Sum(tail[..r.wakes - 1]);
      }
    }
  }

  /** Condition isolation: a caller with no pending token that is woken only by
      pulses of other conditions (no Signal of this one) never leaves Await. */
  lemma AwaitIgnoresForeignWakes(signals: seq<nat>)
    requires forall i :: 0 <= i < |signals| ==> signals[i] == 0
    ensures !AwaitRun(0, signals).exited && AwaitRun(0, signals).wakes == |signals|
  {
    AwaitWaitsFirst(0, signals);
    ZeroSum(signals);
    AwaitConsumesOneToken(0, signals);
  }

  lemma {:induction false} ZeroSum(s: seq<nat>)
    requires forall i :: 0 <= i < |s| ==> s[i] == 0
    ensures Sum(s) == 0
    decreases |s|
  {
    if s != [] {
      ZeroSum(s[1..]);
    }
  }

  /** A token left over from an earlier Await (two Signals during one wait, say)
      makes the next Await return at its first wake, whatever woke it. */
  lemma AwaitConsumesStaleToken(pending: nat, signals: seq<nat>)
    requires pending > 0 && signals != []
    ensures AwaitRun(pending, signals) == AwaitOutcome(1, true, pending + signals[0] - 1)
  {
  }

  /** `n` copies of the token `id`. */
  function Copies(n: nat, id: string): seq<string>
  {
    if n == 0 then [] else Copies(n - 1, id) + [id]
  }

  lemma {:induction false} SumAppend(a: seq<nat>, b: seq<nat>)
    ensures Sum(a + b) == Sum(a) + Sum(b)
    decreases |a|
  {
    if a != [] {
      assert (a + b)[0] == a[0] && (a + b)[1..] == a[1..] + b;
      SumAppend(a[1..], b);
      assert Sum(a + b) == a[0] + Sum(a[1..] + b);
    } else {
      assert a + b == b;
    }
  }

  lemma SumStep(s: seq<nat>, i: nat)
    requires i < |s|
    ensures Sum(s[..i + 1]) == Sum(s[..i]) + s[i]
  {
    assert s[..i + 1] == s[..i] + [s[i]];
    SumAppend(s[..i], [s[i]]);
    assert [s[i]][1..] == [];
  }

  /** Every thread other than `me` has gained exactly `n` tokens since `t0` if
      it was waiting (in `waiters`), and none otherwise. */
  ghost predicate OthersGot(t0: map<ThreadId, seq<string>>, t: map<ThreadId, seq<string>>,
                            waiters: set<ThreadId>, me: ThreadId, id: string, n: nat)
  {
    forall k :: k != me ==> GotAt(t0, t, waiters, id, n, k)
  }

  /** Thread `k` has gained `n` tokens since `t0` if it was waiting, none otherwise. */
  ghost predicate GotAt(t0: map<ThreadId, seq<string>>, t: map<ThreadId, seq<string>>,
                        waiters: set<ThreadId>, id: string, n: nat, k: ThreadId)
  {
    StackAt(t, k) == StackAt(t0, k) + Copies(if k in waiters then n else 0, id)
  }

  /** Nothing has been gained yet. */
  lemma OthersGotNothing(t: map<ThreadId, seq<string>>, waiters: set<ThreadId>, me: ThreadId, id: string)
    ensures OthersGot(t, t, waiters, me, id, 0)
  {
    forall k | k != me
      ensures GotAt(t, t, waiters, id, 0, k)
    {
      assert StackAt(t, k) + [] == StackAt(t, k);
    }
  }

  /** A Signal while `me` is among the waiters gives every other waiter one
      more token. */
  lemma OthersGotSignal(t0: map<ThreadId, seq<string>>, t: map<ThreadId, seq<string>>,
                        waiters: set<ThreadId>, me: ThreadId, id: string, n: nat)
    requires OthersGot(t0, t, waiters, me, id, n)
    ensures OthersGot(t0, Signalled(t, waiters, id), waiters, me, id, n + 1)
  {
    var t', n' := Signalled(t, waiters, id), n + 1;
    forall k | k != me
      ensures GotAt(t0, t', waiters, id, n', k)
    {
      assert GotAt(t0, t, waiters, id, n, k);
      if k in waiters {
        assert StackAt(t', k) == StackAt(t, k) + [id];
        assert StackAt(t0, k) + Copies(n, id) + [id] == StackAt(t0, k) + Copies(n + 1, id);
      } else {
        assert StackAt(t', k) == StackAt(t, k);
      }
    }
  }

  /** Whether `me` itself is listed makes no difference. */
  lemma OthersGotWaiters(t0: map<ThreadId, seq<string>>, t: map<ThreadId, seq<string>>,
                         waiters: set<ThreadId>, me: ThreadId, id: string, n: nat)
    requires OthersGot(t0, t, waiters + {me}, me, id, n)
    ensures OthersGot(t0, t, waiters, me, id, n)
  {
    forall k | k != me
      ensures GotAt(t0, t, waiters, id, n, k)
    {
      assert GotAt(t0, t, waiters + {me}, id, n, k);
    }
  }

  /** Gains add up. */
  lemma OthersGotThen(t0: map<ThreadId, seq<string>>, t1: map<ThreadId, seq<string>>, t2: map<ThreadId, seq<string>>,
                      waiters: set<ThreadId>, me: ThreadId, id: string, n: nat, m: nat)
    requires OthersGot(t0, t1, waiters, me, id, n) && OthersGot(t1, t2, waiters, me, id, m)
    ensures OthersGot(t0, t2, waiters, me, id, n + m)
  {
    var sum := n + m;
    forall k | k != me
      ensures GotAt(t0, t2, waiters, id, sum, k)
    {
      GotAtThen(t0, t1, t2, waiters, id, n, m, k);
    }
  }

  /** Gains add up, for one thread. */
  lemma GotAtThen(t0: map<ThreadId, seq<string>>, t1: map<ThreadId, seq<string>>, t2: map<ThreadId, seq<string>>,
                  waiters: set<ThreadId>, id: string, n: nat, m: nat, k: ThreadId)
    requires GotAt(t0, t1, waiters, id, n, k) && GotAt(t1, t2, waiters, id, m, k)
    ensures GotAt(t0, t2, waiters, id, n + m, k)
  {
    if k in waiters {
      CopiesAdd(n, m, id);
      var a, b, c := StackAt(t0, k), Copies(n, id), Copies(m, id);
      assert StackAt(t1, k) == a + b && StackAt(t2, k) == StackAt(t1, k) + c;
      assert (a + b) + c == a + (b + c);
    } else {
      assert StackAt(t0, k) + [] == StackAt(t0, k) && StackAt(t1, k) + [] == StackAt(t1, k);
    }
  }

  lemma {:induction false} CopiesAdd(n: nat, m: nat, id: string)
    ensures Copies(n, id) + Copies(m, id) == Copies(n + m, id)
    decreases m
  {
    if m > 0 {
      CopiesAdd(n, m - 1, id);
      assert Copies(n, id) + (Copies(m - 1, id) + [id]) == (Copies(n, id) + Copies(m - 1, id)) + [id];
    }
  }

  /** The caller's Pop leaves every other thread's stack alone. */
  lemma OthersGotPop(t0: map<ThreadId, seq<string>>, t: map<ThreadId, seq<string>>,
                     waiters: set<ThreadId>, me: ThreadId, id: string, n: nat)
    requires OthersGot(t0, t, waiters, me, id, n)
    ensures OthersGot(t0, Popped(t, me), waiters, me, id, n)
  {
    PopKeepsKeys(t, me);
    forall k | k != me
      ensures GotAt(t0, Popped(t, me), waiters, id, n, k)
    {
      assert GotAt(t0, t, waiters, id, n, k);
    }
  }

  class LockCondition {
    /** `_signalId`: this condition's id, from the lock's generator. */
    const signalId: string
    /** `_monitor`: the monitor of the lock this condition belongs to. */
    const monitor: LockMonitor
    /** `_threadSignals`: this condition's own token stacks, keyed by thread. */
    const threadSignals: HashStack<ThreadId, string>
    /** `_waitingThreads`: threads currently inside `Await`. */
    var waitingThreads: set<ThreadId>

    ghost predicate Valid()
      reads this, threadSignals
    {
      OnlyToken(threadSignals.table, signalId)
    }

    /** The number of tokens waiting on `t`'s stack. */
    function Pending(t: ThreadId): nat
      reads this, threadSignals
    {
      threadSignals.CountFor(t)
    }

    constructor (signalId: string, monitor: LockMonitor)
      ensures Valid() && this.signalId == signalId && this.monitor == monitor
      ensures fresh(threadSignals) && threadSignals.table == map[] && waitingThreads == {}
    {
      this.signalId := signalId;
      this.monitor := monitor;
      waitingThreads := {};
      threadSignals := new HashStack<ThreadId, string>();
    }

    /** Push the id once onto the stack of every waiting thread, in whatever
        order the set is visited, then pulse the monitor. */
    method Signal()
      requires Valid()
      modifies threadSignals, monitor
      ensures Valid() && waitingThreads == old(waitingThreads)
      ensures threadSignals.table == Signalled(old(threadSignals.table), waitingThreads, signalId)
      ensures monitor.pulseAlls == old(monitor.pulseAlls) + 1
      ensures monitor.owner == old(monitor.owner) && monitor.depth == old(monitor.depth)
      ensures monitor.waits == old(monitor.waits) && monitor.pulses == old(monitor.pulses)
    {
      var todo := waitingThreads;
      ghost var done: set<ThreadId> := {};
      while todo != {}
        invariant todo + done == waitingThreads && todo !! done
        invariant threadSignals.table == Signalled(old(threadSignals.table), done, signalId)
        modifies threadSignals
        decreases todo
      {
        var t :| t in todo;
        SignalOneMore(old(threadSignals.table), done, t, signalId);
        threadSignals.Push(t, signalId);
        todo, done := todo - {t}, done + {t};
      }
      assert threadSignals.table == Signalled(old(threadSignals.table), waitingThreads, signalId);
      SignalKeepsOnlyToken(old(threadSignals.table), waitingThreads, signalId);
      monitor.PulseAll();
    }

    /** `count` Signals of this condition made by other threads while `me`
        waits: `me` and every other waiter each gain `count` tokens. */
    method SignalWhileWaiting(me: ThreadId, count: nat)
      requires Valid() && me in waitingThreads
      modifies threadSignals, monitor
      ensures Valid() && Pending(me) == old(Pending(me)) + count
      ensures OthersGot(old(threadSignals.table), threadSignals.table, waitingThreads, me, signalId, count)
      ensures monitor.owner == old(monitor.owner) && monitor.depth == old(monitor.depth)
      ensures monitor.waits == old(monitor.waits) && monitor.pulseAlls == old(monitor.pulseAlls) + count
    {
      var k := 0;
      OthersGotNothing(threadSignals.table, waitingThreads, me, signalId);
      while k < count
        invariant k <= count
        invariant Valid() && Pending(me) == old(Pending(me)) + k
        invariant OthersGot(old(threadSignals.table), threadSignals.table, waitingThreads, me, signalId, k)
        invariant monitor.owner == old(monitor.owner) && monitor.depth == old(monitor.depth)
        invariant monitor.waits == old(monitor.waits) && monitor.pulseAlls == old(monitor.pulseAlls) + k
        modifies threadSignals, monitor
      {
        SignalDelivers(threadSignals.table, waitingThreads, signalId);
        OthersGotSignal(old(threadSignals.table), threadSignals.table, waitingThreads, me, signalId, k);
        Signal();
        k := k + 1;
      }
    }

    /** One pass of the wait loop: wait, receive the `count` Signals other
        threads make meanwhile, then pop one token from the caller's stack.
        The pop finds the condition's id exactly when a token is there; every
        other waiting thread, which had gained `n` tokens since `t0`, now has
        gained `n + count`. */
    method WakeOnce(me: ThreadId, count: nat, ghost t0: map<ThreadId, seq<string>>, ghost n: nat)
      returns (signal: Option<string>, ghost gained: nat)
      requires Valid() && monitor.Valid() && monitor.owner == Some(me) && me in waitingThreads
      requires OthersGot(t0, threadSignals.table, waitingThreads, me, signalId, n)
      modifies threadSignals, monitor
      ensures Valid() && monitor.Valid() && monitor.owner == Some(me) && monitor.depth == old(monitor.depth)
      ensures monitor.waits == old(monitor.waits) + 1
      ensures signal == if old(Pending(me)) + count > 0 then Some(signalId) else None
      ensures Pending(me) == if old(Pending(me)) + count > 0 then old(Pending(me)) + count - 1 else 0
      ensures gained == n + count && OthersGot(t0, threadSignals.table, waitingThreads, me, signalId, gained)
    {
      monitor.Wait(me);
      // other threads signal this condition while the caller is blocked
      SignalWhileWaiting(me, count);
      PopKeepsOnlyToken(threadSignals.table, me, signalId);
      PopKeepsKeys(threadSignals.table, me);
      OthersGotPop(old(threadSignals.table), threadSignals.table, waitingThreads, me, signalId, count);
      OthersGotThen(t0, old(threadSignals.table), Popped(threadSignals.table, me), waitingThreads, me, signalId, n, count);
      signal := threadSignals.Pop(me);
      gained := n + count;
    }

    /** Register, then wait; after each wake pop one token and leave only on the
        condition's own id; finally deregister. The caller must be inside the
        monitor (Wait needs it). `signalsDuringWait[i]` is the number of `Signal`
        calls other threads make on this condition during the i-th wait; if the
        schedule runs out first, the caller is still blocked (`exited` false). */
    method Await(me: ThreadId, signalsDuringWait: seq<nat>) returns (wakes: nat, exited: bool)
      requires Valid() && monitor.Valid() && monitor.owner == Some(me)
      modifies this, threadSignals, monitor
      ensures Valid() && monitor.Valid()
      ensures AwaitOutcome(wakes, exited, Pending(me)) == AwaitRun(old(Pending(me)), signalsDuringWait)
      ensures exited ==> waitingThreads == old(waitingThreads) - {me}
      ensures !exited ==> waitingThreads == old(waitingThreads) + {me}
      ensures monitor.owner == old(monitor.owner) && monitor.depth == old(monitor.depth)
      ensures monitor.waits == old(monitor.waits) + wakes && wakes <= |signalsDuringWait|
      ensures OthersGot(old(threadSignals.table), threadSignals.table, old(waitingThreads), me, signalId,
                        Sum(signalsDuringWait[..wakes]))
    {
      ghost var p0 := Pending(me);
      ghost var t0 := threadSignals.table;
      waitingThreads := waitingThreads + {me};
      var signal: Option<string> := None;
      wakes := 0;
      ghost var got: nat := 0;
      OthersGotNothing(t0, waitingThreads, me, signalId);
      while signal != Some(signalId) && wakes < |signalsDuringWait|
        invariant Valid() && monitor.Valid() && monitor.owner == Some(me)
        invariant monitor.depth == old(monitor.depth) && monitor.waits == old(monitor.waits) + wakes
        invariant waitingThreads == old(waitingThreads) + {me}
        invariant wakes <= |signalsDuringWait| && got == Sum(signalsDuringWait[..wakes])
        invariant signal == None || signal == Some(signalId)
        invariant signal == None ==>
          AwaitRun(p0, signalsDuringWait) == Shifted(AwaitRun(Pending(me), signalsDuringWait[wakes..]), wakes)
        invariant signal == Some(signalId) ==>
          AwaitRun(p0, signalsDuringWait) == AwaitOutcome(wakes, true, Pending(me))
        invariant OthersGot(t0, threadSignals.table, waitingThreads, me, signalId, got)
        decreases |signalsDuringWait| - wakes
      {
        AwaitRunStep(Pending(me), signalsDuringWait, wakes);
        signal, got := WakeOnce(me, signalsDuringWait[wakes], t0, got);
        SumStep(signalsDuringWait, wakes);
        wakes := wakes + 1;
      }
      OthersGotWaiters(t0, threadSignals.table, old(waitingThreads), me, signalId, got);
      exited := signal == Some(signalId);
      if exited {
        waitingThreads := waitingThreads - {me};
      }
    }
  }

  /** Conditions of one lock share its monitor but each has its own stacks and
      waiters (NewCondition allocates a fresh HashStack): a Signal on `a`
      delivers only to `a`'s waiters and leaves `b` exactly as it was. */
  method SignalLeavesOtherCondition(a: LockCondition, b: LockCondition)
    requires a.Valid() && b.Valid() && a.threadSignals != b.threadSignals
    modifies a.threadSignals, a.monitor
    ensures a.Valid() && b.Valid()
    ensures a.threadSignals.table == Signalled(old(a.threadSignals.table), a.waitingThreads, a.signalId)
    ensures b.threadSignals.table == old(b.threadSignals.table) && b.waitingThreads == old(b.waitingThreads)
  {
    a.Signal();
  }
}
