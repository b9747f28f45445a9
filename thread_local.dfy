/** CSharp/Threading/ThreadLocal.cs: per-thread values keyed by instance id.
    The static members of `ThreadLocal<T>` (the id counter and the
    `[ThreadStatic]` dictionary, one per thread) are one `ThreadLocalStatics`
    object per `T`; a thread whose dictionary is still null has no entry in
    `instances`. */
module ThreadLocals {
  import opened Threads

  /** The dictionary `Instances` as `me` sees it; a null one has no entries. */
  function Entries<T>(instances: map<ThreadId, map<int, T>>, me: ThreadId): map<int, T>
  {
    if me in instances then instances[me] else map[]
  }

  /** `Instances[id] = x` on thread `me`, creating the dictionary if needed. */
  function Stored<T>(instances: map<ThreadId, map<int, T>>, me: ThreadId, id: int, x: T): map<ThreadId, map<int, T>>
  {
    instances[me := Entries(instances, me)[id := x]]
  }

  /** A store on one thread for one id is then what that thread reads for that
      id, and no other thread's entries nor any other id of this thread
      change. */
  lemma StoredFrame<T>(instances: map<ThreadId, map<int, T>>, me: ThreadId, id: int, x: T)
    ensures id in Entries(Stored(instances, me, id, x), me)
    ensures Entries(Stored(instances, me, id, x), me)[id] == x
    ensures forall other :: other != me ==> Entries(Stored(instances, me, id, x), other) == Entries(instances, other)
    ensures forall k :: k != id ==>
      (k in Entries(Stored(instances, me, id, x), me) <==> k in Entries(instances, me))
    ensures forall k :: k != id && k in Entries(instances, me) ==>
      Entries(Stored(instances, me, id, x), me)[k] == Entries(instances, me)[k]
  {
  }

  class ThreadLocalStatics<T> {
    /** `ThreadLocalIds`, the last id handed out. */
    var lastId: int
    /** The `[ThreadStatic]` dictionaries, per thread. */
    var instances: map<ThreadId, map<int, T>>
    /** Every id handed out so far. */
    ghost var issued: set<int>

    ghost predicate Valid()
      reads this
    {
      forall i :: i in issued ==> i <= lastId
    }

    /** The static constructor: the counter at 0, no thread has a dictionary. */
    constructor ()
      ensures Valid() && lastId == 0 && instances == map[] && issued == {}
    {
      lastId := 0;
      instances := map[];
      issued := {};
    }
  }

  class ThreadLocal<T> {
    const statics: ThreadLocalStatics<T>
    /** `_id` */
    const id: int
    /** `_factory` */
    const factory: () -> T
    /** How many times `_factory` has been called. */
    var factoryCalls: nat

    /** Takes the next id from the shared counter: never one handed out
        before. */
    constructor (statics: ThreadLocalStatics<T>, factory: () -> T)
      requires statics.Valid()
      modifies statics
      ensures this.statics == statics && this.factory == factory && factoryCalls == 0
      ensures statics.Valid() && id == old(statics.lastId) + 1 && statics.lastId == id
      ensures id !in old(statics.issued) && statics.issued == old(statics.issued) + {id}
      ensures statics.instances == old(statics.instances)
    {
      statics.lastId := statics.lastId + 1;
      statics.issued := statics.issued + {statics.lastId};
      this.statics := statics;
      this.id := statics.lastId;
      this.factory := factory;
      factoryCalls := 0;
    }

    /** The calling thread's value: the stored one, or else a new one from the
        factory, stored before it is returned. */
    method Get(me: ThreadId) returns (v: T)
      modifies this, statics
      ensures statics.lastId == old(statics.lastId) && statics.issued == old(statics.issued)
      ensures id in old(Entries(statics.instances, me)) ==>
        v == old(Entries(statics.instances, me))[id]
        && statics.instances == old(statics.instances) && factoryCalls == old(factoryCalls)
      ensures id !in old(Entries(statics.instances, me)) ==>
        v == factory() && statics.instances == Stored(old(statics.instances), me, id, v)
        && factoryCalls == old(factoryCalls) + 1
    {
      if me !in statics.instances {
        statics.instances := statics.instances[me := map[]];
      }
      if id !in statics.instances[me] {
        var made := factory();
        factoryCalls := factoryCalls + 1;
        statics.instances := statics.instances[me := statics.instances[me][id := made]];
      }
      v := statics.instances[me][id];
    }

    method Set(me: ThreadId, instance: T)
      modifies statics
      ensures statics.lastId == old(statics.lastId) && statics.issued == old(statics.issued)
      ensures statics.instances == Stored(old(statics.instances), me, id, instance)
    {
      if me !in statics.instances {
        statics.instances := statics.instances[me := map[]];
      }
      statics.instances := statics.instances[me := statics.instances[me][id := instance]];
    }
  }

  /** Two instances made one after the other share the statics but not an id,
      a Set on one thread is what a later Get there returns, without calling
      the factory, and the other instance's slot on that thread is not
      touched. */
  method SetThenGet<T>(statics: ThreadLocalStatics<T>, factory: () -> T, me: ThreadId, x: T)
    returns (first: ThreadLocal<T>, second: ThreadLocal<T>, v: T)
    requires statics.Valid()
    modifies statics
    ensures first.id != second.id
    ensures v == x && first.factoryCalls == 0
    ensures second.id !in Entries(statics.instances, me) <==> second.id !in old(Entries(statics.instances, me))
    ensures second.id in old(Entries(statics.instances, me)) ==>
              Entries(statics.instances, me)[second.id] == old(Entries(statics.instances, me))[second.id]
  {
    first := new ThreadLocal(statics, factory);
    second := new ThreadLocal(statics, factory);
    first.Set(me, x);
    StoredFrame(old(statics.instances), me, first.id, x);
    v := first.Get(me);
  }
}
