/** CSharp/Collections/HashStack.cs: a dictionary whose buckets are stacks,
    created lazily by Push. `LockCondition` uses one as its table of pending
    signal tokens per thread. */
module HashStacks {
  import opened Wrappers

  /*
   * Specification level: the dictionary's content as a map from key to bucket.
   * The top of every stack is the LAST element of its sequence.
   */

  /** The bucket under `key`; an absent key has the empty stack. */
  function StackAt<K, V>(t: map<K, seq<V>>, key: K): seq<V>
  {
    if key in t then t[key] else []
  }

  /** The table after `Push(key, value)`. */
  function Pushed<K, V>(t: map<K, seq<V>>, key: K, value: V): map<K, seq<V>>
  {
    t[key := StackAt(t, key) + [value]]
  }

  /** What `Pop(key)` returns: the top of the bucket, `None` (default(U)) when the
      key is absent or its stack is empty. */
  function Top<K, V>(t: map<K, seq<V>>, key: K): Option<V>
  {
    var s := StackAt(t, key);
    if s == [] then None else Some(s[|s| - 1])
  }

  /** The table after `Pop(key)`: the top is dropped, and the key stays even when
      its stack becomes empty. */
  function Popped<K, V>(t: map<K, seq<V>>, key: K): map<K, seq<V>>
  {
    if key in t && t[key] != [] then t[key := t[key][..|t[key]| - 1]] else t
  }

  /** The table after pushing `values` in order under one key. */
  function PushAll<K, V>(t: map<K, seq<V>>, key: K, values: seq<V>): map<K, seq<V>>
    decreases |values|
  {
    if values == [] then t else PushAll(Pushed(t, key, values[0]), key, values[1..])
  }

  /** The results of `n` successive `Pop(key)` calls, and the table left behind. */
  function PopMany<K, V>(t: map<K, seq<V>>, key: K, n: nat): (seq<Option<V>>, map<K, seq<V>>)
    decreases n
  {
    if n == 0 then ([], t)
    else
      var rest := PopMany(Popped(t, key), key, n - 1);
      ([Top(t, key)] + rest.0, rest.1)
  }

  /** Push adds exactly one element to `key`'s stack, leaves every other key's
      stack alone, and adds a key to the table exactly when `key` was absent. */
  lemma PushFrame<K, V>(t: map<K, seq<V>>, key: K, value: V)
    ensures StackAt(Pushed(t, key, value), key) == StackAt(t, key) + [value]
    ensures |StackAt(Pushed(t, key, value), key)| == |StackAt(t, key)| + 1
    ensures forall k :: k != key ==> StackAt(Pushed(t, key, value), k) == StackAt(t, k)
    ensures Pushed(t, key, value).Keys == t.Keys + {key}
    ensures |Pushed(t, key, value)| == if key in t then |t| else |t| + 1
  {
  }

  /** Pop right after Push(key, value) returns `value` and restores the bucket. */
  lemma PopAfterPush<K, V>(t: map<K, seq<V>>, key: K, value: V)
    ensures Top(Pushed(t, key, value), key) == Some(value)
    ensures Popped(Pushed(t, key, value), key) == t[key := StackAt(t, key)]
  {
    var s := StackAt(t, key);
    assert (s + [value])[..|s|] == s;
  }

  /** Pop on an absent key or an empty stack returns default(U) and changes nothing. */
  lemma PopOnEmpty<K, V>(t: map<K, seq<V>>, key: K)
    requires StackAt(t, key) == []
    ensures Top(t, key) == None && Popped(t, key) == t
  {
  }

  /** Pop never deletes a key, so the number of keys is unchanged, and it removes
      exactly one element from a non-empty stack, touching no other key. */
  lemma PopKeepsKeys<K, V>(t: map<K, seq<V>>, key: K)
    ensures Popped(t, key).Keys == t.Keys && |Popped(t, key)| == |t|
    ensures StackAt(t, key) != [] ==> StackAt(Popped(t, key), key) + [Top(t, key).value] == StackAt(t, key)
    ensures forall k :: k != key ==> StackAt(Popped(t, key), k) == StackAt(t, k)
  {
    if key in t && t[key] != [] {
      var s := t[key];
      assert s[..|s| - 1] + [s[|s| - 1]] == s;
    }
  }

  /** Pushing a sequence of values appends them, in order, to the bucket. */
  lemma {:induction false} PushAllAppends<K, V>(t: map<K, seq<V>>, key: K, values: seq<V>)
    ensures StackAt(PushAll(t, key, values), key) == StackAt(t, key) + values
    ensures forall k :: k != key ==> StackAt(PushAll(t, key, values), k) == StackAt(t, k)
    decreases |values|
  {
    if values != [] {
      PushFrame(t, key, values[0]);
      PushAllAppends(Pushed(t, key, values[0]), key, values[1..]);
      assert StackAt(t, key) + [values[0]] + values[1..] == StackAt(t, key) + values;
    }
  }

  /** Popping `|top|` times from a bucket that ends with `top` yields the elements of
      `top` newest first, and leaves the rest of the bucket and all other keys. */
  lemma {:induction false} PopManyNewestFirst<K, V>(t: map<K, seq<V>>, key: K, below: seq<V>, top: seq<V>)
    requires StackAt(t, key) == below + top
    ensures var (results, t') := PopMany(t, key, |top|);
      && |results| == |top|
      && (forall i :: 0 <= i < |top| ==> results[i] == Some(top[|top| - 1 - i]))
      && StackAt(t', key) == below
      && (forall k :: k != key ==> StackAt(t', k) == StackAt(t, k))
    decreases |top|
  {
    if top != [] {
      var n := |top|;
      var rest := top[..n - 1];
      assert below + top == (below + rest) + [top[n - 1]];
      PopKeepsKeys(t, key);
      assert Top(t, key) == Some(top[n - 1]);
      PopManyNewestFirst(Popped(t, key), key, below, rest);
    }
  }

  /** Each bucket is LIFO: after pushing `values` under `key`, popping as many times
      returns them in reverse order and leaves the bucket as it was. */
  lemma LastInFirstOut<K, V>(t: map<K, seq<V>>, key: K, values: seq<V>)
    ensures var (results, t') := PopMany(PushAll(t, key, values), key, |values|);
      && |results| == |values|
      && (forall i :: 0 <= i < |values| ==> results[i] == Some(values[|values| - 1 - i]))
      && StackAt(t', key) == StackAt(t, key)
  {
    PushAllAppends(t, key, values);
    PopManyNewestFirst(PushAll(t, key, values), key, StackAt(t, key), values);
  }

  /** The mutable dictionary of stacks. */
  class HashStack<K(==), V(==)> {
    /** `_hashStack`: every key that has ever been pushed and not removed. */
    var table: map<K, seq<V>>

    constructor ()
      ensures table == map[]
    {
      table := map[];
    }

    /** Push onto `key`'s stack, creating the stack when the key is absent. */
    method Push(key: K, value: V)
      modifies this
      ensures table == Pushed(old(table), key, value)
    {
      if !ContainsKey(key) {
        table := table[key := []];
      }
      table := table[key := table[key] + [value]];
      PushFrame(old(table), key, value);
    }

    /** Pop `key`'s stack; `None` (default(U)) when absent or empty. */
    method Pop(key: K) returns (r: Option<V>)
      modifies this
      ensures r == Top(old(table), key) && table == Popped(old(table), key)
      ensures r.None? <==> old(IsStackEmpty(key))
      ensures Count() == old(Count())
    {
      PopKeepsKeys(table, key);
      if !ContainsKey(key) || IsStackEmpty(key) {
        return None;
      }
      var s := table[key];
      r := Some(s[|s| - 1]);
      table := table[key := s[..|s| - 1]];
    }

    /** Remove `key`'s whole stack and return it; `None` (null) when absent. */
    method Remove(key: K) returns (r: Option<seq<V>>)
      modifies this
      ensures key in old(table) ==> r == Some(old(table)[key]) && table == old(table) - {key}
      ensures key !in old(table) ==> r == None && table == old(table)
      ensures !ContainsKey(key)
    {
      r := None;
      if ContainsKey(key) {
        r := Some(table[key]);
        table := table - {key};
      }
    }

    /** An absent key reads as an empty stack. */
    predicate ContainsKey(key: K)
      reads this
      ensures !ContainsKey(key) ==> StackAt(table, key) == []
    {
      key in table
    }

    /** Whether `value` is somewhere in the stack under `key`. */
    predicate ContainsValue(key: K, value: V)
      reads this
      ensures ContainsValue(key, value) <==> value in StackAt(table, key)
    {
      ContainsKey(key) && value in table[key]
    }

    /** The size of `key`'s stack, 0 for an absent key. */
    function CountFor(key: K): (n: nat)
      reads this
      ensures n == |StackAt(table, key)|
      ensures !ContainsKey(key) ==> n == 0
    {
      if !ContainsKey(key) then 0 else |table[key]|
    }

    /** True when the key is absent or its stack holds nothing. */
    predicate IsStackEmpty(key: K)
      reads this
      ensures IsStackEmpty(key) <==> StackAt(table, key) == []
    {
      CountFor(key) == 0
    }

    /** The number of keys (not of values) in the table. */
    function Count(): (n: nat)
      reads this
      ensures n == |table.Keys|
    {
      |table|
    }

    predicate IsEmpty()
      reads this
      ensures IsEmpty() <==> table == map[]
    {
      Count() == 0
    }
  }
}
