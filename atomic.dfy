/** CSharp/Atomic/Atomic.cs: a reference cell exchanged with `Interlocked`.
    `T` is a reference type, so the cell may hold null, written `None`. */
module Atomics {
  import opened Wrappers

  class Atomic<T(==)> {
    /** `_value` */
    var value: Option<T>

    /** `Atomic()`: null. */
    constructor ()
      ensures Get() == None
    {
      value := None;
    }

    /** `Atomic(T)`: the given reference. */
    constructor WithValue(v: Option<T>)
      ensures Get() == v
    {
      value := v;
    }

    function Get(): Option<T>
      reads this
    {
      value
    }

    /** `Interlocked.Exchange`, result dropped. */
    method Set(v: Option<T>)
      modifies this
      ensures Get() == v
    {
      value := v;
    }

    /** `Interlocked.Exchange`: the reference held before. */
    method GetAndSet(v: Option<T>) returns (previous: Option<T>)
      modifies this
      ensures previous == old(Get()) && Get() == v
    {
      previous := value;
      value := v;
    }

    /** `Interlocked.CompareExchange(ref _value, result, expected) ==
        expected`: stores `result` exactly when the cell held `expected`. */
    method CompareAndSet(expected: Option<T>, result: Option<T>) returns (success: bool)
      modifies this
      ensures success == (old(Get()) == expected)
      ensures Get() == if success then result else old(Get())
    {
      var original := value;
      if value == expected {
        value := result;
      }
      success := original == expected;
    }
  }

  /** The implicit conversion to `T`. */
  function AsValue<T(==)>(a: Atomic<T>): (v: Option<T>)
    reads a
    ensures v == a.value
  {
    a.Get()
  }
}
