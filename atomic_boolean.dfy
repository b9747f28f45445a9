/** CSharp/Atomic/AtomicBoolean.cs: a boolean stored as an `int` cell (1 for
    true, 0 for false) so that it can be exchanged with `Interlocked`. */
module AtomicBooleans {

  /** `value ? 1 : 0` */
  function Encode(b: bool): (i: int)
    ensures i == 0 || i == 1
    ensures Decode(i) == b
  {
    if b then 1 else 0
  }

  /** `_value != 0` */
  function Decode(i: int): bool
  {
    i != 0
  }

  /** On the cell's two values, decoding then encoding gives the cell back, so
      comparing cells and comparing booleans agree. */
  lemma EncodeDecode(i: int)
    requires i == 0 || i == 1
    ensures Encode(Decode(i)) == i
    ensures forall b: bool :: (Encode(b) == i) <==> (b == Decode(i))
  {
  }

  class AtomicBoolean {
    /** `_value` */
    var value: int

    /** The cell only ever holds 0 or 1. */
    ghost predicate Valid()
      reads this
    {
      value == 0 || value == 1
    }

    /** `AtomicBoolean()`: false. */
    constructor ()
      ensures Valid() && Get() == false
    {
      value := Encode(false);
    }

    /** `AtomicBoolean(bool)`: the given value. */
    constructor WithValue(b: bool)
      ensures Valid() && Get() == b
    {
      value := Encode(b);
    }

    function Get(): (b: bool)
      requires Valid()
      reads this
      ensures Encode(b) == value
    {
      Decode(value)
    }

    /** `Interlocked.Exchange` with the encoded value. */
    method Set(b: bool)
      requires Valid()
      modifies this
      ensures Valid() && Get() == b
    {
      value := Encode(b);
    }

    /** `Interlocked.Exchange`, returning the decoded original. */
    method GetAndSet(b: bool) returns (previous: bool)
      requires Valid()
      modifies this
      ensures Valid() && previous == old(Get()) && Get() == b
    {
      var original := value;
      value := Encode(b);
      previous := Decode(original);
    }

    /** `Interlocked.CompareExchange` on the encoded values: the cell takes
        `result` exactly when it held `expected`, and the call reports whether
        it did. */
    method CompareAndSet(expected: bool, result: bool) returns (success: bool)
      requires Valid()
      modifies this
      ensures Valid() && success == (old(Get()) == expected)
      ensures Get() == if success then result else old(Get())
    {
      var e := Encode(expected);
      var r := Encode(result);
      var original := value;
      if value == e {
        value := r;
      }
      EncodeDecode(original);
      success := original == e;
    }
  }

  /** The implicit conversion to `bool`. */
  function AsBool(a: AtomicBoolean): (b: bool)
    requires a.Valid()
    reads a
    ensures b <==> a.value == 1
  {
    a.Get()
  }
}
