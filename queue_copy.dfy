/** `Queue<T>.CopyTo`, which both blocking queues delegate their `CopyTo` to:
    the argument checks in the order .NET makes them, and the copy itself. */
module QueueCopies {
  import opened Wrappers

  /** The exceptions of `Queue<T>.CopyTo`. */
  datatype CopyError = ArrayIsNull | IndexOutOfRange | NotEnoughSpace

  /** What `CopyTo` reports for a destination of `length` slots (None for a
      null array), a start index and a queue of `size` elements. */
  function CopyCheck(length: Option<nat>, index: int, size: nat): (r: Option<CopyError>)
    ensures r.None? <==> length.Some? && 0 <= index && index + size <= length.value
    ensures r == Some(IndexOutOfRange) <==> length.Some? && (index < 0 || index > length.value)
    ensures r == Some(NotEnoughSpace) ==> length.Some? && 0 <= index <= length.value < index + size
  {
    if length.None? then Some(ArrayIsNull)
    else if index < 0 || index > length.value then Some(IndexOutOfRange)
    else if length.value - index < size then Some(NotEnoughSpace)
    else None
  }

  /** `Queue<T>.CopyTo` once its checks have passed: `items` written into
      `dest` from `index` on, every other slot untouched. */
  method CopyInto<T>(items: seq<T>, dest: array<T>, index: nat)
    requires index + |items| <= dest.Length
    modifies dest
    ensures dest[..] == old(dest[..index]) + items + old(dest[index + |items|..])
  {
    var i := 0;
    while i < |items|
      invariant 0 <= i <= |items|
      invariant forall j :: 0 <= j < index ==> dest[j] == old(dest[j])
      invariant forall j :: 0 <= j < i ==> dest[index + j] == items[j]
      invariant forall j :: index + i <= j < dest.Length ==> dest[j] == old(dest[j])
    {
      dest[index + i] := items[i];
      i := i + 1;
    }
    assert dest[..] == old(dest[..index]) + items + old(dest[index + |items|..]);
  }
}
