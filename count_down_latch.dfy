/** CSharp/Threading/CountDownLatch.cs: a counter and a one-way "open" event.
    Each CountDown lowers the counter; the first to bring it to zero or below
    opens the latch, and nothing ever closes it again. */
module Latches {
  import opened Wrappers

  /** The counter `_count` and whether the `_wait` event is set. */
  datatype LatchState = LatchState(count: int, open: bool)

  /** One CountDown: the pre-decremented counter, and the event set when it is
      at or below zero (the counter has no lower guard). */
  function AfterCountDown(s: LatchState): LatchState
  {
    var c := s.count - 1;
    LatchState(c, s.open || c <= 0)
  }

  /** `k` CountDowns in a row. */
  function CountDowns(s: LatchState, k: nat): LatchState
  {
    if k == 0 then s else AfterCountDown(CountDowns(s, k - 1))
  }

  /** From a fresh latch of `count`, `k` CountDowns leave the counter at
      `count - k` and open the latch exactly when `k` has reached `count`. */
  lemma {:induction false} CountDownsFromFresh(count: int, k: nat)
    requires count > 0
    ensures CountDowns(LatchState(count, false), k) == LatchState(count - k, k >= count)
  {
    if k > 0 {
      CountDownsFromFresh(count, k - 1);
    }
  }

  /** An open latch stays open, while further CountDowns keep lowering the
      counter below zero. */
  lemma {:induction false} OpenStaysOpen(s: LatchState, k: nat)
    requires s.open
    ensures CountDowns(s, k) == LatchState(s.count - k, true)
  {
    if k > 0 {
      OpenStaysOpen(s, k - 1);
    }
  }

  class CountDownLatch {
    /** `_count` */
    var count: int
    /** `_wait` is set */
    var open: bool

    function State(): LatchState
      reads this
    {
      LatchState(count, open)
    }

    /** The event is set exactly when the counter is at or below zero. */
    ghost predicate Valid()
      reads this
    {
      open <==> count <= 0
    }

    constructor (count: int)
      requires count > 0
      ensures Valid() && State() == LatchState(count, false)
    {
      this.count := count;
      open := false;
    }

    /** `new CountDownLatch(count)`: None where the constructor throws, which
        it does for every count at or below zero. */
    static method Create(count: int) returns (latch: Option<CountDownLatch>)
      ensures latch.None? <==> count <= 0
      ensures latch.Some? ==> fresh(latch.value) && latch.value.Valid()
      ensures latch.Some? ==> latch.value.State() == LatchState(count, false)
    {
      if count <= 0 {
        latch := None;
      } else {
        var l := new CountDownLatch(count);
        latch := Some(l);
      }
    }

    method CountDown()
      requires Valid()
      modifies this
      ensures Valid() && State() == AfterCountDown(old(State()))
    {
      count := count - 1;
      if count <= 0 {
        open := true;
      }
    }

    /** `Await()` returns only once the latch is open, and changes nothing. */
    method Await()
      requires open
      ensures State() == old(State())
    {
    }

    /** The counter; at or below zero exactly when the latch is open. */
    function CurrentCount(): (n: int)
      requires Valid()
      reads this
      ensures n <= 0 <==> open
    {
      count
    }
  }

  /** A latch created with `count` and counted down `count` times by one
      thread is open with a current count of zero; a count at or below zero is
      rejected at creation. */
  method CountDownToOpen(count: int) returns (isOpen: bool, current: int)
    ensures isOpen <==> count > 0
    ensures isOpen ==> current == 0
  {
    var made := CountDownLatch.Create(count);
    if made.None? {
      return false, count;
    }
    var latch := made.value;
    var i := 0;
    while i < count
      invariant 0 <= i <= count
      invariant latch.Valid() && latch.State() == CountDowns(LatchState(count, false), i)
    {
      latch.CountDown();
      i := i + 1;
    }
    CountDownsFromFresh(count, count);
    latch.Await();
    isOpen, current := latch.open, latch.CurrentCount();
  }
}
