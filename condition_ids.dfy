/** CSharp/Locking/ConditionIds.cs: the per-lock generator of condition ids
    `<prefix>-<n>`, where `n` is the incremented value of a 64-bit counter. */
module ConditionIdentifiers {

  /** The character of one decimal digit. */
  function DigitChar(d: nat): (c: char)
    requires d < 10
    ensures '0' <= c <= '9' && c as int - '0' as int == d
  {
    ('0' as int + d) as char
  }

  /** Decimal form of a natural number, most significant digit first, no
      leading zeros. */
  function NatToDecimal(n: nat): (s: string)
    ensures 1 <= |s| && (n < 10 <==> |s| == 1)
    ensures forall i :: 0 <= i < |s| ==> '0' <= s[i] <= '9'
  {
    if n < 10 then [DigitChar(n)] else NatToDecimal(n / 10) + [DigitChar(n % 10)]
  }

  /** `long.ToString()`: a minus sign for negative values, then the digits. */
  function LongToString(n: int): string
  {
    if n < 0 then "-" + NatToDecimal(-n) else NatToDecimal(n)
  }

  /** An id as `Next` builds it: `_prefix + '-' + counter`. */
  function FormatId(prefix: string, counter: int): string
  {
    prefix + "-" + LongToString(counter)
  }

  /** Distinct numbers have distinct decimal forms. */
  lemma {:induction false} NatToDecimalInjective(a: nat, b: nat)
    requires NatToDecimal(a) == NatToDecimal(b)
    ensures a == b
    decreases a
  {
    var s := NatToDecimal(a);
    if 10 <= a && 10 <= b {
      var n := |s|;
      assert s[n - 1] == DigitChar(a % 10) && s[n - 1] == DigitChar(b % 10);
      assert s[..n - 1] == NatToDecimal(a / 10) && s[..n - 1] == NatToDecimal(b / 10);
      NatToDecimalInjective(a / 10, b / 10);
    } else {
      assert s[0] == DigitChar(a) && s[0] == DigitChar(b);
    }
  }

  /** Distinct counters give distinct strings (including negative counters). */
  lemma LongToStringInjective(a: int, b: int)
    requires LongToString(a) == LongToString(b)
    ensures a == b
  {
    var s := LongToString(a);
    // the sign decides whether the first character is '-' or a digit
    assert (a < 0) == (s[0] == '-');
    assert (b < 0) == (LongToString(b)[0] == '-');
    if a < 0 {
      assert s[1..] == NatToDecimal(-a) && s[1..] == NatToDecimal(-b);
      NatToDecimalInjective(-a, -b);
    } else {
      NatToDecimalInjective(a, b);
    }
  }

  /** Ids with the same prefix are equal only for equal counters, and every id
      starts with its prefix followed by '-'. */
  lemma FormatIdInjective(prefix: string, a: int, b: int)
    ensures FormatId(prefix, a)[..|prefix| + 1] == prefix + "-"
    ensures FormatId(prefix, a) == FormatId(prefix, b) ==> a == b
  {
    if FormatId(prefix, a) == FormatId(prefix, b) {
      var p := |prefix| + 1;
      assert FormatId(prefix, a)[p..] == LongToString(a);
      assert FormatId(prefix, b)[p..] == LongToString(b);
      LongToStringInjective(a, b);
    }
  }

  /** A counter beyond every counter used so far formats to an id not yet issued. */
  lemma NewerIdIsFresh(prefix: string, origin: int, issued: seq<string>, counter: int)
    requires forall i :: 0 <= i < |issued| ==> issued[i] == FormatId(prefix, origin + 1 + i)
    requires counter > origin + |issued|
    ensures FormatId(prefix, counter) !in issued
  {
    forall i | 0 <= i < |issued|
      ensures issued[i] != FormatId(prefix, counter)
    {
      FormatIdInjective(prefix, origin + 1 + i, counter);
    }
  }

  class ConditionIds {
    const prefix: string
    /** The start value the generator was made with. */
    ghost const origin: int
    /** `_ids`: the last counter value handed out (the origin before any `Next`). */
    var ids: int
    /** Every id returned so far, oldest first. */
    ghost var issued: seq<string>

    ghost predicate Valid()
      reads this
    {
      && ids == origin + |issued|
      && forall i :: 0 <= i < |issued| ==> issued[i] == FormatId(prefix, origin + 1 + i)
    }

    constructor (prefix: string, startingId: int)
      ensures Valid() && this.prefix == prefix && origin == startingId
      ensures ids == startingId && issued == []
    {
      this.prefix := prefix;
      origin := startingId;
      ids := startingId;
      issued := [];
    }

    /** Advance the counter by one and format the new value; the id was never
        returned before and carries the generator's prefix. */
    method Next() returns (id: string)
      requires Valid()
      modifies this
      ensures Valid() && ids == old(ids) + 1
      ensures id == FormatId(prefix, ids) && id[..|prefix| + 1] == prefix + "-"
      ensures issued == old(issued) + [id]
      ensures id !in old(issued)
    {
      ids := ids + 1;
      id := FormatId(prefix, ids);
      FormatIdInjective(prefix, ids, ids);
      NewerIdIsFresh(prefix, origin, issued, ids);
      ghost var before := issued;
      issued := issued + [id];
      forall i | 0 <= i < |issued|
        ensures issued[i] == FormatId(prefix, origin + 1 + i)
      {
        if i < |before| {
          assert issued[i] == before[i];
        }
      }
    }
  }
}
