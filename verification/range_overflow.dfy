/**
 * The range loop of parseRangeArgs with Java's 32-bit int counter, as written. It is kept
 * apart from the rest of the model, which builds ranges with unbounded integers.
 */
module RangeOverflow {
  import opened Wrappers
  import opened JavaStrings
  import opened JavaIntegers
  import opened Grammar

  /**
   * for (int i = from; i <= to; i++) ids.add(i), with hi for to, evaluating the guard at most fuel times:
   * None when the loop has not exited by then.
   */
  function RangeLoop(i: int, hi: int, fuel: nat): (r: Option<seq<int>>)
    ensures r.Some? ==> |r.value| < fuel
    ensures r.Some? ==> forall k :: 0 <= k < |r.value| ==> r.value[k] <= hi
    ensures r.Some? && r.value != [] ==> r.value[0] == i
    ensures r.Some? && r.value == [] ==> i > hi
    decreases fuel
  {
    if fuel == 0 then None
    else if i <= hi then
      match RangeLoop(Wrap(i + 1), hi, fuel - 1)
      case None => None
      case Some(rest) => Some([i] + rest)
    else Some([])
  }

  /** With to == Integer.MAX_VALUE the guard holds of every int, so no amount of fuel lets the loop exit. */
  lemma {:induction false} NeverExitsAtMax(i: int, fuel: nat)
    requires IsInt(i)
    ensures RangeLoop(i, MaxInt, fuel) == None
    decreases fuel
  {
    if fuel > 0 {
      NeverExitsAtMax(Wrap(i + 1), fuel - 1);
    }
  }

  /** Below Integer.MAX_VALUE the loop exits after hi - lo + 2 guard tests with exactly Range(lo, hi). */
  lemma {:induction false} ExitsBelowMax(lo: int, hi: int)
    requires IsInt(lo) && IsInt(hi) && hi < MaxInt && lo <= hi + 1
    ensures RangeLoop(lo, hi, hi - lo + 2) == Some(Range(lo, hi))
    decreases hi - lo + 1
  {
    if lo <= hi {
      ExitsBelowMax(lo + 1, hi);
      assert Range(lo, hi) == [lo] + Range(lo + 1, hi);
    }
  }

  /** The smallest command line that shows it: FROM 2147483647 TO 2147483647 never finishes. */
  lemma MaxBoundNeverFinishes(fuel: nat)
    ensures ParseRange(["tok", "FROM", "2147483647", "TO", "2147483647"]) == Ok([MaxInt])
    ensures RangeLoop(MaxInt, MaxInt, fuel) == None
  {
    var args := ["tok", "FROM", "2147483647", "TO", "2147483647"];
    MaxIntDecimal();
    ParseIntToDecimal(MaxInt);
    assert EqualsIgnoreCase(args[3], "TO");
    assert Range(MaxInt, MaxInt) == [MaxInt];
    NeverExitsAtMax(MaxInt, fuel);
  }
}
