/** The few pieces of the PHP runtime the dice model relies on: the error
    kinds the code throws, a result type standing for "returns or throws",
    and the built-in `range` on integers. */
module Php {

  /** The exception classes thrown by the modelled code. Message texts are
      not modelled. */
  datatype ErrorKind =
    | InvalidArgument   // \InvalidArgumentException
    | RuntimeError      // \RuntimeException

  /** A value, or the exception thrown instead of returning it. */
  datatype Result<+T> = Ok(value: T) | Err(error: ErrorKind)

  /** A PHP variable that may hold null. */
  datatype Option<+T> = None | Some(value: T)

  /** A call that returns nothing of interest, or throws. */
  datatype Outcome = Pass | Fail(error: ErrorKind)

  /** Distance between two integers. */
  function Dist(a: int, b: int): nat {
    if a <= b then b - a else a - b
  }

  /** The i-th element of `range(low, high)` with the default step of 1:
      counting up from `low` when `low <= high`, down otherwise. */
  function RangeAt(low: int, high: int, i: int): int {
    if low <= high then low + i else low - i
  }

  /** PHP's `range(low, high)` on integers: every integer from `low` to
      `high` inclusive, in the direction of `high`. It is never empty:
      `range(1, 1) == [1]` and `range(1, 0) == [1, 0]`. */
  function Range(low: int, high: int): (r: seq<int>)
    ensures |r| == Dist(low, high) + 1
    ensures r[0] == low && r[|r| - 1] == high
    ensures forall i :: 0 <= i < |r| ==> r[i] == RangeAt(low, high, i)
    decreases Dist(low, high)
  {
    if low == high then [low]
    else if low < high then [low] + Range(low + 1, high)
    else [low] + Range(low - 1, high)
  }

  /** With `low <= high` the range is strictly ascending; otherwise
      strictly descending. */
  lemma RangeMonotone(low: int, high: int, i: int, j: int)
    requires 0 <= i < j <= Dist(low, high)
    ensures low <= high ==> Range(low, high)[i] < Range(low, high)[j]
    ensures low > high ==> Range(low, high)[i] > Range(low, high)[j]
  {
  }

  /** An integer is an element of a range exactly when it lies between the
      range's two bounds. */
  lemma RangeMembership(low: int, high: int, x: int)
    ensures x in Range(low, high) <==>
      (if low <= high then low <= x <= high else high <= x <= low)
  {
    var r := Range(low, high);
    if x in r {
      var i :| 0 <= i < |r| && r[i] == x;
      assert r[i] == RangeAt(low, high, i);
    }
    if low <= high && low <= x <= high {
      assert r[x - low] == x;
    }
    if low > high && high <= x <= low {
      assert r[low - x] == x;
    }
  }
}
