/** Small integer and real helpers shared by the motor models. */
module Numbers {

  /** Python's `abs` on integers. */
  function Abs(x: int): (r: nat)
    ensures r == x || r == -x
  {
    if x < 0 then -x else x
  }

  /** Python's `max` on two integers. */
  function Max(a: int, b: int): (r: int)
    ensures r >= a && r >= b && (r == a || r == b)
  {
    if a < b then b else a
  }

  /** Python's `min` on two integers. */
  function Min(a: int, b: int): (r: int)
    ensures r <= a && r <= b && (r == a || r == b)
  {
    if a < b then a else b
  }

  /** Python's `max` on two floats, over the reals. */
  function MaxReal(a: real, b: real): (r: real)
    ensures r >= a && r >= b && (r == a || r == b)
  {
    if a < b then b else a
  }

  /** Python's `int(x)` on a float: truncation toward zero. */
  function Trunc(x: real): (r: int)
    ensures x >= 0.0 ==> 0 <= r && r as real <= x < r as real + 1.0
    ensures x < 0.0 ==> r <= 0 && r as real - 1.0 < x <= r as real
  {
    if x >= 0.0 then x.Floor else -((-x).Floor)
  }

  /** Python's `a % b` for a non-zero divisor: the remainder takes the divisor's sign. */
  function PyMod(a: int, b: int): (r: int)
    requires b != 0
    ensures b > 0 ==> 0 <= r < b && r == a % b
    ensures b < 0 ==> b < r <= 0
    ensures a - r == (if b > 0 || a % b == 0 then a / b else a / b - 1) * b
  {
    if b > 0 || a % b == 0 then a % b
    else
      assert (a / b - 1) * b == (a / b) * b - b;
      a % b + b
  }

  /** The last element of `xs`, or `start` when `xs` is empty. */
  function LastOr(start: int, xs: seq<int>): (r: int)
    ensures xs == [] ==> r == start
    ensures xs != [] ==> r == xs[|xs| - 1]
  {
    if xs == [] then start else xs[|xs| - 1]
  }

  /** Number of values Python's `range(start, stop, step)` yields. */
  function RangeLength(start: int, stop: int, step: int): nat
    requires step != 0
  {
    if step > 0 then (if start < stop then (stop - start - 1) / step + 1 else 0)
    else (if start > stop then (start - stop - 1) / (-step) + 1 else 0)
  }

  /** The count stops exactly at `stop`: one more step would reach or pass it, the last value does not. */
  lemma RangeLengthBounds(start: int, stop: int, step: int)
    requires step != 0
    ensures var n := RangeLength(start, stop, step);
      (step > 0 ==> start + n * step >= stop && (n > 0 ==> start + (n - 1) * step < stop))
      && (step < 0 ==> start + n * step <= stop && (n > 0 ==> start + (n - 1) * step > stop))
  {
    if step > 0 && start < stop {
      var q := (stop - start - 1) / step;
      assert q * step <= stop - start - 1 < (q + 1) * step;
    } else if step < 0 && start > stop {
      var q := (start - stop - 1) / (-step);
      assert q * (-step) <= start - stop - 1 < (q + 1) * (-step);
    }
  }

  lemma ScaleStep(k: int, m: int, step: int)
    requires k <= m
    ensures step > 0 ==> k * step <= m * step
    ensures step < 0 ==> k * step >= m * step
  {
    assert m * step - k * step == (m - k) * step;
  }

  /** Every listed value lies before `stop`, and the next step would reach or pass it. */
  lemma RangeStops(start: int, stop: int, step: int, r: seq<int>)
    requires step != 0 && |r| == RangeLength(start, stop, step)
    requires forall k :: 0 <= k < |r| ==> r[k] == start + k * step
    ensures step > 0 ==> start + |r| * step >= stop && forall k :: 0 <= k < |r| ==> r[k] < stop
    ensures step < 0 ==> start + |r| * step <= stop && forall k :: 0 <= k < |r| ==> r[k] > stop
  {
    RangeLengthBounds(start, stop, step);
    forall k | 0 <= k < |r|
      ensures step > 0 ==> r[k] < stop
      ensures step < 0 ==> r[k] > stop
    {
      ScaleStep(k, |r| - 1, step);
    }
  }

  /**
   * Python's `range(start, stop, step)` as a list: values `step` apart from
   * `start`, all before `stop`, and as many as fit before it.
   */
  function Range(start: int, stop: int, step: int): (r: seq<int>)
    requires step != 0
    ensures |r| == RangeLength(start, stop, step)
    ensures forall k :: 0 <= k < |r| ==> r[k] == start + k * step
    ensures step > 0 ==> start + |r| * step >= stop && forall k :: 0 <= k < |r| ==> r[k] < stop
    ensures step < 0 ==> start + |r| * step <= stop && forall k :: 0 <= k < |r| ==> r[k] > stop
  {
    var r := seq(RangeLength(start, stop, step), k => start + k * step);
    RangeStops(start, stop, step, r);
    r
  }
}
