/**
 * Step timing shared by the NEMA 17 scripts: the conversion between a speed
 * in revolutions per second and the delay between step pulses, and the
 * linear blend `from - p * (from - to)` every ramp in those scripts uses.
 * All quantities are exact reals.
 */
module StepTiming {

  /** `1 / (rps * steps_per_rev)`: seconds per step at `rps` revolutions per second. */
  function StepDelay(rps: real, stepsPerRev: int): (r: real)
    requires rps > 0.0 && stepsPerRev > 0
    ensures r > 0.0
    ensures r * (rps * stepsPerRev as real) == 1.0
  {
    1.0 / (rps * stepsPerRev as real)
  }

  /**
   * `1 / (step_delay * steps_per_rev)`: revolutions per second at one step per
   * `delay` seconds. The conversion is its own inverse, so this is `StepDelay`
   * read with a delay in place of a speed.
   */
  function Rps(delay: real, stepsPerRev: int): (r: real)
    requires delay > 0.0 && stepsPerRev > 0
    ensures r > 0.0
    ensures r * (delay * stepsPerRev as real) == 1.0
  {
    StepDelay(delay, stepsPerRev)
  }

  /** Converting a speed to a delay and back gives the speed again. */
  lemma RpsOfStepDelay(rps: real, stepsPerRev: int)
    requires rps > 0.0 && stepsPerRev > 0
    ensures Rps(StepDelay(rps, stepsPerRev), stepsPerRev) == rps
  {
    var d := StepDelay(rps, stepsPerRev);
    var s := stepsPerRev as real;
    var r := Rps(d, stepsPerRev);
    assert r * (d * s) == 1.0;
    assert d * (rps * s) == 1.0;
    assert (r - rps) * (d * s) == 0.0;
  }

  /** A delay at least the one for `rps` never turns faster than `rps`. */
  lemma SlowerDelayLowerRps(rps: real, stepsPerRev: int, delay: real)
    requires rps > 0.0 && stepsPerRev > 0
    requires delay >= StepDelay(rps, stepsPerRev)
    ensures 0.0 < Rps(delay, stepsPerRev) <= rps
  {
    var d := StepDelay(rps, stepsPerRev);
    var s := stepsPerRev as real;
    var r := Rps(delay, stepsPerRev);
    assert r * (delay * s) == 1.0;
    assert rps * (d * s) == 1.0;
    assert r * (d * s) <= r * (delay * s) by {
      assert r * s > 0.0;
      assert (r * s) * d <= (r * s) * delay;
    }
    if r > rps {
      assert r * (d * s) > rps * (d * s) by {
        assert d * s > 0.0;
      }
    }
  }

  /** `from - p * (from - to)`: `from` at progress 0, `to` at progress 1. */
  function Interpolate(from: real, to: real, p: real): (r: real)
    ensures p == 0.0 ==> r == from
    ensures p == 1.0 ==> r == to
  {
    from - p * (from - to)
  }

  lemma ProductNonNegative(a: real, b: real)
    requires a >= 0.0 && b >= 0.0
    ensures a * b >= 0.0
  {
  }

  lemma ProductPositive(a: real, b: real)
    requires a > 0.0 && b > 0.0
    ensures a * b > 0.0
  {
  }

  lemma Distribute(a: real, c: real, b: real)
    ensures (a - c) * b == a * b - c * b
  {
  }

  /** With `to <= from`, a blend falls as the progress grows. */
  lemma InterpolateMonotone(from: real, to: real, p: real, q: real)
    requires to <= from && p <= q
    ensures Interpolate(from, to, q) <= Interpolate(from, to, p)
  {
    ProductNonNegative(q - p, from - to);
    Distribute(q, p, from - to);
  }

  /** With `to < from`, a blend falls strictly as the progress grows. */
  lemma InterpolateStrict(from: real, to: real, p: real, q: real)
    requires to < from && p < q
    ensures Interpolate(from, to, q) < Interpolate(from, to, p)
  {
    ProductPositive(q - p, from - to);
    assert (q - p) * (from - to) > 0.0;
    Distribute(q, p, from - to);
  }

  /** With `to <= from` and progress in [0, 1], the blend stays in [to, from]. */
  lemma InterpolateBounds(from: real, to: real, p: real)
    requires to <= from && 0.0 <= p <= 1.0
    ensures to <= Interpolate(from, to, p) <= from
  {
    InterpolateMonotone(from, to, 0.0, p);
    InterpolateMonotone(from, to, p, 1.0);
  }

  /** With `to < from`, progress short of 1 stays strictly above `to`. */
  lemma InterpolateAbove(from: real, to: real, p: real)
    requires to < from && p < 1.0
    ensures Interpolate(from, to, p) > to
  {
    InterpolateStrict(from, to, p, 1.0);
  }
}
