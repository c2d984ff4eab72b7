/**
 * `StepperMotor_bipolar/nema_fifth.py`: a NEMA 17 whose half-period
 * follows a sawtooth, falling linearly from `max_delay` towards
 * `min_delay` within each revolution and jumping back at the next one.
 * The endless loop is modelled as its first `n` pulses.
 */
module NemaFifth {
  import opened Numbers
  import opened Gpio
  import opened StepTiming

  /** `(step % steps_per_rev) / steps_per_rev`, with Python's remainder. */
  function Progress(step: int, stepsPerRev: int): (p: real)
    requires stepsPerRev != 0
    ensures 0.0 <= p < 1.0
  {
    var r := PyMod(step, stepsPerRev);
    assert 0.0 <= r as real / stepsPerRev as real < 1.0 by {
      if stepsPerRev < 0 {
        assert (-r) as real / (-stepsPerRev) as real == r as real / stepsPerRev as real;
      }
    }
    r as real / stepsPerRev as real
  }

  /** The half-period of pulse `step`. */
  function SawtoothDelay(maxDelay: real, minDelay: real, stepsPerRev: int, step: int): real
    requires stepsPerRev != 0
  {
    Interpolate(maxDelay, minDelay, Progress(step, stepsPerRev))
  }

  lemma AbsProduct(b: int, d: int)
    ensures Abs(b * d) == Abs(b) * Abs(d)
  {
    var a: int, e: int := Abs(b), Abs(d);
    if b < 0 && d < 0 { assert b * d == a * e; }
    else if b < 0 { assert b * d == -(a * e); }
    else if d < 0 { assert b * d == -(a * e); }
  }

  lemma ProductAtLeast(a: nat, e: nat)
    requires e >= 1
    ensures a * e >= a
  {
    assert a * e == a + a * (e - 1);
  }

  /** A non-zero multiple of `b` is at least as large as `b` in magnitude. */
  lemma MultipleMagnitude(b: int, d: int)
    requires b != 0 && d != 0
    ensures Abs(b * d) >= Abs(b)
  {
    AbsProduct(b, d);
    ProductAtLeast(Abs(b), Abs(d));
  }

  /** Euclidean division has a single remainder: any `x == b * q + r` with `0 <= r < |b|` gives `x % b == r`. */
  lemma ModUnique(x: int, b: int, q: int, r: int)
    requires b != 0 && x == b * q + r && 0 <= r < Abs(b)
    ensures x % b == r
  {
    var q', r' := x / b, x % b;
    assert b * (q - q') == r' - r;
    if q != q' {
      MultipleMagnitude(b, q - q');
    }
  }

  /** Python's remainder does not see a whole multiple of the divisor added to the dividend. */
  lemma {:induction false} PyModShift(a: int, b: int, m: nat)
    requires b != 0
    ensures PyMod(a + m * b, b) == PyMod(a, b)
  {
    if m > 0 {
      var x := a + (m - 1) * b;
      PyModShift(a, b, m - 1);
      assert a + m * b == x + b;
      ModUnique(x + b, b, x / b + 1, x % b);
    }
  }

  /** The schedule repeats every `stepsPerRev` pulses. */
  lemma SawtoothPeriodic(maxDelay: real, minDelay: real, stepsPerRev: int, step: int, m: nat)
    requires stepsPerRev != 0
    ensures SawtoothDelay(maxDelay, minDelay, stepsPerRev, step + m * stepsPerRev)
         == SawtoothDelay(maxDelay, minDelay, stepsPerRev, step)
  {
    PyModShift(step, stepsPerRev, m);
  }

  /** Every whole revolution starts again at `maxDelay`. */
  lemma SawtoothRevolutionStart(maxDelay: real, minDelay: real, stepsPerRev: int, m: nat)
    requires stepsPerRev != 0
    ensures SawtoothDelay(maxDelay, minDelay, stepsPerRev, m * stepsPerRev) == maxDelay
  {
    PyModShift(0, stepsPerRev, m);
  }

  /** With `maxDelay > minDelay`, every delay lies in (minDelay, maxDelay]. */
  lemma SawtoothBounds(maxDelay: real, minDelay: real, stepsPerRev: int, step: int)
    requires minDelay < maxDelay && stepsPerRev != 0
    ensures minDelay < SawtoothDelay(maxDelay, minDelay, stepsPerRev, step) <= maxDelay
  {
    var p := Progress(step, stepsPerRev);
    InterpolateAbove(maxDelay, minDelay, p);
    InterpolateMonotone(maxDelay, minDelay, 0.0, p);
  }

  /** Within one revolution (same quotient by `stepsPerRev`), a later pulse is strictly shorter. */
  lemma SawtoothDecreasingInRevolution(maxDelay: real, minDelay: real, stepsPerRev: int, s: nat, t: nat)
    requires minDelay < maxDelay && stepsPerRev > 0
    requires s < t && s / stepsPerRev == t / stepsPerRev
    ensures SawtoothDelay(maxDelay, minDelay, stepsPerRev, t) < SawtoothDelay(maxDelay, minDelay, stepsPerRev, s)
  {
    var rs, rt := s % stepsPerRev, t % stepsPerRev;
    assert rs < rt;
    assert rs as real / stepsPerRev as real < rt as real / stepsPerRev as real by {
      assert rt as real / stepsPerRev as real - rs as real / stepsPerRev as real
          == (rt - rs) as real / stepsPerRev as real;
    }
    InterpolateStrict(maxDelay, minDelay, Progress(s, stepsPerRev), Progress(t, stepsPerRev));
  }

  /** The half-periods of the first `n` pulses. */
  function SawtoothDelays(maxDelay: real, minDelay: real, stepsPerRev: int, n: nat): (r: seq<real>)
    requires stepsPerRev != 0
    ensures |r| == n
    ensures forall k :: 0 <= k < n ==> r[k] == SawtoothDelay(maxDelay, minDelay, stepsPerRev, k)
  {
    seq(n, k => SawtoothDelay(maxDelay, minDelay, stepsPerRev, k))
  }

  /** DIR once, then one HIGH/LOW pulse per listed half-period. */
  function SawtoothTrace(stepPin: int, dirPin: int, direction: bool, delays: seq<real>): seq<Event>
  {
    [Output(dirPin, LevelOf(direction))] + Pulses(stepPin, delays)
  }

  /** The step counter equals the number of pulses written. */
  lemma SawtoothPulseCount(stepPin: int, dirPin: int, direction: bool, delays: seq<real>)
    requires stepPin != dirPin
    ensures PulseCount(SawtoothTrace(stepPin, dirPin, direction, delays), stepPin) == |delays|
  {
    var dir := [Output(dirPin, LevelOf(direction))];
    CountConcat(dir, Pulses(stepPin, delays), Output(stepPin, High));
    assert dir[..0] == [];
    PulsesCount(stepPin, delays);
  }

  class Nema17Motor {
    const stepPin: int
    const dirPin: int
    const stepsPerRev: int
    const maxDelay: real
    const minDelay: real
    var trace: seq<Event>

    /** Records the pins and timing; pin setup writes no level. */
    constructor (stepPin: int, dirPin: int, stepsPerRev: int, maxDelay: real, minDelay: real)
      ensures this.stepPin == stepPin && this.dirPin == dirPin && this.stepsPerRev == stepsPerRev
      ensures this.maxDelay == maxDelay && this.minDelay == minDelay
      ensures trace == []
    {
      this.stepPin := stepPin;
      this.dirPin := dirPin;
      this.stepsPerRev := stepsPerRev;
      this.maxDelay := maxDelay;
      this.minDelay := minDelay;
      trace := [];
    }

    /** `move_continuous` up to its `n`-th pulse: DIR, then the sawtooth pulse train. */
    method MoveContinuous(direction: bool, n: nat) returns (step: nat)
      requires stepsPerRev != 0
      modifies this`trace
      ensures step == n
      ensures trace == old(trace) + SawtoothTrace(stepPin, dirPin, direction,
        SawtoothDelays(maxDelay, minDelay, stepsPerRev, n))
    {
      trace := trace + [Output(dirPin, LevelOf(direction))];
      ghost var start := trace;
      ghost var delays := SawtoothDelays(maxDelay, minDelay, stepsPerRev, n);
      step := 0;
      while step < n
        modifies this`trace
        invariant step <= n
        invariant trace == start + Pulses(stepPin, delays[..step])
      {
        var progress := Progress(step, stepsPerRev);
        var stepDelay := Interpolate(maxDelay, minDelay, progress);
        assert delays[step] == stepDelay;
        ghost var before := trace;
        trace := trace + [Output(stepPin, High)];
        trace := trace + [Sleep(stepDelay)];
        trace := trace + [Output(stepPin, Low)];
        trace := trace + [Sleep(stepDelay)];
        PulseStep(start, before, trace, stepPin, delays, step, stepDelay);
        assert trace == start + Pulses(stepPin, delays[..step + 1]);
        step := step + 1;
      }
      assert delays[..step] == delays;
      AppendAssoc(old(trace), [Output(dirPin, LevelOf(direction))], Pulses(stepPin, delays));
    }
  }
}
