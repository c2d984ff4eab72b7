/**
 * `StepperMotor_bipolar/Nema_third.py`: `move_smooth` turns a NEMA 17 a
 * given number of revolutions, its half-period falling linearly from
 * `max_delay` towards `min_delay` over the whole move.
 */
module NemaThird {
  import opened Numbers
  import opened Gpio
  import opened StepTiming

  /** `int(revolutions * steps_per_rev)`: the pulse count, truncated toward zero. */
  function TotalSteps(revolutions: real, stepsPerRev: int): (r: int)
    ensures revolutions * stepsPerRev as real >= 0.0 ==> 0 <= r && r as real <= revolutions * stepsPerRev as real < r as real + 1.0
    ensures revolutions * stepsPerRev as real < 0.0 ==> r <= 0
  {
    Trunc(revolutions * stepsPerRev as real)
  }

  /** The half-period of pulse `step` out of `total`. */
  function SmoothDelay(maxDelay: real, minDelay: real, total: int, step: nat): real
    requires step < total
  {
    Interpolate(maxDelay, minDelay, step as real / total as real)
  }

  /** The first pulse uses `maxDelay`. */
  lemma SmoothStart(maxDelay: real, minDelay: real, total: int)
    requires total > 0
    ensures SmoothDelay(maxDelay, minDelay, total, 0) == maxDelay
  {
  }

  lemma DivideStrict(a: real, b: real, c: real)
    requires a < b && c > 0.0
    ensures a / c < b / c
  {
    assert b / c - a / c == (b - a) / c;
  }

  /** With `maxDelay > minDelay`, every later pulse is strictly shorter. */
  lemma SmoothStrictlyDecreasing(maxDelay: real, minDelay: real, total: int, s: nat, t: nat)
    requires minDelay < maxDelay && s < t < total
    ensures SmoothDelay(maxDelay, minDelay, total, t) < SmoothDelay(maxDelay, minDelay, total, s)
  {
    DivideStrict(s as real, t as real, total as real);
    InterpolateStrict(maxDelay, minDelay, s as real / total as real, t as real / total as real);
  }

  /** With `maxDelay > minDelay`, every delay lies in (minDelay, maxDelay]: the minimum is never reached. */
  lemma SmoothBounds(maxDelay: real, minDelay: real, total: int, step: nat)
    requires minDelay < maxDelay && step < total
    ensures minDelay < SmoothDelay(maxDelay, minDelay, total, step) <= maxDelay
  {
    var p := step as real / total as real;
    assert 0.0 <= p < 1.0 by {
      assert step as real < total as real;
    }
    InterpolateAbove(maxDelay, minDelay, p);
    InterpolateMonotone(maxDelay, minDelay, 0.0, p);
  }

  /** The half-periods of all `total` pulses (none when `total <= 0`). */
  function SmoothDelays(maxDelay: real, minDelay: real, total: int): (r: seq<real>)
    ensures |r| == Max(total, 0)
    ensures forall k :: 0 <= k < |r| ==> r[k] == SmoothDelay(maxDelay, minDelay, total, k)
  {
    seq(Max(total, 0), k requires 0 <= k < Max(total, 0) => SmoothDelay(maxDelay, minDelay, total, k))
  }

  /** DIR once, then one HIGH/LOW pulse per listed half-period. */
  function SmoothTrace(stepPin: int, dirPin: int, direction: bool, delays: seq<real>): seq<Event>
  {
    [Output(dirPin, LevelOf(direction))] + Pulses(stepPin, delays)
  }

  /** Exactly `total_steps` pulses, none for a non-positive count, and DIR is written once, at the requested level only. */
  lemma SmoothPulseCount(stepPin: int, dirPin: int, direction: bool, revolutions: real, stepsPerRev: int,
                         maxDelay: real, minDelay: real)
    requires stepPin != dirPin
    ensures var t := SmoothTrace(stepPin, dirPin, direction,
              SmoothDelays(maxDelay, minDelay, TotalSteps(revolutions, stepsPerRev)));
      PulseCount(t, stepPin) == Max(TotalSteps(revolutions, stepsPerRev), 0)
      && Count(t, Output(dirPin, LevelOf(direction))) == 1
      && Count(t, Output(dirPin, LevelOf(!direction))) == 0
  {
    var delays := SmoothDelays(maxDelay, minDelay, TotalSteps(revolutions, stepsPerRev));
    var dir := [Output(dirPin, LevelOf(direction))];
    assert dir[..0] == [];
    CountConcat(dir, Pulses(stepPin, delays), Output(stepPin, High));
    CountConcat(dir, Pulses(stepPin, delays), Output(dirPin, LevelOf(direction)));
    PulsesCount(stepPin, delays);
    PulsesOtherPin(stepPin, delays, dirPin, LevelOf(direction));
    CountConcat(dir, Pulses(stepPin, delays), Output(dirPin, LevelOf(!direction)));
    PulsesOtherPin(stepPin, delays, dirPin, LevelOf(!direction));
  }

  class Nema17Motor {
    const stepPin: int
    const dirPin: int
    const stepsPerRev: int
    const maxDelay: real
    const minDelay: real
    var trace: seq<Event>

    /** Records the pins and timing; pin setup writes no level. */
    constructor (stepPin: int, dirPin: int, stepsPerRev: int, maxDelay: real, minDelay: real)
      ensures this.stepPin == stepPin && this.dirPin == dirPin && this.stepsPerRev == stepsPerRev
      ensures this.maxDelay == maxDelay && this.minDelay == minDelay
      ensures trace == []
    {
      this.stepPin := stepPin;
      this.dirPin := dirPin;
      this.stepsPerRev := stepsPerRev;
      this.maxDelay := maxDelay;
      this.minDelay := minDelay;
      trace := [];
    }

    /** `move_smooth`: DIR, then `total_steps` pulses along the linear ramp. */
    method MoveSmooth(revolutions: real, direction: bool)
      modifies this`trace
      ensures trace == old(trace) + SmoothTrace(stepPin, dirPin, direction,
        SmoothDelays(maxDelay, minDelay, TotalSteps(revolutions, stepsPerRev)))
    {
      var totalSteps := TotalSteps(revolutions, stepsPerRev);
      trace := trace + [Output(dirPin, LevelOf(direction))];
      ghost var start := trace;
      ghost var delays := SmoothDelays(maxDelay, minDelay, totalSteps);
      for step := 0 to Max(totalSteps, 0)
        modifies this`trace
        invariant trace == start + Pulses(stepPin, delays[..step])
      {
        var progress := step as real / totalSteps as real;
        var stepDelay := Interpolate(maxDelay, minDelay, progress);
        assert delays[step] == stepDelay;
        ghost var before := trace;
        trace := trace + [Output(stepPin, High)];
        trace := trace + [Sleep(stepDelay)];
        trace := trace + [Output(stepPin, Low)];
        trace := trace + [Sleep(stepDelay)];
        PulseStep(start, before, trace, stepPin, delays, step, stepDelay);
        assert trace == start + Pulses(stepPin, delays[..step + 1]);
      }
      assert delays[..|delays|] == delays;
      AppendAssoc(old(trace), [Output(dirPin, LevelOf(direction))], Pulses(stepPin, delays));
    }
  }
}
