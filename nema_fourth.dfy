/**
 * `StepperMotor_bipolar/nema_fourth.py`: a NEMA 17 on a STEP/DIR driver
 * that starts at `max_delay` per half-pulse and falls linearly to the
 * delay of the target speed over `acceleration_steps` pulses, then holds
 * it. The endless loop is modelled as its first `n` pulses.
 */
module NemaFourth {
  import opened Gpio
  import opened StepTiming

  /**
   * The half-period of pulse `step`: the linear blend from `maxDelay`
   * towards `targetDelay` while `step < acc`, `targetDelay` afterwards.
   */
  function RampDelay(maxDelay: real, targetDelay: real, acc: int, step: nat): (r: real)
    ensures step >= acc ==> r == targetDelay
    ensures step == 0 && acc > 0 ==> r == maxDelay
  {
    if step < acc then Interpolate(maxDelay, targetDelay, step as real / acc as real) else targetDelay
  }

  /** The ramp formula, evaluated one step past its range, already gives the held delay: no jump. */
  lemma RampContinuous(maxDelay: real, targetDelay: real, acc: int)
    requires acc > 0
    ensures Interpolate(maxDelay, targetDelay, acc as real / acc as real) == RampDelay(maxDelay, targetDelay, acc, acc)
  {
  }

  lemma DivideMonotone(a: real, b: real, c: real)
    requires 0.0 <= a <= b && c > 0.0
    ensures a / c <= b / c
  {
    assert b / c - a / c == (b - a) / c;
  }

  /** Progress inside the ramp stays in [0, 1). */
  lemma RampProgress(acc: int, step: nat)
    requires step < acc
    ensures 0.0 <= step as real / acc as real < 1.0
  {
    assert step as real < acc as real;
  }

  /** When the target is no slower than the start, the delay never grows from one step to a later one. */
  lemma RampMonotone(maxDelay: real, targetDelay: real, acc: int, s: nat, t: nat)
    requires targetDelay <= maxDelay && s <= t
    ensures RampDelay(maxDelay, targetDelay, acc, t) <= RampDelay(maxDelay, targetDelay, acc, s)
  {
    if s < acc {
      RampProgress(acc, s);
      if t < acc {
        DivideMonotone(s as real, t as real, acc as real);
        InterpolateMonotone(maxDelay, targetDelay, s as real / acc as real, t as real / acc as real);
      } else {
        InterpolateBounds(maxDelay, targetDelay, s as real / acc as real);
      }
    }
  }

  /** When the target is no slower than the start, every delay lies in [targetDelay, maxDelay]. */
  lemma RampBounds(maxDelay: real, targetDelay: real, acc: int, step: nat)
    requires targetDelay <= maxDelay
    ensures targetDelay <= RampDelay(maxDelay, targetDelay, acc, step) <= maxDelay
  {
    if step < acc {
      RampProgress(acc, step);
      InterpolateBounds(maxDelay, targetDelay, step as real / acc as real);
    }
  }

  /** Once the ramp is over, the motor turns at exactly the requested speed. */
  lemma HoldSpeed(maxDelay: real, targetRps: real, stepsPerRev: int, acc: int, step: nat)
    requires targetRps > 0.0 && stepsPerRev > 0 && step >= acc
    ensures Rps(RampDelay(maxDelay, StepDelay(targetRps, stepsPerRev), acc, step), stepsPerRev) == targetRps
  {
    RpsOfStepDelay(targetRps, stepsPerRev);
  }

  /** The half-periods of the first `n` pulses. */
  function RampDelays(maxDelay: real, targetDelay: real, acc: int, n: nat): (r: seq<real>)
    ensures |r| == n
    ensures forall k :: 0 <= k < n ==> r[k] == RampDelay(maxDelay, targetDelay, acc, k)
  {
    seq(n, k requires 0 <= k => RampDelay(maxDelay, targetDelay, acc, k))
  }

  /** DIR once, then one HIGH/LOW pulse per listed half-period. */
  function MoveTrace(stepPin: int, dirPin: int, direction: bool, delays: seq<real>): seq<Event>
  {
    [Output(dirPin, LevelOf(direction))] + Pulses(stepPin, delays)
  }

  /** The step counter equals the number of pulses written: one per listed delay. */
  lemma MovePulseCount(stepPin: int, dirPin: int, direction: bool, delays: seq<real>)
    requires stepPin != dirPin
    ensures PulseCount(MoveTrace(stepPin, dirPin, direction, delays), stepPin) == |delays|
  {
    var dir := [Output(dirPin, LevelOf(direction))];
    CountConcat(dir, Pulses(stepPin, delays), Output(stepPin, High));
    assert dir[..0] == [];
    PulsesCount(stepPin, delays);
  }

  class Nema17Motor {
    const stepPin: int
    const dirPin: int
    const stepsPerRev: int
    const maxDelay: real
    var trace: seq<Event>

    /** Records the pins and timing; pin setup writes no level. */
    constructor (stepPin: int, dirPin: int, stepsPerRev: int, maxDelay: real)
      ensures this.stepPin == stepPin && this.dirPin == dirPin
      ensures this.stepsPerRev == stepsPerRev && this.maxDelay == maxDelay
      ensures trace == []
    {
      this.stepPin := stepPin;
      this.dirPin := dirPin;
      this.stepsPerRev := stepsPerRev;
      this.maxDelay := maxDelay;
      trace := [];
    }

    /** `move_continuous` up to its `n`-th pulse: DIR, then the ramp-and-hold pulse train. */
    method MoveContinuous(direction: bool, targetRps: real, accelerationSteps: int, n: nat) returns (step: nat)
      requires targetRps > 0.0 && stepsPerRev > 0
      modifies this`trace
      ensures step == n
      ensures trace == old(trace) + MoveTrace(stepPin, dirPin, direction,
        RampDelays(maxDelay, StepDelay(targetRps, stepsPerRev), accelerationSteps, n))
    {
      trace := trace + [Output(dirPin, LevelOf(direction))];
      var targetDelay := StepDelay(targetRps, stepsPerRev);
      ghost var start := trace;
      ghost var delays := RampDelays(maxDelay, targetDelay, accelerationSteps, n);
      step := 0;
      while step < n
        modifies this`trace
        invariant step <= n
        invariant trace == start + Pulses(stepPin, delays[..step])
      {
        var stepDelay;
        if step < accelerationSteps {
          var progress := step as real / accelerationSteps as real;
          stepDelay := Interpolate(maxDelay, targetDelay, progress);
        } else {
          stepDelay := targetDelay;
        }
        assert delays[step] == stepDelay;
        ghost var before := trace;
        trace := trace + [Output(stepPin, High)];
        trace := trace + [Sleep(stepDelay)];
        trace := trace + [Output(stepPin, Low)];
        trace := trace + [Sleep(stepDelay)];
        PulseStep(start, before, trace, stepPin, delays, step, stepDelay);
        assert trace == start + Pulses(stepPin, delays[..step + 1]);
        step := step + 1;
      }
      assert delays[..step] == delays;
      AppendAssoc(old(trace), [Output(dirPin, LevelOf(direction))], Pulses(stepPin, delays));
    }
  }
}
