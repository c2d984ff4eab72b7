/**
 * `StepperMotor_bipolar/nema_quinto.py`: a NEMA 17 on an A4988 whose
 * microstep resolution coarsens in four phases of the acceleration and
 * whose half-period falls quadratically from the delay of
 * `min_target_rps` towards that of `target_rps`. The endless loop is
 * modelled as its first `n` pulses.
 */
module NemaQuinto {
  import opened Gpio
  import opened StepTiming
  import opened A4988

  /**
   * The resolution for pulse `step`: 16 in the first quarter of `acc`, 8 in
   * the second, 4 in the third, 1 afterwards. Dafny's `/` by a positive
   * constant is the floor division of Python's `//`.
   */
  function PhaseResolution(acc: int, step: int): (r: int)
    ensures r == 16 || r == 8 || r == 4 || r == 1
    ensures Levels(r).Some?
  {
    if step < acc / 4 then 16
    else if step < acc / 2 then 8
    else if step < (3 * acc) / 4 then 4
    else 1
  }

  /** The resolution never gets finer as the step count grows. */
  lemma PhaseNonIncreasing(acc: int, s: int, t: int)
    requires s <= t
    ensures PhaseResolution(acc, t) <= PhaseResolution(acc, s)
  {
  }

  /** With `acc >= 4`, the run starts in sixteenth steps and ends the ramp in full steps. */
  lemma PhaseEnds(acc: int)
    requires acc >= 4
    ensures PhaseResolution(acc, 0) == 16
    ensures PhaseResolution(acc, acc) == 1
  {
    assert (3 * acc) / 4 <= acc;
  }

  /** `min_delay - (step / acc)^2 * (min_delay - target_delay)`. */
  function QuadraticDelay(minDelay: real, targetDelay: real, acc: int, step: int): (r: real)
    requires acc != 0
    ensures step == 0 ==> r == minDelay
    ensures step == acc ==> r == targetDelay
  {
    var p := step as real / acc as real;
    Interpolate(minDelay, targetDelay, p * p)
  }

  lemma DivideDifference(a: real, b: real, c: real)
    requires c > 0.0
    ensures a / c - b / c == (a - b) / c
    ensures c / c == 1.0
  {
  }

  lemma SquareMonotone(p: real, q: real)
    requires 0.0 <= p <= q
    ensures p * p <= q * q
  {
    assert q * q - p * p == (q - p) * (q + p);
  }

  /** Within the ramp the delay falls from `minDelay` to `targetDelay` and never leaves that range. */
  lemma QuadraticRamp(minDelay: real, targetDelay: real, acc: int, s: int, t: int)
    requires targetDelay <= minDelay && 0 <= s <= t <= acc && acc > 0
    ensures QuadraticDelay(minDelay, targetDelay, acc, t) <= QuadraticDelay(minDelay, targetDelay, acc, s)
    ensures targetDelay <= QuadraticDelay(minDelay, targetDelay, acc, t) <= minDelay
  {
    var p, q := s as real / acc as real, t as real / acc as real;
    assert 0.0 <= p <= q <= 1.0 by {
      DivideDifference(t as real, s as real, acc as real);
      DivideDifference(acc as real, t as real, acc as real);
    }
    SquareMonotone(p, q);
    SquareMonotone(q, 1.0);
    var ds, dt := QuadraticDelay(minDelay, targetDelay, acc, s), QuadraticDelay(minDelay, targetDelay, acc, t);
    assert ds == Interpolate(minDelay, targetDelay, p * p);
    assert dt == Interpolate(minDelay, targetDelay, q * q);
    InterpolateMonotone(minDelay, targetDelay, p * p, q * q);
    InterpolateBounds(minDelay, targetDelay, q * q);
  }

  /** Nothing holds the delay at the target: past the ramp it keeps falling below `targetDelay`. */
  lemma QuadraticOvershoot(minDelay: real, targetDelay: real, acc: int, step: int)
    requires targetDelay < minDelay && 0 < acc < step
    ensures QuadraticDelay(minDelay, targetDelay, acc, step) < targetDelay
  {
    var p := step as real / acc as real;
    assert p > 1.0 by {
      DivideDifference(step as real, acc as real, acc as real);
    }
    assert p * p > 1.0 by {
      SquareMonotone(1.0, p);
      assert p * p - p == p * (p - 1.0);
    }
    InterpolateStrict(minDelay, targetDelay, 1.0, p * p);
  }

  /** The writes of pulse `step`: its resolution, then its pulse. */
  function PhaseStep(pins: DriverPins, minDelay: real, targetDelay: real, acc: int, step: nat): seq<Event>
    requires acc != 0
  {
    MicroStep(pins, Levels(PhaseResolution(acc, step)).value, QuadraticDelay(minDelay, targetDelay, acc, step))
  }

  /** The writes of the first `n` pulses. */
  function PhaseSteps(pins: DriverPins, minDelay: real, targetDelay: real, acc: int, n: nat): seq<Event>
    requires acc != 0
  {
    if n == 0 then [] else PhaseSteps(pins, minDelay, targetDelay, acc, n - 1) + PhaseStep(pins, minDelay, targetDelay, acc, n - 1)
  }

  /** Writing iteration `step`'s resolution and pulse after the first `step` iterations gives the first `step + 1`. */
  lemma PhaseStepWrite(start: seq<Event>, before: seq<Event>, after: seq<Event>, pins: DriverPins,
                       minDelay: real, targetDelay: real, acc: int, step: nat, progress: real, half: real)
    requires acc != 0 && progress == step as real / acc as real
    requires half == Interpolate(minDelay, targetDelay, progress * progress)
    requires before == start + PhaseSteps(pins, minDelay, targetDelay, acc, step)
    requires after == before + MsTrace(pins, Levels(PhaseResolution(acc, step)).value)
      + [Output(pins.step, High)] + [Sleep(half)] + [Output(pins.step, Low)] + [Sleep(half)]
    ensures after == start + PhaseSteps(pins, minDelay, targetDelay, acc, step + 1)
  {
    assert half == QuadraticDelay(minDelay, targetDelay, acc, step);
    var ms := MsTrace(pins, Levels(PhaseResolution(acc, step)).value);
    assert PhaseStep(pins, minDelay, targetDelay, acc, step) == ms + Pulse(pins.step, half);
    assert after == before + (ms + Pulse(pins.step, half));
  }

  /** The first `n` iterations write exactly `n` STEP pulses. */
  lemma {:induction false} PhaseStepsPulseCount(pins: DriverPins, minDelay: real, targetDelay: real, acc: int, n: nat)
    requires acc != 0 && StepApart(pins)
    ensures PulseCount(PhaseSteps(pins, minDelay, targetDelay, acc, n), pins.step) == n
  {
    if n > 0 {
      PhaseStepsPulseCount(pins, minDelay, targetDelay, acc, n - 1);
      CountConcat(PhaseSteps(pins, minDelay, targetDelay, acc, n - 1),
        PhaseStep(pins, minDelay, targetDelay, acc, n - 1), Output(pins.step, High));
      MicroStepPulseCount(pins, Levels(PhaseResolution(acc, n - 1)).value, QuadraticDelay(minDelay, targetDelay, acc, n - 1));
    }
  }

  class Nema17Motor {
    const pins: DriverPins
    const stepsPerRev: int
    const maxDelay: real
    var trace: seq<Event>

    /** Records the pins and leaves the driver in sixteenth steps. */
    constructor (pins: DriverPins, stepsPerRev: int, maxDelay: real)
      ensures this.pins == pins && this.stepsPerRev == stepsPerRev && this.maxDelay == maxDelay
      ensures trace == MsTrace(pins, MsLevels(High, High, High))
    {
      this.pins := pins;
      this.stepsPerRev := stepsPerRev;
      this.maxDelay := maxDelay;
      trace := [];
      new;
      var status := SetMicrostepping(16);
    }

    /** `set_microstepping`: the table's three writes, or ValueError with nothing written. */
    method SetMicrostepping(resolution: int) returns (status: Status)
      modifies this`trace
      ensures status == Ok <==> Levels(resolution).Some?
      ensures status == Ok ==> trace == old(trace) + MsTrace(pins, Levels(resolution).value)
      ensures status != Ok ==> status == ValueError && trace == old(trace)
    {
      var ms1, ms2, ms3;
      if resolution == 1 {
        ms1, ms2, ms3 := Low, Low, Low;
      } else if resolution == 2 {
        ms1, ms2, ms3 := High, Low, Low;
      } else if resolution == 4 {
        ms1, ms2, ms3 := Low, High, Low;
      } else if resolution == 8 {
        ms1, ms2, ms3 := High, High, Low;
      } else if resolution == 16 {
        ms1, ms2, ms3 := High, High, High;
      } else {
        return ValueError;
      }
      trace := trace + [Output(pins.ms1, ms1)];
      trace := trace + [Output(pins.ms2, ms2)];
      trace := trace + [Output(pins.ms3, ms3)];
      return Ok;
    }

    /**
     * `move_continuous` up to its `n`-th pulse. With `accelerationSteps == 0`
     * the first iteration selects full steps and then divides by zero.
     */
    method MoveContinuous(direction: bool, targetRps: real, accelerationSteps: int, minTargetRps: real, n: nat)
      returns (step: nat, status: Status)
      requires targetRps > 0.0 && minTargetRps > 0.0 && stepsPerRev > 0
      modifies this`trace
      ensures accelerationSteps != 0 ==> (status == Ok && step == n
        && trace == old(trace) + [Output(pins.dir, LevelOf(direction))]
           + PhaseSteps(pins, StepDelay(minTargetRps, stepsPerRev), StepDelay(targetRps, stepsPerRev), accelerationSteps, n))
      ensures accelerationSteps == 0 && n == 0 ==> (status == Ok && step == 0
        && trace == old(trace) + [Output(pins.dir, LevelOf(direction))])
      ensures accelerationSteps == 0 && n > 0 ==> (status == ZeroDivisionError && step == 0
        && trace == old(trace) + [Output(pins.dir, LevelOf(direction))] + MsTrace(pins, MsLevels(Low, Low, Low)))
    {
      trace := trace + [Output(pins.dir, LevelOf(direction))];
      var targetDelay := StepDelay(targetRps, stepsPerRev);
      var minDelay := StepDelay(minTargetRps, stepsPerRev);
      ghost var start := trace;
      step := 0;
      while step < n
        modifies this`trace
        invariant step <= n
        invariant accelerationSteps != 0 ==> trace == start + PhaseSteps(pins, minDelay, targetDelay, accelerationSteps, step)
        invariant accelerationSteps == 0 ==> step == 0 && trace == start
      {
        ghost var before := trace;
        var chosen;
        if step < accelerationSteps / 4 {
          chosen := 16;
        } else if step < accelerationSteps / 2 {
          chosen := 8;
        } else if step < (3 * accelerationSteps) / 4 {
          chosen := 4;
        } else {
          chosen := 1;
        }
        assert chosen == PhaseResolution(accelerationSteps, step);
        var selected := SetMicrostepping(chosen);
        assert trace == before + MsTrace(pins, Levels(PhaseResolution(accelerationSteps, step)).value);
        if accelerationSteps == 0 {
          return step, ZeroDivisionError;
        }
        var progress := step as real / accelerationSteps as real;
        var stepDelay := Interpolate(minDelay, targetDelay, progress * progress);
        trace := trace + [Output(pins.step, High)];
        trace := trace + [Sleep(stepDelay)];
        trace := trace + [Output(pins.step, Low)];
        trace := trace + [Sleep(stepDelay)];
        PhaseStepWrite(start, before, trace, pins, minDelay, targetDelay, accelerationSteps, step, progress, stepDelay);
        assert trace == start + PhaseSteps(pins, minDelay, targetDelay, accelerationSteps, step + 1);
        step := step + 1;
      }
      status := Ok;
    }
  }
}
