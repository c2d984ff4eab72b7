/**
 * `StepperMotor_bipolar/nema_sexto.py`: a NEMA 17 on an A4988 whose
 * half-period follows a sigmoid progress from the delay of
 * `min_target_rps` (clamped to be no shorter than the target's) down to
 * that of `target_rps`, choosing the microstep resolution from the ratio
 * of the current to the target speed. The sigmoid values themselves are
 * inputs: the model takes the progress of each pulse as a given real.
 */
module NemaSexto {
  import opened Numbers
  import opened Gpio
  import opened StepTiming
  import opened A4988

  /** The starting delay, raised to the target delay when it was shorter. */
  function ClampMinDelay(minDelay: real, targetDelay: real): (r: real)
    ensures r >= targetDelay
    ensures minDelay >= targetDelay ==> r == minDelay
    ensures minDelay < targetDelay ==> r == targetDelay
  {
    if minDelay < targetDelay then targetDelay else minDelay
  }

  /** `max(target_delay, min_delay - progress * (min_delay - target_delay))`. */
  function SigmoidDelay(minDelay: real, targetDelay: real, progress: real): (r: real)
    ensures r >= targetDelay
  {
    MaxReal(targetDelay, Interpolate(minDelay, targetDelay, progress))
  }

  /** With a non-negative progress, the delay lies between the target and the (clamped) start. */
  lemma SigmoidBounds(minDelay: real, targetDelay: real, progress: real)
    requires targetDelay <= minDelay && 0.0 <= progress
    ensures targetDelay <= SigmoidDelay(minDelay, targetDelay, progress) <= minDelay
    ensures progress == 0.0 ==> SigmoidDelay(minDelay, targetDelay, progress) == minDelay
  {
    InterpolateMonotone(minDelay, targetDelay, 0.0, progress);
  }

  /** A larger progress never gives a longer delay. */
  lemma SigmoidMonotone(minDelay: real, targetDelay: real, p: real, q: real)
    requires targetDelay <= minDelay && p <= q
    ensures SigmoidDelay(minDelay, targetDelay, q) <= SigmoidDelay(minDelay, targetDelay, p)
  {
    InterpolateMonotone(minDelay, targetDelay, p, q);
  }

  /** `1 / (step_delay * steps_per_rev)` never exceeds the target speed, whatever the progress. */
  lemma CurrentRpsBounded(minDelay: real, targetRps: real, stepsPerRev: int, progress: real)
    requires targetRps > 0.0 && stepsPerRev > 0
    ensures 0.0 < Rps(SigmoidDelay(minDelay, StepDelay(targetRps, stepsPerRev), progress), stepsPerRev) <= targetRps
  {
    SlowerDelayLowerRps(targetRps, stepsPerRev, SigmoidDelay(minDelay, StepDelay(targetRps, stepsPerRev), progress));
  }

  /** The resolution for the current speed: 16 below half the target, 8 below 3/4, 4 below 9/10, else 1. */
  function RatioResolution(currentRps: real, targetRps: real): (r: int)
    ensures r == 16 || r == 8 || r == 4 || r == 1
    ensures Levels(r).Some?
  {
    if currentRps < 0.5 * targetRps then 16
    else if currentRps < 0.75 * targetRps then 8
    else if currentRps < 0.9 * targetRps then 4
    else 1
  }

  /** For a positive target, a faster current speed never selects a finer resolution. */
  lemma RatioNonIncreasing(targetRps: real, a: real, b: real)
    requires targetRps > 0.0 && a <= b
    ensures RatioResolution(b, targetRps) <= RatioResolution(a, targetRps)
  {
  }

  /** Once the delay is the target's, the motor runs in full steps. */
  lemma RatioAtTarget(targetRps: real, stepsPerRev: int)
    requires targetRps > 0.0 && stepsPerRev > 0
    ensures RatioResolution(Rps(StepDelay(targetRps, stepsPerRev), stepsPerRev), targetRps) == 1
  {
    RpsOfStepDelay(targetRps, stepsPerRev);
  }

  /** The resolution selected for a given progress. */
  function SigmoidLevels(minDelay: real, targetDelay: real, targetRps: real, stepsPerRev: int, progress: real): MsLevels
    requires targetDelay > 0.0 && stepsPerRev > 0
  {
    Levels(RatioResolution(Rps(SigmoidDelay(minDelay, targetDelay, progress), stepsPerRev), targetRps)).value
  }

  /** The writes of the pulses with the listed progress values. */
  function SigmoidSteps(pins: DriverPins, minDelay: real, targetDelay: real, targetRps: real, stepsPerRev: int,
                        progress: seq<real>): seq<Event>
    requires targetDelay > 0.0 && stepsPerRev > 0
  {
    if progress == [] then []
    else
      var p := progress[|progress| - 1];
      SigmoidSteps(pins, minDelay, targetDelay, targetRps, stepsPerRev, progress[..|progress| - 1])
      + MicroStep(pins, SigmoidLevels(minDelay, targetDelay, targetRps, stepsPerRev, p), SigmoidDelay(minDelay, targetDelay, p))
  }

  /** Writing one more iteration extends the trace by that iteration's resolution and pulse. */
  lemma SigmoidStepWrite(start: seq<Event>, before: seq<Event>, after: seq<Event>, pins: DriverPins,
                         minDelay: real, targetDelay: real, targetRps: real, stepsPerRev: int,
                         progress: seq<real>, k: nat, levels: MsLevels, half: real)
    requires targetDelay > 0.0 && stepsPerRev > 0 && k < |progress|
    requires levels == SigmoidLevels(minDelay, targetDelay, targetRps, stepsPerRev, progress[k])
    requires half == SigmoidDelay(minDelay, targetDelay, progress[k])
    requires before == start + SigmoidSteps(pins, minDelay, targetDelay, targetRps, stepsPerRev, progress[..k])
    requires after == before + MsTrace(pins, levels)
      + [Output(pins.step, High)] + [Sleep(half)] + [Output(pins.step, Low)] + [Sleep(half)]
    ensures after == start + SigmoidSteps(pins, minDelay, targetDelay, targetRps, stepsPerRev, progress[..k + 1])
  {
    assert progress[..k + 1][..k] == progress[..k];
    assert after == before + (MsTrace(pins, levels) + Pulse(pins.step, half));
  }

  /** One STEP pulse per progress value. */
  lemma {:induction false} SigmoidStepsPulseCount(pins: DriverPins, minDelay: real, targetDelay: real, targetRps: real,
                                                  stepsPerRev: int, progress: seq<real>)
    requires targetDelay > 0.0 && stepsPerRev > 0 && StepApart(pins)
    ensures PulseCount(SigmoidSteps(pins, minDelay, targetDelay, targetRps, stepsPerRev, progress), pins.step) == |progress|
  {
    if progress != [] {
      var n := |progress|;
      var p := progress[n - 1];
      SigmoidStepsPulseCount(pins, minDelay, targetDelay, targetRps, stepsPerRev, progress[..n - 1]);
      CountConcat(SigmoidSteps(pins, minDelay, targetDelay, targetRps, stepsPerRev, progress[..n - 1]),
        MicroStep(pins, SigmoidLevels(minDelay, targetDelay, targetRps, stepsPerRev, p), SigmoidDelay(minDelay, targetDelay, p)),
        Output(pins.step, High));
      MicroStepPulseCount(pins, SigmoidLevels(minDelay, targetDelay, targetRps, stepsPerRev, p), SigmoidDelay(minDelay, targetDelay, p));
    }
  }

  class Nema17Motor {
    const pins: DriverPins
    const stepsPerRev: int
    const maxDelay: real
    var trace: seq<Event>

    /** Records the pins and leaves the driver in sixteenth steps. */
    constructor (pins: DriverPins, stepsPerRev: int, maxDelay: real)
      ensures this.pins == pins && this.stepsPerRev == stepsPerRev && this.maxDelay == maxDelay
      ensures trace == MsTrace(pins, MsLevels(High, High, High))
    {
      this.pins := pins;
      this.stepsPerRev := stepsPerRev;
      this.maxDelay := maxDelay;
      trace := [];
      new;
      var status := SetMicrostepping(16);
    }

    /** `set_microstepping`: the table's three writes, or ValueError with nothing written. */
    method SetMicrostepping(resolution: int) returns (status: Status)
      modifies this`trace
      ensures status == Ok <==> Levels(resolution).Some?
      ensures status == Ok ==> trace == old(trace) + MsTrace(pins, Levels(resolution).value)
      ensures status != Ok ==> status == ValueError && trace == old(trace)
    {
      var ms1, ms2, ms3;
      if resolution == 1 {
        ms1, ms2, ms3 := Low, Low, Low;
      } else if resolution == 2 {
        ms1, ms2, ms3 := High, Low, Low;
      } else if resolution == 4 {
        ms1, ms2, ms3 := Low, High, Low;
      } else if resolution == 8 {
        ms1, ms2, ms3 := High, High, Low;
      } else if resolution == 16 {
        ms1, ms2, ms3 := High, High, High;
      } else {
        return ValueError;
      }
      trace := trace + [Output(pins.ms1, ms1)];
      trace := trace + [Output(pins.ms2, ms2)];
      trace := trace + [Output(pins.ms3, ms3)];
      return Ok;
    }

    /**
     * `move_continuous` for one pulse per listed sigmoid value. A zero
     * `accelerationSteps` divides by zero right after DIR is written.
     */
    method MoveContinuous(direction: bool, targetRps: real, accelerationSteps: int, minTargetRps: real,
                          progress: seq<real>) returns (step: nat, status: Status)
      requires targetRps > 0.0 && minTargetRps > 0.0 && stepsPerRev > 0
      modifies this`trace
      ensures accelerationSteps == 0 ==> (status == ZeroDivisionError && step == 0
        && trace == old(trace) + [Output(pins.dir, LevelOf(direction))])
      ensures accelerationSteps != 0 ==> (status == Ok && step == |progress|
        && trace == old(trace) + [Output(pins.dir, LevelOf(direction))]
           + SigmoidSteps(pins, ClampMinDelay(StepDelay(minTargetRps, stepsPerRev), StepDelay(targetRps, stepsPerRev)),
               StepDelay(targetRps, stepsPerRev), targetRps, stepsPerRev, progress))
    {
      trace := trace + [Output(pins.dir, LevelOf(direction))];
      var targetDelay := StepDelay(targetRps, stepsPerRev);
      var minDelay := StepDelay(minTargetRps, stepsPerRev);
      if minDelay < targetDelay {
        minDelay := targetDelay;
      }
      assert minDelay == ClampMinDelay(StepDelay(minTargetRps, stepsPerRev), targetDelay);
      if accelerationSteps == 0 {
        return 0, ZeroDivisionError;
      }
      ghost var start := trace;
      step := 0;
      while step < |progress|
        modifies this`trace
        invariant step <= |progress|
        invariant trace == start + SigmoidSteps(pins, minDelay, targetDelay, targetRps, stepsPerRev, progress[..step])
      {
        var stepDelay := SigmoidDelay(minDelay, targetDelay, progress[step]);
        var currentRps := Rps(stepDelay, stepsPerRev);
        ghost var resolution := RatioResolution(currentRps, targetRps);
        ghost var levels := Levels(resolution).value;
        assert SigmoidLevels(minDelay, targetDelay, targetRps, stepsPerRev, progress[step]) == levels;
        ghost var before := trace;
        var chosen;
        if currentRps < 0.5 * targetRps {
          chosen := 16;
        } else if currentRps < 0.75 * targetRps {
          chosen := 8;
        } else if currentRps < 0.9 * targetRps {
          chosen := 4;
        } else {
          chosen := 1;
        }
        assert chosen == resolution;
        var selected := SetMicrostepping(chosen);
        assert trace == before + MsTrace(pins, levels);
        trace := trace + [Output(pins.step, High)];
        trace := trace + [Sleep(stepDelay)];
        trace := trace + [Output(pins.step, Low)];
        trace := trace + [Sleep(stepDelay)];
        SigmoidStepWrite(start, before, trace, pins, minDelay, targetDelay, targetRps, stepsPerRev, progress, step, levels, stepDelay);
        assert trace == start + SigmoidSteps(pins, minDelay, targetDelay, targetRps, stepsPerRev, progress[..step + 1]);
        step := step + 1;
      }
      assert progress[..step] == progress;
      status := Ok;
    }
  }
}
