/**
 * `StepperMotor_bipolar/nema_sixth.py`: a script that enables an A4988,
 * sets sixteenth steps and turns one revolution with a soft start whose
 * half-period drops by a fixed decrement per pulse until it reaches the
 * minimum or the acceleration phase ends.
 */
module NemaSixth {
  import opened Numbers
  import opened Gpio
  import opened A4988

  const DirPin := 20
  const StepPin := 21
  const EnablePin := 16
  const Ms1Pin := 5
  const Ms2Pin := 6
  const Ms3Pin := 13
  const StepsPerRev := 200
  const MicrostepResolution := 16
  const TotalSteps := StepsPerRev * MicrostepResolution

  /** The script's parameters for `smooth_start`. */
  const ScriptMaxDelay := 0.005
  const ScriptMinDelay := 0.001
  const ScriptAccelerationSteps := 100

  /** One revolution in sixteenth steps is 3200 pulses. */
  lemma TotalStepsValue()
    ensures TotalSteps == 3200
  {
  }

  /** `(max_delay - min_delay) / acceleration_steps`. */
  function Decrement(maxDelay: real, minDelay: real, acc: int): (r: real)
    requires acc != 0
    ensures r * acc as real == maxDelay - minDelay
  {
    (maxDelay - minDelay) / acc as real
  }

  /** With a positive step count and `minDelay <= maxDelay` the decrement is not negative. */
  lemma DecrementNonNegative(maxDelay: real, minDelay: real, acc: int)
    requires acc > 0 && minDelay <= maxDelay
    ensures Decrement(maxDelay, minDelay, acc) >= 0.0
  {
  }

  /** The delay after `k` loop iterations: each of the first `acc` lowers it while it is above the minimum. */
  function DelayAfter(maxDelay: real, minDelay: real, acc: int, k: nat): real
    requires acc != 0
  {
    if k == 0 then maxDelay
    else
      var d := DelayAfter(maxDelay, minDelay, acc, k - 1);
      if k - 1 < acc && d > minDelay then d - Decrement(maxDelay, minDelay, acc) else d
  }

  /** Inside the ramp, `j` decrements leave the delay above the minimum exactly when the ramp is not flat. */
  lemma DecrementStep(maxDelay: real, minDelay: real, acc: int, j: nat)
    requires 0 <= j < acc && minDelay <= maxDelay
    ensures var dec := Decrement(maxDelay, minDelay, acc);
      (maxDelay - j as real * dec > minDelay <==> maxDelay > minDelay)
      && maxDelay - j as real * dec - dec == maxDelay - (j + 1) as real * dec
  {
    var dec := Decrement(maxDelay, minDelay, acc);
    assert dec >= 0.0;
    assert (acc - j) as real * dec == maxDelay - minDelay - j as real * dec;
    if maxDelay > minDelay {
      assert dec > 0.0;
      assert (acc - j) as real * dec > 0.0;
    }
  }

  /** Over exact reals, the delay after `k` iterations is `maxDelay - min(k, acc) * decrement`. */
  lemma {:induction false} DelayClosedForm(maxDelay: real, minDelay: real, acc: int, k: nat)
    requires acc > 0 && minDelay <= maxDelay
    ensures DelayAfter(maxDelay, minDelay, acc, k) == maxDelay - Min(k, acc) as real * Decrement(maxDelay, minDelay, acc)
  {
    if k > 0 {
      DelayClosedForm(maxDelay, minDelay, acc, k - 1);
      if k - 1 < acc {
        DecrementStep(maxDelay, minDelay, acc, k - 1);
      }
    }
  }

  /** The delay reaches the minimum after `acc` iterations and stays there. */
  lemma DelayReachesMinimum(maxDelay: real, minDelay: real, acc: int, k: nat)
    requires acc > 0 && minDelay <= maxDelay && k >= acc
    ensures DelayAfter(maxDelay, minDelay, acc, k) == minDelay
  {
    DelayClosedForm(maxDelay, minDelay, acc, k);
  }

  lemma ScaledDecrement(a: nat, b: nat, dec: real)
    requires a <= b && dec >= 0.0
    ensures a as real * dec <= b as real * dec
  {
    assert b as real * dec - a as real * dec == (b - a) as real * dec;
  }

  lemma ClosedFormBounds(maxDelay: real, minDelay: real, acc: int, m: nat)
    requires acc > 0 && minDelay <= maxDelay && m <= acc
    ensures minDelay <= maxDelay - m as real * Decrement(maxDelay, minDelay, acc) <= maxDelay
  {
    var dec := Decrement(maxDelay, minDelay, acc);
    DecrementNonNegative(maxDelay, minDelay, acc);
    ScaledDecrement(0, m, dec);
    ScaledDecrement(m, acc, dec);
    assert acc as real * dec == maxDelay - minDelay;
  }

  /** Every delay used lies in [minDelay, maxDelay]. */
  lemma DelayBounds(maxDelay: real, minDelay: real, acc: int, k: nat)
    requires acc > 0 && minDelay <= maxDelay
    ensures minDelay <= DelayAfter(maxDelay, minDelay, acc, k) <= maxDelay
  {
    DelayClosedForm(maxDelay, minDelay, acc, k);
    ClosedFormBounds(maxDelay, minDelay, acc, Min(k, acc));
  }

  /** The delay never grows from one iteration to a later one. */
  lemma DelayNonIncreasing(maxDelay: real, minDelay: real, acc: int, j: nat, k: nat)
    requires acc > 0 && minDelay <= maxDelay && j <= k
    ensures DelayAfter(maxDelay, minDelay, acc, k) <= DelayAfter(maxDelay, minDelay, acc, j)
  {
    var dec := Decrement(maxDelay, minDelay, acc);
    DecrementNonNegative(maxDelay, minDelay, acc);
    ScaledDecrement(Min(j, acc), Min(k, acc), dec);
    DelayClosedForm(maxDelay, minDelay, acc, j);
    DelayClosedForm(maxDelay, minDelay, acc, k);
  }

  /** The half-periods of the first `n` pulses. */
  function SoftStartDelays(maxDelay: real, minDelay: real, acc: int, n: nat): (r: seq<real>)
    requires acc != 0
    ensures |r| == n
    ensures forall k :: 0 <= k < n ==> r[k] == DelayAfter(maxDelay, minDelay, acc, k)
  {
    seq(n, k requires 0 <= k => DelayAfter(maxDelay, minDelay, acc, k))
  }

  /** The soft start begins at `maxDelay`. */
  lemma SoftStartFirst(maxDelay: real, minDelay: real, acc: int, n: nat)
    requires acc != 0 && n > 0
    ensures SoftStartDelays(maxDelay, minDelay, acc, n)[0] == maxDelay
  {
  }

  /** The writes before stepping: enable the driver (LOW), DIR HIGH, then MS1..MS3 HIGH for sixteenth steps. */
  function SetupTrace(): seq<Event>
  {
    [Output(EnablePin, Low), Output(DirPin, High)]
    + MsTrace(DriverPins(StepPin, DirPin, Ms1Pin, Ms2Pin, Ms3Pin), Levels(MicrostepResolution).value)
  }

  /** The whole run of the script: setup, one revolution of soft-start pulses, driver disabled. */
  function ScriptTrace(): seq<Event>
  {
    SetupTrace()
    + Pulses(StepPin, SoftStartDelays(ScriptMaxDelay, ScriptMinDelay, ScriptAccelerationSteps, TotalSteps))
    + [Output(EnablePin, High)]
  }

  /** The script enables the driver first, disables it last and pulses exactly one revolution of sixteenth steps. */
  lemma ScriptShape()
    ensures ScriptTrace()[0] == Output(EnablePin, Low)
    ensures ScriptTrace()[|ScriptTrace()| - 1] == Output(EnablePin, High)
    ensures SetupTrace()[2..] == [Output(Ms1Pin, High), Output(Ms2Pin, High), Output(Ms3Pin, High)]
    ensures PulseCount(ScriptTrace(), StepPin) == TotalSteps
  {
    var pulses := Pulses(StepPin, SoftStartDelays(ScriptMaxDelay, ScriptMinDelay, ScriptAccelerationSteps, TotalSteps));
    var setup := SetupTrace();
    CountConcat(setup + pulses, [Output(EnablePin, High)], Output(StepPin, High));
    CountConcat(setup, pulses, Output(StepPin, High));
    PulsesCount(StepPin, SoftStartDelays(ScriptMaxDelay, ScriptMinDelay, ScriptAccelerationSteps, TotalSteps));
    assert [Output(EnablePin, High)][..0] == [];
    var e := Output(StepPin, High);
    assert setup == [Output(EnablePin, Low), Output(DirPin, High), Output(Ms1Pin, High), Output(Ms2Pin, High), Output(Ms3Pin, High)];
    var s4, s3, s2, s1 := setup[..4], setup[..3], setup[..2], setup[..1];
    assert s4[..3] == s3 && s3[..2] == s2 && s2[..1] == s1 && s1[..0] == [];
    assert Count(s1, e) == 0;
    assert Count(s2, e) == 0;
    assert Count(s3, e) == 0;
    assert Count(s4, e) == 0;
    assert Count(setup, e) == 0;
  }

  /** The GPIO writes of the script, in order. */
  class SoftStartScript {
    var trace: seq<Event>

    constructor ()
      ensures trace == []
    {
      trace := [];
    }

    /**
     * `smooth_start`: `max(steps, 0)` pulses whose half-period follows
     * `DelayAfter`. A zero `accelerationSteps` divides by zero before any pulse.
     */
    method SmoothStart(steps: int, maxDelay: real, minDelay: real, accelerationSteps: int) returns (status: Status)
      modifies this`trace
      ensures accelerationSteps == 0 ==> status == ZeroDivisionError && trace == old(trace)
      ensures accelerationSteps != 0 ==> (status == Ok
        && trace == old(trace) + Pulses(StepPin, SoftStartDelays(maxDelay, minDelay, accelerationSteps, Max(steps, 0))))
    {
      var delay := maxDelay;
      if accelerationSteps == 0 {
        return ZeroDivisionError;
      }
      var delayDecrement := (maxDelay - minDelay) / accelerationSteps as real;
      ghost var start := trace;
      ghost var delays := SoftStartDelays(maxDelay, minDelay, accelerationSteps, Max(steps, 0));
      for step := 0 to Max(steps, 0)
        modifies this`trace
        invariant delay == DelayAfter(maxDelay, minDelay, accelerationSteps, step)
        invariant trace == start + Pulses(StepPin, delays[..step])
      {
        ghost var before := trace;
        trace := trace + [Output(StepPin, High)];
        trace := trace + [Sleep(delay)];
        trace := trace + [Output(StepPin, Low)];
        trace := trace + [Sleep(delay)];
        PulseStep(start, before, trace, StepPin, delays, step, delay);
        assert trace == start + Pulses(StepPin, delays[..step + 1]);
        if step < accelerationSteps && delay > minDelay {
          delay := delay - delayDecrement;
        }
      }
      assert delays[..|delays|] == delays;
      status := Ok;
    }

    /** The script body: setup writes, the soft start with the script's parameters, then disabling the driver. */
    method Run()
      modifies this`trace
      ensures trace == old(trace) + ScriptTrace()
    {
      trace := trace + [Output(EnablePin, Low)];
      trace := trace + [Output(DirPin, High)];
      trace := trace + [Output(Ms1Pin, High)];
      trace := trace + [Output(Ms2Pin, High)];
      trace := trace + [Output(Ms3Pin, High)];
      ghost var afterSetup := trace;
      var status := SmoothStart(TotalSteps, ScriptMaxDelay, ScriptMinDelay, ScriptAccelerationSteps);
      trace := trace + [Output(EnablePin, High)];
      assert afterSetup == old(trace) + SetupTrace();
    }
  }
}
