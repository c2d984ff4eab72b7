/**
 * `StepperMotor_bipolar/BipolarMotor.py`, class `StepperMotor`: a STEP/DIR
 * driver with a precomputed table of step delays, a pulse loop that walks
 * the table and counts every pulse in `state_changes`, and a speed
 * measurement from two readings of that counter.
 */
module BipolarMotor {
  import opened Numbers
  import opened Gpio

  const StepsPerRevolution := 200
  const TableLength := 1000

  /** Entry `i` of the delay table: `(i / 101) * (1 / (speed * 200))`. */
  function TableDelay(speed: real, i: nat): real
    requires speed != 0.0
  {
    (i as real / 101.0) * (1.0 / (speed * StepsPerRevolution as real))
  }

  /** The table `calculate_delays` stores. */
  function DelayTable(speed: real): (r: seq<real>)
    requires speed != 0.0
    ensures |r| == TableLength
    ensures forall i :: 0 <= i < TableLength ==> r[i] == TableDelay(speed, i)
  {
    seq(TableLength, i requires 0 <= i => TableDelay(speed, i))
  }

  /** The table starts at zero and, for a positive speed, never decreases. */
  lemma DelayTableShape(speed: real, i: nat, j: nat)
    requires speed > 0.0 && i <= j < TableLength
    ensures DelayTable(speed)[0] == 0.0
    ensures 0.0 <= DelayTable(speed)[i] <= DelayTable(speed)[j]
  {
    var base := 1.0 / (speed * StepsPerRevolution as real);
    assert base > 0.0;
    assert (j as real / 101.0) * base - (i as real / 101.0) * base == ((j - i) as real / 101.0) * base;
  }

  /** The half-period of pulse `k`: half the table entry at the saturated index `min(k, |delays| - 1)`. */
  function PulseHalves(delays: seq<real>, n: nat): (r: seq<real>)
    requires |delays| > 0
    ensures |r| == n
    ensures forall k :: 0 <= k < n ==> r[k] == delays[Min(k, |delays| - 1)] / 2.0
  {
    seq(n, k requires 0 <= k => delays[Min(k, |delays| - 1)] / 2.0)
  }

  /** Once the index has saturated, every later pulse uses the last table entry. */
  lemma PulseHalvesSaturate(delays: seq<real>, n: nat, k: nat)
    requires |delays| > 0 && |delays| - 1 <= k < n
    ensures PulseHalves(delays, n)[k] == delays[|delays| - 1] / 2.0
  {
  }

  /** What `move` writes: DIR, then one pulse per listed half-period. */
  function MoveTrace(stepPin: int, dirPin: int, forward: bool, halves: seq<real>): seq<Event>
  {
    [Output(dirPin, if forward then High else Low)] + Pulses(stepPin, halves)
  }

  /** `state_changes` advances by one per rising edge on STEP. */
  lemma MovePulseCount(stepPin: int, dirPin: int, forward: bool, halves: seq<real>)
    requires stepPin != dirPin
    ensures PulseCount(MoveTrace(stepPin, dirPin, forward, halves), stepPin) == |halves|
  {
    var dir := [Output(dirPin, if forward then High else Low)];
    CountConcat(dir, Pulses(stepPin, halves), Output(stepPin, High));
    assert dir[..0] == [];
    PulsesCount(stepPin, halves);
  }

  /** `medir_velocidad`: `(final - initial) / 200 / duration` from two readings of the counter. */
  function MeasuredRps(initialChanges: int, finalChanges: int, duration: real): (r: real)
    requires duration > 0.0
    ensures r * duration * StepsPerRevolution as real == (finalChanges - initialChanges) as real
  {
    ((finalChanges - initialChanges) as real / StepsPerRevolution as real) / duration
  }

  /** A counter that never decreases gives a non-negative speed. */
  lemma MeasuredRpsNonNegative(initialChanges: int, finalChanges: int, duration: real)
    requires duration > 0.0 && initialChanges <= finalChanges
    ensures MeasuredRps(initialChanges, finalChanges, duration) >= 0.0
  {
    var steps := (finalChanges - initialChanges) as real / StepsPerRevolution as real;
    assert steps >= 0.0;
  }

  class StepperMotor {
    const stepPin: int
    const dirPin: int
    const speed: real
    var stateChanges: int
    var running: bool
    /** `self.delays`; empty until `calculate_delays` fills it. */
    var delays: seq<real>
    var trace: seq<Event>

    /** Drives STEP and DIR low; the counter starts at 0 and the motor is not running. */
    constructor (stepPin: int, dirPin: int, speed: real)
      ensures this.stepPin == stepPin && this.dirPin == dirPin && this.speed == speed
      ensures stateChanges == 0 && !running && delays == []
      ensures trace == [Output(stepPin, Low), Output(dirPin, Low)]
    {
      this.stepPin := stepPin;
      this.dirPin := dirPin;
      this.speed := speed;
      stateChanges := 0;
      delays := [];
      trace := [Output(stepPin, Low), Output(dirPin, Low)];
      running := false;
    }

    /**
     * `calculate_delays`: stores the 1000-entry table and then fails on the
     * undefined name it returns. A zero speed divides by zero with the table
     * just emptied.
     */
    method CalculateDelays() returns (status: Status)
      modifies this`delays
      ensures speed == 0.0 ==> status == ZeroDivisionError && delays == []
      ensures speed != 0.0 ==> status == NameError && delays == DelayTable(speed)
    {
      delays := [];
      if speed == 0.0 {
        return ZeroDivisionError;
      }
      for i := 0 to TableLength
        invariant delays == DelayTable(speed)[..i]
      {
        var factor := i as real / 101.0;
        var delay := factor * (1.0 / (speed * StepsPerRevolution as real));
        assert delay == TableDelay(speed, i);
        assert DelayTable(speed)[..i + 1] == DelayTable(speed)[..i] + [delay];
        delays := delays + [delay];
      }
      return NameError;
    }

    /**
     * `move` up to its `n`-th pulse. "fw" drives DIR high and "bw" low; any
     * other direction raises before `running` is set. An empty table fails
     * on the first pulse, after STEP has gone HIGH.
     */
    method Move(direction: string, n: nat) returns (i: int, status: Status)
      modifies this`trace, this`running, this`stateChanges
      ensures direction != "fw" && direction != "bw" ==>
        (status == ValueError && trace == old(trace) && running == old(running) && stateChanges == old(stateChanges))
      ensures (direction == "fw" || direction == "bw") && delays == [] ==>
        (status == (if n > 0 then IndexError else Ok) && running && stateChanges == old(stateChanges)
         && trace == old(trace) + [Output(dirPin, if direction == "fw" then High else Low)]
                    + (if n > 0 then [Output(stepPin, High)] else []))
      ensures (direction == "fw" || direction == "bw") && delays != [] ==>
        (status == Ok && running && stateChanges == old(stateChanges) + n
         && 0 <= i < |delays| && i == Min(n, |delays| - 1)
         && trace == old(trace) + MoveTrace(stepPin, dirPin, direction == "fw", PulseHalves(delays, n)))
    {
      i := 0;
      if direction == "fw" {
        trace := trace + [Output(dirPin, High)];
      } else if direction == "bw" {
        trace := trace + [Output(dirPin, Low)];
      } else {
        return i, ValueError;
      }
      running := true;
      if delays == [] {
        if n > 0 {
          trace := trace + [Output(stepPin, High)];
          return i, IndexError;
        }
        return i, Ok;
      }
      ghost var start := trace;
      ghost var halves := PulseHalves(delays, n);
      for step := 0 to n
        modifies this`trace, this`stateChanges
        invariant stateChanges == old(stateChanges) + step
        invariant i == Min(step, |delays| - 1)
        invariant trace == start + Pulses(stepPin, halves[..step])
      {
        assert halves[step] == delays[i] / 2.0;
        ghost var before := trace;
        trace := trace + [Output(stepPin, High)];
        trace := trace + [Sleep(delays[i] / 2.0)];
        trace := trace + [Output(stepPin, Low)];
        trace := trace + [Sleep(delays[i] / 2.0)];
        PulseStep(start, before, trace, stepPin, halves, step, delays[i] / 2.0);
        assert trace == start + Pulses(stepPin, halves[..step + 1]);
        stateChanges := stateChanges + 1;
        if i < |delays| - 1 {
          i := i + 1;
        } else {
          i := |delays| - 1;
        }
      }
      assert halves[..n] == halves;
      AppendAssoc(old(trace), [Output(dirPin, if direction == "fw" then High else Low)], Pulses(stepPin, halves));
      status := Ok;
    }

    /** `stop`: clears the running flag and drives STEP low. */
    method Stop()
      modifies this`running, this`trace
      ensures !running
      ensures trace == old(trace) + [Output(stepPin, Low)]
    {
      running := false;
      trace := trace + [Output(stepPin, Low)];
    }
  }
}
