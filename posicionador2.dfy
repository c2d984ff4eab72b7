/**
 * `Posicionador/Posicionador2.py`: a STEP/DIR (A4988) stepper that moves
 * between discrete positions in a fixed time `total_time` per move: half of
 * it spent pulsing, the other half resting at the target.
 */
module Posicionador2 {
  import opened Numbers
  import opened Gpio

  /** `(total_time / 2) / (steps or 1)`: the period of one pulse, so that all pulses together last `total_time / 2`. */
  function DelayPerStep(totalTime: real, steps: nat): (r: real)
    ensures steps == 0 ==> r == totalTime / 2.0
    ensures steps > 0 ==> r * steps as real == totalTime / 2.0
  {
    (totalTime / 2.0) / (if steps == 0 then 1 else steps) as real
  }

  /** `(target - current) * steps_per_position`: the signed number of steps of a move. */
  function SignedSteps(current: int, target: int, stepsPerPosition: int): int
  {
    (target - current) * stepsPerPosition
  }

  /** DIR goes HIGH exactly when the signed step count is positive: towards larger positions for a positive `steps_per_position`. */
  lemma DirectionOfMove(current: int, target: int, stepsPerPosition: int)
    requires stepsPerPosition > 0
    ensures SignedSteps(current, target, stepsPerPosition) > 0 <==> target > current
  {
    if target > current {
      ProductPositive(target - current, stepsPerPosition);
    } else {
      ProductNonPositive(target - current, stepsPerPosition);
    }
  }

  lemma ProductPositive(a: int, b: int)
    requires a > 0 && b > 0
    ensures a * b > 0
  {
  }

  lemma ProductNonPositive(a: int, b: int)
    requires a <= 0 && b > 0
    ensures a * b <= 0
  {
  }

  /** The pulse count of a move is `|target - current| * |steps_per_position|`. */
  lemma StepCount(current: int, target: int, stepsPerPosition: int)
    ensures Abs(SignedSteps(current, target, stepsPerPosition)) == Abs(target - current) * Abs(stepsPerPosition)
  {
    var d := target - current;
    if d < 0 && stepsPerPosition < 0 {
      assert d * stepsPerPosition == (-d) * (-stepsPerPosition);
    } else if d < 0 {
      assert -(d * stepsPerPosition) == (-d) * stepsPerPosition;
    } else if stepsPerPosition < 0 {
      assert -(d * stepsPerPosition) == d * (-stepsPerPosition);
    }
  }

  /** The half-period of every pulse of a move of `steps` steps. */
  function Halves(totalTime: real, steps: nat): (r: seq<real>)
    ensures |r| == steps
  {
    Constant(steps, DelayPerStep(totalTime, steps) / 2.0)
  }

  /** What `move_to` writes: DIR, the pulses, then the rest of `total_time / 2` at the target. */
  function MoveTrace(dirPin: int, stepPin: int, stepsPerPosition: int, totalTime: real, current: int, target: int): seq<Event>
  {
    var steps := SignedSteps(current, target, stepsPerPosition);
    [Output(dirPin, if steps > 0 then High else Low)]
    + Pulses(stepPin, Halves(totalTime, Abs(steps)))
    + [Sleep(totalTime / 2.0)]
  }

  /** `move_to` emits `|target - current| * |steps_per_position|` pulses on STEP. */
  lemma MovePulseCount(dirPin: int, stepPin: int, stepsPerPosition: int, totalTime: real, current: int, target: int)
    requires dirPin != stepPin
    ensures PulseCount(MoveTrace(dirPin, stepPin, stepsPerPosition, totalTime, current, target), stepPin)
         == Abs(target - current) * Abs(stepsPerPosition)
  {
    var steps := SignedSteps(current, target, stepsPerPosition);
    var dir := [Output(dirPin, if steps > 0 then High else Low)];
    var pulses := Pulses(stepPin, Halves(totalTime, Abs(steps)));
    CountConcat(dir + pulses, [Sleep(totalTime / 2.0)], Output(stepPin, High));
    CountConcat(dir, pulses, Output(stepPin, High));
    assert dir[..0] == [];
    assert [Sleep(totalTime / 2.0)][..0] == [];
    PulsesCount(stepPin, Halves(totalTime, Abs(steps)));
    StepCount(current, target, stepsPerPosition);
  }

  lemma HalvesTotal(totalTime: real, steps: nat)
    requires steps > 0
    ensures 2.0 * Sum(Halves(totalTime, steps)) == totalTime / 2.0
  {
    var d := DelayPerStep(totalTime, steps);
    SumConstant(steps, d / 2.0);
    assert 2.0 * (steps as real * (d / 2.0)) == d * steps as real;
  }

  /** The pulses of a move that steps at all last exactly `total_time / 2`. */
  lemma PulsesTakeHalf(stepPin: int, totalTime: real, steps: nat)
    requires steps > 0
    ensures SleepTotal(Pulses(stepPin, Halves(totalTime, steps))) == totalTime / 2.0
  {
    PulsesSleepTotal(stepPin, Halves(totalTime, steps));
    HalvesTotal(totalTime, steps);
  }

  /** A move that steps takes `total_time` in all; a move of zero steps only rests, for `total_time / 2`. */
  lemma MoveDuration(dirPin: int, stepPin: int, stepsPerPosition: int, totalTime: real, current: int, target: int)
    ensures SleepTotal(MoveTrace(dirPin, stepPin, stepsPerPosition, totalTime, current, target))
         == if SignedSteps(current, target, stepsPerPosition) != 0 then totalTime else totalTime / 2.0
  {
    var steps := SignedSteps(current, target, stepsPerPosition);
    var dir := [Output(dirPin, if steps > 0 then High else Low)];
    var pulses := Pulses(stepPin, Halves(totalTime, Abs(steps)));
    SleepTotalConcat(dir + pulses, [Sleep(totalTime / 2.0)]);
    SleepTotalConcat(dir, pulses);
    SleepTotalSingle(dir[0]);
    SleepTotalSingle(Sleep(totalTime / 2.0));
    if steps != 0 {
      PulsesTakeHalf(stepPin, totalTime, Abs(steps));
    } else {
      assert pulses == [];
    }
  }

  /** `follow_positions`: one move per listed position, from the position reached before. */
  function FollowTrace(dirPin: int, stepPin: int, stepsPerPosition: int, totalTime: real, start: int, positions: seq<int>): seq<Event>
  {
    if positions == [] then []
    else
      var n := |positions|;
      FollowTrace(dirPin, stepPin, stepsPerPosition, totalTime, start, positions[..n - 1])
      + MoveTrace(dirPin, stepPin, stepsPerPosition, totalTime, LastOr(start, positions[..n - 1]), positions[n - 1])
  }

  /** Sum of the distances between consecutive positions, starting from `start`. */
  function PathLength(start: int, positions: seq<int>): nat
  {
    if positions == [] then 0
    else
      var n := |positions|;
      PathLength(start, positions[..n - 1]) + Abs(positions[n - 1] - LastOr(start, positions[..n - 1]))
  }

  /** Pulses along a list of positions, move by move. */
  function StepsAlong(stepsPerPosition: int, start: int, positions: seq<int>): nat
  {
    if positions == [] then 0
    else
      var n := |positions|;
      StepsAlong(stepsPerPosition, start, positions[..n - 1])
      + Abs(positions[n - 1] - LastOr(start, positions[..n - 1])) * Abs(stepsPerPosition)
  }

  lemma {:induction false} FollowStepsAlong(dirPin: int, stepPin: int, stepsPerPosition: int, totalTime: real,
                                            start: int, positions: seq<int>)
    requires dirPin != stepPin
    ensures PulseCount(FollowTrace(dirPin, stepPin, stepsPerPosition, totalTime, start, positions), stepPin)
         == StepsAlong(stepsPerPosition, start, positions)
  {
    if positions != [] {
      var n := |positions|;
      var from := LastOr(start, positions[..n - 1]);
      FollowStepsAlong(dirPin, stepPin, stepsPerPosition, totalTime, start, positions[..n - 1]);
      CountConcat(FollowTrace(dirPin, stepPin, stepsPerPosition, totalTime, start, positions[..n - 1]),
                  MoveTrace(dirPin, stepPin, stepsPerPosition, totalTime, from, positions[n - 1]),
                  Output(stepPin, High));
      MovePulseCount(dirPin, stepPin, stepsPerPosition, totalTime, from, positions[n - 1]);
    }
  }

  lemma Distribute(a: nat, b: nat, c: nat)
    ensures (a + b) * c == a * c + b * c
  {
  }

  lemma {:induction false} StepsAlongPath(stepsPerPosition: int, start: int, positions: seq<int>)
    ensures StepsAlong(stepsPerPosition, start, positions) == PathLength(start, positions) * Abs(stepsPerPosition)
  {
    if positions != [] {
      var n := |positions|;
      StepsAlongPath(stepsPerPosition, start, positions[..n - 1]);
      Distribute(PathLength(start, positions[..n - 1]), Abs(positions[n - 1] - LastOr(start, positions[..n - 1])),
                 Abs(stepsPerPosition));
    }
  }

  /** Following a list of positions emits `|steps_per_position|` pulses per unit of distance travelled. */
  lemma FollowPulseCount(dirPin: int, stepPin: int, stepsPerPosition: int, totalTime: real, start: int, positions: seq<int>)
    requires dirPin != stepPin
    ensures PulseCount(FollowTrace(dirPin, stepPin, stepsPerPosition, totalTime, start, positions), stepPin)
         == PathLength(start, positions) * Abs(stepsPerPosition)
  {
    FollowStepsAlong(dirPin, stepPin, stepsPerPosition, totalTime, start, positions);
    StepsAlongPath(stepsPerPosition, start, positions);
  }

  class StepperMotor {
    const dirPin: int
    const stepPin: int
    const stepsPerPosition: int
    const totalTime: real
    var currentPosition: int
    var trace: seq<Event>

    /** Position 0; no pin is written. */
    constructor (dirPin: int, stepPin: int, stepsPerPosition: int, totalTime: real)
      ensures this.dirPin == dirPin && this.stepPin == stepPin
      ensures this.stepsPerPosition == stepsPerPosition && this.totalTime == totalTime
      ensures currentPosition == 0 && trace == []
    {
      this.dirPin := dirPin;
      this.stepPin := stepPin;
      this.stepsPerPosition := stepsPerPosition;
      this.totalTime := totalTime;
      currentPosition := 0;
      trace := [];
    }

    /** Sets DIR, pulses `|steps|` times at `delay_per_step`, records the target, then rests `total_time / 2`. */
    method MoveTo(targetPosition: int)
      modifies this
      ensures trace == old(trace) + MoveTrace(dirPin, stepPin, stepsPerPosition, totalTime, old(currentPosition), targetPosition)
      ensures currentPosition == targetPosition
    {
      var stepsToMove := (targetPosition - currentPosition) * stepsPerPosition;
      var direction := if stepsToMove > 0 then High else Low;
      stepsToMove := Abs(stepsToMove);
      trace := trace + [Output(dirPin, direction)];
      var moveTime := totalTime / 2.0;
      var delayPerStep := moveTime / (if stepsToMove == 0 then 1 else stepsToMove) as real;
      ghost var start := trace;
      ghost var halves := Halves(totalTime, stepsToMove);
      assert delayPerStep == DelayPerStep(totalTime, stepsToMove);
      for k := 0 to stepsToMove
        invariant trace == start + Pulses(stepPin, halves[..k])
        modifies this`trace
      {
        ghost var before := trace;
        trace := trace + [Output(stepPin, High)];
        trace := trace + [Sleep(delayPerStep / 2.0)];
        trace := trace + [Output(stepPin, Low)];
        trace := trace + [Sleep(delayPerStep / 2.0)];
        assert halves[k] == delayPerStep / 2.0;
        PulseStep(start, before, trace, stepPin, halves, k, delayPerStep / 2.0);
        assert trace == start + Pulses(stepPin, halves[..k + 1]);
      }
      assert halves[..stepsToMove] == halves;
      currentPosition := targetPosition;
      trace := trace + [Sleep(moveTime)];
      AppendAssoc(old(trace), [Output(dirPin, direction)], Pulses(stepPin, halves));
      AppendAssoc(old(trace), [Output(dirPin, direction)] + Pulses(stepPin, halves), [Sleep(moveTime)]);
    }

    /** Moves to each listed position in turn. */
    method FollowPositions(positions: seq<int>)
      modifies this
      ensures trace == old(trace) + FollowTrace(dirPin, stepPin, stepsPerPosition, totalTime, old(currentPosition), positions)
      ensures currentPosition == LastOr(old(currentPosition), positions)
    {
      for i := 0 to |positions|
        invariant trace == old(trace) + FollowTrace(dirPin, stepPin, stepsPerPosition, totalTime, old(currentPosition), positions[..i])
        invariant currentPosition == LastOr(old(currentPosition), positions[..i])
      {
        ghost var done := FollowTrace(dirPin, stepPin, stepsPerPosition, totalTime, old(currentPosition), positions[..i]);
        ghost var move := MoveTrace(dirPin, stepPin, stepsPerPosition, totalTime, currentPosition, positions[i]);
        assert positions[..i + 1][..i] == positions[..i];
        MoveTo(positions[i]);
        AppendAssoc(old(trace), done, move);
      }
      assert positions[..|positions|] == positions;
    }
  }
}
