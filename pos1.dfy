/**
 * `Posicionador/Pos1.py`: a STEP/DIR driver that turns a list of absolute
 * positions into relative moves `[steps, direction]` and plays a move as a
 * train of step pulses.
 */
module Pos1 {
  import opened Numbers
  import opened Gpio

  /** One row of the steps matrix: a step count and a direction (1 = towards larger positions). */
  datatype Move = Move(steps: int, direction: int)

  /** The signed displacement a move stands for: `+steps` for direction 1, `-steps` otherwise. */
  function Displacement(m: Move): int
  {
    if m.direction == 1 then m.steps else -m.steps
  }

  /** The row for going from `current` to `target`. */
  function MoveBetween(current: int, target: int): (m: Move)
    ensures m.steps >= 0 && (m.direction == 0 || m.direction == 1)
    ensures m.direction == 1 <==> target > current
    ensures current + Displacement(m) == target
  {
    Move(Abs(target - current), if target > current then 1 else 0)
  }

  /** The rows `generate_steps_matrix` builds for `positions`, starting at `start`. */
  function MovesFrom(start: int, positions: seq<int>): (r: seq<Move>)
    ensures |r| == |positions|
  {
    if positions == [] then []
    else
      var n := |positions|;
      MovesFrom(start, positions[..n - 1]) + [MoveBetween(LastOr(start, positions[..n - 1]), positions[n - 1])]
  }

  /** Row `i` goes from the previous position (`start` for the first row) to `positions[i]`. */
  lemma {:induction false} MovesFromAt(start: int, positions: seq<int>, i: nat)
    requires i < |positions|
    ensures MovesFrom(start, positions)[i] == MoveBetween(if i == 0 then start else positions[i - 1], positions[i])
  {
    var n := |positions|;
    if i < n - 1 {
      MovesFromAt(start, positions[..n - 1], i);
    }
  }

  /** The positions reached by playing `moves` from `start`, one per move. */
  function Replay(start: int, moves: seq<Move>): (r: seq<int>)
    ensures |r| == |moves|
  {
    if moves == [] then []
    else
      var n := |moves|;
      var before := Replay(start, moves[..n - 1]);
      before + [LastOr(start, before) + Displacement(moves[n - 1])]
  }

  /** Round trip: replaying the steps matrix from the same start reproduces every position. */
  lemma {:induction false} ReplayMovesFrom(start: int, positions: seq<int>)
    ensures Replay(start, MovesFrom(start, positions)) == positions
  {
    if positions != [] {
      var n := |positions|;
      var moves := MovesFrom(start, positions);
      ReplayMovesFrom(start, positions[..n - 1]);
      assert moves[..n - 1] == MovesFrom(start, positions[..n - 1]);
      assert positions == positions[..n - 1] + [positions[n - 1]];
    }
  }

  /** What `move_steps` writes for an accepted direction: DIR, then `max(steps, 0)` pulses of `delay / 2` halves. */
  function MoveStepsTrace(stepPin: int, dirPin: int, steps: int, direction: int, delay: real): seq<Event>
  {
    [Output(dirPin, if direction == 0 then High else Low)] + Pulses(stepPin, Constant(Max(steps, 0), delay / 2.0))
  }

  lemma Halves(n: real, delay: real)
    ensures 2.0 * (n * (delay / 2.0)) == n * delay
  {
  }

  /** `move_steps` drives exactly `max(steps, 0)` pulses on STEP. */
  lemma MoveStepsPulseCount(stepPin: int, dirPin: int, steps: int, direction: int, delay: real)
    requires stepPin != dirPin
    ensures PulseCount(MoveStepsTrace(stepPin, dirPin, steps, direction, delay), stepPin) == Max(steps, 0)
  {
    var dir := [Output(dirPin, if direction == 0 then High else Low)];
    var halves := Constant(Max(steps, 0), delay / 2.0);
    CountConcat(dir, Pulses(stepPin, halves), Output(stepPin, High));
    assert dir[..0] == [];
    PulsesCount(stepPin, halves);
  }

  /** `move_steps` waits `delay` per pulse: `max(steps, 0) * delay` seconds in all. */
  lemma MoveStepsDuration(stepPin: int, dirPin: int, steps: int, direction: int, delay: real)
    ensures SleepTotal(MoveStepsTrace(stepPin, dirPin, steps, direction, delay)) == Max(steps, 0) as real * delay
  {
    var n := Max(steps, 0);
    var dir := [Output(dirPin, if direction == 0 then High else Low)];
    var halves := Constant(n, delay / 2.0);
    SleepTotalConcat(dir, Pulses(stepPin, halves));
    SleepTotalSingle(dir[0]);
    PulsesSleepTotal(stepPin, halves);
    SumConstant(n, delay / 2.0);
    Halves(n as real, delay);
  }

  class BipolarMotor {
    const stepPin: int
    const dirPin: int
    var trace: seq<Event>

    /** Drives STEP and DIR low. */
    constructor (stepPin: int, dirPin: int)
      ensures this.stepPin == stepPin && this.dirPin == dirPin
      ensures trace == [Output(stepPin, Low), Output(dirPin, Low)]
    {
      this.stepPin := stepPin;
      this.dirPin := dirPin;
      trace := [Output(stepPin, Low), Output(dirPin, Low)];
    }

    /** Direction 0 drives DIR high and 1 drives it low; any other value raises before any write. */
    method MoveSteps(steps: int, direction: int, delay: real) returns (status: Status)
      modifies this
      ensures status == Ok <==> direction == 0 || direction == 1
      ensures status == Ok ==> trace == old(trace) + MoveStepsTrace(stepPin, dirPin, steps, direction, delay)
      ensures status != Ok ==> status == ValueError && trace == old(trace)
    {
      if direction == 0 {
        trace := trace + [Output(dirPin, High)];
      } else if direction == 1 {
        trace := trace + [Output(dirPin, Low)];
      } else {
        return ValueError;
      }
      ghost var start := trace;
      var halves := Constant(Max(steps, 0), delay / 2.0);
      var k := 0;
      while k < steps
        invariant 0 <= k <= Max(steps, 0)
        invariant trace == start + Pulses(stepPin, halves[..k])
      {
        ghost var before := trace;
        trace := trace + [Output(stepPin, High)];
        trace := trace + [Sleep(delay / 2.0)];
        trace := trace + [Output(stepPin, Low)];
        trace := trace + [Sleep(delay / 2.0)];
        assert halves[k] == delay / 2.0;
        PulseStep(start, before, trace, stepPin, halves, k, delay / 2.0);
        assert trace == start + Pulses(stepPin, halves[..k + 1]);
        k := k + 1;
      }
      assert halves[..k] == halves;
      AppendAssoc(old(trace), [Output(dirPin, if direction == 0 then High else Low)], Pulses(stepPin, halves));
      return Ok;
    }

    /** `generate_steps_matrix`: one row per position, in order, starting from position 0. */
    method GenerateStepsMatrix(positions: seq<int>) returns (matrix: seq<Move>)
      ensures matrix == MovesFrom(0, positions)
    {
      var currentPosition := 0;
      matrix := [];
      for i := 0 to |positions|
        invariant matrix == MovesFrom(0, positions[..i])
        invariant currentPosition == LastOr(0, positions[..i])
      {
        var targetPosition := positions[i];
        var steps := Abs(targetPosition - currentPosition);
        var direction := if targetPosition > currentPosition then 1 else 0;
        matrix := matrix + [Move(steps, direction)];
        currentPosition := targetPosition;
        assert positions[..i + 1][..i] == positions[..i];
      }
      assert positions[..|positions|] == positions;
    }

    /** Drives STEP and DIR low again. */
    method Cleanup()
      modifies this
      ensures trace == old(trace) + [Output(stepPin, Low), Output(dirPin, Low)]
    {
      trace := trace + [Output(stepPin, Low)];
      trace := trace + [Output(dirPin, Low)];
    }
  }
}
