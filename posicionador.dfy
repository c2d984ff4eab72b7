/**
 * `Posicionador/Posicionador.py`: a unipolar stepper driven coil by coil.
 * A move of one position plays the 8-pattern half-step sequence 32 times,
 * forwards or backwards, with `step_delay` seconds after each pattern;
 * `follow_positions` paces each move so its patterns fill `time_interval`.
 */
module Posicionador {
  import opened Numbers
  import opened Gpio

  /** Coil levels A, B, C, D for one step. */
  type Pattern = seq<Level>

  const StepsPerPosition: int := 32

  const FullStepSequence: seq<Pattern> := [
    [High, Low, Low, Low],
    [High, High, Low, Low],
    [Low, High, Low, Low],
    [Low, High, High, Low],
    [Low, Low, High, Low],
    [Low, Low, High, High],
    [Low, Low, Low, High],
    [High, Low, Low, High]
  ]

  const WaveDriveSequence: seq<Pattern> := [
    [High, Low, Low, Low],
    [Low, High, Low, Low],
    [Low, Low, High, Low],
    [Low, Low, Low, High]
  ]

  /** Number of coils on which two equally long patterns differ. */
  function Differences(a: Pattern, b: Pattern): nat
    requires |a| == |b|
  {
    if a == [] then 0
    else Differences(a[..|a| - 1], b[..|b| - 1]) + (if a[|a| - 1] != b[|b| - 1] then 1 else 0)
  }

  /** Number of energised coils in a pattern. */
  function Energised(p: Pattern): nat
  {
    if p == [] then 0 else Energised(p[..|p| - 1]) + (if p[|p| - 1] == High then 1 else 0)
  }

  lemma DifferencesOfFour(a: Pattern, b: Pattern)
    requires |a| == |b| == 4
    ensures Differences(a, b) == (if a[0] != b[0] then 1 else 0) + (if a[1] != b[1] then 1 else 0)
                                + (if a[2] != b[2] then 1 else 0) + (if a[3] != b[3] then 1 else 0)
  {
    assert a[..1][..0] == [] && b[..1][..0] == [];
    assert Differences(a[..1], b[..1]) == (if a[0] != b[0] then 1 else 0);
    assert a[..2][..1] == a[..1] && b[..2][..1] == b[..1];
    assert Differences(a[..2], b[..2]) == Differences(a[..1], b[..1]) + (if a[1] != b[1] then 1 else 0);
    assert a[..3][..2] == a[..2] && b[..3][..2] == b[..2];
    assert Differences(a[..3], b[..3]) == Differences(a[..2], b[..2]) + (if a[2] != b[2] then 1 else 0);
    assert a[..3] == a[..|a| - 1] && b[..3] == b[..|b| - 1];
  }

  lemma EnergisedOfFour(p: Pattern)
    requires |p| == 4
    ensures Energised(p) == (if p[0] == High then 1 else 0) + (if p[1] == High then 1 else 0)
                            + (if p[2] == High then 1 else 0) + (if p[3] == High then 1 else 0)
  {
    assert p[..1][..0] == [];
    assert Energised(p[..1]) == (if p[0] == High then 1 else 0);
    assert p[..2][..1] == p[..1];
    assert Energised(p[..2]) == Energised(p[..1]) + (if p[1] == High then 1 else 0);
    assert p[..3][..2] == p[..2];
    assert Energised(p[..3]) == Energised(p[..2]) + (if p[2] == High then 1 else 0);
    assert p[..3] == p[..|p| - 1];
  }

  /** Half stepping: each pattern, the last one wrapping round to the first, switches exactly one coil. */
  lemma FullStepAdjacent(i: nat)
    requires i < |FullStepSequence|
    ensures |FullStepSequence[i]| == |FullStepSequence[(i + 1) % 8]| == 4
    ensures Differences(FullStepSequence[i], FullStepSequence[(i + 1) % 8]) == 1
  {
    DifferencesOfFour(FullStepSequence[i], FullStepSequence[(i + 1) % 8]);
  }

  /** Wave drive energises exactly one coil per pattern. */
  lemma WaveDriveSingleCoil(i: nat)
    requires i < |WaveDriveSequence|
    ensures Energised(WaveDriveSequence[i]) == 1
  {
    EnergisedOfFour(WaveDriveSequence[i]);
  }

  /** `set_step`: one write per (pin, level) pair of `zip(pins, step)`, which stops at the shorter list. */
  function SetStepTrace(pins: seq<int>, step: Pattern): (r: seq<Event>)
    ensures |r| == Min(|pins|, |step|)
    ensures forall k :: 0 <= k < |r| ==> r[k] == Output(pins[k], step[k])
  {
    seq(Min(|pins|, |step|), k requires 0 <= k < Min(|pins|, |step|) => Output(pins[k], step[k]))
  }

  /** The patterns in the order `move_to` plays them: as listed going forward, reversed otherwise. */
  function Order(forward: bool): (r: seq<Pattern>)
    ensures |r| == 8
    ensures forall k :: 0 <= k < 8 ==> r[k] == if forward then FullStepSequence[k] else FullStepSequence[7 - k]
  {
    if forward then FullStepSequence else seq(8, k requires 0 <= k < 8 => FullStepSequence[7 - k])
  }

  /** All patterns of `rounds` passes over the sequence. */
  function Schedule(forward: bool, rounds: nat): (r: seq<Pattern>)
    ensures |r| == 8 * rounds
  {
    if rounds == 0 then [] else Schedule(forward, rounds - 1) + Order(forward)
  }

  /** Pattern `k` of a schedule is pattern `k mod 8` of the sequence, or of its reverse. */
  lemma {:induction false} ScheduleAt(forward: bool, rounds: nat, k: nat)
    requires k < 8 * rounds
    ensures Schedule(forward, rounds)[k] ==
      if forward then FullStepSequence[k % 8] else FullStepSequence[7 - k % 8]
  {
    if k < 8 * (rounds - 1) {
      ScheduleAt(forward, rounds - 1, k);
    } else {
      assert k % 8 == k - 8 * (rounds - 1);
    }
  }

  /** `move_to` from `current` to `target`: `|target - current| * 32` passes, forward iff the target is larger. */
  function ScheduleFor(current: int, target: int): seq<Pattern>
  {
    Schedule(target > current, Abs(target - current) * StepsPerPosition)
  }

  /** The signed step count `move_to` computes has the sign of the move and magnitude `|target - current| * 32`. */
  lemma SignedSteps(current: int, target: int)
    ensures (target - current) * StepsPerPosition > 0 <==> target > current
    ensures Abs((target - current) * StepsPerPosition) == Abs(target - current) * StepsPerPosition
  {
  }

  /** Each pattern written, then `delay` seconds of sleep. */
  function StepsTrace(pins: seq<int>, patterns: seq<Pattern>, delay: real): seq<Event>
  {
    if patterns == [] then []
    else
      var n := |patterns|;
      StepsTrace(pins, patterns[..n - 1], delay) + SetStepTrace(pins, patterns[n - 1]) + [Sleep(delay)]
  }

  lemma ScheduleAppend(done: seq<Pattern>, order: seq<Pattern>, k: nat)
    requires k < |order|
    ensures done + order[..k + 1] == (done + order[..k]) + [order[k]]
  {
    assert order[..k + 1] == order[..k] + [order[k]];
  }

  lemma StepsTraceAppend(pins: seq<int>, patterns: seq<Pattern>, p: Pattern, delay: real)
    ensures StepsTrace(pins, patterns + [p], delay) == StepsTrace(pins, patterns, delay) + SetStepTrace(pins, p) + [Sleep(delay)]
  {
    assert (patterns + [p])[..|patterns|] == patterns;
  }

  /** One more pattern adds one `delay` of sleep. */
  lemma StepsTraceSleepLast(pins: seq<int>, patterns: seq<Pattern>, delay: real)
    requires patterns != []
    ensures SleepTotal(StepsTrace(pins, patterns, delay))
         == SleepTotal(StepsTrace(pins, patterns[..|patterns| - 1], delay)) + delay
  {
    var n := |patterns|;
    var prefix := StepsTrace(pins, patterns[..n - 1], delay);
    var writes := SetStepTrace(pins, patterns[n - 1]);
    SleepTotalOutputs(writes);
    SleepTotalConcat(prefix, writes);
    SleepTotalConcat(prefix + writes, [Sleep(delay)]);
    SleepTotalSingle(Sleep(delay));
  }

  lemma {:induction false} StepsTraceSleepSum(pins: seq<int>, patterns: seq<Pattern>, delay: real)
    ensures SleepTotal(StepsTrace(pins, patterns, delay)) == Sum(Constant(|patterns|, delay))
  {
    if patterns != [] {
      var n := |patterns|;
      StepsTraceSleepLast(pins, patterns, delay);
      StepsTraceSleepSum(pins, patterns[..n - 1], delay);
      assert Constant(n, delay)[..n - 1] == Constant(n - 1, delay);
    }
  }

  /** Writing pattern `k` of a pass and sleeping extends the trace of the first `k` patterns by one. */
  lemma PassStep(start: seq<Event>, pins: seq<int>, done: seq<Pattern>, order: seq<Pattern>, k: nat, delay: real)
    requires k < |order|
    ensures start + StepsTrace(pins, done + order[..k], delay) + SetStepTrace(pins, order[k]) + [Sleep(delay)]
         == start + StepsTrace(pins, done + order[..k + 1], delay)
  {
    ScheduleAppend(done, order, k);
    StepsTraceAppend(pins, done + order[..k], order[k], delay);
    AppendAssoc(start, StepsTrace(pins, done + order[..k], delay) + SetStepTrace(pins, order[k]), [Sleep(delay)]);
    AppendAssoc(start, StepsTrace(pins, done + order[..k], delay), SetStepTrace(pins, order[k]));
  }

  /** Playing `n` patterns sleeps `n * delay` seconds. */
  lemma StepsTraceSleep(pins: seq<int>, patterns: seq<Pattern>, delay: real)
    ensures SleepTotal(StepsTrace(pins, patterns, delay)) == |patterns| as real * delay
  {
    StepsTraceSleepSum(pins, patterns, delay);
    SumConstant(|patterns|, delay);
  }

  /** `move_to` writes `256 * |target - current|` patterns: none when already there. */
  lemma MoveToPatternCount(current: int, target: int)
    ensures |ScheduleFor(current, target)| == 256 * Abs(target - current)
    ensures target == current ==> ScheduleFor(current, target) == []
  {
  }

  /** `calculate_speed`: the motor's own delay when not moving, else the interval spread over every pattern written. */
  function CalculateSpeed(stepDelay: real, currentPos: int, nextPos: int, timeInterval: real): (r: real)
    ensures currentPos == nextPos ==> r == stepDelay
    ensures currentPos != nextPos ==> r * |ScheduleFor(currentPos, nextPos)| as real == timeInterval
  {
    var distance := Abs(nextPos - currentPos) * StepsPerPosition;
    if distance == 0 then stepDelay else timeInterval / (distance * |FullStepSequence|) as real
  }

  /** A move paced by `calculate_speed` spends exactly `time_interval` writing patterns. */
  lemma PacedMoveTakesInterval(pins: seq<int>, stepDelay: real, currentPos: int, nextPos: int, timeInterval: real)
    requires currentPos != nextPos
    ensures SleepTotal(StepsTrace(pins, ScheduleFor(currentPos, nextPos),
                                  CalculateSpeed(stepDelay, currentPos, nextPos, timeInterval))) == timeInterval
  {
    StepsTraceSleep(pins, ScheduleFor(currentPos, nextPos), CalculateSpeed(stepDelay, currentPos, nextPos, timeInterval));
  }

  /** `step_delay` after following `positions` from `start`. */
  function DelayAfter(stepDelay: real, start: int, positions: seq<int>, timeInterval: real): real
  {
    if positions == [] then stepDelay
    else
      var n := |positions|;
      CalculateSpeed(DelayAfter(stepDelay, start, positions[..n - 1], timeInterval),
                     LastOr(start, positions[..n - 1]), positions[n - 1], timeInterval)
  }

  /** One position of `follow_positions`: the move from `from` to `to` at `delay` per pattern, then a rest of `time_interval`. */
  function FollowSegment(pins: seq<int>, from: int, to: int, delay: real, timeInterval: real): seq<Event>
  {
    StepsTrace(pins, ScheduleFor(from, to), delay) + [Sleep(timeInterval)]
  }

  /** `follow_positions`: per position, the paced move and then a rest of `time_interval`. */
  function FollowTrace(pins: seq<int>, stepDelay: real, start: int, positions: seq<int>, timeInterval: real): seq<Event>
  {
    if positions == [] then []
    else
      var n := |positions|;
      FollowTrace(pins, stepDelay, start, positions[..n - 1], timeInterval)
      + FollowSegment(pins, LastOr(start, positions[..n - 1]), positions[n - 1],
                      DelayAfter(stepDelay, start, positions, timeInterval), timeInterval)
  }

  /** Number of listed positions that differ from the one before (`start` before the first). */
  function Changes(start: int, positions: seq<int>): nat
  {
    if positions == [] then 0
    else
      var n := |positions|;
      Changes(start, positions[..n - 1]) + (if LastOr(start, positions[..n - 1]) != positions[n - 1] then 1 else 0)
  }

  /** Following one more position appends its paced move and a rest of `time_interval`. */
  lemma FollowStep(pins: seq<int>, stepDelay: real, start: int, positions: seq<int>, i: nat, timeInterval: real)
    requires i < |positions|
    ensures LastOr(start, positions[..i + 1]) == positions[i]
    ensures DelayAfter(stepDelay, start, positions[..i + 1], timeInterval)
         == CalculateSpeed(DelayAfter(stepDelay, start, positions[..i], timeInterval),
                           LastOr(start, positions[..i]), positions[i], timeInterval)
    ensures FollowTrace(pins, stepDelay, start, positions[..i + 1], timeInterval)
         == FollowTrace(pins, stepDelay, start, positions[..i], timeInterval)
            + FollowSegment(pins, LastOr(start, positions[..i]), positions[i],
                            DelayAfter(stepDelay, start, positions[..i + 1], timeInterval), timeInterval)
  {
    assert positions[..i + 1][..i] == positions[..i];
  }

  /** A segment rests one interval, and moves for one more when it changes position. */
  lemma FollowSegmentSleep(pins: seq<int>, stepDelay: real, from: int, to: int, timeInterval: real)
    ensures SleepTotal(FollowSegment(pins, from, to, CalculateSpeed(stepDelay, from, to, timeInterval), timeInterval))
         == if from != to then timeInterval + timeInterval else timeInterval
  {
    var move := StepsTrace(pins, ScheduleFor(from, to), CalculateSpeed(stepDelay, from, to, timeInterval));
    SleepTotalConcat(move, [Sleep(timeInterval)]);
    SleepTotalSingle(Sleep(timeInterval));
    if from != to {
      PacedMoveTakesInterval(pins, stepDelay, from, to, timeInterval);
    } else {
      assert move == [];
    }
  }

  /** The last position adds one interval of rest, and one more of moving when it differs from the one before. */
  lemma FollowSleepLast(pins: seq<int>, stepDelay: real, start: int, positions: seq<int>, timeInterval: real)
    requires positions != []
    ensures SleepTotal(FollowTrace(pins, stepDelay, start, positions, timeInterval))
         == SleepTotal(FollowTrace(pins, stepDelay, start, positions[..|positions| - 1], timeInterval))
            + (if LastOr(start, positions[..|positions| - 1]) != positions[|positions| - 1]
               then timeInterval + timeInterval else timeInterval)
  {
    var n := |positions|;
    var from := LastOr(start, positions[..n - 1]);
    SleepTotalConcat(FollowTrace(pins, stepDelay, start, positions[..n - 1], timeInterval),
                     FollowSegment(pins, from, positions[n - 1], DelayAfter(stepDelay, start, positions, timeInterval), timeInterval));
    FollowSegmentSleep(pins, DelayAfter(stepDelay, start, positions[..n - 1], timeInterval), from, positions[n - 1], timeInterval);
  }

  /** The rest and moving time `follow_positions` spends, position by position. */
  function FollowSleep(start: int, positions: seq<int>, timeInterval: real): real
  {
    if positions == [] then 0.0
    else
      var n := |positions|;
      FollowSleep(start, positions[..n - 1], timeInterval)
      + (if LastOr(start, positions[..n - 1]) != positions[n - 1] then timeInterval + timeInterval else timeInterval)
  }

  lemma {:induction false} FollowSleepSum(pins: seq<int>, stepDelay: real, start: int, positions: seq<int>, timeInterval: real)
    ensures SleepTotal(FollowTrace(pins, stepDelay, start, positions, timeInterval)) == FollowSleep(start, positions, timeInterval)
  {
    if positions != [] {
      FollowSleepLast(pins, stepDelay, start, positions, timeInterval);
      FollowSleepSum(pins, stepDelay, start, positions[..|positions| - 1], timeInterval);
    }
  }

  lemma {:induction false} FollowSleepCount(start: int, positions: seq<int>, timeInterval: real)
    ensures FollowSleep(start, positions, timeInterval) == Sum(Constant(|positions| + Changes(start, positions), timeInterval))
  {
    if positions == [] {
      assert Constant(0, timeInterval) == [];
    } else {
      var n := |positions|;
      var k := |positions[..n - 1]| + Changes(start, positions[..n - 1]);
      FollowSleepCount(start, positions[..n - 1], timeInterval);
      SumConstantSucc(k, timeInterval);
      SumConstantSucc(k + 1, timeInterval);
    }
  }

  lemma IntervalsTotal(start: int, positions: seq<int>, timeInterval: real)
    ensures Sum(Constant(|positions| + Changes(start, positions), timeInterval))
         == (|positions| + Changes(start, positions)) as real * timeInterval
  {
    SumConstant(|positions| + Changes(start, positions), timeInterval);
  }

  /** Every position costs one interval of rest, and one more of moving when it differs from the previous one. */
  lemma FollowSleepTotal(pins: seq<int>, stepDelay: real, start: int, positions: seq<int>, timeInterval: real)
    ensures SleepTotal(FollowTrace(pins, stepDelay, start, positions, timeInterval))
         == (|positions| + Changes(start, positions)) as real * timeInterval
  {
    FollowSleepSum(pins, stepDelay, start, positions, timeInterval);
    FollowSleepCount(start, positions, timeInterval);
    IntervalsTotal(start, positions, timeInterval);
  }

  class StepperMotor {
    const pins: seq<int>
    var stepDelay: real
    var currentPosition: int
    var trace: seq<Event>

    /** Position 0, and every coil pin driven low. */
    constructor (pins: seq<int>, stepDelay: real)
      ensures this.pins == pins && this.stepDelay == stepDelay && currentPosition == 0
      ensures trace == SetStepTrace(pins, seq(|pins|, _ => Low))
    {
      this.pins := pins;
      this.stepDelay := stepDelay;
      currentPosition := 0;
      trace := [];
      new;
      for k := 0 to |pins|
        invariant trace == SetStepTrace(pins, seq(|pins|, _ => Low))[..k]
        invariant this.stepDelay == stepDelay && currentPosition == 0
      {
        trace := trace + [Output(pins[k], Low)];
      }
    }

    method SetStep(step: Pattern)
      modifies this`trace
      ensures trace == old(trace) + SetStepTrace(pins, step)
    {
      var writes := SetStepTrace(pins, step);
      for k := 0 to Min(|pins|, |step|)
        invariant trace == old(trace) + writes[..k]
      {
        trace := trace + [Output(pins[k], step[k])];
        assert writes[..k + 1] == writes[..k] + [writes[k]];
      }
      assert writes[..|writes|] == writes;
    }

    /** Plays the schedule for the move, then records the target as the current position. */
    method MoveTo(targetPosition: int)
      modifies this
      ensures trace == old(trace) + StepsTrace(pins, ScheduleFor(old(currentPosition), targetPosition), old(stepDelay))
      ensures currentPosition == targetPosition && stepDelay == old(stepDelay)
    {
      SignedSteps(currentPosition, targetPosition);
      var stepsToMove := (targetPosition - currentPosition) * StepsPerPosition;
      var forward := stepsToMove > 0;
      stepsToMove := Abs(stepsToMove);
      ghost var start := trace;
      var order := Order(forward);
      for j := 0 to stepsToMove
        invariant trace == start + StepsTrace(pins, Schedule(forward, j), stepDelay)
        modifies this`trace
      {
        ghost var done := Schedule(forward, j);
        assert done + order[..0] == done;
        for k := 0 to |order|
          invariant trace == start + StepsTrace(pins, done + order[..k], stepDelay)
          modifies this`trace
        {
          SetStep(order[k]);
          trace := trace + [Sleep(stepDelay)];
          PassStep(start, pins, done, order, k, stepDelay);
        }
        assert order[..|order|] == order;
        assert done + order == Schedule(forward, j + 1);
      }
      currentPosition := targetPosition;
    }

    /** For each position: pace, move, then rest; the rest is the whole interval because the move has already arrived. */
    method FollowPositions(positions: seq<int>, timeInterval: real)
      modifies this
      ensures trace == old(trace) + FollowTrace(pins, old(stepDelay), old(currentPosition), positions, timeInterval)
      ensures currentPosition == LastOr(old(currentPosition), positions)
      ensures stepDelay == DelayAfter(old(stepDelay), old(currentPosition), positions, timeInterval)
    {
      for i := 0 to |positions|
        invariant trace == old(trace) + FollowTrace(pins, old(stepDelay), old(currentPosition), positions[..i], timeInterval)
        invariant currentPosition == LastOr(old(currentPosition), positions[..i])
        invariant stepDelay == DelayAfter(old(stepDelay), old(currentPosition), positions[..i], timeInterval)
      {
        ghost var done := FollowTrace(pins, old(stepDelay), old(currentPosition), positions[..i], timeInterval);
        var pos := positions[i];
        FollowStep(pins, old(stepDelay), old(currentPosition), positions, i, timeInterval);
        stepDelay := CalculateSpeed(stepDelay, currentPosition, pos, timeInterval);
        ghost var move := StepsTrace(pins, ScheduleFor(currentPosition, pos), stepDelay);
        MoveTo(pos);
        var distance := Abs(currentPosition - pos);
        assert distance == 0;
        var rest := timeInterval - stepDelay * distance as real * StepsPerPosition as real;
        trace := trace + [Sleep(rest)];
        AppendAssoc(done, move, [Sleep(rest)]);
        AppendAssoc(old(trace), done, move + [Sleep(rest)]);
        AppendAssoc(old(trace) + done, move, [Sleep(rest)]);
      }
      assert positions[..|positions|] == positions;
    }
  }
}
