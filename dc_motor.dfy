/**
 * `DC_Motor/Motor.py`, class `MotorDC`: a DC motor behind an H-bridge whose
 * IN1/IN2 inputs pick the direction and whose enable pin carries a 100 Hz
 * PWM ramped up and down in steps of 5 % every 0.1 s.
 */
module DcMotor {
  import opened Numbers
  import opened Gpio

  const PwmFrequency := 100
  const RampPause := 0.1

  /** The duty cycles of the ramp-up, `range(0, 101, 5)`. */
  function RampUp(): seq<int>
  {
    Range(0, 101, 5)
  }

  /** The duty cycles of the ramp-down, `range(100, -1, -5)`. */
  function RampDown(): seq<int>
  {
    Range(100, -1, -5)
  }

  /** The ramp-up is 0, 5, ..., 100: 21 values, each 5 above the previous, all within [0, 100]. */
  lemma RampUpValues()
    ensures |RampUp()| == 21
    ensures RampUp()[0] == 0 && RampUp()[20] == 100
    ensures forall k :: 0 < k < 21 ==> RampUp()[k] == RampUp()[k - 1] + 5
    ensures forall k :: 0 <= k < 21 ==> 0 <= RampUp()[k] <= 100
  {
    assert RangeLength(0, 101, 5) == 21;
  }

  /** The ramp-down is 100, 95, ..., 0: 21 values, each 5 below the previous, all within [0, 100]. */
  lemma RampDownValues()
    ensures |RampDown()| == 21
    ensures RampDown()[0] == 100 && RampDown()[20] == 0
    ensures forall k :: 0 < k < 21 ==> RampDown()[k] == RampDown()[k - 1] - 5
    ensures forall k :: 0 <= k < 21 ==> 0 <= RampDown()[k] <= 100
  {
    assert RangeLength(100, -1, -5) == 21;
  }

  /** Stopping retraces the start-up ramp backwards. */
  lemma RampDownReversesRampUp()
    ensures |RampDown()| == |RampUp()|
    ensures forall k :: 0 <= k < |RampUp()| ==> RampDown()[k] == RampUp()[|RampUp()| - 1 - k]
  {
    RampUpValues();
    RampDownValues();
  }

  /** The levels on IN1 and IN2. */
  datatype Bridge = Bridge(in1: Level, in2: Level)

  /** The bridge inputs for a direction word: "horario" and "antihorario" only; the two inputs always differ. */
  function BridgeFor(sentido: string): (r: Option<Bridge>)
    ensures r.Some? <==> sentido == "horario" || sentido == "antihorario"
    ensures r.Some? ==> r.value.in1 != r.value.in2
  {
    if sentido == "horario" then Some(Bridge(Low, High))
    else if sentido == "antihorario" then Some(Bridge(High, Low))
    else None
  }

  /** The two directions drive the bridge with swapped inputs. */
  lemma BridgeDirectionsOpposite()
    ensures BridgeFor("horario").value.in1 == BridgeFor("antihorario").value.in2
    ensures BridgeFor("horario").value.in2 == BridgeFor("antihorario").value.in1
  {
  }

  /** One `ChangeDutyCycle(d)` and a pause of 0.1 s per listed duty cycle. */
  function DutyRamp(duties: seq<int>): (r: seq<Event>)
    ensures |r| == 2 * |duties|
  {
    if duties == [] then [] else DutyRamp(duties[..|duties| - 1]) + [DutyCycle(duties[|duties| - 1]), Sleep(RampPause)]
  }

  /** Entry `2k` of a ramp sets duty cycle `duties[k]` and entry `2k + 1` pauses. */
  lemma {:induction false} DutyRampAt(duties: seq<int>, k: nat)
    requires k < |duties|
    ensures DutyRamp(duties)[2 * k] == DutyCycle(duties[k])
    ensures DutyRamp(duties)[2 * k + 1] == Sleep(RampPause)
  {
    var n := |duties|;
    if k < n - 1 {
      DutyRampAt(duties[..n - 1], k);
    }
  }

  /** Every duty cycle a ramp of values in [0, 100] writes is in [0, 100]. */
  lemma DutyRampBounded(duties: seq<int>, j: nat)
    requires forall k :: 0 <= k < |duties| ==> 0 <= duties[k] <= 100
    requires j < |DutyRamp(duties)| && DutyRamp(duties)[j].DutyCycle?
    ensures 0 <= DutyRamp(duties)[j].percent <= 100
  {
    DutyRampAt(duties, j / 2);
  }

  class MotorDC {
    const en: int
    const in1: int
    const in2: int
    var trace: seq<Event>

    /** `setup`: PWM on the enable pin at 100 Hz, starting at duty cycle 0. */
    constructor (en: int, in1: int, in2: int)
      ensures this.en == en && this.in1 == in1 && this.in2 == in2
      ensures trace == [PwmStart(en, PwmFrequency, 0)]
    {
      this.en := en;
      this.in1 := in1;
      this.in2 := in2;
      trace := [PwmStart(en, PwmFrequency, 0)];
    }

    /** Writes one `ChangeDutyCycle` and pause per listed duty cycle. */
    method Ramp(duties: seq<int>)
      modifies this`trace
      ensures trace == old(trace) + DutyRamp(duties)
    {
      for k := 0 to |duties|
        invariant trace == old(trace) + DutyRamp(duties[..k])
      {
        trace := trace + [DutyCycle(duties[k])];
        trace := trace + [Sleep(RampPause)];
        assert duties[..k + 1][..k] == duties[..k];
      }
      assert duties[..|duties|] == duties;
    }

    /**
     * `encender_motor`: set the bridge for the direction, ramp up, hold `t`
     * seconds. Any other direction returns at once, writing nothing.
     */
    method EncenderMotor(sentido: string, t: real) returns (started: bool)
      modifies this`trace
      ensures started <==> BridgeFor(sentido).Some?
      ensures !started ==> trace == old(trace)
      ensures started ==> (trace == old(trace)
        + [Output(in1, BridgeFor(sentido).value.in1), Output(in2, BridgeFor(sentido).value.in2)]
        + DutyRamp(RampUp()) + [Sleep(t)])
    {
      if sentido == "horario" {
        trace := trace + [Output(in1, Low)];
        trace := trace + [Output(in2, High)];
      } else if sentido == "antihorario" {
        trace := trace + [Output(in1, High)];
        trace := trace + [Output(in2, Low)];
      } else {
        return false;
      }
      Ramp(Range(0, 101, 5));
      trace := trace + [Sleep(t)];
      return true;
    }

    /** `stop`: ramp down to 0 and wait `t` seconds. */
    method Stop(t: real)
      modifies this`trace
      ensures trace == old(trace) + DutyRamp(RampDown()) + [Sleep(t)]
    {
      Ramp(Range(100, -1, -5));
      trace := trace + [Sleep(t)];
    }
  }
}
