/**
 * Microstep selection on the Allegro A4988 driver: the MS1/MS2/MS3 levels
 * for full, half, quarter, eighth and sixteenth steps (Table 1 of the A4988
 * datasheet). `set_microstepping` writes these three pins in that order.
 */
module A4988 {
  import opened Gpio

  /** The levels on MS1, MS2 and MS3. */
  datatype MsLevels = MsLevels(ms1: Level, ms2: Level, ms3: Level)

  /** `set_microstepping`'s table: defined for 1, 2, 4, 8 and 16 only (anything else raises ValueError). */
  function Levels(resolution: int): (r: Option<MsLevels>)
    ensures r.Some? <==> resolution in {1, 2, 4, 8, 16}
    ensures r.Some? ==> (r.value.ms3 == High <==> resolution == 16)
  {
    if resolution == 1 then Some(MsLevels(Low, Low, Low))
    else if resolution == 2 then Some(MsLevels(High, Low, Low))
    else if resolution == 4 then Some(MsLevels(Low, High, Low))
    else if resolution == 8 then Some(MsLevels(High, High, Low))
    else if resolution == 16 then Some(MsLevels(High, High, High))
    else None
  }

  /** Reading the datasheet table backwards: the resolution a pin combination selects. */
  function ResolutionOf(m: MsLevels): Option<int>
  {
    match m
    case MsLevels(Low, Low, Low) => Some(1)
    case MsLevels(High, Low, Low) => Some(2)
    case MsLevels(Low, High, Low) => Some(4)
    case MsLevels(High, High, Low) => Some(8)
    case MsLevels(High, High, High) => Some(16)
    case _ => None
  }

  /** The levels written for a resolution select that resolution on the driver. */
  lemma LevelsSelect(resolution: int)
    requires Levels(resolution).Some?
    ensures ResolutionOf(Levels(resolution).value) == Some(resolution)
  {
  }

  /** Every combination the driver reads as a resolution is the one the table writes for it. */
  lemma SelectLevels(m: MsLevels)
    requires ResolutionOf(m).Some?
    ensures Levels(ResolutionOf(m).value) == Some(m)
  {
  }

  /** Distinct resolutions drive distinct pin combinations. */
  lemma LevelsInjective(a: int, b: int)
    requires Levels(a).Some? && Levels(a) == Levels(b)
    ensures a == b
  {
    LevelsSelect(a);
    LevelsSelect(b);
  }

  /** The GPIO pins of a STEP/DIR driver with microstep selection. */
  datatype DriverPins = DriverPins(step: int, dir: int, ms1: int, ms2: int, ms3: int)

  /** STEP is wired to none of the microstep pins. */
  predicate StepApart(pins: DriverPins)
  {
    pins.step != pins.ms1 && pins.step != pins.ms2 && pins.step != pins.ms3
  }

  /** The three writes of `set_microstepping`: MS1, then MS2, then MS3. */
  function MsTrace(pins: DriverPins, m: MsLevels): seq<Event>
  {
    [Output(pins.ms1, m.ms1), Output(pins.ms2, m.ms2), Output(pins.ms3, m.ms3)]
  }

  /** One pulse of a microstepping loop: select the resolution, then pulse STEP with half-period `half`. */
  function MicroStep(pins: DriverPins, m: MsLevels, half: real): seq<Event>
  {
    MsTrace(pins, m) + Pulse(pins.step, half)
  }

  /** Selecting a resolution writes no rising edge on STEP. */
  lemma MsTraceNoPulse(pins: DriverPins, m: MsLevels)
    requires StepApart(pins)
    ensures PulseCount(MsTrace(pins, m), pins.step) == 0
  {
    var t := MsTrace(pins, m);
    var e := Output(pins.step, High);
    var t2, t1 := t[..2], t[..1];
    assert t2 == [t[0], t[1]] && t2[..1] == t1;
    assert t1 == [t[0]] && t1[..0] == [];
    assert Count(t1, e) == 0;
    assert Count(t2, e) == 0;
  }

  /** Each microstepping iteration carries exactly one STEP pulse. */
  lemma MicroStepPulseCount(pins: DriverPins, m: MsLevels, half: real)
    requires StepApart(pins)
    ensures PulseCount(MicroStep(pins, m, half), pins.step) == 1
  {
    CountConcat(MsTrace(pins, m), Pulse(pins.step, half), Output(pins.step, High));
    MsTraceNoPulse(pins, m);
    PulseCountOne(pins.step, half, Output(pins.step, High));
  }
}
