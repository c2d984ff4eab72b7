# Motor para bobinadora — a Dafny model of the motor drivers

This project models the deterministic logic of a Raspberry Pi coil-winder
controller. The controller drives four kinds of hardware:

- NEMA 17 steppers on a STEP/DIR driver (an Allegro A4988). There are several
  scripts, each with its own step-delay schedule: a linear ramp then a hold, a
  smooth linear ramp, a per-revolution sawtooth, a quadratic ramp with phased
  microstepping, a sigmoid ramp with speed-ratio microstepping, and an
  iterative soft start.
- A bipolar stepper class with a precomputed delay table, a pulse counter and
  a speed measurement.
- Two positioners:
  - a unipolar motor driven coil by coil with an 8-pattern half-step sequence;
  - an A4988 positioner that fits each move into a fixed time.
  A third class turns a list of positions into a `[steps, direction]` matrix.
- A 16x2 HD44780 character LCD in 4-bit mode behind an I2C port expander, and
  a DC motor behind an H-bridge whose enable pin carries a PWM duty-cycle ramp.

The hardware itself is not modelled. Every pin write, PWM call and I2C byte is
appended to an output trace, and every `time.sleep(d)` appends the value `d`:
- the `Event` sequence in module `Gpio`;
- the `BusEvent` sequence in module `Lcd`.

Each class whose methods update fields in place is a Dafny `class` with those
fields plus the trace. Its methods state the new state, and the trace they
append, as functions of the old state. Lemmas then prove about those
functions what the program promises: bounds, monotonicity, round trips and
counts.

Delays, speeds and progress values are exact `real`s. The endless
`while True` loops are modelled as their first `n` iterations. Python
exceptions appear as the `Status` a method returns (`ValueError`,
`ZeroDivisionError`, `IndexError`, `NameError`), together with the trace
written before the raise.

Modules:
- shared: `Numbers`, `Gpio`, `StepTiming`, `A4988`;
- one per source file: `Lcd`, `Pos1`, `Posicionador`, `Posicionador2`,
  `NemaFourth`, `NemaThird`, `NemaFifth`, `NemaQuinto`, `NemaSexto`,
  `NemaSixth`, `BipolarMotor`, `DcMotor`.

## Model

| member | source | states |
|---|---|---|
| Numbers.Trunc | StepperMotor_bipolar/Nema_third.py:34 | `int()` of a float truncates toward zero: the result is within 1 of the argument, on the zero side |
| Numbers.PyMod | StepperMotor_bipolar/nema_fifth.py:38 | Python's `%` takes the divisor's sign: in `[0, b)` for a positive divisor (and equal to Dafny's `%`), in `(b, 0]` for a negative one; in both cases `a` minus the result is a whole multiple of `b` (floor quotient) |
| Numbers.Range | DC_Motor/Motor.py:42 | `range(start, stop, step)`: values `step` apart from `start`, every one before `stop` (below it for a positive step, above it for a negative one), and as many as fit: one more step would reach or pass `stop` |
| Gpio.Pulses | StepperMotor_bipolar/nema_fourth.py:46-49 | a pulse train writes four events per half-period listed |
| Gpio.PulsesCount | StepperMotor_bipolar/nema_fourth.py:46-51 | a pulse train on a pin holds exactly one HIGH and one LOW write to it per listed half-period |
| Gpio.PulsesOtherPin | StepperMotor_bipolar/nema_fourth.py:46-49 | a pulse train writes nothing to any other pin |
| Gpio.PulsesSleepTotal | Posicionador/Posicionador2.py:45-49 | a pulse train sleeps twice the sum of its half-periods |
| StepTiming.StepDelay | StepperMotor_bipolar/nema_fourth.py:33 | `1 / (rps * steps_per_rev)` is positive, and its product with `rps * steps_per_rev` is 1 |
| StepTiming.Rps | StepperMotor_bipolar/nema_sexto.py:96 | `1 / (step_delay * steps_per_rev)` is positive, and its product with `delay * steps_per_rev` is 1: the same conversion as `StepDelay`, read the other way |
| StepTiming.RpsOfStepDelay | StepperMotor_bipolar/nema_sexto.py:77-96 | converting a speed to a delay and back gives the speed again |
| StepTiming.SlowerDelayLowerRps | StepperMotor_bipolar/nema_sexto.py:93-96 | a delay no shorter than the target's gives a speed in `(0, target_rps]` |
| StepTiming.Interpolate | StepperMotor_bipolar/nema_fourth.py:41 | the blend `from - p * (from - to)` is `from` at progress 0 and `to` at progress 1 |
| StepTiming.InterpolateMonotone | StepperMotor_bipolar/nema_fourth.py:41 | with `to <= from`, more progress never gives a longer delay |
| StepTiming.InterpolateStrict | StepperMotor_bipolar/Nema_third.py:42 | with `to < from`, more progress gives a strictly shorter delay |
| StepTiming.InterpolateBounds | StepperMotor_bipolar/nema_fourth.py:41 | with `to <= from` and progress in `[0, 1]`, the delay stays in `[to, from]` |
| StepTiming.InterpolateAbove | StepperMotor_bipolar/Nema_third.py:41-42 | with `to < from`, progress below 1 keeps the delay strictly above `to` |
| A4988.Levels | StepperMotor_bipolar/nema_quinto.py:45-66 | defined exactly for 1, 2, 4, 8 and 16; MS3 is HIGH only for 16 |
| A4988.LevelsSelect | StepperMotor_bipolar/nema_quinto.py:45-64 | the driver reads the written MS1/MS2/MS3 levels back as the requested resolution |
| A4988.SelectLevels | StepperMotor_bipolar/nema_quinto.py:45-64 | every pin combination the driver reads as a resolution is the one the table writes for it |
| A4988.LevelsInjective | StepperMotor_bipolar/nema_quinto.py:45-64 | distinct resolutions drive distinct pin triples |
| A4988.MsTraceNoPulse | StepperMotor_bipolar/nema_quinto.py:45-64 | selecting a resolution writes no rising edge on STEP |
| A4988.MicroStepPulseCount | StepperMotor_bipolar/nema_quinto.py:85-104 | one loop iteration (select the resolution, then pulse) writes exactly one STEP pulse |
| Lcd.Frames | Stepper_Motor/LCD_I2C_classe.py:37-57 | one controller byte becomes six expander bytes |
| Lcd.NibbleSplit | Stepper_Motor/LCD_I2C_classe.py:40-41 | the low nibble of both nibble bytes is `mode OR 0x08`; the high nibble of the first and that of the second reassemble the byte |
| Lcd.NibbleFrameBits | Stepper_Motor/LCD_I2C_classe.py:53-57 | a nibble byte keeps the backlight and the RS bit when the strobe is raised or dropped; only `bits OR ENABLE` carries the strobe |
| Lcd.StrobedFramesBits | Stepper_Motor/LCD_I2C_classe.py:43-57 | of a nibble byte, the write and its strobe-dropped copy have the strobe low; only the raised copy has it high |
| Lcd.FramesBits | Stepper_Motor/LCD_I2C_classe.py:40-57 | all six bytes keep the backlight on and carry RS; only the 2nd and 5th raise the enable strobe; bytes 1 and 4 reassemble the original byte |
| Lcd.Encode | Stepper_Motor/LCD_I2C_classe.py:37-47 | a sequence of transfers becomes six bytes per transfer |
| Lcd.DecodeFramesInverse | Stepper_Motor/LCD_I2C_classe.py:40-47 | the controller reads the six bytes of one transfer back as that byte and register |
| Lcd.DecodeEncode | Stepper_Motor/LCD_I2C_classe.py:37-57 | round trip: decoding the encoding of any transfer sequence gives it back |
| Lcd.WrittenConcat | Stepper_Motor/LCD_I2C_classe.py:43-47 | the bytes written by two consecutive traces are those of the first, then those of the second |
| Lcd.WrittenNibble | Stepper_Motor/LCD_I2C_classe.py:43-57 | writing and strobing a nibble byte puts the byte, then its raised copy, then its dropped copy on the bus |
| Lcd.WrittenByteTrace | Stepper_Motor/LCD_I2C_classe.py:37-57 | `lcd_byte` puts exactly the six frames on the bus, in order |
| Lcd.WrittenTransfers | Stepper_Motor/LCD_I2C_classe.py:37-57 | the bytes a sequence of `lcd_byte` calls writes are the encoding of those transfers |
| Lcd.BusRoundTrip | Stepper_Motor/LCD_I2C_classe.py:37-57 | end to end: 6 bytes per transfer on the bus, and decoding them returns the transfers sent |
| Lcd.Pad | Stepper_Motor/LCD_I2C_classe.py:80 | `ljust(16, " ")` keeps the message and pads with spaces to 16 columns, never truncating |
| Lcd.CharTransfers | Stepper_Motor/LCD_I2C_classe.py:80-81 | one data transfer per character |
| Lcd.CharTransfersAt | Stepper_Motor/LCD_I2C_classe.py:80-81 | transfer `i` is a data transfer of the low byte of character `i` |
| Lcd.WriteTransfersShape | Stepper_Motor/LCD_I2C_classe.py:77-81 | `write` sends the line address as a command, then `max(len(message), 16)` data bytes: the message, then spaces |
| Lcd.InitTrace | Stepper_Motor/LCD_I2C_classe.py:28-62 | `init_lcd` writes the five instructions and Clear Display, then pauses 2 ms |
| Lcd.InitSendsCommands | Stepper_Motor/LCD_I2C_classe.py:30-35 | `init_lcd` puts 36 bytes on the bus, which decode to the instructions 0x33, 0x32, 0x06, 0x0C, 0x28, 0x01, in order |
| Lcd.LcdI2c.constructor | Stepper_Motor/LCD_I2C_classe.py:18-23 | records the address and runs `init_lcd` |
| Lcd.LcdI2c.InitLcd | Stepper_Motor/LCD_I2C_classe.py:28-35 | appends the init sequence to the bus |
| Lcd.LcdI2c.LcdByte | Stepper_Motor/LCD_I2C_classe.py:37-47 | appends the high nibble byte and its strobe, then the low nibble byte and its strobe |
| Lcd.LcdI2c.WriteNibble | Stepper_Motor/LCD_I2C_classe.py:43-44 | appends one nibble byte and its strobe |
| Lcd.LcdI2c.LcdToggleEnable | Stepper_Motor/LCD_I2C_classe.py:51-57 | appends: wait, `bits OR ENABLE`, wait, `bits & ~ENABLE`, wait |
| Lcd.LcdI2c.Clear | Stepper_Motor/LCD_I2C_classe.py:59-62 | appends Clear Display and the 2 ms pause |
| Lcd.LcdI2c.Write | Stepper_Motor/LCD_I2C_classe.py:64-81 | line 1 sends 0x80 and line 2 sends 0xC0, then the padded message; any other line is ValueError with no bus write |
| Lcd.LcdI2c.Backlight | Stepper_Motor/LCD_I2C_classe.py:83-89 | `True` writes exactly 0x08 and `False` exactly 0x00 |
| Pos1.MoveBetween | Posicionador/Pos1.py:56-57 | steps is non-negative; direction is 1 exactly when the target is larger, else 0; applying it to the current position gives the target |
| Pos1.MovesFrom | Posicionador/Pos1.py:52-61 | one row per position |
| Pos1.MovesFromAt | Posicionador/Pos1.py:52-59 | row `i` is the move from the previous position (0 for the first) to `positions[i]` |
| Pos1.Replay | Posicionador/Pos1.py:52-59 | replaying moves yields one position per move |
| Pos1.ReplayMovesFrom | Posicionador/Pos1.py:52-59 | round trip: replaying the steps matrix from the start reproduces every listed position |
| Pos1.MoveStepsPulseCount | Posicionador/Pos1.py:37-41 | `move_steps` writes exactly `max(steps, 0)` STEP pulses |
| Pos1.MoveStepsDuration | Posicionador/Pos1.py:37-41 | `move_steps` sleeps `max(steps, 0) * delay` in all: `delay / 2` twice per pulse |
| Pos1.BipolarMotor.constructor | Posicionador/Pos1.py:5-18 | drives STEP and DIR low |
| Pos1.BipolarMotor.MoveSteps | Posicionador/Pos1.py:20-41 | direction 0 drives DIR high and 1 drives it low, then the pulses; any other value is ValueError with nothing written |
| Pos1.BipolarMotor.GenerateStepsMatrix | Posicionador/Pos1.py:44-61 | returns the rows `MovesFrom(0, positions)` |
| Pos1.BipolarMotor.Cleanup | Posicionador/Pos1.py:65-68 | drives STEP and DIR low again |
| Posicionador.DifferencesOfFour | Posicionador/Posicionador.py:15-30 | counts differing coils of two four-coil patterns one by one |
| Posicionador.EnergisedOfFour | Posicionador/Posicionador.py:15-30 | counts the energised coils of a four-coil pattern one by one |
| Posicionador.FullStepAdjacent | Posicionador/Posicionador.py:15-24 | the 8 patterns have four coils each, and cyclically adjacent ones differ in exactly one coil |
| Posicionador.WaveDriveSingleCoil | Posicionador/Posicionador.py:25-30 | every wave-drive pattern energises exactly one coil |
| Posicionador.SetStepTrace | Posicionador/Posicionador.py:43-46 | one write per pin of `zip(pins, step)`: pin `k` gets level `k`, stopping at the shorter list |
| Posicionador.Order | Posicionador/Posicionador.py:54-58 | the 8 patterns in listed order going forward, reversed otherwise |
| Posicionador.Schedule | Posicionador/Posicionador.py:57-58 | `rounds` passes write `8 * rounds` patterns |
| Posicionador.ScheduleAt | Posicionador/Posicionador.py:57-59 | pattern `k` is pattern `k mod 8` of the sequence, or of its reverse |
| Posicionador.SignedSteps | Posicionador/Posicionador.py:53-55 | the signed step count is positive exactly when the target is larger, and its magnitude is `abs(target - current) * 32` |
| Posicionador.StepsTraceSleep | Posicionador/Posicionador.py:57-60 | playing `n` patterns sleeps `n * step_delay` |
| Posicionador.MoveToPatternCount | Posicionador/Posicionador.py:53-60 | `move_to` writes `256 * abs(target - current)` patterns, and none when already there |
| Posicionador.CalculateSpeed | Posicionador/Posicionador.py:64-74 | returns `step_delay` when not moving, else the delay whose product with the number of patterns written is `time_interval` |
| Posicionador.PacedMoveTakesInterval | Posicionador/Posicionador.py:57-74 | a move paced by `calculate_speed` spends exactly `time_interval` writing patterns |
| Posicionador.FollowStep | Posicionador/Posicionador.py:94-97 | following one more position appends its paced move and a rest of `time_interval`, and records that position and its delay |
| Posicionador.FollowSegmentSleep | Posicionador/Posicionador.py:95-97 | one position costs one interval of rest, plus one of moving when it differs from the previous position |
| Posicionador.FollowSleepTotal | Posicionador/Posicionador.py:88-97 | `follow_positions` sleeps one interval per position plus one per change of position: the rest always equals `time_interval` |
| Posicionador.StepperMotor.constructor | Posicionador/Posicionador.py:5-37 | position 0; every coil pin driven low |
| Posicionador.StepperMotor.SetStep | Posicionador/Posicionador.py:43-46 | appends the `zip` writes |
| Posicionador.StepperMotor.MoveTo | Posicionador/Posicionador.py:48-62 | appends the schedule for the move, with a sleep after each pattern; the current position becomes the target |
| Posicionador.StepperMotor.FollowPositions | Posicionador/Posicionador.py:88-97 | appends the paced moves and rests; ends at the last position (unchanged for an empty list) with the last computed delay |
| Posicionador2.DelayPerStep | Posicionador/Posicionador2.py:41-42 | `total_time / 2` for zero steps; otherwise the delay whose product with the step count is `total_time / 2` |
| Posicionador2.DirectionOfMove | Posicionador/Posicionador2.py:33-38 | DIR goes HIGH exactly when the target is larger, for a positive `steps_per_position` |
| Posicionador2.StepCount | Posicionador/Posicionador2.py:33-35 | the move has `abs(target - current) * abs(steps_per_position)` steps |
| Posicionador2.Halves | Posicionador/Posicionador2.py:45-49 | one half-period per step |
| Posicionador2.MovePulseCount | Posicionador/Posicionador2.py:33-49 | `move_to` writes exactly `abs(target - current) * abs(steps_per_position)` STEP pulses |
| Posicionador2.PulsesTakeHalf | Posicionador/Posicionador2.py:41-49 | the pulses of a move that steps at all last exactly `total_time / 2` |
| Posicionador2.MoveDuration | Posicionador/Posicionador2.py:41-54 | a move that steps lasts `total_time` in all; a move of zero steps only rests, for `total_time / 2` |
| Posicionador2.FollowPulseCount | Posicionador/Posicionador2.py:56-62 | following a list writes `abs(steps_per_position)` pulses per unit of distance, summed over consecutive positions from the start |
| Posicionador2.StepperMotor.constructor | Posicionador/Posicionador2.py:5-21 | position 0; no pin written |
| Posicionador2.StepperMotor.MoveTo | Posicionador/Posicionador2.py:27-54 | appends DIR, the pulses and the rest; the current position becomes the target |
| Posicionador2.StepperMotor.FollowPositions | Posicionador/Posicionador2.py:56-62 | appends one move per position; ends at the last position (unchanged for an empty list) |
| NemaFourth.RampDelay | StepperMotor_bipolar/nema_fourth.py:39-43 | from `acceleration_steps` on, the delay is `target_delay`; step 0 of a ramp uses `max_delay` |
| NemaFourth.RampContinuous | StepperMotor_bipolar/nema_fourth.py:40-43 | the ramp formula at `step = acceleration_steps` already gives the held delay |
| NemaFourth.RampProgress | StepperMotor_bipolar/nema_fourth.py:39-40 | inside the ramp, progress lies in `[0, 1)` |
| NemaFourth.RampMonotone | StepperMotor_bipolar/nema_fourth.py:39-43 | with `target_delay <= max_delay`, the delay never grows from one step to a later one |
| NemaFourth.RampBounds | StepperMotor_bipolar/nema_fourth.py:39-43 | with `target_delay <= max_delay`, every delay lies in `[target_delay, max_delay]` |
| NemaFourth.HoldSpeed | StepperMotor_bipolar/nema_fourth.py:33-43 | after the ramp the motor turns at exactly `target_rps` |
| NemaFourth.RampDelays | StepperMotor_bipolar/nema_fourth.py:37-51 | the first `n` delays, entry `k` being that of step `k` |
| NemaFourth.MovePulseCount | StepperMotor_bipolar/nema_fourth.py:46-51 | the step counter equals the number of STEP pulses written |
| NemaFourth.Nema17Motor.constructor | StepperMotor_bipolar/nema_fourth.py:5-22 | records pins and timing; writes no level |
| NemaFourth.Nema17Motor.MoveContinuous | StepperMotor_bipolar/nema_fourth.py:24-51 | after `n` iterations: `step == n`, and the trace gains DIR and then the pulses of the ramp-and-hold schedule |
| NemaThird.TotalSteps | StepperMotor_bipolar/Nema_third.py:34 | `int(revolutions * steps_per_rev)` truncates toward zero |
| NemaThird.SmoothStart | StepperMotor_bipolar/Nema_third.py:40-42 | the first pulse uses `max_delay` |
| NemaThird.SmoothStrictlyDecreasing | StepperMotor_bipolar/Nema_third.py:41-42 | with `max_delay > min_delay`, every later pulse is strictly shorter |
| NemaThird.SmoothBounds | StepperMotor_bipolar/Nema_third.py:39-42 | with `max_delay > min_delay`, every delay lies in `(min_delay, max_delay]` |
| NemaThird.SmoothDelays | StepperMotor_bipolar/Nema_third.py:39-42 | one delay per step of `range(total_steps)`, none for a non-positive count |
| NemaThird.SmoothPulseCount | StepperMotor_bipolar/Nema_third.py:34-48 | exactly `total_steps` pulses (none when it is not positive), and DIR is written once, at the requested level, never at the other |
| NemaThird.Nema17Motor.constructor | StepperMotor_bipolar/Nema_third.py:6-25 | records pins and timing; writes no level |
| NemaThird.Nema17Motor.MoveSmooth | StepperMotor_bipolar/Nema_third.py:27-48 | appends DIR, then the `total_steps` pulses of the linear ramp |
| NemaFifth.Progress | StepperMotor_bipolar/nema_fifth.py:38 | progress lies in `[0, 1)` |
| NemaFifth.PyModShift | StepperMotor_bipolar/nema_fifth.py:38 | Python's remainder ignores whole multiples of the divisor |
| NemaFifth.SawtoothPeriodic | StepperMotor_bipolar/nema_fifth.py:38-39 | the delay repeats every `steps_per_rev` steps |
| NemaFifth.SawtoothRevolutionStart | StepperMotor_bipolar/nema_fifth.py:38-39 | every multiple of `steps_per_rev` uses `max_delay` |
| NemaFifth.SawtoothBounds | StepperMotor_bipolar/nema_fifth.py:38-39 | with `max_delay > min_delay`, every delay lies in `(min_delay, max_delay]` |
| NemaFifth.SawtoothDecreasingInRevolution | StepperMotor_bipolar/nema_fifth.py:38-39 | within one revolution, a later step is strictly shorter |
| NemaFifth.SawtoothDelays | StepperMotor_bipolar/nema_fifth.py:36-47 | the first `n` delays, entry `k` being that of step `k` |
| NemaFifth.SawtoothPulseCount | StepperMotor_bipolar/nema_fifth.py:42-47 | the step counter equals the number of STEP pulses written |
| NemaFifth.Nema17Motor.constructor | StepperMotor_bipolar/nema_fifth.py:5-24 | records pins and timing; writes no level |
| NemaFifth.Nema17Motor.MoveContinuous | StepperMotor_bipolar/nema_fifth.py:26-47 | after `n` iterations: `step == n`, and the trace gains DIR and then the sawtooth pulses |
| NemaQuinto.PhaseResolution | StepperMotor_bipolar/nema_quinto.py:85-92 | always one of 16, 8, 4, 1, and always in the driver's table |
| NemaQuinto.PhaseNonIncreasing | StepperMotor_bipolar/nema_quinto.py:85-92 | the resolution never gets finer as the step count grows |
| NemaQuinto.PhaseEnds | StepperMotor_bipolar/nema_quinto.py:85-92 | with `acceleration_steps >= 4`, step 0 uses 16 and step `acceleration_steps` uses 1 |
| NemaQuinto.QuadraticDelay | StepperMotor_bipolar/nema_quinto.py:95-96 | `min_delay` at step 0 and `target_delay` at `step == acceleration_steps` |
| NemaQuinto.QuadraticRamp | StepperMotor_bipolar/nema_quinto.py:95-96 | within the ramp, the delay never grows and stays in `[target_delay, min_delay]` |
| NemaQuinto.QuadraticOvershoot | StepperMotor_bipolar/nema_quinto.py:95-96 | with no clamp, every step past the ramp falls strictly below `target_delay` |
| NemaQuinto.PhaseStepsPulseCount | StepperMotor_bipolar/nema_quinto.py:83-104 | the first `n` iterations write exactly `n` STEP pulses |
| NemaQuinto.Nema17Motor.constructor | StepperMotor_bipolar/nema_quinto.py:8-37 | leaves the driver in sixteenth steps (MS1..MS3 HIGH) |
| NemaQuinto.Nema17Motor.SetMicrostepping | StepperMotor_bipolar/nema_quinto.py:39-66 | the table's three writes for 1, 2, 4, 8, 16; any other value is ValueError with no pin written |
| NemaQuinto.Nema17Motor.MoveContinuous | StepperMotor_bipolar/nema_quinto.py:68-104 | DIR, then per iteration the phase resolution and a pulse of the quadratic delay; with `acceleration_steps == 0`, ZeroDivisionError after the first selection |
| NemaSexto.ClampMinDelay | StepperMotor_bipolar/nema_sexto.py:81-82 | after the clamp, `min_delay >= target_delay`, and it is unchanged unless it was shorter |
| NemaSexto.SigmoidDelay | StepperMotor_bipolar/nema_sexto.py:93 | `step_delay` is never below `target_delay` |
| NemaSexto.SigmoidBounds | StepperMotor_bipolar/nema_sexto.py:93 | for non-negative progress, `step_delay` lies in `[target_delay, min_delay]`, and is `min_delay` at progress 0 |
| NemaSexto.SigmoidMonotone | StepperMotor_bipolar/nema_sexto.py:93 | more progress never gives a longer delay |
| NemaSexto.CurrentRpsBounded | StepperMotor_bipolar/nema_sexto.py:93-96 | `current_rps` is positive and never exceeds `target_rps` |
| NemaSexto.RatioResolution | StepperMotor_bipolar/nema_sexto.py:97-104 | always one of 16, 8, 4, 1 (half steps are never chosen), and always in the driver's table |
| NemaSexto.RatioNonIncreasing | StepperMotor_bipolar/nema_sexto.py:97-104 | a faster current speed never selects a finer resolution |
| NemaSexto.RatioAtTarget | StepperMotor_bipolar/nema_sexto.py:96-104 | at the target delay the motor runs in full steps |
| NemaSexto.SigmoidStepsPulseCount | StepperMotor_bipolar/nema_sexto.py:90-112 | one STEP pulse per progress value |
| NemaSexto.Nema17Motor.constructor | StepperMotor_bipolar/nema_sexto.py:7-36 | leaves the driver in sixteenth steps (MS1..MS3 HIGH) |
| NemaSexto.Nema17Motor.SetMicrostepping | StepperMotor_bipolar/nema_sexto.py:38-65 | the table's three writes for 1, 2, 4, 8, 16; any other value is ValueError with no pin written |
| NemaSexto.Nema17Motor.MoveContinuous | StepperMotor_bipolar/nema_sexto.py:67-112 | DIR, then per progress value the ratio resolution and a pulse of the clamped delay; `acceleration_steps == 0` is ZeroDivisionError right after DIR |
| NemaSixth.TotalStepsValue | StepperMotor_bipolar/nema_sixth.py:13-15 | `TOTAL_STEPS` is 200 * 16 = 3200 |
| NemaSixth.Decrement | StepperMotor_bipolar/nema_sixth.py:45 | `acceleration_steps` decrements add up to `max_delay - min_delay` |
| NemaSixth.DecrementNonNegative | StepperMotor_bipolar/nema_sixth.py:45 | with `min_delay <= max_delay` and a positive step count, the decrement is not negative |
| NemaSixth.DelayClosedForm | StepperMotor_bipolar/nema_sixth.py:44-56 | over exact reals, the delay after `k` iterations is `max_delay - min(k, acc) * decrement` |
| NemaSixth.DelayReachesMinimum | StepperMotor_bipolar/nema_sixth.py:44-56 | after `acceleration_steps` iterations the delay is `min_delay`, and stays there |
| NemaSixth.DelayBounds | StepperMotor_bipolar/nema_sixth.py:44-56 | every delay used lies in `[min_delay, max_delay]` |
| NemaSixth.DelayNonIncreasing | StepperMotor_bipolar/nema_sixth.py:55-56 | the delay never grows from one iteration to a later one |
| NemaSixth.SoftStartDelays | StepperMotor_bipolar/nema_sixth.py:47-56 | one delay per pulse, entry `k` being the delay after `k` iterations |
| NemaSixth.SoftStartFirst | StepperMotor_bipolar/nema_sixth.py:44-52 | the first pulse uses `max_delay` |
| NemaSixth.ScriptShape | StepperMotor_bipolar/nema_sixth.py:27-70 | the driver is enabled (LOW) first and disabled (HIGH) last, MS1..MS3 are HIGH, and exactly 3200 pulses are written |
| NemaSixth.SoftStartScript.constructor | StepperMotor_bipolar/nema_sixth.py:18-24 | nothing written yet |
| NemaSixth.SoftStartScript.SmoothStart | StepperMotor_bipolar/nema_sixth.py:36-56 | `max(steps, 0)` pulses along the decrementing delay; a zero `acceleration_steps` is ZeroDivisionError with nothing written |
| NemaSixth.SoftStartScript.Run | StepperMotor_bipolar/nema_sixth.py:27-71 | appends the setup writes, one revolution of soft-start pulses, then ENABLE HIGH |
| BipolarMotor.DelayTable | StepperMotor_bipolar/BipolarMotor.py:62-72 | 1000 entries, entry `i` being `(i / 101) * (1 / (speed * 200))` |
| BipolarMotor.DelayTableShape | StepperMotor_bipolar/BipolarMotor.py:67-69 | entry 0 is 0; for a positive speed the entries are non-negative and never decrease |
| BipolarMotor.PulseHalves | StepperMotor_bipolar/BipolarMotor.py:98-109 | pulse `k` uses half the table entry at the index `min(k, len(delays) - 1)` |
| BipolarMotor.PulseHalvesSaturate | StepperMotor_bipolar/BipolarMotor.py:106-109 | once the index saturates, every later pulse uses the last entry |
| BipolarMotor.MovePulseCount | StepperMotor_bipolar/BipolarMotor.py:99-103 | `state_changes` advances once per STEP pulse written |
| BipolarMotor.MeasuredRps | StepperMotor_bipolar/BipolarMotor.py:43-54 | the result times `duration * 200` is the counter difference |
| BipolarMotor.MeasuredRpsNonNegative | StepperMotor_bipolar/BipolarMotor.py:47-54 | a counter that never decreases gives a speed of at least 0 |
| BipolarMotor.StepperMotor.constructor | StepperMotor_bipolar/BipolarMotor.py:14-41 | STEP and DIR low, counter 0, not running, no table yet |
| BipolarMotor.StepperMotor.CalculateDelays | StepperMotor_bipolar/BipolarMotor.py:56-74 | stores the 1000-entry table and then fails with NameError; a zero speed is ZeroDivisionError with the table empty |
| BipolarMotor.StepperMotor.Move | StepperMotor_bipolar/BipolarMotor.py:78-109 | "fw" drives DIR high and "bw" low, anything else is ValueError before `running` is set; after `n` pulses the counter grew by `n` and the index is `min(n, len(delays) - 1)`; an empty table writes STEP HIGH and then is IndexError |
| BipolarMotor.StepperMotor.Stop | StepperMotor_bipolar/BipolarMotor.py:112-117 | `running` becomes false and STEP is driven low |
| DcMotor.RampUpValues | DC_Motor/Motor.py:42-43 | 0, 5, ..., 100: 21 values, each 5 above the previous, all in `[0, 100]` |
| DcMotor.RampDownValues | DC_Motor/Motor.py:53-54 | 100, 95, ..., 0: 21 values, each 5 below the previous, all in `[0, 100]` |
| DcMotor.RampDownReversesRampUp | DC_Motor/Motor.py:42-53 | stopping retraces the start-up ramp backwards |
| DcMotor.BridgeFor | DC_Motor/Motor.py:31-39 | defined exactly for "horario" and "antihorario", and the two bridge inputs always differ |
| DcMotor.BridgeDirectionsOpposite | DC_Motor/Motor.py:31-36 | the two directions drive the bridge with swapped inputs |
| DcMotor.DutyRamp | DC_Motor/Motor.py:42-44 | two events per duty cycle: the change and the 0.1 s pause |
| DcMotor.DutyRampAt | DC_Motor/Motor.py:42-44 | event `2k` sets duty cycle `k` of the ramp; event `2k + 1` pauses |
| DcMotor.DutyRampBounded | DC_Motor/Motor.py:42-53 | every duty cycle written lies in `[0, 100]` |
| DcMotor.MotorDC.constructor | DC_Motor/Motor.py:5-22 | starts the enable pin's PWM at 100 Hz with duty cycle 0 |
| DcMotor.MotorDC.Ramp | DC_Motor/Motor.py:42-44 | appends one duty-cycle change and pause per listed value |
| DcMotor.MotorDC.EncenderMotor | DC_Motor/Motor.py:24-46 | sets the bridge, ramps up and holds `t` for a valid direction; any other direction writes nothing |
| DcMotor.MotorDC.Stop | DC_Motor/Motor.py:48-57 | ramps down to 0, then waits `t` |

## Left out

- Real GPIO, SMBus/I2C and PWM behaviour and all timing: every call is an event in an append-only trace, and `time.sleep(d)` records `d`. `GPIO.setmode`, `GPIO.setup` and `GPIO.cleanup` write no level and are not recorded.
- IEEE floating point: delays, speeds and progress values are exact reals, so rounding (e.g. in the `delay -= delay_decrement` loop of `nema_sixth.py`) is not modelled.
- `math.exp` in the sigmoid of `nema_sexto.py`: each pulse's progress value is an input sequence, not computed.
- The unbounded `while True` and `while self.running` loops and their `KeyboardInterrupt` handlers: each loop is modelled as its first `n` iterations.
- Threads and user input: `MotorControl`, every `UserInputHandler`, `ProgramaMotor`, the argparse front end of `Nema_third.py` and the `__main__` blocks.
- `LCD_I2C.mostrar_cargando` (an endless animation) and `StepperMotor.prueba` in `Posicionador.py` (driven by the wall clock).
- `cleanup` methods other than `Pos1.BipolarMotor.Cleanup`: they only call `GPIO.cleanup()`.
- Exception handlers around I2C writes, and the constructor's handler for a failing bus: bus errors are not modelled.
- `BipolarMotor.py` cannot be imported as written: line 98 is indented one level too deep. The model follows the evident intent, a `while` loop at the level of `i = 0`.
- `BipolarMotor.py` calls `set_speed` (line 169), which is never defined; passes 4 arguments to the 3-argument constructor (line 240); and reads `self.velocidades`, which is never initialised. All three are inside the left-out `MotorControl` and `__main__` code.
- BipolarMotor.StepperMotor.Move: the `speed` argument is unused in the source and is not a parameter. The empty table (`delays == []`) stands for `calculate_delays` not having run; the source then raises AttributeError rather than IndexError, after the same STEP HIGH write.
- NemaQuinto.Nema17Motor.constructor and NemaSexto.Nema17Motor.constructor: `max_delay` is stored but never read by the source, and the model keeps it only as a field.
- NemaQuinto.Nema17Motor.MoveContinuous and NemaSexto.Nema17Motor.MoveContinuous: the four `set_microstepping` calls of the if-chain become one call with the chosen resolution, which writes the same three pins.
- NemaFourth.Nema17Motor.MoveContinuous, NemaQuinto.Nema17Motor.MoveContinuous and NemaSexto.Nema17Motor.MoveContinuous require positive speeds and a positive `steps_per_rev`; the source would raise ZeroDivisionError or use a negative delay otherwise.
- NemaFifth.Nema17Motor.MoveContinuous requires `steps_per_rev != 0`; the source raises ZeroDivisionError otherwise.
- NemaFifth.SawtoothDecreasingInRevolution is stated for a positive `steps_per_rev` only.
- BipolarMotor.MeasuredRps requires `duration > 0`; a zero duration raises ZeroDivisionError in the source.
- DcMotor.MotorDC.EncenderMotor returns whether a ramp was started; the source returns `None` in both cases.
- Negative `time.sleep` arguments (which raise ValueError in Python) are recorded like any other value.
