/**
 * The abstract output trace every motor model writes to.
 *
 * A call `GPIO.output(pin, level)` appends `Output(pin, level)`, a call
 * `time.sleep(d)` appends `Sleep(d)`, starting a PWM channel appends
 * `PwmStart` and `ChangeDutyCycle(d)` appends `DutyCycle(d)`. Durations are
 * exact reals; nothing here models real time.
 */
module Gpio {

  datatype Level = Low | High

  /** `GPIO.output(pin, flag)` with a Python boolean: True drives the pin HIGH. */
  function LevelOf(flag: bool): Level
  {
    if flag then High else Low
  }

  datatype Event =
    | Output(pin: int, level: Level)
    | Sleep(seconds: real)
    | PwmStart(pin: int, frequency: int, duty: int)
    | DutyCycle(percent: int)

  datatype Option<T> = None | Some(value: T)

  /** How an operation ended: normally, or with the Python exception it raises. */
  datatype Status = Ok | ValueError | NameError | ZeroDivisionError | IndexError

  /** One step pulse: HIGH, wait `half`, LOW, wait `half`. */
  function Pulse(pin: int, half: real): seq<Event>
  {
    [Output(pin, High), Sleep(half), Output(pin, Low), Sleep(half)]
  }

  /** One pulse per listed half-period, in order. */
  function Pulses(pin: int, halves: seq<real>): (r: seq<Event>)
    ensures |r| == 4 * |halves|
  {
    if halves == [] then []
    else Pulses(pin, halves[..|halves| - 1]) + Pulse(pin, halves[|halves| - 1])
  }

  lemma PulsesAppend(pin: int, halves: seq<real>, half: real)
    ensures Pulses(pin, halves + [half]) == Pulses(pin, halves) + Pulse(pin, half)
  {
    assert (halves + [half])[..|halves|] == halves;
  }

  /** Writing the four events of pulse `k` after the first `k` pulses gives the first `k + 1` pulses. */
  lemma PulseStep(start: seq<Event>, before: seq<Event>, after: seq<Event>, pin: int, halves: seq<real>, k: nat, half: real)
    requires k < |halves| && half == halves[k]
    requires before == start + Pulses(pin, halves[..k])
    requires after == before + [Output(pin, High)] + [Sleep(half)] + [Output(pin, Low)] + [Sleep(half)]
    ensures after == start + Pulses(pin, halves[..k + 1])
  {
    var done := Pulses(pin, halves[..k]);
    assert halves[..k + 1] == halves[..k] + [halves[k]];
    PulsesAppend(pin, halves[..k], halves[k]);
    assert after == start + (done + Pulse(pin, halves[k]));
  }

  /** The `k`-th pulse of a train sits at positions 4k .. 4k+3. */
  lemma {:induction false} PulsesAt(pin: int, halves: seq<real>, k: nat)
    requires k < |halves|
    ensures Pulses(pin, halves)[4 * k .. 4 * k + 4] == Pulse(pin, halves[k])
  {
    var n := |halves|;
    if k < n - 1 {
      PulsesAt(pin, halves[..n - 1], k);
      assert Pulses(pin, halves)[4 * k .. 4 * k + 4] == Pulses(pin, halves[..n - 1])[4 * k .. 4 * k + 4];
    } else {
      assert Pulses(pin, halves)[4 * k ..] == Pulse(pin, halves[k]);
    }
  }

  /** Number of occurrences of `e` in `t`. */
  function Count(t: seq<Event>, e: Event): nat
  {
    if t == [] then 0 else Count(t[..|t| - 1], e) + (if t[|t| - 1] == e then 1 else 0)
  }

  lemma {:induction false} CountConcat(a: seq<Event>, b: seq<Event>, e: Event)
    ensures Count(a + b, e) == Count(a, e) + Count(b, e)
  {
    if b == [] {
      assert a + b == a;
    } else {
      assert (a + b)[..|a + b| - 1] == a + b[..|b| - 1];
      CountConcat(a, b[..|b| - 1], e);
    }
  }

  /** Step pulses on `pin` = rising edges written to it. */
  function PulseCount(t: seq<Event>, pin: int): nat
  {
    Count(t, Output(pin, High))
  }

  lemma PulseCountOne(pin: int, half: real, e: Event)
    ensures Count(Pulse(pin, half), e) ==
      (if e == Output(pin, High) then 1 else 0) + (if e == Sleep(half) then 2 else 0)
      + (if e == Output(pin, Low) then 1 else 0)
  {
    var p := Pulse(pin, half);
    var p3, p2, p1 := p[..3], p[..2], p[..1];
    assert p3 == [Output(pin, High), Sleep(half), Output(pin, Low)] && p3[..2] == p2;
    assert p2 == [Output(pin, High), Sleep(half)] && p2[..1] == p1;
    assert p1 == [Output(pin, High)] && p1[..0] == [];
    assert Count(p1, e) == (if e == Output(pin, High) then 1 else 0);
    assert Count(p2, e) == Count(p1, e) + (if e == Sleep(half) then 1 else 0);
    assert Count(p3, e) == Count(p2, e) + (if e == Output(pin, Low) then 1 else 0);
    assert Count(p, e) == Count(p3, e) + (if e == Sleep(half) then 1 else 0);
  }

  lemma PulseSleepOne(pin: int, half: real)
    ensures SleepTotal(Pulse(pin, half)) == 2.0 * half
  {
    var p := Pulse(pin, half);
    var p3, p2, p1 := p[..3], p[..2], p[..1];
    assert p3 == [Output(pin, High), Sleep(half), Output(pin, Low)] && p3[..2] == p2;
    assert p2 == [Output(pin, High), Sleep(half)] && p2[..1] == p1;
    assert p1 == [Output(pin, High)] && p1[..0] == [];
    assert SleepTotal(p1) == 0.0;
    assert SleepTotal(p2) == half;
    assert SleepTotal(p3) == half;
  }

  /** A pulse train on `pin` holds exactly one HIGH and one LOW write per half-period listed. */
  lemma {:induction false} PulsesCount(pin: int, halves: seq<real>)
    ensures PulseCount(Pulses(pin, halves), pin) == |halves|
    ensures Count(Pulses(pin, halves), Output(pin, Low)) == |halves|
  {
    if halves != [] {
      var n := |halves|;
      PulsesCount(pin, halves[..n - 1]);
      CountConcat(Pulses(pin, halves[..n - 1]), Pulse(pin, halves[n - 1]), Output(pin, High));
      CountConcat(Pulses(pin, halves[..n - 1]), Pulse(pin, halves[n - 1]), Output(pin, Low));
      PulseCountOne(pin, halves[n - 1], Output(pin, High));
      PulseCountOne(pin, halves[n - 1], Output(pin, Low));
    }
  }

  /** A pulse train on `pin` writes nothing to any other pin. */
  lemma {:induction false} PulsesOtherPin(pin: int, halves: seq<real>, other: int, level: Level)
    requires other != pin
    ensures Count(Pulses(pin, halves), Output(other, level)) == 0
  {
    if halves != [] {
      var n := |halves|;
      PulsesOtherPin(pin, halves[..n - 1], other, level);
      CountConcat(Pulses(pin, halves[..n - 1]), Pulse(pin, halves[n - 1]), Output(other, level));
      PulseCountOne(pin, halves[n - 1], Output(other, level));
    }
  }

  /** Total time spent in `time.sleep` along a trace. */
  function SleepTotal(t: seq<Event>): real
  {
    if t == [] then 0.0
    else SleepTotal(t[..|t| - 1]) + (if t[|t| - 1].Sleep? then t[|t| - 1].seconds else 0.0)
  }

  lemma {:induction false} SleepTotalConcat(a: seq<Event>, b: seq<Event>)
    ensures SleepTotal(a + b) == SleepTotal(a) + SleepTotal(b)
  {
    if b == [] {
      assert a + b == a;
    } else {
      assert (a + b)[..|a + b| - 1] == a + b[..|b| - 1];
      SleepTotalConcat(a, b[..|b| - 1]);
    }
  }

  function Sum(xs: seq<real>): real
  {
    if xs == [] then 0.0 else Sum(xs[..|xs| - 1]) + xs[|xs| - 1]
  }

  /** The constant sequence of `n` copies of `x`. */
  function Constant(n: nat, x: real): (r: seq<real>)
    ensures |r| == n && forall k :: 0 <= k < n ==> r[k] == x
  {
    seq(n, _ => x)
  }

  lemma {:induction false} SumConstant(n: nat, x: real)
    ensures Sum(Constant(n, x)) == n as real * x
  {
    if n > 0 {
      assert Constant(n, x)[..n - 1] == Constant(n - 1, x);
      SumConstant(n - 1, x);
    }
  }

  lemma SumConstantSucc(n: nat, x: real)
    ensures Sum(Constant(n + 1, x)) == Sum(Constant(n, x)) + x
  {
    assert Constant(n + 1, x)[..n] == Constant(n, x);
  }

  /** A pulse train waits twice each listed half-period. */
  lemma {:induction false} PulsesSleepTotal(pin: int, halves: seq<real>)
    ensures SleepTotal(Pulses(pin, halves)) == 2.0 * Sum(halves)
  {
    if halves != [] {
      var n := |halves|;
      PulsesSleepTotal(pin, halves[..n - 1]);
      SleepTotalConcat(Pulses(pin, halves[..n - 1]), Pulse(pin, halves[n - 1]));
      PulseSleepOne(pin, halves[n - 1]);
    }
  }

  /** A trace of pin writes only spends no time asleep. */
  lemma {:induction false} SleepTotalOutputs(t: seq<Event>)
    requires forall k :: 0 <= k < |t| ==> t[k].Output?
    ensures SleepTotal(t) == 0.0
  {
    if t != [] {
      SleepTotalOutputs(t[..|t| - 1]);
    }
  }

  lemma SleepTotalSingle(e: Event)
    ensures SleepTotal([e]) == if e.Sleep? then e.seconds else 0.0
  {
    assert [e][..0] == [];
  }

  lemma AppendAssoc(a: seq<Event>, b: seq<Event>, c: seq<Event>)
    ensures a + (b + c) == a + b + c
  {
  }
}
