/**
 * HD44780 character LCD driven in 4-bit mode through an I2C port expander.
 *
 * Every byte sent to the controller becomes six expander writes: the high
 * nibble with the register-select (RS) bit and the backlight bit, the same
 * byte with the enable strobe raised, the same byte with the strobe dropped,
 * then the low nibble the same way. The bus is an append-only trace of
 * `WriteByte` and `Wait` events; I/O errors are not modelled.
 */
module Lcd {
  import opened Gpio
  import opened Numbers

  type Byte = bv8

  /** Register select: `LCD_CMD = 0` (instruction register), `LCD_CHR = 1` (data register). */
  datatype Mode = Command | Character

  function ModeBit(mode: Mode): Byte
  {
    if mode == Command then 0 else 1
  }

  /** Set DDRAM Address instructions for the start of each line (DDRAM 0x00 and 0x40). */
  const Line1: Byte := 0x80
  const Line2: Byte := 0xC0
  const Width: nat := 16
  const BacklightOn: Byte := 0x08
  const BacklightOff: Byte := 0x00
  const Enable: Byte := 0x04
  const ClearDisplay: Byte := 0x01
  const Space: Byte := 0x20

  /** Pause around each edge of the enable strobe, and after Clear Display. */
  const StrobeWait: real := 0.0005
  const ClearWait: real := 0.002

  datatype BusEvent = WriteByte(address: int, value: Byte) | Wait(seconds: real)

  /** One byte handed to the controller, with the register it goes to. */
  datatype Transfer = Transfer(mode: Mode, value: Byte)

  /** `lcd_byte` only looks at the low eight bits of its argument. */
  function LowByte(bits: nat): Byte
  {
    (bits % 256) as Byte
  }

  function HighFrame(b: Byte, mode: Mode): Byte
  {
    ModeBit(mode) | (b & 0xF0) | BacklightOn
  }

  function LowFrame(b: Byte, mode: Mode): Byte
  {
    ModeBit(mode) | ((b << 4) & 0xF0) | BacklightOn
  }

  /** A nibble byte as written, then with the strobe raised, then with it dropped. */
  function StrobedFrames(x: Byte): seq<Byte>
  {
    [x, x | Enable, x & !Enable]
  }

  /** The six expander bytes for one controller byte. */
  function Frames(b: Byte, mode: Mode): (r: seq<Byte>)
    ensures |r| == 6
  {
    StrobedFrames(HighFrame(b, mode)) + StrobedFrames(LowFrame(b, mode))
  }

  lemma NibbleFrameBits(x: Byte, m: Byte)
    requires x & 0x0F == m | BacklightOn && (m == 0 || m == 1)
    ensures x & BacklightOn == BacklightOn && (x | Enable) & BacklightOn == BacklightOn
    ensures x & Enable == 0 && (x | Enable) & Enable == Enable && x & !Enable == x
    ensures x & 1 == m && (x | Enable) & 1 == m
  {
  }

  lemma NibbleSplit(b: Byte, m: Byte)
    requires m == 0 || m == 1
    ensures (m | (b & 0xF0) | BacklightOn) & 0x0F == m | BacklightOn
    ensures (m | ((b << 4) & 0xF0) | BacklightOn) & 0x0F == m | BacklightOn
    ensures ((m | (b & 0xF0) | BacklightOn) & 0xF0) | ((m | ((b << 4) & 0xF0) | BacklightOn) >> 4) == b
  {
  }

  /** An expander byte with the backlight on, the strobe as given and RS as the mode says. */
  predicate FrameByte(x: Byte, strobe: bool, mode: Mode)
  {
    x & BacklightOn == BacklightOn && (x & Enable == Enable) == strobe && x & 1 == ModeBit(mode)
  }

  /** The three strobed copies of a nibble byte: only the middle one raises the strobe. */
  lemma StrobedFramesBits(x: Byte, mode: Mode)
    requires x & 0x0F == ModeBit(mode) | BacklightOn
    ensures FrameByte(StrobedFrames(x)[0], false, mode)
    ensures FrameByte(StrobedFrames(x)[1], true, mode)
    ensures FrameByte(StrobedFrames(x)[2], false, mode)
  {
    NibbleFrameBits(x, ModeBit(mode));
  }

  /**
   * Every expander byte keeps the backlight on and carries the RS bit; only the
   * second and the fifth raise the enable strobe; the high nibble of the first
   * and the high nibble of the fourth put the original byte back together.
   */
  lemma FramesBits(b: Byte, mode: Mode)
    ensures FrameByte(Frames(b, mode)[0], false, mode) && FrameByte(Frames(b, mode)[1], true, mode)
    ensures FrameByte(Frames(b, mode)[2], false, mode) && FrameByte(Frames(b, mode)[3], false, mode)
    ensures FrameByte(Frames(b, mode)[4], true, mode) && FrameByte(Frames(b, mode)[5], false, mode)
    ensures (Frames(b, mode)[0] & 0xF0) | (Frames(b, mode)[3] >> 4) == b
  {
    var high, low := HighFrame(b, mode), LowFrame(b, mode);
    var w := Frames(b, mode);
    assert w[..3] == StrobedFrames(high) && w[3..] == StrobedFrames(low);
    assert high & 0x0F == ModeBit(mode) | BacklightOn && low & 0x0F == ModeBit(mode) | BacklightOn
        && (high & 0xF0) | (low >> 4) == b by {
      NibbleSplit(b, ModeBit(mode));
    }
    StrobedFramesBits(high, mode);
    StrobedFramesBits(low, mode);
    assert w[0] == high && w[3] == low;
  }

  /** Reads one controller byte back from six expander bytes. */
  function DecodeFrames(w: seq<Byte>): Transfer
    requires |w| == 6
  {
    Transfer(if w[0] & 1 == 1 then Character else Command, (w[0] & 0xF0) | (w[3] >> 4))
  }

  /** The expander bytes for a sequence of transfers. */
  function Encode(ts: seq<Transfer>): (w: seq<Byte>)
    ensures |w| == 6 * |ts|
  {
    if ts == [] then []
    else Encode(ts[..|ts| - 1]) + Frames(ts[|ts| - 1].value, ts[|ts| - 1].mode)
  }

  function Decode(w: seq<Byte>): seq<Transfer>
    requires |w| % 6 == 0
  {
    if w == [] then [] else Decode(w[..|w| - 6]) + [DecodeFrames(w[|w| - 6..])]
  }

  /** Decoding the six bytes of one transfer gives it back. */
  lemma DecodeFramesInverse(b: Byte, mode: Mode)
    ensures DecodeFrames(Frames(b, mode)) == Transfer(mode, b)
  {
    FramesBits(b, mode);
  }

  /** The controller recovers exactly the transfers that were encoded. */
  lemma {:induction false} DecodeEncode(ts: seq<Transfer>)
    ensures Decode(Encode(ts)) == ts
  {
    if ts != [] {
      var prefix, last := ts[..|ts| - 1], ts[|ts| - 1];
      var w := Encode(ts);
      assert w == Encode(prefix) + Frames(last.value, last.mode);
      assert w[..|w| - 6] == Encode(prefix);
      assert w[|w| - 6..] == Frames(last.value, last.mode);
      DecodeEncode(prefix);
      DecodeFramesInverse(last.value, last.mode);
      assert Decode(w) == prefix + [last];
      assert prefix + [last] == ts;
    }
  }

  /** The byte values written to the bus, in order. */
  function Written(t: seq<BusEvent>): seq<Byte>
  {
    if t == [] then []
    else Written(t[..|t| - 1]) + (if t[|t| - 1].WriteByte? then [t[|t| - 1].value] else [])
  }

  lemma {:induction false} WrittenConcat(a: seq<BusEvent>, b: seq<BusEvent>)
    ensures Written(a + b) == Written(a) + Written(b)
  {
    if b == [] {
      assert a + b == a;
    } else {
      assert (a + b)[..|a + b| - 1] == a + b[..|b| - 1];
      WrittenConcat(a, b[..|b| - 1]);
    }
  }

  /** `lcd_toggle_enable`: wait, strobe high, wait, strobe low, wait. */
  function ToggleTrace(address: int, bits: Byte): seq<BusEvent>
  {
    [Wait(StrobeWait)] + [WriteByte(address, bits | Enable)] + [Wait(StrobeWait)]
    + [WriteByte(address, bits & !Enable)] + [Wait(StrobeWait)]
  }

  lemma WrittenOne(e: BusEvent)
    ensures Written([e]) == if e.WriteByte? then [e.value] else []
  {
    assert [e][..0] == [];
  }

  /** A nibble byte written, then strobed (`lcd_byte` lines 43-44, and again 46-47). */
  function NibbleTrace(address: int, x: Byte): seq<BusEvent>
  {
    [WriteByte(address, x)] + ToggleTrace(address, x)
  }

  lemma WrittenNibble(address: int, x: Byte)
    ensures Written(NibbleTrace(address, x)) == StrobedFrames(x)
  {
    var e0, e1, e2, e3, e4 := Wait(StrobeWait), WriteByte(address, x | Enable), Wait(StrobeWait),
                              WriteByte(address, x & !Enable), Wait(StrobeWait);
    var w := WriteByte(address, x);
    WrittenOne(w);
    WrittenOne(e0); WrittenOne(e1); WrittenOne(e2); WrittenOne(e3); WrittenOne(e4);
    WrittenConcat([w], [e0]);
    WrittenConcat([w] + [e0], [e1]);
    WrittenConcat([w] + [e0] + [e1], [e2]);
    WrittenConcat([w] + [e0] + [e1] + [e2], [e3]);
    WrittenConcat([w] + [e0] + [e1] + [e2] + [e3], [e4]);
    assert NibbleTrace(address, x) == [w] + [e0] + [e1] + [e2] + [e3] + [e4];
  }

  /** `lcd_byte`: the high nibble byte written and strobed, then the low one. */
  function ByteTrace(address: int, t: Transfer): seq<BusEvent>
  {
    NibbleTrace(address, HighFrame(t.value, t.mode)) + NibbleTrace(address, LowFrame(t.value, t.mode))
  }

  function TransfersTrace(address: int, ts: seq<Transfer>): seq<BusEvent>
  {
    if ts == [] then [] else TransfersTrace(address, ts[..|ts| - 1]) + ByteTrace(address, ts[|ts| - 1])
  }

  lemma TransfersTraceAppend(address: int, ts: seq<Transfer>, t: Transfer)
    ensures TransfersTrace(address, ts + [t]) == TransfersTrace(address, ts) + ByteTrace(address, t)
  {
    assert (ts + [t])[..|ts|] == ts;
  }

  lemma WrittenByteTrace(address: int, t: Transfer)
    ensures Written(ByteTrace(address, t)) == Frames(t.value, t.mode)
  {
    WrittenNibble(address, HighFrame(t.value, t.mode));
    WrittenNibble(address, LowFrame(t.value, t.mode));
    WrittenConcat(NibbleTrace(address, HighFrame(t.value, t.mode)), NibbleTrace(address, LowFrame(t.value, t.mode)));
  }

  /** What goes on the bus is the encoding of the transfers, wait events aside. */
  lemma {:induction false} WrittenTransfers(address: int, ts: seq<Transfer>)
    ensures Written(TransfersTrace(address, ts)) == Encode(ts)
  {
    if ts != [] {
      var n := |ts|;
      WrittenTransfers(address, ts[..n - 1]);
      WrittenConcat(TransfersTrace(address, ts[..n - 1]), ByteTrace(address, ts[n - 1]));
      WrittenByteTrace(address, ts[n - 1]);
    }
  }

  /** End to end: decoding the bytes written on the bus gives back the transfers sent. */
  lemma BusRoundTrip(address: int, ts: seq<Transfer>)
    ensures |Written(TransfersTrace(address, ts))| == 6 * |ts|
    ensures Decode(Written(TransfersTrace(address, ts))) == ts
  {
    WrittenTransfers(address, ts);
    DecodeEncode(ts);
  }

  /** `message.ljust(LCD_WIDTH, " ")`: pads with spaces to 16 columns, never truncates. */
  function Pad(message: string): (r: string)
    ensures |r| == Max(|message|, Width)
    ensures r[..|message|] == message
    ensures forall i :: |message| <= i < |r| ==> r[i] == ' '
  {
    message + seq(Max(Width - |message|, 0), _ => ' ')
  }

  /** One data transfer per character, carrying its code point's low byte. */
  function CharTransfers(s: string): (r: seq<Transfer>)
    ensures |r| == |s|
  {
    if s == [] then [] else CharTransfers(s[..|s| - 1]) + [Transfer(Character, LowByte(s[|s| - 1] as nat))]
  }

  lemma {:induction false} CharTransfersAt(s: string, i: nat)
    requires i < |s|
    ensures CharTransfers(s)[i] == Transfer(Character, LowByte(s[i] as nat))
  {
    if i < |s| - 1 {
      CharTransfersAt(s[..|s| - 1], i);
    }
  }

  /** The instructions `write` sends: Set DDRAM Address, then one data byte per padded column. */
  function WriteTransfers(message: string, lineAddress: Byte): seq<Transfer>
  {
    [Transfer(Command, lineAddress)] + CharTransfers(Pad(message))
  }

  /** `write` sends `max(len(message), 16)` data bytes: the message, then spaces. */
  lemma WriteTransfersShape(message: string, lineAddress: Byte)
    ensures |WriteTransfers(message, lineAddress)| == 1 + Max(|message|, Width)
    ensures WriteTransfers(message, lineAddress)[0] == Transfer(Command, lineAddress)
    ensures forall i :: 0 <= i < |message| ==>
      WriteTransfers(message, lineAddress)[1..][i] == Transfer(Character, LowByte(message[i] as nat))
    ensures forall i :: 1 + |message| <= i <= Width ==>
      WriteTransfers(message, lineAddress)[i] == Transfer(Character, Space)
  {
    var p := Pad(message);
    var r := WriteTransfers(message, lineAddress);
    forall i | 0 <= i < |message|
      ensures r[1..][i] == Transfer(Character, LowByte(message[i] as nat))
    {
      assert p[..|message|][i] == p[i];
      CharTransfersAt(p, i);
    }
    forall i | 1 + |message| <= i <= Width
      ensures r[i] == Transfer(Character, Space)
    {
      CharTransfersAt(p, i - 1);
    }
  }

  /** The power-on instructions: 4-bit mode (twice), entry mode, display on, two lines. */
  const InitTransfers: seq<Transfer> :=
    [Transfer(Command, 0x33), Transfer(Command, 0x32), Transfer(Command, 0x06),
     Transfer(Command, 0x0C), Transfer(Command, 0x28)]

  /** `clear`: Clear Display, then the settle pause. */
  function ClearTrace(address: int): seq<BusEvent>
  {
    ByteTrace(address, Transfer(Command, ClearDisplay)) + [Wait(ClearWait)]
  }

  /** The bus after `init_lcd` runs on a bus that already carried `before`. */
  function AfterInit(before: seq<BusEvent>, address: int): seq<BusEvent>
  {
    before + ByteTrace(address, InitTransfers[0]) + ByteTrace(address, InitTransfers[1])
    + ByteTrace(address, InitTransfers[2]) + ByteTrace(address, InitTransfers[3])
    + ByteTrace(address, InitTransfers[4]) + ClearTrace(address)
  }

  /** The bus after `init_lcd` is the trace of the six instructions, then the Clear Display pause. */
  lemma InitTrace(address: int)
    ensures AfterInit([], address)
         == TransfersTrace(address, InitTransfers + [Transfer(Command, ClearDisplay)]) + [Wait(ClearWait)]
  {
    var ts := InitTransfers + [Transfer(Command, ClearDisplay)];
    assert ts[..0] == [];
    TransfersTraceAppend(address, ts[..0], ts[0]);
    assert ts[..1] == ts[..0] + [ts[0]];
    TransfersTraceAppend(address, ts[..1], ts[1]);
    assert ts[..2] == ts[..1] + [ts[1]];
    TransfersTraceAppend(address, ts[..2], ts[2]);
    assert ts[..3] == ts[..2] + [ts[2]];
    TransfersTraceAppend(address, ts[..3], ts[3]);
    assert ts[..4] == ts[..3] + [ts[3]];
    TransfersTraceAppend(address, ts[..4], ts[4]);
    assert ts[..5] == ts[..4] + [ts[4]];
    TransfersTraceAppend(address, ts[..5], ts[5]);
    assert ts[..6] == ts[..5] + [ts[5]];
    assert ts[..6] == ts;
    BusAppendAssoc(TransfersTrace(address, ts[..5]), ByteTrace(address, ts[5]), [Wait(ClearWait)]);
  }

  /** `init_lcd` hands the controller 0x33, 0x32, 0x06, 0x0C, 0x28, 0x01, in order, all as instructions. */
  lemma InitSendsCommands(address: int)
    ensures |Written(AfterInit([], address))| == 36
    ensures Decode(Written(AfterInit([], address))) ==
      [Transfer(Command, 0x33), Transfer(Command, 0x32), Transfer(Command, 0x06),
       Transfer(Command, 0x0C), Transfer(Command, 0x28), Transfer(Command, 0x01)]
  {
    var ts := InitTransfers + [Transfer(Command, ClearDisplay)];
    InitTrace(address);
    WrittenConcat(TransfersTrace(address, ts), [Wait(ClearWait)]);
    WrittenOne(Wait(ClearWait));
    assert Written(TransfersTrace(address, ts)) + [] == Written(TransfersTrace(address, ts));
    BusRoundTrip(address, ts);
    assert ts == [Transfer(Command, 0x33), Transfer(Command, 0x32), Transfer(Command, 0x06),
                  Transfer(Command, 0x0C), Transfer(Command, 0x28), Transfer(Command, 0x01)];
  }

  lemma WriteStep(address: int, lineAddress: Byte, padded: string, i: nat)
    requires i < |padded|
    ensures TransfersTrace(address, [Transfer(Command, lineAddress)] + CharTransfers(padded[..i + 1]))
         == TransfersTrace(address, [Transfer(Command, lineAddress)] + CharTransfers(padded[..i]))
            + ByteTrace(address, Transfer(Character, LowByte(padded[i] as nat)))
  {
    var t := Transfer(Character, LowByte(padded[i] as nat));
    assert padded[..i + 1][..i] == padded[..i];
    assert [Transfer(Command, lineAddress)] + CharTransfers(padded[..i + 1])
        == [Transfer(Command, lineAddress)] + CharTransfers(padded[..i]) + [t];
    TransfersTraceAppend(address, [Transfer(Command, lineAddress)] + CharTransfers(padded[..i]), t);
  }

  lemma WriteStart(address: int, lineAddress: Byte, padded: string)
    ensures TransfersTrace(address, [Transfer(Command, lineAddress)] + CharTransfers(padded[..0]))
         == ByteTrace(address, Transfer(Command, lineAddress))
  {
    assert [Transfer(Command, lineAddress)] + CharTransfers(padded[..0]) == [Transfer(Command, lineAddress)] by {
      assert padded[..0] == [];
    }
    assert [Transfer(Command, lineAddress)][..0] == [];
  }

  lemma BusAppendAssoc(a: seq<BusEvent>, b: seq<BusEvent>, c: seq<BusEvent>)
    ensures a + (b + c) == a + b + c
  {
  }

  class LcdI2c {
    const address: int
    var bus: seq<BusEvent>

    /** Opens the bus and runs `init_lcd`. */
    constructor (address: int)
      ensures this.address == address
      ensures bus == AfterInit([], address)
    {
      this.address := address;
      bus := [];
      new;
      InitLcd();
    }

    method InitLcd()
      modifies this
      ensures bus == AfterInit(old(bus), address)
    {
      LcdByte(0x33, Command);
      LcdByte(0x32, Command);
      LcdByte(0x06, Command);
      LcdByte(0x0C, Command);
      LcdByte(0x28, Command);
      Clear();
    }

    method LcdByte(b: Byte, mode: Mode)
      modifies this
      ensures bus == old(bus) + ByteTrace(address, Transfer(mode, b))
    {
      var highBits := HighFrame(b, mode);
      var lowBits := LowFrame(b, mode);
      WriteNibble(highBits);
      WriteNibble(lowBits);
    }

    /** One nibble byte written and strobed, as `lcd_byte` does for each half. */
    method WriteNibble(x: Byte)
      modifies this
      ensures bus == old(bus) + NibbleTrace(address, x)
    {
      bus := bus + [WriteByte(address, x)];
      LcdToggleEnable(x);
    }

    method LcdToggleEnable(bits: Byte)
      modifies this
      ensures bus == old(bus) + ToggleTrace(address, bits)
    {
      bus := bus + [Wait(StrobeWait)];
      bus := bus + [WriteByte(address, bits | Enable)];
      bus := bus + [Wait(StrobeWait)];
      bus := bus + [WriteByte(address, bits & !Enable)];
      bus := bus + [Wait(StrobeWait)];
    }

    method Clear()
      modifies this
      ensures bus == old(bus) + ClearTrace(address)
    {
      LcdByte(ClearDisplay, Command);
      bus := bus + [Wait(ClearWait)];
    }

    /** Line 1 or 2 selects the DDRAM address; any other line raises before any bus write. */
    method Write(message: string, line: int) returns (status: Status)
      modifies this
      ensures status == Ok <==> line == 1 || line == 2
      ensures status == Ok ==>
        bus == old(bus) + TransfersTrace(address, WriteTransfers(message, if line == 1 then Line1 else Line2))
      ensures status != Ok ==> bus == old(bus) && status == ValueError
    {
      var lineAddress: Byte;
      if line == 1 {
        lineAddress := Line1;
      } else if line == 2 {
        lineAddress := Line2;
      } else {
        return ValueError;
      }
      LcdByte(lineAddress, Command);
      var padded := Pad(message);
      WriteStart(address, lineAddress, padded);
      var i := 0;
      while i < |padded|
        invariant 0 <= i <= |padded|
        invariant bus == old(bus) + TransfersTrace(address, [Transfer(Command, lineAddress)] + CharTransfers(padded[..i]))
      {
        ghost var before := bus;
        var b := LowByte(padded[i] as nat);
        LcdByte(b, Character);
        WriteStep(address, lineAddress, padded, i);
        BusAppendAssoc(old(bus), TransfersTrace(address, [Transfer(Command, lineAddress)] + CharTransfers(padded[..i])),
                    ByteTrace(address, Transfer(Character, b)));
        i := i + 1;
      }
      assert padded[..i] == padded;
      return Ok;
    }

    /** `backlight(True)` writes 0x08 alone, `backlight(False)` writes 0x00. */
    method Backlight(state: bool)
      modifies this
      ensures bus == old(bus) + [WriteByte(address, if state then BacklightOn else BacklightOff)]
    {
      if state {
        bus := bus + [WriteByte(address, BacklightOn)];
      } else {
        bus := bus + [WriteByte(address, BacklightOff)];
      }
    }
  }
}
