/** The driver itself: the four AVR port registers it writes, modelled as
    8-bit fields, and the trace of what the LCD and the delay timer observe.
    One method per function of the driver, each with the statements of lcd.cpp
    in the same order. */
module Lcd {
  import opened Nibble
  import opened Trace
  import opened Protocol

  /** PORTB4 / DDB4: the enable line E. */
  const EnableBit: bv8 := 0x10
  /** PORTB6 / DDB6: the register-select line RS. */
  const RsBit: bv8 := 0x40
  /** PA0..PA3 / DDA0..DDA3: the data bus DB4..DB7. */
  const BusBits: bv8 := 0x0F

  /** The PORTB bits that belong to other devices: all but E and RS. */
  function Untouched(p: bv8): (r: bv8)
  {
    p & !(EnableBit | RsBit)
  }

  predicate EnableLow(p: bv8)
  {
    p & EnableBit == 0
  }

  predicate RsHigh(p: bv8)
  {
    p & RsBit != 0
  }

  class Driver {
    var ddrA: bv8
    var ddrB: bv8
    var portA: bv8
    var portB: bv8
    /** Everything the LCD and the delay timer have seen so far. */
    var trace: seq<Event>

    /** No strobe has put anything above the bus lines on PORTA, and
        `delayUs(0)` has never been called. */
    ghost predicate Valid()
      reads this
    {
      WellFormed(trace)
    }

    /** The registers as the driver finds them; nothing has been observed yet. */
    constructor (ddrA0: bv8, ddrB0: bv8, portA0: bv8, portB0: bv8)
      ensures Valid()
      ensures ddrA == ddrA0 && ddrB == ddrB0 && portA == portA0 && portB == portB0
      ensures trace == []
    {
      ddrA, ddrB, portA, portB := ddrA0, ddrB0, portA0, portB0;
      trace := [];
    }

    /** The external microsecond busy-wait: only its call is observed. */
    method DelayUs(us: nat)
      modifies this`trace
      ensures trace == old(trace) + [Delay(us)]
    {
      trace := trace + [Delay(us)];
    }

    /** The five statements every nibble write of the driver is made of:
        the nibble goes on PORTA, RS is set or cleared, E goes high (the
        controller samples RS), 1 us hold, E goes low (the controller latches
        PORTA).  Nothing changes PORTA or RS while E is high, so the strobe
        recorded as E rises carries what is latched as E falls. */
    method WriteNibble(nibble: bv8, rs: bool)
      modifies this`portA, this`portB, this`trace
      ensures trace == old(trace) + Pulse(nibble, rs)
      ensures portA == nibble
      ensures EnableLow(portB) && RsHigh(portB) == rs
      ensures Untouched(portB) == Untouched(old(portB))
    {
      portA := nibble;
      if rs {
        portB := portB | RsBit;
      } else {
        portB := portB & !RsBit;
      }
      portB := portB | EnableBit;
      trace := trace + [Strobe(portA, RsHigh(portB))];
      DelayUs(HoldUs);
      portB := portB & !EnableBit;
    }

    /** initLCDPins: E, RS and the four bus pins become outputs; every other
        direction bit is kept, so a second call changes nothing. */
    method InitLcdPins()
      modifies this`ddrA, this`ddrB
      ensures ddrB & (EnableBit | RsBit) == EnableBit | RsBit
      ensures ddrB & !(EnableBit | RsBit) == old(ddrB) & !(EnableBit | RsBit)
      ensures ddrA & BusBits == BusBits
      ensures ddrA & !BusBits == old(ddrA) & !BusBits
      ensures old(ddrB & (EnableBit | RsBit)) == EnableBit | RsBit && old(ddrA & BusBits) == BusBits
              ==> ddrA == old(ddrA) && ddrB == old(ddrB)
    {
      ddrB := ddrB | (EnableBit | RsBit);
      ddrA := ddrA | BusBits;
    }

    /** fourBitCommandWithDelay: one nibble with RS low, E left low, PORTB
        bits other than E and RS untouched. */
    method FourBitCommandWithDelay(data: bv8, delay: nat)
      requires Valid()
      modifies this`portA, this`portB, this`trace
      ensures Valid()
      ensures trace == old(trace) + FourBitCommandTrace(data, delay)
      ensures portA == Low(data)
      ensures EnableLow(portB) && !RsHigh(portB)
      ensures Untouched(portB) == Untouched(old(portB))
    {
      WriteNibble(Low(data), false);
      if delay > 0 {
        DelayUs(delay);
      }
      assert trace == old(trace) + FourBitCommandTrace(data, delay);
      assert WellFormed(old(trace) + FourBitCommandTrace(data, delay)) by {
        FourBitCommandTiming(data, delay);
        WellFormedAppend(old(trace), FourBitCommandTrace(data, delay));
      }
    }

    /** eightBitCommandWithDelay: high nibble then low nibble, both with RS
        low, E left low, PORTB bits other than E and RS untouched. */
    method EightBitCommandWithDelay(command: bv8, delay: nat)
      requires Valid()
      modifies this`portA, this`portB, this`trace
      ensures Valid()
      ensures trace == old(trace) + EightBitCommandTrace(command, delay)
      ensures portA == Low(command)
      ensures EnableLow(portB) && !RsHigh(portB)
      ensures Untouched(portB) == Untouched(old(portB))
    {
      WriteNibble(High(command), false);
      WriteNibble(Low(command), false);
      ghost var sent := trace;
      if delay > 0 {
        DelayUs(delay);
      }
      assert trace == sent + PostDelay(delay);
      Regroup(old(trace), Pulse(High(command), false), Pulse(Low(command), false), PostDelay(delay));
      assert WellFormed(old(trace) + EightBitCommandTrace(command, delay)) by {
        EightBitCommandTiming(command, delay);
        WellFormedAppend(old(trace), EightBitCommandTrace(command, delay));
      }
    }

    /** writeCharacter: high nibble then low nibble, both with RS high, then
        the 50 us settle time; E left low, RS left high. */
    method WriteCharacter(character: bv8)
      requires Valid()
      modifies this`portA, this`portB, this`trace
      ensures Valid()
      ensures trace == old(trace) + CharacterTrace(character)
      ensures portA == Low(character)
      ensures EnableLow(portB) && RsHigh(portB)
      ensures Untouched(portB) == Untouched(old(portB))
    {
      WriteNibble(High(character), true);
      WriteNibble(Low(character), true);
      DelayUs(CharacterUs);
      Regroup(old(trace), Pulse(High(character), true), Pulse(Low(character), true), [Delay(CharacterUs)]);
      assert WellFormed(old(trace) + CharacterTrace(character)) by {
        CharacterTiming(character);
        WellFormedAppend(old(trace), CharacterTrace(character));
      }
    }

    /** writeString: the bytes of `s` before its first NUL, at most 100 of
        them, each written as a character, in order.  The loop reads only
        `s[0]` up to the NUL or `s[99]`, so those bytes must exist. */
    method WriteString(s: seq<bv8>)
      requires Valid()
      requires |s| >= Cap || 0 in s
      modifies this`portA, this`portB, this`trace
      ensures Valid()
      ensures trace == old(trace) + StringTrace(Text(s))
      ensures Text(s) == [] ==> portA == old(portA) && portB == old(portB)
      ensures Text(s) != [] ==> portA == Low(Text(s)[|Text(s)| - 1])
      ensures Text(s) != [] ==> EnableLow(portB) && RsHigh(portB) && Untouched(portB) == Untouched(old(portB))
    {
      var i: nat := 0;
      while i < Cap
        invariant Valid()
        invariant i <= Cap && i <= |s|
        invariant 0 !in s[..i]
        invariant 0 in s ==> 0 in s[i..]
        invariant trace == old(trace) + StringTrace(s[..i])
        invariant i == 0 ==> portA == old(portA) && portB == old(portB)
        invariant i > 0 ==> portA == Low(s[i - 1])
        invariant i > 0 ==> EnableLow(portB) && RsHigh(portB) && Untouched(portB) == Untouched(old(portB))
      {
        if s[i] == 0 {
          break;
        }
        WriteCharacter(s[i]);
        ScanStep(s, i);
        StringTraceSnoc(s, i);
        Regroup3(old(trace), StringTrace(s[..i]), CharacterTrace(s[i]));
        i := i + 1;
      }
      TextUnique(s, i);
    }

    /** moveCursor: one 8-bit command `0x80 | (y*16 + x)`, cut to a byte,
        with a 50 us post-delay. */
    method MoveCursor(x: bv8, y: bv8)
      requires Valid()
      modifies this`portA, this`portB, this`trace
      ensures Valid()
      ensures trace == old(trace) + EightBitCommandTrace(CursorCommand(x, y), CursorUs)
      ensures portA == Low(CursorCommand(x, y))
      ensures EnableLow(portB) && !RsHigh(portB)
      ensures Untouched(portB) == Untouched(old(portB))
    {
      // only the low byte of the `unsigned int` position reaches the
      // `unsigned char` parameter, so 8-bit wrap-around arithmetic suffices
      var position: bv8 := y * 16 + x;
      EightBitCommandWithDelay(0x80 | position, CursorUs);
    }

    /** initLCDProcedure: the datasheet's power-on sequence, unconditionally. */
    method InitLcdProcedure()
      requires Valid()
      modifies this`portA, this`portB, this`trace
      ensures Valid()
      ensures trace == old(trace) + InitSequence()
      ensures portA == 0x0F
      ensures EnableLow(portB) && !RsHigh(portB)
      ensures Untouched(portB) == Untouched(old(portB))
    {
      DelayUs(15000);
      WellFormedAppend(old(trace), [Delay(15000)]);
      FourBitCommandWithDelay(0x03, 4100);
      FourBitCommandWithDelay(0x03, 100);
      EightBitCommandWithDelay(0x32, 45);
      EightBitCommandWithDelay(0x28, 45);
      EightBitCommandWithDelay(0x08, 45);
      EightBitCommandWithDelay(0x01, 1700);
      EightBitCommandWithDelay(0x06, 45);
      EightBitCommandWithDelay(0x0F, 45);
      InitSequenceUnfolds(old(trace));
    }

    /** initLCD: pins first, then the power-on sequence. */
    method InitLcd()
      requires Valid()
      modifies this
      ensures Valid()
      ensures ddrB & (EnableBit | RsBit) == EnableBit | RsBit
      ensures ddrB & !(EnableBit | RsBit) == old(ddrB) & !(EnableBit | RsBit)
      ensures ddrA & BusBits == BusBits
      ensures ddrA & !BusBits == old(ddrA) & !BusBits
      ensures trace == old(trace) + InitSequence()
      ensures portA == 0x0F
      ensures EnableLow(portB) && !RsHigh(portB)
      ensures Untouched(portB) == Untouched(old(portB))
    {
      InitLcdPins();
      InitLcdProcedure();
    }
  }

  /** The straight-line calls of initLCDProcedure, appended one after the
      other to a trace `t`, add up to `t` followed by the init sequence. */
  lemma InitSequenceUnfolds(t: seq<Event>)
    ensures t + InitSequence() ==
      t
      + [Delay(15000)]
      + FourBitCommandTrace(0x03, 4100)
      + FourBitCommandTrace(0x03, 100)
      + EightBitCommandTrace(0x32, 45)
      + EightBitCommandTrace(0x28, 45)
      + EightBitCommandTrace(0x08, 45)
      + EightBitCommandTrace(0x01, 1700)
      + EightBitCommandTrace(0x06, 45)
      + EightBitCommandTrace(0x0F, 45)
  {
  }
}
