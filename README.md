# HD44780 4-bit LCD driver, modelled in Dafny

This project models `lcd.cpp`, a bit-banged driver for an HD44780-family
character LCD wired in 4-bit interface mode to an AVR microcontroller: E and
RS on PORTB bits 4 and 6, the data lines DB4..DB7 on PORTA bits 0..3.

The hardware is modelled as state. `Lcd.Driver` is a class with the four
8-bit registers the driver writes (`ddrA`, `ddrB`, `portA`, `portB`, all
`bv8`) and an append-only trace of what the outside world observes:

- `Strobe(nibble, rs)`: E pulsed high, with the value on PORTA and the level
  of RS while E is high. The controller samples RS as E rises and latches the
  bus as E falls, and the driver changes neither in between;
- `Delay(us)`: one call of the external `delayUs(us)`.

There is one method per function of the driver, with the statements of
lcd.cpp in the same order. The five statements that every nibble write repeats
inline (PORTA, RS, E high, `delayUs(1)`, E low) are one method,
`WriteNibble`. Each method's postcondition ties the new trace to a
specification function of module `Protocol`, such as `EightBitCommandTrace`.
It also states the new register values and what it leaves alone:

- PORTA ends at the last nibble sent, so at most 0x0F;
- E ends low after every transfer that strobes at least once; `writeString`
  of an empty text changes no register;
- RS ends low after a command and high after a character;
- no PORTB bit other than E and RS changes;
- the method's `modifies` frame excludes DDRA and DDRB.

The meaning of those trace functions is then proved as lemmas, through three
views of a trace (module `Trace`):

- `Strobes`: the strobes in order;
- `Received`: the bytes a 4-bit-mode controller assembles from them, high
  nibble first, in the instruction register when RS is low and in the data
  register when RS is high;
- `TotalDelay`: the time spent in `delayUs`.

`WellFormed` says that no strobe puts anything above the four bus lines and
that `delayUs(0)` is never called. The class invariant `Valid()` keeps the
whole trace well formed.

RS follows the code, not its comments. The comment at lcd.cpp:51 says
"Sets RS high", but the statement clears bit 6. So every command nibble is
sent with RS low and every character nibble with RS high.

The init sequence is proved in module `InitProcedure`. It has three
descriptions: the event list itself, its 14 strobes and 21125 us of explicit
waits, and what the controller sees. The controller first sees the single
nibbles 3, 3, 3, 2 while it is still in 8-bit mode. Then it receives the
instructions 0x28, 0x08, 0x01, 0x06 and 0x0F as whole bytes.

## Model

| member | source | states |
|---|---|---|
| Nibble.SplitJoin | lcd.cpp:49-59 | the high nibble `(b & 0xF0) >> 4` and the low nibble `b & 0x0F`, sent in that order, recombine to `b` (also as `hi*16 + lo`) |
| Nibble.JoinSplit | lcd.cpp:81-92 | any two 4-bit values survive being joined into a byte and split again |
| Lcd.Driver.DelayUs | lcd.cpp:33 | a call of the external microsecond wait is observed as exactly one `Delay(us)` event and changes nothing else |
| Lcd.Driver.WriteNibble | lcd.cpp:28-35 | one nibble write appends exactly one strobe, carrying the nibble and the chosen RS level, and one 1 us hold; PORTA holds the nibble; E ends low, RS at the chosen level; other PORTB bits are unchanged |
| Lcd.Driver.InitLcdPins | lcd.cpp:10-21 | DDRB bits 4 and 6 and DDRA bits 0-3 become 1, every other direction bit is kept, and a second call changes nothing |
| Lcd.Driver.FourBitCommandWithDelay | lcd.cpp:26-41 | the trace grows by exactly the 4-bit command's events; PORTA is `data & 0x0F`; E and RS end low; other PORTB bits are unchanged; the trace stays well formed |
| Lcd.Driver.EightBitCommandWithDelay | lcd.cpp:46-72 | the trace grows by the high-nibble and low-nibble strobes, both with RS low, and the optional wait; E and RS end low; other PORTB bits are unchanged |
| Lcd.Driver.WriteCharacter | lcd.cpp:77-103 | the trace grows by the two nibble strobes with RS high and the 50 us settle time; E ends low and RS ends high; other PORTB bits are unchanged |
| Lcd.Driver.WriteString | lcd.cpp:108-119 | the loop writes exactly `Text(s)`, the bytes before the first NUL capped at 100, one character each; an empty text leaves the registers as they were, otherwise E ends low and RS high |
| Lcd.Driver.MoveCursor | lcd.cpp:125-129 | one 8-bit command `CursorCommand(x, y)` with a 50 us post-delay; PORTA ends at the command's low nibble; E and RS end low; other PORTB bits are unchanged |
| Lcd.Driver.InitLcdProcedure | lcd.cpp:135-164 | the trace grows by exactly `InitSequence()`, whatever the state; PORTA ends at 0x0F; E and RS end low |
| Lcd.Driver.InitLcd | lcd.cpp:170-173 | the pin configuration of initLCDPins, then exactly the init sequence |
| Lcd.InitSequenceUnfolds | lcd.cpp:137-162 | the nine straight-line calls of initLCDProcedure, appended to any trace, add up to the init sequence |
| Protocol.PulseEvents | lcd.cpp:31-35 | a pulse is one strobe and a 1 us hold, well formed when the nibble fits the bus |
| Protocol.PostDelayEvents | lcd.cpp:37-40 | the post-delay strobes nothing, waits exactly `d`, and is absent when `d == 0` |
| Protocol.FourBitCommandStrobes | lcd.cpp:28-31 | a 4-bit command strobes `data & 0x0F` once, with RS low |
| Protocol.FourBitCommandTiming | lcd.cpp:33-40 | it waits 1 + d us; the wait of `d` is issued only when `d > 0`, so no `Delay(0)` appears; 3 events, or 2 when `d == 0` |
| Protocol.TwoPulsesReceived | lcd.cpp:81-99 | two pulses at the same RS level reach the controller as one byte, in the register RS selects |
| Protocol.TwoPulsesTiming | lcd.cpp:86-97 | two pulses wait two holds and are well formed |
| Protocol.EightBitCommandStrobes | lcd.cpp:49-62 | an 8-bit command strobes `c >> 4` and then `c & 0x0F`, both with RS low |
| Protocol.EightBitCommandReceived | lcd.cpp:46-72 | the controller receives exactly the instruction `c` |
| Protocol.EightBitCommandTiming | lcd.cpp:54-71 | it waits 2 + d us, issues the wait only when `d > 0`, never a `Delay(0)`; 5 events, or 4 when `d == 0` |
| Protocol.CharacterStrobes | lcd.cpp:81-95 | a character strobes `ch >> 4` and then `ch & 0x0F`, both with RS high |
| Protocol.CharacterReceived | lcd.cpp:77-103 | the controller receives exactly the data byte `ch` |
| Protocol.CharacterTiming | lcd.cpp:86-102 | two holds and then exactly one wait, the 50 us settle time, as the last of five events |
| Protocol.StringTraceAppend | lcd.cpp:111-118 | writing `t` then `u` is writing `t + u` |
| Protocol.StringTraceSnoc | lcd.cpp:117 | each loop iteration appends one character's events |
| Protocol.StringReceived | lcd.cpp:111-118 | writing bytes `t` delivers exactly those bytes, in order, to the data register |
| Protocol.StringTiming | lcd.cpp:111-118 | two strobes and 52 us of waiting per byte, and the trace is well formed |
| Protocol.ScanStep | lcd.cpp:113-117 | after a non-NUL byte the scanned prefix is still NUL-free and a NUL ahead stays ahead |
| Protocol.TextShape | lcd.cpp:111-116 | the text sent is a NUL-free prefix of the buffer of at most 100 bytes, and it stops only at the cap, at the end, or at a NUL |
| Protocol.TextUnique | lcd.cpp:111-116 | a NUL-free prefix that ends at the cap or at a NUL is exactly the text sent |
| Protocol.TextExamples | lcd.cpp:113-115 | a string whose first byte is NUL sends nothing; "AB" sends 'A' then 'B' |
| Protocol.TextCapped | lcd.cpp:111 | with no NUL among the first 100 bytes, as in a 150-byte unterminated buffer, exactly the first 100 bytes are sent |
| Protocol.CursorWide | lcd.cpp:127-128 | the command computed in 8 bits equals `0x80 \| (y*16 + x)` computed in the 16-bit `unsigned int` of AVR and then cut to its low byte |
| Protocol.CursorCommandBit7 | lcd.cpp:128 | bit 7 (set DDRAM address) of the cursor command is always set |
| Protocol.CursorCommandAddress | lcd.cpp:127-128 | for `x < 16` and `y < 8`, so on a 16x2 display too, the command is `0x80 + y*16 + x` |
| Protocol.CursorCommandColumnsSpill | lcd.cpp:127 | a column past 15 gives the command for 16 columns back on the next row |
| Protocol.CursorCommandRowsRepeat | lcd.cpp:127-128 | after the conversion to `unsigned char`, rows 8 apart give the same command |
| Protocol.CursorCommandExamples | lcd.cpp:127-128 | `moveCursor(255, 255)` sends 0xEF (position 0x10EF cut to a byte); `moveCursor(0, 1)` sends 0x90 |
| Protocol.AppendCommandStrobes | lcd.cpp:49-62 | appending a command to any trace appends its two RS-low strobes |
| Protocol.AppendCommandTiming | lcd.cpp:54-71 | appending a command adds 2 + d us and keeps a trace well formed exactly when it was |
| Protocol.AppendCommandReceived | lcd.cpp:46-72 | appending a command on a whole-byte boundary appends the instruction to what the controller received |
| InitProcedure.EightBitCommandEvents | lcd.cpp:46-72 | an 8-bit command with a wait is, event by event, strobe, hold, strobe, hold, wait |
| InitProcedure.WakeUpEvents | lcd.cpp:137-147 | the power-on part of the init sequence, event by event |
| InitProcedure.ConfigureEvents | lcd.cpp:150-162 | the configuring part of the init sequence, event by event |
| InitProcedure.InitSequenceEvents | lcd.cpp:135-164 | the whole init sequence as one fixed list of 37 events, with no branch on any input |
| InitProcedure.WakeUpStrobes | lcd.cpp:137-147 | the wake-up strobes are 3, 3, 3, 2, all with RS low |
| InitProcedure.WakeUpTiming | lcd.cpp:137-147 | the wake-up waits 15000 + 4100 + 100 + 45 us plus four holds, and is well formed |
| InitProcedure.ConfigureStrobes | lcd.cpp:150-162 | the configuring part strobes two nibbles per instruction, all with RS low |
| InitProcedure.ConfigureReceived | lcd.cpp:150-162 | the controller receives 0x28, 0x08, 0x01, 0x06, 0x0F, in that order |
| InitProcedure.ConfigureTiming | lcd.cpp:150-162 | the configuring part waits 1880 us plus ten holds, and is well formed |
| InitProcedure.InitSequenceStrobes | lcd.cpp:135-164 | 14 strobes, all with RS low: four wake-up nibbles, then two per instruction |
| InitProcedure.InitSequenceTiming | lcd.cpp:135-164 | 21125 us of explicit waits plus 14 holds (21139 us), and no zero wait or wide nibble |
| InitProcedure.InitSequenceReceived | lcd.cpp:135-164 | the controller sees nibbles 3, 3, 3, 2 and then the instructions 0x28, 0x08, 0x01, 0x06, 0x0F |
| Trace.WellFormedAt | lcd.cpp:28-40 | a trace is well formed exactly when each of its events is |
| Trace.WellFormedNoZeroDelay | lcd.cpp:37-40 | a well-formed trace contains no `Delay(0)` |

## Left out

- `delayUs` comes from `timer.h`, which is not part of this model. Each call is recorded as a `Delay(us)` event; wall-clock time and busy-waiting are not modelled.
- The controller's own behaviour is not modelled: what each instruction does on the glass, cursor auto-advance, and the DDRAM address map (the second row of a 16x2 display starts at 0x40, not at 16). The driver is write-only and never observes it. `Received` models only how a 4-bit-mode controller pairs nibbles into bytes.
- The AVR register macros (`DDB4`, `PORTB6`, ...) come from `lcd.h` and the AVR headers, which are not part of this model. They are fixed bit positions here: E = PORTB bit 4, RS = PORTB bit 6, the bus = PORTA bits 0-3.
- Interrupts or other code touching the ports concurrently are not modelled; the driver owns the ports.
- Lcd.Driver.WriteString: takes bytes (`seq<bv8>`). The source converts each `char` to `unsigned char`, and that conversion is not modelled.
- Lcd.Driver.WriteString: requires at least 100 bytes or a NUL in `s`. Reading past the end of the buffer is undefined in C, so there is nothing to model there.
- Lcd.Driver.MoveCursor: computes `y*16 + x` in 8-bit wrap-around arithmetic; `Protocol.CursorWide` proves it equal to the low byte of the 16-bit `unsigned int` computation. Other widths of `unsigned int` are not modelled.
- Lcd.Driver.FourBitCommandWithDelay: takes the `unsigned int delay` as an unbounded `nat`. Its 16-bit width on AVR is not modelled; every delay the driver passes is below 65536.
- Lcd.Driver.EightBitCommandWithDelay: takes the `unsigned int delay` as an unbounded `nat`, as above.
- Every transfer method requires `Valid()`, the class invariant. The constructor establishes it and every method keeps it. It is a property of the model, not a demand of the source.
