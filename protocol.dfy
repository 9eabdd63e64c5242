/** The event list each function of the driver must produce, and what those
    lists mean: which bytes the controller receives, in which register, and
    how long the driver waits. */
module Protocol {
  import opened Nibble
  import opened Trace

  /** Hold time of every enable strobe, in microseconds. */
  const HoldUs: nat := 1
  /** Settle time after each character write. */
  const CharacterUs: nat := 50
  /** Post-delay of the cursor-move command. */
  const CursorUs: nat := 50
  /** The most characters one string write sends. */
  const Cap: nat := 100

  /** One nibble transfer: E pulsed high with the nibble on the bus, then the hold. */
  function Pulse(n: bv8, rs: bool): (r: seq<Event>)
  {
    [Strobe(n, rs), Delay(HoldUs)]
  }

  /** The optional wait after a command: nothing at all for a zero delay. */
  function PostDelay(d: nat): (r: seq<Event>)
  {
    if d > 0 then [Delay(d)] else []
  }

  /** fourBitCommandWithDelay(data, d). */
  function FourBitCommandTrace(data: bv8, d: nat): (r: seq<Event>)
  {
    Pulse(Low(data), false) + PostDelay(d)
  }

  /** eightBitCommandWithDelay(c, d). */
  function EightBitCommandTrace(c: bv8, d: nat): (r: seq<Event>)
  {
    Pulse(High(c), false) + Pulse(Low(c), false) + PostDelay(d)
  }

  /** writeCharacter(ch). */
  function CharacterTrace(ch: bv8): (r: seq<Event>)
  {
    Pulse(High(ch), true) + Pulse(Low(ch), true) + [Delay(CharacterUs)]
  }

  /** writeCharacter applied to each byte of `t` in turn. */
  function StringTrace(t: seq<bv8>): (r: seq<Event>)
  {
    if t == [] then [] else CharacterTrace(t[0]) + StringTrace(t[1..])
  }

  /** Each byte of `t` as a write to the data register. */
  function DataTransfers(t: seq<bv8>): (r: seq<Transfer>)
  {
    seq(|t|, i requires 0 <= i < |t| => Data(t[i]))
  }

  /** The bytes of `s` before its first NUL, at most `n` of them. */
  function TextWithin(s: seq<bv8>, n: nat): (r: seq<bv8>)
    decreases n
  {
    if n == 0 || s == [] || s[0] == 0 then [] else [s[0]] + TextWithin(s[1..], n - 1)
  }

  /** The bytes writeString sends for the buffer `s`. */
  function Text(s: seq<bv8>): (r: seq<bv8>)
  {
    TextWithin(s, Cap)
  }

  /** The cursor command `0x80 | (y*16 + x)` as the `unsigned char` the
      driver sends: only the low eight bits of `y*16 + x` survive the
      conversion, and those are what 8-bit wrap-around arithmetic computes. */
  function CursorCommand(x: bv8, y: bv8): (r: bv8)
  {
    0x80 | (y * 16 + x)
  }

  /** initLCDProcedure up to the switch to 4-bit mode: the power-on wait,
      the single nibbles 3 and 3, then 0x32, whose two halves the controller,
      still in 8-bit mode, takes as a third 3 and then 2. */
  function WakeUp(): (r: seq<Event>)
  {
    [Delay(15000)]
    + FourBitCommandTrace(0x03, 4100)
    + FourBitCommandTrace(0x03, 100)
    + EightBitCommandTrace(0x32, 45)
  }

  /** The rest of initLCDProcedure: function set (two lines, 5x8 font),
      display off, clear, entry mode (increment), display on with cursor and
      blink. */
  function Configure(): (r: seq<Event>)
  {
    EightBitCommandTrace(0x28, 45)
    + EightBitCommandTrace(0x08, 45)
    + EightBitCommandTrace(0x01, 1700)
    + EightBitCommandTrace(0x06, 45)
    + EightBitCommandTrace(0x0F, 45)
  }

  /** initLCDProcedure(), whole. */
  function InitSequence(): (r: seq<Event>)
  {
    WakeUp() + Configure()
  }

  // ---------------------------------------------------------------------
  // Single transfers

  /** One pulse: one strobe, one 1 us hold. */
  lemma PulseEvents(n: bv8, rs: bool)
    ensures Strobes(Pulse(n, rs)) == [Strobe(n, rs)]
    ensures TotalDelay(Pulse(n, rs)) == HoldUs
    ensures n <= 0x0F ==> WellFormed(Pulse(n, rs))
  {
    Cons(Strobe(n, rs), [Delay(HoldUs)]);
    Cons(Delay(HoldUs), []);
    assert [Delay(HoldUs)] == [Delay(HoldUs)] + [];
  }

  /** The post-delay strobes nothing, waits exactly `d`, and is never a zero wait. */
  lemma PostDelayEvents(d: nat)
    ensures Strobes(PostDelay(d)) == []
    ensures TotalDelay(PostDelay(d)) == d
    ensures WellFormed(PostDelay(d))
  {
    if d > 0 {
      Cons(Delay(d), []);
      assert [Delay(d)] == [Delay(d)] + [];
    }
  }

  /** A 4-bit command strobes the low nibble of `data` once, with RS low. */
  lemma FourBitCommandStrobes(data: bv8, d: nat)
    ensures Strobes(FourBitCommandTrace(data, d)) == [Strobe(data & 0x0F, false)]
  {
    PulseEvents(Low(data), false);
    PostDelayEvents(d);
    StrobesAppend(Pulse(Low(data), false), PostDelay(d));
  }

  /** ...holds 1 us, and waits `d` more only when `d > 0`: `delayUs(0)` is never called. */
  lemma FourBitCommandTiming(data: bv8, d: nat)
    ensures TotalDelay(FourBitCommandTrace(data, d)) == HoldUs + d
    ensures WellFormed(FourBitCommandTrace(data, d))
    ensures Delay(0) !in FourBitCommandTrace(data, d)
    ensures |FourBitCommandTrace(data, d)| == if d > 0 then 3 else 2
  {
    PulseEvents(Low(data), false);
    PostDelayEvents(d);
    TotalDelayAppend(Pulse(Low(data), false), PostDelay(d));
    WellFormedAppend(Pulse(Low(data), false), PostDelay(d));
    WellFormedNoZeroDelay(FourBitCommandTrace(data, d));
  }

  /** Two pulses with the same RS level: the controller receives one byte. */
  lemma TwoPulsesReceived(hi: bv8, lo: bv8, rs: bool)
    requires hi <= 0x0F && lo <= 0x0F
    ensures Strobes(Pulse(hi, rs) + Pulse(lo, rs)) == [Strobe(hi, rs), Strobe(lo, rs)]
    ensures Received(Pulse(hi, rs) + Pulse(lo, rs)) == [if rs then Data(Join(hi, lo)) else Command(Join(hi, lo))]
  {
    PulseEvents(hi, rs);
    PulseEvents(lo, rs);
    StrobesAppend(Pulse(hi, rs), Pulse(lo, rs));
    var s := [Strobe(hi, rs), Strobe(lo, rs)];
    assert Assemble(s) == [Assemble(s)[0]] + Assemble(s[2..]);
  }

  /** Two pulses take two holds and are well formed. */
  lemma TwoPulsesTiming(hi: bv8, lo: bv8, rs: bool)
    requires hi <= 0x0F && lo <= 0x0F
    ensures TotalDelay(Pulse(hi, rs) + Pulse(lo, rs)) == 2 * HoldUs
    ensures WellFormed(Pulse(hi, rs) + Pulse(lo, rs))
  {
    PulseEvents(hi, rs);
    PulseEvents(lo, rs);
    TotalDelayAppend(Pulse(hi, rs), Pulse(lo, rs));
    WellFormedAppend(Pulse(hi, rs), Pulse(lo, rs));
  }

  /** An 8-bit command strobes `c >> 4` then `c & 0x0F`, both with RS low. */
  lemma EightBitCommandStrobes(c: bv8, d: nat)
    ensures Strobes(EightBitCommandTrace(c, d)) == [Strobe(c >> 4, false), Strobe(c & 0x0F, false)]
  {
    var p := Pulse(High(c), false) + Pulse(Low(c), false);
    TwoPulsesReceived(High(c), Low(c), false);
    PostDelayEvents(d);
    StrobesAppend(p, PostDelay(d));
  }

  /** ...so the controller receives exactly the instruction `c`. */
  lemma EightBitCommandReceived(c: bv8, d: nat)
    ensures Received(EightBitCommandTrace(c, d)) == [Command(c)]
  {
    var p := Pulse(High(c), false) + Pulse(Low(c), false);
    TwoPulsesReceived(High(c), Low(c), false);
    PostDelayEvents(d);
    SplitJoin(c);
    ReceivedAppend(p, PostDelay(d));
    assert Received(PostDelay(d)) == [];
  }

  /** Two holds, then a wait of `d` only when `d > 0`: `delayUs(0)` is never called. */
  lemma EightBitCommandTiming(c: bv8, d: nat)
    ensures TotalDelay(EightBitCommandTrace(c, d)) == 2 * HoldUs + d
    ensures WellFormed(EightBitCommandTrace(c, d))
    ensures Delay(0) !in EightBitCommandTrace(c, d)
    ensures |EightBitCommandTrace(c, d)| == if d > 0 then 5 else 4
  {
    var p := Pulse(High(c), false) + Pulse(Low(c), false);
    TwoPulsesTiming(High(c), Low(c), false);
    PostDelayEvents(d);
    TotalDelayAppend(p, PostDelay(d));
    WellFormedAppend(p, PostDelay(d));
    WellFormedNoZeroDelay(EightBitCommandTrace(c, d));
  }

  /** A character write strobes `ch >> 4` then `ch & 0x0F`, both with RS high. */
  lemma CharacterStrobes(ch: bv8)
    ensures Strobes(CharacterTrace(ch)) == [Strobe(ch >> 4, true), Strobe(ch & 0x0F, true)]
  {
    var p := Pulse(High(ch), true) + Pulse(Low(ch), true);
    TwoPulsesReceived(High(ch), Low(ch), true);
    PostDelayEvents(CharacterUs);
    StrobesAppend(p, PostDelay(CharacterUs));
  }

  /** ...so the controller receives exactly the data byte `ch`. */
  lemma CharacterReceived(ch: bv8)
    ensures Received(CharacterTrace(ch)) == [Data(ch)]
  {
    var p := Pulse(High(ch), true) + Pulse(Low(ch), true);
    TwoPulsesReceived(High(ch), Low(ch), true);
    PostDelayEvents(CharacterUs);
    SplitJoin(ch);
    ReceivedAppend(p, PostDelay(CharacterUs));
    assert Received(PostDelay(CharacterUs)) == [];
  }

  /** Two holds and then exactly one wait, the 50 us settle time, last. */
  lemma CharacterTiming(ch: bv8)
    ensures TotalDelay(CharacterTrace(ch)) == 2 * HoldUs + CharacterUs
    ensures |CharacterTrace(ch)| == 5 && CharacterTrace(ch)[4] == Delay(CharacterUs)
    ensures WellFormed(CharacterTrace(ch))
  {
    var p := Pulse(High(ch), true) + Pulse(Low(ch), true);
    TwoPulsesTiming(High(ch), Low(ch), true);
    PostDelayEvents(CharacterUs);
    TotalDelayAppend(p, PostDelay(CharacterUs));
    WellFormedAppend(p, PostDelay(CharacterUs));
  }

  // ---------------------------------------------------------------------
  // Strings

  lemma {:induction false} StringTraceAppend(t: seq<bv8>, u: seq<bv8>)
    ensures StringTrace(t + u) == StringTrace(t) + StringTrace(u)
  {
    if t == [] {
      assert t + u == u;
    } else {
      assert (t + u)[0] == t[0];
      assert (t + u)[1..] == t[1..] + u;
      StringTraceAppend(t[1..], u);
    }
  }

  /** Writing one more byte appends its character trace. */
  lemma StringTraceSnoc(s: seq<bv8>, i: nat)
    requires i < |s|
    ensures StringTrace(s[..i + 1]) == StringTrace(s[..i]) + CharacterTrace(s[i])
  {
    StringTraceAppend(s[..i], [s[i]]);
    assert StringTrace([s[i]]) == CharacterTrace(s[i]) + StringTrace([]);
    assert s[..i + 1] == s[..i] + [s[i]];
  }

  /** Writing the bytes `t` delivers exactly those bytes, in order, to the data register. */
  lemma {:induction false} StringReceived(t: seq<bv8>)
    ensures Received(StringTrace(t)) == DataTransfers(t)
  {
    if t == [] {
      assert DataTransfers(t) == [];
    } else {
      var c, rest := CharacterTrace(t[0]), StringTrace(t[1..]);
      StringReceived(t[1..]);
      CharacterStrobes(t[0]);
      CharacterReceived(t[0]);
      ReceivedAppend(c, rest);
      assert DataTransfers(t) == [Data(t[0])] + DataTransfers(t[1..]);
    }
  }

  /** Two strobes and 52 us of waiting per byte, and never a zero wait or a wide nibble. */
  lemma {:induction false} StringTiming(t: seq<bv8>)
    ensures |Strobes(StringTrace(t))| == 2 * |t|
    ensures TotalDelay(StringTrace(t)) == (2 * HoldUs + CharacterUs) * |t|
    ensures WellFormed(StringTrace(t))
  {
    if t != [] {
      var c, rest := CharacterTrace(t[0]), StringTrace(t[1..]);
      StringTiming(t[1..]);
      CharacterStrobes(t[0]);
      CharacterTiming(t[0]);
      StrobesAppend(c, rest);
      TotalDelayAppend(c, rest);
      WellFormedAppend(c, rest);
    }
  }

  /** The text taken from a buffer is a NUL-free prefix of it, at most `n`
      long, and stops only at the bound, at the end, or at a NUL. */
  lemma {:induction false} TextWithinShape(s: seq<bv8>, n: nat)
    ensures var r := TextWithin(s, n);
      |r| <= n && |r| <= |s| && r == s[..|r|] && 0 !in r &&
      (|r| == n || |r| == |s| || s[|r|] == 0)
    decreases n
  {
    if n == 0 || s == [] || s[0] == 0 {
    } else {
      TextWithinShape(s[1..], n - 1);
      var r' := TextWithin(s[1..], n - 1);
      assert TextWithin(s, n) == [s[0]] + r';
      assert s[..|r'| + 1] == [s[0]] + s[1..][..|r'|];
    }
  }

  /** ...and it is the only prefix of `s` with those properties. */
  lemma {:induction false} TextWithinUnique(s: seq<bv8>, n: nat, k: nat)
    requires k <= n && k <= |s| && 0 !in s[..k]
    requires k == n || k == |s| || s[k] == 0
    ensures TextWithin(s, n) == s[..k]
    decreases n
  {
    if k == 0 {
      assert s[..k] == [];
    } else {
      assert s[0] == s[..k][0];
      assert 0 !in s[1..][..k - 1] by {
        assert s[1..][..k - 1] == s[..k][1..];
      }
      TextWithinUnique(s[1..], n - 1, k - 1);
      assert s[..k] == [s[0]] + s[1..][..k - 1];
    }
  }

  /** One more non-NUL byte scanned: still no NUL behind, and any NUL still ahead. */
  lemma ScanStep(s: seq<bv8>, i: nat)
    requires i < |s| && s[i] != 0 && 0 !in s[..i]
    ensures 0 !in s[..i + 1]
    ensures 0 in s[i..] ==> 0 in s[i + 1..]
  {
    assert s[..i + 1] == s[..i] + [s[i]];
    assert s[i..] == [s[i]] + s[i + 1..];
  }

  /** writeString sends the bytes before the first NUL, in order, but never more than 100. */
  lemma TextShape(s: seq<bv8>)
    ensures |Text(s)| <= Cap && |Text(s)| <= |s| && Text(s) == s[..|Text(s)|] && 0 !in Text(s)
    ensures |Text(s)| == Cap || |Text(s)| == |s| || s[|Text(s)|] == 0
  {
    TextWithinShape(s, Cap);
  }

  /** The stopping point pins the text down: a NUL-free prefix of length `k`
      that ends at the cap or at a NUL is exactly what writeString sends. */
  lemma TextUnique(s: seq<bv8>, k: nat)
    requires k <= Cap && k <= |s| && 0 !in s[..k]
    requires k == Cap || (k < |s| && s[k] == 0)
    ensures Text(s) == s[..k]
  {
    TextWithinUnique(s, Cap, k);
  }

  /** An empty (NUL-first) string sends nothing; "AB" sends 'A' then 'B'. */
  lemma TextExamples(s: seq<bv8>)
    requires |s| > 0 && s[0] == 0
    ensures Text(s) == [] && StringTrace(Text(s)) == []
    ensures Text([0x41, 0x42, 0]) == [0x41, 0x42]
  {
    TextUnique(s, 0);
    TextUnique([0x41, 0x42, 0], 2);
  }

  /** With no NUL among the first 100 bytes (a 150-byte unterminated buffer,
      say) exactly the first 100 bytes are sent. */
  lemma TextCapped(s: seq<bv8>)
    requires |s| >= Cap && 0 !in s[..Cap]
    ensures Text(s) == s[..Cap] && |Text(s)| == 100
  {
    TextUnique(s, Cap);
  }

  // ---------------------------------------------------------------------
  // Cursor

  /** The byte computed in 8 bits is the low byte of `0x80 | (y*16 + x)`
      computed in the driver's 16-bit `unsigned int`. */
  lemma CursorWide(x: bv8, y: bv8)
    ensures CursorCommand(x, y) == ((0x80 | (y as bv16 * 16 + x as bv16)) & 0xFF) as bv8
  {
  }

  /** Bit 7 ("set DDRAM address") is set whatever `x` and `y` are. */
  lemma CursorCommandBit7(x: bv8, y: bv8)
    ensures CursorCommand(x, y) & 0x80 == 0x80
  {
  }

  /** Within the 128 display addresses (16 columns, 8 rows of 16) the command
      is `0x80 + y*16 + x` exactly; in particular on a 16x2 display. */
  lemma CursorCommandAddress(x: bv8, y: bv8)
    requires x < 16 && y < 8
    ensures CursorCommand(x, y) as int == 0x80 + y as int * 16 + x as int
  {
  }

  /** The truncation: a column past 15 spills into the next row ... */
  lemma CursorCommandColumnsSpill(x: bv8, y: bv8)
    requires x >= 16
    ensures CursorCommand(x, y) == CursorCommand(x - 16, y + 1)
  {
  }

  /** ... and rows eight apart give the same command, bit 7 absorbing bit 7
      of the position. */
  lemma CursorCommandRowsRepeat(x: bv8, y: bv8)
    ensures CursorCommand(x, y + 8) == CursorCommand(x, y)
  {
  }

  /** moveCursor(255, 255): position 4335 = 0x10EF, low byte 0xEF, bit 7 already set. */
  lemma CursorCommandExamples()
    ensures CursorCommand(255, 255) == 0xEF
    ensures CursorCommand(0, 1) == 0x90
  {
  }

  // ---------------------------------------------------------------------
  // Runs of 8-bit commands

  /** Appending one 8-bit command to any trace adds its two RS-low strobes ... */
  lemma AppendCommandStrobes(t: seq<Event>, c: bv8, d: nat)
    ensures Strobes(t + EightBitCommandTrace(c, d)) == Strobes(t) + [Strobe(c >> 4, false), Strobe(c & 0x0F, false)]
  {
    EightBitCommandStrobes(c, d);
    StrobesAppend(t, EightBitCommandTrace(c, d));
  }

  /** ... its holds and its wait ... */
  lemma AppendCommandTiming(t: seq<Event>, c: bv8, d: nat)
    ensures TotalDelay(t + EightBitCommandTrace(c, d)) == TotalDelay(t) + 2 * HoldUs + d
    ensures WellFormed(t + EightBitCommandTrace(c, d)) <==> WellFormed(t)
  {
    EightBitCommandTiming(c, d);
    TotalDelayAppend(t, EightBitCommandTrace(c, d));
    WellFormedAppend(t, EightBitCommandTrace(c, d));
  }

  /** ... and, on a whole-byte boundary, the instruction `c`. */
  lemma AppendCommandReceived(t: seq<Event>, c: bv8, d: nat)
    requires |Strobes(t)| % 2 == 0
    ensures Received(t + EightBitCommandTrace(c, d)) == Received(t) + [Command(c)]
  {
    EightBitCommandReceived(c, d);
    ReceivedAppend(t, EightBitCommandTrace(c, d));
  }
}
