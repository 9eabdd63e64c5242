/** Facts about the power-on initialisation procedure: the wait for the
    supply, the wake-up nibbles that switch the controller to 4-bit mode, then
    the configuring instructions, each with its wait. */
module InitProcedure {
  import opened Trace
  import opened Protocol

  /** An 8-bit command with a wait, event by event. */
  lemma EightBitCommandEvents(c: bv8, d: nat)
    requires d > 0
    ensures EightBitCommandTrace(c, d) ==
      [Strobe(c >> 4, false), Delay(HoldUs), Strobe(c & 0x0F, false), Delay(HoldUs), Delay(d)]
  {
  }

  /** The wake-up part, event by event. */
  lemma WakeUpEvents()
    ensures WakeUp() == [
      Delay(15000),
      Strobe(0x3, false), Delay(1), Delay(4100),
      Strobe(0x3, false), Delay(1), Delay(100),
      Strobe(0x3, false), Delay(1), Strobe(0x2, false), Delay(1), Delay(45)]
  {
    EightBitCommandEvents(0x32, 45);
  }

  /** The configuring part, event by event. */
  lemma ConfigureEvents()
    ensures Configure() == [
      Strobe(0x2, false), Delay(1), Strobe(0x8, false), Delay(1), Delay(45),
      Strobe(0x0, false), Delay(1), Strobe(0x8, false), Delay(1), Delay(45),
      Strobe(0x0, false), Delay(1), Strobe(0x1, false), Delay(1), Delay(1700),
      Strobe(0x0, false), Delay(1), Strobe(0x6, false), Delay(1), Delay(45),
      Strobe(0x0, false), Delay(1), Strobe(0xF, false), Delay(1), Delay(45)]
  {
    EightBitCommandEvents(0x28, 45);
    EightBitCommandEvents(0x08, 45);
    EightBitCommandEvents(0x01, 1700);
    EightBitCommandEvents(0x06, 45);
    EightBitCommandEvents(0x0F, 45);
  }

  /** The init procedure, event by event: nothing depends on any input. */
  lemma InitSequenceEvents()
    ensures InitSequence() == [
      Delay(15000),
      Strobe(0x3, false), Delay(1), Delay(4100),
      Strobe(0x3, false), Delay(1), Delay(100),
      Strobe(0x3, false), Delay(1), Strobe(0x2, false), Delay(1), Delay(45),
      Strobe(0x2, false), Delay(1), Strobe(0x8, false), Delay(1), Delay(45),
      Strobe(0x0, false), Delay(1), Strobe(0x8, false), Delay(1), Delay(45),
      Strobe(0x0, false), Delay(1), Strobe(0x1, false), Delay(1), Delay(1700),
      Strobe(0x0, false), Delay(1), Strobe(0x6, false), Delay(1), Delay(45),
      Strobe(0x0, false), Delay(1), Strobe(0xF, false), Delay(1), Delay(45)]
  {
    WakeUpEvents();
    ConfigureEvents();
  }

  /** Four strobes 3, 3, 3, 2, all with RS low. */
  lemma WakeUpStrobes()
    ensures Strobes(WakeUp()) ==
      [Strobe(0x3, false), Strobe(0x3, false), Strobe(0x3, false), Strobe(0x2, false)]
  {
    var a := [Delay(15000)];
    var b := FourBitCommandTrace(0x03, 4100);
    var c := FourBitCommandTrace(0x03, 100);
    Cons(Delay(15000), []);
    assert a == a + [];
    FourBitCommandStrobes(0x03, 4100);
    FourBitCommandStrobes(0x03, 100);
    StrobesAppend(a, b);
    StrobesAppend(a + b, c);
    AppendCommandStrobes(a + b + c, 0x32, 45);
  }

  /** 19245 us of waits plus four holds, none of them zero. */
  lemma WakeUpTiming()
    ensures TotalDelay(WakeUp()) == 15000 + 4100 + 100 + 45 + 4 * HoldUs
    ensures WellFormed(WakeUp())
  {
    var a := [Delay(15000)];
    var b := FourBitCommandTrace(0x03, 4100);
    var c := FourBitCommandTrace(0x03, 100);
    Cons(Delay(15000), []);
    assert a == a + [];
    FourBitCommandTiming(0x03, 4100);
    FourBitCommandTiming(0x03, 100);
    TotalDelayAppend(a, b);
    TotalDelayAppend(a + b, c);
    WellFormedAppend(a, b);
    WellFormedAppend(a + b, c);
    AppendCommandTiming(a + b + c, 0x32, 45);
  }

  /** Ten strobes, two per instruction, all with RS low. */
  lemma ConfigureStrobes()
    ensures Strobes(Configure()) ==
      [Strobe(0x2, false), Strobe(0x8, false)]
      + [Strobe(0x0, false), Strobe(0x8, false)]
      + [Strobe(0x0, false), Strobe(0x1, false)]
      + [Strobe(0x0, false), Strobe(0x6, false)]
      + [Strobe(0x0, false), Strobe(0xF, false)]
  {
    var e1 := EightBitCommandTrace(0x28, 45);
    var e2 := EightBitCommandTrace(0x08, 45);
    var e3 := EightBitCommandTrace(0x01, 1700);
    var e4 := EightBitCommandTrace(0x06, 45);
    EightBitCommandStrobes(0x28, 45);
    AppendCommandStrobes(e1, 0x08, 45);
    AppendCommandStrobes(e1 + e2, 0x01, 1700);
    AppendCommandStrobes(e1 + e2 + e3, 0x06, 45);
    AppendCommandStrobes(e1 + e2 + e3 + e4, 0x0F, 45);
  }

  /** The controller, by now in 4-bit mode, receives the five instructions. */
  lemma ConfigureReceived()
    ensures Received(Configure()) ==
      [Command(0x28), Command(0x08), Command(0x01), Command(0x06), Command(0x0F)]
  {
    var e1 := EightBitCommandTrace(0x28, 45);
    var e2 := EightBitCommandTrace(0x08, 45);
    var e3 := EightBitCommandTrace(0x01, 1700);
    var e4 := EightBitCommandTrace(0x06, 45);
    EightBitCommandReceived(0x28, 45);
    EightBitCommandStrobes(0x28, 45);
    AppendCommandStrobes(e1, 0x08, 45);
    AppendCommandStrobes(e1 + e2, 0x01, 1700);
    AppendCommandStrobes(e1 + e2 + e3, 0x06, 45);
    AppendCommandReceived(e1, 0x08, 45);
    AppendCommandReceived(e1 + e2, 0x01, 1700);
    AppendCommandReceived(e1 + e2 + e3, 0x06, 45);
    AppendCommandReceived(e1 + e2 + e3 + e4, 0x0F, 45);
  }

  /** 1880 us of waits plus ten holds, none of them zero. */
  lemma ConfigureTiming()
    ensures TotalDelay(Configure()) == 45 + 45 + 1700 + 45 + 45 + 10 * HoldUs
    ensures WellFormed(Configure())
  {
    var e1 := EightBitCommandTrace(0x28, 45);
    var e2 := EightBitCommandTrace(0x08, 45);
    var e3 := EightBitCommandTrace(0x01, 1700);
    var e4 := EightBitCommandTrace(0x06, 45);
    EightBitCommandTiming(0x28, 45);
    AppendCommandTiming(e1, 0x08, 45);
    AppendCommandTiming(e1 + e2, 0x01, 1700);
    AppendCommandTiming(e1 + e2 + e3, 0x06, 45);
    AppendCommandTiming(e1 + e2 + e3 + e4, 0x0F, 45);
  }

  /** 14 strobes, all with RS low: the four wake-up nibbles, then two per instruction. */
  lemma InitSequenceStrobes()
    ensures Strobes(InitSequence()) ==
      [Strobe(0x3, false), Strobe(0x3, false), Strobe(0x3, false), Strobe(0x2, false)]
      + ([Strobe(0x2, false), Strobe(0x8, false)]
      + [Strobe(0x0, false), Strobe(0x8, false)]
      + [Strobe(0x0, false), Strobe(0x1, false)]
      + [Strobe(0x0, false), Strobe(0x6, false)]
      + [Strobe(0x0, false), Strobe(0xF, false)])
    ensures |Strobes(InitSequence())| == 14
  {
    WakeUpStrobes();
    ConfigureStrobes();
    StrobesAppend(WakeUp(), Configure());
  }

  /** 21125 us of explicit waits plus 14 strobe holds (21139 us in all), and
      no zero wait and no nibble wider than the bus. */
  lemma InitSequenceTiming()
    ensures TotalDelay(InitSequence()) == 21125 + 14 * HoldUs
    ensures WellFormed(InitSequence())
  {
    WakeUpTiming();
    ConfigureTiming();
    TotalDelayAppend(WakeUp(), Configure());
    WellFormedAppend(WakeUp(), Configure());
  }

  /** What the controller sees: four single nibbles 3, 3, 3, 2 while it is
      still in 8-bit mode (the last one switches it to 4-bit mode), then the
      instructions 0x28, 0x08, 0x01, 0x06, 0x0F as whole bytes. */
  lemma InitSequenceReceived()
    ensures var s := Strobes(InitSequence());
      |s| == 14 &&
      s[..4] == [Strobe(0x3, false), Strobe(0x3, false), Strobe(0x3, false), Strobe(0x2, false)] &&
      Assemble(s[4..]) == [Command(0x28), Command(0x08), Command(0x01), Command(0x06), Command(0x0F)]
  {
    WakeUpStrobes();
    ConfigureStrobes();
    ConfigureReceived();
    StrobesAppend(WakeUp(), Configure());
    var w, c := Strobes(WakeUp()), Strobes(Configure());
    assert (w + c)[..4] == w;
    assert (w + c)[4..] == c;
  }
}
