/** What can be observed of the driver from outside: the enable strobes on
    the LCD's control lines and the calls of the microsecond delay, in the
    order they happen, and what a 4-bit-mode controller receives from them. */
module Trace {
  import opened Nibble

  /** One observable effect of the driver. */
  datatype Event =
    /** E pulsed high: the value on PORTA and the level of RS while E is high.
        The controller samples RS as E rises and latches the bus as E falls. */
    | Strobe(nibble: bv8, rs: bool)
    /** One call of the external `delayUs(us)`. */
    | Delay(us: nat)

  /** A whole byte as the controller sees it: RS low selects the instruction
      register, RS high the data register. */
  datatype Transfer = Command(code: bv8) | Data(code: bv8)

  /** A strobe carries nothing above the four bus lines, and no delay is of zero length. */
  predicate EventOk(e: Event)
  {
    match e
    case Strobe(n, _) => n <= 0x0F
    case Delay(us) => us > 0
  }

  predicate WellFormed(t: seq<Event>)
  {
    t == [] || (EventOk(t[0]) && WellFormed(t[1..]))
  }

  /** Every event of a well-formed trace is well formed, and conversely. */
  lemma {:induction false} WellFormedAt(t: seq<Event>)
    ensures WellFormed(t) <==> forall i :: 0 <= i < |t| ==> EventOk(t[i])
  {
    if t != [] {
      WellFormedAt(t[1..]);
      assert forall i :: 1 <= i < |t| ==> t[i] == t[1..][i - 1];
    }
  }

  lemma {:induction false} WellFormedAppend(a: seq<Event>, b: seq<Event>)
    ensures WellFormed(a + b) <==> WellFormed(a) && WellFormed(b)
  {
    if a == [] {
      assert a + b == b;
    } else {
      assert (a + b)[0] == a[0];
      assert (a + b)[1..] == a[1..] + b;
      WellFormedAppend(a[1..], b);
    }
  }

  /** Regrouping a trace built piece by piece into a prefix and a suffix. */
  lemma Regroup(a: seq<Event>, b: seq<Event>, c: seq<Event>, d: seq<Event>)
    ensures a + b + c + d == a + (b + c + d)
  {
  }

  /** `a + (b + c)` regrouped to the left. */
  lemma Regroup3(a: seq<Event>, b: seq<Event>, c: seq<Event>)
    ensures a + (b + c) == a + b + c
  {
  }

  /** The strobes of a trace, in order. */
  function Strobes(t: seq<Event>): (r: seq<Event>)
    ensures |r| <= |t|
    ensures forall i :: 0 <= i < |r| ==> r[i].Strobe?
  {
    if t == [] then []
    else if t[0].Strobe? then [t[0]] + Strobes(t[1..])
    else Strobes(t[1..])
  }

  /** Unfolding both views by one event at the front. */
  lemma Cons(e: Event, t: seq<Event>)
    ensures Strobes([e] + t) == (if e.Strobe? then [e] else []) + Strobes(t)
    ensures TotalDelay([e] + t) == (if e.Delay? then e.us else 0) + TotalDelay(t)
  {
    assert ([e] + t)[1..] == t;
  }

  /** In a well-formed trace `delayUs(0)` is never called. */
  lemma WellFormedNoZeroDelay(t: seq<Event>)
    requires WellFormed(t)
    ensures Delay(0) !in t
  {
    WellFormedAt(t);
  }

  lemma {:induction false} StrobesAppend(a: seq<Event>, b: seq<Event>)
    ensures Strobes(a + b) == Strobes(a) + Strobes(b)
  {
    if a == [] {
      assert a + b == b;
    } else {
      assert (a + b)[1..] == a[1..] + b;
      StrobesAppend(a[1..], b);
    }
  }

  /** The time, in microseconds, that the trace spends in `delayUs`. */
  function TotalDelay(t: seq<Event>): (r: nat)
  {
    if t == [] then 0
    else (if t[0].Delay? then t[0].us else 0) + TotalDelay(t[1..])
  }

  lemma {:induction false} TotalDelayAppend(a: seq<Event>, b: seq<Event>)
    ensures TotalDelay(a + b) == TotalDelay(a) + TotalDelay(b)
  {
    if a == [] {
      assert a + b == b;
    } else {
      assert (a + b)[1..] == a[1..] + b;
      TotalDelayAppend(a[1..], b);
    }
  }

  /** A controller in 4-bit mode pairs the latched nibbles, high first; the
      register is chosen by RS at the first strobe of the pair.  An odd last
      nibble is still pending and not yet received. */
  function Assemble(s: seq<Event>): (r: seq<Transfer>)
    requires forall i :: 0 <= i < |s| ==> s[i].Strobe?
    ensures |r| == |s| / 2
  {
    if |s| < 2 then []
    else
      var b := Join(s[0].nibble, s[1].nibble);
      [if s[0].rs then Data(b) else Command(b)] + Assemble(s[2..])
  }

  lemma {:induction false} AssembleAppend(a: seq<Event>, b: seq<Event>)
    requires forall i :: 0 <= i < |a| ==> a[i].Strobe?
    requires forall i :: 0 <= i < |b| ==> b[i].Strobe?
    requires |a| % 2 == 0
    ensures Assemble(a + b) == Assemble(a) + Assemble(b)
  {
    if a == [] {
      assert a + b == b;
    } else {
      var ab := a + b;
      assert ab[0] == a[0] && ab[1] == a[1];
      assert ab[2..] == a[2..] + b;
      AssembleAppend(a[2..], b);
      assert Assemble(ab) == [Assemble(ab)[0]] + Assemble(ab[2..]);
    }
  }

  /** The bytes a 4-bit-mode controller receives from the trace. */
  function Received(t: seq<Event>): (r: seq<Transfer>)
  {
    Assemble(Strobes(t))
  }

  /** Receiving is compositional as long as the first part ends on a whole byte. */
  lemma ReceivedAppend(a: seq<Event>, b: seq<Event>)
    requires |Strobes(a)| % 2 == 0
    ensures Received(a + b) == Received(a) + Received(b)
  {
    StrobesAppend(a, b);
    AssembleAppend(Strobes(a), Strobes(b));
  }
}
