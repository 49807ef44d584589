/** The parts of DueTimer.cpp beyond the registry it shares with
    arch/sam/ArduinoTimer.cpp: its descriptor table, which also names each
    channel's external clock input pin, and the counter mode driven by that
    input (`setUpCounter`, `startCounter`, `stopCounter`). */
module DueTimer {
  import opened Registry
  import opened TimerModel

  /** DueTimer.cpp's `Timer` struct: the channel, its interrupt line (TCn_IRQn),
      and the pin and PIO function of its external clock input TCLK. */
  datatype Timer = Timer(tc: Block, channel: nat, irq: nat, tclkPin: nat, tclkPeriph: Periph)

  /** A pin number of 0 is NULL, the entry of a channel without a clock input. */
  const NullPin := 0

  /** `DueTimer::Timers[9]`. */
  function Timers(): (table: seq<Timer>)
    ensures |table| == NumTimers
    ensures forall i :: 0 <= i < NumTimers ==>
              table[i].tc == BlockAt(i / 3) && table[i].channel == i % 3 && table[i].irq == i
    ensures forall i :: 0 <= i < NumTimers ==> (table[i].tclkPin == NullPin <==> i == 6 || i == 7)
  {
    [ Timer(TC0, 0, 0, 22, PeriphB),
      Timer(TC0, 1, 1, 59, PeriphA),
      Timer(TC0, 2, 2, 31, PeriphA),
      Timer(TC1, 0, 3, 57, PeriphB),
      Timer(TC1, 1, 4, 56, PeriphB),
      Timer(TC1, 2, 5, 67, PeriphA),
      Timer(TC2, 0, 6, NullPin, PeriphB),
      Timer(TC2, 1, 7, NullPin, PeriphB),
      Timer(TC2, 2, 8, 30, PeriphB) ]
  }

  /** The {tc, channel, irq} part of an entry. */
  function Descriptor(timer: Timer): Channel
  {
    Channel(timer.tc, timer.channel, timer.irq)
  }

  /** The pair of selectors `setUpCounter` writes: the block mode field that
      routes TCLKn to XCn, and the channel clock XCn. */
  datatype CounterSelect = CounterSelect(xcTclk: TclkSelect, tcclkXc: XcClock)

  /** The switch of `setUpCounter` on the channel number; no selectors for a
      channel other than 0, 1, 2. */
  function CounterSelectFor(channel: nat): (r: Option<CounterSelect>)
    ensures r.Some? <==> channel < 3
  {
    match channel
    case 0 => Some(CounterSelect(Tc0Xc0sTclk0, Xc0))
    case 1 => Some(CounterSelect(Tc1Xc1sTclk1, Xc1))
    case 2 => Some(CounterSelect(Tc2Xc2sTclk2, Xc2))
    case _ => None
  }

  /** Each channel of a block gets its own external clock signal. */
  lemma CounterSelectorsDistinct(c1: nat, c2: nat)
    requires c1 < 3 && c2 < 3 && c1 != c2
    ensures CounterSelectFor(c1).value.tcclkXc != CounterSelectFor(c2).value.tcclkXc
    ensures CounterSelectFor(c1).value.xcTclk != CounterSelectFor(c2).value.xcTclk
  {
  }

  /** `setUpCounter`: fails when the timer has no clock pin or its channel has
      no selectors; otherwise the channel counts its external clock input.
      `TC_Configure` of the SAM support library first disables the channel's
      clock, so after a successful set-up the counter is stopped until
      `startCounter`. */
  function SetUpCounter(s: State, t: nat): (r: (bool, State))
    requires Inv(s) && t < NumTimers
    ensures Inv(r.1) && SameOutside(s, r.1, t)
    ensures r.0 <==> Timers()[t].tclkPin != NullPin && Timers()[t].channel < 3
    ensures !r.0 ==> r.1 == s
    ensures r.0 ==> r.1 == s.(channel := s.channel[t := ExternalClock(
                               CounterSelectFor(t % 3).value.xcTclk, CounterSelectFor(t % 3).value.tcclkXc)],
                              running := s.running[t := false])
  {
    var timer := Timers()[t];
    if timer.tclkPin == NullPin then (false, s)
    else
      match CounterSelectFor(timer.channel)
      case None => (false, s)
      case Some(sel) =>
        (true, s.(channel := s.channel[t := ExternalClock(sel.xcTclk, sel.tcclkXc)],
                  running := s.running[t := false]))
  }

  /** Counter mode is available on every timer except 6 and 7, whose clock
      pins are NULL. */
  lemma CounterModeTimers(s: State, t: nat)
    requires Inv(s) && t < NumTimers
    ensures SetUpCounter(s, t).0 <==> t != 6 && t != 7
  {
  }

  /** `startCounter`: TC_Start on the timer's channel. */
  function StartCounter(s: State, t: nat): (s': State)
    requires Inv(s) && t < NumTimers
    ensures Inv(s') && SameOutside(s, s', t) && s'.running[t]
    ensures s'.callbacks == s.callbacks && s'.frequency == s.frequency
    ensures s'.irqEnabled == s.irqEnabled && s'.channel == s.channel
  {
    s.(running := s.running[t := true])
  }

  /** `stopCounter`: TC_Stop on the timer's channel. */
  function StopCounter(s: State, t: nat): (s': State)
    requires Inv(s) && t < NumTimers
    ensures Inv(s') && SameOutside(s, s', t) && !s'.running[t]
    ensures s'.callbacks == s.callbacks && s'.frequency == s.frequency
    ensures s'.irqEnabled == s.irqEnabled && s'.channel == s.channel
  {
    s.(running := s.running[t := false])
  }

  /** Setting up the counter keeps the registry: callbacks, recorded
      frequencies and interrupt lines.  A successful set-up leaves the counter
      stopped; a failed one changes nothing. */
  lemma SetUpCounterKeepsRegistry(s: State, t: nat)
    requires Inv(s) && t < NumTimers
    ensures var s' := SetUpCounter(s, t).1;
            && s'.callbacks == s.callbacks && s'.frequency == s.frequency
            && s'.irqEnabled == s.irqEnabled
            && (SetUpCounter(s, t).0 ==> !s'.running[t])
            && (!SetUpCounter(s, t).0 ==> s'.running == s.running)
  {
  }

  /** Set-up followed by `startCounter` leaves the channel counting its
      external input with the counter running. */
  lemma SetUpThenStartCounts(s: State, t: nat)
    requires Inv(s) && t < NumTimers && t != 6 && t != 7
    ensures var s' := StartCounter(SetUpCounter(s, t).1, t);
            && s'.running[t] && s'.channel[t].ExternalClock?
            && s'.callbacks == s.callbacks && s'.frequency == s.frequency
  {
    CounterModeTimers(s, t);
  }
}
