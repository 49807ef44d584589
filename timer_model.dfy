/** The process-wide per-timer state of DueTimer.cpp (and of the identical code in
    arch/sam/ArduinoTimer.cpp) as a value, with one function per operation
    giving the state after it.  The class in TimerBank updates arrays in place
    and is proved to follow these functions; the lemmas here relate operations
    to one another. */
module TimerModel {
  import opened Registry
  import opened Clock

  /** NUM_TIMERS: Timer0 .. Timer8. */
  const NumTimers := 9

  /** The initial content of every `_frequency` slot. */
  const Unset := -1.0

  /** TC_BMR_TCnXCnS_TCLKn: routes external clock input TCLKn to XCn. */
  datatype TclkSelect = Tc0Xc0sTclk0 | Tc1Xc1sTclk1 | Tc2Xc2sTclk2

  /** TC_CMR_TCCLKS_XCn: clocks a channel from external clock signal XCn. */
  datatype XcClock = Xc0 | Xc1 | Xc2

  /** What a channel's registers were last programmed with.  `Waveform` is
      TC_CMR_WAVE | TC_CMR_WAVSEL_UP_RC with the given internal clock, RC set to
      rc, and the RC-compare interrupt as the only enabled interrupt source.
      `ExternalClock` is a channel counting its external clock input. */
  datatype ChannelMode =
    | Unconfigured
    | Waveform(clock: ClockFlag, rc: int)
    | ExternalClock(xcTclk: TclkSelect, tcclkXc: XcClock)

  /** `callbacks[]`, `_frequency[]`, the NVIC enable bit of each timer's
      interrupt line, whether each channel's counter is started, and each
      channel's programming. */
  datatype State = State(
    callbacks: seq<Isr>,
    frequency: seq<real>,
    irqEnabled: seq<bool>,
    running: seq<bool>,
    channel: seq<ChannelMode>)

  /** One slot per timer; a stored frequency is the initial -1 or positive. */
  predicate Inv(s: State)
  {
    && |s.callbacks| == NumTimers
    && |s.frequency| == NumTimers
    && |s.irqEnabled| == NumTimers
    && |s.running| == NumTimers
    && |s.channel| == NumTimers
    && forall i :: 0 <= i < NumTimers ==> s.frequency[i] == Unset || s.frequency[i] > 0.0
  }

  /** Every per-timer entry of a timer other than t is the same in s and s'. */
  predicate SameOutside(s: State, s': State, t: nat)
    requires Inv(s) && Inv(s')
  {
    forall i :: 0 <= i < NumTimers && i != t ==>
      && s'.callbacks[i] == s.callbacks[i]
      && s'.frequency[i] == s.frequency[i]
      && s'.irqEnabled[i] == s.irqEnabled[i]
      && s'.running[i] == s.running[i]
      && s'.channel[i] == s.channel[i]
  }

  /** The static initialisers: `callbacks[9] = {}` (all null) and
      `_frequency[9] = {-1, ...}`; interrupt lines and counters start off. */
  function Initial(): (s: State)
    ensures Inv(s)
    ensures forall i :: 0 <= i < NumTimers ==>
      && s.callbacks[i] == Null
      && s.frequency[i] == Unset
      && !s.irqEnabled[i]
      && !s.running[i]
      && s.channel[i] == Unconfigured
  {
    State(seq(NumTimers, _ => Null), seq(NumTimers, _ => Unset),
          seq(NumTimers, _ => false), seq(NumTimers, _ => false),
          seq(NumTimers, _ => Unconfigured))
  }

  /** The scan of `getAvailable` from slot i on; 0 when no slot is free. */
  function FirstFreeFrom(cb: seq<Isr>, i: nat): nat
    requires i <= |cb|
    decreases |cb| - i
  {
    if i == |cb| then 0
    else if cb[i] == Null then i
    else FirstFreeFrom(cb, i + 1)
  }

  /** The timer `getAvailable` returns. */
  function FirstAvailable(cb: seq<Isr>): nat
  {
    FirstFreeFrom(cb, 0)
  }

  lemma {:induction false} FirstFreeFromIsLowestFree(cb: seq<Isr>, i: nat)
    requires i <= |cb|
    ensures var r := FirstFreeFrom(cb, i);
            || (i <= r < |cb| && cb[r] == Null && forall j :: i <= j < r ==> cb[j] != Null)
            || (r == 0 && forall j :: i <= j < |cb| ==> cb[j] != Null)
    decreases |cb| - i
  {
    if i < |cb| && cb[i] != Null {
      FirstFreeFromIsLowestFree(cb, i + 1);
    }
  }

  /** `getAvailable` returns the lowest free slot, or 0 when every slot is taken. */
  lemma FirstAvailableIsLowestFree(cb: seq<Isr>)
    ensures var r := FirstAvailable(cb);
            || (r < |cb| && cb[r] == Null && forall j :: 0 <= j < r ==> cb[j] != Null)
            || (r == 0 && forall j :: 0 <= j < |cb| ==> cb[j] != Null)
  {
    FirstFreeFromIsLowestFree(cb, 0);
  }

  /** A free slot k bounds the answer of `getAvailable`, which is then free too. */
  lemma FirstAvailableAtMost(cb: seq<Isr>, k: nat)
    requires k < |cb| && cb[k] == Null
    ensures FirstAvailable(cb) <= k && cb[FirstAvailable(cb)] == Null
  {
    FirstAvailableIsLowestFree(cb);
  }

  /** `attachInterrupt`: the slot of timer t now holds isr, and nothing else changes. */
  function Attach(s: State, t: nat, isr: Isr): (s': State)
    requires Inv(s) && t < NumTimers
    ensures Inv(s') && SameOutside(s, s', t)
    ensures s'.callbacks[t] == isr
    ensures s'.frequency == s.frequency && s'.irqEnabled == s.irqEnabled
    ensures s'.running == s.running && s'.channel == s.channel
  {
    s.(callbacks := s.callbacks[t := isr])
  }

  /** `stop`: only the interrupt line of timer t is disabled; the counter runs on. */
  function Stop(s: State, t: nat): (s': State)
    requires Inv(s) && t < NumTimers
    ensures Inv(s') && SameOutside(s, s', t)
    ensures !s'.irqEnabled[t]
    ensures s'.callbacks == s.callbacks && s'.frequency == s.frequency
    ensures s'.running == s.running && s'.channel == s.channel
  {
    s.(irqEnabled := s.irqEnabled[t := false])
  }

  lemma StopIsIdempotent(s: State, t: nat)
    requires Inv(s) && t < NumTimers
    ensures Stop(Stop(s, t), t) == Stop(s, t)
  {
  }

  /** `detachInterrupt`: `stop()`, then the slot of timer t is cleared. */
  function Detach(s: State, t: nat): (s': State)
    requires Inv(s) && t < NumTimers
    ensures Inv(s') && SameOutside(s, s', t)
    ensures s'.callbacks[t] == Null && !s'.irqEnabled[t]
    ensures s'.frequency == s.frequency && s'.running == s.running && s'.channel == s.channel
  {
    var stopped := Stop(s, t);
    stopped.(callbacks := stopped.callbacks[t := Null])
  }

  /** After detaching timer t, `getAvailable` answers t or a lower free timer. */
  lemma DetachFreesSlot(s: State, t: nat)
    requires Inv(s) && t < NumTimers
    ensures var cb := Detach(s, t).callbacks;
            FirstAvailable(cb) <= t && cb[FirstAvailable(cb)] == Null
  {
    FirstAvailableAtMost(Detach(s, t).callbacks, t);
  }

  /** Detaching erases an attach: the slot is empty and the line disabled. */
  lemma DetachUndoesAttach(s: State, t: nat, isr: Isr)
    requires Inv(s) && t < NumTimers
    ensures Detach(Attach(s, t, isr), t) == Detach(s, t)
  {
  }

  /** The clamp of `setFrequency`: a non-positive request stands for 1 Hz. */
  function Clamp(frequency: real): (f: real)
    ensures f > 0.0
    ensures frequency > 0.0 ==> f == frequency
    ensures frequency <= 0.0 ==> f == 1.0
  {
    if frequency <= 0.0 then 1.0 else frequency
  }

  /** The channel programming `setFrequency` writes for a positive frequency:
      the clock and reload chosen by `bestClock`. */
  function Programmed(mck: real, frequency: real): (m: ChannelMode)
    requires frequency > 0.0
    ensures m.Waveform? && m.clock == ClockConfigs[BestIndex(mck, frequency)].flag
    ensures Abs(Ticks(mck, frequency, BestIndex(mck, frequency)) - m.rc as real) <= 0.5
  {
    var k := BestIndex(mck, frequency);
    Waveform(ClockConfigs[k].flag, ReloadFor(mck, frequency, k))
  }

  /** `setFrequency`: records the clamped requested frequency (not the one the
      rounded reload achieves), programs the channel and starts its counter. */
  function SetFrequency(s: State, mck: real, t: nat, frequency: real): (s': State)
    requires Inv(s) && t < NumTimers
    ensures Inv(s') && SameOutside(s, s', t)
    ensures s'.frequency[t] == Clamp(frequency) && s'.frequency[t] > 0.0
    ensures s'.channel[t] == Programmed(mck, Clamp(frequency)) && s'.running[t]
    ensures s'.callbacks == s.callbacks && s'.irqEnabled == s.irqEnabled
  {
    var f := Clamp(frequency);
    s.(frequency := s.frequency[t := f],
       channel := s.channel[t := Programmed(mck, f)],
       running := s.running[t := true])
  }

  /** A non-positive frequency behaves exactly as 1 Hz and records 1. */
  lemma NonPositiveFrequencyIsOneHz(s: State, mck: real, t: nat, frequency: real)
    requires Inv(s) && t < NumTimers && frequency <= 0.0
    ensures SetFrequency(s, mck, t, frequency) == SetFrequency(s, mck, t, 1.0)
    ensures GetFrequency(SetFrequency(s, mck, t, frequency), t) == 1.0
  {
  }

  /** `getFrequency`: the recorded frequency, -1 before any setting. */
  function GetFrequency(s: State, t: nat): (f: real)
    requires Inv(s) && t < NumTimers
    ensures f == Unset || f > 0.0
  {
    s.frequency[t]
  }

  /** The recorded value is the request, which the hardware need not achieve:
      asking for 84 MHz / 1292.8 at MCK = 84 MHz records that value while the
      channel runs at 84 MHz / 128 / 10 = 65625 Hz. */
  lemma RecordsRequestedNotAchieved(s: State, t: nat)
    requires Inv(s) && t < NumTimers
    ensures var mck, f := 84000000.0, 84000000.0 / 1292.8;
            var s' := SetFrequency(s, mck, t, f);
            && GetFrequency(s', t) == f
            && s'.channel[t] == Waveform(TimerClock4, 10)
            && mck / 128.0 / 10.0 == 65625.0 != f
  {
    UnweightedErrorPrefersCoarseTick();
  }

  /** C's conversion of a double to an integer type: truncation toward zero. */
  function TruncToInt(x: real): (n: int)
    ensures Abs(n as real) <= Abs(x) < Abs(n as real) + 1.0
    ensures (x >= 0.0 ==> n >= 0) && (x <= 0.0 ==> n <= 0)
  {
    if x >= 0.0 then x.Floor else -((-x).Floor)
  }

  /** `getPeriod` for a recorded frequency f: `1.0/f*1000000` as a long, the
      whole microseconds of one period, and -1000000 for the initial -1. */
  function Period(f: real): (us: int)
    requires f == Unset || f > 0.0
    ensures f == Unset ==> us == -1000000
    ensures f > 0.0 ==> 0 <= us && us as real * f <= 1000000.0 < us as real * f + f
  {
    var x := 1.0 / f * 1000000.0;
    if f > 0.0 then
      assert 1.0 / f > 0.0;
      var n := TruncToInt(x);
      WholePartOfQuotient(1000000.0, f, x, n);
      n
    else
      TruncToInt(x)
  }

  /** n is the whole part of the quotient q = a / f. */
  lemma WholePartOfQuotient(a: real, f: real, q: real, n: int)
    requires f > 0.0 && q == 1.0 / f * a
    requires n as real <= q < (n + 1) as real
    ensures n as real * f <= a < n as real * f + f
  {
    assert q * f == a;
    var m := (n + 1) as real;
    assert (m - q) * f > 0.0;
    assert (q - n as real) * f >= 0.0;
  }

  function GetPeriod(s: State, t: nat): (us: int)
    requires Inv(s) && t < NumTimers
    ensures s.frequency[t] == Unset ==> us == -1000000
    ensures s.frequency[t] > 0.0 ==> us >= 0
  {
    Period(s.frequency[t])
  }

  /** `setPeriod`: setFrequency(1000000.0 / us).  A negative period gives a
      negative frequency, which the clamp turns into 1 Hz. */
  function SetPeriod(s: State, mck: real, t: nat, us: int): (s': State)
    requires Inv(s) && t < NumTimers && us != 0
    ensures Inv(s') && SameOutside(s, s', t)
    ensures us > 0 ==> s'.frequency[t] == 1000000.0 / us as real
    ensures us < 0 ==> s'.frequency[t] == 1.0
    ensures s'.channel[t] == Programmed(mck, s'.frequency[t]) && s'.running[t]
    ensures s'.callbacks == s.callbacks && s'.irqEnabled == s.irqEnabled
  {
    SetFrequency(s, mck, t, 1000000.0 / us as real)
  }

  /** Setting a positive period and reading it back gives that period. */
  lemma PeriodRoundTrip(s: State, mck: real, t: nat, us: int)
    requires Inv(s) && t < NumTimers && us > 0
    ensures GetPeriod(SetPeriod(s, mck, t, us), t) == us
    ensures GetFrequency(SetPeriod(s, mck, t, us), t) * us as real == 1000000.0
  {
    var s' := SetPeriod(s, mck, t, us);
    var f := 1000000.0 / us as real;
    assert s'.frequency[t] == f;
    PeriodOfInverse(us);
    assert GetPeriod(s', t) == Period(f);
  }

  /** The period of the frequency 10^6 / us is us again. */
  lemma PeriodOfInverse(us: int)
    requires us > 0
    ensures Period(1000000.0 / us as real) == us
    ensures 1000000.0 / us as real * us as real == 1000000.0
  {
    var f := 1000000.0 / us as real;
    assert 1.0 / f == us as real / 1000000.0;
    assert 1.0 / f * 1000000.0 == us as real;
  }

  /** `start(us)`: sets the period when us > 0, falls back to 1 Hz when no
      frequency is recorded, then enables the interrupt line. */
  function Start(s: State, mck: real, t: nat, us: int): (s': State)
    requires Inv(s) && t < NumTimers
    ensures Inv(s') && SameOutside(s, s', t)
    ensures s'.frequency[t] > 0.0 && s'.irqEnabled[t]
    ensures s'.callbacks == s.callbacks
    ensures us > 0 ==> s'.frequency[t] == 1000000.0 / us as real
    ensures us <= 0 && s.frequency[t] > 0.0 ==>
              s'.frequency == s.frequency && s'.channel == s.channel && s'.running == s.running
    ensures us <= 0 && s.frequency[t] <= 0.0 ==> s'.frequency[t] == 1.0
    ensures us > 0 || s.frequency[t] <= 0.0 ==>
              s'.running[t] && s'.channel[t] == Programmed(mck, s'.frequency[t])
  {
    var withPeriod := if us > 0 then SetPeriod(s, mck, t, us) else s;
    var withFrequency := if withPeriod.frequency[t] <= 0.0
                         then SetFrequency(withPeriod, mck, t, 1.0) else withPeriod;
    withFrequency.(irqEnabled := withFrequency.irqEnabled[t := true])
  }

  /** A detached timer restarted without a period runs at 1 Hz when it never
      had a frequency: the callback slot stays empty, the line is enabled. */
  lemma StartAfterDetachFromInitial(mck: real, t: nat)
    requires t < NumTimers
    ensures var s' := Start(Detach(Initial(), t), mck, t, 0);
            && s'.callbacks[t] == Null && s'.irqEnabled[t]
            && GetFrequency(s', t) == 1.0 && GetPeriod(s', t) == 1000000
  {
  }
}
