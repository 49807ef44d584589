/** The early six-timer revision DueTimer/DueTimer.cpp.  Every channel is put
    in waveform mode on TIMER_CLOCK4 (MCK/128) when its handle is constructed,
    and `setFrequency` computes the reload in integer arithmetic, relying on
    that divisor.  There is no recorded frequency, no `getAvailable` and no
    `detachInterrupt`. */
module LegacyDueTimer {
  import opened Registry
  import opened Clock

  const NumTimers := 6

  /** 2^32: the range of a uint32_t register value. */
  const Word := 0x1_0000_0000

  /** `DueTimer::Timers[6]`. */
  function Timers(): (table: seq<Channel>)
    ensures |table| == NumTimers && StandardLayout(table)
  {
    [ Channel(TC0, 0, 0), Channel(TC0, 1, 1), Channel(TC0, 2, 2),
      Channel(TC1, 0, 3), Channel(TC1, 1, 4), Channel(TC1, 2, 5) ]
  }

  function AbsInt(x: int): (r: nat)
    ensures r == x || r == -x
  {
    if x >= 0 then x else -x
  }

  /** C's integer `/`: the quotient truncated toward zero, so the remainder
      has the sign of the dividend and is smaller than the divisor. */
  function TruncDiv(a: int, b: int): (q: int)
    requires b != 0
    ensures var r := a - q * b; AbsInt(r) < AbsInt(b) && (a >= 0 ==> r >= 0) && (a <= 0 ==> r <= 0)
  {
    if a >= 0 && b > 0 then a / b
    else if a >= 0 then -(a / -b)
    else if b > 0 then -(-a / b)
    else -a / -b
  }

  /** Assignment of an int to a uint32_t: reduction modulo 2^32. */
  function ToUint32(x: int): (r: nat)
    ensures r < Word && (x - r) % Word == 0
    ensures 0 <= x < Word ==> r == x
  {
    x % Word
  }

  /** RC of `setFrequency`: `VARIANT_MCK/128/frequency` stored in a uint32_t. */
  function ReloadFor(mck: nat, frequency: int): (rc: nat)
    requires frequency != 0
    ensures rc < Word
  {
    ToUint32(TruncDiv(mck / 128, frequency))
  }

  /** For a positive frequency, RC is the whole number of MCK/128 ticks that
      fit in one period: the period RC/(MCK/128) is at most 1/frequency and
      one more tick would exceed it. */
  lemma ReloadIsWholeTicks(mck: nat, frequency: int)
    requires frequency > 0 && mck / 128 < Word
    ensures var rc := ReloadFor(mck, frequency);
            rc * frequency <= mck / 128 < rc * frequency + frequency
  {
    var a := mck / 128;
    QuotientOfNaturals(a, frequency);
    var q := TruncDiv(a, frequency);
    assert ToUint32(q) == q;
  }

  /** Truncated division of a natural number by a positive one. */
  lemma QuotientOfNaturals(a: nat, b: int)
    requires b > 0
    ensures var q := TruncDiv(a, b); 0 <= q <= a && q * b <= a < q * b + b
  {
    var q := TruncDiv(a, b);
    var r := a - q * b;
    assert 0 <= r < b;
    if q > 0 {
      ProductAtLeast(b, q);
      assert q * b == b * q;
    }
  }

  /** A negative frequency is not guarded: the negative quotient wraps to a
      reload near 2^32.  At MCK = 84 MHz, frequency -1000 gives
      2^32 - 656 = 4294966640. */
  lemma NegativeFrequencyWraps()
    ensures ReloadFor(84000000, -1000) == 4294966640
  {
    assert 84000000 / 128 == 656250;
    assert TruncDiv(656250, -1000) == -656;
  }

  /** RA = RC/2: the output is high for half of the period (for an odd RC,
      one tick less than half). */
  function HalfReload(rc: nat): (ra: nat)
    ensures ra <= rc && 2 * ra <= rc <= 2 * ra + 1
  {
    rc / 2
  }

  /** The frequency `setPeriod` passes on: `1000000/microseconds`, in C's
      integer division. */
  function PeriodToFrequency(us: int): (f: int)
    requires us != 0
    ensures us > 0 ==> 0 <= f <= 1000000
  {
    TruncDiv(1000000, us)
  }

  /** Periods longer than one second become frequency 0, whose division in
      `setFrequency` the source does not guard. */
  lemma PeriodToFrequencyVanishes(us: int)
    requires us != 0
    ensures PeriodToFrequency(us) == 0 <==> us < -1000000 || us > 1000000
  {
    var q := PeriodToFrequency(us);
    if q != 0 {
      NonzeroQuotientCoversDivisor(1000000, us);
    }
  }

  /** A positive multiplier does not shrink a natural number. */
  lemma {:induction false} ProductAtLeast(q: nat, u: nat)
    requires q > 0
    ensures q * u >= u
  {
    if q > 1 {
      ProductAtLeast(q - 1, u);
      assert q * u == (q - 1) * u + u;
    }
  }

  lemma AbsOfProduct(a: int, b: int)
    ensures AbsInt(a * b) == AbsInt(a) * AbsInt(b)
  {
    if a < 0 && b >= 0 {
      assert a * b == -((-a) * b);
    } else if a >= 0 && b < 0 {
      assert a * b == -(a * (-b));
    } else if a < 0 && b < 0 {
      assert a * b == (-a) * (-b);
    }
  }

  /** A nonzero truncated quotient q of a by b has |q*b| >= |b|. */
  lemma NonzeroQuotientCoversDivisor(a: int, b: int)
    requires b != 0 && TruncDiv(a, b) != 0
    ensures AbsInt(TruncDiv(a, b) * b) >= AbsInt(b)
  {
    var q := TruncDiv(a, b);
    ProductAtLeast(AbsInt(q), AbsInt(b));
    AbsOfProduct(q, b);
  }

  /** A channel's mode register clock, its RA and RC registers, and whether
      the RC-compare interrupt is its only enabled interrupt source. */
  datatype LegacyChannel = LegacyChannel(clock: ClockFlag, ra: nat, rc: nat, compareIrq: bool)

  /** `callbacks[6]`, the NVIC enable bit of each line, whether each channel's
      counter is started, and each channel's registers. */
  datatype State = State(
    callbacks: seq<Isr>,
    irqEnabled: seq<bool>,
    running: seq<bool>,
    channel: seq<LegacyChannel>)

  /** One slot per timer, and every channel stays on TIMER_CLOCK4, the divisor
      that the /128 of `setFrequency` assumes. */
  predicate Inv(s: State)
  {
    && |s.callbacks| == NumTimers
    && |s.irqEnabled| == NumTimers
    && |s.running| == NumTimers
    && |s.channel| == NumTimers
    && forall i :: 0 <= i < NumTimers ==> s.channel[i].clock == TimerClock4
  }

  predicate SameOutside(s: State, s': State, t: nat)
    requires Inv(s) && Inv(s')
  {
    forall i :: 0 <= i < NumTimers && i != t ==>
      && s'.callbacks[i] == s.callbacks[i]
      && s'.irqEnabled[i] == s.irqEnabled[i]
      && s'.running[i] == s.running[i]
      && s'.channel[i] == s.channel[i]
  }

  /** After static initialisation: six NULL callbacks, and each of the handles
      Timer0 .. Timer5 has configured its channel with TIMER_CLOCK4.  RA and RC
      hold their reset value 0 and no interrupt source is enabled. */
  function Initial(): (s: State)
    ensures Inv(s)
    ensures forall i :: 0 <= i < NumTimers ==>
      && s.callbacks[i] == Null && !s.irqEnabled[i] && !s.running[i]
      && DivisorOf(s.channel[i].clock) == 128 && !s.channel[i].compareIrq
  {
    State(seq(NumTimers, _ => Null), seq(NumTimers, _ => false), seq(NumTimers, _ => false),
          seq(NumTimers, _ => LegacyChannel(TimerClock4, 0, 0, false)))
  }

  function Attach(s: State, t: nat, isr: Isr): (s': State)
    requires Inv(s) && t < NumTimers
    ensures Inv(s') && SameOutside(s, s', t) && s'.callbacks[t] == isr
    ensures s'.irqEnabled == s.irqEnabled && s'.running == s.running && s'.channel == s.channel
  {
    s.(callbacks := s.callbacks[t := isr])
  }

  function Stop(s: State, t: nat): (s': State)
    requires Inv(s) && t < NumTimers
    ensures Inv(s') && SameOutside(s, s', t) && !s'.irqEnabled[t]
    ensures s'.callbacks == s.callbacks && s'.running == s.running && s'.channel == s.channel
  {
    s.(irqEnabled := s.irqEnabled[t := false])
  }

  lemma StopIsIdempotent(s: State, t: nat)
    requires Inv(s) && t < NumTimers
    ensures Stop(Stop(s, t), t) == Stop(s, t)
  {
  }

  /** `setFrequency`: RA and RC from the integer formula, counter started,
      RC compare made the only interrupt source; the clock is left as it is. */
  function SetFrequency(s: State, mck: nat, t: nat, frequency: int): (s': State)
    requires Inv(s) && t < NumTimers && frequency != 0
    ensures Inv(s') && SameOutside(s, s', t) && s'.running[t]
    ensures s'.channel[t].rc == ReloadFor(mck, frequency) && s'.channel[t].compareIrq
    ensures s'.channel[t].clock == s.channel[t].clock
    ensures 2 * s'.channel[t].ra <= s'.channel[t].rc <= 2 * s'.channel[t].ra + 1
    ensures s'.callbacks == s.callbacks && s'.irqEnabled == s.irqEnabled
  {
    var rc := ReloadFor(mck, frequency);
    s.(channel := s.channel[t := s.channel[t].(ra := HalfReload(rc), rc := rc, compareIrq := true)],
       running := s.running[t := true])
  }

  /** The reload fits the channel's actual clock: with the MCK/128 tick the
      channel was configured with, RC ticks last at most one requested period. */
  lemma ReloadMatchesConfiguredClock(s: State, mck: nat, t: nat, frequency: int)
    requires Inv(s) && t < NumTimers && frequency > 0 && mck / 128 < Word
    ensures var ch := SetFrequency(s, mck, t, frequency).channel[t];
            && DivisorOf(ch.clock) == 128
            && ch.rc * frequency <= mck / DivisorOf(ch.clock) < ch.rc * frequency + frequency
  {
    ReloadIsWholeTicks(mck, frequency);
  }

  /** `setPeriod`: setFrequency(1000000/microseconds). */
  function SetPeriod(s: State, mck: nat, t: nat, us: int): (s': State)
    requires Inv(s) && t < NumTimers && us != 0 && PeriodToFrequency(us) != 0
    ensures Inv(s') && SameOutside(s, s', t) && s'.running[t]
    ensures s'.channel[t].rc == ReloadFor(mck, PeriodToFrequency(us)) && s'.channel[t].compareIrq
    ensures 2 * s'.channel[t].ra <= s'.channel[t].rc <= 2 * s'.channel[t].ra + 1
    ensures s'.channel[t].clock == s.channel[t].clock
    ensures s'.callbacks == s.callbacks && s'.irqEnabled == s.irqEnabled
  {
    SetFrequency(s, mck, t, PeriodToFrequency(us))
  }

  /** `start(microseconds)`: sets the period only when it is positive, then
      enables the interrupt line; no default frequency. */
  function Start(s: State, mck: nat, t: nat, us: int): (s': State)
    requires Inv(s) && t < NumTimers && us <= 1000000
    ensures Inv(s') && SameOutside(s, s', t) && s'.irqEnabled[t]
    ensures s'.callbacks == s.callbacks
    ensures us <= 0 ==> s'.running == s.running && s'.channel == s.channel
    ensures us > 0 ==> s'.running[t] && s'.channel[t].rc == ReloadFor(mck, PeriodToFrequency(us))
    ensures us > 0 ==> && 2 * s'.channel[t].ra <= s'.channel[t].rc <= 2 * s'.channel[t].ra + 1
                       && s'.channel[t].compareIrq && s'.channel[t].clock == s.channel[t].clock
  {
    if us > 0 then
      PeriodToFrequencyVanishes(us);
      var s1 := SetPeriod(s, mck, t, us);
      s1.(irqEnabled := s1.irqEnabled[t := true])
    else
      s.(irqEnabled := s.irqEnabled[t := true])
  }

}
