/** Choice of the timer/counter clock prescaler: `bestClock`, shared verbatim by
    DueTimer.cpp and arch/sam/ArduinoTimer.cpp.

    The hardware feeds a channel with the master clock (VARIANT_MCK) divided by
    one of four fixed divisors.  For a requested frequency f the ideal reload
    count with divisor d is MCK / f / d; `bestClock` picks the divisor whose
    ideal count is closest to an integer and returns that divisor's clock flag
    together with the rounded count.  Floating point is modelled by exact reals. */
module Clock {

  /** The TC_CMR_TCCLKS_TIMER_CLOCKn selectors of the channel mode register. */
  datatype ClockFlag = TimerClock1 | TimerClock2 | TimerClock3 | TimerClock4

  datatype ClockConfig = ClockConfig(flag: ClockFlag, divisor: nat)

  /** The `clockConfig` table: MCK/2, MCK/8, MCK/32, MCK/128. */
  const ClockConfigs: seq<ClockConfig> :=
    [ ClockConfig(TimerClock1, 2),
      ClockConfig(TimerClock2, 8),
      ClockConfig(TimerClock3, 32),
      ClockConfig(TimerClock4, 128) ]

  /** The divisor a clock flag stands for (the comment table of `bestClock`). */
  function DivisorOf(flag: ClockFlag): (d: nat)
    ensures exists k :: 0 <= k < |ClockConfigs| && ClockConfigs[k] == ClockConfig(flag, d)
  {
    match flag
    case TimerClock1 => assert ClockConfigs[0] == ClockConfig(flag, 2); 2
    case TimerClock2 => assert ClockConfigs[1] == ClockConfig(flag, 8); 8
    case TimerClock3 => assert ClockConfigs[2] == ClockConfig(flag, 32); 32
    case TimerClock4 => assert ClockConfigs[3] == ClockConfig(flag, 128); 128
  }

  function Abs(x: real): (r: real)
    ensures r >= 0.0 && (r == x || r == -x)
  {
    if x > 0.0 then x else -x
  }

  /** C's `round`: to the nearest integer, halves away from zero. */
  function Round(x: real): (n: int)
    ensures Abs(x - n as real) <= 0.5
    ensures x >= 0.0 ==> n >= 0
    ensures x >= 0.0 ==> x - 0.5 < n as real <= x + 0.5
    ensures x < 0.0 ==> x - 0.5 <= n as real < x + 0.5
  {
    if x >= 0.0 then (x + 0.5).Floor else -((0.5 - x).Floor)
  }

  /** No integer is closer to x than Round(x). */
  lemma RoundIsNearest(x: real, m: int)
    ensures Abs(x - Round(x) as real) <= Abs(x - m as real)
  {
    var n := Round(x);
    if m < n {
      assert m as real <= n as real - 1.0;
    } else if m > n {
      assert m as real >= n as real + 1.0;
    }
  }

  /** The ideal (unrounded) reload count for divisor number k. */
  function Ticks(mck: real, frequency: real, k: nat): real
    requires frequency > 0.0 && k < |ClockConfigs|
  {
    mck / frequency / ClockConfigs[k].divisor as real
  }

  /** The rounding error `bestClock` compares: in ticks of the divided clock,
      not scaled by the divisor. */
  function Error(mck: real, frequency: real, k: nat): (e: real)
    requires frequency > 0.0 && k < |ClockConfigs|
    ensures 0.0 <= e <= 0.5
  {
    Abs(Ticks(mck, frequency, k) - Round(Ticks(mck, frequency, k)) as real)
  }

  /** k is the outcome of a scan from divisor 3 down to 0 that replaces its
      candidate only on a strictly smaller error: k has the least error, and
      every coarser divisor has a strictly larger one (ties go to the coarser). */
  predicate IsBest(mck: real, frequency: real, k: int)
    requires frequency > 0.0
  {
    && 0 <= k < |ClockConfigs|
    && (forall j :: 0 <= j < |ClockConfigs| ==> Error(mck, frequency, k) <= Error(mck, frequency, j))
    && (forall j :: k < j < |ClockConfigs| ==> Error(mck, frequency, k) < Error(mck, frequency, j))
  }

  lemma BestIsUnique(mck: real, frequency: real, k1: int, k2: int)
    requires frequency > 0.0
    requires IsBest(mck, frequency, k1) && IsBest(mck, frequency, k2)
    ensures k1 == k2
  {
    assert Error(mck, frequency, k1) <= Error(mck, frequency, k2);
    assert Error(mck, frequency, k2) <= Error(mck, frequency, k1);
  }

  /** The divisor number the scan ends with is the one BestIndex names. */
  lemma ScanResultIsBestIndex(mck: real, frequency: real, k: int)
    requires frequency > 0.0 && IsBest(mck, frequency, k)
    ensures k == BestIndex(mck, frequency)
  {
    BestIsUnique(mck, frequency, k, BestIndex(mck, frequency));
  }

  /** The chosen divisor number, stated without the scan: the coarsest divisor
      among those whose error is the least. */
  function BestIndex(mck: real, frequency: real): (k: nat)
    requires frequency > 0.0
    ensures IsBest(mck, frequency, k)
  {
    var e0, e1, e2, e3 := Error(mck, frequency, 0), Error(mck, frequency, 1),
                          Error(mck, frequency, 2), Error(mck, frequency, 3);
    var least := Min(Min(e0, e1), Min(e2, e3));
    if e3 == least then 3
    else if e2 == least then 2
    else if e1 == least then 1
    else 0
  }

  function Min(a: real, b: real): (m: real)
    ensures m <= a && m <= b && (m == a || m == b)
  {
    if a <= b then a else b
  }

  /** The rounded reload count (`retRC`) that goes with divisor number k. */
  function ReloadFor(mck: real, frequency: real, k: nat): (rc: int)
    requires frequency > 0.0 && k < |ClockConfigs|
    ensures Abs(Ticks(mck, frequency, k) - rc as real) <= 0.5
    ensures mck >= 0.0 ==> rc >= 0
  {
    Round(Ticks(mck, frequency, k))
  }

  /** `bestClock`: the do-while scan over clkId = 3, 2, 1, 0, keeping a
      candidate on a strictly smaller error, starting from bestError = 1.0. */
  method BestClock(mck: real, frequency: real) returns (flag: ClockFlag, rc: int)
    requires frequency > 0.0
    ensures flag == ClockConfigs[BestIndex(mck, frequency)].flag
    ensures rc == ReloadFor(mck, frequency, BestIndex(mck, frequency))
  {
    var clkId := 3;
    var best := 3;
    var bestError := 1.0;
    // do { ... } while (clkId-- > 0): the body runs for clkId = 3, 2, 1, 0
    while clkId >= 0
      invariant -1 <= clkId <= 3 && 0 <= best <= 3
      invariant clkId == 3 ==> best == 3 && bestError == 1.0
      invariant clkId < 3 ==> bestError == Error(mck, frequency, best)
      invariant forall j :: clkId < j <= 3 ==> Error(mck, frequency, best) <= Error(mck, frequency, j)
      invariant forall j :: best < j <= 3 ==> Error(mck, frequency, best) < Error(mck, frequency, j)
    {
      var ticks := Ticks(mck, frequency, clkId);
      var error := Abs(ticks - Round(ticks) as real);
      if Abs(error) < bestError {
        best := clkId;
        bestError := error;
      }
      clkId := clkId - 1;
    }
    assert IsBest(mck, frequency, best);
    ScanResultIsBestIndex(mck, frequency, best);
    rc := Round(Ticks(mck, frequency, best));
    flag := ClockConfigs[best].flag;
  }

  /** The first candidate (MCK/128) is always taken, since no error reaches the
      initial bestError of 1.0; hence a zero error at MCK/128 decides for it. */
  lemma ExactAtCoarsestKeepsCoarsest(mck: real, frequency: real)
    requires frequency > 0.0
    requires Error(mck, frequency, 3) == 0.0
    ensures BestIndex(mck, frequency) == 3
  {
  }

  /** Ties go to the coarser divisor: a finer divisor with the same error as a
      coarser one is never chosen. */
  lemma TieGoesToCoarser(mck: real, frequency: real, j: nat, k: nat)
    requires frequency > 0.0 && j < k < |ClockConfigs|
    requires Error(mck, frequency, j) == Error(mck, frequency, k)
    ensures BestIndex(mck, frequency) != j
  {
  }

  /** When the ideal count at MCK/128 is a whole number n, every divisor gives
      an exact count (4n, 16n, 64n), all four errors tie at 0, and the scan
      keeps TIMER_CLOCK4 with reload n, the coarsest of the four. */
  lemma {:induction false} WholeCountAtCoarsestPicksClock4(mck: real, frequency: real, n: int)
    requires frequency > 0.0
    requires Ticks(mck, frequency, 3) == n as real
    ensures forall k :: 0 <= k < |ClockConfigs| ==> Error(mck, frequency, k) == 0.0
    ensures BestIndex(mck, frequency) == 3 && ReloadFor(mck, frequency, 3) == n
  {
    forall k | 0 <= k < |ClockConfigs|
      ensures Error(mck, frequency, k) == 0.0
    {
      var m := [64, 16, 4, 1][k];
      var q := mck / frequency;
      assert Ticks(mck, frequency, k) == q / ClockConfigs[k].divisor as real;
      assert q == n as real * 128.0;
      assert Ticks(mck, frequency, k) == (m * n) as real;
      WholeRoundsToItself(m * n);
    }
    WholeRoundsToItself(n);
  }

  lemma WholeRoundsToItself(n: int)
    ensures Round(n as real) == n
  {
  }

  /** The error is not weighted by the divisor: at MCK = 84 MHz and a frequency
      whose ideal count at MCK/128 is 10.1, the scan picks TIMER_CLOCK4 (error
      0.1 of a 128-cycle tick, 12.8 master cycles) although TIMER_CLOCK1 misses
      by 0.4 of a 2-cycle tick, 0.8 master cycles. */
  lemma UnweightedErrorPrefersCoarseTick()
    ensures var mck, f := 84000000.0, 84000000.0 / 1292.8;
            && BestIndex(mck, f) == 3 && ReloadFor(mck, f, 3) == 10
            && 128.0 * Error(mck, f, 3) > 2.0 * Error(mck, f, 0)
  {
    var mck, f := 84000000.0, 84000000.0 / 1292.8;
    assert Ticks(mck, f, 0) == 646.4;
    assert Ticks(mck, f, 1) == 161.6;
    assert Ticks(mck, f, 2) == 40.4;
    assert Ticks(mck, f, 3) == 10.1;
    assert Round(646.4) == 646 && Round(161.6) == 162 && Round(40.4) == 40 && Round(10.1) == 10;
    assert Error(mck, f, 0) == 0.4 && Error(mck, f, 3) == 0.1;
    assert Error(mck, f, 1) == 0.4 && Error(mck, f, 2) == 0.4;
  }
}
