/** The descriptor table of arch/sam/ArduinoTimer.cpp.  Its registry, `start`,
    `stop`, `bestClock`, `setFrequency`, `setPeriod`, `getFrequency` and
    `getPeriod` are the same code as DueTimer.cpp's and are modelled once, by
    TimerModel, TimerBank and Clock. */
module ArduinoTimer {
  import opened Registry
  import DueTimer

  /** `ArduinoTimer::Timers[9]`: {tc, channel, irq} only, no pin data. */
  function Timers(): (table: seq<Channel>)
    ensures |table| == 9 && StandardLayout(table)
  {
    [ Channel(TC0, 0, 0), Channel(TC0, 1, 1), Channel(TC0, 2, 2),
      Channel(TC1, 0, 3), Channel(TC1, 1, 4), Channel(TC1, 2, 5),
      Channel(TC2, 0, 6), Channel(TC2, 1, 7), Channel(TC2, 2, 8) ]
  }

  /** Both nine-timer revisions drive the same channels from the same lines. */
  lemma SameChannelsAsDueTimer()
    ensures forall i :: 0 <= i < 9 ==> Timers()[i] == DueTimer.Descriptor(DueTimer.Timers()[i])
  {
  }
}
