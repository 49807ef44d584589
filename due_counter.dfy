/** The counter-mode operations of DueTimer.cpp on the in-place state of
    TimerBank, proved to follow the functions of module DueTimer. */
module DueCounter {
  import opened Registry
  import opened TimerModel
  import opened TimerBank
  import DueTimer

  method SetUpCounter(timers: Timers, t: nat) returns (ok: bool)
    requires timers.Valid() && t < NumTimers
    modifies timers.channel, timers.running
    ensures timers.Valid() && (ok, timers.Model()) == DueTimer.SetUpCounter(old(timers.Model()), t)
  {
    var timer := DueTimer.Timers()[t];
    if timer.tclkPin == DueTimer.NullPin {
      return false;
    }
    var sel := DueTimer.CounterSelectFor(timer.channel);
    if sel.None? {
      return false;
    }
    timers.running[t] := false;
    timers.channel[t] := ExternalClock(sel.value.xcTclk, sel.value.tcclkXc);
    return true;
  }

  method StartCounter(timers: Timers, t: nat)
    requires timers.Valid() && t < NumTimers
    modifies timers.running
    ensures timers.Valid() && timers.Model() == DueTimer.StartCounter(old(timers.Model()), t)
  {
    timers.running[t] := true;
  }

  method StopCounter(timers: Timers, t: nat)
    requires timers.Valid() && t < NumTimers
    modifies timers.running
    ensures timers.Valid() && timers.Model() == DueTimer.StopCounter(old(timers.Model()), t)
  {
    timers.running[t] := false;
  }
}
