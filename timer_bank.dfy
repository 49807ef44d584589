/** The static arrays of DueTimer.cpp (`callbacks[9]`, `_frequency[9]`) and the
    hardware state the register calls change, updated in place by the
    operations of a timer handle.  A handle is its timer number t, so every
    operation takes t; each method is proved to move the state as the
    corresponding function of TimerModel says. */
module TimerBank {
  import opened Registry
  import opened Clock
  import opened TimerModel

  class Timers {
    /** VARIANT_MCK, the master clock rate in Hz. */
    const mck: real
    const callbacks: array<Isr>
    const frequency: array<real>
    /** NVIC enable bit of each timer's interrupt line (NVIC_EnableIRQ / NVIC_DisableIRQ). */
    const irqEnabled: array<bool>
    /** Whether each channel's counter has been started (TC_Start / TC_Stop). */
    const running: array<bool>
    /** What each channel's registers were programmed with (TC_Configure, TC_SetRC, TC_IER / TC_IDR). */
    const channel: array<ChannelMode>

    ghost function Model(): State
      reads callbacks, frequency, irqEnabled, running, channel
    {
      State(callbacks[..], frequency[..], irqEnabled[..], running[..], channel[..])
    }

    ghost predicate Valid()
      reads callbacks, frequency, irqEnabled, running, channel
    {
      mck > 0.0 && irqEnabled != running && Inv(Model())
    }

    /** Program start: the static initialisers of `callbacks` and `_frequency`. */
    constructor (mck: real)
      requires mck > 0.0
      ensures Valid() && this.mck == mck && Model() == Initial()
      ensures fresh(callbacks) && fresh(frequency) && fresh(irqEnabled) && fresh(running) && fresh(channel)
    {
      this.mck := mck;
      callbacks := new Isr[NumTimers](_ => Null);
      frequency := new real[NumTimers](_ => Unset);
      irqEnabled := new bool[NumTimers](_ => false);
      running := new bool[NumTimers](_ => false);
      channel := new ChannelMode[NumTimers](_ => Unconfigured);
    }

    /** `getAvailable`: the first timer with no callback set, or timer 0. */
    method GetAvailable() returns (t: nat)
      requires Valid()
      ensures t < NumTimers && t == FirstAvailable(Model().callbacks)
      ensures forall i :: 0 <= i < t ==> callbacks[i] != Null
      ensures callbacks[t] == Null || (t == 0 && forall i :: 0 <= i < NumTimers ==> callbacks[i] != Null)
    {
      for i := 0 to NumTimers
        invariant forall j :: 0 <= j < i ==> callbacks[j] != Null
        invariant FirstAvailable(callbacks[..]) == FirstFreeFrom(callbacks[..], i)
      {
        if callbacks[i] == Null {
          return i;
        }
      }
      return 0;
    }

    method AttachInterrupt(t: nat, isr: Isr)
      requires Valid() && t < NumTimers
      modifies callbacks
      ensures Valid() && Model() == Attach(old(Model()), t, isr)
    {
      callbacks[t] := isr;
    }

    method Stop(t: nat)
      requires Valid() && t < NumTimers
      modifies irqEnabled
      ensures Valid() && Model() == TimerModel.Stop(old(Model()), t)
    {
      irqEnabled[t] := false;
    }

    method DetachInterrupt(t: nat)
      requires Valid() && t < NumTimers
      modifies irqEnabled, callbacks
      ensures Valid() && Model() == Detach(old(Model()), t)
    {
      Stop(t);
      callbacks[t] := Null;
    }

    method SetFrequency(t: nat, frequency: real)
      requires Valid() && t < NumTimers
      modifies this.frequency, channel, running
      ensures Valid() && Model() == TimerModel.SetFrequency(old(Model()), mck, t, frequency)
    {
      var f := frequency;
      if f <= 0.0 {
        f := 1.0;
      }
      this.frequency[t] := f;
      var clock, rc := BestClock(mck, f);
      channel[t] := Waveform(clock, rc);
      running[t] := true;
    }

    method SetPeriod(t: nat, us: int)
      requires Valid() && t < NumTimers && us != 0
      modifies frequency, channel, running
      ensures Valid() && Model() == TimerModel.SetPeriod(old(Model()), mck, t, us)
    {
      var f := 1000000.0 / us as real;
      SetFrequency(t, f);
    }

    /** `start(microseconds)`; a `us` <= 0 also covers `start()`, which the
        headers arch/sam/ArduinoTimer.h and DueTimer/DueTimer.h declare with
        the default argument -1. */
    method Start(t: nat, us: int)
      requires Valid() && t < NumTimers
      modifies frequency, channel, running, irqEnabled
      ensures Valid() && Model() == TimerModel.Start(old(Model()), mck, t, us)
    {
      if us > 0 {
        SetPeriod(t, us);
      }
      if frequency[t] <= 0.0 {
        SetFrequency(t, 1.0);
      }
      irqEnabled[t] := true;
    }

    function GetFrequency(t: nat): (f: real)
      requires Valid() && t < NumTimers
      reads callbacks, frequency, irqEnabled, running, channel
      ensures f == TimerModel.GetFrequency(Model(), t)
      ensures f == Unset || f > 0.0
    {
      frequency[t]
    }

    function GetPeriod(t: nat): (us: int)
      requires Valid() && t < NumTimers
      reads callbacks, frequency, irqEnabled, running, channel
      ensures us == TimerModel.GetPeriod(Model(), t)
    {
      Period(frequency[t])
    }
  }
}
