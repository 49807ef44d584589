/** The static `callbacks[6]` array of DueTimer/DueTimer.cpp and the hardware
    state its register calls change, updated in place; each method is proved
    to move the state as the corresponding function of LegacyDueTimer says. */
module LegacyBank {
  import opened Registry
  import opened Clock
  import opened LegacyDueTimer

  /** The state of the revision's static arrays and hardware, updated in place. */
  class LegacyTimers {
    /** VARIANT_MCK, the master clock rate in Hz. */
    const mck: nat
    const callbacks: array<Isr>
    const irqEnabled: array<bool>
    const running: array<bool>
    const channel: array<LegacyChannel>

    ghost function Model(): State
      reads callbacks, irqEnabled, running, channel
    {
      State(callbacks[..], irqEnabled[..], running[..], channel[..])
    }

    ghost predicate Valid()
      reads callbacks, irqEnabled, running, channel
    {
      mck > 0 && irqEnabled != running && Inv(Model())
    }

    /** Static initialisation, including the constructors of Timer0 .. Timer5. */
    constructor (mck: nat)
      requires mck > 0
      ensures Valid() && this.mck == mck && Model() == Initial()
      ensures fresh(callbacks) && fresh(irqEnabled) && fresh(running) && fresh(channel)
    {
      this.mck := mck;
      callbacks := new Isr[NumTimers](_ => Null);
      irqEnabled := new bool[NumTimers](_ => false);
      running := new bool[NumTimers](_ => false);
      channel := new LegacyChannel[NumTimers](_ => LegacyChannel(TimerClock4, 0, 0, false));
    }

    method AttachInterrupt(t: nat, isr: Isr)
      requires Valid() && t < NumTimers
      modifies callbacks
      ensures Valid() && Model() == Attach(old(Model()), t, isr)
    {
      callbacks[t] := isr;
    }

    method Stop(t: nat)
      requires Valid() && t < NumTimers
      modifies irqEnabled
      ensures Valid() && Model() == LegacyDueTimer.Stop(old(Model()), t)
    {
      irqEnabled[t] := false;
    }

    method SetFrequency(t: nat, frequency: int)
      requires Valid() && t < NumTimers && frequency != 0
      modifies channel, running
      ensures Valid() && Model() == LegacyDueTimer.SetFrequency(old(Model()), mck, t, frequency)
    {
      var rc := ToUint32(TruncDiv(mck / 128, frequency));
      channel[t] := channel[t].(ra := rc / 2);
      channel[t] := channel[t].(rc := rc);
      running[t] := true;
      channel[t] := channel[t].(compareIrq := true);
    }

    method SetPeriod(t: nat, us: int)
      requires Valid() && t < NumTimers && us != 0 && PeriodToFrequency(us) != 0
      modifies channel, running
      ensures Valid() && Model() == LegacyDueTimer.SetPeriod(old(Model()), mck, t, us)
    {
      SetFrequency(t, TruncDiv(1000000, us));
    }

    /** `start(microseconds)`; the default argument -1 of DueTimer/DueTimer.h makes `start()` start(-1). */
    method Start(t: nat, us: int)
      requires Valid() && t < NumTimers && us <= 1000000
      modifies channel, running, irqEnabled
      ensures Valid() && Model() == LegacyDueTimer.Start(old(Model()), mck, t, us)
    {
      if us > 0 {
        PeriodToFrequencyVanishes(us);
        SetPeriod(t, us);
      }
      irqEnabled[t] := true;
    }
  }
}
