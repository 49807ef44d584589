/** The fixed hardware facts every revision's `Timers` table is built from:
    three counter blocks of three channels each, one interrupt line per
    channel, and the callback slot type. */
module Registry {

  datatype Option<T> = None | Some(value: T)

  /** The counter blocks TC0, TC1, TC2. */
  datatype Block = TC0 | TC1 | TC2

  /** A peripheral function of a PIO pin (PIO_PERIPH_A / PIO_PERIPH_B). */
  datatype Periph = PeriphA | PeriphB

  /** A callback slot: a null function pointer or some function. */
  datatype Isr = Null | Fn(id: nat)

  /** A table entry of the revisions whose `Timer` struct is {tc, channel, irq}.
      The interrupt line is identified by n, standing for TCn_IRQn. */
  datatype Channel = Channel(tc: Block, channel: nat, irq: nat)

  /** The counter block with number b. */
  function BlockAt(b: nat): (tc: Block)
    requires b < 3
    ensures b == 0 <==> tc == TC0
    ensures b == 1 <==> tc == TC1
  {
    if b == 0 then TC0 else if b == 1 then TC1 else TC2
  }

  /** Timer i sits on block i / 3, channel i % 3, and raises TCi_IRQn. */
  predicate StandardLayout(table: seq<Channel>)
  {
    |table| <= 9 &&
    forall i :: 0 <= i < |table| ==> table[i] == Channel(BlockAt(i / 3), i % 3, i)
  }
}
