/**
 Gpt.c: SysTick_Handler as one uninterrupted call, over the real port registers and the real
 scheduler data, and the functions of Gpt.h that read its counter.
 */
module Gpt {
  import opened Gpio
  import K = Kernel
  import O = OsSpec
  import T = SysTick

  class Gpt {
    var millisecCounter: int
    ghost var due: bool         // a millisecond was counted and OS_Tick not yet called for it
    const ports: Ports
    const kernel: K.Kernel

    ghost predicate Valid()
      reads this, kernel, kernel.threads, kernel.Blocks(), kernel.curr, kernel.next
    {
      kernel.Valid() && 0 <= millisecCounter < T.COUNTER
    }

    constructor (ports: Ports, kernel: K.Kernel)
      requires kernel.Valid()
      ensures Valid() && millisecCounter == 0 && this.ports == ports && this.kernel == kernel
    {
      millisecCounter := 0;
      this.ports, this.kernel := ports, kernel;
      new;
      kernel.Untouched();
    }

    method GetTimeElapsed() returns (t: int)
      ensures t == millisecCounter
    {
      t := millisecCounter;
    }

    /** A deadline that reads expired at once exactly when the sum overflows 64 bits. */
    method TimerStart(millisec: int) returns (deadline: int)
      requires Valid() && 0 <= millisec < 0x1_0000_0000
      ensures 0 <= deadline < 0x1_0000_0000_0000_0000
      ensures T.TimerTimeout(millisecCounter, deadline) <==> millisecCounter + millisec >= 0x1_0000_0000_0000_0000
      ensures deadline == T.TimerStart(millisecCounter, millisec)
    {
      var now := GetTimeElapsed();
      deadline := (now + millisec) % T.COUNTER;
      T.FreshTimer(now, millisec);
    }

    method TimerTimeout(myTimer: int) returns (expired: bool)
      ensures expired == T.TimerTimeout(millisecCounter, myTimer)
    {
      var now := GetTimeElapsed();
      expired := now > myTimer;
    }

    /** `++millisec_counter`, while PC2 is high. */
    method CountMillisecond()
      requires Valid() && 2 in Pins(ports.gpiocOdr)
      modifies this`millisecCounter, this`due
      ensures due
      ensures Valid() && kernel.Abs() == old(kernel.Abs()) && kernel.Blocks() == old(kernel.Blocks())
      ensures millisecCounter == (old(millisecCounter) + 1) % 0x1_0000_0000_0000_0000
    {
      millisecCounter := (millisecCounter + 1) % T.COUNTER;
      due := true;
      kernel.Untouched();
    }

    /** OS_Tick, then OS_Sched with interrupts masked. */
    method TickAndSched()
      requires kernel.Valid()
      modifies kernel`readySet, kernel`delayedSet, kernel`next, kernel`pendSv, kernel`irqMasked, kernel`enables, kernel.Blocks()`timeOut
      ensures kernel.Valid() && !kernel.irqMasked && kernel.enables == old(kernel.enables) + 1
      ensures kernel.Abs() == O.Sched(O.Tick(old(kernel.Abs())))
    {
      kernel.Tick();
      kernel.SchedMasked();
    }

    /** The same, while PC2 is high and after the counter's increment. */
    method RunOs()
      requires kernel.Valid() && 2 in Pins(ports.gpiocOdr) && due
      modifies this`due
      modifies kernel`readySet, kernel`delayedSet, kernel`next, kernel`pendSv, kernel`irqMasked, kernel`enables, kernel.Blocks()`timeOut
      ensures kernel.Valid() && !kernel.irqMasked && kernel.enables == old(kernel.enables) + 1 && !due
      ensures kernel.Abs() == O.Sched(O.Tick(old(kernel.Abs())))
    {
      due := false;
      kernel.Untouched();
      TickAndSched();
    }

    /** PC2 high, then one more millisecond. */
    method Begin()
      requires Valid()
      modifies this`millisecCounter, this`due, ports`gpiocOdr, ports`portCLock, ports`trace
      ensures Valid() && kernel.Abs() == old(kernel.Abs()) && kernel.Blocks() == old(kernel.Blocks()) && due
      ensures millisecCounter == (old(millisecCounter) + 1) % 0x1_0000_0000_0000_0000
      ensures Pins(ports.gpiocOdr) == old(Pins(ports.gpiocOdr)) + {2}
      ensures ports.trace == old(ports.trace) + Section(old(Pins(ports.gpiocOdr)) + {2})
    {
      ports.Pc2On();
      kernel.Untouched();
      CountMillisecond();
    }

    /** PC2 low. */
    method End()
      requires Valid()
      modifies ports`gpiocOdr, ports`portCLock, ports`trace
      ensures Valid() && kernel.Abs() == old(kernel.Abs()) && !ports.portCLock
      ensures Pins(ports.gpiocOdr) == old(Pins(ports.gpiocOdr)) - {2}
      ensures ports.trace == old(ports.trace) + Section(old(Pins(ports.gpiocOdr)) - {2})
    {
      ports.Pc2Off();
      kernel.Untouched();
    }

    /** The handler up to its last call. */
    method BeginAndRunOs()
      requires Valid()
      modifies this`millisecCounter, this`due, ports`gpiocOdr, ports`portCLock, ports`trace
      modifies kernel`readySet, kernel`delayedSet, kernel`next, kernel`pendSv, kernel`irqMasked, kernel`enables, kernel.Blocks()`timeOut
      ensures Valid() && !kernel.irqMasked && kernel.enables == old(kernel.enables) + 1
      ensures millisecCounter == (old(millisecCounter) + 1) % 0x1_0000_0000_0000_0000
      ensures Pins(ports.gpiocOdr) == old(Pins(ports.gpiocOdr)) + {2}
      ensures ports.trace == old(ports.trace) + Section(old(Pins(ports.gpiocOdr)) + {2})
      ensures kernel.Abs() == O.Sched(O.Tick(old(kernel.Abs())))
    {
      Begin();
      RunOs();
    }

    /** A whole handler: one more millisecond, one more scheduler tick, a scheduling decision with
        interrupts masked, and around them a pulse of PC2 that leaves the other pins as they were. */
    method SysTickHandler()
      requires Valid()
      modifies this`millisecCounter, this`due, ports`gpiocOdr, ports`portCLock, ports`trace
      modifies kernel`readySet, kernel`delayedSet, kernel`next, kernel`pendSv, kernel`irqMasked, kernel`enables, kernel.Blocks()`timeOut
      ensures Valid() && !kernel.irqMasked && !ports.portCLock && kernel.enables == old(kernel.enables) + 1
      ensures millisecCounter == (old(millisecCounter) + 1) % 0x1_0000_0000_0000_0000
      ensures Pins(ports.gpiocOdr) == old(Pins(ports.gpiocOdr)) - {2}
      ensures Traced(old(ports.trace), ports.trace, old(Pins(ports.gpiocOdr)))
      ensures kernel.Abs() == O.Sched(O.Tick(old(kernel.Abs())))
    {
      ghost var before, pins := ports.trace, Pins(ports.gpiocOdr);
      BeginAndRunOs();
      End();
      Pulsed(before, ports.trace, pins);
    }
  }

  /** Since `before` there has been one section that raised PC2 and one that lowered it, and so one rising
      edge if PC2 was low among `pins`. */
  predicate Traced(before: seq<PortEvent>, after: seq<PortEvent>, pins: set<int>) {
    && after == before + [SetFlag, Store(pins + {2}), ClearFlag, SetFlag, Store(pins - {2}), ClearFlag]
    && Rises(2 in pins, after[|before|..]) == if 2 in pins then 0 else 1
  }

  lemma Pulsed(before: seq<PortEvent>, after: seq<PortEvent>, pins: set<int>)
    requires after == before + Section(pins + {2}) + Section(pins + {2} - {2})
    ensures Traced(before, after, pins)
  {
    OnePulse(pins);
    assert pins + {2} - {2} == pins - {2};
    assert after[|before|..] == Section(pins + {2}) + Section(pins - {2});
  }
}
