/**
 Mcu.c: the clock tree and SysTick set-up as ordered register writes against hardware that
 answers after arbitrary finite delays.  Register bits as in sections 6.3.1 to 6.3.3 of ST RM0390.

 RCC_CR, RCC_CFGR, RCC_APB1ENR and SCB_CPACR are read as the sets of their one bits: `|`, `&` and
 `~` are union, intersection and complement, and the constant masks become constant sets.
 */
module Mcu {
  import T = SysTick

  // RCC_CR
  const HSION := 0
  const HSEON := 16
  const HSERDY := 17
  const HSEBYP := 18
  const CSSON := 19
  const PLLON := 24
  const PLLRDY := 25
  // RCC_CFGR: SW is bits 0 and 1, SWS bits 2 and 3, HPRE 4 to 7, PPRE1 10 to 12, PPRE2 13 to 15
  const PRESCALERS: set<int> := {10, 12, 15}
  // RCC_APB1ENR
  const PWREN := 28

  const PLL_CONFIG := 0x740_5A08     // 8 | 360 << 6 | 0 << 16 | 1 << 22 | 7 << 24
  const FLASH_WAIT := 0x200 + 0x400 + 5

  /** The LATENCY field of FLASH_ACR: wait states of a flash read. */
  function Latency(flashAcr: int): int {
    flashAcr % 16
  }

  /** FLASH_ACR with instruction cache (bit 9) and data cache (bit 10) on, five wait states, and nothing else:
      prefetch (bit 8) stays off. */
  predicate FiveWaitsCached(flashAcr: int) {
    && Latency(flashAcr) == 5 && flashAcr / 16 % 16 == 0
    && flashAcr / 0x100 % 2 == 0 && flashAcr / 0x200 % 2 == 1 && flashAcr / 0x400 % 2 == 1 && flashAcr / 0x800 == 0
  }

  /** AHB undivided (HPRE), APB1 divided by four (PPRE1 = 101), APB2 by two (PPRE2 = 100). */
  predicate Prescaled(cfgr: set<int>) {
    cfgr * {7} == {} && cfgr * {10, 11, 12} == {10, 12} && cfgr * {13, 14, 15} == {15}
  }

  const BITS := set k | 0 <= k < 32

  /** The one bits of a 32-bit register. */
  type Word = s: set<int> | s <= BITS

  /** `~(1UL << bit)`. */
  function Without(bit: int): Word {
    BITS - {bit}
  }

  /** The mask meant to clear HSEON, HSEBYP, CSSON and PLLON joins its complements with `|`. */
  const CR_MASK: Word := Without(HSEON) + Without(HSEBYP) + Without(CSSON) + Without(PLLON)

  /** It keeps every bit of every register value. */
  lemma MaskClearsNothing(cr: Word)
    ensures cr * CR_MASK == cr
  {
    assert HSEON in Without(PLLON) && CR_MASK == BITS;
  }

  /** The same for the number in the source. */
  lemma MaskIsAllOnes(cr: bv32)
    ensures cr & (!(1 << 16) | !(1 << 18) | !(1 << 19) | !(1 << 24)) == cr
  {
  }

  /** Setting the prescaler bits gives the right fields exactly when no other bit of theirs was set. */
  lemma OnlyPrescalers(before: set<int>, after: set<int>)
    requires after == before + {10, 12, 15}
    ensures Prescaled(after) <==> before * {7, 11, 13, 14} == {}
  {
    if Prescaled(after) {
      assert 7 !in after * {7} && 11 !in after * {10, 11, 12} && 13 !in after * {13, 14, 15} && 14 !in after * {13, 14, 15};
    }
    if before * {7, 11, 13, 14} == {} {
      assert forall b :: b in {7, 11, 13, 14} ==> b !in before * {7, 11, 13, 14};
    }
  }

  datatype Register = Cr | Cfgr | PllCfgr | Cir | FlashAcr | Apb1Enr

  /** A write, with what the hardware state was when it happened. */
  datatype Write = Write(reg: Register, pllOn: bool, pllSeenReady: bool, selectsPll: bool, prescaled: bool, flashWaits: bool)

  /** RCC_PLLCFGR is written only while the PLL is off; the PLL is selected only after its ready bit
      was read as one, with the prescalers and five flash wait states set. */
  predicate Orderly(log: seq<Write>) {
    forall i :: 0 <= i < |log| ==> InOrder(log[i])
  }

  predicate InOrder(w: Write) {
    && (w.reg == PllCfgr ==> !w.pllOn)
    && (w.selectsPll ==> w.pllSeenReady && w.prescaled && w.flashWaits)
  }

  lemma OrderlyAppend(log: seq<Write>, w: Write)
    ensures Orderly(log + [w]) <==> Orderly(log) && InOrder(w)
  {
    if Orderly(log + [w]) {
      assert forall i :: 0 <= i < |log| ==> (log + [w])[i] == log[i];
      assert (log + [w])[|log|] == w;
    }
  }

  class Rcc {
    var cr: Word
    var cfgr: Word
    var apb1Enr: Word
    var cpacr: Word
    var pllCfgr: int
    var cir: int
    var flashAcr: int
    var pllSeenReady: bool      // the last poll read PLLRDY as one
    var hseDelay: nat           // polls until the hardware answers
    var pllDelay: nat
    var switchDelay: nat
    var log: seq<Write>

    /** Reset state, with any answering times. */
    constructor (hse: nat, pll: nat, switch: nat)
      ensures cr == {0, 1, 7} && cfgr == {} && apb1Enr == {} && cpacr == {} && pllCfgr == 0x2400_3010 && log == []
    {
      cr, cfgr, apb1Enr, cpacr := {0, 1, 7}, {}, {}, {};
      pllCfgr, cir, flashAcr := 0x2400_3010, 0, 0;
      pllSeenReady, hseDelay, pllDelay, switchDelay, log := false, hse, pll, switch, [];
    }

    /** Records a write to a register other than RCC_CFGR. */
    method Note(reg: Register)
      requires reg != Cfgr
      modifies this`log
      ensures Orderly(log) <==> old(Orderly(log)) && (reg == PllCfgr ==> PLLON !in cr)
      ensures |log| == |old(log)| + 1
    {
      var w := Write(reg, PLLON in cr, pllSeenReady, false, Prescaled(cfgr), Latency(flashAcr) == 5);
      OrderlyAppend(log, w);
      log := log + [w];
    }

    /** Records and does a write to RCC_CFGR. */
    method SetCfgr(value: Word)
      modifies this`log, this`cfgr
      ensures cfgr == value && |log| == |old(log)| + 1
      ensures Orderly(log) <==> old(Orderly(log)) && (value * {0, 1} == {1} && old(cfgr) * {0, 1} != {1} ==>
                                  pllSeenReady && Prescaled(old(cfgr)) && Latency(flashAcr) == 5)
    {
      var selectsPll := value * {0, 1} == {1} && cfgr * {0, 1} != {1};
      var w := Write(Cfgr, PLLON in cr, pllSeenReady, selectsPll, Prescaled(cfgr), Latency(flashAcr) == 5);
      OrderlyAppend(log, w);
      log := log + [w];
      cfgr := value;
    }

    /** The two writes to RCC_CR: HSION set, and the mask. */
    method ResetControl()
      modifies this`cr, this`log
      ensures cr == old(cr) + {0}
      ensures Orderly(log) <==> old(Orderly(log))
    {
      Note(Cr);
      cr := cr + {HSION};
      Note(Cr);
      MaskClearsNothing(cr);
      cr := cr * CR_MASK;
    }

    /** Full access to coprocessors 10 and 11. */
    method EnableCoprocessors()
      modifies this`cpacr
      ensures cpacr == old(cpacr) + {20, 21, 22, 23}
    {
      cpacr := cpacr + ({20, 21} + {22, 23});
    }

    /** Configuration, PLL factors, clock interrupts and flash. */
    method ResetConfiguration()
      modifies this`cfgr, this`pllCfgr, this`cir, this`flashAcr, this`log
      ensures cfgr == {} && pllCfgr == 0x2400_3010 && cir == 0 && FiveWaitsCached(flashAcr)
      ensures Orderly(log) <==> old(Orderly(log)) && PLLON !in cr
    {
      SetCfgr({});
      Note(PllCfgr);
      pllCfgr := 0x2400_3010;
      Note(Cir);
      cir := 0;
      Note(FlashAcr);
      flashAcr := FLASH_WAIT;
    }

    /** From any state: writes the reset values it means to write, but leaves every bit of RCC_CR other
        than HSION, so its own PLLCFGR write is safe exactly when the PLL was off. */
    method SystemInit()
      modifies this
      ensures cr == old(cr) + {0} && cfgr == {} && pllCfgr == 0x2400_3010 && cir == 0 && FiveWaitsCached(flashAcr)
      ensures cpacr == old(cpacr) + {20, 21, 22, 23}
      ensures apb1Enr == old(apb1Enr) && pllSeenReady == old(pllSeenReady)
      ensures Orderly(log) <==> old(Orderly(log)) && 24 !in old(cr)
    {
      EnableCoprocessors();
      ResetControl();
      ResetConfiguration();
    }

    /** One poll of RCC_CR: the oscillator or the PLL may have answered by now. */
    method PollCr() returns (value: set<int>)
      modifies this`cr, this`hseDelay, this`pllDelay, this`pllSeenReady
      ensures value == cr && (pllSeenReady <==> PLLRDY in value)
      ensures old(cr) <= cr <= old(cr) + {HSERDY, PLLRDY}
      ensures HSEON in cr && HSERDY !in cr ==> hseDelay < old(hseDelay)
      ensures PLLON in cr && PLLRDY !in cr ==> pllDelay < old(pllDelay)
    {
      if HSEON in cr && HSERDY !in cr {
        if hseDelay == 0 { cr := cr + {HSERDY}; } else { hseDelay := hseDelay - 1; }
      }
      if PLLON in cr && PLLRDY !in cr {
        if pllDelay == 0 { cr := cr + {PLLRDY}; } else { pllDelay := pllDelay - 1; }
      }
      pllSeenReady := PLLRDY in cr;
      value := cr;
    }

    /** One poll of RCC_CFGR: the status field follows a PLL selection after a while. */
    method PollCfgr() returns (value: set<int>)
      modifies this`cfgr, this`switchDelay
      ensures value == cfgr
      ensures cfgr == old(cfgr) || (old(cfgr) * {0, 1} == {1} && cfgr == old(cfgr) - {2, 3} + {3})
      ensures cfgr * {0, 1} == {1} && cfgr * {2, 3} != {3} ==> switchDelay < old(switchDelay)
    {
      if cfgr * {0, 1} == {1} && cfgr * {2, 3} != {3} {
        if switchDelay == 0 { cfgr := cfgr - {2, 3} + {3}; } else { switchDelay := switchDelay - 1; }
      }
      value := cfgr;
    }

    /** HSE on, wait for it; power interface clock on. */
    method StartHse()
      modifies this`cr, this`apb1Enr, this`hseDelay, this`pllDelay, this`pllSeenReady, this`log
      ensures old(cr) + {16, 17} <= cr <= old(cr) + {16, 17, 25} && apb1Enr == old(apb1Enr) + {28}
      ensures Orderly(log) <==> old(Orderly(log))
    {
      Note(Cr);
      cr := cr + {HSEON};
      var value := PollCr();
      while HSERDY !in value
        modifies this`cr, this`hseDelay, this`pllDelay, this`pllSeenReady
        invariant value == cr && old(cr) + {HSEON} <= cr <= old(cr) + {HSEON, HSERDY, PLLRDY}
        decreases if HSERDY in value then 0 else 1 + hseDelay
      {
        value := PollCr();
      }
      Note(Apb1Enr);
      apb1Enr := apb1Enr + {PWREN};
    }

    /** Prescalers and PLL factors, PLL on, wait for it. */
    method StartPll()
      modifies this`cr, this`cfgr, this`pllCfgr, this`hseDelay, this`pllDelay, this`pllSeenReady, this`log
      ensures old(cr) + {24, 25} <= cr <= old(cr) + {24, 25, 17} && cfgr == old(cfgr) + {10, 12, 15}
      ensures pllCfgr == PLL_CONFIG && pllSeenReady
      ensures Orderly(log) <==> old(Orderly(log)) && PLLON !in old(cr)
    {
      assert (cfgr + PRESCALERS) * {0, 1} == cfgr * {0, 1};
      SetCfgr(cfgr + PRESCALERS);
      Note(PllCfgr);
      pllCfgr := 8 + 360 * 64 + 0x40_0000 + 7 * 0x100_0000;
      Note(Cr);
      cr := cr + {PLLON};
      var value := PollCr();
      while PLLRDY !in value
        modifies this`cr, this`hseDelay, this`pllDelay, this`pllSeenReady
        invariant value == cr && old(cr) + {PLLON} <= cr <= old(cr) + {PLLON, PLLRDY, HSERDY} && (pllSeenReady <==> PLLRDY in value)
        decreases if PLLRDY in value then 0 else 1 + pllDelay
      {
        value := PollCr();
      }
    }

    /** System clock from the PLL, wait until it is. */
    method SwitchToPll()
      modifies this`cfgr, this`switchDelay, this`log
      ensures cfgr - {0, 1, 2, 3} == old(cfgr) - {0, 1, 2, 3} && cfgr * {0, 1} == {1} && cfgr * {2, 3} == {3}
      ensures Orderly(log) <==> old(Orderly(log)) && pllSeenReady && Prescaled(old(cfgr)) && Latency(flashAcr) == 5
    {
      SetCfgr(cfgr - {0, 1});
      SetCfgr(cfgr + {1});
      var value := PollCfgr();
      while value * {2, 3} != {3}
        modifies this`cfgr, this`switchDelay
        invariant value == cfgr && cfgr * {0, 1} == {1} && cfgr - {0, 1, 2, 3} == old(cfgr) - {0, 1, 2, 3}
        decreases if value * {2, 3} == {3} then 0 else 1 + switchDelay
      {
        value := PollCfgr();
      }
    }

    /** Whatever the hardware's answering times: on return the PLL drives the system clock, and every
        write was in order exactly when at entry the PLL was off, the flash had five wait states and no other
        prescaler bit was set. */
    method SetSysClock()
      modifies this
      ensures cr == old(cr) + {16, 17, 24, 25} && apb1Enr == old(apb1Enr) + {28}
      ensures cfgr - {0, 1, 2, 3} == old(cfgr) - {0, 1, 2, 3} + {10, 12, 15}
      ensures cpacr == old(cpacr) && cir == old(cir)
      ensures cfgr * {0, 1} == {1} && cfgr * {2, 3} == {3} && pllCfgr == PLL_CONFIG && flashAcr == old(flashAcr)
      ensures Orderly(log) <==> old(Orderly(log)) && 24 !in old(cr) && Latency(old(flashAcr)) == 5
                                && old(cfgr) * {7, 11, 13, 14} == {}
    {
      StartHse();
      StartPll();
      OnlyPrescalers(old(cfgr), cfgr);
      SwitchToPll();
    }
  }

  lemma InFields(w: set<int>)
    ensures w == (w - {0, 1, 2, 3}) + w * {0, 1} + w * {2, 3}
  {
  }

  /** main's first two calls, from reset: every register write is in order. */
  method ClockFromReset(hse: nat, pll: nat, switch: nat) returns (r: Rcc)
    ensures fresh(r) && Orderly(r.log)
    ensures r.cr == {0, 1, 7, 16, 17, 24, 25} && r.cfgr == {1, 3, 10, 12, 15} && Prescaled(r.cfgr)
    ensures r.apb1Enr == {28} && r.cpacr == {20, 21, 22, 23} && r.cir == 0
    ensures r.pllCfgr == PLL_CONFIG && FiveWaitsCached(r.flashAcr)
  {
    r := new Rcc(hse, pll, switch);
    r.SystemInit();
    r.SetSysClock();
    InFields(r.cfgr);
  }

  /** The factors written to RCC_PLLCFGR: M = 8, N = 360, P = 2, Q = 7, source HSE; 8 MHz become 180. */
  lemma PllFactors()
    ensures PLL_CONFIG % 64 == 8 && PLL_CONFIG / 64 % 512 == 360 && PLL_CONFIG / 0x1_0000 % 4 == 0
    ensures PLL_CONFIG / 0x40_0000 % 2 == 1 && PLL_CONFIG / 0x100_0000 % 16 == 7
    ensures 8_000_000 / (PLL_CONFIG % 64) * (PLL_CONFIG / 64 % 512) / 2 == 180_000_000
  {
  }

  // ----------------------------------------------------------------- SysTick

  /** STK_CTRL, STK_LOAD and STK_VAL; `loadedLate` records a write to STK_LOAD or STK_VAL while counting. */
  class Stk {
    var ctrl: bv32
    var load: int
    var val: int
    var loadedLate: bool

    constructor ()
      ensures !loadedLate
    {
      loadedLate := false;
    }

    method SetLoad(v: int)
      modifies this`load, this`loadedLate
      ensures load == v && loadedLate == (old(loadedLate) || ctrl & 1 == 1)
    {
      loadedLate := loadedLate || ctrl & 1 == 1;
      load := v;
    }

    /** Any write clears the counter. */
    method SetVal(v: int)
      modifies this`val, this`loadedLate
      ensures val == 0 && loadedLate == (old(loadedLate) || ctrl & 1 == 1)
    {
      loadedLate := loadedLate || ctrl & 1 == 1;
      val := 0;
    }

    /** Whatever the registers held: processor clock, interrupt and counter on, the counter at zero
        with reload 180000, and neither register touched while the counter ran. */
    method SysTickInit()
      modifies this
      ensures ctrl == 7 && load == 180_000 && val == T.START.val && loadedLate == old(loadedLate)
    {
      ctrl := 0;
      SetLoad(180_000);
      SetVal(0);
      ctrl := 4;
      ctrl := ctrl | 2;
      ctrl := ctrl | (1 << 0);
    }
  }
}
