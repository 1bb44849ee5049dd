/**
 Exception priorities: the registers OS_Init and OS_OnStartup write, and the order in which the
 processor takes SysTick and PendSV when both are pending (sections B1.5 and B3.2 of the ARMv7-M
 Architecture Reference Manual).
 */
module Exceptions {
  import O = OsSpec
  import D = Deployment
  import G = Gpio

  const PENDSV := 14                    // exception numbers
  const SYSTICK := 15
  const CPUID_BASE := 0xE000_ED00
  const ICSR_BASE := 0xE000_ED04        // NVIC_IPR_BASE is an alias of it
  const SHPR1 := 0xE000_ED18

  // ------------------------------------------------------------ registers

  /** The byte that holds the priority of system exception `n`. */
  function PriorityByte(n: int): int
    requires 4 <= n <= 15
  {
    SHPR1 + n - 4
  }

  /** Four of its bits are implemented. */
  function Level(value: bv8): int {
    (value >> 4) as int
  }

  /** The fields of the two exceptions, in the top half of SHPR3. */
  lemma SchedulerFields()
    ensures PriorityByte(PENDSV) == 0xE000_ED22 && PriorityByte(SYSTICK) == 0xE000_ED23
  {
  }

  lemma LevelOf(priority: int)
    requires 0 <= priority < 16
    ensures Level((priority as bv8) << 4) == priority
  {
  }

  /** The registers this module looks at. */
  predicate InSpace(a: int) {
    CPUID_BASE <= a < CPUID_BASE + 0x100
  }

  /** The byte-addressed registers of the system control space. */
  class SystemControl {
    var bytes: map<int, bv8>

    ghost predicate Valid()
      reads this
    {
      forall a :: InSpace(a) ==> a in bytes
    }

    ghost function Priority(n: int): int
      requires Valid() && 4 <= n <= 15
      reads this
    {
      Level(bytes[PriorityByte(n)])
    }

    /** Reset state. */
    constructor ()
      ensures Valid() && Priority(PENDSV) == 0 && Priority(SYSTICK) == 0
    {
      bytes := map a | CPUID_BASE <= a < CPUID_BASE + 0x100 && InSpace(a) :: 0;
    }

    /** `*((volatile uint32_t *)base + words) |= mask << 16`: pointer arithmetic counts words. */
    method OrThirdByte(base: int, words: int, mask: bv8)
      requires base + 4 * words + 2 in bytes
      modifies this
      ensures bytes == old(bytes)[base + 4 * words + 2 := old(bytes)[base + 4 * words + 2] | mask]
    {
      var address := base + 4 * words;
      bytes := bytes[address + 2 := bytes[address + 2] | mask];
    }

    /** The register write of OS_Init.  It lands at 0xE000ED82, beyond every priority field. */
    method OsInit()
      requires Valid()
      modifies this
      ensures Valid() && bytes == old(bytes)[0xE000_ED82 := 0xFF]
      ensures forall n :: 4 <= n <= 15 ==> Priority(n) == old(Priority(n))
    {
      OrThirdByte(CPUID_BASE, 0x20, 0xFF);
    }

    /** NVIC_SetPriority.  A system exception gets the priority and no other field changes; a peripheral
        interrupt's priority goes to the bytes from ICSR on. */
    method NvicSetPriority(irqn: int, priority: int)
      requires Valid() && -12 <= irqn && 0 <= priority
      modifies this
      ensures Valid()
      ensures irqn < 0 ==> forall n :: 4 <= n <= 15 ==> Priority(n) == if n == 16 + irqn then priority % 16 else old(Priority(n))
      ensures irqn < 0 ==> bytes == old(bytes)[0xE000_ED14 + 16 + irqn := ((priority % 16) as bv8) << 4]
      ensures irqn >= 0 ==> bytes == old(bytes)[0xE000_ED04 + irqn := ((priority % 16) as bv8) << 4]
    {
      var value := ((priority % 16) as bv8) << 4;
      LevelOf(priority % 16);
      if irqn < 0 {
        bytes := bytes[SHPR1 + irqn % 16 - 4 := value];
      } else {
        bytes := bytes[ICSR_BASE + irqn := value];
      }
    }

    /** OS_Init and the call in OS_OnStartup: PendSV keeps its reset priority, SysTick gets the same. */
    method StartUp()
      requires Valid()
      modifies this
      ensures Valid() && bytes == old(bytes)[0xE000_ED82 := 0xFF][0xE000_ED23 := 0]
      ensures Priority(PENDSV) == old(Priority(PENDSV)) && Priority(SYSTICK) == 0
      ensures SysTickFirst(Levels(Priority(PENDSV), Priority(SYSTICK))) <==> old(Priority(PENDSV)) > 0
    {
      OsInit();
      NvicSetPriority(-1, 0);
    }
  }

  // ---------------------------------------------------------- arbitration

  datatype Levels = Levels(pendSv: int, sysTick: int)

  /** Of two pending exceptions the lower priority value goes first, then the lower number. */
  predicate TakenBefore(a: int, levelA: int, b: int, levelB: int) {
    levelA < levelB || (levelA == levelB && a < b)
  }

  predicate SysTickFirst(l: Levels) {
    TakenBefore(SYSTICK, l.sysTick, PENDSV, l.pendSv)
  }

  /** In the run, SysTick is taken while PendSV is pending only if it goes first. */
  ghost predicate Obeys(l: Levels, s: O.Os, es: seq<O.Event>)
    requires O.Runs(s, es)
    decreases |es|
  {
    es != [] ==> (es[0].Handler? && s.pend ==> SysTickFirst(l)) && Obeys(l, O.Next(s, es[0]), es[1..])
  }

  lemma {:induction false} ObeysIff(l: Levels, s: O.Os, es: seq<O.Event>)
    requires O.Runs(s, es)
    ensures Obeys(l, s, es) <==> SysTickFirst(l) || O.PendSvFirst(s, es)
    decreases |es|
  {
    if es != [] {
      ObeysIff(l, O.Next(s, es[0]), es[1..]);
    }
  }

  ghost predicate RunOf(l: Levels, s: O.Os, es: seq<O.Event>) {
    O.Ok(s) && O.IDLE in s.timeOut && O.Correct(s) && O.Runs(s, es) && Obeys(l, s, es)
  }

  /** No run that obeys the priorities ever loses a switch exactly when PendSV's priority value is not
      above SysTick's. */
  lemma NoSwitchIsLostIff(l: Levels)
    ensures (forall s, es :: RunOf(l, s, es) ==> O.AlwaysCorrect(s, es)) <==> l.pendSv <= l.sysTick
  {
    if l.pendSv <= l.sysTick {
      forall s, es | RunOf(l, s, es) ensures O.AlwaysCorrect(s, es) {
        ObeysIff(l, s, es);
        O.EqualPrioritiesAreSafe(s, es);
      }
    } else {
      var s, es := O.LostSwitchHappens();
      ObeysIff(l, s, es);
      assert RunOf(l, s, es);
      if O.AlwaysCorrect(s, es) {
        O.EndsCorrect(s, es);
      }
    }
  }

  // ---------------------------------------------------------- the program

  ghost predicate ProgramObeys(l: Levels, s: D.Sys, acts: seq<D.Action>)
    requires |s.race.ctx| == 3 && D.Runs(s, acts)
    decreases |acts|
  {
    acts != [] ==>
      && (acts[0] == D.Enter && s.os.pend ==> SysTickFirst(l))
      && ProgramObeys(l, D.Next(s, acts[0]), acts[1..])
  }

  lemma {:induction false} ProgramObeysIff(l: Levels, s: D.Sys, acts: seq<D.Action>)
    requires |s.race.ctx| == 3 && D.Runs(s, acts)
    ensures ProgramObeys(l, s, acts) <==> SysTickFirst(l) || D.PendSvFirst(s, acts)
    decreases |acts|
  {
    if acts != [] {
      ProgramObeysIff(l, D.Next(s, acts[0]), acts[1..]);
    }
  }

  /** Every run of the program at the priorities the start-up code leaves, or any others with PendSV's
      value not above SysTick's: only the highest-priority ready thread takes steps. */
  lemma HighestRunsAt(l: Levels, boot: set<int>, acts: seq<D.Action>)
    requires G.PC2 !in boot && D.Runs(D.Boot(boot), acts) && ProgramObeys(l, D.Boot(boot), acts)
    requires l.pendSv <= l.sysTick
    ensures D.OnlyHighestSteps(D.Exec(D.Boot(boot), acts))
  {
    ProgramObeysIff(l, D.Boot(boot), acts);
    D.HighestRuns(boot, acts);
  }
}
