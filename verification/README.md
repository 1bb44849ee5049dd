# CM4_LiteRTOS: a verified model

CM4_LiteRTOS is a small preemptive kernel for a Cortex-M4 with a demonstration program on top: a
blinking LED, a thread that toggles pin PC3, an idle thread that pulses PC10, and a SysTick handler
that pulses PC2.  This project models the kernel, the program, the timer hardware they rely on and
the start-up code, and proves what holds over every run.

| file | what it holds |
|---|---|
| `Bits.dfy` | 32-bit words as sets of priorities or pins; the laws of `\|=` and `&= ~`; the highest-set-bit macro |
| `OsSpec.dfy` | the scheduler on sets and maps, and its properties over every sequence of ticks, delay calls and switches |
| `Kernel.dfy` | the scheduler as written: control blocks behind pointers, bit masks, loops; each method computes the operation of `OsSpec` |
| `Context.dfy` | the stacks `OSThread_Start` builds, and `PendSV_Handler` moving one register file between them |
| `Gpio.dfy` | port operations and mode fields, and the flag `port_c_lock` |
| `PortRace.dfy` | port C under any interleaving of any number of contexts |
| `Deployment.dfy` | the shipped program as one machine: handler, PendSV, main and three threads over port C and the scheduler |
| `Timing.dfy` | every run of that machine as a run of the scheduler: delays and the distances of PC3 stores in ticks |
| `Exceptions.dfy` | the priority registers, the order in which SysTick and PendSV are taken, and what follows for the scheduler and the program |
| `LostUpdate.dfy` | runs of the program, from the first step of main, that go wrong |
| `SysTick.dfy` | the down-counter, its pending bit, and the software timers |
| `Gpt.dfy` | `SysTick_Handler` as one call over the real registers and scheduler data |
| `Mcu.dfy` | clock set-up and SysTick set-up as ordered register writes |
| `Startup.dfy` | from arbitrary memory to the state main starts in |

`Src/OS/Os.c` holds the scheduler, the delay call, the thread set-up and the context switch.  Its
line 229 is not valid UTF-8, so rows about it cite the declaration in `Src/OS/Os.h` and name the
lines of `Os.c` in the third column.

## Where the code does not do what its comments say

- `port_c_lock` is no lock.  `AcquirePortResource` drops the result of the test-and-set
  (`Gpio.c:20`), so nobody ever waits, and a handler inside a thread's section clears the flag on
  that thread's behalf (`LostUpdate.SectionLosesFlag`).  The flag stays set through a section exactly
  when no other context comes to its own clear inside it (`PortRace.FlagKeptIff`,
  `Deployment.SectionKeepsFlag`).  What makes most of port C right all the same is
  that a whole handler leaves the port as it found it, given PC2 was low
  (`PortRace.HandlerIsNeutral`, `Deployment.OtherPinsAtomic`).
- PC3 is not always at its last committed operation.  The idle thread updates PC10 in the same
  register and runs below the toggle thread, so a tick that wakes the toggle thread between the idle
  thread's load and its store loses a PC3 update (`LostUpdate.Pc3OffIsLost`).
  `Deployment.Pc3AtomicIff` says exactly when this does not happen.  It cannot happen if no SysTick falls
  between that load and that store (`Deployment.UndisturbedIsAtomic`), as with interrupts masked there, or
  without the idle thread (`Deployment.ToggleAloneIsAtomic`).
- `OS_Init` means to give PendSV the lowest priority.  The macro adds `0x20` to a pointer to 32-bit
  words (`Mcu.h:133`), so the write lands at 0xE000ED82 and PendSV keeps priority 0, the priority of
  SysTick (`Exceptions.SystemControl.StartUp`).  Of two pending exceptions with one priority the
  processor takes the lower number, which is PendSV (`IntVect.c:134`).  No run loses a switch exactly
  when PendSV's priority value is not above SysTick's (`Exceptions.NoSwitchIsLostIff`), so the misplaced
  write is what keeps the scheduler right: with the priorities the comment describes, a one-tick delay
  could leave the idle thread running beside a ready thread until the next tick
  (`OsSpec.LostSwitchHappens`, `OsSpec.NextTickRepairs`).
- `OS_msDelay(0)` does not return at once: the counter is decremented before it is compared with
  zero, so the thread sleeps for 2^32 ticks (`OsSpec.DelayIsExact`).
- The tick is not one millisecond: a reload value of 180000 gives a period of 180001 clocks, and a
  timer of n milliseconds expires at the tick n + 1 because the comparison is strict
  (`SysTick.NeverEarly`, `SysTick.OnTime`, `SysTick.EarliestIsReached`, `SysTick.Drift`).
- The mask at `Mcu.c:26`, meant to clear four bits of RCC_CR, is all ones
  (`Mcu.MaskClearsNothing`).  Clock set-up is orderly from reset and in general exactly when the PLL
  was off.
- `Mcu.c:37` announces flash prefetch.  The value written sets the bits of the two caches and leaves the
  prefetch bit clear (`Mcu.Rcc.SystemInit`).
- SysTick counts before `OS_Init` is called.  A tick whose scheduling step falls after `OS_Init` and before
  the last thread is ready switches away from main for good, and the threads not yet ready never run;
  otherwise they all do (`Deployment.ThreadsStartIff`, `LostUpdate.MainCanBeLost`).  The comment at
  `Mcu.c:111` notes this effect for a short reload value.

## Assumptions

- PC2 is low at reset (it is: the reset value of GPIOC_ODR is zero).
- SysTick and PendSV are the only exceptions.  SysTick may be taken between any two steps of a thread
  and then runs to its end.  A critical section between `Disable_Irq` and `Enable_Irq` is one step.
- The speed of threads is not modelled: any number of ticks may fall between two steps.  Results about
  every run hold at every speed; that a run exists does not say that the shipped timing reaches it.
- Only an interrupt ends the idle thread's wait.
- `main` makes its calls in the order of `App.c:60-87`; every priority is registered once and the idle
  thread first.
- Reading or writing the 64-bit millisecond counter is one step.
- The linker script places .bss after .data in RAM and the load image of .data elsewhere, and no
  constructor writes the statics of the kernel.
- Threads stay within their stacks, with room left for a full frame; stack pointers are multiples of
  eight and no thread uses the floating-point registers.

## Model

| member | source | states |
|---|---|---|
| `OsSpec.OnlyReadyThreadsRun` | Src/OS/Os.h:22-32 | Over every run of ticks, delay calls and switches in any order, the current thread is ready unless it is the idle thread or about to be switched out (Os.c:87-188, 303-349). |
| `OsSpec.NextOk` | Src/OS/Os.h:22-32 | Every event keeps ready and delayed threads disjoint, registered, with priorities 1 to 32 and 32-bit counters, and the current and pending threads registered (Os.c:87-188). |
| `OsSpec.SchedOnlyOnChange` | Src/OS/Os.h:22-23 | The thread picked is the highest ready one, or slot 0; if it runs already nothing at all changes, otherwise exactly `OS_Next` and the pending bit do (Os.c:87-109). |
| `OsSpec.SwitchesAreChanges` | Src/OS/Os.h:22-32 | Every run: a pending switch leads to another thread than the running one (Os.c:104-108). |
| `OsSpec.TickExactly` | Src/OS/Os.h:31-32 | Thread by thread: a delayed thread with one tick to go becomes ready, other delayed ones have one tick less modulo 2^32, and nobody else is touched (Os.c:166-188). |
| `OsSpec.DelayExactly` | Src/OS/Os.h:28-29 | Thread by thread: the caller moves from ready to delayed with its new counter, and the highest of the others, or slot 0, is asked for (Os.c:142-154). |
| `OsSpec.InNeitherSetForever` | Src/OS/Os.h:28-29 | Every run: a thread in neither set is never woken, so a tick between the two set writes of `OS_msDelay` would lose its caller (Os.c:148-149). |
| `OsSpec.StartExactly` | Src/OS/Os.h:37-38 | Slot by slot: one new control block, ready unless its priority is 0, and nothing else (Os.c:281-288). |
| `OsSpec.StepCorrect` | Src/OS/Os.h:22-23 | If the highest-priority ready thread is in charge, it still is after the event exactly when the event is not a tick that finds the current thread on top under an earlier pending switch (Os.c:87-109). |
| `OsSpec.LostSwitchCause` | Src/OS/Os.h:22-32 | Such a tick is exactly one in which the current thread's own delay expires before PendSV ran and nothing higher is ready (Os.c:104-108, 166-188). |
| `OsSpec.RunCorrect` | Src/OS/Os.h:22-26 | Over every run: the highest-priority ready thread is in charge at every moment if and only if no tick of the run loses a switch. |
| `OsSpec.EqualPrioritiesAreSafe` | Src/OS/Os.h:22-26 | Over every run in which SysTick is never taken while PendSV is pending, the highest-priority ready thread is always in charge; `Exceptions.dfy` derives that order from the priorities. |
| `OsSpec.RunStartsCorrect` | Src/OS/Os.h:25-26 | `OS_Run` asks for the highest-priority started thread from any set of started threads (Os.c:200-208). |
| `OsSpec.LostSwitchHappens` | Src/OS/Os.h:22-29 | A concrete run with SysTick before PendSV ends with the idle thread running, no switch pending and thread 1 ready. |
| `OsSpec.NextTickRepairs` | Src/Target/STM32F446re/Mcal/Gpt.c:49-53 | From any state without a pending switch one tick puts the highest-priority ready thread in charge again. |
| `OsSpec.StartOkIff` | Src/OS/Os.h:37-38 | Starting a thread keeps the scheduler well-formed exactly when the idle thread is registered and no sleeping thread has the priority (Os.c:281-288). |
| `Exceptions.SystemControl.OsInit` | Src/Target/STM32F446re/Mcal/Mcu.h:133 | The write of `OS_Init` sets the byte at 0xE000ED82, no other, and so the priority of no system exception (Os.c:71). |
| `Exceptions.SchedulerFields` | Src/Target/STM32F446re/Mcal/Mcu.c:143-149 | The priority bytes of PendSV and SysTick are those at 0xE000ED22 and 0xE000ED23. |
| `Exceptions.SystemControl.NvicSetPriority` | Src/Target/STM32F446re/Mcal/Mcu.c:138-156 | A system exception gets the priority modulo 16, in the top half of the byte at 0xE000ED14 plus its number, and no other field changes; a peripheral interrupt's goes to the byte at 0xE000ED04 plus its number. |
| `Exceptions.SystemControl.StartUp` | Src/OS/Os.h:34-35 | From any registers `OS_Init` and `OS_OnStartup` change the bytes at 0xE000ED82 and 0xE000ED23 only, the latter to 0: PendSV keeps its priority, and SysTick goes first exactly if that is above 0, which it is not at reset (Os.c:71, 219-223). |
| `Exceptions.NoSwitchIsLostIff` | Src/App/IntVect.c:134-135 | For any two priorities: all runs that obey them keep the highest-priority ready thread in charge if and only if PendSV's value is not above SysTick's. |
| `Exceptions.HighestRunsAt` | Src/App/IntVect.c:134-135 | Every run of the program that obeys such priorities: only the highest-priority ready thread takes steps, the idle thread only while none is ready. |
| `OsSpec.SleepsExactly` | Src/OS/Os.h:31-32 | Over every run a delayed thread stays delayed for exactly as many ticks as its counter says, 2^32 for zero, and is ready from then on (Os.c:166-188). |
| `OsSpec.DelayIsExact` | Src/OS/Os.h:28-29 | `OS_msDelay(n)`: over every run the caller is ready again exactly from the n-th tick on, for n = 0 from the 2^32-th (Os.c:142-154). |
| `OsSpec.TickOneMore` | Src/OS/Os.h:31-32 | One round of `OS_Tick`'s loop for a thread not yet visited extends the tick from a set of visited threads to that set and the thread, in any order (Os.c:170-187). |
| `Bits.Log2IsHighest` | Src/OS/Os.h:22-23 | `LOG2` of a non-zero mask is the highest priority in it (Os.c:36). |
| `Bits.MembersInsert` | Src/OS/Os.h:37-38 | `set \|= 1U << (Prio - 1U)` adds that priority and no other (Os.c:149, 181, 287). |
| `Bits.MembersRemove` | Src/OS/Os.h:31-32 | `set &= ~(1U << (Prio - 1U))` removes that priority and no other (Os.c:148, 182, 186). |
| `Bits.MembersEmpty` | Src/OS/Os.h:22-23 | A mask is zero exactly when its set is empty, as the guards of `OS_Sched` and `OS_Tick` take it (Os.c:93, 170). |
| `Kernel.TopBit` | Src/OS/Os.h:22-23 | The guarded `LOG2` yields 0 exactly for an empty mask and otherwise the highest priority (Os.c:93-101). |
| `Kernel.Kernel.Sched` | Src/OS/Os.h:22-23 | Called with interrupts disabled only, as its declaration demands: `OS_Sched` on pointers and masks computes `OsSpec.Sched`, of which `OsSpec.SchedOnlyOnChange` says what it changes (Os.c:87-109). |
| `Kernel.Kernel.CountDown` | Src/OS/Os.h:31-32 | One round of the loop: 32-bit decrement, and at zero the thread moves from delayed to ready (Os.c:177-183). |
| `Kernel.Kernel.Tick` | Src/OS/Os.h:31-32 | The loop of `OS_Tick` terminates and counts down every delayed thread exactly once, readying those that reach zero (Os.c:166-188). |
| `Kernel.Kernel.MsDelay` | Src/OS/Os.h:28-29 | `OS_msDelay` moves its caller from ready to delayed with the given counter and reschedules; every write needs disabled interrupts, and they are enabled once, at the end (Os.c:142-154). |
| `Kernel.Kernel.ThreadStart` | Src/OS/Os.h:37-38 | Registration at any priority, taken or not: the control block enters its slot, ready unless it is the idle thread, all other slots as before; the data stay valid exactly when the slot held neither the running nor the next thread, no sleeping thread has the priority and the idle thread is there (Os.c:281-288). |
| `Kernel.Kernel.Run` | Src/OS/Os.h:25-26 | `OS_Run` reschedules with interrupts disabled, and enables them once (Os.c:205-207). |
| `Kernel.Kernel.PendSvHandler` | Src/App/IntVect.c:134 | After PendSV the current thread is the one in `OS_Next`, which stays, nothing is pending, and interrupts were disabled for the change and enabled once (Os.c:308, 334-344). |
| `Context.InitStack` | Src/OS/Os.h:37-38 | For any storage address and size: the stack pointer is 64 below the rounded top, with the handler in the PC word, the Thumb bit in the xPSR word and the made-up values in the other fourteen; 0xFACEB00C below down to the rounded base; every other word unchanged (Os.c:245-278). |
| `Context.Prefill` | Src/OS/Os.h:37-38 | The pre-fill loop writes 0xFACEB00C to every word from the limit up to the frame and to no other (Os.c:275-278). |
| `Context.StaysInStorageIff` | Src/OS/Os.h:37-38 | All words `OSThread_Start` writes lie in the given storage exactly when the frame fits above its base, which 71 bytes guarantee (Os.c:245-278). |
| `Context.MainRepresents` | Src/App/App.c:57-70 | The processor with main alone on its stack stands for one thread with those registers: every run starts so. |
| `Context.StartKeeps` | Src/OS/Os.h:37-38 | `OSThread_Start` changes no word of the stack of main or of any thread started before (Os.c:245-278). |
| `Context.NextRepresents` | Src/App/IntVect.c:134 | Exception entry, `PendSV_Handler` and exception return on one processor are one change of the running thread among threads that each own a register file; `OSThread_Start` adds one that owns the first frame (Os.c:245-278, 303-349). |
| `Context.SwitchWrites` | Src/App/IntVect.c:134 | Word by word: a switch stores R4 to R11 and above them R0 to R3, R12, LR, PC, xPSR in the sixteen words below SP, only the upper eight when main is switched out, and writes nothing else (Os.c:308-323). |
| `Context.ResumesUnchanged` | Src/App/IntVect.c:134 | Over every run, a thread switched back in has the registers and stack pointer it was suspended with (Os.c:303-349). |
| `Context.StartedThreadRuns` | Src/OS/Os.h:37-38 | Over every run from the call of `OSThread_Start` on: when the thread is first switched in its PC is the handler, the Thumb bit is set, R0 to R3, R12, LR and R4 to R11 hold the values of the source, and its stack is empty (Os.c:245-269, 328-347). |
| `Gpio.LateStore` | Src/Target/STM32F446re/Mcal/Gpio.c:110-200 | A read-modify-write stores the serial value of the whole port exactly when the pins it does not own are at its store as at its load. |
| `Gpio.High` | Src/Target/STM32F446re/Mcal/Gpio.c:113 | `reg \|= 1UL << pin` raises that pin and no other. |
| `Gpio.Low` | Src/Target/STM32F446re/Mcal/Gpio.c:130 | `reg &= ~(1UL << pin)` lowers that pin and no other. |
| `Gpio.PinWeights` | Src/Target/STM32F446re/Mcal/Gpio.c:82-198 | PC2, PC3, PA5 and PC10 are the bits of weight 4, 8, 0x20 and 0x400. |
| `Gpio.Output` | Src/Target/STM32F446re/Mcal/Gpio.c:41-51 | Clearing a two-bit mode field and setting its low bit makes the field 01 and changes no other bit, for each of the sixteen pins. |
| `Gpio.OutputsCommute` | Src/Target/STM32F446re/Mcal/Gpio.c:41-51 | The updates for PC3, PC2 and PC10 give one register value in all six orders, from every value. |
| `Gpio.InitTwice` | Src/Target/STM32F446re/Mcal/Gpio.c:32-52 | Two calls of `GPIO_Init` leave what one call promises, every bit of every register as after the first. |
| `Gpio.Ports.Init` | Src/Target/STM32F446re/Mcal/Gpio.c:32-52 | From any registers: both clocks on before the first write to a mode register, the mode fields of PA5, PC2, PC3 and PC10 equal 01, every other bit as before. |
| `Gpio.Ports.LedOn` | Src/Target/STM32F446re/Mcal/Gpio.c:79-83 | Raises PA5 and touches no other pin and neither port C nor the flag. |
| `Gpio.Ports.LedOff` | Src/Target/STM32F446re/Mcal/Gpio.c:94-98 | The same for PA5 low. |
| `Gpio.Ports.AcquirePortResource` | Src/Target/STM32F446re/Mcal/Gpio.c:20 | Leaves the flag set, from either value of it, and returns. |
| `Gpio.Ports.Pc3On` | Src/Target/STM32F446re/Mcal/Gpio.c:110-115 | Undisturbed, raises PC3 and keeps every other pin, with one store between setting and clearing the flag. |
| `Gpio.Ports.Pc3Off` | Src/Target/STM32F446re/Mcal/Gpio.c:127-132 | Undisturbed, lowers PC3 and keeps every other pin, with one store between setting and clearing the flag. |
| `Gpio.Ports.Pc2On` | Src/Target/STM32F446re/Mcal/Gpio.c:161-166 | Undisturbed, raises PC2 and keeps every other pin, with one store between setting and clearing the flag. |
| `Gpio.Ports.Pc2Off` | Src/Target/STM32F446re/Mcal/Gpio.c:144-149 | Undisturbed, lowers PC2 and keeps every other pin, with one store between setting and clearing the flag. |
| `Gpio.Ports.Pc10On` | Src/Target/STM32F446re/Mcal/Gpio.c:178-183 | Undisturbed, raises PC10 and keeps every other pin, with one store between setting and clearing the flag. |
| `Gpio.Ports.Pc10Off` | Src/Target/STM32F446re/Mcal/Gpio.c:195-200 | Undisturbed, lowers PC10 and keeps every other pin, with one store between setting and clearing the flag. |
| `Gpio.OnePulse` | Src/Target/STM32F446re/Mcal/Gpt.c:45-55 | Raising and then lowering PC2 is one rising edge, and none if it was high already. |
| `PortRace.StoreIsAtomic` | Src/Target/STM32F446re/Mcal/Gpio.c:110-200 | Any number of contexts: a step keeps the port equal to the serial execution of the commits exactly when it is no store or its foreign pins are as at its load. |
| `PortRace.Refinement` | Src/Target/STM32F446re/Mcal/Gpio.c:110-200 | Every run of any number of contexts equals the atomic machine at every moment if and only if every load-store window is net-neutral on the pins its owner does not own. |
| `PortRace.HandlerIsNeutral` | Src/Target/STM32F446re/Mcal/Gpt.c:45-55 | A whole handler gives the port back as it found it exactly when PC2 was low. |
| `PortRace.FlagMeansInside` | Src/Target/STM32F446re/Mcal/Gpio.c:19-20 | Every run: the flag is set only while some context is between its test-and-set and its clear. |
| `PortRace.FlagKeptIff` | Src/Target/STM32F446re/Mcal/Gpio.c:19-20 | Every run through a section of any context entered with the flag set: the flag stays set at every moment if and only if no other context comes to its clear. |
| `PortRace.FlagIsNoLock` | Src/Target/STM32F446re/Mcal/Gpio.c:19-20 | A run ends with a context inside its section and the flag clear: a set flag is not implied by a context inside. |
| `PortRace.NeverBlocks` | Src/Target/STM32F446re/Mcal/Gpio.c:19-20 | Every run, any flag value, any interference: each own step brings a context one nearer the end of its operation, nothing else moves it, and it can always step. |
| `PortRace.Uninterrupted` | Src/Target/STM32F446re/Mcal/Gpio.c:110-200 | Five own steps in a row do what the undisturbed call is proved to do. |
| `Deployment.RunInv` | Src/App/App.c:29-88 | Every run of the program keeps the invariant that ties port, handler stage, every thread's saved registers and the scheduler together. |
| `Deployment.RaceOfRun` | Src/Target/STM32F446re/Mcal/Gpio.c:110-200 | Every run of the program is, seen from port C, a run of three contexts in the general machine. |
| `Deployment.FlagInProgram` | Src/Target/STM32F446re/Mcal/Gpio.c:11-20 | Every run: `port_c_lock` is set only while the handler or a thread is inside an operation, so it is clear when all are outside. |
| `Deployment.SectionKeepsFlag` | Src/Target/STM32F446re/Mcal/Gpio.c:110-200 | Every run of the program through a section: for the toggle thread the flag stays set exactly when no handler clears it, for the idle thread when neither handler nor toggle thread does, and for the handler always. |
| `Deployment.HighestRuns` | Src/OS/Os.h:22-26 | Every run of the program in which a pending PendSV goes before SysTick: only the highest-priority ready thread takes steps, and the idle thread only while none is ready (Os.c:87-109). |
| `Deployment.SwitchesAreChanges` | Src/OS/Os.h:22-23 | Every run of the program: PendSV is asked only for a thread that is not running (Os.c:104-108). |
| `Deployment.Pc2TracesTicks` | Src/Target/STM32F446re/Mcal/Gpt.c:43-56 | Every run: PC2 is high exactly between the handler's two stores, low in every thread step, and has risen once per increment plus once between the first store and the increment. |
| `Deployment.OtherPinsAtomic` | Src/Target/STM32F446re/Mcal/Gpio.c:110-200 | Every run: every pin but PC3 is what the committed operations make it, in the order of their stores. |
| `Deployment.UnusedPinsKeepBoot` | Src/Target/STM32F446re/Mcal/Gpio.c:110-200 | Every run: every pin but PC2, PC3 and PC10 keeps its level of reset. |
| `Deployment.Pc3AtomicIff` | Src/App/App.c:41-50 | Every run: the whole port is atomic at every moment if and only if the idle thread never stores a word whose PC3 level the toggle thread has changed since its load. |
| `Deployment.StaleIsOdd` | Src/OS/Os.h:19-20 | With PC3 low at reset that condition is an odd number of PC3 stores between the idle thread's load and its store (Os.c:122-130). |
| `Deployment.UndisturbedIsAtomic` | Src/OS/Os.h:19-20 | Every run in which no SysTick is taken between the idle thread's load and its store: the whole port is atomic at every moment (Os.c:122-130). |
| `Deployment.ToggleAloneIsAtomic` | Src/App/App.c:41-50 | Every run in which the idle thread takes no step: the port is atomic at every moment, PC3 is the toggle thread's last stored operation, PC2 is low outside the handler, and every other bit keeps its level of reset. |
| `Deployment.ToggleStoreRepairs` | Src/Target/STM32F446re/Mcal/Gpio.c:110-132 | Every run: a PC3 store makes the whole port atomic again, whatever happened before. |
| `Deployment.Pc3ChangesOnlyAt` | Src/App/App.c:41-50 | Every run without a stale store of the idle thread: the level of PC3 changes only at stores of the thread with priority 2. |
| `Deployment.Pc3StoresAlternate` | Src/App/App.c:43-49 | Every run: the committed PC3 operations are on, off, on, off from the first. |
| `Deployment.ThreadsStartIff` | Src/App/App.c:70-87 | Every run that has come to its first switch: both threads are ready or delayed if and only if no tick's scheduling step fell between `OS_Init` and the end of the last `OSThread_Start`. |
| `Deployment.StartOrder` | Src/App/App.c:70-84 | Every run: idle thread, then priority 3, then priority 2 are entered, each made ready before the next is entered. |
| `Deployment.ThreadsAtFirstSwitch` | Src/App/App.c:70-87 | Every run: the threads that are ever ready or delayed after the first switch are those main had made ready by then. |
| `Timing.SchedulerOfRun` | Src/OS/Os.h:22-32 | Every run of the program after main is, seen from the scheduler, a run of `OsSpec.dfy` with as many ticks, in which threads that take no step make no call (Os.c:87-188). |
| `Timing.DelayInProgram` | Src/OS/Os.h:28-29 | Every run of the program: a thread that called `OS_msDelay(n)` is ready again exactly from the n-th tick after the call on (Os.c:142-188). |
| `Timing.StoresAreSpaced` | Src/App/App.c:41-50 | Every run of the program: at least 20 ticks between a PC3 On store and the next Off store, and at least 40 from Off to On. |
| `LostUpdate.HandlerRun` | Src/Target/STM32F446re/Mcal/Gpt.c:43-56 | Step by step the handler does what `Gpt.Gpt.SysTickHandler` is proved to do in one call: port and threads' registers as before, one tick more, scheduler ticked then rescheduled. |
| `LostUpdate.SectionLosesFlag` | Src/Target/STM32F446re/Mcal/Gpio.c:19-20 | A run from the first step of main: a handler inside a section of the toggle thread leaves it there with the flag clear. |
| `LostUpdate.Pc3OffIsLost` | Src/OS/Os.h:19-20 | A run from the first step of main: the idle thread pulses PC10 once per tick and waits for each; the 20th tick falls between its load and its store, the toggle thread stores off there, and PC3 ends high (Os.c:122-130, Gpio.c:127-132). |
| `LostUpdate.MainCanBeLost` | Src/Target/STM32F446re/Mcal/Mcu.c:110-124 | A run in which a tick right after `OS_Init` hands over to the idle thread, and in every continuation it stays the only thread. |
| `SysTick.TicksAreConserved` | Src/Target/STM32F446re/Mcal/Mcu.c:104-125 | Every run: wraps = clocks / 180001, and wraps = increments + ticks pending or in the handler + ticks lost. |
| `SysTick.LostIff` | Src/Target/STM32F446re/Mcal/Mcu.c:175-189 | Every run: no tick is lost if and only if no wrap finds the exception still pending, whatever masking and delays. |
| `SysTick.FreshTimer` | Src/Target/STM32F446re/Mcal/Gpt.h:23-40 | A timer just started is unexpired exactly when its deadline does not overflow 64 bits. |
| `SysTick.ExpiredIff` | Src/Target/STM32F446re/Mcal/Gpt.h:37-40 | Short of overflow the timer reads expired exactly from n + 1 ticks after the start. |
| `SysTick.NeverEarly` | Src/Target/STM32F446re/Mcal/Gpt.h:23-40 | Every run, any masking and delivery delay: at least (n - p) * 180001 + 1 clocks from start to expiry, where p counts ticks raised and not yet counted at the start. |
| `SysTick.EarliestIsReached` | Src/Target/STM32F446re/Mcal/Gpt.h:23-40 | For every n a run expires after exactly n * 180001 + 1 clocks with p = 0: the bound is tight. |
| `SysTick.OnTime` | Src/Target/STM32F446re/Mcal/Gpt.h:23-40 | If every tick is counted within L clocks of its wrap, L below 180001, the timer reads expired from (n + 1) * 180001 + L clocks on, until the counter wraps. |
| `SysTick.Drift` | Src/Target/STM32F446re/Mcal/Mcu.c:110 | n / 180000 is exactly n / 180001 plus (n / 180001 + n % 180001) / 180000, a lag of at most n / (180000 * 180001) + 1. |
| `SysTick.DriftOfRun` | Src/Target/STM32F446re/Mcal/Gpt.c:47 | Every run after `SysTick_Init`: clocks / 180000 exceeds the millisecond counter by exactly that lag, the ticks not yet counted and the ticks lost. |
| `Gpt.Gpt.TimerStart` | Src/Target/STM32F446re/Mcal/Gpt.h:23-26 | The deadline is a 64-bit value that reads expired at once exactly when the sum overflows. |
| `Gpt.Gpt.SysTickHandler` | Src/Target/STM32F446re/Mcal/Gpt.c:43-56 | A whole handler: one section that raises PC2 and one that lowers it and so one rising edge, and between them first the counter up by one modulo 2^64 and then scheduler tick and rescheduling with interrupts disabled; they are enabled once. |
| `Mcu.MaskClearsNothing` | Src/Target/STM32F446re/Mcal/Mcu.c:26 | Union of the four complements keeps every bit of RCC_CR. |
| `Mcu.MaskIsAllOnes` | Src/Target/STM32F446re/Mcal/Mcu.c:26 | The same for the number in the source and every register value. |
| `Mcu.Rcc.ResetControl` | Src/Target/STM32F446re/Mcal/Mcu.c:23-26 | Both writes to RCC_CR together set HSION and change nothing else. |
| `Mcu.Rcc.SystemInit` | Src/Target/STM32F446re/Mcal/Mcu.c:17-39 | From any state: coprocessor access on, the reset values it writes, five flash wait states with both caches and without prefetch, RCC_CR as before but for bit 0, and orderly writes exactly when the PLL was off. |
| `Mcu.Rcc.SetSysClock` | Src/Target/STM32F446re/Mcal/Mcu.c:49-93 | For all finite answering times it returns with the PLL driving the system clock and exactly the bits of the source set; every write was in order exactly when at entry the PLL was off, the flash had five wait states and no other prescaler bit was set. |
| `Mcu.OnlyPrescalers` | Src/Target/STM32F446re/Mcal/Mcu.c:63-66 | Setting the bits of the source gives AHB undivided, APB1 by four and APB2 by two exactly when bits 7, 11, 13 and 14 were clear. |
| `Mcu.Rcc.PollCr` | Src/Target/STM32F446re/Mcal/Mcu.c:55-58 | One poll of the ready bits: they only ever rise, and only after an answering time that shrinks with each poll. |
| `Mcu.ClockFromReset` | Src/App/App.c:60-61 | From reset every write of both calls is in order, whatever the answering times, and every register ends with exactly the bits of the source: prescalers 1, 4 and 2, five wait states, PLL as system clock. |
| `Mcu.PllFactors` | Src/Target/STM32F446re/Mcal/Mcu.c:68-74 | The value written to RCC_PLLCFGR has the fields M = 8, N = 360, P = 2, Q = 7 and the HSE source; 8 MHz become 180 MHz. |
| `Mcu.Stk.SysTickInit` | Src/Target/STM32F446re/Mcal/Mcu.c:104-125 | From any registers: counting with interrupt on the processor clock, counter zero, reload 180000, and neither written while counting; the timer machine's start. |
| `Startup.InitRam` | Src/App/SysStartup.c:71-89 | From arbitrary memory, for all section sizes: .data equals its image byte for byte, .bss is zero, every other byte unchanged. |
| `Startup.CopyData` | Src/App/SysStartup.c:75-80 | The first loop copies the image and changes nothing else. |
| `Startup.ClearBss` | Src/App/SysStartup.c:82-88 | The second loop clears .bss and disturbs nothing else. |
| `Startup.InitialisedOnce` | Src/App/SysStartup.c:71-89 | The memory after is determined by the memory before, and a second call changes nothing. |
| `Startup.ZeroAfterInit` | Src/App/SysStartup.c:71-89 | A variable in .bss, or in .data with a zero image, is zero in every byte afterwards and reads as zero. |
| `Startup.BootReachesInitialState` | Src/App/SysStartup.c:35-50 | From arbitrary memory and any placement of the statics, after any constructors that write none of them, main finds the initial state of the machine in `Deployment.dfy`: flag clear, counter zero, no thread. |
| `Startup.MyStartup` | Src/App/SysStartup.c:35-50 | From arbitrary memory main finds what the constructors, in table order, made of the initialised RAM; if they write none of the statics, that is the initial state of the machine in `Deployment.dfy`. |
| `Startup.LastCall` | Src/App/SysStartup.c:104-107 | Each constructor works on the memory the ones before it left. |
| `Startup.InitCtors` | Src/App/SysStartup.c:102-108 | Calls every table entry once in address order, each on the memory the one before it left, and ends. |
| `Startup.GuardStopsIff` | Src/App/SysStartup.c:104 | The guard `!=` ever stops exactly when the table is a whole number of pointers, even if addresses wrap. |

## Left out

- Real mutual exclusion by `port_c_lock`: the code does not provide it; the model shows what holds instead.
- `Kernel.Kernel.MsDelay`: the idle thread as caller, for which the source shifts by a negative amount.
- `Kernel.Kernel.ThreadStart`: registering one control block under two priorities.  Ticks between its
  writes are part of `Deployment.dfy`.
- `Kernel.Kernel.PendSvHandler`: the pending bit is cleared here and not by exception entry; the two
  differ only for exceptions that preempt PendSV, which equal priorities rule out.
- `Context.InitStack`: needs room for sixteen words below the rounded top; with less the source writes below its storage.
- `Context.NextRepresents`: starting one thread twice, stack alignment padding, floating-point frames and EXC_RETURN; every frame has eight plus eight words.
- `Gpt.Gpt.SysTickHandler`: runs here without being preempted; PendSV does not preempt SysTick.
- `LostUpdate.Pc3OffIsLost`: the run exists for some speed of the threads.  Threads much faster than the tick
  would have finished the store long before the next tick came.
- `Exceptions.SystemControl.NvicSetPriority`: what the bytes from ICSR on do when a peripheral interrupt's
  priority is written there.
- `Mcu.Rcc.SetSysClock`: three private parts follow one another; the `nop` and the bus access times are not modelled.
- `Startup.InitCtors`: a constructor is a function from memory to memory of the same size; one that never returns is not modelled.
- `SysTick.NeverEarly` and `SysTick.OnTime`: up to the 64-bit overflow only, and the read of the counter is one step.
- Torn reads of the 64-bit counter: they depend on the compiler's instructions.
- Led_Blinky and the shared LED: one thread alone writes port A, so there is no race.
- Voltage scaling, over-drive and crystal frequency: no code path depends on them.
- The remaining vector table, register address macros, build scripts and the rest of stdatomic.h.
