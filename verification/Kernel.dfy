/**
 The scheduler of Os.c as it is written: thread control blocks reached through
 pointers, ready and delayed threads in 32-bit masks.  Every method is proved to
 compute the operation of the same name in module OsSpec.
 */
module Kernel {
  import opened Bits
  import O = OsSpec

  // The three uses the scheduler makes of a mask, each stated on the set it stands for.

  /** `word |= (1U << (prio - 1U))`. */
  function SetBit(word: bv32, prio: int): (r: bv32)
    requires 1 <= prio <= 32
    ensures Members(r) == Members(word) + {prio}
  {
    MembersInsert(word, prio);
    word | Mask(prio)
  }

  /** `word &= ~(1U << (prio - 1U))`. */
  function ClearBit(word: bv32, prio: int): (r: bv32)
    requires 1 <= prio <= 32
    ensures Members(r) == Members(word) - {prio}
  {
    MembersRemove(word, prio);
    word & !Mask(prio)
  }

  /** `word != 0U ? LOG2(word) : 0U`. */
  function TopBit(word: bv32): (prio: int)
    ensures prio == 0 <==> Members(word) == {}
    ensures prio != 0 ==> O.IsHighest(Members(word), prio)
  {
    MembersEmpty(word);
    if word == 0 then 0 else Log2IsHighest(word); Log2(word)
  }

  /** OSThread, without its saved stack pointer (module Context has that part). */
  class Tcb {
    var prio: int
    var timeOut: int

    constructor ()
      ensures prio == 0 && timeOut == 0
    {
      prio, timeOut := 0, 0;
    }
  }

  /** The global variables of Os.c. */
  class Kernel {
    var curr: Tcb?
    var next: Tcb?
    const threads: array<Tcb?>
    var readySet: bv32
    var delayedSet: bv32
    var pendSv: bool        // bit 28 of ICSR
    var irqMasked: bool     // PRIMASK
    ghost var enables: nat  // how often interrupts were enabled

    ghost function Blocks(): set<Tcb>
      reads threads
    {
      set i | 0 <= i < threads.Length && threads[i] != null :: threads[i]
    }

    /** Every registered control block sits in the slot of its own priority. */
    ghost predicate Shape()
      reads this, threads, Blocks(), curr, next
    {
      && threads.Length == 33
      && (forall p :: 0 <= p < 33 && threads[p] != null ==> threads[p].prio == p)
      && (curr != null ==> 0 <= curr.prio < 33 && threads[curr.prio] == curr)
      && (next != null ==> 0 <= next.prio < 33 && threads[next.prio] == next)
      && (pendSv ==> next != null)
    }

    ghost function Slot(t: Tcb?): int
      reads t
    {
      if t == null then O.NOBODY else t.prio
    }

    /** The scheduler state that the pointers and masks stand for. */
    ghost function Abs(): O.Os
      requires threads.Length == 33
      reads this, threads, Blocks(), curr, next
    {
      O.Os(Members(readySet), Members(delayedSet), TimeOuts(), Slot(curr), Slot(next), pendSv)
    }

    ghost function TimeOuts(): map<int, int>
      requires threads.Length == 33
      reads threads, Blocks()
    {
      map p | 0 <= p < 33 && threads[p] != null :: threads[p].timeOut
    }

    ghost predicate Valid()
      reads this, threads, Blocks(), curr, next
    {
      Shape() && O.Ok(Abs())
    }

    /** The zeroed statics the startup code leaves. */
    constructor ()
      ensures Valid() && Abs() == O.BOOT && fresh(threads)
    {
      curr, next := null, null;
      readySet, delayedSet, pendSv, irqMasked := 0, 0, false, false;
      threads := new Tcb?[33](_ => null);
      enables := 0;
      new;
      MembersEmpty(0);
    }

    /** Writes elsewhere leave the scheduler alone. */
    twostate lemma Untouched()
      requires old(Valid())
      requires unchanged(this) && unchanged(threads) && forall b :: b in old(Blocks()) ==> unchanged(b)
      ensures Valid() && Abs() == old(Abs()) && Blocks() == old(Blocks())
    {
      assert Blocks() == old(Blocks());
      assert forall p :: 0 <= p < 33 && threads[p] != null ==> threads[p] in Blocks();
      assert TimeOuts() == old(TimeOuts());
      assert curr != null ==> curr in Blocks();
      assert next != null ==> next in Blocks();
      assert Abs() == old(Abs());
    }

    method DisableIrq()
      requires Valid()
      modifies this`irqMasked
      ensures irqMasked && Valid() && Abs() == old(Abs())
    {
      ghost var before := Abs();
      irqMasked := true;
      assert TimeOuts() == before.timeOut;
    }

    method EnableIrq()
      requires Valid()
      modifies this`irqMasked, this`enables
      ensures !irqMasked && enables == old(enables) + 1 && Valid() && Abs() == old(Abs())
    {
      ghost var before := Abs();
      irqMasked := false;
      enables := enables + 1;
      assert TimeOuts() == before.timeOut;
    }

    /** To be called with interrupts disabled only. */
    method Sched()
      requires Valid() && irqMasked
      modifies this`next, this`pendSv
      ensures Valid() && Abs() == O.Sched(old(Abs()))
    {
      ghost var before := Abs();
      O.SchedOk(before);
      var index := TopBit(readySet);
      assert index == O.Target(before);
      var nextThread := threads[index];
      assert Slot(nextThread) == if index in before.timeOut then index else O.NOBODY;
      if nextThread != curr {
        next := nextThread;
        pendSv := true;
      }
      assert TimeOuts() == before.timeOut;
      assert Abs() == O.Sched(before);
    }

    /** The body of OS_Tick's loop for one delayed thread. */
    method CountDown(thread: Tcb)
      requires Shape() && thread in Blocks() && 1 <= thread.prio <= 32
      modifies this`readySet, this`delayedSet, thread`timeOut
      ensures Shape() && Abs() == O.CountDown(old(Abs()), thread.prio)
    {
      ghost var before := Abs();
      thread.timeOut := if thread.timeOut == 0 then O.WORD - 1 else thread.timeOut - 1;
      if thread.timeOut == 0 {
        readySet := SetBit(readySet, thread.prio);
        delayedSet := ClearBit(delayedSet, thread.prio);
      }
      assert TimeOuts() == before.timeOut[thread.prio := O.Dec(before.timeOut[thread.prio])];
    }

    lemma Registered(p: int)
      requires Shape() && p in Abs().timeOut
      ensures 0 <= p < 33 && threads[p] != null && threads[p].prio == p && threads[p] in Blocks()
    {
    }

    ghost predicate Apart(todo: set<int>, done: set<int>, all: set<int>) {
      todo !! done && todo + done == all
    }

    lemma OneMore(todo: set<int>, done: set<int>, all: set<int>, p: int)
      requires Apart(todo, done, all) && p in todo
      ensures Apart(todo - {p}, done + {p}, all)
    {
    }

    method Tick()
      requires Valid()
      modifies this`readySet, this`delayedSet, Blocks()`timeOut
      ensures Valid() && Abs() == O.Tick(old(Abs()))
    {
      ghost var before := Abs();
      O.TickOk(before);
      O.TickNobody(before);
      var pending := delayedSet;
      ghost var done, todo := {}, before.delayed;
      var index := TopBit(pending);
      while index != 0
        invariant todo == Members(pending) && Apart(todo, done, before.delayed)
        invariant index == 0 <==> todo == {}
        invariant index != 0 ==> O.IsHighest(todo, index)
        invariant Shape() && Abs() == O.TickOnly(before, done)
        decreases todo
      {
        Registered(index);
        O.TickOneMore(before, done, index);
        CountDown(threads[index]);
        pending := ClearBit(pending, threads[index].prio);
        OneMore(todo, done, before.delayed, index);
        done, todo := done + {index}, todo - {index};
        index := TopBit(pending);
      }
    }

    /** The writes of OS_msDelay; a SysTick between them would find the caller in neither set. */
    method Park(ticks: int)
      requires irqMasked
      requires Valid() && curr != null && 1 <= curr.prio && 0 <= ticks < O.WORD
      modifies this`readySet, this`delayedSet, curr`timeOut
      ensures Shape() && Abs() == O.Park(old(Abs()), ticks)
    {
      ghost var before := Abs();
      curr.timeOut := ticks;
      readySet := ClearBit(readySet, curr.prio);
      delayedSet := SetBit(delayedSet, curr.prio);
      assert TimeOuts() == before.timeOut[before.curr := ticks];
    }

    /** OS_msDelay from its first write on. */
    method ParkAndSched(ticks: int)
      requires irqMasked
      requires Valid() && curr != null && 1 <= curr.prio && 0 <= ticks < O.WORD
      modifies this`readySet, this`delayedSet, this`next, this`pendSv, this`irqMasked, this`enables, curr`timeOut
      ensures Valid() && Abs() == O.Delay(old(Abs()), ticks) && !irqMasked && enables == old(enables) + 1
    {
      O.ParkOk(Abs(), ticks);
      Park(ticks);
      Sched();
      EnableIrq();
    }

    /** OS_msDelay, for any thread that may call it: everyone but the idle thread.  Every write needs masked
        interrupts, and the one time they are enabled is at the end. */
    method MsDelay(ticks: int)
      requires Valid() && curr != null && 1 <= curr.prio && 0 <= ticks < O.WORD
      modifies this`readySet, this`delayedSet, this`next, this`pendSv, this`irqMasked, this`enables, curr`timeOut
      ensures Valid() && Abs() == O.Delay(old(Abs()), ticks) && !irqMasked && enables == old(enables) + 1
    {
      DisableIrq();
      ParkAndSched(ticks);
    }

    /** The slot of `prio` holds neither the running nor the next thread. */
    ghost predicate Replaceable(prio: int)
      requires threads.Length == 33 && 0 <= prio <= 32
      reads this, threads
    {
      threads[prio] != null ==> threads[prio] != curr && threads[prio] != next
    }

    /** `OS_Thread[Prio] = TCB; TCB->Prio = Prio`. */
    method Register(tcb: Tcb, prio: int)
      requires Valid() && 0 <= prio <= 32 && tcb !in Blocks()
      modifies threads, tcb`prio
      ensures threads[prio] == tcb && forall p :: 0 <= p < 33 && p != prio ==> threads[p] == old(threads[p])
      ensures Abs() == O.Register(old(Abs()), prio, tcb.timeOut)
      ensures Shape() <==> old(Replaceable(prio))
    {
      ghost var before := Abs();
      threads[prio] := tcb;
      tcb.prio := prio;
      assert TimeOuts() == before.timeOut[prio := tcb.timeOut];
    }

    /** `OS_ReadySet |= 1U << (Prio - 1U)`. */
    method Enlist(prio: int)
      requires threads.Length == 33 && 1 <= prio <= 32
      modifies this`readySet
      ensures Abs() == O.Enlist(old(Abs()), prio) && (Shape() <==> old(Shape()))
    {
      ghost var before := Abs();
      var enlisted := SetBit(readySet, prio);
      readySet := enlisted;
      assert TimeOuts() == before.timeOut;
    }

    /** The slot may get a new control block: OS_Init has started the idle thread, and no sleeping thread
        has the priority. */
    ghost predicate Vacant(prio: int)
      requires threads.Length == 33 && 0 <= prio <= 32
      reads this, threads
    {
      Replaceable(prio) && (prio > 0 ==> threads[0] != null && prio !in Members(delayedSet))
    }

    /** The registration part of OSThread_Start, for a control block not yet registered.  It leaves valid
        scheduler data exactly when the slot was vacant. */
    method ThreadStart(tcb: Tcb, prio: int)
      requires Valid() && 0 <= prio <= 32 && 0 <= tcb.timeOut < O.WORD && tcb !in Blocks()
      modifies threads, tcb`prio, this`readySet
      ensures Abs() == O.Start(old(Abs()), prio, tcb.timeOut)
      ensures threads[prio] == tcb && forall p :: 0 <= p < 33 && p != prio ==> threads[p] == old(threads[p])
      ensures Valid() <==> old(Vacant(prio))
    {
      O.StartOkIff(Abs(), prio, tcb.timeOut);
      Register(tcb, prio);
      if prio > 0 {
        Enlist(prio);
      }
    }

    /** Disable_Irq, OS_Sched, Enable_Irq, as OS_Run and SysTick_Handler have it. */
    method SchedMasked()
      requires Valid()
      modifies this`next, this`pendSv, this`irqMasked, this`enables
      ensures Valid() && Abs() == O.Sched(old(Abs())) && !irqMasked && enables == old(enables) + 1
    {
      DisableIrq();
      Sched();
      EnableIrq();
    }

    /** OS_Run after its start-up callback. */
    method Run()
      requires Valid()
      modifies this`next, this`pendSv, this`irqMasked, this`enables
      ensures Valid() && Abs() == O.Sched(old(Abs())) && !irqMasked && enables == old(enables) + 1
    {
      SchedMasked();
    }

    /** `OS_Curr = OS_Next`, with the pending bit gone since exception entry. */
    method SwitchCurr()
      requires irqMasked && Valid() && pendSv
      modifies this`curr, this`pendSv
      ensures Valid() && Abs() == O.Switch(old(Abs())) && curr == next && !pendSv
    {
      ghost var before := Abs();
      curr := next;
      pendSv := false;
      assert TimeOuts() == before.timeOut;
    }

    /** PendSV_Handler's effect on OS_Curr, with interrupts disabled throughout (module Context has the stacks). */
    method PendSvHandler()
      requires Valid() && pendSv
      modifies this`curr, this`pendSv, this`irqMasked, this`enables
      ensures Valid() && Abs() == O.Switch(old(Abs())) && !irqMasked && enables == old(enables) + 1
      ensures curr == old(next) && next == old(next) && !pendSv
    {
      DisableIrq();
      SwitchCurr();
      EnableIrq();
    }
  }
}
