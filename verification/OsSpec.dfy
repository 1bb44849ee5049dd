/**
 The scheduler of Os.c on mathematical values: sets of priorities instead of bit
 masks, priorities instead of thread pointers.  Module Kernel proves that the
 imperative code computes these functions; this module proves what they mean.
 */
module OsSpec {

  const NOBODY := -1                    // the null pointer in OS_Curr before the first switch
  const IDLE := 0                       // the idle thread's slot in OS_Thread
  const WORD := 0x1_0000_0000           // number of values of a uint32_t

  /** `timeOut` has a key for every slot of OS_Thread that holds a thread. */
  datatype Os = Os(ready: set<int>, delayed: set<int>, timeOut: map<int, int>, curr: int, next: int, pend: bool)

  ghost predicate Ok(s: Os) {
    && s.ready !! s.delayed
    && s.ready + s.delayed <= s.timeOut.Keys
    && (forall p :: p in s.ready + s.delayed ==> 1 <= p <= 32)
    && (forall p :: p in s.timeOut ==> 0 <= p <= 32 && 0 <= s.timeOut[p] < WORD)
    && (s.curr != NOBODY ==> s.curr in s.timeOut)
    && (s.pend ==> s.next in s.timeOut)
    && (s.timeOut.Keys != {} ==> IDLE in s.timeOut)
    && (1 <= s.curr ==> s.curr in s.ready + s.delayed)
    && (s.pend && 1 <= s.next ==> s.next in s.ready + s.delayed)
  }

  const BOOT := Os({}, {}, map[], NOBODY, NOBODY, false)

  // ------------------------------------------------------------ operations

  ghost predicate IsHighest(ps: set<int>, m: int) {
    m in ps && forall p :: p in ps ==> p <= m
  }

  lemma SomeMember<T>(s: set<T>) returns (x: T)
    requires s != {}
    ensures x in s
  {
    x :| x in s;
  }

  lemma {:induction false} HasHighest(ps: set<int>)
    requires ps != {}
    ensures exists m :: IsHighest(ps, m)
  {
    var m := SomeMember(ps);
    if p :| p in ps && p > m {
      var rest := ps - {m};
      assert p in rest;
      HasHighest(rest);
      var h :| IsHighest(rest, h);
      assert forall q :: q in ps ==> q == m || q in rest;
      assert IsHighest(ps, h);
    } else {
      assert IsHighest(ps, m);
    }
  }

  ghost function Highest(ps: set<int>): (m: int)
    requires ps != {}
    ensures IsHighest(ps, m)
  {
    HasHighest(ps);
    var m :| IsHighest(ps, m);
    m
  }

  /** The slot OS_Sched reads: the highest ready priority, or slot 0 when nobody is ready. */
  ghost function Target(s: Os): int {
    if s.ready == {} then IDLE else Highest(s.ready)
  }

  /** OS_Sched; an empty slot holds the null pointer. */
  ghost function Sched(s: Os): Os {
    var t := if Target(s) in s.timeOut then Target(s) else NOBODY;
    if t != s.curr then s.(next := t, pend := true) else s
  }

  /** `--Thread->TimeOut` on a uint32_t. */
  function Dec(t: int): int {
    if t == 0 then WORD - 1 else t - 1
  }

  /** The delayed threads whose counter reaches zero in this tick. */
  ghost function Expiring(s: Os): set<int> {
    set p | p in s.delayed && p in s.timeOut && Dec(s.timeOut[p]) == 0
  }

  /** OS_Tick as it would be if only the threads in `done` were delayed. */
  ghost function TickOnly(s: Os, done: set<int>): Os {
    s.(ready := s.ready + Expiring(s) * done,
       delayed := s.delayed - Expiring(s) * done,
       timeOut := map p | p in s.timeOut :: if p in done then Dec(s.timeOut[p]) else s.timeOut[p])
  }

  /** OS_Tick. */
  ghost function Tick(s: Os): Os {
    TickOnly(s, s.delayed)
  }

  /** One round of OS_Tick's loop. */
  function CountDown(s: Os, p: int): Os
    requires p in s.timeOut
  {
    var t := Dec(s.timeOut[p]);
    var s' := s.(timeOut := s.timeOut[p := t]);
    if t == 0 then s'.(ready := s.ready + {p}, delayed := s.delayed - {p}) else s'
  }

  lemma TickNobody(s: Os)
    ensures TickOnly(s, {}) == s
  {
    assert TickOnly(s, {}).timeOut == s.timeOut;
  }

  /** The loop of OS_Tick may take the delayed threads one at a time. */
  lemma TickOneMore(s: Os, done: set<int>, p: int)
    requires p in s.delayed - done && p in s.timeOut
    ensures CountDown(TickOnly(s, done), p) == TickOnly(s, done + {p})
  {
    var a, b := CountDown(TickOnly(s, done), p), TickOnly(s, done + {p});
    assert a.timeOut == b.timeOut;
    if p in Expiring(s) {
      assert Expiring(s) * (done + {p}) == Expiring(s) * done + {p};
    } else {
      assert Expiring(s) * (done + {p}) == Expiring(s) * done;
    }
  }

  /** The caller of OS_msDelay leaves the ready set. */
  function Park(s: Os, ticks: int): Os {
    s.(timeOut := s.timeOut[s.curr := ticks], ready := s.ready - {s.curr}, delayed := s.delayed + {s.curr})
  }

  /** The critical section of OS_msDelay, for a running thread that is not the idle thread. */
  ghost function Delay(s: Os, ticks: int): Os {
    Sched(Park(s, ticks))
  }

  /** OSThread_Start enters the control block in its slot; it keeps the TimeOut it had. */
  function Register(s: Os, prio: int, timeOut: int): Os {
    s.(timeOut := s.timeOut[prio := timeOut])
  }

  /** OSThread_Start makes a thread other than the idle one ready. */
  function Enlist(s: Os, prio: int): Os {
    s.(ready := s.ready + {prio})
  }

  /** Both, the registration part of OSThread_Start. */
  function Start(s: Os, prio: int, timeOut: int): Os {
    var t := Register(s, prio, timeOut);
    if prio > 0 then Enlist(t, prio) else t
  }

  /** PendSV_Handler, as far as the scheduler sees it. */
  function Switch(s: Os): Os {
    s.(curr := s.next, pend := false)
  }

  // ------------------------------------------------------- events and runs

  /** What can happen to the scheduler once OS_Run has been called. */
  datatype Event = Handler | DelayCall(ticks: int) | PendSv

  /** A thread runs, and so can call OS_msDelay, only while no switch is pending. */
  ghost predicate Enabled(s: Os, e: Event) {
    match e
    case Handler => true
    case DelayCall(n) => !s.pend && s.curr in s.ready && 0 <= n < WORD
    case PendSv => s.pend
  }

  ghost function Next(s: Os, e: Event): Os {
    match e
    case Handler => Sched(Tick(s))
    case DelayCall(n) => Delay(s, n)
    case PendSv => Switch(s)
  }

  ghost predicate Runs(s: Os, es: seq<Event>)
    decreases |es|
  {
    es == [] || (Enabled(s, es[0]) && Runs(Next(s, es[0]), es[1..]))
  }

  ghost function Exec(s: Os, es: seq<Event>): Os
    decreases |es|
  {
    if es == [] then s else Exec(Next(s, es[0]), es[1..])
  }

  lemma SchedOk(s: Os)
    requires Ok(s)
    ensures Ok(Sched(s))
  {
  }

  lemma TickOk(s: Os)
    requires Ok(s)
    ensures Ok(Tick(s)) && Tick(s).timeOut.Keys == s.timeOut.Keys
  {
    assert Tick(s).timeOut.Keys == s.timeOut.Keys;
  }

  lemma ParkOk(s: Os, ticks: int)
    requires Ok(s) && 1 <= s.curr && 0 <= ticks < WORD
    ensures Ok(Park(s, ticks))
  {
  }

  lemma RegisterOk(s: Os, prio: int, timeOut: int)
    requires Ok(s) && 0 <= prio <= 32 && 0 <= timeOut < WORD && prio !in s.timeOut
    requires prio > 0 ==> IDLE in s.timeOut
    ensures Ok(Register(s, prio, timeOut))
  {
  }

  /** Starting a thread keeps the scheduler well-formed exactly when the idle thread is there and no sleeping
      thread has the priority. */
  lemma StartOkIff(s: Os, prio: int, timeOut: int)
    requires Ok(s) && 0 <= prio <= 32 && 0 <= timeOut < WORD
    ensures Ok(Start(s, prio, timeOut)) <==> (prio > 0 ==> IDLE in s.timeOut && prio !in s.delayed)
  {
    var t := Start(s, prio, timeOut);
    assert t.timeOut.Keys == s.timeOut.Keys + {prio};
    if prio > 0 {
      assert t.ready == s.ready + {prio} && t.delayed == s.delayed;
      assert prio in t.ready;
    }
  }

  lemma NextOk(s: Os, e: Event)
    requires Ok(s) && IDLE in s.timeOut && Enabled(s, e)
    ensures Ok(Next(s, e)) && IDLE in Next(s, e).timeOut
  {
    match e
    case Handler => TickOk(s); SchedOk(Tick(s));
    case DelayCall(n) =>
      ParkOk(s, n);
      SchedOk(Park(s, n));
    case PendSv =>
  }

  // ------------------------------------------------ only ready threads run

  /** The current thread is ready unless it is about to be switched out, and a switch leads to a ready thread. */
  ghost predicate Live(s: Os) {
    && (1 <= s.curr && s.curr !in s.ready ==> s.pend && s.next != s.curr)
    && (s.pend && 1 <= s.next ==> s.next in s.ready)
  }

  lemma TickLive(s: Os)
    requires Live(s)
    ensures Live(Tick(s))
  {
  }

  lemma SchedLive(s: Os)
    requires Live(s)
    ensures Live(Sched(s))
  {
  }

  lemma DelayLive(s: Os, ticks: int)
    requires Ok(s) && Live(s) && !s.pend && 1 <= s.curr
    ensures Live(Delay(s, ticks)) && Delay(s, ticks).pend
  {
    TargetRegistered(Park(s, ticks));
  }

  /** Every run: no thread but the idle one runs unless it is ready, whatever the order of exceptions. */
  lemma {:induction false} OnlyReadyThreadsRun(s: Os, es: seq<Event>)
    requires Ok(s) && IDLE in s.timeOut && Live(s) && Runs(s, es)
    ensures Live(Exec(s, es))
    ensures 1 <= Exec(s, es).curr && !Exec(s, es).pend ==> Exec(s, es).curr in Exec(s, es).ready
    decreases |es|
  {
    if es != [] {
      NextOk(s, es[0]);
      match es[0] {
        case Handler => TickLive(s); SchedLive(Tick(s));
        case DelayCall(n) => DelayLive(s, n);
        case PendSv =>
      }
      OnlyReadyThreadsRun(Next(s, es[0]), es[1..]);
    }
  }

  // ----------------------------------- what one call changes, and what not

  /** OS_Sched leaves everything alone when the thread it picks runs already; otherwise it asks for that thread and changes nothing else. */
  lemma SchedOnlyOnChange(s: Os)
    requires Ok(s) && IDLE in s.timeOut
    ensures Target(s) == s.curr ==> Sched(s) == s
    ensures Target(s) != s.curr ==>
              Sched(s) == Os(s.ready, s.delayed, s.timeOut, s.curr, Target(s), true)
    ensures !s.pend ==> (Sched(s).pend <==> Target(s) != s.curr)
    ensures if s.ready == {} then Target(s) == 0 else Target(s) in s.ready && forall p :: p in s.ready ==> p <= Target(s)
  {
    TargetRegistered(s);
  }

  /** OS_Tick thread by thread: those delayed with one tick to go become ready, the other delayed ones have one
      tick less, a zero wraps to 2^32 - 1, and nobody else is touched. */
  lemma TickExactly(s: Os, p: int)
    requires Ok(s)
    ensures p in Tick(s).ready <==> p in s.ready || (p in s.delayed && s.timeOut[p] == 1)
    ensures p in Tick(s).delayed <==> p in s.delayed && s.timeOut[p] != 1
    ensures p in Tick(s).timeOut <==> p in s.timeOut
    ensures p in s.timeOut ==>
              Tick(s).timeOut[p] == if p in s.delayed then (s.timeOut[p] - 1) % 0x1_0000_0000 else s.timeOut[p]
    ensures Tick(s).curr == s.curr && Tick(s).next == s.next && Tick(s).pend == s.pend
  {
  }

  /** OS_msDelay thread by thread: the caller moves from ready to delayed with its new counter, and the
      highest of the other ready threads, or the idle thread, is asked for. */
  lemma DelayExactly(s: Os, ticks: int, p: int)
    requires Ok(s) && IDLE in s.timeOut && 1 <= s.curr && 0 <= ticks < WORD
    ensures var d := Delay(s, ticks);
            && (p in d.ready <==> p in s.ready && p != s.curr)
            && (p in d.delayed <==> p in s.delayed || p == s.curr)
            && (p in d.timeOut <==> p in s.timeOut)
            && (p in s.timeOut ==> d.timeOut[p] == if p == s.curr then ticks else s.timeOut[p])
            && d.curr == s.curr && d.pend
            && (if s.ready - {s.curr} == {} then d.next == 0 else IsHighest(s.ready - {s.curr}, d.next))
  {
    TargetRegistered(Park(s, ticks));
  }

  /** A thread in neither set, as OS_msDelay's caller is between its two writes, is never woken by any run: what
      those writes need masked interrupts for. */
  lemma {:induction false} InNeitherSetForever(s: Os, es: seq<Event>, p: int)
    requires Ok(s) && IDLE in s.timeOut && Runs(s, es) && p !in s.ready + s.delayed
    ensures p !in Exec(s, es).ready + Exec(s, es).delayed
    decreases |es|
  {
    if es != [] {
      NextOk(s, es[0]);
      InNeitherSetForever(Next(s, es[0]), es[1..], p);
    }
  }

  /** OSThread_Start slot by slot: one new control block, ready unless its priority is zero. */
  lemma StartExactly(s: Os, prio: int, timeOut: int, p: int)
    ensures var t := Start(s, prio, timeOut);
            && (p in t.ready <==> p in s.ready || (p == prio && prio > 0))
            && t.delayed == s.delayed && t.curr == s.curr && t.next == s.next && t.pend == s.pend
            && (p in t.timeOut <==> p in s.timeOut || p == prio)
            && (p in t.timeOut ==> t.timeOut[p] == if p == prio then timeOut else s.timeOut[p])
  {
  }

  /** A pending switch leads to another thread than the running one. */
  ghost predicate NoSelfSwitch(s: Os) {
    s.pend ==> s.next != s.curr
  }

  lemma NextNoSelfSwitch(s: Os, e: Event)
    requires Ok(s) && IDLE in s.timeOut && Enabled(s, e) && NoSelfSwitch(s)
    ensures NoSelfSwitch(Next(s, e))
  {
  }

  /** Every run: PendSV is never asked to switch the running thread to itself. */
  lemma {:induction false} SwitchesAreChanges(s: Os, es: seq<Event>)
    requires Ok(s) && IDLE in s.timeOut && Runs(s, es) && (s.pend ==> s.next != s.curr)
    ensures Exec(s, es).pend ==> Exec(s, es).next != Exec(s, es).curr
    decreases |es|
  {
    if es != [] {
      NextOk(s, es[0]);
      NextNoSelfSwitch(s, es[0]);
      SwitchesAreChanges(Next(s, es[0]), es[1..]);
    }
  }

  // ------------------------------------------- the highest priority runs

  /** The thread that runs, or is about to be switched in, is the highest-priority ready one. */
  ghost predicate Correct(s: Os) {
    (if s.pend then s.next else s.curr) == Target(s)
  }

  /** OS_Sched finds the current thread on top and leaves an earlier, different OS_Next pending. */
  ghost predicate LostSwitch(s: Os) {
    s.pend && s.next != s.curr && Target(Tick(s)) == s.curr
  }

  /** One event: a correct scheduler stays correct exactly when no switch is lost. */
  lemma StepCorrect(s: Os, e: Event)
    requires Ok(s) && IDLE in s.timeOut && Enabled(s, e) && Correct(s)
    ensures Correct(Next(s, e)) <==> !(e.Handler? && LostSwitch(s))
  {
    match e
    case Handler => TickOk(s); TargetRegistered(Tick(s));
    case DelayCall(n) =>
      TargetRegistered(Park(s, n));
    case PendSv =>
  }

  lemma TargetRegistered(s: Os)
    requires s.ready <= s.timeOut.Keys && IDLE in s.timeOut
    ensures Target(s) in s.timeOut && Target(s) in s.ready + {IDLE}
  {
  }

  /** When a switch is lost: the thread that just called OS_msDelay wakes up in this very
      tick, before PendSV, and nothing of higher priority is ready. */
  lemma LostSwitchCause(s: Os)
    requires Ok(s) && Correct(s) && s.pend
    ensures LostSwitch(s) <==>
            s.curr in Expiring(s) && forall p :: p in s.ready + Expiring(s) ==> p <= s.curr
  {
    var awake := s.ready + Expiring(s);
    assert Tick(s).ready == awake;
    if IsHighest(awake, s.curr) && s.curr in s.ready {
      assert IsHighest(s.ready, s.curr);
    }
  }

  ghost predicate AlwaysCorrect(s: Os, es: seq<Event>)
    requires Runs(s, es)
    decreases |es|
  {
    Correct(s) && (es != [] ==> AlwaysCorrect(Next(s, es[0]), es[1..]))
  }

  lemma {:induction false} EndsCorrect(s: Os, es: seq<Event>)
    requires Runs(s, es) && AlwaysCorrect(s, es)
    ensures Correct(Exec(s, es))
    decreases |es|
  {
    if es != [] {
      EndsCorrect(Next(s, es[0]), es[1..]);
    }
  }

  ghost predicate NoLostSwitch(s: Os, es: seq<Event>)
    requires Runs(s, es)
    decreases |es|
  {
    es != [] ==> !(es[0].Handler? && LostSwitch(s)) && NoLostSwitch(Next(s, es[0]), es[1..])
  }

  /** Every run: the highest-priority ready thread is in charge throughout exactly when no
      tick of the run loses a switch. */
  lemma {:induction false} RunCorrect(s: Os, es: seq<Event>)
    requires Ok(s) && IDLE in s.timeOut && Correct(s) && Runs(s, es)
    ensures AlwaysCorrect(s, es) <==> NoLostSwitch(s, es)
    decreases |es|
  {
    if es != [] {
      StepCorrect(s, es[0]);
      NextOk(s, es[0]);
      var t := Next(s, es[0]);
      if Correct(t) {
        RunCorrect(t, es[1..]);
      }
    }
  }

  /** The processor takes a pending PendSV before a pending SysTick of the same priority. */
  ghost predicate PendSvFirst(s: Os, es: seq<Event>)
    requires Runs(s, es)
    decreases |es|
  {
    es != [] ==> !(es[0].Handler? && s.pend) && PendSvFirst(Next(s, es[0]), es[1..])
  }

  /** With equal exception priorities no switch is ever lost. */
  lemma {:induction false} EqualPrioritiesAreSafe(s: Os, es: seq<Event>)
    requires Ok(s) && IDLE in s.timeOut && Correct(s) && Runs(s, es) && PendSvFirst(s, es)
    ensures AlwaysCorrect(s, es)
    decreases |es|
  {
    if es != [] {
      StepCorrect(s, es[0]);
      NextOk(s, es[0]);
      EqualPrioritiesAreSafe(Next(s, es[0]), es[1..]);
    }
  }

  /** OS_Run starts every run in a correct state. */
  lemma RunStartsCorrect(s: Os)
    requires Ok(s) && IDLE in s.timeOut && s.curr == NOBODY && !s.pend
    ensures Ok(Sched(s)) && Correct(Sched(s)) && Sched(s).pend
  {
    SchedOk(s);
    TargetRegistered(s);
  }

  /** Were SysTick taken before PendSV, a one-tick delay could leave the idle thread
      running although its caller is ready again. */
  lemma LostSwitchHappens() returns (s: Os, es: seq<Event>)
    ensures Ok(s) && IDLE in s.timeOut && Correct(s) && Runs(s, es)
    ensures Exec(s, es).curr == IDLE && !Exec(s, es).pend && Exec(s, es).ready == {1}
  {
    s := Os({1}, {}, map[0 := 0, 1 := 0], 1, 1, false);
    assert IsHighest({1}, 1);
    var a := s.(timeOut := map[0 := 0, 1 := 1], ready := {}, delayed := {1}, next := 0, pend := true);
    assert Next(s, DelayCall(1)) == a by {
      assert s.ready - {1} == {};
      assert s.timeOut[1 := 1] == map[0 := 0, 1 := 1];
    }
    assert Expiring(a) == {1};
    var b := Tick(a);
    assert b.ready == {1} && b.delayed == {};
    assert Next(a, Handler) == b;
    es := [DelayCall(1), Handler, PendSv];
    assert es[1..] == [Handler, PendSv] && es[1..][1..] == [PendSv] && es[1..][1..][1..] == [];
    assert Exec(b, [PendSv]) == Switch(b) by { assert [PendSv][1..] == []; }
    assert Exec(a, [Handler, PendSv]) == Switch(b) by { assert [Handler, PendSv][1..] == [PendSv]; }
    assert Runs(a, [Handler, PendSv]) by { assert [Handler, PendSv][1..] == [PendSv]; assert [PendSv][1..] == []; assert Runs(b, [PendSv]); }
  }

  /** A lost switch is repaired by the next tick. */
  lemma NextTickRepairs(s: Os)
    requires Ok(s) && IDLE in s.timeOut && !s.pend
    ensures Correct(Next(s, Handler))
  {
    TickOk(s);
    TargetRegistered(Tick(s));
  }

  // -------------------------------------------------------- exact delays

  /** The number of ticks OS_msDelay(n) really lasts: a zero wraps around first. */
  function Lasts(n: int): int {
    if n == 0 then WORD else n
  }

  function Ticks(es: seq<Event>): nat
    decreases |es|
  {
    if es == [] then 0 else (if es[0].Handler? then 1 else 0) + Ticks(es[1..])
  }

  /** `p` itself does not call OS_msDelay in the run. */
  ghost predicate Silent(s: Os, es: seq<Event>, p: int)
    requires Runs(s, es)
    decreases |es|
  {
    es != [] ==> !(es[0].DelayCall? && s.curr == p) && Silent(Next(s, es[0]), es[1..], p)
  }

  /** Every run: a delayed thread sleeps for exactly `Lasts` of its counter, then stays ready. */
  lemma {:induction false} SleepsExactly(s: Os, es: seq<Event>, p: int)
    requires Ok(s) && IDLE in s.timeOut && Runs(s, es) && Silent(s, es, p)
    requires p in s.delayed
    ensures p in Exec(s, es).delayed <==> Ticks(es) < Lasts(s.timeOut[p])
    ensures p in Exec(s, es).ready <==> Ticks(es) >= Lasts(s.timeOut[p])
    decreases |es|
  {
    if es != [] {
      var e, t := es[0], Next(s, es[0]);
      NextOk(s, e);
      if p in t.delayed {
        SleepsExactly(t, es[1..], p);
      } else {
        StaysReady(t, es[1..], p);
      }
    }
  }

  lemma {:induction false} StaysReady(s: Os, es: seq<Event>, p: int)
    requires Ok(s) && IDLE in s.timeOut && Runs(s, es) && Silent(s, es, p)
    requires p in s.ready
    ensures p in Exec(s, es).ready && p !in Exec(s, es).delayed
    decreases |es|
  {
    if es != [] {
      NextOk(s, es[0]);
      StaysReady(Next(s, es[0]), es[1..], p);
    }
  }

  /** OS_msDelay(n), in every run: the caller is ready again after exactly n ticks, and after
      2^32 ticks when n is zero. */
  lemma DelayIsExact(s: Os, n: int, es: seq<Event>)
    requires Ok(s) && IDLE in s.timeOut && Enabled(s, DelayCall(n))
    requires Runs(Delay(s, n), es) && Silent(Delay(s, n), es, s.curr)
    ensures s.curr in Exec(Delay(s, n), es).ready <==> Ticks(es) >= (if n == 0 then 0x1_0000_0000 else n)
    ensures s.curr in Exec(Delay(s, n), es).delayed <==> Ticks(es) < (if n == 0 then 0x1_0000_0000 else n)
  {
    NextOk(s, DelayCall(n));
    SleepsExactly(Delay(s, n), es, s.curr);
  }
}
