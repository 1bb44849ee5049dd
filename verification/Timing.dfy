/**
 The scheduler inside the deployed program: every run of the program is a run of module OsSpec, so a
 delay lasts exactly its ticks, and the toggle thread's stores keep the distances its delays ask for.
 */
module Timing {
  import opened Gpio
  import opened Deployment
  import O = OsSpec

  /** The ticks the scheduler has counted: the handler increments millisec_counter first. */
  function Ticks(s: Sys): int {
    s.ticks - if s.h == InTick then 1 else 0
  }

  /** The scheduler with the handler's second half done. */
  ghost function Settled(s: Sys): O.Os {
    if s.h == InSched then O.Sched(s.os) else s.os
  }

  /** The delay call the action is, if any; -1 otherwise. */
  function DelayAt(s: Sys, a: Action): int {
    if a != ThreadStep then -1
    else if s.os.curr == TOGGLE_PRIO && s.toggleDelays then if |s.stores| % 2 == 1 then 20 else 40
    else if s.os.curr == BLINKY_PRIO && s.blinkyPc == 1 then 10
    else if s.os.curr == BLINKY_PRIO && s.blinkyPc == 3 then 20
    else -1
  }

  /** The scheduler event the action is, if any. */
  function EventsOf(s: Sys, a: Action): seq<O.Event> {
    if a == HandlerStep && s.h == InTick then [O.Handler]
    else if a == PendSv then [O.PendSv]
    else if DelayAt(s, a) != -1 then [O.DelayCall(DelayAt(s, a))]
    else []
  }

  lemma QuietStep(s: Sys, a: Action)
    requires Inv(s) && Allowed(s, a) && MainLeft(s) && EventsOf(s, a) == []
    ensures Settled(Next(s, a)) == Settled(s) && Ticks(Next(s, a)) == Ticks(s)
  {
  }

  lemma EventStep(s: Sys, a: Action)
    requires Inv(s) && Allowed(s, a) && MainLeft(s) && EventsOf(s, a) != []
    ensures var e := EventsOf(s, a)[0];
            && O.Enabled(Settled(s), e) && Settled(Next(s, a)) == O.Next(Settled(s), e)
            && Ticks(Next(s, a)) == Ticks(s) + (if e.Handler? then 1 else 0)
            && (e.DelayCall? ==> Settled(s).curr == s.os.curr)
  {
  }

  /** `p` takes no step in the run. */
  ghost predicate NoStepOf(s: Sys, acts: seq<Action>, p: int)
    requires |s.race.ctx| == 3 && Runs(s, acts)
    decreases |acts|
  {
    acts != [] ==> !(acts[0] == ThreadStep && s.os.curr == p) && NoStepOf(Next(s, acts[0]), acts[1..], p)
  }

  lemma First(s: O.Os, e: O.Event, t: O.Os, es: seq<O.Event>, p: int)
    requires O.Enabled(s, e) && t == O.Next(s, e) && O.Runs(t, es)
    ensures O.Runs(s, [e] + es) && O.Exec(s, [e] + es) == O.Exec(t, es)
    ensures O.Ticks([e] + es) == O.Ticks(es) + if e.Handler? then 1 else 0
    ensures O.Silent(t, es, p) && !(e.DelayCall? && s.curr == p) ==> O.Silent(s, [e] + es, p)
  {
    assert ([e] + es)[1..] == es;
  }

  /** A run of the scheduler from after the action, with the action's own event in front. */
  lemma Prefixed(s: Sys, a: Action, p: int, rest: seq<O.Event>) returns (es: seq<O.Event>)
    requires Inv(s) && Allowed(s, a) && MainLeft(s) && O.Runs(Settled(Next(s, a)), rest)
    ensures O.Runs(Settled(s), es) && O.Exec(Settled(s), es) == O.Exec(Settled(Next(s, a)), rest)
    ensures O.Ticks(es) == O.Ticks(rest) + Ticks(Next(s, a)) - Ticks(s)
    ensures O.Silent(Settled(Next(s, a)), rest, p) && !(a == ThreadStep && s.os.curr == p) ==> O.Silent(Settled(s), es, p)
  {
    es := rest;
    if EventsOf(s, a) == [] {
      QuietStep(s, a);
    } else {
      EventStep(s, a);
      First(Settled(s), EventsOf(s, a)[0], Settled(Next(s, a)), rest, p);
      es := [EventsOf(s, a)[0]] + rest;
    }
  }

  /** Every run of the program after main is, seen from the scheduler, a run of module OsSpec, in which
      threads that take no step are silent. */
  lemma {:induction false} SchedulerOfRun(s: Sys, acts: seq<Action>, p: int) returns (es: seq<O.Event>)
    requires Inv(s) && MainLeft(s) && Runs(s, acts)
    ensures O.Runs(Settled(s), es) && O.Exec(Settled(s), es) == Settled(Exec(s, acts))
    ensures O.Ticks(es) == Ticks(Exec(s, acts)) - Ticks(s)
    ensures NoStepOf(s, acts, p) ==> O.Silent(Settled(s), es, p)
    decreases |acts|
  {
    es := [];
    if acts != [] {
      var a, t := acts[0], Next(s, acts[0]);
      NextInv(s, a);
      MainStays(s, a);
      es := SchedulerOfRun(t, acts[1..], p);
      es := Prefixed(s, a, p, es);
    }
  }

  /** Every run of the program: a thread that called OS_msDelay is ready again exactly from the n-th tick
      after the call on. */
  lemma DelayInProgram(s: Sys, acts: seq<Action>)
    requires Inv(s) && Allowed(s, ThreadStep) && MainLeft(s) && DelayAt(s, ThreadStep) != -1
    requires Runs(Next(s, ThreadStep), acts) && NoStepOf(Next(s, ThreadStep), acts, s.os.curr)
    ensures var t := Exec(Next(s, ThreadStep), acts);
            s.os.curr in t.os.ready <==> Ticks(t) - Ticks(s) >= DelayAt(s, ThreadStep)
  {
    var d := Next(s, ThreadStep);
    NextInv(s, ThreadStep);
    MainStays(s, ThreadStep);
    EventStep(s, ThreadStep);
    var es := SchedulerOfRun(d, acts, s.os.curr);
    O.DelayIsExact(Settled(s), DelayAt(s, ThreadStep), es);
  }

  // ------------------------------------------------- distances of PC3 stores

  /** Ticks the toggle thread asks for after its n-th store. */
  function Pause(n: nat): int {
    if n % 2 == 1 then 20 else 40
  }

  predicate Spaced(stores: seq<nat>) {
    forall i :: 1 <= i < |stores| ==> stores[i] >= stores[i - 1] + Pause(i)
  }

  /** The toggle thread has stored and not yet called OS_msDelay. */
  predicate Pausing(s: Sys)
    requires |s.race.ctx| == 3
  {
    s.race.ctx[TOGGLE].Stored? || s.toggleDelays
  }

  ghost predicate Paced(s: Sys)
    requires Inv(s)
  {
    && Spaced(s.stores)
    && (s.stores != [] ==>
          var last, pause := s.stores[|s.stores| - 1], Pause(|s.stores|);
          && last <= Ticks(s)
          && (TOGGLE_PRIO in s.os.delayed ==>
                s.os.timeOut[TOGGLE_PRIO] >= 1 && Ticks(s) + s.os.timeOut[TOGGLE_PRIO] >= last + pause)
          && (TOGGLE_PRIO !in s.os.delayed && !Pausing(s) ==> Ticks(s) >= last + pause))
  }

  lemma TickPaced(s: Sys)
    requires Inv(s) && Paced(s) && s.h == InTick && Inv(HandlerNext(s))
    ensures Paced(HandlerNext(s))
  {
  }

  lemma TogglePaced(s: Sys)
    requires Inv(s) && Paced(s) && Allowed(s, ThreadStep) && s.os.curr == TOGGLE_PRIO && Inv(ToggleNext(s))
    ensures Paced(ToggleNext(s))
  {
  }

  /** Steps that leave the toggle thread's affairs alone. */
  lemma OtherPaced(s: Sys, t: Sys)
    requires Inv(s) && Paced(s) && Inv(t)
    requires t.stores == s.stores && Ticks(t) == Ticks(s) && (Pausing(s) ==> Pausing(t))
    requires TOGGLE_PRIO in t.os.delayed <==> TOGGLE_PRIO in s.os.delayed
    requires TOGGLE_PRIO in s.os.delayed ==> t.os.timeOut[TOGGLE_PRIO] == s.os.timeOut[TOGGLE_PRIO]
    ensures Paced(t)
  {
  }

  lemma OthersKeepOs(s: Sys, a: Action)
    requires Inv(s) && Allowed(s, a)
    requires !(a == HandlerStep && s.h == InTick) && !(a == ThreadStep && s.os.curr == TOGGLE_PRIO)
    ensures var t := Next(s, a);
            && (TOGGLE_PRIO in t.os.delayed <==> TOGGLE_PRIO in s.os.delayed)
            && (TOGGLE_PRIO in s.os.delayed ==>
                  TOGGLE_PRIO in t.os.timeOut && t.os.timeOut[TOGGLE_PRIO] == s.os.timeOut[TOGGLE_PRIO])
  {
  }

  lemma OthersKeepStores(s: Sys, a: Action)
    requires Inv(s) && Allowed(s, a)
    requires !(a == HandlerStep && s.h == InTick) && !(a == ThreadStep && s.os.curr == TOGGLE_PRIO)
    ensures var t := Next(s, a);
            t.stores == s.stores && Ticks(t) == Ticks(s) && (Pausing(s) ==> Pausing(t))
  {
    if Moving(s, a) == -1 { StillStep(s, a); } else { MovingStep(s, a); }
  }

  lemma NextPaced(s: Sys, a: Action)
    requires Inv(s) && Paced(s) && Allowed(s, a) && Inv(Next(s, a))
    ensures Paced(Next(s, a))
  {
    if a == HandlerStep && s.h == InTick {
      TickPaced(s);
    } else if a == ThreadStep && s.os.curr == TOGGLE_PRIO {
      TogglePaced(s);
    } else {
      OthersKeepOs(s, a);
      OthersKeepStores(s, a);
      OtherPaced(s, Next(s, a));
    }
  }

  lemma {:induction false} RunPaced(s: Sys, acts: seq<Action>)
    requires Inv(s) && Paced(s) && Runs(s, acts)
    ensures Inv(Exec(s, acts)) && Paced(Exec(s, acts))
    decreases |acts|
  {
    if acts != [] {
      NextInv(s, acts[0]);
      NextPaced(s, acts[0]);
      RunPaced(Next(s, acts[0]), acts[1..]);
    }
  }

  /** Every run of the program: at least 20 ticks lie between a PC3 On store and the Off store after it, and
      at least 40 between an Off and the next On. */
  lemma StoresAreSpaced(boot: set<int>, acts: seq<Action>)
    requires PC2 !in boot && Runs(Boot(boot), acts)
    ensures var stores := Exec(Boot(boot), acts).stores;
            forall i :: 1 <= i < |stores| ==> stores[i] >= stores[i - 1] + if i % 2 == 1 then 20 else 40
  {
    BootInv(boot);
    RunPaced(Boot(boot), acts);
    var stores := Exec(Boot(boot), acts).stores;
    forall i | 1 <= i < |stores| ensures stores[i] >= stores[i - 1] + if i % 2 == 1 then 20 else 40 {
      assert stores[i] >= stores[i - 1] + Pause(i);
    }
  }
}
