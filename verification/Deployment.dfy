/**
 The shipped program as one machine: SysTick_Handler, PendSV, the idle thread, the toggle
 thread and the blinky thread over port C and the scheduler, from the first step of main's
 thread set-up.  SysTick may be taken between any two steps of a thread and then runs to its
 end; a pending PendSV is taken before any thread goes on, before or after a further SysTick.
 */
module Deployment {
  import opened Gpio
  import opened PortRace
  import O = OsSpec

  const HANDLER := 0          // contexts of port C
  const TOGGLE := 1
  const IDLER := 2
  const TOGGLE_PRIO := 2      // priorities given in main
  const BLINKY_PRIO := 3

  /** The idle thread runs, is about to wait for an interrupt, or waits. */
  datatype Wait = Awake | Dozing | Asleep

  /** Where SysTick_Handler stands. */
  datatype Stage = NotActive | InPC2On | InCount | InTick | InSched | InPC2Off

  /**
   `ticks` is how often millisec_counter was incremented and `edges` how often PC2 rose; `stores` holds
   the value of `ticks` at every store of the toggle thread, `idled` counts those of the idle thread, and
   `toggledAtLoad` is the number of the former when the idle thread last loaded the port.
   */
  datatype Sys = Sys(
    race: Race, os: O.Os, h: Stage, ticks: nat, edges: nat,
    mainPc: nat, stores: seq<nat>, toggleDelays: bool, idled: nat, toggledAtLoad: nat, wait: Wait, blinkyPc: nat)

  datatype Action = Enter | HandlerStep | PendSv | ThreadStep

  function Boot(port: set<int>): Sys {
    Sys(Race(port, false, [Out, Out, Out], []), O.BOOT, NotActive, 0, 0, 0, [], false, 0, 0, Awake, 0)
  }

  // ---------------------------------------------------------------- steps

  predicate CanMove(s: Sys, e: Step) {
    PortRace.Enabled(s.race, e)
  }

  /** One port step, watched for a rising edge of PC2. */
  function Port(s: Sys, e: Step): (t: Sys)
    requires CanMove(s, e)
    ensures |t.race.ctx| == |s.race.ctx|
  {
    var r := PortRace.Next(s.race, e);
    s.(race := r, edges := s.edges + if PC2 !in s.race.port && PC2 in r.port then 1 else 0)
  }

  /** A call of, or the next step inside, the operation `op` of context `c`. */
  function Operate(s: Sys, c: nat, op: Op): (t: Sys)
    requires c < |s.race.ctx|
    ensures |t.race.ctx| == |s.race.ctx|
  {
    Port(s, if s.race.ctx[c].Out? then Call(c, op) else Go(c))
  }

  predicate Finishes(s: Sys, c: nat)
    requires c < |s.race.ctx|
  {
    s.race.ctx[c].Stored?
  }

  ghost function HandlerNext(s: Sys): (t: Sys)
    requires |s.race.ctx| == 3
    ensures |t.race.ctx| == 3
  {
    match s.h
    case NotActive => s
    case InPC2On =>
      var t := Operate(s, HANDLER, Op(PC2, true));
      if Finishes(s, HANDLER) then t.(h := InCount) else t
    case InCount => s.(ticks := s.ticks + 1, h := InTick)
    case InTick => s.(os := O.Tick(s.os), h := InSched)
    case InSched => s.(os := O.Sched(s.os), h := InPC2Off)
    case InPC2Off =>
      var t := Operate(s, HANDLER, Op(PC2, false));
      if Finishes(s, HANDLER) then t.(h := NotActive) else t
  }

  /** main: OS_Init, the two OSThread_Start calls with their two visible writes each, OS_Run; then it only spins. */
  ghost function MainNext(s: Sys): Sys {
    match s.mainPc
    case 0 => s.(os := O.Start(s.os, O.IDLE, 0), mainPc := 1)
    case 1 => s.(os := O.Register(s.os, BLINKY_PRIO, 0), mainPc := 2)
    case 2 => s.(os := O.Enlist(s.os, BLINKY_PRIO), mainPc := 3)
    case 3 => s.(os := O.Register(s.os, TOGGLE_PRIO, 0), mainPc := 4)
    case 4 => s.(os := O.Enlist(s.os, TOGGLE_PRIO), mainPc := 5)
    case 5 => s.(os := O.Sched(s.os), mainPc := 6)
    case _ => s
  }

  /** TogglePC3_Main: PC3_On, a delay of 20, PC3_Off, a delay of 40. */
  ghost function ToggleNext(s: Sys): (t: Sys)
    requires |s.race.ctx| == 3
    ensures |t.race.ctx| == 3
  {
    if s.toggleDelays then
      s.(os := O.Delay(s.os, if |s.stores| % 2 == 1 then 20 else 40), toggleDelays := false)
    else
      var t := Operate(s, TOGGLE, Op(PC3, |s.stores| % 2 == 0));
      if s.race.ctx[TOGGLE].Modified? then t.(stores := s.stores + [s.ticks])
      else if Finishes(s, TOGGLE) then t.(toggleDelays := true) else t
  }

  /** OS_OnIdle, over and over: PC10_On, PC10_Off, and a wait that only an interrupt ends. */
  function IdleNext(s: Sys): (t: Sys)
    requires |s.race.ctx| == 3
    ensures |t.race.ctx| == 3
  {
    if !s.wait.Awake? then s.(wait := Asleep)
    else
      var t := Operate(s, IDLER, Op(PC10, s.idled % 2 == 0));
      if s.race.ctx[IDLER].Acquired? then t.(toggledAtLoad := |s.stores|)
      else if s.race.ctx[IDLER].Modified? then t.(idled := s.idled + 1)
      else if Finishes(s, IDLER) && s.idled % 2 == 0 then t.(wait := Dozing) else t
  }

  /** Blinky_Main: the LED is on port A, so only its delays matter here. */
  ghost function BlinkyNext(s: Sys): Sys {
    var t := s.(blinkyPc := (s.blinkyPc + 1) % 4);
    if s.blinkyPc == 1 then t.(os := O.Delay(s.os, 10))
    else if s.blinkyPc == 3 then t.(os := O.Delay(s.os, 20)) else t
  }

  ghost function ThreadNext(s: Sys): (t: Sys)
    requires |s.race.ctx| == 3
    ensures |t.race.ctx| == 3
  {
    if s.os.curr == O.NOBODY then MainNext(s)
    else if s.os.curr == O.IDLE then IdleNext(s)
    else if s.os.curr == TOGGLE_PRIO then ToggleNext(s)
    else if s.os.curr == BLINKY_PRIO then BlinkyNext(s)
    else s
  }

  /** Threads run only while no exception is active and no switch is pending. */
  predicate Allowed(s: Sys, a: Action) {
    match a
    case Enter => s.h == NotActive
    case HandlerStep => s.h != NotActive
    case PendSv => s.h == NotActive && s.os.pend
    case ThreadStep => s.h == NotActive && !s.os.pend
  }

  ghost function Next(s: Sys, a: Action): (t: Sys)
    requires |s.race.ctx| == 3
    ensures |t.race.ctx| == 3
  {
    match a
    case Enter => s.(h := InPC2On, wait := if s.wait == Asleep then Awake else s.wait)
    case HandlerStep => HandlerNext(s)
    case PendSv => s.(os := O.Switch(s.os))
    case ThreadStep => ThreadNext(s)
  }

  ghost predicate Runs(s: Sys, acts: seq<Action>)
    requires |s.race.ctx| == 3
    decreases |acts|
  {
    acts != [] ==> Allowed(s, acts[0]) && Runs(Next(s, acts[0]), acts[1..])
  }

  ghost function Exec(s: Sys, acts: seq<Action>): (t: Sys)
    requires |s.race.ctx| == 3
    ensures |t.race.ctx| == 3
    decreases |acts|
  {
    if acts == [] then s else Exec(Next(s, acts[0]), acts[1..])
  }

  // ------------------------------------------------------------- invariant

  /** The level PC3 has after n stores of the toggle thread, On first. */
  predicate Level(boot: set<int>, n: nat) {
    if n == 0 then PC3 in boot else n % 2 == 1
  }

  /** The threads main has entered in OS_Thread. */
  function Registered(pc: nat): set<int> {
    if pc == 0 then {} else if pc == 1 then {O.IDLE}
    else if pc <= 3 then {O.IDLE, BLINKY_PRIO} else {O.IDLE, BLINKY_PRIO, TOGGLE_PRIO}
  }

  /** The threads main has made ready. */
  function Enlisted(pc: nat): set<int> {
    if pc <= 2 then {} else if pc <= 4 then {BLINKY_PRIO} else {BLINKY_PRIO, TOGGLE_PRIO}
  }

  ghost predicate OsOk(s: Sys) {
    && O.Ok(s.os) && O.Live(s.os)
    && s.os.timeOut.Keys == Registered(s.mainPc)
    && s.os.ready + s.os.delayed == Enlisted(s.mainPc)
  }

  /** From its call to the end of its delay call the toggle thread is ready, and only the blinky thread runs above it. */
  ghost predicate ToggleGuarded(s: Sys)
    requires |s.race.ctx| == 3
  {
    !s.race.ctx[TOGGLE].Out? || s.toggleDelays ==>
      && TOGGLE_PRIO in s.os.ready
      && s.os.curr in {TOGGLE_PRIO, BLINKY_PRIO}
      && (s.os.pend ==> s.os.next in {TOGGLE_PRIO, BLINKY_PRIO})
  }

  /** PC2 is high exactly between the two stores of the handler. */
  predicate HandlerHigh(s: Sys)
    requires |s.race.ctx| == 3
  {
    match s.h
    case NotActive => false
    case InPC2On => s.race.ctx[HANDLER].Stored?
    case InPC2Off => !s.race.ctx[HANDLER].Stored?
    case _ => true
  }

  predicate HandlerOk(s: Sys)
    requires |s.race.ctx| == 3
  {
    var p := s.race.ctx[HANDLER];
    && (PC2 in s.race.port <==> HandlerHigh(s))
    && (!p.Out? ==> (s.h == InPC2On && p.op == Op(PC2, true)) || (s.h == InPC2Off && p.op == Op(PC2, false)))
    && (p.Loaded? || p.Modified? ==> p.atLoad == s.race.port)
    && s.edges == s.ticks + if s.h == InCount || (s.h == InPC2On && p.Stored?) then 1 else 0
  }

  predicate ToggleOk(s: Sys)
    requires |s.race.ctx| == 3
  {
    var p := s.race.ctx[TOGGLE];
    && (s.toggleDelays ==> p.Out?)
    && (p.Acquired? || p.Loaded? || p.Modified? ==> p.op == Op(PC3, |s.stores| % 2 == 0))
    && (p.Loaded? || p.Modified? ==> PC2 !in p.atLoad && p.atLoad == s.race.port - {PC2})
  }

  predicate IdleOk(s: Sys)
    requires |s.race.ctx| == 3
  {
    var p := s.race.ctx[IDLER];
    && (p.Acquired? || p.Loaded? || p.Modified? ==> p.op == Op(PC10, s.idled % 2 == 0))
    && (p.Loaded? || p.Modified? ==>
          && PC2 !in p.atLoad && p.atLoad - {PC3} == s.race.port - {PC2, PC3}
          && s.toggledAtLoad <= |s.stores|)
  }

  ghost predicate Inv(s: Sys) {
    && |s.race.ctx| == 3
    && RegistersOk(s.race)
    && OsOk(s) && ToggleGuarded(s) && HandlerOk(s) && ToggleOk(s) && IdleOk(s)
  }

  lemma BootInv(boot: set<int>)
    requires PC2 !in boot
    ensures Inv(Boot(boot))
  {
  }

  /** What the handler's port operations do to everything but its own part of the invariant. */
  lemma OthersKeep(s: Sys, t: Sys)
    requires Inv(s) && |t.race.ctx| == 3
    requires t == s.(race := t.race, edges := t.edges, h := t.h)
    requires t.race.ctx[TOGGLE] == s.race.ctx[TOGGLE] && t.race.ctx[IDLER] == s.race.ctx[IDLER]
    requires t.race.port - {PC2} == s.race.port - {PC2}
    requires t.race.ctx[HANDLER].Modified? ==>
               t.race.ctx[HANDLER].reg == Apply(t.race.ctx[HANDLER].op, t.race.ctx[HANDLER].atLoad)
    ensures RegistersOk(t.race) && OsOk(t) && ToggleGuarded(t) && ToggleOk(t) && IdleOk(t)
  {
    assert t.race.port - {PC2, PC3} == t.race.port - {PC2} - {PC3};
    assert s.race.port - {PC2, PC3} == s.race.port - {PC2} - {PC3};
    forall c | 0 <= c < 3 && t.race.ctx[c].Modified?
      ensures t.race.ctx[c].reg == Apply(t.race.ctx[c].op, t.race.ctx[c].atLoad)
    {
      assert c == HANDLER || t.race.ctx[c] == s.race.ctx[c];
    }
  }

  lemma HandlerOnInv(s: Sys)
    requires Inv(s) && s.h == InPC2On
    ensures Inv(HandlerNext(s))
  {
    OthersKeep(s, HandlerNext(s));
  }

  lemma HandlerOffInv(s: Sys)
    requires Inv(s) && s.h == InPC2Off
    ensures Inv(HandlerNext(s))
  {
    OthersKeep(s, HandlerNext(s));
  }

  lemma HandlerInv(s: Sys)
    requires Inv(s) && s.h != NotActive
    ensures Inv(HandlerNext(s))
  {
    match s.h
    case InTick => O.TickOk(s.os); O.TickLive(s.os);
    case InSched => O.SchedOk(s.os); O.SchedLive(s.os); SchedGuards(s.os);
    case InCount =>
    case InPC2On => HandlerOnInv(s);
    case InPC2Off => HandlerOffInv(s);
  }

  /** While the toggle thread is ready, OS_Sched leads to it or to the blinky thread. */
  lemma SchedGuards(os: O.Os)
    requires os.ready <= {TOGGLE_PRIO, BLINKY_PRIO}
    ensures TOGGLE_PRIO in os.ready ==> O.Target(os) in {TOGGLE_PRIO, BLINKY_PRIO}
  {
  }

  lemma MainOsOk(s: Sys)
    requires Inv(s) && s.h == NotActive && !s.os.pend && s.os.curr == O.NOBODY
    ensures OsOk(MainNext(s))
  {
    if s.mainPc == 0 { O.StartOkIff(s.os, O.IDLE, 0); }
    else if s.mainPc == 1 { O.RegisterOk(s.os, BLINKY_PRIO, 0); }
    else if s.mainPc == 3 { O.RegisterOk(s.os, TOGGLE_PRIO, 0); }
    else if s.mainPc == 5 { O.SchedOk(s.os); O.SchedLive(s.os); }
  }

  lemma MainInv(s: Sys)
    requires Inv(s) && s.h == NotActive && !s.os.pend && s.os.curr == O.NOBODY
    ensures Inv(MainNext(s))
  {
    MainOsOk(s);
  }

  lemma BlinkyInv(s: Sys)
    requires Inv(s) && s.h == NotActive && !s.os.pend && s.os.curr == BLINKY_PRIO
    ensures Inv(BlinkyNext(s))
  {
    if s.blinkyPc == 1 { DelayKeeps(s, 10); }
    else if s.blinkyPc == 3 { DelayKeeps(s, 20); }
  }

  lemma DelayKeeps(s: Sys, ticks: int)
    requires OsOk(s) && !s.os.pend && 1 <= s.os.curr && 0 <= ticks < O.WORD
    ensures var d := O.Delay(s.os, ticks);
            && O.Ok(d) && O.Live(d) && d.timeOut.Keys == s.os.timeOut.Keys
            && d.ready == s.os.ready - {s.os.curr} && d.delayed == s.os.delayed + {s.os.curr} && d.curr == s.os.curr
            && (TOGGLE_PRIO in d.ready ==> d.next in {TOGGLE_PRIO, BLINKY_PRIO})
  {
    O.ParkOk(s.os, ticks);
    O.SchedOk(O.Park(s.os, ticks));
    O.DelayLive(s.os, ticks);
    SchedGuards(O.Park(s.os, ticks));
  }

  lemma ToggleOwnOk(s: Sys)
    requires Inv(s) && s.h == NotActive && !s.os.pend && s.os.curr == TOGGLE_PRIO && !s.toggleDelays
    ensures var t := ToggleNext(s);
            RegistersOk(t.race) && ToggleGuarded(t) && ToggleOk(t)
  {
  }

  lemma ToggleOthersOk(s: Sys)
    requires Inv(s) && s.h == NotActive && !s.os.pend && s.os.curr == TOGGLE_PRIO && !s.toggleDelays
    ensures var t := ToggleNext(s);
            OsOk(t) && HandlerOk(t) && IdleOk(t)
  {
  }

  lemma ToggleInv(s: Sys)
    requires Inv(s) && s.h == NotActive && !s.os.pend && s.os.curr == TOGGLE_PRIO
    ensures Inv(ToggleNext(s))
  {
    if s.toggleDelays {
      DelayKeeps(s, if |s.stores| % 2 == 1 then 20 else 40);
    } else {
      ToggleOwnOk(s);
      ToggleOthersOk(s);
    }
  }

  lemma IdleOwnOk(s: Sys)
    requires Inv(s) && s.h == NotActive && !s.os.pend && s.os.curr == O.IDLE
    ensures RegistersOk(IdleNext(s).race) && IdleOk(IdleNext(s))
  {
  }

  lemma IdleOthersOk(s: Sys)
    requires Inv(s) && s.h == NotActive && !s.os.pend && s.os.curr == O.IDLE
    ensures var t := IdleNext(s);
            OsOk(t) && ToggleGuarded(t) && HandlerOk(t) && ToggleOk(t)
  {
  }

  lemma IdleInv(s: Sys)
    requires Inv(s) && s.h == NotActive && !s.os.pend && s.os.curr == O.IDLE
    ensures Inv(IdleNext(s))
  {
    IdleOwnOk(s);
    IdleOthersOk(s);
  }

  lemma NextInv(s: Sys, a: Action)
    requires Inv(s) && Allowed(s, a)
    ensures Inv(Next(s, a))
  {
    match a
    case Enter =>
    case HandlerStep => HandlerInv(s);
    case PendSv =>
    case ThreadStep =>
      if s.os.curr == O.NOBODY { MainInv(s); }
      else if s.os.curr == O.IDLE { IdleInv(s); }
      else if s.os.curr == TOGGLE_PRIO { ToggleInv(s); }
      else if s.os.curr == BLINKY_PRIO { BlinkyInv(s); }
  }

  lemma {:induction false} RunInv(s: Sys, acts: seq<Action>)
    requires Inv(s) && Runs(s, acts)
    ensures Inv(Exec(s, acts))
    decreases |acts|
  {
    if acts != [] {
      NextInv(s, acts[0]);
      RunInv(Next(s, acts[0]), acts[1..]);
    }
  }

  // ------------------------------------- the program is a race of contexts

  /** The context whose port step the action is, if it is one. */
  function Moving(s: Sys, a: Action): int {
    if a == HandlerStep && (s.h == InPC2On || s.h == InPC2Off) then HANDLER
    else if a == ThreadStep && s.os.curr == TOGGLE_PRIO && !s.toggleDelays then TOGGLE
    else if a == ThreadStep && s.os.curr == O.IDLE && s.wait.Awake? then IDLER
    else -1
  }

  /** The operation the context is in or about to call. */
  function OpOf(s: Sys, c: int): Op {
    if c == HANDLER then Op(PC2, s.h == InPC2On)
    else if c == TOGGLE then Op(PC3, |s.stores| % 2 == 0) else Op(PC10, s.idled % 2 == 0)
  }

  function PortStep(s: Sys, c: nat): Step
    requires c < |s.race.ctx|
  {
    if s.race.ctx[c].Out? then Call(c, OpOf(s, c)) else Go(c)
  }

  lemma MovingStep(s: Sys, a: Action)
    requires |s.race.ctx| == 3 && Allowed(s, a) && Moving(s, a) != -1
    ensures var e := PortStep(s, Moving(s, a));
            CanMove(s, e) && Next(s, a).race == PortRace.Next(s.race, e)
  {
  }

  lemma StillStep(s: Sys, a: Action)
    requires |s.race.ctx| == 3 && Allowed(s, a) && Moving(s, a) == -1
    ensures Next(s, a).race == s.race
  {
  }

  /** Every run of the program is, seen from port C, a run of three contexts in module PortRace. */
  lemma {:induction false} RaceOfRun(s: Sys, acts: seq<Action>) returns (es: seq<Step>)
    requires |s.race.ctx| == 3 && Runs(s, acts)
    ensures PortRace.Runs(s.race, es) && PortRace.Exec(s.race, es) == Exec(s, acts).race
    decreases |acts|
  {
    es := [];
    if acts != [] {
      es := RaceOfRun(Next(s, acts[0]), acts[1..]);
      if Moving(s, acts[0]) == -1 {
        StillStep(s, acts[0]);
      } else {
        MovingStep(s, acts[0]);
        var e := PortStep(s, Moving(s, acts[0]));
        Prepend(s.race, e, Next(s, acts[0]).race, es);
        es := [e] + es;
      }
    }
  }

  /** Every run: while port_c_lock is set, the handler or a thread is inside an operation, so the flag
      is clear whenever all are outside. */
  lemma FlagInProgram(boot: set<int>, acts: seq<Action>)
    requires Runs(Boot(boot), acts)
    ensures FlagExplained(Exec(Boot(boot), acts).race)
  {
    var es := RaceOfRun(Boot(boot), acts);
    FlagMeansInside(Boot(boot).race, es);
  }

  /** The context that clears the flag with the action, if any. */
  function Clearing(s: Sys, a: Action): int
    requires |s.race.ctx| == 3
  {
    if Moving(s, a) != -1 && s.race.ctx[Moving(s, a)].Stored? then Moving(s, a) else -1
  }

  ghost predicate StaysInside(s: Sys, acts: seq<Action>, c: nat)
    requires |s.race.ctx| == 3 && Runs(s, acts) && c < 3
    decreases |acts|
  {
    !s.race.ctx[c].Out? && (acts != [] ==> StaysInside(Next(s, acts[0]), acts[1..], c))
  }

  ghost predicate AlwaysSet(s: Sys, acts: seq<Action>)
    requires |s.race.ctx| == 3 && Runs(s, acts)
    decreases |acts|
  {
    s.race.flag && (acts != [] ==> AlwaysSet(Next(s, acts[0]), acts[1..]))
  }

  /** No context in `others` comes to its clear. */
  ghost predicate NoClearBy(s: Sys, acts: seq<Action>, others: set<int>)
    requires |s.race.ctx| == 3 && Runs(s, acts)
    decreases |acts|
  {
    acts != [] ==>
      Clearing(s, acts[0]) !in others && NoClearBy(Next(s, acts[0]), acts[1..], others)
  }

  /** The contexts that can step inside a section of `c`: the idle thread never runs inside the others'. */
  function Intruders(c: int): set<int> {
    if c == TOGGLE then {HANDLER} else if c == IDLER then {HANDLER, TOGGLE} else {}
  }

  lemma OnlyIntruders(s: Sys, a: Action, c: int)
    requires Inv(s) && Allowed(s, a) && 0 <= c < 3 && !s.race.ctx[c].Out?
    ensures Moving(s, a) in Intruders(c) + {c, -1}
  {
  }

  lemma FlagStep(s: Sys, a: Action)
    requires |s.race.ctx| == 3 && Allowed(s, a)
    ensures Next(s, a).race.flag <==>
              Clearing(s, a) == -1 && (s.race.flag || (Moving(s, a) != -1 && s.race.ctx[Moving(s, a)].Out?))
  {
    if Moving(s, a) == -1 { StillStep(s, a); } else { MovingStep(s, a); }
  }

  /** Every run of the program inside a section of `c` entered with the flag set: the flag stays set exactly as
      long as no intruder comes to its clear.  For the toggle thread that is the handler alone, and inside the
      handler's own sections the flag always stays set. */
  lemma {:induction false} SectionKeepsFlag(s: Sys, acts: seq<Action>, c: nat)
    requires Inv(s) && c < 3 && Runs(s, acts) && StaysInside(s, acts, c) && s.race.flag
    ensures AlwaysSet(s, acts) <==> NoClearBy(s, acts, Intruders(c))
    decreases |acts|
  {
    if acts != [] {
      var t := Next(s, acts[0]);
      NextInv(s, acts[0]);
      OnlyIntruders(s, acts[0], c);
      FlagStep(s, acts[0]);
      if Clearing(s, acts[0]) == c { OwnClear(s, acts[0], c); }
      if t.race.flag {
        SectionKeepsFlag(t, acts[1..], c);
      }
    }
  }

  /** A context that clears the flag leaves its section. */
  lemma OwnClear(s: Sys, a: Action, c: nat)
    requires |s.race.ctx| == 3 && Allowed(s, a) && c < 3 && Clearing(s, a) == c
    ensures |Next(s, a).race.ctx| == 3 && Next(s, a).race.ctx[c].Out?
  {
    MovingStep(s, a);
  }

  // --------------------------------------------------- PC2 traces the ticks

  /** Every run: PC2 is high exactly between the handler's two stores, and has risen once per
      tick, plus once while the handler stands between its first store and its increment. */
  lemma Pc2TracesTicks(boot: set<int>, acts: seq<Action>)
    requires PC2 !in boot && Runs(Boot(boot), acts)
    ensures var s := Exec(Boot(boot), acts);
            && |s.race.ctx| == 3
            && (2 in s.race.port <==> HandlerHigh(s))
            && (s.h == NotActive ==> 2 !in s.race.port)
            && s.edges == s.ticks + if s.h == InCount || (s.h == InPC2On && s.race.ctx[HANDLER].Stored?) then 1 else 0
  {
    BootInv(boot);
    RunInv(Boot(boot), acts);
  }

  // ---------------------------------------------- all pins but PC3 are atomic

  ghost predicate SerialButPc3(boot: set<int>, s: Sys) {
    && s.race.port - {PC3} == Serial(boot, s.race.commits) - {PC3}
    && (PC3 in Serial(boot, s.race.commits) <==> Level(boot, |s.stores|))
  }

  lemma ApplyBeside(op: Op, w: set<int>, v: set<int>)
    requires w - {PC3} == v - {PC3}
    ensures Apply(op, w) - {PC3} == Apply(op, v) - {PC3}
  {
    assert Apply(op, w) - {PC3} == Apply(op, w - {PC3}) - {PC3};
    assert Apply(op, v) - {PC3} == Apply(op, v - {PC3}) - {PC3};
  }

  /** What a store writes, from what the invariant says about the register. */
  lemma ToggleWord(s: Sys)
    requires Inv(s) && s.h == NotActive && s.race.ctx[TOGGLE].Modified?
    ensures s.race.ctx[TOGGLE].reg == Apply(OpOf(s, TOGGLE), s.race.port)
  {
    assert s.race.ctx[TOGGLE].atLoad == s.race.port;
  }

  lemma HandlerWord(s: Sys)
    requires Inv(s) && s.race.ctx[HANDLER].Modified?
    ensures s.race.ctx[HANDLER].reg == Apply(OpOf(s, HANDLER), s.race.port)
  {
  }

  lemma IdleWord(s: Sys)
    requires Inv(s) && s.h == NotActive && s.race.ctx[IDLER].Modified?
    ensures s.race.ctx[IDLER].reg - {PC3} == Apply(OpOf(s, IDLER), s.race.port) - {PC3}
    ensures PC3 in s.race.ctx[IDLER].reg <==> PC3 in s.race.ctx[IDLER].atLoad
  {
    var p := s.race.ctx[IDLER];
    assert p.atLoad - {PC3} == s.race.port - {PC3};
    ApplyBeside(p.op, p.atLoad, s.race.port);
  }

  /** The context whose store the action is, if it is one. */
  function Storing(s: Sys, a: Action): int
    requires |s.race.ctx| == 3
  {
    if Moving(s, a) != -1 && s.race.ctx[Moving(s, a)].Modified? then Moving(s, a) else -1
  }

  /** Only stores touch the port and the record of commits, and a PC3 store notes its tick. */
  lemma StoreStep(s: Sys, a: Action)
    requires Inv(s) && Allowed(s, a) && Storing(s, a) != -1
    ensures var c, t := Storing(s, a), Next(s, a);
            && t.race.port == s.race.ctx[c].reg
            && t.race.commits == s.race.commits + [OpOf(s, c)]
            && t.stores == (if c == TOGGLE then s.stores + [s.ticks] else s.stores)
  {
    MovingStep(s, a);
  }

  lemma OtherStep(s: Sys, a: Action)
    requires Inv(s) && Allowed(s, a) && Storing(s, a) == -1
    ensures var t := Next(s, a);
            t.race.port == s.race.port && t.race.commits == s.race.commits && t.stores == s.stores
  {
    if Moving(s, a) == -1 { StillStep(s, a); } else { MovingStep(s, a); }
  }

  /** A store that writes the atomic word, at least beside PC3, keeps the pins beside PC3 atomic. */
  lemma BesideKept(boot: set<int>, s: Sys, t: Sys, op: Op)
    requires SerialButPc3(boot, s) && t.race.commits == s.race.commits + [op]
    requires t.race.port - {PC3} == Apply(op, s.race.port) - {PC3}
    ensures t.race.port - {PC3} == Serial(boot, t.race.commits) - {PC3}
  {
    SerialOfCommit(boot, s.race.commits, op);
    ApplyBeside(op, s.race.port, Serial(boot, s.race.commits));
  }

  /** The atomic machine's PC3 follows the count of the toggle thread's stores. */
  lemma LevelKept(boot: set<int>, s: Sys, t: Sys, c: nat)
    requires SerialButPc3(boot, s) && c < 3 && t.race.commits == s.race.commits + [OpOf(s, c)]
    requires |t.stores| == |s.stores| + if c == TOGGLE then 1 else 0
    ensures PC3 in Serial(boot, t.race.commits) <==> Level(boot, |t.stores|)
  {
    SerialOfCommit(boot, s.race.commits, OpOf(s, c));
  }

  lemma ToggleSerial(boot: set<int>, s: Sys, a: Action)
    requires Inv(s) && SerialButPc3(boot, s) && Allowed(s, a) && Storing(s, a) == TOGGLE
    ensures SerialButPc3(boot, Next(s, a))
    ensures Next(s, a).race.port == Serial(boot, Next(s, a).race.commits)
  {
    var op := OpOf(s, TOGGLE);
    StoreStep(s, a);
    ToggleWord(s);
    BesideKept(boot, s, Next(s, a), op);
    LevelKept(boot, s, Next(s, a), TOGGLE);
    SerialOfCommit(boot, s.race.commits, op);
    LateStore(op, s.race.port, Serial(boot, s.race.commits));
  }

  lemma NextSerial(boot: set<int>, s: Sys, a: Action)
    requires Inv(s) && SerialButPc3(boot, s) && Allowed(s, a)
    ensures SerialButPc3(boot, Next(s, a))
  {
    var c := Storing(s, a);
    if c == -1 {
      OtherStep(s, a);
    } else if c == TOGGLE {
      ToggleSerial(boot, s, a);
    } else {
      StoreStep(s, a);
      if c == HANDLER { HandlerWord(s); } else { IdleWord(s); }
      BesideKept(boot, s, Next(s, a), OpOf(s, c));
      LevelKept(boot, s, Next(s, a), c);
    }
  }

  lemma {:induction false} RunSerial(boot: set<int>, s: Sys, acts: seq<Action>)
    requires Inv(s) && SerialButPc3(boot, s) && Runs(s, acts)
    ensures SerialButPc3(boot, Exec(s, acts))
    decreases |acts|
  {
    if acts != [] {
      NextSerial(boot, s, acts[0]);
      NextInv(s, acts[0]);
      RunSerial(boot, Next(s, acts[0]), acts[1..]);
    }
  }

  /** Every run: whatever is preempted where, every pin of port C except PC3 is what the committed
      operations, applied atomically in the order of their stores, make it. */
  lemma OtherPinsAtomic(boot: set<int>, acts: seq<Action>)
    requires PC2 !in boot && Runs(Boot(boot), acts)
    ensures var r := Exec(Boot(boot), acts).race;
            forall pin :: pin != 3 ==> (pin in r.port <==> pin in Serial(boot, r.commits))
  {
    BootInv(boot);
    RunSerial(boot, Boot(boot), acts);
    var r := Exec(Boot(boot), acts).race;
    forall pin | pin != PC3 ensures pin in r.port <==> pin in Serial(boot, r.commits) {
      assert pin in r.port - {PC3} <==> pin in r.port;
    }
  }

  // ------------------------------------------------ pins nobody writes

  predicate OnlyOn(commits: seq<Op>, pins: set<int>) {
    forall i :: 0 <= i < |commits| ==> commits[i].pin in pins
  }

  /** The idle thread takes no step in the run. */
  ghost predicate IdleSilent(s: Sys, acts: seq<Action>)
    requires |s.race.ctx| == 3 && Runs(s, acts)
    decreases |acts|
  {
    acts != [] ==>
      !(acts[0] == ThreadStep && s.os.curr == O.IDLE) && IdleSilent(Next(s, acts[0]), acts[1..])
  }

  lemma {:induction false} SerialKeeps(boot: set<int>, commits: seq<Op>, pins: set<int>, pin: int)
    requires OnlyOn(commits, pins) && pin !in pins
    ensures pin in Serial(boot, commits) <==> pin in boot
    decreases |commits|
  {
    if commits != [] {
      SerialKeeps(boot, commits[..|commits| - 1], pins, pin);
    }
  }

  /** Every run writes PC2 and PC3 only, and PC10 if the idle thread takes a step. */
  lemma {:induction false} RunPins(s: Sys, acts: seq<Action>, pins: set<int>)
    requires Inv(s) && Runs(s, acts) && OnlyOn(s.race.commits, pins)
    requires {PC2, PC3} <= pins && (PC10 in pins || IdleSilent(s, acts))
    ensures OnlyOn(Exec(s, acts).race.commits, pins)
    decreases |acts|
  {
    if acts != [] {
      NextInv(s, acts[0]);
      if Storing(s, acts[0]) == -1 { OtherStep(s, acts[0]); } else { StoreStep(s, acts[0]); }
      RunPins(Next(s, acts[0]), acts[1..], pins);
    }
  }

  /** Every run: every pin but PC2, PC3 and PC10 keeps its level of reset. */
  lemma UnusedPinsKeepBoot(boot: set<int>, acts: seq<Action>, pin: int)
    requires PC2 !in boot && Runs(Boot(boot), acts) && pin !in {2, 3, 10}
    ensures pin in Exec(Boot(boot), acts).race.port <==> pin in boot
  {
    var s := Exec(Boot(boot), acts);
    BootInv(boot);
    RunPins(Boot(boot), acts, {PC2, PC3, PC10});
    SerialKeeps(boot, s.race.commits, {PC2, PC3, PC10}, pin);
    OtherPinsAtomic(boot, acts);
  }

  // ------------------------------------------------------- exactly when PC3 is

  predicate Atomic(boot: set<int>, s: Sys) {
    s.race.port == Serial(boot, s.race.commits)
  }

  /** The idle thread is about to store a word it loaded before the toggle thread changed PC3 for good. */
  predicate StaleIdleStore(boot: set<int>, s: Sys, a: Action)
    requires |s.race.ctx| == 3
  {
    Storing(s, a) == IDLER && Level(boot, s.toggledAtLoad) != Level(boot, |s.stores|)
  }

  /** So far atomic, with the idle thread holding the PC3 level of its load. */
  ghost predicate SoFar(boot: set<int>, s: Sys)
    requires |s.race.ctx| == 3
  {
    var p := s.race.ctx[IDLER];
    && Atomic(boot, s)
    && (p.Loaded? || p.Modified? ==> (PC3 in p.atLoad <==> Level(boot, s.toggledAtLoad)))
  }

  lemma AtomicIsPc3(boot: set<int>, s: Sys)
    requires SerialButPc3(boot, s)
    ensures Atomic(boot, s) <==> (PC3 in s.race.port <==> Level(boot, |s.stores|))
  {
    var w, v := s.race.port, Serial(boot, s.race.commits);
    if PC3 in w <==> PC3 in v {
      assert w == (w - {PC3}) + (if PC3 in w then {PC3} else {});
      assert v == (v - {PC3}) + (if PC3 in v then {PC3} else {});
    }
  }

  lemma StepAtomic(boot: set<int>, s: Sys, a: Action)
    requires Inv(s) && SerialButPc3(boot, s) && SoFar(boot, s) && Allowed(s, a)
    ensures Atomic(boot, Next(s, a)) <==> !StaleIdleStore(boot, s, a)
    ensures Atomic(boot, Next(s, a)) ==> SoFar(boot, Next(s, a))
  {
    NextSerial(boot, s, a);
    AtomicIsPc3(boot, s);
    AtomicIsPc3(boot, Next(s, a));
    Pc3AfterStep(s, a);
    IdleSnapshot(s, a);
  }

  /** The level of PC3 after a step: what a toggle store or an idle store writes, and as before otherwise. */
  lemma Pc3AfterStep(s: Sys, a: Action)
    requires Inv(s) && Allowed(s, a)
    ensures var c, t := Storing(s, a), Next(s, a);
            && (PC3 in t.race.port <==>
                  if c == TOGGLE then |s.stores| % 2 == 0
                  else if c == IDLER then PC3 in s.race.ctx[IDLER].atLoad else PC3 in s.race.port)
            && |t.stores| == |s.stores| + if c == TOGGLE then 1 else 0
  {
    var c := Storing(s, a);
    if c == -1 {
      OtherStep(s, a);
    } else {
      StoreStep(s, a);
      if c == TOGGLE { ToggleWord(s); } else if c == HANDLER { HandlerWord(s); } else { IdleWord(s); }
    }
  }

  /** What the idle thread holds changes only by its own steps. */
  lemma IdleSnapshot(s: Sys, a: Action)
    requires Inv(s) && Allowed(s, a)
    ensures var p, t := s.race.ctx[IDLER], Next(s, a);
            && |t.race.ctx| == 3
            && var q := t.race.ctx[IDLER];
            (q.Loaded? || q.Modified? ==>
              if p.Loaded? || p.Modified? then q.atLoad == p.atLoad && t.toggledAtLoad == s.toggledAtLoad
              else q.atLoad == s.race.port && t.toggledAtLoad == |s.stores|)
  {
    if a == ThreadStep && s.os.curr == O.IDLE {
    } else {
      assert Next(s, a).race.ctx[IDLER] == s.race.ctx[IDLER] && Next(s, a).toggledAtLoad == s.toggledAtLoad;
    }
  }

  ghost predicate AlwaysAtomic(boot: set<int>, s: Sys, acts: seq<Action>)
    requires |s.race.ctx| == 3 && Runs(s, acts)
    decreases |acts|
  {
    Atomic(boot, s) && (acts != [] ==> AlwaysAtomic(boot, Next(s, acts[0]), acts[1..]))
  }

  ghost predicate NoStaleStore(boot: set<int>, s: Sys, acts: seq<Action>)
    requires |s.race.ctx| == 3 && Runs(s, acts)
    decreases |acts|
  {
    acts != [] ==>
      !StaleIdleStore(boot, s, acts[0]) && NoStaleStore(boot, Next(s, acts[0]), acts[1..])
  }

  lemma {:induction false} RunAtomic(boot: set<int>, s: Sys, acts: seq<Action>)
    requires Inv(s) && SerialButPc3(boot, s) && SoFar(boot, s) && Runs(s, acts)
    ensures AlwaysAtomic(boot, s, acts) <==> NoStaleStore(boot, s, acts)
    decreases |acts|
  {
    if acts != [] {
      var t := Next(s, acts[0]);
      NextInv(s, acts[0]);
      NextSerial(boot, s, acts[0]);
      StepAtomic(boot, s, acts[0]);
      if Atomic(boot, t) {
        RunAtomic(boot, t, acts[1..]);
      }
    }
  }

  /** Every run of the program: port C is what the atomic machine makes it at every moment exactly
      when the idle thread never stores a word whose PC3 level the toggle thread has changed since. */
  lemma Pc3AtomicIff(boot: set<int>, acts: seq<Action>)
    requires PC2 !in boot && Runs(Boot(boot), acts)
    ensures AlwaysAtomic(boot, Boot(boot), acts) <==> NoStaleStore(boot, Boot(boot), acts)
  {
    BootInv(boot);
    RunAtomic(boot, Boot(boot), acts);
  }

  /** With PC3 low at reset, that is: an odd number of PC3 stores between the load and the store. */
  lemma StaleIsOdd(boot: set<int>, s: Sys, a: Action)
    requires Inv(s) && PC3 !in boot
    ensures StaleIdleStore(boot, s, a) <==> Storing(s, a) == IDLER && (|s.stores| - s.toggledAtLoad) % 2 == 1
  {
  }

  lemma {:induction false} SilentIsNeverStale(boot: set<int>, s: Sys, acts: seq<Action>)
    requires |s.race.ctx| == 3 && Runs(s, acts) && IdleSilent(s, acts)
    ensures NoStaleStore(boot, s, acts)
    decreases |acts|
  {
    if acts != [] {
      SilentIsNeverStale(boot, Next(s, acts[0]), acts[1..]);
    }
  }

  /** Without stale stores the whole run stays atomic. */
  lemma {:induction false} RunSoFar(boot: set<int>, s: Sys, acts: seq<Action>)
    requires Inv(s) && SerialButPc3(boot, s) && SoFar(boot, s) && Runs(s, acts) && NoStaleStore(boot, s, acts)
    ensures SoFar(boot, Exec(s, acts)) && SerialButPc3(boot, Exec(s, acts))
    decreases |acts|
  {
    if acts != [] {
      NextInv(s, acts[0]);
      NextSerial(boot, s, acts[0]);
      StepAtomic(boot, s, acts[0]);
      RunSoFar(boot, Next(s, acts[0]), acts[1..]);
    }
  }

  /** The toggle thread against SysTick_Handler alone: however it is preempted, bit 3 is its last committed
      operation, bit 2 is low outside the handler, and every other bit keeps its level of reset. */
  lemma ToggleAloneIsAtomic(boot: set<int>, acts: seq<Action>)
    requires PC2 !in boot && Runs(Boot(boot), acts) && IdleSilent(Boot(boot), acts)
    ensures AlwaysAtomic(boot, Boot(boot), acts)
    ensures var s := Exec(Boot(boot), acts);
            && (3 in s.race.port <==> if s.stores == [] then 3 in boot else |s.stores| % 2 == 1)
            && (s.h == NotActive ==> 2 !in s.race.port)
            && forall pin :: pin !in {2, 3} ==> (pin in s.race.port <==> pin in boot)
  {
    var b, s := Boot(boot), Exec(Boot(boot), acts);
    SilentIsNeverStale(boot, b, acts);
    Pc3AtomicIff(boot, acts);
    BootInv(boot);
    RunSoFar(boot, b, acts);
    AtomicIsPc3(boot, s);
    Pc2TracesTicks(boot, acts);
    RunPins(b, acts, {PC2, PC3});
    forall pin | pin !in {PC2, PC3} ensures pin in s.race.port <==> pin in boot {
      SerialKeeps(boot, s.race.commits, {PC2, PC3}, pin);
    }
  }

  /** No SysTick is taken between the idle thread's load and its store: something one can see to beforehand,
      for instance by masking interrupts there. */
  ghost predicate WindowUndisturbed(s: Sys, acts: seq<Action>)
    requires |s.race.ctx| == 3 && Runs(s, acts)
    decreases |acts|
  {
    acts != [] ==>
      && !(acts[0] == Enter && (s.race.ctx[IDLER].Loaded? || s.race.ctx[IDLER].Modified?))
      && WindowUndisturbed(Next(s, acts[0]), acts[1..])
  }

  /** Then nothing but the idle thread steps there. */
  predicate Alone(s: Sys)
    requires |s.race.ctx| == 3
  {
    s.race.ctx[IDLER].Loaded? || s.race.ctx[IDLER].Modified? ==>
      s.h == NotActive && !s.os.pend && s.os.curr == O.IDLE && s.toggledAtLoad == |s.stores|
  }

  lemma NextAlone(s: Sys, a: Action)
    requires Inv(s) && Alone(s) && Allowed(s, a)
    requires !(a == Enter && (s.race.ctx[IDLER].Loaded? || s.race.ctx[IDLER].Modified?))
    ensures |Next(s, a).race.ctx| == 3 && Alone(Next(s, a))
  {
    if a == ThreadStep && s.os.curr == O.IDLE {
    } else if Moving(s, a) == -1 { StillStep(s, a); } else { MovingStep(s, a); }
  }

  lemma {:induction false} UndisturbedIsNeverStale(boot: set<int>, s: Sys, acts: seq<Action>)
    requires Inv(s) && Alone(s) && Runs(s, acts) && WindowUndisturbed(s, acts)
    ensures NoStaleStore(boot, s, acts)
    decreases |acts|
  {
    if acts != [] {
      NextInv(s, acts[0]);
      NextAlone(s, acts[0]);
      UndisturbedIsNeverStale(boot, Next(s, acts[0]), acts[1..]);
    }
  }

  /** Every run in which no SysTick falls between the idle thread's load and its store is atomic throughout. */
  lemma UndisturbedIsAtomic(boot: set<int>, acts: seq<Action>)
    requires PC2 !in boot && Runs(Boot(boot), acts) && WindowUndisturbed(Boot(boot), acts)
    ensures AlwaysAtomic(boot, Boot(boot), acts)
  {
    BootInv(boot);
    UndisturbedIsNeverStale(boot, Boot(boot), acts);
    Pc3AtomicIff(boot, acts);
  }

  /** Every run, stale stores or not: a store of the toggle thread makes the whole port right again. */
  lemma ToggleStoreRepairs(boot: set<int>, acts: seq<Action>)
    requires PC2 !in boot && Runs(Boot(boot), acts)
    ensures var s := Exec(Boot(boot), acts);
            && Inv(s)
            && (Allowed(s, ThreadStep) && Storing(s, ThreadStep) == TOGGLE ==> Atomic(boot, Next(s, ThreadStep)))
  {
    BootInv(boot);
    RunInv(Boot(boot), acts);
    RunSerial(boot, Boot(boot), acts);
    var s := Exec(Boot(boot), acts);
    if Allowed(s, ThreadStep) && Storing(s, ThreadStep) == TOGGLE {
      ToggleSerial(boot, s, ThreadStep);
    }
  }

  /** Every change of PC3's level in the run is a store of the toggle thread. */
  ghost predicate Pc3ChangesAtToggles(s: Sys, acts: seq<Action>)
    requires |s.race.ctx| == 3 && Runs(s, acts)
    decreases |acts|
  {
    acts != [] ==> (
      var t := Next(s, acts[0]);
      && ((3 in t.race.port <==> 3 !in s.race.port) ==> Storing(s, acts[0]) == TOGGLE && s.os.curr == 2)
      && Pc3ChangesAtToggles(t, acts[1..]))
  }

  lemma {:induction false} RunChanges(boot: set<int>, s: Sys, acts: seq<Action>)
    requires Inv(s) && SerialButPc3(boot, s) && SoFar(boot, s) && Runs(s, acts) && NoStaleStore(boot, s, acts)
    ensures Pc3ChangesAtToggles(s, acts)
    decreases |acts|
  {
    if acts != [] {
      NextInv(s, acts[0]);
      NextSerial(boot, s, acts[0]);
      StepAtomic(boot, s, acts[0]);
      AtomicIsPc3(boot, s);
      Pc3AfterStep(s, acts[0]);
      RunChanges(boot, Next(s, acts[0]), acts[1..]);
    }
  }

  /** Every run without a stale store of the idle thread: the level of PC3 changes only at stores of the
      toggle thread. */
  lemma Pc3ChangesOnlyAt(boot: set<int>, acts: seq<Action>)
    requires PC2 !in boot && Runs(Boot(boot), acts) && NoStaleStore(boot, Boot(boot), acts)
    ensures Pc3ChangesAtToggles(Boot(boot), acts)
  {
    BootInv(boot);
    RunChanges(boot, Boot(boot), acts);
  }

  // ------------------------------------------------- PC3's own operations

  function Pc3Stores(commits: seq<Op>): nat {
    if commits == [] then 0
    else Pc3Stores(commits[..|commits| - 1]) + if commits[|commits| - 1].pin == PC3 then 1 else 0
  }

  /** Among the committed operations, those on PC3 are On, Off, On, Off from the first. */
  predicate Pc3Alternates(commits: seq<Op>) {
    commits == [] ||
    var before, last := commits[..|commits| - 1], commits[|commits| - 1];
    Pc3Alternates(before) && (last.pin == PC3 ==> (last.on <==> Pc3Stores(before) % 2 == 0))
  }

  lemma CommitAlternates(commits: seq<Op>, op: Op)
    requires Pc3Alternates(commits) && (op.pin == PC3 ==> (op.on <==> Pc3Stores(commits) % 2 == 0))
    ensures Pc3Alternates(commits + [op])
    ensures Pc3Stores(commits + [op]) == Pc3Stores(commits) + if op.pin == PC3 then 1 else 0
  {
    assert (commits + [op])[..|commits|] == commits;
  }

  lemma NextAlternates(s: Sys, a: Action)
    requires Inv(s) && Allowed(s, a)
    requires Pc3Alternates(s.race.commits) && Pc3Stores(s.race.commits) == |s.stores|
    ensures Pc3Alternates(Next(s, a).race.commits) && Pc3Stores(Next(s, a).race.commits) == |Next(s, a).stores|
  {
    if Storing(s, a) == -1 {
      OtherStep(s, a);
    } else {
      StoreStep(s, a);
      CommitAlternates(s.race.commits, OpOf(s, Storing(s, a)));
    }
  }

  /** Every run: the committed PC3 stores alternate, and `stores` has one entry for each. */
  lemma {:induction false} Pc3StoresAlternate(s: Sys, acts: seq<Action>)
    requires Inv(s) && Runs(s, acts)
    requires Pc3Alternates(s.race.commits) && Pc3Stores(s.race.commits) == |s.stores|
    ensures Pc3Alternates(Exec(s, acts).race.commits)
    ensures Pc3Stores(Exec(s, acts).race.commits) == |Exec(s, acts).stores|
    decreases |acts|
  {
    if acts != [] {
      NextAlternates(s, acts[0]);
      NextInv(s, acts[0]);
      Pc3StoresAlternate(Next(s, acts[0]), acts[1..]);
    }
  }

  // ------------------------------------------ the highest priority runs

  /** No SysTick is taken while PendSV is pending, as the processor does at equal priorities. */
  ghost predicate PendSvFirst(s: Sys, acts: seq<Action>)
    requires |s.race.ctx| == 3 && Runs(s, acts)
    decreases |acts|
  {
    acts != [] ==>
      !(acts[0] == Enter && s.os.pend) && PendSvFirst(Next(s, acts[0]), acts[1..])
  }

  /** Nothing is pending while the handler is on its way to OS_Sched; but for main and the handler between
      OS_Tick and OS_Sched, the highest-priority ready thread is in charge. */
  ghost predicate InCharge(s: Sys) {
    && (s.h in {InPC2On, InCount, InTick, InSched} ==> !s.os.pend)
    && ((s.os.curr != O.NOBODY || s.os.pend) && s.h != InSched ==> O.Correct(s.os))
  }

  lemma ThreadInCharge(s: Sys)
    requires Inv(s) && InCharge(s) && Allowed(s, ThreadStep)
    ensures InCharge(ThreadNext(s))
  {
    var ticks :=
      if s.os.curr == TOGGLE_PRIO && s.toggleDelays then if |s.stores| % 2 == 1 then 20 else 40
      else if s.os.curr == BLINKY_PRIO && s.blinkyPc == 1 then 10
      else if s.os.curr == BLINKY_PRIO && s.blinkyPc == 3 then 20 else -1;
    if s.os.curr == O.NOBODY {
      if s.mainPc == 5 { O.RunStartsCorrect(s.os); }
    } else if ticks != -1 {
      O.StepCorrect(s.os, O.DelayCall(ticks));
    }
  }

  lemma NextInCharge(s: Sys, a: Action)
    requires Inv(s) && InCharge(s) && Allowed(s, a) && !(a == Enter && s.os.pend)
    ensures InCharge(Next(s, a))
  {
    if a == ThreadStep {
      ThreadInCharge(s);
    } else if a == HandlerStep && s.h == InSched && s.mainPc > 0 {
      O.TargetRegistered(s.os);
    }
  }

  lemma {:induction false} RunInCharge(s: Sys, acts: seq<Action>)
    requires Inv(s) && InCharge(s) && Runs(s, acts) && PendSvFirst(s, acts)
    ensures InCharge(Exec(s, acts))
    decreases |acts|
  {
    if acts != [] {
      NextInCharge(s, acts[0]);
      NextInv(s, acts[0]);
      RunInCharge(Next(s, acts[0]), acts[1..]);
    }
  }

  /** A thread that may take a step is the highest-priority ready thread, or the idle thread and no
      thread is ready. */
  ghost predicate OnlyHighestSteps(s: Sys) {
    Allowed(s, ThreadStep) && s.os.curr != O.NOBODY ==>
      if s.os.ready == {} then s.os.curr == O.IDLE else O.IsHighest(s.os.ready, s.os.curr)
  }

  /** Every run with PendSV taken first: only the highest-priority ready thread takes steps. */
  lemma HighestRuns(boot: set<int>, acts: seq<Action>)
    requires PC2 !in boot && Runs(Boot(boot), acts) && PendSvFirst(Boot(boot), acts)
    ensures OnlyHighestSteps(Exec(Boot(boot), acts))
  {
    BootInv(boot);
    RunInv(Boot(boot), acts);
    RunInCharge(Boot(boot), acts);
  }

  // -------------------------------------------------- no switch to oneself

  lemma NextNoSelfSwitch(s: Sys, a: Action)
    requires Inv(s) && Allowed(s, a) && O.NoSelfSwitch(s.os)
    ensures O.NoSelfSwitch(Next(s, a).os)
  {
  }

  lemma {:induction false} RunNoSelfSwitch(s: Sys, acts: seq<Action>)
    requires Inv(s) && Runs(s, acts) && O.NoSelfSwitch(s.os)
    ensures O.NoSelfSwitch(Exec(s, acts).os)
    decreases |acts|
  {
    if acts != [] {
      NextInv(s, acts[0]);
      NextNoSelfSwitch(s, acts[0]);
      RunNoSelfSwitch(Next(s, acts[0]), acts[1..]);
    }
  }

  /** Every run of the program: PendSV always switches to another thread than the running one. */
  lemma SwitchesAreChanges(boot: set<int>, acts: seq<Action>)
    requires PC2 !in boot && Runs(Boot(boot), acts)
    ensures var os := Exec(Boot(boot), acts).os;
            os.pend ==> os.next != os.curr
  {
    BootInv(boot);
    RunNoSelfSwitch(Boot(boot), acts);
  }

  // ------------------------------------------------------- losing main

  /** main is switched out for good: a switch is pending or has been made. */
  predicate MainLeft(s: Sys) {
    s.os.pend || s.os.curr != O.NOBODY
  }

  /** The tick's scheduling step falls after OS_Init and before the last thread is ready. */
  predicate Overrun(s: Sys, a: Action) {
    a == HandlerStep && s.h == InSched && 1 <= s.mainPc <= 4 && s.os.curr == O.NOBODY
  }

  ghost predicate NoOverrun(s: Sys, acts: seq<Action>)
    requires |s.race.ctx| == 3 && Runs(s, acts)
    decreases |acts|
  {
    acts != [] ==> !Overrun(s, acts[0]) && NoOverrun(Next(s, acts[0]), acts[1..])
  }

  lemma MainStays(s: Sys, a: Action)
    requires Inv(s) && Allowed(s, a) && MainLeft(s)
    ensures MainLeft(Next(s, a)) && Next(s, a).mainPc == s.mainPc
    ensures s.os.curr != O.NOBODY ==> Next(s, a).os.curr != O.NOBODY
  {
  }

  /** Once a switch is pending main never gets another step. */
  lemma {:induction false} MainIsGone(s: Sys, acts: seq<Action>)
    requires Inv(s) && Runs(s, acts) && MainLeft(s)
    ensures MainLeft(Exec(s, acts)) && Exec(s, acts).mainPc == s.mainPc
    ensures s.mainPc >= 5 ==> NoOverrun(s, acts)
    decreases |acts|
  {
    if acts != [] {
      NextInv(s, acts[0]);
      MainStays(s, acts[0]);
      MainIsGone(Next(s, acts[0]), acts[1..]);
    }
  }

  lemma MainLeaves(s: Sys, a: Action)
    requires Inv(s) && Allowed(s, a) && !MainLeft(s)
    ensures MainLeft(Next(s, a)) ==> (Next(s, a).mainPc >= 5 <==> !Overrun(s, a))
    ensures Overrun(s, a) ==> MainLeft(Next(s, a))
  {
    if a == HandlerStep && s.h == InSched && 1 <= s.mainPc { O.TargetRegistered(s.os); }
  }

  lemma {:induction false} RunOfMain(s: Sys, acts: seq<Action>)
    requires Inv(s) && Runs(s, acts) && !MainLeft(s) && MainLeft(Exec(s, acts))
    ensures Exec(s, acts).mainPc >= 5 <==> NoOverrun(s, acts)
    decreases |acts|
  {
    if acts != [] {
      var t := Next(s, acts[0]);
      NextInv(s, acts[0]);
      MainLeaves(s, acts[0]);
      if MainLeft(t) {
        MainIsGone(t, acts[1..]);
      } else {
        RunOfMain(t, acts[1..]);
      }
    }
  }

  /** Every run that has come to its first switch: both threads are ever ready or delayed if and only if no
      tick's scheduling step fell between OS_Init and the end of the last OSThread_Start. */
  lemma ThreadsStartIff(boot: set<int>, acts: seq<Action>)
    requires PC2 !in boot && Runs(Boot(boot), acts) && MainLeft(Exec(Boot(boot), acts))
    ensures var os := Exec(Boot(boot), acts).os;
            os.ready + os.delayed == {2, 3} <==> NoOverrun(Boot(boot), acts)
  {
    BootInv(boot);
    RunInv(Boot(boot), acts);
    RunOfMain(Boot(boot), acts);
  }

  /** Every run: the idle thread is entered first, then the blinky thread with priority 3, then the toggle thread
      with priority 2, each made ready before the next is entered. */
  lemma StartOrder(boot: set<int>, acts: seq<Action>)
    requires PC2 !in boot && Runs(Boot(boot), acts)
    ensures var os := Exec(Boot(boot), acts).os;
            || (os.ready + os.delayed == {} && (os.timeOut.Keys == {} || os.timeOut.Keys == {0} || os.timeOut.Keys == {0, 3}))
            || (os.ready + os.delayed == {3} && (os.timeOut.Keys == {0, 3} || os.timeOut.Keys == {0, 2, 3}))
            || (os.ready + os.delayed == {2, 3} && os.timeOut.Keys == {0, 2, 3})
  {
    BootInv(boot);
    RunInv(Boot(boot), acts);
  }

  /** Every run: the threads that are ever ready or delayed after the first switch are those main had
      made ready by then. */
  lemma ThreadsAtFirstSwitch(boot: set<int>, before: seq<Action>, after: seq<Action>)
    requires PC2 !in boot && Runs(Boot(boot), before)
    requires MainLeft(Exec(Boot(boot), before)) && Runs(Exec(Boot(boot), before), after)
    ensures var s, t := Exec(Boot(boot), before), Exec(Exec(Boot(boot), before), after);
            t.os.ready + t.os.delayed == Enlisted(s.mainPc) && t.os.timeOut.Keys == Registered(s.mainPc)
  {
    BootInv(boot);
    RunInv(Boot(boot), before);
    var s := Exec(Boot(boot), before);
    RunInv(s, after);
    MainIsGone(s, after);
  }
}
