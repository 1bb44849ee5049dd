/**
 Runs of the shipped program, from the first step of main, that go wrong.  In one the idle thread's
 stale store undoes PC3_Off: it pulses PC10 once after every tick, but the tick that ends the toggle
 thread's delay of 20 falls between its load and its store, and PC3 ends high although its last
 committed operation was Off.  In the others the handler clears the flag inside a section of the
 toggle thread, and a tick during start-up loses main.
 */
module LostUpdate {
  import opened Gpio
  import opened PortRace
  import opened Deployment
  import O = OsSpec

  ghost predicate Reach(s: Sys, t: Sys)
    requires |s.race.ctx| == 3
  {
    exists acts :: Deployment.Runs(s, acts) && Deployment.Exec(s, acts) == t
  }

  lemma {:induction false} Join(s: Sys, xs: seq<Action>, ys: seq<Action>)
    requires |s.race.ctx| == 3 && Deployment.Runs(s, xs)
    ensures |Deployment.Exec(s, xs).race.ctx| == 3
    ensures Deployment.Runs(Deployment.Exec(s, xs), ys) ==> Deployment.Runs(s, xs + ys)
    ensures Deployment.Exec(s, xs + ys) == Deployment.Exec(Deployment.Exec(s, xs), ys)
    decreases |xs|
  {
    if xs == [] {
      assert xs + ys == ys;
    } else {
      assert (xs + ys)[1..] == xs[1..] + ys;
      Join(Deployment.Next(s, xs[0]), xs[1..], ys);
    }
  }

  lemma Then(s: Sys, t: Sys, a: Action)
    requires |s.race.ctx| == 3 && |t.race.ctx| == 3 && Reach(s, t) && Allowed(t, a)
    ensures Reach(s, Deployment.Next(t, a)) && |Deployment.Next(t, a).race.ctx| == 3
  {
    var u := Deployment.Next(t, a);
    var xs :| Deployment.Runs(s, xs) && Deployment.Exec(s, xs) == t;
    assert [a][1..] == [];
    assert Deployment.Runs(u, []) && Deployment.Exec(u, []) == u;
    assert Deployment.Runs(t, [a]) && Deployment.Exec(t, [a]) == u;
    Join(s, xs, [a]);
  }

  /** A complete handler in front of a waiting thread: the port is as before, the scheduler has ticked. */
  lemma HandlerRun(s: Sys, t: Sys) returns (u: Sys)
    requires |s.race.ctx| == 3 && |t.race.ctx| == 3 && Reach(s, t)
    requires t.h == NotActive && t.race.ctx[HANDLER].Out? && PC2 !in t.race.port
    ensures |u.race.ctx| == 3 && Reach(s, u)
    ensures u.race.port == t.race.port && u.race.ctx == t.race.ctx
    ensures !u.race.flag
    ensures u == t.(race := u.race, os := O.Sched(O.Tick(t.os)), ticks := t.ticks + 1, edges := u.edges,
                    wait := if t.wait == Asleep then Awake else t.wait)
  {
    Then(s, t, Enter);
    var a := HandlerHalf(s, Deployment.Next(t, Enter));
    Then(s, a, HandlerStep);
    var b := Deployment.Next(a, HandlerStep);
    Then(s, b, HandlerStep);
    var c := Deployment.Next(b, HandlerStep);
    Then(s, c, HandlerStep);
    u := HandlerHalf(s, Deployment.Next(c, HandlerStep));
    assert t.race.port == t.race.port + {PC2} - {PC2};
  }

  /** Test-and-set, load and modification of PC2_On, or of PC2_Off, in the handler. */
  lemma HandlerLoads(s: Sys, t: Sys) returns (u: Sys)
    requires |s.race.ctx| == 3 && |t.race.ctx| == 3 && Reach(s, t)
    requires (t.h == InPC2On || t.h == InPC2Off) && t.race.ctx[HANDLER].Out?
    ensures |u.race.ctx| == 3 && Reach(s, u) && u == t.(race := u.race, edges := u.edges)
    ensures var op := Op(PC2, t.h == InPC2On);
            && u.race.ctx == t.race.ctx[HANDLER := Modified(op, t.race.port, Apply(op, t.race.port))]
            && u.race.port == t.race.port
  {
    Then(s, t, HandlerStep);
    var a := Deployment.Next(t, HandlerStep);
    Then(s, a, HandlerStep);
    var b := Deployment.Next(a, HandlerStep);
    Then(s, b, HandlerStep);
    u := Deployment.Next(b, HandlerStep);
  }

  /** All five steps. */
  lemma HandlerHalf(s: Sys, t: Sys) returns (u: Sys)
    requires |s.race.ctx| == 3 && |t.race.ctx| == 3 && Reach(s, t)
    requires (t.h == InPC2On || t.h == InPC2Off) && t.race.ctx[HANDLER].Out?
    ensures |u.race.ctx| == 3 && Reach(s, u) && u.race.ctx == t.race.ctx
    ensures u.race.port == Apply(Op(PC2, t.h == InPC2On), t.race.port) && !u.race.flag
    ensures u == t.(race := u.race, edges := u.edges, h := if t.h == InPC2On then InCount else NotActive)
  {
    var c := HandlerLoads(s, t);
    Then(s, c, HandlerStep);
    var d := Deployment.Next(c, HandlerStep);
    Then(s, d, HandlerStep);
    u := Deployment.Next(d, HandlerStep);
    assert u.race.ctx == t.race.ctx;
  }

  /** The scheduler while the idle thread runs and both other threads sleep. */
  function BothAsleep(toggle: int, blinky: int): O.Os {
    O.Os({}, {TOGGLE_PRIO, BLINKY_PRIO}, map[O.IDLE := 0, TOGGLE_PRIO := toggle, BLINKY_PRIO := blinky], O.IDLE, O.IDLE, false)
  }

  lemma QuietTick(a: int, b: int)
    requires a > 1 && b > 1
    ensures O.Sched(O.Tick(BothAsleep(a, b))) == BothAsleep(a - 1, b - 1)
  {
    assert O.Expiring(BothAsleep(a, b)) == {};
    assert O.Tick(BothAsleep(a, b)).timeOut == BothAsleep(a - 1, b - 1).timeOut;
  }

  /** The idle thread's test-and-set and load. */
  lemma IdleLoads(s: Sys, t: Sys) returns (u: Sys)
    requires |s.race.ctx| == 3 && |t.race.ctx| == 3 && Reach(s, t)
    requires t.h == NotActive && !t.os.pend && t.os.curr == O.IDLE && t.wait == Awake && t.race.ctx[IDLER].Out?
    ensures |u.race.ctx| == 3 && Reach(s, u)
    ensures u.race.ctx == t.race.ctx[IDLER := Loaded(Op(PC10, t.idled % 2 == 0), t.race.port)]
    ensures u.race.port == t.race.port && u == t.(race := u.race, edges := u.edges, toggledAtLoad := |t.stores|)
  {
    Then(s, t, ThreadStep);
    var a := Deployment.Next(t, ThreadStep);
    Then(s, a, ThreadStep);
    u := Deployment.Next(a, ThreadStep);
  }

  /** Its modification and store. */
  lemma IdleStores(s: Sys, t: Sys) returns (u: Sys)
    requires |s.race.ctx| == 3 && |t.race.ctx| == 3 && Reach(s, t)
    requires t.h == NotActive && !t.os.pend && t.os.curr == O.IDLE && t.wait == Awake && t.race.ctx[IDLER].Loaded?
    ensures |u.race.ctx| == 3 && Reach(s, u)
    ensures u.race.ctx == t.race.ctx[IDLER := Stored(t.race.ctx[IDLER].op)]
    ensures u.race.port == Apply(t.race.ctx[IDLER].op, t.race.ctx[IDLER].atLoad)
    ensures u == t.(race := u.race, edges := u.edges, idled := t.idled + 1)
  {
    Then(s, t, ThreadStep);
    var a := Deployment.Next(t, ThreadStep);
    Then(s, a, ThreadStep);
    u := Deployment.Next(a, ThreadStep);
  }

  /** One PC10 operation of the idle thread. */
  lemma IdleHalf(s: Sys, t: Sys) returns (u: Sys)
    requires |s.race.ctx| == 3 && |t.race.ctx| == 3 && Reach(s, t)
    requires t.h == NotActive && !t.os.pend && t.os.curr == O.IDLE && t.wait == Awake && t.race.ctx[IDLER].Out?
    ensures |u.race.ctx| == 3 && Reach(s, u) && u.race.ctx == t.race.ctx
    ensures u.race.port == Apply(Op(PC10, t.idled % 2 == 0), t.race.port)
    ensures u == t.(race := u.race, edges := u.edges, idled := t.idled + 1, toggledAtLoad := |t.stores|,
                    wait := if t.idled % 2 == 1 then Dozing else Awake)
  {
    var a := IdleLoads(s, t);
    var b := IdleStores(s, a);
    Then(s, b, ThreadStep);
    u := Deployment.Next(b, ThreadStep);
    assert u.race.ctx == t.race.ctx;
  }

  /** A round of OS_OnIdle: a pulse on PC10, and the wait. */
  lemma IdleRound(s: Sys, t: Sys) returns (u: Sys)
    requires |s.race.ctx| == 3 && |t.race.ctx| == 3 && Reach(s, t)
    requires t.h == NotActive && !t.os.pend && t.os.curr == O.IDLE && t.wait == Awake && t.race.ctx[IDLER].Out?
    requires t.idled % 2 == 0 && PC10 !in t.race.port
    ensures |u.race.ctx| == 3 && Reach(s, u)
    ensures u.race.port == t.race.port && u.race.ctx == t.race.ctx
    ensures u == t.(race := u.race, edges := u.edges, idled := t.idled + 2, toggledAtLoad := |t.stores|, wait := Asleep)
  {
    var a := IdleHalf(s, t);
    var b := IdleHalf(s, a);
    Then(s, b, ThreadStep);
    u := Deployment.Next(b, ThreadStep);
    assert t.race.port == t.race.port + {PC10} - {PC10};
  }

  /** The idle thread, between two rounds, while both other threads sleep. */
  predicate Idling(t: Sys) {
    && |t.race.ctx| == 3 && t.race.ctx[HANDLER].Out? && t.race.ctx[IDLER].Out?
    && t.h == NotActive && t.wait == Awake && t.idled % 2 == 0
    && PC2 !in t.race.port && PC10 !in t.race.port
  }

  /** n ticks that wake nobody, with a round of the idle thread before each. */
  lemma {:induction false} QuietTicks(s: Sys, t: Sys, n: nat, a: int, b: int) returns (u: Sys)
    requires |s.race.ctx| == 3 && Idling(t) && Reach(s, t)
    requires t.os == BothAsleep(a, b) && a > n && b > n
    ensures Idling(u) && Reach(s, u)
    ensures u.race.port == t.race.port && u.race.ctx == t.race.ctx
    ensures u == t.(race := u.race, os := BothAsleep(a - n, b - n), ticks := t.ticks + n, edges := u.edges,
                    idled := t.idled + 2 * n, toggledAtLoad := u.toggledAtLoad)
    decreases n
  {
    if n == 0 {
      u := t;
    } else {
      var v := IdleRound(s, t);
      var w := HandlerRun(s, v);
      QuietTick(a, b);
      u := QuietTicks(s, w, n - 1, a - 1, b - 1);
    }
  }

  /** One PC3 operation of the toggle thread, up to its delay call. */
  lemma ToggleRun(s: Sys, t: Sys) returns (u: Sys)
    requires |s.race.ctx| == 3 && |t.race.ctx| == 3 && Reach(s, t)
    requires t.h == NotActive && !t.os.pend && t.os.curr == TOGGLE_PRIO && t.race.ctx[TOGGLE].Out? && !t.toggleDelays
    ensures |u.race.ctx| == 3 && Reach(s, u) && u.race.ctx == t.race.ctx
    ensures u.race.port == Apply(Op(PC3, |t.stores| % 2 == 0), t.race.port)
    ensures u == t.(race := u.race, edges := u.edges, stores := t.stores + [t.ticks], toggleDelays := true)
  {
    Then(s, t, ThreadStep);
    var a := Deployment.Next(t, ThreadStep);
    Then(s, a, ThreadStep);
    var b := Deployment.Next(a, ThreadStep);
    Then(s, b, ThreadStep);
    var c := Deployment.Next(b, ThreadStep);
    Then(s, c, ThreadStep);
    var d := Deployment.Next(c, ThreadStep);
    Then(s, d, ThreadStep);
    u := Deployment.Next(d, ThreadStep);
    assert u.race.ctx == t.race.ctx;
  }

  function TimeOuts(toggle: int, blinky: int): map<int, int> {
    map[O.IDLE := 0, TOGGLE_PRIO := toggle, BLINKY_PRIO := blinky]
  }

  /** main starts the three threads. */
  lemma MainStarts(s: Sys) returns (u: Sys)
    requires s == Boot({})
    ensures Reach(s, u)
    ensures u == s.(mainPc := 5, os := O.Os({TOGGLE_PRIO, BLINKY_PRIO}, {}, TimeOuts(0, 0), O.NOBODY, O.NOBODY, false))
  {
    assert Deployment.Runs(s, []) && Deployment.Exec(s, []) == s;
    Then(s, s, ThreadStep);
    var a := Deployment.Next(s, ThreadStep);
    Then(s, a, ThreadStep);
    var b := Deployment.Next(a, ThreadStep);
    Then(s, b, ThreadStep);
    var c := Deployment.Next(b, ThreadStep);
    Then(s, c, ThreadStep);
    var d := Deployment.Next(c, ThreadStep);
    Then(s, d, ThreadStep);
    u := Deployment.Next(d, ThreadStep);
    assert u.os.ready == {TOGGLE_PRIO, BLINKY_PRIO} && u.os.timeOut == TimeOuts(0, 0);
  }

  /** OS_Run asks for the blinky thread. */
  lemma MainRun(s: Sys) returns (u: Sys)
    requires s == Boot({})
    ensures Reach(s, u)
    ensures u == s.(mainPc := 6, os := O.Os({TOGGLE_PRIO, BLINKY_PRIO}, {}, TimeOuts(0, 0), O.NOBODY, BLINKY_PRIO, true))
  {
    var e := MainStarts(s);
    assert O.IsHighest(e.os.ready, BLINKY_PRIO);
    Then(s, e, ThreadStep);
    u := Deployment.Next(e, ThreadStep);
  }

  /** The blinky thread, just switched in: an LED step, then its delay. */
  lemma BlinkyRun(s: Sys, t: Sys, ticks: int) returns (u: Sys)
    requires |s.race.ctx| == 3 && |t.race.ctx| == 3 && Reach(s, t)
    requires t.h == NotActive && t.os.pend && t.os.next == BLINKY_PRIO
    requires (t.blinkyPc == 0 && ticks == 10) || (t.blinkyPc == 2 && ticks == 20)
    ensures |u.race.ctx| == 3 && Reach(s, u)
    ensures u == t.(os := O.Delay(O.Switch(t.os), ticks), blinkyPc := (t.blinkyPc + 2) % 4)
  {
    Then(s, t, PendSv);
    var a := Deployment.Next(t, PendSv);
    Then(s, a, ThreadStep);
    var b := Deployment.Next(a, ThreadStep);
    Then(s, b, ThreadStep);
    u := Deployment.Next(b, ThreadStep);
  }

  /** The toggle thread, just switched in: one operation, then its delay. */
  lemma ToggleTurn(s: Sys, t: Sys) returns (u: Sys)
    requires |s.race.ctx| == 3 && |t.race.ctx| == 3 && Reach(s, t)
    requires t.h == NotActive && t.os.pend && t.os.next == TOGGLE_PRIO && t.race.ctx[TOGGLE].Out? && !t.toggleDelays
    ensures |u.race.ctx| == 3 && Reach(s, u) && u.race.ctx == t.race.ctx
    ensures u.race.port == Apply(Op(PC3, |t.stores| % 2 == 0), t.race.port)
    ensures u == t.(race := u.race, edges := u.edges, stores := t.stores + [t.ticks],
                    os := O.Delay(O.Switch(t.os), if |t.stores| % 2 == 0 then 20 else 40))
  {
    Then(s, t, PendSv);
    var a := ToggleRun(s, Deployment.Next(t, PendSv));
    Then(s, a, ThreadStep);
    u := Deployment.Next(a, ThreadStep);
  }

  /** A delay call that leaves nobody ready hands over to the idle thread. */
  lemma LastSleeper(os: O.Os, ticks: int)
    requires os.ready == {os.curr} && os.curr in {TOGGLE_PRIO, BLINKY_PRIO} && O.IDLE in os.timeOut
    ensures O.Delay(os, ticks) == os.(timeOut := os.timeOut[os.curr := ticks], ready := {}, delayed := os.delayed + {os.curr},
                                      next := O.IDLE, pend := true)
  {
    assert O.Park(os, ticks).ready == {};
  }

  /** From reset to the blinky thread's first delay, which asks for the toggle thread. */
  lemma UntilToggle(s: Sys) returns (b: Sys)
    requires s == Boot({})
    ensures Reach(s, b)
    ensures b == s.(mainPc := 6, blinkyPc := 2,
                    os := O.Os({TOGGLE_PRIO}, {BLINKY_PRIO}, TimeOuts(0, 10), BLINKY_PRIO, TOGGLE_PRIO, true))
  {
    var a := MainRun(s);
    b := BlinkyRun(s, a, 10);
    assert O.IsHighest({TOGGLE_PRIO}, TOGGLE_PRIO);
    assert {TOGGLE_PRIO, BLINKY_PRIO} - {BLINKY_PRIO} == {TOGGLE_PRIO};
    assert b.os.ready == {TOGGLE_PRIO};
    assert b.os == O.Os({TOGGLE_PRIO}, {BLINKY_PRIO}, TimeOuts(0, 10), BLINKY_PRIO, TOGGLE_PRIO, true);
  }

  /** From reset to the idle thread, with PC3 driven high and the other threads asleep. */
  lemma UntilIdle(s: Sys) returns (u: Sys)
    requires s == Boot({})
    ensures Reach(s, u) && |u.race.ctx| == 3 && u.h == NotActive
    ensures u.os == BothAsleep(20, 10) && u.race.port == {PC3} && |u.stores| == 1
    ensures u.race.ctx == [Out, Out, Out] && !u.toggleDelays && u.blinkyPc == 2 && u.idled == 0 && u.ticks == 0 && u.wait == Awake
  {
    var b := UntilToggle(s);
    var c := ToggleTurn(s, b);
    LastSleeper(O.Switch(b.os), 20);
    assert c.os == BothAsleep(20, 10).(curr := TOGGLE_PRIO, pend := true);
    Then(s, c, PendSv);
    u := Deployment.Next(c, PendSv);
  }

  /** The tick that wakes the blinky thread alone, or the toggle thread alone. */
  lemma WakingTick(a: int, b: int)
    requires (a > 1 && b == 1) || (a == 1 && b > 1)
    ensures O.Sched(O.Tick(BothAsleep(a, b))) ==
            if b == 1 then O.Os({BLINKY_PRIO}, {TOGGLE_PRIO}, TimeOuts(a - 1, 0), O.IDLE, BLINKY_PRIO, true)
            else O.Os({TOGGLE_PRIO}, {BLINKY_PRIO}, TimeOuts(0, b - 1), O.IDLE, TOGGLE_PRIO, true)
  {
    var t := O.Tick(BothAsleep(a, b));
    if b == 1 {
      assert O.Expiring(BothAsleep(a, b)) == {BLINKY_PRIO};
      assert t.ready == {BLINKY_PRIO} && t.delayed == {TOGGLE_PRIO} && t.timeOut == TimeOuts(a - 1, 0);
    } else {
      assert O.Expiring(BothAsleep(a, b)) == {TOGGLE_PRIO};
      assert t.ready == {TOGGLE_PRIO} && t.delayed == {BLINKY_PRIO} && t.timeOut == TimeOuts(0, b - 1);
    }
  }

  /** The blinky thread's second turn, up to the idle thread being back. */
  lemma BlinkyTurn(s: Sys, t: Sys, a: int) returns (u: Sys)
    requires |s.race.ctx| == 3 && |t.race.ctx| == 3 && Reach(s, t) && t.h == NotActive && t.blinkyPc == 2
    requires t.os == O.Os({BLINKY_PRIO}, {TOGGLE_PRIO}, TimeOuts(a, 0), O.IDLE, BLINKY_PRIO, true)
    ensures |u.race.ctx| == 3 && Reach(s, u)
    ensures u == t.(os := BothAsleep(a, 20), blinkyPc := 0)
  {
    var c := BlinkyRun(s, t, 20);
    LastSleeper(O.Switch(t.os), 20);
    assert c.os == BothAsleep(a, 20).(curr := BLINKY_PRIO, pend := true);
    Then(s, c, PendSv);
    u := Deployment.Next(c, PendSv);
  }

  /** The toggle thread's second turn, up to the idle thread being back. */
  lemma Pc3OffTurn(s: Sys, t: Sys, b: int) returns (u: Sys)
    requires |s.race.ctx| == 3 && |t.race.ctx| == 3 && Reach(s, t) && t.h == NotActive
    requires |t.stores| == 1 && !t.toggleDelays && t.race.ctx[TOGGLE].Out?
    requires t.os == O.Os({TOGGLE_PRIO}, {BLINKY_PRIO}, TimeOuts(0, b), O.IDLE, TOGGLE_PRIO, true)
    ensures |u.race.ctx| == 3 && Reach(s, u)
    ensures u.race.port == t.race.port - {PC3} && u.race.ctx == t.race.ctx
    ensures u == t.(race := u.race, edges := u.edges, os := BothAsleep(40, b), stores := t.stores + [t.ticks])
  {
    var f := ToggleTurn(s, t);
    LastSleeper(O.Switch(t.os), 40);
    assert f.os == BothAsleep(40, b).(curr := TOGGLE_PRIO, pend := true);
    Then(s, f, PendSv);
    u := Deployment.Next(f, PendSv);
  }

  /** The tick that wakes the blinky thread alone, with a round of the idle thread before it. */
  lemma BlinkyTick(s: Sys, t: Sys, a: int) returns (u: Sys)
    requires |s.race.ctx| == 3 && Idling(t) && Reach(s, t)
    requires t.os == BothAsleep(a, 1) && a > 1 && t.blinkyPc == 2
    ensures Idling(u) && Reach(s, u)
    ensures u.race.port == t.race.port && u.race.ctx == t.race.ctx
    ensures u == t.(race := u.race, os := BothAsleep(a - 1, 20), ticks := t.ticks + 1, edges := u.edges,
                    idled := t.idled + 2, toggledAtLoad := u.toggledAtLoad, blinkyPc := 0)
  {
    var b := IdleRound(s, t);
    WakingTick(a, 1);
    var c := HandlerRun(s, b);
    u := BlinkyTurn(s, c, a - 1);
  }

  /** From reset to one tick before the end of the toggle thread's delay: the idle thread has pulsed once
      before each of the 19 ticks, and holds the port it has just loaded for the next pulse. */
  lemma UntilIdleLoads(s: Sys) returns (u: Sys)
    requires s == Boot({})
    ensures Reach(s, u) && |u.race.ctx| == 3 && u.h == NotActive
    ensures u.os == BothAsleep(1, 11) && u.race.port == {PC3} && |u.stores| == 1 && u.ticks == 19 && u.idled == 38
    ensures u.race.ctx == [Out, Out, Loaded(Op(PC10, true), {PC3})] && !u.toggleDelays && u.wait == Awake
  {
    var a := UntilIdle(s);
    var t := QuietTicks(s, a, 9, 20, 10);
    var b := BlinkyTick(s, t, 11);
    var c := QuietTicks(s, b, 9, 10, 20);
    u := IdleLoads(s, c);
  }

  /** One tick later the toggle thread has driven PC3 low, and the idle thread is back to store. */
  lemma UntilIdleStores(t: Sys) returns (u: Sys)
    requires |t.race.ctx| == 3 && t.h == NotActive && t.os == BothAsleep(1, 11) && t.race.port == {PC3}
    requires t.race.ctx == [Out, Out, Loaded(Op(PC10, true), {PC3})]
    requires |t.stores| == 1 && !t.toggleDelays && t.wait == Awake && t.idled % 2 == 0
    ensures Reach(t, u) && |u.race.ctx| == 3 && u.h == NotActive
    ensures u.ticks == t.ticks + 1 && |u.stores| == 2 && PC3 in u.race.port
  {
    assert Deployment.Runs(t, []) && Deployment.Exec(t, []) == t;
    WakingTick(1, 11);
    var a := HandlerRun(t, t);
    var b := Pc3OffTurn(t, a, 10);
    u := IdleStores(t, b);
  }

  lemma ReachThrough(s: Sys, t: Sys, u: Sys)
    requires |s.race.ctx| == 3 && |t.race.ctx| == 3 && Reach(s, t) && Reach(t, u)
    ensures Reach(s, u)
  {
    var xs :| Deployment.Runs(s, xs) && Deployment.Exec(s, xs) == t;
    var ys :| Deployment.Runs(t, ys) && Deployment.Exec(t, ys) == u;
    Join(s, xs, ys);
  }

  /** The program does not keep PC3 at its last committed operation: a run in which the idle thread pulses
      PC10 once per tick and waits for each, the 20th tick falls between its load and its store, the toggle
      thread stores Off there, and PC3 ends high. */
  lemma Pc3OffIsLost() returns (t: Sys, u: Sys)
    ensures |t.race.ctx| == 3 && Reach(Boot({}), t) && Reach(t, u) && Reach(Boot({}), u)
    ensures t.race.ctx[IDLER].Loaded? && t.ticks == 19 && t.idled == 2 * t.ticks
    ensures |t.stores| == 1 && |u.stores| == 2 && u.ticks == t.ticks + 1
    ensures 3 in u.race.port && 3 !in Serial({}, u.race.commits)
    ensures u.h == NotActive && !Atomic({}, u)
  {
    var s := Boot({});
    t := UntilIdleLoads(s);
    u := UntilIdleStores(t);
    ReachThrough(s, t, u);
    var acts :| Deployment.Runs(s, acts) && Deployment.Exec(s, acts) == u;
    BootInv({});
    RunSerial({}, s, acts);
    AtomicIsPc3({}, u);
  }

  /** A section of the toggle thread loses the flag: a handler between its test-and-set and its load. */
  lemma SectionLosesFlag() returns (t: Sys, u: Sys)
    ensures |t.race.ctx| == 3 && Reach(Boot({}), t) && Reach(Boot({}), u)
    ensures t.race.flag && t.race.ctx[TOGGLE].Acquired? && u.race.ctx == t.race.ctx && !u.race.flag
  {
    var s := Boot({});
    var b := UntilToggle(s);
    Then(s, b, PendSv);
    var c := Deployment.Next(b, PendSv);
    Then(s, c, ThreadStep);
    t := Deployment.Next(c, ThreadStep);
    u := HandlerRun(s, t);
  }

  /** A tick after OS_Init and before the OSThread_Start calls hands main's processor to the idle
      thread, and the other two threads are never started. */
  lemma MainCanBeLost() returns (u: Sys)
    ensures Reach(Boot({}), u) && Inv(u)
    ensures u.os.curr == O.IDLE && u.os.timeOut.Keys == {O.IDLE}
    ensures forall acts :: Deployment.Runs(u, acts) ==> Deployment.Exec(u, acts).os.timeOut.Keys == {O.IDLE}
  {
    var s := Boot({});
    assert Deployment.Runs(s, []) && Deployment.Exec(s, []) == s;
    Then(s, s, ThreadStep);
    var a := Deployment.Next(s, ThreadStep);
    assert O.Tick(a.os) == a.os by { assert O.Tick(a.os).timeOut == a.os.timeOut; }
    var b := HandlerRun(s, a);
    Then(s, b, PendSv);
    u := Deployment.Next(b, PendSv);
    var before :| Deployment.Runs(s, before) && Deployment.Exec(s, before) == u;
    BootInv({});
    RunInv(s, before);
    forall acts | Deployment.Runs(u, acts) ensures Deployment.Exec(u, acts).os.timeOut.Keys == {O.IDLE} {
      ThreadsAtFirstSwitch({}, before, acts);
    }
  }
}
