/**
 The SysTick down-counter, its one-deep pending bit and the software timers of Gpt.h.

 The counter follows section B3.3 of the ARMv7-M Architecture Reference Manual: it is cleared
 by SysTick_Init, loads the reload value one clock after it is zero, and makes the exception
 pending when it counts to zero.  How long the exception waits (masking, a handler still
 active, a higher load) is arbitrary: delivery and increment may come any number of clocks later.
 Reading the 64-bit counter is taken to be one step.
 */
module SysTick {

  // STK_LOAD is 180000, so the counter is zero once in 180001 clocks.
  const COUNTER := 0x1_0000_0000_0000_0000      // number of values of Gpt_ValueType

  /**
   `entered` holds between the entry of the handler and its increment of millisec_counter.
   `ticks` counts the increments, `wraps` the times the counter reached zero, and `lost` those
   that found the exception still pending.
   */
  datatype Timer = Timer(val: nat, pending: bool, entered: bool, ticks: nat, lost: nat, cycles: nat, wraps: nat)

  datatype Act = Clock | Enter | Count

  /** The state SysTick_Init leaves. */
  const START := Timer(0, false, false, 0, 0, 0, 0)

  predicate Allowed(s: Timer, a: Act) {
    match a
    case Clock => true
    case Enter => s.pending && !s.entered
    case Count => s.entered
  }

  function Next(s: Timer, a: Act): Timer {
    match a
    case Clock =>
      var t := s.(val := if s.val == 0 then 180_000 else s.val - 1, cycles := s.cycles + 1);
      if s.val != 1 then t
      else t.(wraps := t.wraps + 1, pending := true, lost := t.lost + if t.pending then 1 else 0)
    case Enter => s.(pending := false, entered := true)
    case Count => s.(entered := false, ticks := s.ticks + 1)
  }

  predicate Runs(s: Timer, acts: seq<Act>)
    decreases |acts|
  {
    acts != [] ==> Allowed(s, acts[0]) && Runs(Next(s, acts[0]), acts[1..])
  }

  function Exec(s: Timer, acts: seq<Act>): Timer
    decreases |acts|
  {
    if acts == [] then s else Exec(Next(s, acts[0]), acts[1..])
  }

  /** Ticks raised and neither counted nor lost. */
  function Uncounted(s: Timer): nat {
    (if s.pending then 1 else 0) + (if s.entered then 1 else 0)
  }

  /** Clocks since the counter was last zero. */
  function Phase(s: Timer): int {
    if s.val == 0 then 0 else 180_001 - s.val
  }

  predicate Ok(s: Timer) {
    && s.val <= 180_000
    && s.cycles == 180_001 * s.wraps + Phase(s)
    && s.wraps == s.ticks + Uncounted(s) + s.lost
  }

  lemma {:induction false} RunOk(s: Timer, acts: seq<Act>)
    requires Ok(s) && Runs(s, acts)
    ensures Ok(Exec(s, acts))
    ensures Exec(s, acts).lost >= s.lost && Exec(s, acts).ticks >= s.ticks && Exec(s, acts).cycles >= s.cycles
    decreases |acts|
  {
    if acts != [] {
      RunOk(Next(s, acts[0]), acts[1..]);
    }
  }

  /** Every state of every run after SysTick_Init is Ok. */
  lemma ReachableIsOk(acts: seq<Act>)
    requires Runs(START, acts)
    ensures Ok(Exec(START, acts))
  {
    RunOk(START, acts);
  }

  /** Every run: N clocks after SysTick_Init there have been exactly N / 180001 wraps, and each wrap
      is counted, lost, pending, or in the hands of the handler. */
  lemma TicksAreConserved(s: Timer, acts: seq<Act>)
    requires Ok(s) && Runs(s, acts)
    ensures var t := Exec(s, acts);
            t.wraps == t.cycles / 180_001 && t.wraps == t.ticks + Uncounted(t) + t.lost
  {
    RunOk(s, acts);
    WrapsOf(Exec(s, acts));
  }

  lemma WrapsOf(t: Timer)
    requires Ok(t)
    ensures t.wraps == t.cycles / 180_001
  {
    Quotient(t.cycles, t.wraps, Phase(t));
  }

  lemma Quotient(c: int, w: int, p: int)
    requires c == 180_001 * w + p && 0 <= p < 180_001
    ensures c / 180_001 == w
  {
  }

  /** No wrap comes while the exception is still pending. */
  predicate TakenBeforeNextWrap(s: Timer, acts: seq<Act>)
    decreases |acts|
  {
    acts != [] ==> !(acts[0] == Clock && s.val == 1 && s.pending) && TakenBeforeNextWrap(Next(s, acts[0]), acts[1..])
  }

  /** Ticks get lost exactly when one is still pending at the next wrap. */
  lemma {:induction false} LostIff(s: Timer, acts: seq<Act>)
    requires Ok(s) && Runs(s, acts)
    ensures Exec(s, acts).lost == s.lost <==> TakenBeforeNextWrap(s, acts)
    decreases |acts|
  {
    if acts != [] {
      var t := Next(s, acts[0]);
      RunOk(t, acts[1..]);
      LostIff(t, acts[1..]);
    }
  }

  // ------------------------------------------------------ software timers

  /** Gpt_GetTimeElapsed. */
  function Elapsed(s: Timer): int {
    s.ticks % COUNTER
  }

  /** TimerStart, at a moment when the counter reads `now`. */
  function TimerStart(now: int, millisec: int): int {
    (now + millisec) % COUNTER
  }

  /** TimerTimeout, at a moment when the counter reads `now`. */
  predicate TimerTimeout(now: int, myTimer: int) {
    now > myTimer
  }

  /** A new timer is unexpired exactly when its deadline does not overflow the counter. */
  lemma FreshTimer(now: int, n: int)
    requires 0 <= now < COUNTER && 0 <= n < 0x1_0000_0000
    ensures !TimerTimeout(now, TimerStart(now, n)) <==> now + n < COUNTER
  {
    if now + n >= COUNTER {
      assert TimerStart(now, n) == now + n - COUNTER;
    }
  }

  /** Short of an overflow the timer reads expired exactly when more than n ticks were counted. */
  lemma ExpiredIff(start: nat, now: nat, n: nat)
    requires start + n < COUNTER && now < COUNTER
    ensures TimerTimeout(now % COUNTER, TimerStart(start % COUNTER, n)) <==> now >= start + n + 1
  {
  }

  /** A timer never fires early: from its start, with p ticks raised but not yet counted, at least
      (n - p) * 180001 + 1 clocks pass before TimerTimeout holds. */
  lemma NeverEarly(s: Timer, acts: seq<Act>, n: nat)
    requires Ok(s) && Runs(s, acts)
    requires s.ticks + n < COUNTER && Exec(s, acts).ticks < COUNTER
    requires TimerTimeout(Elapsed(Exec(s, acts)), TimerStart(Elapsed(s), n))
    ensures Exec(s, acts).cycles - s.cycles >= (n - Uncounted(s)) * 180_001 + 1
  {
    RunOk(s, acts);
    var t := Exec(s, acts);
    ExpiredIff(s.ticks, t.ticks, n);
    assert t.wraps - s.wraps >= n + 1 - Uncounted(s);
  }

  /** Every tick is counted less than `limit` clocks after its wrap, in the state and in all that follow. */
  predicate Timely(s: Timer, acts: seq<Act>, limit: nat)
    decreases |acts|
  {
    (Uncounted(s) > 0 ==> Phase(s) < limit) && (acts != [] ==> Timely(Next(s, acts[0]), acts[1..], limit))
  }

  lemma {:induction false} TimelyRun(s: Timer, acts: seq<Act>, limit: nat)
    requires Ok(s) && Runs(s, acts) && Timely(s, acts, limit) && limit < 180_001
    ensures var t := Exec(s, acts);
            && t.lost == s.lost && s.wraps <= t.wraps
            && (Uncounted(t) > 0 ==> Phase(t) < limit)
            && (Uncounted(t) == 2 ==> Uncounted(s) == 2 && t.wraps == s.wraps)
    decreases |acts|
  {
    if acts != [] {
      var t := Next(s, acts[0]);
      RunOk(s, [acts[0]]);
      assert Exec(s, [acts[0]]) == t by { assert [acts[0]][1..] == []; }
      TimelyRun(t, acts[1..], limit);
    }
  }

  /** A timer fires on time and stays fired: when every tick is counted within `limit` clocks,
      TimerTimeout holds from (n + 1) * 180001 + limit clocks after the start, until the counter wraps. */
  lemma OnTime(s: Timer, acts: seq<Act>, limit: nat, n: nat)
    requires Ok(s) && Runs(s, acts) && Timely(s, acts, limit) && limit < 180_001
    requires s.ticks + n < COUNTER && Exec(s, acts).ticks < COUNTER
    requires Exec(s, acts).cycles - s.cycles >= (n + 1) * 180_001 + limit
    ensures TimerTimeout(Elapsed(Exec(s, acts)), TimerStart(Elapsed(s), n))
  {
    RunOk(s, acts);
    TimelyRun(s, acts, limit);
    var t := Exec(s, acts);
    assert 180_001 * t.wraps + Phase(t) >= 180_001 * (s.wraps + n + 1) + limit;
    ExpiredIff(s.ticks, t.ticks, n);
  }

  // --------------------------------------------------- the bound is tight

  /** A state in which every tick was counted at once. */
  function Prompt(wraps: nat, phase: int): Timer
    requires 0 <= phase < 180_001
  {
    Timer(if phase == 0 then 0 else 180_001 - phase, false, false, wraps, 0, 180_001 * wraps + phase, wraps)
  }

  lemma {:induction false} Join(s: Timer, xs: seq<Act>, ys: seq<Act>)
    requires Runs(s, xs) && Runs(Exec(s, xs), ys)
    ensures Runs(s, xs + ys) && Exec(s, xs + ys) == Exec(Exec(s, xs), ys)
    decreases |xs|
  {
    if xs == [] {
      assert xs + ys == ys;
    } else {
      assert (xs + ys)[1..] == xs[1..] + ys;
      Join(Next(s, xs[0]), xs[1..], ys);
    }
  }

  /** Clocks within one period. */
  lemma {:induction false} PromptClocks(w: nat, first: int, last: int) returns (acts: seq<Act>)
    requires 0 <= first <= last < 180_001
    ensures Runs(Prompt(w, first), acts) && Exec(Prompt(w, first), acts) == Prompt(w, last)
    decreases last - first
  {
    if first == last {
      acts := [];
    } else {
      var rest := PromptClocks(w, first + 1, last);
      assert Next(Prompt(w, first), Clock) == Prompt(w, first + 1);
      acts := [Clock] + rest;
    }
  }

  /** The clock that wraps the counter, with its tick counted at once. */
  lemma PromptWrap(w: nat)
    ensures Runs(Prompt(w, 180_000), [Clock, Enter, Count])
    ensures Exec(Prompt(w, 180_000), [Clock, Enter, Count]) == Prompt(w + 1, 0)
  {
    var a := Next(Prompt(w, 180_000), Clock);
    var b := Next(a, Enter);
    var c := Next(b, Count);
    assert c == Prompt(w + 1, 0);
    assert [Clock, Enter, Count][1..] == [Enter, Count] && [Enter, Count][1..] == [Count] && [Count][1..] == [];
    assert Runs(c, []) && Runs(b, [Count]) && Runs(a, [Enter, Count]);
    assert Exec(b, [Count]) == c && Exec(a, [Enter, Count]) == c;
  }

  lemma {:induction false} PromptPeriods(w: nat, n: nat) returns (acts: seq<Act>)
    ensures Runs(Prompt(w, 0), acts) && Exec(Prompt(w, 0), acts) == Prompt(w + n, 0)
    decreases n
  {
    if n == 0 {
      acts := [];
    } else {
      var up := PromptClocks(w, 0, 180_000);
      PromptWrap(w);
      var rest := PromptPeriods(w + 1, n - 1);
      Join(Prompt(w, 180_000), [Clock, Enter, Count], rest);
      Join(Prompt(w, 0), up, [Clock, Enter, Count] + rest);
      acts := up + ([Clock, Enter, Count] + rest);
    }
  }

  /** For every n some run fires after exactly n * 180001 + 1 clocks with nothing pending at the start. */
  lemma EarliestIsReached(n: nat) returns (s: Timer, acts: seq<Act>)
    requires n + 1 < COUNTER
    ensures Ok(s) && Uncounted(s) == 0 && s.ticks == 0 && Runs(s, acts)
    ensures Exec(s, acts).cycles - s.cycles == n * 180_001 + 1
    ensures TimerTimeout(Elapsed(Exec(s, acts)), TimerStart(Elapsed(s), n))
  {
    s := Prompt(0, 180_000);
    PromptWrap(0);
    var rest := PromptPeriods(1, n);
    Join(s, [Clock, Enter, Count], rest);
    ExpiredIff(0, n + 1, n);
    acts := [Clock, Enter, Count] + rest;
  }

  // ------------------------------------------------------------------ drift

  /** How far the count of wraps lags behind the ideal of one tick per 180000 clocks: by as many whole
      ideal ticks as the wraps and the clocks since the last one add up to. */
  function Lag(n: nat): nat {
    (n / 180_001 + n % 180_001) / 180_000
  }

  /** The lag is exact, and at most one more than one tick in 180000 * 180001 clocks. */
  lemma Drift(n: nat)
    ensures n / 180_000 == n / 180_001 + Lag(n)
    ensures Lag(n) <= n / (180_000 * 180_001) + 1
  {
    var q, r := n / 180_001, n % 180_001;
    var k, j := q / 180_000, q % 180_000;
    assert n == 180_000 * q + (q + r);
    assert n == 180_000 * (q + k) + (j + r);
    assert n == (180_000 * 180_001) * k + (180_001 * j + r);
  }

  predicate Lagging(t: Timer) {
    && t.cycles / 180_000 == t.ticks + Uncounted(t) + t.lost + Lag(t.cycles)
    && Lag(t.cycles) <= t.cycles / (180_000 * 180_001) + 1
  }

  /** Every run after SysTick_Init: what the ideal count is ahead of the millisecond counter is the
      lag, the ticks not yet counted and the ticks lost. */
  lemma DriftOfRun(acts: seq<Act>)
    requires Runs(START, acts)
    ensures Lagging(Exec(START, acts))
  {
    ReachableIsOk(acts);
    LagOf(Exec(START, acts));
  }

  lemma LagOf(t: Timer)
    requires Ok(t)
    ensures Lagging(t)
  {
    WrapsOf(t);
    Drift(t.cycles);
  }
}
