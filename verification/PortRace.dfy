/**
 Port C under preemption, in general: any number of contexts (threads and handlers) run port
 operations of Gpio.c, each split into test-and-set, load, modify, store and clear, and
 interleaved in any way at all.  A context keeps its own registers while it is suspended.
 */
module PortRace {
  import opened Gpio

  /** Where a context stands in a port operation, with the registers it holds there. */
  datatype Phase =
    | Out
    | Acquired(op: Op)
    | Loaded(op: Op, atLoad: set<int>)
    | Modified(op: Op, atLoad: set<int>, reg: set<int>)
    | Stored(op: Op)

  /** `commits` records the operations in the order of their stores. */
  datatype Race = Race(port: set<int>, flag: bool, ctx: seq<Phase>, commits: seq<Op>)

  datatype Step = Call(c: nat, op: Op) | Go(c: nat)

  predicate Enabled(s: Race, e: Step) {
    e.c < |s.ctx| && (e.Call? <==> s.ctx[e.c].Out?)
  }

  /** One step of one context.  The flag is written but never looked at. */
  function Next(s: Race, e: Step): (t: Race)
    requires Enabled(s, e)
    ensures |t.ctx| == |s.ctx|
  {
    var c := e.c;
    match s.ctx[c]
    case Out => s.(flag := true, ctx := s.ctx[c := Acquired(e.op)])
    case Acquired(op) => s.(ctx := s.ctx[c := Loaded(op, s.port)])
    case Loaded(op, w) => s.(ctx := s.ctx[c := Modified(op, w, Apply(op, w))])
    case Modified(op, w, reg) => s.(port := reg, ctx := s.ctx[c := Stored(op)], commits := s.commits + [op])
    case Stored(op) => s.(flag := false, ctx := s.ctx[c := Out])
  }

  predicate Runs(s: Race, es: seq<Step>)
    decreases |es|
  {
    es == [] || (Enabled(s, es[0]) && Runs(Next(s, es[0]), es[1..]))
  }

  function Exec(s: Race, es: seq<Step>): Race
    requires Runs(s, es)
    decreases |es|
  {
    if es == [] then s else Exec(Next(s, es[0]), es[1..])
  }

  /** The atomic machine: every committed operation applied at once, in commit order. */
  function Serial(boot: set<int>, commits: seq<Op>): set<int> {
    if commits == [] then boot else Apply(commits[|commits| - 1], Serial(boot, commits[..|commits| - 1]))
  }

  // ------------------------------------------- when the port is atomic

  /** The step is not a store, or the pins its operation does not own are now as they were at its load. */
  predicate Clean(s: Race, e: Step)
    requires Enabled(s, e)
  {
    s.ctx[e.c].Modified? ==>
      var op := s.ctx[e.c].op;
      s.ctx[e.c].atLoad - {op.pin} == s.port - {op.pin}
  }

  predicate RegistersOk(s: Race) {
    forall c :: 0 <= c < |s.ctx| && s.ctx[c].Modified? ==> s.ctx[c].reg == Apply(s.ctx[c].op, s.ctx[c].atLoad)
  }

  lemma RegistersStayOk(s: Race, e: Step)
    requires Enabled(s, e) && RegistersOk(s)
    ensures RegistersOk(Next(s, e))
  {
  }

  /** One more commit is one more operation of the atomic machine. */
  lemma SerialOfCommit(boot: set<int>, commits: seq<Op>, op: Op)
    ensures Serial(boot, commits + [op]) == Apply(op, Serial(boot, commits))
  {
    assert (commits + [op])[..|commits|] == commits;
  }

  /** A step that is no store leaves port and commits alone. */
  lemma NoStore(s: Race, e: Step)
    requires Enabled(s, e) && !s.ctx[e.c].Modified?
    ensures Next(s, e).port == s.port && Next(s, e).commits == s.commits
  {
  }

  /** A store in flight writes the atomic value of the whole port exactly when it is clean. */
  lemma StoreIsAtomic(boot: set<int>, s: Race, e: Step)
    requires Enabled(s, e) && RegistersOk(s) && s.port == Serial(boot, s.commits)
    ensures Next(s, e).port == Serial(boot, Next(s, e).commits) <==> Clean(s, e)
  {
    var p, t := s.ctx[e.c], Next(s, e);
    if p.Modified? {
      assert t.port == Apply(p.op, p.atLoad);
      assert t.commits == s.commits + [p.op];
      SerialOfCommit(boot, s.commits, p.op);
      LateStore(p.op, p.atLoad, s.port);
    } else {
      NoStore(s, e);
    }
  }

  predicate AlwaysAtomic(boot: set<int>, s: Race, es: seq<Step>)
    requires Runs(s, es)
    decreases |es|
  {
    s.port == Serial(boot, s.commits) && (es != [] ==> AlwaysAtomic(boot, Next(s, es[0]), es[1..]))
  }

  predicate AllClean(s: Race, es: seq<Step>)
    requires Runs(s, es)
    decreases |es|
  {
    es != [] ==> Clean(s, es[0]) && AllClean(Next(s, es[0]), es[1..])
  }

  /** Every run of any number of contexts refines the atomic machine exactly when each of its
      load-store windows is net-neutral on the pins its owner does not own. */
  lemma {:induction false} Refinement(boot: set<int>, s: Race, es: seq<Step>)
    requires Runs(s, es) && RegistersOk(s) && s.port == Serial(boot, s.commits)
    ensures AlwaysAtomic(boot, s, es) <==> AllClean(s, es)
    decreases |es|
  {
    if es != [] {
      StoreIsAtomic(boot, s, es[0]);
      RegistersStayOk(s, es[0]);
      if Clean(s, es[0]) {
        Refinement(boot, Next(s, es[0]), es[1..]);
      }
    }
  }

  /** A complete SysTick_Handler leaves the port as it found it exactly when PC2 was low. */
  lemma HandlerIsNeutral(w: set<int>)
    ensures Apply(Op(PC2, false), Apply(Op(PC2, true), w)) == w <==> PC2 !in w
  {
  }

  // ------------------------------------------------------------- the flag

  predicate FlagExplained(s: Race) {
    s.flag ==> exists c :: 0 <= c < |s.ctx| && !s.ctx[c].Out?
  }

  /** Every run: while the flag is set, some context is between its test-and-set and its clear. */
  lemma {:induction false} FlagMeansInside(s: Race, es: seq<Step>)
    requires Runs(s, es) && FlagExplained(s)
    ensures FlagExplained(Exec(s, es))
    decreases |es|
  {
    if es != [] {
      var t := Next(s, es[0]);
      if t.flag && !s.ctx[es[0].c].Out? {
        assert s.flag;
        assert !t.ctx[es[0].c].Out?;
      } else if t.flag {
        assert !t.ctx[es[0].c].Out?;
      }
      FlagMeansInside(t, es[1..]);
    }
  }

  /** Context `c` is between its test-and-set and its clear from here to the end of the run. */
  predicate StaysInside(s: Race, es: seq<Step>, c: nat)
    requires Runs(s, es)
    decreases |es|
  {
    c < |s.ctx| && !s.ctx[c].Out? && (es != [] ==> StaysInside(Next(s, es[0]), es[1..], c))
  }

  predicate AlwaysSet(s: Race, es: seq<Step>)
    requires Runs(s, es)
    decreases |es|
  {
    s.flag && (es != [] ==> AlwaysSet(Next(s, es[0]), es[1..]))
  }

  /** No context other than `c` takes its clearing step. */
  predicate NoOtherClears(s: Race, es: seq<Step>, c: nat)
    requires Runs(s, es)
    decreases |es|
  {
    es != [] ==> !(es[0].c != c && s.ctx[es[0].c].Stored?) && NoOtherClears(Next(s, es[0]), es[1..], c)
  }

  /** Every run: inside a section that was entered with the flag set, the flag stays set exactly as
      long as no other context comes to its own clear. */
  lemma {:induction false} FlagKeptIff(s: Race, es: seq<Step>, c: nat)
    requires Runs(s, es) && StaysInside(s, es, c) && s.flag
    ensures AlwaysSet(s, es) <==> NoOtherClears(s, es, c)
    decreases |es|
  {
    if es != [] && Next(s, es[0]).flag {
      FlagKeptIff(Next(s, es[0]), es[1..], c);
    }
  }

  /** The converse of FlagMeansInside fails: a second context clears the flag inside the first one's section. */
  lemma FlagIsNoLock() returns (es: seq<Step>)
    ensures var boot := Race({}, false, [Out, Out], []);
            Runs(boot, es) && !Exec(boot, es).flag && Exec(boot, es).ctx == [Acquired(Op(PC3, true)), Out]
  {
    var a, b := Op(PC3, true), Op(PC2, true);
    var s0 := Race({}, false, [Out, Out], []);
    var s1 := Race({}, true, [Acquired(a), Out], []);
    var s2 := Race({}, true, [Acquired(a), Acquired(b)], []);
    var s3 := Race({}, true, [Acquired(a), Loaded(b, {})], []);
    var s4 := Race({}, true, [Acquired(a), Modified(b, {}, {PC2})], []);
    var s5 := Race({PC2}, true, [Acquired(a), Stored(b)], [b]);
    var s6 := Race({PC2}, false, [Acquired(a), Out], [b]);
    assert Apply(b, {}) == {PC2};
    assert Runs(s6, []) && Exec(s6, []) == s6;
    Prepend(s5, Go(1), s6, []);
    Prepend(s4, Go(1), s5, [Go(1)]);
    Prepend(s3, Go(1), s4, [Go(1), Go(1)]);
    Prepend(s2, Go(1), s3, [Go(1), Go(1), Go(1)]);
    Prepend(s1, Call(1, b), s2, [Go(1), Go(1), Go(1), Go(1)]);
    Prepend(s0, Call(0, a), s1, [Call(1, b), Go(1), Go(1), Go(1), Go(1)]);
    es := [Call(0, a)] + [Call(1, b), Go(1), Go(1), Go(1), Go(1)];
  }

  lemma Prepend(s: Race, e: Step, t: Race, es: seq<Step>)
    requires Enabled(s, e) && Next(s, e) == t && Runs(t, es)
    ensures Runs(s, [e] + es) && Exec(s, [e] + es) == Exec(t, es)
  {
    assert ([e] + es)[1..] == es;
  }

  // -------------------------------------------------------- never blocking

  /** Own steps left until the operation is over. */
  function StepsLeft(p: Phase): nat {
    match p
    case Out => 0
    case Acquired(_) => 4
    case Loaded(_, _) => 3
    case Modified(_, _, _) => 2
    case Stored(_) => 1
  }

  function OwnSteps(es: seq<Step>, c: nat): nat {
    if es == [] then 0 else (if es[0] == Go(c) then 1 else 0) + OwnSteps(es[1..], c)
  }

  /** Every run, whatever the flag holds and whatever the others do: each own step of a context
      brings it one step closer to the end of its operation, and nothing else moves it. */
  lemma {:induction false} NeverBlocks(s: Race, es: seq<Step>, c: nat)
    requires Runs(s, es) && c < |s.ctx|
    requires forall op :: Call(c, op) !in es
    ensures |Exec(s, es).ctx| == |s.ctx|
    ensures StepsLeft(Exec(s, es).ctx[c]) == StepsLeft(s.ctx[c]) - OwnSteps(es, c)
    ensures !s.ctx[c].Out? ==> Enabled(s, Go(c))
    decreases |es|
  {
    if es != [] {
      assert es[0] in es;
      NeverBlocks(Next(s, es[0]), es[1..], c);
    }
  }

  /** Left alone, the five steps of a call do what the functions of Gpio.c are proved to do. */
  lemma Uninterrupted(s: Race, c: nat, op: Op)
    requires c < |s.ctx| && s.ctx[c].Out?
    ensures Runs(s, [Call(c, op), Go(c), Go(c), Go(c), Go(c)])
    ensures Exec(s, [Call(c, op), Go(c), Go(c), Go(c), Go(c)])
            == s.(port := Apply(op, s.port), flag := false, commits := s.commits + [op])
  {
    var s1 := Next(s, Call(c, op));
    var s2 := Next(s1, Go(c));
    var s3 := Next(s2, Go(c));
    var s4 := Next(s3, Go(c));
    var s5 := Next(s4, Go(c));
    assert s5.ctx == s.ctx;
    assert Runs(s5, []) && Exec(s5, []) == s5;
    Prepend(s4, Go(c), s5, []);
    Prepend(s3, Go(c), s4, [Go(c)]);
    Prepend(s2, Go(c), s3, [Go(c), Go(c)]);
    Prepend(s1, Go(c), s2, [Go(c), Go(c), Go(c)]);
    Prepend(s, Call(c, op), s1, [Go(c), Go(c), Go(c), Go(c)]);
  }
}
