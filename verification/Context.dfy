/**
 Stacks and context switches of Os.c: the frame OSThread_Start builds, and PendSV_Handler moving
 one register file between the stacks of the threads.

 Memory is an array of 32-bit words; stack pointers are word indices unless called addresses.
 A register file is the sequence of sixteen words a suspended thread leaves on its stack, lowest
 address first: R4 to R11 pushed by PendSV_Handler, then R0 to R3, R12, LR, PC and xPSR pushed by
 the processor (section B1.5 of the ARMv7-M Architecture Reference Manual).
 */
module Context {

  const PATTERN := 0xFACE_B00C
  const MAIN := -1                      // OS_Curr is null

  const FAKE_REGISTERS := [4, 5, 6, 7, 8, 9, 0xA, 0xB]          // R4 to R11

  /** R0 to R3, R12, LR, PC and xPSR with the Thumb bit. */
  function ExceptionFrame(handler: int): seq<int> {
    [0, 1, 2, 3, 0xC, 0xE, handler, 0x100_0000]
  }

  /** The register file a thread starts with. */
  function FirstFrame(handler: int): seq<int> {
    FAKE_REGISTERS + ExceptionFrame(handler)
  }

  // ------------------------------------------------------- OSThread_Start

  /** The top of the stack, rounded down to eight bytes. */
  function Top(storage: int, size: int): int {
    (storage + size) / 8 * 8
  }

  /** The bottom of the stack, rounded up to eight bytes. */
  function Limit(storage: int): int {
    ((storage - 1) / 8 + 1) * 8
  }

  /** The exception frame: xPSR, PC, LR, R12, R3 to R0, downwards from `top`. */
  method PushExceptionFrame(mem: array<int>, top: int, handler: int) returns (p: int)
    requires 8 <= top <= mem.Length
    modifies mem
    ensures p == top - 8 && mem[p..top] == ExceptionFrame(handler)
    ensures forall i :: 0 <= i < p || top <= i < mem.Length ==> mem[i] == old(mem[i])
  {
    p := top;
    p := p - 1; mem[p] := 0x100_0000;
    p := p - 1; mem[p] := handler;
    p := p - 1; mem[p] := 0xE;
    p := p - 1; mem[p] := 0xC;
    p := p - 1; mem[p] := 3;
    p := p - 1; mem[p] := 2;
    p := p - 1; mem[p] := 1;
    p := p - 1; mem[p] := 0;
  }

  /** The fake registers R11 to R4, downwards from `top`. */
  method PushFakeRegisters(mem: array<int>, top: int) returns (p: int)
    requires 8 <= top <= mem.Length
    modifies mem
    ensures p == top - 8 && mem[p..top] == FAKE_REGISTERS
    ensures forall i :: 0 <= i < p || top <= i < mem.Length ==> mem[i] == old(mem[i])
  {
    p := top;
    p := p - 1; mem[p] := 0xB;
    p := p - 1; mem[p] := 0xA;
    p := p - 1; mem[p] := 9;
    p := p - 1; mem[p] := 8;
    p := p - 1; mem[p] := 7;
    p := p - 1; mem[p] := 6;
    p := p - 1; mem[p] := 5;
    p := p - 1; mem[p] := 4;
  }

  /** The pre-fill loop: every word from `limit` up to the frame. */
  method Prefill(mem: array<int>, sp: int, limit: int)
    requires 0 <= sp <= mem.Length && 0 <= limit
    modifies mem
    ensures forall i :: limit <= i < sp ==> mem[i] == 0xFACE_B00C
    ensures forall i :: 0 <= i < mem.Length && !(limit <= i < sp) ==> mem[i] == old(mem[i])
  {
    var q := sp - 1;
    while q >= limit
      invariant q < sp && (limit <= sp ==> limit - 1 <= q)
      invariant forall i :: q < i < sp && limit <= i ==> mem[i] == PATTERN
      invariant forall i :: 0 <= i < mem.Length && !(q < i < sp && limit <= i) ==> mem[i] == old(mem[i])
    {
      mem[q] := PATTERN;
      q := q - 1;
    }
  }

  /** Both parts of the frame. */
  method PushFrame(mem: array<int>, top: int, handler: int) returns (p: int)
    requires 16 <= top <= mem.Length
    modifies mem
    ensures p == top - 16 && mem[p..top] == FirstFrame(handler)
    ensures forall i :: 0 <= i < p || top <= i < mem.Length ==> mem[i] == old(mem[i])
  {
    var q := PushExceptionFrame(mem, top, handler);
    ghost var half := mem[q..top];
    p := PushFakeRegisters(mem, q);
    assert mem[q..top] == half;
    assert mem[p..top] == mem[p..q] + mem[q..top];
  }

  /** The addresses OSThread_Start writes: the frame, and the pattern below it. */
  predicate Written(storage: int, size: int, a: int) {
    Top(storage, size) - 64 <= a < Top(storage, size) || Limit(storage) <= a < Top(storage, size) - 64
  }

  /** Both roundings give multiples of eight, within seven bytes of what they round. */
  lemma Rounded(storage: int, size: int)
    ensures Top(storage, size) % 8 == 0 && Top(storage, size) <= storage + size < Top(storage, size) + 8
    ensures Limit(storage) % 8 == 0 && storage <= Limit(storage) < storage + 8
  {
  }

  /** The same in words: both roundings give whole words. */
  lemma WrittenWord(storage: int, size: int, i: int)
    ensures Written(storage, size, 4 * i) <==>
            Top(storage, size) / 4 - 16 <= i < Top(storage, size) / 4 || Limit(storage) / 4 <= i < Top(storage, size) / 4 - 16
  {
    assert Top(storage, size) / 4 == (storage + size) / 8 * 2;
    assert Limit(storage) / 4 == ((storage - 1) / 8 + 1) * 2;
  }

  /** Memory as OSThread_Start leaves it: the first frame below the rounded top, the pattern below it
      down to the rounded base, and nothing else touched. */
  predicate Prepared(before: seq<int>, after: seq<int>, storage: int, size: int, handler: int)
    requires 0 < storage && 0 <= size && 64 <= Top(storage, size) <= 4 * |before|
  {
    var sp := Top(storage, size) / 4 - 16;
    && |after| == |before|
    && after[sp..sp + 16] == FirstFrame(handler)
    && (forall i :: Limit(storage) / 4 <= i < sp ==> after[i] == PATTERN)
    && (forall i :: 0 <= i < |before| && !Written(storage, size, 4 * i) ==> after[i] == before[i])
  }

  lemma PreparedInWords(before: seq<int>, after: seq<int>, storage: int, size: int, handler: int)
    requires 0 < storage && 0 <= size && 64 <= Top(storage, size) <= 4 * |before| && |after| == |before|
    requires var sp, limit := Top(storage, size) / 4 - 16, Limit(storage) / 4;
      && after[sp..sp + 16] == FirstFrame(handler)
      && (forall i :: limit <= i < sp ==> after[i] == PATTERN)
      && (forall i :: 0 <= i < |before| && !(sp <= i < sp + 16) && !(limit <= i < sp) ==> after[i] == before[i])
    ensures Prepared(before, after, storage, size, handler)
  {
    forall i | 0 <= i < |before| && !Written(storage, size, 4 * i) ensures after[i] == before[i] {
      WrittenWord(storage, size, i);
    }
  }

  /** The writes of OSThread_Start to the stack between word `limit` and word `top`. */
  method FillStack(mem: array<int>, top: int, limit: int, handler: int) returns (p: int)
    requires 16 <= top <= mem.Length && 0 <= limit
    modifies mem
    ensures p == top - 16 && mem[..][p..p + 16] == FirstFrame(handler)
    ensures forall i :: limit <= i < p ==> mem[i] == PATTERN
    ensures forall i :: 0 <= i < mem.Length && !(p <= i < top) && !(limit <= i < p) ==> mem[i] == old(mem[i])
  {
    p := PushFrame(mem, top, handler);
    ghost var frame := mem[p..top];
    Prefill(mem, p, limit);
    assert mem[p..top] == frame;
    assert mem[..][p..p + 16] == mem[p..top];
  }

  lemma Eights(q: int)
    ensures 8 * q / 4 == 2 * q && 8 * q % 8 == 0
  {
  }

  lemma TopInWords(top: int, words: int)
    requires top % 8 == 0 && 64 <= top <= 4 * words
    ensures 16 <= top / 4 <= words && 4 * (top / 4 - 16) == top - 64 && (top - 64) % 8 == 0
  {
    var q := top / 8;
    assert top == 8 * q;
    Eights(q);
    assert top - 64 == 8 * (q - 8);
    Eights(q - 8);
  }

  /** The stack part of OSThread_Start; the result is the saved stack pointer, as an address. */
  method InitStack(mem: array<int>, storage: int, size: int, handler: int) returns (sp: int)
    requires 0 < storage && 0 <= size && 64 <= Top(storage, size) <= 4 * mem.Length
    modifies mem
    ensures sp % 8 == 0 && sp + 64 <= storage + size < sp + 72
    ensures AtEntry(mem[..][sp / 4..sp / 4 + 16], handler)
    ensures forall i :: storage + 7 <= 4 * i < sp ==> mem[i] == 0xFACE_B00C
    ensures Prepared(old(mem[..]), mem[..], storage, size, handler)
  {
    Rounded(storage, size);
    TopInWords(Top(storage, size), mem.Length);
    var top, limit := Top(storage, size) / 4, Limit(storage) / 4;
    var p := FillStack(mem, top, limit, handler);
    sp := 4 * p;
    FirstFrameEnters(handler);
    PreparedInWords(old(mem[..]), mem[..], storage, size, handler);
  }

  /** They all lie inside the storage exactly when the frame fits above its base, as it does from 71 bytes on. */
  lemma StaysInStorageIff(storage: int, size: int)
    requires 0 < storage && 0 <= size
    ensures (forall a :: Written(storage, size, a) ==> storage <= a < storage + size) <==> storage + 64 <= Top(storage, size)
    ensures 71 <= size ==> storage + 64 <= Top(storage, size)
  {
    assert Top(storage, size) <= storage + size < Top(storage, size) + 8;
    assert storage <= Limit(storage) < storage + 8;
    assert Written(storage, size, Top(storage, size) - 64);
  }

  // ------------------------------------------------------- PendSV_Handler

  datatype Stack = Stack(lo: int, hi: int)

  /**
   The processor and the stacks.  `saved` is MyStckPointer of every thread control block; `stacks`
   gives each thread, and main, the words set aside for its stack.
   */
  datatype Cpu = Cpu(mem: seq<int>, regs: seq<int>, sp: int, saved: map<int, int>, curr: int, stacks: map<int, Stack>)

  /** A thread with a processor of its own. */
  datatype Virtual = Virtual(regs: seq<int>, sp: int)

  /** What the threads see: their own registers, and who runs. */
  datatype Threads = Threads(own: map<int, Virtual>, curr: int)

  datatype Step =
    | Compute(regs: seq<int>, sp: int, mem: seq<int>)   // the current thread, and handlers on its stack, run
    | Switch(next: int)                                 // exception entry, PendSV_Handler, exception return
    | Start(t: int, storage: int, size: int, handler: int, mem: seq<int>)     // OSThread_Start, leaving `mem`

  predicate Apart(a: Stack, b: Stack) {
    a.hi <= b.lo || b.hi <= a.lo
  }

  predicate Laid(c: Cpu) {
    && (forall t :: t in c.stacks ==> 0 <= c.stacks[t].lo <= c.stacks[t].hi <= |c.mem|)
    && (forall t, u :: t in c.stacks && u in c.stacks && t != u ==> Apart(c.stacks[t], c.stacks[u]))
    && c.curr in c.stacks && c.saved.Keys <= c.stacks.Keys
    && MAIN !in c.saved && (c.curr != MAIN ==> c.curr in c.saved)
    && |c.regs| == 16
  }

  /** A thread computes within its own stack, which keeps room for a full frame below its stack
      pointer, and leaves the stacks of the others alone. */
  predicate Enabled(c: Cpu, e: Step)
    requires Laid(c)
  {
    match e
    case Compute(regs, sp, mem) =>
      && |regs| == 16 && |mem| == |c.mem|
      && c.stacks[c.curr].lo + 16 <= sp <= c.stacks[c.curr].hi
      && forall t :: t in c.stacks && t != c.curr ==>
           mem[c.stacks[t].lo..c.stacks[t].hi] == c.mem[c.stacks[t].lo..c.stacks[t].hi]
    case Switch(next) => next in c.saved
    case Start(t, storage, size, handler, mem) =>
      && t != MAIN && t !in c.stacks && Fits(storage, size, |c.mem|)
      && (forall u :: u in c.stacks ==> c.stacks[u].hi <= storage / 4 || storage + size <= 4 * c.stacks[u].lo)
      && Prepared(c.mem, mem, storage, size, handler)
  }

  /** The storage lies in memory and holds a frame above its base. */
  predicate Fits(storage: int, size: int, words: int) {
    0 < storage && 0 <= size && storage + 64 <= Top(storage, size) <= 4 * words
  }

  /** The stack that the storage makes, in words. */
  function StackOf(storage: int, size: int): Stack {
    Stack(Limit(storage) / 4, Top(storage, size) / 4)
  }

  /** `mem` with `words` stored from `at` on. */
  function Store(mem: seq<int>, at: int, words: seq<int>): seq<int>
    requires 0 <= at && at + |words| <= |mem|
  {
    mem[..at] + words + mem[at + |words|..]
  }

  /** Memory with the running thread's registers pushed, or only the processor's half of them. */
  function SavedMemory(mem: seq<int>, sp: int, regs: seq<int>, half: bool): seq<int>
    requires |regs| == 16 && 16 <= sp <= |mem|
  {
    var entered := Store(mem, sp - 8, regs[8..]);
    if half then entered else Store(entered, sp - 16, regs[..8])
  }

  /** The processor pushes eight registers; PendSV pushes the other eight and saves SP unless OS_Curr is
      null, loads SP from the next thread, pops eight, and the exception return pops the rest. */
  function Next(c: Cpu, e: Step): Cpu
    requires Laid(c) && Enabled(c, e) && c.stacks[c.curr].lo + 16 <= c.sp <= c.stacks[c.curr].hi
    requires forall t :: t in c.saved && t != c.curr ==> 0 <= c.saved[t] && c.saved[t] + 16 <= |c.mem|
  {
    match e
    case Compute(regs, sp, mem) => c.(regs := regs, sp := sp, mem := mem)
    case Switch(next) =>
      var mem := SavedMemory(c.mem, c.sp, c.regs, c.curr == MAIN);
      var saved := if c.curr == MAIN then c.saved else c.saved[c.curr := c.sp - 16];
      var sp := saved[next];
      var low := mem[sp..sp + 8];
      var high := mem[sp + 8..sp + 16];
      Cpu(mem, low + high, sp + 16, saved, next, c.stacks)
    case Start(t, storage, size, _, mem) =>
      c.(mem := mem, saved := c.saved[t := Top(storage, size) / 4 - 16], stacks := c.stacks[t := StackOf(storage, size)])
  }

  /** Seen from the threads a switch changes nothing but who runs. */
  function ThreadsNext(v: Threads, e: Step): Threads {
    match e
    case Compute(regs, sp, _) => v.(own := v.own[v.curr := Virtual(regs, sp)])
    case Switch(next) => v.(curr := next)
    case Start(t, storage, size, handler, _) =>
      v.(own := v.own[t := Virtual(FirstFrame(handler), Top(storage, size) / 4)])
  }

  /** A suspended thread's registers lie on its stack. */
  ghost predicate Parked(c: Cpu, v: Threads, t: int) {
    && t in c.saved && t in c.stacks && t in v.own
    && 0 <= c.stacks[t].lo <= c.saved[t] && c.saved[t] + 16 <= c.stacks[t].hi <= |c.mem|
    && v.own[t] == Virtual(c.mem[c.saved[t]..c.saved[t] + 16], c.saved[t] + 16)
  }

  /** The running thread's registers are the processor's, and there is room for them on its stack. */
  ghost predicate Running(c: Cpu, v: Threads) {
    && c.curr == v.curr && c.curr in c.stacks && c.curr in v.own
    && v.own[c.curr] == Virtual(c.regs, c.sp)
    && c.stacks[c.curr].lo + 16 <= c.sp <= c.stacks[c.curr].hi
  }

  ghost predicate Represents(c: Cpu, v: Threads) {
    Laid(c) && Running(c, v) && forall t :: t in c.saved && t != c.curr ==> Parked(c, v, t)
  }

  lemma StoreElsewhere(mem: seq<int>, at: int, words: seq<int>, lo: int, hi: int)
    requires 0 <= at && at + |words| <= |mem| && 0 <= lo <= hi <= |mem|
    requires hi <= at || at + |words| <= lo
    ensures Store(mem, at, words)[lo..hi] == mem[lo..hi]
  {
  }

  lemma StoreThere(mem: seq<int>, at: int, words: seq<int>)
    requires 0 <= at && at + |words| <= |mem|
    ensures Store(mem, at, words)[at..at + |words|] == words
  {
  }

  lemma Slice(m: seq<int>, lo: int, hi: int, a: int, b: int)
    requires 0 <= lo <= a <= b <= hi <= |m|
    ensures m[lo..hi][a - lo..b - lo] == m[a..b]
  {
    var x, y := m[lo..hi][a - lo..b - lo], m[a..b];
    assert forall i :: 0 <= i < b - a ==> x[i] == y[i];
  }

  lemma Halves(m: seq<int>, a: int, b: int, c: int)
    requires 0 <= a <= b <= c <= |m|
    ensures m[a..c] == m[a..b] + m[b..c]
  {
  }

  /** Saving the running thread puts its whole register file on its stack, and nothing else moves. */
  lemma Saved(mem: seq<int>, sp: int, regs: seq<int>)
    requires |regs| == 16 && 16 <= sp <= |mem|
    ensures var m := Store(Store(mem, sp - 8, regs[8..]), sp - 16, regs[..8]);
            |m| == |mem| && m[sp - 16..sp] == regs
            && forall lo, hi :: 0 <= lo <= hi <= |mem| && (hi <= sp - 16 || sp <= lo) ==> m[lo..hi] == mem[lo..hi]
  {
    var e := Store(mem, sp - 8, regs[8..]);
    var m := Store(e, sp - 16, regs[..8]);
    StoreThere(mem, sp - 8, regs[8..]);
    StoreThere(e, sp - 16, regs[..8]);
    StoreElsewhere(e, sp - 16, regs[..8], sp - 8, sp);
    Halves(m, sp - 16, sp - 8, sp);
    assert regs == regs[..8] + regs[8..];
    forall lo, hi | 0 <= lo <= hi <= |mem| && (hi <= sp - 16 || sp <= lo) ensures m[lo..hi] == mem[lo..hi] {
      StoreElsewhere(mem, sp - 8, regs[8..], lo, hi);
      StoreElsewhere(e, sp - 16, regs[..8], lo, hi);
    }
  }

  /** One step of the processor is one step of the threads. */
  lemma NextRepresents(c: Cpu, v: Threads, e: Step)
    requires Represents(c, v) && Enabled(c, e)
    ensures Represents(Next(c, e), ThreadsNext(v, e))
  {
    match e
    case Compute(regs, sp, mem) => ComputeRepresents(c, v, e);
    case Switch(next) => SwitchRepresents(c, v, next);
    case Start(_, _, _, _, _) => StartRepresents(c, v, e);
  }

  /** The processor before any thread is started: main runs on its own stack. */
  lemma MainRepresents(c: Cpu, v: Threads)
    requires c.curr == MAIN && c.saved == map[] && c.stacks.Keys == {MAIN}
    requires |c.regs| == 16 && 0 <= c.stacks[MAIN].lo && c.stacks[MAIN].lo + 16 <= c.sp <= c.stacks[MAIN].hi <= |c.mem|
    requires v == Threads(map[MAIN := Virtual(c.regs, c.sp)], MAIN)
    ensures Represents(c, v)
  {
  }

  /** The new stack lies within its storage, in whole words. */
  lemma StackFits(storage: int, size: int, words: int)
    requires Fits(storage, size, words)
    ensures var k := StackOf(storage, size);
            && 0 <= k.lo && k.lo + 16 <= k.hi <= words
            && storage <= 4 * k.lo && 4 * k.hi <= storage + size
            && Top(storage, size) == 4 * k.hi && Limit(storage) == 4 * k.lo
  {
    Rounded(storage, size);
    WholeWords(Top(storage, size), Limit(storage), storage, size);
  }

  lemma WholeWords(top: int, limit: int, storage: int, size: int)
    requires top % 8 == 0 && limit % 8 == 0
    requires storage <= limit < storage + 8 && storage + 64 <= top
    ensures top == 4 * (top / 4) && limit == 4 * (limit / 4) && limit / 4 + 16 <= top / 4
  {
    var q, r := top / 8, limit / 8;
    assert top == 8 * q && limit == 8 * r;
    assert r + 8 <= q;
    Eights(q);
    Eights(r);
  }

  /** OSThread_Start writes nothing to the stacks of the others. */
  lemma StartKeeps(c: Cpu, e: Step, u: int)
    requires Laid(c) && e.Start? && Enabled(c, e) && u in c.stacks
    ensures Apart(c.stacks[u], StackOf(e.storage, e.size))
    ensures e.mem[c.stacks[u].lo..c.stacks[u].hi] == c.mem[c.stacks[u].lo..c.stacks[u].hi]
  {
    StackFits(e.storage, e.size, |c.mem|);
    forall i | c.stacks[u].lo <= i < c.stacks[u].hi ensures e.mem[i] == c.mem[i] {
      WrittenWord(e.storage, e.size, i);
    }
  }

  lemma StartLaid(c: Cpu, e: Step)
    requires Laid(c) && e.Start? && Enabled(c, e)
    requires c.stacks[c.curr].lo + 16 <= c.sp <= c.stacks[c.curr].hi
    requires forall t :: t in c.saved && t != c.curr ==> 0 <= c.saved[t] && c.saved[t] + 16 <= |c.mem|
    ensures Laid(Next(c, e))
  {
    var d := Next(c, e);
    StackFits(e.storage, e.size, |c.mem|);
    forall u | u in c.stacks ensures Apart(c.stacks[u], d.stacks[e.t]) {
      StartKeeps(c, e, u);
    }
  }

  lemma StartParks(c: Cpu, v: Threads, e: Step, u: int)
    requires Represents(c, v) && e.Start? && Enabled(c, e)
    requires u in Next(c, e).saved && u != c.curr
    ensures Parked(Next(c, e), ThreadsNext(v, e), u)
  {
    if u == e.t {
      StackFits(e.storage, e.size, |c.mem|);
    } else {
      StartKeeps(c, e, u);
      StaysParked(c, v, Next(c, e), ThreadsNext(v, e), u);
    }
  }

  lemma StartRepresents(c: Cpu, v: Threads, e: Step)
    requires Represents(c, v) && e.Start? && Enabled(c, e)
    ensures Represents(Next(c, e), ThreadsNext(v, e))
  {
    StartLaid(c, e);
    forall u | u in Next(c, e).saved && u != c.curr ensures Parked(Next(c, e), ThreadsNext(v, e), u) {
      StartParks(c, v, e, u);
    }
  }

  /** Memory that is the same on t's stack holds the same registers for t. */
  lemma StaysParked(c: Cpu, v: Threads, d: Cpu, w: Threads, t: int)
    requires Parked(c, v, t)
    requires t in d.saved && d.saved[t] == c.saved[t] && t in d.stacks && d.stacks[t] == c.stacks[t] && |d.mem| == |c.mem|
    requires t in w.own && w.own[t] == v.own[t]
    requires d.mem[c.stacks[t].lo..c.stacks[t].hi] == c.mem[c.stacks[t].lo..c.stacks[t].hi]
    ensures Parked(d, w, t)
  {
    var lo, hi, at := c.stacks[t].lo, c.stacks[t].hi, c.saved[t];
    Slice(d.mem, lo, hi, at, at + 16);
    Slice(c.mem, lo, hi, at, at + 16);
  }

  lemma ComputeRepresents(c: Cpu, v: Threads, e: Step)
    requires Represents(c, v) && Enabled(c, e) && e.Compute?
    ensures Represents(Next(c, e), ThreadsNext(v, e))
  {
    var d, w := Next(c, e), ThreadsNext(v, e);
    forall t | t in d.saved && t != d.curr ensures Parked(d, w, t) {
      StaysParked(c, v, d, w, t);
    }
  }

  /** The memory after a switch: the running thread parked, every other stack untouched. */
  lemma SwitchMemory(c: Cpu, v: Threads, next: int)
    requires Represents(c, v) && Enabled(c, Switch(next))
    ensures var d := Next(c, Switch(next));
            && |d.mem| == |c.mem|
            && (c.curr != MAIN ==> d.mem[c.sp - 16..c.sp] == c.regs)
            && forall t :: t in c.stacks && t != c.curr ==>
                 d.mem[c.stacks[t].lo..c.stacks[t].hi] == c.mem[c.stacks[t].lo..c.stacks[t].hi]
  {
    Saved(c.mem, c.sp, c.regs);
    forall t | t in c.stacks && t != c.curr
      ensures Next(c, Switch(next)).mem[c.stacks[t].lo..c.stacks[t].hi] == c.mem[c.stacks[t].lo..c.stacks[t].hi]
    {
      assert Apart(c.stacks[t], c.stacks[c.curr]);
      StoreElsewhere(c.mem, c.sp - 8, c.regs[8..], c.stacks[t].lo, c.stacks[t].hi);
    }
  }

  lemma SavedWord(mem: seq<int>, sp: int, regs: seq<int>, half: bool, i: int)
    requires |regs| == 16 && 16 <= sp <= |mem| && 0 <= i < |mem|
    ensures var m := SavedMemory(mem, sp, regs, half);
            && |m| == |mem|
            && m[i] == if sp - 8 <= i < sp || (sp - 16 <= i < sp - 8 && !half) then regs[i - sp + 16] else mem[i]
  {
    var entered := Store(mem, sp - 8, regs[8..]);
    StoreWord(mem, sp - 8, regs[8..], i);
    if !half {
      StoreWord(entered, sp - 16, regs[..8], i);
    }
  }

  /** Word by word: a switch stores R4 to R11 at the sixteen words below SP and R0 to R3, R12, LR, PC and xPSR
      above them, only the latter when main is switched out, and writes nothing else. */
  lemma SwitchWrites(c: Cpu, v: Threads, next: int, i: int)
    requires Represents(c, v) && Enabled(c, Switch(next)) && 0 <= i < |c.mem|
    ensures var d := Next(c, Switch(next));
            && |d.mem| == |c.mem|
            && d.mem[i] == if c.sp - 8 <= i < c.sp || (c.sp - 16 <= i < c.sp - 8 && c.curr != MAIN)
                           then c.regs[i - c.sp + 16] else c.mem[i]
  {
    SavedWord(c.mem, c.sp, c.regs, c.curr == MAIN, i);
  }

  lemma StoreWord(mem: seq<int>, at: int, words: seq<int>, i: int)
    requires 0 <= at && at + |words| <= |mem| && 0 <= i < |mem|
    ensures Store(mem, at, words)[i] == if at <= i < at + |words| then words[i - at] else mem[i]
  {
  }

  lemma SwitchParks(c: Cpu, v: Threads, next: int, t: int)
    requires Represents(c, v) && Enabled(c, Switch(next)) && t in Next(c, Switch(next)).saved
    ensures Parked(Next(c, Switch(next)), ThreadsNext(v, Switch(next)), t)
  {
    var d := Next(c, Switch(next));
    SwitchMemory(c, v, next);
    if t != c.curr {
      StaysParked(c, v, d, ThreadsNext(v, Switch(next)), t);
    }
  }

  /** The thread switched in gets the registers parked on its stack. */
  lemma SwitchRuns(c: Cpu, v: Threads, next: int)
    requires Represents(c, v) && Enabled(c, Switch(next))
    requires Parked(Next(c, Switch(next)), ThreadsNext(v, Switch(next)), next)
    ensures Running(Next(c, Switch(next)), ThreadsNext(v, Switch(next)))
  {
    var d := Next(c, Switch(next));
    Halves(d.mem, d.sp - 16, d.sp - 8, d.sp);
  }

  lemma SwitchLaid(c: Cpu, v: Threads, next: int)
    requires Represents(c, v) && Enabled(c, Switch(next))
    ensures Laid(Next(c, Switch(next)))
  {
    SwitchMemory(c, v, next);
  }

  lemma SwitchRepresents(c: Cpu, v: Threads, next: int)
    requires Represents(c, v) && Enabled(c, Switch(next))
    ensures Represents(Next(c, Switch(next)), ThreadsNext(v, Switch(next)))
  {
    var d, w := Next(c, Switch(next)), ThreadsNext(v, Switch(next));
    forall t | t in d.saved ensures Parked(d, w, t) {
      SwitchParks(c, v, next, t);
    }
    SwitchLaid(c, v, next);
    SwitchRuns(c, v, next);
  }

  ghost predicate Runs(c: Cpu, v: Threads, es: seq<Step>)
    requires Represents(c, v)
    decreases |es|
  {
    es != [] ==> Enabled(c, es[0]) && (NextRepresents(c, v, es[0]); Runs(Next(c, es[0]), ThreadsNext(v, es[0]), es[1..]))
  }

  ghost function Exec(c: Cpu, v: Threads, es: seq<Step>): (r: (Cpu, Threads))
    requires Represents(c, v) && Runs(c, v, es)
    ensures Represents(r.0, r.1)
    decreases |es|
  {
    if es == [] then (c, v)
    else NextRepresents(c, v, es[0]); Exec(Next(c, es[0]), ThreadsNext(v, es[0]), es[1..])
  }

  /** In the run, `t` never computes. */
  ghost predicate Suspended(c: Cpu, v: Threads, es: seq<Step>, t: int)
    requires Represents(c, v) && Runs(c, v, es)
    decreases |es|
  {
    es != [] ==>
      (es[0].Compute? ==> c.curr != t) &&
      (NextRepresents(c, v, es[0]); Suspended(Next(c, es[0]), ThreadsNext(v, es[0]), es[1..], t))
  }

  /** Every run of switches and of other threads: when a thread is switched back in, its registers and
      its stack pointer are those it was suspended with. */
  lemma {:induction false} ResumesUnchanged(c: Cpu, v: Threads, es: seq<Step>, t: int)
    requires Represents(c, v) && t in c.stacks && t in v.own && Runs(c, v, es) && Suspended(c, v, es, t)
    ensures t in Exec(c, v, es).1.own && Exec(c, v, es).1.own[t] == v.own[t]
    ensures Exec(c, v, es).0.curr == t ==> Virtual(Exec(c, v, es).0.regs, Exec(c, v, es).0.sp) == v.own[t]
    decreases |es|
  {
    if es != [] {
      NextRepresents(c, v, es[0]);
      ResumesUnchanged(Next(c, es[0]), ThreadsNext(v, es[0]), es[1..], t);
    }
  }

  /** About to execute the first instruction at `handler`: PC there, the Thumb bit in xPSR, and the made-up
      values in R4 to R11, R0 to R3, R12 and LR. */
  predicate AtEntry(regs: seq<int>, handler: int) {
    && |regs| == 16
    && regs[14] == handler && regs[15] == 0x100_0000
    && regs[8] == 0 && regs[9] == 1 && regs[10] == 2 && regs[11] == 3 && regs[12] == 0xC && regs[13] == 0xE
    && regs[0] == 4 && regs[1] == 5 && regs[2] == 6 && regs[3] == 7
    && regs[4] == 8 && regs[5] == 9 && regs[6] == 10 && regs[7] == 11
  }

  lemma FirstFrameEnters(handler: int)
    ensures AtEntry(FirstFrame(handler), handler)
  {
  }

  lemma EmptyStack(storage: int, size: int)
    ensures var sp := Top(storage, size) / 4;
            sp % 2 == 0 && 4 * sp <= storage + size < 4 * sp + 8
  {
    Eights((storage + size) / 8);
  }

  /** Every run: a thread that OSThread_Start set up enters its handler in Thumb state, with the fabricated
      values in R0 to R3, R12, LR and R4 to R11 and an empty stack, whenever it is first switched in. */
  lemma StartedThreadRuns(c: Cpu, v: Threads, es: seq<Step>)
    requires Represents(c, v) && Runs(c, v, es) && es != [] && es[0].Start? && Suspended(c, v, es, es[0].t)
    ensures var e, d := es[0], Exec(c, v, es).0;
            d.curr == e.t ==>
              AtEntry(d.regs, e.handler) && d.sp % 2 == 0 && 4 * d.sp <= e.storage + e.size < 4 * d.sp + 8
  {
    NextRepresents(c, v, es[0]);
    ResumesUnchanged(Next(c, es[0]), ThreadsNext(v, es[0]), es[1..], es[0].t);
    FirstFrameEnters(es[0].handler);
    EmptyStack(es[0].storage, es[0].size);
  }
}
