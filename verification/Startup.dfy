/**
 SysStartup.c: from arbitrary memory to the state main starts in.

 Memory is one array of bytes; the linker symbols are offsets into it.
 */
module Startup {
  import opened PortRace
  import B = Bits
  import D = Deployment
  import O = OsSpec

  type byte = x: int | 0 <= x < 256

  const ADDRESSES := 0x1_0000_0000

  /** _rom_data_begin, _data_begin, _data_end, _bss_begin and _bss_end. */
  datatype Layout = Layout(romData: int, dataBegin: int, dataEnd: int, bssBegin: int, bssEnd: int)

  /** What the linker script guarantees: .bss follows .data in RAM, and the load image is elsewhere. */
  predicate Linked(l: Layout, size: int) {
    && 0 <= l.dataBegin <= l.dataEnd <= l.bssBegin <= l.bssEnd <= size <= ADDRESSES
    && 0 <= l.romData && l.romData + (l.dataEnd - l.dataBegin) <= size
    && (l.romData + (l.dataEnd - l.dataBegin) <= l.dataBegin || l.bssEnd <= l.romData)
  }

  predicate InData(l: Layout, a: int) { l.dataBegin <= a < l.dataEnd }

  predicate InBss(l: Layout, a: int) { l.bssBegin <= a < l.bssEnd }

  /** The memory a C program may rely on: .data holds its image, .bss is zero, the rest is untouched. */
  ghost predicate Initialised(l: Layout, before: seq<byte>, after: seq<byte>)
    requires Linked(l, |before|)
  {
    && |after| == |before|
    && (forall a :: InData(l, a) ==> after[a] == before[l.romData + (a - l.dataBegin)])
    && (forall a :: InBss(l, a) ==> after[a] == 0)
    && (forall a :: 0 <= a < |before| && !InData(l, a) && !InBss(l, a) ==> after[a] == before[a])
  }

  method InitRam(mem: array<byte>, l: Layout)
    requires Linked(l, mem.Length)
    modifies mem
    ensures Initialised(l, old(mem[..]), mem[..])
  {
    CopyData(mem, l);
    ClearBss(mem, l);
  }

  /** The first loop. */
  method CopyData(mem: array<byte>, l: Layout)
    requires Linked(l, mem.Length)
    modifies mem
    ensures forall a :: InData(l, a) ==> mem[a] == old(mem[l.romData + (a - l.dataBegin)])
    ensures forall a :: 0 <= a < mem.Length && !InData(l, a) ==> mem[a] == old(mem[a])
  {
    var sizeData := l.dataEnd - l.dataBegin;
    for i := 0 to sizeData
      invariant forall a :: l.dataBegin <= a < l.dataBegin + i ==> mem[a] == old(mem[l.romData + (a - l.dataBegin)])
      invariant forall a :: 0 <= a < l.dataBegin || l.dataBegin + i <= a < mem.Length ==> mem[a] == old(mem[a])
    {
      mem[l.dataBegin + i] := mem[l.romData + i];
    }
  }

  /** The second loop. */
  method ClearBss(mem: array<byte>, l: Layout)
    requires Linked(l, mem.Length)
    modifies mem
    ensures forall a :: InBss(l, a) ==> mem[a] == 0
    ensures forall a :: 0 <= a < mem.Length && !InBss(l, a) ==> mem[a] == old(mem[a])
  {
    var sizeBss := l.bssEnd - l.bssBegin;
    for i := 0 to sizeBss
      invariant forall a :: l.bssBegin <= a < l.bssBegin + i ==> mem[a] == 0
      invariant forall a :: 0 <= a < l.bssBegin || l.bssBegin + i <= a < mem.Length ==> mem[a] == old(mem[a])
    {
      mem[l.bssBegin + i] := 0;
    }
  }

  /** The result is determined by the memory before, and running the function again changes nothing. */
  lemma InitialisedOnce(l: Layout, m0: seq<byte>, m1: seq<byte>, m2: seq<byte>)
    requires Linked(l, |m0|) && Initialised(l, m0, m1)
    ensures Initialised(l, m0, m2) ==> m2 == m1
    ensures Initialised(l, m1, m2) <==> m2 == m1
  {
    if Initialised(l, m0, m2) || Initialised(l, m1, m2) {
      forall a | 0 <= a < |m0| ensures m2[a] == m1[a] {
        if InData(l, a) {
          var image := l.romData + (a - l.dataBegin);
          assert !InData(l, image) && !InBss(l, image);
        }
      }
    }
    forall a | InData(l, a) ensures m1[a] == m1[l.romData + (a - l.dataBegin)] {
      var image := l.romData + (a - l.dataBegin);
      assert !InData(l, image) && !InBss(l, image);
    }
  }

  // ------------------------------------------------------- zeroed statics

  /** A variable of `size` bytes at `a` with an initial value of zero: in .bss, or in .data with a zero image. */
  ghost predicate ZeroStatic(l: Layout, before: seq<byte>, a: int, size: int)
    requires Linked(l, |before|)
  {
    && 0 <= size
    && ((l.bssBegin <= a && a + size <= l.bssEnd)
        || (l.dataBegin <= a && a + size <= l.dataEnd
            && forall i :: l.romData + (a - l.dataBegin) <= i < l.romData + (a - l.dataBegin) + size ==> before[i] == 0))
  }

  /** A little-endian load of `size` bytes. */
  function Load(m: seq<byte>, a: int, size: nat): nat
    requires 0 <= a && a + size <= |m|
    decreases size
  {
    if size == 0 then 0 else m[a] + 256 * Load(m, a + 1, size - 1)
  }

  /** The bytes of a word. */
  lemma LittleEndian(m: seq<byte>, a: int, b0: int, b1: int, b2: int, b3: int)
    requires 0 <= a && a + 4 <= |m| && m[a..a + 4] == [b0, b1, b2, b3]
    ensures Load(m, a, 4) == b0 + 0x100 * b1 + 0x1_0000 * b2 + 0x100_0000 * b3
  {
    assert m[a] == b0 && m[a + 1] == b1 && m[a + 2] == b2 && m[a + 3] == b3;
    assert Load(m, a + 3, 1) == b3;
    assert Load(m, a + 2, 2) == b2 + 0x100 * b3;
    assert Load(m, a + 1, 3) == b1 + 0x100 * b2 + 0x1_0000 * b3;
  }

  lemma {:induction false} LoadZeros(m: seq<byte>, a: int, size: nat)
    requires 0 <= a && a + size <= |m| && forall i :: a <= i < a + size ==> m[i] == 0
    ensures Load(m, a, size) == 0
    decreases size
  {
    if size > 0 {
      LoadZeros(m, a + 1, size - 1);
    }
  }

  predicate ZeroBytes(m: seq<byte>, a: int, size: int) {
    0 <= a && a + size <= |m| && forall i :: a <= i < a + size ==> m[i] == 0
  }

  lemma BytesAfterInit(l: Layout, before: seq<byte>, after: seq<byte>, a: int, size: int)
    requires Linked(l, |before|) && Initialised(l, before, after) && ZeroStatic(l, before, a, size)
    ensures ZeroBytes(after, a, size)
  {
    forall i | a <= i < a + size ensures after[i] == 0 {
      if InData(l, i) {
        var image := l.romData + (i - l.dataBegin);
        assert after[i] == before[image];
      } else {
        assert InBss(l, i);
      }
    }
  }

  /** A variable without initial value, or with zero, is zero in every byte and reads as zero. */
  lemma ZeroAfterInit(l: Layout, before: seq<byte>, after: seq<byte>, a: int, size: int)
    requires Linked(l, |before|) && Initialised(l, before, after) && ZeroStatic(l, before, a, size)
    ensures ZeroBytes(after, a, size) && Load(after, a, size) == 0
  {
    BytesAfterInit(l, before, after, a, size);
    LoadZeros(after, a, size);
  }

  /** Where the linker put port_c_lock, millisec_counter, OS_Curr, OS_Next, OS_Thread, OS_ReadySet and OS_DelayedSet. */
  datatype Statics = Statics(lock: int, counter: int, curr: int, next: int, threads: int, ready: int, delayed: int)

  ghost predicate Placed(l: Layout, m: seq<byte>, v: Statics)
    requires Linked(l, |m|)
  {
    && ZeroStatic(l, m, v.lock, 1) && ZeroStatic(l, m, v.counter, 8)
    && ZeroStatic(l, m, v.curr, 4) && ZeroStatic(l, m, v.next, 4)
    && (forall p :: 0 <= p < 33 ==> ZeroStatic(l, m, v.threads + 4 * p, 4))
    && ZeroStatic(l, m, v.ready, 4) && ZeroStatic(l, m, v.delayed, 4)
  }

  ghost predicate InMemory(m: seq<byte>, v: Statics) {
    && 0 <= v.lock && v.lock + 1 <= |m| && 0 <= v.counter && v.counter + 8 <= |m|
    && 0 <= v.curr && v.curr + 4 <= |m| && 0 <= v.next && v.next + 4 <= |m|
    && 0 <= v.threads && v.threads + 132 <= |m|
    && 0 <= v.ready && v.ready + 4 <= |m| && 0 <= v.delayed && v.delayed + 4 <= |m|
  }

  /** A 32-bit word, as the scheduler's masks are. */
  function Word(m: seq<byte>, a: int): bv32
    requires 0 <= a && a + 4 <= |m|
  {
    (Load(m, a, 4) % 0x1_0000_0000) as bv32
  }

  function SlotOf(pointer: int, slots: map<int, int>): int {
    if pointer != 0 && pointer in slots then slots[pointer] else O.NOBODY
  }

  /** The machine of module Deployment as main finds it: its data read from memory, the pins from the port. */
  ghost function SysOf(m: seq<byte>, v: Statics, slots: map<int, int>, port: set<int>): D.Sys
    requires InMemory(m, v)
  {
    D.Sys(Race(port, Load(m, v.lock, 1) != 0, [Out, Out, Out], []),
          O.Os(B.Members(Word(m, v.ready)), B.Members(Word(m, v.delayed)),
               map p | 0 <= p < 33 && Load(m, v.threads + 4 * p, 4) != 0 :: 0,
               SlotOf(Load(m, v.curr, 4), slots), SlotOf(Load(m, v.next, 4), slots), false),
          D.NotActive, Load(m, v.counter, 8), 0, 0, [], false, 0, 0, D.Awake, 0)
  }

  /** The addresses of the statics. */
  predicate OfStatics(v: Statics, a: int) {
    || v.lock <= a < v.lock + 1 || v.counter <= a < v.counter + 8
    || v.curr <= a < v.curr + 4 || v.next <= a < v.next + 4
    || v.threads <= a < v.threads + 132
    || v.ready <= a < v.ready + 4 || v.delayed <= a < v.delayed + 4
  }

  /** Every byte of the statics is in memory and zero. */
  predicate AllZero(m: seq<byte>, v: Statics) {
    && ZeroBytes(m, v.lock, 1) && ZeroBytes(m, v.counter, 8)
    && ZeroBytes(m, v.curr, 4) && ZeroBytes(m, v.next, 4) && ZeroBytes(m, v.threads, 132)
    && ZeroBytes(m, v.ready, 4) && ZeroBytes(m, v.delayed, 4)
  }

  lemma StaticsAreZero(l: Layout, before: seq<byte>, after: seq<byte>, v: Statics)
    requires Linked(l, |before|) && Initialised(l, before, after) && Placed(l, before, v)
    ensures AllZero(after, v)
  {
    BytesAfterInit(l, before, after, v.lock, 1);
    BytesAfterInit(l, before, after, v.counter, 8);
    BytesAfterInit(l, before, after, v.curr, 4);
    BytesAfterInit(l, before, after, v.next, 4);
    SlotsAreZero(l, before, after, v.threads);
    BytesAfterInit(l, before, after, v.ready, 4);
    BytesAfterInit(l, before, after, v.delayed, 4);
  }

  lemma SlotsAreZero(l: Layout, before: seq<byte>, after: seq<byte>, threads: int)
    requires Linked(l, |before|) && Initialised(l, before, after)
    requires forall p :: 0 <= p < 33 ==> ZeroStatic(l, before, threads + 4 * p, 4)
    ensures ZeroBytes(after, threads, 132)
  {
    forall p | 0 <= p < 33 ensures ZeroBytes(after, threads + 4 * p, 4) {
      BytesAfterInit(l, before, after, threads + 4 * p, 4);
    }
    forall a | threads <= a < threads + 132 ensures 0 <= a < |after| && after[a] == 0 {
      SlotByte(after, threads, a);
    }
    assert ZeroBytes(after, threads + 4 * 0, 4) && ZeroBytes(after, threads + 4 * 32, 4);
  }

  lemma SlotByte(m: seq<byte>, threads: int, a: int)
    requires forall p :: 0 <= p < 33 ==> ZeroBytes(m, threads + 4 * p, 4)
    requires threads <= a < threads + 132
    ensures 0 <= a < |m| && m[a] == 0
  {
    assert ZeroBytes(m, threads + 4 * ((a - threads) / 4), 4);
  }

  lemma SlotsLoadZero(m: seq<byte>, threads: int)
    requires ZeroBytes(m, threads, 132)
    ensures forall p :: 0 <= p < 33 ==> Load(m, threads + 4 * p, 4) == 0
  {
    forall p | 0 <= p < 33 ensures Load(m, threads + 4 * p, 4) == 0 {
      LoadZeros(m, threads + 4 * p, 4);
    }
  }

  lemma VariablesLoadZero(m: seq<byte>, v: Statics)
    requires AllZero(m, v)
    ensures InMemory(m, v)
    ensures Load(m, v.lock, 1) == 0 && Load(m, v.counter, 8) == 0 && Load(m, v.curr, 4) == 0 && Load(m, v.next, 4) == 0
    ensures Load(m, v.ready, 4) == 0 && Load(m, v.delayed, 4) == 0
  {
    LoadZeros(m, v.lock, 1);
    LoadZeros(m, v.counter, 8);
    LoadZeros(m, v.curr, 4);
    LoadZeros(m, v.next, 4);
    LoadZeros(m, v.ready, 4);
    LoadZeros(m, v.delayed, 4);
  }

  lemma ZeroIsInitial(m: seq<byte>, v: Statics, slots: map<int, int>, port: set<int>)
    requires AllZero(m, v)
    ensures InMemory(m, v) && SysOf(m, v, slots, port) == D.Boot(port)
  {
    VariablesLoadZero(m, v);
    SlotsLoadZero(m, v.threads);
    B.MembersEmpty(0);
    var s := SysOf(m, v, slots, port);
    assert s.os.ready == {} && s.os.delayed == {} && s.os.timeOut == map[];
  }

  // ----------------------------------------------------------- constructors

  /** What a constructor makes of memory. */
  type Constructor = seq<byte> -> seq<byte>

  ghost predicate KeepsSize(f: Constructor) {
    forall m :: |f(m)| == |m|
  }

  /** Memory after the calls, in their order. */
  function AfterCalls(m: seq<byte>, calls: seq<Constructor>): seq<byte>
    decreases |calls|
  {
    if calls == [] then m else calls[|calls| - 1](AfterCalls(m, calls[..|calls| - 1]))
  }

  /** One more call works on what the calls before it left. */
  lemma LastCall(m: seq<byte>, calls: seq<Constructor>, f: Constructor)
    ensures AfterCalls(m, calls + [f]) == f(AfterCalls(m, calls))
  {
    assert (calls + [f])[..|calls|] == calls;
  }

  /** `(*pfn)()`: memory becomes what `f` makes of it. */
  method Call(mem: array<byte>, f: Constructor)
    requires |f(mem[..])| == mem.Length
    modifies mem
    ensures mem[..] == f(old(mem[..]))
  {
    var after := f(mem[..]);
    forall i | 0 <= i < mem.Length { mem[i] := after[i]; }
  }

  /** The call of table entry `n`, on what the entries before it left of `start`. */
  method CallEntry(mem: array<byte>, table: seq<Constructor>, n: nat, ghost start: seq<byte>)
    requires n < |table| && KeepsSize(table[n]) && mem[..] == AfterCalls(start, table[..n])
    modifies mem
    ensures mem[..] == AfterCalls(start, table[..n + 1])
  {
    Call(mem, table[n]);
    LastCall(start, table[..n], table[n]);
    assert table[..n + 1] == table[..n] + [table[n]];
  }

  /** crt_init_ctors: `table` holds the function pointers from _ctors_begin on; each is called on the memory
      the one before it left. */
  method InitCtors(mem: array<byte>, begin: int, end: int, table: seq<Constructor>)
    requires 0 <= begin <= end < ADDRESSES && end == begin + 4 * |table|
    requires forall f :: f in table ==> KeepsSize(f)
    modifies mem
    ensures mem[..] == AfterCalls(old(mem[..]), table)
  {
    ghost var n := 0;
    var pfn := begin;
    while pfn != end
      invariant n <= |table| && pfn == begin + 4 * n
      invariant mem[..] == AfterCalls(old(mem[..]), table[..n])
      decreases |table| - n
    {
      CallEntry(mem, table, (pfn - begin) / 4, old(mem[..]));
      pfn := (pfn + 4) % ADDRESSES;
      n := n + 1;
    }
    assert table[..n] == table;
  }

  /** The constructor writes none of the statics. */
  ghost predicate LeavesStatics(f: Constructor, v: Statics) {
    forall m, a :: OfStatics(v, a) && 0 <= a < |m| && |f(m)| == |m| ==> f(m)[a] == m[a]
  }

  lemma AllZeroKept(m: seq<byte>, n: seq<byte>, v: Statics)
    requires AllZero(m, v) && |n| == |m| && forall a :: OfStatics(v, a) && 0 <= a < |m| ==> n[a] == m[a]
    ensures AllZero(n, v)
  {
  }

  lemma {:induction false} ConstructorsKeepZero(m: seq<byte>, v: Statics, calls: seq<Constructor>)
    requires AllZero(m, v) && forall f :: f in calls ==> KeepsSize(f) && LeavesStatics(f, v)
    ensures AllZero(AfterCalls(m, calls), v)
    decreases |calls|
  {
    if calls != [] {
      var before, f := AfterCalls(m, calls[..|calls| - 1]), calls[|calls| - 1];
      ConstructorsKeepZero(m, v, calls[..|calls| - 1]);
      assert KeepsSize(f) && LeavesStatics(f, v);
      AllZeroKept(before, f(before), v);
    }
  }

  /** From arbitrary memory the initialised RAM, after constructors that write none of the statics, is the
      initial state of the deployed machine: flag clear, counter zero, no thread registered or ready. */
  lemma BootReachesInitialState(l: Layout, before: seq<byte>, after: seq<byte>, calls: seq<Constructor>,
                                v: Statics, slots: map<int, int>, port: set<int>)
    requires Linked(l, |before|) && Initialised(l, before, after) && Placed(l, before, v)
    requires forall f :: f in calls ==> KeepsSize(f) && LeavesStatics(f, v)
    ensures InMemory(AfterCalls(after, calls), v) && SysOf(AfterCalls(after, calls), v, slots, port) == D.Boot(port)
  {
    StaticsAreZero(l, before, after, v);
    ConstructorsKeepZero(after, v, calls);
    ZeroIsInitial(AfterCalls(after, calls), v, slots, port);
  }

  /** The startup code up to main, from arbitrary memory: main finds what the constructors, in table order, made
      of the initialised RAM.  If they write none of the statics, which the linker put at `v`, that is the
      initial state of the deployed machine; `port` is what the output register of port C holds. */
  method MyStartup(mem: array<byte>, l: Layout, begin: int, table: seq<Constructor>,
                   ghost v: Statics, ghost slots: map<int, int>, ghost port: set<int>)
    requires Linked(l, mem.Length) && 0 <= begin && begin + 4 * |table| < ADDRESSES
    requires forall f :: f in table ==> KeepsSize(f)
    modifies mem
    ensures exists m1 :: Initialised(l, old(mem[..]), m1) && mem[..] == AfterCalls(m1, table)
    ensures Placed(l, old(mem[..]), v) && (forall f :: f in table ==> LeavesStatics(f, v)) ==>
              InMemory(mem[..], v) && SysOf(mem[..], v, slots, port) == D.Boot(port)
  {
    ghost var before := mem[..];
    InitRam(mem, l);
    ghost var m1 := mem[..];
    assert Initialised(l, before, m1);
    InitCtors(mem, begin, begin + 4 * |table|, table);
    if Placed(l, before, v) && (forall f :: f in table ==> LeavesStatics(f, v)) {
      BootReachesInitialState(l, before, m1, table, v, slots, port);
    }
  }

  /** The guard `!=` ever stops the loop exactly when the table is a whole number of pointers,
      even if the addresses wrap around. */
  lemma GuardStopsIff(begin: int, end: int)
    requires 0 <= begin < ADDRESSES && 0 <= end < ADDRESSES
    ensures (exists k: nat :: (begin + 4 * k) % ADDRESSES == end) <==> (end - begin) % 4 == 0
  {
    if k: nat :| (begin + 4 * k) % ADDRESSES == end {
      var q := (begin + 4 * k) / 0x1_0000_0000;
      assert begin + 4 * k == 0x1_0000_0000 * q + end;
      assert end - begin == 4 * (k - 0x4000_0000 * q);
    }
    if (end - begin) % 4 == 0 {
      var d := (end - begin) / 4;
      var k: nat := if d >= 0 then d else d + 0x4000_0000;
      assert (begin + 4 * k) % ADDRESSES == end;
    }
  }
}
