/**
 Gpio.c: the pins of ports A and C behind their 32-bit registers, and the flag that is
 meant to guard port C.

 A port word is read as the set of its high pins; other modules see only those sets.
 */
module Gpio {
  import opened Bits

  // ------------------------------------------------------- pins and words

  const PC2 := 2
  const PC3 := 3
  const PC10 := 10

  predicate IsHigh(x: bv32, pin: int)
    requires 0 <= pin < 32
  {
    Has(x, pin + 1)
  }

  /** The high pins of an output data register. */
  ghost function Pins(x: bv32): set<int> {
    set k | 0 <= k < 32 && IsHigh(x, k)
  }

  /** One port operation: drive `pin` high or low. */
  datatype Op = Op(pin: int, on: bool)

  /** What the operation makes of a word: the update in a register, and the atomic update. */
  function Apply(op: Op, w: set<int>): set<int> {
    if op.on then w + {op.pin} else w - {op.pin}
  }

  lemma PinIsMember(x: bv32, k: int)
    requires 0 <= k < 32
    ensures k in Pins(x) <==> k + 1 in Members(x)
  {
    assert IsHigh(x, k) == Has(x, k + 1);
  }

  /** The bits of the pins the program uses: alone high, and alone low. */
  lemma PinWeights()
    ensures 2 in Pins(0x4) && 2 !in Pins(0xFFFF_FFFB)
    ensures 3 in Pins(0x8) && 3 !in Pins(0xFFFF_FFF7)
    ensures 5 in Pins(0x20) && 5 !in Pins(0xFFFF_FFDF)
    ensures 10 in Pins(0x400) && 10 !in Pins(0xFFFF_FBFF)
  {
    MaskWeights();
  }

  /** Words whose bits differ by one operation have pins that differ by it. */
  lemma PinsFollowMembers(x: bv32, r: bv32, op: Op)
    requires 0 <= op.pin < 32
    requires Members(r) == if op.on then Members(x) + {op.pin + 1} else Members(x) - {op.pin + 1}
    ensures Pins(r) == Apply(op, Pins(x))
  {
    forall k | 0 <= k < 32 ensures k in Pins(r) <==> k in Apply(op, Pins(x)) {
      PinIsMember(r, k);
      PinIsMember(x, k);
    }
  }

  /** `reg | (1UL << pin)`. */
  function High(reg: bv32, pin: int): (r: bv32)
    requires 0 <= pin < 32
    ensures Pins(r) == Apply(Op(pin, true), Pins(reg))
  {
    MembersInsert(reg, pin + 1);
    PinsFollowMembers(reg, reg | Mask(pin + 1), Op(pin, true));
    reg | Mask(pin + 1)
  }

  /** `reg & ~(1UL << pin)`. */
  function Low(reg: bv32, pin: int): (r: bv32)
    requires 0 <= pin < 32
    ensures Pins(r) == Apply(Op(pin, false), Pins(reg))
  {
    MembersRemove(reg, pin + 1);
    PinsFollowMembers(reg, reg & !Mask(pin + 1), Op(pin, false));
    reg & !Mask(pin + 1)
  }

  /** The pins a caller does not own decide whether a late store is the atomic one. */
  lemma LateStore(op: Op, atLoad: set<int>, atStore: set<int>)
    ensures Apply(op, atLoad) == Apply(op, atStore) <==> atLoad - {op.pin} == atStore - {op.pin}
  {
    assert Apply(op, atLoad) - {op.pin} == atLoad - {op.pin};
    assert Apply(op, atStore) - {op.pin} == atStore - {op.pin};
    assert Apply(op, atLoad) == Apply(op, atLoad - {op.pin});
    assert Apply(op, atStore) == Apply(op, atStore - {op.pin});
  }

  // ------------------------------------------------------------ mode fields

  lemma ThreeIsTwoBits(k: nat)
    requires k < 31
    ensures (3 as bv32) << k == ((1 as bv32) << k) | (((1 as bv32) << k) << 1)
  {
  }

  lemma TwoBits(x: bv32, pin: int)
    requires 0 <= pin < 16
    ensures x & !((3 as bv32) << (2 * pin)) == (x & !Mask(2 * pin + 1)) & !Mask(2 * pin + 2)
  {
    ThreeIsTwoBits(2 * pin);
    MaskSuccessor(2 * pin + 1);
    ClearBoth(x, Mask(2 * pin + 1), Mask(2 * pin + 2));
  }

  /** `MODER &= ~(3 << 2 * pin); MODER |= 1 << 2 * pin`. */
  method Output(moder: bv32, pin: int) returns (r: bv32)
    requires 0 <= pin < 16
    ensures Pins(r) == Pins(moder) - {2 * pin, 2 * pin + 1} + {2 * pin}
  {
    TwoBits(moder, pin);
    assert Pins(Low(Low(moder, 2 * pin), 2 * pin + 1)) == Pins(moder) - {2 * pin, 2 * pin + 1};
    r := moder & !((3 as bv32) << (2 * pin));
    r := High(r, 2 * pin);
  }

  /** For PC3, PC2 and PC10, in the source's order and in the five others: one register value. */
  lemma OutputsCommute(m: bv32)
    ensures ((((((m & !0xC0) | 0x40) & !0x30) | 0x10) & !0x30_0000) | 0x10_0000) == (m & !0x30_00F0) | 0x10_0050
    ensures ((((((m & !0xC0) | 0x40) & !0x30_0000) | 0x10_0000) & !0x30) | 0x10) == (m & !0x30_00F0) | 0x10_0050
    ensures ((((((m & !0x30) | 0x10) & !0xC0) | 0x40) & !0x30_0000) | 0x10_0000) == (m & !0x30_00F0) | 0x10_0050
    ensures ((((((m & !0x30) | 0x10) & !0x30_0000) | 0x10_0000) & !0xC0) | 0x40) == (m & !0x30_00F0) | 0x10_0050
    ensures ((((((m & !0x30_0000) | 0x10_0000) & !0xC0) | 0x40) & !0x30) | 0x10) == (m & !0x30_00F0) | 0x10_0050
    ensures ((((((m & !0x30_0000) | 0x10_0000) & !0x30) | 0x10) & !0xC0) | 0x40) == (m & !0x30_00F0) | 0x10_0050
  {
  }

  lemma TwoClocks(x: bv32)
    ensures x | ((1 << 0) | (1 << 2)) == (x | Mask(1)) | Mask(3)
  {
  }

  lemma TwoHigh(x: bv32, y: bv32, z: bv32)
    requires y == x | Mask(1) && z == y | Mask(3)
    ensures Pins(z) == Pins(x) + {0, 2}
  {
    MembersInsert(x, 1);
    PinsFollowMembers(x, y, Op(0, true));
    MembersInsert(y, 3);
    PinsFollowMembers(y, z, Op(2, true));
  }

  /** `RCC_AHB1ENR |= RCC_AHB1ENR_GPIOAEN | RCC_AHB1ENR_GPIOCEN`. */
  method PortClocks(x: bv32) returns (r: bv32)
    ensures Pins(r) == Pins(x) + {0, 2}
  {
    r := x | ((1 << 0) | (1 << 2));
    TwoClocks(x);
    TwoHigh(x, x | Mask(1), r);
  }

  /** What a port operation does to the flag and the output register, in order. */
  datatype PortEvent = SetFlag | Store(pins: set<int>) | ClearFlag

  function Section(pins: set<int>): seq<PortEvent> {
    [SetFlag, Store(pins), ClearFlag]
  }

  /** How often PC2 goes from low to high in the trace. */
  function Rises(high: bool, trace: seq<PortEvent>): nat
    decreases |trace|
  {
    if trace == [] then 0
    else if trace[0].Store? then
      (if !high && 2 in trace[0].pins then 1 else 0) + Rises(2 in trace[0].pins, trace[1..])
    else Rises(high, trace[1..])
  }

  /** Raising and lowering PC2 is one rising edge, unless it was high already. */
  lemma OnePulse(pins: set<int>)
    ensures Rises(2 in pins, Section(pins + {2}) + Section(pins - {2})) == if 2 in pins then 0 else 1
  {
    var t := Section(pins + {2}) + Section(pins - {2});
    assert t == [SetFlag, Store(pins + {2}), ClearFlag, SetFlag, Store(pins - {2}), ClearFlag];
    var t1 := t[1..];
    var t2 := t1[1..];
    var t3 := t2[1..];
    var t4 := t3[1..];
    var t5 := t4[1..];
    assert t5 == [ClearFlag] && t5[1..] == [];
    assert Rises(false, t5) == 0;
    assert t4[0] == Store(pins - {2}) && Rises(true, t4) == Rises(false, t5);
    assert Rises(true, t2) == Rises(true, t3) == Rises(true, t4);
    assert Rises(2 in pins, t) == Rises(2 in pins, t1) == (if 2 in pins then 0 else 1) + Rises(true, t2);
  }

  /** The registers that Gpio.c writes. */
  class Ports {
    var ahb1Enr: bv32
    var gpioaModer: bv32
    var gpioaOdr: bv32
    var gpiocModer: bv32
    var gpiocOdr: bv32
    var portCLock: bool
    ghost var trace: seq<PortEvent>

    method TestAndSet() returns (was: bool)
      modifies this`portCLock, this`trace
      ensures portCLock && was == old(portCLock) && trace == old(trace) + [SetFlag]
    {
      was := portCLock;
      portCLock := true;
      trace := trace + [SetFlag];
    }

    /** The result of the test is dropped: the caller never waits. */
    method AcquirePortResource()
      modifies this`portCLock, this`trace
      ensures portCLock && trace == old(trace) + [SetFlag]
    {
      var _ := TestAndSet();
    }

    method ReleasePortResource()
      modifies this`portCLock, this`trace
      ensures !portCLock && trace == old(trace) + [ClearFlag]
    {
      portCLock := false;
      trace := trace + [ClearFlag];
    }

    /** A write to GPIOC_ODR. */
    method WriteOdr(word: bv32)
      modifies this`gpiocOdr, this`trace
      ensures gpiocOdr == word && trace == old(trace) + [Store(Pins(word))]
    {
      gpiocOdr := word;
      trace := trace + [Store(Pins(word))];
    }

    /** PA5 an output.  The port's clock must run for the write to take effect. */
    method InitPortA()
      requires 0 in Pins(ahb1Enr)
      modifies this`gpioaModer
      ensures Pins(gpioaModer) == old(Pins(gpioaModer)) - {11} + {10}
    {
      gpioaModer := High(gpioaModer, 10);
      gpioaModer := Low(gpioaModer, 11);
    }

    /** PC3, PC2 and PC10 outputs, with the clock running. */
    method InitPortC()
      requires 2 in Pins(ahb1Enr)
      modifies this`gpiocModer
      ensures Pins(gpiocModer) == old(Pins(gpiocModer)) - {5, 7, 21} + {4, 6, 20}
    {
      gpiocModer := Output(gpiocModer, 3);
      gpiocModer := Output(gpiocModer, 2);
      gpiocModer := Output(gpiocModer, 10);
    }

    /** Clocks on; PA5, PC3, PC2 and PC10 outputs; every other bit as it was. */
    method Init()
      modifies this`ahb1Enr, this`gpioaModer, this`gpiocModer
      ensures Pins(ahb1Enr) == old(Pins(ahb1Enr)) + {0, 2}
      ensures Pins(gpioaModer) == old(Pins(gpioaModer)) - {11} + {10}
      ensures Pins(gpiocModer) == old(Pins(gpiocModer)) - {5, 7, 21} + {4, 6, 20}
    {
      ahb1Enr := PortClocks(ahb1Enr);
      InitPortA();
      InitPortC();
    }

    method LedOn()
      modifies this`gpioaOdr
      ensures Pins(gpioaOdr) == old(Pins(gpioaOdr)) + {5}
    {
      gpioaOdr := High(gpioaOdr, 5);
    }

    method LedOff()
      modifies this`gpioaOdr
      ensures Pins(gpioaOdr) == old(Pins(gpioaOdr)) - {5}
    {
      gpioaOdr := Low(gpioaOdr, 5);
    }

    method Pc3On()
      modifies this`gpiocOdr, this`portCLock, this`trace
      ensures Pins(gpiocOdr) == old(Pins(gpiocOdr)) + {3} && !portCLock
      ensures trace == old(trace) + Section(old(Pins(gpiocOdr)) + {3})
    {
      AcquirePortResource();
      WriteOdr(High(gpiocOdr, 3));
      ReleasePortResource();
    }

    method Pc3Off()
      modifies this`gpiocOdr, this`portCLock, this`trace
      ensures Pins(gpiocOdr) == old(Pins(gpiocOdr)) - {3} && !portCLock
      ensures trace == old(trace) + Section(old(Pins(gpiocOdr)) - {3})
    {
      AcquirePortResource();
      WriteOdr(Low(gpiocOdr, 3));
      ReleasePortResource();
    }

    method Pc2On()
      modifies this`gpiocOdr, this`portCLock, this`trace
      ensures Pins(gpiocOdr) == old(Pins(gpiocOdr)) + {2} && !portCLock
      ensures trace == old(trace) + Section(old(Pins(gpiocOdr)) + {2})
    {
      AcquirePortResource();
      WriteOdr(High(gpiocOdr, 2));
      ReleasePortResource();
    }

    method Pc2Off()
      modifies this`gpiocOdr, this`portCLock, this`trace
      ensures Pins(gpiocOdr) == old(Pins(gpiocOdr)) - {2} && !portCLock
      ensures trace == old(trace) + Section(old(Pins(gpiocOdr)) - {2})
    {
      AcquirePortResource();
      WriteOdr(Low(gpiocOdr, 2));
      ReleasePortResource();
    }

    method Pc10On()
      modifies this`gpiocOdr, this`portCLock, this`trace
      ensures Pins(gpiocOdr) == old(Pins(gpiocOdr)) + {10} && !portCLock
      ensures trace == old(trace) + Section(old(Pins(gpiocOdr)) + {10})
    {
      AcquirePortResource();
      WriteOdr(High(gpiocOdr, 10));
      ReleasePortResource();
    }

    method Pc10Off()
      modifies this`gpiocOdr, this`portCLock, this`trace
      ensures Pins(gpiocOdr) == old(Pins(gpiocOdr)) - {10} && !portCLock
      ensures trace == old(trace) + Section(old(Pins(gpiocOdr)) - {10})
    {
      AcquirePortResource();
      WriteOdr(Low(gpiocOdr, 10));
      ReleasePortResource();
    }
  }

  /** GPIO_Init is idempotent: the second call leaves every bit of every register as the first did. */
  method InitTwice(ports: Ports)
    modifies ports`ahb1Enr, ports`gpioaModer, ports`gpiocModer
    ensures Pins(ports.ahb1Enr) == old(Pins(ports.ahb1Enr)) + {0, 2}
    ensures Pins(ports.gpioaModer) == old(Pins(ports.gpioaModer)) - {11} + {10}
    ensures Pins(ports.gpiocModer) == old(Pins(ports.gpiocModer)) - {5, 7, 21} + {4, 6, 20}
  {
    ports.Init();
    label once:
    ports.Init();
    assert Pins(ports.ahb1Enr) == old@once(Pins(ports.ahb1Enr));
    assert Pins(ports.gpioaModer) == old@once(Pins(ports.gpioaModer));
    assert Pins(ports.gpiocModer) == old@once(Pins(ports.gpiocModer));
  }
}
