/**
 Thirty-two bit words: the laws of `|=` and `&= ~`, and the words the scheduler
 uses as sets of priorities together with its highest-set-bit macro.
 */
module Bits {

  // --------------------------------------------- laws of |=, &= ~ and masks

  lemma OrElsewhere(x: bv32, m: bv32, k: bv32)
    requires m & k == 0
    ensures (x | m) & k == x & k
  {
  }

  lemma ClearElsewhere(x: bv32, m: bv32, k: bv32)
    requires m & k == 0
    ensures (x & !m) & k == x & k
  {
  }

  lemma ClearOwn(x: bv32, m: bv32)
    ensures (x & !m) & m == 0
  {
  }

  lemma ClearBoth(x: bv32, a: bv32, b: bv32)
    ensures x & !(a | b) == (x & !a) & !b
  {
  }

  // ------------------------------------------- words as sets of priorities

  /** The bit of priority `p`, for p in 1..32. */
  function Mask(p: int): bv32
    requires 1 <= p <= 32
  {
    (1 as bv32) << (p - 1)
  }

  /** The bit of priority `p` is set in `x`. */
  predicate Has(x: bv32, p: int)
    requires 1 <= p <= 32
  {
    x & Mask(p) != 0
  }

  /** The priorities whose bit is set. */
  ghost function Members(x: bv32): set<int> {
    set p | 1 <= p <= 32 && Has(x, p)
  }

  /** `__builtin_clz`, counted over the lowest `k` bits: clear bits above the highest set one. */
  function Clz(x: bv32, k: nat): (n: nat)
    requires k <= 32
    ensures n <= k
  {
    if k == 0 || Has(x, k) then 0 else 1 + Clz(x, k - 1)
  }

  /** The macro `LOG2`: 32 minus the number of leading zeros. */
  function Log2(x: bv32): nat {
    32 - Clz(x, 32)
  }

  /** Some weights as numbers. */
  lemma MaskWeights()
    ensures Mask(1) == 0x1 && Mask(2) == 0x2 && Mask(3) == 0x4 && Mask(4) == 0x8
    ensures Mask(6) == 0x20 && Mask(11) == 0x400 && Mask(32) == 0x8000_0000
  {
  }

  // ------------------------------------------------------------- one bit

  lemma ShiftOnce(k: nat)
    requires k < 31
    ensures (1 as bv32) << (k + 1) == ((1 as bv32) << k) << 1
  {
  }

  lemma MaskSuccessor(p: int)
    requires 1 <= p < 32
    ensures Mask(p + 1) == Mask(p) << 1
  {
    ShiftOnce(p - 1);
  }

  lemma HigherMaskIsEven(q: int)
    requires 1 < q <= 32
    ensures Mask(1) & Mask(q) == 0
  {
  }

  lemma ShiftApart(x: bv32, y: bv32)
    requires x & y == 0
    ensures (x << 1) & (y << 1) == 0
  {
  }

  lemma {:induction false} MasksDisjoint(p: int, q: int)
    requires 1 <= p < q <= 32
    ensures Mask(p) & Mask(q) == 0
  {
    if p == 1 {
      HigherMaskIsEven(q);
    } else {
      MasksDisjoint(p - 1, q - 1);
      ShiftApart(Mask(p - 1), Mask(q - 1));
      MaskSuccessor(p - 1);
      MaskSuccessor(q - 1);
    }
  }

  lemma InsertOwn(x: bv32, p: int)
    requires 1 <= p <= 32
    ensures Has(x | Mask(p), p)
  {
  }

  lemma InsertApart(x: bv32, p: int, q: int)
    requires 1 <= p <= 32 && 1 <= q <= 32
    requires Mask(p) & Mask(q) == 0
    ensures Has(x | Mask(p), q) <==> Has(x, q)
  {
    OrElsewhere(x, Mask(p), Mask(q));
  }

  lemma RemoveApart(x: bv32, p: int, q: int)
    requires 1 <= p <= 32 && 1 <= q <= 32
    requires Mask(p) & Mask(q) == 0
    ensures Has(x & !Mask(p), q) <==> Has(x, q)
  {
    ClearElsewhere(x, Mask(p), Mask(q));
  }

  lemma AndCommutes(x: bv32, y: bv32)
    ensures x & y == y & x
  {
  }

  lemma HasUpdate(x: bv32, p: int, q: int)
    requires 1 <= p <= 32 && 1 <= q <= 32
    ensures Has(x | Mask(p), q) <==> Has(x, q) || q == p
    ensures Has(x & !Mask(p), q) <==> Has(x, q) && q != p
  {
    if p == q {
      InsertOwn(x, p);
      ClearOwn(x, Mask(p));
    } else {
      if p < q { MasksDisjoint(p, q); } else { MasksDisjoint(q, p); AndCommutes(Mask(p), Mask(q)); }
      InsertApart(x, p, q);
      RemoveApart(x, p, q);
    }
  }

  // ---------------------------------------------------------- whole words

  lemma AllClear(x: bv32)
    requires !Has(x, 1) && !Has(x, 2) && !Has(x, 3) && !Has(x, 4) && !Has(x, 5) && !Has(x, 6) && !Has(x, 7) && !Has(x, 8)
    requires !Has(x, 9) && !Has(x, 10) && !Has(x, 11) && !Has(x, 12) && !Has(x, 13) && !Has(x, 14) && !Has(x, 15) && !Has(x, 16)
    requires !Has(x, 17) && !Has(x, 18) && !Has(x, 19) && !Has(x, 20) && !Has(x, 21) && !Has(x, 22) && !Has(x, 23) && !Has(x, 24)
    requires !Has(x, 25) && !Has(x, 26) && !Has(x, 27) && !Has(x, 28) && !Has(x, 29) && !Has(x, 30) && !Has(x, 31) && !Has(x, 32)
    ensures x == 0
  {
  }

  /** A word is zero exactly when it stands for the empty set. */
  lemma MembersEmpty(x: bv32)
    ensures Members(x) == {} <==> x == 0
  {
    if x != 0 && Members(x) == {} {
      forall p | 1 <= p <= 32 ensures !Has(x, p) {
        assert p !in Members(x);
      }
      AllClear(x);
    }
  }

  /** `x |= ThreadBit` adds one priority. */
  lemma MembersInsert(x: bv32, p: int)
    requires 1 <= p <= 32
    ensures Members(x | Mask(p)) == Members(x) + {p}
  {
    var y := x | Mask(p);
    forall q | 1 <= q <= 32 ensures Has(y, q) <==> Has(x, q) || q == p { HasUpdate(x, p, q); }
  }

  /** `x &= ~ThreadBit` removes one priority. */
  lemma MembersRemove(x: bv32, p: int)
    requires 1 <= p <= 32
    ensures Members(x & !Mask(p)) == Members(x) - {p}
  {
    var y := x & !Mask(p);
    forall q | 1 <= q <= 32 ensures Has(y, q) <==> Has(x, q) && q != p { HasUpdate(x, p, q); }
  }

  /** `LOG2` finds the highest priority of a non-empty word. */
  lemma Log2IsHighest(x: bv32)
    requires x != 0
    ensures Log2(x) in Members(x)
    ensures forall p :: p in Members(x) ==> p <= Log2(x)
  {
    ClzScan(x, 32);
    MembersEmpty(x);
    var p :| p in Members(x);
    assert p <= Log2(x);
  }

  lemma {:induction false} ClzScan(x: bv32, k: nat)
    requires k <= 32
    ensures k > Clz(x, k) ==> Has(x, k - Clz(x, k))
    ensures forall p :: k - Clz(x, k) < p <= k ==> !Has(x, p)
  {
    if k > 0 && !Has(x, k) {
      ClzScan(x, k - 1);
    }
  }
}
