/**
  The word expressions behind tags, on 32-bit words, and the proof that they compute the set
  operations of module `Tag` on the positions of the bits that are set.
*/
module TagWord {
  import opened Tag

  type Word = bv32

  /** One, shifted left `k` times. */
  function Bit(k: nat): Word
    requires k < N_BITS
  {
    if k == 0 then 1 else Bit(k - 1) << 1
  }

  predicate Meets(w: Word, p: Word) {
    w & p != 0
  }

  predicate HasBit(w: Word, k: nat)
    requires k < N_BITS
  {
    Meets(w, Bit(k))
  }

  function Bits(w: Word): (x: Tag)
    ensures forall k: nat :: k in x <==> k < N_BITS && HasBit(w, k)
  {
    set k: nat | k < N_BITS && HasBit(w, k)
  }

  /** `x & (x - 1)` */
  function Clear(x: Word): Word {
    x & (x - 1)
  }

  predicate WordIntersects(a: Word, b: Word) {
    Clear(a & b) != 0
  }

  predicate WordIsValid(tag: Word) {
    var x := Clear(tag);
    x != 0 && Clear(x) == 0
  }

  function WordDeterministic(seed: nat): Word {
    Bit(Positions(seed).0) | Bit(Positions(seed).1)
  }

  // ----- masks

  predicate IsPower(p: Word) {
    p != 0 && p & (p - 1) == 0
  }

  lemma PowersMeet(p: Word, q: Word)
    requires IsPower(p) && IsPower(q)
    ensures Meets(p, q) <==> p == q
  {
  }

  lemma AndMask(a: Word, b: Word, p: Word)
    requires IsPower(p)
    ensures Meets(a & b, p) <==> Meets(a, p) && Meets(b, p)
  {
  }

  lemma OrMask(a: Word, b: Word, p: Word)
    ensures Meets(a | b, p) <==> Meets(a, p) || Meets(b, p)
  {
    OrDistributes(a, b, p);
    OrIsZero(a & p, b & p);
  }

  lemma OrDistributes(a: Word, b: Word, p: Word)
    ensures (a | b) & p == (a & p) | (b & p)
  {
  }

  lemma OrIsZero(x: Word, y: Word)
    ensures x | y == 0 <==> x == 0 && y == 0
  {
  }

  /** No bit of `w` lies below the power of two `p`. */
  predicate NoneBelow(w: Word, p: Word) {
    w & (p - 1) == 0
  }

  function Drop(w: Word, p: Word): Word {
    w & !p
  }

  lemma ClearDropsOne(w: Word, p: Word)
    requires IsPower(p) && Meets(w, p) && NoneBelow(w, p)
    ensures Clear(w) == Drop(w, p)
  {
  }

  lemma DropKeeps(w: Word, p: Word, q: Word)
    requires IsPower(p) && IsPower(q) && p != q
    ensures Drop(w, p) & q == w & q
  {
  }

  lemma DropRemoves(w: Word, p: Word)
    ensures Drop(w, p) & p == 0
  {
  }

  lemma ClearKeeps(w: Word, p: Word, q: Word)
    requires IsPower(p) && IsPower(q) && p != q && Meets(w, p) && NoneBelow(w, p)
    ensures Meets(Clear(w), q) <==> Meets(w, q)
  {
    ClearDropsOne(w, p);
    DropKeeps(w, p, q);
  }

  lemma ClearRemoves(w: Word, p: Word)
    requires IsPower(p) && Meets(w, p) && NoneBelow(w, p)
    ensures !Meets(Clear(w), p)
  {
    ClearDropsOne(w, p);
    DropRemoves(w, p);
  }

  lemma DoubleMask(w: Word, p: Word)
    requires IsPower(p) && p < 0x8000_0000 && NoneBelow(w, p) && !Meets(w, p)
    ensures NoneBelow(w, p << 1)
  {
  }

  lemma Doubled(p: Word)
    requires IsPower(p) && p < 0x8000_0000
    ensures IsPower(p << 1) && p < p << 1
  {
  }

  // ----- single bits

  lemma ShiftStep(k: nat)
    requires k < 31
    ensures ((1 as Word) << k) << 1 == (1 as Word) << (k + 1)
  {
  }

  lemma ShiftBound(k: nat)
    requires k < 31
    ensures (1 as Word) << k < 0x8000_0000
  {
  }

  /** Shifting one place `k` times is shifting `k` places once. */
  lemma {:induction false} BitIsShift(k: nat)
    requires k < N_BITS
    ensures Bit(k) == 1 << k
  {
    if k > 0 {
      BitIsShift(k - 1);
      ShiftStep(k - 1);
    }
  }

  lemma BitBelowTop(k: nat)
    requires k < 31
    ensures Bit(k) < 0x8000_0000
  {
    BitIsShift(k);
    ShiftBound(k);
  }

  lemma {:induction false} BitIsPower(k: nat)
    requires k < N_BITS
    ensures IsPower(Bit(k))
  {
    if k > 0 {
      BitIsPower(k - 1);
      BitBelowTop(k - 1);
      Doubled(Bit(k - 1));
    }
  }

  lemma {:induction false} BitsIncrease(j: nat, k: nat)
    requires j < k < N_BITS
    ensures Bit(j) < Bit(k)
  {
    if j + 1 < k {
      BitsIncrease(j, k - 1);
    }
    BitIsPower(k - 1);
    BitBelowTop(k - 1);
    Doubled(Bit(k - 1));
  }

  lemma OneBit(j: nat, k: nat)
    requires j < N_BITS && k < N_BITS
    ensures HasBit(Bit(j), k) <==> j == k
  {
    BitIsPower(j);
    BitIsPower(k);
    PowersMeet(Bit(j), Bit(k));
    if j != k {
      DifferentBits(j, k);
    }
  }

  lemma AndBit(a: Word, b: Word, k: nat)
    requires k < N_BITS
    ensures HasBit(a & b, k) <==> HasBit(a, k) && HasBit(b, k)
  {
    BitIsPower(k);
    AndMask(a, b, Bit(k));
  }

  lemma OrBit(a: Word, b: Word, k: nat)
    requires k < N_BITS
    ensures HasBit(a | b, k) <==> HasBit(a, k) || HasBit(b, k)
  {
    OrMask(a, b, Bit(k));
  }

  lemma AndBits(a: Word, b: Word)
    ensures Bits(a & b) == Bits(a) * Bits(b)
  {
    forall k: nat | k < N_BITS ensures HasBit(a & b, k) <==> HasBit(a, k) && HasBit(b, k) {
      AndBit(a, b, k);
    }
  }

  lemma OrBits(a: Word, b: Word)
    ensures Bits(a | b) == Bits(a) + Bits(b)
  {
    forall k: nat | k < N_BITS ensures HasBit(a | b, k) <==> HasBit(a, k) || HasBit(b, k) {
      OrBit(a, b, k);
    }
  }

  // ----- the lowest bit

  /** A word with none of its low `n` bits set. */
  predicate LowClear(w: Word, n: nat)
    requires n < N_BITS
  {
    NoneBelow(w, Bit(n))
  }

  lemma {:induction false} NoLowBits(w: Word, n: nat)
    requires n < N_BITS && forall k: nat :: k < n ==> !HasBit(w, k)
    ensures LowClear(w, n)
  {
    if n > 0 {
      NoLowBits(w, n - 1);
      BitIsPower(n - 1);
      BitBelowTop(n - 1);
      assert !HasBit(w, n - 1);
      DoubleMask(w, Bit(n - 1));
    }
  }

  lemma TopMask(w: Word, p: Word)
    requires p == 0x8000_0000 && NoneBelow(w, p) && !Meets(w, p)
    ensures w == 0
  {
  }

  lemma ZeroBits(w: Word)
    ensures w == 0 <==> Bits(w) == {}
  {
    if Bits(w) == {} {
      NoLowBits(w, 31);
      BitIsShift(31);
      assert !HasBit(w, 31);
      TopMask(w, Bit(31));
    }
    if w == 0 {
      forall k: nat | k < N_BITS ensures !HasBit(w, k) {
        NothingInZero(Bit(k));
      }
    }
  }

  lemma NothingInZero(p: Word)
    ensures !Meets(0, p)
  {
  }

  lemma DifferentBits(j: nat, k: nat)
    requires j < N_BITS && k < N_BITS && j != k
    ensures Bit(j) != Bit(k)
  {
    if j < k {
      BitsIncrease(j, k);
    } else {
      BitsIncrease(k, j);
    }
  }

  lemma ClearsLowest(w: Word, m: nat, k: nat)
    requires m < N_BITS && k < N_BITS && HasBit(w, m) && LowClear(w, m)
    ensures HasBit(Clear(w), k) <==> HasBit(w, k) && k != m
  {
    BitIsPower(m);
    BitIsPower(k);
    if k == m {
      ClearRemoves(w, Bit(m));
    } else {
      DifferentBits(m, k);
      ClearKeeps(w, Bit(m), Bit(k));
    }
  }

  lemma ClearZero()
    ensures Clear(0) == 0
  {
  }

  /** `w & (w - 1)` drops the lowest set bit and keeps the rest. */
  lemma ClearLowestBits(w: Word)
    ensures Bits(Clear(w)) == ClearLowest(Bits(w))
  {
    ZeroBits(w);
    if w == 0 {
      ClearZero();
    } else {
      var m := Least(Bits(w));
      NoLowBits(w, m);
      forall k: nat | k < N_BITS ensures HasBit(Clear(w), k) <==> HasBit(w, k) && k != m {
        ClearsLowest(w, m, k);
      }
    }
  }

  // ----- the word expressions compute the set operations

  lemma WordIntersectsAgrees(a: Word, b: Word)
    ensures WordIntersects(a, b) <==> Intersects(Bits(a), Bits(b))
  {
    AndBits(a, b);
    ClearLowestBits(a & b);
    ZeroBits(Clear(a & b));
  }

  lemma WordIsValidAgrees(tag: Word)
    ensures WordIsValid(tag) <==> IsValid(Bits(tag))
  {
    ClearLowestBits(tag);
    ClearLowestBits(Clear(tag));
    ZeroBits(Clear(tag));
    ZeroBits(Clear(Clear(tag)));
  }

  lemma WordDeterministicAgrees(seed: nat)
    ensures Bits(WordDeterministic(seed)) == Deterministic(seed)
  {
    var (i, j) := Positions(seed);
    OrBits(Bit(i), Bit(j));
    forall k: nat | k < N_BITS
      ensures HasBit(Bit(i), k) == (k == i) && HasBit(Bit(j), k) == (k == j)
    {
      OneBit(i, k);
      OneBit(j, k);
    }
    assert Bits(Bit(i)) == {i} && Bits(Bit(j)) == {j};
  }

  const ALL_ONES: Word := 0xffff_ffff

  lemma NotMask(w: Word, p: Word)
    requires IsPower(p)
    ensures Meets(!w, p) <==> !Meets(w, p)
  {
  }

  lemma NotIsZero(w: Word)
    ensures !w == 0 <==> w == ALL_ONES
  {
  }

  lemma AllOnesBits(w: Word)
    ensures w == ALL_ONES <==> Bits(w) == AllOnes()
  {
    forall k: nat | k < N_BITS ensures HasBit(!w, k) <==> !HasBit(w, k) {
      BitIsPower(k);
      NotMask(w, Bit(k));
    }
    assert Bits(!w) == AllOnes() - Bits(w);
    ZeroBits(!w);
    NotIsZero(w);
  }
}
