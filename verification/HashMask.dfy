/**
  The bit arithmetic of the hash map: and, or and shift on words as functions of their bits,
  and the number of buckets for a capacity.  Six or-and-shift steps turn a word into all ones
  below its top bit, so a mask is always one less than a power of two.
*/
module HashMask {
  import opened Common

  const WORD_BITS := 64

  /** The mask of a table with a power of two buckets. */
  ghost predicate IsMask(mask: nat) {
    exists k: nat :: mask == TwoTo(k) - 1
  }

  predicate Bit(x: nat, b: nat) {
    if b == 0 then x % 2 == 1 else Bit(x / 2, b - 1)
  }

  function And(x: nat, y: nat): (r: nat)
    ensures r <= y
  {
    if x == 0 || y == 0 then 0
    else 2 * And(x / 2, y / 2) + if x % 2 == 1 && y % 2 == 1 then 1 else 0
  }

  function Or(x: nat, y: nat): nat {
    if x == 0 then y
    else if y == 0 then x
    else 2 * Or(x / 2, y / 2) + if x % 2 == 1 || y % 2 == 1 then 1 else 0
  }

  function ShiftRight(x: nat, k: nat): nat {
    if k == 0 then x else ShiftRight(x / 2, k - 1)
  }

  /** The position just above the top bit. */
  function Length(x: nat): nat {
    if x == 0 then 0 else 1 + Length(x / 2)
  }

  lemma {:induction false} ZeroHasNoBit(b: nat)
    ensures !Bit(0, b)
  {
    if b > 0 {
      ZeroHasNoBit(b - 1);
    }
  }

  lemma {:induction false} OrBits(x: nat, y: nat, b: nat)
    ensures Bit(Or(x, y), b) <==> Bit(x, b) || Bit(y, b)
    decreases b
  {
    if x == 0 || y == 0 {
      ZeroHasNoBit(b);
    } else if b > 0 {
      OrBits(x / 2, y / 2, b - 1);
    }
  }

  lemma {:induction false} ShiftBits(x: nat, k: nat, b: nat)
    ensures Bit(ShiftRight(x, k), b) <==> Bit(x, b + k)
    decreases k
  {
    if k > 0 {
      ShiftBits(x / 2, k - 1, b);
    }
  }

  lemma {:induction false} LengthBounds(x: nat)
    ensures x < TwoTo(Length(x))
    ensures x > 0 ==> TwoTo(Length(x) - 1) <= x && Bit(x, Length(x) - 1)
  {
    if x > 0 {
      LengthBounds(x / 2);
    }
  }

  lemma {:induction false} NoBitAbove(x: nat, b: nat)
    requires b >= Length(x)
    ensures !Bit(x, b)
  {
    if x == 0 {
      ZeroHasNoBit(b);
    } else {
      NoBitAbove(x / 2, b - 1);
    }
  }

  lemma {:induction false} TwoToGrows(j: nat, k: nat)
    requires j <= k
    ensures TwoTo(j) <= TwoTo(k)
    decreases k
  {
    if j < k {
      TwoToGrows(j, k - 1);
    }
  }

  /** A number whose bits are those below a position is one less than a power of two. */
  lemma {:induction false} AllOnes(x: nat, k: nat)
    requires forall b: nat :: Bit(x, b) <==> b < k
    ensures x == TwoTo(k) - 1
  {
    if k == 0 {
      if x > 0 {
        LengthBounds(x);
      }
    } else {
      forall b: nat ensures Bit(x / 2, b) <==> b < k - 1 {
        assert Bit(x, b + 1) <==> Bit(x / 2, b);
      }
      AllOnes(x / 2, k - 1);
      assert Bit(x, 0);
    }
  }

  /** Some bit of the word is set less than the given distance above. */
  ghost predicate Near(x: nat, b: nat, width: nat) {
    exists c: nat :: b <= c < b + width && Bit(x, c)
  }

  /** Each bit is set if and only if the first word has one near above it. */
  ghost predicate Smeared(x: nat, y: nat, width: nat) {
    forall b: nat :: Bit(y, b) <==> Near(x, b, width)
  }

  lemma SmearFurther(x: nat, y: nat, width: nat)
    requires Smeared(x, y, width)
    ensures Smeared(x, Or(y, ShiftRight(y, width)), 2 * width)
  {
    forall b: nat ensures Bit(Or(y, ShiftRight(y, width)), b) <==> Near(x, b, 2 * width) {
      OrBits(y, ShiftRight(y, width), b);
      ShiftBits(y, width, b);
      if Near(x, b, 2 * width) {
        var c: nat :| b <= c < b + 2 * width && Bit(x, c);
        assert if c < b + width then Near(x, b, width) else Near(x, b + width, width);
      }
    }
  }

  lemma NearBelowTop(x: nat, b: nat)
    requires Length(x) <= WORD_BITS
    ensures Near(x, b, WORD_BITS) <==> b < Length(x)
  {
    if b < Length(x) {
      LengthBounds(x);
      assert b <= Length(x) - 1 < b + WORD_BITS;
    } else {
      forall c: nat | b <= c ensures !Bit(x, c) {
        NoBitAbove(x, c);
      }
    }
  }

  lemma SmearedIsAllOnes(x: nat, y: nat)
    requires Smeared(x, y, WORD_BITS) && Length(x) <= WORD_BITS
    ensures y == TwoTo(Length(x)) - 1
  {
    forall b: nat ensures Bit(y, b) <==> b < Length(x) {
      NearBelowTop(x, b);
    }
    AllOnes(y, Length(x));
  }

  lemma {:induction false} ShorterThanAWord(x: nat, k: nat)
    requires x < TwoTo(k)
    ensures Length(x) <= k
  {
    LengthBounds(x);
    if Length(x) > k {
      TwoToGrows(k, Length(x) - 1);
    }
  }

  /** The mask for a capacity: room for half of it, and not for more than it beyond four. */
  method CalcMask(capacity: nat) returns (mask: nat)
    requires capacity < TwoTo(WORD_BITS)
    ensures IsMask(mask) && capacity / 2 <= mask
    ensures mask == 0 <==> capacity < 2
    ensures mask < capacity || mask == 3 || mask == 0
  {
    ghost var k := MaskLength(capacity);
    mask := Smear(capacity / 2);
    AtLeastFour(mask, k);
    mask := Or(mask, 2 * And(mask, 1));
  }

  /** Half the capacity needs this many bits. */
  lemma MaskLength(capacity: nat) returns (k: nat)
    requires capacity < TwoTo(WORD_BITS)
    ensures k == Length(capacity / 2) <= WORD_BITS && capacity / 2 <= TwoTo(k) - 1
    ensures k == 0 <==> capacity < 2
    ensures k > 0 ==> TwoTo(k) <= capacity
  {
    k := Length(capacity / 2);
    ShorterThanAWord(capacity / 2, WORD_BITS);
    LengthBounds(capacity / 2);
  }

  /** Sets all bits below the top one. */
  method Smear(x: nat) returns (y: nat)
    requires Length(x) <= WORD_BITS
    ensures y == TwoTo(Length(x)) - 1
  {
    y := x;
    SmearedAtFirst(x);
    SmearFurther(x, y, 1);
    y := Or(y, ShiftRight(y, 1));
    SmearFurther(x, y, 2);
    y := Or(y, ShiftRight(y, 2));
    SmearFurther(x, y, 4);
    y := Or(y, ShiftRight(y, 4));
    SmearFurther(x, y, 8);
    y := Or(y, ShiftRight(y, 8));
    SmearFurther(x, y, 16);
    y := Or(y, ShiftRight(y, 16));
    SmearFurther(x, y, 32);
    y := Or(y, ShiftRight(y, 32));
    SmearedIsAllOnes(x, y);
  }

  lemma SmearedAtFirst(x: nat)
    ensures Smeared(x, x, 1)
  {
    assert forall b: nat :: Bit(x, b) ==> Near(x, b, 1);
  }

  lemma AndOne(x: nat)
    ensures And(x, 1) == x % 2
  {
  }

  lemma OrTwo(x: nat)
    requires x % 4 == 3
    ensures Or(x, 2) == x
  {
    assert Or(x / 2, 1) == 2 * Or(x / 4, 0) + 1;
    assert Or(x / 4, 0) == x / 4;
  }

  lemma OneOrTwo()
    ensures TwoTo(1) == 2 && TwoTo(2) == 4 && Or(1, 2) == 3
  {
    assert Or(0, 1) == 1;
  }

  lemma FourDivides(k: nat)
    requires k >= 2
    ensures (TwoTo(k) - 1) % 4 == 3
  {
    assert TwoTo(k - 1) == 2 * TwoTo(k - 2);
  }

  lemma OrOfTwice(mask: nat, one: nat)
    requires mask % 4 == 3 && one == And(mask, 1)
    ensures Or(mask, 2 * one) == mask
  {
    AndOne(mask);
    OrTwo(mask);
  }

  /** The last step makes a table of two buckets one of four and changes no other. */
  lemma AtLeastFour(mask: nat, k: nat)
    requires mask == TwoTo(k) - 1
    ensures Or(mask, 2 * And(mask, 1)) == if k == 1 then TwoTo(2) - 1 else mask
  {
    if k >= 2 {
      FourDivides(k);
      OrOfTwice(mask, And(mask, 1));
    } else {
      AndOne(mask);
      OneOrTwo();
    }
  }

  lemma AndOdd(x: nat, w: nat)
    requires w > 0
    ensures And(x, 2 * w - 1) == 2 * And(x / 2, w - 1) + x % 2
  {
    assert (2 * w - 1) / 2 == w - 1;
  }

  /** And with a mask is the remainder on division by the number of buckets. */
  lemma {:induction false} AndMask(x: nat, k: nat)
    ensures And(x, TwoTo(k) - 1) == x % TwoTo(k)
  {
    if k > 0 {
      var w := TwoTo(k - 1);
      AndMask(x / 2, k - 1);
      AndOdd(x, w);
      DoubledRemainder(x, w);
    }
  }

  lemma DoubledRemainder(x: nat, w: nat)
    requires w > 0
    ensures x % (2 * w) == 2 * (x / 2 % w) + x % 2
  {
    var q, r := x / 2 / w, x / 2 % w;
    assert x / 2 == q * w + r;
    assert x == q * (2 * w) + (2 * r + x % 2);
    RemainderIsUnique(x, 2 * w, q, 2 * r + x % 2);
  }

  lemma RemainderIsUnique(x: nat, w: nat, q: nat, r: nat)
    requires w > 0 && x == q * w + r && r < w
    ensures x % w == r
  {
    var d := x / w - q;
    assert d * w == r - x % w;
    Multiple(d, w);
  }

  lemma Multiple(d: int, w: nat)
    requires 0 - w < d * w < w
    ensures d == 0
  {
  }
}
