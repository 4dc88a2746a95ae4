/** Words of bits, as the free map of os/memory.c uses them. */
module BitWords {

  const NEGATIVE_ONE: bv32 := 0xffff_ffff

  function Invert(n: bv32): bv32 { n ^ NEGATIVE_ONE }

  predicate Bit(w: bv32, b: nat)
    requires b < 32
  {
    w & (1 << b) != 0
  }

  /** The word with bit `b` set to `on`. */
  function WithBit(w: bv32, b: nat, on: bv32): bv32
    requires b < 32
  {
    (w & Invert(1 << b)) | (on << b)
  }

  // ----- shifts by a number and by a word -----

  lemma BitNumber(b: nat)
    requires b < 32
    ensures (b as bv32) as nat == b
  {
  }

  lemma BelowWidth(b: nat)
    requires b < 32
    ensures b as bv32 < 32
  {
  }

  lemma ShiftByWord(x: bv32, b: nat)
    requires b < 32
    ensures x << b == x << (b as bv32)
  {
  }

  lemma MasksDiffer(b: bv32, c: bv32)
    requires b < 32 && c < 32
    ensures (1 as bv32) << b != 0
    ensures b != c ==> ((1 as bv32) << b) & (1 << c) == 0
  {
  }

  lemma Masks(b: nat, c: nat)
    requires b < 32 && c < 32
    ensures (1 as bv32) << b != 0 && (0 as bv32) << b == 0
    ensures b != c ==> ((1 as bv32) << b) & (1 << c) == 0
  {
    ShiftByWord(1, b);
    ShiftByWord(1, c);
    BitNumber(b);
    BitNumber(c);
    BelowWidth(b);
    BelowWidth(c);
    MasksDiffer(b as bv32, c as bv32);
  }

  // ----- masks -----

  lemma OtherMask(w: bv32, x: bv32, y: bv32)
    requires x & y == 0
    ensures ((w & Invert(x)) | x) & y == w & y
    ensures ((w & Invert(x)) | 0) & y == w & y
  {
  }

  lemma OwnMask(w: bv32, x: bv32)
    ensures ((w & Invert(x)) | x) & x == x
    ensures ((w & Invert(x)) | 0) & x == 0
  {
  }

  lemma WithBitSetsOwn(w: bv32, b: nat, on: bv32)
    requires b < 32 && (on == 0 || on == 1)
    ensures Bit(WithBit(w, b, on), b) == (on == 1)
  {
    hide Invert;
    Masks(b, b);
    OwnMask(w, 1 << b);
  }

  lemma WithBitSetsOther(w: bv32, b: nat, on: bv32, c: nat)
    requires b < 32 && c < 32 && (on == 0 || on == 1) && b != c
    ensures Bit(WithBit(w, b, on), c) == Bit(w, c)
  {
    hide Invert;
    Masks(b, c);
    OtherMask(w, 1 << b, 1 << c);
  }

  /** Setting one bit sets that bit and keeps the others. */
  lemma WithBitSets(w: bv32, b: nat, on: bv32, c: nat)
    requires b < 32 && c < 32 && (on == 0 || on == 1)
    ensures Bit(WithBit(w, b, on), c) == if c == b then on == 1 else Bit(w, c)
  {
    hide Bit, WithBit;
    if c == b { WithBitSetsOwn(w, b, on); } else { WithBitSetsOther(w, b, on, c); }
  }

  /** The word with bit `b` cleared by a mask. */
  function Cleared(w: bv32, b: nat): bv32
    requires b < 32
  {
    w & Invert(1 << b)
  }

  lemma ClearBit(w: bv32, b: nat)
    requires b < 32
    ensures Cleared(w, b) == WithBit(w, b, 0)
  {
    hide Invert;
    Masks(b, b);
    OrZero(w & Invert(1 << b), 0 << b);
  }

  lemma OrZero(x: bv32, z: bv32)
    requires z == 0
    ensures x | z == x
  {
  }

  /** A word with a bit set is not zero. */
  lemma SomeBit(w: bv32, b: nat)
    requires b < 32 && Bit(w, b)
    ensures w != 0
  {
  }

  lemma ShiftByNumber(n: bv32)
    requires n < 32
    ensures n as nat < 32 && (1 as bv32) << (n as nat) == 1 << n
    ensures (n + 1) as nat == n as nat + 1
  {
  }

  /** Some bit is set from bit `n` on. */
  predicate SetFrom(v: bv32, n: bv32)
    requires n <= 32
  {
    v >> n != 0
  }

  lemma SetFromStart(v: bv32)
    ensures SetFrom(v, 0) <==> v != 0
  {
  }

  lemma NextBit(v: bv32, n: bv32)
    requires n < 32 && SetFrom(v, n) && v & (1 << n) == 0
    ensures SetFrom(v, n + 1)
  {
  }

  lemma NothingLeft(v: bv32)
    ensures !SetFrom(v, 32)
  {
  }

  /** The search goes on below bit 32 while it has found no bit. */
  lemma SearchGoesOn(v: bv32, n: bv32)
    requires n < 32 && SetFrom(v, n) && n as nat < 32 && !Bit(v, n as nat)
    ensures n + 1 < 32 && SetFrom(v, n + 1) && (n + 1) as nat == n as nat + 1 < 32
  {
    hide SetFrom;
    ShiftByNumber(n);
    NextBit(v, n);
    NothingLeft(v);
    ShiftByNumber(n + 1);
  }

  /** A word that is not zero has a bit set. */
  lemma {:induction false} HasBit(v: bv32, n: bv32) returns (b: nat)
    requires n < 32 && SetFrom(v, n)
    ensures b < 32 && Bit(v, b)
    decreases 32 - n as nat
  {
    hide SetFrom, Bit;
    ShiftByNumber(n);
    if Bit(v, n as nat) {
      b := n as nat;
    } else {
      SearchGoesOn(v, n);
      b := HasBit(v, n + 1);
    }
  }

  /** The lowest set bit of a word (os/memory.c:128-129). */
  method LowestBit(v: bv32) returns (bitnum: nat)
    requires v != 0
    ensures bitnum < 32 && Bit(v, bitnum)
    ensures forall b :: 0 <= b < bitnum ==> !Bit(v, b)
  {
    hide Bit, SetFrom;
    bitnum := 0;
    ghost var n: bv32 := 0;
    SetFromStart(v);
    ShiftByNumber(0);
    while !Bit(v, bitnum)
      invariant bitnum < 32 && bitnum == n as nat && n < 32 && SetFrom(v, n)
      invariant forall b :: 0 <= b < bitnum ==> !Bit(v, b)
      decreases 32 - bitnum
    {
      SearchGoesOn(v, n);
      bitnum, n := bitnum + 1, n + 1;
    }
  }
}
