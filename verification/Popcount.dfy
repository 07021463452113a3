/** The software population count of src/bt_bitfield.cpp counts the set bits of a word. */
module Popcount {
  import opened Bits

  // The five stages.

  function Pairs(x: Word): Word { x - ((x >> 1) & 0x55555555) }
  function Nibbles(x: Word): Word { (x & 0x33333333) + ((x >> 2) & 0x33333333) }
  function Octets(x: Word): Word { (x + (x >> 4)) & 0x0F0F0F0F }
  function Gathered(x: Word): Word { x + (x >> 8) }
  function Total(x: Word): Word { (x + (x >> 16)) & 0x3F }

  function Popcount32(x: Word): Word { Total(Gathered(Octets(Nibbles(Pairs(x))))) }

  // Fields of a word, by the shift that brings them down.

  function Two(x: Word, shift: bv5): Word { (x >> shift) & 0x3 }
  function Four(x: Word, shift: bv5): Word { (x >> shift) & 0xF }
  function Eight(x: Word, shift: bv5): Word { (x >> shift) & 0xFF }
  function Plus(a: Word, b: Word): Word { a + b }
  function One(w: Word, m: Word): Word { if And(w, m) != ZERO then 1 else 0 }

  /** The first stage without its borrow. */
  function Sums(x: Word): Word { (x & 0x55555555) + ((x >> 1) & 0x55555555) }

  lemma NoBorrow(x: Word)
    ensures Pairs(x) == Sums(x)
  {
  }

  lemma PairsOfBits0(w: Word)
    ensures Two(Sums(w), 30) == Plus(One(w, 0x80000000), One(w, 0x40000000))
    ensures Two(Sums(w), 28) == Plus(One(w, 0x20000000), One(w, 0x10000000))
    ensures Two(Sums(w), 26) == Plus(One(w, 0x08000000), One(w, 0x04000000))
    ensures Two(Sums(w), 24) == Plus(One(w, 0x02000000), One(w, 0x01000000))
  {
  }

  lemma PairsOfBits1(w: Word)
    ensures Two(Sums(w), 22) == Plus(One(w, 0x00800000), One(w, 0x00400000))
    ensures Two(Sums(w), 20) == Plus(One(w, 0x00200000), One(w, 0x00100000))
    ensures Two(Sums(w), 18) == Plus(One(w, 0x00080000), One(w, 0x00040000))
    ensures Two(Sums(w), 16) == Plus(One(w, 0x00020000), One(w, 0x00010000))
  {
  }

  lemma PairsOfBits2(w: Word)
    ensures Two(Sums(w), 14) == Plus(One(w, 0x00008000), One(w, 0x00004000))
    ensures Two(Sums(w), 12) == Plus(One(w, 0x00002000), One(w, 0x00001000))
    ensures Two(Sums(w), 10) == Plus(One(w, 0x00000800), One(w, 0x00000400))
    ensures Two(Sums(w), 8) == Plus(One(w, 0x00000200), One(w, 0x00000100))
  {
  }

  lemma PairsOfBits3(w: Word)
    ensures Two(Sums(w), 6) == Plus(One(w, 0x00000080), One(w, 0x00000040))
    ensures Two(Sums(w), 4) == Plus(One(w, 0x00000020), One(w, 0x00000010))
    ensures Two(Sums(w), 2) == Plus(One(w, 0x00000008), One(w, 0x00000004))
    ensures Two(Sums(w), 0) == Plus(One(w, 0x00000002), One(w, 0x00000001))
  {
  }

  lemma NibblesOfPairs(t: Word)
    requires Two(t, 30) <= 2 && Two(t, 28) <= 2 && Two(t, 26) <= 2 && Two(t, 24) <= 2 && Two(t, 22) <= 2
             && Two(t, 20) <= 2 && Two(t, 18) <= 2 && Two(t, 16) <= 2
             && Two(t, 14) <= 2 && Two(t, 12) <= 2 && Two(t, 10) <= 2 && Two(t, 8) <= 2 && Two(t, 6) <= 2
             && Two(t, 4) <= 2 && Two(t, 2) <= 2 && Two(t, 0) <= 2
    ensures Four(Nibbles(t), 28) == Plus(Two(t, 30), Two(t, 28))
    ensures Four(Nibbles(t), 24) == Plus(Two(t, 26), Two(t, 24))
    ensures Four(Nibbles(t), 20) == Plus(Two(t, 22), Two(t, 20))
    ensures Four(Nibbles(t), 16) == Plus(Two(t, 18), Two(t, 16))
    ensures Four(Nibbles(t), 12) == Plus(Two(t, 14), Two(t, 12))
    ensures Four(Nibbles(t), 8) == Plus(Two(t, 10), Two(t, 8))
    ensures Four(Nibbles(t), 4) == Plus(Two(t, 6), Two(t, 4))
    ensures Four(Nibbles(t), 0) == Plus(Two(t, 2), Two(t, 0))
  {
  }

  lemma OctetsOfNibbles(t: Word)
    requires Four(t, 28) <= 4 && Four(t, 24) <= 4 && Four(t, 20) <= 4 && Four(t, 16) <= 4 && Four(t, 12) <= 4
             && Four(t, 8) <= 4 && Four(t, 4) <= 4 && Four(t, 0) <= 4
    ensures Eight(Octets(t), 24) == Plus(Four(t, 28), Four(t, 24))
    ensures Eight(Octets(t), 16) == Plus(Four(t, 20), Four(t, 16))
    ensures Eight(Octets(t), 8) == Plus(Four(t, 12), Four(t, 8))
    ensures Eight(Octets(t), 0) == Plus(Four(t, 4), Four(t, 0))
  {
  }

  lemma TotalOfOctets(t: Word)
    requires Eight(t, 24) <= 8 && Eight(t, 16) <= 8 && Eight(t, 8) <= 8 && Eight(t, 0) <= 8
    ensures Total(Gathered(t)) == Plus(Plus(Eight(t, 24), Eight(t, 16)), Plus(Eight(t, 8), Eight(t, 0)))
  {
  }

  // ----- the same in numbers

  function Val(x: Word): nat { x as int }

  /** x stands for the number n, which is at most limit. */
  predicate Is(x: Word, n: nat, limit: Word) { Val(x) == n && x <= limit }

  lemma Add(a: Word, m: nat, b: Word, n: nat)
    ensures Is(a, m, 1) && Is(b, n, 1) ==> Is(Plus(a, b), m + n, 2)
    ensures Is(a, m, 2) && Is(b, n, 2) ==> Is(Plus(a, b), m + n, 4)
    ensures Is(a, m, 4) && Is(b, n, 4) ==> Is(Plus(a, b), m + n, 8)
    ensures Is(a, m, 8) && Is(b, n, 8) ==> Is(Plus(a, b), m + n, 16)
    ensures Is(a, m, 16) && Is(b, n, 16) ==> Is(Plus(a, b), m + n, 32)
  {
    hide Plus, Val;
    PlusLimits(a, b);
    PlusLimits(b, a);
    if a <= 16 && b <= 16 { PlusVal(a, b); }
  }

  lemma PlusLimits(a: Word, b: Word)
    ensures a <= 1 && b <= 1 ==> Plus(a, b) <= 2
    ensures a <= 2 && b <= 2 ==> Plus(a, b) <= 4
    ensures a <= 4 && b <= 4 ==> Plus(a, b) <= 8
    ensures a <= 8 && b <= 8 ==> Plus(a, b) <= 16
    ensures a <= 16 && b <= 16 ==> Plus(a, b) <= 32
    ensures a <= 8 ==> a <= 16
    ensures a <= 4 ==> a <= 16
    ensures a <= 2 ==> a <= 16
    ensures a <= 1 ==> a <= 16
  {
  }

  lemma PlusVal(a: Word, b: Word)
    requires a <= 16 && b <= 16
    ensures Val(Plus(a, b)) == Val(a) + Val(b)
  {
  }

  function Bit(w: Word, k: nat): nat { if BitAt(w, k) then 1 else 0 }

  function Bits2(w: Word, k: nat): nat { Bit(w, k) + Bit(w, k + 1) }
  function Bits4(w: Word, k: nat): nat { Bits2(w, k) + Bits2(w, k + 2) }
  function Bits8(w: Word, k: nat): nat { Bits4(w, k) + Bits4(w, k + 4) }

  lemma OneVal(w: Word, k: nat)
    requires k < 32
    ensures Is(One(w, Mask(k)), Bit(w, k), 1)
  {
    hide BitAt, Mask;
    TestMask(w, k);
  }

  lemma PairVal(w: Word, k: nat)
    requires k < 31
    ensures Is(Plus(One(w, Mask(k)), One(w, Mask(k + 1))), Bits2(w, k), 2)
  {
    hide BitAt, Mask, One, Plus, Is;
    OneVal(w, k);
    OneVal(w, k + 1);
    Add(One(w, Mask(k)), Bit(w, k), One(w, Mask(k + 1)), Bit(w, k + 1));
  }

  lemma PairVals0(w: Word)
    ensures Is(Two(Sums(w), 30), Bits2(w, 0), 2)
    ensures Is(Two(Sums(w), 28), Bits2(w, 2), 2)
    ensures Is(Two(Sums(w), 26), Bits2(w, 4), 2)
    ensures Is(Two(Sums(w), 24), Bits2(w, 6), 2)
  {
    hide BitAt, Is, Two, Sums, One, Plus, Bits2;
    PairsOfBits0(w);
    PairVal(w, 0);
    PairVal(w, 2);
    PairVal(w, 4);
    PairVal(w, 6);
  }

  lemma PairVals1(w: Word)
    ensures Is(Two(Sums(w), 22), Bits2(w, 8), 2)
    ensures Is(Two(Sums(w), 20), Bits2(w, 10), 2)
    ensures Is(Two(Sums(w), 18), Bits2(w, 12), 2)
    ensures Is(Two(Sums(w), 16), Bits2(w, 14), 2)
  {
    hide BitAt, Is, Two, Sums, One, Plus, Bits2;
    PairsOfBits1(w);
    PairVal(w, 8);
    PairVal(w, 10);
    PairVal(w, 12);
    PairVal(w, 14);
  }

  lemma PairVals2(w: Word)
    ensures Is(Two(Sums(w), 14), Bits2(w, 16), 2)
    ensures Is(Two(Sums(w), 12), Bits2(w, 18), 2)
    ensures Is(Two(Sums(w), 10), Bits2(w, 20), 2)
    ensures Is(Two(Sums(w), 8), Bits2(w, 22), 2)
  {
    hide BitAt, Is, Two, Sums, One, Plus, Bits2;
    PairsOfBits2(w);
    PairVal(w, 16);
    PairVal(w, 18);
    PairVal(w, 20);
    PairVal(w, 22);
  }

  lemma PairVals3(w: Word)
    ensures Is(Two(Sums(w), 6), Bits2(w, 24), 2)
    ensures Is(Two(Sums(w), 4), Bits2(w, 26), 2)
    ensures Is(Two(Sums(w), 2), Bits2(w, 28), 2)
    ensures Is(Two(Sums(w), 0), Bits2(w, 30), 2)
  {
    hide BitAt, Is, Two, Sums, One, Plus, Bits2;
    PairsOfBits3(w);
    PairVal(w, 24);
    PairVal(w, 26);
    PairVal(w, 28);
    PairVal(w, 30);
  }

  lemma AtMost(x: Word, n: nat, limit: Word)
    requires Is(x, n, limit)
    ensures x <= limit
  {
  }

  lemma SmallPairs(w: Word)
    ensures Two(Sums(w), 30) <= 2 && Two(Sums(w), 28) <= 2 && Two(Sums(w), 26) <= 2 && Two(Sums(w), 24) <= 2
            && Two(Sums(w), 22) <= 2 && Two(Sums(w), 20) <= 2 && Two(Sums(w), 18) <= 2 && Two(Sums(w), 16) <= 2
            && Two(Sums(w), 14) <= 2 && Two(Sums(w), 12) <= 2 && Two(Sums(w), 10) <= 2 && Two(Sums(w), 8) <= 2
            && Two(Sums(w), 6) <= 2 && Two(Sums(w), 4) <= 2 && Two(Sums(w), 2) <= 2 && Two(Sums(w), 0) <= 2
  {
    hide Is, Two, Sums, Bits2;
    PairVals0(w);
    PairVals1(w);
    PairVals2(w);
    PairVals3(w);
    AtMost(Two(Sums(w), 30), Bits2(w, 0), 2);
    AtMost(Two(Sums(w), 28), Bits2(w, 2), 2);
    AtMost(Two(Sums(w), 26), Bits2(w, 4), 2);
    AtMost(Two(Sums(w), 24), Bits2(w, 6), 2);
    AtMost(Two(Sums(w), 22), Bits2(w, 8), 2);
    AtMost(Two(Sums(w), 20), Bits2(w, 10), 2);
    AtMost(Two(Sums(w), 18), Bits2(w, 12), 2);
    AtMost(Two(Sums(w), 16), Bits2(w, 14), 2);
    AtMost(Two(Sums(w), 14), Bits2(w, 16), 2);
    AtMost(Two(Sums(w), 12), Bits2(w, 18), 2);
    AtMost(Two(Sums(w), 10), Bits2(w, 20), 2);
    AtMost(Two(Sums(w), 8), Bits2(w, 22), 2);
    AtMost(Two(Sums(w), 6), Bits2(w, 24), 2);
    AtMost(Two(Sums(w), 4), Bits2(w, 26), 2);
    AtMost(Two(Sums(w), 2), Bits2(w, 28), 2);
    AtMost(Two(Sums(w), 0), Bits2(w, 30), 2);
  }

  lemma NibbleVals0(w: Word)
    ensures Is(Four(Nibbles(Sums(w)), 28), Bits4(w, 0), 4)
    ensures Is(Four(Nibbles(Sums(w)), 24), Bits4(w, 4), 4)
    ensures Is(Four(Nibbles(Sums(w)), 20), Bits4(w, 8), 4)
    ensures Is(Four(Nibbles(Sums(w)), 16), Bits4(w, 12), 4)
  {
    hide Is, Two, Four, Nibbles, Sums, Plus, Bits2;
    var t := Sums(w);
    SmallPairs(w);
    NibblesOfPairs(t);
    PairVals0(w);
    PairVals1(w);
    Add(Two(t, 30), Bits2(w, 0), Two(t, 28), Bits2(w, 2));
    Add(Two(t, 26), Bits2(w, 4), Two(t, 24), Bits2(w, 6));
    Add(Two(t, 22), Bits2(w, 8), Two(t, 20), Bits2(w, 10));
    Add(Two(t, 18), Bits2(w, 12), Two(t, 16), Bits2(w, 14));
  }

  lemma NibbleVals1(w: Word)
    ensures Is(Four(Nibbles(Sums(w)), 12), Bits4(w, 16), 4)
    ensures Is(Four(Nibbles(Sums(w)), 8), Bits4(w, 20), 4)
    ensures Is(Four(Nibbles(Sums(w)), 4), Bits4(w, 24), 4)
    ensures Is(Four(Nibbles(Sums(w)), 0), Bits4(w, 28), 4)
  {
    hide Is, Two, Four, Nibbles, Sums, Plus, Bits2;
    var t := Sums(w);
    SmallPairs(w);
    NibblesOfPairs(t);
    PairVals2(w);
    PairVals3(w);
    Add(Two(t, 14), Bits2(w, 16), Two(t, 12), Bits2(w, 18));
    Add(Two(t, 10), Bits2(w, 20), Two(t, 8), Bits2(w, 22));
    Add(Two(t, 6), Bits2(w, 24), Two(t, 4), Bits2(w, 26));
    Add(Two(t, 2), Bits2(w, 28), Two(t, 0), Bits2(w, 30));
  }

  lemma OctetVals(w: Word)
    ensures Is(Eight(Octets(Nibbles(Sums(w))), 24), Bits8(w, 0), 8)
    ensures Is(Eight(Octets(Nibbles(Sums(w))), 16), Bits8(w, 8), 8)
    ensures Is(Eight(Octets(Nibbles(Sums(w))), 8), Bits8(w, 16), 8)
    ensures Is(Eight(Octets(Nibbles(Sums(w))), 0), Bits8(w, 24), 8)
  {
    hide Is, Four, Eight, Octets, Nibbles, Sums, Plus, Bits4;
    var t := Nibbles(Sums(w));
    NibbleVals0(w);
    NibbleVals1(w);
    AtMost(Four(t, 28), Bits4(w, 0), 4);
    AtMost(Four(t, 24), Bits4(w, 4), 4);
    AtMost(Four(t, 20), Bits4(w, 8), 4);
    AtMost(Four(t, 16), Bits4(w, 12), 4);
    AtMost(Four(t, 12), Bits4(w, 16), 4);
    AtMost(Four(t, 8), Bits4(w, 20), 4);
    AtMost(Four(t, 4), Bits4(w, 24), 4);
    AtMost(Four(t, 0), Bits4(w, 28), 4);
    OctetsOfNibbles(t);
    Add(Four(t, 28), Bits4(w, 0), Four(t, 24), Bits4(w, 4));
    Add(Four(t, 20), Bits4(w, 8), Four(t, 16), Bits4(w, 12));
    Add(Four(t, 12), Bits4(w, 16), Four(t, 8), Bits4(w, 20));
    Add(Four(t, 4), Bits4(w, 24), Four(t, 0), Bits4(w, 28));
  }

  lemma OnesByFour(w: Word, k: nat)
    ensures OnesUpTo(w, k + 4) == OnesUpTo(w, k) + Bits4(w, k)
  {
    hide BitAt;
    assert OnesUpTo(w, k + 1) == OnesUpTo(w, k) + Bit(w, k);
    assert OnesUpTo(w, k + 2) == OnesUpTo(w, k + 1) + Bit(w, k + 1);
    assert OnesUpTo(w, k + 3) == OnesUpTo(w, k + 2) + Bit(w, k + 2);
    assert OnesUpTo(w, k + 4) == OnesUpTo(w, k + 3) + Bit(w, k + 3);
  }

  lemma OnesByEight(w: Word, k: nat)
    ensures OnesUpTo(w, k + 8) == OnesUpTo(w, k) + Bits8(w, k)
  {
    hide OnesUpTo, Bits4;
    OnesByFour(w, k);
    OnesByFour(w, k + 4);
  }

  lemma NoOnes(w: Word)
    ensures OnesUpTo(w, 0) == 0
  {
  }

  /** The result is the number of set bits. */
  lemma PopcountCounts(w: Word)
    ensures Val(Popcount32(w)) == OnesUpTo(w, 32)
  {
    hide Is, Eight, Octets, Nibbles, Sums, Pairs, Plus, Bits8, OnesUpTo, Total, Gathered;
    NoBorrow(w);
    OctetVals(w);
    var t := Octets(Nibbles(Sums(w)));
    AtMost(Eight(t, 24), Bits8(w, 0), 8);
    AtMost(Eight(t, 16), Bits8(w, 8), 8);
    AtMost(Eight(t, 8), Bits8(w, 16), 8);
    AtMost(Eight(t, 0), Bits8(w, 24), 8);
    TotalOfOctets(t);
    Add(Eight(t, 24), Bits8(w, 0), Eight(t, 16), Bits8(w, 8));
    Add(Eight(t, 8), Bits8(w, 16), Eight(t, 0), Bits8(w, 24));
    Add(Plus(Eight(t, 24), Eight(t, 16)), Bits8(w, 0) + Bits8(w, 8), Plus(Eight(t, 8), Eight(t, 0)),
        Bits8(w, 16) + Bits8(w, 24));
    ValOf(Popcount32(w), Bits8(w, 0) + Bits8(w, 8) + (Bits8(w, 16) + Bits8(w, 24)), 32);
    NoOnes(w);
    OnesByEight(w, 0);
    OnesByEight(w, 8);
    OnesByEight(w, 16);
    OnesByEight(w, 24);
  }

  lemma ValOf(x: Word, n: nat, limit: Word)
    requires Is(x, n, limit)
    ensures Val(x) == n
  {
  }
}
