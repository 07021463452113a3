/** Bits inside words and bytes, most significant first, as src/bt_bitfield.cpp numbers them. */
module Bits {

  type Word = bv32
  type Byte = bv8

  // Word operations, named so that proofs about bits need no bit arithmetic.

  function And(a: Word, b: Word): Word { a & b }
  function Or(a: Word, b: Word): Word { a | b }
  function Xor(a: Word, b: Word): Word { a ^ b }
  function Not(a: Word): Word { !a }
  function Left(w: Word): Word { w << 1 }
  predicate Top(w: Word) { w >= 0x8000_0000 }
  const ZERO: Word := 0
  const ONES: Word := 0xFFFF_FFFF

  /** Bit k of a word, counted from the most significant end. */
  predicate BitAt(w: Word, k: nat)
    decreases k
  {
    if k == 0 then Top(w) else BitAt(Left(w), k - 1)
  }

  /** 1U << (31 - k) */
  function Mask(k: nat): Word
    requires k < 32
  {
    if k == 0 then 0x80000000
    else if k == 1 then 0x40000000
    else if k == 2 then 0x20000000
    else if k == 3 then 0x10000000
    else if k == 4 then 0x08000000
    else if k == 5 then 0x04000000
    else if k == 6 then 0x02000000
    else if k == 7 then 0x01000000
    else if k == 8 then 0x00800000
    else if k == 9 then 0x00400000
    else if k == 10 then 0x00200000
    else if k == 11 then 0x00100000
    else if k == 12 then 0x00080000
    else if k == 13 then 0x00040000
    else if k == 14 then 0x00020000
    else if k == 15 then 0x00010000
    else if k == 16 then 0x00008000
    else if k == 17 then 0x00004000
    else if k == 18 then 0x00002000
    else if k == 19 then 0x00001000
    else if k == 20 then 0x00000800
    else if k == 21 then 0x00000400
    else if k == 22 then 0x00000200
    else if k == 23 then 0x00000100
    else if k == 24 then 0x00000080
    else if k == 25 then 0x00000040
    else if k == 26 then 0x00000020
    else if k == 27 then 0x00000010
    else if k == 28 then 0x00000008
    else if k == 29 then 0x00000004
    else if k == 30 then 0x00000002
    else 0x00000001
  }

  /** 0xFFFFFFFF << (32 - t): the first t bits. */
  function HeadMask(t: nat): Word
    requires t <= 32
  {
    if t == 0 then 0x00000000
    else if t == 1 then 0x80000000
    else if t == 2 then 0xC0000000
    else if t == 3 then 0xE0000000
    else if t == 4 then 0xF0000000
    else if t == 5 then 0xF8000000
    else if t == 6 then 0xFC000000
    else if t == 7 then 0xFE000000
    else if t == 8 then 0xFF000000
    else if t == 9 then 0xFF800000
    else if t == 10 then 0xFFC00000
    else if t == 11 then 0xFFE00000
    else if t == 12 then 0xFFF00000
    else if t == 13 then 0xFFF80000
    else if t == 14 then 0xFFFC0000
    else if t == 15 then 0xFFFE0000
    else if t == 16 then 0xFFFF0000
    else if t == 17 then 0xFFFF8000
    else if t == 18 then 0xFFFFC000
    else if t == 19 then 0xFFFFE000
    else if t == 20 then 0xFFFFF000
    else if t == 21 then 0xFFFFF800
    else if t == 22 then 0xFFFFFC00
    else if t == 23 then 0xFFFFFE00
    else if t == 24 then 0xFFFFFF00
    else if t == 25 then 0xFFFFFF80
    else if t == 26 then 0xFFFFFFC0
    else if t == 27 then 0xFFFFFFE0
    else if t == 28 then 0xFFFFFFF0
    else if t == 29 then 0xFFFFFFF8
    else if t == 30 then 0xFFFFFFFC
    else if t == 31 then 0xFFFFFFFE
    else 0xFFFFFFFF
  }

  lemma LeftAnd(a: Word, b: Word)
    ensures Left(And(a, b)) == And(Left(a), Left(b))
  {
  }

  lemma TopAnd(a: Word, b: Word)
    ensures Top(And(a, b)) <==> (Top(a) && Top(b))
  {
  }

  lemma LeftOr(a: Word, b: Word)
    ensures Left(Or(a, b)) == Or(Left(a), Left(b))
  {
  }

  lemma DeMorgan(a: Word, b: Word)
    ensures Or(a, b) == Not(And(Not(a), Not(b)))
  {
  }

  lemma TopNot(a: Word)
    ensures Top(Not(a)) <==> !Top(a)
  {
  }

  lemma TopOr(a: Word, b: Word)
    ensures Top(Or(a, b)) <==> (Top(a) || Top(b))
  {
    hide *;
    DeMorgan(a, b);
    TopNot(a);
    TopNot(b);
    TopAnd(Not(a), Not(b));
    TopNot(And(Not(a), Not(b)));
  }

  lemma LeftXor(a: Word, b: Word)
    ensures Left(Xor(a, b)) == Xor(Left(a), Left(b))
  {
  }

  lemma TopXor(a: Word, b: Word)
    ensures Top(Xor(a, b)) <==> (Top(a) != Top(b))
  {
  }

  lemma LeftZero()
    ensures Left(ZERO) == ZERO && !Top(ZERO)
  {
  }

  lemma {:induction false} BitOps(a: Word, b: Word, k: nat)
    ensures BitAt(And(a, b), k) <==> BitAt(a, k) && BitAt(b, k)
    ensures BitAt(Or(a, b), k) <==> BitAt(a, k) || BitAt(b, k)
    ensures BitAt(Xor(a, b), k) <==> BitAt(a, k) != BitAt(b, k)
    ensures !BitAt(ZERO, k)
    decreases k
  {
    hide And, Or, Xor, Left, Top;
    LeftAnd(a, b); TopAnd(a, b);
    LeftOr(a, b); TopOr(a, b);
    LeftXor(a, b); TopXor(a, b);
    LeftZero();
    if k > 0 { BitOps(Left(a), Left(b), k - 1); }
  }

  lemma MaskLeft0(k: nat)
    requires 0 <= k < 8
    ensures Left(Mask(k)) == if k == 0 then ZERO else Mask(k - 1)
    ensures Top(Mask(k)) <==> k == 0
  {
  }

  lemma MaskLeft1(k: nat)
    requires 8 <= k < 16
    ensures Left(Mask(k)) == if k == 0 then ZERO else Mask(k - 1)
    ensures Top(Mask(k)) <==> k == 0
  {
  }

  lemma MaskLeft2(k: nat)
    requires 16 <= k < 24
    ensures Left(Mask(k)) == if k == 0 then ZERO else Mask(k - 1)
    ensures Top(Mask(k)) <==> k == 0
  {
  }

  lemma MaskLeft3(k: nat)
    requires 24 <= k < 32
    ensures Left(Mask(k)) == if k == 0 then ZERO else Mask(k - 1)
    ensures Top(Mask(k)) <==> k == 0
  {
  }

  lemma MaskLeft(k: nat)
    requires k < 32
    ensures Left(Mask(k)) == if k == 0 then ZERO else Mask(k - 1)
    ensures Top(Mask(k)) <==> k == 0
  {
    hide *;
    if k < 8 { MaskLeft0(k); } else if k < 16 { MaskLeft1(k); } else if k < 24 { MaskLeft2(k); } else { MaskLeft3(k); }
  }

  lemma {:induction false} BitOfMask(k: nat, j: nat)
    requires k < 32
    ensures BitAt(Mask(k), j) <==> j == k
    decreases j
  {
    hide Left, Top, Mask;
    MaskLeft(k);
    if j > 0 {
      if k > 0 { BitOfMask(k - 1, j - 1); } else { BitOps(ZERO, ZERO, j - 1); }
    }
  }

  lemma HeadMaskLeft0(t: nat)
    requires 0 <= t < 8
    ensures Left(HeadMask(t)) == if t == 0 then ZERO else HeadMask(t - 1)
    ensures Top(HeadMask(t)) <==> t > 0
  {
  }

  lemma HeadMaskLeft1(t: nat)
    requires 8 <= t < 16
    ensures Left(HeadMask(t)) == if t == 0 then ZERO else HeadMask(t - 1)
    ensures Top(HeadMask(t)) <==> t > 0
  {
  }

  lemma HeadMaskLeft2(t: nat)
    requires 16 <= t < 24
    ensures Left(HeadMask(t)) == if t == 0 then ZERO else HeadMask(t - 1)
    ensures Top(HeadMask(t)) <==> t > 0
  {
  }

  lemma HeadMaskLeft3(t: nat)
    requires 24 <= t < 33
    ensures Left(HeadMask(t)) == if t == 0 then ZERO else HeadMask(t - 1)
    ensures Top(HeadMask(t)) <==> t > 0
  {
  }

  lemma HeadMaskLeft(t: nat)
    requires t <= 32
    ensures Left(HeadMask(t)) == if t == 0 then ZERO else HeadMask(t - 1)
    ensures Top(HeadMask(t)) <==> t > 0
  {
    hide *;
    if t < 8 { HeadMaskLeft0(t); } else if t < 16 { HeadMaskLeft1(t); } else if t < 24 { HeadMaskLeft2(t); }
    else { HeadMaskLeft3(t); }
  }

  lemma HeadMaskAll()
    ensures HeadMask(32) == ONES
  {
  }

  lemma {:induction false} BitOfHeadMask(t: nat, j: nat)
    requires t <= 32
    ensures BitAt(HeadMask(t), j) <==> j < t
    decreases j
  {
    hide Left, Top, HeadMask;
    HeadMaskLeft(t);
    if j > 0 {
      if t > 0 { BitOfHeadMask(t - 1, j - 1); } else { BitOps(ZERO, ZERO, j - 1); }
    }
  }

  lemma BitOfOnes(j: nat)
    requires j < 32
    ensures BitAt(ONES, j)
  {
    hide *;
    HeadMaskAll();
    BitOfHeadMask(32, j);
  }

  lemma NotIsXor(a: Word)
    ensures Not(a) == Xor(a, ONES)
  {
  }

  lemma BitOfNot(a: Word, j: nat)
    requires j < 32
    ensures BitAt(Not(a), j) <==> !BitAt(a, j)
  {
    hide *;
    NotIsXor(a);
    BitOps(a, ONES, j);
    BitOfOnes(j);
  }

  lemma LeftTest(w: Word, m: Word)
    requires !Top(m)
    ensures And(w, m) != ZERO <==> And(Left(w), Left(m)) != ZERO
  {
  }

  lemma TopTest(w: Word)
    ensures And(w, 0x8000_0000) != ZERO <==> Top(w)
  {
  }

  /** get_bit's test with a mask reads bit k. */
  lemma {:induction false} TestMask(w: Word, k: nat)
    requires k < 32
    ensures And(w, Mask(k)) != ZERO <==> BitAt(w, k)
    decreases k
  {
    hide And, Left, Top, Mask;
    MaskLeft(k);
    if k == 0 {
      assert Mask(0) == 0x8000_0000 by { MaskZero(); }
      TopTest(w);
    } else {
      LeftTest(w, Mask(k));
      TestMask(Left(w), k - 1);
    }
  }

  lemma MaskZero()
    ensures Mask(0) == 0x8000_0000
  {
  }

  function LeftN(w: Word, n: nat): Word
    decreases n
  {
    if n == 0 then w else LeftN(Left(w), n - 1)
  }

  lemma TopAndLeft(a: Word, b: Word)
    requires Top(a) == Top(b) && Left(a) == Left(b)
    ensures a == b
  {
  }

  lemma {:induction false} SameBitsUpTo(a: Word, b: Word, n: nat)
    requires forall k :: 0 <= k < n ==> BitAt(a, k) == BitAt(b, k)
    requires LeftN(a, n) == LeftN(b, n)
    ensures a == b
    decreases n
  {
    hide Left, Top;
    if n > 0 {
      assert BitAt(a, 0) == BitAt(b, 0);
      forall k | 0 <= k < n - 1 ensures BitAt(Left(a), k) == BitAt(Left(b), k) {
        assert BitAt(a, k + 1) == BitAt(b, k + 1);
      }
      SameBitsUpTo(Left(a), Left(b), n - 1);
      TopAndLeft(a, b);
    }
  }

  function Up4(w: Word): Word { w << 4 }

  lemma LeftFour(w: Word)
    ensures LeftN(w, 4) == Up4(w)
  {
    assert LeftN(w, 4) == Left(Left(Left(Left(w))));
  }

  lemma {:induction false} LeftNAdds(w: Word, m: nat, n: nat)
    ensures LeftN(w, m + n) == LeftN(LeftN(w, m), n)
    decreases m
  {
    hide Left;
    if m > 0 { LeftNAdds(Left(w), m - 1, n); }
  }

  lemma EightFours(w: Word)
    ensures Up4(Up4(Up4(Up4(Up4(Up4(Up4(Up4(w)))))))) == ZERO
  {
  }

  lemma LeftAll(w: Word)
    ensures LeftN(w, 32) == ZERO
  {
    hide *;
    var w1, w2 := Up4(w), Up4(Up4(w));
    var w3, w4 := Up4(w2), Up4(Up4(w2));
    var w5, w6 := Up4(w4), Up4(Up4(w4));
    var w7 := Up4(w6);
    LeftNAdds(w, 4, 28); LeftFour(w);
    LeftNAdds(w1, 4, 24); LeftFour(w1);
    LeftNAdds(w2, 4, 20); LeftFour(w2);
    LeftNAdds(w3, 4, 16); LeftFour(w3);
    LeftNAdds(w4, 4, 12); LeftFour(w4);
    LeftNAdds(w5, 4, 8); LeftFour(w5);
    LeftNAdds(w6, 4, 4); LeftFour(w6);
    LeftFour(w7);
    EightFours(w);
  }

  /** Words with the same 32 bits are the same word. */
  lemma SameBits(a: Word, b: Word)
    requires forall k :: 0 <= k < 32 ==> BitAt(a, k) == BitAt(b, k)
    ensures a == b
  {
    hide *;
    LeftAll(a);
    LeftAll(b);
    SameBitsUpTo(a, b, 32);
  }

  // ----- counting

  /** Set bits among the first n of a word. */
  function OnesUpTo(w: Word, n: nat): (c: nat)
    ensures c <= n
  {
    if n == 0 then 0 else OnesUpTo(w, n - 1) + if BitAt(w, n - 1) then 1 else 0
  }

  // ----- bytes

  function And8(a: Byte, b: Byte): Byte { a & b }
  function Or8(a: Byte, b: Byte): Byte { a | b }
  function Left8(w: Byte): Byte { w << 1 }
  predicate Top8(w: Byte) { w >= 0x80 }

  predicate BitAt8(w: Byte, k: nat)
    decreases k
  {
    if k == 0 then Top8(w) else BitAt8(Left8(w), k - 1)
  }

  /** 0x80 >> k, which is 1 << (7 - k) */
  function Mask8(k: nat): Byte
    requires k < 8
  {
    if k == 0 then 0x80 else if k == 1 then 0x40 else if k == 2 then 0x20 else if k == 3 then 0x10
    else if k == 4 then 0x08 else if k == 5 then 0x04 else if k == 6 then 0x02 else 0x01
  }

  lemma LeftTop8(a: Byte, b: Byte)
    ensures Left8(Or8(a, b)) == Or8(Left8(a), Left8(b)) && (Top8(Or8(a, b)) <==> Top8(a) || Top8(b))
    ensures Left8(0) == 0 && !Top8(0)
  {
  }

  lemma {:induction false} BitOr8(a: Byte, b: Byte, k: nat)
    ensures BitAt8(Or8(a, b), k) <==> BitAt8(a, k) || BitAt8(b, k)
    ensures !BitAt8(0, k)
    decreases k
  {
    hide Or8, Left8, Top8;
    LeftTop8(a, b);
    if k > 0 { BitOr8(Left8(a), Left8(b), k - 1); }
  }

  lemma Mask8Left(k: nat)
    requires k < 8
    ensures Left8(Mask8(k)) == if k == 0 then 0 else Mask8(k - 1)
    ensures Top8(Mask8(k)) <==> k == 0
    ensures Mask8(0) == 0x80
  {
  }

  lemma {:induction false} BitOfMask8(k: nat, j: nat)
    requires k < 8
    ensures BitAt8(Mask8(k), j) <==> j == k
    decreases j
  {
    hide Left8, Top8, Mask8;
    Mask8Left(k);
    if j > 0 {
      if k > 0 { BitOfMask8(k - 1, j - 1); } else { BitOr8(0, 0, j - 1); }
    }
  }

  lemma LeftTest8(w: Byte, m: Byte)
    requires !Top8(m)
    ensures And8(w, m) != 0 <==> And8(Left8(w), Left8(m)) != 0
  {
  }

  lemma TopTest8(w: Byte)
    ensures And8(w, 0x80) != 0 <==> Top8(w)
  {
  }

  lemma {:induction false} TestMask8(w: Byte, k: nat)
    requires k < 8
    ensures And8(w, Mask8(k)) != 0 <==> BitAt8(w, k)
    decreases k
  {
    hide And8, Left8, Top8, Mask8;
    Mask8Left(k);
    if k == 0 {
      TopTest8(w);
    } else {
      LeftTest8(w, Mask8(k));
      TestMask8(Left8(w), k - 1);
    }
  }

  // ----- bytes as numbers

  function Next8(b: Byte): Byte { b + 1 }

  /** The byte with the given value. */
  function ToByte(n: nat): Byte
    requires n < 256
  {
    if n == 0 then 0 else Next8(ToByte(n - 1))
  }

  function ByteValue(b: Byte): (r: nat)
    ensures r < 256
  {
    b as int
  }

  lemma NextValue(b: Byte)
    ensures ByteValue(b) < 255 ==> ByteValue(Next8(b)) == ByteValue(b) + 1
    ensures ByteValue(0) == 0
  {
  }

  lemma {:induction false} ByteRoundTrip(n: nat)
    requires n < 256
    ensures ByteValue(ToByte(n)) == n
  {
    hide Next8, ByteValue;
    NextValue(0);
    if n > 0 {
      ByteRoundTrip(n - 1);
      NextValue(ToByte(n - 1));
    }
  }

  // ----- bits packed into bytes

  function ZeroBytes(n: nat): (z: seq<Byte>)
    ensures |z| == n && forall i :: 0 <= i < n ==> z[i] == 0
  {
    seq(n, _ => 0)
  }

  /** The packing loop of to_bytes after n turns. */
  function PackUpTo(bits: seq<bool>, n: nat): (bytes: seq<Byte>)
    requires n <= |bits|
    ensures |bytes| == (|bits| + 7) / 8
  {
    if n == 0 then ZeroBytes((|bits| + 7) / 8)
    else
      var before := PackUpTo(bits, n - 1);
      var i := n - 1;
      if bits[i] then before[i / 8 := Or8(before[i / 8], Mask8(i % 8))] else before
  }

  function Pack(bits: seq<bool>): seq<Byte> { PackUpTo(bits, |bits|) }

  predicate PackedBit(bytes: seq<Byte>, i: nat) {
    i / 8 < |bytes| && BitAt8(bytes[i / 8], i % 8)
  }

  lemma {:induction false} PackUpToBit(bits: seq<bool>, n: nat, i: nat)
    requires n <= |bits|
    ensures PackedBit(PackUpTo(bits, n), i) <==> i < n && bits[i]
    decreases n
  {
    hide BitAt8, Mask8, Or8;
    if n == 0 {
      BitOr8(0, 0, i % 8);
    } else {
      PackUpToBit(bits, n - 1, i);
      var j := n - 1;
      var before := PackUpTo(bits, n - 1);
      if bits[j] && i / 8 == j / 8 {
        BitOr8(before[j / 8], Mask8(j % 8), i % 8);
        BitOfMask8(j % 8, i % 8);
      }
    }
  }

  /** from_bytes: missing bytes read as zero, surplus bits are dropped. */
  function Unpack(bytes: seq<Byte>, n: nat): (bits: seq<bool>)
    ensures |bits| == n
  {
    seq(n, i requires 0 <= i => PackedBit(bytes, i))
  }

  /** Unpacking undoes packing. */
  lemma PackRoundTrip(bits: seq<bool>)
    ensures Unpack(Pack(bits), |bits|) == bits
  {
    hide PackUpTo;
    forall i | 0 <= i < |bits| ensures Unpack(Pack(bits), |bits|)[i] == bits[i] {
      PackUpToBit(bits, |bits|, i);
    }
  }
}
