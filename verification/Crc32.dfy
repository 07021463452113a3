/** CRC-32 (IEEE 802.3, reflected polynomial), as used by src/crc32.cpp and by the
    second copy in src/file_transfer.cpp. */
module Crc32 {

  type Byte = bv8

  const POLYNOMIAL: bv32 := 0xEDB8_8320

  // Word operations, named so that proofs about the register can treat them algebraically.

  function Xor(x: bv32, y: bv32): bv32 { x ^ y }
  function Down8(x: bv32): bv32 { x >> 8 }
  function Up8(x: bv32): bv32 { x << 8 }
  function Low8(x: bv32): bv32 { x & 0xFF }
  function Widen(b: Byte): bv32 { b as bv32 }

  function Half(x: bv32): bv32 { x >> 1 }
  predicate Odd(x: bv32) { x & 1 == 1 }

  /** Bit-serial division: shift one bit out of the register. */
  function Shift(c: bv32): bv32 {
    if Odd(c) then Xor(Half(c), POLYNOMIAL) else Half(c)
  }

  function ShiftN(c: bv32, n: nat): bv32
    decreases n
  {
    if n == 0 then c else ShiftN(Shift(c), n - 1)
  }

  /** The register after feeding `data` bit by bit, least significant bit first. */
  function Register(c: bv32, data: seq<Byte>): bv32
    decreases |data|
  {
    if data == [] then c else Register(ShiftN(Xor(c, Widen(data[0])), 8), data[1..])
  }

  const ONES: bv32 := 0xFFFF_FFFF

  /** The reference checksum of section 8 of RFC 1952: bit-by-bit division with
      pre- and post-conditioning. */
  function Checksum(data: seq<Byte>): bv32 {
    Xor(Register(ONES, data), ONES)
  }

  // ----- facts about words, by bit arithmetic alone

  lemma XorHalves(x: bv32, y: bv32)
    ensures Half(Xor(x, y)) == Xor(Half(x), Half(y))
    ensures Odd(Xor(x, y)) <==> Odd(x) != Odd(y)
  {
  }

  lemma XorTwice(a: bv32, b: bv32, p: bv32)
    ensures Xor(Xor(a, p), b) == Xor(Xor(a, b), p)
    ensures Xor(a, Xor(b, p)) == Xor(Xor(a, b), p)
    ensures Xor(Xor(a, p), Xor(b, p)) == Xor(a, b)
  {
  }

  lemma ShiftLinear(x: bv32, y: bv32)
    ensures Shift(Xor(x, y)) == Xor(Shift(x), Shift(y))
  {
    hide Xor, Half, Odd;
    XorHalves(x, y);
    XorTwice(Half(x), Half(y), POLYNOMIAL);
  }

  predicate TopBit(x: bv32) { x & 0x8000_0000 == 0x8000_0000 }

  lemma TopBitTells(x: bv32)
    ensures !TopBit(Half(x)) && TopBit(Xor(Half(x), POLYNOMIAL))
  {
  }

  lemma HalfAndBit(x: bv32, y: bv32)
    requires Half(x) == Half(y) && Odd(x) == Odd(y)
    ensures x == y
  {
  }

  lemma XorCancels(c: bv32, b: bv32, c': bv32)
    ensures Xor(c, b) == Xor(c', b) ==> c == c'
    ensures Xor(b, c) == Xor(b, c') ==> c == c'
  {
  }

  /** The polynomial has its top bit set, so no information is lost in a shift. */
  lemma ShiftInjective(x: bv32, y: bv32)
    requires Shift(x) == Shift(y)
    ensures x == y
  {
    hide Xor, Half, Odd, TopBit;
    TopBitTells(x);
    TopBitTells(y);
    XorCancels(Half(x), POLYNOMIAL, Half(y));
    HalfAndBit(x, y);
  }

  function Half4(x: bv32): bv32 { Half(Half(Half(Half(x)))) }

  lemma LowBitsClear(z: bv32)
    requires z & 0xF == 0
    ensures !Odd(z) && !Odd(Half(z)) && !Odd(Half(Half(z))) && !Odd(Half(Half(Half(z))))
  {
  }

  lemma FourPlain(z: bv32)
    requires z & 0xF == 0
    ensures Shift(Shift(Shift(Shift(z)))) == Half4(z)
  {
    hide Half, Odd;
    LowBitsClear(z);
  }

  lemma Nibbles(z: bv32)
    requires Low8(z) == 0
    ensures z & 0xF == 0 && Half4(z) & 0xF == 0 && Half4(Half4(z)) == Down8(z)
  {
  }

  lemma PlainShifts(z: bv32)
    requires Low8(z) == 0
    ensures Shift(Shift(Shift(Shift(Shift(Shift(Shift(Shift(z)))))))) == Down8(z)
  {
    hide *;
    Nibbles(z);
    FourPlain(z);
    FourPlain(Half4(z));
  }

  function High24(x: bv32): bv32 { x & 0xFFFF_FF00 }

  lemma HighLow(x: bv32)
    ensures x == Xor(High24(x), Low8(x))
    ensures Down8(High24(x)) == Down8(x) && Low8(High24(x)) == 0
  {
  }

  lemma UpAndDown(z: bv32)
    requires z & 0xFF00_0000 == 0
    ensures Low8(Up8(z)) == 0 && Down8(Up8(z)) == z
  {
  }

  lemma ByteFacts(b: Byte)
    ensures Widen(b) & 0xFF00_0000 == 0 && Up8(Widen(b)) & 0xFF00_0000 == 0 && Up8(Up8(Widen(b))) & 0xFF00_0000 == 0
  {
  }

  lemma ByteShiftsAway(c: bv32, b: Byte)
    ensures Down8(Xor(c, Widen(b))) == Down8(c)
  {
  }

  lemma XorCommutes(a: bv32, b: bv32)
    ensures Xor(a, b) == Xor(b, a)
  {
  }

  lemma XorAssociates(a: bv32, b: bv32, c: bv32)
    ensures Xor(Xor(a, b), c) == Xor(a, Xor(b, c))
  {
  }

  /** Four bytes as the 32-bit word that the register sees, first byte lowest. */
  function Word(b0: Byte, b1: Byte, b2: Byte, b3: Byte): bv32 {
    Xor(Xor(Xor(Widen(b0), Up8(Widen(b1))), Up8(Up8(Widen(b2)))), Up8(Up8(Up8(Widen(b3)))))
  }

  lemma WordBytes(b0: Byte, b1: Byte, b2: Byte, b3: Byte)
    ensures Low8(Word(b0, b1, b2, b3)) == Widen(b0)
    ensures Low8(Down8(Word(b0, b1, b2, b3))) == Widen(b1)
    ensures Low8(Down8(Down8(Word(b0, b1, b2, b3)))) == Widen(b2)
    ensures Low8(Down8(Down8(Down8(Word(b0, b1, b2, b3))))) == Widen(b3)
  {
  }

  lemma WidenInjective(a: Byte, b: Byte)
    requires Widen(a) == Widen(b)
    ensures a == b
  {
  }

  lemma WordInjective(a0: Byte, a1: Byte, a2: Byte, a3: Byte, b0: Byte, b1: Byte, b2: Byte, b3: Byte)
    requires Word(a0, a1, a2, a3) == Word(b0, b1, b2, b3)
    ensures a0 == b0 && a1 == b1 && a2 == b2 && a3 == b3
  {
    hide *;
    WordBytes(a0, a1, a2, a3);
    WordBytes(b0, b1, b2, b3);
    WidenInjective(a0, b0);
    WidenInjective(a1, b1);
    WidenInjective(a2, b2);
    WidenInjective(a3, b3);
  }

  // ----- algebra of the register

  lemma {:induction false} ShiftNLinear(x: bv32, y: bv32, n: nat)
    ensures ShiftN(Xor(x, y), n) == Xor(ShiftN(x, n), ShiftN(y, n))
    decreases n
  {
    hide Shift, Xor;
    if n > 0 {
      ShiftLinear(x, y);
      ShiftNLinear(Shift(x), Shift(y), n - 1);
    }
  }

  lemma {:induction false} ShiftNInjective(x: bv32, y: bv32, n: nat)
    requires ShiftN(x, n) == ShiftN(y, n)
    ensures x == y
    decreases n
  {
    hide Shift;
    if n > 0 {
      ShiftNInjective(Shift(x), Shift(y), n - 1);
      ShiftInjective(x, y);
    }
  }

  lemma ShiftNStep(c: bv32, n: nat)
    ensures ShiftN(c, 0) == c && ShiftN(c, n + 1) == ShiftN(Shift(c), n)
  {
    hide Shift;
  }

  lemma Shift8Unfolds(c: bv32)
    ensures ShiftN(c, 8) == Shift(Shift(Shift(Shift(Shift(Shift(Shift(Shift(c))))))))
  {
    hide Shift, ShiftN;
    ShiftNStep(c, 7);
    ShiftNStep(Shift(c), 6);
    ShiftNStep(Shift(Shift(c)), 5);
    ShiftNStep(Shift(Shift(Shift(c))), 4);
    ShiftNStep(Shift(Shift(Shift(Shift(c)))), 3);
    ShiftNStep(Shift(Shift(Shift(Shift(Shift(c))))), 2);
    ShiftNStep(Shift(Shift(Shift(Shift(Shift(Shift(c)))))), 1);
    ShiftNStep(Shift(Shift(Shift(Shift(Shift(Shift(Shift(c))))))), 0);
    ShiftNStep(Shift(Shift(Shift(Shift(Shift(Shift(Shift(Shift(c)))))))), 0);
  }

  /** Shifting eight zero bits out is a plain shift. */
  lemma Shift8Plain(z: bv32)
    requires Low8(z) == 0
    ensures ShiftN(z, 8) == Down8(z)
  {
    hide *;
    Shift8Unfolds(z);
    PlainShifts(z);
  }

  /** One table lookup does the work of eight shifts. */
  lemma TableStep(x: bv32)
    ensures ShiftN(x, 8) == Xor(Down8(x), ShiftN(Low8(x), 8))
  {
    hide *;
    HighLow(x);
    ShiftNLinear(High24(x), Low8(x), 8);
    Shift8Plain(High24(x));
  }

  // ----- splitting the data

  /** The register does not depend on how the data is split across update calls. */
  lemma {:induction false} RegisterSplit(c: bv32, a: seq<Byte>, b: seq<Byte>)
    ensures Register(c, a + b) == Register(Register(c, a), b)
    decreases |a|
  {
    hide ShiftN, Xor, Widen;
    if a == [] {
      assert a + b == b;
    } else {
      assert (a + b)[1..] == a[1..] + b;
      RegisterSplit(ShiftN(Xor(c, Widen(a[0])), 8), a[1..], b);
    }
  }

  lemma {:induction false} RegisterInjective(c: bv32, c': bv32, data: seq<Byte>)
    requires Register(c, data) == Register(c', data)
    ensures c == c'
    decreases |data|
  {
    hide ShiftN, Xor, Widen;
    if data != [] {
      var b := Widen(data[0]);
      RegisterInjective(ShiftN(Xor(c, b), 8), ShiftN(Xor(c', b), 8), data[1..]);
      ShiftNInjective(Xor(c, b), Xor(c', b), 8);
      XorCancels(c, b, c');
    }
  }

  lemma RegisterStep(c: bv32, b: Byte, rest: seq<Byte>)
    ensures Register(c, [b] + rest) == Register(ShiftN(Xor(c, Widen(b)), 8), rest)
    ensures Register(c, []) == c
  {
    hide ShiftN, Xor, Widen;
    assert ([b] + rest)[1..] == rest;
  }

  lemma RegisterAppend(c: bv32, data: seq<Byte>, b: Byte)
    ensures Register(c, data + [b]) == ShiftN(Xor(Register(c, data), Widen(b)), 8)
  {
    hide *;
    RegisterSplit(c, data, [b]);
    RegisterStep(Register(c, data), b, []);
    assert [b] + [] == [b];
    RegisterStep(ShiftN(Xor(Register(c, data), Widen(b)), 8), b, []);
  }

  // ----- burst errors

  /** A byte fed after eight shifts could as well have been fed before them, eight bits up. */
  lemma FeedEarlier(c: bv32, z: bv32)
    requires z & 0xFF00_0000 == 0
    ensures Xor(ShiftN(c, 8), z) == ShiftN(Xor(c, Up8(z)), 8)
  {
    hide *;
    UpAndDown(z);
    ShiftNLinear(c, Up8(z), 8);
    Shift8Plain(Up8(z));
  }

  lemma FeedFour(c: bv32, b0: Byte, b1: Byte, b2: Byte, b3: Byte)
    ensures Register(c, [b0, b1, b2, b3]) ==
            ShiftN(Xor(ShiftN(Xor(ShiftN(Xor(ShiftN(Xor(c, Widen(b0)), 8),
                                             Widen(b1)), 8), Widen(b2)), 8), Widen(b3)), 8)
  {
    hide *;
    assert [b0, b1, b2, b3] == [b0] + [b1, b2, b3];
    assert [b1, b2, b3] == [b1] + [b2, b3];
    assert [b2, b3] == [b2] + [b3];
    assert [b3] == [b3] + [];
    var c1 := ShiftN(Xor(c, Widen(b0)), 8);
    var c2 := ShiftN(Xor(c1, Widen(b1)), 8);
    var c3 := ShiftN(Xor(c2, Widen(b2)), 8);
    var c4 := ShiftN(Xor(c3, Widen(b3)), 8);
    RegisterStep(c, b0, [b1, b2, b3]);
    RegisterStep(c1, b1, [b2, b3]);
    RegisterStep(c2, b2, [b3]);
    RegisterStep(c3, b3, []);
    RegisterStep(c4, b3, []);
  }

  function Shift32(c: bv32): bv32 {
    ShiftN(ShiftN(ShiftN(ShiftN(c, 8), 8), 8), 8)
  }

  /** Feeding four bytes is one exclusive-or and 32 shifts. */
  lemma FourBytes(c: bv32, b0: Byte, b1: Byte, b2: Byte, b3: Byte)
    ensures Register(c, [b0, b1, b2, b3]) == Shift32(Xor(c, Word(b0, b1, b2, b3)))
  {
    hide ShiftN, Register, Xor, Up8, Widen;
    var w0, w1, w2, w3 := Widen(b0), Widen(b1), Widen(b2), Widen(b3);
    FeedFour(c, b0, b1, b2, b3);
    ByteFacts(b1);
    ByteFacts(b2);
    ByteFacts(b3);
    var c0 := Xor(c, w0);
    FeedEarlier(c0, w1);
    var c1 := Xor(c0, Up8(w1));
    FeedEarlier(ShiftN(c1, 8), w2);
    FeedEarlier(c1, Up8(w2));
    var c2 := Xor(c1, Up8(Up8(w2)));
    FeedEarlier(ShiftN(ShiftN(c2, 8), 8), w3);
    FeedEarlier(ShiftN(c2, 8), Up8(w3));
    FeedEarlier(c2, Up8(Up8(w3)));
    XorAssociates(c, w0, Up8(w1));
    XorAssociates(c, Xor(w0, Up8(w1)), Up8(Up8(w2)));
    XorAssociates(c, Xor(Xor(w0, Up8(w1)), Up8(Up8(w2))), Up8(Up8(Up8(w3))));
  }

  lemma FourBytesInjective(c: bv32, x: seq<Byte>, y: seq<Byte>)
    requires |x| == |y| == 4 && Register(c, x) == Register(c, y)
    ensures x == y
  {
    hide ShiftN, Register, Xor, Word;
    var v, w := Word(x[0], x[1], x[2], x[3]), Word(y[0], y[1], y[2], y[3]);
    FourBytes(c, x[0], x[1], x[2], x[3]);
    FourBytes(c, y[0], y[1], y[2], y[3]);
    assert x == [x[0], x[1], x[2], x[3]] && y == [y[0], y[1], y[2], y[3]];
    Shift32Injective(Xor(c, v), Xor(c, w));
    XorCancels(v, c, w);
    WordInjective(x[0], x[1], x[2], x[3], y[0], y[1], y[2], y[3]);
  }

  lemma Shift32Injective(a: bv32, b: bv32)
    requires Shift32(a) == Shift32(b)
    ensures a == b
  {
    hide ShiftN;
    ShiftNInjective(ShiftN(ShiftN(ShiftN(a, 8), 8), 8), ShiftN(ShiftN(ShiftN(b, 8), 8), 8), 8);
    ShiftNInjective(ShiftN(ShiftN(a, 8), 8), ShiftN(ShiftN(b, 8), 8), 8);
    ShiftNInjective(ShiftN(a, 8), ShiftN(b, 8), 8);
    ShiftNInjective(a, b, 8);
  }

  lemma ShortInjective(c: bv32, x: seq<Byte>, y: seq<Byte>)
    requires |x| == |y| <= 4 && Register(c, x) == Register(c, y)
    ensures x == y
  {
    hide *;
    var pad: seq<Byte> := seq(4 - |x|, _ => 0);
    RegisterSplit(c, x, pad);
    RegisterSplit(c, y, pad);
    FourBytesInjective(c, x + pad, y + pad);
    assert x == (x + pad)[..|x|] && y == (y + pad)[..|y|];
  }

  /** Every change that is confined to four consecutive bytes changes the checksum: two buffers
      p + x + s and p + y + s have the same checksum only when x and y are the same. */
  lemma BurstIsDetected(p: seq<Byte>, x: seq<Byte>, y: seq<Byte>, s: seq<Byte>)
    requires |x| == |y| <= 4
    ensures Checksum(p + x + s) == Checksum(p + y + s) <==> x == y
  {
    hide Register, Xor;
    var c := Register(ONES, p);
    RegisterSplit(ONES, p, x);
    RegisterSplit(ONES, p, y);
    RegisterSplit(ONES, p + x, s);
    RegisterSplit(ONES, p + y, s);
    XorCancels(Register(ONES, p + x + s), ONES, Register(ONES, p + y + s));
    if Checksum(p + x + s) == Checksum(p + y + s) {
      RegisterInjective(Register(c, x), Register(c, y), s);
      ShortInjective(c, x, y);
    }
  }

  // ----- the table and the two implementations

  predicate IsTable(t: seq<bv32>) {
    |t| == 256 && forall i :: 0 <= i < 256 ==> t[i] == ShiftN(i as bv32, 8)
  }

  /** The inner loop of init_table: a byte is shifted through eight times. */
  method ShiftByte(i: bv32) returns (crc: bv32)
    ensures crc == ShiftN(i, 8)
  {
    hide ShiftN;
    crc := i;
    for j := 0 to 8
      invariant ShiftN(i, 8) == ShiftN(crc, 8 - j)
    {
      ShiftNStep(crc, 7 - j);
      if crc & 1 == 1 {
        crc := (crc >> 1) ^ POLYNOMIAL;
      } else {
        crc := crc >> 1;
      }
    }
    ShiftNStep(crc, 0);
  }

  /** init_table. */
  method InitTable() returns (table: seq<bv32>)
    ensures IsTable(table)
  {
    hide ShiftN;
    table := [];
    for i := 0 to 256
      invariant |table| == i && forall k :: 0 <= k < i ==> table[k] == ShiftN(k as bv32, 8)
    {
      var crc := ShiftByte(i as bv32);
      table := table + [crc];
    }
  }

  lemma LowByte(x: bv32)
    ensures 0 <= Low8(x) as int < 256
    ensures (Low8(x) as int) as bv32 == Low8(x)
  {
  }

  /** One byte through the table. */
  function TableUpdate(table: seq<bv32>, c: bv32, b: Byte): (r: bv32)
    requires IsTable(table)
    ensures r == ShiftN(Xor(c, Widen(b)), 8)
  {
    hide *;
    var x := Xor(c, Widen(b));
    LowByte(x);
    TableStep(x);
    ByteShiftsAway(c, b);
    TableEntry(table, Low8(x));
    Xor(Down8(c), table[Low8(x) as int])
  }

  lemma TableEntry(table: seq<bv32>, x: bv32)
    requires IsTable(table) && 0 <= x as int < 256 && (x as int) as bv32 == x
    ensures |table| == 256 && table[x as int] == ShiftN(x, 8)
  {
    hide ShiftN;
  }

  class Hasher {
    const table: seq<bv32>
    var crc: bv32
    ghost var fed: seq<Byte>

    /** The register is what bit-by-bit division leaves of the bytes fed since the reset. */
    ghost predicate Valid()
      reads this
    {
      IsTable(table) && crc == Register(ONES, fed)
    }

    constructor ()
      ensures Valid() && fed == []
    {
      var t := InitTable();
      crc, table, fed := ONES, t, [];
    }

    method Reset()
      requires Valid()
      modifies this
      ensures Valid() && fed == []
    {
      crc, fed := ONES, [];
    }

    /** update, byte by byte through the table. */
    method Update(data: seq<Byte>)
      requires Valid()
      modifies this
      ensures Valid() && fed == old(fed) + data
    {
      hide *;
      ghost var before := fed;
      Facts();
      assert before + data[..0] == before;
      for i := 0 to |data|
        invariant IsTable(table) && fed == before + data[..i] && crc == Register(ONES, fed)
      {
        RegisterAppend(ONES, fed, data[i]);
        crc := TableUpdate(table, crc, data[i]);
        fed := fed + [data[i]];
        assert data[..i + 1] == data[..i] + [data[i]];
      }
      assert data[..|data|] == data;
      Established();
    }

    lemma Facts()
      requires Valid()
      ensures IsTable(table) && crc == Register(ONES, fed)
    {
    }

    lemma Established()
      requires IsTable(table) && crc == Register(ONES, fed)
      ensures Valid()
    {
    }

    /** finalize: the checksum of everything fed since the reset. */
    method Finalize() returns (r: bv32)
      requires Valid()
      ensures r == Checksum(fed)
    {
      hide Register;
      r := crc ^ ONES;
    }
  }

  /** CRC32::calculate: the table-driven checksum is the reference checksum. */
  method Calculate(data: seq<Byte>) returns (r: bv32)
    ensures r == Checksum(data)
  {
    hide Register, Xor, Checksum;
    var h := new Hasher();
    h.Update(data);
    assert [] + data == data;
    r := h.Finalize();
  }

  function Concat(parts: seq<seq<Byte>>): seq<Byte> {
    if parts == [] then [] else Concat(parts[..|parts| - 1]) + parts[|parts| - 1]
  }

  /** Feeding the data in any pieces gives the checksum of the whole. */
  method CalculateInParts(parts: seq<seq<Byte>>) returns (r: bv32)
    ensures r == Checksum(Concat(parts))
  {
    hide Register, Xor, Checksum, Hasher.Valid;
    var h := new Hasher();
    for i := 0 to |parts|
      invariant h.Valid() && h.fed == Concat(parts[..i])
    {
      h.Update(parts[i]);
      assert parts[..i + 1][..i] == parts[..i];
    }
    assert parts[..|parts|] == parts;
    r := h.Finalize();
  }

  /** The second copy, crc32() in src/file_transfer.cpp, computes the same function. */
  method TransferCrc(data: seq<Byte>) returns (r: bv32)
    ensures r == Checksum(data)
  {
    hide ShiftN, Register, Xor, IsTable, Widen, Low8, Down8;
    var table := InitTable();
    var c: bv32 := ONES;
    RegisterStep(c, 0, []);
    for i := 0 to |data|
      invariant c == Register(ONES, data[..i])
    {
      RegisterAppend(ONES, data[..i], data[i]);
      assert data[..i + 1] == data[..i] + [data[i]];
      var x := Xor(c, Widen(data[i]));
      LowByte(x);
      TableEntry(table, Low8(x));
      XorCommutes(table[Low8(x) as int], Down8(c));
      TableStep(x);
      ByteShiftsAway(c, data[i]);
      c := Xor(table[Low8(x) as int], Down8(c));
    }
    assert data[..|data|] == data;
    r := Xor(c, ONES);
  }
}
