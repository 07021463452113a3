/** The packed-word bitfield of src/bt_bitfield.cpp refines a sequence of booleans. */
module Bitfields {
  import opened Bits
  import opened Popcount

  function WordsFor(n: nat): nat { (n + 31) / 32 }

  /** Bit i of a word vector; words past the end read as zero. */
  predicate WordBit(data: seq<Word>, i: nat) {
    i / 32 < |data| && BitAt(data[i / 32], i % 32)
  }

  /** Exactly as many words as needed, and no bit set past the end. */
  ghost predicate ValidData(data: seq<Word>, n: nat) {
    |data| == WordsFor(n) && forall i: nat :: WordBit(data, i) ==> i < n
  }

  function BitsOf(data: seq<Word>, n: nat): (bits: seq<bool>)
    ensures |bits| == n
  {
    seq(n, i requires 0 <= i => WordBit(data, i))
  }

  // ----- the operations on booleans

  function AtOr(bits: seq<bool>, i: nat): bool { i < |bits| && bits[i] }

  function AndBits(a: seq<bool>, b: seq<bool>): seq<bool> {
    seq(|a|, i requires 0 <= i < |a| => a[i] && AtOr(b, i))
  }

  function OrBits(a: seq<bool>, b: seq<bool>): seq<bool> {
    seq(|a|, i requires 0 <= i < |a| => a[i] || AtOr(b, i))
  }

  function XorBits(a: seq<bool>, b: seq<bool>): seq<bool> {
    seq(|a|, i requires 0 <= i < |a| => a[i] != AtOr(b, i))
  }

  function NotBits(a: seq<bool>): seq<bool> {
    seq(|a|, i requires 0 <= i < |a| => !a[i])
  }

  function Resized(a: seq<bool>, n: nat, value: bool): seq<bool> {
    seq(n, i requires 0 <= i < n => if i < |a| then a[i] else value)
  }

  function CountTrue(bits: seq<bool>): nat {
    if bits == [] then 0 else CountTrue(bits[..|bits| - 1]) + if bits[|bits| - 1] then 1 else 0
  }

  // ----- words and bits

  lemma BitsAgree(data: seq<Word>, n: nat, bits: seq<bool>)
    requires |bits| == n && forall i: nat :: i < n ==> (WordBit(data, i) <==> bits[i])
    ensures BitsOf(data, n) == bits
  {
    hide WordBit;
  }

  /** The bits of two vectors of the same length agree exactly when their words do. */
  lemma SameBitsSameWords(a: seq<Word>, b: seq<Word>, n: nat)
    requires ValidData(a, n) && ValidData(b, n)
    ensures BitsOf(a, n) == BitsOf(b, n) <==> a == b
  {
    hide BitAt;
    if BitsOf(a, n) == BitsOf(b, n) {
      forall j | 0 <= j < |a| ensures a[j] == b[j] {
        forall k | 0 <= k < 32 ensures BitAt(a[j], k) == BitAt(b[j], k) {
          var i := 32 * j + k;
          assert i / 32 == j && i % 32 == k;
          assert WordBit(a, i) == BitAt(a[j], k) && WordBit(b, i) == BitAt(b[j], k);
          if i < n { assert BitsOf(a, n)[i] == BitsOf(b, n)[i]; }
        }
        SameBits(a[j], b[j]);
      }
    }
  }

  // ----- counting

  /** Set bits in the first n words. */
  function OnesIn(data: seq<Word>, n: nat): nat
    requires n <= |data|
  {
    if n == 0 then 0 else OnesIn(data, n - 1) + OnesUpTo(data[n - 1], 32)
  }

  lemma CountNext(data: seq<Word>, n: nat)
    ensures CountTrue(BitsOf(data, n + 1)) == CountTrue(BitsOf(data, n)) + if WordBit(data, n) then 1 else 0
  {
    hide WordBit;
    assert BitsOf(data, n + 1)[..n] == BitsOf(data, n);
  }

  lemma {:induction false} CountWithinWord(data: seq<Word>, j: nat, k: nat)
    requires j < |data| && k <= 32
    requires CountTrue(BitsOf(data, 32 * j)) == OnesIn(data, j)
    ensures CountTrue(BitsOf(data, 32 * j + k)) == OnesIn(data, j) + OnesUpTo(data[j], k)
    decreases k
  {
    hide BitAt, OnesIn, BitsOf, CountTrue;
    if k > 0 {
      CountWithinWord(data, j, k - 1);
      CountNext(data, 32 * j + k - 1);
      assert (32 * j + k - 1) / 32 == j && (32 * j + k - 1) % 32 == k - 1;
    }
  }

  lemma CountNone(data: seq<Word>)
    ensures CountTrue(BitsOf(data, 0)) == 0
  {
    assert BitsOf(data, 0) == [];
  }

  lemma {:induction false} CountWords(data: seq<Word>, j: nat)
    requires j <= |data|
    ensures CountTrue(BitsOf(data, 32 * j)) == OnesIn(data, j)
  {
    hide BitsOf, CountTrue, OnesUpTo;
    CountNone(data);
    if j > 0 {
      CountWords(data, j - 1);
      CountWithinWord(data, j - 1, 32);
    }
  }

  /** Clear bits at the end do not count. */
  lemma {:induction false} CountPrefix(data: seq<Word>, n: nat, m: nat)
    requires n <= m && forall i: nat :: WordBit(data, i) ==> i < n
    ensures CountTrue(BitsOf(data, m)) == CountTrue(BitsOf(data, n))
    decreases m
  {
    hide WordBit;
    if n < m {
      CountPrefix(data, n, m - 1);
      assert BitsOf(data, m)[..m - 1] == BitsOf(data, m - 1);
      assert !WordBit(data, m - 1);
    }
  }

  /** Masking tells whether the first t bits of word w are all set. */
  lemma FullHead(data: seq<Word>, w: nat, t: nat)
    requires w < |data| && t <= 32
    ensures And(data[w], HeadMask(t)) == HeadMask(t) <==> forall i: nat :: 32 * w <= i < 32 * w + t ==> WordBit(data, i)
    ensures t == 32 ==> (data[w] == ONES <==> forall i: nat :: 32 * w <= i < 32 * w + 32 ==> WordBit(data, i))
  {
    hide BitAt, HeadMask, And;
    var x, m := data[w], HeadMask(t);
    forall k | 0 <= k < 32 ensures BitAt(And(x, m), k) <==> BitAt(x, k) && k < t {
      BitOps(x, m, k);
      BitOfHeadMask(t, k);
    }
    forall k | 0 <= k < 32 ensures BitAt(m, k) <==> k < t {
      BitOfHeadMask(t, k);
    }
    if forall i: nat :: 32 * w <= i < 32 * w + t ==> WordBit(data, i) {
      forall k | 0 <= k < t ensures BitAt(x, k) {
        WordBitAt(data, w, k);
      }
      SameBits(And(x, m), m);
    }
    if And(x, m) == m {
      forall i: nat | 32 * w <= i < 32 * w + t ensures WordBit(data, i) {
        WordBitAt(data, w, i - 32 * w);
      }
    }
    if t == 32 {
      HeadMaskAll();
      AndOnes(x);
    }
  }

  lemma WordCount(data: seq<Word>, n: nat)
    requires ValidData(data, n)
    ensures |data| == WordsFor(n)
  {
  }

  lemma ClearBitIn(data: seq<Word>, w: nat, t: nat) returns (i: nat)
    requires !(forall i: nat :: 32 * w <= i < 32 * w + t ==> WordBit(data, i))
    ensures 32 * w <= i < 32 * w + t && !WordBit(data, i)
  {
    hide WordBit;
    i :| 32 * w <= i < 32 * w + t && !WordBit(data, i);
  }

  lemma WordBitAt(data: seq<Word>, w: nat, k: nat)
    requires w < |data| && k < 32
    ensures WordBit(data, 32 * w + k) <==> BitAt(data[w], k)
  {
    hide BitAt;
    assert (32 * w + k) / 32 == w && (32 * w + k) % 32 == k;
  }

  lemma AndOnes(x: Word)
    ensures And(x, ONES) == x
  {
  }

  lemma ZeroWordBits(data: seq<Word>, w: nat)
    requires w < |data| && data[w] == ZERO
    ensures forall i: nat :: 32 * w <= i < 32 * w + 32 ==> !WordBit(data, i)
  {
    hide BitAt;
    forall i: nat | 32 * w <= i < 32 * w + 32 ensures !WordBit(data, i) {
      BitOps(ZERO, ZERO, i % 32);
    }
  }

  lemma CountIsOnes(data: seq<Word>, n: nat)
    requires ValidData(data, n)
    ensures OnesIn(data, |data|) == CountTrue(BitsOf(data, n))
  {
    CountWords(data, |data|);
    CountPrefix(data, n, 32 * |data|);
  }

  class Bitfield {
    var data: seq<Word>
    var numBits: nat

    ghost predicate Valid()
      reads this
    {
      ValidData(data, numBits)
    }

    ghost function View(): seq<bool>
      reads this
    {
      BitsOf(data, numBits)
    }

    constructor (n: nat, initial: bool)
      ensures Valid() && View() == seq(n, _ => initial)
    {
      numBits := n;
      data := seq(WordsFor(n), _ => if initial then ONES else ZERO);
      new;
      FilledBits(data, n, initial);
      if initial {
        ClearTrailingBits();
      }
      BitsAgree(data, n, seq(n, _ => initial));
    }

    /** Masks the last word; the bits below the end stay. */
    method ClearTrailingBits()
      requires |data| == WordsFor(numBits)
      modifies this`data
      ensures Valid()
      ensures forall i: nat :: i < numBits ==> (WordBit(data, i) <==> old(WordBit(data, i)))
    {
      hide WordBit;
      if numBits == 0 {
        NoWords(data);
        return;
      }
      var trailing := numBits % 32;
      if trailing > 0 {
        TrimmedBits(data, numBits);
        data := Trimmed(data, numBits);
      } else {
        FullWords(data, numBits);
      }
    }

    method SetBit(i: nat)
      requires Valid()
      modifies this`data
      ensures Valid()
      ensures View() == if i < numBits then old(View())[i := true] else old(View())
    {
      if i < numBits {
        SetBits(data, numBits, i);
        data := WithBit(data, i);
      }
    }

    method ClearBit(i: nat)
      requires Valid()
      modifies this`data
      ensures Valid()
      ensures View() == if i < numBits then old(View())[i := false] else old(View())
    {
      if i < numBits {
        ClearBits(data, numBits, i);
        data := WithoutBit(data, i);
      }
    }

    method GetBit(i: nat) returns (b: bool)
      requires Valid()
      ensures b == AtOr(View(), i)
    {
      if i >= numBits {
        return false;
      }
      TestMask(data[i / 32], i % 32);
      b := And(data[i / 32], Mask(i % 32)) != ZERO;
    }

    method SetAll()
      requires Valid()
      modifies this`data
      ensures Valid() && View() == seq(numBits, _ => true)
    {
      data := seq(|data|, _ => ONES);
      FilledBits(data, numBits, true);
      ClearTrailingBits();
      BitsAgree(data, numBits, seq(numBits, _ => true));
    }

    method ClearAll()
      requires Valid()
      modifies this`data
      ensures Valid() && View() == seq(numBits, _ => false)
    {
      data := seq(|data|, _ => ZERO);
      FilledBits(data, numBits, false);
      BitsAgree(data, numBits, seq(numBits, _ => false));
    }

    /** operator&=: words past the other's end become zero. */
    method AndWith(other: Bitfield)
      requires Valid() && other.Valid()
      modifies this`data
      ensures Valid() && View() == AndBits(old(View()), old(other.View()))
    {
      var o := other.data;
      ghost var m := other.numBits;
      var words := if |data| <= |o| then |data| else |o|;
      ghost var before := data;
      for k := 0 to words
        invariant |data| == |before|
        invariant forall j :: 0 <= j < k ==> data[j] == And(before[j], o[j])
        invariant forall j :: k <= j < |data| ==> data[j] == before[j]
      {
        data := data[k := And(data[k], o[k])];
      }
      for k := words to |data|
        invariant |data| == |before|
        invariant forall j :: 0 <= j < words ==> data[j] == And(before[j], o[j])
        invariant forall j :: words <= j < k ==> data[j] == ZERO
      {
        data := data[k := ZERO];
      }
      AndedBits(before, numBits, o, m, data);
    }

    /** operator|=. */
    method OrWith(other: Bitfield)
      requires Valid() && other.Valid()
      modifies this`data
      ensures Valid() && View() == OrBits(old(View()), old(other.View()))
    {
      var o := other.data;
      ghost var m := other.numBits;
      var words := if |data| <= |o| then |data| else |o|;
      ghost var before := data;
      for k := 0 to words
        invariant |data| == |before|
        invariant forall j :: 0 <= j < k ==> data[j] == Or(before[j], o[j])
        invariant forall j :: k <= j < |data| ==> data[j] == before[j]
      {
        data := data[k := Or(data[k], o[k])];
      }
      OredBits(before, numBits, o, m, data);
      ClearTrailingBits();
      BitsAgree(data, numBits, OrBits(BitsOf(before, numBits), BitsOf(o, m)));
    }

    /** operator^=. */
    method XorWith(other: Bitfield)
      requires Valid() && other.Valid()
      modifies this`data
      ensures Valid() && View() == XorBits(old(View()), old(other.View()))
    {
      var o := other.data;
      ghost var m := other.numBits;
      var words := if |data| <= |o| then |data| else |o|;
      ghost var before := data;
      for k := 0 to words
        invariant |data| == |before|
        invariant forall j :: 0 <= j < k ==> data[j] == Xor(before[j], o[j])
        invariant forall j :: k <= j < |data| ==> data[j] == before[j]
      {
        data := data[k := Xor(data[k], o[k])];
      }
      XoredBits(before, numBits, o, m, data);
      ClearTrailingBits();
      BitsAgree(data, numBits, XorBits(BitsOf(before, numBits), BitsOf(o, m)));
    }

    /** operator~. */
    method Complement() returns (r: Bitfield)
      requires Valid()
      ensures fresh(r) && r.Valid() && r.View() == NotBits(View())
    {
      r := new Bitfield(numBits, false);
      var words := data;
      r.data := seq(|words|, j requires 0 <= j < |words| => Not(words[j]));
      NegatedBits(data, numBits, r.data);
      r.ClearTrailingBits();
      BitsAgree(r.data, numBits, NotBits(BitsOf(data, numBits)));
    }

    /** has_bits_not_in: some bit is set here and not there. */
    method HasBitsNotIn(other: Bitfield) returns (b: bool)
      requires Valid() && other.Valid()
      ensures b <==> exists i: nat :: AtOr(View(), i) && !AtOr(other.View(), i)
    {
      hide AtOr, BitsOf, ValidData;
      var o := other.data;
      var words := if |data| <= |o| then |data| else |o|;
      for k := 0 to words
        invariant forall j :: 0 <= j < k ==> And(data[j], Not(o[j])) == ZERO
      {
        if And(data[k], Not(o[k])) != ZERO {
          ghost var i := DifferenceFound(data, numBits, o, other.numBits, k);
          assert AtOr(View(), i) && !AtOr(other.View(), i);
          return true;
        }
      }
      for k := words to |data|
        invariant forall j :: words <= j < k ==> data[j] == ZERO
      {
        if data[k] != ZERO {
          ghost var i := DifferenceFound(data, numBits, o, other.numBits, k);
          assert AtOr(View(), i) && !AtOr(other.View(), i);
          return true;
        }
      }
      NoDifference(data, numBits, o, other.numBits);
      b := false;
    }

    method NoneSet() returns (b: bool)
      requires Valid()
      ensures b <==> forall i: nat :: !AtOr(View(), i)
    {
      hide AtOr, BitsOf, ValidData;
      for k := 0 to |data|
        invariant forall j :: 0 <= j < k ==> data[j] == ZERO
      {
        if data[k] != ZERO {
          ghost var i := NonzeroWord(data, numBits, k);
          assert AtOr(View(), i);
          return false;
        }
      }
      AllZeroWords(data, numBits);
      b := true;
    }

    /** count: the number of set bits. */
    method Count() returns (n: nat)
      requires Valid()
      ensures n == CountTrue(View())
    {
      hide Val, Popcount32, OnesUpTo, BitsOf;
      n := 0;
      for k := 0 to |data|
        invariant n == OnesIn(data, k)
      {
        PopcountCounts(data[k]);
        n := n + Val(Popcount32(data[k]));
      }
      CountIsOnes(data, numBits);
    }

    /** all_set: whole words first, then the tail of the last one. */
    method AllSet() returns (b: bool)
      requires Valid()
      ensures b <==> forall i :: 0 <= i < numBits ==> View()[i]
    {
      hide BitAt, HeadMask, WordBit, ValidData;
      WordCount(data, numBits);
      var complete := numBits / 32;
      for w := 0 to complete
        invariant forall i: nat :: i < 32 * w ==> WordBit(data, i)
      {
        FullHead(data, w, 32);
        if data[w] != ONES {
          ghost var i := ClearBitIn(data, w, 32);
          assert !View()[i];
          return false;
        }
      }
      var remaining := numBits % 32;
      if remaining > 0 {
        FullHead(data, complete, remaining);
        if And(data[complete], HeadMask(remaining)) != HeadMask(remaining) {
          ghost var i := ClearBitIn(data, complete, remaining);
          assert !View()[i];
          return false;
        }
      }
      b := true;
    }

    /** find_first_set: the least set bit, or the size. */
    method FindFirstSet() returns (r: nat)
      requires Valid()
      ensures r <= numBits && (r < numBits ==> View()[r])
      ensures forall i :: 0 <= i < r ==> !View()[i]
    {
      hide BitAt, Mask;
      for w := 0 to |data|
        invariant forall i: nat :: i < 32 * w ==> !WordBit(data, i)
      {
        if data[w] != ZERO {
          for b := 0 to 32
            invariant forall i: nat :: i < 32 * w + b ==> !WordBit(data, i)
          {
            var at := w * 32 + b;
            if at >= numBits {
              return numBits;
            }
            TestMask(data[w], b);
            assert at / 32 == w && at % 32 == b;
            if And(data[w], Mask(b)) != ZERO {
              return at;
            }
          }
        } else {
          ZeroWordBits(data, w);
        }
      }
      r := numBits;
    }

    /** operator==: equal words mean equal bits. */
    method Equals(other: Bitfield) returns (b: bool)
      requires Valid() && other.Valid()
      ensures b <==> View() == other.View()
    {
      if numBits != other.numBits {
        return false;
      }
      SameBitsSameWords(data, other.data, numBits);
      b := data == other.data;
    }

    method Resize(n: nat, value: bool)
      requires Valid()
      modifies this
      ensures Valid() && View() == Resized(old(View()), n, value)
    {
      hide WordBit, Or, Mask;
      var oldSize := numBits;
      ghost var before := data;
      numBits := n;
      var words := WordsFor(n);
      data := if words <= |data| then data[..words]
              else data + seq(words - |data|, _ => if value then ONES else ZERO);
      ResizedWords(before, oldSize, n, value, data);
      if n > oldSize && value {
        ghost var grown := data;
        for i := oldSize to n
          invariant |data| == words && numBits == n
          invariant forall k: nat :: k < oldSize ==> (WordBit(data, k) <==> WordBit(grown, k))
          invariant forall k: nat :: oldSize <= k < i ==> WordBit(data, k)
        {
          forall k: nat ensures WordBit(WithBit(data, i), k) <==> (k == i || WordBit(data, k)) {
            SetOneBit(data, i, k);
          }
          data := WithBit(data, i);
        }
      }
      ClearTrailingBits();
      BitsAgree(data, n, Resized(BitsOf(before, oldSize), n, value));
    }

    /** to_bytes: eight bits to a byte, most significant first. */
    method ToBytes() returns (bytes: seq<Byte>)
      requires Valid()
      ensures bytes == Pack(View())
    {
      hide BitAt;
      bytes := ZeroBytes((numBits + 7) / 8);
      for i := 0 to numBits
        invariant bytes == PackUpTo(View(), i)
      {
        var b := GetBit(i);
        if b {
          bytes := bytes[i / 8 := Or8(bytes[i / 8], Mask8(i % 8))];
        }
      }
    }
  }

  /** from_bytes. */
  method FromBytes(bytes: seq<Byte>, n: nat) returns (bf: Bitfield)
    ensures fresh(bf) && bf.Valid() && bf.View() == Unpack(bytes, n)
  {
    hide BitAt8, ValidData, BitsOf;
    bf := new Bitfield(n, false);
    var copied := if n <= |bytes| * 8 then n else |bytes| * 8;
    for i := 0 to copied
      invariant bf.Valid() && bf.numBits == n && fresh(bf)
      invariant |bf.View()| == n && forall k :: 0 <= k < n ==> (bf.View()[k] <==> k < i && PackedBit(bytes, k))
    {
      TestMask8(bytes[i / 8], i % 8);
      if And8(bytes[i / 8], Mask8(i % 8)) != 0 {
        bf.SetBit(i);
      }
    }
    assert bf.View() == Unpack(bytes, n);
  }

  /** from_bytes undoes to_bytes. */
  method RoundTrip(bf: Bitfield) returns (copy: Bitfield)
    requires bf.Valid()
    ensures copy.Valid() && copy.View() == bf.View()
  {
    var bytes := bf.ToBytes();
    copy := FromBytes(bytes, bf.numBits);
    PackRoundTrip(bf.View());
  }

  // ----- what the operations do to single bits

  lemma FilledBits(data: seq<Word>, n: nat, value: bool)
    requires |data| == WordsFor(n)
    requires forall j :: 0 <= j < |data| ==> data[j] == if value then ONES else ZERO
    ensures forall i: nat :: i < n ==> (WordBit(data, i) <==> value)
    ensures !value ==> ValidData(data, n)
  {
    hide BitAt;
    forall i: nat ensures WordBit(data, i) <==> value && i / 32 < |data| {
      if i / 32 < |data| {
        BitOfOnes(i % 32);
        BitOps(ZERO, ZERO, i % 32);
      }
    }
  }

  lemma NoWords(data: seq<Word>)
    requires data == []
    ensures ValidData(data, 0)
  {
  }

  lemma FullWords(data: seq<Word>, n: nat)
    requires |data| == WordsFor(n) && n % 32 == 0
    ensures ValidData(data, n)
  {
    hide BitAt;
  }

  /** The last word masked to the bits below the end. */
  function Trimmed(data: seq<Word>, n: nat): (r: seq<Word>)
    requires |data| == WordsFor(n) && n % 32 > 0
    ensures |r| == |data|
  {
    data[|data| - 1 := And(data[|data| - 1], HeadMask(n % 32))]
  }

  lemma TrimmedBit(data: seq<Word>, n: nat, i: nat)
    requires |data| == WordsFor(n) && n % 32 > 0
    ensures WordBit(Trimmed(data, n), i) <==> WordBit(data, i) && i < n
  {
    hide BitAt, And, HeadMask;
    var last, t := |data| - 1, n % 32;
    if i / 32 == last {
      BitOps(data[last], HeadMask(t), i % 32);
      BitOfHeadMask(t, i % 32);
    }
  }

  lemma TrimmedBits(data: seq<Word>, n: nat)
    requires |data| == WordsFor(n) && n % 32 > 0
    ensures ValidData(Trimmed(data, n), n)
    ensures forall i: nat :: i < n ==> (WordBit(Trimmed(data, n), i) <==> WordBit(data, i))
  {
    hide WordBit, Trimmed;
    forall i: nat ensures WordBit(Trimmed(data, n), i) <==> WordBit(data, i) && i < n {
      TrimmedBit(data, n, i);
    }
  }

  function WithBit(data: seq<Word>, i: nat): seq<Word>
    requires i / 32 < |data|
  {
    data[i / 32 := Or(data[i / 32], Mask(i % 32))]
  }

  lemma SetOneBit(data: seq<Word>, i: nat, k: nat)
    requires i / 32 < |data|
    ensures WordBit(WithBit(data, i), k) <==> (k == i || WordBit(data, k))
  {
    hide BitAt, Or, Mask;
    if k / 32 == i / 32 {
      BitOps(data[i / 32], Mask(i % 32), k % 32);
      BitOfMask(i % 32, k % 32);
    }
  }

  lemma SetBits(data: seq<Word>, n: nat, i: nat)
    requires ValidData(data, n) && i < n
    ensures ValidData(WithBit(data, i), n) && BitsOf(WithBit(data, i), n) == BitsOf(data, n)[i := true]
  {
    hide WordBit, Or, Mask;
    forall k: nat ensures WordBit(WithBit(data, i), k) <==> (k == i || WordBit(data, k)) {
      SetOneBit(data, i, k);
    }
  }

  function WithoutBit(data: seq<Word>, i: nat): seq<Word>
    requires i / 32 < |data|
  {
    data[i / 32 := And(data[i / 32], Not(Mask(i % 32)))]
  }

  lemma ClearOneBit(data: seq<Word>, i: nat, k: nat)
    requires i / 32 < |data|
    ensures WordBit(WithoutBit(data, i), k) <==> (k != i && WordBit(data, k))
  {
    hide BitAt, And, Not, Mask;
    if k / 32 == i / 32 {
      BitOps(data[i / 32], Not(Mask(i % 32)), k % 32);
      BitOfNot(Mask(i % 32), k % 32);
      BitOfMask(i % 32, k % 32);
    }
  }

  lemma ClearBits(data: seq<Word>, n: nat, i: nat)
    requires ValidData(data, n) && i < n
    ensures ValidData(WithoutBit(data, i), n) && BitsOf(WithoutBit(data, i), n) == BitsOf(data, n)[i := false]
  {
    hide WordBit, And, Not, Mask;
    forall k: nat ensures WordBit(WithoutBit(data, i), k) <==> (k != i && WordBit(data, k)) {
      ClearOneBit(data, i, k);
    }
  }

  lemma AndedBits(a: seq<Word>, n: nat, b: seq<Word>, m: nat, r: seq<Word>)
    requires ValidData(a, n) && ValidData(b, m) && |r| == |a|
    requires forall j :: 0 <= j < |a| ==> r[j] == if j < |b| then And(a[j], b[j]) else ZERO
    ensures ValidData(r, n) && BitsOf(r, n) == AndBits(BitsOf(a, n), BitsOf(b, m))
  {
    hide BitAt, And;
    forall i: nat ensures WordBit(r, i) <==> WordBit(a, i) && WordBit(b, i) {
      if i / 32 < |a| {
        if i / 32 < |b| { BitOps(a[i / 32], b[i / 32], i % 32); } else { BitOps(ZERO, ZERO, i % 32); }
      }
    }
    AndedView(a, n, b, m, r);
  }

  lemma AndedView(a: seq<Word>, n: nat, b: seq<Word>, m: nat, r: seq<Word>)
    requires ValidData(a, n) && ValidData(b, m) && |r| == |a|
    requires forall i: nat :: WordBit(r, i) <==> WordBit(a, i) && WordBit(b, i)
    ensures ValidData(r, n) && BitsOf(r, n) == AndBits(BitsOf(a, n), BitsOf(b, m))
  {
    hide WordBit;
  }

  lemma OredBits(a: seq<Word>, n: nat, b: seq<Word>, m: nat, r: seq<Word>)
    requires ValidData(a, n) && ValidData(b, m) && |r| == |a|
    requires forall j :: 0 <= j < |a| ==> r[j] == if j < |b| then Or(a[j], b[j]) else a[j]
    ensures forall i: nat :: i < n ==> (WordBit(r, i) <==> OrBits(BitsOf(a, n), BitsOf(b, m))[i])
  {
    hide BitAt, Or;
    forall i: nat | i < n ensures WordBit(r, i) <==> OrBits(BitsOf(a, n), BitsOf(b, m))[i] {
      if i / 32 < |b| { BitOps(a[i / 32], b[i / 32], i % 32); }
      assert WordBit(b, i) ==> i < m;
      assert AtOr(BitsOf(b, m), i) == WordBit(b, i);
    }
  }

  lemma XoredBits(a: seq<Word>, n: nat, b: seq<Word>, m: nat, r: seq<Word>)
    requires ValidData(a, n) && ValidData(b, m) && |r| == |a|
    requires forall j :: 0 <= j < |a| ==> r[j] == if j < |b| then Xor(a[j], b[j]) else a[j]
    ensures forall i: nat :: i < n ==> (WordBit(r, i) <==> XorBits(BitsOf(a, n), BitsOf(b, m))[i])
  {
    hide BitAt, Xor;
    forall i: nat | i < n ensures WordBit(r, i) <==> XorBits(BitsOf(a, n), BitsOf(b, m))[i] {
      if i / 32 < |b| { BitOps(a[i / 32], b[i / 32], i % 32); }
      assert WordBit(b, i) ==> i < m;
      assert AtOr(BitsOf(b, m), i) == WordBit(b, i);
    }
  }

  lemma NegatedBits(a: seq<Word>, n: nat, r: seq<Word>)
    requires ValidData(a, n) && |r| == |a| && forall j :: 0 <= j < |a| ==> r[j] == Not(a[j])
    ensures forall i: nat :: i < n ==> (WordBit(r, i) <==> NotBits(BitsOf(a, n))[i])
  {
    hide BitAt, Not;
    forall i: nat | i < n ensures WordBit(r, i) <==> NotBits(BitsOf(a, n))[i] {
      BitOfNot(a[i / 32], i % 32);
    }
  }

  lemma NonzeroBit(w: Word) returns (k: nat)
    requires w != ZERO
    ensures k < 32 && BitAt(w, k)
  {
    hide BitAt;
    if forall k :: 0 <= k < 32 ==> !BitAt(w, k) {
      forall k | 0 <= k < 32 ensures BitAt(w, k) == BitAt(ZERO, k) {
        BitOps(ZERO, ZERO, k);
      }
      SameBits(w, ZERO);
    }
    k :| 0 <= k < 32 && BitAt(w, k);
  }

  lemma NonzeroWord(data: seq<Word>, n: nat, j: nat) returns (i: nat)
    requires ValidData(data, n) && j < |data| && data[j] != ZERO
    ensures AtOr(BitsOf(data, n), i)
  {
    hide BitAt;
    var k := NonzeroBit(data[j]);
    i := 32 * j + k;
    assert i / 32 == j && i % 32 == k;
    assert WordBit(data, i);
  }

  lemma AllZeroWords(data: seq<Word>, n: nat)
    requires forall j :: 0 <= j < |data| ==> data[j] == ZERO
    ensures forall i: nat :: !AtOr(BitsOf(data, n), i)
  {
    hide BitAt;
    forall i: nat ensures !AtOr(BitsOf(data, n), i) {
      BitOps(ZERO, ZERO, i % 32);
    }
  }

  lemma DifferenceFound(a: seq<Word>, n: nat, b: seq<Word>, m: nat, j: nat) returns (i: nat)
    requires ValidData(a, n) && ValidData(b, m) && j < |a|
    requires if j < |b| then And(a[j], Not(b[j])) != ZERO else a[j] != ZERO
    ensures AtOr(BitsOf(a, n), i) && !AtOr(BitsOf(b, m), i)
  {
    hide BitAt, And, Not;
    var k := NonzeroBit(if j < |b| then And(a[j], Not(b[j])) else a[j]);
    if j < |b| {
      BitOps(a[j], Not(b[j]), k);
      BitOfNot(b[j], k);
    }
    i := 32 * j + k;
    assert i / 32 == j && i % 32 == k;
    assert WordBit(a, i) && !WordBit(b, i);
  }

  lemma NoDifference(a: seq<Word>, n: nat, b: seq<Word>, m: nat)
    requires ValidData(a, n) && ValidData(b, m)
    requires forall j :: 0 <= j < |a| ==> if j < |b| then And(a[j], Not(b[j])) == ZERO else a[j] == ZERO
    ensures forall i: nat :: AtOr(BitsOf(a, n), i) ==> AtOr(BitsOf(b, m), i)
  {
    hide BitAt, And, Not;
    forall i: nat | AtOr(BitsOf(a, n), i) ensures AtOr(BitsOf(b, m), i) {
      var j, k := i / 32, i % 32;
      BitOps(ZERO, ZERO, k);
      assert j < |b|;
      BitOps(a[j], Not(b[j]), k);
      BitOfNot(b[j], k);
      assert WordBit(b, i);
    }
  }

  lemma ResizedWords(a: seq<Word>, m: nat, n: nat, value: bool, r: seq<Word>)
    requires ValidData(a, m) && |r| == WordsFor(n)
    requires forall j :: 0 <= j < |r| ==> r[j] == if j < |a| then a[j] else if value then ONES else ZERO
    ensures forall i: nat :: i < n && (i < m || !value) ==> (WordBit(r, i) <==> Resized(BitsOf(a, m), n, value)[i])
  {
    hide BitAt;
    forall i: nat | i < n && (i < m || !value) ensures WordBit(r, i) <==> Resized(BitsOf(a, m), n, value)[i] {
      BitOps(ZERO, ZERO, i % 32);
      assert i >= m ==> !WordBit(a, i);
    }
  }
}
