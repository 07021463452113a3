/** The binary frame of a file-transfer chunk (src/file_transfer.cpp): magic, id length, id,
    file index, offset, data length, CRC, data. */
module ChunkFrame {
  import opened Casts
  import opened Wire
  import Bits

  const MAGIC: Bytes := [0x52, 0x46, 0x54, 0x31]

  datatype Chunk = Chunk(id: Bytes, fileIndex: U32, offset: U64, data: Bytes, crc: U32)

  /** What the widths of the length fields allow. */
  predicate Framable(c: Chunk) { |c.id| < 0x1_0000 && |c.data| < 0x1_0000_0000 }

  /** The n low bytes of v, most significant first. */
  function BigEndian(v: nat, n: nat): (r: Bytes)
    ensures |r| == n
  {
    if n == 0 then [] else BigEndian(v / 256, n - 1) + [Bits.ToByte(v % 256)]
  }

  function Number(s: Bytes): nat {
    if s == [] then 0 else Number(s[..|s| - 1]) * 256 + Bits.ByteValue(s[|s| - 1])
  }

  function Power256(n: nat): nat { if n == 0 then 1 else 256 * Power256(n - 1) }

  lemma {:induction false} NumberOfBigEndian(v: nat, n: nat)
    requires v < Power256(n)
    ensures Number(BigEndian(v, n)) == v
    decreases n
  {
    hide Bits.ToByte, Bits.ByteValue;
    if n > 0 {
      NumberOfBigEndian(v / 256, n - 1);
      Bits.ByteRoundTrip(v % 256);
      assert BigEndian(v, n)[..n - 1] == BigEndian(v / 256, n - 1);
    }
  }

  lemma {:induction false} BigEndianOfNumber(s: Bytes)
    ensures BigEndian(Number(s), |s|) == s
  {
    hide Bits.ToByte, Bits.ByteValue;
    if s != [] {
      var init, b := s[..|s| - 1], s[|s| - 1];
      BigEndianOfNumber(init);
      ByteBack(b);
      Append(Number(init), b, |init|);
      assert s == init + [b];
    }
  }

  lemma Append(q: nat, b: Byte, n: nat)
    ensures BigEndian(q * 256 + Bits.ByteValue(b), n + 1) == BigEndian(q, n) + [b]
  {
    hide Bits.ToByte, Bits.ByteValue;
    ByteBack(b);
    Split(q, Bits.ByteValue(b));
  }

  lemma {:induction false} NumberBound(s: Bytes)
    ensures Number(s) < Power256(|s|)
  {
    hide Bits.ByteValue;
    if s != [] {
      NumberBound(s[..|s| - 1]);
      ByteBack(s[|s| - 1]);
    }
  }

  lemma Split(q: nat, r: nat)
    requires r < 256
    ensures (q * 256 + r) / 256 == q && (q * 256 + r) % 256 == r
  {
  }

  lemma SameByte(a: Byte, b: Byte)
    requires Bits.ByteValue(a) == Bits.ByteValue(b)
    ensures a == b
  {
  }

  lemma ByteBack(b: Byte)
    ensures Bits.ByteValue(b) < 256 && Bits.ToByte(Bits.ByteValue(b)) == b
  {
    hide Bits.ToByte;
    Bits.ByteRoundTrip(Bits.ByteValue(b));
    SameByte(b, Bits.ToByte(Bits.ByteValue(b)));
  }

  /** v >> 8k */
  function Down(v: nat, k: nat): nat
    decreases k
  {
    if k == 0 then v else Down(v / 256, k - 1)
  }

  lemma {:induction false} DownStep(v: nat, k: nat)
    ensures Down(v, k + 1) == Down(v, k) / 256
    decreases k
  {
    if k > 0 { DownStep(v / 256, k - 1); }
  }

  /** put_u64. */
  method Put64(v: U64) returns (r: Bytes)
    ensures r == BigEndian(v, 8)
  {
    hide Bits.ToByte, Down;
    r := [];
    var k := 8;
    while k > 0
      invariant 0 <= k <= 8 && r == BigEndian(Down(v, k), 8 - k)
    {
      k := k - 1;
      DownStep(v, k);
      r := r + [Bits.ToByte(Down(v, k) % 256)];
    }
    NothingShifted(v);
  }

  lemma NothingShifted(v: nat)
    ensures Down(v, 0) == v
  {
  }

  /** get_u64. */
  method Get64(s: Bytes) returns (v: nat)
    requires |s| == 8
    ensures v == Number(s)
  {
    hide Bits.ByteValue;
    v := 0;
    for i := 0 to 8
      invariant v == Number(s[..i])
    {
      assert s[..i + 1][..i] == s[..i];
      v := v * 256 + Bits.ByteValue(s[i]);
    }
    assert s[..8] == s;
  }

  // ----- frames

  function Header(c: Chunk): Bytes
    requires Framable(c)
  {
    BigEndian(c.fileIndex, 4) + (BigEndian(c.offset, 8) + (BigEndian(|c.data|, 4) + BigEndian(c.crc, 4)))
  }

  function Frame(c: Chunk): Bytes
    requires Framable(c)
  {
    MAGIC + (BigEndian(|c.id|, 2) + (c.id + (Header(c) + c.data)))
  }

  /** NotOurs is the false return, Dropped a malformed frame. */
  datatype Parsed = NotOurs | Dropped | Delivered(c: Chunk)

  /** handle_binary_data. */
  function Parse(f: Bytes): Parsed {
    if |f| < 4 || f[..4] != MAGIC then NotOurs
    else if 6 > |f| then Dropped
    else
      var idLength := Number(f[4..6]);
      if 6 + idLength > |f| then Dropped
      else
        var pos := 6 + idLength;
        if pos + 20 > |f| then Dropped
        else if pos + 20 + Number(f[pos + 12..pos + 16]) != |f| then Dropped
        else
          Bounds(f[pos..pos + 4], f[pos + 4..pos + 12], f[pos + 16..pos + 20]);
          Delivered(Chunk(f[6..pos], Number(f[pos..pos + 4]), Number(f[pos + 4..pos + 12]), f[pos + 20..],
                          Number(f[pos + 16..pos + 20])))
  }

  lemma Powers()
    ensures Power256(2) == 0x1_0000 && Power256(4) == 0x1_0000_0000 && Power256(8) == 0x1_0000_0000_0000_0000
  {
    assert Power256(6) == 0x1_0000_0000_0000;
  }

  lemma Bounds(a: Bytes, b: Bytes, c: Bytes)
    requires |a| == 4 && |b| == 8 && |c| == 4
    ensures Number(a) < 0x1_0000_0000 && Number(b) < 0x1_0000_0000_0000_0000 && Number(c) < 0x1_0000_0000
  {
    hide Number, BigEndian, Power256;
    Powers();
    NumberBound(a);
    NumberBound(b);
    NumberBound(c);
  }

  lemma HeaderParts(c: Chunk)
    requires Framable(c)
    ensures var h := Header(c);
            && |h| == 20 && h[..4] == BigEndian(c.fileIndex, 4) && h[4..12] == BigEndian(c.offset, 8)
            && h[12..16] == BigEndian(|c.data|, 4) && h[16..20] == BigEndian(c.crc, 4)
  {
    hide BigEndian;
    BigEndianLength(c.fileIndex, 4);
    BigEndianLength(c.offset, 8);
    BigEndianLength(|c.data|, 4);
    BigEndianLength(c.crc, 4);
  }

  lemma BigEndianLength(v: nat, n: nat)
    ensures |BigEndian(v, n)| == n
  {
  }

  lemma FrameParts(c: Chunk)
    requires Framable(c)
    ensures var f := Frame(c);
            var pos := 6 + |c.id|;
            && |f| == pos + 20 + |c.data|
            && f[..4] == MAGIC && f[4..6] == BigEndian(|c.id|, 2) && f[6..pos] == c.id
            && f[pos..pos + 20] == Header(c) && f[pos + 20..] == c.data
  {
    hide BigEndian, Header;
    BigEndianLength(|c.id|, 2);
    HeaderParts(c);
  }

  /** Every chunk arrives as it was framed. */
  lemma FrameRoundTrip(c: Chunk)
    requires Framable(c)
    ensures Parse(Frame(c)) == Delivered(c)
  {
    hide BigEndian, Header, Number, Frame, Power256;
    Powers();
    FrameParts(c);
    HeaderParts(c);
    NumberOfBigEndian(|c.id|, 2);
    NumberOfBigEndian(c.fileIndex, 4);
    NumberOfBigEndian(c.offset, 8);
    NumberOfBigEndian(|c.data|, 4);
    NumberOfBigEndian(c.crc, 4);
    var f, pos := Frame(c), 6 + |c.id|;
    SubSlice(f, pos, pos + 20, 0, 4);
    SubSlice(f, pos, pos + 20, 4, 12);
    SubSlice(f, pos, pos + 20, 12, 16);
    SubSlice(f, pos, pos + 20, 16, 20);
  }

  lemma SubSlice(f: Bytes, lo: nat, hi: nat, a: nat, b: nat)
    requires a <= b && lo + b <= hi <= |f|
    ensures f[lo..hi][a..b] == f[lo + a..lo + b]
  {
    forall k | 0 <= k < b - a ensures f[lo..hi][a..b][k] == f[lo + a..lo + b][k] {
    }
  }

  /** And nothing else is delivered: a frame that yields c is the frame of c. */
  lemma OnlyFramesAreDelivered(f: Bytes)
    requires Parse(f).Delivered?
    ensures Framable(Parse(f).c) && f == Frame(Parse(f).c)
  {
    var c := Parse(f).c;
    hide Number, BigEndian, Power256, Header;
    var pos := 6 + Number(f[4..6]);
    var tail := f[pos..];
    Powers();
    NumberBound(f[4..6]);
    NumberBound(tail[12..16]);
    BigEndianOfNumber(f[4..6]);
    assert f[pos..pos + 4] == tail[..4] && f[pos + 4..pos + 12] == tail[4..12];
    assert f[pos + 12..pos + 16] == tail[12..16] && f[pos + 16..pos + 20] == tail[16..20]
           && f[pos + 20..] == tail[20..];
    HeaderOf(tail, c);
    Pieces(f, pos);
  }

  lemma HeaderOf(tail: Bytes, c: Chunk)
    requires Framable(c) && |tail| >= 20 && Number(tail[12..16]) == |c.data|
    requires c.fileIndex == Number(tail[..4]) && c.offset == Number(tail[4..12]) && c.crc == Number(tail[16..20])
    ensures tail[..20] == Header(c)
  {
    hide Number, BigEndian;
    BigEndianOfNumber(tail[..4]);
    BigEndianOfNumber(tail[4..12]);
    BigEndianOfNumber(tail[12..16]);
    BigEndianOfNumber(tail[16..20]);
    assert tail[..20] == tail[..4] + (tail[4..12] + (tail[12..16] + tail[16..20]));
  }

  lemma Pieces(f: Bytes, pos: nat)
    requires 6 <= pos && pos + 20 <= |f|
    ensures f == f[..4] + (f[4..6] + (f[6..pos] + (f[pos..][..20] + f[pos..][20..])))
  {
    assert f[pos..] == f[pos..][..20] + f[pos..][20..];
    assert f[6..] == f[6..pos] + f[pos..];
    assert f[4..] == f[4..6] + f[6..];
  }

  /** The frame that run_send builds. */
  method BuildFrame(c: Chunk) returns (frame: Bytes)
    requires Framable(c)
    ensures frame == Frame(c) && Parse(frame) == Delivered(c)
  {
    hide BigEndian, Parse;
    frame := MAGIC;
    frame := frame + BigEndian(|c.id|, 2);
    frame := frame + c.id;
    frame := frame + BigEndian(c.fileIndex, 4);
    var offset := Put64(c.offset);
    frame := frame + offset;
    frame := frame + BigEndian(|c.data|, 4);
    frame := frame + BigEndian(c.crc, 4);
    frame := frame + c.data;
    assert frame == Frame(c);
    FrameRoundTrip(c);
  }
}
