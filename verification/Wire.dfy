/** Peer wire messages (src/bt_messages.cpp) and the handshake (src/bt_handshake.cpp). */
module Wire {
  import opened Wrappers
  import opened Casts
  import Bits

  type Byte = bv8
  type Bytes = seq<Byte>

  // ----- bytes and big-endian integers

  function Join(a: nat, b: nat, c: nat, d: nat): nat { ((a * 256 + b) * 256 + c) * 256 + d }

  function Write32(n: U32): (r: Bytes)
    ensures |r| == 4
  {
    [Bits.ToByte(n / 0x100_0000), Bits.ToByte(n / 0x1_0000 % 0x100), Bits.ToByte(n / 0x100 % 0x100),
     Bits.ToByte(n % 0x100)]
  }

  function Read32(d: Bytes): (r: U32)
    requires |d| >= 4
  {
    hide Bits.ByteValue, Join;
    JoinBound(Bits.ByteValue(d[0]), Bits.ByteValue(d[1]), Bits.ByteValue(d[2]), Bits.ByteValue(d[3]));
    Join(Bits.ByteValue(d[0]), Bits.ByteValue(d[1]), Bits.ByteValue(d[2]), Bits.ByteValue(d[3]))
  }

  lemma JoinBound(a: nat, b: nat, c: nat, d: nat)
    requires a < 256 && b < 256 && c < 256 && d < 256
    ensures Join(a, b, c, d) < UINT32_LIMIT
  {
  }

  function Write16(n: U16): (r: Bytes)
    ensures |r| == 2
  {
    [Bits.ToByte(n / 0x100), Bits.ToByte(n % 0x100)]
  }

  function Read16(d: Bytes): (r: U16)
    requires |d| >= 2
  {
    hide Bits.ByteValue;
    Bits.ByteValue(d[0]) * 256 + Bits.ByteValue(d[1])
  }

  lemma JoinDigits(n: U32)
    ensures Join(n / 0x100_0000, n / 0x1_0000 % 0x100, n / 0x100 % 0x100, n % 0x100) == n
  {
    var x := n / 256;
    var y := x / 256;
    assert n / 0x1_0000 == y && n / 0x100_0000 == y / 256;
  }

  lemma Read32Write(n: U32, s: Bytes)
    ensures Read32(Write32(n) + s) == n
  {
    hide Bits.ToByte, Bits.ByteValue, Join;
    Bits.ByteRoundTrip(n / 0x100_0000);
    Bits.ByteRoundTrip(n / 0x1_0000 % 0x100);
    Bits.ByteRoundTrip(n / 0x100 % 0x100);
    Bits.ByteRoundTrip(n % 0x100);
    JoinDigits(n);
  }

  lemma Read16Write(n: U16, s: Bytes)
    ensures Read16(Write16(n) + s) == n
  {
    hide Bits.ToByte, Bits.ByteValue;
    Bits.ByteRoundTrip(n / 0x100);
    Bits.ByteRoundTrip(n % 0x100);
  }

  // ----- messages

  datatype Request = Request(piece: U32, begin: U32, length: U32)

  datatype Message =
    | Choke | Unchoke | Interested | NotInterested | HaveAll | HaveNone
    | Have(piece: U32) | SuggestPiece(piece: U32) | AllowedFast(piece: U32)
    | Port(port: U16)
    | Bitfield(bits: seq<bool>)
    | Ask(request: Request) | Cancel(request: Request) | Reject(request: Request)
    | Piece(index: U32, begin: U32, data: Bytes)
    | Extended(id: Byte, payload: Bytes)

  function WriteRequest(r: Request): Bytes { Write32(r.piece) + Write32(r.begin) + Write32(r.length) }

  /** Everything after the length prefix. */
  function Body(m: Message): (b: Bytes)
    ensures |b| >= 1
  {
    match m
    case Choke => [0]
    case Unchoke => [1]
    case Interested => [2]
    case NotInterested => [3]
    case Have(i) => [4] + Write32(i)
    case Bitfield(bits) => [5] + Bits.Pack(bits)
    case Ask(r) => [6] + WriteRequest(r)
    case Piece(i, begin, data) => [7] + (Write32(i) + (Write32(begin) + data))
    case Cancel(r) => [8] + WriteRequest(r)
    case Port(p) => [9] + Write16(p)
    case SuggestPiece(i) => [13] + Write32(i)
    case HaveAll => [14]
    case HaveNone => [15]
    case Reject(r) => [16] + WriteRequest(r)
    case AllowedFast(i) => [17] + Write32(i)
    case Extended(id, payload) => [20] + ([id] + payload)
  }

  /** The receiver adds 4 to the length in 32 bits; longer bodies cannot be framed. */
  const MAX_BODY: nat := 0xFFFF_FFFB

  predicate Sendable(m: Message) { |Body(m)| <= MAX_BODY }

  function Encode(m: Message): Bytes
    requires Sendable(m)
  {
    Write32(|Body(m)|) + Body(m)
  }

  const KEEP_ALIVE: Bytes := Write32(0)

  /** message_length: 0 while the message is incomplete, and for a length whose 32-bit sum wraps. */
  function MessageLength(data: Bytes): (n: nat)
    ensures n <= |data| && (n == 0 || n >= 4)
  {
    if |data| < 4 then 0
    else
      var n := Read32(data);
      if n > MAX_BODY || |data| < 4 + n then 0 else 4 + n
  }

  predicate IsKeepAlive(data: Bytes) { |data| >= 4 && Read32(data) == 0 }

  /** decode, once the whole message is in the buffer. It reads a keep-alive as a choke. */
  function Decode(data: Bytes, numPieces: nat): Option<Message>
    requires MessageLength(data) > 0
  {
    if MessageLength(data) == 4 then Some(Choke) else DecodeBody(data[4..MessageLength(data)], numPieces)
  }

  function DecodeBody(body: Bytes, numPieces: nat): Option<Message>
    requires |body| >= 1
  {
    var type_ := body[0];
    var rest := body[1..];
    if type_ == 0 then Fixed(rest, Choke)
    else if type_ == 1 then Fixed(rest, Unchoke)
    else if type_ == 2 then Fixed(rest, Interested)
    else if type_ == 3 then Fixed(rest, NotInterested)
    else if type_ == 14 then Fixed(rest, HaveAll)
    else if type_ == 15 then Fixed(rest, HaveNone)
    else if type_ == 4 then (if |rest| == 4 then Some(Have(Read32(rest))) else None)
    else if type_ == 13 then (if |rest| == 4 then Some(SuggestPiece(Read32(rest))) else None)
    else if type_ == 17 then (if |rest| == 4 then Some(AllowedFast(Read32(rest))) else None)
    else if type_ == 9 then (if |rest| == 2 then Some(Port(Read16(rest))) else None)
    else if type_ == 5 then Some(Bitfield(Bits.Unpack(rest, if numPieces > 0 then numPieces else |rest| * 8)))
    else if type_ == 6 then (if |rest| == 12 then Some(Ask(ReadRequest(rest))) else None)
    else if type_ == 8 then (if |rest| == 12 then Some(Cancel(ReadRequest(rest))) else None)
    else if type_ == 16 then (if |rest| == 12 then Some(Reject(ReadRequest(rest))) else None)
    else if type_ == 7 then (if |rest| >= 8 then Some(Piece(Read32(rest), Read32(rest[4..]), rest[8..])) else None)
    else if type_ == 20 then (if |rest| >= 1 then Some(Extended(rest[0], rest[1..])) else None)
    else None
  }

  function Fixed(rest: Bytes, m: Message): Option<Message> {
    if rest == [] then Some(m) else None
  }

  function ReadRequest(d: Bytes): Request
    requires |d| == 12
  {
    Request(Read32(d), Read32(d[4..]), Read32(d[8..]))
  }

  /** What the receiver sees of a message: a bitfield takes the receiver's size, missing bits clear. */
  function Seen(m: Message, numPieces: nat): Message {
    match m
    case Bitfield(bits) => Bitfield(Fit(bits, if numPieces > 0 then numPieces else (|bits| + 7) / 8 * 8))
    case _ => m
  }

  function Fit(bits: seq<bool>, n: nat): (r: seq<bool>)
    ensures |r| == n
    ensures n == |bits| ==> r == bits
  {
    seq(n, i requires 0 <= i => i < |bits| && bits[i])
  }

  lemma RequestRoundTrip(r: Request)
    ensures |WriteRequest(r)| == 12 && ReadRequest(WriteRequest(r)) == r
  {
    hide Read32, Write32;
    var w := WriteRequest(r);
    assert w == Write32(r.piece) + (Write32(r.begin) + Write32(r.length));
    assert w[4..] == Write32(r.begin) + Write32(r.length);
    assert w[8..] == Write32(r.length) + [];
    Read32Write(r.piece, Write32(r.begin) + Write32(r.length));
    Read32Write(r.begin, Write32(r.length));
    Read32Write(r.length, []);
  }

  lemma Plain32(i: U32)
    ensures Read32(Write32(i)) == i
  {
    Read32Write(i, []);
    assert Write32(i) + [] == Write32(i);
  }

  lemma BitfieldRoundTrip(bits: seq<bool>, n: nat)
    ensures |Bits.Pack(bits)| == (|bits| + 7) / 8 && Bits.Unpack(Bits.Pack(bits), n) == Fit(bits, n)
  {
    hide Bits.PackUpTo, Bits.PackedBit;
    forall i | 0 <= i < n ensures Bits.Unpack(Bits.Pack(bits), n)[i] == Fit(bits, n)[i] {
      Bits.PackUpToBit(bits, |bits|, i);
    }
  }

  /** Decoding undoes encoding for every message, whatever follows in the buffer. */
  lemma NumberRoundTrip(m: Message, numPieces: nat)
    requires m.Have? || m.SuggestPiece? || m.AllowedFast? || m.Port?
    ensures DecodeBody(Body(m), numPieces) == Some(m)
  {
    hide Read32, Write32, Read16, Write16, ReadRequest, WriteRequest, Bits.Pack, Bits.Unpack;
    if m.Port? {
      Read16Write(m.port, []);
      assert Write16(m.port) + [] == Write16(m.port) == Body(m)[1..];
    } else {
      Plain32(m.piece);
      assert Body(m)[1..] == Write32(m.piece);
    }
  }

  lemma PieceRoundTrip(i: U32, begin: U32, data: Bytes, numPieces: nat)
    ensures DecodeBody(Body(Piece(i, begin, data)), numPieces) == Some(Piece(i, begin, data))
  {
    hide Read32, Write32, Read16, Write16, ReadRequest, WriteRequest, Bits.Pack, Bits.Unpack;
    var rest := Body(Piece(i, begin, data))[1..];
    assert rest == Write32(i) + (Write32(begin) + data);
    assert rest[4..] == Write32(begin) + data && rest[8..] == data;
    Read32Write(i, Write32(begin) + data);
    Read32Write(begin, data);
  }

  lemma BodyRoundTrip(m: Message, numPieces: nat)
    ensures DecodeBody(Body(m), numPieces) == Some(Seen(m, numPieces))
  {
    hide Read32, Write32, Read16, Write16, ReadRequest, WriteRequest, Bits.Pack, Bits.Unpack, Fit;
    var body := Body(m);
    match m
    case Have(_) | SuggestPiece(_) | AllowedFast(_) | Port(_) => NumberRoundTrip(m, numPieces);
    case Bitfield(bits) =>
      var n := if numPieces > 0 then numPieces else (|bits| + 7) / 8 * 8;
      BitfieldRoundTrip(bits, n);
      assert body[1..] == Bits.Pack(bits);
    case Ask(r) => RequestRoundTrip(r); assert body[1..] == WriteRequest(r);
    case Cancel(r) => RequestRoundTrip(r); assert body[1..] == WriteRequest(r);
    case Reject(r) => RequestRoundTrip(r); assert body[1..] == WriteRequest(r);
    case Piece(i, begin, data) => PieceRoundTrip(i, begin, data, numPieces);
    case Extended(id, payload) =>
      var rest := body[1..];
      assert rest == [id] + payload && rest[1..] == payload;
    case _ =>
  }

  lemma MessageRoundTrip(m: Message, s: Bytes, numPieces: nat)
    requires Sendable(m)
    ensures var data := Encode(m) + s;
            && MessageLength(data) == |Encode(m)| > 4
            && !IsKeepAlive(data)
            && Decode(data, numPieces) == Some(Seen(m, numPieces))
  {
    hide Read32, Write32, Body, DecodeBody, Seen;
    var data := Encode(m) + s;
    assert data == Write32(|Body(m)|) + (Body(m) + s);
    Read32Write(|Body(m)|, Body(m) + s);
    assert data[4..4 + |Body(m)|] == Body(m);
    BodyRoundTrip(m, numPieces);
  }

  lemma KeepAliveIsRecognised(s: Bytes)
    ensures IsKeepAlive(KEEP_ALIVE + s) && MessageLength(KEEP_ALIVE + s) == 4 == |KEEP_ALIVE|
  {
    hide Read32, Write32;
    Read32Write(0, s);
  }

  // ----- the handshake

  datatype Flags = Flags(dht: bool, fast: bool, extensionProtocol: bool)
  datatype Handshake = Handshake(reserved: Bytes, flags: Flags, infoHash: Bytes, peerId: Bytes)

  const HANDSHAKE_SIZE: nat := 68
  const PROTOCOL: Bytes := [0x42, 0x69, 0x74, 0x54, 0x6F, 0x72, 0x72, 0x65, 0x6E, 0x74, 0x20,
                            0x70, 0x72, 0x6F, 0x74, 0x6F, 0x63, 0x6F, 0x6C]

  function Or8(a: Byte, b: Byte): Byte { a | b }
  predicate Has8(a: Byte, b: Byte) { a & b != 0 }

  function Reserved(f: Flags): (r: Bytes)
    ensures |r| == 8
  {
    [0, 0, 0, 0, 0, if f.extensionProtocol then 0x10 else 0, 0,
     Or8(if f.dht then 0x01 else 0, if f.fast then 0x04 else 0)]
  }

  function ReadFlags(reserved: Bytes): Flags
    requires |reserved| == 8
  {
    Flags(Has8(reserved[7], 0x01), Has8(reserved[7], 0x04), Has8(reserved[5], 0x10))
  }

  lemma FlagsRoundTrip(f: Flags)
    ensures ReadFlags(Reserved(f)) == f
  {
  }

  function EncodeHandshake(infoHash: Bytes, peerId: Bytes, f: Flags): Bytes {
    [19] + PROTOCOL + Reserved(f) + infoHash + peerId
  }

  function DecodeHandshake(data: Bytes): Option<Handshake>
    requires |data| >= HANDSHAKE_SIZE
  {
    if data[0] != 19 || data[1..20] != PROTOCOL then None
    else Some(Handshake(data[20..28], ReadFlags(data[20..28]), data[28..48], data[48..68]))
  }

  lemma HandshakeRoundTrip(infoHash: Bytes, peerId: Bytes, f: Flags, s: Bytes)
    requires |infoHash| == 20 && |peerId| == 20
    ensures |EncodeHandshake(infoHash, peerId, f)| == HANDSHAKE_SIZE
    ensures DecodeHandshake(EncodeHandshake(infoHash, peerId, f) + s) ==
              Some(Handshake(Reserved(f), f, infoHash, peerId))
  {
    hide Reserved, ReadFlags;
    FlagsRoundTrip(f);
    var data := EncodeHandshake(infoHash, peerId, f) + s;
    assert data[1..20] == PROTOCOL;
    assert data[20..28] == Reserved(f);
    assert data[28..48] == infoHash;
    assert data[48..68] == peerId;
  }
}
