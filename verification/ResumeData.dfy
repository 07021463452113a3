/** Resume records (src/bt_resume_data.cpp): the dictionary a record becomes, and the record a
    dictionary becomes. */
module ResumeData {
  import opened Wrappers
  import opened Casts
  import opened Bencode
  import Bits

  datatype PeerAddress = PeerAddress(ip: Bytes, port: U16)
  datatype Partial = Partial(piece: U32, blocks: seq<bool>)

  /** TorrentResumeData; the ordered map of partial pieces is its entries in key order. */
  datatype Resume = Resume(
    infoHash: Bytes,
    name: Bytes,
    savePath: Bytes,
    have: seq<bool>,
    unfinished: seq<Partial>,
    uploaded: U64,
    downloaded: U64,
    times: Times,
    sequential: bool,
    limits: Limits,
    info: Bytes,
    peers: seq<PeerAddress>)

  datatype Times = Times(active: Int64, seeding: Int64, added: Int64, completed: Int64)
  datatype Limits = Limits(connections: Int32, uploads: Int32, download: Int64, upload: Int64)

  /** What the types of the source guarantee. */
  predicate WellFormed(d: Resume) {
    && |d.infoHash| == 20
    && |d.name| < SIZE_LIMIT && |d.savePath| < SIZE_LIMIT && |d.info| < SIZE_LIMIT
    && |d.have| < 0x1_0000_0000
    && KeysAscend(d.unfinished)
    && (forall i :: 0 <= i < |d.unfinished| ==> |d.unfinished[i].blocks| < 0x1_0000_0000)
    && |d.peers| < 0x1000_0000_0000_0000
  }

  predicate KeysAscend(u: seq<Partial>) {
    forall i, j :: 0 <= i < j < |u| ==> u[i].piece < u[j].piece
  }

  // ----- keys

  datatype Field =
    | FileFormat | FileVersion | LibratsVersion | InfoHash | Name | SavePath | Pieces
    | Unfinished | TotalUploaded | TotalDownloaded | ActiveTime | SeedingTime | AddedTime | CompletedTime
    | Sequential | MaxConnections | MaxUploads | DownloadLimit | UploadLimit | Info | Peers

  function Key(f: Field): Bytes {
    match f
    // file-format
    case FileFormat => [0x66, 0x69, 0x6C, 0x65, 0x2D, 0x66, 0x6F, 0x72, 0x6D, 0x61, 0x74]
    // file-version
    case FileVersion => [0x66, 0x69, 0x6C, 0x65, 0x2D, 0x76, 0x65, 0x72, 0x73, 0x69, 0x6F, 0x6E]
    // librats-version
    case LibratsVersion => [0x6C, 0x69, 0x62, 0x72, 0x61, 0x74, 0x73, 0x2D, 0x76, 0x65, 0x72, 0x73, 0x69, 0x6F, 0x6E]
    // info-hash
    case InfoHash => [0x69, 0x6E, 0x66, 0x6F, 0x2D, 0x68, 0x61, 0x73, 0x68]
    // name
    case Name => [0x6E, 0x61, 0x6D, 0x65]
    // save_path
    case SavePath => [0x73, 0x61, 0x76, 0x65, 0x5F, 0x70, 0x61, 0x74, 0x68]
    // pieces
    case Pieces => [0x70, 0x69, 0x65, 0x63, 0x65, 0x73]
    // unfinished
    case Unfinished => [0x75, 0x6E, 0x66, 0x69, 0x6E, 0x69, 0x73, 0x68, 0x65, 0x64]
    // total_uploaded
    case TotalUploaded => [0x74, 0x6F, 0x74, 0x61, 0x6C, 0x5F, 0x75, 0x70, 0x6C, 0x6F, 0x61, 0x64, 0x65, 0x64]
    // total_downloaded
    case TotalDownloaded => [0x74, 0x6F, 0x74, 0x61, 0x6C, 0x5F, 0x64, 0x6F, 0x77, 0x6E, 0x6C, 0x6F, 0x61, 0x64, 0x65,
                             0x64]
    // active_time
    case ActiveTime => [0x61, 0x63, 0x74, 0x69, 0x76, 0x65, 0x5F, 0x74, 0x69, 0x6D, 0x65]
    // seeding_time
    case SeedingTime => [0x73, 0x65, 0x65, 0x64, 0x69, 0x6E, 0x67, 0x5F, 0x74, 0x69, 0x6D, 0x65]
    // added_time
    case AddedTime => [0x61, 0x64, 0x64, 0x65, 0x64, 0x5F, 0x74, 0x69, 0x6D, 0x65]
    // completed_time
    case CompletedTime => [0x63, 0x6F, 0x6D, 0x70, 0x6C, 0x65, 0x74, 0x65, 0x64, 0x5F, 0x74, 0x69, 0x6D, 0x65]
    // sequential_download
    case Sequential => [0x73, 0x65, 0x71, 0x75, 0x65, 0x6E, 0x74, 0x69, 0x61, 0x6C, 0x5F, 0x64, 0x6F, 0x77, 0x6E, 0x6C,
                        0x6F, 0x61, 0x64]
    // max_connections
    case MaxConnections => [0x6D, 0x61, 0x78, 0x5F, 0x63, 0x6F, 0x6E, 0x6E, 0x65, 0x63, 0x74, 0x69, 0x6F, 0x6E, 0x73]
    // max_uploads
    case MaxUploads => [0x6D, 0x61, 0x78, 0x5F, 0x75, 0x70, 0x6C, 0x6F, 0x61, 0x64, 0x73]
    // download_rate_limit
    case DownloadLimit => [0x64, 0x6F, 0x77, 0x6E, 0x6C, 0x6F, 0x61, 0x64, 0x5F, 0x72, 0x61, 0x74, 0x65, 0x5F, 0x6C,
                           0x69, 0x6D, 0x69, 0x74]
    // upload_rate_limit
    case UploadLimit => [0x75, 0x70, 0x6C, 0x6F, 0x61, 0x64, 0x5F, 0x72, 0x61, 0x74, 0x65, 0x5F, 0x6C, 0x69, 0x6D, 0x69,
                         0x74]
    // info
    case Info => [0x69, 0x6E, 0x66, 0x6F]
    // peers
    case Peers => [0x70, 0x65, 0x65, 0x72, 0x73]
  }

  /** Length and first byte tell the keys apart. */
  function FieldOf(length: nat, first: Byte): Field {
    if length == 11 then (if first == 0x66 then FileFormat else if first == 0x61 then ActiveTime else MaxUploads)
    else if length == 12 then (if first == 0x66 then FileVersion else SeedingTime)
    else if length == 15 then (if first == 0x6C then LibratsVersion else MaxConnections)
    else if length == 9 then (if first == 0x69 then InfoHash else SavePath)
    else if length == 4 then (if first == 0x6E then Name else Info)
    else if length == 6 then Pieces
    else if length == 10 then (if first == 0x75 then Unfinished else AddedTime)
    else if length == 14 then (if first == 0x74 then TotalUploaded else CompletedTime)
    else if length == 16 then TotalDownloaded
    else if length == 19 then (if first == 0x73 then Sequential else DownloadLimit)
    else if length == 17 then UploadLimit
    else Peers
  }

  lemma KeyTells(f: Field)
    ensures 0 < |Key(f)| < 20 && FieldOf(|Key(f)|, Key(f)[0]) == f
  {
    hide Key, FieldOf;
    if Rank(f) < 7 { EarlyKeyTells(f); } else if Rank(f) < 14 { MiddleKeyTells(f); } else { LateKeyTells(f); }
  }

  lemma EarlyKeyTells(f: Field)
    requires Rank(f) < 7
    ensures 0 < |Key(f)| < 20 && FieldOf(|Key(f)|, Key(f)[0]) == f
  {
  }

  lemma MiddleKeyTells(f: Field)
    requires 7 <= Rank(f) < 14
    ensures 0 < |Key(f)| < 20 && FieldOf(|Key(f)|, Key(f)[0]) == f
  {
  }

  lemma LateKeyTells(f: Field)
    requires Rank(f) >= 14
    ensures 0 < |Key(f)| < 20 && FieldOf(|Key(f)|, Key(f)[0]) == f
  {
  }

  lemma KeyInjective(f: Field, g: Field)
    ensures Key(f) == Key(g) <==> f == g
  {
    hide Key, FieldOf;
    KeyTells(f);
    KeyTells(g);
  }

  /** The order in which the fields are written. */
  const FIELDS: seq<Field> := [
    FileFormat, FileVersion, LibratsVersion, InfoHash, Name, SavePath, Pieces, Unfinished,
    TotalUploaded, TotalDownloaded, ActiveTime, SeedingTime, AddedTime, CompletedTime,
    Sequential, MaxConnections, MaxUploads, DownloadLimit, UploadLimit, Info, Peers]

  function Rank(f: Field): nat {
    match f
    case FileFormat => 0 case FileVersion => 1 case LibratsVersion => 2 case InfoHash => 3
    case Name => 4 case SavePath => 5 case Pieces => 6 case Unfinished => 7
    case TotalUploaded => 8 case TotalDownloaded => 9 case ActiveTime => 10 case SeedingTime => 11
    case AddedTime => 12 case CompletedTime => 13 case Sequential => 14 case MaxConnections => 15
    case MaxUploads => 16 case DownloadLimit => 17 case UploadLimit => 18 case Info => 19 case Peers => 20
  }

  lemma RankIsPosition(f: Field, k: nat)
    requires k < |FIELDS|
    ensures Rank(f) < |FIELDS| && (Rank(f) == k <==> FIELDS[k] == f)
  {
    assert FIELDS[Rank(f)] == f;
    assert Rank(FIELDS[k]) == k;
  }

  // ----- values

  const FORMAT: Bytes := [0x6C, 0x69, 0x62, 0x72, 0x61, 0x74, 0x73, 0x20, 0x72, 0x65, 0x73, 0x75, 0x6D, 0x65, 0x20,
                          0x66, 0x69, 0x6C, 0x65]
  const VERSION: Bytes := [0x31, 0x2E, 0x30, 0x2E, 0x30]
  const PIECE: Bytes := [0x70, 0x69, 0x65, 0x63, 0x65]
  const BITMASK: Bytes := [0x62, 0x69, 0x74, 0x6D, 0x61, 0x73, 0x6B]
  const NUM_BLOCKS: Bytes := [0x6E, 0x75, 0x6D, 0x5F, 0x62, 0x6C, 0x6F, 0x63, 0x6B, 0x73]

  function HaveText(have: seq<bool>): (r: Bytes)
    ensures |r| == |have|
  {
    seq(|have|, i requires 0 <= i < |have| => if have[i] then 1 else 0)
  }

  function LowBit(b: Byte): bool { b & 1 != 0 }

  function HaveBits(text: Bytes): (r: seq<bool>)
    ensures |r| == |text|
  {
    seq(|text|, i requires 0 <= i < |text| => LowBit(text[i]))
  }

  function PartialValue(p: Partial): Value
    requires |p.blocks| < 0x1_0000_0000
  {
    Dict(map[PIECE := Integer(p.piece), BITMASK := Str(Bits.Pack(p.blocks)), NUM_BLOCKS := Integer(|p.blocks|)])
  }

  function PartialValues(u: seq<Partial>): (r: seq<Value>)
    requires forall i :: 0 <= i < |u| ==> |u[i].blocks| < 0x1_0000_0000
    ensures |r| == |u| && forall i :: 0 <= i < |u| ==> r[i] == PartialValue(u[i])
  {
    seq(|u|, i requires 0 <= i < |u| => PartialValue(u[i]))
  }

  /** One entry of the list, None when the reader skips it. */
  function ReadPartial(v: Value): Option<Partial> {
    if !v.Dict? then None
    else
      var m := v.entries;
      if PIECE !in m || !m[PIECE].Integer? || BITMASK !in m || !m[BITMASK].Str? then None
      else
        var mask := m[BITMASK].s;
        var n := if NUM_BLOCKS in m && m[NUM_BLOCKS].Integer? then ToUint64(m[NUM_BLOCKS].i) else |mask| * 8;
        Some(Partial(ToUint32(m[PIECE].i), ReadMask(mask, n)))
  }

  /** The mask loop after n turns: bit i goes to block i, taken as a 32-bit index. */
  function MaskUpTo(mask: Bytes, size: nat, n: nat): (r: seq<bool>)
    ensures |r| == size
  {
    if n == 0 then seq(size, _ => false)
    else
      var before := MaskUpTo(mask, size, n - 1);
      var i := ToUint32(n - 1);
      if Bits.PackedBit(mask, n - 1) && i < size then before[i := true] else before
  }

  /** The blocks of a mask with a stored count of n, for which a bitfield has 32 bits. */
  function ReadMask(mask: Bytes, n: nat): seq<bool> { MaskUpTo(mask, ToUint32(n), n) }

  /** Assignment in the ordered map. */
  function Insert(u: seq<Partial>, p: Partial): seq<Partial> {
    if u == [] || p.piece < u[0].piece then [p] + u
    else if p.piece == u[0].piece then [p] + u[1..]
    else [u[0]] + Insert(u[1..], p)
  }

  /** The entries read from the first n items. */
  function ReadPartials(items: seq<Value>, n: nat): seq<Partial>
    requires n <= |items|
  {
    if n == 0 then []
    else
      var before := ReadPartials(items, n - 1);
      var p := ReadPartial(items[n - 1]);
      if p.Some? then Insert(before, p.value) else before
  }

  // ----- addresses

  const DOT: Byte := 0x2E

  function Dotted(a: nat, b: nat, c: nat, d: nat): Bytes {
    NatText(a) + ([DOT] + (NatText(b) + ([DOT] + (NatText(c) + ([DOT] + NatText(d))))))
  }

  /** sscanf's %d: value and characters used. */
  function ScanInt(s: Bytes): Option<(int, nat)> {
    var t := SkipSpaces(s);
    var skipped := if |t| <= |s| then |s| - |t| else 0;
    var negative := t != [] && t[0] == MINUS;
    var signed := t != [] && (t[0] == MINUS || t[0] == PLUS);
    var u := if signed then t[1..] else t;
    var n := LeadingDigits(u);
    if n == 0 then None
    else
      var value: int := if negative then -(DigitsValue(u[..n]) as int) else DigitsValue(u[..n]);
      Some((value, skipped + (if signed then 1 else 0) + n))
  }

  function Rest(s: Bytes, n: nat): Bytes { if n <= |s| then s[n..] else [] }

  /** One number and the dot after it. */
  function ScanPart(s: Bytes): Option<(int, Bytes)> {
    var r := ScanInt(s);
    if r.None? then None
    else
      var rest := Rest(s, r.value.1);
      if rest == [] || rest[0] != DOT then None else Some((r.value.0, rest[1..]))
  }

  /** The format %d.%d.%d.%d, when all four are matched. */
  function ScanQuad(s: Bytes): Option<(int, int, int, int)> {
    var a := ScanPart(s);
    if a.None? then None
    else
      var b := ScanPart(a.value.1);
      if b.None? then None
      else
        var c := ScanPart(b.value.1);
        if c.None? then None
        else
          var d := ScanInt(c.value.1);
          if d.None? then None else Some((a.value.0, b.value.0, c.value.0, d.value.0))
  }

  /** Bitwise or. */
  function Or(x: nat, y: nat): nat {
    if x == 0 then y
    else if y == 0 then x
    else 2 * Or(x / 2, y / 2) + (if x % 2 == 1 || y % 2 == 1 then 1 else 0)
  }

  function Shifted(x: int, factor: nat): nat { ToUint32(ToUint32(x) * factor) }

  function IpNumber(a: int, b: int, c: int, d: int): nat {
    Or(Or(Or(Shifted(a, 0x100_0000), Shifted(b, 0x1_0000)), Shifted(c, 0x100)), Shifted(d, 1))
  }

  /** The byte of an address that counts in the given unit. */
  function Octet(ip: nat, unit: nat): (r: nat)
    requires unit > 0
    ensures r < 256
  {
    ip / unit % 256
  }

  /** Four bytes of address and two of port. */
  function SixBytes(ip: nat, port: U16): (r: Bytes)
    ensures |r| == 6
  {
    [Bits.ToByte(Octet(ip, 0x100_0000)), Bits.ToByte(Octet(ip, 0x1_0000)), Bits.ToByte(Octet(ip, 0x100)),
     Bits.ToByte(Octet(ip, 1)),
     Bits.ToByte(Octet(port, 0x100)), Bits.ToByte(Octet(port, 1))]
  }

  function PeerBytes(p: PeerAddress): (r: Bytes)
    ensures |r| == 0 || |r| == 6
  {
    var q := ScanQuad(p.ip);
    if q.None? then [] else SixBytes(IpNumber(q.value.0, q.value.1, q.value.2, q.value.3), p.port)
  }

  function PeersText(peers: seq<PeerAddress>): Bytes {
    if peers == [] then [] else PeersText(peers[..|peers| - 1]) + PeerBytes(peers[|peers| - 1])
  }

  function PortOf(high: nat, low: nat): U16
    requires high < 256 && low < 256
  {
    high * 256 + low
  }

  function ReadPeer(t: Bytes): PeerAddress
    requires |t| >= 6
  {
    PeerAddress(Dotted(Bits.ByteValue(t[0]), Bits.ByteValue(t[1]), Bits.ByteValue(t[2]), Bits.ByteValue(t[3])),
                PortOf(Bits.ByteValue(t[4]), Bits.ByteValue(t[5])))
  }

  function ReadPeers(t: Bytes): seq<PeerAddress> {
    if |t| < 6 then [] else [ReadPeer(t)] + ReadPeers(t[6..])
  }

  // ----- the dictionary

  predicate Present(d: Resume, f: Field) {
    match f
    case Name => d.name != []
    case Pieces => d.have != []
    case Unfinished => d.unfinished != []
    case MaxConnections => d.limits.connections >= 0
    case MaxUploads => d.limits.uploads >= 0
    case DownloadLimit => d.limits.download >= 0
    case UploadLimit => d.limits.upload >= 0
    case Info => d.info != []
    case Peers => PeersText(d.peers) != []
    case _ => true
  }

  function FieldValue(d: Resume, f: Field): Value
    requires WellFormed(d)
  {
    match f
    case FileFormat => Str(FORMAT)
    case FileVersion => Integer(1)
    case LibratsVersion => Str(VERSION)
    case InfoHash => Str(d.infoHash)
    case Name => Str(d.name)
    case SavePath => Str(d.savePath)
    case Pieces => Str(HaveText(d.have))
    case Unfinished => List(PartialValues(d.unfinished))
    case TotalUploaded => Integer(ToInt64(d.uploaded))
    case TotalDownloaded => Integer(ToInt64(d.downloaded))
    case ActiveTime => Integer(d.times.active)
    case SeedingTime => Integer(d.times.seeding)
    case AddedTime => Integer(d.times.added)
    case CompletedTime => Integer(d.times.completed)
    case Sequential => Integer(if d.sequential then 1 else 0)
    case MaxConnections => Integer(d.limits.connections)
    case MaxUploads => Integer(d.limits.uploads)
    case DownloadLimit => Integer(d.limits.download)
    case UploadLimit => Integer(d.limits.upload)
    case Info => Str(d.info)
    case Peers => Str(PeersText(d.peers))
  }

  function Put(m: map<Bytes, Value>, d: Resume, f: Field): map<Bytes, Value>
    requires WellFormed(d)
  {
    if Present(d, f) then m[Key(f) := FieldValue(d, f)] else m
  }

  /** The first n fields. */
  function PutAll(d: Resume, n: nat): map<Bytes, Value>
    requires WellFormed(d) && n <= |FIELDS|
  {
    if n == 0 then map[] else Put(PutAll(d, n - 1), d, FIELDS[n - 1])
  }

  function ToValue(d: Resume): Value
    requires WellFormed(d)
  {
    Dict(PutAll(d, |FIELDS|))
  }

  function IntAt(m: map<Bytes, Value>, f: Field, default: Int64): Int64 {
    if Key(f) in m && m[Key(f)].Integer? then m[Key(f)].i else default
  }

  function StrAt(m: map<Bytes, Value>, f: Field): Bytes {
    if Key(f) in m && m[Key(f)].Str? then m[Key(f)].s else []
  }

  /** The checks of read_resume_data before it builds the record. */
  predicate Acceptable(m: map<Bytes, Value>) {
    && Key(FileFormat) in m && m[Key(FileFormat)] == Str(FORMAT)
    && (Key(FileVersion) in m && m[Key(FileVersion)].Integer? ==> ToInt32(m[Key(FileVersion)].i) <= 1)
    && Key(InfoHash) in m && m[Key(InfoHash)].Str? && |m[Key(InfoHash)].s| == 20
  }

  function FromEntries(m: map<Bytes, Value>): Resume {
    Resume(
      StrAt(m, InfoHash), StrAt(m, Name), StrAt(m, SavePath), HaveBits(StrAt(m, Pieces)),
      if Key(Unfinished) in m && m[Key(Unfinished)].List?
        then ReadPartials(m[Key(Unfinished)].items, |m[Key(Unfinished)].items|) else [],
      ToUint64(IntAt(m, TotalUploaded, 0)), ToUint64(IntAt(m, TotalDownloaded, 0)),
      Times(IntAt(m, ActiveTime, 0), IntAt(m, SeedingTime, 0), IntAt(m, AddedTime, 0), IntAt(m, CompletedTime, 0)),
      IntAt(m, Sequential, 0) != 0,
      Limits(ToInt32(IntAt(m, MaxConnections, -1)), ToInt32(IntAt(m, MaxUploads, -1)),
             IntAt(m, DownloadLimit, -1), IntAt(m, UploadLimit, -1)),
      StrAt(m, Info), ReadPeers(StrAt(m, Peers)))
  }

  function ReadValue(v: Value): Option<Resume> {
    if !v.Dict? || !Acceptable(v.entries) then None else Some(FromEntries(v.entries))
  }

  /** read_resume_data. */
  function Read(buffer: Bytes): Option<Resume> {
    var r := ParseValue(buffer);
    if !r.Ok? then None else ReadValue(r.value)
  }
}
