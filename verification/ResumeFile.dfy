/** write_resume_data and read_resume_data of src/bt_resume_data.cpp, proved against ResumeData. */
module ResumeFile {
  import opened Wrappers
  import opened Casts
  import opened Bencode
  import opened ResumeData
  import ResumeRoundTrip
  import BencodeCodec
  import Bits

  method HaveToText(have: seq<bool>) returns (text: Bytes)
    ensures text == HaveText(have)
  {
    text := Bits.ZeroBytes(|have|);
    for i := 0 to |have|
      invariant |text| == |have|
      invariant forall k :: 0 <= k < |have| ==> text[k] == if k < i && have[k] then 1 else 0
    {
      text := text[i := if have[i] then 1 else 0];
    }
    assert text == HaveText(have);
  }

  method PackBlocks(blocks: seq<bool>) returns (mask: Bytes)
    ensures mask == Bits.Pack(blocks)
  {
    mask := Bits.ZeroBytes((|blocks| + 7) / 8);
    for i := 0 to |blocks|
      invariant mask == Bits.PackUpTo(blocks, i)
    {
      if blocks[i] {
        mask := mask[i / 8 := Bits.Or8(mask[i / 8], Bits.Mask8(i % 8))];
      }
    }
  }

  method UnfinishedList(u: seq<Partial>) returns (items: seq<Value>)
    requires forall i :: 0 <= i < |u| ==> |u[i].blocks| < 0x1_0000_0000
    ensures items == PartialValues(u)
  {
    hide Bits.Pack;
    items := [];
    for i := 0 to |u|
      invariant |items| == i && forall k :: 0 <= k < i ==> items[k] == PartialValue(u[k])
    {
      var entry: map<Bytes, Value> := map[PIECE := Integer(u[i].piece)];
      var mask := PackBlocks(u[i].blocks);
      entry := entry[BITMASK := Str(mask)];
      entry := entry[NUM_BLOCKS := Integer(|u[i].blocks|)];
      assert Dict(entry) == PartialValue(u[i]);
      items := items + [Dict(entry)];
    }
    assert items == PartialValues(u);
  }

  method PeersToText(peers: seq<PeerAddress>) returns (text: Bytes)
    ensures text == PeersText(peers)
  {
    hide PeerBytes;
    text := [];
    for i := 0 to |peers|
      invariant text == PeersText(peers[..i])
    {
      var six := PeerToBytes(peers[i]);
      text := text + six;
      assert peers[..i + 1][..i] == peers[..i];
    }
    assert peers[..|peers|] == peers;
  }

  method PeerToBytes(p: PeerAddress) returns (six: Bytes)
    ensures six == PeerBytes(p)
  {
    hide ScanQuad, IpNumber, Bits.ToByte, Octet;
    six := [];
    var q := ScanQuad(p.ip);
    if q.Some? {
      var ip := IpNumber(q.value.0, q.value.1, q.value.2, q.value.3);
      six := six + [Bits.ToByte(Octet(ip, 0x100_0000))];
      six := six + [Bits.ToByte(Octet(ip, 0x1_0000))];
      six := six + [Bits.ToByte(Octet(ip, 0x100))];
      six := six + [Bits.ToByte(Octet(ip, 1))];
      six := six + [Bits.ToByte(Octet(p.port, 0x100))];
      six := six + [Bits.ToByte(Octet(p.port, 1))];
    }
  }

  /** write_resume_data. */
  method Write(d: Resume) returns (bytes: Bytes)
    requires WellFormed(d)
    ensures bytes == Encode(ToValue(d))
    ensures Read(bytes) == Some(ResumeRoundTrip.Restored(d))
  {
    hide PutAll, WellFormed, Encode, Read, ResumeRoundTrip.Restored;
    var m := WriteIdentification(d);
    m := WriteProgress(d, m);
    m := WriteStatistics(d, m);
    m := WriteConfiguration(d, m);
    m := WriteExtras(d, m);
    bytes := BencodeCodec.EncodeValue(Dict(m));
    ResumeRoundTrip.ResumeRoundTrip(d, []);
    assert bytes + [] == bytes;
  }

  method WriteIdentification(d: Resume) returns (m: map<Bytes, Value>)
    requires WellFormed(d)
    ensures m == PutAll(d, 6)
  {
    hide Key, PutAll, HaveText, PartialValues, PeersText, ToInt64, WellFormed, FIELDS;
    NoFields(d);
    Next(d, FileFormat);
    Next(d, FileVersion);
    Next(d, LibratsVersion);
    Next(d, InfoHash);
    Next(d, Name);
    Next(d, SavePath);
    m := map[];
    m := m[Key(FileFormat) := Str(FORMAT)];
    m := m[Key(FileVersion) := Integer(1)];
    m := m[Key(LibratsVersion) := Str(VERSION)];
    m := m[Key(InfoHash) := Str(d.infoHash)];
    if d.name != [] { m := m[Key(Name) := Str(d.name)]; }
    m := m[Key(SavePath) := Str(d.savePath)];
  }

  /** The have bitfield and the partial pieces. */
  method WriteProgress(d: Resume, before: map<Bytes, Value>) returns (m: map<Bytes, Value>)
    requires WellFormed(d)
    requires before == PutAll(d, 6)
    ensures m == PutAll(d, 8)
  {
    hide Key, PutAll, HaveText, PartialValues, PeersText, FIELDS;
    Next(d, Pieces);
    Next(d, Unfinished);
    m := before;
    if |d.have| > 0 {
      var text := HaveToText(d.have);
      m := m[Key(Pieces) := Str(text)];
    }
    if d.unfinished != [] {
      var items := UnfinishedList(d.unfinished);
      m := m[Key(Unfinished) := List(items)];
    }
  }

  method WriteStatistics(d: Resume, before: map<Bytes, Value>) returns (m: map<Bytes, Value>)
    requires WellFormed(d)
    requires before == PutAll(d, 8)
    ensures m == PutAll(d, 14)
  {
    hide Key, PutAll, HaveText, PartialValues, PeersText, ToInt64, WellFormed, FIELDS;
    Next(d, TotalUploaded);
    Next(d, TotalDownloaded);
    Next(d, ActiveTime);
    Next(d, SeedingTime);
    Next(d, AddedTime);
    Next(d, CompletedTime);
    m := before;
    m := m[Key(TotalUploaded) := Integer(ToInt64(d.uploaded))];
    m := m[Key(TotalDownloaded) := Integer(ToInt64(d.downloaded))];
    m := m[Key(ActiveTime) := Integer(d.times.active)];
    m := m[Key(SeedingTime) := Integer(d.times.seeding)];
    m := m[Key(AddedTime) := Integer(d.times.added)];
    m := m[Key(CompletedTime) := Integer(d.times.completed)];
  }

  method WriteConfiguration(d: Resume, before: map<Bytes, Value>) returns (m: map<Bytes, Value>)
    requires WellFormed(d)
    requires before == PutAll(d, 14)
    ensures m == PutAll(d, 19)
  {
    hide Key, PutAll, HaveText, PartialValues, PeersText, ToInt64, WellFormed, FIELDS;
    m := before[Key(Sequential) := Integer(if d.sequential then 1 else 0)];
    Next(d, Sequential);
    if d.limits.connections >= 0 { m := m[Key(MaxConnections) := Integer(d.limits.connections)]; }
    Next(d, MaxConnections);
    if d.limits.uploads >= 0 { m := m[Key(MaxUploads) := Integer(d.limits.uploads)]; }
    Next(d, MaxUploads);
    m := WriteRateLimits(d, m);
  }

  method WriteRateLimits(d: Resume, before: map<Bytes, Value>) returns (m: map<Bytes, Value>)
    requires WellFormed(d)
    requires before == PutAll(d, 17)
    ensures m == PutAll(d, 19)
  {
    hide Key, PutAll, HaveText, PartialValues, PeersText, ToInt64, WellFormed, FIELDS;
    m := before;
    if d.limits.download >= 0 { m := m[Key(DownloadLimit) := Integer(d.limits.download)]; }
    Next(d, DownloadLimit);
    if d.limits.upload >= 0 { m := m[Key(UploadLimit) := Integer(d.limits.upload)]; }
    Next(d, UploadLimit);
  }

  /** The info dictionary and the peer cache. */
  method WriteExtras(d: Resume, before: map<Bytes, Value>) returns (m: map<Bytes, Value>)
    requires WellFormed(d)
    requires before == PutAll(d, 19)
    ensures m == PutAll(d, 21)
  {
    hide Key, PutAll, HaveText, PartialValues, PeersText, ToInt64, WellFormed, FIELDS;
    Next(d, Info);
    Next(d, Peers);
    m := before;
    if d.info != [] { m := m[Key(Info) := Str(d.info)]; }
    var peers := PeersToText(d.peers);
    if peers != [] { m := m[Key(Peers) := Str(peers)]; }
  }

  /** The dictionary one field further. */
  lemma Next(d: Resume, f: Field)
    requires WellFormed(d)
    ensures Rank(f) < |FIELDS|
    ensures PutAll(d, Rank(f) + 1) == if Present(d, f) then PutAll(d, Rank(f))[Key(f) := FieldValue(d, f)]
            else PutAll(d, Rank(f))
  {
    hide WellFormed, Key, Present, FieldValue;
    RankIsPosition(f, 0);
    RankIsPosition(f, Rank(f));
  }

  lemma NoFields(d: Resume)
    requires WellFormed(d)
    ensures PutAll(d, 0) == map[]
  {
  }

  method TextToHave(text: Bytes) returns (have: seq<bool>)
    ensures have == HaveBits(text)
  {
    have := seq(|text|, _ => false);
    for i := 0 to |text|
      invariant |have| == |text|
      invariant forall k :: 0 <= k < |have| ==> have[k] == (k < i && LowBit(text[k]))
    {
      if LowBit(text[i]) { have := have[i := true]; }
    }
    assert have == HaveBits(text);
  }

  method UnpackBlocks(mask: Bytes, n: nat) returns (blocks: seq<bool>)
    ensures blocks == ReadMask(mask, n)
  {
    hide Bits.BitAt8, Bits.Mask8, Bits.And8, ToUint32;
    var size := ToUint32(n);
    blocks := seq(size, _ => false);
    for i := 0 to n
      invariant blocks == MaskUpTo(mask, size, i)
    {
      if i / 8 < |mask| {
        Bits.TestMask8(mask[i / 8], i % 8);
        if Bits.And8(mask[i / 8], Bits.Mask8(i % 8)) != 0 && ToUint32(i) < size {
          blocks := blocks[ToUint32(i) := true];
        }
      }
    }
  }

  method ReadUnfinished(items: seq<Value>) returns (u: seq<Partial>)
    ensures u == ReadPartials(items, |items|)
  {
    hide ReadMask;
    u := [];
    for i := 0 to |items|
      invariant u == ReadPartials(items, i)
    {
      if !items[i].Dict? { continue; }
      var m := items[i].entries;
      if PIECE !in m || !m[PIECE].Integer? { continue; }
      var piece := ToUint32(m[PIECE].i);
      if BITMASK !in m || !m[BITMASK].Str? { continue; }
      var mask := m[BITMASK].s;
      var n := |mask| * 8;
      if NUM_BLOCKS in m && m[NUM_BLOCKS].Integer? {
        n := ToUint64(m[NUM_BLOCKS].i);
      }
      var blocks := UnpackBlocks(mask, n);
      u := Insert(u, Partial(piece, blocks));
    }
  }

  method TextToPeers(text: Bytes) returns (peers: seq<PeerAddress>)
    ensures peers == ReadPeers(text)
  {
    hide ReadPeer;
    peers := [];
    var i := 0;
    while i + 6 <= |text|
      invariant i <= |text| && ReadPeers(text) == peers + ReadPeers(text[i..])
    {
      assert text[i..][6..] == text[i + 6..];
      peers := peers + [ReadPeer(text[i..])];
      i := i + 6;
    }
  }

  /** read_resume_data. */
  method Load(buffer: Bytes) returns (r: Option<Resume>)
    ensures r == Read(buffer)
  {
    hide ParseValue, Key, StrAt, IntAt, HaveBits, ReadPeers, ReadPartials, ToInt32, ToUint64;
    var decoded := BencodeCodec.DecodeBytes(buffer);
    if decoded.None? || !decoded.value.Dict? { return None; }
    var m := decoded.value.entries;
    if Key(FileFormat) !in m || !m[Key(FileFormat)].Str? { return None; }
    if m[Key(FileFormat)].s != FORMAT { return None; }
    if Key(FileVersion) in m && m[Key(FileVersion)].Integer? {
      if ToInt32(m[Key(FileVersion)].i) > 1 { return None; }
    }
    if Key(InfoHash) !in m || !m[Key(InfoHash)].Str? { return None; }
    if |m[Key(InfoHash)].s| != 20 { return None; }
    var have := TextToHave(StrAt(m, Pieces));
    var unfinished: seq<Partial> := [];
    if Key(Unfinished) in m && m[Key(Unfinished)].List? {
      unfinished := ReadUnfinished(m[Key(Unfinished)].items);
    }
    var peers := TextToPeers(StrAt(m, Peers));
    r := Some(Resume(
      StrAt(m, InfoHash), StrAt(m, Name), StrAt(m, SavePath), have, unfinished,
      ToUint64(IntAt(m, TotalUploaded, 0)), ToUint64(IntAt(m, TotalDownloaded, 0)),
      Times(IntAt(m, ActiveTime, 0), IntAt(m, SeedingTime, 0), IntAt(m, AddedTime, 0), IntAt(m, CompletedTime, 0)),
      IntAt(m, Sequential, 0) != 0,
      Limits(ToInt32(IntAt(m, MaxConnections, -1)), ToInt32(IntAt(m, MaxUploads, -1)),
             IntAt(m, DownloadLimit, -1), IntAt(m, UploadLimit, -1)),
      StrAt(m, Info), peers));
  }
}
