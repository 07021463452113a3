/** Reading a written resume record: what comes back, and exactly when it is the same record. */
module ResumeRoundTrip {
  import opened Wrappers
  import opened Casts
  import opened Bencode
  import BencodeScan
  import Files
  import opened ResumeData
  import Bits

  // ----- looking fields up in the written dictionary

  lemma {:induction false} PutAllLookup(d: Resume, n: nat, f: Field)
    requires WellFormed(d) && n <= |FIELDS|
    ensures Key(f) in PutAll(d, n) <==> Rank(f) < n && Present(d, f)
    ensures Key(f) in PutAll(d, n) ==> PutAll(d, n)[Key(f)] == FieldValue(d, f)
  {
    hide Key, Present, FieldValue, Rank, WellFormed, FIELDS;
    if n > 0 {
      PutAllLookup(d, n - 1, f);
      KeyInjective(f, FIELDS[n - 1]);
      RankIsPosition(f, n - 1);
    }
  }

  lemma Lookup(d: Resume, f: Field)
    requires WellFormed(d)
    ensures var m := ToValue(d).entries;
            && (Key(f) in m <==> Present(d, f))
            && (Present(d, f) ==> m[Key(f)] == FieldValue(d, f))
  {
    hide Key, Present, FieldValue, Rank, WellFormed;
    PutAllLookup(d, |FIELDS|, f);
    RankIsPosition(f, 0);
  }

  lemma StrLookup(d: Resume, f: Field)
    requires WellFormed(d)
    ensures Present(d, f) && FieldValue(d, f).Str? ==> StrAt(ToValue(d).entries, f) == FieldValue(d, f).s
    ensures !Present(d, f) ==> StrAt(ToValue(d).entries, f) == []
  {
    hide Key, Present, FieldValue, ToValue, WellFormed;
    Lookup(d, f);
  }

  lemma IntLookup(d: Resume, f: Field, default: Int64)
    requires WellFormed(d)
    ensures Present(d, f) && FieldValue(d, f).Integer? ==> IntAt(ToValue(d).entries, f, default) == FieldValue(d, f).i
    ensures !Present(d, f) ==> IntAt(ToValue(d).entries, f, default) == default
  {
    hide Key, Present, FieldValue, ToValue, WellFormed;
    Lookup(d, f);
  }

  // ----- field by field

  lemma LowBits()
    ensures LowBit(1) && !LowBit(0)
  {
  }

  lemma HaveRoundTrip(have: seq<bool>)
    ensures HaveBits(HaveText(have)) == have
  {
    hide LowBit;
    LowBits();
  }

  lemma {:induction false} MaskBit(mask: Bytes, size: nat, n: nat, j: nat)
    requires n <= size < 0x1_0000_0000 && j < size
    ensures MaskUpTo(mask, size, n)[j] <==> j < n && Bits.PackedBit(mask, j)
  {
    hide Bits.PackedBit;
    if n > 0 { MaskBit(mask, size, n - 1, j); }
  }

  /** A count below 2^32 gives the plain unpacking. */
  lemma MaskIsUnpacked(mask: Bytes, n: nat)
    requires n < 0x1_0000_0000
    ensures ReadMask(mask, n) == Bits.Unpack(mask, n)
  {
    hide Bits.PackedBit, MaskUpTo;
    forall j | 0 <= j < n ensures MaskUpTo(mask, n, n)[j] == Bits.Unpack(mask, n)[j] {
      MaskBit(mask, n, n, j);
    }
  }

  lemma PartialRoundTrip(p: Partial)
    requires |p.blocks| < 0x1_0000_0000
    ensures ReadPartial(PartialValue(p)) == Some(p)
  {
    hide Bits.Pack, Bits.Unpack, ReadMask;
    MaskIsUnpacked(Bits.Pack(p.blocks), |p.blocks|);
    assert |PIECE| != |BITMASK| && |BITMASK| != |NUM_BLOCKS| && |PIECE| != |NUM_BLOCKS|;
    Bits.PackRoundTrip(p.blocks);
  }

  lemma {:induction false} InsertLast(u: seq<Partial>, p: Partial)
    requires forall i :: 0 <= i < |u| ==> u[i].piece < p.piece
    ensures Insert(u, p) == u + [p]
  {
    if u != [] {
      InsertLast(u[1..], p);
      assert u == [u[0]] + u[1..];
    }
  }

  lemma {:induction false} PartialsRoundTrip(u: seq<Partial>, n: nat)
    requires KeysAscend(u) && n <= |u| && forall i :: 0 <= i < |u| ==> |u[i].blocks| < 0x1_0000_0000
    ensures ReadPartials(PartialValues(u), n) == u[..n]
  {
    hide ReadPartial, PartialValue;
    if n > 0 {
      PartialsRoundTrip(u, n - 1);
      PartialRoundTrip(u[n - 1]);
      InsertLast(u[..n - 1], u[n - 1]);
      assert u[..n] == u[..n - 1] + [u[n - 1]];
    }
  }

  // ----- addresses

  /** A number, then a byte that is not a digit. */
  lemma ScanNumber(n: nat, s: Bytes)
    requires s == [] || !IsDigit(s[0])
    ensures ScanInt(NatText(n) + s) == Some((n, |NatText(n)|))
  {
    hide IsDigit, DigitsValue, NatText, LeadingDigits, SkipSpaces;
    var t := NatText(n);
    NatTextValue(n);
    DigitIsPlain(t[0]);
    NoSpaces(t + s);
    BencodeScan.LeadingDigitsStop(t, s);
    assert (t + s)[..|t|] == t;
  }

  lemma DigitIsPlain(b: Byte)
    ensures IsDigit(b) ==> !IsSpace(b) && b != MINUS && b != PLUS
    ensures !IsDigit(DOT)
  {
  }

  lemma NoSpaces(s: Bytes)
    requires s != [] && !IsSpace(s[0])
    ensures SkipSpaces(s) == s
  {
  }

  lemma ScanPartOf(n: nat, s: Bytes)
    ensures ScanPart(NatText(n) + ([DOT] + s)) == Some((n, s))
  {
    hide NatText, ScanInt;
    DigitIsPlain(DOT);
    ScanNumber(n, [DOT] + s);
    var t := NatText(n) + ([DOT] + s);
    assert t[|NatText(n)|..] == [DOT] + s;
  }

  lemma ScanDotted(a: nat, b: nat, c: nat, d: nat)
    ensures ScanQuad(Dotted(a, b, c, d)) == Some((a, b, c, d))
  {
    hide NatText, ScanInt, ScanPart;
    var td := NatText(d);
    var tc := NatText(c) + ([DOT] + td);
    var tb := NatText(b) + ([DOT] + tc);
    ScanPartOf(a, tb);
    ScanPartOf(b, tc);
    ScanPartOf(c, td);
    ScanNumber(d, []);
    assert td + [] == td;
  }

  function Power(k: nat): nat { if k == 0 then 1 else 2 * Power(k - 1) }

  /** Or of numbers whose bits do not overlap is their sum. */
  lemma {:induction false} OrIsSum(q: nat, y: nat, k: nat)
    requires y < Power(k)
    ensures Or(q * Power(k), y) == q * Power(k) + y
    decreases k
  {
    var x := q * Power(k);
    if k > 0 && x != 0 && y != 0 {
      var p := Power(k - 1);
      Doubled(q, p);
      OrIsSum(q, y / 2, k - 1);
    }
  }

  lemma Doubled(q: nat, p: nat)
    ensures q * (2 * p) == 2 * (q * p)
  {
  }

  lemma Powers()
    ensures Power(8) == 0x100 && Power(16) == 0x1_0000 && Power(24) == 0x100_0000
  {
    assert Power(4) == 16;
    assert Power(8) == 0x100;
    assert Power(12) == 0x1000;
    assert Power(16) == 0x1_0000;
    assert Power(20) == 0x10_0000;
    assert Power(24) == 0x100_0000;
  }

  predicate Octets(a: nat, b: nat, c: nat, d: nat) { a < 256 && b < 256 && c < 256 && d < 256 }

  lemma IpOfOctets(a: nat, b: nat, c: nat, d: nat)
    requires Octets(a, b, c, d)
    ensures IpNumber(a, b, c, d) == IpOf(a, b, c, d)
  {
    hide Or, Power, Shifted;
    Powers();
    ShiftedOctet(a);
    ShiftedOctet(b);
    ShiftedOctet(c);
    ShiftedOctet(d);
    OrIsSum(a, b * 0x1_0000, 24);
    OrIsSum(a * 256 + b, c * 0x100, 16);
    OrIsSum((a * 256 + b) * 256 + c, d, 8);
  }

  lemma ShiftedOctet(x: nat)
    requires x < 256
    ensures Shifted(x, 0x100_0000) == x * 0x100_0000 && Shifted(x, 0x1_0000) == x * 0x1_0000
    ensures Shifted(x, 0x100) == x * 0x100 && Shifted(x, 1) == x
  {
  }

  /** The text of an IPv4 address: four numbers below 256 without leading zeros. */
  ghost predicate IsDotted(ip: Bytes) {
    exists a, b, c, d :: Octets(a, b, c, d) && ip == Dotted(a, b, c, d)
  }

  lemma PeerRoundTrip(p: PeerAddress, s: Bytes)
    requires IsDotted(p.ip)
    ensures |PeerBytes(p)| == 6 && ReadPeer(PeerBytes(p) + s) == p
  {
    var a, b, c, d :| Octets(a, b, c, d) && p.ip == Dotted(a, b, c, d);
    hide Dotted, ScanQuad, IpNumber, SixBytes, ReadPeer, Octet, IpOf;
    ScanDotted(a, b, c, d);
    IpOfOctets(a, b, c, d);
    OctetsBack(a, b, c, d);
    SixRoundTrip(IpOf(a, b, c, d), p.port, s);
  }

  lemma SixRoundTrip(ip: nat, port: U16, s: Bytes)
    ensures |SixBytes(ip, port)| == 6
    ensures ReadPeer(SixBytes(ip, port) + s)
         == PeerAddress(Dotted(Octet(ip, 0x100_0000), Octet(ip, 0x1_0000), Octet(ip, 0x100), Octet(ip, 1)), port)
  {
    hide Dotted, Bits.ToByte, Bits.ByteValue, Octet, PortOf;
    OctetBounds(ip, port);
    Bits.ByteRoundTrip(Octet(ip, 0x100_0000));
    Bits.ByteRoundTrip(Octet(ip, 0x1_0000));
    Bits.ByteRoundTrip(Octet(ip, 0x100));
    Bits.ByteRoundTrip(Octet(ip, 1));
    Bits.ByteRoundTrip(Octet(port, 0x100));
    Bits.ByteRoundTrip(Octet(port, 1));
  }

  lemma OctetBounds(ip: nat, port: U16)
    ensures Octets(Octet(ip, 0x100_0000), Octet(ip, 0x1_0000), Octet(ip, 0x100), Octet(ip, 1))
    ensures Octet(port, 0x100) < 256 && Octet(port, 1) < 256 && PortOf(Octet(port, 0x100), Octet(port, 1)) == port
  {
  }

  function IpOf(a: nat, b: nat, c: nat, d: nat): nat { ((a * 256 + b) * 256 + c) * 256 + d }

  lemma OctetsBack(a: nat, b: nat, c: nat, d: nat)
    requires Octets(a, b, c, d)
    ensures var ip := IpOf(a, b, c, d);
            Octet(ip, 0x100_0000) == a && Octet(ip, 0x1_0000) == b && Octet(ip, 0x100) == c && Octet(ip, 1) == d
  {
    var z := a * 256 + b;
    var y := z * 256 + c;
    var ip := y * 256 + d;
    assert ip / 256 == y && y / 256 == z && z / 256 == a;
    Twice(ip);
    Twice(y);
  }

  lemma Twice(x: nat)
    ensures x / 256 / 256 == x / 0x1_0000 && x / 256 / 0x1_0000 == x / 0x100_0000
  {
    var q := x / 256;
    assert x == q * 256 + x % 256;
    assert q == q / 256 * 256 + q % 256;
    assert q == q / 0x1_0000 * 0x1_0000 + q % 0x1_0000;
  }

  lemma ReadPeerIsDotted(t: Bytes)
    requires |t| >= 6
    ensures IsDotted(ReadPeer(t).ip)
  {
    hide Dotted, Bits.ByteValue;
    assert Octets(Bits.ByteValue(t[0]), Bits.ByteValue(t[1]), Bits.ByteValue(t[2]), Bits.ByteValue(t[3]));
  }

  lemma {:induction false} ReadPeersSplit(a: Bytes, b: Bytes)
    requires |a| % 6 == 0
    ensures ReadPeers(a + b) == ReadPeers(a) + ReadPeers(b)
    decreases |a|
  {
    hide ReadPeer;
    if a == [] {
      assert a + b == b;
      assert ReadPeers(a) + ReadPeers(b) == ReadPeers(b);
    } else {
      assert (a + b)[6..] == a[6..] + b;
      ReadPeersSplit(a[6..], b);
      SamePeer(a, b);
    }
  }

  lemma SamePeer(a: Bytes, b: Bytes)
    requires |a| >= 6
    ensures ReadPeer(a + b) == ReadPeer(a)
  {
  }

  /** The peers that come back: those with a scannable address, in order. */
  function RestoredPeers(peers: seq<PeerAddress>): seq<PeerAddress> {
    if peers == [] then [] else RestoredPeers(peers[..|peers| - 1]) + RestoredPeer(peers[|peers| - 1])
  }

  function RestoredPeer(p: PeerAddress): seq<PeerAddress> {
    if |PeerBytes(p)| == 6 then [ReadPeer(PeerBytes(p))] else []
  }

  lemma {:induction false} PeersRoundTrip(peers: seq<PeerAddress>)
    ensures |PeersText(peers)| % 6 == 0 && |PeersText(peers)| <= 6 * |peers|
    ensures ReadPeers(PeersText(peers)) == RestoredPeers(peers)
  {
    hide PeerBytes, ReadPeer;
    if peers != [] {
      var init, p := peers[..|peers| - 1], peers[|peers| - 1];
      PeersRoundTrip(init);
      OnePeer(p);
      ReadPeersSplit(PeersText(init), PeerBytes(p));
    }
  }

  lemma OnePeer(p: PeerAddress)
    ensures |PeerBytes(p)| == 0 || |PeerBytes(p)| == 6
    ensures |PeerBytes(p)| == 6 ==> ReadPeers(PeerBytes(p)) == [ReadPeer(PeerBytes(p))]
    ensures |PeerBytes(p)| == 0 ==> ReadPeers(PeerBytes(p)) == []
  {
    hide ReadPeer, ScanQuad, IpNumber, Bits.ToByte;
  }

  lemma {:induction false} RestoredPeersSame(peers: seq<PeerAddress>)
    ensures |RestoredPeers(peers)| <= |peers|
    ensures forall i :: 0 <= i < |RestoredPeers(peers)| ==> IsDotted(RestoredPeers(peers)[i].ip)
    ensures (forall i :: 0 <= i < |peers| ==> IsDotted(peers[i].ip)) ==> RestoredPeers(peers) == peers
  {
    hide RestoredPeer, IsDotted;
    if peers != [] {
      var init, p := peers[..|peers| - 1], peers[|peers| - 1];
      RestoredPeersSame(init);
      RestoredPeerSame(p);
      assert init + [p] == peers;
    }
  }

  lemma RestoredPeerSame(p: PeerAddress)
    ensures |RestoredPeer(p)| <= 1
    ensures forall i :: 0 <= i < |RestoredPeer(p)| ==> IsDotted(RestoredPeer(p)[i].ip)
    ensures IsDotted(p.ip) ==> RestoredPeer(p) == [p]
  {
    hide PeerBytes, ReadPeer, IsDotted;
    if |PeerBytes(p)| == 6 { ReadPeerIsDotted(PeerBytes(p)); }
    if IsDotted(p.ip) {
      PeerRoundTrip(p, []);
      assert PeerBytes(p) + [] == PeerBytes(p);
    }
  }

  // ----- the whole record

  function Clamp(x: int): int { if x >= 0 then x else -1 }

  /** What reading gives back. */
  function Restored(d: Resume): Resume
    requires WellFormed(d)
  {
    d.(limits := Limits(Clamp(d.limits.connections), Clamp(d.limits.uploads), Clamp(d.limits.download),
                        Clamp(d.limits.upload)),
       peers := RestoredPeers(d.peers))
  }

  lemma CastsRoundTrip(x: U64, i: Int32)
    ensures ToUint64(ToInt64(x)) == x && ToInt32(i) == i && ToInt32(-1) == -1 && ToInt32(1) == 1
  {
  }

  lemma WrittenIsAcceptable(d: Resume)
    requires WellFormed(d)
    ensures Acceptable(ToValue(d).entries)
  {
    hide ToValue, Key;
    Lookup(d, FileFormat);
    Lookup(d, FileVersion);
    Lookup(d, InfoHash);
    CastsRoundTrip(0, 0);
  }

  lemma TextsRestored(d: Resume)
    requires WellFormed(d)
    ensures var m := ToValue(d).entries;
            && StrAt(m, InfoHash) == d.infoHash && StrAt(m, Name) == d.name && StrAt(m, SavePath) == d.savePath
            && HaveBits(StrAt(m, Pieces)) == d.have && StrAt(m, Info) == d.info
            && ReadPeers(StrAt(m, Peers)) == RestoredPeers(d.peers)
  {
    hide ToValue, StrAt, HaveText, HaveBits, PeersText, ReadPeers, RestoredPeers;
    StrLookup(d, InfoHash);
    StrLookup(d, Name);
    StrLookup(d, SavePath);
    StrLookup(d, Pieces);
    StrLookup(d, Info);
    StrLookup(d, Peers);
    HaveRoundTrip(d.have);
    HaveRoundTrip([]);
    NoText();
    PeersRoundTrip(d.peers);
  }

  lemma NoText()
    ensures HaveText([]) == []
  {
  }

  lemma NumbersRestored(d: Resume)
    requires WellFormed(d)
    ensures var m := ToValue(d).entries;
            && ToUint64(IntAt(m, TotalUploaded, 0)) == d.uploaded
            && ToUint64(IntAt(m, TotalDownloaded, 0)) == d.downloaded
            && (IntAt(m, Sequential, 0) != 0) == d.sequential
  {
    hide ToValue, IntAt, WellFormed, ToInt64, ToUint64;
    IntLookup(d, TotalUploaded, 0);
    IntLookup(d, TotalDownloaded, 0);
    IntLookup(d, Sequential, 0);
    CastsRoundTrip(d.uploaded, 0);
    CastsRoundTrip(d.downloaded, 0);
  }

  lemma TimesRestored(d: Resume)
    requires WellFormed(d)
    ensures var m := ToValue(d).entries;
            && IntAt(m, ActiveTime, 0) == d.times.active && IntAt(m, SeedingTime, 0) == d.times.seeding
            && IntAt(m, AddedTime, 0) == d.times.added && IntAt(m, CompletedTime, 0) == d.times.completed
  {
    hide ToValue, IntAt, WellFormed;
    IntLookup(d, ActiveTime, 0);
    IntLookup(d, SeedingTime, 0);
    IntLookup(d, AddedTime, 0);
    IntLookup(d, CompletedTime, 0);
  }

  lemma LimitsRestored(d: Resume)
    requires WellFormed(d)
    ensures var m := ToValue(d).entries;
            && ToInt32(IntAt(m, MaxConnections, -1)) == Clamp(d.limits.connections)
            && ToInt32(IntAt(m, MaxUploads, -1)) == Clamp(d.limits.uploads)
            && IntAt(m, DownloadLimit, -1) == Clamp(d.limits.download)
            && IntAt(m, UploadLimit, -1) == Clamp(d.limits.upload)
  {
    hide ToValue, IntAt, WellFormed, ToInt32;
    IntLookup(d, MaxConnections, -1);
    IntLookup(d, MaxUploads, -1);
    IntLookup(d, DownloadLimit, -1);
    IntLookup(d, UploadLimit, -1);
    CastsRoundTrip(0, d.limits.connections);
    CastsRoundTrip(0, d.limits.uploads);
  }

  lemma ValueRoundTrip(d: Resume)
    requires WellFormed(d)
    ensures ReadValue(ToValue(d)) == Some(Restored(d))
  {
    hide PutAll, Acceptable, StrAt, IntAt, Key, ToInt32, ToUint64, HaveBits, ReadPeers, RestoredPeers, ReadPartials,
         PartialValues;
    WrittenIsAcceptable(d);
    TextsRestored(d);
    NumbersRestored(d);
    TimesRestored(d);
    LimitsRestored(d);
    Lookup(d, Unfinished);
    PartialsRoundTrip(d.unfinished, |d.unfinished|);
    assert d.unfinished[..|d.unfinished|] == d.unfinished;
  }

  // ----- down to bytes

  lemma PartialFits(p: Partial)
    requires |p.blocks| < 0x1_0000_0000
    ensures Fits(PartialValue(p))
  {
    hide Bits.PackUpTo;
    Bits.PackRoundTrip(p.blocks);
  }

  lemma FieldFits(d: Resume, f: Field)
    requires WellFormed(d)
    ensures Fits(FieldValue(d, f))
  {
    hide PartialValues, PeersText, HaveText, ToInt64, KeysAscend;
    if f.Unfinished? {
      PartialsFit(d.unfinished);
    } else if f.Peers? {
      PeersLength(d.peers);
    }
  }

  lemma PeersLength(peers: seq<PeerAddress>)
    ensures |PeersText(peers)| <= 6 * |peers|
  {
    hide *;
    PeersRoundTrip(peers);
  }

  lemma PartialsFit(u: seq<Partial>)
    requires forall i :: 0 <= i < |u| ==> |u[i].blocks| < 0x1_0000_0000
    ensures Fits(List(PartialValues(u)))
  {
    hide PartialValue;
    forall i | 0 <= i < |u| ensures Fits(PartialValue(u[i])) {
      hide *;
      PartialFits(u[i]);
    }
  }

  lemma {:induction false} WrittenFits(d: Resume, n: nat)
    requires WellFormed(d) && n <= |FIELDS|
    ensures forall k :: k in PutAll(d, n) ==> |k| < SIZE_LIMIT && Fits(PutAll(d, n)[k])
  {
    hide Fits, Present, FieldValue, Key, WellFormed;
    if n > 0 {
      WrittenFits(d, n - 1);
      FieldFits(d, FIELDS[n - 1]);
      KeyTells(FIELDS[n - 1]);
    }
  }

  /** Every record is read back from its file, followed by anything, up to the limits below -1
      and the peers without an IPv4 address. */
  lemma ResumeRoundTrip(d: Resume, s: Bytes)
    requires WellFormed(d)
    ensures Read(Encode(ToValue(d)) + s) == Some(Restored(d))
  {
    hide PutAll, Encode, ParseValue, ReadValue, Restored, WellFormed;
    WrittenFits(d, |FIELDS|);
    RoundTrip(ToValue(d), s);
    ValueRoundTrip(d);
  }

  predicate LimitsUsual(l: Limits) {
    l.connections >= -1 && l.uploads >= -1 && l.download >= -1 && l.upload >= -1
  }

  /** The record is restored exactly when its limits are -1 or more and every peer is a dotted quad. */
  lemma RestoredExactly(d: Resume)
    requires WellFormed(d)
    ensures Read(Encode(ToValue(d))) == Some(d)
            <==> LimitsUsual(d.limits) && forall i :: 0 <= i < |d.peers| ==> IsDotted(d.peers[i].ip)
  {
    hide Read, Encode, ToValue, IsDotted, RestoredPeers, WellFormed;
    ResumeRoundTrip(d, []);
    assert Encode(ToValue(d)) + [] == Encode(ToValue(d));
    RestoredPeersSame(d.peers);
    var r := Restored(d);
    assert r == d <==> r.limits == d.limits && r.peers == d.peers;
  }

  /** A limit below -1 comes back as -1. */
  lemma LowLimitIsLost()
    ensures var d := Resume(Files.Zeros(20), [], [], [], [], 0, 0, Times(0, 0, 0, 0), false, Limits(-2, -1, -1, -1), [],
                            []);
            WellFormed(d) && Read(Encode(ToValue(d))) != Some(d)
  {
    var d := Resume(Files.Zeros(20), [], [], [], [], 0, 0, Times(0, 0, 0, 0), false, Limits(-2, -1, -1, -1), [], []);
    hide Read, Encode, ToValue, IsDotted;
    RestoredExactly(d);
  }
}
