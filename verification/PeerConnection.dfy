/** The receiving half of BtPeerConnection (src/bt_peer_connection.cpp) as an object, proved
    against PeerStream. */
module PeerConnection {
  import opened Wrappers
  import opened Casts
  import opened Wire
  import opened PeerStream
  import Bencode
  import BencodeCodec

  class Connection {
    const torrents: map<Bytes, U32>
    var infoHash: Option<Bytes>
    var numPieces: U32
    var closed: bool
    var connected: bool
    var handshake: Option<Handshake>
    var choking: bool
    var interested: bool
    var pieces: seq<bool>
    var hasAll: bool
    var bitfieldReceived: bool
    var pending: seq<Request>
    var bytesDownloaded: nat
    var piecesReceived: nat
    var messagesReceived: nat
    var extension: Extension
    var buffer: Bytes
    ghost var handled: seq<Message>

    ghost function Value(): Peer
      reads this
    {
      Peer(torrents, infoHash, numPieces, closed, connected, handshake, Now(), handled, buffer)
    }

    ghost function Now(): Status
      reads this
    {
      Status(choking, interested, pieces, hasAll, bitfieldReceived, pending, bytesDownloaded, piecesReceived,
             messagesReceived, extension)
    }

    /** An outgoing connection knows its torrent, an incoming one looks it up. */
    constructor (torrents: map<Bytes, U32>, infoHash: Option<Bytes>, numPieces: U32)
      ensures Value() == Peer(torrents, infoHash, numPieces, false, false, None,
                              Status(true, false, NoneSet(numPieces), false, false, [], 0, 0, 0,
                                     Extension(false, 0, 0, None)), [], [])
    {
      this.torrents, this.infoHash, this.numPieces := torrents, infoHash, numPieces;
      closed, connected, handshake := false, false, None;
      choking, interested, pieces, hasAll, bitfieldReceived := true, false, NoneSet(numPieces), false, false;
      pending, bytesDownloaded, piecesReceived, messagesReceived := [], 0, 0, 0;
      extension := Extension(false, 0, 0, None);
      buffer, handled := [], [];
    }

    /** Bytes from the socket, then process_incoming. */
    method Receive(chunk: Bytes)
      modifies this
      ensures Value() == PeerStream.Receive(old(Value()), chunk)
    {
      if closed { return; }
      buffer := buffer + chunk;
      ProcessIncoming();
    }

    method ProcessIncoming()
      modifies this
      ensures Value() == Process(old(Value()))
    {
      hide Greet, Drain;
      if buffer == [] { return; }
      if !connected { ProcessHandshake(); }
      if connected { ProcessMessages(); }
    }

    method Close()
      modifies this
      ensures Value() == Closed(old(Value()))
    {
      closed := true;
      buffer := [];
      pending := [];
    }

    method SetTorrentInfo(hash: Bytes, n: U32)
      modifies this
      ensures Value() == old(Value()).(infoHash := Some(hash), numPieces := n,
                                       status := old(Now()).(pieces := Resized(old(Now()), n)))
    {
      infoHash, numPieces := Some(hash), n;
      if |pieces| != n {
        pieces := if hasAll then AllSet(n) else Fit(pieces, n);
      }
    }

    /** The callback by which an incoming connection learns its torrent. */
    method LookUpTorrent(hash: Bytes)
      modifies this
      ensures Value() == Routed(old(Value()), hash)
    {
      if hash in torrents {
        SetTorrentInfo(hash, torrents[hash]);
      }
    }

    method ProcessHandshake()
      modifies this
      ensures Value() == Greet(old(Value()))
    {
      hide DecodeHandshake, Admitted;
      if |buffer| < HANDSHAKE_SIZE { return; }
      var hs := DecodeHandshake(buffer);
      if hs.None? {
        Close();
        return;
      }
      handshake := hs;
      Admit(hs.value.infoHash);
    }

    method Admit(hash: Bytes)
      requires |buffer| >= HANDSHAKE_SIZE
      modifies this
      ensures Value() == Admitted(old(Value()), hash)
    {
      hide Resized;
      if infoHash.None? {
        LookUpTorrent(hash);
        if infoHash.None? {
          Close();
          return;
        }
      }
      if infoHash.value != hash {
        Close();
        return;
      }
      connected := true;
      buffer := buffer[HANDSHAKE_SIZE..];
    }

    method ProcessMessages()
      modifies this
      ensures Value() == Drain(old(Value()))
    {
      hide MessageLength, Decode, IsKeepAlive, Counted;
      ghost var start := Value();
      while buffer != []
        invariant Drain(Value()) == Drain(start)
        decreases |buffer|
      {
        ghost var c := Value();
        var n := MessageLength(buffer);
        MessageLengthBound(buffer);
        if n == 0 { break; }
        TakeOneShrinks(c);
        if IsKeepAlive(buffer) {
          buffer := buffer[4..];
          continue;
        }
        var m := Decode(buffer, numPieces);
        if m.Some? {
          HandleMessage(m.value);
        }
        buffer := buffer[n..];
        assert Value() == TakeOne(c);
      }
      if buffer == [] { DrainEmpty(Value()); }
    }

    /** handle_message; its caller counts the message. */
    method HandleMessage(m: Message)
      modifies this
      ensures Value() == Handle(old(Value()), m)
    {
      hide Effect;
      Apply(m);
      messagesReceived := messagesReceived + 1;
      handled := handled + [m];
    }

    /** The switch of handle_message. */
    method Apply(m: Message)
      modifies this`choking, this`interested, this`pieces, this`hasAll, this`bitfieldReceived
      modifies this`pending, this`bytesDownloaded, this`piecesReceived, this`extension
      ensures Now() == Effect(old(Now()), numPieces, m)
    {
      hide AllSet, NoneSet, Fit, PeerStream.ExtensionHandshake, Bencode.ParseValue, Without;
      match m {
        case Choke => choking := true;
        case Unchoke => choking := false;
        case Interested => interested := true;
        case NotInterested => interested := false;
        case Piece(i, begin, data) => CountPiece(i, begin, data);
        case Extended(id, payload) =>
          if id == 0 && payload != [] { ParseExtensionHandshake(payload); }
        case Have(_) | Bitfield(_) | HaveAll | HaveNone => ApplyPieces(m);
        case _ =>
      }
    }

    /** Its cases about the pieces that the other side has. */
    method ApplyPieces(m: Message)
      requires m.Have? || m.Bitfield? || m.HaveAll? || m.HaveNone?
      modifies this`pieces, this`hasAll, this`bitfieldReceived
      ensures Now() == Effect(old(Now()), numPieces, m)
    {
      hide AllSet, NoneSet, Fit, PeerStream.ExtensionHandshake, Bencode.ParseValue, Without;
      match m {
        case Have(i) => AddPiece(i);
        case Bitfield(bits) => StoreBitfield(bits);
        case HaveAll => StoreHaveAll();
        case HaveNone =>
          hasAll, bitfieldReceived := false, true;
          pieces := NoneSet(|pieces|);
      }
    }

    method StoreBitfield(bits: seq<bool>)
      modifies this`pieces, this`hasAll, this`bitfieldReceived
      ensures pieces == (if numPieces > 0 then Fit(bits, numPieces) else bits) && !hasAll && bitfieldReceived
    {
      FitSame(bits);
      pieces := if numPieces > 0 && |bits| != numPieces then Fit(bits, numPieces) else bits;
      hasAll, bitfieldReceived := false, true;
    }

    method StoreHaveAll()
      modifies this`pieces, this`hasAll, this`bitfieldReceived
      ensures pieces == AllSet(|old(pieces)|) && hasAll && bitfieldReceived
    {
      hasAll, bitfieldReceived := true, true;
      NoPieces(pieces);
      if |pieces| > 0 { pieces := AllSet(|pieces|); }
    }

    method CountPiece(i: U32, begin: U32, data: Bytes)
      modifies this`pending, this`bytesDownloaded, this`piecesReceived
      ensures bytesDownloaded == old(bytesDownloaded) + |data| && piecesReceived == old(piecesReceived) + 1
      ensures pending == Without(old(pending), Request(i, begin, |data| % 0x1_0000_0000))
    {
      bytesDownloaded := bytesDownloaded + |data|;
      piecesReceived := piecesReceived + 1;
      RemovePending(Request(i, begin, |data| % 0x1_0000_0000));
    }

    method AddPiece(i: nat)
      modifies this`pieces
      ensures pieces == if i >= numPieces || i >= |old(pieces)| then old(pieces) else old(pieces)[i := true]
    {
      if numPieces == 0 || i >= numPieces { return; }
      if i < |pieces| && pieces[i] { return; }
      if i < |pieces| { pieces := pieces[i := true]; }
    }

    method RemovePending(r: Request)
      modifies this`pending
      ensures pending == Without(old(pending), r)
    {
      hide Without;
      var i := 0;
      while i < |pending| && pending[i] != r
        invariant i <= |pending| && forall j :: 0 <= j < i ==> pending[j] != r
      {
        i := i + 1;
      }
      WithoutFirst(pending, r, i);
      if i < |pending| {
        pending := pending[..i] + pending[i + 1..];
      }
    }

    method ParseExtensionHandshake(payload: Bytes)
      modifies this`extension
      ensures extension == PeerStream.ExtensionHandshake(old(extension), payload)
    {
      hide Bencode.ParseValue;
      var r := BencodeCodec.DecodeBytes(payload);
      if r.None? || !r.value.Dict? { return; }
      var d := r.value.entries;
      extension := extension.(received := true);
      if METADATA_SIZE in d && d[METADATA_SIZE].Integer? {
        extension := extension.(metadataSize := d[METADATA_SIZE].i % 0x1_0000_0000_0000_0000);
      }
      if M in d && d[M].Dict? {
        var m := d[M].entries;
        if UT_METADATA in m && m[UT_METADATA].Integer? {
          extension := extension.(utMetadataId := m[UT_METADATA].i % 256);
        }
      }
      if V in d && d[V].Str? {
        extension := extension.(version := Some(d[V].s));
      }
    }
  }

  lemma FitSame(bits: seq<bool>)
    ensures Fit(bits, |bits|) == bits
  {
  }

  lemma NoPieces(pieces: seq<bool>)
    ensures |pieces| == 0 ==> AllSet(|pieces|) == pieces
  {
  }

  lemma {:induction false} WithoutAfter(a: seq<Request>, b: seq<Request>, r: Request)
    requires forall j :: 0 <= j < |a| ==> a[j] != r
    ensures Without(a + b, r) == a + Without(b, r)
    decreases |a|
  {
    if a == [] {
      assert a + b == b;
    } else {
      WithoutAfter(a[1..], b, r);
      WithoutSkips(a[0], a[1..] + b, r);
      assert a + b == [a[0]] + (a[1..] + b);
      hide Without;
      assert a + Without(b, r) == [a[0]] + (a[1..] + Without(b, r));
    }
  }

  lemma WithoutSkips(x: Request, s: seq<Request>, r: Request)
    requires x != r
    ensures Without([x] + s, r) == [x] + Without(s, r)
  {
    assert ([x] + s)[1..] == s;
  }

  lemma WithoutHead(s: seq<Request>, r: Request)
    requires s == [] || s[0] == r
    ensures Without(s, r) == if s == [] then [] else s[1..]
  {
  }

  lemma WithoutFirst(s: seq<Request>, r: Request, i: nat)
    requires i <= |s| && (forall j :: 0 <= j < i ==> s[j] != r) && (i < |s| ==> s[i] == r)
    ensures Without(s, r) == if i < |s| then s[..i] + s[i + 1..] else s
  {
    hide Without;
    assert s == s[..i] + s[i..];
    WithoutAfter(s[..i], s[i..], r);
    WithoutHead(s[i..], r);
    assert i < |s| ==> s[i..][1..] == s[i + 1..];
  }
}
