/** What a peer connection makes of the bytes it receives (src/bt_peer_connection.cpp). */
module PeerStream {
  import opened Wrappers
  import opened Casts
  import opened Wire
  import Bits
  import Bencode

  /** What messages can change. */
  datatype Status = Status(
    choking: bool,
    interested: bool,
    pieces: seq<bool>,
    hasAll: bool,
    bitfieldReceived: bool,
    pending: seq<Request>,
    bytesDownloaded: nat,
    piecesReceived: nat,
    messagesReceived: nat,
    extension: Extension)

  datatype Extension = Extension(received: bool, metadataSize: nat, utMetadataId: nat, version: Option<Bytes>)

  /** A connection, with the registered torrents. Sent bytes, clocks and callbacks are not part
      of it; `handled` is the sequence of messages given to on_message. */
  datatype Peer = Peer(
    torrents: map<Bytes, U32>,
    infoHash: Option<Bytes>,
    numPieces: U32,
    closed: bool,
    connected: bool,
    handshake: Option<Handshake>,
    status: Status,
    handled: seq<Message>,
    buffer: Bytes)

  // ----- single messages

  const METADATA_SIZE: Bytes := [0x6D, 0x65, 0x74, 0x61, 0x64, 0x61, 0x74, 0x61, 0x5F, 0x73, 0x69, 0x7A, 0x65]
  const UT_METADATA: Bytes := [0x75, 0x74, 0x5F, 0x6D, 0x65, 0x74, 0x61, 0x64, 0x61, 0x74, 0x61]
  const M: Bytes := [0x6D]
  const V: Bytes := [0x76]

  /** parse_extension_handshake, with the casts to size_t and uint8_t. */
  function ExtensionHandshake(x: Extension, payload: Bytes): Extension {
    var parsed := Bencode.ParseValue(payload);
    if !parsed.Ok? || !parsed.value.Dict? then x
    else
      var d := parsed.value.entries;
      Extension(true,
                if METADATA_SIZE in d && d[METADATA_SIZE].Integer?
                then d[METADATA_SIZE].i % 0x1_0000_0000_0000_0000 else x.metadataSize,
                if M in d && d[M].Dict? && UT_METADATA in d[M].entries && d[M].entries[UT_METADATA].Integer?
                then d[M].entries[UT_METADATA].i % 256 else x.utMetadataId,
                if V in d && d[V].Str? then Some(d[V].s) else x.version)
  }

  function Without(s: seq<Request>, r: Request): seq<Request> {
    if s == [] then [] else if s[0] == r then s[1..] else [s[0]] + Without(s[1..], r)
  }

  function AllSet(n: nat): seq<bool> { seq(n, _ => true) }
  function NoneSet(n: nat): seq<bool> { seq(n, _ => false) }

  /** The switch of handle_message. */
  function Effect(s: Status, numPieces: U32, m: Message): Status {
    match m
    case Choke => s.(choking := true)
    case Unchoke => s.(choking := false)
    case Interested => s.(interested := true)
    case NotInterested => s.(interested := false)
    case Have(i) => if i >= numPieces || i >= |s.pieces| then s else s.(pieces := s.pieces[i := true])
    case Bitfield(bits) =>
      s.(pieces := if numPieces > 0 then Fit(bits, numPieces) else bits, hasAll := false, bitfieldReceived := true)
    case Piece(i, begin, data) =>
      s.(bytesDownloaded := s.bytesDownloaded + |data|, piecesReceived := s.piecesReceived + 1,
         pending := Without(s.pending, Request(i, begin, |data| % 0x1_0000_0000)))
    case HaveAll => s.(hasAll := true, bitfieldReceived := true, pieces := AllSet(|s.pieces|))
    case HaveNone => s.(hasAll := false, bitfieldReceived := true, pieces := NoneSet(|s.pieces|))
    case Extended(id, payload) =>
      if id == 0 && payload != [] then s.(extension := ExtensionHandshake(s.extension, payload)) else s
    case _ => s
  }

  /** handle_message, with the count that process_messages keeps. */
  function Counted(s: Status, numPieces: U32, m: Message): Status {
    var t := Effect(s, numPieces, m);
    t.(messagesReceived := t.messagesReceived + 1)
  }

  function Handle(c: Peer, m: Message): Peer {
    c.(status := Counted(c.status, c.numPieces, m), handled := c.handled + [m])
  }

  function HandleAll(c: Peer, ms: seq<Message>): Peer
    decreases |ms|
  {
    if ms == [] then c else HandleAll(Handle(c, ms[0]), ms[1..])
  }

  // ----- the stream

  function Skip(c: Peer, n: nat): Peer
    requires n <= |c.buffer|
  {
    c.(buffer := c.buffer[n..])
  }

  /** One turn of process_messages on a complete message. */
  function TakeOne(c: Peer): (r: Peer)
    requires MessageLength(c.buffer) > 0
    ensures |r.buffer| < |c.buffer|
  {
    var n := MessageLength(c.buffer);
    if IsKeepAlive(c.buffer) then Skip(c, 4)
    else
      var m := Decode(c.buffer, c.numPieces);
      if m.Some? then Skip(Handle(c, m.value), n) else Skip(c, n)
  }

  /** process_messages. */
  function Drain(c: Peer): Peer
    decreases |c.buffer|
  {
    if MessageLength(c.buffer) == 0 then c else Drain(TakeOne(c))
  }

  function Closed(c: Peer): Peer { c.(closed := true, buffer := [], status := c.status.(pending := [])) }

  /** process_handshake. */
  function Greet(c: Peer): Peer {
    if |c.buffer| < HANDSHAKE_SIZE then c
    else
      var hs := DecodeHandshake(c.buffer);
      if hs.None? then Closed(c)
      else Admitted(c.(handshake := hs), hs.value.infoHash)
  }

  /** The rest of process_handshake, once the other side's info hash is known. */
  function Admitted(c: Peer, infoHash: Bytes): Peer
    requires |c.buffer| >= HANDSHAKE_SIZE
  {
    var known := if c.infoHash.Some? then c else Routed(c, infoHash);
    if known.infoHash != Some(infoHash) then Closed(known)
    else Skip(known.(connected := true), HANDSHAKE_SIZE)
  }

  /** The lookup of an incoming connection's torrent, and set_torrent_info. */
  function Routed(c: Peer, infoHash: Bytes): (r: Peer)
    ensures r.buffer == c.buffer
  {
    if infoHash !in c.torrents then c
    else
      var n := c.torrents[infoHash];
      c.(infoHash := Some(infoHash), numPieces := n, status := c.status.(pieces := Resized(c.status, n)))
  }

  function Resized(s: Status, n: nat): seq<bool> {
    if |s.pieces| == n then s.pieces else if s.hasAll then AllSet(n) else Fit(s.pieces, n)
  }

  /** process_incoming. */
  function Process(c: Peer): Peer {
    if c.buffer == [] then c
    else
      var g := if c.connected then c else Greet(c);
      if g.connected then Drain(g) else g
  }

  /** Bytes arrive; a closed connection receives nothing more. */
  function Receive(c: Peer, chunk: Bytes): Peer {
    if c.closed then c else Process(c.(buffer := c.buffer + chunk))
  }

  // ----- independence of how the stream is cut

  function More(c: Peer, s: Bytes): Peer { c.(buffer := c.buffer + s) }

  lemma LengthGrows(a: Bytes, s: Bytes)
    requires MessageLength(a) > 0
    ensures MessageLength(a + s) == MessageLength(a) && IsKeepAlive(a + s) == IsKeepAlive(a)
  {
    hide Bits.ByteValue, Join;
    assert Read32(a + s) == Read32(a);
  }

  lemma DecodeGrows(a: Bytes, s: Bytes, n: nat)
    requires MessageLength(a) > 0 && MessageLength(a + s) == MessageLength(a)
    ensures Decode(a + s, n) == Decode(a, n)
  {
    hide DecodeBody, MessageLength;
    MessageLengthBound(a);
    var k := MessageLength(a);
    assert (a + s)[4..k] == a[4..k];
  }

  lemma MessageLengthBound(a: Bytes)
    ensures MessageLength(a) <= |a| && (MessageLength(a) == 0 || MessageLength(a) >= 4)
  {
  }

  lemma HandleMore(c: Peer, m: Message, s: Bytes)
    ensures Handle(More(c, s), m) == More(Handle(c, m), s)
  {
    hide Counted;
  }

  lemma SkipMore(c: Peer, n: nat, s: Bytes)
    requires n <= |c.buffer|
    ensures Skip(More(c, s), n) == More(Skip(c, n), s)
  {
    assert (c.buffer + s)[n..] == c.buffer[n..] + s;
  }

  lemma TakeOneMore(c: Peer, s: Bytes)
    requires MessageLength(c.buffer) > 0
    ensures MessageLength(More(c, s).buffer) > 0
    ensures TakeOne(More(c, s)) == More(TakeOne(c), s)
  {
    hide Counted, Decode, MessageLength, IsKeepAlive;
    MessageLengthBound(c.buffer);
    LengthGrows(c.buffer, s);
    DecodeGrows(c.buffer, s, c.numPieces);
    var n := MessageLength(c.buffer);
    if IsKeepAlive(c.buffer) {
      SkipMore(c, 4, s);
    } else {
      var m := Decode(c.buffer, c.numPieces);
      if m.Some? {
        HandleMore(c, m.value, s);
        SkipMore(Handle(c, m.value), n, s);
      } else {
        SkipMore(c, n, s);
      }
    }
  }

  /** Draining early and draining late come to the same. */
  lemma {:induction false} DrainMore(c: Peer, s: Bytes)
    ensures Drain(More(Drain(c), s)) == Drain(More(c, s))
    decreases |c.buffer|
  {
    hide TakeOne, MessageLength;
    if MessageLength(c.buffer) > 0 {
      TakeOneShrinks(c);
      TakeOneMore(c, s);
      DrainMore(TakeOne(c), s);
    }
  }

  lemma TakeOneShrinks(c: Peer)
    requires MessageLength(c.buffer) > 0
    ensures |TakeOne(c).buffer| < |c.buffer|
  {
  }

  lemma {:induction false} DrainKeeps(c: Peer)
    ensures Drain(c).connected == c.connected && Drain(c).closed == c.closed
    decreases |c.buffer|
  {
    hide MessageLength;
    if MessageLength(c.buffer) > 0 {
      TakeOneShrinks(c);
      DrainKeeps(TakeOne(c));
    }
  }

  lemma HandshakeGrows(a: Bytes, s: Bytes)
    requires |a| >= HANDSHAKE_SIZE
    ensures DecodeHandshake(a + s) == DecodeHandshake(a)
  {
    hide ReadFlags;
    assert (a + s)[1..20] == a[1..20] && (a + s)[20..28] == a[20..28];
    assert (a + s)[28..48] == a[28..48] && (a + s)[48..68] == a[48..68];
  }

  lemma GreetMore(c: Peer, s: Bytes)
    requires |c.buffer| >= HANDSHAKE_SIZE && !c.closed && !c.connected
    ensures Greet(More(c, s)) == if Greet(c).closed then Greet(c) else More(Greet(c), s)
  {
    hide DecodeHandshake, Resized;
    HandshakeGrows(c.buffer, s);
    assert (c.buffer + s)[HANDSHAKE_SIZE..] == c.buffer[HANDSHAKE_SIZE..] + s;
  }

  /** Where the stream is cut does not matter. */
  lemma ReceiveSplit(c: Peer, a: Bytes, b: Bytes)
    ensures Receive(Receive(c, a), b) == Receive(c, a + b)
  {
    hide Drain, Greet, HANDSHAKE_SIZE;
    if !c.closed {
      var ca := More(c, a);
      assert c.buffer + (a + b) == ca.buffer + b;
      if ca.buffer == [] {
      } else if c.connected {
        DrainKeeps(ca);
        ProcessConnected(ca, b);
      } else {
        ProcessGreeting(ca, b);
      }
    }
  }

  lemma ProcessConnected(c: Peer, b: Bytes)
    requires c.connected && !c.closed && c.buffer != []
    ensures Receive(Process(c), b) == Process(More(c, b))
  {
    hide Drain, Greet;
    DrainKeeps(c);
    DrainMore(c, b);
    if Drain(c).buffer + b == [] {
      DrainEmpty(More(Drain(c), b));
    }
  }

  lemma DrainEmpty(c: Peer)
    requires c.buffer == []
    ensures Drain(c) == c
  {
  }

  lemma ProcessGreeting(c: Peer, b: Bytes)
    requires !c.connected && !c.closed && c.buffer != []
    ensures Receive(Process(c), b) == Process(More(c, b))
  {
    hide Drain;
    if |c.buffer| >= HANDSHAKE_SIZE {
      GreetMore(c, b);
      GreetOutcome(c);
      hide Greet;
      var g := Greet(c);
      if g.connected {
        DrainKeeps(g);
        DrainMore(g, b);
        if Drain(g).buffer + b == [] {
          DrainEmpty(More(Drain(g), b));
        }
      }
    }
  }

  lemma GreetOutcome(c: Peer)
    requires !c.connected && !c.closed && |c.buffer| >= HANDSHAKE_SIZE
    ensures Greet(c).closed <==> !Greet(c).connected
  {
  }

  function Concat(chunks: seq<Bytes>): Bytes {
    if chunks == [] then [] else chunks[0] + Concat(chunks[1..])
  }

  function ReceiveAll(c: Peer, chunks: seq<Bytes>): Peer
    decreases |chunks|
  {
    if chunks == [] then c else ReceiveAll(Receive(c, chunks[0]), chunks[1..])
  }

  /** The handled messages and the final state depend only on the bytes, not on the receives. */
  lemma {:induction false} StreamIsChunkingFree(c: Peer, chunks: seq<Bytes>)
    requires chunks != []
    ensures ReceiveAll(c, chunks) == Receive(c, Concat(chunks))
    decreases |chunks|
  {
    hide Receive;
    var rest := chunks[1..];
    if rest == [] {
      assert chunks[0] + Concat(rest) == chunks[0];
      assert ReceiveAll(Receive(c, chunks[0]), rest) == Receive(c, chunks[0]);
    } else {
      StreamIsChunkingFree(Receive(c, chunks[0]), rest);
      ReceiveSplit(c, chunks[0], Concat(rest));
    }
  }

  // ----- exactly the sent messages

  datatype Item = Alive | Send(m: Message)

  predicate AllSendable(items: seq<Item>) {
    forall i :: 0 <= i < |items| && items[i].Send? ==> Sendable(items[i].m)
  }

  function Frames(items: seq<Item>): Bytes
    requires AllSendable(items)
  {
    if items == [] then []
    else (if items[0].Alive? then KEEP_ALIVE else Encode(items[0].m)) + Frames(items[1..])
  }

  /** The messages among the items, as the receiver sees them. */
  function Messages(items: seq<Item>, numPieces: nat): seq<Message> {
    if items == [] then []
    else (if items[0].Alive? then [] else [Seen(items[0].m, numPieces)]) + Messages(items[1..], numPieces)
  }

  lemma DrainFrame(c: Peer, item: Item, s: Bytes)
    requires item.Send? ==> Sendable(item.m)
    requires c.buffer == (if item.Alive? then KEEP_ALIVE else Encode(item.m)) + s
    ensures MessageLength(c.buffer) > 0
    ensures TakeOne(c) == (if item.Alive? then c else Handle(c, Seen(item.m, c.numPieces))).(buffer := s)
  {
    hide Counted, Decode, MessageLength, Encode, Seen, IsKeepAlive;
    if item.Alive? {
      KeepAliveIsRecognised(s);
      assert c.buffer[4..] == s;
    } else {
      MessageRoundTrip(item.m, s, c.numPieces);
      assert c.buffer[|Encode(item.m)|..] == s;
    }
  }

  lemma {:induction false} DrainFrames(c: Peer, items: seq<Item>)
    requires AllSendable(items) && c.buffer == Frames(items)
    ensures Drain(c) == HandleAll(c, Messages(items, c.numPieces)).(buffer := [])
    decreases |items|
  {
    hide Handle, MessageLength, Encode, Seen, TakeOne;
    if items == [] {
      NothingToTake();
    } else {
      var s := Frames(items[1..]);
      DrainFrame(c, items[0], s);
      var c' := TakeOne(c);
      HandleKeeps(c, items[0]);
      DrainFrames(c', items[1..]);
      var ms := Messages(items[1..], c.numPieces);
      if items[0].Alive? {
        assert [] + ms == ms;
        assert c' == c.(buffer := s);
        HandleAllBuffer(c, ms, s);
      } else {
        var m := Seen(items[0].m, c.numPieces);
        assert ([m] + ms)[1..] == ms;
        HandleAllBuffer(Handle(c, m), ms, s);
      }
    }
  }

  lemma NothingToTake()
    ensures MessageLength([]) == 0
  {
  }

  lemma HandleKeeps(c: Peer, item: Item)
    ensures item.Send? ==> Handle(c, Seen(item.m, c.numPieces)).numPieces == c.numPieces
  {
  }

  lemma {:induction false} HandleAllBuffer(c: Peer, ms: seq<Message>, s: Bytes)
    ensures HandleAll(c.(buffer := s), ms) == HandleAll(c, ms).(buffer := s)
    decreases |ms|
  {
    hide Handle;
    if ms != [] {
      HandleBuffer(c, ms[0], s);
      HandleAllBuffer(Handle(c, ms[0]), ms[1..], s);
    }
  }

  lemma HandleBuffer(c: Peer, m: Message, s: Bytes)
    ensures Handle(c.(buffer := s), m) == Handle(c, m).(buffer := s)
  {
    hide Counted;
  }

  lemma {:induction false} HandledInOrder(c: Peer, ms: seq<Message>)
    ensures HandleAll(c, ms).handled == c.handled + ms
    ensures HandleAll(c, ms).closed == c.closed && HandleAll(c, ms).connected == c.connected
    decreases |ms|
  {
    hide Counted;
    if ms != [] {
      HandledInOrder(Handle(c, ms[0]), ms[1..]);
      assert c.handled + [ms[0]] + ms[1..] == c.handled + ms;
    }
  }

  /** A connection that waits for a handshake and has nothing buffered. */
  predicate Waiting(c: Peer, infoHash: Bytes) {
    && !c.connected && !c.closed && c.buffer == []
    && (c.infoHash == Some(infoHash) || (c.infoHash.None? && infoHash in c.torrents))
  }

  /** The state right after a good handshake. */
  function Greeted(c: Peer, infoHash: Bytes, peerId: Bytes, f: Flags): Peer {
    var c1 := c.(handshake := Some(Handshake(Reserved(f), f, infoHash, peerId)));
    (if c.infoHash.Some? then c1 else Routed(c1, infoHash)).(connected := true)
  }

  /** A valid handshake followed by any messages and keep-alives, cut anywhere: exactly the
      messages are handled, in order, and the peer's state is what they amount to. */
  lemma ExactlyTheSentMessages(c: Peer, infoHash: Bytes, peerId: Bytes, f: Flags, items: seq<Item>, chunks: seq<Bytes>)
    requires |infoHash| == 20 && |peerId| == 20 && Waiting(c, infoHash) && AllSendable(items)
    requires Concat(chunks) == EncodeHandshake(infoHash, peerId, f) + Frames(items)
    ensures var g := Greeted(c, infoHash, peerId, f);
            var ms := Messages(items, g.numPieces);
            var r := ReceiveAll(c, chunks);
            && r == HandleAll(g, ms)
            && r.handled == c.handled + ms
            && r.buffer == [] && !r.closed && r.connected
  {
    hide Drain, Frames, Messages, HandleAll, EncodeHandshake, Greet, Greeted;
    var s, g := Frames(items), Greeted(c, infoHash, peerId, f);
    GreetWorks(c, infoHash, peerId, f, s);
    EmptyConcat(chunks);
    StreamIsChunkingFree(c, chunks);
    var full := EncodeHandshake(infoHash, peerId, f) + s;
    assert c.buffer + full == full;
    DrainFrames(g.(buffer := s), items);
    HandleAllBuffer(g, Messages(items, g.numPieces), s);
    HandledInOrder(g, Messages(items, g.numPieces));
    HandleAllBuffer(g, Messages(items, g.numPieces), []);
  }

  lemma GreetWorks(c: Peer, infoHash: Bytes, peerId: Bytes, f: Flags, s: Bytes)
    requires |infoHash| == 20 && |peerId| == 20 && Waiting(c, infoHash)
    ensures |EncodeHandshake(infoHash, peerId, f)| == HANDSHAKE_SIZE
    ensures Greet(c.(buffer := EncodeHandshake(infoHash, peerId, f) + s)) ==
              Greeted(c, infoHash, peerId, f).(buffer := s)
    ensures var g := Greeted(c, infoHash, peerId, f);
            g.connected && !g.closed && g.buffer == [] && g.handled == c.handled
  {
    hide EncodeHandshake, DecodeHandshake, Reserved, Routed;
    HandshakeRoundTrip(infoHash, peerId, f, s);
    var full := EncodeHandshake(infoHash, peerId, f) + s;
    var c1 := c.(handshake := Some(Handshake(Reserved(f), f, infoHash, peerId)));
    RoutedFacts(c1, infoHash, full);
    assert c.(buffer := full).(handshake := c1.handshake) == c1.(buffer := full);
    assert full[HANDSHAKE_SIZE..] == s;
  }

  lemma EmptyConcat(chunks: seq<Bytes>)
    ensures chunks == [] ==> |Concat(chunks)| == 0
  {
  }

  lemma RoutedFacts(c: Peer, infoHash: Bytes, s: Bytes)
    ensures Routed(c.(buffer := s), infoHash) == Routed(c, infoHash).(buffer := s)
    ensures var r := Routed(c, infoHash); r.handled == c.handled && r.closed == c.closed && r.buffer == c.buffer
    ensures infoHash in c.torrents ==> Routed(c, infoHash).infoHash == Some(infoHash)
  {
  }
}
