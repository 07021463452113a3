/** The two message handlers that reassemble metadata, as objects: the one inside Torrent
    (src/bt_torrent.cpp) and UtMetadataExtension (src/bt_extension.cpp). */
module MetadataHandlers {
  import opened Casts
  import opened Bencode
  import opened BencodeScan
  import BencodeCodec
  import opened Metadata

  class TorrentMetadata {
    var buffer: Bytes
    var received: seq<bool>
    var requested: seq<bool>
    var active: bool
    var signalled: seq<Bytes>

    constructor ()
      ensures View() == FRESH
    {
      buffer, received, requested, active, signalled := [], [], [], true, [];
    }

    ghost function View(): Download
      reads this
    {
      Download(buffer, received, requested, active, signalled)
    }

    /** request_metadata for a peer that announced `size`: returns the pieces asked for.  The loop
        indexes the flags with piece numbers computed from `size`, which must not lie past those
        of the peer that sized the buffer. */
    method RequestMetadata(size: nat) returns (asked: seq<nat>)
      requires |received| == |requested|
      requires buffer != [] ==> NumPieces(size) <= |received|
      modifies this
      ensures View() == if old(active) then Requested(old(View()), size) else old(View())
      ensures |asked| <= MAX_PENDING
      ensures forall p :: p in asked ==> p < |received| && !received[p] && requested[p]
    {
      hide MarkRequested;
      asked := [];
      if !active {
        return;
      }
      var n := NumPieces(size);
      if buffer == [] {
        buffer := seq(size, _ => 0);
        received := seq(n, _ => false);
        requested := seq(n, _ => false);
      }
      asked := AskFor(n);
    }

    /** The loop of request_metadata. */
    method AskFor(n: nat) returns (asked: seq<nat>)
      requires n <= |received| == |requested|
      modifies this`requested
      ensures requested == MarkRequested(received, old(requested), 0, n, MAX_PENDING)
      ensures |asked| <= MAX_PENDING
      ensures forall p :: p in asked ==> p < |received| && !received[p] && requested[p]
    {
      asked := [];
      ghost var start := requested;
      var p := 0;
      while p < n && |asked| < MAX_PENDING
        invariant 0 <= p <= n && |requested| == |received| && |asked| <= MAX_PENDING
        invariant MarkRequested(received, start, 0, n, MAX_PENDING)
               == MarkRequested(received, requested, p, n, MAX_PENDING - |asked|)
        invariant forall q :: q in asked ==> q < |received| && !received[q] && requested[q]
      {
        if !received[p] && !requested[p] {
          requested := requested[p := true];
          asked := asked + [p];
        }
        p := p + 1;
      }
    }

    method AllReceived() returns (all: bool)
      ensures all == AllTrue(received)
    {
      all := true;
      for i := 0 to |received|
        invariant all && forall j :: 0 <= j < i ==> received[j]
      {
        if !received[i] {
          return false;
        }
      }
    }

    /** The data branch of on_metadata_message. */
    method Store(piece: nat, data: Bytes, size: nat, valid: bool)
      requires |received| == |requested| && active
      requires buffer != [] ==> NumPieces(size) <= |received|
      requires data != []
      modifies this
      ensures View() == Received(old(View()), piece, data, size, valid)
    {
      var offset := piece * PIECE;
      if offset + |data| <= |buffer| {
        buffer := Overwrite(buffer, offset, data);
        if piece < |received| {
          received := received[piece := true];
          requested := requested[piece := false];
        }
        var complete := AllReceived();
        if complete {
          signalled := signalled + [buffer];
          buffer, received, requested, active := [], [], [], !valid;
        } else {
          var _ := RequestMetadata(size);
        }
      }
    }

    /** on_metadata_message. */
    method OnMetadataMessage(payload: Bytes, size: nat, valid: bool)
      requires |received| == |requested|
      requires buffer != [] ==> NumPieces(size) <= |received|
      modifies this
      ensures View() == OnMessage(old(View()), payload, size, valid)
    {
      hide ParseValue, Scan, Received;
      if !active {
        return;
      }
      var decoded := BencodeCodec.DecodeBytes(payload);
      if decoded.None? || !decoded.value.Dict? {
        return;
      }
      var dict := decoded.value.entries;
      var msgType := IntField(dict, MSG_TYPE);
      if msgType.None? {
        return;
      }
      if ToInt32(msgType.value) == 1 {
        var piece := IntField(dict, PIECE_KEY);
        if piece.None? {
          return;
        }
        var end := FindBencodeEnd(payload);
        if end >= |payload| {
          return;
        }
        Store(ToUint32(piece.value), payload[end..], size, valid);
      }
    }
  }

  // ----- UtMetadataExtension

  /** Its fields; `callbacks` are the buffers passed to the completion callback. */
  datatype Extension = Extension(size: nat, buffer: Bytes, received: seq<bool>, requested: seq<bool>, complete: bool,
                                 callbacks: seq<Bytes>)

  predicate Shaped(x: Extension) {
    |x.buffer| == x.size && |x.received| == |x.requested| == NumPieces(x.size)
  }

  function Min(a: int, b: int): int { if a <= b then a else b }

  /** handle_data once the raw bytes are found: unlike Torrent it clips them to the metadata
      size; check_complete follows. */
  function Clipped(x: Extension, piece: nat, data: Bytes): (x': Extension)
    requires Shaped(x)
    ensures Shaped(x')
  {
    if piece >= NumPieces(x.size) || data == [] then x
    else
      PieceBounds(x.size, piece);
      var offset := piece * PIECE;
      var n := Min(|data|, x.size - offset);
      var x1 := x.(buffer := Overwrite(x.buffer, offset, data[..n]), received := x.received[piece := true]);
      if AllTrue(x1.received) then x1.(complete := true, callbacks := x1.callbacks + [x1.buffer]) else x1
  }

  lemma ClippedNothing(x: Extension, piece: nat)
    requires Shaped(x)
    ensures Clipped(x, piece, []) == x
    ensures piece >= NumPieces(x.size) ==> forall data :: Clipped(x, piece, data) == x
  {
  }

  /** handle_data: the scanner's failure value is 0 here. */
  function HandleData(x: Extension, piece: nat, payload: Bytes): Extension
    requires Shaped(x)
  {
    var end := match Scan(payload, 0) { case None => 0 case Some(n) => n };
    Clipped(x, piece, payload[end..])
  }

  function HandleReject(x: Extension, piece: nat): Extension {
    if piece < |x.requested| then x.(requested := x.requested[piece := false]) else x
  }

  /** on_message. */
  function ExtensionMessage(x: Extension, payload: Bytes): Extension
    requires Shaped(x)
  {
    match ParseValue(payload)
    case Fail => x
    case Ok(v, _) =>
      if !v.Dict? || IntField(v.entries, MSG_TYPE).None? then x
      else
        var kind := ToUint8(IntField(v.entries, MSG_TYPE).value);
        var piece := IntField(v.entries, PIECE_KEY);
        if piece.None? then x
        else if kind == 1 then HandleData(x, ToUint32(piece.value), payload)
        else if kind == 2 then HandleReject(x, ToUint32(piece.value))
        else x
  }

  predicate ExtensionFaithful(original: Bytes, x: Extension) {
    && Shaped(x) && x.size == |original|
    && Faithful(original, Download(x.buffer, x.received, x.requested, true, x.callbacks))
  }

  lemma ClippedFaithful(original: Bytes, x: Extension, piece: nat)
    requires ValidOriginal(original) && ExtensionFaithful(original, x) && piece < NumPieces(|original|)
    ensures var x' := Clipped(x, piece, Slice(original, piece));
            && ExtensionFaithful(original, x') && x'.received == x.received[piece := true]
            && (AllTrue(x'.received) ==> x'.complete && x'.callbacks == x.callbacks + [original])
            && (!AllTrue(x'.received) ==> x'.complete == x.complete && x'.callbacks == x.callbacks)
  {
    hide Slice, Overwrite;
    var data := Slice(original, piece);
    PieceBounds(|original|, piece);
    SliceLength(original, piece);
    assert data[..|data|] == data;
    var x' := Clipped(x, piece, data);
    forall p | 0 <= p < |x'.received|
      ensures x'.received[p] ==> x'.buffer[p * PIECE..PieceEnd(|original|, p)] == Slice(original, p)
      ensures p * PIECE <= PieceEnd(|original|, p) <= |x'.buffer|
    {
      PieceBounds(|original|, p);
      OverwriteOther(original, x.buffer, piece, p);
    }
    if AllTrue(x'.received) {
      AllPiecesCover(original, x'.buffer);
    }
  }

  /** An honest data message stores its slice, marks it and completes exactly when all are in. */
  lemma ExtensionStaysFaithful(original: Bytes, x: Extension, piece: nat)
    requires ValidOriginal(original) && ExtensionFaithful(original, x) && piece < NumPieces(|original|)
    ensures var x' := ExtensionMessage(x, DataMessage(|original|, piece, Slice(original, piece)));
            && ExtensionFaithful(original, x') && x'.received == x.received[piece := true]
            && (AllTrue(x'.received) ==> x'.complete && x'.callbacks == x.callbacks + [original])
            && (!AllTrue(x'.received) ==> x'.complete == x.complete && x'.callbacks == x.callbacks)
  {
    hide ParseValue, Scan, Encode, Clipped, Slice, Faithful;
    PieceBounds(|original|, piece);
    SliceLength(original, piece);
    DataMessageParses(|original|, piece, Slice(original, piece));
    ClippedFaithful(original, x, piece);
  }

  /** A reject message frees the piece for another request and changes nothing else. */
  lemma RejectStaysFaithful(original: Bytes, x: Extension, piece: Int64)
    requires ExtensionFaithful(original, x)
    ensures var x' := ExtensionMessage(x, RejectMessage(piece));
            && ExtensionFaithful(original, x')
            && x' == x.(requested := if ToUint32(piece) < |x.requested| then x.requested[ToUint32(piece) := false]
                        else x.requested)
  {
    hide ParseValue, Scan, Encode;
    RejectMessageParses(piece);
  }

  /** What an honest peer answers. */
  datatype Reply = Piece(piece: nat) | Refusal(number: Int64)

  predicate HonestReply(original: Bytes, e: Reply) { e.Piece? ==> e.piece < NumPieces(|original|) }

  ghost function Payload(original: Bytes, e: Reply): Bytes
    requires ValidOriginal(original) && HonestReply(original, e)
  {
    match e
    case Piece(p) => DataMessage(|original|, p, Slice(original, p))
    case Refusal(n) => RejectMessage(n)
  }

  /** The state that the constructor leaves. */
  function FreshExtension(size: nat): (x: Extension)
    ensures Shaped(x)
  {
    var none := seq(NumPieces(size), _ => false);
    Extension(size, seq(size, _ => 0), none, none, false, [])
  }

  ghost function ExtensionAfter(original: Bytes, replies: seq<Reply>): (x: Extension)
    requires ValidOriginal(original) && forall i :: 0 <= i < |replies| ==> HonestReply(original, replies[i])
    ensures Shaped(x)
  {
    if replies == [] then FreshExtension(|original|)
    else
      var last := |replies| - 1;
      ExtensionMessage(ExtensionAfter(original, replies[..last]), Payload(original, replies[last]))
  }

  /** Some data message for piece p has arrived. */
  predicate Came(replies: seq<Reply>, p: nat) { Piece(p) in replies }

  /** Every reachable state: what is stored is right, the flags are the arrivals, completion is
      exactly having all pieces, and the callback has seen nothing but the original. */
  predicate ExtensionExact(original: Bytes, x: Extension, replies: seq<Reply>) {
    && ExtensionFaithful(original, x)
    && (forall p: nat :: p < |x.received| ==> (x.received[p] <==> Came(replies, p)))
    && (x.complete <==> AllTrue(x.received))
    && (x.callbacks != [] <==> x.complete)
    && (forall i :: 0 <= i < |x.callbacks| ==> x.callbacks[i] == original)
  }

  /** Data and reject messages in any order, with repeats and from any number of peers. */
  lemma {:induction false} ExtensionRun(original: Bytes, replies: seq<Reply>)
    requires ValidOriginal(original) && forall i :: 0 <= i < |replies| ==> HonestReply(original, replies[i])
    ensures ExtensionExact(original, ExtensionAfter(original, replies), replies)
  {
    hide ExtensionExact, ExtensionMessage, Payload;
    if replies == [] {
      FreshIsExact(original);
    } else {
      var last := |replies| - 1;
      ExtensionRun(original, replies[..last]);
      assert replies == replies[..last] + [replies[last]];
      ReplyKeepsExact(original, ExtensionAfter(original, replies[..last]), replies[..last], replies[last]);
    }
  }

  lemma FreshIsExact(original: Bytes)
    requires ValidOriginal(original)
    ensures ExtensionExact(original, FreshExtension(|original|), [])
  {
    var x := FreshExtension(|original|);
    assert NumPieces(|original|) > 0 && !x.received[0];
  }

  lemma ReplyKeepsExact(original: Bytes, x: Extension, replies: seq<Reply>, e: Reply)
    requires ValidOriginal(original) && HonestReply(original, e) && ExtensionExact(original, x, replies)
    ensures ExtensionExact(original, ExtensionMessage(x, Payload(original, e)), replies + [e])
  {
    hide ExtensionMessage, ExtensionFaithful, Slice;
    match e
    case Piece(p) =>
      ExtensionStaysFaithful(original, x, p);
      FaithfulSizes(original, x);
      var received := x.received[p := true];
      if AllTrue(x.received) { assert received == x.received; }
    case Refusal(n) => RejectStaysFaithful(original, x, n);
  }

  lemma FaithfulSizes(original: Bytes, x: Extension)
    requires ExtensionFaithful(original, x)
    ensures |x.received| == NumPieces(|original|)
  {
    hide Faithful;
  }

  class UtMetadata {
    var size: nat
    var buffer: Bytes
    var received: seq<bool>
    var requested: seq<bool>
    var complete: bool
    var callbacks: seq<Bytes>

    constructor (size: nat)
      ensures View() == FreshExtension(size)
    {
      this.size, complete, callbacks := size, false, [];
      buffer := seq(size, _ => 0);
      received := seq(NumPieces(size), _ => false);
      requested := seq(NumPieces(size), _ => false);
    }

    ghost function View(): Extension
      reads this
    {
      Extension(size, buffer, received, requested, complete, callbacks)
    }

    method CheckComplete()
      modifies this`complete, this`callbacks
      ensures complete == (old(complete) || AllTrue(received))
      ensures callbacks == if AllTrue(received) then old(callbacks) + [buffer] else old(callbacks)
    {
      for i := 0 to |received|
        invariant forall j :: 0 <= j < i ==> received[j]
        invariant complete == old(complete) && callbacks == old(callbacks)
      {
        if !received[i] {
          return;
        }
      }
      complete := true;
      callbacks := callbacks + [buffer];
    }

    method HandleDataMessage(piece: nat, payload: Bytes)
      requires Shaped(View())
      modifies this
      ensures View() == HandleData(old(View()), piece, payload)
    {
      hide Scan, Clipped;
      ClippedNothing(View(), piece);
      if piece >= NumPieces(size) {
        return;
      }
      var found := ScanLoop(payload);
      var end := match found case None => 0 case Some(n) => n;
      if end >= |payload| {
        return;
      }
      StoreClipped(piece, payload[end..]);
    }

    /** The copy in handle_data, then check_complete. */
    method StoreClipped(piece: nat, data: Bytes)
      requires Shaped(View()) && data != [] && piece < NumPieces(size)
      modifies this
      ensures View() == Clipped(old(View()), piece, data)
    {
      hide Overwrite;
      var offset := piece * PIECE;
      PieceBounds(size, piece);
      var n := Min(|data|, size - offset);
      buffer := Overwrite(buffer, offset, data[..n]);
      received := received[piece := true];
      CheckComplete();
    }

    method OnMessage(payload: Bytes)
      requires Shaped(View())
      modifies this
      ensures Shaped(View()) && View() == ExtensionMessage(old(View()), payload)
    {
      hide ParseValue, Scan, Clipped;
      var decoded := BencodeCodec.DecodeBytes(payload);
      if decoded.None? || !decoded.value.Dict? {
        return;
      }
      var dict := decoded.value.entries;
      var msgType, field := IntField(dict, MSG_TYPE), IntField(dict, PIECE_KEY);
      if msgType.None? || field.None? {
        return;
      }
      var kind, piece := ToUint8(msgType.value), ToUint32(field.value);
      if kind == 1 {
        HandleDataMessage(piece, payload);
      } else if kind == 2 && piece < |requested| {
        requested := requested[piece := false];
      }
    }

    /** next_piece_to_request: the first piece neither received nor requested. */
    method NextPieceToRequest() returns (p: nat)
      requires Shaped(View())
      ensures p <= NumPieces(size)
      ensures p < NumPieces(size) ==> !received[p] && !requested[p]
      ensures forall q :: 0 <= q < p ==> received[q] || requested[q]
    {
      p := 0;
      while p < NumPieces(size) && (received[p] || requested[p])
        invariant 0 <= p <= NumPieces(size)
        invariant forall q :: 0 <= q < p ==> received[q] || requested[q]
      {
        p := p + 1;
      }
    }
  }
}
