/** Reassembly of the info dictionary from ut_metadata messages (the 'data' message of BEP 9):
    Torrent::request_metadata and on_metadata_message (src/bt_torrent.cpp) and the extension
    handler of src/bt_extension.cpp.  Both parse the dictionary with the recursive decoder and
    find the payload behind it with the scanner. */
module Metadata {
  import opened Wrappers
  import opened Casts
  import opened Bencode
  import opened BencodeScan

  const PIECE: nat := 16384

  const MSG_TYPE: Bytes := [0x6D, 0x73, 0x67, 0x5F, 0x74, 0x79, 0x70, 0x65]
  const PIECE_KEY: Bytes := [0x70, 0x69, 0x65, 0x63, 0x65]
  const TOTAL_SIZE: Bytes := [0x74, 0x6F, 0x74, 0x61, 0x6C, 0x5F, 0x73, 0x69, 0x7A, 0x65]

  function NumPieces(size: nat): nat { (size + PIECE - 1) / PIECE }

  function PieceEnd(size: nat, p: nat): nat {
    if (p + 1) * PIECE <= size then (p + 1) * PIECE else size
  }

  /** The p-th piece of the original. */
  function Slice(original: Bytes, p: nat): Bytes
    requires p < NumPieces(|original|)
  {
    original[p * PIECE..PieceEnd(|original|, p)]
  }

  // ----- messages

  ghost function DataHeader(size: Int64, piece: Int64): Value {
    Dict(map[MSG_TYPE := Integer(1), PIECE_KEY := Integer(piece), TOTAL_SIZE := Integer(size)])
  }

  /** create_data: the encoded dictionary, then the raw bytes of the piece. */
  ghost function DataMessage(size: Int64, piece: Int64, data: Bytes): Bytes {
    Encode(DataHeader(size, piece)) + data
  }

  ghost function RejectMessage(piece: Int64): Bytes {
    Encode(Dict(map[MSG_TYPE := Integer(2), PIECE_KEY := Integer(piece)]))
  }

  function IntField(m: map<Bytes, Value>, key: Bytes): Option<int> {
    if key in m && m[key].Integer? then Some(m[key].i) else None
  }

  /** The payload of an honest data message is recovered exactly: the decoder reads the header
      and the scanner stops where the raw bytes start. */
  lemma DataMessageParses(size: Int64, piece: Int64, data: Bytes)
    ensures var payload := DataMessage(size, piece, data);
            && ParseValue(payload) == Ok(DataHeader(size, piece), |payload| - |data|)
            && Scan(payload, 0) == Some(|payload| - |data|)
            && payload[|payload| - |data|..] == data
    ensures IntField(DataHeader(size, piece).entries, MSG_TYPE) == Some(1)
    ensures IntField(DataHeader(size, piece).entries, PIECE_KEY) == Some(piece)
  {
    hide ParseValue, Scan, Encode;
    var header := DataHeader(size, piece);
    assert Fits(header);
    RoundTrip(header, data);
    ScannerFindsEnd(header, data);
    assert |MSG_TYPE| == 8 && |PIECE_KEY| == 5 && |TOTAL_SIZE| == 10;
  }

  lemma RejectMessageParses(piece: Int64)
    ensures ParseValue(RejectMessage(piece)).Ok? && ParseValue(RejectMessage(piece)).value.Dict?
    ensures IntField(ParseValue(RejectMessage(piece)).value.entries, MSG_TYPE) == Some(2)
    ensures IntField(ParseValue(RejectMessage(piece)).value.entries, PIECE_KEY) == Some(piece)
  {
    hide ParseValue, Encode;
    var header := Dict(map[MSG_TYPE := Integer(2), PIECE_KEY := Integer(piece)]);
    assert Fits(header);
    RoundTrip(header, []);
    assert Encode(header) + [] == Encode(header);
    assert |MSG_TYPE| == 8 && |PIECE_KEY| == 5;
  }

  // ----- the download state of Torrent

  /** metadata_buffer_, metadata_pieces_received_, metadata_pieces_requested_, whether the torrent
      is still in state DownloadingMetadata, and every buffer handed to on_metadata_complete. */
  datatype Download = Download(buffer: Bytes, received: seq<bool>, requested: seq<bool>, active: bool,
                               signalled: seq<Bytes>)

  const MAX_PENDING: nat := 4

  /** Marks the first `budget` pieces from p to n that are neither received nor requested. */
  function MarkRequested(received: seq<bool>, requested: seq<bool>, p: nat, n: nat, budget: nat): (r: seq<bool>)
    requires |received| == |requested|
    ensures |r| == |requested|
    decreases |received| - p
  {
    if p >= n || p >= |received| || budget == 0 then requested
    else if received[p] || requested[p] then MarkRequested(received, requested, p + 1, n, budget)
    else MarkRequested(received, requested[p := true], p + 1, n, budget - 1)
  }

  /** request_metadata for a peer that announced `size`. */
  function Requested(dl: Download, size: nat): (r: Download)
    requires |dl.received| == |dl.requested|
    ensures |r.received| == |r.requested|
  {
    var n := NumPieces(size);
    var dl1 := if dl.buffer != [] then dl
               else dl.(buffer := seq(size, _ => 0), received := seq(n, _ => false), requested := seq(n, _ => false));
    dl1.(requested := MarkRequested(dl1.received, dl1.requested, 0, n, MAX_PENDING))
  }

  function Overwrite(buffer: Bytes, offset: nat, data: Bytes): (r: Bytes)
    requires offset + |data| <= |buffer|
    ensures |r| == |buffer|
  {
    buffer[..offset] + data + buffer[offset + |data|..]
  }

  predicate AllTrue(bs: seq<bool>) { forall i :: 0 <= i < |bs| ==> bs[i] }

  /** The body of on_metadata_message for a data message; `valid` is the verdict of
      set_metadata, `size` what the peer announced. */
  function Received(dl: Download, piece: nat, data: Bytes, size: nat, valid: bool): (r: Download)
    requires |dl.received| == |dl.requested|
    ensures |r.received| == |r.requested|
  {
    var offset := piece * PIECE;
    if offset + |data| > |dl.buffer| then dl
    else
      var mark := piece < |dl.received|;
      var dl1 := dl.(buffer := Overwrite(dl.buffer, offset, data),
                     received := if mark then dl.received[piece := true] else dl.received,
                     requested := if mark then dl.requested[piece := false] else dl.requested);
      if AllTrue(dl1.received) then
        Download([], [], [], !valid, dl1.signalled + [dl1.buffer])
      else Requested(dl1, size)
  }

  /** on_metadata_message. */
  function OnMessage(dl: Download, payload: Bytes, size: nat, valid: bool): (r: Download)
    requires |dl.received| == |dl.requested|
    ensures |r.received| == |r.requested|
  {
    hide ParseValue, Scan, Received;
    if !dl.active then dl
    else match ParseValue(payload)
      case Fail => dl
      case Ok(v, _) =>
        if !v.Dict? || IntField(v.entries, MSG_TYPE).None? then dl
        else if ToInt32(IntField(v.entries, MSG_TYPE).value) == 1 then
          var piece := IntField(v.entries, PIECE_KEY);
          var end := match Scan(payload, 0) { case None => |payload| case Some(n) => n };
          if piece.None? || end >= |payload| then dl
          else Received(dl, ToUint32(piece.value), payload[end..], size, valid)
        else dl
  }

  // ----- what honest peers achieve

  /** Nothing received yet, or a buffer of the right size whose received pieces are right;
      whatever was signalled is the original. */
  predicate Faithful(original: Bytes, dl: Download) {
    && |dl.received| == |dl.requested|
    && (dl.buffer == [] ==> dl.received == [])
    && (dl.buffer != [] ==> |dl.buffer| == |original| && |dl.received| == NumPieces(|original|))
    && (forall p :: 0 <= p < |dl.received| && dl.received[p] ==>
          dl.buffer[p * PIECE..PieceEnd(|original|, p)] == Slice(original, p))
    && (forall i :: 0 <= i < |dl.signalled| ==> dl.signalled[i] == original)
  }

  lemma PieceBounds(size: nat, p: nat)
    requires p < NumPieces(size)
    ensures p * PIECE < PieceEnd(size, p) <= size
    ensures PieceEnd(size, p) <= (p + 1) * PIECE
    ensures PieceEnd(size, p) == size || PieceEnd(size, p) == (p + 1) * PIECE
  {
    assert p * PIECE <= (NumPieces(size) - 1) * PIECE < size;
  }

  lemma OverwriteSlice(buffer: Bytes, offset: nat, data: Bytes, from: nat, to: nat)
    requires offset + |data| <= |buffer| && from <= to <= |buffer|
    ensures to <= offset || offset + |data| <= from ==> Overwrite(buffer, offset, data)[from..to] == buffer[from..to]
    ensures from == offset && to == offset + |data| ==> Overwrite(buffer, offset, data)[from..to] == data
  {
    var r := Overwrite(buffer, offset, data);
    assert forall i :: 0 <= i < offset ==> r[i] == buffer[i];
    assert forall i :: 0 <= i < |data| ==> r[offset + i] == data[i];
    assert forall i :: offset + |data| <= i < |buffer| ==> r[i] == buffer[i];
  }

  /** Writing one piece leaves the others alone. */
  lemma OverwriteOther(original: Bytes, buffer: Bytes, p: nat, q: nat)
    requires |buffer| == |original| && p < NumPieces(|original|) && q < NumPieces(|original|)
    ensures p * PIECE + |Slice(original, p)| <= |buffer|
    ensures var b := Overwrite(buffer, p * PIECE, Slice(original, p));
            b[q * PIECE..PieceEnd(|original|, q)] ==
            if p == q then Slice(original, q) else buffer[q * PIECE..PieceEnd(|original|, q)]
  {
    hide Overwrite, Slice, PieceEnd, NumPieces;
    PieceBounds(|original|, p);
    PieceBounds(|original|, q);
    SliceLength(original, p);
    OverwriteSlice(buffer, p * PIECE, Slice(original, p), q * PIECE, PieceEnd(|original|, q));
    if p < q { assert (p + 1) * PIECE <= q * PIECE; }
    if q < p { assert (q + 1) * PIECE <= p * PIECE; }
  }

  /** All pieces right means the whole buffer right. */
  lemma AllPiecesCover(original: Bytes, buffer: Bytes)
    requires |buffer| == |original|
    requires forall p :: 0 <= p < NumPieces(|original|) ==>
               p * PIECE <= PieceEnd(|original|, p) <= |buffer|
                 && buffer[p * PIECE..PieceEnd(|original|, p)] == Slice(original, p)
    ensures buffer == original
  {
    forall i | 0 <= i < |original| ensures buffer[i] == original[i] {
      var p := i / PIECE;
      assert p * PIECE <= i < (p + 1) * PIECE;
      assert p < NumPieces(|original|);
      var k := i - p * PIECE;
      assert buffer[p * PIECE..PieceEnd(|original|, p)][k] == Slice(original, p)[k];
    }
  }

  /** What a peer with the whole original can send, and what it may make us do. */
  datatype Event =
    | Ask(peer: nat)                          // a handshake led to request_metadata
    | Arrives(piece: nat, valid: bool)        // its data message for a piece
    | Refused(piece: nat)                     // its reject message

  predicate Honest(original: Bytes, e: Event) {
    match e
    case Ask(_) => true
    case Arrives(piece, _) => piece < NumPieces(|original|)
    case Refused(piece) => piece <= INT64_MAX
  }

  predicate ValidOriginal(original: Bytes) {
    0 < |original| <= INT64_MAX && NumPieces(|original|) <= 0x1_0000_0000
  }

  ghost function After(original: Bytes, dl: Download, e: Event): (r: Download)
    requires ValidOriginal(original) && Honest(original, e) && |dl.received| == |dl.requested|
    ensures |r.received| == |r.requested|
  {
    hide OnMessage, Requested, DataMessage, RejectMessage;
    match e
    case Ask(_) => if dl.active then Requested(dl, |original|) else dl
    case Arrives(piece, valid) =>
      OnMessage(dl, DataMessage(|original|, piece, Slice(original, piece)), |original|, valid)
    case Refused(piece) => OnMessage(dl, RejectMessage(piece), |original|, false)
  }

  lemma RequestKeepsFaithful(original: Bytes, dl: Download)
    requires ValidOriginal(original) && Faithful(original, dl)
    ensures Faithful(original, Requested(dl, |original|))
  {
  }

  lemma ReceivedKeepsFaithful(original: Bytes, dl: Download, piece: nat, valid: bool)
    requires ValidOriginal(original) && Faithful(original, dl) && piece < NumPieces(|original|)
    ensures Faithful(original, Received(dl, piece, Slice(original, piece), |original|, valid))
  {
    var data := Slice(original, piece);
    PieceBounds(|original|, piece);
    if dl.buffer != [] {
      var buffer := Overwrite(dl.buffer, piece * PIECE, data);
      var received := dl.received[piece := true];
      forall p | 0 <= p < |received| && received[p]
        ensures buffer[p * PIECE..PieceEnd(|original|, p)] == Slice(original, p)
      {
        OverwriteOther(original, dl.buffer, piece, p);
      }
      forall p | 0 <= p < |received| ensures p * PIECE <= PieceEnd(|original|, p) <= |buffer| {
        PieceBounds(|original|, p);
      }
      if AllTrue(received) {
        AllPiecesCover(original, buffer);
      } else {
        RequestKeepsFaithful(original,
                             dl.(buffer := buffer, received := received, requested := dl.requested[piece := false]));
      }
    }
  }

  /** What an honest data message does. */
  lemma ArrivesAfter(original: Bytes, dl: Download, piece: nat, valid: bool)
    requires ValidOriginal(original) && piece < NumPieces(|original|) && |dl.received| == |dl.requested|
    ensures After(original, dl, Arrives(piece, valid)) ==
              if dl.active then Received(dl, piece, Slice(original, piece), |original|, valid) else dl
  {
    hide ParseValue, Scan, Received, DataMessage, Slice;
    PieceBounds(|original|, piece);
    SliceLength(original, piece);
    DataMessageParses(|original|, piece, Slice(original, piece));
  }

  /** A reject message changes nothing. */
  lemma RefusedAfter(original: Bytes, dl: Download, piece: nat)
    requires ValidOriginal(original) && piece <= INT64_MAX && |dl.received| == |dl.requested|
    ensures After(original, dl, Refused(piece)) == dl
  {
    hide ParseValue, Scan, Received, RejectMessage;
    RejectMessageParses(piece);
  }

  lemma EventKeepsFaithful(original: Bytes, dl: Download, e: Event)
    requires ValidOriginal(original) && Faithful(original, dl) && Honest(original, e)
    ensures Faithful(original, After(original, dl, e))
  {
    FaithfulShape(original, dl);
    match e {
      case Ask(_) => RequestKeepsFaithful(original, dl);
      case Arrives(piece, valid) =>
        hide *;
        HonestPiece(original, e);
        ArrivesAfter(original, dl, piece, valid);
        ReceivedKeepsFaithful(original, dl, piece, valid);
      case Refused(piece) =>
        hide *;
        HonestPiece(original, e);
        RefusedAfter(original, dl, piece);
    }
  }

  lemma HonestPiece(original: Bytes, e: Event)
    requires Honest(original, e)
    ensures e.Arrives? ==> e.piece < NumPieces(|original|)
    ensures e.Refused? ==> e.piece <= INT64_MAX
  {
  }

  lemma FaithfulShape(original: Bytes, dl: Download)
    requires Faithful(original, dl)
    ensures |dl.received| == |dl.requested|
  {
  }

  // ----- whole downloads

  const FRESH: Download := Download([], [], [], true, [])

  ghost function AfterAll(original: Bytes, dl: Download, events: seq<Event>): (r: Download)
    requires ValidOriginal(original) && |dl.received| == |dl.requested|
    requires forall i :: 0 <= i < |events| ==> Honest(original, events[i])
    ensures |r.received| == |r.requested|
    decreases |events|
  {
    if events == [] then dl
    else
      var last := |events| - 1;
      var before := AfterAll(original, dl, events[..last]);
      After(original, before, events[last])
  }

  /** Data messages in any order, with repeats, from any number of peers, mixed with requests and
      rejections: every received piece equals its slice of the original, and whatever is handed
      over as complete is the whole original. */
  lemma {:induction false} MetadataIsFaithful(original: Bytes, events: seq<Event>)
    requires ValidOriginal(original) && forall i :: 0 <= i < |events| ==> Honest(original, events[i])
    ensures Faithful(original, AfterAll(original, FRESH, events))
    decreases |events|
  {
    hide After;
    if events != [] {
      var last := |events| - 1;
      MetadataIsFaithful(original, events[..last]);
      EventKeepsFaithful(original, AfterAll(original, FRESH, events[..last]), events[last]);
    }
  }

  /** The pieces that arrived. */
  function Arrived(events: seq<Event>): set<nat> {
    set i | 0 <= i < |events| && events[i].Arrives? :: events[i].piece
  }

  /** Every piece has arrived. */
  predicate Covered(original: Bytes, pieces: set<nat>) {
    forall p: nat :: p < NumPieces(|original|) ==> p in pieces
  }

  /** The state after an initial request and `pieces` have arrived, all verdicts being good. */
  predicate Exact(original: Bytes, dl: Download, pieces: set<nat>) {
    if Covered(original, pieces) then dl.signalled == [original] && !dl.active
    else
      && dl.signalled == [] && dl.active && dl.buffer != []
      && |dl.received| == NumPieces(|original|)
      && forall p: nat :: p < |dl.received| ==> (dl.received[p] <==> p in pieces)
  }

  lemma ReceivedExact(original: Bytes, dl: Download, piece: nat, pieces: set<nat>)
    requires ValidOriginal(original) && Faithful(original, dl) && piece < NumPieces(|original|)
    requires !Covered(original, pieces) && Exact(original, dl, pieces)
    ensures Exact(original, Received(dl, piece, Slice(original, piece), |original|, true), pieces + {piece})
  {
    var data := Slice(original, piece);
    PieceBounds(|original|, piece);
    SliceLength(original, piece);
    ReceivedKeepsFaithful(original, dl, piece, true);
    var dl' := Received(dl, piece, data, |original|, true);
    var received := dl.received[piece := true];
    assert forall p: nat :: p < |received| ==> (received[p] <==> p in pieces + {piece});
    if AllTrue(received) {
      assert dl'.signalled[0] == original;
    } else {
      var p :| 0 <= p < |received| && !received[p];
      assert p !in pieces + {piece};
    }
  }

  lemma EventExact(original: Bytes, dl: Download, e: Event, pieces: set<nat>)
    requires ValidOriginal(original) && Faithful(original, dl) && Honest(original, e) && Exact(original, dl, pieces)
    requires e.Arrives? ==> e.valid
    ensures |dl.received| == |dl.requested|
    ensures Exact(original, After(original, dl, e), pieces + if e.Arrives? then {e.piece} else {})
  {
    hide Received, Slice, OnMessage, DataMessage, RejectMessage, Faithful, MarkRequested;
    FaithfulShape(original, dl);
    assert pieces + {} == pieces;
    match e
    case Ask(_) =>
    case Arrives(piece, valid) =>
      ArrivesAfter(original, dl, piece, valid);
      if dl.active {
        ReceivedExact(original, dl, piece, pieces);
      } else {
        assert Covered(original, pieces + {piece});
      }
    case Refused(piece) => RefusedAfter(original, dl, piece);
  }

  lemma SliceLength(original: Bytes, p: nat)
    requires p < NumPieces(|original|)
    ensures |Slice(original, p)| == PieceEnd(|original|, p) - p * PIECE
  {
    PieceBounds(|original|, p);
  }

  /** After a first request, completion is signalled exactly when the last missing piece has
      arrived, once, with the original; before that the received flags are exactly the arrivals. */
  lemma {:induction false} CompletionIsExact(original: Bytes, events: seq<Event>)
    requires ValidOriginal(original) && events != [] && events[0].Ask?
    requires forall i :: 0 <= i < |events| ==> Honest(original, events[i])
    requires forall i :: 0 <= i < |events| && events[i].Arrives? ==> events[i].valid
    ensures Exact(original, AfterAll(original, FRESH, events), Arrived(events))
    decreases |events|
  {
    hide After, Exact;
    var last := |events| - 1;
    if last == 0 {
      assert events[..0] == [];
      FirstRequest(original, events[0]);
      assert Arrived(events) == {};
    } else {
      CompletionIsExact(original, events[..last]);
      MetadataIsFaithful(original, events[..last]);
      EventExact(original, AfterAll(original, FRESH, events[..last]), events[last], Arrived(events[..last]));
      ArrivedSplit(events);
    }
  }

  lemma ArrivedSplit(events: seq<Event>)
    requires events != []
    ensures Arrived(events) == Arrived(events[..|events| - 1])
              + if events[|events| - 1].Arrives? then {events[|events| - 1].piece} else {}
  {
    var last := |events| - 1;
    assert forall i :: 0 <= i < last ==> events[..last][i] == events[i];
  }

  lemma FirstRequest(original: Bytes, e: Event)
    requires ValidOriginal(original) && e.Ask?
    ensures Exact(original, After(original, FRESH, e), {})
  {
    var none: set<nat> := {};
    var first: nat := 0;
    assert first < NumPieces(|original|) && first !in none;
  }
}
