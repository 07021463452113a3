/** The value of a piece picker (src/bt_piece_picker.cpp), what each call does to it, and what
    every run of calls keeps. Peer bitfields are boolean sequences: Bitfields.dfy shows that the
    packed class is one. */
module PickerModel {
  import opened Casts

  const BLOCK_LENGTH: nat := 16384
  const MAX_DOWNLOADING: nat := 20

  type PeerId = nat
  const NO_PEER: PeerId := 0

  type Priority = x: int | 0 <= x < 8
  const SKIP: Priority := 0
  const NORMAL: Priority := 4

  datatype Mode = RarestFirst | Sequential | Random
  datatype BlockState = Unrequested | Requested | Writing | Finished
  datatype Block = Block(state: BlockState, peer: PeerId)
  datatype Piece = Piece(availability: nat, priority: Priority, have: bool, downloading: bool)
  datatype Entry = Entry(piece: nat, blocks: seq<Block>)
  datatype BlockInfo = BlockInfo(piece: nat, offset: nat, length: nat)
  datatype Request = Request(block: BlockInfo, peer: PeerId)
  datatype Geometry = Geometry(numPieces: U32, pieceLength: U32, lastLength: U32)

  datatype Picker = Picker(
    geo: Geometry,
    pieces: seq<Piece>,
    downloading: seq<Entry>,
    peers: map<PeerId, seq<bool>>,
    numHave: nat,
    numDownloading: nat,
    mode: Mode,
    endgameEnabled: bool,
    inEndgame: bool,
    maxDownloading: nat)

  const FRESH_PIECE: Piece := Piece(0, NORMAL, false, false)
  const FRESH_BLOCK: Block := Block(Unrequested, NO_PEER)

  function Initial(geo: Geometry): Picker {
    Picker(geo, Times(FRESH_PIECE, geo.numPieces), [], map[], 0, 0, RarestFirst, true, false, MAX_DOWNLOADING)
  }

  function Times<T>(x: T, n: nat): (r: seq<T>)
    ensures |r| == n && forall i :: 0 <= i < n ==> r[i] == x
  {
    seq(n, i => x)
  }

  // ----- blocks of a piece

  function SizeOf(geo: Geometry, piece: nat): U32
    requires piece < geo.numPieces
  {
    if piece == geo.numPieces - 1 then geo.lastLength else geo.pieceLength
  }

  /** blocks_in_piece, with the 32-bit addition of the source. */
  function BlocksIn(geo: Geometry, piece: nat): nat {
    if piece >= geo.numPieces then 0 else ((SizeOf(geo, piece) + BLOCK_LENGTH - 1) % UINT32_LIMIT) / BLOCK_LENGTH
  }

  /** block_size, with the 32-bit multiplication of the source. */
  function BlockSize(geo: Geometry, piece: nat, index: nat): nat {
    if piece >= geo.numPieces then 0
    else
      var offset := (index * BLOCK_LENGTH) % UINT32_LIMIT;
      var size := SizeOf(geo, piece);
      if offset >= size then 0
      else if size - offset < BLOCK_LENGTH then size - offset else BLOCK_LENGTH
  }

  /** Bytes of the piece that lie in finished blocks. */
  function FinishedBytes(geo: Geometry, piece: nat, blocks: seq<Block>): nat {
    if blocks == [] then 0
    else
      var last := |blocks| - 1;
      FinishedBytes(geo, piece, blocks[..last]) +
        (if blocks[last].state == Finished then BlockSize(geo, piece, last) else 0)
  }

  function AllBytes(geo: Geometry, piece: nat, n: nat): nat {
    if n == 0 then 0 else AllBytes(geo, piece, n - 1) + BlockSize(geo, piece, n - 1)
  }

  lemma {:induction false} AllBytesPrefix(geo: Geometry, piece: nat, n: nat)
    requires piece < geo.numPieces && n * BLOCK_LENGTH < SizeOf(geo, piece) + BLOCK_LENGTH
    ensures AllBytes(geo, piece, n) == if n * BLOCK_LENGTH <= SizeOf(geo, piece) then n * BLOCK_LENGTH
            else SizeOf(geo, piece)
  {
    if n > 0 {
      AllBytesPrefix(geo, piece, n - 1);
    }
  }

  /** The blocks of a piece cover it exactly when rounding its size up does not overflow 32 bits. */
  lemma BlocksTilePiece(geo: Geometry, piece: nat)
    requires piece < geo.numPieces
    ensures AllBytes(geo, piece, BlocksIn(geo, piece)) == SizeOf(geo, piece) <==>
              SizeOf(geo, piece) <= UINT32_LIMIT - BLOCK_LENGTH
    ensures forall i :: 0 <= i < BlocksIn(geo, piece) ==> 0 < BlockSize(geo, piece, i) <= BLOCK_LENGTH
    ensures SizeOf(geo, piece) <= UINT32_LIMIT - BLOCK_LENGTH ==>
              forall at :: 0 <= at < SizeOf(geo, piece) ==> InBlock(geo, piece, at, at / BLOCK_LENGTH)
    ensures forall at, i, j :: InBlock(geo, piece, at, i) && InBlock(geo, piece, at, j) ==> i == j
  {
    var n := BlocksIn(geo, piece);
    if SizeOf(geo, piece) <= UINT32_LIMIT - BLOCK_LENGTH {
      AllBytesPrefix(geo, piece, n);
    }
  }

  predicate InBlock(geo: Geometry, piece: nat, at: nat, i: nat) {
    i < BlocksIn(geo, piece) && i * BLOCK_LENGTH <= at < i * BLOCK_LENGTH + BlockSize(geo, piece, i)
  }

  predicate AllFinished(blocks: seq<Block>) {
    forall i :: 0 <= i < |blocks| ==> blocks[i].state == Finished
  }

  lemma {:induction false} FinishedAtMost(geo: Geometry, piece: nat, blocks: seq<Block>)
    requires piece < geo.numPieces && |blocks| <= BlocksIn(geo, piece)
    ensures FinishedBytes(geo, piece, blocks) <= AllBytes(geo, piece, |blocks|)
    ensures FinishedBytes(geo, piece, blocks) == AllBytes(geo, piece, |blocks|) <==> AllFinished(blocks)
  {
    if blocks != [] {
      BlocksTilePiece(geo, piece);
      var init := blocks[..|blocks| - 1];
      FinishedAtMost(geo, piece, init);
      assert AllFinished(blocks) <==> AllFinished(init) && blocks[|blocks| - 1].state == Finished;
    }
  }

  // ----- what every run keeps

  /** Bitfield::get_bit: false past the end. */
  predicate At(bits: seq<bool>, i: nat) { i < |bits| && bits[i] }

  function Holders(peers: map<PeerId, seq<bool>>, i: nat): set<PeerId> {
    set p | p in peers.Keys && At(peers[p], i)
  }

  function Held(pieces: seq<Piece>): nat {
    if pieces == [] then 0
    else Held(pieces[..|pieces| - 1]) + (if pieces[|pieces| - 1].have then 1 else 0)
  }

  predicate Listed(downloading: seq<Entry>, piece: nat) {
    exists k :: 0 <= k < |downloading| && downloading[k].piece == piece
  }

  predicate EntryFits(s: Picker, e: Entry) {
    && e.piece < |s.pieces|
    && s.pieces[e.piece].downloading
    && |e.blocks| == BlocksIn(s.geo, e.piece)
  }

  predicate Distinct(downloading: seq<Entry>) {
    forall j, k :: 0 <= j < k < |downloading| ==> downloading[j].piece != downloading[k].piece
  }

  /** Holds in every reachable state, whatever the callers do. */
  ghost predicate Sound(s: Picker) {
    && |s.pieces| == s.geo.numPieces
    && s.numDownloading == |s.downloading|
    && Distinct(s.downloading)
    && (forall k :: 0 <= k < |s.downloading| ==> EntryFits(s, s.downloading[k]))
    && (forall i :: 0 <= i < |s.pieces| ==> s.pieces[i].availability >= |Holders(s.peers, i)|)
  }

  /** Every flagged piece has its entry. */
  ghost predicate Indexed(s: Picker) {
    forall i :: 0 <= i < |s.pieces| && s.pieces[i].downloading ==> Listed(s.downloading, i)
  }

  predicate Counted(s: Picker) { s.numHave == Held(s.pieces) }

  /** Availability is the number of known peers with the piece. */
  ghost predicate Exact(s: Picker) {
    forall i :: 0 <= i < |s.pieces| ==> s.pieces[i].availability == |Holders(s.peers, i)|
  }

  // ----- the calls

  function IndexOf(downloading: seq<Entry>, piece: nat): (k: nat)
    ensures k <= |downloading|
    ensures k < |downloading| ==> downloading[k].piece == piece
    ensures forall j :: 0 <= j < k ==> downloading[j].piece != piece
  {
    if downloading == [] || downloading[0].piece == piece then 0 else 1 + IndexOf(downloading[1..], piece)
  }

  function Without(downloading: seq<Entry>, k: nat): seq<Entry>
    requires k < |downloading|
  {
    downloading[..k] + downloading[k + 1..]
  }

  function Flag(pieces: seq<Piece>, p: nat, on: bool): seq<Piece>
    requires p < |pieces|
  {
    pieces[p := pieces[p].(downloading := on)]
  }

  function RemoveDownloading(s: Picker, p: nat): Picker
    requires p < |s.pieces|
  {
    var k := IndexOf(s.downloading, p);
    if k == |s.downloading| then s
    else s.(pieces := Flag(s.pieces, p, false), downloading := Without(s.downloading, k),
            numDownloading := if s.numDownloading > 0 then s.numDownloading - 1 else 0)
  }

  function MarkHave(s: Picker, p: nat): Picker {
    if p >= |s.pieces| || s.pieces[p].have then s
    else
      var t := s.(pieces := s.pieces[p := s.pieces[p].(have := true)], numHave := s.numHave + 1);
      if t.pieces[p].downloading then RemoveDownloading(t, p) else t
  }

  function Have(p: Piece): Piece {
    if p.have then p else p.(have := true, downloading := false)
  }

  function MarkHaveAll(s: Picker): Picker {
    s.(pieces := seq(|s.pieces|, i requires 0 <= i < |s.pieces| => Have(s.pieces[i])),
       numHave := |s.pieces|, downloading := [], numDownloading := 0)
  }

  /** set_have_bitfield: pieces past the end of the bitfield keep their mark. */
  function WithHave(pieces: seq<Piece>, bits: seq<bool>): (r: seq<Piece>)
    ensures |r| == |pieces|
  {
    seq(|pieces|, i requires 0 <= i < |pieces| => if i < |bits| then pieces[i].(have := bits[i]) else pieces[i])
  }

  function SetHave(s: Picker, bits: seq<bool>): Picker {
    var n := if |bits| < |s.pieces| then |bits| else |s.pieces|;
    s.(pieces := WithHave(s.pieces, bits), numHave := Held(WithHave(s.pieces, bits)[..n]))
  }

  function MoreAvailable(pieces: seq<Piece>, bits: seq<bool>): (r: seq<Piece>)
    ensures |r| == |pieces|
  {
    seq(|pieces|, i requires 0 <= i < |pieces| =>
                    if At(bits, i) then pieces[i].(availability := pieces[i].availability + 1) else pieces[i])
  }

  function LessAvailable(pieces: seq<Piece>, bits: seq<bool>): (r: seq<Piece>)
    ensures |r| == |pieces|
  {
    seq(|pieces|, i requires 0 <= i < |pieces| =>
                    if At(bits, i) && pieces[i].availability > 0
                      then pieces[i].(availability := pieces[i].availability - 1) else pieces[i])
  }

  function AddPeer(s: Picker, peer: PeerId, bits: seq<bool>): Picker {
    s.(peers := s.peers[peer := bits], pieces := MoreAvailable(s.pieces, bits))
  }

  function Released(b: Block, peer: PeerId): Block {
    if b.peer == peer && b.state == Requested then FRESH_BLOCK else b
  }

  function ReleasedBlocks(blocks: seq<Block>, peer: PeerId): (r: seq<Block>)
    ensures |r| == |blocks|
  {
    seq(|blocks|, i requires 0 <= i < |blocks| => Released(blocks[i], peer))
  }

  function ReleasedAll(downloading: seq<Entry>, peer: PeerId): (r: seq<Entry>)
    ensures |r| == |downloading|
    ensures forall k :: 0 <= k < |r| ==> r[k].piece == downloading[k].piece && |r[k].blocks| == |downloading[k].blocks|
  {
    seq(|downloading|, k requires 0 <= k < |downloading| =>
                         downloading[k].(blocks := ReleasedBlocks(downloading[k].blocks, peer)))
  }

  function RemovePeer(s: Picker, peer: PeerId): Picker {
    if peer !in s.peers then s
    else s.(pieces := LessAvailable(s.pieces, s.peers[peer]), downloading := ReleasedAll(s.downloading, peer),
            peers := s.peers - {peer})
  }

  function CancelPeerRequests(s: Picker, peer: PeerId): Picker {
    s.(downloading := ReleasedAll(s.downloading, peer))
  }

  /** Bitfield::set_bit: nothing past the end. */
  function WithBit(bits: seq<bool>, i: nat): seq<bool> {
    if i < |bits| then bits[i := true] else bits
  }

  function PeerHasPiece(s: Picker, peer: PeerId, piece: nat): Picker {
    if piece >= |s.pieces| then s
    else
      var known := if peer in s.peers then s.peers else s.peers[peer := Times(false, |s.pieces|)];
      if At(known[peer], piece) then s.(peers := known)
      else s.(peers := known[peer := WithBit(known[peer], piece)],
              pieces := s.pieces[piece := s.pieces[piece].(availability := s.pieces[piece].availability + 1)])
  }

  function FreshEntry(geo: Geometry, piece: nat): (e: Entry) {
    Entry(piece, Times(FRESH_BLOCK, BlocksIn(geo, piece)))
  }

  /** get_or_create_downloading. */
  function Started(s: Picker, piece: nat): Picker {
    if piece >= |s.pieces| || IndexOf(s.downloading, piece) < |s.downloading| then s
    else s.(downloading := s.downloading + [FreshEntry(s.geo, piece)], pieces := Flag(s.pieces, piece, true),
            numDownloading := s.numDownloading + 1)
  }

  predicate InRange(s: Picker, info: BlockInfo) {
    var k := IndexOf(s.downloading, info.piece);
    k < |s.downloading| && info.offset / BLOCK_LENGTH < |s.downloading[k].blocks|
  }

  function Current(s: Picker, info: BlockInfo): Block
    requires InRange(s, info)
  {
    s.downloading[IndexOf(s.downloading, info.piece)].blocks[info.offset / BLOCK_LENGTH]
  }

  function WithBlock(s: Picker, info: BlockInfo, b: Block): Picker
    requires InRange(s, info)
  {
    var k := IndexOf(s.downloading, info.piece);
    var e := s.downloading[k];
    s.(downloading := s.downloading[k := e.(blocks := e.blocks[info.offset / BLOCK_LENGTH := b])])
  }

  function MarkRequested(s: Picker, info: BlockInfo, peer: PeerId): Picker {
    var t := Started(s, info.piece);
    if InRange(t, info) then WithBlock(t, info, Block(Requested, peer)) else t
  }

  function MarkWriting(s: Picker, info: BlockInfo): Picker {
    if InRange(s, info) then WithBlock(s, info, Current(s, info).(state := Writing)) else s
  }

  function CheckEndgame(s: Picker): Picker {
    if !s.endgameEnabled || s.inEndgame then s
    else
      var remaining := (|s.pieces| - s.numHave) % UINT32_LIMIT;
      if remaining <= |s.pieces| / 20 || remaining <= 10 then s.(inEndgame := true) else s
  }

  function MarkFinished(s: Picker, info: BlockInfo): (r: (Picker, bool)) {
    if !InRange(s, info) then (s, false)
    else
      var t := WithBlock(s, info, Block(Finished, NO_PEER));
      var done := AllFinished(t.downloading[IndexOf(s.downloading, info.piece)].blocks);
      (if done then CheckEndgame(t) else t, done)
  }

  function CancelRequest(s: Picker, info: BlockInfo, peer: PeerId): Picker {
    if InRange(s, info) && Current(s, info).state == Requested && Current(s, info).peer == peer
    then WithBlock(s, info, FRESH_BLOCK) else s
  }

  function AbortDownload(s: Picker, info: BlockInfo, peer: PeerId): Picker {
    if InRange(s, info) && Current(s, info).state == Requested && (peer == NO_PEER || Current(s, info).peer == peer)
    then WithBlock(s, info, FRESH_BLOCK) else s
  }

  function SetPriorities(s: Picker, lo: nat, hi: nat, priority: Priority): Picker {
    s.(pieces := seq(|s.pieces|, i requires 0 <= i < |s.pieces| =>
                       if lo <= i < hi then s.pieces[i].(priority := priority) else s.pieces[i]))
  }

  function SetEndgame(s: Picker, enable: bool): Picker {
    s.(endgameEnabled := enable, inEndgame := enable && s.inEndgame)
  }

  // ----- picking

  /** A piece that a new download may start on. */
  predicate Candidate(p: Piece, bits: seq<bool>, i: nat) {
    !p.have && !p.downloading && p.priority != SKIP && At(bits, i)
  }

  /** A block that may be asked of `peer`. */
  predicate Open(b: Block, endgame: bool, peer: PeerId) {
    b.state == Unrequested || (endgame && b.state == Requested && b.peer != peer)
  }

  function Ask(geo: Geometry, piece: nat, i: nat, peer: PeerId): Request {
    Request(BlockInfo(piece, i * BLOCK_LENGTH, BlockSize(geo, piece, i)), peer)
  }

  /** Entry e' is e with exactly the blocks asked in r now requested of peer. */
  predicate Stamped(geo: Geometry, e: Entry, e': Entry, r: seq<Request>, peer: PeerId) {
    && e'.piece == e.piece
    && |e'.blocks| == |e.blocks|
    && forall i :: 0 <= i < |e.blocks| ==>
         e'.blocks[i] == if Ask(geo, e.piece, i, peer) in r then Block(Requested, peer) else e.blocks[i]
  }

  /** Only open blocks of e are asked. */
  predicate Taken(geo: Geometry, e: Entry, r: seq<Request>, peer: PeerId, endgame: bool) {
    forall i :: 0 <= i < |e.blocks| && Ask(geo, e.piece, i, peer) in r ==> Open(e.blocks[i], endgame, peer)
  }

  /** All open blocks of e are asked. */
  predicate Emptied(geo: Geometry, e: Entry, r: seq<Request>, peer: PeerId, endgame: bool) {
    forall i :: 0 <= i < |e.blocks| && Open(e.blocks[i], endgame, peer) ==> Ask(geo, e.piece, i, peer) in r
  }

  /** The entry that a piece had before the call, or the empty one it started with. */
  function Before(s: Picker, s': Picker, k: nat): Entry
    requires k < |s'.downloading|
  {
    if k < |s.downloading| then s.downloading[k] else FreshEntry(s.geo, s'.downloading[k].piece)
  }

  predicate NoRepeats(r: seq<Request>) {
    forall j, k :: 0 <= j < k < |r| ==> r[j] != r[k]
  }

  /** A request is for a block of a listed piece that the peer has. */
  predicate Proper(s': Picker, bits: seq<bool>, peer: PeerId, q: Request) {
    && At(bits, q.block.piece)
    && q == Ask(s'.geo, q.block.piece, q.block.offset / BLOCK_LENGTH, peer)
    && q.block.offset / BLOCK_LENGTH < BlocksIn(s'.geo, q.block.piece)
    && Listed(s'.downloading, q.block.piece)
  }

  /** The pieces are as before, with the flags of the new entries. */
  predicate FlagsAdded(s: Picker, s': Picker) {
    && |s'.pieces| == |s.pieces|
    && forall i :: 0 <= i < |s.pieces| ==>
         s'.pieces[i] == s.pieces[i].(downloading := s.pieces[i].downloading || Listed(s'.downloading, i))
  }

  function Order(downloading: seq<Entry>): (r: seq<nat>)
    ensures |r| == |downloading| && forall k :: 0 <= k < |r| ==> r[k] == downloading[k].piece
  {
    seq(|downloading|, k requires 0 <= k < |downloading| => downloading[k].piece)
  }

  /** The k-th piece of the list could be started, and in rarest-first mode no piece that was
      still free then is rarer, in sequential mode none comes earlier. */
  predicate Chosen(s: Picker, order: seq<nat>, bits: seq<bool>, k: nat)
    requires k < |order|
  {
    var p := order[k];
    && p < |s.pieces|
    && Candidate(s.pieces[p], bits, p)
    && forall q :: 0 <= q < |s.pieces| && Candidate(s.pieces[q], bits, q) && q !in order[..k] ==> Prefers(s, p, q)
  }

  predicate Prefers(s: Picker, p: nat, q: nat)
    requires p < |s.pieces| && q < |s.pieces|
  {
    && (s.mode == RarestFirst ==> s.pieces[p].availability <= s.pieces[q].availability)
    && (s.mode == Sequential ==> p <= q)
  }

  predicate NothingFree(s': Picker, bits: seq<bool>) {
    forall i :: 0 <= i < |s'.pieces| ==> !Candidate(s'.pieces[i], bits, i)
  }

  /** r asks for distinct open blocks, at most num, of pieces the peer has, and s' is s with
      exactly those blocks requested, in old entries and in new ones at the end of the list. */
  ghost predicate Marked(s: Picker, bits: seq<bool>, num: nat, peer: PeerId, s': Picker, r: seq<Request>) {
    && |r| <= num
    && NoRepeats(r)
    && (forall k :: 0 <= k < |r| ==> Proper(s', bits, peer, r[k]))
    && |s.downloading| <= |s'.downloading|
    && (forall k :: 0 <= k < |s'.downloading| ==> Stamped(s.geo, Before(s, s', k), s'.downloading[k], r, peer))
    && (forall k :: 0 <= k < |s'.downloading| ==> Taken(s.geo, Before(s, s', k), r, peer, s.inEndgame))
    && Distinct(s'.downloading)
    && FlagsAdded(s, s')
    && s' == s.(downloading := s'.downloading, pieces := s'.pieces,
                numDownloading := s.numDownloading + |s'.downloading| - |s.downloading|)
  }

  /** New pieces are chosen well and within the limit, which endgame ignores. */
  ghost predicate WellChosen(s: Picker, bits: seq<bool>, s': Picker) {
    && (forall k :: |s.downloading| <= k < |s'.downloading| ==> Chosen(s, Order(s'.downloading), bits, k))
    && (!s.inEndgame && |s.downloading| < |s'.downloading| ==> |s'.downloading| <= s.maxDownloading)
  }

  /** All open blocks of the first n entries of pieces that the peer has are asked. */
  ghost predicate Exhausted(s: Picker, bits: seq<bool>, peer: PeerId, s': Picker, r: seq<Request>, n: nat) {
    forall k :: 0 <= k < n && k < |s'.downloading| && At(bits, s'.downloading[k].piece) ==>
      Emptied(s.geo, Before(s, s', k), r, peer, s.inEndgame)
  }

  /** What pick_pieces promises. Pieces in progress come before new ones, each new one is used up
      before the next is started, and nothing is left undone while there is room. */
  ghost predicate Picked(s: Picker, bits: seq<bool>, num: nat, peer: PeerId, s': Picker, r: seq<Request>) {
    && Marked(s, bits, num, peer, s', r)
    && WellChosen(s, bits, s')
    && (|s.downloading| < |s'.downloading| ==> Exhausted(s, bits, peer, s', r, |s'.downloading| - 1))
    && (|r| < num ==> Exhausted(s, bits, peer, s', r, |s'.downloading|))
    && (|r| < num ==> (!s.inEndgame && |s'.downloading| >= s.maxDownloading) || NothingFree(s', bits))
  }

  // ----- one entry, step by step

  predicate NoneFor(r: seq<Request>, piece: nat) {
    forall q :: q in r ==> q.block.piece != piece
  }

  /** What going through the blocks of one entry achieves. */
  ghost predicate Grabbed(geo: Geometry, e: Entry, e': Entry, asks: seq<Request>, room: nat, peer: PeerId,
                          endgame: bool) {
    && Stamped(geo, e, e', asks, peer)
    && Taken(geo, e, asks, peer, endgame)
    && |asks| <= room
    && NoRepeats(asks)
    && (forall q :: q in asks ==> AsksEntry(geo, e, peer, q))
    && (|asks| < room ==> Emptied(geo, e, asks, peer, endgame))
  }

  predicate AsksEntry(geo: Geometry, e: Entry, peer: PeerId, q: Request) {
    && q.block.piece == e.piece
    && q == Ask(geo, e.piece, q.block.offset / BLOCK_LENGTH, peer)
    && q.block.offset / BLOCK_LENGTH < |e.blocks|
  }

  lemma StampOther(geo: Geometry, e: Entry, e': Entry, r: seq<Request>, asks: seq<Request>, peer: PeerId, endgame: bool)
    requires NoneFor(asks, e.piece)
    ensures Stamped(geo, e, e', r, peer) ==> Stamped(geo, e, e', r + asks, peer)
    ensures Taken(geo, e, r, peer, endgame) ==> Taken(geo, e, r + asks, peer, endgame)
  {
    forall i: nat ensures Ask(geo, e.piece, i, peer) !in asks {
    }
  }

  lemma StampThis(geo: Geometry, e: Entry, e': Entry, r: seq<Request>, asks: seq<Request>, peer: PeerId, endgame: bool)
    requires NoneFor(r, e.piece)
    ensures Stamped(geo, e, e', asks, peer) ==> Stamped(geo, e, e', r + asks, peer)
    ensures Taken(geo, e, asks, peer, endgame) ==> Taken(geo, e, r + asks, peer, endgame)
  {
    forall i: nat ensures Ask(geo, e.piece, i, peer) !in r {
    }
  }

  lemma EmptiedGrows(geo: Geometry, e: Entry, r: seq<Request>, asks: seq<Request>, peer: PeerId, endgame: bool)
    requires Emptied(geo, e, r, peer, endgame) || Emptied(geo, e, asks, peer, endgame)
    ensures Emptied(geo, e, r + asks, peer, endgame)
  {
  }

  lemma NoRepeatsJoin(r: seq<Request>, asks: seq<Request>, piece: nat)
    requires NoRepeats(r) && NoRepeats(asks) && NoneFor(r, piece) && forall q :: q in asks ==> q.block.piece == piece
    ensures NoRepeats(r + asks)
  {
    forall j, k | 0 <= j < k < |r + asks| ensures (r + asks)[j] != (r + asks)[k] {
      if j < |r| <= k {
        assert (r + asks)[j] in r && (r + asks)[k] in asks;
      }
    }
  }

  /** Going through entry k, which nothing in r asks of yet. */
  lemma GrabKeepsMarked(s: Picker, bits: seq<bool>, num: nat, peer: PeerId, mid: Picker, r: seq<Request>,
                        k: nat, e': Entry, asks: seq<Request>)
    requires Marked(s, bits, num, peer, mid, r) && k < |mid.downloading|
    requires mid.downloading[k] == Before(s, mid, k) && NoneFor(r, mid.downloading[k].piece)
    requires At(bits, mid.downloading[k].piece)
             && |mid.downloading[k].blocks| == BlocksIn(s.geo, mid.downloading[k].piece)
    requires Grabbed(s.geo, mid.downloading[k], e', asks, num - |r|, peer, s.inEndgame)
    ensures Marked(s, bits, num, peer, mid.(downloading := mid.downloading[k := e']), r + asks)
  {
    var e, r' := mid.downloading[k], r + asks;
    var s' := mid.(downloading := mid.downloading[k := e']);
    hide Stamped, Taken, Emptied, BlocksIn, BlockSize, Ask;
    StampedPiece(s.geo, e, e', asks, peer);
    NoRepeatsJoin(r, asks, e.piece);
    SameOrder(mid.downloading, s'.downloading);
    forall j | 0 <= j < |r'| ensures Proper(s', bits, peer, r'[j]) {
      if j < |r| {
        assert Proper(mid, bits, peer, r[j]);
      } else {
        assert r'[j] in asks;
        assert Listed(s'.downloading, e.piece) by { assert s'.downloading[k].piece == e.piece; }
      }
    }
    forall j | 0 <= j < |s'.downloading|
      ensures Stamped(s.geo, Before(s, s', j), s'.downloading[j], r', peer)
      ensures Taken(s.geo, Before(s, s', j), r', peer, s.inEndgame)
    {
      var b := Before(s, s', j);
      assert b == Before(s, mid, j);
      assert Stamped(s.geo, b, mid.downloading[j], r, peer) && Taken(s.geo, b, r, peer, s.inEndgame);
      if j == k {
        StampThis(s.geo, e, e', r, asks, peer, s.inEndgame);
      } else {
        StampedPiece(s.geo, b, mid.downloading[j], r, peer);
        assert NoneFor(asks, b.piece);
        StampOther(s.geo, b, mid.downloading[j], r, asks, peer, s.inEndgame);
      }
    }
  }

  lemma StampedPiece(geo: Geometry, e: Entry, e': Entry, r: seq<Request>, peer: PeerId)
    requires Stamped(geo, e, e', r, peer)
    ensures e'.piece == e.piece && |e'.blocks| == |e.blocks|
  {
  }

  lemma SameOrder(d: seq<Entry>, d': seq<Entry>)
    requires |d'| == |d| && forall k :: 0 <= k < |d| ==> d'[k].piece == d[k].piece
    ensures Order(d') == Order(d)
    ensures forall i :: Listed(d, i) <==> Listed(d', i)
  {
    forall i: nat ensures Listed(d, i) <==> Listed(d', i) {
      if Listed(d, i) {
        var k :| 0 <= k < |d| && d[k].piece == i;
        assert d'[k].piece == i;
      }
    }
  }

  /** Starting a piece adds an untouched entry at the end. */
  lemma StartKeepsMarked(s: Picker, bits: seq<bool>, num: nat, peer: PeerId, mid: Picker, r: seq<Request>, p: nat)
    requires Marked(s, bits, num, peer, mid, r) && p < |mid.pieces| && IndexOf(mid.downloading, p) == |mid.downloading|
    ensures Marked(s, bits, num, peer, Started(mid, p), r) && NoneFor(r, p)
  {
    var s' := Started(mid, p);
    var n := |mid.downloading|;
    hide Stamped, Taken, Emptied, BlocksIn, BlockSize, Ask, IndexOf;
    NotListed(mid.downloading, p);
    ListedGrows(mid.downloading, FreshEntry(mid.geo, p));
    forall j | 0 <= j < |r| ensures Proper(s', bits, peer, r[j]) {
      assert Proper(mid, bits, peer, r[j]);
    }
    NoneOfUnlisted(bits, peer, mid, r, p);
    FreshStamped(s.geo, FreshEntry(s.geo, p), r, peer, s.inEndgame);
    forall j | 0 <= j < |s'.downloading|
      ensures Stamped(s.geo, Before(s, s', j), s'.downloading[j], r, peer)
      ensures Taken(s.geo, Before(s, s', j), r, peer, s.inEndgame)
    {
      if j < n {
        assert Before(s, s', j) == Before(s, mid, j);
        assert Stamped(s.geo, Before(s, mid, j), mid.downloading[j], r, peer);
        assert Taken(s.geo, Before(s, mid, j), r, peer, s.inEndgame);
      }
    }
    StartFlags(s, mid, p);
  }

  lemma StartFlags(s: Picker, mid: Picker, p: nat)
    requires FlagsAdded(s, mid) && p < |mid.pieces| && IndexOf(mid.downloading, p) == |mid.downloading|
    ensures FlagsAdded(s, Started(mid, p))
  {
    hide IndexOf, BlocksIn, Listed;
    ListedGrows(mid.downloading, FreshEntry(mid.geo, p));
  }

  lemma NotListed(d: seq<Entry>, p: nat)
    ensures Listed(d, p) <==> IndexOf(d, p) < |d|
  {
  }

  lemma ListedGrows(d: seq<Entry>, e: Entry)
    ensures forall i :: Listed(d + [e], i) <==> Listed(d, i) || i == e.piece
  {
    forall i: nat ensures Listed(d + [e], i) <==> Listed(d, i) || i == e.piece {
      assert (d + [e])[|d|] == e;
      if Listed(d, i) {
        var k :| 0 <= k < |d| && d[k].piece == i;
        assert (d + [e])[k].piece == i;
      }
    }
  }

  lemma NoneOfUnlisted(bits: seq<bool>, peer: PeerId, mid: Picker, r: seq<Request>, p: nat)
    requires forall k :: 0 <= k < |r| ==> Proper(mid, bits, peer, r[k])
    requires !Listed(mid.downloading, p)
    ensures NoneFor(r, p)
  {
    hide Listed, Ask, BlocksIn;
  }

  lemma FreshStamped(geo: Geometry, e: Entry, r: seq<Request>, peer: PeerId, endgame: bool)
    requires NoneFor(r, e.piece)
    ensures Stamped(geo, e, e, r, peer) && Taken(geo, e, r, peer, endgame)
  {
    forall i: nat ensures Ask(geo, e.piece, i, peer) !in r {
    }
  }

  lemma NothingMarked(s: Picker, bits: seq<bool>, num: nat, peer: PeerId)
    requires Sound(s)
    ensures Marked(s, bits, num, peer, s, [])
  {
    forall k | 0 <= k < |s.downloading|
      ensures Stamped(s.geo, Before(s, s, k), s.downloading[k], [], peer)
      ensures Taken(s.geo, Before(s, s, k), [], peer, s.inEndgame)
    {
      FreshStamped(s.geo, s.downloading[k], [], peer, s.inEndgame);
    }
    forall i | 0 <= i < |s.pieces| && Listed(s.downloading, i) ensures s.pieces[i].downloading {
      var k :| 0 <= k < |s.downloading| && s.downloading[k].piece == i;
      assert EntryFits(s, s.downloading[k]);
    }
  }
}
