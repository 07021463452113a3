/** The piece picker of src/bt_piece_picker.cpp. Each call is proved against PickerModel;
    PickerRuns says what every run of calls keeps. */
module PiecePicker {
  import opened Casts
  import opened PickerModel
  import opened PickerPicking
  import opened PickerRuns

  const NO_PIECE: U32 := 0xFFFF_FFFF

  class PiecePicker {
    const geo: Geometry
    var pieces: seq<Piece>
    var downloading: seq<Entry>
    var peers: map<PeerId, seq<bool>>
    var numHave: nat
    var numDownloading: nat
    var mode: Mode
    var endgameEnabled: bool
    var inEndgame: bool
    var maxDownloading: nat
    var cursor: nat

    function Value(): Picker
      reads this
    {
      Picker(geo, pieces, downloading, peers, numHave, numDownloading, mode, endgameEnabled, inEndgame, maxDownloading)
    }

    /** No call moves the sequential cursor. */
    ghost predicate Valid()
      reads this
    {
      Sound(Value()) && cursor == 0
    }

    constructor (geo: Geometry)
      ensures Value() == Initial(geo) && Valid()
    {
      this.geo := geo;
      pieces, downloading, peers := Times(FRESH_PIECE, geo.numPieces), [], map[];
      numHave, numDownloading, cursor := 0, 0, 0;
      mode, endgameEnabled, inEndgame, maxDownloading := RarestFirst, true, false, MAX_DOWNLOADING;
      new;
      InitialIsSound(geo);
    }

    // ----- settings

    method SetMode(mode: Mode)
      requires Valid()
      modifies this
      ensures Value() == old(Value()).(mode := mode) && Valid()
    {
      StepKeepsSound(Value(), DoSetMode(mode), Value().(mode := mode));
      SoundHasPieces(Value());
      hide Sound, Next;
      this.mode := mode;
    }

    method SetMaximum(max: nat)
      requires Valid()
      modifies this
      ensures Value() == old(Value()).(maxDownloading := max) && Valid()
    {
      StepKeepsSound(Value(), DoSetMaximum(max), Value().(maxDownloading := max));
      SoundHasPieces(Value());
      hide Sound, Next;
      maxDownloading := max;
    }

    method SetEndgameMode(enable: bool)
      requires Valid()
      modifies this
      ensures Value() == SetEndgame(old(Value()), enable) && Valid()
    {
      StepKeepsSound(Value(), DoSetEndgame(enable), SetEndgame(Value(), enable));
      SoundHasPieces(Value());
      hide Sound, Next;
      endgameEnabled := enable;
      if !enable { inEndgame := false; }
    }

    method SetPiecePriorityRange(start: nat, end: nat, priority: Priority)
      requires Valid()
      modifies this
      ensures Value() == SetPriorities(old(Value()), start, end, priority) && Valid()
    {
      StepKeepsSound(Value(), DoSetPriorities(start, end, priority), SetPriorities(Value(), start, end, priority));
      SoundHasPieces(Value());
      hide Sound, Next;
      Prioritise(start, end, priority);
      assert pieces == SetPriorities(old(Value()), start, end, priority).pieces;
    }

    /** The loop of set_piece_priority_range. */
    method Prioritise(start: nat, end: nat, priority: Priority)
      requires |pieces| == geo.numPieces
      modifies this`pieces
      ensures |pieces| == |old(pieces)|
      ensures forall k :: 0 <= k < |pieces| ==>
                pieces[k] == if start <= k < end then old(pieces)[k].(priority := priority) else old(pieces)[k]
    {
      var hi := if end < geo.numPieces then end else geo.numPieces;
      var i := start;
      ghost var was := pieces;
      while i < hi
        invariant |pieces| == |was| && (start <= hi ==> i <= hi) && start <= i && (hi <= start ==> i == start)
        invariant forall k :: 0 <= k < |was| ==>
                    pieces[k] == if start <= k < i then was[k].(priority := priority) else was[k]
      {
        pieces := pieces[i := pieces[i].(priority := priority)];
        i := i + 1;
      }
    }

    // ----- held pieces

    method MarkHave(piece: nat)
      requires Valid()
      modifies this
      ensures Value() == PickerModel.MarkHave(old(Value()), piece) && Valid()
    {
      StepKeepsSound(Value(), DoMarkHave(piece), PickerModel.MarkHave(Value(), piece));
      SoundHasPieces(Value());
      hide Sound, Next;
      if piece >= geo.numPieces { return; }
      if !pieces[piece].have {
        pieces := pieces[piece := pieces[piece].(have := true)];
        numHave := numHave + 1;
        if pieces[piece].downloading {
          RemoveDownloading(piece);
        }
      }
    }

    method RemoveDownloading(piece: nat)
      requires piece < |pieces|
      modifies this
      ensures Value() == PickerModel.RemoveDownloading(old(Value()), piece) && cursor == old(cursor)
    {
      var k := FindDownloading(piece);
      if k < |downloading| {
        pieces := Flag(pieces, piece, false);
        downloading := Without(downloading, k);
        if numDownloading > 0 { numDownloading := numDownloading - 1; }
      }
    }

    method FindDownloading(piece: nat) returns (k: nat)
      ensures k == IndexOf(downloading, piece)
    {
      k := 0;
      while k < |downloading| && downloading[k].piece != piece
        invariant k <= |downloading| && IndexOf(downloading, piece) == k + IndexOf(downloading[k..], piece)
      {
        assert downloading[k..][1..] == downloading[k + 1..];
        k := k + 1;
      }
    }

    method MarkHaveAll()
      requires Valid()
      modifies this
      ensures Value() == PickerModel.MarkHaveAll(old(Value())) && Valid()
    {
      StepKeepsSound(Value(), DoMarkHaveAll, PickerModel.MarkHaveAll(Value()));
      SoundHasPieces(Value());
      hide Sound, Next;
      HoldAll();
      assert pieces == PickerModel.MarkHaveAll(old(Value())).pieces;
      numHave := geo.numPieces;
      downloading := [];
      numDownloading := 0;
    }

    /** The loop of mark_have_all. */
    method HoldAll()
      requires |pieces| == geo.numPieces
      modifies this`pieces
      ensures |pieces| == |old(pieces)| && forall k :: 0 <= k < |pieces| ==> pieces[k] == Have(old(pieces)[k])
    {
      ghost var was := pieces;
      for i := 0 to geo.numPieces
        invariant |pieces| == |was|
        invariant forall k :: 0 <= k < |was| ==> pieces[k] == if k < i then Have(was[k]) else was[k]
      {
        if !pieces[i].have {
          pieces := pieces[i := pieces[i].(have := true)];
          if pieces[i].downloading {
            pieces := Flag(pieces, i, false);
          }
        }
      }
    }

    method SetHaveBitfield(have: seq<bool>)
      requires Valid()
      modifies this
      ensures Value() == SetHave(old(Value()), have) && Valid()
    {
      StepKeepsSound(Value(), DoSetHave(have), SetHave(Value(), have));
      SoundHasPieces(Value());
      hide Sound, Next, Held;
      pieces, numHave := CopyMarks(pieces, have);
    }

    /** The loop of set_have_bitfield. */
    method CopyMarks(pieces: seq<Piece>, have: seq<bool>) returns (r: seq<Piece>, n: nat)
      ensures r == WithHave(pieces, have)
      ensures n == Held(r[..if |have| < |pieces| then |have| else |pieces|])
    {
      hide Held;
      NoneHeld();
      r, n := pieces, 0;
      var i := 0;
      while i < |pieces| && i < |have|
        invariant |r| == |pieces| && i <= |pieces| && i <= |have|
        invariant forall k :: 0 <= k < |r| ==> r[k] == if k < i then pieces[k].(have := have[k]) else pieces[k]
        invariant n == Held(r[..i])
      {
        ghost var before := r[..i];
        CountsOneMore(before, r[i].(have := have[i]));
        r := r[i := r[i].(have := have[i])];
        assert r[..i + 1] == before + [r[i]];
        if r[i].have {
          n := n + 1;
        }
        i := i + 1;
      }
      assert r == WithHave(pieces, have);
    }

    method GetHaveBitfield() returns (bits: seq<bool>)
      requires |pieces| == geo.numPieces
      ensures |bits| == geo.numPieces && forall i :: 0 <= i < |bits| ==> bits[i] == pieces[i].have
    {
      bits := Times(false, geo.numPieces);
      for i := 0 to geo.numPieces
        invariant |bits| == geo.numPieces
        invariant forall k :: 0 <= k < |bits| ==> bits[k] == (k < i && pieces[k].have)
      {
        if pieces[i].have { bits := bits[i := true]; }
      }
    }

    /** Under the count invariant this is the truth about the pieces. */
    method IsComplete() returns (done: bool)
      requires Valid()
      ensures done <==> numHave == geo.numPieces
      ensures Counted(Value()) ==> (done <==> forall i :: 0 <= i < |pieces| ==> pieces[i].have)
    {
      SoundHasPieces(Value());
      done := numHave == geo.numPieces;
      HeldAll(pieces);
    }

    // ----- availability

    method AddPeer(peer: PeerId, bitfield: seq<bool>)
      requires Valid()
      modifies this
      ensures Value() == PickerModel.AddPeer(old(Value()), peer, bitfield) && Valid()
    {
      StepKeepsSound(Value(), DoAddPeer(peer, bitfield), PickerModel.AddPeer(Value(), peer, bitfield));
      SoundHasPieces(Value());
      hide Sound, Next;
      peers := peers[peer := bitfield];
      RaiseAvailability(bitfield);
    }

    /** The loop of add_peer. */
    method RaiseAvailability(bitfield: seq<bool>)
      requires |pieces| == geo.numPieces
      modifies this`pieces
      ensures pieces == MoreAvailable(old(pieces), bitfield)
    {
      ghost var was := pieces;
      var i := 0;
      while i < |bitfield| && i < geo.numPieces
        invariant |pieces| == |was| && i <= |was| && i <= |bitfield|
        invariant forall k :: 0 <= k < |was| ==> pieces[k] == if k < i then MoreAvailable(was, bitfield)[k] else was[k]
      {
        if bitfield[i] {
          pieces := pieces[i := pieces[i].(availability := pieces[i].availability + 1)];
        }
        i := i + 1;
      }
      assert pieces == MoreAvailable(was, bitfield);
    }

    method RemovePeer(peer: PeerId)
      requires Valid()
      modifies this
      ensures Value() == PickerModel.RemovePeer(old(Value()), peer) && Valid()
    {
      StepKeepsSound(Value(), DoRemovePeer(peer), PickerModel.RemovePeer(Value(), peer));
      SoundHasPieces(Value());
      hide Sound, Next;
      if peer !in peers { return; }
      LowerAvailability(peers[peer]);
      ReleaseRequests(peer);
      peers := peers - {peer};
    }

    /** The first loop of remove_peer. */
    method LowerAvailability(bitfield: seq<bool>)
      requires |pieces| == geo.numPieces
      modifies this`pieces
      ensures pieces == LessAvailable(old(pieces), bitfield)
    {
      ghost var was := pieces;
      var i := 0;
      while i < |bitfield| && i < geo.numPieces
        invariant |pieces| == |was| && i <= |was| && i <= |bitfield|
        invariant forall k :: 0 <= k < |was| ==> pieces[k] == if k < i then LessAvailable(was, bitfield)[k] else was[k]
      {
        if bitfield[i] && pieces[i].availability > 0 {
          pieces := pieces[i := pieces[i].(availability := pieces[i].availability - 1)];
        }
        i := i + 1;
      }
      assert pieces == LessAvailable(was, bitfield);
    }

    method CancelPeerRequests(peer: PeerId)
      requires Valid()
      modifies this
      ensures Value() == PickerModel.CancelPeerRequests(old(Value()), peer) && Valid()
    {
      StepKeepsSound(Value(), DoCancelPeerRequests(peer), PickerModel.CancelPeerRequests(Value(), peer));
      SoundHasPieces(Value());
      hide Sound, Next;
      ReleaseRequests(peer);
    }

    /** The loop shared by remove_peer and cancel_peer_requests. */
    method ReleaseRequests(peer: PeerId)
      modifies this
      ensures Value() == PickerModel.CancelPeerRequests(old(Value()), peer) && cursor == old(cursor)
    {
      ghost var was := downloading;
      for k := 0 to |downloading|
        invariant |downloading| == |was|
        invariant forall j :: 0 <= j < |was| ==> downloading[j] == if j < k then ReleasedAll(was, peer)[j] else was[j]
        invariant Value() == old(Value()).(downloading := downloading) && cursor == old(cursor)
      {
        var blocks := downloading[k].blocks;
        for i := 0 to |blocks|
          invariant |blocks| == |was[k].blocks|
          invariant forall j :: 0 <= j < |blocks| ==>
                      blocks[j] == if j < i then Released(was[k].blocks[j], peer) else was[k].blocks[j]
        {
          if blocks[i].peer == peer && blocks[i].state == Requested {
            blocks := blocks[i := FRESH_BLOCK];
          }
        }
        assert blocks == ReleasedBlocks(was[k].blocks, peer);
        downloading := downloading[k := downloading[k].(blocks := blocks)];
      }
      assert downloading == ReleasedAll(was, peer);
    }

    method PeerHasPiece(peer: PeerId, piece: nat)
      requires Valid()
      modifies this
      ensures Value() == PickerModel.PeerHasPiece(old(Value()), peer, piece) && Valid()
    {
      StepKeepsSound(Value(), DoPeerHasPiece(peer, piece), PickerModel.PeerHasPiece(Value(), peer, piece));
      SoundHasPieces(Value());
      hide Sound, Next;
      if piece >= geo.numPieces { return; }
      if peer !in peers {
        peers := peers[peer := Times(false, geo.numPieces)];
      }
      if !At(peers[peer], piece) {
        peers := peers[peer := WithBit(peers[peer], piece)];
        pieces := pieces[piece := pieces[piece].(availability := pieces[piece].availability + 1)];
      }
    }

    // ----- picking

    /** One pass over the blocks of an entry: takes the open ones while there is room. */
    method GrabBlocks(e: Entry, room: nat, peer: PeerId, endgame: bool) returns (e': Entry, asks: seq<Request>)
      ensures Grabbed(geo, e, e', asks, room, peer, endgame)
    {
      var blocks := e.blocks;
      asks := [];
      var i := 0;
      while i < |blocks| && |asks| < room
        invariant |blocks| == |e.blocks| && i <= |blocks| && |asks| <= room
        invariant Stamped(geo, e, Entry(e.piece, blocks), asks, peer)
        invariant Taken(geo, e, asks, peer, endgame)
        invariant NoRepeats(asks)
        invariant forall q :: q in asks ==> AsksEntry(geo, e, peer, q) && q.block.offset / BLOCK_LENGTH < i
        invariant forall j :: 0 <= j < i && Open(e.blocks[j], endgame, peer) ==> Ask(geo, e.piece, j, peer) in asks
      {
        assert Ask(geo, e.piece, i, peer) !in asks;
        if Open(blocks[i], endgame, peer) {
          asks := asks + [Ask(geo, e.piece, i, peer)];
          blocks := blocks[i := Block(Requested, peer)];
        }
        i := i + 1;
      }
      e' := Entry(e.piece, blocks);
    }

    /** Rarest first: a random one among the free pieces of least availability. */
    method PickRarest(bits: seq<bool>) returns (p: U32)
      requires |pieces| == geo.numPieces && mode == RarestFirst
      ensures p == NO_PIECE <==> NothingFree(Value(), bits)
      ensures p != NO_PIECE ==> Best(Value(), bits, p)
    {
      var candidates: seq<U32> := [];
      var best: nat := NO_PIECE;
      for i := 0 to geo.numPieces
        invariant forall c :: c in candidates ==>
                    c < i && Candidate(pieces[c], bits, c) && pieces[c].availability == best
        invariant candidates == [] ==> forall k :: 0 <= k < i ==> !Candidate(pieces[k], bits, k)
        invariant candidates != [] ==> forall k :: 0 <= k < i && Candidate(pieces[k], bits, k) ==>
                    best <= pieces[k].availability
      {
        var piece := pieces[i];
        if piece.have || piece.downloading || piece.priority == SKIP { continue; }
        if !At(bits, i) { continue; }
        if candidates == [] || piece.availability < best {
          best := piece.availability;
          candidates := [i];
        } else if piece.availability == best {
          candidates := candidates + [i];
        }
      }
      if candidates == [] { return NO_PIECE; }
      var roll: nat :| roll < |candidates|;
      p := candidates[roll];
      assert p in candidates;
    }

    method PickSequential(bits: seq<bool>) returns (p: U32)
      requires |pieces| == geo.numPieces && mode == Sequential && cursor == 0
      ensures p == NO_PIECE <==> NothingFree(Value(), bits)
      ensures p != NO_PIECE ==> Best(Value(), bits, p)
    {
      for i := 0 to geo.numPieces
        invariant forall k :: 0 <= k < i ==> !Candidate(pieces[k], bits, k)
      {
        var at := (cursor + i) % geo.numPieces;
        SmallRemainder(i, geo.numPieces);
        var piece := pieces[at];
        if piece.have || piece.downloading || piece.priority == SKIP { continue; }
        if At(bits, at) { return at; }
      }
      p := NO_PIECE;
    }

    method PickRandom(bits: seq<bool>) returns (p: U32)
      requires |pieces| == geo.numPieces && mode == Random
      ensures p == NO_PIECE <==> NothingFree(Value(), bits)
      ensures p != NO_PIECE ==> Best(Value(), bits, p)
    {
      var candidates: seq<U32> := [];
      for i := 0 to geo.numPieces
        invariant forall c :: c in candidates ==> c < i && Candidate(pieces[c], bits, c)
        invariant candidates == [] ==> forall k :: 0 <= k < i ==> !Candidate(pieces[k], bits, k)
      {
        var piece := pieces[i];
        if piece.have || piece.downloading || piece.priority == SKIP { continue; }
        if At(bits, i) { candidates := candidates + [i]; }
      }
      if candidates == [] { return NO_PIECE; }
      var roll: nat :| roll < |candidates|;
      p := candidates[roll];
      assert p in candidates;
    }

    method PickPiece(bits: seq<bool>) returns (p: U32)
      requires |pieces| == geo.numPieces && cursor == 0
      ensures p == NO_PIECE <==> NothingFree(Value(), bits)
      ensures p != NO_PIECE ==> Best(Value(), bits, p)
    {
      match mode {
        case RarestFirst => p := PickRarest(bits);
        case Sequential => p := PickSequential(bits);
        case Random => p := PickRandom(bits);
      }
    }

    method GetOrCreateDownloading(piece: nat) returns (k: nat)
      requires piece < |pieces|
      modifies this
      ensures Value() == Started(old(Value()), piece) && cursor == old(cursor)
      ensures k == old(IndexOf(downloading, piece)) && k < |downloading| && downloading[k].piece == piece
    {
      k := FindDownloading(piece);
      if k == |downloading| {
        downloading := downloading + [FreshEntry(geo, piece)];
        pieces := Flag(pieces, piece, true);
        numDownloading := numDownloading + 1;
      }
    }

    /** pick_pieces. */
    method PickPieces(bits: seq<bool>, num: nat, peer: PeerId) returns (r: seq<Request>)
      requires Valid()
      modifies this
      ensures Picked(old(Value()), bits, num, peer, Value(), r) && Valid()
    {
      hide Marked, Exhausted, WellChosen, NothingFree, Best, Grabbed, Sound;
      ghost var s := Value();
      SoundHasPieces(s);
      r := ResumeDownloads(bits, num, peer);
      while |r| < num
        invariant Starting(s, bits, num, peer, Value(), r) && cursor == 0 && |pieces| == geo.numPieces
        decreases |Unstarted(pieces)|
      {
        hide Starting;
        ghost var cur := Value();
        StartingFacts(s, bits, num, peer, cur, r);
        if !inEndgame && |downloading| >= maxDownloading { break; }
        var piece := PickPiece(bits);
        if piece == NO_PIECE { break; }
        BestIsFree(cur, bits, piece);
        BestIsUnlisted(s, bits, num, peer, cur, r, piece);
        FlagShrinks(pieces, piece);
        var k := GetOrCreateDownloading(piece);
        var e, asks := GrabBlocks(downloading[k], num - |r|, peer, inEndgame);
        StartGrabs(s, bits, num, peer, cur, r, piece, e, asks);
        downloading := downloading[k := e];
        r := r + asks;
      }
      StepKeepsSound(s, DoPick(bits, num, peer, r), Value());
    }

    /** The first loop of pick_pieces: pieces already in progress. */
    method ResumeDownloads(bits: seq<bool>, num: nat, peer: PeerId) returns (r: seq<Request>)
      requires Valid()
      modifies this
      ensures Starting(old(Value()), bits, num, peer, Value(), r) && cursor == old(cursor)
      ensures |pieces| == geo.numPieces
    {
      hide Sound, Resumed, Starting, Grabbed;
      ghost var s := Value();
      SoundHasPieces(s);
      ResumeStarts(s, bits, num, peer);
      r := [];
      var j := 0;
      while j < |downloading| && |r| < num
        invariant j <= |downloading| && Resumed(s, bits, num, peer, Value(), r, j)
        invariant Value() == s.(downloading := downloading) && cursor == 0 && |downloading| == |s.downloading|
      {
        if !At(bits, downloading[j].piece) {
          ResumeSkips(s, bits, num, peer, Value(), r, j);
        } else {
          var e, asks := GrabBlocks(downloading[j], num - |r|, peer, inEndgame);
          ResumeGrabs(s, bits, num, peer, Value(), r, j, e, asks);
          downloading := downloading[j := e];
          r := r + asks;
        }
        j := j + 1;
      }
      ResumedThenStarting(s, bits, num, peer, Value(), r, j);
    }

    method IsInteresting(bits: seq<bool>) returns (yes: bool)
      requires |pieces| == geo.numPieces
      ensures yes <==> exists i :: 0 <= i < |pieces| && !pieces[i].have && pieces[i].priority != SKIP && At(bits, i)
    {
      for i := 0 to geo.numPieces
        invariant forall k :: 0 <= k < i ==> !(!pieces[k].have && pieces[k].priority != SKIP && At(bits, k))
      {
        if !pieces[i].have && pieces[i].priority != SKIP && At(bits, i) { return true; }
      }
      yes := false;
    }

    // ----- blocks

    method MarkRequested(block: BlockInfo, peer: PeerId)
      requires Valid()
      modifies this
      ensures Value() == PickerModel.MarkRequested(old(Value()), block, peer) && Valid()
    {
      StepKeepsSound(Value(), DoMarkRequested(block, peer), PickerModel.MarkRequested(Value(), block, peer));
      if block.piece >= geo.numPieces {
        OutOfRange(Value(), block);
        return;
      }
      var k := GetOrCreateDownloading(block.piece);
      StartedAt(old(Value()), block.piece);
      var i := block.offset / BLOCK_LENGTH;
      if i < |downloading[k].blocks| {
        PutBlock(k, i, Block(Requested, peer));
      }
    }

    method PutBlock(k: nat, i: nat, b: Block)
      requires k < |downloading| && i < |downloading[k].blocks|
      modifies this
      ensures Value() == old(Value()).(downloading :=
                old(downloading)[k := old(downloading[k]).(blocks := old(downloading[k].blocks)[i := b])])
      ensures cursor == old(cursor)
    {
      downloading := downloading[k := downloading[k].(blocks := downloading[k].blocks[i := b])];
    }

    method MarkWriting(block: BlockInfo)
      requires Valid()
      modifies this
      ensures Value() == PickerModel.MarkWriting(old(Value()), block) && Valid()
    {
      StepKeepsSound(Value(), DoMarkWriting(block), PickerModel.MarkWriting(Value(), block));
      SoundHasPieces(Value());
      hide Sound, Next;
      var k := FindDownloading(block.piece);
      if k == |downloading| { return; }
      var i := block.offset / BLOCK_LENGTH;
      if i < |downloading[k].blocks| {
        PutBlock(k, i, downloading[k].blocks[i].(state := Writing));
      }
    }

    /** mark_finished: true exactly when the finished blocks now make up the whole piece. */
    method MarkFinished(block: BlockInfo) returns (complete: bool)
      requires Valid()
      modifies this
      ensures (Value(), complete) == PickerModel.MarkFinished(old(Value()), block) && Valid()
      ensures Fits32(geo, block.piece) ==> (complete <==> WholeAfter(old(Value()), block, Value()))
    {
      StepKeepsSound(Value(), DoMarkFinished(block, PickerModel.MarkFinished(Value(), block).1),
                     PickerModel.MarkFinished(Value(), block).0);
      ghost var s := Value();
      if Fits32(geo, block.piece) { CompleteIsWhole(s, block); }
      hide Sound, WholeAfter, Fits32, IndexOf, BlocksIn, AllFinished;
      var k := FindDownloading(block.piece);
      if k == |downloading| { return false; }
      var i := block.offset / BLOCK_LENGTH;
      if i >= |downloading[k].blocks| { return false; }
      PutBlock(k, i, Block(Finished, NO_PEER));
      complete := EveryFinished(downloading[k].blocks);
      if complete { CheckEndgame(); }
    }

    /** The counting loop of mark_finished. */
    method EveryFinished(blocks: seq<Block>) returns (complete: bool)
      ensures complete <==> AllFinished(blocks)
    {
      var finished := 0;
      for j := 0 to |blocks|
        invariant finished <= j && (finished == j <==> AllFinished(blocks[..j]))
      {
        assert AllFinished(blocks[..j + 1]) <==> AllFinished(blocks[..j]) && blocks[j].state == Finished;
        if blocks[j].state == Finished { finished := finished + 1; }
      }
      assert blocks[..|blocks|] == blocks;
      complete := finished == |blocks|;
    }

    method CheckEndgame()
      modifies this
      ensures Value() == PickerModel.CheckEndgame(old(Value())) && cursor == old(cursor)
    {
      if !endgameEnabled || inEndgame { return; }
      var remaining := (|pieces| - numHave) % UINT32_LIMIT;
      if remaining <= |pieces| / 20 || remaining <= 10 { inEndgame := true; }
    }

    method CancelRequest(block: BlockInfo, peer: PeerId)
      requires Valid()
      modifies this
      ensures Value() == PickerModel.CancelRequest(old(Value()), block, peer) && Valid()
    {
      StepKeepsSound(Value(), DoCancelRequest(block, peer), PickerModel.CancelRequest(Value(), block, peer));
      SoundHasPieces(Value());
      hide Sound, Next;
      var k := FindDownloading(block.piece);
      if k == |downloading| { return; }
      var i := block.offset / BLOCK_LENGTH;
      if i < |downloading[k].blocks| {
        var b := downloading[k].blocks[i];
        if b.state == Requested && b.peer == peer {
          PutBlock(k, i, FRESH_BLOCK);
        }
      }
    }

    method AbortDownload(block: BlockInfo, peer: PeerId)
      requires Valid()
      modifies this
      ensures Value() == PickerModel.AbortDownload(old(Value()), block, peer) && Valid()
    {
      StepKeepsSound(Value(), DoAbortDownload(block, peer), PickerModel.AbortDownload(Value(), block, peer));
      SoundHasPieces(Value());
      hide Sound, Next;
      var k := FindDownloading(block.piece);
      if k == |downloading| { return; }
      var i := block.offset / BLOCK_LENGTH;
      if i >= |downloading[k].blocks| { return; }
      var b := downloading[k].blocks[i];
      if b.state == Requested && (peer == NO_PEER || b.peer == peer) {
        PutBlock(k, i, FRESH_BLOCK);
      }
    }
  }

  lemma SmallRemainder(i: nat, n: nat)
    requires i < n
    ensures (0 + i) % n == i
  {
  }

  lemma OutOfRange(s: Picker, info: BlockInfo)
    requires Sound(s) && info.piece >= s.geo.numPieces
    ensures !InRange(s, info)
  {
    var k := IndexOf(s.downloading, info.piece);
    assert k < |s.downloading| ==> EntryFits(s, s.downloading[k]);
  }

  lemma StartedAt(s: Picker, p: nat)
    requires p < |s.pieces|
    ensures IndexOf(Started(s, p).downloading, p) == IndexOf(s.downloading, p)
  {
    var d := Started(s, p).downloading;
    var j, k := IndexOf(d, p), IndexOf(s.downloading, p);
    assert d[k].piece == p;
  }

  /** Rounding the size of the piece up to blocks stays inside 32 bits. */
  predicate Fits32(geo: Geometry, piece: nat) {
    piece < geo.numPieces ==> SizeOf(geo, piece) <= UINT32_LIMIT - BLOCK_LENGTH
  }

  /** The block exists, and in s' the finished blocks of its piece add up to the whole piece. */
  predicate WholeAfter(s: Picker, info: BlockInfo, s': Picker) {
    && InRange(s, info) && InRange(s', info) && info.piece < s.geo.numPieces
    && FinishedBytes(s.geo, info.piece, s'.downloading[IndexOf(s'.downloading, info.piece)].blocks) ==
         SizeOf(s.geo, info.piece)
  }

  lemma CompleteIsWhole(s: Picker, info: BlockInfo)
    requires Sound(s) && Fits32(s.geo, info.piece)
    ensures PickerModel.MarkFinished(s, info).1 <==> WholeAfter(s, info, PickerModel.MarkFinished(s, info).0)
  {
    if InRange(s, info) {
      var k := IndexOf(s.downloading, info.piece);
      assert EntryFits(s, s.downloading[k]);
      var t := WithBlock(s, info, Block(Finished, NO_PEER));
      SameIndexOf(s.downloading, t.downloading, info.piece);
      var blocks := t.downloading[k].blocks;
      FinishedAtMost(s.geo, info.piece, blocks);
      BlocksTilePiece(s.geo, info.piece);
    }
  }

  lemma SameIndexOf(d: seq<Entry>, d': seq<Entry>, p: nat)
    requires |d| == |d'| && forall k :: 0 <= k < |d| ==> d[k].piece == d'[k].piece
    ensures IndexOf(d, p) == IndexOf(d', p)
  {
    var j, k := IndexOf(d, p), IndexOf(d', p);
    assert j < |d| ==> d[j].piece == p;
    assert k < |d| ==> d'[k].piece == p;
  }

  lemma {:induction false} HeldAll(pieces: seq<Piece>)
    ensures Held(pieces) <= |pieces|
    ensures Held(pieces) == |pieces| <==> forall i :: 0 <= i < |pieces| ==> pieces[i].have
  {
    if pieces != [] {
      var init := pieces[..|pieces| - 1];
      HeldAll(init);
      assert forall i :: 0 <= i < |init| ==> init[i] == pieces[i];
    }
  }

  lemma NoneHeld()
    ensures Held([]) == 0
  {
  }

  lemma CountsOneMore(pieces: seq<Piece>, p: Piece)
    ensures Held(pieces + [p]) == Held(pieces) + (if p.have then 1 else 0)
  {
    assert (pieces + [p])[..|pieces|] == pieces;
  }

  lemma SoundHasPieces(s: Picker)
    requires Sound(s)
    ensures |s.pieces| == s.geo.numPieces
  {
  }

  lemma StartingFacts(s: Picker, bits: seq<bool>, num: nat, peer: PeerId, cur: Picker, r: seq<Request>)
    requires Starting(s, bits, num, peer, cur, r)
    ensures Marked(s, bits, num, peer, cur, r) && cur.geo == s.geo && cur.inEndgame == s.inEndgame
            && cur.maxDownloading == s.maxDownloading
  {
    SameGeometry(s, bits, num, peer, cur, r);
  }

  lemma BestIsFree(cur: Picker, bits: seq<bool>, p: nat)
    requires Best(cur, bits, p)
    ensures p < |cur.pieces| && !cur.pieces[p].downloading
  {
  }
}
