/** Every run of picker calls: which invariants each call keeps, and exactly when. */
module PickerRuns {
  import opened PickerModel

  datatype Op =
    | DoMarkHave(piece: nat)
    | DoMarkHaveAll
    | DoSetHave(bits: seq<bool>)
    | DoAddPeer(peer: PeerId, bits: seq<bool>)
    | DoRemovePeer(peer: PeerId)
    | DoPeerHasPiece(peer: PeerId, piece: nat)
    | DoPick(bits: seq<bool>, num: nat, peer: PeerId, result: seq<Request>)
    | DoMarkRequested(info: BlockInfo, peer: PeerId)
    | DoMarkWriting(info: BlockInfo)
    | DoMarkFinished(info: BlockInfo, complete: bool)
    | DoCancelRequest(info: BlockInfo, peer: PeerId)
    | DoCancelPeerRequests(peer: PeerId)
    | DoAbortDownload(info: BlockInfo, peer: PeerId)
    | DoSetPriorities(lo: nat, hi: nat, priority: Priority)
    | DoSetMode(mode: Mode)
    | DoSetEndgame(enable: bool)
    | DoSetMaximum(max: nat)

  ghost predicate Next(s: Picker, op: Op, s': Picker) {
    match op
    case DoMarkHave(p) => s' == MarkHave(s, p)
    case DoMarkHaveAll => s' == MarkHaveAll(s)
    case DoSetHave(bits) => s' == SetHave(s, bits)
    case DoAddPeer(p, bits) => s' == AddPeer(s, p, bits)
    case DoRemovePeer(p) => s' == RemovePeer(s, p)
    case DoPeerHasPiece(p, i) => s' == PeerHasPiece(s, p, i)
    case DoPick(bits, num, p, r) => Picked(s, bits, num, p, s', r)
    case DoMarkRequested(b, p) => s' == MarkRequested(s, b, p)
    case DoMarkWriting(b) => s' == MarkWriting(s, b)
    case DoMarkFinished(b, done) => (s', done) == MarkFinished(s, b)
    case DoCancelRequest(b, p) => s' == CancelRequest(s, b, p)
    case DoCancelPeerRequests(p) => s' == CancelPeerRequests(s, p)
    case DoAbortDownload(b, p) => s' == AbortDownload(s, b, p)
    case DoSetPriorities(lo, hi, x) => s' == SetPriorities(s, lo, hi, x)
    case DoSetMode(m) => s' == s.(mode := m)
    case DoSetEndgame(on) => s' == SetEndgame(s, on)
    case DoSetMaximum(max) => s' == s.(maxDownloading := max)
  }

  // ----- the downloading index

  /** What the index part of Sound and Indexed look at. */
  ghost predicate Filed(s: Picker) {
    && |s.pieces| == s.geo.numPieces
    && s.numDownloading == |s.downloading|
    && Distinct(s.downloading)
    && forall k :: 0 <= k < |s.downloading| ==> EntryFits(s, s.downloading[k])
  }

  /** Same entries up to block contents, same flags. */
  ghost predicate SameIndex(s: Picker, s': Picker) {
    && s'.geo == s.geo && |s'.pieces| == |s.pieces| && s'.numDownloading == s.numDownloading
    && |s'.downloading| == |s.downloading|
    && (forall k :: 0 <= k < |s.downloading| ==>
          && s'.downloading[k].piece == s.downloading[k].piece
          && |s'.downloading[k].blocks| == |s.downloading[k].blocks|)
    && forall i :: 0 <= i < |s.pieces| ==> s'.pieces[i].downloading == s.pieces[i].downloading
  }

  lemma SameIndexKeeps(s: Picker, s': Picker)
    requires Filed(s) && SameIndex(s, s')
    ensures Filed(s') && (Indexed(s) ==> Indexed(s'))
  {
    forall k | 0 <= k < |s'.downloading| ensures EntryFits(s', s'.downloading[k]) {
      assert EntryFits(s, s.downloading[k]);
    }
    if Indexed(s) {
      forall i | 0 <= i < |s'.pieces| && s'.pieces[i].downloading ensures Listed(s'.downloading, i) {
        assert Listed(s.downloading, i);
      }
    }
  }

  lemma RemoveKeepsIndex(s: Picker, p: nat)
    requires Filed(s) && p < |s.pieces|
    ensures Filed(RemoveDownloading(s, p)) && (Indexed(s) ==> Indexed(RemoveDownloading(s, p)))
  {
    var s', at := RemoveDownloading(s, p), IndexOf(s.downloading, p);
    if at < |s.downloading| {
      hide IndexOf;
      forall k | 0 <= k < |s'.downloading| ensures EntryFits(s', s'.downloading[k]) {
        RemainingFits(s, p, k);
      }
      WithoutIsDistinct(s.downloading, at);
      if Indexed(s) {
        forall i | 0 <= i < |s'.pieces| && s'.pieces[i].downloading ensures Listed(s'.downloading, i) {
          assert Listed(s.downloading, i);
          RemainingListed(s.downloading, at, i);
        }
      }
    }
  }

  lemma RemainingFits(s: Picker, p: nat, k: nat)
    requires Filed(s) && p < |s.pieces| && IndexOf(s.downloading, p) < |s.downloading|
    requires k < |RemoveDownloading(s, p).downloading|
    ensures EntryFits(RemoveDownloading(s, p), RemoveDownloading(s, p).downloading[k])
  {
    var at := IndexOf(s.downloading, p);
    assert EntryFits(s, s.downloading[if k < at then k else k + 1]);
  }

  lemma WithoutIsDistinct(d: seq<Entry>, at: nat)
    requires Distinct(d) && at < |d|
    ensures Distinct(Without(d, at))
  {
  }

  lemma RemainingListed(d: seq<Entry>, at: nat, i: nat)
    requires at < |d| && Listed(d, i) && d[at].piece != i
    ensures Listed(Without(d, at), i)
  {
    var k :| 0 <= k < |d| && d[k].piece == i;
    assert Without(d, at)[if k < at then k else k - 1].piece == i;
  }

  lemma StartKeepsIndex(s: Picker, p: nat)
    requires Filed(s)
    ensures Filed(Started(s, p)) && (Indexed(s) ==> Indexed(Started(s, p)))
  {
    var s' := Started(s, p);
    if s' != s {
      forall k | 0 <= k < |s'.downloading| ensures EntryFits(s', s'.downloading[k]) {
        if k < |s.downloading| { assert EntryFits(s, s.downloading[k]); }
      }
      if Indexed(s) {
        forall i | 0 <= i < |s'.pieces| && s'.pieces[i].downloading ensures Listed(s'.downloading, i) {
          if i == p {
            assert s'.downloading[|s.downloading|].piece == i;
          } else {
            assert Listed(s.downloading, i);
            var k :| 0 <= k < |s.downloading| && s.downloading[k].piece == i;
            assert s'.downloading[k].piece == i;
          }
        }
      }
    }
  }

  lemma PickKeepsIndex(s: Picker, bits: seq<bool>, num: nat, peer: PeerId, s': Picker, r: seq<Request>)
    requires Filed(s) && Picked(s, bits, num, peer, s', r)
    ensures Filed(s') && (Indexed(s) ==> Indexed(s'))
  {
    forall k | 0 <= k < |s'.downloading| ensures EntryFits(s', s'.downloading[k]) {
      assert Stamped(s.geo, Before(s, s', k), s'.downloading[k], r, peer);
      if k < |s.downloading| {
        assert EntryFits(s, s.downloading[k]);
      } else {
        assert Chosen(s, Order(s'.downloading), bits, k);
      }
      assert Listed(s'.downloading, s'.downloading[k].piece);
    }
    if Indexed(s) {
      forall i | 0 <= i < |s'.pieces| && s'.pieces[i].downloading ensures Listed(s'.downloading, i) {
        if s.pieces[i].downloading {
          assert Listed(s.downloading, i);
          var k :| 0 <= k < |s.downloading| && s.downloading[k].piece == i;
          assert Stamped(s.geo, Before(s, s', k), s'.downloading[k], r, peer);
          assert s'.downloading[k].piece == i;
        }
      }
    }
  }

  /** mark_have_all clears the flag only of pieces not held before, so the index survives it
      exactly when no held piece was flagged. Every other call keeps it. */
  predicate IndexGuard(s: Picker, op: Op) {
    op.DoMarkHaveAll? ==> forall i :: 0 <= i < |s.pieces| ==> !(s.pieces[i].have && s.pieces[i].downloading)
  }

  lemma HaveAllIndex(s: Picker)
    requires Filed(s)
    ensures Filed(MarkHaveAll(s))
    ensures Indexed(MarkHaveAll(s)) <==> IndexGuard(s, DoMarkHaveAll)
  {
    var s' := MarkHaveAll(s);
    forall i | 0 <= i < |s.pieces|
      ensures s'.pieces[i].downloading <==> s.pieces[i].have && s.pieces[i].downloading
      ensures !Listed(s'.downloading, i)
    {
    }
    if !IndexGuard(s, DoMarkHaveAll) {
      var i :| 0 <= i < |s.pieces| && s.pieces[i].have && s.pieces[i].downloading;
      assert s'.pieces[i].downloading && !Listed(s'.downloading, i);
    }
  }

  lemma BlockChangeIndex(s: Picker, info: BlockInfo, b: Block)
    requires InRange(s, info)
    ensures SameIndex(s, WithBlock(s, info, b))
  {
  }

  lemma StepIndex(s: Picker, op: Op, s': Picker)
    requires Filed(s) && Next(s, op, s')
    ensures Filed(s')
    ensures Indexed(s) ==> (Indexed(s') <==> IndexGuard(s, op))
  {
    hide Indexed, Filed, IndexGuard, Picked, SameIndex, InRange, Current, WithBlock, RemoveDownloading, Started;
    NoGuard(s, op);
    match op
    case DoMarkHave(p) => HaveIndex(s, p);
    case DoMarkHaveAll => HaveAllIndex(s);
    case DoPick(bits, num, p, r) => PickKeepsIndex(s, bits, num, p, s', r);
    case DoMarkRequested(b, p) =>
      StartKeepsIndex(s, b.piece);
      var t := Started(s, b.piece);
      if InRange(t, b) { BlockChangeIndex(t, b, Block(Requested, p)); SameIndexKeeps(t, s'); }
    case DoMarkWriting(b) =>
      if InRange(s, b) { BlockChangeIndex(s, b, Current(s, b).(state := Writing)); SameIndexKeeps(s, s'); }
    case DoMarkFinished(b, done) =>
      if InRange(s, b) {
        var t := WithBlock(s, b, Block(Finished, NO_PEER));
        BlockChangeIndex(s, b, Block(Finished, NO_PEER));
        SameIndexKeeps(s, t);
        SameIndexOf(t, s');
        SameIndexKeeps(t, s');
      }
    case DoCancelRequest(b, p) =>
      if s' != s { BlockChangeIndex(s, b, FRESH_BLOCK); SameIndexKeeps(s, s'); }
    case DoAbortDownload(b, p) =>
      if s' != s { BlockChangeIndex(s, b, FRESH_BLOCK); SameIndexKeeps(s, s'); }
    case _ =>
      SameIndexStep(s, op, s');
      SameIndexKeeps(s, s');
  }

  lemma NoGuard(s: Picker, op: Op)
    ensures !op.DoMarkHaveAll? ==> IndexGuard(s, op)
  {
  }

  lemma SameIndexOf(s: Picker, s': Picker)
    requires s'.geo == s.geo && s'.pieces == s.pieces && s'.downloading == s.downloading
             && s'.numDownloading == s.numDownloading
    ensures SameIndex(s, s')
  {
  }

  lemma SameIndexStep(s: Picker, op: Op, s': Picker)
    requires Next(s, op, s')
    requires op.DoSetHave? || op.DoAddPeer? || op.DoRemovePeer? || op.DoPeerHasPiece? || op.DoCancelPeerRequests?
          || op.DoSetPriorities? || op.DoSetMode? || op.DoSetEndgame? || op.DoSetMaximum?
    ensures SameIndex(s, s')
  {
    hide Picked;
  }

  lemma HaveIndex(s: Picker, p: nat)
    requires Filed(s)
    ensures Filed(MarkHave(s, p)) && (Indexed(s) ==> Indexed(MarkHave(s, p)))
  {
    if p < |s.pieces| && !s.pieces[p].have {
      var t := s.(pieces := s.pieces[p := s.pieces[p].(have := true)], numHave := s.numHave + 1);
      assert SameIndex(s, t);
      SameIndexKeeps(s, t);
      RemoveKeepsIndex(t, p);
    }
  }

  // ----- the count of held pieces

  lemma {:induction false} HeldUpdate(pieces: seq<Piece>, i: nat, p: Piece)
    requires i < |pieces|
    ensures Held(pieces[i := p]) == Held(pieces) - (if pieces[i].have then 1 else 0) + (if p.have then 1 else 0)
  {
    var n := |pieces| - 1;
    if i < n {
      HeldUpdate(pieces[..n], i, p);
      assert pieces[i := p][..n] == pieces[..n][i := p];
    } else {
      assert pieces[i := p][..n] == pieces[..n];
    }
  }

  lemma {:induction false} HeldSame(a: seq<Piece>, b: seq<Piece>)
    requires |a| == |b| && forall i :: 0 <= i < |a| ==> a[i].have == b[i].have
    ensures Held(a) == Held(b)
  {
    if a != [] { HeldSame(a[..|a| - 1], b[..|b| - 1]); }
  }

  lemma {:induction false} HeldSplit(a: seq<Piece>, n: nat)
    requires n <= |a|
    ensures Held(a) == Held(a[..n]) + Held(a[n..])
    decreases |a|
  {
    if n == |a| {
      assert a[..n] == a;
    } else {
      var m := |a| - 1;
      HeldSplit(a[..m], n);
      assert a[..m][..n] == a[..n] && a[..m][n..] == a[n..][..m - n];
    }
  }

  lemma {:induction false} HeldZero(a: seq<Piece>)
    ensures Held(a) == 0 <==> forall i :: 0 <= i < |a| ==> !a[i].have
  {
    if a != [] {
      var init := a[..|a| - 1];
      HeldZero(init);
      assert forall i :: 0 <= i < |init| ==> init[i] == a[i];
    }
  }

  lemma {:induction false} HeldFull(a: seq<Piece>)
    requires forall i :: 0 <= i < |a| ==> a[i].have
    ensures Held(a) == |a|
  {
    if a != [] { HeldFull(a[..|a| - 1]); }
  }

  /** set_have_bitfield recounts only the pieces the bitfield covers. */
  predicate CountGuard(s: Picker, op: Op) {
    op.DoSetHave? ==> forall i :: |op.bits| <= i < |s.pieces| ==> !s.pieces[i].have
  }

  lemma SetHaveCount(s: Picker, bits: seq<bool>)
    ensures Counted(SetHave(s, bits)) <==> CountGuard(s, DoSetHave(bits))
  {
    var s' := SetHave(s, bits);
    var n := if |bits| < |s.pieces| then |bits| else |s.pieces|;
    HeldSplit(s'.pieces, n);
    var rest := s'.pieces[n..];
    HeldZero(rest);
    forall i | 0 <= i < |rest| ensures rest[i].have == s.pieces[n + i].have {
    }
    assert forall j :: n <= j < |s.pieces| ==> rest[j - n].have == s.pieces[j].have;
  }

  lemma HaveCount(s: Picker, p: nat)
    requires Counted(s)
    ensures Counted(MarkHave(s, p))
  {
    if p < |s.pieces| && !s.pieces[p].have {
      var q := s.pieces[p].(have := true);
      HeldUpdate(s.pieces, p, q);
      HeldSame(s.pieces[p := q], MarkHave(s, p).pieces);
    }
  }

  lemma HaveAllCount(s: Picker)
    ensures Counted(MarkHaveAll(s))
  {
    HeldFull(MarkHaveAll(s).pieces);
  }

  lemma StepCount(s: Picker, op: Op, s': Picker)
    requires Counted(s) && Next(s, op, s')
    ensures Counted(s') <==> CountGuard(s, op)
  {
    match op
    case DoMarkHave(p) => HaveCount(s, p);
    case DoMarkHaveAll => HaveAllCount(s);
    case DoSetHave(bits) => SetHaveCount(s, bits);
    case _ =>
      SameHave(s, op, s');
      HeldSame(s.pieces, s'.pieces);
  }

  /** Same counts, marks, availability and peers. */
  ghost predicate SameRecord(s: Picker, s': Picker) {
    && s'.numHave == s.numHave && s'.peers == s.peers && |s'.pieces| == |s.pieces|
    && (forall i :: 0 <= i < |s.pieces| ==> s'.pieces[i].have == s.pieces[i].have)
    && (forall i :: 0 <= i < |s.pieces| ==> s'.pieces[i].availability == s.pieces[i].availability)
  }

  lemma SameHave(s: Picker, op: Op, s': Picker)
    requires Next(s, op, s') && !op.DoMarkHave? && !op.DoMarkHaveAll? && !op.DoSetHave?
    ensures s'.numHave == s.numHave && |s'.pieces| == |s.pieces|
    ensures forall i :: 0 <= i < |s.pieces| ==> s'.pieces[i].have == s.pieces[i].have
  {
    hide Picked, InRange, Current, WithBlock, Started, MarkRequested, MarkWriting, MarkFinished, CancelRequest,
         AbortDownload;
    if op.DoAddPeer? || op.DoRemovePeer? || op.DoPeerHasPiece? {
    } else {
      SameRecordStep(s, op, s');
    }
  }

  lemma SameRecordStep(s: Picker, op: Op, s': Picker)
    requires Next(s, op, s') && !op.DoMarkHave? && !op.DoMarkHaveAll? && !op.DoSetHave?
    requires !op.DoAddPeer? && !op.DoRemovePeer? && !op.DoPeerHasPiece?
    ensures SameRecord(s, s')
  {
    hide Picked, InRange, Current, WithBlock, Started, IndexOf;
    match op
    case DoPick(bits, num, p, r) => PickSameRecord(s, bits, num, p, s', r);
    case DoMarkRequested(b, p) =>
      var t := Started(s, b.piece);
      StartSameRecord(s, b.piece);
      if InRange(t, b) { BlockSamePieces(t, b, Block(Requested, p)); }
    case DoMarkWriting(b) => if InRange(s, b) { BlockSamePieces(s, b, Current(s, b).(state := Writing)); }
    case DoMarkFinished(b, done) => FinishSameRecord(s, b);
    case DoCancelRequest(b, p) => if InRange(s, b) { BlockSamePieces(s, b, FRESH_BLOCK); }
    case DoAbortDownload(b, p) => if InRange(s, b) { BlockSamePieces(s, b, FRESH_BLOCK); }
    case _ =>
  }

  lemma PickSameRecord(s: Picker, bits: seq<bool>, num: nat, peer: PeerId, s': Picker, r: seq<Request>)
    requires Picked(s, bits, num, peer, s', r)
    ensures SameRecord(s, s')
  {
    hide Listed, Exhausted, WellChosen, Stamped, Taken, Proper, NothingFree;
  }

  lemma StartSameRecord(s: Picker, p: nat)
    ensures SameRecord(s, Started(s, p))
  {
  }

  lemma BlockSamePieces(s: Picker, info: BlockInfo, b: Block)
    requires InRange(s, info)
    ensures WithBlock(s, info, b).pieces == s.pieces && SameRecord(s, WithBlock(s, info, b))
  {
  }

  lemma FinishSameRecord(s: Picker, info: BlockInfo)
    ensures SameRecord(s, MarkFinished(s, info).0)
  {
  }

  // ----- availability

  lemma HoldersSet(peers: map<PeerId, seq<bool>>, p: PeerId, bits: seq<bool>, i: nat)
    ensures Holders(peers[p := bits], i) == if At(bits, i) then Holders(peers, i) + {p} else Holders(peers, i) - {p}
    ensures |Holders(peers[p := bits], i)| == |Holders(peers, i) - {p}| + (if At(bits, i) then 1 else 0)
    ensures |Holders(peers, i)| == |Holders(peers, i) - {p}| + (if p in peers && At(peers[p], i) then 1 else 0)
  {
    hide At;
    var h, h' := Holders(peers, i), Holders(peers[p := bits], i);
    assert h' == if At(bits, i) then h + {p} else h - {p};
    assert p in h <==> p in peers && At(peers[p], i);
    hide *;
    WithAndWithout(h, p);
    assert h' - {p} == h - {p};
    WithAndWithout(h', p);
  }

  lemma WithAndWithout<T>(s: set<T>, x: T)
    ensures |s| == |s - {x}| + if x in s then 1 else 0
  {
    if x in s { assert s == (s - {x}) + {x}; } else { assert s == s - {x}; }
  }

  lemma HoldersDrop(peers: map<PeerId, seq<bool>>, p: PeerId, i: nat)
    requires p in peers
    ensures |Holders(peers, i)| == |Holders(peers - {p}, i)| + (if At(peers[p], i) then 1 else 0)
  {
    assert Holders(peers - {p}, i) == Holders(peers, i) - {p};
    HoldersSet(peers, p, peers[p], i);
  }

  /** How far availability[i] is above the number of peers that have piece i. */
  ghost function Excess(s: Picker, i: nat): int
    requires i < |s.pieces|
  {
    s.pieces[i].availability - |Holders(s.peers, i)|
  }

  function Wasted(s: Picker, op: Op, i: nat): nat {
    match op
    case DoAddPeer(p, _) => if p in s.peers && At(s.peers[p], i) then 1 else 0
    case DoPeerHasPiece(p, j) => if i == j && p in s.peers && |s.peers[p]| <= j then 1 else 0
    case _ => 0
  }

  /** The excess never shrinks, and grows in exactly two cases: a re-added peer is counted again
      for the pieces it was known to have, and a have message past the end of a short bitfield
      is counted every time. */
  lemma StepExcess(s: Picker, op: Op, s': Picker, i: nat)
    requires Next(s, op, s') && |s.pieces| == s.geo.numPieces && i < |s.pieces| && Excess(s, i) >= 0
    ensures |s'.pieces| == |s.pieces| && Excess(s', i) == Excess(s, i) + Wasted(s, op, i)
  {
    hide Holders;
    match op
    case DoAddPeer(p, bits) => HoldersSet(s.peers, p, bits, i);
    case DoRemovePeer(p) => if p in s.peers { HoldersDrop(s.peers, p, i); }
    case DoPeerHasPiece(p, j) => PeerHasExcess(s, p, j, i);
    case _ => SameAvailability(s, op, s');
  }

  lemma SameAvailability(s: Picker, op: Op, s': Picker)
    requires Next(s, op, s') && !op.DoAddPeer? && !op.DoRemovePeer? && !op.DoPeerHasPiece?
    ensures s'.peers == s.peers && |s'.pieces| == |s.pieces|
    ensures forall i :: 0 <= i < |s.pieces| ==> s'.pieces[i].availability == s.pieces[i].availability
  {
    hide Picked, InRange, Current, WithBlock, Started, MarkRequested, MarkWriting, MarkFinished, CancelRequest,
         AbortDownload;
    if op.DoMarkHave? || op.DoMarkHaveAll? || op.DoSetHave? {
    } else {
      SameRecordStep(s, op, s');
    }
  }

  lemma PeerHasExcess(s: Picker, p: PeerId, j: nat, i: nat)
    requires i < |s.pieces|
    ensures var s' := PeerHasPiece(s, p, j);
            |s'.pieces| == |s.pieces| && Excess(s', i) == Excess(s, i) + Wasted(s, DoPeerHasPiece(p, j), i)
  {
    if j < |s.pieces| {
      if p in s.peers {
        KnownPeerExcess(s, p, j, i);
      } else {
        NewPeerExcess(s, p, j, i);
      }
    }
  }

  lemma KnownPeerExcess(s: Picker, p: PeerId, j: nat, i: nat)
    requires i < |s.pieces| && j < |s.pieces| && p in s.peers
    ensures var s' := PeerHasPiece(s, p, j);
            |s'.pieces| == |s.pieces| && Excess(s', i) == Excess(s, i) + Wasted(s, DoPeerHasPiece(p, j), i)
  {
    hide Holders;
    HoldersSet(s.peers, p, WithBit(s.peers[p], j), i);
  }

  lemma NewPeerExcess(s: Picker, p: PeerId, j: nat, i: nat)
    requires i < |s.pieces| && j < |s.pieces| && p !in s.peers
    ensures var s' := PeerHasPiece(s, p, j);
            |s'.pieces| == |s.pieces| && Excess(s', i) == Excess(s, i)
  {
    hide Holders;
    var none := Times(false, |s.pieces|);
    var known := s.peers[p := none];
    HoldersSet(s.peers, p, none, i);
    HoldersSet(known, p, WithBit(none, j), i);
  }

  // ----- whole runs

  ghost predicate Run(ops: seq<Op>, states: seq<Picker>, geo: Geometry) {
    && |states| == |ops| + 1
    && states[0] == Initial(geo)
    && forall k :: 0 <= k < |ops| ==> Next(states[k], ops[k], states[k + 1])
  }

  lemma SoundIsFiled(s: Picker)
    ensures Sound(s) <==> Filed(s) && forall i :: 0 <= i < |s.pieces| ==> Excess(s, i) >= 0
  {
    hide Holders, EntryFits, Distinct;
    assert forall i {:trigger s.pieces[i]} :: 0 <= i < |s.pieces| ==>
        (Excess(s, i) >= 0 <==> s.pieces[i].availability >= |Holders(s.peers, i)|);
  }

  lemma SoundSize(s: Picker)
    requires Sound(s)
    ensures |s.pieces| == s.geo.numPieces
  {
  }

  lemma StepKeepsSound(s: Picker, op: Op, s': Picker)
    requires Sound(s) && Next(s, op, s')
    ensures Sound(s')
  {
    hide Next, Filed, Excess, Sound;
    SoundIsFiled(s);
    SoundIsFiled(s');
    StepIndex(s, op, s');
    StepWidth(s, op, s');
    SoundSize(s);
    forall i | 0 <= i < |s'.pieces| ensures Excess(s', i) >= 0 {
      StepExcess(s, op, s', i);
    }
  }

  lemma StepKeepsExact(s: Picker, op: Op, s': Picker)
    requires Sound(s) && Exact(s) && Next(s, op, s')
    ensures Exact(s') <==> ExactGuard(s, op)
  {
    hide Next, Sound, Wasted;
    StepWidth(s, op, s');
    SoundSize(s);
    SoundIsFiled(s);
    forall i | 0 <= i < |s.pieces|
      ensures s'.pieces[i].availability == |Holders(s'.peers, i)| + Wasted(s, op, i)
    {
      StepExcess(s, op, s', i);
    }
    GuardIsNoWaste(s, op);
  }

  /** What a caller can check: the peer is new or was known with no piece, and have messages
      stay inside the stored bitfield. */
  predicate ExactGuard(s: Picker, op: Op) {
    match op
    case DoAddPeer(p, _) => p in s.peers ==> forall i :: 0 <= i < |s.pieces| ==> !At(s.peers[p], i)
    case DoPeerHasPiece(p, j) => j < |s.pieces| && p in s.peers ==> j < |s.peers[p]|
    case _ => true
  }

  lemma GuardIsNoWaste(s: Picker, op: Op)
    ensures ExactGuard(s, op) <==> forall i :: 0 <= i < |s.pieces| ==> Wasted(s, op, i) == 0
  {
    if !ExactGuard(s, op) {
      match op
      case DoAddPeer(p, _) =>
        var i :| 0 <= i < |s.pieces| && At(s.peers[p], i);
        assert Wasted(s, op, i) == 1;
      case DoPeerHasPiece(p, j) =>
        assert Wasted(s, op, j) == 1;
    }
  }

  lemma {:induction false} InitialIsSound(geo: Geometry)
    ensures Sound(Initial(geo)) && Indexed(Initial(geo)) && Counted(Initial(geo)) && Exact(Initial(geo))
  {
    HeldZero(Initial(geo).pieces);
    forall i | 0 <= i < geo.numPieces ensures Holders(map[], i) == {} {
    }
  }

  /** Over every run of calls: entries are distinct, flagged and of the right size, their number is
      cached correctly, and availability covers the known holders. Each of the three sharper
      invariants holds as long as its guard held at every earlier step. */
  lemma {:induction false} EveryRunIsSound(ops: seq<Op>, states: seq<Picker>, geo: Geometry, n: nat)
    requires Run(ops, states, geo) && n < |states|
    ensures Sound(states[n])
    ensures (forall k :: 0 <= k < n ==> IndexGuard(states[k], ops[k])) ==> Indexed(states[n])
    ensures (forall k :: 0 <= k < n ==> CountGuard(states[k], ops[k])) ==> Counted(states[n])
    ensures (forall k :: 0 <= k < n ==> ExactGuard(states[k], ops[k])) ==> Exact(states[n])
  {
    hide Next, Sound, Indexed, Counted, Exact, IndexGuard, CountGuard, ExactGuard;
    InitialIsSound(geo);
    if n > 0 {
      EveryRunIsSound(ops, states, geo, n - 1);
      var s, op, s' := states[n - 1], ops[n - 1], states[n];
      assert Next(s, op, s');
      StepKeepsSound(s, op, s');
      SoundIsFiled(s);
      StepIndex(s, op, s');
      if Counted(s) { StepCount(s, op, s'); }
      if Exact(s) { StepKeepsExact(s, op, s'); }
    }
  }

  /** Adding each peer at most once while it is known, with a bitfield of full size. */
  predicate AddedOnce(s: Picker, op: Op) {
    op.DoAddPeer? ==> op.peer !in s.peers && |op.bits| >= |s.pieces|
  }

  predicate Wide(s: Picker) {
    forall p :: p in s.peers ==> |s.peers[p]| >= |s.pieces|
  }

  lemma WideAtFirst(geo: Geometry)
    ensures Wide(Initial(geo))
  {
  }

  lemma StepWide(s: Picker, op: Op, s': Picker)
    requires Next(s, op, s') && Wide(s) && AddedOnce(s, op)
    ensures Wide(s') && ExactGuard(s, op)
  {
    StepWidth(s, op, s');
    if !op.DoAddPeer? && !op.DoRemovePeer? && !op.DoPeerHasPiece? { SameAvailability(s, op, s'); }
  }

  lemma StepWidth(s: Picker, op: Op, s': Picker)
    requires Next(s, op, s')
    ensures |s'.pieces| == |s.pieces|
  {
    hide Next;
    if op.DoAddPeer? || op.DoRemovePeer? || op.DoPeerHasPiece? {
      SameHave(s, op, s');
    } else {
      SameAvailability(s, op, s');
    }
  }

  /** With well-behaved callers availability is exact in every state of the run. */
  lemma {:induction false} AddedOnceIsExact(ops: seq<Op>, states: seq<Picker>, geo: Geometry, n: nat)
    requires Run(ops, states, geo) && n < |states|
    requires forall k :: 0 <= k < n ==> AddedOnce(states[k], ops[k])
    ensures Exact(states[n]) && Wide(states[n])
  {
    hide Next, Exact, ExactGuard, AddedOnce, Wide, Sound;
    InitialIsSound(geo);
    WideAtFirst(geo);
    if n > 0 {
      AddedOnceIsExact(ops, states, geo, n - 1);
      EveryRunIsSound(ops, states, geo, n - 1);
      assert Next(states[n - 1], ops[n - 1], states[n]);
      StepWide(states[n - 1], ops[n - 1], states[n]);
      StepKeepsExact(states[n - 1], ops[n - 1], states[n]);
    }
  }

  // ----- where the guards bite

  /** A held piece that is also in progress keeps its flag when mark_have_all empties the list. */
  lemma HaveAllLosesEntry()
    ensures var geo := Geometry(1, 16384, 16384);
            var s1 := MarkRequested(Initial(geo), BlockInfo(0, 0, 16384), 1);
            var s2 := SetHave(s1, [true]);
            Next(Initial(geo), DoMarkRequested(BlockInfo(0, 0, 16384), 1), s1) && Next(s1, DoSetHave([true]), s2)
            && !Indexed(MarkHaveAll(s2))
  {
    var geo := Geometry(1, 16384, 16384);
    var s1 := MarkRequested(Initial(geo), BlockInfo(0, 0, 16384), 1);
    assert s1.pieces[0].downloading;
    var s2 := SetHave(s1, [true]);
    assert s2.pieces[0].have && s2.pieces[0].downloading;
    InitialIsSound(geo);
    SoundIsFiled(Initial(geo));
    StepIndex(Initial(geo), DoMarkRequested(BlockInfo(0, 0, 16384), 1), s1);
    StepIndex(s1, DoSetHave([true]), s2);
    HaveAllIndex(s2);
  }

  /** A short bitfield leaves held pieces uncounted. */
  lemma ShortHaveMiscounts()
    ensures !Counted(SetHave(MarkHave(Initial(Geometry(1, 16384, 16384)), 0), []))
  {
    SetHaveCount(MarkHave(Initial(Geometry(1, 16384, 16384)), 0), []);
  }

  /** A peer added twice is counted twice. */
  lemma ReaddedPeerCountsTwice()
    ensures var s := Initial(Geometry(1, 16384, 16384));
            !Exact(AddPeer(AddPeer(s, 1, [true]), 1, [true]))
  {
    var s := Initial(Geometry(1, 16384, 16384));
    var t := AddPeer(AddPeer(s, 1, [true]), 1, [true]);
    assert t.pieces[0].availability == 2;
    assert Holders(t.peers, 0) == {1};
  }

  /** A have message past the end of a short bitfield is counted though the peer is not known to
      have the piece. */
  lemma ShortBitfieldOvercounts()
    ensures var s := Initial(Geometry(1, 16384, 16384));
            !Exact(PeerHasPiece(AddPeer(s, 1, []), 1, 0))
  {
    var s := Initial(Geometry(1, 16384, 16384));
    var t := PeerHasPiece(AddPeer(s, 1, []), 1, 0);
    assert t.pieces[0].availability == 1;
    assert Holders(t.peers, 0) == {};
  }

  /** A piece so long that rounding its size up wraps around has no blocks. */
  lemma HugePieceHasNoBlocks()
    ensures var geo := Geometry(1, 16384, 0xFFFF_FFFF);
            BlocksIn(geo, 0) == 0 && AllBytes(geo, 0, BlocksIn(geo, 0)) != SizeOf(geo, 0)
  {
    var geo := Geometry(1, 16384, 0xFFFF_FFFF);
    assert SizeOf(geo, 0) == 0xFFFF_FFFF;
    assert BlocksIn(geo, 0) == 0;
  }
}
