/** The two loops of pick_pieces (src/bt_piece_picker.cpp), one turn at a time. */
module PickerPicking {
  import opened PickerModel

  /** Between turns of the first loop: the first j entries have been gone through. */
  ghost predicate Resumed(s: Picker, bits: seq<bool>, num: nat, peer: PeerId, cur: Picker, r: seq<Request>, j: nat) {
    && j <= |s.downloading| == |cur.downloading|
    && Marked(s, bits, num, peer, cur, r)
    && (forall k :: j <= k < |s.downloading| ==> cur.downloading[k] == s.downloading[k])
    && (forall k :: j <= k < |s.downloading| ==> NoneFor(r, s.downloading[k].piece))
    && (|r| < num ==> Exhausted(s, bits, peer, cur, r, j))
  }

  lemma ResumeStarts(s: Picker, bits: seq<bool>, num: nat, peer: PeerId)
    requires Sound(s)
    ensures Resumed(s, bits, num, peer, s, [], 0)
  {
    NothingMarked(s, bits, num, peer);
  }

  /** The peer does not have the piece of entry j. */
  lemma ResumeSkips(s: Picker, bits: seq<bool>, num: nat, peer: PeerId, cur: Picker, r: seq<Request>, j: nat)
    requires Resumed(s, bits, num, peer, cur, r, j) && j < |cur.downloading| && !At(bits, cur.downloading[j].piece)
    ensures Resumed(s, bits, num, peer, cur, r, j + 1)
  {
    hide Marked;
  }

  lemma ResumeGrabs(s: Picker, bits: seq<bool>, num: nat, peer: PeerId, cur: Picker, r: seq<Request>, j: nat,
                    e': Entry, asks: seq<Request>)
    requires Sound(s) && Resumed(s, bits, num, peer, cur, r, j) && j < |cur.downloading|
             && At(bits, cur.downloading[j].piece)
    requires |r| < num && Grabbed(s.geo, cur.downloading[j], e', asks, num - |r|, peer, s.inEndgame)
    ensures Resumed(s, bits, num, peer, cur.(downloading := cur.downloading[j := e']), r + asks, j + 1)
  {
    var e := cur.downloading[j];
    assert EntryFits(s, s.downloading[j]);
    GrabKeepsMarked(s, bits, num, peer, cur, r, j, e', asks);
    var s', r' := cur.(downloading := cur.downloading[j := e']), r + asks;
    AsksOnly(s.geo, e, peer, asks);
    hide Marked, Stamped, Taken, Emptied, BlocksIn;
    forall k | j + 1 <= k < |s.downloading| ensures NoneFor(r', s.downloading[k].piece) {
      assert NoneFor(r, s.downloading[k].piece);
    }
    if |r'| < num {
      forall k | 0 <= k < j + 1 && At(bits, s'.downloading[k].piece)
        ensures Emptied(s.geo, Before(s, s', k), r', peer, s.inEndgame)
      {
        EmptiedGrows(s.geo, Before(s, s', k), r, asks, peer, s.inEndgame);
      }
    }
  }

  lemma AsksOnly(geo: Geometry, e: Entry, peer: PeerId, asks: seq<Request>)
    requires forall q :: q in asks ==> AsksEntry(geo, e, peer, q)
    ensures forall p :: p != e.piece ==> NoneFor(asks, p)
  {
  }

  /** Between turns of the second loop. */
  ghost predicate Starting(s: Picker, bits: seq<bool>, num: nat, peer: PeerId, cur: Picker, r: seq<Request>) {
    && Marked(s, bits, num, peer, cur, r)
    && WellChosen(s, bits, cur)
    && (|s.downloading| < |cur.downloading| ==> Exhausted(s, bits, peer, cur, r, |cur.downloading| - 1))
    && (|r| < num ==> Exhausted(s, bits, peer, cur, r, |cur.downloading|))
  }

  lemma ResumedThenStarting(s: Picker, bits: seq<bool>, num: nat, peer: PeerId, cur: Picker, r: seq<Request>, j: nat)
    requires Resumed(s, bits, num, peer, cur, r, j) && (|r| < num ==> j == |cur.downloading|)
    ensures Starting(s, bits, num, peer, cur, r)
  {
    hide Marked, Exhausted;
  }

  /** What the pick functions return: a free piece, preferred over every other free one. */
  predicate Best(cur: Picker, bits: seq<bool>, p: nat) {
    && p < |cur.pieces|
    && Candidate(cur.pieces[p], bits, p)
    && forall q :: 0 <= q < |cur.pieces| && Candidate(cur.pieces[q], bits, q) ==> Prefers(cur, p, q)
  }

  lemma BestIsUnlisted(s: Picker, bits: seq<bool>, num: nat, peer: PeerId, cur: Picker, r: seq<Request>, p: nat)
    requires Marked(s, bits, num, peer, cur, r) && Best(cur, bits, p)
    ensures IndexOf(cur.downloading, p) == |cur.downloading|
  {
    hide Stamped, Taken, Proper, Exhausted, IndexOf, BlocksIn;
    NotListed(cur.downloading, p);
  }

  /** Starting piece p and taking blocks from it. */
  lemma StartGrabs(s: Picker, bits: seq<bool>, num: nat, peer: PeerId, cur: Picker, r: seq<Request>, p: nat,
                   e': Entry, asks: seq<Request>)
    requires Starting(s, bits, num, peer, cur, r) && Best(cur, bits, p) && |r| < num
    requires s.inEndgame || |cur.downloading| < s.maxDownloading
    requires IndexOf(cur.downloading, p) == |cur.downloading|
    requires Grabbed(s.geo, FreshEntry(s.geo, p), e', asks, num - |r|, peer, s.inEndgame)
    ensures var mid := Started(cur, p);
            Starting(s, bits, num, peer, mid.(downloading := mid.downloading[|cur.downloading| := e']), r + asks)
  {
    var mid, n := Started(cur, p), |cur.downloading|;
    SameGeometry(s, bits, num, peer, cur, r);
    StartKeepsMarked(s, bits, num, peer, cur, r, p);
    GrabKeepsMarked(s, bits, num, peer, mid, r, n, e', asks);
    var s', r' := mid.(downloading := mid.downloading[n := e']), r + asks;
    GrabbedPiece(s.geo, FreshEntry(s.geo, p), e', asks, num - |r|, peer, s.inEndgame);
    StartIsWellChosen(s, bits, num, peer, cur, r, p, s');
    hide Marked, Emptied, WellChosen, Grabbed, Started, IndexOf;
    ExhaustedGrows(s, bits, peer, cur, r, s', asks, n);
    if |r'| < num {
      assert Emptied(s.geo, FreshEntry(s.geo, p), r', peer, s.inEndgame) by {
        LastEmptied(s.geo, FreshEntry(s.geo, p), e', r, asks, num - |r|, peer, s.inEndgame);
      }
    }
  }

  lemma SameGeometry(s: Picker, bits: seq<bool>, num: nat, peer: PeerId, cur: Picker, r: seq<Request>)
    requires Marked(s, bits, num, peer, cur, r)
    ensures cur.geo == s.geo && cur.mode == s.mode && cur.inEndgame == s.inEndgame
            && cur.maxDownloading == s.maxDownloading
    ensures |s.downloading| <= |cur.downloading| && |cur.pieces| == |s.pieces| && FlagsAdded(s, cur)
  {
  }

  lemma GrabbedPiece(geo: Geometry, e: Entry, e': Entry, asks: seq<Request>, room: nat, peer: PeerId, endgame: bool)
    requires Grabbed(geo, e, e', asks, room, peer, endgame)
    ensures e'.piece == e.piece
  {
  }

  lemma LastEmptied(geo: Geometry, e: Entry, e': Entry, r: seq<Request>, asks: seq<Request>, room: nat, peer: PeerId,
                    endgame: bool)
    requires Grabbed(geo, e, e', asks, room, peer, endgame) && |asks| < room
    ensures Emptied(geo, e, r + asks, peer, endgame)
  {
    EmptiedGrows(geo, e, r, asks, peer, endgame);
  }

  lemma ExhaustedGrows(s: Picker, bits: seq<bool>, peer: PeerId, cur: Picker, r: seq<Request>, s': Picker,
                       asks: seq<Request>, n: nat)
    requires Exhausted(s, bits, peer, cur, r, n) && |s.downloading| <= n == |cur.downloading| <= |s'.downloading|
    requires forall k :: 0 <= k < n ==> s'.downloading[k] == cur.downloading[k]
    ensures Exhausted(s, bits, peer, s', r + asks, n)
  {
    hide Emptied;
    forall k | 0 <= k < n && At(bits, s'.downloading[k].piece)
      ensures Emptied(s.geo, Before(s, s', k), r + asks, peer, s.inEndgame)
    {
      assert Before(s, s', k) == Before(s, cur, k);
      EmptiedGrows(s.geo, Before(s, s', k), r, asks, peer, s.inEndgame);
    }
  }

  lemma StartIsWellChosen(s: Picker, bits: seq<bool>, num: nat, peer: PeerId, cur: Picker, r: seq<Request>, p: nat,
                          s': Picker)
    requires Marked(s, bits, num, peer, cur, r) && WellChosen(s, bits, cur) && Best(cur, bits, p)
    requires s.inEndgame || |cur.downloading| < s.maxDownloading
    requires |s'.downloading| == |cur.downloading| + 1 && s'.downloading[|cur.downloading|].piece == p
    requires s'.downloading[..|cur.downloading|] == cur.downloading
    ensures WellChosen(s, bits, s')
  {
    SameGeometry(s, bits, num, peer, cur, r);
    hide Marked;
    var n, before, order := |cur.downloading|, Order(cur.downloading), Order(s'.downloading);
    assert order == before + [p] by {
      assert forall k :: 0 <= k < n ==> s'.downloading[..n][k] == s'.downloading[k];
    }
    forall k | |s.downloading| <= k < |s'.downloading| ensures Chosen(s, order, bits, k) {
      if k < n {
        assert Chosen(s, before, bits, k);
        assert order[..k] == before[..k] && order[k] == before[k];
      } else {
        LastChosen(s, bits, cur, p);
        assert order[..n] == before;
      }
    }
  }

  lemma LastChosen(s: Picker, bits: seq<bool>, cur: Picker, p: nat)
    requires FlagsAdded(s, cur) && Best(cur, bits, p) && cur.mode == s.mode
    ensures Chosen(s, Order(cur.downloading) + [p], bits, |cur.downloading|)
  {
    var order := Order(cur.downloading) + [p];
    assert order[..|cur.downloading|] == Order(cur.downloading);
    forall q | 0 <= q < |s.pieces| && Candidate(s.pieces[q], bits, q) && q !in Order(cur.downloading)
      ensures Prefers(s, p, q)
    {
      UnlistedOrder(cur.downloading, q);
      assert Candidate(cur.pieces[q], bits, q);
    }
  }

  lemma UnlistedOrder(d: seq<Entry>, q: nat)
    ensures Listed(d, q) <==> q in Order(d)
  {
    if Listed(d, q) {
      var k :| 0 <= k < |d| && d[k].piece == q;
      assert Order(d)[k] == q;
    }
  }

  /** Pieces that no download has started on: each turn of the second loop takes one. */
  function Unstarted(pieces: seq<Piece>): set<nat> {
    set i: nat | i < |pieces| && !pieces[i].downloading
  }

  lemma FlagShrinks(pieces: seq<Piece>, p: nat)
    requires p < |pieces| && !pieces[p].downloading
    ensures |Unstarted(Flag(pieces, p, true))| < |Unstarted(pieces)|
  {
    var less := Unstarted(Flag(pieces, p, true));
    assert p !in less;
    assert Unstarted(pieces) == less + {p};
  }
}
