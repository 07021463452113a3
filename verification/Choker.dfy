/** Upload slots (src/bt_choker.cpp). Rates are real numbers, times are integers in nanoseconds. */
module Choker {
  type Connection = nat
  const NULL: Connection := 0

  datatype Peer = Peer(
    connection: Connection,
    downloadRate: real,
    uploadRate: real,
    amChoking: bool,
    interested: bool,
    optimistic: bool,
    lastUnchoke: int,
    connectedAt: int)

  /** No two entries share a connection. */
  predicate Distinct(ps: seq<Peer>) {
    forall i, j :: 0 <= i < j < |ps| && ps[i].connection != NULL ==> ps[i].connection != ps[j].connection
  }

  predicate Eligible(p: Peer) { p.interested && p.connection != NULL }

  predicate NoRepeats<T(==)>(s: seq<T>) {
    forall i, j :: 0 <= i < j < |s| ==> s[i] != s[j]
  }

  // ----- sorting

  predicate Descending(order: seq<nat>, keys: seq<real>) {
    && (forall k :: 0 <= k < |order| ==> order[k] < |keys|)
    && forall a, b :: 0 <= a < b < |order| ==> keys[order[a]] >= keys[order[b]]
  }

  /** std::sort on a key, best first; nothing is promised about ties. */
  method SortBest(indices: seq<nat>, keys: seq<real>) returns (order: seq<nat>)
    requires NoRepeats(indices) && forall k :: 0 <= k < |indices| ==> indices[k] < |keys|
    ensures Descending(order, keys) && NoRepeats(order) && |order| == |indices|
    ensures forall i :: i in order <==> i in indices
  {
    order := [];
    for n := 0 to |indices|
      invariant Descending(order, keys) && NoRepeats(order) && |order| == n
      invariant forall i :: i in order <==> i in indices[..n]
    {
      var x := indices[n];
      var at := 0;
      while at < |order| && keys[order[at]] >= keys[x]
        invariant at <= |order|
        invariant forall k :: 0 <= k < at ==> keys[order[k]] >= keys[x]
      {
        at := at + 1;
      }
      assert x !in order by { NotAmongEarlier(indices, n); }
      InsertKeeps(order, keys, x, at);
      InsertedElements(order, x, at);
      order := Inserted(order, x, at);
      assert indices[..n + 1] == indices[..n] + [x];
    }
    assert indices[..|indices|] == indices;
  }

  lemma NotAmongEarlier(indices: seq<nat>, n: nat)
    requires NoRepeats(indices) && n < |indices|
    ensures indices[n] !in indices[..n]
  {
  }

  function Inserted(order: seq<nat>, x: nat, at: nat): (r: seq<nat>)
    requires at <= |order|
    ensures |r| == |order| + 1
    ensures forall k :: 0 <= k < at ==> r[k] == order[k]
    ensures r[at] == x
    ensures forall k :: at < k < |r| ==> r[k] == order[k - 1]
  {
    order[..at] + [x] + order[at..]
  }

  lemma InsertedElements(order: seq<nat>, x: nat, at: nat)
    requires at <= |order|
    ensures forall i :: i in Inserted(order, x, at) <==> i in order || i == x
  {
    assert order == order[..at] + order[at..];
  }

  lemma InsertKeeps(order: seq<nat>, keys: seq<real>, x: nat, at: nat)
    requires Descending(order, keys) && NoRepeats(order) && x !in order && x < |keys| && at <= |order|
    requires forall k :: 0 <= k < at ==> keys[order[k]] >= keys[x]
    requires at < |order| ==> keys[order[at]] < keys[x]
    ensures Descending(Inserted(order, x, at), keys) && NoRepeats(Inserted(order, x, at))
  {
    hide Inserted;
    var r := Inserted(order, x, at);
    forall a, b | 0 <= a < b < |r| ensures r[a] < |keys| && r[b] < |keys| && keys[r[a]] >= keys[r[b]] && r[a] != r[b] {
      InsertPair(order, keys, x, at, a, b);
    }
    forall k | 0 <= k < |r| ensures r[k] < |keys| {
    }
  }

  lemma InsertPair(order: seq<nat>, keys: seq<real>, x: nat, at: nat, a: nat, b: nat)
    requires Descending(order, keys) && NoRepeats(order) && x !in order && x < |keys| && at <= |order|
    requires forall k :: 0 <= k < at ==> keys[order[k]] >= keys[x]
    requires at < |order| ==> keys[order[at]] < keys[x]
    requires a < b <= |order|
    ensures var r := Inserted(order, x, at);
            r[a] < |keys| && r[b] < |keys| && keys[r[a]] >= keys[r[b]] && r[a] != r[b]
  {
    hide Inserted;
    if b == at {
      assert order[a] in order;
    } else if a == at {
      assert order[b - 1] in order;
      assert at == b - 1 || keys[order[at]] >= keys[order[b - 1]];
    }
  }

  // ----- the lists of changes

  /** choke and unchoke are the changes of amChoking between ps and ps', each once. */
  ghost predicate Records(ps: seq<Peer>, ps': seq<Peer>, choke: seq<Connection>, unchoke: seq<Connection>) {
    && |ps'| == |ps|
    && NoRepeats(choke) && NoRepeats(unchoke) && NULL !in choke && NULL !in unchoke
    && (forall i :: 0 <= i < |ps| ==> SamePeer(ps[i], ps'[i]))
    && (forall i :: 0 <= i < |ps| && ps[i].connection != NULL ==>
          (ps[i].connection in choke <==> !ps[i].amChoking && ps'[i].amChoking))
    && (forall i :: 0 <= i < |ps| && ps[i].connection != NULL ==>
          (ps[i].connection in unchoke <==> ps[i].amChoking && !ps'[i].amChoking))
    && (forall i :: 0 <= i < |ps| && ps[i].connection == NULL ==> ps'[i].amChoking == ps[i].amChoking)
    && (forall c :: c in choke || c in unchoke ==> Known(ps, c))
  }

  predicate Known(ps: seq<Peer>, c: Connection) {
    exists i :: 0 <= i < |ps| && ps[i].connection == c
  }

  /** No connection is told both. */
  lemma ListsAreDisjoint(ps: seq<Peer>, ps': seq<Peer>, choke: seq<Connection>, unchoke: seq<Connection>, c: Connection)
    requires Records(ps, ps', choke, unchoke)
    ensures !(c in choke && c in unchoke)
  {
    if c in choke {
      var i :| 0 <= i < |ps| && ps[i].connection == c;
    }
  }

  /** Everything but the choke state, its time and the optimistic mark. */
  predicate SamePeer(p: Peer, p': Peer) {
    p' == p.(amChoking := p'.amChoking, lastUnchoke := p'.lastUnchoke, optimistic := p'.optimistic)
  }

  /** The time of the last unchoke moves exactly on a change to unchoked. */
  predicate Timed(ps: seq<Peer>, ps': seq<Peer>, now: int) {
    && |ps'| == |ps|
    && forall i :: 0 <= i < |ps| ==>
         ps'[i].lastUnchoke == if ps[i].amChoking && !ps'[i].amChoking then now else ps[i].lastUnchoke
  }

  predicate SameMarks(ps: seq<Peer>, ps': seq<Peer>) {
    |ps'| == |ps| && forall i :: 0 <= i < |ps| ==> ps'[i].optimistic == ps[i].optimistic
  }

  lemma NothingRecorded(ps: seq<Peer>)
    ensures Records(ps, ps, [], [])
  {
  }

  /** Setting the choke state of a peer that has not changed yet. */
  lemma RecordOne(ps: seq<Peer>, mid: seq<Peer>, choke: seq<Connection>, unchoke: seq<Connection>, i: nat, p: Peer)
    requires Distinct(ps) && Records(ps, mid, choke, unchoke) && i < |ps| && ps[i].connection != NULL
    requires mid[i].amChoking == ps[i].amChoking && SamePeer(mid[i], p)
    ensures Records(ps, mid[i := p],
                    if p.amChoking && !ps[i].amChoking then choke + [ps[i].connection] else choke,
                    if !p.amChoking && ps[i].amChoking then unchoke + [ps[i].connection] else unchoke)
  {
    var c := ps[i].connection;
    assert Known(ps, c);
    assert c !in choke && c !in unchoke;
    forall j | 0 <= j < |ps| && j != i && ps[j].connection != NULL ensures ps[j].connection != c {
    }
  }

  // ----- giving out slots

  /** Eligible peers that hold a regular slot. */
  ghost function Regular(ps: seq<Peer>, special: Connection): set<nat> {
    set i: nat | i < |ps| && Eligible(ps[i]) && ps[i].connection != special && !ps[i].amChoking
  }

  ghost function Ordinary(ps: seq<Peer>, special: Connection): set<nat> {
    set i: nat | i < |ps| && Eligible(ps[i]) && ps[i].connection != special
  }

  function Min(a: nat, b: nat): nat { if a < b then a else b }

  /** Outcome of the allocation loop: the special peer is unchoked, min(slots, others) of the
      others are, and each of these has at least the key of every other left choked. */
  ghost predicate Allotted(ps: seq<Peer>, ps': seq<Peer>, keys: seq<real>, slots: nat, special: Connection) {
    && |ps'| == |ps| == |keys|
    && (forall i :: 0 <= i < |ps| && !Eligible(ps[i]) ==> ps'[i] == ps[i])
    && (forall i :: 0 <= i < |ps| && Eligible(ps[i]) && ps[i].connection == special ==> !ps'[i].amChoking)
    && |Regular(ps', special)| == Min(slots, |Ordinary(ps', special)|)
    && (forall i, j :: i in Regular(ps', special) && j in Ordinary(ps', special) && j !in Regular(ps', special) ==>
        keys[i] >= keys[j])
  }

  /** Between turns: the peers in order[..k] are settled, `regular` of them hold slots. */
  ghost predicate Settling(ps: seq<Peer>, mid: seq<Peer>, order: seq<nat>, keys: seq<real>, k: nat, slots: nat,
                           special: Connection, regular: set<nat>) {
    && |mid| == |ps| == |keys| && k <= |order|
    && (forall i :: i in order[..k] ==> i < |ps|)
    && Stated(ps, mid, order[..k], special, regular)
    && Ranked(ps, order[..k], keys, slots, special, regular)
  }

  /** The choke states say who holds a slot. */
  ghost predicate Stated(ps: seq<Peer>, mid: seq<Peer>, done: seq<nat>, special: Connection, regular: set<nat>)
    requires |mid| == |ps| && forall i :: i in done ==> i < |ps|
  {
    && (forall i :: 0 <= i < |ps| && i !in done ==> mid[i] == ps[i])
    && (forall i :: i in done ==> SamePeer(ps[i], mid[i]))
    && (forall i :: i in done && ps[i].connection == special ==> !mid[i].amChoking)
    && (forall i :: i in done && ps[i].connection != special ==> (!mid[i].amChoking <==> i in regular))
  }

  /** The slots went to the best, and someone was refused only when none was left. */
  ghost predicate Ranked(ps: seq<Peer>, done: seq<nat>, keys: seq<real>, slots: nat, special: Connection,
                         regular: set<nat>)
    requires |keys| == |ps| && forall i :: i in done ==> i < |ps|
  {
    && (forall i :: i in regular ==> i in done && ps[i].connection != special)
    && |regular| <= slots
    && (forall i, j :: i in regular && j in done && ps[j].connection != special && j !in regular ==> keys[i] >= keys[j])
    && ((exists j :: j in done && ps[j].connection != special && j !in regular) ==> |regular| == slots)
  }

  ghost predicate GoodOrder(ps: seq<Peer>, order: seq<nat>, keys: seq<real>) {
    && |keys| == |ps|
    && Descending(order, keys) && NoRepeats(order)
    && (forall i :: i in order ==> i < |ps| && Eligible(ps[i]))
    && (forall i :: 0 <= i < |ps| && Eligible(ps[i]) ==> i in order)
  }

  lemma SettleNone(ps: seq<Peer>, order: seq<nat>, keys: seq<real>, slots: nat, special: Connection)
    requires GoodOrder(ps, order, keys)
    ensures Settling(ps, ps, order, keys, 0, slots, special, {})
  {
  }

  lemma SettleOne(ps: seq<Peer>, mid: seq<Peer>, order: seq<nat>, keys: seq<real>, k: nat, slots: nat,
                  special: Connection, regular: set<nat>, p: Peer)
    requires GoodOrder(ps, order, keys) && k < |order|
    requires Settling(ps, mid, order, keys, k, slots, special, regular)
    requires SamePeer(ps[order[k]], p)
    requires p.amChoking <==> ps[order[k]].connection != special && |regular| >= slots
    ensures mid[order[k]] == ps[order[k]]
    ensures Settling(ps, mid[order[k] := p], order, keys, k + 1, slots, special,
                     if ps[order[k]].connection != special && |regular| < slots then regular + {order[k]} else regular)
  {
    var i := order[k];
    OrderStep(ps, order, keys, k);
    StateStep(ps, mid, order[..k], special, regular, i, p, slots);
    RankStep(ps, order[..k], keys, slots, special, regular, i);
    assert order[..k + 1] == order[..k] + [i];
  }

  lemma StateStep(ps: seq<Peer>, mid: seq<Peer>, done: seq<nat>, special: Connection, regular: set<nat>, i: nat,
                  p: Peer, slots: nat)
    requires |mid| == |ps| && (forall j :: j in done ==> j < |ps|) && i < |ps| && i !in done && i !in regular
    requires Stated(ps, mid, done, special, regular) && SamePeer(ps[i], p)
    requires p.amChoking <==> ps[i].connection != special && |regular| >= slots
    ensures Stated(ps, mid[i := p], done + [i], special,
                   if ps[i].connection != special && |regular| < slots then regular + {i} else regular)
  {
    hide SamePeer;
  }

  lemma RankStep(ps: seq<Peer>, done: seq<nat>, keys: seq<real>, slots: nat, special: Connection, regular: set<nat>,
                 i: nat)
    requires |keys| == |ps| && i < |ps| && (forall j :: j in done ==> j < |ps| && keys[j] >= keys[i]) && i !in done
    requires Ranked(ps, done, keys, slots, special, regular)
    ensures Ranked(ps, done + [i], keys, slots, special,
                   if ps[i].connection != special && |regular| < slots then regular + {i} else regular)
  {
  }

  lemma OrderStep(ps: seq<Peer>, order: seq<nat>, keys: seq<real>, k: nat)
    requires GoodOrder(ps, order, keys) && k < |order|
    ensures order[k] < |ps| && order[k] !in order[..k]
    ensures forall j :: j in order[..k + 1] <==> j in order[..k] || j == order[k]
    ensures forall j :: j in order[..k] ==> j < |ps| && keys[j] >= keys[order[k]]
  {
    var i := order[k];
    assert i in order;
    assert order[..k + 1] == order[..k] + [i];
    forall j | j in order[..k] ensures j < |ps| && keys[j] >= keys[i] {
      var a :| 0 <= a < k && order[a] == j;
      assert j in order;
    }
  }

  lemma SettleAll(ps: seq<Peer>, mid: seq<Peer>, order: seq<nat>, keys: seq<real>, slots: nat,
                  special: Connection, regular: set<nat>)
    requires GoodOrder(ps, order, keys) && Settling(ps, mid, order, keys, |order|, slots, special, regular)
    ensures Allotted(ps, mid, keys, slots, special)
  {
    assert order[..|order|] == order;
    assert Regular(mid, special) == regular;
    var all := Ordinary(mid, special);
    assert regular <= all;
    if all == regular {
    } else {
      var j :| j in all && j !in regular;
      assert j in order[..|order|];
      SubsetIsSmaller(regular, all);
    }
  }

  lemma SubsetIsSmaller(a: set<nat>, b: set<nat>)
    requires a <= b
    ensures |a| <= |b|
  {
    assert b == a + (b - a);
  }

  class Choker {
    var maxUploads: nat
    var seedMode: bool
    var optimistic: Connection

    constructor (maxUploads: nat, seedMode: bool)
      ensures this.maxUploads == maxUploads && this.seedMode == seedMode && optimistic == NULL
    {
      this.maxUploads, this.seedMode, optimistic := maxUploads, seedMode, NULL;
    }

    /** The allocation loop of both modes. */
    method Allot(peers: array<Peer>, order: seq<nat>, ghost keys: seq<real>, slots: nat, special: Connection, now: int)
      returns (choke: seq<Connection>, unchoke: seq<Connection>)
      requires Distinct(peers[..]) && GoodOrder(peers[..], order, keys)
      modifies peers
      ensures Records(old(peers[..]), peers[..], choke, unchoke)
      ensures Allotted(old(peers[..]), peers[..], keys, slots, special)
      ensures Timed(old(peers[..]), peers[..], now) && SameMarks(old(peers[..]), peers[..])
    {
      hide Distinct, Records, Settling;
      ghost var ps := peers[..];
      choke, unchoke := [], [];
      ghost var regular: set<nat> := {};
      var unchoked := 0;
      NothingRecorded(ps);
      SettleNone(ps, order, keys, slots, special);
      for k := 0 to |order|
        invariant unchoked == |regular|
        invariant Settling(ps, peers[..], order, keys, k, slots, special, regular)
        invariant Records(ps, peers[..], choke, unchoke)
        invariant Timed(ps, peers[..], now) && SameMarks(ps, peers[..])
      {
        var i := order[k];
        assert i in order;
        var p := peers[i];
        ghost var mid := peers[..];
        var take := p.connection == special || unchoked < slots;
        var p' := if take then (if p.amChoking then p.(amChoking := false, lastUnchoke := now) else p)
                  else p.(amChoking := true);
        Untouched(ps, mid, order, keys, k, slots, special, regular);
        SettleOne(ps, mid, order, keys, k, slots, special, regular, p');
        RecordOne(ps, mid, choke, unchoke, i, p');
        if take {
          if p.amChoking {
            unchoke := unchoke + [p.connection];
            peers[i] := p';
          }
          if p.connection != special {
            unchoked := unchoked + 1;
            regular := regular + {i};
          }
        } else if !p.amChoking {
          choke := choke + [p.connection];
          peers[i] := p';
        }
        assert peers[..] == mid[i := p'];
      }
      SettleAll(ps, peers[..], order, keys, slots, special, regular);
    }

    /** rotate_optimistic: the new optimistic peer is choked and interested, and among the newer
        quarter of those; the marks agree with it. */
    method RotateOptimistic(peers: array<Peer>)
      requires Distinct(peers[..])
      modifies this`optimistic, peers
      ensures SameButMarks(old(peers[..]), peers[..])
      ensures Rotated(old(peers[..]), optimistic)
      ensures optimistic == NULL ==> peers[..] == old(peers[..])
      ensures optimistic != NULL ==>
                forall i :: 0 <= i < peers.Length ==> (peers[i].optimistic <==> peers[i].connection == optimistic)
    {
      ghost var ps := peers[..];
      var candidates := FindHopefuls(peers[..]);
      HopefulCount(ps, candidates);
      if candidates == [] {
        optimistic := NULL;
        return;
      }
      var order := SortBest(candidates, Arrivals(peers[..]));
      var range := Max(|order| / 4, 1);
      var index: nat :| index < range && index < |order|;
      var selected := order[index];
      assert selected in order;
      NewerAreEarlier(ps, order, index);
      optimistic := peers[selected].connection;
      MoveMark(peers, selected);
    }

    /** Marks the selected peer and unmarks the others. */
    method MoveMark(peers: array<Peer>, selected: nat)
      requires selected < peers.Length && Distinct(peers[..]) && peers[selected].connection != NULL
      modifies peers
      ensures SameButMarks(old(peers[..]), peers[..])
      ensures forall i :: 0 <= i < peers.Length ==>
                (peers[i].optimistic <==> peers[i].connection == peers[selected].connection)
    {
      ghost var ps := peers[..];
      var chosen := peers[selected].connection;
      forall j | 0 <= j < |ps| && j != selected ensures ps[j].connection != chosen {
        assert j < selected || selected < j;
      }
      peers[selected] := peers[selected].(optimistic := true);
      for i := 0 to peers.Length
        invariant SameButMarks(ps, peers[..])
        invariant peers[selected].optimistic && peers[selected].connection == chosen
        invariant forall j :: 0 <= j < i ==> (peers[j].optimistic ==> peers[j].connection == chosen)
        invariant forall j :: 0 <= j < peers.Length && j != selected ==> peers[j].connection != chosen
      {
        if peers[i].connection != chosen {
          peers[i] := peers[i].(optimistic := false);
        }
      }
    }

    method FindHopefuls(ps: seq<Peer>) returns (candidates: seq<nat>)
      ensures NoRepeats(candidates) && forall c :: c in candidates <==> c in Hopefuls(ps)
      ensures forall k :: 0 <= k < |candidates| ==> candidates[k] < |ps|
    {
      candidates := [];
      for i := 0 to |ps|
        invariant forall c :: c in candidates <==> c in Hopefuls(ps) && c < i
        invariant forall k :: 0 <= k < |candidates| ==> candidates[k] < i
        invariant NoRepeats(candidates)
      {
        if ps[i].amChoking && Eligible(ps[i]) {
          candidates := candidates + [i];
        }
      }
    }

    method FindInterested(ps: seq<Peer>) returns (indices: seq<nat>)
      ensures NoRepeats(indices)
      ensures forall i: nat :: i in indices <==> i < |ps| && Eligible(ps[i])
      ensures forall k :: 0 <= k < |indices| ==> indices[k] < |ps|
    {
      indices := [];
      for i := 0 to |ps|
        invariant NoRepeats(indices)
        invariant forall k: nat :: k in indices <==> k < i && Eligible(ps[k])
        invariant forall k :: 0 <= k < |indices| ==> indices[k] < i
      {
        if Eligible(ps[i]) { indices := indices + [i]; }
      }
    }

    /** run_download_mode; `due` says whether the optimistic interval has passed. */
    method RunDownloadMode(peers: array<Peer>, due: bool, now: int)
      returns (choke: seq<Connection>, unchoke: seq<Connection>)
      requires Distinct(peers[..])
      modifies this`optimistic, peers
      ensures Records(old(peers[..]), peers[..], choke, unchoke)
      ensures peers.Length > 0 ==> Reciprocated(peers[..], maxUploads, optimistic)
      ensures Timed(old(peers[..]), peers[..], now)
      ensures if due && peers.Length > 0 then Rotated(old(peers[..]), optimistic)
              else optimistic == old(optimistic) && SameMarks(old(peers[..]), peers[..])
    {
      choke, unchoke := [], [];
      ghost var ps := peers[..];
      NothingRecorded(ps);
      if peers.Length == 0 { return; }
      if due { RotateOptimistic(peers); }
      ghost var rotated := peers[..];
      MarksKeep(ps, rotated);
      var indices := FindInterested(peers[..]);
      var rates := Rates(peers[..]);
      var order := SortBest(indices, rates);
      var slots := RegularSlots(maxUploads, optimistic);
      hide Records, Distinct, Allotted, Reciprocated;
      choke, unchoke := Allot(peers, order, rates, slots, optimistic, now);
      ghost var allotted := peers[..];
      AllottedFacts(rotated, allotted, rates, slots, optimistic);
      RecordsSame(rotated, allotted, choke, unchoke);
      choke := ChokeUninterested(peers, rotated, choke, unchoke);
      RecordsFrom(ps, rotated, peers[..], choke, unchoke);
      TimesFrom(ps, rotated, allotted, peers[..], now);
      Outcome(rotated, allotted, peers[..], rates, slots, optimistic, maxUploads);
    }

    /** The last loop of run_download_mode. */
    method ChokeUninterested(peers: array<Peer>, ghost ps: seq<Peer>, choke: seq<Connection>,
                             ghost unchoke: seq<Connection>)
      returns (choke': seq<Connection>)
      requires Distinct(ps) && Records(ps, peers[..], choke, unchoke) && |ps| == peers.Length
      requires forall i :: 0 <= i < |ps| && !Eligible(ps[i]) ==> peers[..][i] == ps[i]
      modifies peers
      ensures Records(ps, peers[..], choke', unchoke) && Dismissed(old(peers[..]), peers[..], peers.Length)
    {
      hide Records, Distinct;
      ghost var allotted := peers[..];
      choke' := choke;
      for i := 0 to peers.Length
        invariant Records(ps, peers[..], choke', unchoke)
        invariant Dismissed(allotted, peers[..], i)
      {
        ghost var mid := peers[..];
        DismissOne(allotted, mid, i);
        if !peers[i].interested && !peers[i].amChoking && peers[i].connection != NULL {
          ghost var p' := peers[i].(amChoking := true);
          NotEligible(ps, allotted, mid, i, choke', unchoke);
          RecordOne(ps, mid, choke', unchoke, i, p');
          choke' := choke' + [peers[i].connection];
          peers[i] := peers[i].(amChoking := true);
          assert peers[..] == mid[i := p'];
        }
      }
    }

    /** run_seed_mode: uninterested peers keep their state. */
    method RunSeedMode(peers: array<Peer>, now: int) returns (choke: seq<Connection>, unchoke: seq<Connection>)
      requires Distinct(peers[..])
      modifies peers
      ensures Records(old(peers[..]), peers[..], choke, unchoke)
      ensures Allotted(old(peers[..]), peers[..], Scores(old(peers[..]), now), maxUploads, NULL)
      ensures Timed(old(peers[..]), peers[..], now) && SameMarks(old(peers[..]), peers[..])
    {
      choke, unchoke := [], [];
      NothingRecorded(peers[..]);
      var indices := FindInterested(peers[..]);
      var scores := Scores(peers[..], now);
      var order := SortBest(indices, scores);
      choke, unchoke := Allot(peers, order, scores, maxUploads, NULL, now);
    }

    /** run. */
    method Run(peers: array<Peer>, due: bool, now: int) returns (choke: seq<Connection>, unchoke: seq<Connection>)
      requires Distinct(peers[..])
      modifies this`optimistic, peers
      ensures Records(old(peers[..]), peers[..], choke, unchoke)
      ensures seedMode ==> Allotted(old(peers[..]), peers[..], Scores(old(peers[..]), now), maxUploads, NULL)
      ensures !seedMode && peers.Length > 0 ==> Reciprocated(peers[..], maxUploads, optimistic)
      ensures Timed(old(peers[..]), peers[..], now)
    {
      hide Records, Allotted, Reciprocated, Distinct, Timed;
      if seedMode {
        choke, unchoke := RunSeedMode(peers, now);
      } else {
        choke, unchoke := RunDownloadMode(peers, due, now);
      }
    }
  }

  // ----- download mode

  function Rates(ps: seq<Peer>): (r: seq<real>)
    ensures |r| == |ps| && forall i :: 0 <= i < |ps| ==> r[i] == ps[i].downloadRate
  {
    seq(|ps|, i requires 0 <= i < |ps| => ps[i].downloadRate)
  }

  function RegularSlots(maxUploads: nat, optimistic: Connection): nat {
    if optimistic != NULL then (if maxUploads > 0 then maxUploads - 1 else 0) else maxUploads
  }

  function Max(a: nat, b: nat): nat { if a < b then b else a }

  ghost function Unchoked(ps: seq<Peer>): set<nat> {
    set i: nat | i < |ps| && ps[i].connection != NULL && !ps[i].amChoking
  }

  /** What a download-mode run leaves behind. */
  ghost predicate Reciprocated(ps: seq<Peer>, maxUploads: nat, optimistic: Connection) {
    && |Unchoked(ps)| <= Max(1, maxUploads)
    && (forall i :: i in Unchoked(ps) ==> ps[i].interested)
    && |Regular(ps, optimistic)| == Min(RegularSlots(maxUploads, optimistic), |Ordinary(ps, optimistic)|)
    && (forall i :: 0 <= i < |ps| && Eligible(ps[i]) && ps[i].connection == optimistic ==> !ps[i].amChoking)
    && (forall i, j :: i in Regular(ps, optimistic) && j in Ordinary(ps, optimistic) && ps[j].amChoking ==>
          ps[i].downloadRate >= ps[j].downloadRate)
  }

  /** The final loop up to i: uninterested peers are choked, the others untouched. */
  ghost predicate Dismissed(ps: seq<Peer>, ps': seq<Peer>, n: nat) {
    && |ps'| == |ps|
    && forall i :: 0 <= i < |ps| ==>
         ps'[i] == if i < n && !ps[i].interested && ps[i].connection != NULL then ps[i].(amChoking := true) else ps[i]
  }

  lemma DismissOne(ps: seq<Peer>, mid: seq<Peer>, i: nat)
    requires i < |ps| && Dismissed(ps, mid, i)
    ensures !mid[i].interested && !mid[i].amChoking && mid[i].connection != NULL ==>
              Dismissed(ps, mid[i := mid[i].(amChoking := true)], i + 1)
    ensures !(!mid[i].interested && !mid[i].amChoking && mid[i].connection != NULL) ==> Dismissed(ps, mid, i + 1)
  {
  }

  lemma AllottedFacts(ps: seq<Peer>, ps': seq<Peer>, keys: seq<real>, slots: nat, special: Connection)
    requires Allotted(ps, ps', keys, slots, special)
    ensures |ps'| == |ps| && forall i :: 0 <= i < |ps| && !Eligible(ps[i]) ==> ps'[i] == ps[i]
  {
  }

  lemma NotEligible(ps: seq<Peer>, allotted: seq<Peer>, mid: seq<Peer>, i: nat, choke: seq<Connection>,
                    unchoke: seq<Connection>)
    requires Records(ps, mid, choke, unchoke) && i < |ps| && |allotted| == |ps| && Dismissed(allotted, mid, i)
    requires forall k :: 0 <= k < |ps| && !Eligible(ps[k]) ==> allotted[k] == ps[k]
    requires !mid[i].interested
    ensures mid[i] == ps[i]
  {
    assert SamePeer(ps[i], mid[i]);
  }

  lemma RecordsSame(ps: seq<Peer>, ps': seq<Peer>, choke: seq<Connection>, unchoke: seq<Connection>)
    requires Records(ps, ps', choke, unchoke)
    ensures |ps'| == |ps| && forall i :: 0 <= i < |ps| ==> SamePeer(ps[i], ps'[i])
  {
  }

  lemma TimesFrom(ps: seq<Peer>, rotated: seq<Peer>, allotted: seq<Peer>, ps': seq<Peer>, now: int)
    requires SameButMarks(ps, rotated) && Timed(rotated, allotted, now) && SameMarks(rotated, allotted)
    requires forall i :: 0 <= i < |rotated| && !Eligible(rotated[i]) ==> allotted[i] == rotated[i]
    requires forall i :: 0 <= i < |rotated| ==> SamePeer(rotated[i], allotted[i])
    requires Dismissed(allotted, ps', |rotated|)
    ensures Timed(ps, ps', now) && SameMarks(rotated, ps')
  {
    forall i | 0 <= i < |ps|
      ensures ps'[i].optimistic == rotated[i].optimistic
      ensures ps'[i].lastUnchoke == if ps[i].amChoking && !ps'[i].amChoking then now else ps[i].lastUnchoke
    {
      assert SamePeer(rotated[i], allotted[i]);
    }
  }

  lemma RecordsFrom(ps: seq<Peer>, rotated: seq<Peer>, ps': seq<Peer>, choke: seq<Connection>, unchoke: seq<Connection>)
    requires SameButMarks(ps, rotated) && Records(rotated, ps', choke, unchoke)
    ensures Records(ps, ps', choke, unchoke)
  {
    forall i | 0 <= i < |ps| ensures SamePeer(ps[i], ps'[i]) {
      assert SamePeer(rotated[i], ps'[i]);
    }
    forall c | c in choke || c in unchoke ensures Known(ps, c) {
      var i :| 0 <= i < |rotated| && rotated[i].connection == c;
      assert ps[i].connection == c;
    }
  }

  lemma Outcome(ps: seq<Peer>, allotted: seq<Peer>, ps': seq<Peer>, rates: seq<real>, slots: nat, special: Connection,
                maxUploads: nat)
    requires Distinct(ps) && Allotted(ps, allotted, rates, slots, special) && Dismissed(allotted, ps', |ps|)
    requires forall i :: 0 <= i < |ps| ==> SamePeer(ps[i], allotted[i])
    requires rates == Rates(ps) && slots == RegularSlots(maxUploads, special)
    ensures Reciprocated(ps', maxUploads, special)
  {
    hide Distinct, Dismissed, Allotted, Regular, Ordinary, Specials, Unchoked, Eligible;
    AllottedSizes(ps, allotted, rates, slots, special);
    Crowd(ps, allotted, ps', special);
    SameRates(ps, allotted, ps');
    SameSets(allotted, ps', special);
    UnchokedWant(allotted, ps');
    SpecialStays(ps, allotted, ps', rates, slots, special);
    UnionBound(Regular(ps', special), Specials(ps', special));
    SubsetIsSmaller(Unchoked(ps'), Regular(ps', special) + Specials(ps', special));
    Preferred(ps, allotted, ps', rates, slots, special);
  }

  lemma AllottedSizes(ps: seq<Peer>, allotted: seq<Peer>, rates: seq<real>, slots: nat, special: Connection)
    requires Allotted(ps, allotted, rates, slots, special)
    ensures |allotted| == |ps| && |Regular(allotted, special)| == Min(slots, |Ordinary(allotted, special)|)
  {
  }

  lemma SameRates(ps: seq<Peer>, allotted: seq<Peer>, ps': seq<Peer>)
    requires |allotted| == |ps| && Dismissed(allotted, ps', |ps|)
    requires forall i :: 0 <= i < |ps| ==> SamePeer(ps[i], allotted[i])
    ensures |ps'| == |ps| && forall i :: 0 <= i < |ps| ==>
              ps'[i].downloadRate == ps[i].downloadRate && Eligible(ps'[i]) == Eligible(ps[i])
                && ps'[i].connection == ps[i].connection
  {
    forall i | 0 <= i < |ps|
      ensures ps'[i].downloadRate == ps[i].downloadRate && Eligible(ps'[i]) == Eligible(ps[i])
              && ps'[i].connection == ps[i].connection
    {
      assert SamePeer(ps[i], allotted[i]);
    }
  }

  lemma UnchokedWant(allotted: seq<Peer>, ps': seq<Peer>)
    requires Dismissed(allotted, ps', |allotted|)
    ensures forall i :: i in Unchoked(ps') ==> i < |ps'| && ps'[i].interested
  {
  }

  lemma SpecialStays(ps: seq<Peer>, allotted: seq<Peer>, ps': seq<Peer>, rates: seq<real>, slots: nat,
                     special: Connection)
    requires Allotted(ps, allotted, rates, slots, special) && Dismissed(allotted, ps', |ps|)
    requires forall i :: 0 <= i < |ps| ==> SamePeer(ps[i], allotted[i])
    ensures forall i :: 0 <= i < |ps'| && Eligible(ps'[i]) && ps'[i].connection == special ==> !ps'[i].amChoking
  {
    forall i | 0 <= i < |ps'| && Eligible(ps'[i]) && ps'[i].connection == special ensures !ps'[i].amChoking {
      assert SamePeer(ps[i], allotted[i]);
    }
  }

  lemma Preferred(ps: seq<Peer>, allotted: seq<Peer>, ps': seq<Peer>, rates: seq<real>, slots: nat, special: Connection)
    requires Allotted(ps, allotted, rates, slots, special) && rates == Rates(ps) && |ps'| == |ps|
    requires Regular(ps', special) == Regular(allotted, special)
             && Ordinary(ps', special) == Ordinary(allotted, special)
    requires forall i :: 0 <= i < |ps| ==> ps'[i].downloadRate == ps[i].downloadRate
    ensures forall i, j :: i in Regular(ps', special) && j in Ordinary(ps', special) && ps'[j].amChoking ==>
              ps'[i].downloadRate >= ps'[j].downloadRate
  {
    forall i, j | i in Regular(ps', special) && j in Ordinary(ps', special) && ps'[j].amChoking
      ensures ps'[i].downloadRate >= ps'[j].downloadRate
    {
      assert j !in Regular(ps', special);
      assert rates[i] >= rates[j];
    }
  }

  ghost function Specials(ps: seq<Peer>, special: Connection): set<nat> {
    set i: nat | i < |ps| && Eligible(ps[i]) && ps[i].connection == special
  }

  lemma SameSets(allotted: seq<Peer>, ps': seq<Peer>, special: Connection)
    requires Dismissed(allotted, ps', |allotted|)
    ensures Regular(ps', special) == Regular(allotted, special) && Ordinary(ps', special) == Ordinary(allotted, special)
    ensures Unchoked(ps') <= Regular(ps', special) + Specials(ps', special)
  {
  }

  lemma Crowd(ps: seq<Peer>, allotted: seq<Peer>, ps': seq<Peer>, special: Connection)
    requires Distinct(ps) && |allotted| == |ps| && Dismissed(allotted, ps', |ps|)
    requires forall i :: 0 <= i < |ps| ==> SamePeer(ps[i], allotted[i])
    ensures |Specials(ps', special)| <= 1 && (special == NULL ==> Specials(ps', special) == {})
  {
    forall i | 0 <= i < |ps| ensures ps'[i].connection == ps[i].connection {
      assert SamePeer(ps[i], allotted[i]);
    }
    AtMostOne(ps', special, Specials(ps', special));
  }

  lemma UnionBound(a: set<nat>, b: set<nat>)
    ensures |a + b| <= |a| + |b|
  {
    assert a + b == a + (b - a);
    SubsetIsSmaller(b - a, b);
  }

  lemma AtMostOne(ps: seq<Peer>, special: Connection, specials: set<nat>)
    requires forall i, j :: 0 <= i < j < |ps| && ps[i].connection != NULL ==> ps[i].connection != ps[j].connection
    requires specials == set i: nat | i < |ps| && Eligible(ps[i]) && ps[i].connection == special
    ensures |specials| <= 1 && (special == NULL ==> specials == {})
  {
    if specials != {} {
      var i :| i in specials;
      assert specials == {i};
    }
  }

  // ----- the optimistic slot

  /** Choked and interested. */
  ghost function Hopefuls(ps: seq<Peer>): set<nat> {
    set i: nat | i < |ps| && ps[i].amChoking && Eligible(ps[i])
  }

  /** Those that connected after peer i. */
  ghost function Newer(ps: seq<Peer>, i: nat): set<nat>
    requires i < |ps|
  {
    set j | j in Hopefuls(ps) && ps[j].connectedAt > ps[i].connectedAt
  }

  /** The optimistic peer is choked and interested and among the newer quarter of those, or none is. */
  ghost predicate Rotated(ps: seq<Peer>, optimistic: Connection) {
    && (optimistic == NULL <==> Hopefuls(ps) == {})
    && (optimistic != NULL ==>
          exists i :: i in Hopefuls(ps) && ps[i].connection == optimistic
            && |Newer(ps, i)| < Max(|Hopefuls(ps)| / 4, 1))
  }

  function Arrivals(ps: seq<Peer>): (r: seq<real>)
    ensures |r| == |ps| && forall i :: 0 <= i < |ps| ==> r[i] == ps[i].connectedAt as real
  {
    seq(|ps|, i requires 0 <= i < |ps| => ps[i].connectedAt as real)
  }

  predicate SameButMarks(ps: seq<Peer>, ps': seq<Peer>) {
    |ps'| == |ps| && forall i :: 0 <= i < |ps| ==> ps'[i] == ps[i].(optimistic := ps'[i].optimistic)
  }

  lemma MarksKeep(ps: seq<Peer>, ps': seq<Peer>)
    requires SameButMarks(ps, ps') && Distinct(ps)
    ensures Distinct(ps')
  {
  }

  function ToSet(s: seq<nat>): set<nat> { set x | x in s }

  lemma {:induction false} SetSize(s: seq<nat>)
    ensures |ToSet(s)| <= |s|
    ensures NoRepeats(s) ==> |ToSet(s)| == |s|
  {
    if s != [] {
      var init, x := s[..|s| - 1], s[|s| - 1];
      SetSize(init);
      assert s == init + [x];
      assert ToSet(s) == ToSet(init) + {x};
    }
  }

  lemma HopefulCount(ps: seq<Peer>, candidates: seq<nat>)
    requires NoRepeats(candidates) && forall c :: c in candidates <==> c in Hopefuls(ps)
    ensures |candidates| == |Hopefuls(ps)| && (candidates == [] <==> Hopefuls(ps) == {})
  {
    SetSize(candidates);
    assert ToSet(candidates) == Hopefuls(ps);
  }

  lemma NewerAreEarlier(ps: seq<Peer>, order: seq<nat>, index: nat)
    requires index < |order| && Descending(order, Arrivals(ps)) && forall c :: c in order <==> c in Hopefuls(ps)
    ensures order[index] < |ps| && |Newer(ps, order[index])| <= index
  {
    var x := order[index];
    assert x in order;
    var newer := Newer(ps, x);
    forall j | j in newer ensures j in ToSet(order[..index]) {
      assert j in order;
      var k :| 0 <= k < |order| && order[k] == j;
    }
    SubsetIsSmaller(newer, ToSet(order[..index]));
    SetSize(order[..index]);
  }

  // ----- seed mode

  /** duration_cast to seconds, which truncates toward zero. */
  function Seconds(nanoseconds: int): int {
    if nanoseconds >= 0 then nanoseconds / 1_000_000_000 else -((-nanoseconds) / 1_000_000_000)
  }

  function Score(p: Peer, now: int): real { p.uploadRate + Seconds(now - p.lastUnchoke) as real * 10.0 }

  function Scores(ps: seq<Peer>, now: int): (r: seq<real>)
    ensures |r| == |ps| && forall i :: 0 <= i < |ps| ==> r[i] == Score(ps[i], now)
  {
    seq(|ps|, i requires 0 <= i < |ps| => Score(ps[i], now))
  }

  lemma Untouched(ps: seq<Peer>, mid: seq<Peer>, order: seq<nat>, keys: seq<real>, k: nat, slots: nat,
                  special: Connection, regular: set<nat>)
    requires GoodOrder(ps, order, keys) && k < |order| && Settling(ps, mid, order, keys, k, slots, special, regular)
    ensures |mid| == |ps| && order[k] < |ps| && mid[order[k]] == ps[order[k]] && Eligible(ps[order[k]])
            && order[k] !in regular
  {
    assert order[k] in order;
  }
}
