/** Hashing a torrent while streaming its files (TorrentCreator::set_piece_hashes in
    src/bt_create_torrent.cpp) against piece arithmetic (src/bt_file_storage.cpp) and the hash job of
    src/disk_io.cpp. */
module TorrentCreator {
  import opened Wrappers
  import opened Files
  import opened FileStorage
  import opened DiskIo

  /** The whole torrent as one byte string. */
  function Flatten(contents: seq<Bytes>): Bytes {
    if contents == [] then [] else Flatten(contents[..|contents| - 1]) + contents[|contents| - 1]
  }

  /** FileStorage::piece_size. */
  function PieceSize(total: nat, pieceLength: nat, i: nat): nat
    requires pieceLength > 0
  {
    var n := PieceCount(total, pieceLength);
    if i >= n then 0 else if i == n - 1 then LastPiece(total, pieceLength) else pieceLength
  }

  function LastPiece(total: nat, pieceLength: nat): nat
    requires pieceLength > 0
  {
    var n := PieceCount(total, pieceLength);
    if n == 0 then 0
    else
      CountBounds(total, pieceLength);
      total - (n - 1) * pieceLength
  }

  lemma CountBounds(total: nat, pieceLength: nat)
    requires pieceLength > 0
    ensures var n := PieceCount(total, pieceLength);
            && (n == 0 <==> total == 0)
            && (n > 0 ==> (n - 1) * pieceLength < total <= n * pieceLength)
  {
    if total > 0 {
      var n := PieceCount(total, pieceLength);
      DivBounds(total + pieceLength - 1, pieceLength);
      assert n * pieceLength == (n - 1) * pieceLength + pieceLength;
    }
  }

  lemma DivBounds(a: nat, b: nat)
    requires b > 0
    ensures (a / b) * b <= a < (a / b) * b + b
  {
    assert a == (a / b) * b + a % b;
  }

  function SizeSum(total: nat, pieceLength: nat, n: nat): nat
    requires pieceLength > 0
  {
    if n == 0 then 0 else SizeSum(total, pieceLength, n - 1) + PieceSize(total, pieceLength, n - 1)
  }

  lemma {:induction false} SizeSumPrefix(total: nat, pieceLength: nat, n: nat)
    requires pieceLength > 0 && n < PieceCount(total, pieceLength)
    ensures SizeSum(total, pieceLength, n) == n * pieceLength
  {
    if n > 0 {
      SizeSumPrefix(total, pieceLength, n - 1);
      assert n * pieceLength == (n - 1) * pieceLength + pieceLength;
    }
  }

  /** The sizes of the pieces add up to the size of the torrent. */
  lemma PieceSizesSumToTotal(total: nat, pieceLength: nat)
    requires pieceLength > 0
    ensures SizeSum(total, pieceLength, PieceCount(total, pieceLength)) == total
    ensures forall i :: 0 <= i < PieceCount(total, pieceLength) ==> 0 < PieceSize(total, pieceLength, i) <= pieceLength
  {
    CountBounds(total, pieceLength);
    var n := PieceCount(total, pieceLength);
    if n > 0 {
      SizeSumPrefix(total, pieceLength, n - 1);
      assert n * pieceLength == (n - 1) * pieceLength + pieceLength;
    }
  }

  // ----- the streaming hasher

  /** `inputs` are the full pieces at the start of `flat`, `rest` what follows them. */
  predicate Cut(flat: Bytes, pieceLength: nat, inputs: seq<Bytes>, rest: Bytes) {
    && |rest| < pieceLength
    && |flat| == |inputs| * pieceLength + |rest|
    && (forall i :: 0 <= i < |inputs| ==>
          Within(i, |inputs|, pieceLength, |flat|) && inputs[i] == flat[i * pieceLength..(i + 1) * pieceLength])
    && flat[|flat| - |rest|..] == rest
  }

  predicate Within(i: nat, n: nat, pieceLength: nat, size: nat) {
    i < n && 0 <= i * pieceLength <= (i + 1) * pieceLength <= size
  }

  /** Appending bytes that do not complete the piece. */
  lemma CutGrows(flat: Bytes, pieceLength: nat, inputs: seq<Bytes>, rest: Bytes, more: Bytes)
    requires Cut(flat, pieceLength, inputs, rest) && |rest| + |more| < pieceLength
    ensures Cut(flat + more, pieceLength, inputs, rest + more)
  {
    var flat' := flat + more;
    forall i | 0 <= i < |inputs|
      ensures Within(i, |inputs|, pieceLength, |flat'|) && inputs[i] == flat'[i * pieceLength..(i + 1) * pieceLength]
    {
      assert Within(i, |inputs|, pieceLength, |flat|);
    }
    assert flat'[|flat'| - |rest + more|..] == flat[|flat| - |rest|..] + more;
  }

  /** Appending bytes that complete it. */
  lemma CutCompletes(flat: Bytes, pieceLength: nat, inputs: seq<Bytes>, rest: Bytes, more: Bytes)
    requires Cut(flat, pieceLength, inputs, rest) && |rest| + |more| == pieceLength
    ensures Cut(flat + more, pieceLength, inputs + [rest + more], [])
  {
    var flat', inputs' := flat + more, inputs + [rest + more];
    Next(|inputs|, pieceLength);
    forall i | 0 <= i < |inputs'|
      ensures Within(i, |inputs'|, pieceLength, |flat'|) && inputs'[i] == flat'[i * pieceLength..(i + 1) * pieceLength]
    {
      if i < |inputs| {
        CutKeepsPiece(flat, pieceLength, inputs, rest, more, i);
      } else {
        CutLastPiece(flat, pieceLength, inputs, rest, more);
      }
    }
  }

  lemma Next(n: nat, pieceLength: nat)
    ensures (n + 1) * pieceLength == n * pieceLength + pieceLength
  {
  }

  lemma CutKeepsPiece(flat: Bytes, pieceLength: nat, inputs: seq<Bytes>, rest: Bytes, more: Bytes, i: nat)
    requires Cut(flat, pieceLength, inputs, rest) && i < |inputs|
    ensures Within(i, |inputs| + 1, pieceLength, |flat + more|)
    ensures inputs[i] == (flat + more)[i * pieceLength..(i + 1) * pieceLength]
  {
    assert Within(i, |inputs|, pieceLength, |flat|);
    Prefix(flat, more, i * pieceLength, (i + 1) * pieceLength);
  }

  lemma Prefix(a: Bytes, b: Bytes, lo: nat, hi: nat)
    requires lo <= hi <= |a|
    ensures (a + b)[lo..hi] == a[lo..hi]
  {
  }

  lemma CutLastPiece(flat: Bytes, pieceLength: nat, inputs: seq<Bytes>, rest: Bytes, more: Bytes)
    requires Cut(flat, pieceLength, inputs, rest) && |rest| + |more| == pieceLength
    ensures Within(|inputs|, |inputs| + 1, pieceLength, |flat + more|)
    ensures rest + more == (flat + more)[|inputs| * pieceLength..(|inputs| + 1) * pieceLength]
  {
    Next(|inputs|, pieceLength);
    Tail(flat, more, |flat| - |rest|);
  }

  lemma Tail(a: Bytes, b: Bytes, lo: nat)
    requires lo <= |a|
    ensures (a + b)[lo..] == a[lo..] + b && (a + b)[lo..|a| + |b|] == a[lo..] + b
  {
  }

  /** The inner loop of set_piece_hashes over one file. */
  method HashFile(content: Bytes, pieceLength: nat, ghost flat: Bytes, inputs: seq<Bytes>, rest: Bytes)
    returns (inputs': seq<Bytes>, rest': Bytes)
    requires pieceLength > 0 && Cut(flat, pieceLength, inputs, rest)
    ensures Cut(flat + content, pieceLength, inputs', rest')
  {
    hide Cut;
    var remaining := |content|;
    var buffer := rest;
    var done := inputs;
    ghost var seen := flat;
    assert flat + content[..0] == flat;
    CutShape(seen, pieceLength, done, buffer);
    while remaining > 0
      invariant 0 <= remaining <= |content| && |buffer| < pieceLength
      invariant seen == flat + content[..|content| - remaining]
      invariant Cut(seen, pieceLength, done, buffer)
    {
      var space := pieceLength - |buffer|;
      var n := Min(space, remaining);
      var at := |content| - remaining;
      var chunk := content[at..at + n];
      assert content[..at + n] == content[..at] + chunk;
      assert flat + content[..at + n] == seen + chunk;
      if |buffer| + n == pieceLength {
        CutCompletes(seen, pieceLength, done, buffer, chunk);
        done := done + [buffer + chunk];
        buffer := [];
      } else {
        CutGrows(seen, pieceLength, done, buffer, chunk);
        buffer := buffer + chunk;
      }
      seen := seen + chunk;
      remaining := remaining - n;
    }
    assert content[..|content|] == content;
    inputs', rest' := done, buffer;
  }

  lemma CutShape(flat: Bytes, pieceLength: nat, inputs: seq<Bytes>, rest: Bytes)
    requires Cut(flat, pieceLength, inputs, rest)
    ensures |rest| < pieceLength
  {
  }

  /** Every piece of the flat byte string, the last one possibly short. */
  ghost predicate AllPieces(flat: Bytes, pieceLength: nat, inputs: seq<Bytes>)
    requires pieceLength > 0
  {
    && |inputs| == PieceCount(|flat|, pieceLength)
    && forall i :: 0 <= i < |inputs| ==>
         && |inputs[i]| == PieceSize(|flat|, pieceLength, i)
         && Slot(i, pieceLength) + |inputs[i]| <= |flat|
         && inputs[i] == flat[Slot(i, pieceLength)..Slot(i, pieceLength) + |inputs[i]|]
  }

  function Slot(i: nat, pieceLength: nat): nat { i * pieceLength }

  lemma CutIsAll(flat: Bytes, pieceLength: nat, inputs: seq<Bytes>, rest: Bytes)
    requires pieceLength > 0 && Cut(flat, pieceLength, inputs, rest)
    ensures AllPieces(flat, pieceLength, if rest == [] then inputs else inputs + [rest])
  {
    var all := if rest == [] then inputs else inputs + [rest];
    var m := |inputs|;
    CutSizes(|flat|, pieceLength, m, |rest|);
    hide PieceSize, PieceCount;
    forall i | 0 <= i < |all|
      ensures |all[i]| == PieceSize(|flat|, pieceLength, i)
      ensures Slot(i, pieceLength) + |all[i]| <= |flat|
      ensures all[i] == flat[Slot(i, pieceLength)..Slot(i, pieceLength) + |all[i]|]
    {
      if i < m {
        CutPiece(flat, pieceLength, inputs, rest, i);
      }
    }
  }

  lemma CutPiece(flat: Bytes, pieceLength: nat, inputs: seq<Bytes>, rest: Bytes, i: nat)
    requires Cut(flat, pieceLength, inputs, rest) && i < |inputs|
    ensures |inputs[i]| == pieceLength && Slot(i, pieceLength) + pieceLength <= |flat|
    ensures inputs[i] == flat[Slot(i, pieceLength)..Slot(i, pieceLength) + pieceLength]
  {
    assert Within(i, |inputs|, pieceLength, |flat|);
    Next(i, pieceLength);
  }

  /** Count and sizes of the pieces of m full ones and a rest. */
  lemma CutSizes(size: nat, pieceLength: nat, m: nat, rest: nat)
    requires rest < pieceLength && size == m * pieceLength + rest
    ensures PieceCount(size, pieceLength) == if rest == 0 then m else m + 1
    ensures forall i :: 0 <= i < m ==> PieceSize(size, pieceLength, i) == pieceLength
    ensures rest > 0 ==> PieceSize(size, pieceLength, m) == rest
  {
    Next(m, pieceLength);
    if m > 0 { Next(m - 1, pieceLength); }
    Monotone(1, m, pieceLength);
    CountBounds(size, pieceLength);
    CountUnique(size, pieceLength, PieceCount(size, pieceLength), if rest == 0 then m else m + 1);
  }

  lemma CountUnique(size: nat, pieceLength: nat, n: nat, m: nat)
    requires pieceLength > 0
    requires if n == 0 then size == 0 else (n - 1) * pieceLength < size <= n * pieceLength
    requires if m == 0 then size == 0 else (m - 1) * pieceLength < size <= m * pieceLength
    ensures n == m
  {
    if n < m { Monotone(n, m - 1, pieceLength); }
    if m < n { Monotone(m, n - 1, pieceLength); }
  }

  lemma Monotone(a: nat, b: nat, c: nat)
    ensures a <= b ==> a * c <= b * c
  {
  }

  /** set_piece_hashes: reads each file once, front to back, and hands the hash function exactly
      the pieces.  It fails when there is nothing to hash, and when a file cannot be opened (None)
      or is shorter than its declared size. */
  method PieceInputs(files: seq<FileEntry>, contents: seq<Option<Bytes>>, total: nat, pieceLength: nat)
    returns (r: Option<seq<Bytes>>)
    requires Contiguous(files, total) && pieceLength > 0 && |contents| == |files|
    ensures r.Some? <==> files != [] && total > 0 && forall k :: 0 <= k < |files| ==> Readable(files[k], contents[k])
    ensures r.Some? ==> AllPieces(Flatten(Declared(files, contents)), pieceLength, r.value)
  {
    hide Cut, AllPieces, Declared, Readable, Flatten, Contiguous;
    if files == [] || total == 0 {
      return None;
    }
    var inputs: seq<Bytes> := [];
    var rest: Bytes := [];
    NothingCut(pieceLength);
    ghost var all := Declared(files, contents);
    assert all[..0] == [];
    for k := 0 to |files|
      invariant forall i :: 0 <= i < k ==> Readable(files[i], contents[i])
      invariant |all| == |files| && Cut(Flatten(all[..k]), pieceLength, inputs, rest)
    {
      if !Readable(files[k], contents[k]) {
        return None;
      }
      DeclaredAt(files, contents, k);
      inputs, rest := HashFile(contents[k].value[..files[k].size], pieceLength, Flatten(all[..k]), inputs, rest);
      FlattenMore(all, k);
    }
    assert all[..|files|] == all;
    CutIsAll(Flatten(all), pieceLength, inputs, rest);
    r := Some(if rest == [] then inputs else inputs + [rest]);
  }

  /** The file opens and has its declared size. */
  predicate Readable(file: FileEntry, content: Option<Bytes>) {
    content.Some? && file.size <= |content.value|
  }

  /** What the streaming reader takes from each file. */
  function Declared(files: seq<FileEntry>, contents: seq<Option<Bytes>>): (r: seq<Bytes>)
    requires |contents| == |files|
    ensures |r| == |files|
  {
    seq(|files|, k requires 0 <= k < |files| =>
                   if Readable(files[k], contents[k]) then contents[k].value[..files[k].size] else [])
  }

  lemma DeclaredAt(files: seq<FileEntry>, contents: seq<Option<Bytes>>, k: nat)
    requires |contents| == |files| && k < |files| && Readable(files[k], contents[k])
    ensures contents[k].Some? && files[k].size <= |contents[k].value|
    ensures Declared(files, contents)[k] == contents[k].value[..files[k].size]
  {
  }

  lemma FlattenMore(all: seq<Bytes>, k: nat)
    requires k < |all|
    ensures Flatten(all[..k + 1]) == Flatten(all[..k]) + all[k]
  {
    assert all[..k + 1][..k] == all[..k];
  }

  lemma NothingCut(pieceLength: nat)
    requires pieceLength > 0
    ensures Cut(Flatten([]), pieceLength, [], [])
  {
  }

  // ----- agreement with the disk hasher

  /** The byte of file k at position p is byte offset + p of the flat string. */
  lemma {:induction false} FlattenAt(files: seq<FileEntry>, contents: seq<Bytes>, total: nat, n: nat, k: nat, p: nat)
    requires Contiguous(files, total) && |contents| == |files| && k < n <= |files|
    requires forall i :: 0 <= i < |files| ==> |contents[i]| == files[i].size
    requires p < files[k].size
    ensures |Flatten(contents[..n])| == End(files[n - 1])
    ensures files[k].offset + p < |Flatten(contents[..n])|
    ensures Flatten(contents[..n])[files[k].offset + p] == contents[k][p]
    decreases n
  {
    assert contents[..n][..n - 1] == contents[..n - 1];
    FlattenLength(files, contents, total, n - 1);
    FlattenLength(files, contents, total, n);
    if k < n - 1 {
      FlattenAt(files, contents, total, n - 1, k, p);
    } else {
      assert Flatten(contents[..n]) == Flatten(contents[..n - 1]) + contents[n - 1];
    }
  }

  lemma {:induction false} FlattenLength(files: seq<FileEntry>, contents: seq<Bytes>, total: nat, n: nat)
    requires Contiguous(files, total) && |contents| == |files| && n <= |files|
    requires forall i :: 0 <= i < |files| ==> |contents[i]| == files[i].size
    ensures |Flatten(contents[..n])| == if n == 0 then 0 else End(files[n - 1])
    ensures n < |files| ==> |Flatten(contents[..n])| == files[n].offset
  {
    if n > 0 {
      assert contents[..n][..n - 1] == contents[..n - 1];
      FlattenLength(files, contents, total, n - 1);
      if n < |files| { Neighbours(files, total, n - 1); }
    }
  }

  /** The disk holds the files the torrent was made of. */
  predicate Stored(disk: Disk, contents: seq<Bytes>) {
    forall k :: 0 <= k < |contents| ==> k in disk && disk[k] == contents[k]
  }

  /** The bytes that the hash job reads for piece i are the i-th input of the streaming hasher,
      so a freshly created torrent verifies, whatever the hash function. */
  lemma FreshTorrentVerifies(files: seq<FileEntry>, contents: seq<Bytes>, total: nat, pieceLength: nat,
                             inputs: seq<Bytes>, disk: Disk, i: nat)
    requires Contiguous(files, total) && pieceLength > 0 && |contents| == |files|
    requires forall k :: 0 <= k < |files| ==> |contents[k]| == files[k].size
    requires AllPieces(Flatten(contents), pieceLength, inputs) && Stored(disk, contents) && i < |inputs|
    ensures ReadRange(disk, files, i * pieceLength, PieceSize(total, pieceLength, i)) == Some(inputs[i])
  {
    hide Cover, Contiguous, ReadSlices, PieceSize, Flatten, Stored;
    FlattenTotal(files, contents, total);
    var at, n := Slot(i, pieceLength), PieceSize(total, pieceLength, i);
    assert |inputs[i]| == n && at + n <= total;
    StoredReads(files, contents, total, disk, at, n);
    assert ReadSlices(disk, Cover(files, 0, at, at + n)).value + Zeros(0) ==
             ReadSlices(disk, Cover(files, 0, at, at + n)).value;
  }

  /** Reading a range of the stored files gives that range of the flat string. */
  lemma StoredReads(files: seq<FileEntry>, contents: seq<Bytes>, total: nat, disk: Disk, at: nat, n: nat)
    requires Contiguous(files, total) && |contents| == |files| && at + n <= total == |Flatten(contents)|
    requires forall k :: 0 <= k < |files| ==> |contents[k]| == files[k].size
    requires Stored(disk, contents)
    ensures ReadSlices(disk, Cover(files, 0, at, at + n)) == Some(Flatten(contents)[at..at + n])
  {
    hide Cover, Contiguous, ReadSlices, Flatten;
    var flat := Flatten(contents);
    forall j, p | 0 <= j < |files| && 0 <= p < files[j].size
      ensures ByteAt(disk, j, p) == Some(contents[j][p])
    {
    }
    FirstAtZero(files, total);
    NonEmpty(files, total);
    assert OnDisk(disk, files, 0, at, at + n);
    hide ByteAt, OnDisk, Stored;
    ReadCover(disk, files, total, 0, at, at + n);
    var r := ReadSlices(disk, Cover(files, 0, at, at + n)).value;
    assert contents[..|files|] == contents;
    forall o | at <= o < at + n ensures r[o - at] == flat[o] {
      var j := Locate(files, total, 0, o);
      var p := o - files[j].offset;
      FlattenAt(files, contents, total, |files|, j, p);
      assert MatchesAt(disk, files, at, at + n, r, j, p);
    }
    assert r == flat[at..at + n];
  }

  lemma FlattenTotal(files: seq<FileEntry>, contents: seq<Bytes>, total: nat)
    requires Contiguous(files, total) && |contents| == |files|
    requires forall i :: 0 <= i < |files| ==> |contents[i]| == files[i].size
    ensures |Flatten(contents)| == total
  {
    assert contents[..|files|] == contents;
    FlattenLength(files, contents, total, |files|);
  }
}
