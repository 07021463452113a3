/** The torrent's files as one byte range (src/bt_file_storage.cpp): contiguous layout, piece
    arithmetic and the binary-search mapping of blocks to file slices. */
module FileStorage {
  import opened Casts

  datatype FileEntry = FileEntry(path: string, size: nat, offset: nat, pad: bool)

  /** A piece of a file: `len` bytes from `offset` on. */
  datatype Slice = Slice(file: nat, offset: nat, len: nat)

  function End(f: FileEntry): nat { f.offset + f.size }

  /** Files follow one another without gaps; zero-length files are allowed anywhere. */
  predicate Contiguous(files: seq<FileEntry>, total: nat) {
    && (files == [] ==> total == 0)
    && (files != [] ==> files[0].offset == 0 && End(files[|files| - 1]) == total)
    && forall i :: 0 <= i < |files| - 1 ==> files[i + 1].offset == End(files[i])
  }

  lemma {:induction false} Ordered(files: seq<FileEntry>, total: nat, i: nat, j: nat)
    requires Contiguous(files, total) && i < j < |files|
    ensures End(files[i]) <= files[j].offset
    decreases j
  {
    if i < j - 1 { Ordered(files, total, i, j - 1); }
    assert files[j - 1 + 1].offset == End(files[j - 1]);
  }

  lemma WithinTotal(files: seq<FileEntry>, total: nat, i: nat)
    requires Contiguous(files, total) && i < |files|
    ensures End(files[i]) <= total
  {
    if i < |files| - 1 { Ordered(files, total, i, |files| - 1); }
  }

  function Max(a: int, b: int): int { if a <= b then b else a }
  function Min(a: int, b: int): int { if a <= b then a else b }

  /** The part of [lo, hi) that lies in file k. */
  function Part(files: seq<FileEntry>, k: nat, lo: nat, hi: nat): seq<Slice>
    requires k < |files|
  {
    var from, to := Max(lo, files[k].offset), Min(hi, End(files[k]));
    if from < to then [Slice(k, from - files[k].offset, to - from)] else []
  }

  /** Reference definition: the parts of [lo, hi) in the files from k on, in order. */
  function Cover(files: seq<FileEntry>, k: nat, lo: nat, hi: nat): seq<Slice>
    decreases |files| - k
  {
    if k >= |files| then [] else Part(files, k, lo, hi) + Cover(files, k + 1, lo, hi)
  }

  /** map_block leaves out the slices of pad files. */
  function WithoutPads(files: seq<FileEntry>, slices: seq<Slice>): seq<Slice> {
    if slices == [] then []
    else
      (if slices[0].file < |files| && files[slices[0].file].pad then [] else [slices[0]]) +
        WithoutPads(files, slices[1..])
  }

  /** Files that end before lo contribute nothing. */
  lemma {:induction false} CoverSkips(files: seq<FileEntry>, k: nat, j: nat, lo: nat, hi: nat)
    requires k <= j <= |files| && forall i :: k <= i < j ==> End(files[i]) <= lo
    ensures Cover(files, k, lo, hi) == Cover(files, j, lo, hi)
    decreases j - k
  {
    if k < j { CoverSkips(files, k + 1, j, lo, hi); }
  }

  /** Moving lo up to the start of the file at which the walk has arrived changes nothing. */
  lemma {:induction false} CoverLater(files: seq<FileEntry>, k: nat, lo: nat, lo': nat, hi: nat)
    requires forall i :: k <= i < |files| ==> lo <= files[i].offset && lo' <= files[i].offset
    ensures Cover(files, k, lo, hi) == Cover(files, k, lo', hi)
    decreases |files| - k
  {
    if k < |files| { CoverLater(files, k + 1, lo, lo', hi); }
  }

  /** The end of the range may be clamped to the end of the torrent. */
  lemma {:induction false} CoverClamped(files: seq<FileEntry>, total: nat, k: nat, lo: nat, hi: nat, hi': nat)
    requires Contiguous(files, total) && total <= hi && total <= hi'
    ensures Cover(files, k, lo, hi) == Cover(files, k, lo, hi')
    decreases |files| - k
  {
    if k < |files| {
      WithinTotal(files, total, k);
      assert Part(files, k, lo, hi) == Part(files, k, lo, hi');
      hide Part;
      CoverClamped(files, total, k + 1, lo, hi, hi');
    }
  }

  function PieceCount(total: nat, pieceLength: nat): nat {
    if pieceLength > 0 && total > 0 then (total + pieceLength - 1) / pieceLength else 0
  }

  class Storage {
    var files: seq<FileEntry>
    var totalSize: nat
    var pieceLength: nat
    var numPieces: nat
    var finalized: bool

    ghost predicate Valid()
      reads this
    {
      && Contiguous(files, totalSize)
      && pieceLength < UINT32_LIMIT
      && (finalized ==> numPieces == PieceCount(totalSize, pieceLength) % UINT32_LIMIT)
      && (!finalized ==> numPieces == 0)
    }

    constructor (pieceLength: nat)
      requires pieceLength < UINT32_LIMIT
      ensures Valid() && files == [] && totalSize == 0 && this.pieceLength == pieceLength && !finalized
    {
      files, totalSize, numPieces, finalized := [], 0, 0, false;
      this.pieceLength := pieceLength;
    }

    /** add_file: the new file starts where the torrent ended. */
    method AddFile(path: string, size: nat, pad: bool)
      requires Valid()
      modifies this
      ensures Valid() && finalized == old(finalized) && pieceLength == old(pieceLength)
      ensures old(finalized) ==> files == old(files) && totalSize == old(totalSize)
      ensures !old(finalized) ==>
                files == old(files) + [FileEntry(path, size, old(totalSize), pad)] && totalSize == old(totalSize) + size
    {
      if !finalized {
        files := files + [FileEntry(path, size, totalSize, pad)];
        totalSize := totalSize + size;
      }
    }

    method FinalizeFiles()
      requires Valid()
      modifies this
      ensures Valid() && finalized && files == old(files) && totalSize == old(totalSize)
              && pieceLength == old(pieceLength)
    {
      if pieceLength > 0 && totalSize > 0 {
        numPieces := ((totalSize + pieceLength - 1) / pieceLength) % UINT32_LIMIT;
      } else {
        numPieces := 0;
      }
      finalized := true;
    }

    /** find_file_at_offset: the file that holds the byte at `offset`, never a zero-length one;
        past the end the last file. */
    method FindFileAtOffset(offset: nat) returns (k: nat)
      requires Valid()
      ensures files == [] ==> k == 0
      ensures files != [] ==> k < |files|
      ensures offset < totalSize ==> files[k].offset <= offset < End(files[k])
      ensures files != [] && offset >= totalSize ==> k == |files| - 1
    {
      if files == [] {
        return 0;
      }
      var left, right := 0, |files|;
      while left < right
        invariant 0 <= left <= right <= |files|
        invariant forall j :: 0 <= j < left ==> End(files[j]) <= offset
        invariant forall j :: right <= j < |files| ==> offset < files[j].offset
      {
        var mid := left + (right - left) / 2;
        if offset < files[mid].offset {
          forall j | mid <= j < |files| ensures offset < files[j].offset {
            if mid < j { Ordered(files, totalSize, mid, j); }
          }
          right := mid;
        } else if offset >= End(files[mid]) {
          forall j | 0 <= j < mid + 1 ensures End(files[j]) <= offset {
            if j < mid { Ordered(files, totalSize, j, mid); }
          }
          left := mid + 1;
        } else {
          assert End(files[mid]) <= totalSize by { WithinTotal(files, totalSize, mid); }
          return mid;
        }
      }
      k := if left >= |files| then |files| - 1 else left;
      SearchExhausted(files, totalSize, offset, left);
    }

    /** map_block: the slices of a block in file order, pad files left out.  It agrees with the
        reference on every block of every piece, also on blocks that reach past the end. */
    method MapBlock(piece: nat, offset: nat, size: nat) returns (slices: seq<Slice>)
      requires Valid() && offset < UINT32_LIMIT && size < UINT32_LIMIT
      ensures !finalized || piece >= numPieces ==> slices == []
      ensures finalized && piece < numPieces ==>
                var at := piece * pieceLength + offset;
                slices == WithoutPads(files, Cover(files, 0, at, at + size))
    {
      hide Cover, WithoutPads, Contiguous, PieceCount;
      slices := [];
      if !finalized || files == [] || piece >= numPieces {
        NothingWithoutPads(files);
        NoFilesNoCover(files, piece * pieceLength + offset, piece * pieceLength + offset + size);
        return;
      }
      slices := MapRange(piece * pieceLength + offset, size);
    }

    /** map_block once the block's place in the torrent is known. */
    method MapRange(at: nat, size: nat) returns (slices: seq<Slice>)
      requires Valid() && files != [] && size < UINT32_LIMIT
      ensures slices == WithoutPads(files, Cover(files, 0, at, at + size))
    {
      hide Cover, WithoutPads, Contiguous;
      NothingWithoutPads(files);
      var clamped := size;
      if at + size > totalSize {
        clamped := (totalSize - at) % UINT32_LIMIT;
      }
      if at >= totalSize {
        CoverBeyond(files, totalSize, at, at + size);
      }
      if clamped == 0 {
        if size == 0 { CoverEmpty(files, 0, at); }
        return [];
      }
      if at < totalSize {
        CoverClampedBlock(files, totalSize, at, size, clamped);
      }
      var k := FindFileAtOffset(at);
      slices := Walk(k, at, clamped);
    }

    /** The loop of map_block from the file at which the search stopped. */
    method Walk(start: nat, at: nat, size: nat) returns (slices: seq<Slice>)
      requires Valid() && start < |files| && size > 0
      requires at < totalSize ==> files[start].offset <= at < End(files[start]) && at + size <= totalSize
      requires at >= totalSize ==> start == |files| - 1
      ensures at < totalSize ==> slices == WithoutPads(files, Cover(files, 0, at, at + size))
      ensures at >= totalSize ==> slices == []
    {
      hide Cover, WithoutPads, Contiguous, Pending;
      slices := [];
      var k := start;
      var remaining: int := size;
      var current: int := at;
      ghost var hi := at + size;
      if at < totalSize {
        SearchSkips(files, totalSize, start, at, hi);
      }
      PendingStart(files, start, at, hi);
      while remaining > 0 && k < |files|
        invariant start <= k <= |files|
        invariant at >= totalSize ==> slices == [] && (k == start ==> current == at)
        invariant at < totalSize ==> at <= current && current + remaining == hi && remaining >= 0
        invariant at < totalSize && remaining > 0 && k < |files| ==> files[k].offset <= current <= End(files[k])
        invariant at < totalSize && remaining > 0 && k == |files| ==> current == totalSize
        invariant at < totalSize ==> Pending(files, slices, start, k, at, current, hi)
        decreases |files| - k
      {
        var file := files[k];
        var fileOffset := current - file.offset;
        var inFile := file.size - fileOffset;
        var n := Min(remaining, inFile);
        Neighbours(files, totalSize, k);
        if at < totalSize {
          PendingStep(files, totalSize, slices, start, k, at, current, hi);
          assert slices + [] == slices;
        }
        if n > 0 && !file.pad {
          slices := slices + [Slice(k, fileOffset, n)];
        }
        current := current + n;
        remaining := remaining - n;
        k := k + 1;
      }
      if at < totalSize {
        PendingDone(files, slices, start, k, at, current, hi);
      }
    }
  }

  lemma SearchExhausted(files: seq<FileEntry>, total: nat, offset: nat, left: nat)
    requires Contiguous(files, total) && files != [] && left <= |files|
    requires forall j :: 0 <= j < left ==> End(files[j]) <= offset
    requires forall j :: left <= j < |files| ==> offset < files[j].offset
    ensures left == |files| && total <= offset
  {
    if 0 < left < |files| { Neighbours(files, total, left - 1); }
  }

  lemma Neighbours(files: seq<FileEntry>, total: nat, k: nat)
    requires Contiguous(files, total) && k < |files|
    ensures if k + 1 < |files| then files[k + 1].offset == End(files[k]) else End(files[k]) == total
  {
  }

  lemma NoFilesNoCover(files: seq<FileEntry>, lo: nat, hi: nat)
    ensures files == [] ==> Cover(files, 0, lo, hi) == []
  {
  }

  lemma NothingWithoutPads(files: seq<FileEntry>)
    ensures WithoutPads(files, []) == []
  {
  }

  lemma {:induction false} CoverEmpty(files: seq<FileEntry>, k: nat, at: nat)
    ensures Cover(files, k, at, at) == []
    decreases |files| - k
  {
    if k < |files| { CoverEmpty(files, k + 1, at); }
  }

  lemma CoverBeyond(files: seq<FileEntry>, total: nat, lo: nat, hi: nat)
    requires Contiguous(files, total) && lo >= total
    ensures Cover(files, 0, lo, hi) == []
  {
    forall i | 0 <= i < |files| ensures End(files[i]) <= lo { WithinTotal(files, total, i); }
    CoverSkips(files, 0, |files|, lo, hi);
  }

  lemma CoverClampedBlock(files: seq<FileEntry>, total: nat, at: nat, size: nat, clamped: nat)
    requires Contiguous(files, total) && at < total && clamped == Min(size, total - at)
    ensures Cover(files, 0, at, at + size) == Cover(files, 0, at, at + clamped)
  {
    if size > total - at { CoverClamped(files, total, 0, at, at + size, at + clamped); }
  }

  /** What the walk has produced plus what the reference still covers from `current` on. */
  predicate Pending(files: seq<FileEntry>, slices: seq<Slice>, start: nat, k: nat, at: nat, current: nat, hi: nat) {
    WithoutPads(files, Cover(files, start, at, hi)) == slices + WithoutPads(files, Cover(files, k, current, hi))
  }

  lemma SearchSkips(files: seq<FileEntry>, total: nat, start: nat, at: nat, hi: nat)
    requires Contiguous(files, total) && start < |files| && files[start].offset <= at
    ensures Cover(files, 0, at, hi) == Cover(files, start, at, hi)
  {
    forall j | 0 <= j < start ensures End(files[j]) <= at {
      Ordered(files, total, j, start);
    }
    CoverSkips(files, 0, start, at, hi);
  }

  lemma PendingStart(files: seq<FileEntry>, start: nat, at: nat, hi: nat)
    ensures Pending(files, [], start, start, at, at, hi)
  {
  }

  lemma PadsOfFirst(files: seq<FileEntry>, first: Slice, rest: seq<Slice>)
    requires first.file < |files|
    ensures WithoutPads(files, [first] + rest) ==
              (if files[first.file].pad then [] else [first]) + WithoutPads(files, rest)
  {
    assert ([first] + rest)[1..] == rest;
  }

  /** How much of file k the walk takes at `current`. */
  function Taken(files: seq<FileEntry>, k: nat, current: nat, hi: nat): (n: nat)
    requires k < |files| && current <= hi && current <= End(files[k])
  {
    Min(hi - current, End(files[k]) - current)
  }

  lemma PartTaken(files: seq<FileEntry>, k: nat, current: nat, hi: nat)
    requires k < |files| && current < hi && files[k].offset <= current <= End(files[k])
    ensures Part(files, k, current, hi) ==
            if Taken(files, k, current, hi) > 0 then [Slice(k, current - files[k].offset, Taken(files, k, current, hi))]
              else []
  {
  }

  lemma PadsOfPart(files: seq<FileEntry>, k: nat, current: nat, hi: nat, rest: seq<Slice>)
    requires k < |files| && current < hi && files[k].offset <= current <= End(files[k])
    ensures var n := Taken(files, k, current, hi);
            WithoutPads(files, Part(files, k, current, hi) + rest) ==
            (if n > 0 && !files[k].pad then [Slice(k, current - files[k].offset, n)] else []) + WithoutPads(files, rest)
  {
    PartTaken(files, k, current, hi);
    hide WithoutPads, Part, Taken;
    var n := Taken(files, k, current, hi);
    if n > 0 { PadsOfFirst(files, Slice(k, current - files[k].offset, n), rest); } else { assert [] + rest == rest; }
  }

  lemma PendingStep(files: seq<FileEntry>, total: nat, slices: seq<Slice>, start: nat, k: nat, at: nat, current: nat,
                    hi: nat)
    requires Contiguous(files, total) && k < |files| && current < hi
    requires files[k].offset <= current <= End(files[k])
    requires Pending(files, slices, start, k, at, current, hi)
    ensures var n := Taken(files, k, current, hi);
            Pending(files, slices + if n > 0 && !files[k].pad then [Slice(k, current - files[k].offset, n)] else [],
                    start, k + 1, at, current + n, hi)
  {
    hide WithoutPads, Part, Taken, Cover;
    var n := Taken(files, k, current, hi);
    var out := if n > 0 && !files[k].pad then [Slice(k, current - files[k].offset, n)] else [];
    var rest := WithoutPads(files, Cover(files, k + 1, current, hi));
    TakenFits(files, k, current, hi);
    forall i | k + 1 <= i < |files| ensures End(files[k]) <= files[i].offset { Ordered(files, total, k, i); }
    CoverLater(files, k + 1, current, current + n, hi);
    CoverUnfolds(files, k, current, hi);
    PadsOfPart(files, k, current, hi, Cover(files, k + 1, current, hi));
    Regroup(slices, out, rest);
  }

  lemma TakenFits(files: seq<FileEntry>, k: nat, current: nat, hi: nat)
    requires k < |files| && current <= hi && current <= End(files[k])
    ensures current + Taken(files, k, current, hi) <= End(files[k])
  {
  }

  lemma CoverUnfolds(files: seq<FileEntry>, k: nat, lo: nat, hi: nat)
    requires k < |files|
    ensures Cover(files, k, lo, hi) == Part(files, k, lo, hi) + Cover(files, k + 1, lo, hi)
  {
    hide Part;
  }

  lemma Regroup(a: seq<Slice>, b: seq<Slice>, c: seq<Slice>)
    ensures a + (b + c) == a + b + c
  {
  }

  lemma PendingDone(files: seq<FileEntry>, slices: seq<Slice>, start: nat, k: nat, at: nat, current: nat, hi: nat)
    requires start <= k && Pending(files, slices, start, k, at, current, hi)
    requires k < |files| ==> current >= hi
    ensures slices == WithoutPads(files, Cover(files, start, at, hi))
  {
    CoverPast(files, k, current, hi);
    assert slices + [] == slices;
  }

  lemma {:induction false} CoverPast(files: seq<FileEntry>, k: nat, lo: nat, hi: nat)
    requires k < |files| ==> lo >= hi
    ensures Cover(files, k, lo, hi) == []
    decreases |files| - k
  {
    if k < |files| { CoverPast(files, k + 1, lo, hi); }
  }
}
