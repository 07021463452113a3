/** The disk side of a torrent (src/disk_io.cpp): the linear mapping of a byte range to files, and
    block writes and piece reads through it, which behave as one flat byte array. */
module DiskIo {
  import opened Wrappers
  import opened Casts
  import opened Files
  import opened FileStorage

  type Byte = bv8
  type Bytes = seq<Byte>

  /** The files that exist, by their index in the torrent. */
  type Disk = map<nat, Bytes>

  // ----- mapping

  /** map_to_files: one pass over all files.  It produces exactly the reference cover, and so
      agrees with the binary-search mapper up to pad files. */
  method MapToFiles(files: seq<FileEntry>, ghost total: nat, at: nat, length: nat) returns (slices: seq<Slice>)
    requires Contiguous(files, total)
    ensures slices == Cover(files, 0, at, at + length)
  {
    hide Cover, Contiguous, Part;
    slices := [];
    var remaining, current := length, at;
    ghost var hi := at + length;
    assert [] + Cover(files, 0, at, hi) == Cover(files, 0, at, hi);
    FirstAtZero(files, total);
    for k := 0 to |files|
      invariant remaining >= 0 && current + remaining == hi && current >= at
      invariant Cover(files, 0, at, hi) == slices + Cover(files, k, current, hi)
      invariant k < |files| ==> files[k].offset <= current || remaining == 0
    {
      if remaining == 0 {
        CoverPast(files, k, current, hi);
        assert slices + [] == slices;
        return;
      }
      var file := files[k];
      var fileEnd := End(file);
      CoverUnfolds(files, k, current, hi);
      Neighbours(files, total, k);
      NextStep(files, total, k, current, hi);
      if current >= fileEnd {
        assert [] + Cover(files, k + 1, current, hi) == Cover(files, k + 1, current, hi);
        continue;
      }
      if current + remaining <= file.offset {
        assert false;
        break;
      }
      var from := Max(current, file.offset);
      var to := Min(current + remaining, fileEnd);
      var n := to - from;
      Grouped(slices, [Slice(k, from - file.offset, n)], Cover(files, k + 1, to, hi));
      slices := slices + [Slice(k, from - file.offset, n)];
      current := to;
      remaining := remaining - n;
    }
    CoverNone(files, |files|, current, hi);
    assert slices + [] == slices;
  }

  lemma Grouped(a: seq<Slice>, b: seq<Slice>, c: seq<Slice>)
    ensures a + (b + c) == (a + b) + c
  {
  }

  lemma FirstAtZero(files: seq<FileEntry>, total: nat)
    requires Contiguous(files, total)
    ensures files != [] ==> files[0].offset == 0
  {
  }

  lemma CoverNone(files: seq<FileEntry>, k: nat, lo: nat, hi: nat)
    requires k >= |files|
    ensures Cover(files, k, lo, hi) == []
  {
  }

  /** What one turn of the loop takes from file k. */
  lemma NextStep(files: seq<FileEntry>, total: nat, k: nat, current: nat, hi: nat)
    requires Contiguous(files, total) && k < |files| && files[k].offset <= current < hi
    ensures current >= End(files[k]) ==> Part(files, k, current, hi) == []
    ensures current < End(files[k]) ==>
              var to := Min(hi, End(files[k]));
              && Part(files, k, current, hi) == [Slice(k, current - files[k].offset, to - current)]
              && Cover(files, k + 1, current, hi) == Cover(files, k + 1, to, hi)
  {
    if current < End(files[k]) {
      forall i | k + 1 <= i < |files| ensures End(files[k]) <= files[i].offset { Ordered(files, total, k, i); }
      CoverLater(files, k + 1, current, Min(hi, End(files[k])), hi);
    }
  }

  // ----- files

  function ContentOf(disk: Disk, k: nat): Bytes { if k in disk then disk[k] else [] }

  function WriteChunk(disk: Disk, k: nat, off: nat, data: Bytes): Disk {
    disk[k := WriteAt(ContentOf(disk, k), off, data)]
  }

  /** The byte at position p of file k, None when the file does not reach that far. */
  function ByteAt(disk: Disk, k: nat, p: nat): Option<Byte> {
    if k in disk && p < |disk[k]| then Some(disk[k][p]) else None
  }

  /** The loop of execute_write_block over its slices. */
  function WriteSlices(disk: Disk, slices: seq<Slice>, data: Bytes): Disk
    decreases |slices|
  {
    if slices == [] || |data| < slices[0].len then disk
    else
      var s := slices[0];
      WriteSlices(WriteChunk(disk, s.file, s.offset, data[..s.len]), slices[1..], data[s.len..])
  }

  /** The same loop when only the first `good` calls of write_file_chunk succeed; of the next one
      some leading bytes may still reach the file, or none and not even the file. */
  function WriteSome(disk: Disk, slices: seq<Slice>, data: Bytes, good: nat, torn: Option<nat>): Disk
    decreases |slices|
  {
    if slices == [] || |data| < slices[0].len then disk
    else
      var s := slices[0];
      if good > 0 then
        WriteSome(WriteChunk(disk, s.file, s.offset, data[..s.len]), slices[1..], data[s.len..], good - 1, torn)
      else if torn.None? then disk
      else WriteChunk(disk, s.file, s.offset, data[..Min(torn.value, s.len)])
  }

  /** The loop of execute_read_piece; read_file_chunk fails on a short file. */
  function ReadSlices(disk: Disk, slices: seq<Slice>): Option<Bytes>
    decreases |slices|
  {
    if slices == [] then Some([])
    else
      var s := slices[0];
      if s.file !in disk || s.offset + s.len > |disk[s.file]| then None
      else match ReadSlices(disk, slices[1..])
        case None => None
        case Some(rest) => Some(disk[s.file][s.offset..s.offset + s.len] + rest)
  }

  function SumLens(slices: seq<Slice>): nat {
    if slices == [] then 0 else slices[0].len + SumLens(slices[1..])
  }

  lemma {:induction false} CoverLength(files: seq<FileEntry>, total: nat, k: nat, lo: nat, hi: nat)
    requires Contiguous(files, total) && (lo < hi && k < |files| ==> files[k].offset <= lo)
    ensures SumLens(Cover(files, k, lo, hi)) <= Max(0, hi - lo)
    decreases |files| - k
  {
    hide Cover, Contiguous;
    if lo >= hi {
      CoverPast(files, k, lo, hi);
    } else if k >= |files| {
      CoverNone(files, k, lo, hi);
    } else {
      CoverHead(files, total, k, lo, hi);
      Neighbours(files, total, k);
      if lo >= End(files[k]) {
        CoverLength(files, total, k + 1, lo, hi);
      } else {
        var to: nat := Min(hi, End(files[k]));
        CoverLength(files, total, k + 1, to, hi);
        var rest := Cover(files, k + 1, to, hi);
        assert ([Slice(k, lo - files[k].offset, to - lo)] + rest)[1..] == rest;
      }
    }
  }

  /** execute_write_block; `good` and `torn` are the outcomes of its file writes. */
  method ExecuteWriteBlock(disk: Disk, files: seq<FileEntry>, ghost total: nat, at: nat, data: Bytes,
                           good: nat, torn: Option<nat>)
    returns (disk': Disk, success: bool)
    requires Contiguous(files, total)
    ensures success <==> good >= |Cover(files, 0, at, at + |data|)|
    ensures success ==> disk' == WriteSlices(disk, Cover(files, 0, at, at + |data|), data)
    ensures disk' == WriteSome(disk, Cover(files, 0, at, at + |data|), data, good, torn)
  {
    hide Cover, WriteChunk, Contiguous, WriteSlices, WriteSome;
    var slices := MapToFiles(files, total, at, |data|);
    FirstAtZero(files, total);
    CoverLength(files, total, 0, at, at + |data|);
    disk' := disk;
    var offset: nat := 0;
    AllGood(disk, slices, data, good, torn);
    assert slices[0..] == slices && data[0..] == data;
    for i := 0 to |slices|
      invariant offset + SumLens(slices[i..]) <= |data| && i <= good
      invariant WriteSome(disk, slices, data, good, torn) ==
                  WriteSome(disk', slices[i..], data[offset..], good - i, torn)
    {
      var s := slices[i];
      SomeStep(disk', slices[i..], data[offset..], good - i, torn);
      assert slices[i..][1..] == slices[i + 1..] && data[offset..][s.len..] == data[offset + s.len..];
      if i == good {
        if torn.Some? {
          var n := Min(torn.value, s.len);
          assert data[offset..][..n] == data[offset..offset + n];
          disk' := WriteChunk(disk', s.file, s.offset, data[offset..offset + n]);
        }
        return disk', false;
      }
      assert data[offset..][..s.len] == data[offset..offset + s.len];
      disk' := WriteChunk(disk', s.file, s.offset, data[offset..offset + s.len]);
      offset := offset + s.len;
    }
    SomeOfNone(disk', data[offset..], good - |slices|, torn);
    success := true;
  }

  lemma SomeStep(disk: Disk, slices: seq<Slice>, data: Bytes, good: nat, torn: Option<nat>)
    requires slices != [] && SumLens(slices) <= |data|
    ensures var s := slices[0];
            && s.len + SumLens(slices[1..]) == SumLens(slices)
            && WriteSome(disk, slices, data, good, torn) ==
               if good > 0 then
                 WriteSome(WriteChunk(disk, s.file, s.offset, data[..s.len]), slices[1..], data[s.len..], good - 1,
                           torn)
               else if torn.None? then disk
               else WriteChunk(disk, s.file, s.offset, data[..Min(torn.value, s.len)])
  {
    hide WriteChunk;
  }

  lemma SomeOfNone(disk: Disk, data: Bytes, good: nat, torn: Option<nat>)
    ensures WriteSome(disk, [], data, good, torn) == disk
  {
  }

  /** With enough good writes the block is written. */
  lemma {:induction false} AllGood(disk: Disk, slices: seq<Slice>, data: Bytes, good: nat, torn: Option<nat>)
    ensures good >= |slices| ==> WriteSome(disk, slices, data, good, torn) == WriteSlices(disk, slices, data)
    decreases |slices|
  {
    hide WriteChunk;
    if good >= |slices| && slices != [] && |data| >= slices[0].len {
      var s := slices[0];
      AllGood(WriteChunk(disk, s.file, s.offset, data[..s.len]), slices[1..], data[s.len..], good - 1, torn);
    }
  }

  // ----- one write

  lemma ChunkBytes(disk: Disk, k: nat, off: nat, data: Bytes, j: nat, p: nat)
    ensures k == j && off <= p < off + |data| ==> ByteAt(WriteChunk(disk, k, off, data), j, p) == Some(data[p - off])
    ensures !(k == j && off <= p < off + |data|) && ByteAt(disk, j, p).Some? ==>
              ByteAt(WriteChunk(disk, k, off, data), j, p) == ByteAt(disk, j, p)
  {
  }

  lemma CoverHead(files: seq<FileEntry>, total: nat, k: nat, lo: nat, hi: nat)
    requires Contiguous(files, total) && k < |files| && files[k].offset <= lo < hi
    ensures lo >= End(files[k]) ==> Cover(files, k, lo, hi) == Cover(files, k + 1, lo, hi)
    ensures lo < End(files[k]) ==>
              var to := Min(hi, End(files[k]));
              Cover(files, k, lo, hi) == [Slice(k, lo - files[k].offset, to - lo)] + Cover(files, k + 1, to, hi)
  {
    hide Part;
    CoverUnfolds(files, k, lo, hi);
    NextStep(files, total, k, lo, hi);
    assert [] + Cover(files, k + 1, lo, hi) == Cover(files, k + 1, lo, hi);
  }

  /** A write through the cover of [lo, hi) sets exactly the bytes of that range. */
  lemma {:induction false} WriteCover(disk: Disk, files: seq<FileEntry>, total: nat, k: nat, lo: nat, hi: nat,
                                      data: Bytes, j: nat, p: nat)
    requires Contiguous(files, total) && hi - lo <= |data| && j < |files| && p < files[j].size
    requires lo < hi && k < |files| ==> files[k].offset <= lo
    ensures var disk', o := WriteSlices(disk, Cover(files, k, lo, hi), data), files[j].offset + p;
            && (k <= j && lo <= o < hi ==> ByteAt(disk', j, p) == Some(data[o - lo]))
            && (!(k <= j && lo <= o < hi) && ByteAt(disk, j, p).Some? ==> ByteAt(disk', j, p) == ByteAt(disk, j, p))
    decreases |files| - k
  {
    hide Cover, Contiguous, ByteAt, WriteChunk;
    if lo >= hi {
      CoverPast(files, k, lo, hi);
    } else if k >= |files| {
      CoverNone(files, k, lo, hi);
    } else {
      CoverHead(files, total, k, lo, hi);
      Neighbours(files, total, k);
      if j > k { Ordered(files, total, k, j); }
      if lo >= End(files[k]) {
        WriteCover(disk, files, total, k + 1, lo, hi, data, j, p);
      } else {
        var to: nat := Min(hi, End(files[k]));
        var off, n: nat := lo - files[k].offset, to - lo;
        WriteFirst(disk, Slice(k, off, n), Cover(files, k + 1, to, hi), data);
        ChunkBytes(disk, k, off, data[..n], j, p);
        if j < k { Ordered(files, total, j, k); }
        WriteCover(WriteChunk(disk, k, off, data[..n]), files, total, k + 1, to, hi, data[n..], j, p);
      }
    }
  }

  lemma WriteFirst(disk: Disk, s: Slice, rest: seq<Slice>, data: Bytes)
    requires s.len <= |data|
    ensures WriteSlices(disk, [s] + rest, data) ==
              WriteSlices(WriteChunk(disk, s.file, s.offset, data[..s.len]), rest, data[s.len..])
  {
    hide WriteChunk;
    assert ([s] + rest)[1..] == rest;
  }

  /** A block write that fails leaves each byte of its range old or new and touches no other. */
  lemma {:induction false} TornWrite(disk: Disk, files: seq<FileEntry>, total: nat, k: nat, lo: nat, hi: nat,
                                     data: Bytes, good: nat, torn: Option<nat>, j: nat, p: nat)
    requires Contiguous(files, total) && hi - lo <= |data| && j < |files| && p < files[j].size
    requires lo < hi && k < |files| ==> files[k].offset <= lo
    requires ByteAt(disk, j, p).Some?
    ensures var o := files[j].offset + p;
            var b := ByteAt(WriteSome(disk, Cover(files, k, lo, hi), data, good, torn), j, p);
            b == ByteAt(disk, j, p) || (k <= j && lo <= o < hi && b == Some(data[o - lo]))
    decreases |files| - k
  {
    hide Cover, Contiguous, ByteAt, WriteChunk;
    if lo >= hi {
      CoverPast(files, k, lo, hi);
    } else if k >= |files| {
      CoverNone(files, k, lo, hi);
    } else {
      CoverHead(files, total, k, lo, hi);
      Neighbours(files, total, k);
      if lo >= End(files[k]) {
        TornWrite(disk, files, total, k + 1, lo, hi, data, good, torn, j, p);
      } else {
        TornSlice(disk, files, total, k, lo, hi, data, good, torn, j, p);
        if good > 0 {
          var to: nat := Min(hi, End(files[k]));
          var n := to - lo;
          var disk' := WriteChunk(disk, k, lo - files[k].offset, data[..n]);
          TornWrite(disk', files, total, k + 1, to, hi, data[n..], good - 1, torn, j, p);
          if j > k { Ordered(files, total, k, j); }
        }
      }
    }
  }

  /** The part of the first file. */
  lemma TornSlice(disk: Disk, files: seq<FileEntry>, total: nat, k: nat, lo: nat, hi: nat, data: Bytes,
                  good: nat, torn: Option<nat>, j: nat, p: nat)
    requires Contiguous(files, total) && k < |files| && files[k].offset <= lo < Min(hi, End(files[k]))
             && hi - lo <= |data|
    requires j < |files| && p < files[j].size && ByteAt(disk, j, p).Some?
    ensures var to := Min(hi, End(files[k]));
            var s, rest := Slice(k, lo - files[k].offset, to - lo), Cover(files, k + 1, to, hi);
            var o, disk' := files[j].offset + p, WriteChunk(disk, k, s.offset, data[..s.len]);
            && (good > 0 ==>
                  WriteSome(disk, [s] + rest, data, good, torn) ==
                    WriteSome(disk', rest, data[s.len..], good - 1, torn))
            && (ByteAt(disk', j, p) == ByteAt(disk, j, p)
                || (j == k && lo <= o < to && ByteAt(disk', j, p) == Some(data[o - lo])))
            && (good == 0 ==>
                  var b := ByteAt(WriteSome(disk, [s] + rest, data, good, torn), j, p);
                  b == ByteAt(disk, j, p) || (j == k && lo <= o < to && b == Some(data[o - lo])))
  {
    hide Cover, Contiguous, ByteAt, WriteChunk;
    var to: nat := Min(hi, End(files[k]));
    var s, rest := Slice(k, lo - files[k].offset, to - lo), Cover(files, k + 1, to, hi);
    assert ([s] + rest)[1..] == rest;
    ChunkBytes(disk, k, s.offset, data[..s.len], j, p);
    if torn.Some? { ChunkBytes(disk, k, s.offset, data[..Min(torn.value, s.len)], j, p); }
  }

  // ----- one read

  lemma ReadFirst(disk: Disk, s: Slice, rest: seq<Slice>)
    ensures ReadSlices(disk, [s] + rest) ==
            if s.file !in disk || s.offset + s.len > |disk[s.file]| then None
            else match ReadSlices(disk, rest)
              case None => None
              case Some(bytes) => Some(disk[s.file][s.offset..s.offset + s.len] + bytes)
  {
    assert ([s] + rest)[1..] == rest;
  }

  /** All bytes of [lo, hi) in the files from k on are on disk. */
  ghost predicate OnDisk(disk: Disk, files: seq<FileEntry>, k: nat, lo: nat, hi: nat) {
    forall j, p {:trigger ByteAt(disk, j, p)} ::
      k <= j < |files| && 0 <= p < files[j].size && lo <= files[j].offset + p < hi ==>
      ByteAt(disk, j, p).Some?
  }

  /** `bytes` are the bytes of [lo, hi) in the files from k on. */
  ghost predicate Matches(disk: Disk, files: seq<FileEntry>, k: nat, lo: nat, hi: nat, bytes: Bytes) {
    forall j, p :: k <= j ==> MatchesAt(disk, files, lo, hi, bytes, j, p)
  }

  ghost predicate MatchesAt(disk: Disk, files: seq<FileEntry>, lo: nat, hi: nat, bytes: Bytes, j: nat, p: nat) {
    j < |files| && p < files[j].size && lo <= files[j].offset + p < hi ==>
      files[j].offset + p - lo < |bytes| && ByteAt(disk, j, p) == Some(bytes[files[j].offset + p - lo])
  }

  /** A read of [lo, hi) from file k on succeeds with its bytes. */
  ghost predicate ReadsCover(disk: Disk, files: seq<FileEntry>, k: nat, lo: nat, hi: nat) {
    var r := ReadSlices(disk, Cover(files, k, lo, hi));
    r.Some? && |r.value| == Max(0, hi - lo) && Matches(disk, files, k, lo, hi, r.value)
  }

  lemma {:induction false} ReadCover(disk: Disk, files: seq<FileEntry>, total: nat, k: nat, lo: nat, hi: nat)
    requires Contiguous(files, total) && hi <= total && k <= |files| && OnDisk(disk, files, k, lo, hi)
    requires lo < hi ==> k < |files| && files[k].offset <= lo
    ensures ReadsCover(disk, files, k, lo, hi)
    decreases |files| - k
  {
    hide ReadsCover, OnDisk, Contiguous;
    if lo >= hi {
      ReadNone(disk, files, k, lo, hi);
    } else {
      Neighbours(files, total, k);
      if lo >= End(files[k]) {
        OnDiskLater(disk, files, k, lo, lo, hi);
        ReadCover(disk, files, total, k + 1, lo, hi);
        ReadSkips(disk, files, total, k, lo, hi);
      } else {
        var to: nat := Min(hi, End(files[k]));
        OnDiskLater(disk, files, k, lo, to, hi);
        ReadCover(disk, files, total, k + 1, to, hi);
        ReadTakes(disk, files, total, k, lo, hi);
      }
    }
  }

  lemma ReadNone(disk: Disk, files: seq<FileEntry>, k: nat, lo: nat, hi: nat)
    requires lo >= hi
    ensures ReadsCover(disk, files, k, lo, hi)
  {
    hide Cover, ByteAt;
    CoverPast(files, k, lo, hi);
  }

  lemma OnDiskLater(disk: Disk, files: seq<FileEntry>, k: nat, lo: nat, to: nat, hi: nat)
    requires OnDisk(disk, files, k, lo, hi) && lo <= to
    ensures OnDisk(disk, files, k + 1, to, hi)
  {
    hide ByteAt;
  }

  lemma ReadSkips(disk: Disk, files: seq<FileEntry>, total: nat, k: nat, lo: nat, hi: nat)
    requires Contiguous(files, total) && k < |files| && files[k].offset <= lo < hi && lo >= End(files[k])
    requires ReadsCover(disk, files, k + 1, lo, hi)
    ensures ReadsCover(disk, files, k, lo, hi)
  {
    hide Cover, Contiguous, Matches, ReadSlices;
    CoverHead(files, total, k, lo, hi);
    ReadSkipsFile(disk, files, k, lo, hi, ReadSlices(disk, Cover(files, k + 1, lo, hi)).value);
  }

  lemma ReadTakes(disk: Disk, files: seq<FileEntry>, total: nat, k: nat, lo: nat, hi: nat)
    requires Contiguous(files, total) && k < |files| && files[k].offset <= lo < hi && lo < End(files[k])
    requires OnDisk(disk, files, k, lo, hi) && ReadsCover(disk, files, k + 1, Min(hi, End(files[k])), hi)
    ensures ReadsCover(disk, files, k, lo, hi)
  {
    hide Cover, Contiguous, Matches, ReadSlices, OnDisk;
    var to: nat := Min(hi, End(files[k]));
    CoverHead(files, total, k, lo, hi);
    ReadFirst(disk, Slice(k, lo - files[k].offset, to - lo), Cover(files, k + 1, to, hi));
    FileLongEnough(disk, files, k, lo, to, hi);
    ReadJoins(disk, files, total, k, lo, to, hi, ReadSlices(disk, Cover(files, k + 1, to, hi)).value);
  }

  lemma ReadSkipsFile(disk: Disk, files: seq<FileEntry>, k: nat, lo: nat, hi: nat, bytes: Bytes)
    requires k < |files| && lo >= End(files[k]) && Matches(disk, files, k + 1, lo, hi, bytes)
    ensures Matches(disk, files, k, lo, hi, bytes)
  {
    hide ByteAt;
    forall j: nat, p: nat | k <= j ensures MatchesAt(disk, files, lo, hi, bytes, j, p) {
      assert k + 1 <= j ==> MatchesAt(disk, files, lo, hi, bytes, j, p);
    }
  }

  /** The last byte of the slice being there, the file reaches that far. */
  lemma FileLongEnough(disk: Disk, files: seq<FileEntry>, k: nat, lo: nat, to: nat, hi: nat)
    requires k < |files| && files[k].offset <= lo < to <= hi && to <= End(files[k]) && OnDisk(disk, files, k, lo, hi)
    ensures k in disk && to - files[k].offset <= |disk[k]|
  {
    assert ByteAt(disk, k, to - 1 - files[k].offset).Some?;
  }

  lemma ReadJoins(disk: Disk, files: seq<FileEntry>, total: nat, k: nat, lo: nat, to: nat, hi: nat, rest: Bytes)
    requires Contiguous(files, total) && k < |files| && files[k].offset <= lo < to == Min(hi, End(files[k])) && lo < hi
    requires k in disk && to - files[k].offset <= |disk[k]|
    requires |rest| == hi - to && Matches(disk, files, k + 1, to, hi, rest)
    ensures Matches(disk, files, k, lo, hi, disk[k][lo - files[k].offset..to - files[k].offset] + rest)
  {
    hide Contiguous;
    var bytes := disk[k][lo - files[k].offset..to - files[k].offset] + rest;
    forall j: nat, p: nat | k <= j ensures MatchesAt(disk, files, lo, hi, bytes, j, p) {
      if k < j < |files| {
        Ordered(files, total, k, j);
        assert MatchesAt(disk, files, to, hi, rest, j, p);
      }
    }
  }

  /** execute_read_piece and execute_hash_piece: the buffer starts zeroed. */
  function ReadRange(disk: Disk, files: seq<FileEntry>, at: nat, length: nat): Option<Bytes> {
    match ReadSlices(disk, Cover(files, 0, at, at + length))
    case None => None
    case Some(bytes) => Some(if |bytes| <= length then bytes + Zeros(length - |bytes|) else bytes)
  }

  method ExecuteReadPiece(disk: Disk, files: seq<FileEntry>, ghost total: nat, at: nat, length: nat)
    returns (r: Option<Bytes>)
    requires Contiguous(files, total)
    ensures r == ReadRange(disk, files, at, length)
  {
    hide *;
    var slices := MapToFiles(files, total, at, length);
    FirstAtZero(files, total);
    CoverLength(files, total, 0, at, at + length);
    Padded(disk, files, at, length);
    r := ReadAll(disk, slices, length);
  }

  /** ReadRange in terms of what the slices hold. */
  lemma Padded(disk: Disk, files: seq<FileEntry>, at: nat, length: nat)
    ensures var r := ReadSlices(disk, Cover(files, 0, at, at + length));
            && (r.None? ==> ReadRange(disk, files, at, length) == None)
            && (r.Some? && |r.value| <= length ==>
                  ReadRange(disk, files, at, length) == Some(r.value + Zeros(length - |r.value|)))
    ensures Max(0, at + length - at) == length
  {
    hide Cover, ReadSlices, Zeros;
  }

  /** The reading loop, into a zeroed buffer. */
  method ReadAll(disk: Disk, slices: seq<Slice>, length: nat) returns (r: Option<Bytes>)
    requires SumLens(slices) <= length
    ensures var read := ReadSlices(disk, slices);
            && (read.None? ==> r == None)
            && (read.Some? ==> |read.value| <= length && r == Some(read.value + Zeros(length - |read.value|)))
  {
    hide *;
    var data: Bytes := [];
    assert slices[0..] == slices;
    AfterNothing(ReadSlices(disk, slices));
    for i := 0 to |slices|
      invariant |data| + SumLens(slices[i..]) <= length
      invariant ReadSlices(disk, slices) == After(data, ReadSlices(disk, slices[i..]))
    {
      var s := slices[i];
      ReadTurn(disk, slices[i..], data);
      assert slices[i..][1..] == slices[i + 1..];
      if s.file !in disk || s.offset + s.len > |disk[s.file]| {
        return None;
      }
      data := data + disk[s.file][s.offset..s.offset + s.len];
    }
    ReadEnd(disk, data);
    r := Some(data + Zeros(length - |data|));
  }

  /** What is read, after what has been read. */
  function After(data: Bytes, r: Option<Bytes>): Option<Bytes> {
    if r.None? then None else Some(data + r.value)
  }

  lemma AfterNothing(r: Option<Bytes>)
    ensures After([], r) == r
  {
    if r.Some? { assert [] + r.value == r.value; }
  }

  /** One turn of the reading loop. */
  lemma ReadTurn(disk: Disk, slices: seq<Slice>, data: Bytes)
    requires slices != []
    ensures var s := slices[0];
            && SumLens(slices) == s.len + SumLens(slices[1..])
            && After(data, ReadSlices(disk, slices)) ==
               if s.file !in disk || s.offset + s.len > |disk[s.file]| then None
               else After(data + disk[s.file][s.offset..s.offset + s.len], ReadSlices(disk, slices[1..]))
  {
    var s := slices[0];
    var rest := ReadSlices(disk, slices[1..]);
    if s.file in disk && s.offset + s.len <= |disk[s.file]| && rest.Some? {
      var chunk := disk[s.file][s.offset..s.offset + s.len];
      assert data + (chunk + rest.value) == (data + chunk) + rest.value;
    }
  }

  lemma ReadEnd(disk: Disk, data: Bytes)
    ensures After(data, ReadSlices(disk, [])) == Some(data)
  {
    assert data + [] == data;
  }

  // ----- any sequence of writes, then a read

  datatype Write = Write(at: nat, data: Bytes)

  function AfterWrites(disk: Disk, files: seq<FileEntry>, writes: seq<Write>): Disk {
    if writes == [] then disk
    else
      var last := writes[|writes| - 1];
      WriteSlices(AfterWrites(disk, files, writes[..|writes| - 1]), Cover(files, 0, last.at, last.at + |last.data|),
                  last.data)
  }

  /** The flat array: what the last write over offset o put there. */
  function LastWritten(writes: seq<Write>, o: nat): Option<Byte> {
    if writes == [] then None
    else
      var last := writes[|writes| - 1];
      if last.at <= o < last.at + |last.data| then Some(last.data[o - last.at])
      else LastWritten(writes[..|writes| - 1], o)
  }

  /** The flat array: the last byte written at an offset, or what the disk held before. */
  function Flat(disk: Disk, files: seq<FileEntry>, writes: seq<Write>, j: nat, p: nat): Option<Byte>
    requires j < |files|
  {
    var written := LastWritten(writes, files[j].offset + p);
    if written.Some? then written else ByteAt(disk, j, p)
  }

  /** After any sequence of block writes every byte on disk is that of the flat array. */
  lemma {:induction false} WritesAreFlat(disk: Disk, files: seq<FileEntry>, total: nat, writes: seq<Write>, j: nat,
                                         p: nat)
    requires Contiguous(files, total) && j < |files| && p < files[j].size
    ensures var flat := Flat(disk, files, writes, j, p);
            flat.Some? ==> ByteAt(AfterWrites(disk, files, writes), j, p) == flat
    decreases |writes|
  {
    hide Cover, Contiguous, ByteAt, WriteSlices;
    if writes != [] {
      var before := writes[..|writes| - 1];
      var last := writes[|writes| - 1];
      WritesAreFlat(disk, files, total, before, j, p);
      FirstAtZero(files, total);
      WriteCover(AfterWrites(disk, files, before), files, total, 0, last.at, last.at + |last.data|, last.data, j, p);
    }
  }

  /** The file and position of an offset. */
  lemma {:induction false} Locate(files: seq<FileEntry>, total: nat, k: nat, o: nat) returns (j: nat)
    requires Contiguous(files, total) && o < total && k < |files| && files[k].offset <= o
    ensures j < |files| && files[j].offset <= o < End(files[j])
    decreases |files| - k
  {
    if o < End(files[k]) {
      j := k;
    } else {
      Neighbours(files, total, k);
      j := Locate(files, total, k + 1, o);
    }
  }

  /** All bytes of the range are known: written, or on disk before. */
  ghost predicate Known(disk: Disk, files: seq<FileEntry>, writes: seq<Write>, at: nat, length: nat) {
    forall j: nat, p: nat ::
      j < |files| && p < files[j].size && at <= files[j].offset + p < at + length ==>
        Flat(disk, files, writes, j, p).Some?
  }

  /** `bytes` are the bytes of the flat array from `at` on. */
  ghost predicate Reads(disk: Disk, files: seq<FileEntry>, writes: seq<Write>, at: nat, bytes: Bytes) {
    forall j: nat, p: nat :: ReadsAt(disk, files, writes, at, bytes, j, p)
  }

  ghost predicate ReadsAt(disk: Disk, files: seq<FileEntry>, writes: seq<Write>, at: nat, bytes: Bytes, j: nat,
                          p: nat) {
    j < |files| && p < files[j].size && at <= files[j].offset + p < at + |bytes| ==>
      Flat(disk, files, writes, j, p) == Some(bytes[files[j].offset + p - at])
  }

  /** On any disk, after any blocks in whatever order and overlap, reading a range of known bytes
      succeeds and gives exactly those of the flat array. */
  lemma FlatReadBack(disk: Disk, files: seq<FileEntry>, total: nat, writes: seq<Write>, at: nat, length: nat)
    requires Contiguous(files, total) && at + length <= total
    requires Known(disk, files, writes, at, length)
    ensures var r := ReadRange(AfterWrites(disk, files, writes), files, at, length);
            r.Some? && |r.value| == length && Reads(disk, files, writes, at, r.value)
  {
    hide Cover, AfterWrites, LastWritten, ReadSlices, Contiguous, ByteAt, Flat;
    var disk' := AfterWrites(disk, files, writes);
    forall j: nat, p: nat | j < |files| && p < files[j].size && at <= files[j].offset + p < at + length
      ensures ByteAt(disk', j, p).Some? && ByteAt(disk', j, p) == Flat(disk, files, writes, j, p)
    {
      WritesAreFlat(disk, files, total, writes, j, p);
    }
    FirstAtZero(files, total);
    NonEmpty(files, total);
    ReadCover(disk', files, total, 0, at, at + length);
    var r := ReadSlices(disk', Cover(files, 0, at, at + length)).value;
    assert r + Zeros(0) == r;
    forall j: nat, p: nat ensures ReadsAt(disk, files, writes, at, r, j, p) {
      assert MatchesAt(disk', files, at, at + length, r, j, p);
    }
  }

  /** Where every byte of the range has been written, the old disk does not matter. */
  lemma WrittenReadBack(disk: Disk, files: seq<FileEntry>, total: nat, writes: seq<Write>, at: nat, length: nat)
    requires Contiguous(files, total) && at + length <= total
    requires forall o :: at <= o < at + length ==> LastWritten(writes, o).Some?
    ensures var r := ReadRange(AfterWrites(disk, files, writes), files, at, length);
            && r.Some? && |r.value| == length
            && forall o :: at <= o < at + length ==> LastWritten(writes, o) == Some(r.value[o - at])
  {
    hide AfterWrites, LastWritten, ReadRange, Contiguous, ByteAt;
    FlatReadBack(disk, files, total, writes, at, length);
    var r := ReadRange(AfterWrites(disk, files, writes), files, at, length).value;
    FirstAtZero(files, total);
    NonEmpty(files, total);
    forall o | at <= o < at + length ensures LastWritten(writes, o) == Some(r[o - at]) {
      var j := Locate(files, total, 0, o);
      assert ReadsAt(disk, files, writes, at, r, j, o - files[j].offset);
    }
  }

  lemma NonEmpty(files: seq<FileEntry>, total: nat)
    requires Contiguous(files, total)
    ensures total > 0 ==> files != []
  {
  }

  // ----- the two mappers

  /** On every valid layout the two mappers describe the same bytes: map_block's slices are
      map_to_files' without the pad files. */
  method MappersAgree(s: Storage, piece: nat, offset: nat, size: nat) returns (block: seq<Slice>, linear: seq<Slice>)
    requires s.Valid() && s.finalized && piece < s.numPieces && offset < UINT32_LIMIT && size < UINT32_LIMIT
    ensures block == WithoutPads(s.files, linear)
    ensures linear == Cover(s.files, 0, piece * s.pieceLength + offset, piece * s.pieceLength + offset + size)
  {
    hide Cover, WithoutPads, Contiguous;
    block := s.MapBlock(piece, offset, size);
    linear := MapToFiles(s.files, s.totalSize, piece * s.pieceLength + offset, size);
  }
}
