/** File contents as byte strings (src/fs.cpp). */
module Files {
  function Zeros(n: nat): (z: seq<bv8>)
    ensures |z| == n
  {
    seq(n, _ => 0)
  }

  /** write_file_chunk: creates the file if needed, zero-fills a gap before `off`. */
  function WriteAt(content: seq<bv8>, off: nat, data: seq<bv8>): seq<bv8> {
    var c := if off <= |content| then content else content + Zeros(off - |content|);
    c[..off] + data + (if off + |data| <= |c| then c[off + |data|..] else [])
  }
}
