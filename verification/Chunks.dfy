/**
 How a file is cut into chunks (network/file_transfer.go): the number of chunks, the byte range
 of each of them, and the writes that put one chunk back at its place.
 */
module Chunks {
  import opened Common

  /** The number of chunks a file is sent in; 0 for an empty file or an unusable chunk size. */
  function ChunkCount(size: int, chunkSize: int): (n: nat) {
    if size <= 0 || chunkSize <= 0 then
      0
    else
      size / chunkSize + (if size % chunkSize != 0 then 1 else 0)
  }

  /** First byte of chunk i, and the byte after its last one. */
  function Lo(i: int, chunkSize: int): int {
    i * chunkSize
  }

  function Hi(i: int, chunkSize: int, size: int): int {
    Min((i + 1) * chunkSize, size)
  }

  /** The number of bytes in the chunks below `next`. */
  function BytesBelow(next: int, chunkSize: int, size: int): int {
    Min(next * chunkSize, size)
  }

  /** What `ReadAt` with a buffer of one chunk returns at an offset; an empty read is an error. */
  function ReadChunk(file: seq<byte>, offset: int, chunkSize: int): (r: Result<seq<byte>, string>)
    requires offset >= 0 && chunkSize > 0
  {
    if offset >= |file| then Err("EOF") else Ok(file[offset..Min(offset + chunkSize, |file|)])
  }

  function Zeros(n: nat): (z: seq<byte>)
    ensures |z| == n && forall k :: 0 <= k < n ==> z[k] == 0
  {
    seq(n, _ => 0 as byte)
  }

  /** `os.Truncate`: cut, or extend with zeros. */
  function Truncate(file: seq<byte>, size: nat): (f: seq<byte>)
    ensures |f| == size
    ensures forall k :: 0 <= k < size ==> f[k] == if k < |file| then file[k] else 0
  {
    if size <= |file| then file[..size] else file + Zeros(size - |file|)
  }

  /** `WriteAt`: writes past the end extend the file, and a gap reads as zeros. */
  function WriteAt(file: seq<byte>, offset: nat, data: seq<byte>): (f: seq<byte>)
    ensures |f| == if data == [] then |file| else Max(|file|, offset + |data|)
    ensures forall k :: 0 <= k < |f| ==>
      f[k] == if offset <= k < offset + |data| then data[k - offset] else if k < |file| then file[k] else 0
  {
    if data == [] then
      file
    else
      var padded := Truncate(file, Max(|file|, offset + |data|));
      padded[..offset] + data + padded[offset + |data|..]
  }

  /** Chunk i of `file` holds exactly the bytes of chunk i of `source`. */
  ghost predicate Holds(file: seq<byte>, source: seq<byte>, chunkSize: int, i: int) {
    && |file| == |source|
    && 0 <= Lo(i, chunkSize) <= Hi(i, chunkSize, |source|)
    && file[Lo(i, chunkSize)..Hi(i, chunkSize, |source|)] == source[Lo(i, chunkSize)..Hi(i, chunkSize, |source|)]
  }

  lemma MulMonotone(a: int, b: int, c: int)
    requires a <= b && c >= 0
    ensures a * c <= b * c
  {
  }

  /** `ChunkCount` is the one number n for which chunk i exists exactly when i < n. */
  lemma ChunkExists(i: int, chunkSize: int, size: int)
    requires chunkSize > 0 && size >= 0 && i >= 0
    ensures i < ChunkCount(size, chunkSize) <==> i * chunkSize < size
  {
    var n := ChunkCount(size, chunkSize);
    if size > 0 {
      var q, r := size / chunkSize, size % chunkSize;
      assert size == q * chunkSize + r;
      if i <= q {
        MulMonotone(i, q, chunkSize);
      } else {
        MulMonotone(q + 1, i, chunkSize);
        assert (q + 1) * chunkSize == q * chunkSize + chunkSize;
      }
      if i < q { MulMonotone(i + 1, q, chunkSize); assert (i + 1) * chunkSize == i * chunkSize + chunkSize; }
    }
  }

  /** Chunk i is not empty, ends where chunk i+1 begins, and adds its length to the bytes below. */
  lemma ChunkBounds(i: int, chunkSize: int, size: int)
    requires chunkSize > 0 && 0 <= i < ChunkCount(size, chunkSize)
    ensures 0 <= Lo(i, chunkSize) < Hi(i, chunkSize, size) <= size
    ensures Lo(i, chunkSize) == BytesBelow(i, chunkSize, size)
    ensures Hi(i, chunkSize, size) == BytesBelow(i + 1, chunkSize, size)
    ensures Hi(i, chunkSize, size) - Lo(i, chunkSize) <= chunkSize
  {
    ChunkExists(i, chunkSize, size);
    assert (i + 1) * chunkSize == i * chunkSize + chunkSize;
    MulMonotone(0, i, chunkSize);
  }

  /** The chunk ranges partition the file: byte k lies in chunk i exactly when i is k / chunkSize. */
  lemma ChunkOfByte(k: int, i: int, chunkSize: int, size: int)
    requires chunkSize > 0 && 0 <= k < size && i >= 0
    ensures 0 <= k / chunkSize < ChunkCount(size, chunkSize)
    ensures Lo(i, chunkSize) <= k < Hi(i, chunkSize, size) <==> i == k / chunkSize
  {
    var q, r := k / chunkSize, k % chunkSize;
    assert k == q * chunkSize + r;
    assert (i + 1) * chunkSize == i * chunkSize + chunkSize;
    assert (q + 1) * chunkSize == q * chunkSize + chunkSize;
    if q < 0 { MulMonotone(q, -1, chunkSize); assert false; }
    ChunkExists(q, chunkSize, size);
    if i < q { MulMonotone(i + 1, q, chunkSize); }
    if q < i { MulMonotone(q + 1, i, chunkSize); }
  }

  /** The all-sent test of the sender: all bytes are counted exactly when all chunks are. */
  lemma AllBytesIffAllChunks(next: int, chunkSize: int, size: int)
    requires chunkSize > 0 && size >= 0 && 0 <= next <= ChunkCount(size, chunkSize)
    ensures 0 <= BytesBelow(next, chunkSize, size) <= size
    ensures BytesBelow(next, chunkSize, size) == size <==> next == ChunkCount(size, chunkSize)
  {
    MulMonotone(0, next, chunkSize);
    ChunkExists(next, chunkSize, size);
  }

  lemma BytesBelowMonotone(a: int, b: int, chunkSize: int, size: int)
    requires chunkSize > 0 && a <= b
    ensures BytesBelow(a, chunkSize, size) <= BytesBelow(b, chunkSize, size)
  {
    MulMonotone(a, b, chunkSize);
  }

  /** Reading at a chunk's offset returns exactly that chunk. */
  lemma ReadChunkIsChunk(source: seq<byte>, i: int, chunkSize: int)
    requires chunkSize > 0 && 0 <= i < ChunkCount(|source|, chunkSize)
    ensures 0 <= Lo(i, chunkSize) < Hi(i, chunkSize, |source|) <= |source|
    ensures ReadChunk(source, Lo(i, chunkSize), chunkSize)
         == Ok(source[Lo(i, chunkSize)..Hi(i, chunkSize, |source|)])
  {
    ChunkBounds(i, chunkSize, |source|);
    assert (i + 1) * chunkSize == i * chunkSize + chunkSize;
  }

  lemma WriteKeepsRange(file: seq<byte>, source: seq<byte>, off: nat, n: nat, lo: nat, hi: nat)
    requires |file| == |source| && off + n <= |source| && lo <= hi <= |source|
    requires file[lo..hi] == source[lo..hi] || (lo == off && hi == off + n)
    ensures WriteAt(file, off, source[off..off + n])[lo..hi] == source[lo..hi]
  {
    var f := WriteAt(file, off, source[off..off + n]);
    forall k | lo <= k < hi ensures f[k] == source[k] {
      if !(off <= k < off + n) {
        assert file[lo..hi][k - lo] == source[lo..hi][k - lo];
      }
    }
  }

  /**
   Writing a prefix of chunk i's bytes at its place keeps every chunk already held; writing all of it adds chunk i.
   */
  lemma WriteKeepsChunks(file: seq<byte>, source: seq<byte>, chunkSize: int, i: int, n: nat, j: int)
    requires chunkSize > 0 && 0 <= i < ChunkCount(|source|, chunkSize) && |file| == |source|
    requires n <= Hi(i, chunkSize, |source|) - Lo(i, chunkSize)
    requires Holds(file, source, chunkSize, j) || (i == j && n == Hi(i, chunkSize, |source|) - Lo(i, chunkSize))
    ensures 0 <= Lo(i, chunkSize) && Lo(i, chunkSize) + n <= |source|
    ensures Holds(WriteAt(file, Lo(i, chunkSize), source[Lo(i, chunkSize)..Lo(i, chunkSize) + n]), source, chunkSize, j)
  {
    ChunkBounds(i, chunkSize, |source|);
    if i == j { ChunkBounds(j, chunkSize, |source|); }
    WriteKeepsRange(file, source, Lo(i, chunkSize), n, Lo(j, chunkSize), Hi(j, chunkSize, |source|));
  }

  /** A file holding every chunk is the source. */
  lemma AllChunksHeld(file: seq<byte>, source: seq<byte>, chunkSize: int)
    requires chunkSize > 0 && |file| == |source|
    requires forall i :: 0 <= i < ChunkCount(|source|, chunkSize) ==> Holds(file, source, chunkSize, i)
    ensures file == source
  {
    forall k | 0 <= k < |source| ensures file[k] == source[k] {
      var i := k / chunkSize;
      ChunkOfByte(k, i, chunkSize, |source|);
      assert Holds(file, source, chunkSize, i);
      var lo, hi := Lo(i, chunkSize), Hi(i, chunkSize, |source|);
      assert file[lo..hi][k - lo] == source[lo..hi][k - lo];
    }
  }
}
