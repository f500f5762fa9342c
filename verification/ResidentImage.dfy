/**
 The bytes of a file as its resident cache blocks define them, and the loop
 that reads them block by block.
 */
module ResidentImage {
  import opened Common
  import opened SliceGraph

  /** A cache block is named by its slice, its index in the slice and its length. */
  datatype Key = Key(id: nat, block: nat, length: nat)

  /** The content under a block's name, if a file can be opened there. */
  type Blocks = Key -> Option<seq<Octet>>

  function Min(a: nat, b: nat): nat {
    if a < b then a else b
  }

  /** The length of block `block` of a slice of `size` bytes, if the slice reaches that far. */
  function BlockLength(size: nat, block: nat, blockSize: nat): Option<nat> {
    if size == 0 || block * blockSize >= size then None else Some(Min(blockSize, size - block * blockSize))
  }

  /** The block that holds offset `off` of slice `id`. */
  function BlockAt(id: nat, size: nat, off: nat, blockSize: nat): Option<Key>
    requires blockSize > 0
  {
    var length := BlockLength(size, off / blockSize, blockSize);
    if length.Some? then Some(Key(id, off / blockSize, length.value)) else None
  }

  predicate Readable(blocks: Blocks, key: Key) {
    blocks(key).Some? && |blocks(key).value| == key.length
  }

  /** The byte at `off` of the file, defined without any loop: position, source, block, byte. */
  function ByteAt(chunks: seq<seq<Extent>>, blocks: Blocks, blockSize: nat, off: nat): Option<Octet>
    requires blockSize > 0
  {
    if off / CHUNK_SIZE >= |chunks| then None
    else
      var source := Lookup(chunks[off / CHUNK_SIZE], off % CHUNK_SIZE);
      if source.None? || source.value.Zero? then None
      else
        var at := source.value.off;
        var key := BlockAt(source.value.id, source.value.size, at, blockSize);
        if key.None? || !Readable(blocks, key.value) || at % blockSize >= key.value.length then None
        else Some(blocks(key.value).value[at % blockSize])
  }

  // --- finding the extent ----------------------------------------------------------------

  lemma {:induction false} LookupOf(xs: seq<Extent>, i: nat, p: nat)
    requires Resolved(xs) && i < |xs| && Covers(xs[i], p)
    ensures Lookup(xs, p) == Some(SourceOf(xs[i], p))
    decreases |xs|
  {
    if i < |xs| - 1 {
      LookupOf(xs[..|xs| - 1], i, p);
    }
  }

  lemma {:induction false} LookupNothing(xs: seq<Extent>, p: nat)
    requires forall i :: 0 <= i < |xs| ==> !Covers(xs[i], p)
    ensures Lookup(xs, p).None?
    decreases |xs|
  {
    if xs != [] { LookupNothing(xs[..|xs| - 1], p); }
  }

  /** Binary search for the extent that covers `offset`: it agrees with the meaning of the list. */
  method SliceAt(xs: seq<Extent>, offset: nat) returns (e: Option<Extent>)
    requires Resolved(xs)
    ensures e.Some? ==> e.value in xs && Covers(e.value, offset) && Lookup(xs, offset) == Some(SourceOf(e.value, offset))
    ensures e.None? ==> Lookup(xs, offset).None?
  {
    var lo, hi := 0, |xs|;
    while lo < hi
      invariant 0 <= lo <= hi <= |xs|
      invariant forall i :: 0 <= i < lo ==> End(xs[i]) <= offset
      invariant forall i :: hi <= i < |xs| ==> End(xs[i]) > offset
    {
      var mid := (lo + hi) / 2;
      if End(xs[mid]) > offset {
        hi := mid;
      } else {
        lo := mid + 1;
      }
    }
    if lo >= |xs| || offset < xs[lo].pos {
      LookupNothing(xs, offset);
      return None;
    }
    LookupOf(xs, lo, offset);
    return Some(xs[lo]);
  }

  // --- one segment -----------------------------------------------------------------------

  /** Adding less than the rest of a block stays in the block. */
  lemma SameBlock(x: nat, k: nat, n: nat)
    requires n > 0 && x % n + k < n
    ensures (x + k) / n == x / n && (x + k) % n == x % n + k
  {
    var q, r := x / n, x % n;
    assert x + k == n * q + (r + k);
    DivModUnique(x + k, n, q, r + k);
  }

  lemma DivModUnique(x: nat, n: nat, q: nat, r: nat)
    requires n > 0 && x == n * q + r && r < n
    ensures x / n == q && x % n == r
  {
    var d := x / n - q;
    assert x == n * (x / n) + x % n;
    assert n * d == r - x % n;
  }

  /** `amount` bytes from `off` on, all inside one chunk, one extent and one block. */
  datatype Segment = Segment(off: nat, amount: nat, extent: Extent, key: Key, inBlock: nat)

  /** The segment lies in its chunk, its extent and its block, and its block is where its bytes are. */
  ghost predicate Fits(chunks: seq<seq<Extent>>, blockSize: nat, s: Segment) {
    var offset := s.off % CHUNK_SIZE;
    && s.amount > 0 && blockSize > 0
    && s.off / CHUNK_SIZE < |chunks| && s.extent in chunks[s.off / CHUNK_SIZE] && s.extent.id != 0
    && s.extent.pos <= offset && offset + s.amount <= End(s.extent) && offset + s.amount <= CHUNK_SIZE
    && BlockAt(s.extent.id, s.extent.size, s.extent.off + offset - s.extent.pos, blockSize) == Some(s.key)
    && s.inBlock == (s.extent.off + offset - s.extent.pos) % blockSize
    && s.inBlock + s.amount <= s.key.length <= blockSize
  }

  /** Further on in a block the block is still the same. */
  lemma StillInBlock(id: nat, size: nat, at: nat, k: nat, blockSize: nat)
    requires blockSize > 0 && at % blockSize + k < blockSize
    ensures BlockAt(id, size, at + k, blockSize) == BlockAt(id, size, at, blockSize)
    ensures (at + k) % blockSize == at % blockSize + k
  {
    SameBlock(at, k, blockSize);
  }

  lemma SegmentSource(chunks: seq<seq<Extent>>, blockSize: nat, s: Segment, k: nat)
    requires Fits(chunks, blockSize, s) && Resolved(chunks[s.off / CHUNK_SIZE]) && k < s.amount
    ensures (s.off + k) / CHUNK_SIZE == s.off / CHUNK_SIZE
    ensures var e := s.extent;
      Lookup(chunks[s.off / CHUNK_SIZE], (s.off + k) % CHUNK_SIZE) == Some(Byte(e.id, e.size, e.off + s.off % CHUNK_SIZE - e.pos + k))
  {
    var c, offset := s.off / CHUNK_SIZE, s.off % CHUNK_SIZE;
    var i :| 0 <= i < |chunks[c]| && chunks[c][i] == s.extent;
    LookupOf(chunks[c], i, offset + k);
  }

  /** The bytes of a fitting segment are the bytes of the file. */
  lemma SegmentBytes(chunks: seq<seq<Extent>>, blocks: Blocks, blockSize: nat, s: Segment, k: nat)
    requires Fits(chunks, blockSize, s) && Resolved(chunks[s.off / CHUNK_SIZE]) && k < s.amount
    ensures ByteAt(chunks, blocks, blockSize, s.off + k) ==
            if Readable(blocks, s.key) then Some(blocks(s.key).value[s.inBlock + k]) else None
  {
    SegmentSource(chunks, blockSize, s, k);
    StillInBlock(s.extent.id, s.extent.size, s.extent.off + s.off % CHUNK_SIZE - s.extent.pos, k, blockSize);
  }

  /** Inside a resolved extent the block always exists and always reaches the byte. */
  lemma BlockReaches(size: nat, at: nat, blockSize: nat)
    requires blockSize > 0 && at < size
    ensures BlockLength(size, at / blockSize, blockSize).Some?
    ensures at % blockSize < BlockLength(size, at / blockSize, blockSize).value <= blockSize
  {
    assert at == blockSize * (at / blockSize) + at % blockSize;
    assert at / blockSize * blockSize == blockSize * (at / blockSize);
  }

  /** The segments follow each other from 0 to `end` without gap or overlap, and each fits. */
  ghost predicate Tiles(chunks: seq<seq<Extent>>, blockSize: nat, segs: seq<Segment>, end: nat)
    decreases |segs|
  {
    if segs == [] then end == 0
    else
      var last := segs[|segs| - 1];
      last.off + last.amount == end && Fits(chunks, blockSize, last) && Tiles(chunks, blockSize, segs[..|segs| - 1], last.off)
  }

  lemma TilesStep(chunks: seq<seq<Extent>>, blockSize: nat, segs: seq<Segment>, s: Segment)
    requires Tiles(chunks, blockSize, segs, s.off) && Fits(chunks, blockSize, s)
    ensures Tiles(chunks, blockSize, segs + [s], s.off + s.amount)
  {
    assert (segs + [s])[..|segs|] == segs;
  }

  /** Every offset of a tiled file lies in exactly one of its segments. */
  lemma {:induction false} TilesCover(chunks: seq<seq<Extent>>, blockSize: nat, segs: seq<Segment>, end: nat, off: nat)
    requires Tiles(chunks, blockSize, segs, end) && off < end
    ensures exists i :: 0 <= i < |segs| && segs[i].off <= off < segs[i].off + segs[i].amount
    ensures forall i, j :: 0 <= i < j < |segs| ==> segs[i].off + segs[i].amount <= segs[j].off
    decreases |segs|
  {
    var init, last := segs[..|segs| - 1], segs[|segs| - 1];
    TilesOrdered(chunks, blockSize, segs, end);
    if off < last.off {
      TilesCover(chunks, blockSize, init, last.off, off);
      var i :| 0 <= i < |init| && init[i].off <= off < init[i].off + init[i].amount;
      assert segs[i] == init[i];
    }
  }

  lemma {:induction false} TilesOrdered(chunks: seq<seq<Extent>>, blockSize: nat, segs: seq<Segment>, end: nat)
    requires Tiles(chunks, blockSize, segs, end)
    ensures forall i :: 0 <= i < |segs| ==> segs[i].off + segs[i].amount <= end
    ensures forall i, j :: 0 <= i < j < |segs| ==> segs[i].off + segs[i].amount <= segs[j].off
    decreases |segs|
  {
    if segs != [] {
      var init, last := segs[..|segs| - 1], segs[|segs| - 1];
      TilesOrdered(chunks, blockSize, init, last.off);
      assert forall i :: 0 <= i < |init| ==> segs[i] == init[i];
    }
  }

  /** A list of chunks that a file of `size` bytes can be read from. */
  ghost predicate CompleteMap(chunks: seq<seq<Extent>>, size: nat) {
    |chunks| == ChunkCount(size) && forall i :: 0 <= i < |chunks| ==> Resolved(chunks[i])
  }

  lemma ChunkExists(size: nat, off: nat)
    requires off < size
    ensures off / CHUNK_SIZE < ChunkCount(size)
  {
  }

  lemma NoSource(chunks: seq<seq<Extent>>, blocks: Blocks, blockSize: nat, off: nat)
    requires off / CHUNK_SIZE < |chunks| && blockSize > 0
    requires Lookup(chunks[off / CHUNK_SIZE], off % CHUNK_SIZE) in {None, Some(Zero)}
    ensures ByteAt(chunks, blocks, blockSize, off).None?
  {
  }

  /** `bytes` are the first bytes of the file. */
  ghost predicate Shows(chunks: seq<seq<Extent>>, blocks: Blocks, blockSize: nat, bytes: seq<Octet>)
    requires blockSize > 0
  {
    forall off :: 0 <= off < |bytes| ==> ByteAt(chunks, blocks, blockSize, off) == Some(bytes[off])
  }

  /** Hashing a readable segment extends the bytes shown so far. */
  lemma SegmentExtends(chunks: seq<seq<Extent>>, blocks: Blocks, blockSize: nat, bytes: seq<Octet>, s: Segment)
    requires Fits(chunks, blockSize, s) && Resolved(chunks[s.off / CHUNK_SIZE]) && Readable(blocks, s.key)
    requires s.off == |bytes| && Shows(chunks, blocks, blockSize, bytes)
    ensures Shows(chunks, blocks, blockSize, bytes + blocks(s.key).value[s.inBlock..s.inBlock + s.amount])
  {
    var more := blocks(s.key).value[s.inBlock..s.inBlock + s.amount];
    forall off | 0 <= off < |bytes + more| ensures ByteAt(chunks, blocks, blockSize, off) == Some((bytes + more)[off]) {
      if off >= |bytes| {
        SegmentBytes(chunks, blocks, blockSize, s, off - |bytes|);
      }
    }
  }

  /** The longest segment at `off`: up to the end of the file, the extent, the block and the chunk. */
  function Longest(size: nat, off: nat, e: Extent, key: Key, inBlock: nat): Segment
    requires off < size && Covers(e, off % CHUNK_SIZE) && inBlock < key.length
  {
    var offset := off % CHUNK_SIZE;
    var amount := Min(Min(size - off, End(e) - offset), Min(key.length - inBlock, CHUNK_SIZE - offset));
    Segment(off, amount, e, key, inBlock)
  }

  lemma LongestFits(chunks: seq<seq<Extent>>, size: nat, blockSize: nat, off: nat, e: Extent, key: Key, inBlock: nat)
    requires off < size && blockSize > 0 && e.id != 0 && Covers(e, off % CHUNK_SIZE)
    requires off / CHUNK_SIZE < |chunks| && e in chunks[off / CHUNK_SIZE]
    requires BlockAt(e.id, e.size, e.off + off % CHUNK_SIZE - e.pos, blockSize) == Some(key)
    requires inBlock == (e.off + off % CHUNK_SIZE - e.pos) % blockSize && inBlock < key.length <= blockSize
    ensures Fits(chunks, blockSize, Longest(size, off, e, key, inBlock))
    ensures off + Longest(size, off, e, key, inBlock).amount <= size
  {
  }

  /** The segment the loop reads at `off`, or nothing where the byte is not backed by a slice. */
  method SegmentAt(chunks: seq<seq<Extent>>, size: nat, blockSize: nat, off: nat, ghost blocks: Blocks)
    returns (s: Option<Segment>)
    requires CompleteMap(chunks, size) && off < size && blockSize > 0
    ensures s.Some? ==> s.value.off == off && off + s.value.amount <= size && Fits(chunks, blockSize, s.value)
    ensures s.None? ==> ByteAt(chunks, blocks, blockSize, off).None?
  {
    ChunkExists(size, off);
    var found := SliceAt(chunks[off / CHUNK_SIZE], off % CHUNK_SIZE);
    if found.None? || found.value.id == 0 {
      NoSource(chunks, blocks, blockSize, off);
      return None;
    }
    var e := found.value;
    var at := e.off + off % CHUNK_SIZE - e.pos;
    BlockReaches(e.size, at, blockSize);
    var key := BlockAt(e.id, e.size, at, blockSize).value;
    LongestFits(chunks, size, blockSize, off, e, key, at % blockSize);
    return Some(Longest(size, off, e, key, at % blockSize));
  }
}
