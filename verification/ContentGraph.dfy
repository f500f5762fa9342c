/** Exporting the observed chunk mappings of a file, complete or not at all. */
module ContentGraph {
  import opened Common
  import opened SliceGraph
  import opened CanonicalGraph
  import opened GraphCodec
  import RI = ResidentImage

  type i64 = x: int | -0x8000_0000_0000_0000 <= x < 0x8000_0000_0000_0000

  /** The attributes a mapping was observed with. */
  datatype Attr = Attr(valid: bool, size: i64, stamp: Name)

  /** What the reader remembers of one file, if it is usable at all: the mapping of each chunk and the attributes seen with it. */
  datatype Known = Known(usable: bool, attr: Option<Attr>, slices: map<nat, seq<Extent>>, attrs: map<nat, Attr>)

  datatype Export = Exported(chunks: seq<seq<Extent>>, canonical: seq<Octet>) | Miss | Malformed | TooLarge

  predicate Observed(k: Known, expected: Attr, i: nat) {
    i in k.slices && i in k.attrs && k.attrs[i] == expected
  }

  /** The reader is usable, and the expected attributes are valid and not contradicted. */
  predicate Expects(k: Known, expected: Attr) {
    k.usable && expected.valid && expected.size >= 0 && (k.attr.Some? ==> k.attr.value == expected)
  }

  /** The mappings of the first `n` chunks, all of them observed. */
  function SlicesOf(k: Known, expected: Attr, n: nat): seq<seq<Extent>>
    requires forall j :: 0 <= j < n ==> Observed(k, expected, j)
  {
    seq(n, j requires 0 <= j < n => assert Observed(k, expected, j); k.slices[j])
  }

  function ExtentCount(chunks: seq<seq<Extent>>): nat {
    if chunks == [] then 0 else ExtentCount(chunks[..|chunks| - 1]) + |chunks[|chunks| - 1]|
  }

  ghost predicate AllObserved(k: Known, expected: Attr, n: nat) {
    forall j :: 0 <= j < n ==> Observed(k, expected, j)
  }

  /** The first `n` chunks were observed and have too many extents together. */
  ghost predicate TooManyExtents(k: Known, expected: Attr, n: nat) {
    AllObserved(k, expected, n) && ExtentCount(SlicesOf(k, expected, n)) > MAX_GRAPH_BYTES / 21
  }

  /** The export is over one of its limits: too many chunks, too many extents, or an encoding limit. */
  ghost predicate ExportTooLarge(k: Known, expected: Attr)
    requires expected.size >= 0
  {
    var count := ChunkCount(expected.size);
    || count > (MAX_GRAPH_BYTES - 20) / 13
    || (exists n :: 0 <= n <= count && TooManyExtents(k, expected, n))
    || (AllObserved(k, expected, count) && BreaksLimit(SlicesOf(k, expected, count), expected.size))
  }

  // --- from segments to runs ---------------------------------------------------------------

  function AllTokens(graph: seq<seq<Segment>>): seq<seq<Token>> {
    seq(|graph|, i requires 0 <= i < |graph| => Tokens(graph[i]))
  }

  /** Every chunk is resolved and has its canonical form in `graph`. */
  ghost predicate AllDescribed(chunks: seq<seq<Extent>>, size: nat, graph: seq<seq<Segment>>) {
    && |chunks| == ChunkCount(size) && |graph| == |chunks|
    && forall i :: 0 <= i < |chunks| ==> Resolved(chunks[i]) && Describes(chunks[i], Covered(size, i), graph[i])
  }

  /** A source that fits its slice and its fields. */
  predicate Sound(s: Source) {
    s.Byte? ==> 0 < s.id < WORD * WORD && s.off < s.size < WORD
  }

  lemma {:induction false} LookupIsSound(xs: seq<Extent>, p: nat)
    requires forall i :: 0 <= i < |xs| ==> InBounds(xs[i])
    ensures Lookup(xs, p).Some? ==> Sound(Lookup(xs, p).value)
    decreases |xs|
  {
    if xs != [] { LookupIsSound(xs[..|xs| - 1], p); }
  }

  lemma FirstTokenValid(segs: seq<Segment>)
    requires segs != [] && segs[0].length > 0 && Total(segs) <= CHUNK_SIZE
    requires forall p :: 0 <= p < Total(segs) ==> Sound(At(segs, p))
    ensures ValidToken(TokenOf(segs[0]))
  {
    Ranges();
    assert Sound(At(segs, 0)) && Sound(At(segs, segs[0].length - 1));
  }

  lemma {:induction false} SegmentsAreRuns(prior: Option<Token>, segs: seq<Segment>)
    requires Maximal(segs) && Total(segs) <= CHUNK_SIZE
    requires prior.Some? && segs != [] ==> !Joins(prior.value, TokenOf(segs[0]))
    requires forall p :: 0 <= p < Total(segs) ==> Sound(At(segs, p))
    ensures Runs(prior, Tokens(segs), Total(segs))
    decreases |segs|
  {
    if segs != [] {
      var t, rest := TokenOf(segs[0]), segs[1..];
      FirstTokenValid(segs);
      forall p | 0 <= p < Total(rest) ensures Sound(At(rest, p)) {
        assert At(segs, p + segs[0].length) == At(rest, p);
      }
      if rest != [] {
        assert rest[0] == segs[1] && !Continues(segs[0], segs[1]);
      }
      SegmentsAreRuns(Some(t), rest);
      assert Tokens(segs)[0] == t && Tokens(segs)[1..] == Tokens(rest);
    }
  }

  lemma DescribedRuns(xs: seq<Extent>, covered: nat, segs: seq<Segment>)
    requires Resolved(xs) && covered <= CHUNK_SIZE && Describes(xs, covered, segs)
    ensures Runs(None, Tokens(segs), covered)
  {
    forall p | 0 <= p < Total(segs) ensures Sound(At(segs, p)) {
      LookupIsSound(xs, p);
    }
    SegmentsAreRuns(None, segs);
  }

  // --- encoding chunk by chunk ---------------------------------------------------------------

  function Slots(tss: seq<seq<Token>>): nat {
    if tss == [] then 0 else |tss[0]| + Slots(tss[1..])
  }

  lemma {:induction false} SlotsSnoc(tss: seq<seq<Token>>, ts: seq<Token>)
    ensures Slots(tss + [ts]) == Slots(tss) + |ts|
    decreases |tss|
  {
    if tss == [] {
      assert tss + [ts] == [ts] && [ts][1..] == [];
    } else {
      assert (tss + [ts])[0] == tss[0] && (tss + [ts])[1..] == tss[1..] + [ts];
      SlotsSnoc(tss[1..], ts);
    }
  }

  lemma {:induction false} EncodeSnoc(enc: ChunkEncoder, i: nat, tss: seq<seq<Token>>, ts: seq<Token>)
    ensures EncodeChunks(enc, i, tss + [ts]) == EncodeChunks(enc, i, tss) + enc(i + |tss|, ts)
    decreases |tss|
  {
    if tss == [] {
      assert tss + [ts] == [ts] && [ts][1..] == [];
      assert enc(i, ts) + [] == [] + enc(i, ts);
    } else {
      assert (tss + [ts])[0] == tss[0] && (tss + [ts])[1..] == tss[1..] + [ts];
      EncodeSnoc(enc, i + 1, tss[1..], ts);
      Assoc(enc(i, tss[0]), EncodeChunks(enc, i + 1, tss[1..]), enc(i + |tss|, ts));
    }
  }

  lemma {:induction false} AllRunsValid(i: nat, tss: seq<seq<Token>>, size: nat, slots: nat)
    requires i + |tss| == ChunkCount(size) && i <= slots && slots + Slots(tss) <= MAX_DECODED_SLOTS
    requires ChunkCount(size) <= slots
    requires forall k :: 0 <= k < |tss| ==> Runs(None, tss[k], Covered(size, i + k))
    ensures ValidChunks(i, tss, size, slots)
    decreases |tss|
  {
    if tss != [] {
      assert Runs(None, tss[0], Covered(size, i + 0));
      forall k | 0 <= k < |tss[1..]| ensures Runs(None, tss[1..][k], Covered(size, i + 1 + k)) {
        assert tss[1..][k] == tss[k + 1] && i + (k + 1) == i + 1 + k;
      }
      AllRunsValid(i + 1, tss[1..], size, slots + |tss[0]|);
    }
  }

  /** The bytes of an encoded chunk: its header, and five bytes for a run of zeroes or twenty-one for a run of data. */
  function EncodedSize(segs: seq<Segment>): nat {
    if segs == [] then 8 else (if segs[0].id == 0 then 5 else 21) + EncodedSize(segs[1..])
  }

  lemma {:induction false} EncodedSizeIsSize(i: nat, segs: seq<Segment>)
    ensures |EncodeChunk(i, Tokens(segs))| == EncodedSize(segs)
    decreases |segs|
  {
    if segs != [] {
      assert Tokens(segs)[0] == TokenOf(segs[0]) && Tokens(segs)[1..] == Tokens(segs[1..]);
      EncodedSizeIsSize(i, segs[1..]);
    }
  }

  /** The first `|graph|` chunks are described by `graph`. */
  ghost predicate DescribedUpTo(chunks: seq<seq<Extent>>, size: nat, graph: seq<seq<Segment>>) {
    && |chunks| == ChunkCount(size) && |graph| <= |chunks|
    && forall j :: 0 <= j < |graph| ==> Resolved(chunks[j]) && Describes(chunks[j], Covered(size, j), graph[j])
  }

  lemma DescribedStep(chunks: seq<seq<Extent>>, size: nat, graph: seq<seq<Segment>>, segs: seq<Segment>)
    requires DescribedUpTo(chunks, size, graph) && |graph| < |chunks|
    requires Resolved(chunks[|graph|]) && Describes(chunks[|graph|], Covered(size, |graph|), segs)
    ensures DescribedUpTo(chunks, size, graph + [segs]) && AllTokens(graph + [segs]) == AllTokens(graph) + [Tokens(segs)]
  {
  }

  /** `buf` holds the header and the chunks `tss`, which take `total` slots. */
  ghost predicate Written(size: nat, count: nat, tss: seq<seq<Token>>, total: nat, buf: seq<Octet>) {
    && total == Slots(tss) && |buf| <= MAX_GRAPH_BYTES
    && buf == Header(size, count) + EncodeChunks(EncodeChunk, 0, tss)
  }

  lemma WrittenStep(size: nat, count: nat, tss: seq<seq<Token>>, total: nat, buf: seq<Octet>, ts: seq<Token>)
    requires Written(size, count, tss, total, buf) && |buf| + |EncodeChunk(|tss|, ts)| <= MAX_GRAPH_BYTES
    ensures Written(size, count, tss + [ts], total + |ts|, buf + EncodeChunk(|tss|, ts))
  {
    SlotsSnoc(tss, ts);
    EncodeSnoc(EncodeChunk, 0, tss, ts);
    Assoc(Header(size, count), EncodeChunks(EncodeChunk, 0, tss), EncodeChunk(|tss|, ts));
  }

  /** The chunk with segments `segs` is described and written. */
  lemma ChunkWritten(chunks: seq<seq<Extent>>, size: nat, graph: seq<seq<Segment>>, tss: seq<seq<Token>>, total: nat, buf: seq<Octet>, segs: seq<Segment>)
    requires DescribedUpTo(chunks, size, graph) && |graph| < |chunks| && tss == AllTokens(graph) && Written(size, |chunks|, tss, total, buf)
    requires Resolved(chunks[|graph|]) && Describes(chunks[|graph|], Covered(size, |graph|), segs)
    requires |buf| + EncodedSize(segs) <= MAX_GRAPH_BYTES
    ensures DescribedUpTo(chunks, size, graph + [segs]) && tss + [Tokens(segs)] == AllTokens(graph + [segs])
    ensures Written(size, |chunks|, tss + [Tokens(segs)], total + |segs|, buf + EncodeChunk(|graph|, Tokens(segs)))
  {
    DescribedStep(chunks, size, graph, segs);
    EncodedSizeIsSize(|graph|, segs);
    WrittenStep(size, |chunks|, tss, total, buf, Tokens(segs));
  }

  lemma WrittenIsValid(chunks: seq<seq<Extent>>, size: nat, graph: seq<seq<Segment>>, tss: seq<seq<Token>>, total: nat, buf: seq<Octet>)
    requires DescribedUpTo(chunks, size, graph) && |graph| == |chunks| && tss == AllTokens(graph) && size < Range(8)
    requires Written(size, |chunks|, tss, total, buf) && |chunks| + total <= MAX_DECODED_SLOTS
    ensures AllDescribed(chunks, size, graph) && buf == Encode(size, tss) && ValidGraph(size, tss)
  {
    forall k | 0 <= k < |tss| ensures Runs(None, tss[k], Covered(size, 0 + k)) {
      DescribedRuns(chunks[k], Covered(size, k), graph[k]);
    }
    AllRunsValid(0, tss, size, |tss|);
  }

  // --- the limits ------------------------------------------------------------------------------

  /** `tss` takes more slots or more bytes than an encoding may. */
  ghost predicate TooBig(size: nat, count: nat, tss: seq<seq<Token>>) {
    count + Slots(tss) > MAX_DECODED_SLOTS || |Header(size, count) + EncodeChunks(EncodeChunk, 0, tss)| > MAX_GRAPH_BYTES
  }

  /** Too many chunks, a chunk of too many extents, or first chunks whose canonical form is too big. */
  ghost predicate BreaksLimit(chunks: seq<seq<Extent>>, size: nat) {
    || |chunks| > (MAX_GRAPH_BYTES - 20) / 13 || |chunks| > MAX_DECODED_SLOTS / 2
    || (exists i :: 0 <= i < |chunks| && |chunks[i]| > MAX_GRAPH_BYTES / 21)
    || (exists graph :: DescribedUpTo(chunks, size, graph) && TooBig(size, |chunks|, AllTokens(graph)))
  }

  /** Descriptions of the same chunks are the same. */
  lemma DescriptionIsUnique(chunks: seq<seq<Extent>>, size: nat, g: seq<seq<Segment>>, h: seq<seq<Segment>>)
    requires AllDescribed(chunks, size, g) && DescribedUpTo(chunks, size, h)
    ensures AllTokens(h) == AllTokens(g)[..|h|]
  {
    forall i | 0 <= i < |h| ensures AllTokens(h)[i] == AllTokens(g)[i] {
      CanonicalIffSameBytes(chunks[i], chunks[i], Covered(size, i), g[i], h[i]);
    }
  }

  lemma {:induction false} PrefixIsSmaller(tss: seq<seq<Token>>, k: nat)
    requires k <= |tss|
    ensures Slots(tss[..k]) <= Slots(tss) && |EncodeChunks(EncodeChunk, 0, tss[..k])| <= |EncodeChunks(EncodeChunk, 0, tss)|
    decreases |tss|
  {
    if k == |tss| {
      assert tss[..k] == tss;
    } else {
      var init, last := tss[..|tss| - 1], tss[|tss| - 1];
      assert tss == init + [last] && init[..k] == tss[..k];
      SlotsSnoc(init, last);
      EncodeSnoc(EncodeChunk, 0, init, last);
      PrefixIsSmaller(init, k);
    }
  }

  lemma SmallStaysSmall(chunks: seq<seq<Extent>>, size: nat, g: seq<seq<Segment>>, h: seq<seq<Segment>>)
    requires AllDescribed(chunks, size, g) && DescribedUpTo(chunks, size, h) && !TooBig(size, |chunks|, AllTokens(g))
    ensures !TooBig(size, |chunks|, AllTokens(h))
  {
    DescriptionIsUnique(chunks, size, g, h);
    PrefixIsSmaller(AllTokens(g), |h|);
  }

  lemma NoLimitBroken(chunks: seq<seq<Extent>>, size: nat, g: seq<seq<Segment>>)
    requires AllDescribed(chunks, size, g) && !TooBig(size, |chunks|, AllTokens(g))
    requires |chunks| <= (MAX_GRAPH_BYTES - 20) / 13 && |chunks| <= MAX_DECODED_SLOTS / 2
    requires forall i :: 0 <= i < |chunks| ==> |chunks[i]| <= MAX_GRAPH_BYTES / 21
    ensures !BreaksLimit(chunks, size)
  {
    forall h | DescribedUpTo(chunks, size, h) ensures !TooBig(size, |chunks|, AllTokens(h)) {
      SmallStaysSmall(chunks, size, g, h);
    }
  }

  lemma LongChunk(chunks: seq<seq<Extent>>, size: nat, i: nat)
    requires i < |chunks| && |chunks[i]| > MAX_GRAPH_BYTES / 21
    ensures BreaksLimit(chunks, size)
  {
  }

  /** The chunk that would take an encoding over a limit breaks it. */
  lemma OneTooMany(chunks: seq<seq<Extent>>, size: nat, graph: seq<seq<Segment>>, total: nat, buf: seq<Octet>, segs: seq<Segment>)
    requires DescribedUpTo(chunks, size, graph) && |graph| < |chunks| && Written(size, |chunks|, AllTokens(graph), total, buf)
    requires Resolved(chunks[|graph|]) && Describes(chunks[|graph|], Covered(size, |graph|), segs)
    requires |chunks| + total + |segs| > MAX_DECODED_SLOTS || |buf| + EncodedSize(segs) > MAX_GRAPH_BYTES
    ensures BreaksLimit(chunks, size)
  {
    DescribedStep(chunks, size, graph, segs);
    OneTooManyTokens(size, |chunks|, AllTokens(graph), total, buf, segs);
  }

  lemma OneTooManyTokens(size: nat, count: nat, tss: seq<seq<Token>>, total: nat, buf: seq<Octet>, segs: seq<Segment>)
    requires Written(size, count, tss, total, buf)
    requires count + total + |segs| > MAX_DECODED_SLOTS || |buf| + EncodedSize(segs) > MAX_GRAPH_BYTES
    ensures TooBig(size, count, tss + [Tokens(segs)])
  {
    SlotsSnoc(tss, Tokens(segs));
    EncodeSnoc(EncodeChunk, 0, tss, Tokens(segs));
    EncodedSizeIsSize(|tss|, segs);
  }

  /** The chunks before the `|graph|`-th are described, written and within the limits. */
  ghost predicate Ongoing(chunks: seq<seq<Extent>>, size: nat, graph: seq<seq<Segment>>, total: nat, buf: seq<Octet>) {
    && |graph| <= |chunks| && |chunks| + total <= MAX_DECODED_SLOTS
    && DescribedUpTo(chunks, size, graph) && Written(size, |chunks|, AllTokens(graph), total, buf)
    && forall j :: 0 <= j < |graph| ==> |chunks[j]| <= MAX_GRAPH_BYTES / 21
  }

  lemma OngoingStart(chunks: seq<seq<Extent>>, size: nat)
    requires |chunks| == ChunkCount(size) && |chunks| <= (MAX_GRAPH_BYTES - 20) / 13 && |chunks| <= MAX_DECODED_SLOTS / 2
    ensures Ongoing(chunks, size, [], 0, Header(size, |chunks|))
  {
    assert AllTokens([]) == [];
    assert Header(size, |chunks|) + [] == Header(size, |chunks|);
  }

  lemma {:induction false} OngoingStep(chunks: seq<seq<Extent>>, size: nat, graph: seq<seq<Segment>>, total: nat, buf: seq<Octet>, segs: seq<Segment>)
    requires Ongoing(chunks, size, graph, total, buf) && |graph| < |chunks| && |chunks[|graph|]| <= MAX_GRAPH_BYTES / 21
    requires Resolved(chunks[|graph|]) && Describes(chunks[|graph|], Covered(size, |graph|), segs)
    requires |chunks| + total + |segs| <= MAX_DECODED_SLOTS && |buf| + EncodedSize(segs) <= MAX_GRAPH_BYTES
    ensures Ongoing(chunks, size, graph + [segs], total + |segs|, buf + EncodeChunk(|graph|, Tokens(segs)))
  {
    ChunkWritten(chunks, size, graph, AllTokens(graph), total, buf, segs);
    forall j | 0 <= j < |graph + [segs]| ensures |chunks[j]| <= MAX_GRAPH_BYTES / 21 {
      assert j < |graph| || j == |graph|;
    }
  }

  lemma OngoingEnd(chunks: seq<seq<Extent>>, size: nat, graph: seq<seq<Segment>>, total: nat, buf: seq<Octet>)
    requires Ongoing(chunks, size, graph, total, buf) && |graph| == |chunks| == ChunkCount(size) && size < Range(8)
    requires |chunks| <= (MAX_GRAPH_BYTES - 20) / 13 && |chunks| <= MAX_DECODED_SLOTS / 2
    ensures AllDescribed(chunks, size, graph) && buf == Encode(size, AllTokens(graph)) && ValidGraph(size, AllTokens(graph))
    ensures !BreaksLimit(chunks, size)
  {
    WrittenIsValid(chunks, size, graph, AllTokens(graph), total, buf);
    NoLimitBroken(chunks, size, graph);
  }

  /**
   The canonical encoding of every chunk, exactly when every chunk is resolved
   and no limit is broken; `small` tells a refused chunk from a broken limit.
   */
  method Canonical(chunks: seq<seq<Extent>>, size: nat) returns (r: Option<seq<Octet>>, small: bool, ghost graph: seq<seq<Segment>>)
    requires |chunks| == ChunkCount(size) && size < Range(8)
    ensures r.Some? ==> AllDescribed(chunks, size, graph) && r.value == Encode(size, AllTokens(graph)) && ValidGraph(size, AllTokens(graph))
    ensures r.Some? ==> !BreaksLimit(chunks, size)
    ensures r.None? && small ==> exists i :: 0 <= i < |chunks| && !Resolved(chunks[i])
    ensures r.None? && !small ==> BreaksLimit(chunks, size)
  {
    var count := |chunks|;
    graph := [];
    if count > (MAX_GRAPH_BYTES - 20) / 13 || count > MAX_DECODED_SLOTS / 2 {
      return None, false, graph;
    }
    var buf: seq<Octet>, total: nat := Header(size, count), 0;
    OngoingStart(chunks, size);
    for i := 0 to count
      invariant |graph| == i && Ongoing(chunks, size, graph, total, buf)
    {
      if |chunks[i]| > MAX_GRAPH_BYTES / 21 {
        LongChunk(chunks, size, i);
        return None, false, graph;
      }
      var segs := ChunkSegments(chunks[i], Covered(size, i));
      if segs.None? {
        return None, true, graph;
      }
      if |segs.value| > MAX_GRAPH_BYTES / 9 || count + total + |segs.value| > MAX_DECODED_SLOTS {
        OneTooMany(chunks, size, graph, total, buf, segs.value);
        return None, false, graph;
      }
      if |buf| + EncodedSize(segs.value) > MAX_GRAPH_BYTES {
        OneTooMany(chunks, size, graph, total, buf, segs.value);
        return None, false, graph;
      }
      OngoingStep(chunks, size, graph, total, buf, segs.value);
      total := total + |segs.value|;
      buf := buf + EncodeChunk(i, Tokens(segs.value));
      graph := graph + [segs.value];
    }
    OngoingEnd(chunks, size, graph, total, buf);
    return Some(buf), true, graph;
  }

  /** `bytes` is the canonical encoding of what `chunks` show. */
  ghost predicate Encodes(chunks: seq<seq<Extent>>, size: nat, bytes: seq<Octet>) {
    exists graph :: AllDescribed(chunks, size, graph) && bytes == Encode(size, AllTokens(graph)) && ValidGraph(size, AllTokens(graph))
  }

  /** Copies the mappings of the first `count` chunks, unless one is unknown or they have too many extents. */
  method Collect(k: Known, expected: Attr, count: nat) returns (known: bool, chunks: seq<seq<Extent>>)
    ensures !known ==> exists i :: 0 <= i < count && !Observed(k, expected, i)
    ensures known ==> |chunks| <= count && AllObserved(k, expected, |chunks|) && chunks == SlicesOf(k, expected, |chunks|)
    ensures known && |chunks| < count ==> exists n :: 0 <= n <= count && TooManyExtents(k, expected, n)
  {
    chunks := [];
    var total := 0;
    while |chunks| < count
      invariant |chunks| <= count && AllObserved(k, expected, |chunks|)
      invariant chunks == SlicesOf(k, expected, |chunks|) && total == ExtentCount(chunks)
    {
      var i := |chunks|;
      if i !in k.slices || i !in k.attrs || k.attrs[i] != expected {
        assert !Observed(k, expected, i);
        return false, chunks;
      }
      total := total + |k.slices[i]|;
      ghost var more := chunks + [k.slices[i]];
      assert more == SlicesOf(k, expected, i + 1) && more[..i] == chunks;
      if total > MAX_GRAPH_BYTES / 21 {
        assert TooManyExtents(k, expected, i + 1);
        return true, chunks;
      }
      chunks := chunks + [k.slices[i]];
    }
    known := true;
  }

  /**
   An export is the complete list of chunks of a file of the expected length,
   each as observed and each resolved, with its canonical encoding; a chunk that
   was not observed, or was observed with other attributes, refuses the whole.
   `still` says whether the mapping's generation and attributes still stand in
   the end.
   */
  method ExportContentGraph(k: Known, expected: Attr, still: bool) returns (r: Export)
    ensures r.Exported? ==> still && Expects(k, expected) && RI.CompleteMap(r.chunks, expected.size) && Encodes(r.chunks, expected.size, r.canonical)
    ensures r.Exported? ==> forall i :: 0 <= i < |r.chunks| ==> Observed(k, expected, i) && r.chunks[i] == k.slices[i]
    ensures r.Miss? ==> !still || !Expects(k, expected) || exists i :: 0 <= i < ChunkCount(expected.size) && !Observed(k, expected, i)
    ensures r.Malformed? ==> Expects(k, expected) && exists i :: 0 <= i < ChunkCount(expected.size) && Observed(k, expected, i) && !Resolved(k.slices[i])
    ensures r.TooLarge? ==> expected.size >= 0 && ExportTooLarge(k, expected)
  {
    if !k.usable || !expected.valid || expected.size < 0 {
      return Miss;
    }
    var count := ChunkCount(expected.size);
    if count > (MAX_GRAPH_BYTES - 20) / 13 {
      return TooLarge;
    }
    if k.attr.Some? && k.attr.value != expected {
      return Miss;
    }
    var known, chunks := Collect(k, expected, count);
    if !known {
      return Miss;
    }
    if |chunks| < count {
      return TooLarge;
    }
    Ranges();
    ghost var graph;
    var canonical, small;
    canonical, small, graph := Canonical(chunks, expected.size);
    if canonical.None? {
      if small {
        return Malformed;
      }
      return TooLarge;
    }
    if !still {
      return Miss;
    }
    return Exported(chunks, canonical.value);
  }

  // --- what the encoding of a whole file is worth -------------------------------------------

  function ShownAt(chunks: seq<seq<Extent>>, off: nat): Source
    requires off / CHUNK_SIZE < |chunks|
  {
    Shown(chunks[off / CHUNK_SIZE], off % CHUNK_SIZE)
  }

  lemma Position(size: nat, i: nat, p: nat)
    requires i < ChunkCount(size) && p < Covered(size, i)
    ensures i * CHUNK_SIZE + p < size && (i * CHUNK_SIZE + p) / CHUNK_SIZE == i && (i * CHUNK_SIZE + p) % CHUNK_SIZE == p
  {
  }

  lemma Place(size: nat, off: nat)
    requires off < size
    ensures off / CHUNK_SIZE < ChunkCount(size) && off % CHUNK_SIZE < Covered(size, off / CHUNK_SIZE)
  {
  }

  ghost predicate SameBytes(a: seq<seq<Extent>>, b: seq<seq<Extent>>, size: nat)
    requires |a| == |b| == ChunkCount(size)
  {
    forall off :: 0 <= off < size ==> (Place(size, off); ShownAt(a, off) == ShownAt(b, off))
  }

  lemma TokensIffSameBytes(a: seq<seq<Extent>>, b: seq<seq<Extent>>, size: nat, g: seq<seq<Segment>>, h: seq<seq<Segment>>)
    requires AllDescribed(a, size, g) && AllDescribed(b, size, h)
    ensures AllTokens(g) == AllTokens(h) <==> SameBytes(a, b, size)
  {
    if SameBytes(a, b, size) {
      forall i | 0 <= i < |g| ensures AllTokens(g)[i] == AllTokens(h)[i] {
        forall p | 0 <= p < Covered(size, i) ensures Shown(a[i], p) == Shown(b[i], p) {
          Position(size, i, p);
          assert ShownAt(a, i * CHUNK_SIZE + p) == ShownAt(b, i * CHUNK_SIZE + p);
        }
        CanonicalIffSameBytes(a[i], b[i], Covered(size, i), g[i], h[i]);
      }
    }
    if AllTokens(g) == AllTokens(h) {
      forall off | 0 <= off < size ensures off / CHUNK_SIZE < |a| && ShownAt(a, off) == ShownAt(b, off) {
        Place(size, off);
        var i := off / CHUNK_SIZE;
        assert AllTokens(g)[i] == AllTokens(h)[i];
        CanonicalIffSameBytes(a[i], b[i], Covered(size, i), g[i], h[i]);
      }
    }
  }

  /** Two mappings of a file have the same canonical bytes exactly when they show the same bytes at every offset. */
  lemma EncodingIffSameBytes(a: seq<seq<Extent>>, b: seq<seq<Extent>>, size: nat, x: seq<Octet>, y: seq<Octet>)
    requires Encodes(a, size, x) && Encodes(b, size, y)
    ensures |a| == |b| == ChunkCount(size)
    ensures x == y <==> SameBytes(a, b, size)
  {
    var g :| AllDescribed(a, size, g) && x == Encode(size, AllTokens(g)) && ValidGraph(size, AllTokens(g));
    var h :| AllDescribed(b, size, h) && y == Encode(size, AllTokens(h)) && ValidGraph(size, AllTokens(h));
    TokensIffSameBytes(a, b, size, g, h);
    DecodeInvertsEncode(x, size, AllTokens(g));
    DecodeInvertsEncode(y, size, AllTokens(h));
  }

  // --- the decoded graph ----------------------------------------------------------------------

  function RunByte(t: Token, k: nat): Source {
    if t.ZeroRun? then Zero else Byte(t.id, t.size, t.off + k)
  }

  /** Where the byte at `k` comes from, read off the runs. */
  function TokenByte(ts: seq<Token>, k: nat): Source {
    if ts == [] then Zero
    else if k < ts[0].length then RunByte(ts[0], k)
    else TokenByte(ts[1..], k - ts[0].length)
  }

  /** The extent of one decoded run at position `pos`. */
  ghost function ExtentOf(t: Token, pos: nat): Extent
    requires ValidToken(t) && pos + t.length <= CHUNK_SIZE
  {
    Ranges();
    if t.ZeroRun? then Extent(pos, 0, 0, 0, t.length) else Extent(pos, t.id, t.size, t.off, t.length)
  }

  /** The extents a decoded chunk is given, from position `pos` on. */
  ghost function Extents(prior: Option<Token>, ts: seq<Token>, left: nat, pos: nat): seq<Extent>
    requires Runs(prior, ts, left) && pos + left <= CHUNK_SIZE
    decreases |ts|
  {
    if ts == [] then []
    else [ExtentOf(ts[0], pos)] + Extents(Some(ts[0]), ts[1..], left - ts[0].length, pos + ts[0].length)
  }

  lemma {:induction false} ExtentsFit(prior: Option<Token>, ts: seq<Token>, left: nat, pos: nat)
    requires Runs(prior, ts, left) && pos + left <= CHUNK_SIZE
    ensures Resolved(Extents(prior, ts, left, pos))
    ensures forall i :: 0 <= i < |Extents(prior, ts, left, pos)| ==> pos <= Extents(prior, ts, left, pos)[i].pos
    decreases |ts|
  {
    if ts != [] { ExtentsFit(Some(ts[0]), ts[1..], left - ts[0].length, pos + ts[0].length); }
  }

  lemma ExtentShows(t: Token, pos: nat, k: nat)
    requires ValidToken(t) && pos + t.length <= CHUNK_SIZE
    ensures Covers(ExtentOf(t, pos), pos + k) <==> k < t.length
    ensures k < t.length ==> SourceOf(ExtentOf(t, pos), pos + k) == RunByte(t, k)
  {
  }

  /** In front of later extents, the first one shows its own positions and nothing else. */
  lemma FirstShows(e: Extent, rest: seq<Extent>, p: nat)
    requires forall i :: 0 <= i < |rest| ==> End(e) <= rest[i].pos
    ensures Lookup([e] + rest, p) == if Covers(e, p) then Some(SourceOf(e, p)) else Lookup(rest, p)
  {
    LookupAppend([e], rest, p);
    LookupOne(e, p);
    if Covers(e, p) { RI.LookupNothing(rest, p); }
  }

  lemma ExtentsStep(prior: Option<Token>, ts: seq<Token>, left: nat, pos: nat, k: nat)
    requires Runs(prior, ts, left) && pos + left <= CHUNK_SIZE && ts != []
    ensures Lookup(Extents(prior, ts, left, pos), pos + k) ==
            if k < ts[0].length then Some(RunByte(ts[0], k))
            else Lookup(Extents(Some(ts[0]), ts[1..], left - ts[0].length, pos + ts[0].length), pos + k)
  {
    var t := ts[0];
    ExtentsFit(Some(t), ts[1..], left - t.length, pos + t.length);
    ExtentShows(t, pos, k);
    FirstShows(ExtentOf(t, pos), Extents(Some(t), ts[1..], left - t.length, pos + t.length), pos + k);
  }

  lemma {:induction false} ExtentsShow(prior: Option<Token>, ts: seq<Token>, left: nat, pos: nat, k: nat)
    requires Runs(prior, ts, left) && pos + left <= CHUNK_SIZE && k < left
    ensures Lookup(Extents(prior, ts, left, pos), pos + k) == Some(TokenByte(ts, k))
    decreases |ts|
  {
    ExtentsStep(prior, ts, left, pos, k);
    if k >= ts[0].length {
      ExtentsShow(Some(ts[0]), ts[1..], left - ts[0].length, pos + ts[0].length, k - ts[0].length);
    }
  }

  lemma {:induction false} TokensShow(segs: seq<Segment>, k: nat)
    requires k < Total(segs)
    ensures TokenByte(Tokens(segs), k) == At(segs, k)
    decreases |segs|
  {
    assert Tokens(segs)[0] == TokenOf(segs[0]) && Tokens(segs)[1..] == Tokens(segs[1..]);
    if k >= segs[0].length { TokensShow(segs[1..], k - segs[0].length); }
  }

  lemma ChunkShows(xs: seq<Extent>, covered: nat, segs: seq<Segment>, p: nat)
    requires Describes(xs, covered, segs) && Runs(None, Tokens(segs), covered) && p < covered <= CHUNK_SIZE
    ensures Shown(Extents(None, Tokens(segs), covered, 0), p) == Shown(xs, p)
  {
    ExtentsShow(None, Tokens(segs), covered, 0, p);
    TokensShow(segs, p);
  }

  /** The chunks of a decoded graph. */
  ghost predicate Decoded(size: nat, tss: seq<seq<Token>>, chunks: seq<seq<Extent>>) {
    && |chunks| == |tss| == ChunkCount(size)
    && forall i :: 0 <= i < |tss| ==> Runs(None, tss[i], Covered(size, i)) && chunks[i] == Extents(None, tss[i], Covered(size, i), 0)
  }

  lemma DecodedShows(a: seq<seq<Extent>>, size: nat, g: seq<seq<Segment>>, b: seq<seq<Extent>>)
    requires AllDescribed(a, size, g) && Decoded(size, AllTokens(g), b)
    ensures RI.CompleteMap(b, size) && SameBytes(a, b, size)
  {
    forall i | 0 <= i < |b| ensures Resolved(b[i]) {
      ExtentsFit(None, AllTokens(g)[i], Covered(size, i), 0);
    }
    forall off | 0 <= off < size ensures off / CHUNK_SIZE < |a| && ShownAt(a, off) == ShownAt(b, off) {
      Place(size, off);
      var i := off / CHUNK_SIZE;
      assert AllTokens(g)[i] == Tokens(g[i]);
      ChunkShows(a[i], Covered(size, i), g[i], off % CHUNK_SIZE);
    }
  }

  /** Decoding a canonical encoding yields a complete, resolved mapping that shows the very bytes that were encoded. */
  lemma DecodedGraphShows(a: seq<seq<Extent>>, size: nat, x: seq<Octet>, b: seq<seq<Extent>>)
    requires Encodes(a, size, x)
    ensures |a| == ChunkCount(size) && Decode(x).Some? && Decode(x).value.0 == size
    ensures Decoded(size, Decode(x).value.1, b) ==> RI.CompleteMap(b, size) && SameBytes(a, b, size)
  {
    var g :| AllDescribed(a, size, g) && x == Encode(size, AllTokens(g)) && ValidGraph(size, AllTokens(g));
    DecodeInvertsEncode(x, size, AllTokens(g));
    if Decoded(size, AllTokens(g), b) { DecodedShows(a, size, g, b); }
  }
}
