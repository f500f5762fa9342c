/**
 The byte encoding of a canonical slice graph and its decoder. The decoder
 accepts exactly the encodings, so two graphs have equal bytes only if they are
 equal.
 */
module GraphCodec {
  import opened Common
  import opened SliceGraph
  import opened CanonicalGraph

  const MAX_GRAPH_BYTES: nat := 0x400_0000
  const MAX_DECODED_SLOTS: nat := MAX_GRAPH_BYTES / 32
  const VERSION: nat := 1
  const MAGIC: seq<Octet> := [74, 77, 83, 71]  // "JMSG"

  // --- big-endian numbers -------------------------------------------------------------

  function Range(width: nat): nat {
    if width == 0 then 1 else 256 * Range(width - 1)
  }

  function BigEndian(n: nat, width: nat): (bs: seq<Octet>)
    ensures |bs| == width
  {
    if width == 0 then [] else BigEndian(n / 256, width - 1) + [n % 256]
  }

  function Value(bs: seq<Octet>): nat {
    if bs == [] then 0 else 256 * Value(bs[..|bs| - 1]) + bs[|bs| - 1]
  }

  lemma {:induction false} ValueOfBigEndian(n: nat, width: nat)
    requires n < Range(width)
    ensures Value(BigEndian(n, width)) == n
    decreases width
  {
    if width > 0 {
      ValueOfBigEndian(n / 256, width - 1);
      assert BigEndian(n, width)[..width - 1] == BigEndian(n / 256, width - 1);
    }
  }

  lemma {:induction false} BigEndianOfValue(bs: seq<Octet>)
    ensures Value(bs) < Range(|bs|) && BigEndian(Value(bs), |bs|) == bs
    decreases |bs|
  {
    if bs != [] {
      BigEndianOfValue(bs[..|bs| - 1]);
      assert bs == bs[..|bs| - 1] + [bs[|bs| - 1]];
    }
  }

  /** A field of `width` bytes in front of `bs`, and what follows it. */
  function Take(bs: seq<Octet>, width: nat): (r: (nat, seq<Octet>))
    requires width <= |bs|
  {
    (Value(bs[..width]), bs[width..])
  }

  lemma TakeOfBigEndian(n: nat, width: nat, rest: seq<Octet>)
    requires n < Range(width)
    ensures width <= |BigEndian(n, width) + rest| && Take(BigEndian(n, width) + rest, width) == (n, rest)
  {
    ValueOfBigEndian(n, width);
    assert (BigEndian(n, width) + rest)[..width] == BigEndian(n, width);
    assert (BigEndian(n, width) + rest)[width..] == rest;
  }

  lemma BigEndianOfTake(bs: seq<Octet>, width: nat)
    requires width <= |bs|
    ensures var (n, rest) := Take(bs, width); n < Range(width) && bs == BigEndian(n, width) + rest
  {
    BigEndianOfValue(bs[..width]);
    assert bs == bs[..width] + bs[width..];
  }

  lemma Ranges()
    ensures Range(4) == 0x1_0000_0000 && Range(8) == 0x1_0000_0000_0000_0000
  {
    assert Range(2) == 256 * Range(1) == 65536;
    assert Range(3) == 256 * Range(2);
    assert Range(4) == 256 * Range(3);
    assert Range(5) == 256 * Range(4);
    assert Range(6) == 256 * Range(5);
    assert Range(7) == 256 * Range(6);
  }

  // --- one run ------------------------------------------------------------------------

  function EncodeData(id: nat, size: nat, off: nat): (bs: seq<Octet>)
    ensures |bs| == 16
  {
    BigEndian(id, 8) + (BigEndian(size, 4) + BigEndian(off, 4))
  }

  function DecodeData(bs: seq<Octet>): (nat, nat, nat, seq<Octet>)
    requires |bs| >= 16
  {
    var (id, rest1) := Take(bs, 8);
    var (size, rest2) := Take(rest1, 4);
    var (off, rest3) := Take(rest2, 4);
    (id, size, off, rest3)
  }

  lemma DecodeOfData(id: nat, size: nat, off: nat, rest: seq<Octet>)
    requires id < Range(8) && size < Range(4) && off < Range(4)
    ensures DecodeData(EncodeData(id, size, off) + rest) == (id, size, off, rest)
  {
    var r3 := BigEndian(off, 4) + rest;
    var r2 := BigEndian(size, 4) + r3;
    assert EncodeData(id, size, off) + rest == BigEndian(id, 8) + r2;
    TakeOfBigEndian(id, 8, r2);
    TakeOfBigEndian(size, 4, r3);
    TakeOfBigEndian(off, 4, rest);
  }

  lemma DataOfDecode(bs: seq<Octet>)
    requires |bs| >= 16
    ensures var (id, size, off, rest) := DecodeData(bs);
      id < Range(8) && size < Range(4) && off < Range(4) && bs == EncodeData(id, size, off) + rest
  {
    var (id, r2) := Take(bs, 8);
    var (size, r3) := Take(r2, 4);
    var (off, rest) := Take(r3, 4);
    BigEndianOfTake(bs, 8);
    BigEndianOfTake(r2, 4);
    BigEndianOfTake(r3, 4);
    assert EncodeData(id, size, off) + rest == BigEndian(id, 8) + (BigEndian(size, 4) + (BigEndian(off, 4) + rest));
  }

  /** A kind byte and the length, and for data the slice. */
  function EncodeToken(t: Token): (bs: seq<Octet>)
    ensures |bs| == if t.ZeroRun? then 5 else 21
  {
    if t.ZeroRun? then [0] + BigEndian(t.length, 4)
    else [1] + BigEndian(t.length, 4) + EncodeData(t.id, t.size, t.off)
  }

  /** A run that is not empty and fits its fields and its slice. */
  predicate ValidToken(t: Token) {
    && 0 < t.length < Range(4)
    && (t.DataRun? ==> 0 < t.id < Range(8) && t.size < Range(4) && t.off < Range(4) && t.off + t.length <= t.size)
  }

  /** The run of `length` bytes whose kind byte was `kind`, from the bytes behind its length. */
  function DecodeRun(kind: Octet, length: nat, rest: seq<Octet>): Option<(Token, seq<Octet>)> {
    if length == 0 then None
    else if kind == 0 then Some((ZeroRun(length), rest))
    else if kind != 1 || |rest| < 16 then None
    else
      var (id, size, off, rest') := DecodeData(rest);
      if id == 0 || off + length > size then None else Some((DataRun(length, id, size, off), rest'))
  }

  function DecodeToken(bs: seq<Octet>): Option<(Token, seq<Octet>)> {
    if |bs| < 5 then None
    else
      var (length, rest) := Take(bs[1..], 4);
      DecodeRun(bs[0], length, rest)
  }

  lemma DecodeSplit(bs: seq<Octet>, kind: Octet, length: nat, rest: seq<Octet>)
    requires bs == [kind] + (BigEndian(length, 4) + rest) && length < Range(4)
    ensures DecodeToken(bs) == DecodeRun(kind, length, rest)
  {
    assert bs[1..] == BigEndian(length, 4) + rest;
    TakeOfBigEndian(length, 4, rest);
  }

  lemma DecodeOfToken(t: Token, rest: seq<Octet>)
    requires ValidToken(t)
    ensures DecodeToken(EncodeToken(t) + rest) == Some((t, rest))
  {
    if t.ZeroRun? {
      assert EncodeToken(t) + rest == [0] + (BigEndian(t.length, 4) + rest);
      DecodeSplit(EncodeToken(t) + rest, 0, t.length, rest);
    } else {
      var data := EncodeData(t.id, t.size, t.off) + rest;
      assert EncodeToken(t) + rest == [1] + (BigEndian(t.length, 4) + data);
      DecodeSplit(EncodeToken(t) + rest, 1, t.length, data);
      DecodeOfData(t.id, t.size, t.off, rest);
    }
  }

  lemma TokenOfDecode(bs: seq<Octet>)
    requires DecodeToken(bs).Some?
    ensures var (t, rest) := DecodeToken(bs).value; ValidToken(t) && bs == EncodeToken(t) + rest
  {
    var (t, rest) := DecodeToken(bs).value;
    var more := Take(bs[1..], 4).1;
    assert bs == [bs[0]] + bs[1..];
    BigEndianOfTake(bs[1..], 4);
    if t.DataRun? {
      DataOfDecode(more);
      assert [1] + (BigEndian(t.length, 4) + (EncodeData(t.id, t.size, t.off) + rest)) == EncodeToken(t) + rest;
    } else {
      assert [0] + (BigEndian(t.length, 4) + rest) == EncodeToken(t) + rest;
    }
  }

  // --- the runs of a chunk, for any codec of single runs -------------------------------------

  type Encoder = Token -> seq<Octet>

  type Decoder = seq<Octet> -> Option<(Token, seq<Octet>)>

  function EncodeTokens(enc: Encoder, ts: seq<Token>): seq<Octet> {
    if ts == [] then [] else enc(ts[0]) + EncodeTokens(enc, ts[1..])
  }

  /** `b` could have been joined to `a`. */
  predicate Joins(a: Token, b: Token) {
    (a.ZeroRun? && b.ZeroRun?) || (a.DataRun? && b.DataRun? && a.id == b.id && a.size == b.size && a.off + a.length == b.off)
  }

  predicate Follows(prior: Option<Token>, t: Token, left: nat) {
    t.length <= left && (prior.Some? ==> !Joins(prior.value, t))
  }

  /** Valid runs behind `prior` that cover exactly `left` bytes, none of which joins its predecessor. */
  ghost predicate Runs(prior: Option<Token>, ts: seq<Token>, left: nat)
    decreases |ts|
  {
    if ts == [] then left == 0
    else ValidToken(ts[0]) && Follows(prior, ts[0], left) && Runs(Some(ts[0]), ts[1..], left - ts[0].length)
  }

  function DecodeRuns(dec: Decoder, bs: seq<Octet>, n: nat, prior: Option<Token>, left: nat): Option<(seq<Token>, seq<Octet>)>
    decreases n
  {
    if n == 0 then if left == 0 then Some(([], bs)) else None
    else
      var first := dec(bs);
      if first.None? || !Follows(prior, first.value.0, left) then None
      else
        var t := first.value.0;
        var more := DecodeRuns(dec, first.value.1, n - 1, Some(t), left - t.length);
        if more.None? then None else Some(([t] + more.value.0, more.value.1))
  }

  /** Decoding undoes encoding, whatever follows. */
  ghost predicate Undoes(enc: Encoder, dec: Decoder) {
    forall t, rest :: ValidToken(t) ==> dec(enc(t) + rest) == Some((t, rest))
  }

  /** Whatever is decoded was encoded. */
  ghost predicate Exact(enc: Encoder, dec: Decoder) {
    forall bs :: dec(bs).Some? ==> ValidToken(dec(bs).value.0) && bs == enc(dec(bs).value.0) + dec(bs).value.1
  }

  lemma Assoc(a: seq<Octet>, b: seq<Octet>, c: seq<Octet>)
    ensures (a + b) + c == a + (b + c)
  {
  }

  lemma {:induction false} DecodeOfRuns(enc: Encoder, dec: Decoder, prior: Option<Token>, ts: seq<Token>, left: nat, rest: seq<Octet>)
    requires Undoes(enc, dec) && Runs(prior, ts, left)
    ensures DecodeRuns(dec, EncodeTokens(enc, ts) + rest, |ts|, prior, left) == Some((ts, rest))
    decreases |ts|
  {
    var bs := EncodeTokens(enc, ts) + rest;
    if ts == [] {
      assert bs == rest;
    } else {
      var t, more := ts[0], EncodeTokens(enc, ts[1..]) + rest;
      Assoc(enc(t), EncodeTokens(enc, ts[1..]), rest);
      assert dec(enc(t) + more) == Some((t, more));
      DecodeOfRuns(enc, dec, Some(t), ts[1..], left - t.length, rest);
      assert [t] + ts[1..] == ts;
    }
  }

  lemma {:induction false} RunsOfDecode(enc: Encoder, dec: Decoder, bs: seq<Octet>, n: nat, prior: Option<Token>, left: nat)
    requires Exact(enc, dec) && DecodeRuns(dec, bs, n, prior, left).Some?
    ensures var (ts, rest) := DecodeRuns(dec, bs, n, prior, left).value;
      |ts| == n && Runs(prior, ts, left) && bs == EncodeTokens(enc, ts) + rest
    decreases n
  {
    if n == 0 {
      assert bs == [] + bs;
    } else {
      var (t, rest) := dec(bs).value;
      RunsOfDecode(enc, dec, rest, n - 1, Some(t), left - t.length);
      var (ts, after) := DecodeRuns(dec, rest, n - 1, Some(t), left - t.length).value;
      assert ([t] + ts)[0] == t && ([t] + ts)[1..] == ts;
      Assoc(enc(t), EncodeTokens(enc, ts), after);
    }
  }

  lemma TokensUndo()
    ensures Undoes(EncodeToken, DecodeToken) && Exact(EncodeToken, DecodeToken)
  {
    forall t, rest | ValidToken(t) ensures DecodeToken(EncodeToken(t) + rest) == Some((t, rest)) {
      DecodeOfToken(t, rest);
    }
    forall bs | DecodeToken(bs).Some?
      ensures ValidToken(DecodeToken(bs).value.0) && bs == EncodeToken(DecodeToken(bs).value.0) + DecodeToken(bs).value.1
    {
      TokenOfDecode(bs);
    }
  }

  // --- one chunk ------------------------------------------------------------------------

  function EncodeChunk(i: nat, ts: seq<Token>): seq<Octet> {
    BigEndian(i, 4) + (BigEndian(|ts|, 4) + EncodeTokens(EncodeToken, ts))
  }

  /** Chunk `i` with its budget: `slots` are spent before it. */
  function DecodeChunk(bs: seq<Octet>, i: nat, covered: nat, slots: nat): Option<(seq<Token>, seq<Octet>)> {
    if |bs| < 8 then None
    else
      var (index, rest) := Take(bs, 4);
      var (segments, rest') := Take(rest, 4);
      if index != i || segments == 0 || segments > |rest'| / 5 || slots + segments > MAX_DECODED_SLOTS then None
      else DecodeRuns(DecodeToken, rest', segments, None, covered)
  }

  ghost predicate ValidChunk(i: nat, ts: seq<Token>, covered: nat, slots: nat) {
    Runs(None, ts, covered) && 0 < covered && i <= slots && slots + |ts| <= MAX_DECODED_SLOTS
  }

  lemma {:induction false} TokensTakeRoom(ts: seq<Token>)
    ensures |EncodeTokens(EncodeToken, ts)| >= 5 * |ts|
    decreases |ts|
  {
    if ts != [] { TokensTakeRoom(ts[1..]); }
  }

  lemma DecodeOfChunk(i: nat, ts: seq<Token>, covered: nat, slots: nat, rest: seq<Octet>)
    requires ValidChunk(i, ts, covered, slots)
    ensures DecodeChunk(EncodeChunk(i, ts) + rest, i, covered, slots) == Some((ts, rest))
  {
    var runs := EncodeTokens(EncodeToken, ts) + rest;
    Assoc(BigEndian(i, 4), BigEndian(|ts|, 4) + EncodeTokens(EncodeToken, ts), rest);
    Assoc(BigEndian(|ts|, 4), EncodeTokens(EncodeToken, ts), rest);
    Ranges();
    TakeOfBigEndian(i, 4, BigEndian(|ts|, 4) + runs);
    TakeOfBigEndian(|ts|, 4, runs);
    TokensTakeRoom(ts);
    TokensUndo();
    DecodeOfRuns(EncodeToken, DecodeToken, None, ts, covered, rest);
  }

  lemma ChunkOfDecode(bs: seq<Octet>, i: nat, covered: nat, slots: nat)
    requires DecodeChunk(bs, i, covered, slots).Some?
    ensures var (ts, rest) := DecodeChunk(bs, i, covered, slots).value;
      Runs(None, ts, covered) && slots + |ts| <= MAX_DECODED_SLOTS && bs == EncodeChunk(i, ts) + rest
  {
    var (index, r1) := Take(bs, 4);
    var (segments, r2) := Take(r1, 4);
    BigEndianOfTake(bs, 4);
    BigEndianOfTake(r1, 4);
    TokensUndo();
    RunsOfDecode(EncodeToken, DecodeToken, r2, segments, None, covered);
    var (ts, rest) := DecodeRuns(DecodeToken, r2, segments, None, covered).value;
    Assoc(BigEndian(|ts|, 4), EncodeTokens(EncodeToken, ts), rest);
    Assoc(BigEndian(i, 4), BigEndian(|ts|, 4) + EncodeTokens(EncodeToken, ts), rest);
  }

  // --- the file, for any codec of single chunks --------------------------------------------

  type ChunkEncoder = (nat, seq<Token>) -> seq<Octet>

  type ChunkDecoder = (seq<Octet>, nat, nat, nat) -> Option<(seq<Token>, seq<Octet>)>

  function EncodeChunks(enc: ChunkEncoder, i: nat, tss: seq<seq<Token>>): seq<Octet>
    decreases |tss|
  {
    if tss == [] then [] else enc(i, tss[0]) + EncodeChunks(enc, i + 1, tss[1..])
  }

  /** The chunks from the `i`-th on, within the budget of `slots` already spent. */
  ghost predicate ValidChunks(i: nat, tss: seq<seq<Token>>, size: nat, slots: nat)
    requires i + |tss| == ChunkCount(size)
    decreases |tss|
  {
    tss == [] ||
    (ValidChunk(i, tss[0], Covered(size, i), slots) && ValidChunks(i + 1, tss[1..], size, slots + |tss[0]|))
  }

  function DecodeChunks(dec: ChunkDecoder, bs: seq<Octet>, i: nat, size: nat, slots: nat): Option<(seq<seq<Token>>, seq<Octet>)>
    requires i <= ChunkCount(size)
    decreases ChunkCount(size) - i
  {
    if i == ChunkCount(size) then Some(([], bs))
    else
      var chunk := dec(bs, i, Covered(size, i), slots);
      if chunk.None? then None
      else
        var more := DecodeChunks(dec, chunk.value.1, i + 1, size, slots + |chunk.value.0|);
        if more.None? then None else Some(([chunk.value.0] + more.value.0, more.value.1))
  }

  ghost predicate ChunkUndoes(enc: ChunkEncoder, dec: ChunkDecoder) {
    forall i, ts, covered, slots, rest :: ValidChunk(i, ts, covered, slots) ==> dec(enc(i, ts) + rest, i, covered, slots) == Some((ts, rest))
  }

  ghost predicate ChunkExact(enc: ChunkEncoder, dec: ChunkDecoder) {
    forall bs: seq<Octet>, i: nat, covered: nat, slots: nat :: dec(bs, i, covered, slots).Some? ==>
      && Runs(None, dec(bs, i, covered, slots).value.0, covered) && slots + |dec(bs, i, covered, slots).value.0| <= MAX_DECODED_SLOTS
      && bs == enc(i, dec(bs, i, covered, slots).value.0) + dec(bs, i, covered, slots).value.1
  }

  lemma {:induction false} DecodeOfChunks(enc: ChunkEncoder, dec: ChunkDecoder, i: nat, tss: seq<seq<Token>>, size: nat, slots: nat, rest: seq<Octet>)
    requires ChunkUndoes(enc, dec) && i + |tss| == ChunkCount(size) && ValidChunks(i, tss, size, slots)
    ensures DecodeChunks(dec, EncodeChunks(enc, i, tss) + rest, i, size, slots) == Some((tss, rest))
    decreases |tss|
  {
    var bs := EncodeChunks(enc, i, tss) + rest;
    if tss == [] {
      assert bs == rest;
    } else {
      var ts, more := tss[0], EncodeChunks(enc, i + 1, tss[1..]) + rest;
      Assoc(enc(i, ts), EncodeChunks(enc, i + 1, tss[1..]), rest);
      assert dec(enc(i, ts) + more, i, Covered(size, i), slots) == Some((ts, more));
      DecodeOfChunks(enc, dec, i + 1, tss[1..], size, slots + |ts|, rest);
      assert [ts] + tss[1..] == tss;
    }
  }

  lemma {:induction false} ChunksOfDecode(enc: ChunkEncoder, dec: ChunkDecoder, bs: seq<Octet>, i: nat, size: nat, slots: nat)
    requires ChunkExact(enc, dec) && i <= ChunkCount(size) <= slots && DecodeChunks(dec, bs, i, size, slots).Some?
    ensures var (tss, rest) := DecodeChunks(dec, bs, i, size, slots).value;
      i + |tss| == ChunkCount(size) && ValidChunks(i, tss, size, slots) && bs == EncodeChunks(enc, i, tss) + rest
    decreases ChunkCount(size) - i
  {
    if i == ChunkCount(size) {
      assert bs == [] + bs;
    } else {
      var (ts, after) := dec(bs, i, Covered(size, i), slots).value;
      ChunksOfDecode(enc, dec, after, i + 1, size, slots + |ts|);
      var (tss, rest) := DecodeChunks(dec, after, i + 1, size, slots + |ts|).value;
      assert ([ts] + tss)[0] == ts && ([ts] + tss)[1..] == tss;
      Assoc(enc(i, ts), EncodeChunks(enc, i + 1, tss), rest);
    }
  }

  lemma ChunksUndo()
    ensures ChunkUndoes(EncodeChunk, DecodeChunk) && ChunkExact(EncodeChunk, DecodeChunk)
  {
    forall i, ts, covered, slots, rest | ValidChunk(i, ts, covered, slots)
      ensures DecodeChunk(EncodeChunk(i, ts) + rest, i, covered, slots) == Some((ts, rest))
    {
      DecodeOfChunk(i, ts, covered, slots, rest);
    }
    forall bs: seq<Octet>, i: nat, covered: nat, slots: nat | DecodeChunk(bs, i, covered, slots).Some?
      ensures var (ts, rest) := DecodeChunk(bs, i, covered, slots).value;
        Runs(None, ts, covered) && slots + |ts| <= MAX_DECODED_SLOTS && bs == EncodeChunk(i, ts) + rest
    {
      ChunkOfDecode(bs, i, covered, slots);
    }
  }

  // --- the whole graph --------------------------------------------------------------------

  function Header(size: nat, count: nat): (bs: seq<Octet>)
    ensures |bs| == 20
  {
    MAGIC + BigEndian(VERSION, 4) + BigEndian(size, 8) + BigEndian(count, 4)
  }

  function Encode(size: nat, tss: seq<seq<Token>>): seq<Octet> {
    Header(size, |tss|) + EncodeChunks(EncodeChunk, 0, tss)
  }

  /** A graph that fits its fields, its file and the decoder's budget. */
  ghost predicate ValidGraph(size: nat, tss: seq<seq<Token>>) {
    && size < Range(8) && |tss| == ChunkCount(size) <= MAX_DECODED_SLOTS
    && ValidChunks(0, tss, size, |tss|) && |Encode(size, tss)| <= MAX_GRAPH_BYTES
  }

  function Decode(bs: seq<Octet>): Option<(nat, seq<seq<Token>>)> {
    if |bs| < 20 || |bs| > MAX_GRAPH_BYTES || bs[..4] != MAGIC then None
    else
      var version, size, count := Value(bs[4..8]), Value(bs[8..16]), Value(bs[16..20]);
      if version != VERSION || count != ChunkCount(size) || count > (|bs| - 20) / 13 || count > MAX_DECODED_SLOTS then None
      else
        var chunks := DecodeChunks(DecodeChunk, bs[20..], 0, size, count);
        if chunks.None? || chunks.value.1 != [] then None else Some((size, chunks.value.0))
  }

  lemma HeaderFields(size: nat, count: nat)
    requires size < Range(8) && count < Range(4)
    ensures var h := Header(size, count);
      h[..4] == MAGIC && Value(h[4..8]) == VERSION && Value(h[8..16]) == size && Value(h[16..20]) == count
  {
    var h := Header(size, count);
    Ranges();
    assert h[4..8] == BigEndian(VERSION, 4) && h[8..16] == BigEndian(size, 8) && h[16..20] == BigEndian(count, 4);
    ValueOfBigEndian(VERSION, 4);
    ValueOfBigEndian(size, 8);
    ValueOfBigEndian(count, 4);
  }

  lemma FieldsOfHeader(bs: seq<Octet>)
    requires |bs| >= 20 && bs[..4] == MAGIC && Value(bs[4..8]) == VERSION
    ensures Value(bs[8..16]) < Range(8) && bs[..20] == Header(Value(bs[8..16]), Value(bs[16..20]))
  {
    BigEndianOfValue(bs[4..8]);
    BigEndianOfValue(bs[8..16]);
    BigEndianOfValue(bs[16..20]);
    assert bs[..20] == bs[..4] + bs[4..8] + bs[8..16] + bs[16..20];
  }

  lemma {:induction false} ChunksTakeRoom(i: nat, tss: seq<seq<Token>>, size: nat, slots: nat)
    requires i + |tss| == ChunkCount(size) && ValidChunks(i, tss, size, slots)
    ensures |EncodeChunks(EncodeChunk, i, tss)| >= 13 * |tss|
    decreases |tss|
  {
    if tss != [] {
      TokensTakeRoom(tss[0]);
      ChunksTakeRoom(i + 1, tss[1..], size, slots + |tss[0]|);
    }
  }

  /** The decoder accepts exactly the encodings of valid graphs, and returns the graph that was encoded. */
  lemma DecodeInvertsEncode(bs: seq<Octet>, size: nat, tss: seq<seq<Token>>)
    ensures Decode(bs) == Some((size, tss)) <==> ValidGraph(size, tss) && bs == Encode(size, tss)
  {
    if ValidGraph(size, tss) && bs == Encode(size, tss) { DecodeOfGraph(size, tss); }
    if Decode(bs) == Some((size, tss)) { GraphOfDecode(bs); }
  }

  lemma DecodeOfGraph(size: nat, tss: seq<seq<Token>>)
    requires ValidGraph(size, tss)
    ensures Decode(Encode(size, tss)) == Some((size, tss))
  {
    var bs, body := Encode(size, tss), EncodeChunks(EncodeChunk, 0, tss);
    Ranges();
    HeaderFields(size, |tss|);
    var h := Header(size, |tss|);
    assert bs[..4] == h[..4] && bs[4..8] == h[4..8] && bs[8..16] == h[8..16] && bs[16..20] == h[16..20] && bs[20..] == body;
    ChunksTakeRoom(0, tss, size, |tss|);
    ChunksUndo();
    DecodeOfChunks(EncodeChunk, DecodeChunk, 0, tss, size, |tss|, []);
    assert body + [] == body;
  }

  lemma GraphOfDecode(bs: seq<Octet>)
    requires Decode(bs).Some?
    ensures var (size, tss) := Decode(bs).value; ValidGraph(size, tss) && bs == Encode(size, tss)
  {
    var (size, tss) := Decode(bs).value;
    FieldsOfHeader(bs);
    ChunksUndo();
    ChunksOfDecode(EncodeChunk, DecodeChunk, bs[20..], 0, size, ChunkCount(size));
    assert bs == bs[..20] + bs[20..];
    assert bs[20..] == EncodeChunks(EncodeChunk, 0, tss) + [];
  }
}
