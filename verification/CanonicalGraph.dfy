/**
 The canonical form of a chunk: the maximal runs of its visible bytes. Two
 resolved extent lists have the same canonical form exactly when they show
 the same bytes, however they are split and however their holes are written.
 */
module CanonicalGraph {
  import opened Common
  import opened SliceGraph

  datatype Segment = Segment(length: nat, id: nat, size: nat, off: nat)

  /** A segment as it is encoded: a zero run carries its length only. */
  datatype Token = ZeroRun(length: nat) | DataRun(length: nat, id: nat, size: nat, off: nat)

  function TokenOf(s: Segment): Token {
    if s.id == 0 then ZeroRun(s.length) else DataRun(s.length, s.id, s.size, s.off)
  }

  function Tokens(segs: seq<Segment>): seq<Token> {
    seq(|segs|, i requires 0 <= i < |segs| => TokenOf(segs[i]))
  }

  /** A gap between extents shows zeroes. */
  function Shown(xs: seq<Extent>, p: nat): Source {
    var s := Lookup(xs, p);
    if s.Some? then s.value else Zero
  }

  function SegmentByte(s: Segment, k: nat): Source {
    if s.id == 0 then Zero else Byte(s.id, s.size, s.off + k)
  }

  function Total(segs: seq<Segment>): nat {
    if segs == [] then 0 else segs[0].length + Total(segs[1..])
  }

  function At(segs: seq<Segment>, p: nat): Source
    requires p < Total(segs)
  {
    if p < segs[0].length then SegmentByte(segs[0], p) else At(segs[1..], p - segs[0].length)
  }

  predicate Continues(a: Segment, b: Segment) {
    (a.id == 0 && b.id == 0) || (a.id != 0 && a.id == b.id && a.size == b.size && a.off + a.length == b.off)
  }

  /** No empty run, and no run that could be joined to the one before. */
  ghost predicate Maximal(segs: seq<Segment>) {
    && (forall i :: 0 <= i < |segs| ==> segs[i].length > 0)
    && (forall i :: 0 < i < |segs| ==> !Continues(segs[i - 1], segs[i]))
  }

  function AppendSegment(segs: seq<Segment>, next: Segment): seq<Segment> {
    if next.length == 0 then segs
    else if segs != [] && Continues(segs[|segs| - 1], next)
    then segs[..|segs| - 1] + [segs[|segs| - 1].(length := segs[|segs| - 1].length + next.length)]
    else segs + [next]
  }

  lemma {:induction false} AtAppend(segs: seq<Segment>, next: Segment, p: nat)
    ensures Total(segs + [next]) == Total(segs) + next.length
    ensures p < Total(segs) + next.length ==>
              At(segs + [next], p) == if p < Total(segs) then At(segs, p) else SegmentByte(next, p - Total(segs))
    decreases |segs|
  {
    if segs == [] {
      assert Total([next][1..]) == 0;
    } else {
      assert (segs + [next])[1..] == segs[1..] + [next];
      AtAppend(segs[1..], next, if p < segs[0].length then 0 else p - segs[0].length);
    }
  }

  /** Appending a run, joined or not, extends the shown bytes by that run. */
  lemma AppendMeans(segs: seq<Segment>, next: Segment, p: nat)
    ensures Total(AppendSegment(segs, next)) == Total(segs) + next.length
    ensures p < Total(segs) + next.length ==>
              At(AppendSegment(segs, next), p) == if p < Total(segs) then At(segs, p) else SegmentByte(next, p - Total(segs))
  {
    AtAppend(segs, next, p);
    if next.length != 0 && segs != [] && Continues(segs[|segs| - 1], next) {
      var init, last := segs[..|segs| - 1], segs[|segs| - 1];
      assert segs == init + [last];
      AtAppend(init, last, p);
      AtAppend(init, last.(length := last.length + next.length), p);
    }
  }

  lemma AppendStaysMaximal(segs: seq<Segment>, next: Segment)
    requires Maximal(segs)
    ensures Maximal(AppendSegment(segs, next))
  {
  }

  /** Two maximal run lists that show the same bytes are the same list. */
  lemma {:induction false} MaximalIsUnique(a: seq<Segment>, b: seq<Segment>)
    requires Maximal(a) && Maximal(b) && Total(a) == Total(b)
    requires forall p :: 0 <= p < Total(a) ==> At(a, p) == At(b, p)
    ensures Tokens(a) == Tokens(b)
    decreases |a|
  {
    if a == [] || b == [] {
      assert a == [] && b == [];
    } else {
      FirstRun(a, b);
      FirstRun(b, a);
      assert At(a, 0) == At(b, 0);
      assert TokenOf(a[0]) == TokenOf(b[0]);
      forall p | 0 <= p < Total(a[1..]) ensures At(a[1..], p) == At(b[1..], p) {
        assert At(a, p + a[0].length) == At(b, p + a[0].length);
      }
      MaximalIsUnique(a[1..], b[1..]);
      assert Tokens(a) == [TokenOf(a[0])] + Tokens(a[1..]);
      assert Tokens(b) == [TokenOf(b[0])] + Tokens(b[1..]);
    }
  }

  /** The first run of one list does not end inside the first run of the other. */
  lemma FirstRun(a: seq<Segment>, b: seq<Segment>)
    requires Maximal(a) && Maximal(b) && Total(a) == Total(b) && a != [] && b != []
    requires forall p :: 0 <= p < Total(a) ==> At(a, p) == At(b, p)
    ensures a[0].length >= b[0].length
  {
    var n := a[0].length;
    if n < b[0].length {
      assert a[1..] != [] && a[1..][0] == a[1];
      assert At(a, n) == SegmentByte(a[1], 0) && At(b, n) == SegmentByte(b[0], n);
      assert At(a, n - 1) == SegmentByte(a[0], n - 1) && At(b, n - 1) == SegmentByte(b[0], n - 1);
      assert Continues(a[0], a[1]);
    }
  }

  lemma {:induction false} SameTokensShowTheSame(a: seq<Segment>, b: seq<Segment>)
    requires Tokens(a) == Tokens(b)
    ensures Total(a) == Total(b) && forall p :: 0 <= p < Total(a) ==> At(a, p) == At(b, p)
    decreases |a|
  {
    assert |a| == |Tokens(a)| == |Tokens(b)| == |b|;
    if a != [] {
      assert TokenOf(a[0]) == Tokens(a)[0] == Tokens(b)[0] == TokenOf(b[0]);
      assert Tokens(a[1..]) == Tokens(a)[1..] == Tokens(b)[1..] == Tokens(b[1..]);
      SameTokensShowTheSame(a[1..], b[1..]);
    }
  }

  /** What the segments of a chunk have to be. */
  ghost predicate Describes(xs: seq<Extent>, covered: nat, segs: seq<Segment>) {
    Maximal(segs) && Total(segs) == covered && forall p :: 0 <= p < covered ==> At(segs, p) == Shown(xs, p)
  }

  /** The digest's promise: one encoding for one content, and different encodings for different contents. */
  lemma CanonicalIffSameBytes(xs: seq<Extent>, ys: seq<Extent>, covered: nat, a: seq<Segment>, b: seq<Segment>)
    requires Describes(xs, covered, a) && Describes(ys, covered, b)
    ensures Tokens(a) == Tokens(b) <==> forall p :: 0 <= p < covered ==> Shown(xs, p) == Shown(ys, p)
  {
    if forall p :: 0 <= p < covered ==> Shown(xs, p) == Shown(ys, p) {
      MaximalIsUnique(a, b);
    }
    if Tokens(a) == Tokens(b) {
      SameTokensShowTheSame(a, b);
      forall p | 0 <= p < covered ensures Shown(xs, p) == Shown(ys, p) {
        assert At(a, p) == At(b, p);
      }
    }
  }

  // --- computing the segments ------------------------------------------------------------

  /** `segs` shows exactly the bytes of `xs` before `end`. */
  ghost predicate ShowsUpTo(xs: seq<Extent>, segs: seq<Segment>, end: nat) {
    Maximal(segs) && Total(segs) == end && forall p :: 0 <= p < end ==> At(segs, p) == Shown(xs, p)
  }

  lemma Extend(xs: seq<Extent>, segs: seq<Segment>, end: nat, next: Segment)
    requires ShowsUpTo(xs, segs, end)
    requires forall p :: end <= p < end + next.length ==> Shown(xs, p) == SegmentByte(next, p - end)
    ensures ShowsUpTo(xs, AppendSegment(segs, next), end + next.length)
  {
    AppendStaysMaximal(segs, next);
    AppendMeans(segs, next, 0);
    forall p | 0 <= p < end + next.length ensures At(AppendSegment(segs, next), p) == Shown(xs, p) {
      AppendMeans(segs, next, p);
    }
  }

  lemma LookupNext(xs: seq<Extent>, k: nat, p: nat)
    requires k < |xs|
    ensures Lookup(xs[..k + 1], p) == if Covers(xs[k], p) then Some(SourceOf(xs[k], p)) else Lookup(xs[..k], p)
  {
    assert xs[..k + 1][..k] == xs[..k];
  }

  /** Nothing of `xs` lies at or beyond `end`. */
  ghost predicate EndsBy(xs: seq<Extent>, end: nat) {
    forall p :: p >= end ==> Lookup(xs, p).None?
  }

  lemma ResolvedNext(xs: seq<Extent>, k: nat)
    requires k < |xs| && Resolved(xs[..k]) && InBounds(xs[k]) && (k > 0 ==> End(xs[k - 1]) <= xs[k].pos)
    requires EndsBy(xs[..k], if k == 0 then 0 else End(xs[k - 1]))
    ensures Resolved(xs[..k + 1]) && EndsBy(xs[..k + 1], End(xs[k]))
  {
    assert xs[..k + 1] == xs[..k] + [xs[k]];
    forall i | 0 <= i < k ensures End(xs[i]) <= xs[k].pos {
      assert xs[..k][i] == xs[i] && xs[..k][k - 1] == xs[k - 1];
    }
    var ys := xs[..k + 1];
    forall p | p >= End(xs[k]) ensures Lookup(ys, p).None? {
      LookupNext(xs, k, p);
    }
  }

  /** One extent of the chunk, which starts where nothing before it reaches. */
  method Visible(ghost xs: seq<Extent>, ghost k: nat, e: Extent, covered: nat, segs: seq<Segment>, shown: nat)
    returns (out: seq<Segment>, end: nat)
    requires k < |xs| && e == xs[k] && InBounds(e) && shown <= e.pos < covered
    requires ShowsUpTo(xs[..k], segs, shown) && Blank(xs[..k], shown, covered)
    ensures ShowsUpTo(xs[..k + 1], out, end) && end == if End(e) < covered then End(e) else covered
  {
    forall p ensures Lookup(xs[..k + 1], p) == if Covers(e, p) then Some(SourceOf(e, p)) else Lookup(xs[..k], p) {
      LookupNext(xs, k, p);
    }
    out := segs;
    if e.pos > shown {
      Extend(xs[..k + 1], out, shown, Segment(e.pos - shown, 0, 0, 0));
      out := AppendSegment(out, Segment(e.pos - shown, 0, 0, 0));
    }
    end := if End(e) < covered then End(e) else covered;
    Extend(xs[..k + 1], out, e.pos, Segment(end - e.pos, e.id, e.size, e.off));
    out := AppendSegment(out, Segment(end - e.pos, e.id, e.size, e.off));
  }

  /** Nothing is shown between `from` and `to`. */
  ghost predicate Blank(xs: seq<Extent>, from: nat, to: nat) {
    forall p :: from <= p < to ==> Lookup(xs, p).None?
  }

  /** An extent beyond the covered part changes nothing there. */
  lemma Beyond(xs: seq<Extent>, k: nat, segs: seq<Segment>, shown: nat, covered: nat)
    requires k < |xs| && covered <= xs[k].pos && shown <= covered && ShowsUpTo(xs[..k], segs, shown) && Blank(xs[..k], shown, covered)
    ensures ShowsUpTo(xs[..k + 1], segs, shown) && Blank(xs[..k + 1], shown, covered)
  {
    var ys := xs[..k + 1];
    forall p | 0 <= p < covered ensures Lookup(ys, p) == Lookup(xs[..k], p) {
      LookupNext(xs, k, p);
    }
  }

  /** Behind the extent that was just shown, nothing is shown. */
  lemma Behind(xs: seq<Extent>, k: nat, covered: nat)
    requires k < |xs| && EndsBy(xs[..k + 1], End(xs[k]))
    ensures Blank(xs[..k + 1], if End(xs[k]) < covered then End(xs[k]) else covered, covered)
  {
  }

  /** The chunk's segments over its covered part, if and only if its extents are resolved. */
  method ChunkSegments(xs: seq<Extent>, covered: nat) returns (r: Option<seq<Segment>>)
    ensures r.Some? <==> Resolved(xs)
    ensures r.Some? ==> Describes(xs, covered, r.value)
  {
    var out: seq<Segment> := [];
    var validated: nat, shown: nat := 0, 0;
    for k := 0 to |xs|
      invariant Resolved(xs[..k]) && validated == if k == 0 then 0 else End(xs[k - 1])
      invariant shown <= covered && shown <= validated
      invariant ShowsUpTo(xs[..k], out, shown)
      invariant EndsBy(xs[..k], validated)
      invariant Blank(xs[..k], shown, covered)
    {
      var e := xs[k];
      if e.len == 0 || e.pos < validated || End(e) > CHUNK_SIZE || (e.id != 0 && e.off + e.len > e.size) {
        assert k > 0 ==> xs[k - 1] == xs[..k][k - 1];
        return None;
      }
      ResolvedNext(xs, k);
      validated := End(e);
      if e.pos < covered {
        out, shown := Visible(xs, k, e, covered, out, shown);
        Behind(xs, k, covered);
      } else {
        Beyond(xs, k, out, shown, covered);
      }
    }
    assert xs[..|xs|] == xs;
    if shown < covered {
      Extend(xs, out, shown, Segment(covered - shown, 0, 0, 0));
      out := AppendSegment(out, Segment(covered - shown, 0, 0, 0));
    }
    return Some(out);
  }
}
