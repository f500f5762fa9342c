/**
 Slice graphs: which stored bytes a chunk of a file shows. A chunk is written
 as a history of overlapping extents; `Resolve` turns the history into the
 disjoint extents that are still visible.
 */
module SliceGraph {
  import opened Common

  const CHUNK_SIZE: nat := 0x400_0000

  function ChunkCount(size: nat): nat {
    size / CHUNK_SIZE + if size % CHUNK_SIZE != 0 then 1 else 0
  }

  /** The part of chunk `i` that lies in a file of `size` bytes. */
  function Covered(size: nat, i: nat): (n: nat)
    requires i < ChunkCount(size)
    ensures 0 < n <= CHUNK_SIZE && n <= size - i * CHUNK_SIZE
  {
    if size - i * CHUNK_SIZE < CHUNK_SIZE then size - i * CHUNK_SIZE else CHUNK_SIZE
  }

  const WORD: nat := 0x1_0000_0000

  type u32 = x: int | 0 <= x < WORD

  type u64 = x: int | 0 <= x < WORD * WORD

  /** `len` bytes at `pos` come from offset `off` of slice `id`, which holds `size` bytes; slice 0 is zeroes. */
  datatype Extent = Extent(pos: u32, id: u64, size: u32, off: u32, len: u32)

  function End(e: Extent): nat {
    e.pos + e.len
  }

  predicate Covers(e: Extent, p: nat) {
    e.pos <= p < End(e)
  }

  /** Where a byte comes from. */
  datatype Source = Zero | Byte(id: nat, size: nat, off: nat)

  function SourceOf(e: Extent, p: nat): Source
    requires Covers(e, p)
  {
    if e.id == 0 then Zero else Byte(e.id, e.size, e.off + p - e.pos)
  }

  /** The meaning of a list of extents: the last one that covers a position decides. */
  function Lookup(xs: seq<Extent>, p: nat): Option<Source> {
    if xs == [] then None
    else
      var e := xs[|xs| - 1];
      if Covers(e, p) then Some(SourceOf(e, p)) else Lookup(xs[..|xs| - 1], p)
  }

  predicate InBounds(e: Extent) {
    e.len > 0 && End(e) <= CHUNK_SIZE && (e.id != 0 ==> e.off + e.len <= e.size)
  }

  /** In order and without overlap. */
  ghost predicate Resolved(xs: seq<Extent>) {
    && (forall i :: 0 <= i < |xs| ==> InBounds(xs[i]))
    && (forall i, j :: 0 <= i < j < |xs| ==> End(xs[i]) <= xs[j].pos)
  }

  predicate Apart(a: Extent, b: Extent) {
    End(a) <= b.pos || End(b) <= a.pos
  }

  lemma {:induction false} LookupAppend(xs: seq<Extent>, ys: seq<Extent>, p: nat)
    ensures Lookup(xs + ys, p) == if Lookup(ys, p).Some? then Lookup(ys, p) else Lookup(xs, p)
    decreases |ys|
  {
    if ys == [] {
      assert xs + ys == xs;
    } else {
      assert (xs + ys)[..|xs + ys| - 1] == xs + ys[..|ys| - 1];
      LookupAppend(xs, ys[..|ys| - 1], p);
    }
  }

  // --- overlaying one more extent ----------------------------------------------------------

  /** What is left of `was` outside `next`; the offset of the right part is 32 bits wide. */
  function Remains(was: Extent, next: Extent): seq<Extent>
    requires InBounds(was) && InBounds(next)
  {
    if End(was) <= next.pos || was.pos >= End(next) then [was]
    else
      (if was.pos < next.pos then [was.(len := next.pos - was.pos)] else []) +
      if End(was) > End(next)
      then [Extent(End(next), was.id, was.size, (was.off + (End(next) - was.pos)) % WORD, End(was) - End(next))]
      else []
  }

  lemma LookupOne(e: Extent, p: nat)
    ensures Lookup([e], p) == if Covers(e, p) then Some(SourceOf(e, p)) else None
  {
    assert [e][..0] == [];
  }

  lemma RemainsMeans(was: Extent, next: Extent, p: nat)
    requires InBounds(was) && InBounds(next)
    ensures Lookup(Remains(was, next), p) == if Covers(was, p) && !Covers(next, p) then Some(SourceOf(was, p)) else None
  {
    var xs := Remains(was, next);
    if |xs| == 2 {
      assert xs == [xs[0]] + [xs[1]];
      LookupAppend([xs[0]], [xs[1]], p);
      LookupOne(xs[0], p);
      LookupOne(xs[1], p);
    } else if |xs| == 1 {
      assert xs == [xs[0]];
      LookupOne(xs[0], p);
    }
  }

  lemma RemainsFit(was: Extent, next: Extent)
    requires InBounds(was) && InBounds(next)
    ensures Resolved(Remains(was, next))
    ensures forall e :: e in Remains(was, next) ==> was.pos <= e.pos && End(e) <= End(was) && Apart(e, next)
  {
  }

  function InsertByPos(xs: seq<Extent>, e: Extent): seq<Extent> {
    if xs == [] || xs[|xs| - 1].pos <= e.pos then xs + [e]
    else InsertByPos(xs[..|xs| - 1], e) + [xs[|xs| - 1]]
  }

  function SortByPos(xs: seq<Extent>): seq<Extent> {
    if xs == [] then [] else InsertByPos(SortByPos(xs[..|xs| - 1]), xs[|xs| - 1])
  }

  ghost predicate Ordered(xs: seq<Extent>) {
    forall i, j :: 0 <= i < j < |xs| ==> xs[i].pos <= xs[j].pos
  }

  lemma OrderedSnoc(xs: seq<Extent>, last: Extent)
    requires Ordered(xs) && forall x :: x in xs ==> x.pos <= last.pos
    ensures Ordered(xs + [last])
  {
    assert forall i :: 0 <= i < |xs| ==> xs[i] in xs;
  }

  lemma {:induction false} InsertPermutes(xs: seq<Extent>, e: Extent)
    ensures multiset(InsertByPos(xs, e)) == multiset(xs) + multiset{e}
    ensures forall x :: x in InsertByPos(xs, e) ==> x in xs || x == e
    decreases |xs|
  {
    if xs != [] && xs[|xs| - 1].pos > e.pos {
      assert xs == xs[..|xs| - 1] + [xs[|xs| - 1]];
      InsertPermutes(xs[..|xs| - 1], e);
    }
  }

  lemma {:induction false} InsertSorts(xs: seq<Extent>, e: Extent)
    requires Ordered(xs)
    ensures Ordered(InsertByPos(xs, e)) && multiset(InsertByPos(xs, e)) == multiset(xs) + multiset{e}
    decreases |xs|
  {
    InsertPermutes(xs, e);
    if xs != [] && xs[|xs| - 1].pos > e.pos {
      var init, last := xs[..|xs| - 1], xs[|xs| - 1];
      InsertSorts(init, e);
      InsertPermutes(init, e);
      assert forall x :: x in init ==> x.pos <= last.pos;
      OrderedSnoc(InsertByPos(init, e), last);
    }
  }

  /** `SortByPos` is the ordering the library sort promises. */
  lemma {:induction false} SortSorts(xs: seq<Extent>)
    ensures Ordered(SortByPos(xs)) && multiset(SortByPos(xs)) == multiset(xs)
    decreases |xs|
  {
    if xs != [] {
      assert xs == xs[..|xs| - 1] + [xs[|xs| - 1]];
      SortSorts(xs[..|xs| - 1]);
      InsertSorts(SortByPos(xs[..|xs| - 1]), xs[|xs| - 1]);
    }
  }

  lemma {:induction false} SortOfOrdered(xs: seq<Extent>)
    requires Ordered(xs)
    ensures SortByPos(xs) == xs
    decreases |xs|
  {
    if xs != [] {
      SortOfOrdered(xs[..|xs| - 1]);
    }
  }

  lemma {:induction false} InsertMeans(xs: seq<Extent>, e: Extent, p: nat)
    requires forall x :: x in xs ==> Apart(x, e)
    ensures Lookup(InsertByPos(xs, e), p) == if Covers(e, p) then Some(SourceOf(e, p)) else Lookup(xs, p)
    decreases |xs|
  {
    if xs == [] || xs[|xs| - 1].pos <= e.pos {
      LookupAppend(xs, [e], p);
      LookupOne(e, p);
    } else {
      var init, last := xs[..|xs| - 1], xs[|xs| - 1];
      assert Apart(last, e);
      InsertMeans(init, e, p);
      LookupAppend(InsertByPos(init, e), [last], p);
      LookupOne(last, p);
    }
  }

  lemma ResolvedSnoc(xs: seq<Extent>, last: Extent)
    requires Resolved(xs) && InBounds(last) && forall x :: x in xs ==> End(x) <= last.pos
    ensures Resolved(xs + [last])
  {
    assert forall i :: 0 <= i < |xs| ==> xs[i] in xs;
  }

  lemma {:induction false} InsertFits(xs: seq<Extent>, e: Extent)
    requires Resolved(xs) && InBounds(e) && forall x :: x in xs ==> Apart(x, e)
    ensures Resolved(InsertByPos(xs, e))
    decreases |xs|
  {
    if xs == [] || xs[|xs| - 1].pos <= e.pos {
      forall x | x in xs ensures End(x) <= e.pos {
        assert Apart(xs[|xs| - 1], e);
      }
      ResolvedSnoc(xs, e);
    } else {
      var init, last := xs[..|xs| - 1], xs[|xs| - 1];
      assert Apart(last, e);
      assert forall x :: x in init ==> x in xs && End(x) <= last.pos;
      InsertFits(init, e);
      InsertPermutes(init, e);
      ResolvedSnoc(InsertByPos(init, e), last);
    }
  }

  method Overlay(visible: seq<Extent>, next: Extent) returns (updated: seq<Extent>)
    requires Resolved(visible) && InBounds(next)
    ensures Resolved(updated)
    ensures forall p :: Lookup(updated, p) == Lookup(visible + [next], p)
  {
    updated := [];
    for j := 0 to |visible|
      invariant Resolved(updated)
      invariant forall e :: e in updated ==> Apart(e, next)
      invariant forall e :: e in updated ==> j > 0 && End(e) <= End(visible[j - 1])
      invariant forall p :: Lookup(updated, p) == if Covers(next, p) then None else Lookup(visible[..j], p)
    {
      var pieces := Remains(visible[j], next);
      forall p ensures Lookup(updated + pieces, p) == if Covers(next, p) then None else Lookup(visible[..j + 1], p) {
        RemainsMeans(visible[j], next, p);
        LookupAppend(updated, pieces, p);
        assert visible[..j + 1][..j] == visible[..j];
      }
      RemainsFit(visible[j], next);
      forall e | e in updated ensures End(e) <= visible[j].pos {
      }
      forall i, k | 0 <= i < k < |updated + pieces| ensures End((updated + pieces)[i]) <= (updated + pieces)[k].pos {
        if i < |updated| <= k {
          assert updated[i] in updated && pieces[k - |updated|] in pieces;
        }
      }
      updated := updated + pieces;
    }
    assert visible[..|visible|] == visible;
    ghost var rest := updated;
    updated := SortByPos(updated + [next]);
    SortOfOrdered(rest);
    assert (rest + [next])[..|rest|] == rest;
    forall p ensures Lookup(updated, p) == Lookup(visible + [next], p) {
      InsertMeans(rest, next, p);
      assert (visible + [next])[..|visible|] == visible;
    }
    InsertFits(rest, next);
  }

  /**
   Resolving fails exactly when some extent with bytes leaves its chunk or its
   slice; otherwise the result is in order, without overlap, and shows at every
   position what the last write of the history put there.
   */
  method Resolve(raw: seq<Extent>) returns (r: Option<seq<Extent>>)
    ensures r.None? <==> exists i :: 0 <= i < |raw| && raw[i].len > 0 && !InBounds(raw[i])
    ensures r.Some? ==> Resolved(r.value) && forall p :: Lookup(r.value, p) == Lookup(raw, p)
  {
    var visible := [];
    for k := 0 to |raw|
      invariant forall i :: 0 <= i < k && raw[i].len > 0 ==> InBounds(raw[i])
      invariant Resolved(visible)
      invariant forall p :: Lookup(visible, p) == Lookup(raw[..k], p)
    {
      var next := raw[k];
      assert raw[..k + 1] == raw[..k] + [next];
      if next.len == 0 {
        forall p ensures Lookup(raw[..k + 1], p) == Lookup(raw[..k], p) {
          LookupAppend(raw[..k], [next], p);
        }
        continue;
      }
      if End(next) > CHUNK_SIZE {
        return None;
      }
      if next.id != 0 && next.off + next.len > next.size {
        return None;
      }
      ghost var before := visible;
      visible := Overlay(visible, next);
      forall p ensures Lookup(visible, p) == Lookup(raw[..k + 1], p) {
        LookupAppend(before, [next], p);
        LookupAppend(raw[..k], [next], p);
      }
    }
    assert raw[..|raw|] == raw;
    return Some(visible);
  }
}
