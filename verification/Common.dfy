/** Small shared vocabulary: options, identifiers and counting in maps. */
module Common {

  datatype Option<+T> = None | Some(value: T)

  /** Zero or one element, as a sequence. */
  function OptSeq<T>(o: Option<T>): seq<T> {
    if o.Some? then [o.value] else []
  }

  /**
   A text that the program only compares with other texts: a digest, an
   address, an instance or operation identifier. The empty text is `EMPTY`.
   */
  type Name = nat

  const EMPTY: Name := 0

  type Octet = x: int | 0 <= x < 256

  /** The canonical identifiers, 16 bytes in lower-case hexadecimal, are the names up to this bound. */
  const ID_LIMIT: nat := 0x1_0000_0000_0000_0000_0000_0000_0000_0000

  predicate ValidID(id: Name) {
    0 < id <= ID_LIMIT
  }

  /** The keys of `m` whose value satisfies `p`. */
  ghost function Having<K, V>(m: map<K, V>, p: V -> bool): set<K> {
    set k | k in m && p(m[k])
  }

  /** Writing one key of a map changes a selection of its keys by at most that key. */
  lemma HavingUpdate<K, V>(m: map<K, V>, k: K, v: V, p: V -> bool)
    ensures Having(m[k := v], p) == if p(v) then Having(m, p) + {k} else Having(m, p) - {k}
    ensures |Having(m[k := v], p)| == |Having(m, p)| - (if k in Having(m, p) then 1 else 0) + (if p(v) then 1 else 0)
  {
    var before := Having(m, p);
    var after := Having(m[k := v], p);
    assert after == if p(v) then before + {k} else before - {k};
    assert |before - {k}| == |before| - (if k in before then 1 else 0);
    assert before + {k} == (before - {k}) + {k};
  }

  /** Dropping one key of a map drops at most that key from a selection. */
  lemma HavingDrop<K, V>(m: map<K, V>, k: K, p: V -> bool)
    ensures Having(m - {k}, p) == Having(m, p) - {k}
    ensures |Having(m - {k}, p)| == |Having(m, p)| - (if k in Having(m, p) then 1 else 0)
  {
    assert Having(m - {k}, p) == Having(m, p) - {k};
  }

  lemma HavingNone<K, V>(m: map<K, V>, p: V -> bool)
    requires Having(m, p) == {}
    ensures forall k :: k in m ==> !p(m[k])
  {
    forall k | k in m ensures !p(m[k]) {
      assert k !in Having(m, p);
    }
  }
}
