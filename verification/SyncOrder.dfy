/** The order in which recorded directories are made durable. */
module SyncOrder {

  /** A path below the container directory, by its components; the container itself is the empty path. */
  type Path = seq<string>

  predicate PlainPart(part: string) {
    part != "" && forall i :: 0 <= i < |part| ==> part[i] != '/'
  }

  predicate Plain(p: Path) {
    forall i :: 0 <= i < |p| ==> PlainPart(p[i])
  }

  function Render(p: Path): string {
    if p == [] then "" else if |p| == 1 then p[0] else Render(p[..|p| - 1]) + "/" + p[|p| - 1]
  }

  function Slashes(s: string): nat {
    if s == "" then 0 else (if s[0] == '/' then 1 else 0) + Slashes(s[1..])
  }

  /** The byte order of texts. */
  predicate Less(a: string, b: string) {
    b != "" && (a == "" || a[0] < b[0] || (a[0] == b[0] && Less(a[1..], b[1..])))
  }

  /** The comparison of the sort: deeper first, then the larger name first. */
  predicate Before(a: Path, b: Path) {
    var m, n := Slashes(Render(a)), Slashes(Render(b));
    if m != n then m > n else Less(Render(b), Render(a))
  }

  predicate Ancestor(a: Path, b: Path) {
    |a| < |b| && a == b[..|a|]
  }

  lemma {:induction false} SlashesAppend(s: string, t: string)
    ensures Slashes(s + t) == Slashes(s) + Slashes(t)
    decreases |s|
  {
    if s == "" {
      assert s + t == t;
    } else {
      assert (s + t)[1..] == s[1..] + t;
      SlashesAppend(s[1..], t);
    }
  }

  lemma {:induction false} NoSlashes(part: string)
    requires forall i :: 0 <= i < |part| ==> part[i] != '/'
    ensures Slashes(part) == 0
    decreases |part|
  {
    if part != "" { NoSlashes(part[1..]); }
  }

  lemma {:induction false} SlashesOfRender(p: Path)
    requires Plain(p) && p != []
    ensures Slashes(Render(p)) == |p| - 1 && Render(p) != ""
    decreases |p|
  {
    var init, last := p[..|p| - 1], p[|p| - 1];
    NoSlashes(last);
    if |p| > 1 {
      SlashesOfRender(init);
      assert Slashes("/") == 1;
      SlashesAppend(Render(init), "/");
      SlashesAppend(Render(init) + "/", last);
    }
  }

  /** A descendant is always synced before its ancestor. */
  lemma DescendantFirst(a: Path, b: Path)
    requires Plain(a) && Plain(b) && Ancestor(a, b)
    ensures Before(b, a)
  {
    SlashesOfRender(b);
    if a != [] { SlashesOfRender(a); }
  }

  lemma {:induction false} LessTotal(a: string, b: string)
    ensures Less(a, b) || Less(b, a) || a == b
    ensures !(Less(a, b) && Less(b, a))
    decreases |a|
  {
    if a != "" && b != "" {
      LessTotal(a[1..], b[1..]);
      if a[0] == b[0] && a[1..] == b[1..] {
        assert a == [a[0]] + a[1..] && b == [b[0]] + b[1..];
      }
    }
  }

  lemma {:induction false} LessTransitive(a: string, b: string, c: string)
    requires Less(a, b) && Less(b, c)
    ensures Less(a, c)
    decreases |a|
  {
    if a != "" && a[0] == b[0] == c[0] { LessTransitive(a[1..], b[1..], c[1..]); }
  }

  /** `x` may stand in front of `y`. */
  predicate InOrder(x: Path, y: Path) {
    !Before(y, x)
  }

  lemma InOrderTotal(x: Path, y: Path)
    ensures InOrder(x, y) || InOrder(y, x)
  {
    LessTotal(Render(x), Render(y));
  }

  lemma InOrderTransitive(x: Path, y: Path, z: Path)
    requires InOrder(x, y) && InOrder(y, z)
    ensures InOrder(x, z)
  {
    LessTotal(Render(x), Render(y));
    LessTotal(Render(y), Render(z));
    LessTotal(Render(x), Render(z));
    if Less(Render(z), Render(y)) && Less(Render(y), Render(x)) { LessTransitive(Render(z), Render(y), Render(x)); }
  }

  ghost predicate Sorted(ps: seq<Path>) {
    forall i, j :: 0 <= i < j < |ps| ==> InOrder(ps[i], ps[j])
  }

  function Insert(ps: seq<Path>, p: Path): seq<Path> {
    if ps == [] || InOrder(ps[|ps| - 1], p) then ps + [p]
    else Insert(ps[..|ps| - 1], p) + [ps[|ps| - 1]]
  }

  lemma SortedSnoc(ps: seq<Path>, p: Path)
    requires Sorted(ps) && forall q :: q in ps ==> InOrder(q, p)
    ensures Sorted(ps + [p]) && multiset(ps + [p]) == multiset(ps) + multiset{p}
  {
  }

  lemma {:induction false} InsertSorts(ps: seq<Path>, p: Path)
    requires Sorted(ps)
    ensures Sorted(Insert(ps, p)) && multiset(Insert(ps, p)) == multiset(ps) + multiset{p}
    decreases |ps|
  {
    if ps != [] {
      var init, last := ps[..|ps| - 1], ps[|ps| - 1];
      assert ps == init + [last];
      if InOrder(last, p) {
        forall q | q in ps ensures InOrder(q, p) {
          if q != last { InOrderTransitive(q, last, p); }
        }
        SortedSnoc(ps, p);
      } else {
        InsertSorts(init, p);
        InOrderTotal(last, p);
        forall q | q in Insert(init, p) ensures InOrder(q, last) {
          assert q in multiset(Insert(init, p));
        }
        SortedSnoc(Insert(init, p), last);
      }
    }
  }

  /** All recorded directories in the order of their syncs. */
  method Order(dirs: set<Path>) returns (order: seq<Path>)
    ensures Sorted(order) && multiset(order) == multiset(dirs)
  {
    order := [];
    var todo := dirs;
    while todo != {}
      invariant todo <= dirs && Sorted(order)
      invariant multiset(order) + multiset(todo) == multiset(dirs)
      decreases |todo|
    {
      var p :| p in todo;
      InsertSorts(order, p);
      order := Insert(order, p);
      assert multiset(todo) == multiset(todo - {p}) + multiset{p};
      todo := todo - {p};
    }
  }

  /**
   In such an order every directory comes after all its recorded descendants
   and the container comes last.
   */
  lemma OrderIsBottomUp(dirs: set<Path>, order: seq<Path>)
    requires Sorted(order) && multiset(order) == multiset(dirs) && [] in dirs && forall d :: d in dirs ==> Plain(d)
    ensures forall i, j :: 0 <= i < j < |order| ==> !Ancestor(order[i], order[j])
    ensures |order| > 0 && order[|order| - 1] == []
    ensures forall d :: d in dirs <==> d in order
  {
    forall d ensures d in dirs <==> d in order {
      assert d in order <==> d in multiset(order);
    }
    forall i, j | 0 <= i < j < |order| ensures !Ancestor(order[i], order[j]) {
      assert order[i] in multiset(order) && order[j] in multiset(order);
      if Ancestor(order[i], order[j]) { DescendantFirst(order[i], order[j]); }
    }
    var k :| 0 <= k < |order| && order[k] == [];
    if k < |order| - 1 && order[|order| - 1] != [] {
      assert Ancestor(order[k], order[|order| - 1]);
    }
  }
}
