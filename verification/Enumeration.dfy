/** Walking the tree: which places hold values, in the order of the child chains. */
module Enumeration {
  import opened Slots
  import opened Rings
  import opened Layouts

  function Depth(p: Path): nat {
    match p
    case Root => 0
    case Edge(up, _) => Depth(up) + 1
  }

  ghost predicate Bounded(g: Layout, h: nat) {
    forall p :: p in g.at ==> Depth(p) <= h
  }

  /** A finite tree has a depth. */
  lemma {:induction false} DepthOf(places: set<Path>) returns (h: nat)
    ensures forall p :: p in places ==> Depth(p) <= h
  {
    if places == {} {
      h := 0;
    } else {
      var p :| p in places;
      var h' := DepthOf(places - {p});
      h := if h' < Depth(p) then Depth(p) else h';
      assert forall q :: q in places ==> q == p || q in places - {p};
    }
  }

  lemma TreeDepth(g: Layout) returns (h: nat)
    ensures Bounded(g, h)
  {
    h := DepthOf(g.at.Keys);
  }

  /** `q` is `p` or a place further down. */
  predicate Beneath(p: Path, q: Path) {
    q == p || (q.Edge? && Beneath(p, q.up))
  }

  /** Whether a value is stored at the inner place `p`. */
  predicate Holds(g: Layout, p: Path) {
    Edge(p, 0) in g.at
  }

  /** The places below `p` that hold a value, from index `i` of its chain on. */
  ghost function Flat(g: Layout, h: nat, p: Path, i: nat): seq<Path>
    decreases if Depth(p) < h then h - Depth(p) else 0, if p in g.kids && i < |g.kids[p]| then |g.kids[p]| - i else 0
  {
    if p !in g.kids || i >= |g.kids[p]| then []
    else Branch(g, h, p, g.kids[p][i]) + Flat(g, h, p, i + 1)
  }

  /** The places that hold a value and are reached from `p` through the label `l`. */
  ghost function Branch(g: Layout, h: nat, p: Path, l: byte): seq<Path>
    decreases if Depth(p) < h then h - Depth(p) else 0, 0
  {
    if l == 0 then (if Holds(g, p) then [p] else [])
    else if Depth(p) < h then Flat(g, h, Edge(p, l), 0)
    else []
  }

  /** Index of a label in a chain. */
  function IndexOf(ks: seq<byte>, l: byte): (i: nat)
    requires l in ks
    ensures i < |ks| && ks[i] == l
  {
    if ks[0] == l then 0 else 1 + IndexOf(ks[1..], l)
  }

  /** The places that hold a value, lie below `root` and come after everything below `p`. */
  ghost function Rest(g: Layout, h: nat, root: Path, p: Path): seq<Path>
  {
    if p == root || p.Root? || p.up !in g.kids || p.via !in g.kids[p.up] then []
    else Flat(g, h, p.up, IndexOf(g.kids[p.up], p.via) + 1) + Rest(g, h, root, p.up)
  }

  lemma {:induction false} RestSplits(g: Layout, h: nat, root: Path, p: Path, q: Path)
    requires TreeShaped(g.at.Keys, g.kids) && q in g.at
    requires Beneath(p, q) && Beneath(root, p)
    ensures Rest(g, h, root, q) == Rest(g, h, p, q) + Rest(g, h, root, p)
    decreases q
  {
    if q != p {
      assert q.up in g.at && q.via in g.kids[q.up];
      BeneathNotAbove(root, p, q);
      RestSplits(g, h, root, p, q.up);
      hide Flat, TreeShaped, IndexOf;
    }
  }

  lemma {:induction false} BeneathDepth(p: Path, q: Path)
    requires Beneath(p, q)
    ensures Depth(p) <= Depth(q)
    ensures Depth(p) == Depth(q) ==> p == q
    decreases q
  {
    if q != p {
      BeneathDepth(p, q.up);
    }
  }

  lemma BeneathNotAbove(root: Path, p: Path, q: Path)
    requires Beneath(root, p) && Beneath(p, q) && q != p
    ensures q != root
  {
    BeneathDepth(root, p);
    BeneathDepth(p, q);
  }

  lemma {:induction false} BeneathTrans(p: Path, q: Path, r: Path)
    requires Beneath(p, q) && Beneath(q, r)
    ensures Beneath(p, r)
    decreases r
  {
    if r != q {
      BeneathTrans(p, q, r.up);
    }
  }

  /** A place strictly below `p` lies below exactly one child of `p`. */
  lemma {:induction false} BeneathChild(p: Path, q: Path) returns (l: byte)
    requires Beneath(p, q) && q != p
    ensures Beneath(Edge(p, l), q)
    ensures forall m :: Beneath(Edge(p, m), q) ==> m == l
    decreases q
  {
    if q.up == p {
      l := q.via;
    } else {
      l := BeneathChild(p, q.up);
    }
    forall m | Beneath(Edge(p, m), q)
      ensures m == l
    {
      if q != Edge(p, m) && q.up == p {
        BeneathDepth(Edge(p, m), p);
      }
    }
  }

  /** All places above a place of the tree belong to the tree. */
  lemma {:induction false} AboveInTree(g: Layout, p: Path, q: Path)
    requires TreeShaped(g.at.Keys, g.kids) && q in g.kids && Beneath(p, q)
    ensures p in g.kids
    decreases q
  {
    if q != p {
      AboveInTree(g, p, q.up);
    }
  }

  /** Membership in `Flat`. */
  lemma {:induction false} FlatMembers(g: Layout, h: nat, p: Path, i: nat, q: Path)
    requires TreeShaped(g.at.Keys, g.kids) && Bounded(g, h) && p in g.kids
    ensures q in Flat(g, h, p, i) <==> exists j :: i <= j < |g.kids[p]| && Through(g, p, g.kids[p][j], q)
    decreases if Depth(p) < h then h - Depth(p) else 0, if i < |g.kids[p]| then |g.kids[p]| - i else 0
  {
    if i < |g.kids[p]| {
      var l := g.kids[p][i];
      BranchMembers(g, h, p, l, q);
      FlatMembers(g, h, p, i + 1, q);
      hide TreeShaped, Bounded, Through, Branch;
    }
  }

  /** `q` holds a value and is reached from `p` through the label `l`. */
  ghost predicate Through(g: Layout, p: Path, l: byte, q: Path) {
    Holds(g, q) && if l == 0 then q == p else Beneath(Edge(p, l), q)
  }

  lemma {:induction false} BranchMembers(g: Layout, h: nat, p: Path, l: byte, q: Path)
    requires TreeShaped(g.at.Keys, g.kids) && Bounded(g, h) && p in g.kids && l in g.kids[p]
    ensures q in Branch(g, h, p, l) <==> Through(g, p, l, q)
    decreases if Depth(p) < h then h - Depth(p) else 0, 0
  {
    if l != 0 {
      var e := Edge(p, l);
      assert e in g.at && Depth(e) <= h;
      FlatMembers(g, h, e, 0, q);
      AllMembers(g, e, q);
      hide TreeShaped, Flat;
    }
  }

  /** The places below `e` that hold a value are reached through the labels of its chain. */
  lemma AllMembers(g: Layout, e: Path, q: Path)
    requires TreeShaped(g.at.Keys, g.kids) && e in g.kids
    ensures (exists j :: 0 <= j < |g.kids[e]| && Through(g, e, g.kids[e][j], q)) <==> Holds(g, q) && Beneath(e, q)
  {
    if Holds(g, q) && Beneath(e, q) {
      assert q in g.kids && 0 in g.kids[q];
      if q == e {
        var j :| 0 <= j < |g.kids[e]| && g.kids[e][j] == 0;
        assert Through(g, e, g.kids[e][j], q);
      } else {
        var l := BeneathChild(e, q);
        AboveInTree(g, Edge(e, l), q);
        assert l in g.kids[e];
        var j :| 0 <= j < |g.kids[e]| && g.kids[e][j] == l;
        assert Through(g, e, g.kids[e][j], q);
      }
    }
    forall j | 0 <= j < |g.kids[e]| && Through(g, e, g.kids[e][j], q)
      ensures Beneath(e, q)
    {
      if g.kids[e][j] != 0 {
        BeneathTrans(e, Edge(e, g.kids[e][j]), q);
      }
    }
  }

  /** `Flat` lists a place at most once. */
  lemma {:induction false} FlatDistinct(g: Layout, h: nat, p: Path, i: nat)
    requires TreeShaped(g.at.Keys, g.kids) && Bounded(g, h) && p in g.kids
    ensures Distinct(Flat(g, h, p, i))
    decreases if Depth(p) < h then h - Depth(p) else 0, if i < |g.kids[p]| then |g.kids[p]| - i else 0
  {
    if i < |g.kids[p]| {
      var l := g.kids[p][i];
      FlatDistinct(g, h, p, i + 1);
      if l != 0 {
        assert l in g.kids[p];
        FlatDistinct(g, h, Edge(p, l), 0);
      }
      forall q | q in Branch(g, h, p, l) && q in Flat(g, h, p, i + 1)
        ensures false
      {
        BranchesDisjoint(g, h, p, i, q);
      }
      assert Distinct(Branch(g, h, p, l));
      hide TreeShaped, Bounded, Branch;
      DistinctConcat(Branch(g, h, p, l), Flat(g, h, p, i + 1));
    }
  }

  lemma DistinctConcat<T>(a: seq<T>, b: seq<T>)
    requires Distinct(a) && Distinct(b) && forall x :: x in a ==> x !in b
    ensures Distinct(a + b)
  {
    assert forall i :: 0 <= i < |a| ==> a[i] in a;
    assert forall i :: 0 <= i < |b| ==> b[i] in b;
  }

  lemma BranchesDisjoint(g: Layout, h: nat, p: Path, i: nat, q: Path)
    requires TreeShaped(g.at.Keys, g.kids) && Bounded(g, h) && p in g.kids && i < |g.kids[p]|
    ensures !(q in Branch(g, h, p, g.kids[p][i]) && q in Flat(g, h, p, i + 1))
  {
    BranchMembers(g, h, p, g.kids[p][i], q);
    FlatMembers(g, h, p, i + 1, q);
    forall j | i < j < |g.kids[p]|
      ensures !(Through(g, p, g.kids[p][i], q) && Through(g, p, g.kids[p][j], q))
    {
      assert GoodKids(g.kids[p]) && g.kids[p][i] != g.kids[p][j] && g.kids[p][j] != 0;
      SeparateBranches(g, p, g.kids[p][i], g.kids[p][j], q);
    }
    hide TreeShaped, Bounded, Through, Flat, Branch;
  }

  lemma SeparateBranches(g: Layout, p: Path, l: byte, m: byte, q: Path)
    requires l != m && m != 0
    ensures !(Through(g, p, l, q) && Through(g, p, m, q))
  {
    if Beneath(Edge(p, m), q) {
      BeneathDepth(Edge(p, m), q);
      BeneathTrans(p, Edge(p, m), q);
      var c := BeneathChild(p, q);
    }
  }
}
