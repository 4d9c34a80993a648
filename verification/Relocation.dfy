/** Moving a family of siblings to a new base, one child at a time, while one new edge is added. */
module Relocation {
  import opened Slots
  import opened Cells
  import opened Allocator
  import opened Layouts

  /** The same places hold the same values. */
  ghost predicate SameValues(arr: seq<Node>, g: Layout, arr': seq<Node>, g': Layout) {
    forall p :: p in g.at && !Inner(p) ==>
      && p in g'.at && 0 <= g.at[p] < |arr| && 0 <= g'.at[p] < |arr'|
      && arr'[g'.at[p]].base == arr[g.at[p]].base
  }

  /** The same tree with the same values, possibly at other slots. */
  ghost predicate Carries(arr: seq<Node>, g: Layout, arr': seq<Node>, g': Layout) {
    g'.at.Keys == g.at.Keys && g'.kids == g.kids && SameValues(arr, g, arr', g')
  }

  /** The same tree with the same values and one more edge, `l` below `p`. */
  ghost predicate CarriesAndAdds(arr: seq<Node>, g: Layout, arr': seq<Node>, g': Layout, p: Path, l: byte)
    requires p in g.kids
  {
    && g'.at.Keys == g.at.Keys + {Edge(p, l)}
    && g'.kids == GraftedKids(g.kids, p, l)
    && SameValues(arr, g, arr', g')
    && 0 <= g'.at[Edge(p, l)] < |arr'|
    && (l == 0 ==> arr'[g'.at[Edge(p, l)]].base == 0)
  }

  /** Every place but the children of `pf` keeps its slot. */
  ghost predicate Stays(g: Layout, g': Layout, pf: Path) {
    forall p :: p in g.at && !(p.Edge? && p.up == pf) ==> p in g'.at && g'.at[p] == g.at[p]
  }

  lemma StaysItself(g: Layout, pf: Path)
    ensures Stays(g, g, pf)
  {
  }

  lemma StaysTwice(g: Layout, g1: Layout, g2: Layout, pf: Path)
    requires Stays(g, g1, pf) && Stays(g1, g2, pf)
    ensures Stays(g, g2, pf)
  {
  }

  lemma RenamedStays(g: Layout, p: Path, b: int)
    requires p in g.at && p.Edge?
    ensures Stays(g, Renamed(g, p, b), p.up)
  {
  }

  /** A relocation: the family below `pf` moves from `oldBase` to `newBase`, in the order of `labels`; when the
      label at index `mark` is reached, the child of `pn` under `ln` is added.  Either it joins the moving
      family, or it takes over the contested slot, which the moving family leaves. */
  datatype Plan = Plan(pf: Path, oldBase: nat, newBase: nat, labels: seq<byte>, mark: nat,
                       pn: Path, baseN: nat, ln: byte, joins: bool)

  ghost predicate PlanOk(v: Plan) {
    && v.pf.Edge? && v.oldBase >= 256 && v.newBase >= 256 && v.baseN >= 256
    && GoodKids(v.labels) && v.mark < |v.labels|
    && Child(v.baseN, v.ln) == Child(v.oldBase, v.labels[v.mark])
    && (if v.joins then v.pn == v.pf && v.labels[v.mark] == v.ln else v.pn != v.pf)
    && (v.pn.Root? ==> v.ln != 0)
  }

  /** The child at index `j` still sits below the old base. */
  ghost predicate Waiting(g: Layout, v: Plan, j: nat)
    requires j < |v.labels|
  {
    Edge(v.pf, v.labels[j]) in g.at && g.at[Edge(v.pf, v.labels[j])] == Child(v.oldBase, v.labels[j])
  }

  ghost predicate Target(arr: seq<Node>, v: Plan, j: nat)
    requires j < |v.labels|
  {
    Free(arr, Child(v.newBase, v.labels[j]))
  }

  /** The first `i` labels have been dealt with; `done` says whether the new edge exists. */
  ghost predicate Midway(arr: seq<Node>, ninfo: seq<NInfo>, g: Layout, v: Plan, i: nat, done: bool, hole: int) {
    && TreeOk(arr, ninfo, g, hole, {v.pf})
    && v.pf in g.kids && v.pn in g.kids && v.pf in g.at && v.pn in g.at
    && i <= |v.labels| && |ninfo| == |arr|
    && 0 <= g.at[v.pf] < |arr| && arr[g.at[v.pf]].base == v.newBase < |arr|
    && ninfo[g.at[v.pf]].child == First(v.labels)
    && (forall j :: 0 <= j < i ==> KidOk(ninfo, g, v.pf, v.newBase, v.labels, j))
    && (forall j :: i <= j < |v.labels| ==> Target(arr, v, j))
    && (forall j :: i <= j < |v.labels| && !(v.joins && j == v.mark) ==> Waiting(g, v, j))
    && (if done then Edge(v.pn, v.ln) in g.at && g.kids[v.pf] == v.labels else EdgeDue(arr, g, v))
  }

  /** The new edge does not exist yet. */
  ghost predicate EdgeDue(arr: seq<Node>, g: Layout, v: Plan) {
    && v.pf in g.kids && v.pn in g.kids && v.pn in g.at
    && Edge(v.pn, v.ln) !in g.at
    && if v.joins then v.labels == InsertKid(g.kids[v.pf], v.ln)
       else && v.labels == g.kids[v.pf] && g.kids[v.pn] != []
            && 0 <= g.at[v.pn] < |arr| && arr[g.at[v.pn]].base == v.baseN
  }

  /** The new edge leaves every place where it is. */
  lemma GraftedStays(arr: seq<Node>, ninfo: seq<NInfo>, g: Layout, v: Plan, i: nat, hole: int, c: int)
    requires Midway(arr, ninfo, g, v, i, false, hole)
    ensures v.pn in g.kids && Stays(g, Grafted(g, v.pn, v.ln, c), v.pf)
  {
    hide TreeOk, GraftedKids, KidOk, Waiting, Target;
  }

  lemma JoinedStays(arr: seq<Node>, ninfo: seq<NInfo>, g: Layout, v: Plan, c: int)
    requires PlanOk(v) && v.joins && Midway(arr, ninfo, g, v, v.mark, false, 0)
    ensures v.pf == v.pn && v.pf in g.kids && Stays(g, Grafted(g, v.pf, v.ln, c), v.pf)
  {
    hide Grafted, Stays, Midway;
    GraftedStays(arr, ninfo, g, v, v.mark, 0, c);
  }

  /** Slots of the tree are in use. */
  lemma OwnedInUse(arr: seq<Node>, g: Layout, hole: int)
    requires Mirrored(g) && Stored(arr, g, hole)
    ensures forall s :: s in g.owner ==> InUse(arr, s)
  {
    forall s | s in g.owner
      ensures InUse(arr, s)
    {
      if s != 0 {
        assert g.at[g.owner[s].up] in g.owner;
      }
    }
  }

  lemma TargetNotOwned(arr: seq<Node>, ninfo: seq<NInfo>, g: Layout, v: Plan, i: nat, done: bool, j: nat)
    requires Midway(arr, ninfo, g, v, i, done, 0) && i <= j < |v.labels|
    ensures Child(v.newBase, v.labels[j]) !in g.owner
    ensures 0 < Child(v.newBase, v.labels[j]) < |arr|
  {
    OwnedInUse(arr, g, 0);
    assert Target(arr, v, j);
    hide Child;
  }

  /** Moving the child at index `i`. */
  lemma ChildMoved(arr: seq<Node>, ninfo: seq<NInfo>, g: Layout, v: Plan, i: nat, done: bool,
                   arr': seq<Node>, ninfo': seq<NInfo>)
    requires PlanOk(v) && Midway(arr, ninfo, g, v, i, done, 0)
    requires i < |v.labels| && !(v.joins && i == v.mark)
    requires Edge(v.pf, v.labels[i]) in g.at
    requires CellMoved(arr, ninfo, g, Edge(v.pf, v.labels[i]), Child(v.newBase, v.labels[i]), arr', ninfo')
    requires ninfo'[Child(v.newBase, v.labels[i])].sibling == After(v.labels, i)
    ensures var p := Edge(v.pf, v.labels[i]);
            && Midway(arr', ninfo', Renamed(g, p, Child(v.newBase, v.labels[i])), v, i + 1, done, g.at[p])
            && Carries(arr, g, arr', Renamed(g, p, Child(v.newBase, v.labels[i])))
  {
    var p, b := Edge(v.pf, v.labels[i]), Child(v.newBase, v.labels[i]);
    var g' := Renamed(g, p, b);
    TargetNotOwned(arr, ninfo, g, v, i, done, i);
    RenamedTree(arr, ninfo, g, p, b, arr', ninfo');
    RenamedCarries(arr, ninfo, g, p, b, arr', ninfo');
    forall j | 0 <= j < i + 1
      ensures KidOk(ninfo', g', v.pf, v.newBase, v.labels, j)
    {
      MovedKid(arr, ninfo, g, v, i, done, arr', ninfo', j);
    }
    forall j | i + 1 <= j < |v.labels|
      ensures Target(arr', v, j)
      ensures !(v.joins && j == v.mark) ==> Waiting(g', v, j)
    {
      MovedLater(arr, ninfo, g, v, i, done, arr', ninfo', j);
    }
    MovedFamily(arr, ninfo, g, v, i, done, arr', ninfo');
    hide TreeOk, KidOk, Child, CellMoved, GoodKids, Target, Waiting, EdgeDue, Renamed, First, Carries;
  }

  lemma RenamedCarries(arr: seq<Node>, ninfo: seq<NInfo>, g: Layout, p: Path, b: int,
                       arr': seq<Node>, ninfo': seq<NInfo>)
    requires Mirrored(g) && Stored(arr, g, 0)
    requires p in g.at && p.Edge? && b !in g.owner && CellMoved(arr, ninfo, g, p, b, arr', ninfo')
    ensures Carries(arr, g, arr', Renamed(g, p, b))
  {
  }

  lemma MovedKid(arr: seq<Node>, ninfo: seq<NInfo>, g: Layout, v: Plan, i: nat, done: bool,
                 arr': seq<Node>, ninfo': seq<NInfo>, j: nat)
    requires PlanOk(v) && Midway(arr, ninfo, g, v, i, done, 0)
    requires i < |v.labels| && Edge(v.pf, v.labels[i]) in g.at && j <= i
    requires CellMoved(arr, ninfo, g, Edge(v.pf, v.labels[i]), Child(v.newBase, v.labels[i]), arr', ninfo')
    requires ninfo'[Child(v.newBase, v.labels[i])].sibling == After(v.labels, i)
    ensures KidOk(ninfo', Renamed(g, Edge(v.pf, v.labels[i]), Child(v.newBase, v.labels[i])), v.pf, v.newBase, v.labels, j)
  {
    var p, b := Edge(v.pf, v.labels[i]), Child(v.newBase, v.labels[i]);
    assert g.at[p] in g.owner && g.owner[g.at[p]] == p;
    if j < i {
      assert KidOk(ninfo, g, v.pf, v.newBase, v.labels, j);
      assert v.labels[j] != v.labels[i];
      var s := SlotOf(g, v.pf, v.labels[j]);
      assert s in g.owner && g.owner[s] == Edge(v.pf, v.labels[j]);
    }
    hide TreeShaped, Child, Stored, NodesOk;
  }

  lemma MovedLater(arr: seq<Node>, ninfo: seq<NInfo>, g: Layout, v: Plan, i: nat, done: bool,
                   arr': seq<Node>, ninfo': seq<NInfo>, j: nat)
    requires PlanOk(v) && Midway(arr, ninfo, g, v, i, done, 0)
    requires i < |v.labels| && Edge(v.pf, v.labels[i]) in g.at && i < j < |v.labels|
    requires CellMoved(arr, ninfo, g, Edge(v.pf, v.labels[i]), Child(v.newBase, v.labels[i]), arr', ninfo')
    ensures Target(arr', v, j)
    ensures !(v.joins && j == v.mark) ==>
              Waiting(Renamed(g, Edge(v.pf, v.labels[i]), Child(v.newBase, v.labels[i])), v, j)
  {
    TargetNotOwned(arr, ninfo, g, v, i, done, j);
    assert v.labels[i] != v.labels[j];
    if Child(v.newBase, v.labels[i]) == Child(v.newBase, v.labels[j]) {
      ChildInjective(v.newBase, v.labels[i], v.labels[j]);
    }
    if !(v.joins && j == v.mark) {
      assert Waiting(g, v, j);
    }
    hide TreeOk, Child;
  }

  lemma MovedFamily(arr: seq<Node>, ninfo: seq<NInfo>, g: Layout, v: Plan, i: nat, done: bool,
                    arr': seq<Node>, ninfo': seq<NInfo>)
    requires PlanOk(v) && Midway(arr, ninfo, g, v, i, done, 0)
    requires i < |v.labels| && Edge(v.pf, v.labels[i]) in g.at
    requires CellMoved(arr, ninfo, g, Edge(v.pf, v.labels[i]), Child(v.newBase, v.labels[i]), arr', ninfo')
    ensures var g' := Renamed(g, Edge(v.pf, v.labels[i]), Child(v.newBase, v.labels[i]));
            && g'.kids == g.kids && g'.at.Keys == g.at.Keys && |ninfo'| == |arr'|
            && 0 <= g'.at[v.pf] < |arr'| && arr'[g'.at[v.pf]].base == v.newBase < |arr'|
            && ninfo'[g'.at[v.pf]].child == First(v.labels)
            && (!done ==> EdgeDue(arr', g', v))
  {
    var p := Edge(v.pf, v.labels[i]);
    assert v.pf != p;
    assert g.at[v.pf] in g.owner && g.owner[g.at[v.pf]] == v.pf;
    assert g.at[v.pn] in g.owner && g.owner[g.at[v.pn]] == v.pn;
    hide TreeShaped, Child, NodesOk, KidOk, Target, Waiting, GoodKids;
  }

  /** Emptying the slot a child has left. */
  lemma SlotFreed(arr: seq<Node>, ninfo: seq<NInfo>, g: Layout, v: Plan, i: nat, done: bool, a: int,
                  arr': seq<Node>, ninfo': seq<NInfo>)
    requires Midway(arr, ninfo, g, v, i, done, a) && a !in g.owner
    requires Freed(arr, arr', a) && 0 <= a < |ninfo| && ninfo' == ninfo[a := NO_INFO]
    ensures Midway(arr', ninfo', g, v, i, done, 0)
    ensures Carries(arr, g, arr', g)
  {
    hide GoodKids;
    OwnedInUse(arr, g, a);
    assert forall s :: s in g.owner ==> InUse(arr, s) && s != a && InUse(arr', s);
    TreeElsewhere(arr, ninfo, g, a, {v.pf}, arr', ninfo', 0);
    forall j | 0 <= j < i
      ensures KidOk(ninfo', g, v.pf, v.newBase, v.labels, j)
    {
      assert KidOk(ninfo, g, v.pf, v.newBase, v.labels, j);
      hide Child;
      assert SlotOf(g, v.pf, v.labels[j]) in g.owner;
    }
    forall j | i <= j < |v.labels|
      ensures Target(arr', v, j)
    {
      assert Target(arr, v, j);
      hide Child;
    }
    assert g.at[v.pf] in g.owner && g.at[v.pn] in g.owner;
    hide TreeOk, KidOk, Target, Child, Waiting;
  }

  /** The new edge joins the moving family. */
  lemma NewcomerAdded(arr: seq<Node>, ninfo: seq<NInfo>, g: Layout, v: Plan, arr': seq<Node>, ninfo': seq<NInfo>)
    requires PlanOk(v) && v.joins && Midway(arr, ninfo, g, v, v.mark, false, 0)
    requires |arr'| == |ninfo'|
    requires var b := Child(v.newBase, v.ln);
             && Took(arr, arr', b) && SameExcept(arr, arr', -1)
             && arr'[b] == Node(if v.ln != 0 then -1 else 0, g.at[v.pf])
             && ninfo'[b] == NInfo(After(v.labels, v.mark), 0)
    requires forall s :: s in g.owner && 0 <= s < |ninfo| ==> ninfo'[s] == ninfo[s]
    ensures var g' := Grafted(g, v.pf, v.ln, Child(v.newBase, v.ln));
            && Midway(arr', ninfo', g', v, v.mark + 1, true, 0)
            && CarriesAndAdds(arr, g, arr', g', v.pn, v.ln)
            && g'.at[Edge(v.pn, v.ln)] == Child(v.newBase, v.ln)
  {
    hide KidOk, Target, Waiting, Child, GoodKids, CarriesAndAdds, InUse;
    var b := Child(v.newBase, v.ln);
    TargetNotOwned(arr, ninfo, g, v, v.mark, false, v.mark);
    OwnedInUse(arr, g, 0);
    NewcomerTree(arr, ninfo, g, v, arr', ninfo');
    NewcomerFamily(arr, ninfo, g, v, arr', ninfo');
    GraftCarries(arr, g, 0, v.pf, v.ln, b, arr');
    assert g.at[v.pf] in g.owner;
    hide TreeOk, GraftedKids;
    assert EdgeDue(arr, g, v);
  }

  lemma NewcomerTree(arr: seq<Node>, ninfo: seq<NInfo>, g: Layout, v: Plan, arr': seq<Node>, ninfo': seq<NInfo>)
    requires PlanOk(v) && v.joins && Midway(arr, ninfo, g, v, v.mark, false, 0)
    requires |arr'| == |ninfo'|
    requires var b := Child(v.newBase, v.ln);
             && b !in g.owner
             && Took(arr, arr', b) && SameExcept(arr, arr', -1)
             && arr'[b] == Node(if v.ln != 0 then -1 else 0, g.at[v.pf])
             && ninfo'[b] == NInfo(After(v.labels, v.mark), 0)
    requires forall s :: s in g.owner && 0 <= s < |ninfo| ==> ninfo'[s] == ninfo[s]
    ensures TreeOk(arr', ninfo', Grafted(g, v.pf, v.ln, Child(v.newBase, v.ln)), 0, {v.pf})
  {
    hide Child;
    var b := Child(v.newBase, v.ln);
    OwnedInUse(arr, g, 0);
    assert MayGraft(g, v.pf, v.ln, b) && LeafAdded(arr, ninfo, g, v.pf, v.ln, b, arr', ninfo') by {
      hide TreeShaped, NodesOk, Child, Mirrored;
    }
    hide Midway, PlanOk, MayGraft, LeafAdded, Took, SameExcept, TreeOk;
    GraftedTree(arr, ninfo, g, 0, {v.pf}, v.pf, v.ln, b, arr', ninfo');
    assert {v.pf} + {v.pf} == {v.pf};
  }

  lemma NewcomerFamily(arr: seq<Node>, ninfo: seq<NInfo>, g: Layout, v: Plan, arr': seq<Node>, ninfo': seq<NInfo>)
    requires PlanOk(v) && v.joins && Midway(arr, ninfo, g, v, v.mark, false, 0)
    requires Took(arr, arr', Child(v.newBase, v.ln)) && |arr'| == |ninfo'|
    requires ninfo'[Child(v.newBase, v.ln)] == NInfo(After(v.labels, v.mark), 0)
    requires forall s :: s in g.owner && 0 <= s < |ninfo| ==> ninfo'[s] == ninfo[s]
    ensures var g' := Grafted(g, v.pf, v.ln, Child(v.newBase, v.ln));
            && (forall j :: 0 <= j <= v.mark ==> KidOk(ninfo', g', v.pf, v.newBase, v.labels, j))
            && (forall j :: v.mark < j < |v.labels| ==> Target(arr', v, j) && Waiting(g', v, j))
  {
    var g' := Grafted(g, v.pf, v.ln, Child(v.newBase, v.ln));
    assert 0 < Child(v.newBase, v.ln) < |ninfo'| && |ninfo| <= |ninfo'|;
    forall j | 0 <= j <= v.mark
      ensures KidOk(ninfo', g', v.pf, v.newBase, v.labels, j)
    {
      NewcomerKid(arr, ninfo, g, v, arr', ninfo', j);
    }
    forall j | v.mark < j < |v.labels|
      ensures Target(arr', v, j) && Waiting(g', v, j)
    {
      NewcomerLater(arr, ninfo, g, v, arr', ninfo', j);
    }
  }

  lemma NewcomerKid(arr: seq<Node>, ninfo: seq<NInfo>, g: Layout, v: Plan, arr': seq<Node>, ninfo': seq<NInfo>, j: nat)
    requires PlanOk(v) && v.joins && Midway(arr, ninfo, g, v, v.mark, false, 0) && j <= v.mark
    requires var b := Child(v.newBase, v.ln);
             && 0 < b < |ninfo'| && ninfo'[b] == NInfo(After(v.labels, v.mark), 0) && |ninfo| <= |ninfo'|
    requires forall s :: s in g.owner && 0 <= s < |ninfo| ==> ninfo'[s] == ninfo[s]
    ensures KidOk(ninfo', Grafted(g, v.pf, v.ln, Child(v.newBase, v.ln)), v.pf, v.newBase, v.labels, j)
  {
    hide TreeShaped, NodesOk, InsertKid;
    if j < v.mark {
      assert KidOk(ninfo, g, v.pf, v.newBase, v.labels, j);
      assert v.labels[j] != v.labels[v.mark];
      hide Child;
      assert SlotOf(g, v.pf, v.labels[j]) in g.owner;
    }
  }

  lemma NewcomerLater(arr: seq<Node>, ninfo: seq<NInfo>, g: Layout, v: Plan, arr': seq<Node>, ninfo': seq<NInfo>, j: nat)
    requires PlanOk(v) && v.joins && Midway(arr, ninfo, g, v, v.mark, false, 0) && v.mark < j < |v.labels|
    requires Took(arr, arr', Child(v.newBase, v.ln))
    ensures Target(arr', v, j)
    ensures Waiting(Grafted(g, v.pf, v.ln, Child(v.newBase, v.ln)), v, j)
  {
    assert Target(arr, v, j) && Waiting(g, v, j);
    assert v.labels[v.mark] != v.labels[j];
    if Child(v.newBase, v.labels[v.mark]) == Child(v.newBase, v.labels[j]) {
      ChildInjective(v.newBase, v.labels[v.mark], v.labels[j]);
    }
    hide TreeOk, Child, InsertKid;
  }

  lemma GraftCarries(arr: seq<Node>, g: Layout, hole: int, p: Path, l: byte, c: int, arr': seq<Node>)
    requires Mirrored(g) && Stored(arr, g, hole) && MayGraft(g, p, l, c) && p in g.at && Inner(p)
    requires |arr| <= |arr'| && 0 < c < |arr'|
    requires forall s :: s in g.owner && 0 <= s < |arr| && s != g.at[p] ==> arr'[s].base == arr[s].base
    requires arr'[c].base == if l != 0 then -1 else 0
    ensures CarriesAndAdds(arr, g, arr', Grafted(g, p, l, c), p, l)
  {
    hide InsertKid;
  }

  /** The array after the contested slot `a` became the child of `pn`. */
  ghost predicate Taken(arr: seq<Node>, ninfo: seq<NInfo>, g: Layout, v: Plan, arr': seq<Node>, ninfo': seq<NInfo>)
    requires v.pn in g.at && v.pn in g.kids
  {
    var a := Child(v.baseN, v.ln);
    && 0 < a < |arr| == |ninfo| && v.baseN < |arr| && Child(v.baseN, 0) < |arr|
    && 0 <= g.at[v.pn] < |ninfo|
    && arr' == arr[a := Node(if v.ln != 0 then -1 else 0, g.at[v.pn])]
    && var ninfo1 := WithSibling(ninfo, g.at[v.pn], v.baseN, v.ln, ninfo[g.at[v.pn]].child == 0);
       |ninfo1| == |ninfo| && ninfo' == ninfo1[a := ninfo1[a].(child := 0)]
  }

  /** The new edge takes over the slot that a child of the moving family has left. */
  lemma ContestedTaken(arr: seq<Node>, ninfo: seq<NInfo>, g: Layout, v: Plan, i: nat,
                       arr': seq<Node>, ninfo': seq<NInfo>)
    requires PlanOk(v) && !v.joins && Midway(arr, ninfo, g, v, i, false, Child(v.baseN, v.ln))
    requires Child(v.baseN, v.ln) !in g.owner && InUse(arr, Child(v.baseN, v.ln))
    requires Taken(arr, ninfo, g, v, arr', ninfo')
    ensures var g' := Grafted(g, v.pn, v.ln, Child(v.baseN, v.ln));
            && Midway(arr', ninfo', g', v, i, true, 0)
            && CarriesAndAdds(arr, g, arr', g', v.pn, v.ln)
            && g'.at[Edge(v.pn, v.ln)] == Child(v.baseN, v.ln)
  {
    var a := Child(v.baseN, v.ln);
    OwnedInUse(arr, g, a);
    TakenTree(arr, ninfo, g, v, arr', ninfo');
    TakenFrame(arr, ninfo, g, v, arr', ninfo');
    GraftCarries(arr, g, a, v.pn, v.ln, a, arr');
    ContestedFamily(arr, ninfo, g, v, i, arr', ninfo');
    assert a != 0 && 0 <= a < |arr|;
    hide TreeOk, KidOk, Target, Waiting, Child, GoodKids, GraftedKids, CarriesAndAdds, InUse, Taken, PlanOk, NodeOk;
    assert EdgeDue(arr, g, v);
  }

  lemma ContestedFamily(arr: seq<Node>, ninfo: seq<NInfo>, g: Layout, v: Plan, i: nat,
                        arr': seq<Node>, ninfo': seq<NInfo>)
    requires PlanOk(v) && !v.joins && Midway(arr, ninfo, g, v, i, false, Child(v.baseN, v.ln))
    requires NodeOk(arr, ninfo, g, v.pn)
    requires Child(v.baseN, v.ln) !in g.owner && InUse(arr, Child(v.baseN, v.ln))
    requires Taken(arr, ninfo, g, v, arr', ninfo')
    ensures var g' := Grafted(g, v.pn, v.ln, Child(v.baseN, v.ln));
            && (forall j :: 0 <= j < i ==> KidOk(ninfo', g', v.pf, v.newBase, v.labels, j))
            && (forall j :: i <= j < |v.labels| ==> Target(arr', v, j) && Waiting(g', v, j))
  {
    var g' := Grafted(g, v.pn, v.ln, Child(v.baseN, v.ln));
    forall j | 0 <= j < i
      ensures KidOk(ninfo', g', v.pf, v.newBase, v.labels, j)
    {
      assert KidOk(ninfo, g, v.pf, v.newBase, v.labels, j);
      TakenKid(arr, ninfo, g, v, arr', ninfo', j);
    }
    forall j | i <= j < |v.labels|
      ensures Target(arr', v, j) && Waiting(g', v, j)
    {
      assert Target(arr, v, j) && Waiting(g, v, j);
      hide Child, TreeOk, KidOk, NodeOk, GraftedKids, WithSibling;
    }
  }

  lemma TakenFrame(arr: seq<Node>, ninfo: seq<NInfo>, g: Layout, v: Plan, arr': seq<Node>, ninfo': seq<NInfo>)
    requires PlanOk(v) && !v.joins && v.pf in g.kids && v.pf in g.at && v.pn in g.at
    requires Mirrored(g) && Stored(arr, g, Child(v.baseN, v.ln)) && NodeOk(arr, ninfo, g, v.pn)
    requires TreeShaped(g.at.Keys, g.kids) && EdgeDue(arr, g, v)
    requires Child(v.baseN, v.ln) !in g.owner && Taken(arr, ninfo, g, v, arr', ninfo')
    ensures var g' := Grafted(g, v.pn, v.ln, Child(v.baseN, v.ln));
            && v.pf in g'.kids && v.pn in g'.kids && v.pf in g'.at && v.pn in g'.at
            && g'.kids[v.pf] == g.kids[v.pf] && g'.at[v.pf] == g.at[v.pf]
            && Edge(v.pn, v.ln) in g'.at
            && |arr'| == |arr| && |ninfo'| == |ninfo|
            && g.at[v.pf] in g.owner && 0 <= g.at[v.pf] < |arr|
            && arr'[g.at[v.pf]] == arr[g.at[v.pf]]
            && ninfo'[g.at[v.pf]].child == ninfo[g.at[v.pf]].child
  {
    var a := Child(v.baseN, v.ln);
    assert MayGraft(g, v.pn, v.ln, a);
    SiblingPushed(arr, ninfo, g, a, v.pn, v.ln, v.baseN, ninfo);
    assert Edge(v.pn, v.ln) != v.pf;
    assert g.at[v.pf] in g.owner && g.owner[g.at[v.pf]] == v.pf;
    assert g.at[v.pf] != g.at[v.pn];
    hide Child, InsertKid, TreeShaped, Stored, NodeOk, WithSibling, SiblingLinked, GoodKids;
  }

  lemma TakenTree(arr: seq<Node>, ninfo: seq<NInfo>, g: Layout, v: Plan, arr': seq<Node>, ninfo': seq<NInfo>)
    requires PlanOk(v) && !v.joins && v.pf in g.kids && v.pn in g.at
    requires TreeOk(arr, ninfo, g, Child(v.baseN, v.ln), {v.pf}) && EdgeDue(arr, g, v)
    requires Child(v.baseN, v.ln) !in g.owner && Taken(arr, ninfo, g, v, arr', ninfo')
    ensures TreeOk(arr', ninfo', Grafted(g, v.pn, v.ln, Child(v.baseN, v.ln)), 0, {v.pf})
    ensures NodeOk(arr, ninfo, g, v.pn)
  {
    var a := Child(v.baseN, v.ln);
    assert NodeOk(arr, ninfo, g, v.pn) && GoodKids(g.kids[v.pn]);
    SiblingPushed(arr, ninfo, g, a, v.pn, v.ln, v.baseN, ninfo);
    TakenLeaf(arr, ninfo, g, v, arr', ninfo');
    GraftedTree(arr, ninfo, g, a, {v.pf}, v.pn, v.ln, a, arr', ninfo');
    GraftedParent(arr, ninfo, g, a, v.pn, v.ln, a, arr', ninfo');
    hide Child, Mirrored, TreeShaped, Stored, NodeOk, Taken, GoodKids, WithSibling, SiblingLinked, BaseSettled, LeafAdded;
  }

  lemma TakenLeaf(arr: seq<Node>, ninfo: seq<NInfo>, g: Layout, v: Plan, arr': seq<Node>, ninfo': seq<NInfo>)
    requires PlanOk(v) && !v.joins && v.pn in g.at
    requires Mirrored(g) && Stored(arr, g, Child(v.baseN, v.ln)) && NodeOk(arr, ninfo, g, v.pn)
    requires GoodKids(g.kids[v.pn]) && EdgeDue(arr, g, v)
    requires Child(v.baseN, v.ln) !in g.owner && Taken(arr, ninfo, g, v, arr', ninfo')
    ensures LeafAdded(arr, ninfo, g, v.pn, v.ln, Child(v.baseN, v.ln), arr', ninfo')
    ensures SiblingLinked(ninfo, g, v.pn, v.ln, Child(v.baseN, v.ln), ninfo')
    ensures BaseSettled(arr, g, v.pn, v.ln, Child(v.baseN, v.ln), arr')
  {
    hide Child, GoodKids, WithSibling;
    var a := Child(v.baseN, v.ln);
    assert MayGraft(g, v.pn, v.ln, a);
    SiblingPushed(arr, ninfo, g, a, v.pn, v.ln, v.baseN, ninfo);
    OwnedInUse(arr, g, a);
    assert v.pn.Edge?;
    hide NodeOk, Mirrored;
  }

  lemma TakenKid(arr: seq<Node>, ninfo: seq<NInfo>, g: Layout, v: Plan, arr': seq<Node>, ninfo': seq<NInfo>, j: nat)
    requires PlanOk(v) && !v.joins && v.pf in g.kids && v.pf in g.at && v.pn in g.at
    requires Mirrored(g) && Stored(arr, g, Child(v.baseN, v.ln)) && NodeOk(arr, ninfo, g, v.pn)
    requires GoodKids(g.kids[v.pn]) && EdgeDue(arr, g, v)
    requires Child(v.baseN, v.ln) !in g.owner && Taken(arr, ninfo, g, v, arr', ninfo')
    requires KidOk(ninfo, g, v.pf, v.newBase, v.labels, j)
    ensures KidOk(ninfo', Grafted(g, v.pn, v.ln, Child(v.baseN, v.ln)), v.pf, v.newBase, v.labels, j)
  {
    var a := Child(v.baseN, v.ln);
    assert MayGraft(g, v.pn, v.ln, a);
    SiblingPushed(arr, ninfo, g, a, v.pn, v.ln, v.baseN, ninfo);
    var s := SlotOf(g, v.pf, v.labels[j]);
    assert s in g.owner && g.owner[s] == Edge(v.pf, v.labels[j]) && !OnChain(g, v.pn, s);
    hide Child, InsertKid, NodeOk, WithSibling, SiblingLinked, GoodKids, Stored, Mirrored;
  }

  /** Once every label has been dealt with, the tree is in order again. */
  lemma MoveFinished(arr: seq<Node>, ninfo: seq<NInfo>, g: Layout, v: Plan)
    requires PlanOk(v) && Midway(arr, ninfo, g, v, |v.labels|, true, 0)
    ensures TreeOk(arr, ninfo, g, 0, {})
  {
    assert NodeOk(arr, ninfo, g, v.pf) by {
      hide TreeOk, Child, KidOk, GoodKids, Waiting, Target;
    }
    hide NodeOk, Mirrored, TreeShaped, Stored;
  }

  // ------------------------------------------------------------------ one child's cell

  /** Whether `s` is the slot of a child with a label in `ks` below `base`. */
  ghost predicate IsKid(base: nat, ks: seq<byte>, s: int) {
    exists i :: 0 <= i < |ks| && Child(base, ks[i]) == s
  }

  /** The array after all children below `base` were told that their parent is at `to`. */
  ghost predicate Adopted(arr: seq<Node>, base: nat, ks: seq<byte>, to: int, arr': seq<Node>) {
    && |arr'| == |arr|
    && forall s :: 0 <= s < |arr| ==> arr'[s] == if IsKid(base, ks, s) then arr[s].(check := to) else arr[s]
  }

  /** An empty slot `b` was taken for a node below `from`, with its sibling link set. */
  ghost predicate Popped(arr: seq<Node>, ninfo: seq<NInfo>, b: int, from: int, filler: int, next: byte,
                         arr': seq<Node>, ninfo': seq<NInfo>)
  {
    && |ninfo| == |arr| && |ninfo'| == |arr'|
    && Took(arr, arr', b) && SameExcept(arr, arr', -1)
    && arr'[b] == Node(filler, from)
    && (forall s :: 0 <= s < |ninfo| && s != b ==> ninfo'[s] == ninfo[s])
    && ninfo'[b] == NInfo(next, 0)
  }

  /** The slots whose `check` is the slot of `p` are those its chain lists. */
  lemma KidSlots(arr: seq<Node>, ninfo: seq<NInfo>, g: Layout, hole: int, p: Path, s: int)
    requires Mirrored(g) && TreeShaped(g.at.Keys, g.kids) && Stored(arr, g, hole)
    requires p.Edge? && p in g.at && s in g.owner && s != 0
    requires p in g.kids ==> NodeOk(arr, ninfo, g, p)
    ensures p !in g.kids || g.kids[p] == [] ==> arr[s].check != g.at[p]
    ensures p in g.kids && g.kids[p] != [] ==>
              arr[g.at[p]].base >= 0 && (arr[s].check == g.at[p] <==> IsKid(arr[g.at[p]].base, g.kids[p], s))
  {
    if arr[s].check == g.at[p] {
      assert g.owner[s].up == p && g.owner[s].via in g.kids[p];
      var i :| 0 <= i < |g.kids[p]| && g.kids[p][i] == g.owner[s].via;
      assert KidOk(ninfo, g, p, arr[g.at[p]].base, g.kids[p], i);
    }
    if p in g.kids && g.kids[p] != [] && IsKid(arr[g.at[p]].base, g.kids[p], s) {
      KidOwned(arr, ninfo, g, p, s);
    }
    hide Child;
  }

  /** The slots whose `check` is the root's are those the root's chain lists. */
  lemma RootKidSlots(arr: seq<Node>, ninfo: seq<NInfo>, g: Layout, s: int)
    requires TreeOk(arr, ninfo, g, 0, {}) && s in g.owner && s != 0
    ensures Root in g.kids && 0 <= s < |arr| && (arr[s].check == 0 <==> IsKid(0, g.kids[Root], s))
  {
    assert NodeOk(arr, ninfo, g, Root) && g.at[Root] == 0;
    if arr[s].check == 0 {
      assert g.owner[s].up == Root && g.owner[s].via in g.kids[Root];
      var i :| 0 <= i < |g.kids[Root]| && g.kids[Root][i] == g.owner[s].via;
      assert KidOk(ninfo, g, Root, 0, g.kids[Root], i);
    }
    if i :| 0 <= i < |g.kids[Root]| && Child(0, g.kids[Root][i]) == s {
      assert KidOk(ninfo, g, Root, 0, g.kids[Root], i);
      assert g.owner[s] == Edge(Root, g.kids[Root][i]);
    }
    hide Child, NodesOk, GoodKids;
  }

  /** For every inner place, the slots whose `check` is its slot are exactly those its chain lists. */
  lemma ChildSlots(arr: seq<Node>, ninfo: seq<NInfo>, g: Layout, p: Path, s: int)
    requires TreeOk(arr, ninfo, g, 0, {}) && p in g.kids && s in g.owner && s != 0
    ensures p in g.at && 0 <= g.at[p] < |arr| && 0 <= s < |arr|
    ensures g.kids[p] == [] ==> arr[s].check != g.at[p]
    ensures g.kids[p] != [] ==>
              arr[g.at[p]].base >= 0 && (arr[s].check == g.at[p] <==> IsKid(arr[g.at[p]].base, g.kids[p], s))
  {
    assert NodeOk(arr, ninfo, g, p);
    if p.Root? {
      RootKidSlots(arr, ninfo, g, s);
    } else {
      KidSlots(arr, ninfo, g, 0, p, s);
    }
    hide NodesOk, IsKid, KidOk;
  }

  /** The cell of `p` was copied to `b`, and its children were told. */
  ghost predicate CellCopied(arr: seq<Node>, ninfo: seq<NInfo>, g: Layout, p: Path, b: int, next: byte,
                             arr1: seq<Node>, ninfo1: seq<NInfo>, arr2: seq<Node>, ninfo2: seq<NInfo>)
  {
    && p in g.at && 0 <= g.at[p] < |arr| == |ninfo| && 0 <= b < |arr1| == |ninfo1|
    && var a := g.at[p];
       var arr1' := arr1[b := arr1[b].(base := arr[a].base)];
       if p in g.kids && g.kids[p] != [] then
         && arr[a].base >= 0
         && Adopted(arr1', arr[a].base, g.kids[p], b, arr2)
         && ninfo2 == ninfo1[b := NInfo(next, ninfo[a].child)]
       else arr2 == arr1' && ninfo2 == ninfo1
  }

  /** Copying the base and the first child, and telling the children, moves the cell of `p`. */
  lemma CellCarried(arr: seq<Node>, ninfo: seq<NInfo>, g: Layout, p: Path, b: int, filler: int, next: byte,
                    arr1: seq<Node>, ninfo1: seq<NInfo>, arr2: seq<Node>, ninfo2: seq<NInfo>)
    requires Mirrored(g) && TreeShaped(g.at.Keys, g.kids) && Stored(arr, g, 0)
    requires p.Edge? && p in g.at && (p in g.kids ==> NodeOk(arr, ninfo, g, p)) && b !in g.owner
    requires Popped(arr, ninfo, b, arr[g.at[p]].check, filler, next, arr1, ninfo1)
    requires CellCopied(arr, ninfo, g, p, b, next, arr1, ninfo1, arr2, ninfo2)
    ensures CellMoved(arr, ninfo, g, p, b, arr2, ninfo2)
  {
    var a := g.at[p];
    assert a in g.owner && g.owner[a] == p;
    OwnedInUse(arr, g, 0);
    forall s | s in g.owner && s != a
      ensures 0 <= s < |arr| && arr2[s].base == arr[s].base
      ensures arr2[s].check == if s != 0 && arr[s].check == a then b else arr[s].check
    {
      CarriedSlot(arr, ninfo, g, p, b, filler, next, arr1, ninfo1, arr2, ninfo2, s);
    }
    CarriedItself(arr, ninfo, g, p, b, filler, next, arr1, ninfo1, arr2, ninfo2);
    CarriedUse(arr, ninfo, g, p, b, filler, next, arr1, ninfo1, arr2, ninfo2);
    hide Mirrored, TreeShaped, Stored, NodeOk, Adopted, IsKid, Took, SameExcept, InUse;
  }

  lemma CarriedSlot(arr: seq<Node>, ninfo: seq<NInfo>, g: Layout, p: Path, b: int, filler: int, next: byte,
                    arr1: seq<Node>, ninfo1: seq<NInfo>, arr2: seq<Node>, ninfo2: seq<NInfo>, s: int)
    requires Mirrored(g) && TreeShaped(g.at.Keys, g.kids) && Stored(arr, g, 0)
    requires p.Edge? && p in g.at && (p in g.kids ==> NodeOk(arr, ninfo, g, p)) && b !in g.owner
    requires Popped(arr, ninfo, b, arr[g.at[p]].check, filler, next, arr1, ninfo1)
    requires CellCopied(arr, ninfo, g, p, b, next, arr1, ninfo1, arr2, ninfo2)
    requires s in g.owner && s != g.at[p]
    ensures 0 <= s < |arr| && s < |arr2| && arr2[s].base == arr[s].base
    ensures arr2[s].check == if s != 0 && arr[s].check == g.at[p] then b else arr[s].check
  {
    OwnedInUse(arr, g, 0);
    assert arr1[s] == arr[s];
    if s != 0 {
      KidSlots(arr, ninfo, g, 0, p, s);
    } else if p in g.kids && g.kids[p] != [] {
      NotRootKid(arr, ninfo, g, p);
    }
    hide Mirrored, TreeShaped, Stored, NodeOk, IsKid, Took, SameExcept;
  }

  /** Slot 0 is nobody's child but the root's. */
  lemma NotRootKid(arr: seq<Node>, ninfo: seq<NInfo>, g: Layout, p: Path)
    requires p.Edge? && NodeOk(arr, ninfo, g, p) && g.kids[p] != []
    ensures arr[g.at[p]].base >= 0 && !IsKid(arr[g.at[p]].base, g.kids[p], 0)
  {
    var base := arr[g.at[p]].base;
    forall i | 0 <= i < |g.kids[p]|
      ensures Child(base, g.kids[p][i]) != 0
    {
      var c := Child(base, g.kids[p][i]);
      hide Child;
      assert Block(c) == Block(base);
    }
  }

  lemma CarriedItself(arr: seq<Node>, ninfo: seq<NInfo>, g: Layout, p: Path, b: int, filler: int, next: byte,
                      arr1: seq<Node>, ninfo1: seq<NInfo>, arr2: seq<Node>, ninfo2: seq<NInfo>)
    requires Mirrored(g) && TreeShaped(g.at.Keys, g.kids) && Stored(arr, g, 0)
    requires p.Edge? && p in g.at && (p in g.kids ==> NodeOk(arr, ninfo, g, p)) && b !in g.owner
    requires Popped(arr, ninfo, b, arr[g.at[p]].check, filler, next, arr1, ninfo1)
    requires CellCopied(arr, ninfo, g, p, b, next, arr1, ninfo1, arr2, ninfo2)
    ensures 0 < b < |arr2| == |ninfo2|
    ensures arr2[b].base == arr[g.at[p]].base && arr2[b].check == arr[g.at[p]].check
    ensures ninfo2[b].sibling == next
    ensures Inner(p) ==> ninfo2[b].child == ninfo[g.at[p]].child
  {
    if p in g.kids && g.kids[p] != [] {
      if IsKid(arr[g.at[p]].base, g.kids[p], b) {
        KidOwned(arr, ninfo, g, p, b);
      }
    }
    hide Stored, IsKid, Child, SameExcept;
  }

  lemma CarriedUse(arr: seq<Node>, ninfo: seq<NInfo>, g: Layout, p: Path, b: int, filler: int, next: byte,
                   arr1: seq<Node>, ninfo1: seq<NInfo>, arr2: seq<Node>, ninfo2: seq<NInfo>)
    requires Mirrored(g) && TreeShaped(g.at.Keys, g.kids) && Stored(arr, g, 0)
    requires p.Edge? && p in g.at && (p in g.kids ==> NodeOk(arr, ninfo, g, p)) && b !in g.owner
    requires Popped(arr, ninfo, b, arr[g.at[p]].check, filler, next, arr1, ninfo1)
    requires CellCopied(arr, ninfo, g, p, b, next, arr1, ninfo1, arr2, ninfo2)
    ensures |arr2| == |arr1|
    ensures forall s :: InUse(arr2, s) ==> s in g.owner || s == b
    ensures forall s :: 0 <= s < |arr1| && arr2[s] != arr1[s] ==>
              s == 0 || (arr1[s].check >= 0 && arr2[s].check >= 0)
  {
    var a := g.at[p];
    OwnedInUse(arr, g, 0);
    assert a in g.owner && arr[a].check >= 0 by {
      assert g.owner[a] == p && g.at[p.up] in g.owner;
    }
    forall s | 0 <= s < |arr1| && s != b
      ensures InUse(arr2, s) ==> s in g.owner
      ensures arr2[s] != arr1[s] ==> s == 0 || (arr1[s].check >= 0 && arr2[s].check >= 0)
    {
      if p in g.kids && g.kids[p] != [] && IsKid(arr[a].base, g.kids[p], s) {
        KidOwned(arr, ninfo, g, p, s);
      }
      hide IsKid, Mirrored, TreeShaped, NodeOk;
    }
    hide Mirrored, TreeShaped, Stored, NodeOk, IsKid, SameExcept;
  }

  lemma KidOwned(arr: seq<Node>, ninfo: seq<NInfo>, g: Layout, p: Path, s: int)
    requires Mirrored(g) && p.Edge? && NodeOk(arr, ninfo, g, p) && g.kids[p] != []
    requires IsKid(arr[g.at[p]].base, g.kids[p], s)
    ensures s in g.owner && g.owner[s].Edge? && g.owner[s].up == p
  {
    var i :| 0 <= i < |g.kids[p]| && Child(arr[g.at[p]].base, g.kids[p][i]) == s;
    assert KidOk(ninfo, g, p, arr[g.at[p]].base, g.kids[p], i);
  }

  /** What copying the cell of `p` to the freshly popped slot `b` finds. */
  lemma BeforeCopy(arr: seq<Node>, ninfo: seq<NInfo>, g: Layout, p: Path, b: int, filler: int, next: byte,
                   arr1: seq<Node>, ninfo1: seq<NInfo>)
    requires Mirrored(g) && TreeShaped(g.at.Keys, g.kids) && Stored(arr, g, 0)
    requires p.Edge? && p in g.at && (p in g.kids ==> NodeOk(arr, ninfo, g, p)) && b !in g.owner
    requires Popped(arr, ninfo, b, arr[g.at[p]].check, filler, next, arr1, ninfo1)
    ensures var a := g.at[p];
            && 0 <= a < |arr| && a != b && arr1[a] == arr[a] && ninfo1[a] == ninfo[a] && arr[a].check >= 0
            && (arr[a].base > 0 && p.via != 0 <==> p in g.kids && g.kids[p] != [])
            && (p in g.kids && g.kids[p] != [] ==>
                  && arr[a].base >= 256 && ninfo[a].child == g.kids[p][0] && GoodKids(g.kids[p])
                  && forall i :: 0 <= i < |g.kids[p]| ==> KidStep(arr1, ninfo1, arr[a].base, g.kids[p], b, i))
  {
    var a := g.at[p];
    OwnedInUse(arr, g, 0);
    assert a in g.owner && g.owner[a] == p && g.at[p.up] in g.owner;
    if p in g.kids && g.kids[p] != [] {
      forall i | 0 <= i < |g.kids[p]|
        ensures KidStep(arr1, ninfo1, arr[a].base, g.kids[p], b, i)
      {
        assert KidOk(ninfo, g, p, arr[a].base, g.kids[p], i);
        hide Child, TreeShaped;
        var s := SlotOf(g, p, g.kids[p][i]);
        assert s in g.owner && g.owner[s] == Edge(p, g.kids[p][i]);
        assert s != 0 && arr[s].check == a;
      }
      hide Mirrored, Stored, Took, SameExcept, KidStep;
    }
  }

  /** The child at index `i` is in use and links to the next one; its slot is not `b`. */
  ghost predicate KidStep(arr: seq<Node>, ninfo: seq<NInfo>, base: int, ks: seq<byte>, b: int, i: nat) {
    && i < |ks| && base >= 0 && Child(base, ks[i]) < |arr| == |ninfo|
    && Child(base, ks[i]) != b && arr[Child(base, ks[i])].check >= 0
    && ninfo[Child(base, ks[i])].sibling == After(ks, i)
  }

  lemma IsKidNext(base: nat, ks: seq<byte>, i: nat)
    requires i < |ks|
    ensures forall s :: IsKid(base, ks[..i + 1], s) <==> IsKid(base, ks[..i], s) || s == Child(base, ks[i])
  {
    hide Child;
    forall s
      ensures IsKid(base, ks[..i + 1], s) <==> IsKid(base, ks[..i], s) || s == Child(base, ks[i])
    {
      if IsKid(base, ks[..i], s) {
        var j :| 0 <= j < i && Child(base, ks[..i][j]) == s;
        assert Child(base, ks[..i + 1][j]) == s;
      }
      if s == Child(base, ks[i]) {
        assert Child(base, ks[..i + 1][i]) == s;
      }
      if IsKid(base, ks[..i + 1], s) && s != Child(base, ks[i]) {
        var j :| 0 <= j < i + 1 && Child(base, ks[..i + 1][j]) == s;
        assert Child(base, ks[..i][j]) == s;
      }
    }
  }

  lemma PoppedAfter(arr: seq<Node>, ninfo: seq<NInfo>, b: int, from: int, filler: int, next: byte,
                    arr': seq<Node>, ninfo1: seq<NInfo>)
    requires Blank(arr, ninfo) && Blank(arr', ninfo1) && Grown(ninfo, ninfo1)
    requires Took(arr, arr', b) && SameExcept(arr, arr', -1) && arr'[b] == Node(filler, from)
    requires ninfo1[b] == NO_INFO
    ensures Popped(arr, ninfo, b, from, filler, next, arr', ninfo1[b := ninfo1[b].(sibling := next)])
    ensures Blank(arr', ninfo1[b := ninfo1[b].(sibling := next)])
  {
  }

  /** Writing the side table entries of slots in use leaves the empty ones blank. */
  lemma BlankKept(arr: seq<Node>, ninfo: seq<NInfo>, arr': seq<Node>, ninfo': seq<NInfo>)
    requires Blank(arr, ninfo) && |arr'| == |arr| && |ninfo'| == |ninfo|
    requires forall s :: 0 <= s < |arr| && arr'[s] != arr[s] ==> s == 0 || (arr[s].check >= 0 && arr'[s].check >= 0)
    requires forall s :: 0 <= s < |arr| && ninfo'[s] != ninfo[s] ==> InUse(arr, s)
    ensures Blank(arr', ninfo')
  {
  }

  lemma KidStepsKept(arr: seq<Node>, ninfo: seq<NInfo>, base: int, ks: seq<byte>, b: int,
                     arr': seq<Node>, ninfo': seq<NInfo>)
    requires forall i :: 0 <= i < |ks| ==> KidStep(arr, ninfo, base, ks, b, i)
    requires |arr'| == |arr| == |ninfo'| == |ninfo|
    requires forall s :: 0 <= s < |arr| && s != b ==> arr'[s] == arr[s] && ninfo'[s] == ninfo[s]
    ensures forall i :: 0 <= i < |ks| ==> KidStep(arr', ninfo', base, ks, b, i)
  {
    hide Child;
    forall i | 0 <= i < |ks|
      ensures KidStep(arr', ninfo', base, ks, b, i)
    {
      assert KidStep(arr, ninfo, base, ks, b, i);
    }
  }

  /** What moving the child at index `i` starts from. */
  lemma BeforeMove(arr: seq<Node>, ninfo: seq<NInfo>, g: Layout, v: Plan, i: nat, done: bool)
    requires PlanOk(v) && Midway(arr, ninfo, g, v, i, done, 0) && i < |v.labels|
    ensures |ninfo| == |arr| && v.pf in g.at && v.pn in g.at && g.at[v.pf] >= 0
    ensures InUse(arr, g.at[v.pf]) && Free(arr, Child(v.newBase, v.labels[i]))
    ensures Child(v.newBase, v.labels[i]) !in g.owner
    ensures Child(v.oldBase, v.labels[i]) == Child(v.baseN, v.ln) <==> i == v.mark
    ensures !(v.joins && i == v.mark) ==>
              var p := Edge(v.pf, v.labels[i]);
              && p in g.at && g.at[p] == Child(v.oldBase, v.labels[i])
              && 0 <= g.at[p] < |arr| && g.at[p] != 0 && arr[g.at[p]].check == g.at[v.pf]
              && Mirrored(g) && TreeShaped(g.at.Keys, g.kids) && Stored(arr, g, 0)
              && (p in g.kids ==> NodeOk(arr, ninfo, g, p))
  {
    OwnedInUse(arr, g, 0);
    assert g.at[v.pf] in g.owner;
    assert Target(arr, v, i);
    if Child(v.oldBase, v.labels[i]) == Child(v.oldBase, v.labels[v.mark]) {
      ChildInjective(v.oldBase, v.labels[i], v.labels[v.mark]);
    }
    if !(v.joins && i == v.mark) {
      var p := Edge(v.pf, v.labels[i]);
      assert Waiting(g, v, i);
      hide Child;
      assert g.at[p] in g.owner && g.owner[g.at[p]] == p;
      assert v.pf != p;
    }
    hide Child, KidOk, NodeOk;
  }

  /** Whose slot the moved child had. */
  lemma MovedOwner(g: Layout, p: Path, b: int, q: Path)
    requires Mirrored(g) && p in g.at && q in g.at && b !in g.owner
    ensures g.at[q] == g.at[p] <==> q == p
    ensures q in Renamed(g, p, b).at && Renamed(g, p, b).at[q] == if q == p then b else g.at[q]
    ensures g.at[p] !in Renamed(g, p, b).owner
  {
  }

  lemma TookInRange(arr: seq<Node>, arr': seq<Node>, e: int, ninfo': seq<NInfo>)
    requires Took(arr, arr', e) && Blank(arr', ninfo')
    ensures 0 < e < |ninfo'|
  {
  }

  lemma CopyDone(arr: seq<Node>, ninfo: seq<NInfo>, g: Layout, p: Path, b: int, filler: int, next: byte,
                 arr1: seq<Node>, ninfo1: seq<NInfo>, arr2: seq<Node>, ninfo2: seq<NInfo>)
    requires Mirrored(g) && TreeShaped(g.at.Keys, g.kids) && Stored(arr, g, 0)
    requires p.Edge? && p in g.at && (p in g.kids ==> NodeOk(arr, ninfo, g, p)) && b !in g.owner
    requires 0 <= g.at[p] < |arr| && Popped(arr, ninfo, b, arr[g.at[p]].check, filler, next, arr1, ninfo1)
    requires 0 <= g.at[p] < |arr1| && 0 <= b < |arr1| == |ninfo1| && arr1[g.at[p]] == arr[g.at[p]]
    requires g.at[p] < |ninfo| == |arr|
    requires var a := g.at[p];
             var arr1' := arr1[b := arr1[b].(base := arr1[a].base)];
             if arr[a].base > 0 && p.via != 0 then
               && p in g.kids
               && Adopted(arr1', arr[a].base, g.kids[p], b, arr2)
               && ninfo2 == ninfo1[b := NInfo(next, ninfo[a].child)]
             else arr2 == arr1' && ninfo2 == ninfo1
    ensures CellMoved(arr, ninfo, g, p, b, arr2, ninfo2) && b < |ninfo2| && ninfo2[b].sibling == next
    ensures |arr2| == |arr1| && |ninfo2| == |ninfo1|
    ensures forall s :: 0 <= s < |arr1| && arr2[s] != arr1[s] ==>
              s == 0 || (arr1[s].check >= 0 && arr2[s].check >= 0)
  {
    BeforeCopy(arr, ninfo, g, p, b, filler, next, arr1, ninfo1);
    assert CellCopied(arr, ninfo, g, p, b, next, arr1, ninfo1, arr2, ninfo2) by {
      hide Adopted, Mirrored, TreeShaped, Stored, NodeOk, Popped, KidStep;
    }
    CellCarried(arr, ninfo, g, p, b, filler, next, arr1, ninfo1, arr2, ninfo2);
    CarriedUse(arr, ninfo, g, p, b, filler, next, arr1, ninfo1, arr2, ninfo2);
    CarriedItself(arr, ninfo, g, p, b, filler, next, arr1, ninfo1, arr2, ninfo2);
    hide Adopted, Mirrored, TreeShaped, Stored, NodeOk, Popped, KidStep, CellMoved;
  }

  lemma AfterCopy(arr: seq<Node>, ninfo: seq<NInfo>, g: Layout, p: Path, b: int, from: int, filler: int, next: byte,
                  arr1: seq<Node>, ninfo1: seq<NInfo>, arr2: seq<Node>, ninfo2: seq<NInfo>)
    requires Mirrored(g) && Stored(arr, g, 0) && p in g.at && p.Edge? && b !in g.owner
    requires Popped(arr, ninfo, b, from, filler, next, arr1, ninfo1) && Blank(arr1, ninfo1)
    requires |arr2| == |arr1| && |ninfo2| == |ninfo1|
    requires forall s :: 0 <= s < |arr1| && arr2[s] != arr1[s] ==>
               s == 0 || (arr1[s].check >= 0 && arr2[s].check >= 0)
    requires forall s :: 0 <= s < |arr1| && s != b ==> ninfo2[s] == ninfo1[s]
    ensures Blank(arr2, ninfo2) && b < |ninfo2|
    ensures InUse(arr2, g.at[p]) && g.at[p] != 0
  {
    OwnedInUse(arr, g, 0);
    assert g.at[p] in g.owner && g.owner[g.at[p]] == p;
    assert InUse(arr1, g.at[p]);
    BlankKept(arr1, ninfo1, arr2, ninfo2);
    hide Blank, Mirrored, Took, SameExcept;
  }

  lemma AfterMove(arr: seq<Node>, ninfo: seq<NInfo>, g: Layout, v: Plan, i: nat, done: bool, to: int,
                  arr': seq<Node>, ninfo': seq<NInfo>)
    requires PlanOk(v) && Midway(arr, ninfo, g, v, i, done, 0)
    requires i < |v.labels| && !(v.joins && i == v.mark)
    requires Edge(v.pf, v.labels[i]) in g.at && to == Child(v.newBase, v.labels[i])
    requires CellMoved(arr, ninfo, g, Edge(v.pf, v.labels[i]), to, arr', ninfo')
    requires to < |ninfo'| && ninfo'[to].sibling == After(v.labels, i)
    ensures var p := Edge(v.pf, v.labels[i]);
            var g' := Renamed(g, p, to);
            && Midway(arr', ninfo', g', v, i + 1, done, g.at[p]) && Carries(arr, g, arr', g')
            && v.pf in g'.at && v.pn in g'.at && g'.at[v.pf] == g.at[v.pf]
            && v.pn in g.at
            && g'.at[v.pn] == (if !v.joins && g.at[p] == g.at[v.pn] then to else g.at[v.pn])
            && g.at[p] !in g'.owner
            && (i != v.mark && Edge(v.pn, v.ln) in g.at ==> g'.at[Edge(v.pn, v.ln)] == g.at[Edge(v.pn, v.ln)])
  {
    assert i != v.mark ==> v.labels[i] != v.labels[v.mark];
    ChildMoved(arr, ninfo, g, v, i, done, arr', ninfo');
    TargetNotOwned(arr, ninfo, g, v, i, done, i);
    var p := Edge(v.pf, v.labels[i]);
    assert v.pf != p;
    MovedOwner(g, p, to, v.pn);
    MovedOwner(g, p, to, v.pf);
    hide TreeOk, Mirrored, Child, Renamed, KidOk, Waiting, Target, EdgeDue;
  }

  /** What taking over the contested slot starts from. */
  lemma BeforeTake(arr: seq<Node>, ninfo: seq<NInfo>, g: Layout, v: Plan, i: nat)
    requires PlanOk(v) && !v.joins && Midway(arr, ninfo, g, v, i, false, Child(v.baseN, v.ln))
    requires Child(v.baseN, v.ln) !in g.owner && InUse(arr, Child(v.baseN, v.ln))
    ensures v.pn in g.at && v.pn in g.kids && |arr| == |ninfo|
    ensures var a := Child(v.baseN, v.ln);
            && 0 < a < |ninfo| && Child(a, v.ln) == v.baseN < |ninfo| && Child(v.baseN, 0) < |ninfo|
            && 0 <= g.at[v.pn] < |ninfo| && arr[a].check >= 0
  {
    assert NodeOk(arr, ninfo, g, v.pn);
    ChildCancels(v.baseN, v.ln);
    ChildZero(v.baseN);
    hide Child;
    assert Block(Child(v.baseN, v.ln)) == Block(v.baseN);
  }

  lemma AfterTake(arr: seq<Node>, ninfo: seq<NInfo>, g: Layout, v: Plan, i: nat, arr': seq<Node>, ninfo': seq<NInfo>)
    requires PlanOk(v) && !v.joins && Midway(arr, ninfo, g, v, i, false, Child(v.baseN, v.ln))
    requires Child(v.baseN, v.ln) !in g.owner && InUse(arr, Child(v.baseN, v.ln)) && Blank(arr, ninfo)
    requires v.pn in g.at && v.pn in g.kids && 0 <= g.at[v.pn] < |ninfo| == |arr|
    requires Child(v.baseN, v.ln) < |arr| && Child(v.baseN, 0) < |ninfo|
    requires arr' == arr[Child(v.baseN, v.ln) := Node(if v.ln != 0 then -1 else 0, g.at[v.pn])]
    requires var a := Child(v.baseN, v.ln);
             var ninfo1 := WithSibling(ninfo, g.at[v.pn], v.baseN, v.ln, ninfo[g.at[v.pn]].child == 0);
             |ninfo1| == |ninfo| && ninfo' == ninfo1[a := ninfo1[a].(child := 0)]
    ensures Blank(arr', ninfo')
    ensures var a := Child(v.baseN, v.ln);
            var g' := Grafted(g, v.pn, v.ln, a);
            && Midway(arr', ninfo', g', v, i, true, 0)
            && CarriesAndAdds(arr, g, arr', g', v.pn, v.ln)
            && v.pf in g.at && v.pf in g'.at && g'.at[v.pf] == g.at[v.pf]
            && v.pn in g'.at && g'.at[v.pn] == g.at[v.pn]
            && Edge(v.pn, v.ln) in g'.at && g'.at[Edge(v.pn, v.ln)] == a
  {
    var a := Child(v.baseN, v.ln);
    BeforeTake(arr, ninfo, g, v, i);
    assert Taken(arr, ninfo, g, v, arr', ninfo');
    TakenBlank(arr, ninfo, g, v, i, arr', ninfo');
    ContestedTaken(arr, ninfo, g, v, i, arr', ninfo');
    hide TreeOk, Child, KidOk, Waiting, Target, Blank, WithSibling, GraftedKids, InUse, Taken, PlanOk;
  }

  lemma TakenBlank(arr: seq<Node>, ninfo: seq<NInfo>, g: Layout, v: Plan, i: nat, arr': seq<Node>, ninfo': seq<NInfo>)
    requires PlanOk(v) && !v.joins && Midway(arr, ninfo, g, v, i, false, Child(v.baseN, v.ln))
    requires Child(v.baseN, v.ln) !in g.owner && InUse(arr, Child(v.baseN, v.ln)) && Blank(arr, ninfo)
    requires v.pn in g.at && v.pn in g.kids && Taken(arr, ninfo, g, v, arr', ninfo')
    ensures Blank(arr', ninfo')
  {
    hide Child, TreeShaped, Stored, GoodKids;
    var a := Child(v.baseN, v.ln);
    OwnedInUse(arr, g, a);
    var ks := g.kids[v.pn];
    assert NodeOk(arr, ninfo, g, v.pn) && ks != [] && ks[0] == ninfo[g.at[v.pn]].child;
    assert g.at[v.pn] in g.owner;
    if ninfo[g.at[v.pn]].child == 0 {
      assert KidOk(ninfo, g, v.pn, v.baseN, ks, 0);
      assert SlotOf(g, v.pn, 0) in g.owner && SlotOf(g, v.pn, 0) == Child(v.baseN, 0);
    }
    hide Mirrored, KidOk, NodeOk;
  }

  // ------------------------------------------------------------------ the whole family

  /** How far the meaning has come: unchanged until the new edge is added at slot `to`, then one edge more. */
  ghost predicate Progress(arr: seq<Node>, g: Layout, arr': seq<Node>, g': Layout, v: Plan, done: bool, to: int) {
    && v.pn in g.kids
    && if done then CarriesAndAdds(arr, g, arr', g', v.pn, v.ln)
                    && Edge(v.pn, v.ln) in g'.at && g'.at[Edge(v.pn, v.ln)] == to
       else Carries(arr, g, arr', g')
  }

  /** What dealing with the label at index `i` does. */
  ghost predicate Stepped(arr: seq<Node>, g: Layout, arr': seq<Node>, g': Layout, v: Plan, i: nat, to: int) {
    if i == v.mark then
      && v.pn in g.kids && CarriesAndAdds(arr, g, arr', g', v.pn, v.ln)
      && Edge(v.pn, v.ln) in g'.at && g'.at[Edge(v.pn, v.ln)] == to
    else
      && Carries(arr, g, arr', g')
      && (Edge(v.pn, v.ln) in g.at && Edge(v.pn, v.ln) in g'.at ==>
            g'.at[Edge(v.pn, v.ln)] == g.at[Edge(v.pn, v.ln)])
  }

  lemma ProgressStays(arr: seq<Node>, g: Layout, v: Plan, to: int)
    requires Mirrored(g) && Stored(arr, g, 0) && v.pn in g.kids
    ensures Progress(arr, g, arr, g, v, false, to)
  {
  }

  lemma ProgressStep(arr: seq<Node>, g: Layout, arr1: seq<Node>, g1: Layout, arr2: seq<Node>, g2: Layout,
                     v: Plan, i: nat, to: int)
    requires Progress(arr, g, arr1, g1, v, v.mark < i, to) && Stepped(arr1, g1, arr2, g2, v, i, to)
    requires Mirrored(g2) && Stored(arr2, g2, 0)
    ensures Progress(arr, g, arr2, g2, v, v.mark < i + 1, to)
  {
    hide InsertKid, GraftedKids;
    if v.mark < i {
      assert Edge(v.pn, v.ln) in g2.at && g2.at[Edge(v.pn, v.ln)] in g2.owner;
      assert v.ln == 0 ==> !Inner(Edge(v.pn, v.ln));
    }
  }

  /** The relocation so far: its progress, in an array of the same size, with nothing but the family moved. */
  ghost predicate Underway(arr: seq<Node>, g: Layout, arr': seq<Node>, g': Layout, v: Plan, done: bool, to: int) {
    |arr'| == |arr| && Progress(arr, g, arr', g', v, done, to) && Stays(g, g', v.pf)
  }

  lemma UnderwayBegins(arr: seq<Node>, ninfo: seq<NInfo>, g: Layout, v: Plan, to: int)
    requires Midway(arr, ninfo, g, v, 0, false, 0)
    ensures Underway(arr, g, arr, g, v, false, to)
  {
    hide *;
    MidwayShape(arr, ninfo, g, v, 0, false, 0);
    ProgressStays(arr, g, v, to);
    StaysItself(g, v.pf);
    UnderwayOf(arr, g, arr, g, v, false, to);
  }

  lemma UnderwayOf(arr: seq<Node>, g: Layout, arr': seq<Node>, g': Layout, v: Plan, done: bool, to: int)
    ensures |arr'| == |arr| && Progress(arr, g, arr', g', v, done, to) && Stays(g, g', v.pf) <==>
            Underway(arr, g, arr', g', v, done, to)
  {
    hide Progress, Stays;
  }

  lemma UnderwayStep(arr: seq<Node>, g: Layout, arr1: seq<Node>, g1: Layout, arr2: seq<Node>, ninfo2: seq<NInfo>, g2: Layout,
                     v: Plan, i: nat, to: int)
    requires Underway(arr, g, arr1, g1, v, v.mark < i, to) && Midway(arr2, ninfo2, g2, v, i + 1, v.mark < i + 1, 0)
    requires Stepped(arr1, g1, arr2, g2, v, i, to) && Stays(g1, g2, v.pf) && |arr2| == |arr1|
    ensures Underway(arr, g, arr2, g2, v, v.mark < i + 1, to)
  {
    hide *;
    UnderwayOf(arr, g, arr1, g1, v, v.mark < i, to);
    MidwayShape(arr2, ninfo2, g2, v, i + 1, v.mark < i + 1, 0);
    ProgressStep(arr, g, arr1, g1, arr2, g2, v, i, to);
    StaysTwice(g, g1, g2, v.pf);
    UnderwayOf(arr, g, arr2, g2, v, v.mark < i + 1, to);
  }

  lemma MovedBase(arr: seq<Node>, ninfo: seq<NInfo>, g: Layout, v: Plan)
    requires Midway(arr, ninfo, g, v, |v.labels|, true, 0)
    ensures v.pf in g.at && 0 <= g.at[v.pf] < |arr| && arr[g.at[v.pf]].base == v.newBase
  {
  }

  lemma MidwayShape(arr: seq<Node>, ninfo: seq<NInfo>, g: Layout, v: Plan, i: nat, done: bool, hole: int)
    requires Midway(arr, ninfo, g, v, i, done, hole)
    ensures Mirrored(g) && Stored(arr, g, hole) && v.pn in g.kids && v.pf in g.at && v.pn in g.at
    ensures done ==> Edge(v.pn, v.ln) in g.at
  {
  }

  /** Facts about the label at index `i` that the control flow relies on. */
  lemma LabelFacts(v: Plan, i: nat)
    requires PlanOk(v) && i < |v.labels|
    ensures v.mark < |v.labels|
    ensures v.joins ==> v.labels[v.mark] == v.ln && v.pn == v.pf
    ensures Block(Child(v.oldBase, v.labels[i])) >= 1
  {
  }

  lemma MarkInRange(v: Plan)
    requires PlanOk(v)
    ensures v.mark < |v.labels|
  {
  }

  lemma AfterJoin(arr: seq<Node>, ninfo: seq<NInfo>, g: Layout, v: Plan, next: byte, arr': seq<Node>, ninfo': seq<NInfo>)
    requires PlanOk(v) && v.joins && Midway(arr, ninfo, g, v, v.mark, false, 0)
    requires v.pf in g.at && next == After(v.labels, v.mark)
    requires Popped(arr, ninfo, Child(v.newBase, v.ln), g.at[v.pf], if v.ln != 0 then -1 else 0, next, arr', ninfo')
    ensures var g' := Grafted(g, v.pf, v.ln, Child(v.newBase, v.ln));
            && Midway(arr', ninfo', g', v, v.mark + 1, true, 0)
            && v.pn in g.kids && CarriesAndAdds(arr, g, arr', g', v.pn, v.ln)
            && v.pf in g'.at && g'.at[v.pf] == g.at[v.pf] && v.pn == v.pf
            && Edge(v.pn, v.ln) in g'.at && g'.at[Edge(v.pn, v.ln)] == Child(v.newBase, v.ln)
  {
    TargetNotOwned(arr, ninfo, g, v, v.mark, false, v.mark);
    NewcomerAdded(arr, ninfo, g, v, arr', ninfo');
    assert Edge(v.pf, v.ln) !in g.at;
    hide TreeOk, KidOk, Target, Waiting, Child, GoodKids, GraftedKids, Popped;
  }

  lemma CarriesThenAdds(arr: seq<Node>, g: Layout, arr1: seq<Node>, g1: Layout, arr2: seq<Node>, g2: Layout, v: Plan)
    requires Carries(arr, g, arr1, g1) && v.pn in g1.kids && CarriesAndAdds(arr1, g1, arr2, g2, v.pn, v.ln)
    ensures v.pn in g.kids && CarriesAndAdds(arr, g, arr2, g2, v.pn, v.ln)
  {
    hide GraftedKids;
  }

  lemma CarriesTwice(arr: seq<Node>, g: Layout, arr1: seq<Node>, g1: Layout, arr2: seq<Node>, g2: Layout)
    requires Carries(arr, g, arr1, g1) && Carries(arr1, g1, arr2, g2)
    ensures Carries(arr, g, arr2, g2)
  {
  }

  /** The base and the first child of an exempted place do not matter to the rest of the tree. */
  lemma TreeRebased(arr: seq<Node>, ninfo: seq<NInfo>, g: Layout, p: Path, arr': seq<Node>, ninfo': seq<NInfo>)
    requires TreeOk(arr, ninfo, g, 0, {}) && p in g.kids && p in g.at && |ninfo| == |arr|
    requires 0 <= g.at[p] < |arr| == |arr'| == |ninfo'|
    requires arr'[g.at[p]].check == arr[g.at[p]].check && ninfo'[g.at[p]].sibling == ninfo[g.at[p]].sibling
    requires forall s :: 0 <= s < |arr| && s != g.at[p] ==> arr'[s] == arr[s] && ninfo'[s] == ninfo[s]
    ensures TreeOk(arr', ninfo', g, 0, {p})
  {
    assert Stored(arr', g, 0);
    forall q | q in g.kids && q != p
      ensures NodeOk(arr', ninfo', g, q)
    {
      NodeRebased(arr, ninfo, g, p, arr', ninfo', q);
    }
    hide Mirrored, TreeShaped, Stored, NodeOk;
  }

  lemma NodeRebased(arr: seq<Node>, ninfo: seq<NInfo>, g: Layout, p: Path, arr': seq<Node>, ninfo': seq<NInfo>, q: Path)
    requires Mirrored(g) && p in g.at && q != p && NodeOk(arr, ninfo, g, q)
    requires 0 <= g.at[p] < |arr| == |arr'| == |ninfo'|
    requires ninfo'[g.at[p]].sibling == ninfo[g.at[p]].sibling
    requires forall s :: 0 <= s < |arr| && s != g.at[p] ==> arr'[s] == arr[s] && ninfo'[s] == ninfo[s]
    ensures NodeOk(arr', ninfo', g, q)
  {
    assert g.at[q] != g.at[p];
    forall i | 0 <= i < |g.kids[q]|
      ensures KidOk(ninfo', g, q, arr[g.at[q]].base, g.kids[q], i)
    {
      assert KidOk(ninfo, g, q, arr[g.at[q]].base, g.kids[q], i);
      hide Child;
    }
    hide KidOk, Mirrored;
  }

  /** The relocation is about to begin: the parent has its new base and the places are free. */
  lemma MoveStarted(arr: seq<Node>, ninfo: seq<NInfo>, g: Layout, v: Plan, arr': seq<Node>, ninfo': seq<NInfo>)
    requires PlanOk(v) && TreeOk(arr, ninfo, g, 0, {}) && |ninfo| == |arr| && v.newBase < |arr|
    requires v.pf in g.kids && v.pn in g.kids && v.pf in g.at && v.pn in g.at
    requires 0 <= g.at[v.pf] < |arr| && arr[g.at[v.pf]].base == v.oldBase && g.kids[v.pf] != []
    requires Edge(v.pn, v.ln) !in g.at && g.kids[v.pn] != []
    requires 0 <= g.at[v.pn] < |arr| && arr[g.at[v.pn]].base == v.baseN
    requires v.labels == if v.joins then InsertKid(g.kids[v.pf], v.ln) else g.kids[v.pf]
    requires forall j :: 0 <= j < |v.labels| ==> Free(arr, Child(v.newBase, v.labels[j]))
    requires arr' == arr[g.at[v.pf] := arr[g.at[v.pf]].(base := v.newBase)]
    requires ninfo' == if v.joins && v.labels[0] == v.ln then ninfo[g.at[v.pf] := ninfo[g.at[v.pf]].(child := v.ln)] else ninfo
    ensures Midway(arr', ninfo', g, v, 0, false, 0)
    ensures Carries(arr, g, arr', g)
  {
    hide KidOk, Target, Waiting, Child, GoodKids, InsertKid, SameValues;
    TreeRebased(arr, ninfo, g, v.pf, arr', ninfo');
    assert g.at[v.pf] in g.owner && g.owner[g.at[v.pf]] == v.pf;
    assert g.at[v.pn] in g.owner && g.owner[g.at[v.pn]] == v.pn;
    assert NodeOk(arr, ninfo, g, v.pf);
    StartWaiting(arr, ninfo, g, v);
    forall j | 0 <= j < |v.labels|
      ensures Target(arr', v, j)
    {
      StartTarget(arr, ninfo, g, v, arr', j);
    }
    GraftedChild(g.kids[v.pf], v.ln);
    StartValues(arr, g, v, arr');
    hide TreeOk;
  }

  lemma StartTarget(arr: seq<Node>, ninfo: seq<NInfo>, g: Layout, v: Plan, arr': seq<Node>, j: nat)
    requires j < |v.labels| && v.pf in g.at && Mirrored(g) && Stored(arr, g, 0)
    requires Free(arr, Child(v.newBase, v.labels[j])) && 0 <= g.at[v.pf] < |arr|
    requires arr' == arr[g.at[v.pf] := arr[g.at[v.pf]].(base := v.newBase)]
    ensures Target(arr', v, j)
  {
    hide Child;
  }

  lemma StartValues(arr: seq<Node>, g: Layout, v: Plan, arr': seq<Node>)
    requires v.pf in g.at && Mirrored(g) && Stored(arr, g, 0) && Inner(v.pf) && 0 <= g.at[v.pf] < |arr|
    requires arr' == arr[g.at[v.pf] := arr[g.at[v.pf]].(base := v.newBase)]
    ensures SameValues(arr, g, arr', g)
  {
  }

  lemma StartWaiting(arr: seq<Node>, ninfo: seq<NInfo>, g: Layout, v: Plan)
    requires PlanOk(v) && v.pf in g.kids && NodeOk(arr, ninfo, g, v.pf)
    requires arr[g.at[v.pf]].base == v.oldBase && g.kids[v.pf] != []
    requires v.labels == if v.joins then InsertKid(g.kids[v.pf], v.ln) else g.kids[v.pf]
    ensures forall j :: 0 <= j < |v.labels| && !(v.joins && j == v.mark) ==> Waiting(g, v, j)
  {
    var ks := g.kids[v.pf];
    forall j | 0 <= j < |v.labels| && !(v.joins && j == v.mark)
      ensures Waiting(g, v, j)
    {
      assert v.labels[j] != v.labels[v.mark] || !v.joins;
      assert v.labels[j] in ks;
      var i :| 0 <= i < |ks| && ks[i] == v.labels[j];
      assert KidOk(ninfo, g, v.pf, v.oldBase, ks, i);
      hide Child;
    }
  }

  /** A slot below `pn`'s base that is in use for another parent: whose it is. */
  lemma Conflict(arr: seq<Node>, ninfo: seq<NInfo>, g: Layout, pn: Path, ln: byte) returns (pp: Path, m: nat)
    requires TreeOk(arr, ninfo, g, 0, {}) && pn in g.kids && pn in g.at && g.kids[pn] != [] && Blank(arr, ninfo)
    requires (pn.Root? ==> ln != 0) && 0 <= g.at[pn] < |arr|
    requires var base := arr[g.at[pn]].base;
             && base >= 0 && InUse(arr, Child(base, ln))
             && arr[Child(base, ln)].check != g.at[pn]
    ensures pn.Edge? && arr[g.at[pn]].base >= 256 && Edge(pn, ln) !in g.at && |ninfo| == |arr|
    ensures NodeOk(arr, ninfo, g, pn) && GoodKids(g.kids[pn])
    ensures var c := Child(arr[g.at[pn]].base, ln);
            && 0 < c < |arr| && pp in g.kids && pp in g.at && arr[c].check == g.at[pp] && pp != pn && pp.Edge?
            && NodeOk(arr, ninfo, g, pp) && GoodKids(g.kids[pp]) && g.kids[pp] != [] && 0 <= g.at[pp] < |arr|
            && arr[g.at[pp]].base >= 256 && m < |g.kids[pp]|
            && Child(arr[g.at[pp]].base, g.kids[pp][m]) == c
  {
    var base := arr[g.at[pn]].base;
    var c := Child(base, ln);
    assert NodeOk(arr, ninfo, g, pn);
    ConflictSlot(arr, ninfo, g, pn, ln);
    var q := g.owner[c];
    pp := q.up;
    assert q.via in g.kids[pp];
    m :| 0 <= m < |g.kids[pp]| && g.kids[pp][m] == q.via;
    assert NodeOk(arr, ninfo, g, pp);
    assert KidOk(ninfo, g, pp, arr[g.at[pp]].base, g.kids[pp], m);
    ConflictBlocks(arr, ninfo, g, pn, ln, pp, m);
    hide Child, KidOk, GoodKids;
    if Edge(pn, ln) in g.at {
      EdgePlaced(arr, ninfo, g, pn, ln);
    }
  }

  lemma ConflictSlot(arr: seq<Node>, ninfo: seq<NInfo>, g: Layout, pn: Path, ln: byte)
    requires TreeOk(arr, ninfo, g, 0, {}) && pn in g.kids && NodeOk(arr, ninfo, g, pn) && g.kids[pn] != []
    requires pn.Root? ==> ln != 0
    requires InUse(arr, Child(arr[g.at[pn]].base, ln))
    ensures var c := Child(arr[g.at[pn]].base, ln);
            && c in g.owner && c != 0 && g.owner[c].Edge? && g.owner[c] in g.at && g.owner[c].up in g.kids
            && arr[c].check == g.at[g.owner[c].up]
  {
    var base := arr[g.at[pn]].base;
    var c := Child(base, ln);
    if pn.Root? {
      XorCommutes(0, ln);
    }
    assert c != 0;
    hide Child, NodesOk;
  }

  /** An edge of the tree is where the base says. */
  lemma EdgePlaced(arr: seq<Node>, ninfo: seq<NInfo>, g: Layout, p: Path, l: byte)
    requires TreeOk(arr, ninfo, g, 0, {}) && p in g.kids && Edge(p, l) in g.at && |ninfo| == |arr|
    ensures p in g.at && 0 <= g.at[p] < |arr| && arr[g.at[p]].base >= 0 && g.kids[p] != []
    ensures g.at[Edge(p, l)] == Child(arr[g.at[p]].base, l)
    ensures 0 < g.at[Edge(p, l)] < |arr| && arr[g.at[Edge(p, l)]].check == g.at[p]
  {
    hide TreeOk, Child;
    EdgeSettled(arr, ninfo, g, 0, {}, p, l);
  }

  /** The same while other families are exempted. */
  lemma EdgeSettled(arr: seq<Node>, ninfo: seq<NInfo>, g: Layout, hole: int, ex: set<Path>, p: Path, l: byte)
    requires TreeOk(arr, ninfo, g, hole, ex) && p in g.kids && p !in ex && Edge(p, l) in g.at
    ensures p in g.at && 0 <= g.at[p] < |arr| == |ninfo| && arr[g.at[p]].base >= 0 && g.kids[p] != []
    ensures BaseOk(p, arr[g.at[p]].base, g.kids[p])
    ensures g.at[Edge(p, l)] == Child(arr[g.at[p]].base, l)
    ensures 0 < g.at[Edge(p, l)] < |arr| && arr[g.at[Edge(p, l)]].check == g.at[p]
  {
    assert NodeOk(arr, ninfo, g, p) && l in g.kids[p];
    var i :| 0 <= i < |g.kids[p]| && g.kids[p][i] == l;
    assert KidOk(ninfo, g, p, arr[g.at[p]].base, g.kids[p], i);
    hide Child;
    assert g.at[Edge(p, l)] in g.owner && g.owner[g.at[Edge(p, l)]] == Edge(p, l);
  }

  lemma ConflictBlocks(arr: seq<Node>, ninfo: seq<NInfo>, g: Layout, pn: Path, ln: byte, pp: Path, m: nat)
    requires NodeOk(arr, ninfo, g, pn) && NodeOk(arr, ninfo, g, pp) && g.kids[pn] != [] && m < |g.kids[pp]|
    requires pp != pn
    requires arr[g.at[pn]].base >= 0 && arr[g.at[pp]].base >= 0
    requires Child(arr[g.at[pp]].base, g.kids[pp][m]) == Child(arr[g.at[pn]].base, ln)
    ensures pn.Edge? && pp.Edge? && arr[g.at[pn]].base >= 256 && arr[g.at[pp]].base >= 256
  {
    var b, c := arr[g.at[pn]].base, arr[g.at[pp]].base;
    assert Block(Child(b, ln)) == Block(b) && Block(Child(c, g.kids[pp][m])) == Block(c);
    hide Child;
  }

  lemma SteppedAdded(arr: seq<Node>, g: Layout, arr': seq<Node>, g': Layout, v: Plan, i: nat, to: int)
    requires i == v.mark && v.pn in g.kids && CarriesAndAdds(arr, g, arr', g', v.pn, v.ln)
    requires Edge(v.pn, v.ln) in g'.at && g'.at[Edge(v.pn, v.ln)] == to
    ensures Stepped(arr, g, arr', g', v, i, to)
  {
  }

  lemma SteppedCarried(arr: seq<Node>, g: Layout, arr': seq<Node>, g': Layout, v: Plan, i: nat)
    requires i != v.mark && Carries(arr, g, arr', g')
    requires Edge(v.pn, v.ln) in g.at && Edge(v.pn, v.ln) in g'.at ==> g'.at[Edge(v.pn, v.ln)] == g.at[Edge(v.pn, v.ln)]
    ensures forall to :: Stepped(arr, g, arr', g', v, i, to)
  {
  }

  /** The plan for a conflict over slot `Child(baseN, ln)`. */
  function PlanFor(g: Layout, pn: Path, baseN: nat, ln: byte, pp: Path, baseP: nat, m: nat, joins: bool, base: nat): Plan
    requires pn in g.kids && pp in g.kids
  {
    if joins then
      Plan(pn, baseN, base, InsertKid(g.kids[pn], ln), if g.kids[pn] != [] && g.kids[pn][0] == 0 then 1 else 0,
           pn, baseN, ln, true)
    else
      Plan(pp, baseP, base, g.kids[pp], m, pn, baseN, ln, false)
  }

  lemma PlanForFields(g: Layout, pn: Path, baseN: nat, ln: byte, pp: Path, baseP: nat, m: nat, joins: bool, base: nat)
    requires pn in g.kids && pp in g.kids
    ensures var v := PlanFor(g, pn, baseN, ln, pp, baseP, m, joins, base);
            && v.pf == (if joins then pn else pp) && v.oldBase == (if joins then baseN else baseP)
            && v.labels == (if joins then InsertKid(g.kids[pn], ln) else g.kids[pp])
            && v.newBase == base && v.pn == pn && v.baseN == baseN && v.ln == ln && v.joins == joins
  {
  }

  lemma PlanForOk(arr: seq<Node>, ninfo: seq<NInfo>, g: Layout, pn: Path, ln: byte, pp: Path, m: nat, joins: bool, base: nat)
    requires pn in g.kids && pp in g.kids && pn in g.at && pp in g.at && pn.Edge? && pp.Edge? && pp != pn
    requires TreeShaped(g.at.Keys, g.kids)
    requires GoodKids(g.kids[pn]) && GoodKids(g.kids[pp]) && m < |g.kids[pp]| && base >= 256
    requires 0 <= g.at[pn] < |arr| && 0 <= g.at[pp] < |arr| && arr[g.at[pn]].base >= 256 && arr[g.at[pp]].base >= 256
    requires Edge(pn, ln) !in g.at
    requires Child(arr[g.at[pp]].base, g.kids[pp][m]) == Child(arr[g.at[pn]].base, ln)
    ensures PlanOk(PlanFor(g, pn, arr[g.at[pn]].base, ln, pp, arr[g.at[pp]].base, m, joins, base))
  {
    assert ln !in g.kids[pn];
    InsertedGood(g.kids[pn], ln);
    InsertedNew(g.kids[pn], ln);
    hide Child, InsertKid;
  }

  /** Everything is ready for the family to move. */
  lemma ReadyToMove(arr: seq<Node>, ninfo: seq<NInfo>, g: Layout, pn: Path, ln: byte, pp: Path, m: nat,
                    joins: bool, base: nat, labels: seq<byte>,
                    arr1: seq<Node>, ninfo1: seq<NInfo>, arr2: seq<Node>, ninfo2: seq<NInfo>)
    requires TreeOk(arr, ninfo, g, 0, {}) && Blank(arr, ninfo) && Blank(arr1, ninfo1)
    requires Extends(arr, arr1) && Grown(ninfo, ninfo1)
    requires pn in g.kids && pp in g.kids && pn in g.at && pp in g.at && pn.Edge? && pp.Edge? && pp != pn
    requires g.kids[pn] != [] && g.kids[pp] != [] && m < |g.kids[pp]| && Edge(pn, ln) !in g.at
    requires 0 <= g.at[pn] < |arr| && 0 <= g.at[pp] < |arr| && arr[g.at[pn]].base >= 256 && arr[g.at[pp]].base >= 256
    requires Child(arr[g.at[pp]].base, g.kids[pp][m]) == Child(arr[g.at[pn]].base, ln)
    requires labels == if joins then InsertKid(g.kids[pn], ln) else g.kids[pp]
    requires 256 <= base < |arr1| && forall j :: 0 <= j < |labels| ==> Free(arr1, Child(base, labels[j]))
    requires var from := if joins then g.at[pn] else g.at[pp];
             && from < |arr1| && from < |ninfo1|
             && arr2 == arr1[from := arr1[from].(base := base)]
             && labels != []
             && ninfo2 == if joins && labels[0] == ln then ninfo1[from := ninfo1[from].(child := ln)] else ninfo1
    ensures var v := PlanFor(g, pn, arr[g.at[pn]].base, ln, pp, arr[g.at[pp]].base, m, joins, base);
            && PlanOk(v) && Midway(arr2, ninfo2, g, v, 0, false, 0) && Carries(arr, g, arr2, g)
            && Blank(arr2, ninfo2)
  {
    hide TreeOk, PlanOk, Child, GoodKids, InsertKid, Extends, Grown, Midway, Carries, Blank, InUse, Free, TreeShaped;
    StillTree(arr, ninfo, g, arr1, ninfo1);
    ReadyFacts(arr, ninfo, g, pn, arr1, ninfo1);
    ReadyFacts(arr, ninfo, g, pp, arr1, ninfo1);
    PlanForOk(arr, ninfo, g, pn, ln, pp, m, joins, base);
    var v := PlanFor(g, pn, arr[g.at[pn]].base, ln, pp, arr[g.at[pp]].base, m, joins, base);
    MoveStarted(arr1, ninfo1, g, v, arr2, ninfo2);
    StartBlank(arr1, ninfo1, g.at[v.pf], arr2, ninfo2);
    CarriesTwice(arr, g, arr1, g, arr2, g);
  }

  lemma ReadyFacts(arr: seq<Node>, ninfo: seq<NInfo>, g: Layout, p: Path, arr1: seq<Node>, ninfo1: seq<NInfo>)
    requires TreeOk(arr, ninfo, g, 0, {}) && Extends(arr, arr1) && Blank(arr1, ninfo1)
    requires p in g.kids && p in g.at && 0 <= g.at[p] < |arr|
    ensures TreeShaped(g.at.Keys, g.kids) && GoodKids(g.kids[p])
    ensures g.at[p] < |arr1| == |ninfo1| && arr1[g.at[p]] == arr[g.at[p]] && InUse(arr1, g.at[p])
  {
    OwnedInUse(arr, g, 0);
    assert g.at[p] in g.owner;
    hide NodesOk, Mirrored, Stored, GoodKids;
  }

  lemma StartBlank(arr: seq<Node>, ninfo: seq<NInfo>, n: int, arr': seq<Node>, ninfo': seq<NInfo>)
    requires Blank(arr, ninfo) && InUse(arr, n) && |arr'| == |arr| && |ninfo'| == |ninfo|
    requires arr'[n].check == arr[n].check
    requires forall s :: 0 <= s < |arr| && s != n ==> arr'[s] == arr[s] && ninfo'[s] == ninfo[s]
    ensures Blank(arr', ninfo')
  {
  }

  /** New empty blocks leave the tree alone. */
  lemma StillTree(arr: seq<Node>, ninfo: seq<NInfo>, g: Layout, arr': seq<Node>, ninfo': seq<NInfo>)
    requires TreeOk(arr, ninfo, g, 0, {}) && Blank(arr, ninfo) && Blank(arr', ninfo')
    requires Extends(arr, arr') && Grown(ninfo, ninfo')
    ensures TreeOk(arr', ninfo', g, 0, {}) && Carries(arr, g, arr', g)
  {
    TreeElsewhere(arr, ninfo, g, 0, {}, arr', ninfo', 0);
    hide TreeShaped, NodesOk;
  }

  lemma SettleFacts(arr: seq<Node>, ninfo: seq<NInfo>, g: Layout, arr1: seq<Node>, ninfo1: seq<NInfo>,
                    from: int, pn: Path, pp: Path)
    requires TreeOk(arr, ninfo, g, 0, {}) && Blank(arr1, ninfo1) && Extends(arr, arr1) && Grown(ninfo, ninfo1)
    requires pn in g.at && pp in g.at && (from == g.at[pn] || from == g.at[pp])
    ensures 0 <= from < |arr1| == |ninfo1| && (from == 0 || arr1[from].check >= 0)
  {
    OwnedInUse(arr, g, 0);
    assert from in g.owner;
    hide Mirrored, TreeShaped, NodesOk;
  }

  lemma Settled(arr: seq<Node>, arr1: seq<Node>, g: Layout, arr2: seq<Node>, g2: Layout, v: Plan, to: int)
    requires Carries(arr, g, arr1, g) && Progress(arr1, g, arr2, g2, v, true, to)
    ensures v.pn in g.kids && CarriesAndAdds(arr, g, arr2, g2, v.pn, v.ln)
    ensures Edge(v.pn, v.ln) in g2.at && g2.at[Edge(v.pn, v.ln)] == to
  {
    CarriesThenAdds(arr, g, arr1, g, arr2, g2, v);
    hide CarriesAndAdds, Carries;
  }
}
