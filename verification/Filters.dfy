/** Filters linked to chains, and the pair of chains a query is checked against. */
module Filters {
  import opened Rings
  import opened Items
  import opened Conditions

  /** One filter, with a link to the next one. */
  class Filter {
    const test: Test
    var next: Filter?

    constructor (test: Test)
      ensures this.test == test && next == null
    {
      this.test, next := test, null;
    }

    /** Whether `item` passes this filter and all that follow it. */
    method Apply(item: Item, ghost fs: seq<Filter>) returns (ok: bool)
      requires Chained(fs) && fs != [] && fs[0] == this
      ensures ok <==> AllAccept(Tests(fs), item)
      decreases |fs|
    {
      if !Accepts(test, item) {
        assert !Accepts(Tests(fs)[0], item);
        return false;
      }
      ApplyRest(fs, item);
      ok := true;
      if next != null {
        ok := next.Apply(item, fs[1..]);
      }
    }
  }

  /** Each filter of `fs` links to the next one, the last to none. */
  ghost predicate Chained(fs: seq<Filter>)
    reads fs
  {
    && Distinct(fs)
    && forall i {:trigger fs[i]} :: 0 <= i < |fs| ==> fs[i].next == if i + 1 < |fs| then fs[i + 1] else null
  }

  /** `fs` is the chain that starts at `head`. */
  ghost predicate Heads(head: Filter?, fs: seq<Filter>)
    reads fs
  {
    head == (if fs == [] then null else fs[0]) && Chained(fs)
  }

  ghost function Tests(fs: seq<Filter>): (tests: seq<Test>)
    ensures |tests| == |fs| && forall i :: 0 <= i < |fs| ==> tests[i] == fs[i].test
  {
    seq(|fs|, i requires 0 <= i < |fs| => fs[i].test)
  }

  lemma ApplyRest(fs: seq<Filter>, item: Item)
    requires Chained(fs) && fs != [] && Accepts(fs[0].test, item)
    ensures fs[0].next == (if |fs| > 1 then fs[1] else null) && Chained(fs[1..])
    ensures AllAccept(Tests(fs), item) <==> AllAccept(Tests(fs[1..]), item)
    ensures |fs| == 1 ==> AllAccept(Tests(fs), item)
  {
    hide Accepts;
    assert forall i :: 0 <= i < |fs| - 1 ==> fs[1..][i] == fs[i + 1];
    if AllAccept(Tests(fs[1..]), item) {
      forall i | 0 <= i < |fs|
        ensures Accepts(Tests(fs)[i], item)
      {
        if i > 0 {
          assert Accepts(Tests(fs[1..])[i - 1], item);
        }
      }
    }
    if AllAccept(Tests(fs), item) {
      assert forall i :: 0 <= i < |fs| - 1 ==> Tests(fs[1..])[i] == Tests(fs)[i + 1];
    }
  }

  /** The set of values of an array without its nulls, and whether it holds a null. */
  method FillValues(values: seq<Value>) returns (listed: set<Value>, allowMiss: bool)
    ensures listed == NonNull(values) && allowMiss == (Null in values)
  {
    listed, allowMiss := {}, false;
    var i := 0;
    while i < |values|
      invariant 0 <= i <= |values|
      invariant forall v :: v in listed <==> v in values[..i] && !v.Null?
      invariant allowMiss == (Null in values[..i])
    {
      assert forall v :: v in values[..i + 1] <==> v in values[..i] || v == values[i];
      if values[i].Null? {
        allowMiss := true;
      } else {
        listed := listed + {values[i]};
      }
      i := i + 1;
    }
    assert values[..i] == values;
  }

  /** The filter a member of a condition object stands for, if any. */
  method Create(m: Member) returns (f: Filter?)
    ensures if f == null then TestOf(m) == [] else fresh(f) && f.next == null && TestOf(m) == [f.test]
  {
    f := null;
    if m.value.Arr? {
      f := CreateIn(m.name, m.value.elements);
    } else if !m.value.Obj? && !m.value.Null? {
      f := new Filter(Equal(m.name, m.value));
    }
  }

  method CreateIn(attr: string, values: seq<Value>) returns (f: Filter)
    ensures fresh(f) && f.next == null && f.test == InTest(attr, values)
  {
    var listed, allowMiss := FillValues(values);
    f := new Filter(In(attr, listed, allowMiss));
  }

  /** The chain `fs` cut behind index `at`, with `f` linked there. */
  ghost function Linked(fs: seq<Filter>, at: nat, f: Filter): seq<Filter>
    requires fs != [] ==> at < |fs|
  {
    if fs == [] then [f] else fs[..at + 1] + [f]
  }

  /** Links `f` behind the cursor, or makes it the head of an empty chain, and moves the cursor to it. */
  method AttachFilter(head0: Filter?, cursor0: Filter?, f: Filter, ghost fs: seq<Filter>, ghost at: nat)
    returns (head: Filter?, cursor: Filter?)
    requires Heads(head0, fs) && f !in fs && f.next == null
    requires if fs == [] then cursor0 == null else at < |fs| && cursor0 == fs[at]
    modifies if cursor0 == null then {} else {cursor0}
    ensures cursor == f && Heads(head, Linked(fs, at, f))
  {
    head, cursor := head0, cursor0;
    if head == null {
      head := f;
      cursor := head;
    } else {
      cursor.next := f;
      cursor := cursor.next;
    }
  }

  /** The state of a chain that is being extended: `gs` is `fs` extended by the first `i` members, and the cursor
      stands at index `at`, which is the head of `fs` until the first extension. */
  ghost predicate Extending(fs: seq<Filter>, gs: seq<Filter>, at: nat, members: seq<Member>, i: nat)
    requires i <= |members|
  {
    && Tests(gs) == Extended(Tests(fs), TestsOf(members[..i]))
    && (gs != [] ==> at < |gs|)
    && if TestsOf(members[..i]) == [] then gs == fs && at == 0 else at + 1 == |gs|
  }

  lemma NotExtended(fs: seq<Filter>, members: seq<Member>)
    ensures Extending(fs, fs, 0, members, 0) && members[..|members|] == members
  {
  }

  lemma SkippedMember(fs: seq<Filter>, gs: seq<Filter>, at: nat, members: seq<Member>, i: nat)
    requires i < |members| && Extending(fs, gs, at, members, i) && TestOf(members[i]) == []
    ensures Extending(fs, gs, at, members, i + 1)
  {
    assert members[..i + 1][..i] == members[..i];
    assert TestsOf(members[..i + 1]) == TestsOf(members[..i]) + TestOf(members[i]);
    hide TestsOf, TestOf, Tests;
  }

  lemma AddedMember(fs: seq<Filter>, gs: seq<Filter>, at: nat, members: seq<Member>, i: nat, f: Filter)
    requires i < |members| && Extending(fs, gs, at, members, i) && TestOf(members[i]) == [f.test]
    ensures Extending(fs, Linked(gs, at, f), |Linked(gs, at, f)| - 1, members, i + 1)
  {
    assert members[..i + 1][..i] == members[..i];
    assert TestsOf(members[..i + 1]) == TestsOf(members[..i]) + TestOf(members[i]);
    LinkedTests(gs, at, f);
    hide TestsOf, TestOf, Tests, Linked;
    var more := TestsOf(members[..i]);
    assert more != [] ==> Extended(Tests(fs), more) + [f.test] == Extended(Tests(fs), more + [f.test]);
  }

  lemma LinkedTests(gs: seq<Filter>, at: nat, f: Filter)
    requires gs != [] ==> at < |gs|
    ensures |Linked(gs, at, f)| == if gs == [] then 1 else at + 2
    ensures Tests(Linked(gs, at, f)) == if gs == [] then [f.test] else Tests(gs)[..at + 1] + [f.test]
    ensures at + 1 == |gs| ==> Tests(gs)[..at + 1] == Tests(gs)
  {
  }

  lemma LinkedMembers(gs: seq<Filter>, at: nat, f: Filter)
    requires gs != [] ==> at < |gs|
    ensures Linked(gs, at, f) != [] && Linked(gs, at, f)[|Linked(gs, at, f)| - 1] == f
    ensures forall x :: x in Linked(gs, at, f) ==> x in gs || x == f
  {
  }

  /** Extends the chain by one filter for every accepted member of a condition object. */
  method ByCond(head0: Filter?, members: seq<Member>, ghost fs: seq<Filter>) returns (head: Filter?, ghost gs: seq<Filter>)
    requires Heads(head0, fs)
    modifies set f | f in fs
    ensures Heads(head, gs) && Tests(gs) == Extended(Tests(fs), TestsOf(members))
    ensures forall f :: f in gs ==> f in fs || fresh(f)
  {
    head, gs := head0, fs;
    var cursor := head;
    ghost var at: nat := 0;
    var i := 0;
    NotExtended(fs, members);
    while i < |members|
      invariant 0 <= i <= |members| && Heads(head, gs) && Extending(fs, gs, at, members, i)
      invariant if gs == [] then cursor == null else at < |gs| && cursor == gs[at]
      invariant forall f :: f in gs ==> f in fs || fresh(f)
    {
      if cursor != null {
        assert cursor in gs;
        assert cursor in fs || fresh(cursor);
      }
      head, cursor, gs, at := ByMember(head, cursor, members, i, fs, gs, at);
      i := i + 1;
    }
  }

  method ByMember(head0: Filter?, cursor0: Filter?, members: seq<Member>, i: nat, ghost fs: seq<Filter>,
                  ghost gs0: seq<Filter>, ghost at0: nat)
    returns (head: Filter?, cursor: Filter?, ghost gs: seq<Filter>, ghost at: nat)
    requires i < |members| && Heads(head0, gs0) && Extending(fs, gs0, at0, members, i)
    requires if gs0 == [] then cursor0 == null else at0 < |gs0| && cursor0 == gs0[at0]
    modifies if cursor0 == null then {} else {cursor0}
    ensures Heads(head, gs) && Extending(fs, gs, at, members, i + 1)
    ensures if gs == [] then cursor == null else at < |gs| && cursor == gs[at]
    ensures forall f :: f in gs ==> f in gs0 || fresh(f)
  {
    hide Heads, Extending, Linked, TestOf;
    head, cursor, gs, at := head0, cursor0, gs0, at0;
    var f := Create(members[i]);
    if f == null {
      SkippedMember(fs, gs, at, members, i);
    } else {
      AddedMember(fs, gs, at, members, i, f);
      LinkedMembers(gs, at, f);
      head, cursor := AttachFilter(head, cursor, f, gs, at);
      gs := Linked(gs, at, f);
      at := |gs| - 1;
    }
  }

  /** Rebuilds one chain for a condition. */
  method RebuildOne(head0: Filter?, cond: Option<Value>, keyId: string, ghost fs: seq<Filter>)
    returns (head: Filter?, ghost gs: seq<Filter>)
    requires Heads(head0, fs)
    modifies set f | f in fs
    ensures Heads(head, gs) && Tests(gs) == Rebuilt(Tests(fs), cond, keyId)
    ensures forall f :: f in gs ==> f in fs || fresh(f)
  {
    head, gs := head0, fs;
    if cond.None? {
      head, gs := null, [];
    } else if cond.value.Arr? {
      head := CreateIn(keyId, cond.value.elements);
      gs := [head];
    } else if IsUint(cond.value) {
      head := new Filter(Equal(keyId, cond.value));
      gs := [head];
    } else if cond.value.Obj? {
      head, gs := ByCond(head, cond.value.members, fs);
    }
  }

  /** What a query demands and what it rules out. */
  class FilterChain {
    var filter: Filter?
    var exclude: Filter?
    ghost var filters: seq<Filter>
    ghost var excludes: seq<Filter>

    ghost predicate Valid()
      reads this, filters, excludes
    {
      && Heads(filter, filters) && Heads(exclude, excludes)
      && forall f :: f in filters ==> f !in excludes
    }

    constructor ()
      ensures Valid() && filters == [] && excludes == []
    {
      filter, exclude, filters, excludes := null, null, [], [];
    }

    /** Rebuilds both chains for a query. */
    method Rebuild(filterCond: Option<Value>, excludeCond: Option<Value>, keyId: string)
      requires Valid()
      modifies this, set f | f in filters, set f | f in excludes
      ensures Valid()
      ensures Tests(filters) == Rebuilt(old(Tests(filters)), filterCond, keyId)
      ensures Tests(excludes) == Rebuilt(old(Tests(excludes)), excludeCond, keyId)
      ensures forall f :: f in filters ==> f in old(filters) || fresh(f)
      ensures forall f :: f in excludes ==> f in old(excludes) || fresh(f)
    {
      hide Rebuilt, Chained;
      filter, filters := RebuildOne(filter, filterCond, keyId, filters);
      exclude, excludes := RebuildOne(exclude, excludeCond, keyId, excludes);
    }

    /** Whether the item is let through. */
    method Apply(item: Item) returns (ok: bool)
      requires Valid()
      ensures ok <==> Passes(Tests(filters), Tests(excludes), item)
    {
      hide Chained, AllAccept, Accepts;
      ok := true;
      if exclude != null {
        var hit := exclude.Apply(item, excludes);
        if hit {
          return false;
        }
      }
      if filter == null {
        NoTests(item);
      } else {
        ok := filter.Apply(item, filters);
      }
    }
  }

  lemma NoTests(item: Item)
    ensures Tests([]) == [] && AllAccept([], item)
  {
  }
}
