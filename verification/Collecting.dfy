/** Collecting the items of funnels: filtered, each id once, up to a bound. */
module Collecting {
  import opened Rings
  import opened Items
  import opened Indexes
  import opened Conditions
  import opened Filters
  import opened Farms

  /** The ids of the funnels in `fs`. */
  ghost function SeenIn(funnels: map<int, map<int, int>>, fs: seq<int>): set<int> {
    if fs == [] then {} else SeenIn(funnels, fs[..|fs| - 1]) + FunnelOf(funnels, fs[|fs| - 1]).Keys
  }

  /** The ids among `seen` whose items pass the filters. */
  ghost function Matching(seen: set<int>, items: map<int, Item>, filters: seq<Test>, excludes: seq<Test>): set<int> {
    set i | i in seen && i in items && Passes(filters, excludes, items[i])
  }

  function Ids(found: seq<Item>): (ids: seq<int>)
    ensures |ids| == |found| && forall j :: 0 <= j < |found| ==> ids[j] == found[j].id
  {
    seq(|found|, j requires 0 <= j < |found| => found[j].id)
  }

  /** `found` holds matching items with different ids, no more than `bound`, and all of them if fewer than that. */
  ghost predicate Collected(found: seq<Item>, recorded: set<int>, matching: set<int>, items: map<int, Item>, bound: nat) {
    && Distinct(Ids(found))
    && (forall i :: i in recorded <==> i in Ids(found))
    && (forall x :: x in found ==> x.id in items && items[x.id] == x)
    && recorded <= matching
    && |found| <= bound
    && (|found| < bound ==> recorded == matching)
  }

  /** The number of items collected is the number of matching ids, unless the bound is smaller. */
  lemma CollectedCount(found: seq<Item>, recorded: set<int>, matching: set<int>, items: map<int, Item>, bound: nat)
    requires Collected(found, recorded, matching, items, bound)
    ensures |found| == if |matching| < bound then |matching| else bound
  {
    var ids := Ids(found);
    assert forall i: int :: i in ids <==> i in recorded;
    DistinctCount(ids, recorded);
    SubsetSize(recorded, matching);
  }

  lemma {:induction false} SubsetSize<T>(a: set<T>, b: set<T>)
    requires a <= b
    ensures |a| <= |b|
  {
    if a != {} {
      var x :| x in a;
      SubsetSize(a - {x}, b - {x});
    }
  }

  /** The items found keep the order of the funnels: for every `n` the funnels `fs[..n]` come first, and what they offer
      fills the list from the front, as far as the bound allows. */
  ghost predicate InOrder(found: seq<Item>, funnels: map<int, map<int, int>>, fs: seq<int>, items: map<int, Item>,
                          filters: seq<Test>, excludes: seq<Test>, bound: nat)
  {
    forall n :: 0 <= n <= |fs| ==> Leads(found, Matching(SeenIn(funnels, fs[..n]), items, filters, excludes), bound)
  }

  /** The first items found are those in `matching`, all of them unless the bound is smaller. */
  ghost predicate Leads(found: seq<Item>, matching: set<int>, bound: nat) {
    var m := if |matching| < bound then |matching| else bound;
    m <= |found| && forall j :: 0 <= j < m ==> found[j].id in matching
  }

  lemma NoneInOrder(funnels: map<int, map<int, int>>, items: map<int, Item>, filters: seq<Test>, excludes: seq<Test>,
                    bound: nat)
    ensures InOrder([], funnels, [], items, filters, excludes, bound)
  {
    hide Passes;
    assert Matching({}, items, filters, excludes) == {};
  }

  /** One more funnel, whose items are put behind those found before. */
  lemma OneMoreInOrder(found: seq<Item>, funnels: map<int, map<int, int>>, fs: seq<int>, items: map<int, Item>,
                       filters: seq<Test>, excludes: seq<Test>, bound: nat, f: int, found': seq<Item>, recorded': set<int>)
    requires InOrder(found, funnels, fs, items, filters, excludes, bound) && found <= found'
    requires Collected(found', recorded', Matching(SeenIn(funnels, fs + [f]), items, filters, excludes), items, bound)
    ensures InOrder(found', funnels, fs + [f], items, filters, excludes, bound)
  {
    hide Matching, SeenIn, Collected;
    forall n | 0 <= n <= |fs| + 1
      ensures Leads(found', Matching(SeenIn(funnels, (fs + [f])[..n]), items, filters, excludes), bound)
    {
      var matching := Matching(SeenIn(funnels, (fs + [f])[..n]), items, filters, excludes);
      if n <= |fs| {
        assert (fs + [f])[..n] == fs[..n];
        assert Leads(found, matching, bound);
      } else {
        assert (fs + [f])[..n] == fs + [f];
        CollectedCount(found', recorded', matching, items, bound);
        FoundRecorded(found', recorded', matching, items, bound);
      }
    }
  }

  lemma FoundRecorded(found: seq<Item>, recorded: set<int>, matching: set<int>, items: map<int, Item>, bound: nat)
    requires Collected(found, recorded, matching, items, bound)
    ensures forall x :: x in found ==> x.id in matching
  {
    forall x | x in found
      ensures x.id in recorded
    {
      var j :| 0 <= j < |found| && found[j] == x;
      assert Ids(found)[j] == x.id;
    }
  }

  /** Looking at one more id. */
  lemma OneMoreId(found: seq<Item>, recorded: set<int>, seen: set<int>, items: map<int, Item>,
                  filters: seq<Test>, excludes: seq<Test>, bound: nat, i: int)
    requires Collected(found, recorded, Matching(seen, items, filters, excludes), items, bound)
    requires i in items && items[i].id == i
    ensures var matching := Matching(seen + {i}, items, filters, excludes);
            if |found| < bound && i !in recorded && Passes(filters, excludes, items[i]) then
              Collected(found + [items[i]], recorded + {i}, matching, items, bound)
            else Collected(found, recorded, matching, items, bound)
  {
    hide Passes;
    var matching := Matching(seen, items, filters, excludes);
    assert Matching(seen + {i}, items, filters, excludes) ==
           matching + if Passes(filters, excludes, items[i]) then {i} else {};
    AddId(found, recorded, matching, items, bound, i);
    hide Matching, Collected;
    assert i in matching ==> matching + {i} == matching;
    assert matching + {} == matching;
  }

  lemma AddId(found: seq<Item>, recorded: set<int>, matching: set<int>, items: map<int, Item>, bound: nat, i: int)
    requires Collected(found, recorded, matching, items, bound) && i in items && items[i].id == i
    ensures |found| < bound && i !in recorded ==> Collected(found + [items[i]], recorded + {i}, matching + {i}, items, bound)
    ensures |found| >= bound || i in recorded ==> Collected(found, recorded, matching + {i}, items, bound)
  {
    if |found| < bound && i !in recorded {
      var more := found + [items[i]];
      assert Ids(more) == Ids(found) + [i];
      assert forall x :: x in more <==> x in found || x == items[i];
    }
  }

  /** The list of the items found. */
  class ItemList {
    var contents: seq<Item>

    constructor ()
      ensures contents == []
    {
      contents := [];
    }

    method Clear()
      modifies this
      ensures contents == []
    {
      contents := [];
    }

    method PushBack(item: Item)
      modifies this
      ensures contents == old(contents) + [item]
    {
      contents := contents + [item];
    }
  }

  /** Collects the items of the funnels it is called with. */
  class ItemCallback {
    const farm: Farm
    const filter: FilterChain
    const items: ItemList
    const maxMatch: nat
    const maxIterations: nat
    var recorded: set<int>
    var iterated: nat

    /** The funnels whose items have been looked at. */
    ghost var pumped: seq<int>

    /** The ids to collect once the funnels in `fs` have been looked at. */
    ghost function Wanted(fs: seq<int>): set<int>
      reads farm, filter
    {
      Matching(SeenIn(farm.funnelDict, fs), farm.itemDict, Tests(filter.filters), Tests(filter.excludes))
    }

    ghost predicate Valid()
      reads this, farm, filter, filter.filters, filter.excludes, items
    {
      && filter.Valid() && Sound(farm.funnelDict, farm.itemDict)
      && Collected(items.contents, recorded, Wanted(pumped), farm.itemDict, maxMatch)
      && InOrder(items.contents, farm.funnelDict, pumped, farm.itemDict, Tests(filter.filters), Tests(filter.excludes), maxMatch)
      && |pumped| == if iterated <= maxIterations then iterated else maxIterations
    }

    constructor (farm: Farm, filter: FilterChain, items: ItemList, maxMatch: nat, maxIterations: nat)
      requires filter.Valid() && Sound(farm.funnelDict, farm.itemDict) && items.contents == []
      ensures this.farm == farm && this.filter == filter && this.items == items
      ensures this.maxMatch == maxMatch && this.maxIterations == maxIterations
      ensures Valid() && iterated == 0 && pumped == []
    {
      this.farm, this.filter, this.items, this.maxMatch, this.maxIterations := farm, filter, items, maxMatch, maxIterations;
      recorded, iterated, pumped := {}, 0, [];
      NoneInOrder(farm.funnelDict, farm.itemDict, Tests(filter.filters), Tests(filter.excludes), maxMatch);
    }

    /** Looks at one more funnel, if the bound allows it; says whether to go on. */
    method Call(funnelId: int) returns (go: bool)
      requires Valid()
      modifies this, items
      ensures Valid() && iterated == old(iterated) + 1
      ensures pumped == if iterated <= maxIterations then old(pumped) + [funnelId] else old(pumped)
      ensures old(items.contents) <= items.contents
      ensures go <==> iterated <= maxIterations && |items.contents| < maxMatch
    {
      iterated := iterated + 1;
      if maxIterations < iterated {
        return false;
      }
      ghost var found, fs := items.contents, pumped;
      go := Pump(funnelId);
      OneMoreInOrder(found, farm.funnelDict, fs, farm.itemDict, Tests(filter.filters), Tests(filter.excludes), maxMatch,
                     funnelId, items.contents, recorded);
    }

    /** Collects the items of a funnel, in whatever order it lists them. */
    method Pump(funnelId: int) returns (go: bool)
      requires filter.Valid() && Sound(farm.funnelDict, farm.itemDict)
      requires Collected(items.contents, recorded, Wanted(pumped), farm.itemDict, maxMatch)
      modifies `recorded, `pumped, items
      ensures old(items.contents) <= items.contents
      ensures pumped == old(pumped) + [funnelId]
      ensures Collected(items.contents, recorded, Wanted(pumped), farm.itemDict, maxMatch)
      ensures go <==> |items.contents| < maxMatch
    {
      hide Collected, Matching, SeenIn, Passes, filter.Valid, Sound;
      var funnel := farm.Funnel(funnelId);
      ghost var seen := SeenIn(farm.funnelDict, pumped);
      FunnelSound(farm.funnelDict, farm.itemDict, funnelId, funnel);
      SeenNext(farm.funnelDict, pumped, funnelId, funnel.Keys);
      PumpAll(funnel, seen);
      pumped := pumped + [funnelId];
      go := |items.contents| < maxMatch;
    }

    /** Collects the items of a funnel; the order in which it lists them is left open. */
    method PumpAll(funnel: map<int, int>, ghost seen0: set<int>)
      requires filter.Valid() && forall i :: i in funnel ==> funnel[i] == i && i in farm.itemDict && farm.itemDict[i].id == i
      requires Collected(items.contents, recorded,
                         Matching(seen0, farm.itemDict, Tests(filter.filters), Tests(filter.excludes)), farm.itemDict, maxMatch)
      modifies `recorded, items
      ensures old(items.contents) <= items.contents
      ensures Collected(items.contents, recorded,
                        Matching(seen0 + funnel.Keys, farm.itemDict, Tests(filter.filters), Tests(filter.excludes)),
                        farm.itemDict, maxMatch)
    {
      hide *;
      var rest := funnel.Keys;
      ghost var seen := seen0;
      while rest != {}
        invariant old(items.contents) <= items.contents
        invariant rest <= funnel.Keys && seen + rest == seen0 + funnel.Keys
        invariant Collected(items.contents, recorded,
                            Matching(seen, farm.itemDict, Tests(filter.filters), Tests(filter.excludes)), farm.itemDict, maxMatch)
        decreases |rest|
      {
        ghost var some := SomeMember(rest);
        var i :| i in rest;
        PumpOne(funnel[i], seen);
        OneSeen(seen, rest, i);
        seen := seen + {i};
        rest := rest - {i};
      }
      assert seen + {} == seen;
    }

    /** Collects one item. */
    method PumpOne(id: int, ghost seen: set<int>)
      requires filter.Valid() && id in farm.itemDict && farm.itemDict[id].id == id
      requires Collected(items.contents, recorded,
                         Matching(seen, farm.itemDict, Tests(filter.filters), Tests(filter.excludes)), farm.itemDict, maxMatch)
      modifies `recorded, items
      ensures old(items.contents) <= items.contents
      ensures Collected(items.contents, recorded,
                        Matching(seen + {id}, farm.itemDict, Tests(filter.filters), Tests(filter.excludes)),
                        farm.itemDict, maxMatch)
    {
      hide Collected, Matching, Passes, filter.Valid;
      OneMoreId(items.contents, recorded, seen, farm.itemDict, Tests(filter.filters), Tests(filter.excludes), maxMatch, id);
      if |items.contents| < maxMatch {
        if id !in recorded {
          var item := farm.ItemOf(id);
          if item.Some? {
            var ok := filter.Apply(item.value);
            if ok {
              recorded := recorded + {item.value.id};
              items.PushBack(item.value);
            }
          }
        }
      }
    }
  }

  lemma OneSeen(seen: set<int>, rest: set<int>, i: int)
    requires i in rest
    ensures (seen + {i}) + (rest - {i}) == seen + rest && |rest - {i}| < |rest|
  {
  }

  lemma FunnelSound(funnels: map<int, map<int, int>>, items: map<int, Item>, f: int, funnel: map<int, int>)
    requires Sound(funnels, items) && funnel == FunnelOf(funnels, f)
    ensures forall i :: i in funnel ==> funnel[i] == i && i in items && items[i].id == i
  {
  }

  lemma SeenNext(funnels: map<int, map<int, int>>, fs: seq<int>, f: int, keys: set<int>)
    requires keys == FunnelOf(funnels, f).Keys
    ensures SeenIn(funnels, fs + [f]) == SeenIn(funnels, fs) + keys
    ensures SeenIn(funnels, fs) + (keys - keys) == SeenIn(funnels, fs)
  {
    assert (fs + [f])[..|fs|] == fs;
  }
}
