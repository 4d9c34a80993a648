/** The key index: keys to funnel ids, over a double array. */
module Tries {
  import opened Dictionary
  import opened Layouts
  import opened Enumeration
  import opened Lookups
  import opened Walking
  import opened DoubleArrays
  import opened Indexes
  import opened Farms
  import opened Collecting

  /** What a key must look like: not empty, no zero byte. */
  predicate Storable(k: Key) {
    k != [] && ZeroFree(k)
  }

  class Trie {
    const da: DoubleArray
    var funnelIdCursor: nat

    ghost predicate Valid()
      reads this, da
    {
      da.Valid() && Numbered(da.dict, funnelIdCursor)
    }

    /** The index this trie forms with `farm`. */
    ghost function With(farm: Farm): Index
      reads this, da, farm
    {
      Index(da.dict, funnelIdCursor, farm.funnelDict, farm.itemDict)
    }

    constructor ()
      ensures Valid() && fresh(da) && da.dict == map[] && funnelIdCursor == 0
    {
      hide DoubleArray.Valid, Numbered;
      NoNumbers();
      da := new DoubleArray();
      funnelIdCursor := 0;
    }

    /** The funnel id of `key`; 0 if it has none. */
    method IdOf(key: Key) returns (id: int)
      requires Valid() && Readable(da.dict, key)
      ensures id == if key in da.dict then da.dict[key] else 0
      ensures id != 0 <==> key in da.dict
    {
      assert forall k :: k in da.dict ==> da.dict[k] >= 1;
      ValuesAreNoMarks(da.arr, da.layout, da.dict);
      id := da.ExactMatchSearch(key);
      id := if id == NO_VALUE then 0 else id;
    }

    method NewFunnelId() returns (id: nat)
      modifies `funnelIdCursor
      ensures id == funnelIdCursor == old(funnelIdCursor) + 1
    {
      funnelIdCursor := funnelIdCursor + 1;
      id := funnelIdCursor;
    }

    /** Attaches the item of `cb` under each key, giving new keys new ids; says whether there was a new key. */
    method Attach(keys: seq<Key>, cb: AttachCallback) returns (attached: bool)
      requires Valid() && IndexOk(With(cb.farm)) && funnelIdCursor + |keys| <= MAX_VALUE
      requires forall k :: k in keys ==> Storable(k)
      modifies `funnelIdCursor, da, cb, cb.farm
      ensures Valid() && IndexOk(With(cb.farm))
      ensures With(cb.farm) == AttachAll(old(With(cb.farm)), keys, cb.item, cb.upsert)
      ensures attached <==> SomeNew(old(With(cb.farm)), keys)
      ensures keys == [] ==> cb.attached == old(cb.attached)
      ensures keys != [] ==> cb.attached == (cb.upsert || LastGains(old(With(cb.farm)), keys, cb.item, cb.upsert))
    {
      hide *;
      attached := false;
      var i := 0;
      ghost var s := With(cb.farm);
      AttachNone(s, keys, cb.item, cb.upsert);
      while i < |keys|
        invariant 0 <= i <= |keys| && Valid() && IndexOk(With(cb.farm)) && funnelIdCursor + (|keys| - i) <= MAX_VALUE
        invariant With(cb.farm) == AttachAll(s, keys[..i], cb.item, cb.upsert)
        invariant attached <==> SomeNew(s, keys[..i])
        invariant i == 0 ==> cb.attached == old(cb.attached)
        invariant i > 0 ==> cb.attached == (cb.upsert || LastGains(s, keys[..i], cb.item, cb.upsert))
      {
        AttachMore(s, keys, i, cb.item, cb.upsert);
        var isNew := AttachKey(keys[i], cb);
        attached := attached || isNew;
        i := i + 1;
      }
    }

    /** Attaches the item of `cb` under one key. */
    method AttachKey(key: Key, cb: AttachCallback) returns (attached: bool)
      requires Valid() && IndexOk(With(cb.farm)) && Storable(key) && funnelIdCursor < MAX_VALUE
      modifies `funnelIdCursor, da, cb, cb.farm
      ensures Valid() && IndexOk(With(cb.farm)) && funnelIdCursor <= old(funnelIdCursor) + 1
      ensures With(cb.farm) == AttachOne(old(With(cb.farm)), key, cb.item, cb.upsert)
      ensures attached <==> key !in old(With(cb.farm)).ids
      ensures cb.attached == (cb.upsert || !Related(old(With(cb.farm)), key, cb.item.id))
    {
      hide da.Valid;
      ZeroFreeReadable(da.dict, key);
      var funnelId, nodePos, keyPos := da.Traverse(key);
      attached := false;
      if funnelId == NO_PATH || funnelId == NO_VALUE {
        funnelId := NewFunnelId();
        var value := da.Update(key, funnelId);
        attached := true;
      }
      AttachedUnder(old(With(cb.farm)), key, cb.item, cb.upsert, funnelId, da.dict, funnelIdCursor);
      cb.Call(funnelId);
    }

    /** Calls `cb` with the funnel of `key`, if it has one, and then with the funnels of all keys that extend it,
        until `cb` declines to go on. */
    method Traverse(key: Key, cb: ItemCallback) returns (ghost ks: seq<Key>)
      requires Valid() && Readable(da.dict, key) && cb.Valid() && cb.iterated == 0 && cb.pumped == []
      modifies cb, cb.items
      ensures cb.Valid() && Enumerates(ks, da.dict, key) && InWalkOrder(da.layout, key, ks)
      ensures Visited(cb.pumped, Visits(da.dict, key, ks), |cb.items.contents|, cb.maxMatch, cb.maxIterations)
    {
      hide cb.Valid, da.Valid, Readable, Enumerates, InWalkOrder, Visits, Visited, Lookup, PathOf, Numbered, Flat;
      var funnelId, nodePos, keyPos := da.Traverse(key);
      VisitsNone(da.dict, key);
      if funnelId == NO_PATH {
        ks := [];
        da.NothingBelow(key);
        AllVisited(cb.pumped, |cb.items.contents|, cb.maxMatch, cb.maxIterations);
      } else {
        assert key[..keyPos] == key;
        ghost var h := da.WholeWalk(key);
        ks := Texts(Flat(da.layout, h, PathOf(key), 0));
        WalkedInOrder(da.layout, h, key, ks);
        ghost var order := Visits(da.dict, key, ks);
        VisitsBegin(da.dict, key, Flat(da.layout, h, PathOf(key), 0));
        var go := true;
        if funnelId != NO_VALUE {
          go := cb.Call(funnelId);
          Called(order, [], funnelId, cb.pumped, cb.iterated, cb.maxIterations, go, |cb.items.contents|, cb.maxMatch);
        }
        if go {
          TraverseBelow(nodePos, keyPos, key, cb, h);
        }
      }
    }

    /** Calls `cb` with the funnels of the keys that extend `key`, whose place is at slot `root`. */
    method TraverseBelow(root: int, len0: int, key: Key, cb: ItemCallback, ghost h: nat)
      requires da.Valid() && Bounded(da.layout, h)
      requires PathOf(key) in da.layout.kids && PathOf(key) in da.layout.at && root == da.layout.at[PathOf(key)]
      requires cb.Valid() && cb.pumped == Visits(da.dict, key, Texts([])) && cb.iterated == |cb.pumped|
      modifies cb, cb.items
      ensures cb.Valid()
      ensures Visited(cb.pumped, Visits(da.dict, key, Texts(Flat(da.layout, h, PathOf(key), 0))),
                      |cb.items.contents|, cb.maxMatch, cb.maxIterations)
    {
      hide *;
      ghost var p, q, done := PathOf(key), Root, [];
      ghost var all := Flat(da.layout, h, p, 0);
      ghost var order := Visits(da.dict, key, Texts(all));
      da.PlaceFacts(p);
      var from, len, funnelId;
      funnelId, from, len, q := da.Begin(root, len0, p, h);
      WalkBegun(da.arr, da.layout, da.dict, h, p, q, from, funnelId);
      while funnelId != NO_PATH
        invariant cb.Valid() && Walked(da.layout, da.dict, h, p, done, q, from, funnelId)
        invariant cb.pumped == Visits(da.dict, key, Texts(done)) && cb.iterated == |cb.pumped|
        decreases |all| - |done|
      {
        WalkAt(da.layout, da.dict, h, p, done, q, from, funnelId);
        VisitsNext(da.layout, da.dict, h, p, key, done, q, from, funnelId);
        ghost var before := cb.pumped;
        var go := cb.Call(funnelId);
        Called(order, before, funnelId, cb.pumped, cb.iterated, cb.maxIterations, go, |cb.items.contents|, cb.maxMatch);
        if !go {
          return;
        }
        ghost var q0, from0, value0 := q, from, funnelId;
        funnelId, from, len, q := da.Next(from, len, root, p, q, h);
        WalkAdvanced(da.arr, da.layout, da.dict, h, p, done, q0, from0, value0, q, from, funnelId);
        done := done + [q0];
      }
      WalkEnds(da.layout, da.dict, h, p, done, q, from);
      AllVisited(cb.pumped, |cb.items.contents|, cb.maxMatch, cb.maxIterations);
    }
  }

  /** The funnels in `pumped` are the first ones of `order`: all of them, or as many as the bounds allow. */
  ghost predicate Visited(pumped: seq<int>, order: seq<int>, found: nat, maxMatch: nat, maxIterations: nat) {
    pumped <= order && (|pumped| == |order| || |pumped| == maxIterations || found >= maxMatch)
  }

  lemma AllVisited(order: seq<int>, found: nat, maxMatch: nat, maxIterations: nat)
    ensures Visited(order, order, found, maxMatch, maxIterations)
  {
  }

  /** What one call of the callback means for the visit. */
  lemma Called(order: seq<int>, before: seq<int>, funnelId: int, after: seq<int>, iterated: nat, maxIterations: nat,
               go: bool, found: nat, maxMatch: nat)
    requires before + [funnelId] <= order && iterated == |before| + 1
    requires after == if iterated <= maxIterations then before + [funnelId] else before
    requires |before| <= maxIterations
    requires go <==> iterated <= maxIterations && found < maxMatch
    ensures if go then after == before + [funnelId] && iterated == |after|
            else Visited(after, order, found, maxMatch, maxIterations)
  {
  }
}
