/** What attaching items to keys does to the key ids, the funnels and the items, as values. */
module Indexes {
  import opened Dictionary
  import opened Items

  /** The ids of the keys, the number of ids given out, the item ids in the funnel of each key id, and the items. */
  datatype Index = Index(ids: map<Key, int>, cursor: nat, funnels: map<int, map<int, int>>, items: map<int, Item>)

  /** `i` is attached under `k`. */
  ghost predicate Related(s: Index, k: Key, i: int) {
    k in s.ids && s.ids[k] in s.funnels && i in s.funnels[s.ids[k]]
  }

  ghost predicate Given(ids: map<Key, int>, n: int) {
    exists k :: k in ids && ids[k] == n
  }

  /** The keys correspond one to one with the numbers 1 to `cursor`. */
  ghost predicate Numbered(ids: map<Key, int>, cursor: nat) {
    && (forall k :: k in ids ==> 1 <= ids[k] <= cursor)
    && (forall k, m :: k in ids && m in ids && ids[k] == ids[m] ==> k == m)
    && (forall n :: 1 <= n <= cursor ==> Given(ids, n))
  }

  /** Every funnel belongs to a key id, and the funnels are sound. */
  ghost predicate Filled(cursor: nat, funnels: map<int, map<int, int>>, items: map<int, Item>) {
    && (forall f :: f in funnels ==> 1 <= f <= cursor)
    && Sound(funnels, items)
  }

  /** Every id in a funnel stands for itself and for an item that carries it. */
  ghost predicate Sound(funnels: map<int, map<int, int>>, items: map<int, Item>) {
    && (forall f, i {:trigger i in funnels[f]} :: f in funnels && i in funnels[f] ==> funnels[f][i] == i && i in items)
    && (forall i :: i in items ==> items[i].id == i)
  }

  ghost predicate IndexOk(s: Index) {
    Numbered(s.ids, s.cursor) && Filled(s.cursor, s.funnels, s.items)
  }

  function FunnelOf(funnels: map<int, map<int, int>>, f: int): map<int, int> {
    if f in funnels then funnels[f] else map[]
  }

  function FunnelsAfter(funnels: map<int, map<int, int>>, f: int, i: int, upsert: bool): map<int, map<int, int>> {
    var funnel := FunnelOf(funnels, f);
    funnels[f := if i in funnel && !upsert then funnel else funnel[i := i]]
  }

  function ItemsAfter(items: map<int, Item>, item: Item, attached: bool): map<int, Item> {
    if attached && item.id !in items then items[item.id := item] else items
  }

  /** The index after `item` was attached under `k`. */
  function AttachOne(s: Index, k: Key, item: Item, upsert: bool): Index {
    var known := k in s.ids;
    var f := if known then s.ids[k] else s.cursor + 1;
    Index(if known then s.ids else s.ids[k := f], if known then s.cursor else f,
          FunnelsAfter(s.funnels, f, item.id, upsert),
          ItemsAfter(s.items, item, upsert || item.id !in FunnelOf(s.funnels, f)))
  }

  /** The index after `item` was attached under each of `keys` in turn. */
  function AttachAll(s: Index, keys: seq<Key>, item: Item, upsert: bool): Index {
    if keys == [] then s else AttachOne(AttachAll(s, keys[..|keys| - 1], item, upsert), keys[|keys| - 1], item, upsert)
  }

  lemma NewNumber(ids: map<Key, int>, cursor: nat, k: Key)
    requires Numbered(ids, cursor) && k !in ids
    ensures Numbered(ids[k := cursor + 1], cursor + 1)
  {
    var ids' := ids[k := cursor + 1];
    forall n | 1 <= n <= cursor + 1
      ensures Given(ids', n)
    {
      if n <= cursor {
        assert Given(ids, n);
      }
      if n == cursor + 1 {
        assert ids'[k] == n;
      } else {
        var m :| m in ids && ids[m] == n;
        assert ids'[m] == n;
      }
    }
  }

  lemma AttachOneOk(s: Index, k: Key, item: Item, upsert: bool)
    requires IndexOk(s)
    ensures IndexOk(AttachOne(s, k, item, upsert))
  {
    if k !in s.ids {
      NewNumber(s.ids, s.cursor, k);
    }
    hide Numbered;
    var f := if k in s.ids then s.ids[k] else s.cursor + 1;
    assert 1 <= f <= s.cursor + 1;
    FilledAfter(s.cursor, s.funnels, s.items, f, item, upsert, if k in s.ids then s.cursor else f);
    hide Filled;
  }

  lemma FilledAfter(cursor: nat, funnels: map<int, map<int, int>>, items: map<int, Item>, f: int, item: Item, upsert: bool,
                    cursor': nat)
    requires Filled(cursor, funnels, items) && 1 <= f <= cursor' && cursor <= cursor'
    ensures Filled(cursor', FunnelsAfter(funnels, f, item.id, upsert),
                   ItemsAfter(items, item, upsert || item.id !in FunnelOf(funnels, f)))
  {
  }

  /** Attaching adds exactly one pair, whether or not it replaces. */
  lemma AttachOneRelates(s: Index, k: Key, item: Item, upsert: bool, q: Key, i: int)
    requires IndexOk(s)
    ensures Related(AttachOne(s, k, item, upsert), q, i) <==> Related(s, q, i) || (q == k && i == item.id)
  {
  }

  /** The id set of the funnel of a key is the set of the ids attached under it. */
  lemma {:induction false} AttachAllRelates(s: Index, keys: seq<Key>, item: Item, upsert: bool, q: Key, i: int)
    requires IndexOk(s)
    ensures IndexOk(AttachAll(s, keys, item, upsert))
    ensures Related(AttachAll(s, keys, item, upsert), q, i) <==> Related(s, q, i) || (q in keys && i == item.id)
  {
    if keys != [] {
      var n := |keys| - 1;
      var s1 := AttachAll(s, keys[..n], item, upsert);
      AttachAllRelates(s, keys[..n], item, upsert, q, i);
      AttachOneOk(s1, keys[n], item, upsert);
      AttachOneRelates(s1, keys[n], item, upsert, q, i);
      assert q in keys <==> q in keys[..n] || q == keys[n];
      hide IndexOk, Related, AttachOne;
    }
  }

  /** `s'` keeps every id and every item of `s`. */
  ghost predicate Keeps(s: Index, s': Index) {
    && s.cursor <= s'.cursor
    && (forall k :: k in s.ids ==> k in s'.ids && s'.ids[k] == s.ids[k])
    && (forall i :: i in s.items ==> i in s'.items && s'.items[i] == s.items[i])
  }

  /** Ids and items never change once they are assigned; the keys stored are the old and the new ones. */
  lemma {:induction false} AttachAllKeeps(s: Index, keys: seq<Key>, item: Item, upsert: bool)
    requires IndexOk(s)
    ensures Keeps(s, AttachAll(s, keys, item, upsert))
    ensures forall k :: k in AttachAll(s, keys, item, upsert).ids <==> k in s.ids || k in keys
    ensures AttachAll(s, keys, item, upsert).cursor <= s.cursor + |keys|
    ensures forall i :: i in AttachAll(s, keys, item, upsert).items ==> i in s.items || i == item.id
  {
    if keys != [] {
      var n := |keys| - 1;
      AttachAllKeeps(s, keys[..n], item, upsert);
      assert forall q :: q in keys <==> q in keys[..n] || q == keys[n];
      hide IndexOk, FunnelsAfter;
    }
  }

  /** `items` with `item` stored under its id, unless an item is stored there already. */
  function WithFirst(items: map<int, Item>, item: Item): (items': map<int, Item>)
    ensures forall i :: i in items' <==> i in items || i == item.id
    ensures forall i :: i in items' ==> items'[i] == if i in items then items[i] else item
  {
    if item.id in items then items else items[item.id := item]
  }

  /** Attaching stores the item itself, once and for all; attaching under no key stores nothing. */
  lemma {:induction false} AttachAllItems(s: Index, keys: seq<Key>, item: Item, upsert: bool)
    requires IndexOk(s)
    ensures AttachAll(s, keys, item, upsert).items == if keys == [] then s.items else WithFirst(s.items, item)
  {
    if keys != [] {
      var n := |keys| - 1;
      var s1 := AttachAll(s, keys[..n], item, upsert);
      AttachAllItems(s, keys[..n], item, upsert);
      AttachAllRelates(s, keys[..n], item, upsert, keys[n], item.id);
      AttachOneItems(s1, keys[n], item, upsert);
      hide IndexOk, AttachOne;
    }
  }

  lemma AttachOneItems(s: Index, k: Key, item: Item, upsert: bool)
    requires IndexOk(s)
    ensures AttachOne(s, k, item, upsert).items == WithFirst(s.items, item)
  {
  }

  /** Whether attaching `i` to the funnel `f` adds it. */
  predicate Gains(funnels: map<int, map<int, int>>, f: int, i: int) {
    i !in FunnelOf(funnels, f)
  }

  /** Whether attaching under the last key added the item to that key's funnel. */
  ghost predicate LastGains(s: Index, keys: seq<Key>, item: Item, upsert: bool)
    requires keys != []
  {
    !Related(AttachAll(s, keys[..|keys| - 1], item, upsert), keys[|keys| - 1], item.id)
  }

  /** That is so unless the item was there before or the last key occurs earlier in the list. */
  lemma LastGainsWhen(s: Index, keys: seq<Key>, item: Item, upsert: bool)
    requires IndexOk(s) && keys != []
    ensures LastGains(s, keys, item, upsert) <==>
            !Related(s, keys[|keys| - 1], item.id) && keys[|keys| - 1] !in keys[..|keys| - 1]
  {
    AttachAllRelates(s, keys[..|keys| - 1], item, upsert, keys[|keys| - 1], item.id);
    hide Related, IndexOk;
  }

  lemma EmptyIndex()
    ensures IndexOk(Index(map[], 0, map[], map[])) && Relates(Index(map[], 0, map[], map[]), {})
  {
  }

  lemma NoNumbers()
    ensures Numbered(map[], 0)
  {
  }

  lemma AttachNone(s: Index, keys: seq<Key>, item: Item, upsert: bool)
    ensures keys[..0] == [] && AttachAll(s, [], item, upsert) == s && keys[..|keys|] == keys && !SomeNew(s, [])
  {
  }

  /** Whether one of `keys` is new. */
  ghost predicate SomeNew(s: Index, keys: seq<Key>) {
    exists k :: k in keys && k !in s.ids
  }

  /** One more step of attaching under the keys of a list. */
  lemma AttachMore(s: Index, keys: seq<Key>, i: nat, item: Item, upsert: bool)
    requires i < |keys| && IndexOk(s)
    ensures var s1 := AttachAll(s, keys[..i], item, upsert);
            && AttachAll(s, keys[..i + 1], item, upsert) == AttachOne(s1, keys[i], item, upsert)
            && (LastGains(s, keys[..i + 1], item, upsert) <==> !Related(s1, keys[i], item.id))
            && (SomeNew(s, keys[..i + 1]) <==> SomeNew(s, keys[..i]) || keys[i] !in s1.ids)
  {
    assert keys[..i + 1][..i] == keys[..i] && keys[..i + 1][i] == keys[i];
    assert forall k :: k in keys[..i + 1] <==> k in keys[..i] || k == keys[i];
    AttachAllKeeps(s, keys[..i], item, upsert);
    hide IndexOk, AttachOne, Related, Keeps;
  }

  /** What one step gives, seen from the key id. */
  lemma AttachedUnder(s: Index, k: Key, item: Item, upsert: bool, f: int, ids: map<Key, int>, cursor: nat)
    requires IndexOk(s) && f == (if k in s.ids then s.ids[k] else s.cursor + 1)
    requires if k in s.ids then ids == s.ids && cursor == s.cursor else ids == s.ids[k := f] && cursor == f
    ensures Numbered(ids, cursor) && IndexOk(AttachOne(s, k, item, upsert))
    ensures AttachOne(s, k, item, upsert) ==
            Index(ids, cursor, FunnelsAfter(s.funnels, f, item.id, upsert),
                  ItemsAfter(s.items, item, upsert || Gains(s.funnels, f, item.id)))
    ensures Gains(s.funnels, f, item.id) <==> !Related(s, k, item.id)
  {
    AttachOneOk(s, k, item, upsert);
    assert IndexOk(AttachOne(s, k, item, upsert));
    hide FunnelsAfter, ItemsAfter;
  }

  lemma KeepsItself(s: Index)
    ensures Keeps(s, s)
  {
  }

  // ------------------------------------------------------------------ the index as a relation

  /** The index relates exactly the keys and ids in `pairs`. */
  ghost predicate Relates(s: Index, pairs: set<(Key, int)>) {
    forall k, i :: Related(s, k, i) <==> (k, i) in pairs
  }

  /** Every key of the list paired with `i`. */
  ghost function Under(keys: seq<Key>, i: int): set<(Key, int)> {
    set k | k in keys :: (k, i)
  }

  /** Whether attaching without upsert reports success: some key is new, and the item is new under the last one. */
  ghost predicate Reports(s: Index, keys: seq<Key>, item: Item) {
    && SomeNew(s, keys)
    && !Related(s, keys[|keys| - 1], item.id) && keys[|keys| - 1] !in keys[..|keys| - 1]
  }

  lemma Attached(s: Index, keys: seq<Key>, item: Item, upsert: bool, pairs: set<(Key, int)>)
    requires IndexOk(s) && Relates(s, pairs)
    ensures Relates(AttachAll(s, keys, item, upsert), pairs + Under(keys, item.id))
    ensures Keeps(s, AttachAll(s, keys, item, upsert))
    ensures keys != [] ==>
              (Reports(s, keys, item) <==> SomeNew(s, keys) && LastGains(s, keys, item, false))
    ensures SomeNew(s, keys) || Reports(s, keys, item) ==> keys != []
  {
    AttachAllKeeps(s, keys, item, upsert);
    if keys != [] {
      LastGainsWhen(s, keys, item, false);
    }
    hide IndexOk, Related, Keeps;
    forall k, i
      ensures Related(AttachAll(s, keys, item, upsert), k, i) <==> (k, i) in pairs + Under(keys, item.id)
    {
      AttachAllRelates(s, keys, item, upsert, k, i);
      assert (k, i) in Under(keys, item.id) <==> k in keys && i == item.id;
    }
  }

  /** Attaching under a key that is known, by its id. */
  lemma Updated(s: Index, key: Key, item: Item, pairs: set<(Key, int)>)
    requires IndexOk(s) && Relates(s, pairs) && key in s.ids
    ensures var s' := Index(s.ids, s.cursor, FunnelsAfter(s.funnels, s.ids[key], item.id, true), ItemsAfter(s.items, item, true));
            && IndexOk(s') && Relates(s', pairs + {(key, item.id)}) && Keeps(s, s')
            && s'.items == WithFirst(s.items, item)
  {
    AttachOneOk(s, key, item, true);
    var s' := AttachOne(s, key, item, true);
    assert s' == Index(s.ids, s.cursor, FunnelsAfter(s.funnels, s.ids[key], item.id, true), ItemsAfter(s.items, item, true));
    assert Keeps(s, s');
    forall k, i
      ensures Related(s', k, i) <==> (k, i) in pairs + {(key, item.id)}
    {
      AttachOneRelates(s, key, item, true, k, i);
      hide Related, AttachOne, IndexOk;
    }
    hide Related, AttachOne, IndexOk, FunnelsAfter, ItemsAfter;
  }

  // ------------------------------------------------------------------ attaching without being told so

  /** A second item attached under a key that is known already: the pair is new, the report is failure. */
  lemma UnreportedUnderKnownKey(a: Item, b: Item)
    requires a.id != b.id
    ensures var s := AttachOne(Index(map[], 0, map[], map[]), [97], a, false);
            && !Related(s, [97], b.id)
            && Related(AttachAll(s, [[97]], b, false), [97], b.id)
            && !Reports(s, [[97]], b)
  {
    var none, k := Index(map[], 0, map[], map[]), [97];
    var s := AttachOne(none, k, a, false);
    NoNumbers();
    AttachOneOk(none, k, a, false);
    AttachOneRelates(none, k, a, false, k, b.id);
    AttachAllRelates(s, [k], b, false, k, b.id);
    assert k in s.ids;
    hide Related, IndexOk, AttachAll, AttachOne;
  }

  /** A first item attached under a list that names one key twice: the pair is new, the report is failure. */
  lemma UnreportedUnderRepeatedKey(b: Item)
    ensures var s := Index(map[], 0, map[], map[]);
            && !Related(s, [97], b.id)
            && Related(AttachAll(s, [[97], [97]], b, false), [97], b.id)
            && !Reports(s, [[97], [97]], b)
  {
    var s, k := Index(map[], 0, map[], map[]), [97];
    NoNumbers();
    AttachAllRelates(s, [k, k], b, false, k, b.id);
    hide AttachAll;
    assert [k, k][..1] == [k];
  }
}
