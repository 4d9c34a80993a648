/** Attaching items: one step over the key index and the funnels. */
module Keepers {
  import opened Dictionary
  import opened Items
  import opened Indexes
  import opened Farms
  import opened Tries

  class Keeper {
    const trie: Trie
    const farm: Farm

    /** The pairs of a key and the id of an item attached under it. */
    ghost var pairs: set<(Key, int)>

    /** For every id the first item attached with it. */
    ghost var firsts: map<int, Item>

    ghost predicate Valid()
      reads this, trie, trie.da, farm
    {
      && trie.Valid() && IndexOk(trie.With(farm))
      && Relates(trie.With(farm), pairs) && farm.itemDict == firsts
    }

    constructor (trie: Trie, farm: Farm)
      requires trie.Valid() && trie.da.dict == map[] && trie.funnelIdCursor == 0
      requires farm.itemDict == map[] && farm.funnelDict == map[]
      ensures this.trie == trie && this.farm == farm && pairs == {} && firsts == map[] && Valid()
    {
      hide Trie.Valid, IndexOk, Relates;
      EmptyIndex();
      this.trie, this.farm, pairs, firsts := trie, farm, {}, map[];
    }

    /** Attaches `item` under every key of the list. */
    method Attach(keys: seq<Key>, item: Item, upsertItem: bool) returns (ok: bool)
      requires Valid() && trie.funnelIdCursor + |keys| <= MAX_VALUE
      requires forall k :: k in keys ==> Storable(k)
      modifies `pairs, `firsts, trie`funnelIdCursor, trie.da, farm
      ensures Valid() && pairs == old(pairs) + Under(keys, item.id)
      ensures firsts == if keys == [] || item.id in old(firsts) then old(firsts) else old(firsts)[item.id := item]
      ensures keys != [] ==>
                && item.id in farm.itemDict
                && farm.itemDict[item.id] == if item.id in old(farm.itemDict) then old(farm.itemDict)[item.id] else item
      ensures Keeps(old(trie.With(farm)), trie.With(farm))
      ensures trie.With(farm) == AttachAll(old(trie.With(farm)), keys, item, upsertItem)
      ensures ok <==> upsertItem || Reports(old(trie.With(farm)), keys, item)
    {
      hide trie.Valid, IndexOk, Relates, Under, AttachAll, Reports, SomeNew, LastGains, Keeps;
      var cb := new AttachCallback(farm, item, upsertItem);
      ghost var s := trie.With(farm);
      var anyNew := trie.Attach(keys, cb);
      ok := (anyNew && cb.attached) || upsertItem;
      Attached(s, keys, item, upsertItem, pairs);
      AttachAllItems(s, keys, item, upsertItem);
      pairs := pairs + Under(keys, item.id);
      firsts := if keys == [] then firsts else WithFirst(firsts, item);
    }

    /** Attaches `item` under a key that is already known. */
    method UpdateItem(key: Key, item: Item) returns (ok: bool)
      requires Valid() && Readable(trie.da.dict, key)
      modifies `pairs, `firsts, farm
      ensures Valid() && pairs == old(pairs) + if ok then {(key, item.id)} else {}
      ensures firsts == if !ok || item.id in old(firsts) then old(firsts) else old(firsts)[item.id := item]
      ensures ok ==>
                && item.id in farm.itemDict
                && farm.itemDict[item.id] == if item.id in old(farm.itemDict) then old(farm.itemDict)[item.id] else item
      ensures ok <==> key in trie.da.dict
      ensures Keeps(old(trie.With(farm)), trie.With(farm))
    {
      hide IndexOk, Relates, Keeps, FunnelsAfter, ItemsAfter, trie.Valid, Readable;
      ghost var s := trie.With(farm);
      var id := trie.IdOf(key);
      if id != 0 {
        Updated(s, key, item, pairs);
        ok := farm.Attach(id, item, true);
        pairs := pairs + {(key, item.id)};
        firsts := WithFirst(firsts, item);
      } else {
        KeepsItself(s);
        ok := false;
      }
    }
  }
}
