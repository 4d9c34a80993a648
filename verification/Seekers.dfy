/** Answering queries. */
module Seekers {
  import opened Dictionary
  import opened Walking
  import opened Items
  import opened Indexes
  import opened Conditions
  import opened Filters
  import opened Farms
  import opened Collecting
  import opened Tries
  import opened Searching

  class Seeker {
    const trie: Trie
    const farm: Farm
    const filter: FilterChain
    const items: ItemList
    const keyId: string
    const maxIterations: nat

    ghost predicate Valid()
      reads this, trie, trie.da, farm, filter, filter.filters, filter.excludes
    {
      trie.Valid() && IndexOk(trie.With(farm)) && filter.Valid()
    }

    constructor (trie: Trie, farm: Farm, keyId: string, maxIterations: nat)
      requires trie.Valid() && IndexOk(trie.With(farm))
      ensures this.trie == trie && this.farm == farm && this.keyId == keyId && this.maxIterations == maxIterations
      ensures Valid() && fresh(filter) && fresh(items) && filter.filters == [] && filter.excludes == []
    {
      hide trie.Valid, IndexOk;
      this.trie, this.farm, this.keyId, this.maxIterations := trie, farm, keyId, maxIterations;
      filter := new FilterChain();
      items := new ItemList();
    }

    /** The items that answer the query. */
    method Seek(q: Query) returns (found: seq<Item>, ghost ks: seq<Key>)
      requires Valid() && Readable(trie.da.dict, q.prefix)
      modifies items, filter, set f | f in filter.filters, set f | f in filter.excludes
      ensures Valid() && trie.With(farm) == old(trie.With(farm))
      ensures found == items.contents && InWalkOrder(trie.da.layout, q.prefix, ks)
      ensures Answered(trie.With(farm), q, Rebuilt(old(Tests(filter.filters)), q.filters, keyId),
                       Rebuilt(old(Tests(filter.excludes)), q.excludes, keyId), maxIterations, found)
      ensures AnsweredInReach(trie.With(farm), q, Rebuilt(old(Tests(filter.filters)), q.filters, keyId),
                              Rebuilt(old(Tests(filter.excludes)), q.excludes, keyId), maxIterations, found, ks)
    {
      hide trie.Valid, filter.Valid, IndexOk, Rebuilt, Answered, AnsweredInReach, Tests;
      items.Clear();
      filter.Rebuild(q.filters, q.excludes, keyId);
      ks := SeekBelow(q);
      found := items.contents;
    }

    /** Collects the items below the prefix into the list. */
    method SeekBelow(q: Query) returns (ghost ks: seq<Key>)
      requires Valid() && Readable(trie.da.dict, q.prefix) && items.contents == []
      modifies items
      ensures InWalkOrder(trie.da.layout, q.prefix, ks)
      ensures Answered(trie.With(farm), q, Tests(filter.filters), Tests(filter.excludes), maxIterations, items.contents)
      ensures AnsweredInReach(trie.With(farm), q, Tests(filter.filters), Tests(filter.excludes), maxIterations,
                              items.contents, ks)
    {
      hide trie.Valid, filter.Valid, Answered, AnsweredInReach, Tests, Visited, Collected, Enumerates;
      var cb := new ItemCallback(farm, filter, items, q.num, maxIterations);
      ks := trie.Traverse(q.prefix, cb);
      SearchAnswered(trie.With(farm), q, Tests(filter.filters), Tests(filter.excludes), maxIterations,
                     items.contents, cb.recorded, cb.pumped, ks);
      SearchInReach(trie.With(farm), q, Tests(filter.filters), Tests(filter.excludes), maxIterations,
                    items.contents, cb.recorded, cb.pumped, ks);
    }
  }
}
