/** What a search finds, in terms of the relation between keys and item ids. */
module Searching {
  import opened Rings
  import opened Dictionary
  import opened Walking
  import opened Items
  import opened Indexes
  import opened Conditions
  import opened Collecting
  import opened Tries

  /** A query: a prefix, what to demand, what to rule out, and how many items to return. */
  datatype Query = Query(prefix: Key, filters: Option<Value>, excludes: Option<Value>, num: nat)

  /** `i` is attached under a key that extends `prefix`. */
  ghost predicate Offered(s: Index, prefix: Key, i: int) {
    exists k :: k in s.ids && prefix <= k && Related(s, k, i)
  }

  /** The ids of the items offered under the prefix that pass the filters. */
  ghost function Answers(s: Index, prefix: Key, filters: seq<Test>, excludes: seq<Test>): set<int> {
    set i | i in s.items && Offered(s, prefix, i) && Passes(filters, excludes, s.items[i])
  }

  /** The number of funnels a search visits: a prefix that is a key itself counts twice. */
  ghost function VisitCount(ids: map<Key, int>, prefix: Key): nat {
    |Extensions(ids, prefix)| + if prefix in ids then 1 else 0
  }

  ghost function Least(a: nat, b: nat): nat {
    if a < b then a else b
  }

  /** What a search that stops after `num` items or `maxIterations` funnels may return. */
  ghost predicate Answered(s: Index, q: Query, filters: seq<Test>, excludes: seq<Test>, maxIterations: nat, found: seq<Item>) {
    && Distinct(Ids(found)) && |found| <= q.num
    && (forall x :: x in found ==>
          && x.id in s.items && s.items[x.id] == x
          && Offered(s, q.prefix, x.id) && Passes(filters, excludes, x))
    && (VisitCount(s.ids, q.prefix) <= maxIterations ==>
          |found| == Least(q.num, |Answers(s, q.prefix, filters, excludes)|))
  }

  lemma {:induction false} SeenMember(funnels: map<int, map<int, int>>, fs: seq<int>, i: int)
    ensures i in SeenIn(funnels, fs) <==> exists f :: f in fs && i in FunnelOf(funnels, f)
  {
    if fs != [] {
      var n := |fs| - 1;
      SeenMember(funnels, fs[..n], i);
      assert forall f :: f in fs <==> f in fs[..n] || f == fs[n];
      hide FunnelOf;
    }
  }

  /** The funnels of a visit hold exactly the ids offered under the prefix. */
  lemma VisitSees(s: Index, prefix: Key, ks: seq<Key>, i: int)
    requires Enumerates(ks, s.ids, prefix)
    ensures i in SeenIn(s.funnels, Visits(s.ids, prefix, ks)) <==> Offered(s, prefix, i)
  {
    var order := Visits(s.ids, prefix, ks);
    SeenMember(s.funnels, order, i);
    if f :| f in order && i in FunnelOf(s.funnels, f) {
      VisitOf(s.ids, prefix, ks, f);
    }
    if k :| k in s.ids && prefix <= k && Related(s, k, i) {
      VisitOf(s.ids, prefix, ks, s.ids[k]);
      assert s.ids[k] in order && i in FunnelOf(s.funnels, s.ids[k]);
    }
    hide Visits, Enumerates, SeenIn;
  }

  /** A visit meets exactly the values of the keys that extend the prefix. */
  lemma VisitOf(ids: map<Key, int>, prefix: Key, ks: seq<Key>, f: int)
    requires Enumerates(ks, ids, prefix)
    ensures f in Visits(ids, prefix, ks) <==> exists k :: k in ids && prefix <= k && ids[k] == f
  {
    var vs := Values(ids, ks);
    if f in vs {
      var j :| 0 <= j < |vs| && vs[j] == f;
      assert ks[j] in ks;
    }
    if k :| k in ids && prefix <= k && ids[k] == f {
      assert k in ks;
      var j :| 0 <= j < |ks| && ks[j] == k;
      assert vs[j] == f;
    }
    hide Enumerates, Values;
  }

  lemma VisitLength(ids: map<Key, int>, prefix: Key, ks: seq<Key>)
    requires Enumerates(ks, ids, prefix)
    ensures |Visits(ids, prefix, ks)| == VisitCount(ids, prefix)
  {
    EnumeratesCount(ks, ids, prefix);
  }

  lemma {:induction false} SeenPrefix(funnels: map<int, map<int, int>>, fs: seq<int>, gs: seq<int>)
    requires fs <= gs
    ensures SeenIn(funnels, fs) <= SeenIn(funnels, gs)
  {
    forall i | i in SeenIn(funnels, fs)
      ensures i in SeenIn(funnels, gs)
    {
      SeenMember(funnels, fs, i);
      SeenMember(funnels, gs, i);
    }
  }

  lemma AnswersSeen(s: Index, prefix: Key, filters: seq<Test>, excludes: seq<Test>, ks: seq<Key>)
    requires Enumerates(ks, s.ids, prefix)
    ensures Matching(SeenIn(s.funnels, Visits(s.ids, prefix, ks)), s.items, filters, excludes) ==
            Answers(s, prefix, filters, excludes)
  {
    forall i
      ensures i in SeenIn(s.funnels, Visits(s.ids, prefix, ks)) <==> Offered(s, prefix, i)
    {
      VisitSees(s, prefix, ks, i);
    }
    hide Offered, SeenIn, Visits, Passes, Enumerates;
  }

  lemma MatchingGrows(seen: set<int>, seen': set<int>, items: map<int, Item>, filters: seq<Test>, excludes: seq<Test>)
    requires seen <= seen'
    ensures Matching(seen, items, filters, excludes) <= Matching(seen', items, filters, excludes)
  {
    hide Passes;
  }

  /** What was collected from the visited funnels answers the query. */
  lemma SearchAnswered(s: Index, q: Query, filters: seq<Test>, excludes: seq<Test>, maxIterations: nat,
                       found: seq<Item>, recorded: set<int>, pumped: seq<int>, ks: seq<Key>)
    requires Enumerates(ks, s.ids, q.prefix)
    requires Collected(found, recorded, Matching(SeenIn(s.funnels, pumped), s.items, filters, excludes), s.items, q.num)
    requires Visited(pumped, Visits(s.ids, q.prefix, ks), |found|, q.num, maxIterations) && |pumped| <= maxIterations
    ensures Answered(s, q, filters, excludes, maxIterations, found)
  {
    hide Collected, Matching, SeenIn, Visits, Enumerates, VisitCount, Answers, Offered, Passes;
    var order := Visits(s.ids, q.prefix, ks);
    var part := Matching(SeenIn(s.funnels, pumped), s.items, filters, excludes);
    var all := Answers(s, q.prefix, filters, excludes);
    SeenPrefix(s.funnels, pumped, order);
    AnswersSeen(s, q.prefix, filters, excludes, ks);
    MatchingGrows(SeenIn(s.funnels, pumped), SeenIn(s.funnels, order), s.items, filters, excludes);
    VisitLength(s.ids, q.prefix, ks);
    CollectedCount(found, recorded, part, s.items, q.num);
    SubsetSize(part, all);
    assert |pumped| == |order| ==> pumped == order;
    FoundAnswers(s, q, filters, excludes, found, recorded, part);
  }

  lemma FoundAnswers(s: Index, q: Query, filters: seq<Test>, excludes: seq<Test>, found: seq<Item>, recorded: set<int>,
                     matching: set<int>)
    requires Collected(found, recorded, matching, s.items, q.num) && matching <= Answers(s, q.prefix, filters, excludes)
    ensures Distinct(Ids(found)) && |found| <= q.num
    ensures forall x :: x in found ==>
              && x.id in s.items && s.items[x.id] == x
              && Offered(s, q.prefix, x.id) && Passes(filters, excludes, x)
  {
    FoundRecorded(found, recorded, matching, s.items, q.num);
    hide Offered, Passes, Distinct, Ids;
  }

  /** The funnels a search looks at when it visits the keys in the order `ks`. */
  ghost function InReach(s: Index, prefix: Key, ks: seq<Key>, maxIterations: nat): seq<int> {
    var order := Visits(s.ids, prefix, ks);
    order[..Least(|order|, maxIterations)]
  }

  /** Also when the search is cut off: it returns what the funnels in reach offer, as far as `num` allows. */
  ghost predicate AnsweredInReach(s: Index, q: Query, filters: seq<Test>, excludes: seq<Test>, maxIterations: nat,
                                  found: seq<Item>, ks: seq<Key>)
  {
    var reach := Matching(SeenIn(s.funnels, InReach(s, q.prefix, ks, maxIterations)), s.items, filters, excludes);
    && Enumerates(ks, s.ids, q.prefix)
    && |found| == Least(q.num, |reach|)
    && (forall x :: x in found ==> x.id in reach)
    && InOrder(found, s.funnels, InReach(s, q.prefix, ks, maxIterations), s.items, filters, excludes, q.num)
  }

  lemma SearchInReach(s: Index, q: Query, filters: seq<Test>, excludes: seq<Test>, maxIterations: nat,
                      found: seq<Item>, recorded: set<int>, pumped: seq<int>, ks: seq<Key>)
    requires Enumerates(ks, s.ids, q.prefix)
    requires Collected(found, recorded, Matching(SeenIn(s.funnels, pumped), s.items, filters, excludes), s.items, q.num)
    requires Visited(pumped, Visits(s.ids, q.prefix, ks), |found|, q.num, maxIterations) && |pumped| <= maxIterations
    requires InOrder(found, s.funnels, pumped, s.items, filters, excludes, q.num)
    ensures AnsweredInReach(s, q, filters, excludes, maxIterations, found, ks)
  {
    hide Collected, Matching, SeenIn, Visits, Enumerates, Passes;
    var reach := InReach(s, q.prefix, ks, maxIterations);
    var part, all := Matching(SeenIn(s.funnels, pumped), s.items, filters, excludes),
                     Matching(SeenIn(s.funnels, reach), s.items, filters, excludes);
    SeenPrefix(s.funnels, pumped, reach);
    MatchingGrows(SeenIn(s.funnels, pumped), SeenIn(s.funnels, reach), s.items, filters, excludes);
    CollectedCount(found, recorded, part, s.items, q.num);
    SubsetSize(part, all);
    assert |found| < q.num ==> pumped == reach;
    FoundRecorded(found, recorded, part, s.items, q.num);
    forall n | 0 <= n <= |reach|
      ensures Leads(found, Matching(SeenIn(s.funnels, reach[..n]), s.items, filters, excludes), q.num)
    {
      if n <= |pumped| {
        assert reach[..n] == pumped[..n];
        assert Leads(found, Matching(SeenIn(s.funnels, pumped[..n]), s.items, filters, excludes), q.num);
      } else {
        assert pumped <= reach[..n];
        SeenPrefix(s.funnels, pumped, reach[..n]);
        MatchingGrows(SeenIn(s.funnels, pumped), SeenIn(s.funnels, reach[..n]), s.items, filters, excludes);
      }
    }
  }

  /** With fresh chains the answers are the offered items that the query's conditions select. */
  lemma FreshAnswers(s: Index, q: Query, keyId: string, i: int)
    ensures i in Answers(s, q.prefix, Rebuilt([], q.filters, keyId), Rebuilt([], q.excludes, keyId)) <==>
            i in s.items && Offered(s, q.prefix, i) && Selected(q.filters, q.excludes, keyId, s.items[i])
  {
    hide Offered, Passes, Selected, Rebuilt;
    if i in s.items {
      FreshChainSelects(q.filters, q.excludes, keyId, s.items[i]);
    }
  }

  /** An id is offered under a prefix exactly if it was attached under a key that extends it. */
  lemma OfferedPairs(s: Index, pairs: set<(Key, int)>, prefix: Key, i: int)
    requires Relates(s, pairs)
    ensures Offered(s, prefix, i) <==> exists k :: (k, i) in pairs && prefix <= k
  {
    if k :| k in s.ids && prefix <= k && Related(s, k, i) {
      assert (k, i) in pairs;
    }
    if k :| (k, i) in pairs && prefix <= k {
      assert Related(s, k, i);
    }
  }

  /** `i` was attached under a key that extends the prefix. */
  ghost predicate AttachedBelow(pairs: set<(Key, int)>, prefix: Key, i: int) {
    exists k :: (k, i) in pairs && prefix <= k
  }

  /** The ids of the items attached under a key that extends the prefix and selected by the query's conditions. */
  ghost function Asked(items: map<int, Item>, pairs: set<(Key, int)>, q: Query, keyId: string): set<int> {
    set i | i in items && AttachedBelow(pairs, q.prefix, i) && Selected(q.filters, q.excludes, keyId, items[i])
  }

  /** A search with fresh chains, seen from the pairs attached: it returns different items of those asked for, and
      as many as `num` allows if its visits fit the iteration bound. */
  lemma FreshSearch(s: Index, pairs: set<(Key, int)>, q: Query, keyId: string, maxIterations: nat, found: seq<Item>)
    requires Relates(s, pairs)
    requires Answered(s, q, Rebuilt([], q.filters, keyId), Rebuilt([], q.excludes, keyId), maxIterations, found)
    ensures Distinct(Ids(found)) && |found| <= q.num
    ensures forall x :: x in found ==> x.id in Asked(s.items, pairs, q, keyId) && s.items[x.id] == x
    ensures VisitCount(s.ids, q.prefix) <= maxIterations ==> |found| == Least(q.num, |Asked(s.items, pairs, q, keyId)|)
  {
    hide Answers, Rebuilt, Passes, Selected, Offered, AttachedBelow, Relates, VisitCount, Ids, Distinct;
    AnswersAsked(s, pairs, q, keyId);
    forall x | x in found
      ensures x.id in Asked(s.items, pairs, q, keyId)
    {
      BelowPairs(s, pairs, q.prefix, x.id);
      FreshChainSelects(q.filters, q.excludes, keyId, x);
    }
  }

  lemma AnswersAsked(s: Index, pairs: set<(Key, int)>, q: Query, keyId: string)
    requires Relates(s, pairs)
    ensures Answers(s, q.prefix, Rebuilt([], q.filters, keyId), Rebuilt([], q.excludes, keyId)) ==
            Asked(s.items, pairs, q, keyId)
  {
    hide Rebuilt, Passes, Selected, Offered, AttachedBelow, Relates;
    forall i | i in s.items
      ensures Passes(Rebuilt([], q.filters, keyId), Rebuilt([], q.excludes, keyId), s.items[i]) <==>
              Selected(q.filters, q.excludes, keyId, s.items[i])
      ensures Offered(s, q.prefix, i) <==> AttachedBelow(pairs, q.prefix, i)
    {
      FreshChainSelects(q.filters, q.excludes, keyId, s.items[i]);
      BelowPairs(s, pairs, q.prefix, i);
    }
  }

  lemma BelowPairs(s: Index, pairs: set<(Key, int)>, prefix: Key, i: int)
    requires Relates(s, pairs)
    ensures Offered(s, prefix, i) <==> AttachedBelow(pairs, prefix, i)
  {
    hide Offered, Relates;
    OfferedPairs(s, pairs, prefix, i);
  }
}
