/** Which tests a query's conditions stand for, and what they accept. */
module Conditions {
  import opened Items

  /** One link of a filter chain. */
  datatype Test = Equal(attr: string, value: Value) | In(attr: string, values: set<Value>, allowMiss: bool)

  /** Whether an item passes a test.  An equality with null demands that the member is missing. */
  predicate Accepts(t: Test, item: Item) {
    var member := FindMember(item.dom, t.attr);
    match t
    case Equal(_, value) => if value.Null? then member.None? else member == Some(value)
    case In(_, values, allowMiss) => if member.Some? then member.value in values else allowMiss
  }

  ghost predicate AllAccept(tests: seq<Test>, item: Item) {
    forall i :: 0 <= i < |tests| ==> Accepts(tests[i], item)
  }

  /** The values other than null. */
  function NonNull(values: seq<Value>): set<Value> {
    set v | v in values && !v.Null?
  }

  function InTest(attr: string, values: seq<Value>): Test {
    In(attr, NonNull(values), Null in values)
  }

  predicate IsUint(v: Value) {
    v.Num? && 0 <= v.n < 0x1_0000_0000
  }

  /** The test a member of a condition object stands for; objects and null are ignored. */
  function TestOf(m: Member): seq<Test> {
    match m.value
    case Arr(values) => [InTest(m.name, values)]
    case Obj(_) => []
    case Null => []
    case _ => [Equal(m.name, m.value)]
  }

  function TestsOf(members: seq<Member>): seq<Test> {
    if members == [] then [] else TestsOf(members[..|members| - 1]) + TestOf(members[|members| - 1])
  }

  /** A chain extended through a cursor that starts at its head: the head stays, the rest is replaced. */
  function Extended(tests: seq<Test>, more: seq<Test>): seq<Test> {
    if tests == [] then more else if more == [] then tests else [tests[0]] + more
  }

  /** The tests of a chain after it was rebuilt for a condition. */
  function Rebuilt(tests: seq<Test>, cond: Option<Value>, keyId: string): seq<Test> {
    match cond
    case None => []
    case Some(Arr(values)) => [InTest(keyId, values)]
    case Some(Obj(members)) => Extended(tests, TestsOf(members))
    case Some(v) => if IsUint(v) then [Equal(keyId, v)] else tests
  }

  /** What the two chains together let through. */
  ghost predicate Passes(filters: seq<Test>, excludes: seq<Test>, item: Item) {
    && (excludes == [] || !AllAccept(excludes, item))
    && AllAccept(filters, item)
  }

  // ------------------------------------------------------------------ the conditions read directly

  /** The member called `attr` is one of `values`; a null among them admits items without that member. */
  ghost predicate Listed(attr: string, values: seq<Value>, item: Item) {
    var member := FindMember(item.dom, attr);
    if member.Some? then member.value in values && !member.value.Null? else Null in values
  }

  ghost predicate Satisfies(m: Member, item: Item) {
    match m.value
    case Arr(values) => Listed(m.name, values, item)
    case Obj(_) => true
    case Null => true
    case _ => FindMember(item.dom, m.name) == Some(m.value)
  }

  predicate Ignored(m: Member) {
    m.value.Obj? || m.value.Null?
  }

  /** Every accepted part of the condition holds. */
  ghost predicate CondHolds(cond: Option<Value>, keyId: string, item: Item) {
    match cond
    case None => true
    case Some(Arr(values)) => Listed(keyId, values, item)
    case Some(Obj(members)) => forall i :: 0 <= i < |members| ==> Satisfies(members[i], item)
    case Some(v) => IsUint(v) ==> FindMember(item.dom, keyId) == Some(v)
  }

  /** The condition has an accepted part. */
  ghost predicate Restricts(cond: Option<Value>) {
    match cond
    case None => false
    case Some(Arr(_)) => true
    case Some(Obj(members)) => exists i :: 0 <= i < |members| && !Ignored(members[i])
    case Some(v) => IsUint(v)
  }

  /** What a query asks for: everything `filters` demands, and not all of what `excludes` names. */
  ghost predicate Selected(filters: Option<Value>, excludes: Option<Value>, keyId: string, item: Item) {
    && CondHolds(filters, keyId, item)
    && !(Restricts(excludes) && CondHolds(excludes, keyId, item))
  }

  lemma InTestMeans(attr: string, values: seq<Value>, item: Item)
    ensures Accepts(InTest(attr, values), item) <==> Listed(attr, values, item)
  {
  }

  lemma TestOfMeans(m: Member, item: Item)
    ensures AllAccept(TestOf(m), item) <==> Satisfies(m, item)
    ensures TestOf(m) == [] <==> Ignored(m)
  {
    if m.value.Arr? {
      InTestMeans(m.name, m.value.elements, item);
      hide InTest, Listed, Accepts;
      assert TestOf(m)[0] == InTest(m.name, m.value.elements);
    } else if !Ignored(m) {
      assert TestOf(m)[0] == Equal(m.name, m.value);
    }
  }

  lemma AllAcceptConcat(a: seq<Test>, b: seq<Test>, item: Item)
    ensures AllAccept(a + b, item) <==> AllAccept(a, item) && AllAccept(b, item)
  {
    hide Accepts;
    if AllAccept(a + b, item) {
      assert forall i :: 0 <= i < |a| ==> a[i] == (a + b)[i];
      assert forall i :: 0 <= i < |b| ==> b[i] == (a + b)[|a| + i];
    }
  }

  /** The tests of a condition object are the conjunction of its members' conditions. */
  lemma {:induction false} TestsOfMeans(members: seq<Member>, item: Item)
    ensures AllAccept(TestsOf(members), item) <==> forall i :: 0 <= i < |members| ==> Satisfies(members[i], item)
    ensures TestsOf(members) == [] <==> forall i :: 0 <= i < |members| ==> Ignored(members[i])
  {
    if members != [] {
      var n := |members| - 1;
      TestsOfMeans(members[..n], item);
      TestOfMeans(members[n], item);
      AllAcceptConcat(TestsOf(members[..n]), TestOf(members[n]), item);
      hide AllAccept, Satisfies, Ignored, TestOf;
      assert forall i :: 0 <= i < n ==> members[..n][i] == members[i];
    }
  }

  lemma RebuiltMeans(cond: Option<Value>, keyId: string, item: Item)
    ensures AllAccept(Rebuilt([], cond, keyId), item) <==> CondHolds(cond, keyId, item)
    ensures Rebuilt([], cond, keyId) == [] <==> !Restricts(cond)
  {
    if cond.Some? {
      var v := cond.value;
      if v.Arr? {
        InTestMeans(keyId, v.elements, item);
        assert Rebuilt([], cond, keyId)[0] == InTest(keyId, v.elements);
      } else if v.Obj? {
        TestsOfMeans(v.members, item);
      } else if IsUint(v) {
        assert Rebuilt([], cond, keyId)[0] == Equal(keyId, v);
      }
      hide InTest, Listed, TestsOf, Satisfies;
    }
  }

  /** A fresh pair of chains lets through exactly what the query asks for. */
  lemma FreshChainSelects(filters: Option<Value>, excludes: Option<Value>, keyId: string, item: Item)
    ensures Passes(Rebuilt([], filters, keyId), Rebuilt([], excludes, keyId), item) <==>
            Selected(filters, excludes, keyId, item)
  {
    RebuiltMeans(filters, keyId, item);
    RebuiltMeans(excludes, keyId, item);
    hide Rebuilt, AllAccept, CondHolds, Restricts;
  }

  /** An unsigned 32-bit number as a condition asks for the item with that id, or rules it out. */
  lemma IdCondition(n: int, keyId: string, item: Item)
    requires 0 <= n < 0x1_0000_0000
    ensures Selected(Some(Num(n)), None, keyId, item) <==> FindMember(item.dom, keyId) == Some(Num(n))
    ensures Selected(None, Some(Num(n)), keyId, item) <==> FindMember(item.dom, keyId) != Some(Num(n))
    ensures forall tests: seq<Test> :: Rebuilt(tests, Some(Num(n)), keyId) == [Equal(keyId, Num(n))]
  {
    hide FindMember;
  }

  /** An array as a condition asks for the items with one of the ids listed, or rules them out. */
  lemma IdListCondition(values: seq<Value>, keyId: string, item: Item)
    ensures Selected(Some(Arr(values)), None, keyId, item) <==>
            match FindMember(item.dom, keyId)
            case Some(v) => v in values && v != Null
            case None => Null in values
    ensures Selected(None, Some(Arr(values)), keyId, item) <==> !Selected(Some(Arr(values)), None, keyId, item)
  {
    hide FindMember;
  }

  /** A condition object with one member asks for the items whose member of that name has the value, or one of the
      values, or rules them out; an object or null as the value asks for nothing. */
  lemma MemberCondition(m: Member, keyId: string, item: Item)
    ensures Selected(Some(Obj([m])), None, keyId, item) <==>
            match m.value
            case Arr(values) =>
              (match FindMember(item.dom, m.name)
               case Some(v) => v in values && v != Null
               case None => Null in values)
            case Obj(_) => true
            case Null => true
            case v => FindMember(item.dom, m.name) == Some(v)
    ensures Selected(None, Some(Obj([m])), keyId, item) <==>
            m.value.Obj? || m.value.Null? || !Selected(Some(Obj([m])), None, keyId, item)
  {
    hide FindMember;
    assert [m][0] == m;
  }

  /** Null, booleans, strings and all other numbers restrict nothing, in either place, and leave a chain as it is. */
  lemma UnusedCondition(v: Value, keyId: string, item: Item)
    requires v.Null? || v.Bool? || v.Str? || (v.Num? && !(0 <= v.n < 0x1_0000_0000))
    ensures Selected(Some(v), None, keyId, item) && Selected(None, Some(v), keyId, item)
    ensures forall tests: seq<Test> :: Rebuilt(tests, Some(v), keyId) == tests
  {
    hide FindMember;
  }

  /** An equality with null accepts exactly the items without a member of that name. */
  lemma EqualNull(attr: string, item: Item)
    ensures Accepts(Equal(attr, Null), item) <==> forall i :: 0 <= i < |item.dom| ==> item.dom[i].name != attr
  {
  }

  /** The tests of a chain that survive its rebuilding: the head if the condition is an object that extends it. */
  ghost function Kept(tests: seq<Test>, cond: Option<Value>): seq<Test> {
    match cond
    case None => []
    case Some(Arr(_)) => []
    case Some(Obj(_)) => if tests == [] || !Restricts(cond) then tests else [tests[0]]
    case Some(v) => if IsUint(v) then [] else tests
  }

  /** A rebuilt chain accepts an item exactly if the condition holds and the tests kept from before accept it too.
      For a condition object it is the fresh chain exactly if it was empty. */
  lemma ReusedChain(tests: seq<Test>, cond: Option<Value>, keyId: string, item: Item)
    ensures AllAccept(Rebuilt(tests, cond, keyId), item) <==>
            CondHolds(cond, keyId, item) && AllAccept(Kept(tests, cond), item)
    ensures Rebuilt(tests, cond, keyId) == [] <==> !Restricts(cond) && Kept(tests, cond) == []
    ensures cond.Some? && cond.value.Obj? ==>
              (Rebuilt(tests, cond, keyId) == Rebuilt([], cond, keyId) <==> tests == [])
  {
    hide AllAccept, CondHolds, Restricts, TestsOf;
    RebuiltMeans(cond, keyId, item);
    NoTestsAccept(item);
    if cond.Some? && cond.value.Obj? && tests != [] {
      var more := TestsOf(cond.value.members);
      assert Rebuilt([], cond, keyId) == more;
      assert more != [] ==> |Extended(tests, more)| == |more| + 1;
      AllAcceptConcat([tests[0]], more, item);
    }
    if cond.Some? && !cond.value.Obj? && !cond.value.Arr? && !IsUint(cond.value) {
      UnusedCond(cond, keyId, item);
    }
  }

  lemma NoTestsAccept(item: Item)
    ensures AllAccept([], item)
  {
  }

  lemma UnusedCond(cond: Option<Value>, keyId: string, item: Item)
    requires cond.Some? && !cond.value.Obj? && !cond.value.Arr? && !IsUint(cond.value)
    ensures CondHolds(cond, keyId, item) && !Restricts(cond)
  {
  }

  /** When the tests left over in a reused pair of chains do no harm to an item. */
  ghost predicate Harmless(oldFilters: seq<Test>, oldExcludes: seq<Test>, filters: Option<Value>, excludes: Option<Value>,
                           keyId: string, item: Item)
  {
    var passes, hits := AllAccept(Kept(oldFilters, filters), item), AllAccept(Kept(oldExcludes, excludes), item);
    CondHolds(filters, keyId, item) ==>
      if Restricts(excludes) && CondHolds(excludes, keyId, item) then passes ==> hits
      else passes && !(Kept(oldExcludes, excludes) != [] && CondHolds(excludes, keyId, item) && hits)
  }

  /** A reused pair of chains decides about an item as the query asks exactly if the tests left over do no harm. */
  lemma ReusedPairSelects(oldFilters: seq<Test>, oldExcludes: seq<Test>, filters: Option<Value>, excludes: Option<Value>,
                          keyId: string, item: Item)
    ensures (Passes(Rebuilt(oldFilters, filters, keyId), Rebuilt(oldExcludes, excludes, keyId), item) <==>
             Selected(filters, excludes, keyId, item)) <==>
            Harmless(oldFilters, oldExcludes, filters, excludes, keyId, item)
  {
    hide Rebuilt, AllAccept, CondHolds, Restricts, Kept;
    ReusedChain(oldFilters, filters, keyId, item);
    ReusedChain(oldExcludes, excludes, keyId, item);
  }

  /** A chain used for the items with id 1 and then for those with colour 2 still insists on id 1. */
  lemma StaleHead(item: Item)
    requires item == Item(7, [Member("id", Num(7)), Member("colour", Num(2))])
    ensures var cond := Some(Obj([Member("colour", Num(2))]));
            && Selected(cond, None, "id", item)
            && !Passes(Rebuilt(Rebuilt([], Some(Num(1)), "id"), cond, "id"), [], item)
  {
    var stale := Rebuilt([], Some(Num(1)), "id");
    var members := [Member("colour", Num(2))];
    assert stale == [Equal("id", Num(1))];
    assert item.dom[1..][0] == Member("colour", Num(2));
    assert Rebuilt(stale, Some(Obj(members)), "id")[0] == Equal("id", Num(1));
    assert !Accepts(Equal("id", Num(1)), item);
  }
}
