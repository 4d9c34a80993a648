/** The items served by the index and the JSON values they carry. */
module Items {

  datatype Option<T> = None | Some(value: T)

  /** A JSON value; numbers are integers. */
  datatype Value =
    | Null
    | Bool(flag: bool)
    | Num(n: int)
    | Str(text: string)
    | Arr(elements: seq<Value>)
    | Obj(members: seq<Member>)

  datatype Member = Member(name: string, value: Value)

  /** An item: its id and the members of its JSON object. */
  datatype Item = Item(id: nat, dom: seq<Member>)

  /** The value of the first member called `name`. */
  function FindMember(dom: seq<Member>, name: string): (v: Option<Value>)
    ensures v.None? <==> forall i :: 0 <= i < |dom| ==> dom[i].name != name
    ensures v.Some? ==> exists i :: 0 <= i < |dom| && dom[i] == Member(name, v.value) &&
                                    forall j :: 0 <= j < i ==> dom[j].name != name
  {
    if dom == [] then None
    else if dom[0].name == name then Some(dom[0].value)
    else
      var v := FindMember(dom[1..], name);
      assert forall i :: 1 <= i < |dom| ==> dom[i] == dom[1..][i - 1];
      assert v.Some? ==> exists i :: 0 <= i < |dom[1..]| && dom[1..][i] == Member(name, v.value) &&
                                     (forall j :: 0 <= j < i ==> dom[1..][j].name != name) && dom[i + 1] == dom[1..][i];
      v
  }
}
