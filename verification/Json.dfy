/** JSON values as Python holds them after json.loads: objects keep their member order. */
module Json {
  datatype Json =
    | Null
    | Bool(b: bool)
    | Int(n: int)
    | Float(text: string)
    | Str(s: string)
    | Arr(items: seq<Json>)
    | Obj(members: seq<Member>)

  datatype Member = Member(key: string, value: Json)

  datatype Found = Absent | Present(value: Json)

  /** dict.get: the value of the first member with this name. */
  function Get(members: seq<Member>, key: string): Found {
    if members == [] then Absent
    else if members[0].key == key then Present(members[0].value)
    else Get(members[1..], key)
  }

  lemma {:induction false} GetPresent(members: seq<Member>, i: nat)
    requires i < |members| && forall k :: 0 <= k < i ==> members[k].key != members[i].key
    ensures Get(members, members[i].key) == Present(members[i].value)
  {
    if i > 0 {
      GetPresent(members[1..], i - 1);
    }
  }

  lemma {:induction false} GetAbsent(members: seq<Member>, key: string)
    requires forall k :: 0 <= k < |members| ==> members[k].key != key
    ensures Get(members, key) == Absent
  {
    if members != [] {
      GetAbsent(members[1..], key);
    }
  }
}
