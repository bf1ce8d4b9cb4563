/**
 Canonical receipt bytes of version 2 facilitator receipts (src/psv/pqc/__init__.py): what both signatures
 cover. Text is a sequence of Unicode scalar values; the UTF-8 step is not part of this model.
 */
module Receipt {
  import opened Common
  import opened Ordering
  import opened Json
  import opened JsonText

  // ---------------------------------------------------------------- dictionaries

  /** A Python dict: no key twice, at any depth. */
  predicate UniqueKeys(members: seq<Member>) {
    forall i, j :: 0 <= i < j < |members| ==> members[i].key != members[j].key
  }

  predicate Dictionary(j: Json)
    decreases j
  {
    match j
    case Arr(items) => forall i :: 0 <= i < |items| ==> Dictionary(items[i])
    case Obj(members) => UniqueKeys(members) && forall i :: 0 <= i < |members| ==> Dictionary(members[i].value)
    case _ => true
  }

  /** Building an object from its parsed members, rejecting a repeated name: the parser's pairs hook. */
  method UniqueObject(pairs: seq<Member>) returns (r: Option<seq<Member>>)
    ensures r == if UniqueKeys(pairs) then Some(pairs) else None
  {
    var result: map<string, Json> := map[];
    var order: seq<Member> := [];
    for i := 0 to |pairs|
      invariant order == pairs[..i] && UniqueKeys(pairs[..i])
      invariant forall key :: key in result <==> exists k :: 0 <= k < i && pairs[k].key == key
    {
      if pairs[i].key in result {
        ghost var k :| 0 <= k < i && pairs[k].key == pairs[i].key;
        return None;
      }
      result := result[pairs[i].key := pairs[i].value];
      order := order + [pairs[i]];
      assert pairs[..i + 1] == pairs[..i] + [pairs[i]];
    }
    assert pairs[..|pairs|] == pairs;
    return Some(order);
  }

  /** Assigning to a key: in place when present, else at the end. */
  function SetMember(members: seq<Member>, key: string, value: Json): seq<Member> {
    if members == [] then [Member(key, value)]
    else if members[0].key == key then [Member(key, value)] + members[1..]
    else [members[0]] + SetMember(members[1..], key, value)
  }

  lemma {:induction false} SetMeaning(members: seq<Member>, key: string, value: Json)
    requires UniqueKeys(members)
    ensures UniqueKeys(SetMember(members, key, value))
    ensures forall m :: m in SetMember(members, key, value) <==> (if m.key == key then m.value == value else m in members)
  {
    if members != [] {
      var rest := SetMember(members[1..], key, value);
      SetMeaning(members[1..], key, value);
      if members[0].key == key {
        forall m | m in members[1..] ensures m.key != key {
        }
        assert Member(key, value) in SetMember(members, key, value);
      } else {
        forall i | 0 <= i < |rest| ensures rest[i].key != members[0].key {
          assert rest[i] in rest;
        }
      }
    }
  }

  lemma {:induction false} SetTwice(members: seq<Member>, key: string, v: Json, w: Json)
    ensures SetMember(SetMember(members, key, v), key, w) == SetMember(members, key, w)
    ensures Get(SetMember(members, key, v), key) == Present(v)
  {
    if members != [] && members[0].key != key {
      SetTwice(members[1..], key, v, w);
      assert SetMember(members, key, v)[1..] == SetMember(members[1..], key, v);
    }
  }

  lemma {:induction false} SetCommutes(members: seq<Member>, k: string, v: Json, l: string, w: Json)
    requires k != l && Get(members, k).Present? && Get(members, l).Present?
    ensures SetMember(SetMember(members, k, v), l, w) == SetMember(SetMember(members, l, w), k, v)
  {
    if members[0].key != k && members[0].key != l {
      SetCommutes(members[1..], k, v, l, w);
    }
    assert SetMember(members, k, v)[1..] == if members[0].key == k then members[1..] else SetMember(members[1..], k, v);
    assert SetMember(members, l, w)[1..] == if members[0].key == l then members[1..] else SetMember(members[1..], l, w);
  }

  lemma {:induction false} GetOther(members: seq<Member>, k: string, v: Json, l: string)
    requires k != l
    ensures Get(SetMember(members, k, v), l) == Get(members, l)
  {
    if members != [] && members[0].key != k {
      GetOther(members[1..], k, v, l);
      assert SetMember(members, k, v)[1..] == SetMember(members[1..], k, v);
    }
  }

  lemma {:induction false} GetMeaning(members: seq<Member>, key: string, value: Json)
    requires UniqueKeys(members)
    ensures Get(members, key) == Present(value) <==> Member(key, value) in members
  {
    if members != [] {
      GetMeaning(members[1..], key, value);
      assert forall m :: m in members[1..] ==> m.key != members[0].key;
    }
  }

  // ---------------------------------------------------------------- the signed part

  /** The signature entry `name` of sig_v2, when it is an object. */
  function Entry(receipt: seq<Member>, name: string): Option<seq<Member>> {
    match Get(receipt, "sig_v2")
    case Present(Obj(sig)) =>
      (match Get(sig, name)
       case Present(Obj(entry)) => Some(entry)
       case _ => None)
    case _ => None
  }

  /** Put a signature value into one entry of a receipt that has it. */
  function Fill(receipt: seq<Member>, name: string, signature: Json): seq<Member> {
    match Get(receipt, "sig_v2")
    case Present(Obj(sig)) =>
      (match Get(sig, name)
       case Present(Obj(entry)) => SetMember(receipt, "sig_v2", Obj(SetMember(sig, name, Obj(SetMember(entry, "signature", signature)))))
       case _ => receipt)
    case _ => receipt
  }

  predicate Signable(receipt: seq<Member>) { Entry(receipt, "classical").Some? && Entry(receipt, "pqc").Some? }

  /** The receipt with both signature values put in place. */
  function WithSignatures(receipt: seq<Member>, classical: Json, pqc: Json): seq<Member> {
    Fill(Fill(receipt, "classical", classical), "pqc", pqc)
  }

  function Unsigned(receipt: seq<Member>): Option<seq<Member>> {
    if Signable(receipt) then Some(WithSignatures(receipt, Str(""), Str(""))) else None
  }

  /** _unsigned_receipt: blank the two signature values of a copy; None where it raises. */
  method UnsignedReceipt(receipt: seq<Member>) returns (r: Option<seq<Member>>)
    ensures r == Unsigned(receipt)
  {
    var value := receipt;
    var sigV2 := Get(value, "sig_v2");
    if !sigV2.Present? || !sigV2.value.Obj? {
      return None;
    }
    var names := ["classical", "pqc"];
    for i := 0 to |names|
      invariant i >= 1 ==> Entry(receipt, "classical").Some?
      invariant i >= 2 ==> Entry(receipt, "pqc").Some?
      invariant value == if i == 0 then receipt else if i == 1 then Fill(receipt, "classical", Str("")) else WithSignatures(receipt, Str(""), Str(""))
    {
      if i == 1 {
        FillKeepsEntries(receipt, "classical", Str(""), "pqc");
      }
      var sig := Get(value, "sig_v2").value.members;
      var entry := Get(sig, names[i]);
      if !entry.Present? || !entry.value.Obj? {
        return None;
      }
      value := SetMember(value, "sig_v2", Obj(SetMember(sig, names[i], Obj(SetMember(entry.value.members, "signature", Str(""))))));
    }
    return Some(value);
  }

  /** Filling one entry leaves the others, and filling it again overwrites. */
  lemma FillKeepsEntries(receipt: seq<Member>, name: string, signature: Json, other: string)
    requires Entry(receipt, name).Some? && other != name
    ensures Entry(Fill(receipt, name, signature), name) == Some(SetMember(Entry(receipt, name).value, "signature", signature))
    ensures Entry(Fill(receipt, name, signature), other) == Entry(receipt, other)
  {
    var sig := Get(receipt, "sig_v2").value.members;
    var entry := Get(sig, name).value.members;
    var sig' := SetMember(sig, name, Obj(SetMember(entry, "signature", signature)));
    SetTwice(receipt, "sig_v2", Obj(sig'), Obj(sig'));
    SetTwice(sig, name, Obj(SetMember(entry, "signature", signature)), Null);
    GetOther(sig, name, Obj(SetMember(entry, "signature", signature)), other);
  }

  lemma FillTwice(receipt: seq<Member>, name: string, s: Json, t: Json)
    requires Entry(receipt, name).Some?
    ensures Fill(Fill(receipt, name, s), name, t) == Fill(receipt, name, t)
  {
    var sig := Get(receipt, "sig_v2").value.members;
    var entry := Get(sig, name).value.members;
    SetTwice(entry, "signature", s, t);
    SetTwice(sig, name, Obj(SetMember(entry, "signature", s)), Obj(SetMember(entry, "signature", t)));
    SetTwice(receipt, "sig_v2", Obj(SetMember(sig, name, Obj(SetMember(entry, "signature", s)))),
             Obj(SetMember(sig, name, Obj(SetMember(entry, "signature", t)))));
  }

  lemma FillCommutes(receipt: seq<Member>, a: string, s: Json, b: string, t: Json)
    requires a != b && Entry(receipt, a).Some? && Entry(receipt, b).Some?
    ensures Fill(Fill(receipt, a, s), b, t) == Fill(Fill(receipt, b, t), a, s)
  {
    var sig := Get(receipt, "sig_v2").value.members;
    var p := Obj(SetMember(Get(sig, a).value.members, "signature", s));
    var q := Obj(SetMember(Get(sig, b).value.members, "signature", t));
    SetCommutes(sig, a, p, b, q);
    GetOther(sig, a, p, b);
    GetOther(sig, b, q, a);
    SetTwice(receipt, "sig_v2", Obj(SetMember(sig, a, p)), Obj(SetMember(SetMember(sig, a, p), b, q)));
    SetTwice(receipt, "sig_v2", Obj(SetMember(sig, b, q)), Obj(SetMember(SetMember(sig, b, q), a, p)));
  }

  /** Putting other signatures in place later overwrites both, whatever stood there. */
  lemma SignaturesOverwrite(receipt: seq<Member>, c: Json, p: Json, c': Json, p': Json)
    requires Signable(receipt)
    ensures Signable(WithSignatures(receipt, c, p))
    ensures WithSignatures(WithSignatures(receipt, c, p), c', p') == WithSignatures(receipt, c', p')
  {
    hide Fill, Entry;
    var once := Fill(receipt, "classical", c);
    FillKeepsEntries(receipt, "classical", c, "pqc");
    FillKeepsEntries(once, "pqc", p, "classical");
    FillCommutes(once, "pqc", p, "classical", c');
    FillTwice(receipt, "classical", c, c');
    FillKeepsEntries(receipt, "classical", c', "pqc");
    FillTwice(Fill(receipt, "classical", c'), "pqc", p, p');
  }

  // ---------------------------------------------------------------- equality of JSON values

  /** Equality of JSON values as dictionaries have it: the same keys with the same values, in any order. */
  ghost predicate SameJson(a: Json, b: Json)
    decreases a
  {
    match (a, b)
    case (Arr(x), Arr(y)) => |x| == |y| && forall i :: 0 <= i < |x| ==> SameJson(x[i], y[i])
    case (Obj(x), Obj(y)) =>
      && (forall i :: 0 <= i < |x| ==> Get(y, x[i].key).Present? && SameJson(x[i].value, Get(y, x[i].key).value))
      && (forall j :: 0 <= j < |y| ==> Get(x, y[j].key).Present?)
    case _ => a == b
  }

  // ---------------------------------------------------------------- the canonical form

  predicate KeyLess(a: Member, b: Member) { TextLess(a.key, b.key) }

  /** sort_keys at every depth. */
  function Canon(j: Json): Json
    decreases j, 1
  {
    match j
    case Arr(items) => Arr(CanonItems(items))
    case Obj(members) => Obj(Sorted(CanonMembers(members), KeyLess))
    case _ => j
  }

  function CanonItems(items: seq<Json>): (r: seq<Json>)
    ensures |r| == |items| && forall i :: 0 <= i < |items| ==> r[i] == Canon(items[i])
    decreases items, 0
  {
    seq(|items|, i requires 0 <= i < |items| => Canon(items[i]))
  }

  function CanonMembers(members: seq<Member>): (r: seq<Member>)
    ensures |r| == |members|
    ensures forall i :: 0 <= i < |members| ==> r[i] == Member(members[i].key, Canon(members[i].value))
    decreases members, 0
  {
    seq(|members|, i requires 0 <= i < |members| => Member(members[i].key, Canon(members[i].value)))
  }

  lemma KeyOrder()
    ensures StrictOrder(KeyLess)
  {
    forall x: Member ensures !KeyLess(x, x) {
      TextLessIrreflexive(x.key);
    }
    forall x: Member, y: Member, z: Member | KeyLess(x, y) && KeyLess(y, z) ensures KeyLess(x, z) {
      TextLessTransitive(x.key, y.key, z.key);
    }
  }

  /** Sorting a dictionary's members orders them and keeps the same ones. */
  lemma SortedMembers(members: seq<Member>)
    requires UniqueKeys(members)
    ensures Ascending(Sorted(members, KeyLess), KeyLess)
    ensures forall m :: m in Sorted(members, KeyLess) <==> m in members
  {
    KeyOrder();
    forall i, j | 0 <= i < j < |members| ensures KeyLess(members[i], members[j]) || KeyLess(members[j], members[i]) {
      TextLessTotal(members[i].key, members[j].key);
    }
    SortedAscends(members, KeyLess);
  }

  lemma SortedSame(a: seq<Member>, b: seq<Member>)
    requires UniqueKeys(a) && UniqueKeys(b)
    ensures Sorted(a, KeyLess) == Sorted(b, KeyLess) <==> forall m :: m in a <==> m in b
  {
    SortedMembers(a);
    SortedMembers(b);
    if forall m :: m in a <==> m in b {
      KeyOrder();
      AscendingUnique(Sorted(a, KeyLess), Sorted(b, KeyLess), KeyLess);
    }
  }

  lemma CanonMembersUnique(members: seq<Member>)
    requires UniqueKeys(members)
    ensures UniqueKeys(CanonMembers(members))
  {
  }

  /** Two dictionaries have the same canonical form exactly when they are the same JSON value. */
  lemma {:induction false} CanonDecides(a: Json, b: Json)
    requires Dictionary(a) && Dictionary(b)
    ensures Canon(a) == Canon(b) <==> SameJson(a, b)
    decreases a
  {
    match (a, b)
    case (Arr(x), Arr(y)) =>
      forall i | 0 <= i < |x| == |y| ensures Canon(x[i]) == Canon(y[i]) <==> SameJson(x[i], y[i]) {
        CanonDecides(x[i], y[i]);
      }
      ItemsDecide(x, y);
    case (Obj(x), Obj(y)) =>
      forall i, j | 0 <= i < |x| && 0 <= j < |y| ensures Canon(x[i].value) == Canon(y[j].value) <==> SameJson(x[i].value, y[j].value) {
        CanonDecides(x[i].value, y[j].value);
      }
      MembersDecide(x, y);
    case _ =>
  }

  lemma ItemsDecide(x: seq<Json>, y: seq<Json>)
    requires forall i :: 0 <= i < |x| == |y| ==> (Canon(x[i]) == Canon(y[i]) <==> SameJson(x[i], y[i]))
    ensures Canon(Arr(x)) == Canon(Arr(y)) <==> SameJson(Arr(x), Arr(y))
  {
    if Canon(Arr(x)) == Canon(Arr(y)) {
      assert CanonItems(x) == CanonItems(y);
      forall i | 0 <= i < |x| ensures Canon(x[i]) == Canon(y[i]) {
        assert CanonItems(x)[i] == CanonItems(y)[i];
      }
    }
    if SameJson(Arr(x), Arr(y)) {
      assert CanonItems(x) == CanonItems(y);
    }
  }

  /** Canonical forms of the members decide sameness, value by value. */
  ghost predicate ValuesDecide(x: seq<Member>, y: seq<Member>) {
    forall i, j :: 0 <= i < |x| && 0 <= j < |y| ==> (Canon(x[i].value) == Canon(y[j].value) <==> SameJson(x[i].value, y[j].value))
  }

  lemma MembersDecide(x: seq<Member>, y: seq<Member>)
    requires UniqueKeys(x) && UniqueKeys(y) && ValuesDecide(x, y)
    ensures Canon(Obj(x)) == Canon(Obj(y)) <==> SameJson(Obj(x), Obj(y))
  {
    hide Sorted, CanonMembers, ValuesDecide, UniqueKeys, SameJson, KeyLess, CanonItems, Get;
    CanonMembersUnique(x);
    CanonMembersUnique(y);
    SortedSame(CanonMembers(x), CanonMembers(y));
    if forall m :: m in CanonMembers(x) <==> m in CanonMembers(y) {
      SameIfElementsSame(x, y);
    }
    if SameJson(Obj(x), Obj(y)) {
      ElementsSameIfSame(x, y);
    }
  }

  lemma PresentAt(members: seq<Member>, key: string) returns (i: nat)
    requires UniqueKeys(members) && Get(members, key).Present?
    ensures i < |members| && members[i] == Member(key, Get(members, key).value)
  {
    GetMeaning(members, key, Get(members, key).value);
    i :| 0 <= i < |members| && members[i] == Member(key, Get(members, key).value);
  }

  lemma SameIfElementsSame(x: seq<Member>, y: seq<Member>)
    requires UniqueKeys(x) && UniqueKeys(y) && ValuesDecide(x, y)
    requires forall m :: m in CanonMembers(x) <==> m in CanonMembers(y)
    ensures SameJson(Obj(x), Obj(y))
  {
    hide Canon, Get, UniqueKeys;
    var p, q := CanonMembers(x), CanonMembers(y);
    forall i | 0 <= i < |x| ensures Get(y, x[i].key).Present? && SameJson(x[i].value, Get(y, x[i].key).value) {
      assert p[i] in q;
      var j :| 0 <= j < |q| && q[j] == p[i];
      GetMeaning(y, y[j].key, y[j].value);
      assert y[j] in y;
    }
    forall j | 0 <= j < |y| ensures Get(x, y[j].key).Present? {
      assert q[j] in p;
      var i :| 0 <= i < |p| && p[i] == q[j];
      GetMeaning(x, x[i].key, x[i].value);
      assert x[i] in x;
    }
  }

  lemma ElementsSameIfSame(x: seq<Member>, y: seq<Member>)
    requires UniqueKeys(x) && UniqueKeys(y) && ValuesDecide(x, y) && SameJson(Obj(x), Obj(y))
    ensures forall m :: m in CanonMembers(x) <==> m in CanonMembers(y)
  {
    hide Canon, Get;
    var p, q := CanonMembers(x), CanonMembers(y);
    forall i | 0 <= i < |p| ensures p[i] in q {
      var j := PresentAt(y, x[i].key);
      assert q[j] == p[i];
    }
    forall j | 0 <= j < |q| ensures q[j] in p {
      var i := PresentAt(x, y[j].key);
      var k := PresentAt(y, x[i].key);
      assert k == j;
      assert p[i] == q[j];
    }
  }

  // ---------------------------------------------------------------- the payload

  predicate Ascii(s: string) { forall i :: 0 <= i < |s| ==> s[i] as int < 0x80 }

  /** The profile's values: ASCII keys and no fractional numbers, at any depth. */
  predicate InProfile(j: Json)
    decreases j
  {
    match j
    case Float(_) => false
    case Arr(items) => forall i :: 0 <= i < |items| ==> InProfile(items[i])
    case Obj(members) => forall i :: 0 <= i < |members| ==> Ascii(members[i].key) && InProfile(members[i].value)
    case _ => true
  }

  const DOMAIN: string := "PSV-RECEIPT-V2\0"

  /** canonical_receipt_payload; None where it raises. */
  function Payload(receipt: seq<Member>): Option<string> {
    match Unsigned(receipt)
    case Some(unsigned) => if InProfile(Obj(unsigned)) then Some(DOMAIN + Dump(Canon(Obj(unsigned)))) else None
    case None => None
  }

  lemma {:induction false} CanonHasNoFloats(j: Json)
    requires InProfile(j)
    ensures NoFloats(Canon(j))
    decreases j
  {
    match j
    case Arr(items) =>
      forall i | 0 <= i < |items| ensures NoFloats(Canon(items[i])) {
        CanonHasNoFloats(items[i]);
      }
    case Obj(members) =>
      forall i | 0 <= i < |members| ensures NoFloats(Canon(members[i].value)) {
        CanonHasNoFloats(members[i].value);
      }
      var p := CanonMembers(members);
      var r := Sorted(p, KeyLess);
      forall i | 0 <= i < |r| ensures NoFloats(r[i].value) {
        SameElements(r, p, r[i]);
        var k :| 0 <= k < |p| && p[k] == r[i];
      }
    case _ =>
  }

  // ---------------------------------------------------------------- filling keeps what it must

  lemma SetDictionary(members: seq<Member>, key: string, value: Json)
    requires Dictionary(Obj(members)) && Dictionary(value)
    ensures Dictionary(Obj(SetMember(members, key, value)))
  {
    SetMeaning(members, key, value);
    var r := SetMember(members, key, value);
    forall i | 0 <= i < |r| ensures Dictionary(r[i].value) {
      assert r[i] in r;
      if r[i].key != key {
        var k :| 0 <= k < |members| && members[k] == r[i];
      }
    }
  }

  lemma MemberDictionary(members: seq<Member>, key: string)
    requires Dictionary(Obj(members)) && Get(members, key).Present?
    ensures Dictionary(Get(members, key).value)
  {
    var i := PresentAt(members, key);
  }

  lemma FillDictionary(receipt: seq<Member>, name: string, signature: string)
    requires Dictionary(Obj(receipt)) && Entry(receipt, name).Some?
    ensures Dictionary(Obj(Fill(receipt, name, Str(signature))))
  {
    hide SetMember, Get;
    var sig := Get(receipt, "sig_v2").value.members;
    var entry := Get(sig, name).value.members;
    MemberDictionary(receipt, "sig_v2");
    MemberDictionary(sig, name);
    hide UniqueKeys;
    SetDictionary(entry, "signature", Str(signature));
    SetDictionary(sig, name, Obj(SetMember(entry, "signature", Str(signature))));
    SetDictionary(receipt, "sig_v2", Obj(SetMember(sig, name, Obj(SetMember(entry, "signature", Str(signature))))));
  }

  /** Assigning the same value to the same key of two equal dictionaries keeps them equal. */
  lemma SetRespects(x: seq<Member>, y: seq<Member>, key: string, v: Json, w: Json)
    requires UniqueKeys(x) && UniqueKeys(y) && SameJson(Obj(x), Obj(y)) && SameJson(v, w)
    ensures SameJson(Obj(SetMember(x, key, v)), Obj(SetMember(y, key, w)))
  {
    var p, q := SetMember(x, key, v), SetMember(y, key, w);
    SetMeaning(x, key, v);
    SetMeaning(y, key, w);
    SetTwice(x, key, v, v);
    SetTwice(y, key, w, w);
    forall i | 0 <= i < |p| ensures Get(q, p[i].key).Present? && SameJson(p[i].value, Get(q, p[i].key).value) {
      assert p[i] in p;
      if p[i].key != key {
        GetOther(y, key, w, p[i].key);
        var k :| 0 <= k < |x| && x[k] == p[i];
      }
    }
    forall j | 0 <= j < |q| ensures Get(p, q[j].key).Present? {
      assert q[j] in q;
      if q[j].key != key {
        GetOther(x, key, v, q[j].key);
        var k :| 0 <= k < |y| && y[k] == q[j];
      }
    }
  }

  lemma GetRespects(x: seq<Member>, y: seq<Member>, key: string)
    requires UniqueKeys(x) && UniqueKeys(y) && SameJson(Obj(x), Obj(y))
    ensures Get(x, key).Present? <==> Get(y, key).Present?
    ensures Get(x, key).Present? ==> SameJson(Get(x, key).value, Get(y, key).value)
  {
    if Get(x, key).Present? {
      var i := PresentAt(x, key);
    }
    if Get(y, key).Present? {
      var j := PresentAt(y, key);
    }
  }

  lemma EntryRespects(a: seq<Member>, b: seq<Member>, name: string)
    requires Dictionary(Obj(a)) && Dictionary(Obj(b)) && SameJson(Obj(a), Obj(b))
    ensures Entry(a, name).Some? <==> Entry(b, name).Some?
    ensures Entry(a, name).Some? ==> SameJson(Obj(Entry(a, name).value), Obj(Entry(b, name).value))
  {
    GetRespects(a, b, "sig_v2");
    if Get(a, "sig_v2").Present? && Get(a, "sig_v2").value.Obj? {
      MemberDictionary(a, "sig_v2");
      MemberDictionary(b, "sig_v2");
      GetRespects(Get(a, "sig_v2").value.members, Get(b, "sig_v2").value.members, name);
    }
    hide Get, UniqueKeys;
  }

  lemma FillRespects(a: seq<Member>, b: seq<Member>, name: string, signature: string)
    requires Dictionary(Obj(a)) && Dictionary(Obj(b)) && SameJson(Obj(a), Obj(b))
    requires Entry(a, name).Some? && Entry(b, name).Some?
    ensures SameJson(Obj(Fill(a, name, Str(signature))), Obj(Fill(b, name, Str(signature))))
  {
    var (s, t) := (Get(a, "sig_v2").value.members, Get(b, "sig_v2").value.members);
    var (e, f) := (Get(s, name).value.members, Get(t, name).value.members);
    MemberDictionary(a, "sig_v2");
    MemberDictionary(b, "sig_v2");
    MemberDictionary(s, name);
    MemberDictionary(t, name);
    GetRespects(a, b, "sig_v2");
    GetRespects(s, t, name);
    SetRespects(e, f, "signature", Str(signature), Str(signature));
    hide Get, SetMember, UniqueKeys, SameJson;
    var (v, w) := (Obj(SetMember(e, "signature", Str(signature))), Obj(SetMember(f, "signature", Str(signature))));
    SetRespects(s, t, name, v, w);
    SetRespects(a, b, "sig_v2", Obj(SetMember(s, name, v)), Obj(SetMember(t, name, w)));
  }

  lemma WithSignaturesDictionary(receipt: seq<Member>, c: string, p: string)
    requires Dictionary(Obj(receipt)) && Signable(receipt)
    ensures Dictionary(Obj(WithSignatures(receipt, Str(c), Str(p))))
  {
    hide Fill, Entry, Dictionary;
    FillKeepsEntries(receipt, "classical", Str(c), "pqc");
    FillDictionary(receipt, "classical", c);
    FillDictionary(Fill(receipt, "classical", Str(c)), "pqc", p);
  }

  /** Equal receipts stay equal when both get the same signatures. */
  lemma WithSignaturesRespects(a: seq<Member>, b: seq<Member>, c: string, p: string)
    requires Dictionary(Obj(a)) && Dictionary(Obj(b)) && SameJson(Obj(a), Obj(b)) && Signable(a)
    ensures Signable(b)
    ensures SameJson(Obj(WithSignatures(a, Str(c), Str(p))), Obj(WithSignatures(b, Str(c), Str(p))))
  {
    hide Fill, Entry, Dictionary, SameJson;
    EntryRespects(a, b, "classical");
    EntryRespects(a, b, "pqc");
    FillKeepsEntries(a, "classical", Str(c), "pqc");
    FillKeepsEntries(b, "classical", Str(c), "pqc");
    FillDictionary(a, "classical", c);
    FillDictionary(b, "classical", c);
    FillRespects(a, b, "classical", c);
    FillRespects(Fill(a, "classical", Str(c)), Fill(b, "classical", Str(c)), "pqc", p);
  }

  // ---------------------------------------------------------------- the theorems

  lemma SameJsonSymmetric(a: Json, b: Json)
    requires Dictionary(a) && Dictionary(b) && SameJson(a, b)
    ensures SameJson(b, a)
  {
    hide SameJson, Canon, Dictionary;
    CanonDecides(a, b);
    CanonDecides(b, a);
  }

  lemma {:induction false} ProfileRespects(a: Json, b: Json)
    requires Dictionary(a) && Dictionary(b) && SameJson(a, b) && InProfile(a)
    ensures InProfile(b)
    decreases a
  {
    match (a, b)
    case (Arr(x), Arr(y)) =>
      forall i | 0 <= i < |y| ensures InProfile(y[i]) {
        ProfileRespects(x[i], y[i]);
      }
    case (Obj(x), Obj(y)) =>
      forall j | 0 <= j < |y| ensures Ascii(y[j].key) && InProfile(y[j].value) {
        var i := PresentAt(x, y[j].key);
        GetMeaning(y, y[j].key, y[j].value);
        assert y[j] in y;
        ProfileRespects(x[i].value, y[j].value);
      }
    case _ =>
  }

  /** Canonical texts of profile values are equal exactly when the values are the same JSON. */
  lemma CanonicalTextDecides(a: Json, b: Json)
    requires Dictionary(a) && Dictionary(b) && InProfile(a) && InProfile(b)
    ensures Dump(Canon(a)) == Dump(Canon(b)) <==> SameJson(a, b)
  {
    hide SameJson, Canon, Dictionary, Dump, InProfile, NoFloats;
    CanonDecides(a, b);
    CanonHasNoFloats(a);
    CanonHasNoFloats(b);
    if Dump(Canon(a)) == Dump(Canon(b)) {
      assert Dump(Canon(a)) + "" == Dump(Canon(b)) + "";
      DumpUnique(Canon(a), Canon(b), "", "");
    }
  }

  /** Filling in signatures never changes the signed bytes, nor whether there are any. */
  lemma SigningKeepsPayload(receipt: seq<Member>, classical: Json, pqc: Json)
    requires Signable(receipt)
    ensures Payload(WithSignatures(receipt, classical, pqc)) == Payload(receipt)
  {
    hide WithSignatures, Signable, InProfile, Canon, Dump;
    SignaturesOverwrite(receipt, classical, pqc, Str(""), Str(""));
  }

  /** Member order never matters: receipts that are the same JSON value have the same payload, or both none. */
  lemma PayloadRespects(a: seq<Member>, b: seq<Member>)
    requires Dictionary(Obj(a)) && Dictionary(Obj(b)) && SameJson(Obj(a), Obj(b))
    ensures Payload(a) == Payload(b)
  {
    hide WithSignatures, Signable, InProfile, Canon, Dump, Dictionary, SameJson;
    SameJsonSymmetric(Obj(a), Obj(b));
    if Signable(a) || Signable(b) {
      if Signable(a) {
        WithSignaturesRespects(a, b, "", "");
      } else {
        WithSignaturesRespects(b, a, "", "");
      }
      WithSignaturesRespects(a, b, "", "");
      var p, q := Obj(Unsigned(a).value), Obj(Unsigned(b).value);
      WithSignaturesDictionary(a, "", "");
      WithSignaturesDictionary(b, "", "");
      SameJsonSymmetric(p, q);
      if InProfile(p) {
        ProfileRespects(p, q);
      }
      if InProfile(q) {
        ProfileRespects(q, p);
      }
      if InProfile(p) {
        CanonicalTextDecides(p, q);
      }
    }
  }

  /**
   The signed bytes are injective: two accepted receipts have the same payload exactly when they are the
   same JSON value once both carry the same two signature strings.
   */
  lemma PayloadInjective(a: seq<Member>, b: seq<Member>, c: string, p: string)
    requires Dictionary(Obj(a)) && Dictionary(Obj(b))
    ensures Payload(a).Some? && Payload(b).Some? ==>
              (Payload(a) == Payload(b)
               <==> SameJson(Obj(WithSignatures(a, Str(c), Str(p))), Obj(WithSignatures(b, Str(c), Str(p)))))
  {
    hide WithSignatures, Signable, InProfile, Canon, Dump, Dictionary, SameJson;
    if Payload(a).None? || Payload(b).None? {
      return;
    }
    var x, y := Unsigned(a).value, Unsigned(b).value;
    var u, v := WithSignatures(a, Str(c), Str(p)), WithSignatures(b, Str(c), Str(p));
    WithSignaturesDictionary(a, "", "");
    WithSignaturesDictionary(b, "", "");
    WithSignaturesDictionary(a, c, p);
    WithSignaturesDictionary(b, c, p);
    SignaturesOverwrite(a, Str(""), Str(""), Str(c), Str(p));
    SignaturesOverwrite(b, Str(""), Str(""), Str(c), Str(p));
    SignaturesOverwrite(a, Str(c), Str(p), Str(""), Str(""));
    SignaturesOverwrite(b, Str(c), Str(p), Str(""), Str(""));
    CanonicalTextDecides(Obj(x), Obj(y));
    assert (DOMAIN + Dump(Canon(Obj(x))))[|DOMAIN|..] == Dump(Canon(Obj(x)));
    assert (DOMAIN + Dump(Canon(Obj(y))))[|DOMAIN|..] == Dump(Canon(Obj(y)));
    if SameJson(Obj(x), Obj(y)) {
      WithSignaturesRespects(x, y, c, p);
    }
    if SameJson(Obj(u), Obj(v)) {
      WithSignaturesRespects(u, v, "", "");
    }
  }
}
