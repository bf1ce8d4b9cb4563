/**
 The signed bytes of a receipt, in plain terms: the fixed prefix, then JSON text that an independent reader reads back
 as the receipt with both signatures blanked, its keys in ascending code-point order at every depth.
 */
module CanonicalPayload {
  import opened Common
  import opened Ordering
  import opened Json
  import opened JsonText
  import opened JsonReader
  import opened Receipt

  // ---------------------------------------------------------------- ascending at every depth

  /** Each key is followed by one that differs from it first by a larger code point, or that continues it. */
  ghost predicate KeysAscend(members: seq<Member>) {
    forall i :: 0 <= i < |members| - 1 ==> FirstDiffersBelow(members[i].key, members[i + 1].key)
  }

  ghost predicate AscendingDeep(j: Json)
    decreases j
  {
    match j
    case Arr(items) => forall i :: 0 <= i < |items| ==> AscendingDeep(items[i])
    case Obj(members) => KeysAscend(members) && forall i :: 0 <= i < |members| ==> AscendingDeep(members[i].value)
    case _ => true
  }

  lemma SortedKeysAscend(members: seq<Member>)
    requires UniqueKeys(members)
    ensures KeysAscend(Sorted(CanonMembers(members), KeyLess))
  {
    CanonMembersUnique(members);
    SortedMembers(CanonMembers(members));
    var r := Sorted(CanonMembers(members), KeyLess);
    hide Sorted, CanonMembers, UniqueKeys, FirstDiffersBelow, TextLess;
    forall i | 0 <= i < |r| - 1 ensures FirstDiffersBelow(r[i].key, r[i + 1].key) {
      assert KeyLess(r[i], r[i + 1]);
      TextLessMeans(r[i].key, r[i + 1].key);
    }
  }

  /** The members of the canonical form are the canonical members. */
  lemma SortedIs(members: seq<Member>, i: nat) returns (k: nat)
    requires UniqueKeys(members) && i < |Sorted(CanonMembers(members), KeyLess)|
    ensures k < |members| && Sorted(CanonMembers(members), KeyLess)[i] == Member(members[k].key, Canon(members[k].value))
  {
    CanonMembersUnique(members);
    SortedMembers(CanonMembers(members));
    hide Canon, Sorted;
    var m := Sorted(CanonMembers(members), KeyLess)[i];
    assert m in CanonMembers(members);
    k :| 0 <= k < |CanonMembers(members)| && CanonMembers(members)[k] == m;
  }

  lemma {:induction false} CanonAscends(j: Json)
    requires Dictionary(j)
    ensures AscendingDeep(Canon(j))
    decreases j
  {
    match j
    case Arr(items) =>
      forall i | 0 <= i < |items| ensures AscendingDeep(Canon(items[i])) {
        CanonAscends(items[i]);
      }
    case Obj(members) =>
      SortedKeysAscend(members);
      var r := Sorted(CanonMembers(members), KeyLess);
      forall i | 0 <= i < |r| ensures AscendingDeep(r[i].value) {
        var k := SortedIs(members, i);
        CanonAscends(members[k].value);
      }
      hide KeysAscend, Sorted;
    case _ =>
  }

  // ---------------------------------------------------------------- the same value

  lemma {:induction false} CanonIsSame(j: Json)
    requires Dictionary(j)
    ensures SameJson(Canon(j), j)
    decreases j
  {
    match j
    case Arr(items) =>
      forall i | 0 <= i < |items| ensures SameJson(Canon(items[i]), items[i]) {
        CanonIsSame(items[i]);
      }
    case Obj(members) =>
      forall i | 0 <= i < |members| ensures SameJson(Canon(members[i].value), members[i].value) {
        CanonIsSame(members[i].value);
      }
      SortedIsSame(members);
    case _ =>
  }

  lemma SortedIsSame(members: seq<Member>)
    requires UniqueKeys(members) && forall i :: 0 <= i < |members| ==> SameJson(Canon(members[i].value), members[i].value)
    ensures SameJson(Obj(Sorted(CanonMembers(members), KeyLess)), Obj(members))
  {
    hide Canon, Sorted, UniqueKeys, Get;
    var r := Sorted(CanonMembers(members), KeyLess);
    forall i | 0 <= i < |r| ensures Get(members, r[i].key).Present? && SameJson(r[i].value, Get(members, r[i].key).value) {
      var k := SortedIs(members, i);
      GetMeaning(members, members[k].key, members[k].value);
      assert members[k] in members;
    }
    SortedKeysUnique(members);
    CanonMembersUnique(members);
    SortedMembers(CanonMembers(members));
    forall k | 0 <= k < |members| ensures Get(r, members[k].key).Present? {
      assert CanonMembers(members)[k] in r;
      GetMeaning(r, members[k].key, Canon(members[k].value));
    }
  }

  lemma SortedKeysUnique(members: seq<Member>)
    requires UniqueKeys(members)
    ensures UniqueKeys(Sorted(CanonMembers(members), KeyLess))
  {
    CanonMembersUnique(members);
    SortedMembers(CanonMembers(members));
    hide Sorted, CanonMembers, TextLess;
    var r := Sorted(CanonMembers(members), KeyLess);
    forall i, j | 0 <= i < j < |r| ensures r[i].key != r[j].key {
      assert KeyLess(r[i], r[j]);
      TextLessIrreflexive(r[i].key);
    }
  }

  // ---------------------------------------------------------------- the profile

  /** A value somewhere inside another, or the value itself. */
  ghost predicate PartOf(p: Json, j: Json)
    decreases j
  {
    || p == j
    || (j.Arr? && exists i :: 0 <= i < |j.items| && PartOf(p, j.items[i]))
    || (j.Obj? && exists i :: 0 <= i < |j.members| && PartOf(p, j.members[i].value))
  }

  /** No fractional number, and every key of seven-bit characters. */
  ghost predicate Plain(p: Json) {
    && !p.Float?
    && (p.Obj? ==> forall i :: 0 <= i < |p.members| ==> forall k :: 0 <= k < |p.members[i].key| ==> p.members[i].key[k] as int <= 127)
  }

  /** The profile asks exactly that of every part. */
  lemma {:induction false} ProfileExactly(j: Json)
    ensures InProfile(j) <==> forall p :: PartOf(p, j) ==> Plain(p)
    decreases j
  {
    match j
    case Arr(items) =>
      forall i | 0 <= i < |items| ensures InProfile(items[i]) <==> forall p :: PartOf(p, items[i]) ==> Plain(p) {
        ProfileExactly(items[i]);
      }
      assert Plain(j);
      assert forall i, p :: 0 <= i < |items| && PartOf(p, items[i]) ==> PartOf(p, j);
    case Obj(members) =>
      forall i | 0 <= i < |members| ensures InProfile(members[i].value) <==> forall p :: PartOf(p, members[i].value) ==> Plain(p) {
        ProfileExactly(members[i].value);
      }
      assert Plain(j) <==> forall i :: 0 <= i < |members| ==> Ascii(members[i].key);
      assert PartOf(j, j);
      assert forall i, p :: 0 <= i < |members| && PartOf(p, members[i].value) ==> PartOf(p, j);
    case _ => assert PartOf(j, j);
  }

  // ---------------------------------------------------------------- what is signed

  /** The object found under a name. */
  ghost function ObjectAt(members: seq<Member>, name: string): Option<seq<Member>> {
    if Get(members, name).Present? && Get(members, name).value.Obj? then Some(Get(members, name).value.members) else None
  }

  /** Both objects carry the same under every other name. */
  ghost predicate SameBut(a: seq<Member>, b: seq<Member>, names: set<string>) {
    forall name :: name !in names ==> Get(a, name) == Get(b, name)
  }

  /** One signature entry, blanked. */
  ghost predicate Blanked(sig: seq<Member>, after: seq<Member>, name: string) {
    && ObjectAt(sig, name).Some? && ObjectAt(after, name).Some?
    && Get(ObjectAt(after, name).value, "signature") == Present(Str(""))
    && SameBut(ObjectAt(sig, name).value, ObjectAt(after, name).value, {"signature"})
  }

  lemma SetAgrees(members: seq<Member>, key: string, value: Json)
    ensures Get(SetMember(members, key, value), key) == Present(value) && SameBut(members, SetMember(members, key, value), {key})
  {
    SetTwice(members, key, value, value);
    forall name | name !in {key} ensures Get(members, name) == Get(SetMember(members, key, value), name) {
      GetOther(members, key, value, name);
    }
  }

  /** Unsigning needs both signature entries, blanks exactly their signatures, and keeps everything else. */
  lemma UnsignedExactly(receipt: seq<Member>)
    ensures Unsigned(receipt).Some?
       <==> && ObjectAt(receipt, "sig_v2").Some?
            && ObjectAt(ObjectAt(receipt, "sig_v2").value, "classical").Some? && ObjectAt(ObjectAt(receipt, "sig_v2").value, "pqc").Some?
    ensures Unsigned(receipt).Some? ==>
              var u := Unsigned(receipt).value;
              && SameBut(receipt, u, {"sig_v2"}) && ObjectAt(u, "sig_v2").Some?
              && SameBut(ObjectAt(receipt, "sig_v2").value, ObjectAt(u, "sig_v2").value, {"classical", "pqc"})
              && Blanked(ObjectAt(receipt, "sig_v2").value, ObjectAt(u, "sig_v2").value, "classical")
              && Blanked(ObjectAt(receipt, "sig_v2").value, ObjectAt(u, "sig_v2").value, "pqc")
  {
    hide Get, SetMember;
    if Signable(receipt) {
      FillKeepsEntries(receipt, "classical", Str(""), "pqc");
      var once := Fill(receipt, "classical", Str(""));
      FillAgrees(receipt, "classical");
      FillAgrees(once, "pqc");
    }
    hide Fill;
  }

  lemma FillAgrees(receipt: seq<Member>, name: string)
    requires Entry(receipt, name).Some?
    ensures var u := Fill(receipt, name, Str(""));
            && SameBut(receipt, u, {"sig_v2"}) && ObjectAt(receipt, "sig_v2").Some? && ObjectAt(u, "sig_v2").Some?
            && SameBut(ObjectAt(receipt, "sig_v2").value, ObjectAt(u, "sig_v2").value, {name})
            && Blanked(ObjectAt(receipt, "sig_v2").value, ObjectAt(u, "sig_v2").value, name)
  {
    hide Get, SetMember;
    var sig := ObjectAt(receipt, "sig_v2").value;
    var entry := ObjectAt(sig, name).value;
    SetAgrees(entry, "signature", Str(""));
    SetAgrees(sig, name, Obj(SetMember(entry, "signature", Str(""))));
    SetAgrees(receipt, "sig_v2", Obj(SetMember(sig, name, Obj(SetMember(entry, "signature", Str(""))))));
  }

  /**
   The payload exists exactly for a receipt with both signature entries whose every part fits the profile. It is the
   prefix PSV-RECEIPT-V2 with a zero, then text that reads back as the unsigned receipt in ascending order.
   */
  lemma PayloadExactly(receipt: seq<Member>)
    requires Dictionary(Obj(receipt))
    ensures Payload(receipt).Some?
       <==> Unsigned(receipt).Some? && forall p :: PartOf(p, Obj(Unsigned(receipt).value)) ==> Plain(p)
    ensures Payload(receipt).Some? ==>
              && |Payload(receipt).value| >= 15
              && Payload(receipt).value[..15] == ['P', 'S', 'V', '-', 'R', 'E', 'C', 'E', 'I', 'P', 'T', '-', 'V', '2', '\0']
              && var read := ReadText(Payload(receipt).value[15..]);
                 read.Some? && SameJson(read.value, Obj(Unsigned(receipt).value)) && AscendingDeep(read.value)
  {
    hide InProfile, PartOf, Plain, Dump, Canon, Dictionary, ReadText, SameJson, AscendingDeep, WithSignatures, Signable;
    if Unsigned(receipt).Some? {
      var u := Obj(Unsigned(receipt).value);
      ProfileExactly(u);
      if InProfile(u) {
        WithSignaturesDictionary(receipt, "", "");
        CanonHasNoFloats(u);
        WrittenTextReads(Canon(u));
        CanonIsSame(u);
        CanonAscends(u);
        assert Payload(receipt).value == DOMAIN + Dump(Canon(u));
        assert |DOMAIN| == 15;
        assert Payload(receipt).value[..15] == DOMAIN && Payload(receipt).value[15..] == Dump(Canon(u));
      }
    }
  }
}
