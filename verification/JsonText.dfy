/**
 JSON text as json.dumps writes it without whitespace (RFC 8259, sections 4, 6 and 7), and its unique
 readability: different values never share a text, even with more text behind it.
 */
module JsonText {
  import opened Numerals
  import opened Json

  // ---------------------------------------------------------------- writing

  function ShortEscape(c: char): char {
    if c == '\n' then 'n' else if c == '\r' then 'r' else if c == '\t' then 't'
    else if c == '\U{0008}' then 'b' else if c == '\U{000C}' then 'f' else c
  }

  predicate HasShortEscape(c: char) { c == '"' || c == '\\' || ShortEscape(c) != c }

  /** One character inside a JSON string. */
  function EscapeChar(c: char): string {
    if HasShortEscape(c) then ['\\', ShortEscape(c)]
    else if c as int < 0x20 then "\\u" + Padded(c as int, 16, 4)
    else [c]
  }

  function Escaped(s: string): string {
    if s == "" then "" else EscapeChar(s[0]) + Escaped(s[1..])
  }

  function Quoted(s: string): string { "\"" + Escaped(s) + "\"" }

  function IntText(n: int): string { if n < 0 then "-" + Numeral(-n, 10) else Numeral(n, 10) }

  function Dump(j: Json): string
    decreases j
  {
    match j
    case Null => "null"
    case Bool(b) => if b then "true" else "false"
    case Int(n) => IntText(n)
    case Float(text) => text
    case Str(s) => Quoted(s)
    case Arr(items) => "[" + DumpItems(items) + "]"
    case Obj(members) => "{" + DumpMembers(members) + "}"
  }

  function DumpItems(items: seq<Json>): string
    decreases items
  {
    if items == [] then ""
    else if |items| == 1 then Dump(items[0])
    else Dump(items[0]) + "," + DumpItems(items[1..])
  }

  function DumpMember(m: Member): string
    decreases m
  {
    Quoted(m.key) + ":" + Dump(m.value)
  }

  function DumpMembers(members: seq<Member>): string
    decreases members
  {
    if members == [] then ""
    else if |members| == 1 then DumpMember(members[0])
    else DumpMember(members[0]) + "," + DumpMembers(members[1..])
  }

  // ---------------------------------------------------------------- strings and numbers read back uniquely

  lemma EscapeShape(c: char)
    ensures |EscapeChar(c)| >= 1 && EscapeChar(c)[0] != '"'
    ensures EscapeChar(c)[0] == '\\' ==> |EscapeChar(c)| >= 2
    ensures HasShortEscape(c) ==> EscapeChar(c) == ['\\', ShortEscape(c)] && ShortEscape(c) != 'u'
    ensures !HasShortEscape(c) && c as int < 0x20 ==> |EscapeChar(c)| == 6 && EscapeChar(c)[0] == '\\' && EscapeChar(c)[1] == 'u'
    ensures !HasShortEscape(c) && c as int >= 0x20 ==> EscapeChar(c) == [c] && c != '\\'
  {
  }

  lemma ShortEscapeInjective(c: char, d: char)
    requires HasShortEscape(c) && HasShortEscape(d) && ShortEscape(c) == ShortEscape(d)
    ensures c == d
  {
  }

  lemma EscapePrefixFree(c: char, d: char, x: string, y: string)
    requires EscapeChar(c) + x == EscapeChar(d) + y
    ensures c == d && x == y
  {
    EscapeShape(c);
    EscapeShape(d);
    var p, q := EscapeChar(c), EscapeChar(d);
    var s := p + x;
    assert p[0] == s[0] == (q + y)[0] == q[0];
    if p[0] == '\\' {
      assert p[1] == s[1] == (q + y)[1] == q[1];
    }
    assert |p| == |q|;
    assert p == s[..|p|] == (q + y)[..|q|] == q;
    assert x == s[|p|..] == (q + y)[|q|..] == y;
    if HasShortEscape(c) {
      ShortEscapeInjective(c, d);
    } else if c as int < 0x20 {
      assert p[2..] == Padded(c as int, 16, 4) && q[2..] == Padded(d as int, 16, 4);
      assert Pow(16, 4) == 65536;
      PaddedInjective(c as int, d as int, 16, 4);
    }
  }

  lemma EscapedHead(s: string, x: string)
    ensures (Escaped(s) + "\"" + x)[0] == '"' <==> s == ""
  {
    if s != "" {
      EscapeShape(s[0]);
      assert (Escaped(s) + "\"" + x)[0] == EscapeChar(s[0])[0];
    }
  }

  lemma {:induction false} EscapedUnique(a: string, b: string, x: string, y: string)
    requires Escaped(a) + "\"" + x == Escaped(b) + "\"" + y
    ensures a == b && x == y
    decreases |a|
  {
    hide EscapeChar;
    var s, t := Escaped(a) + "\"" + x, Escaped(b) + "\"" + y;
    EscapedHead(a, x);
    EscapedHead(b, y);
    if a == "" {
      assert s[1..] == x && t[1..] == y;
    } else {
      assert s == EscapeChar(a[0]) + (Escaped(a[1..]) + "\"" + x);
      assert t == EscapeChar(b[0]) + (Escaped(b[1..]) + "\"" + y);
      EscapePrefixFree(a[0], b[0], Escaped(a[1..]) + "\"" + x, Escaped(b[1..]) + "\"" + y);
      EscapedUnique(a[1..], b[1..], x, y);
      assert a == [a[0]] + a[1..] && b == [b[0]] + b[1..];
    }
  }

  lemma QuotedUnique(a: string, b: string, x: string, y: string)
    requires Quoted(a) + x == Quoted(b) + y
    ensures a == b && x == y
  {
    assert (Quoted(a) + x)[1..] == Escaped(a) + "\"" + x;
    assert (Quoted(b) + y)[1..] == Escaped(b) + "\"" + y;
    EscapedUnique(a, b, x, y);
  }

  /** What can stand behind a value: nothing, or punctuation. */
  predicate Delimited(x: string) { x == "" || x[0] == ',' || x[0] == ']' || x[0] == '}' }

  lemma {:induction false} DigitsUnique(p: string, q: string, x: string, y: string)
    requires AllDigits(p, 10) && AllDigits(q, 10) && Delimited(x) && Delimited(y) && p + x == q + y
    ensures p == q && x == y
    decreases |p|
  {
    var s, t := p + x, q + y;
    assert p == "" ==> s == x;
    assert q == "" ==> t == y;
    assert p != "" ==> s[0] == p[0];
    assert q != "" ==> t[0] == q[0];
    if p != "" && q != "" {
      assert s[1..] == p[1..] + x && t[1..] == q[1..] + y;
      DigitsUnique(p[1..], q[1..], x, y);
      assert p == [p[0]] + p[1..] && q == [q[0]] + q[1..];
    }
  }

  lemma DigitsAreNotMinus(n: nat)
    ensures AllDigits(Numeral(n, 10), 10) && Numeral(n, 10) != "" && Numeral(n, 10)[0] != '-'
  {
    NumeralShape(n, 10);
    hide Numeral;
    assert IsDigit(Numeral(n, 10)[0], 10);
  }

  lemma IntHead(n: int, x: string)
    ensures IntText(n) != "" && ((IntText(n) + x)[0] == '-' <==> n < 0)
    ensures n < 0 ==> (IntText(n) + x)[1..] == Numeral(-n, 10) + x && AllDigits(Numeral(-n, 10), 10)
    ensures n >= 0 ==> AllDigits(Numeral(n, 10), 10)
  {
    hide Numeral, AllDigits;
    DigitsAreNotMinus(if n < 0 then -n else n);
    if n < 0 {
      assert IntText(n) + x == "-" + (Numeral(-n, 10) + x);
    } else {
      assert (IntText(n) + x)[0] == Numeral(n, 10)[0];
    }
  }

  lemma IntUnique(a: int, b: int, x: string, y: string)
    requires Delimited(x) && Delimited(y) && IntText(a) + x == IntText(b) + y
    ensures a == b && x == y
  {
    hide Numeral;
    IntHead(a, x);
    IntHead(b, y);
    var m, n := if a < 0 then -a else a, if b < 0 then -b else b;
    hide AllDigits, Delimited;
    DigitsUnique(Numeral(m, 10), Numeral(n, 10), x, y);
    NumeralInjective(m, n, 10);
  }

  // ---------------------------------------------------------------- values read back uniquely

  predicate NoFloats(j: Json)
    decreases j
  {
    match j
    case Float(_) => false
    case Arr(items) => forall i :: 0 <= i < |items| ==> NoFloats(items[i])
    case Obj(members) => forall i :: 0 <= i < |members| ==> NoFloats(members[i].value)
    case _ => true
  }

  /** The first character tells the kind of value. */
  function FirstChar(j: Json): set<char> {
    match j
    case Null => {'n'}
    case Bool(b) => if b then {'t'} else {'f'}
    case Int(_) => {'-', '0', '1', '2', '3', '4', '5', '6', '7', '8', '9'}
    case Float(_) => {}
    case Str(_) => {'"'}
    case Arr(_) => {'['}
    case Obj(_) => {'{'}
  }

  lemma DumpStarts(j: Json)
    requires NoFloats(j)
    ensures |Dump(j)| > 0 && Dump(j)[0] in FirstChar(j)
  {
    hide IntText;
    if j.Int? {
      IntTextStarts(j.n);
    }
  }

  lemma IntTextStarts(n: int)
    ensures IntText(n) != "" && IntText(n)[0] in FirstChar(Int(n))
  {
    hide Numeral, AllDigits;
    DigitStarts(if n < 0 then -n else n);
  }

  lemma DigitStarts(n: nat)
    ensures Numeral(n, 10) != "" && Numeral(n, 10)[0] in FirstChar(Int(0))
  {
    NumeralShape(n, 10);
    hide Numeral;
    assert IsDigit(Numeral(n, 10)[0], 10);
  }

  lemma SameKind(a: Json, b: Json, x: string, y: string)
    requires NoFloats(a) && NoFloats(b) && Dump(a) + x == Dump(b) + y
    ensures FirstChar(a) * FirstChar(b) != {}
  {
    hide Dump, NoFloats;
    DumpStarts(a);
    DumpStarts(b);
    assert Dump(a)[0] == (Dump(a) + x)[0] == (Dump(b) + y)[0] == Dump(b)[0];
    assert Dump(a)[0] in FirstChar(a) * FirstChar(b);
  }

  lemma {:induction false} DumpUnique(a: Json, b: Json, x: string, y: string)
    requires NoFloats(a) && NoFloats(b) && Delimited(x) && Delimited(y) && Dump(a) + x == Dump(b) + y
    ensures a == b && x == y
    decreases a, 1
  {
    hide DumpItems, DumpMembers, Quoted, IntText;
    SameKind(a, b, x, y);
    match a
    case Null => WordUnique("null", "null", x, y);
    case Bool(v) => WordUnique(Dump(a), Dump(b), x, y);
    case Int(n) => IntUnique(n, b.n, x, y);
    case Float(_) =>
    case Str(s) => QuotedUnique(s, b.s, x, y);
    case Arr(items) =>
      BracketText(DumpItems(items), '[', "]", x);
      BracketText(DumpItems(b.items), '[', "]", y);
      ItemsUnique(items, b.items, x, y);
    case Obj(members) =>
      BracketText(DumpMembers(members), '{', "}", x);
      BracketText(DumpMembers(b.members), '{', "}", y);
      MembersUnique(members, b.members, x, y);
  }

  lemma WordUnique(p: string, q: string, x: string, y: string)
    requires |p| == |q| && p + x == q + y
    ensures p == q && x == y
  {
    assert (p + x)[..|p|] == p && (q + y)[..|q|] == q;
    assert (p + x)[|p|..] == x && (q + y)[|q|..] == y;
  }

  lemma BracketText(body: string, open: char, close: string, x: string)
    ensures ([open] + body + close + x)[1..] == body + close + x
  {
  }

  /** The text of a list of items from its first item on. */
  lemma ItemsText(items: seq<Json>, x: string) returns (rest: string)
    requires items != []
    ensures DumpItems(items) + "]" + x == Dump(items[0]) + rest
    ensures rest == (if |items| == 1 then "]" + x else "," + (DumpItems(items[1..]) + "]" + x)) && Delimited(rest)
  {
    hide Dump;
    rest := if |items| == 1 then "]" + x else "," + (DumpItems(items[1..]) + "]" + x);
    if |items| > 1 {
      assert DumpItems(items) + "]" + x == Dump(items[0]) + ("," + (DumpItems(items[1..]) + "]" + x));
    }
  }

  lemma ItemsHead(items: seq<Json>, x: string)
    requires items != [] ==> NoFloats(items[0])
    ensures (DumpItems(items) + "]" + x)[0] == ']' <==> items == []
  {
    hide Dump, NoFloats;
    if items != [] {
      DumpStarts(items[0]);
      var rest := ItemsText(items, x);
      assert (DumpItems(items) + "]" + x)[0] == Dump(items[0])[0];
    }
  }

  lemma {:induction false} ItemsUnique(a: seq<Json>, b: seq<Json>, x: string, y: string)
    requires (forall i :: 0 <= i < |a| ==> NoFloats(a[i])) && (forall i :: 0 <= i < |b| ==> NoFloats(b[i]))
    requires DumpItems(a) + "]" + x == DumpItems(b) + "]" + y
    ensures a == b && x == y
    decreases a, 0
  {
    hide Dump, NoFloats;
    var s, t := DumpItems(a) + "]" + x, DumpItems(b) + "]" + y;
    ItemsHead(a, x);
    ItemsHead(b, y);
    if a == [] {
      assert s[1..] == x && t[1..] == y;
    } else {
      var p := ItemsText(a, x);
      var q := ItemsText(b, y);
      DumpUnique(a[0], b[0], p, q);
      assert p[0] == q[0];
      assert p[1..] == q[1..];
      if |a| > 1 {
        assert p[1..] == DumpItems(a[1..]) + "]" + x && q[1..] == DumpItems(b[1..]) + "]" + y;
        ItemsUnique(a[1..], b[1..], x, y);
      } else {
        assert p[1..] == x && q[1..] == y;
      }
      assert a == [a[0]] + a[1..] && b == [b[0]] + b[1..];
    }
  }

  lemma MembersText(members: seq<Member>, x: string) returns (rest: string)
    requires members != []
    ensures DumpMembers(members) + "}" + x == Quoted(members[0].key) + (":" + (Dump(members[0].value) + rest))
    ensures rest == (if |members| == 1 then "}" + x else "," + (DumpMembers(members[1..]) + "}" + x)) && Delimited(rest)
  {
    hide Dump, Quoted;
    rest := if |members| == 1 then "}" + x else "," + (DumpMembers(members[1..]) + "}" + x);
    if |members| > 1 {
      assert DumpMembers(members) + "}" + x == DumpMember(members[0]) + ("," + (DumpMembers(members[1..]) + "}" + x));
    }
    assert DumpMember(members[0]) + rest == Quoted(members[0].key) + (":" + (Dump(members[0].value) + rest));
  }

  lemma MembersHead(members: seq<Member>, x: string)
    ensures (DumpMembers(members) + "}" + x)[0] == '}' <==> members == []
  {
    hide Dump, Escaped;
    if members != [] {
      var rest := MembersText(members, x);
      assert Quoted(members[0].key)[0] == '"';
    }
  }

  lemma {:induction false} MembersUnique(a: seq<Member>, b: seq<Member>, x: string, y: string)
    requires (forall i :: 0 <= i < |a| ==> NoFloats(a[i].value)) && (forall i :: 0 <= i < |b| ==> NoFloats(b[i].value))
    requires DumpMembers(a) + "}" + x == DumpMembers(b) + "}" + y
    ensures a == b && x == y
    decreases a, 0
  {
    hide Dump, NoFloats, Escaped;
    var s, t := DumpMembers(a) + "}" + x, DumpMembers(b) + "}" + y;
    MembersHead(a, x);
    MembersHead(b, y);
    if a == [] {
      assert s[1..] == x && t[1..] == y;
    } else {
      var p := MembersText(a, x);
      var q := MembersText(b, y);
      QuotedUnique(a[0].key, b[0].key, ":" + (Dump(a[0].value) + p), ":" + (Dump(b[0].value) + q));
      assert (":" + (Dump(a[0].value) + p))[1..] == Dump(a[0].value) + p;
      assert (":" + (Dump(b[0].value) + q))[1..] == Dump(b[0].value) + q;
      DumpUnique(a[0].value, b[0].value, p, q);
      assert p[0] == q[0];
      assert p[1..] == q[1..];
      if |a| > 1 {
        assert p[1..] == DumpMembers(a[1..]) + "}" + x && q[1..] == DumpMembers(b[1..]) + "}" + y;
        MembersUnique(a[1..], b[1..], x, y);
      } else {
        assert p[1..] == x && q[1..] == y;
      }
      assert a == [a[0]] + a[1..] && b == [b[0]] + b[1..];
    }
  }
}
