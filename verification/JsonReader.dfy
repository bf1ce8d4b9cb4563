/**
 A reader of JSON text by the grammar of RFC 8259 (sections 3 to 7), for texts without insignificant whitespace and
 numbers without fraction or exponent, written from the grammar; and the fact that it reads back every text the
 encoder writes.
 */
module JsonReader {
  import opened Common
  import opened Numerals
  import opened PythonText
  import opened Json
  import opened JsonText

  // ---------------------------------------------------------------- reading

  /** The character a two-character escape stands for, section 7. */
  function Unescaped(c: char): Option<char> {
    if c == '"' || c == '\\' || c == '/' then Some(c)
    else if c == 'b' then Some('\U{0008}')
    else if c == 'f' then Some('\U{000C}')
    else if c == 'n' then Some('\U{000A}')
    else if c == 'r' then Some('\U{000D}')
    else if c == 't' then Some('\U{0009}')
    else None
  }

  /** The code point of four hex digits, unless it is half of a surrogate pair. */
  function CodePoint(digits: string): Option<char> {
    var n := Value(digits, 16);
    if !AllDigits(digits, 16) || n >= 0xD800 then None else Some(n as char)
  }

  /** The characters of a string up to its closing quote, and what follows. */
  function ReadChars(s: string): (r: Option<(string, string)>)
    ensures r.Some? ==> |r.value.1| < |s|
    decreases |s|
  {
    if s == "" then None
    else if s[0] == '"' then Some(("", s[1..]))
    else if s[0] == '\\' then
      if |s| < 2 then None
      else if s[1] == 'u' then
        if |s| < 6 then None else Prepend(CodePoint(s[2..6]), ReadChars(s[6..]))
      else Prepend(Unescaped(s[1]), ReadChars(s[2..]))
    else if s[0] as int < 0x20 then None
    else Prepend(Some(s[0]), ReadChars(s[1..]))
  }

  function Prepend(c: Option<char>, rest: Option<(string, string)>): Option<(string, string)> {
    if c.Some? && rest.Some? then Some(([c.value] + rest.value.0, rest.value.1)) else None
  }

  function DigitRun(s: string): (n: nat)
    ensures n <= |s| && AllDigits(s[..n], 10)
  {
    if s != "" && '0' <= s[0] <= '9' then
      var n := DigitRun(s[1..]);
      assert s[..n + 1] == [s[0]] + s[1..][..n];
      n + 1
    else 0
  }

  /** An integer: an optional minus, digits without a superfluous zero, and no fraction or exponent behind it. */
  function ReadNumber(s: string): (r: Option<(Json, string)>)
    ensures r.Some? ==> |r.value.1| < |s|
  {
    var negative := s != "" && s[0] == '-';
    var t := if negative then s[1..] else s;
    var n := DigitRun(t);
    if n == 0 || (n > 1 && t[0] == '0') then None
    else if n < |t| && t[n] in {'.', 'e', 'E'} then None
    else Some((Int(if negative then -(Value(t[..n], 10) as int) else Value(t[..n], 10)), t[n..]))
  }

  function ReadValue(s: string): (r: Option<(Json, string)>)
    ensures r.Some? ==> |r.value.1| < |s|
    decreases |s|, 1
  {
    if StartsWith(s, "null") then Some((Null, s[4..]))
    else if StartsWith(s, "true") then Some((Bool(true), s[4..]))
    else if StartsWith(s, "false") then Some((Bool(false), s[5..]))
    else if s == "" then None
    else if s[0] == '"' then
      match ReadChars(s[1..])
      case Some((text, rest)) => Some((Str(text), rest))
      case None => None
    else if s[0] == '[' then
      if StartsWith(s[1..], "]") then Some((Arr([]), s[2..]))
      else
        match ReadItems(s[1..])
        case Some((items, rest)) => Some((Arr(items), rest))
        case None => None
    else if s[0] == '{' then
      if StartsWith(s[1..], "}") then Some((Obj([]), s[2..]))
      else
        match ReadMembers(s[1..])
        case Some((members, rest)) => Some((Obj(members), rest))
        case None => None
    else ReadNumber(s)
  }

  /** Values separated by commas, up to the closing bracket. */
  function ReadItems(s: string): (r: Option<(seq<Json>, string)>)
    ensures r.Some? ==> |r.value.1| < |s|
    decreases |s|, 2
  {
    match ReadValue(s)
    case None => None
    case Some((item, rest)) =>
      if StartsWith(rest, "]") then Some(([item], rest[1..]))
      else if !StartsWith(rest, ",") then None
      else
        match ReadItems(rest[1..])
        case Some((items, behind)) => Some(([item] + items, behind))
        case None => None
  }

  /** Named values separated by commas, up to the closing brace. */
  function ReadMembers(s: string): (r: Option<(seq<Member>, string)>)
    ensures r.Some? ==> |r.value.1| < |s|
    decreases |s|, 2
  {
    if !StartsWith(s, "\"") then None
    else
      match ReadChars(s[1..])
      case None => None
      case Some((key, afterKey)) =>
        if !StartsWith(afterKey, ":") then None
        else
          match ReadValue(afterKey[1..])
          case None => None
          case Some((value, rest)) =>
            if StartsWith(rest, "}") then Some(([Member(key, value)], rest[1..]))
            else if !StartsWith(rest, ",") then None
            else
              match ReadMembers(rest[1..])
              case Some((members, behind)) => Some(([Member(key, value)] + members, behind))
              case None => None
  }

  /** A whole text is one value with nothing behind it. */
  function ReadText(s: string): Option<Json> {
    match ReadValue(s)
    case Some((j, rest)) => if rest == "" then Some(j) else None
    case None => None
  }

  // ---------------------------------------------------------------- reading back what is written

  lemma ReadEscape(c: char, x: string)
    ensures ReadChars(EscapeChar(c) + x) == Prepend(Some(c), ReadChars(x))
  {
    var e := EscapeChar(c);
    var s := e + x;
    EscapeShape(c);
    if HasShortEscape(c) {
      assert s[0] == '\\' && s[1] == ShortEscape(c) && s[2..] == x;
      assert Unescaped(ShortEscape(c)) == Some(c);
    } else if c as int < 0x20 {
      ControlEscape(c);
      assert s[..6] == e && s[0] == e[0] && s[1] == e[1] && s[2..6] == e[2..6] && s[6..] == x;
    } else {
      assert s[0] == c && s[1..] == x;
    }
  }

  lemma ControlEscape(c: char)
    requires c as int < 0x20 && !HasShortEscape(c)
    ensures |EscapeChar(c)| == 6 && EscapeChar(c)[0] == '\\' && EscapeChar(c)[1] == 'u' && CodePoint(EscapeChar(c)[2..6]) == Some(c)
  {
    assert Pow(16, 4) == 65536;
    PaddedShape(c as int, 16, 4);
    PaddedValue(c as int, 16, 4);
    assert EscapeChar(c) == "\\u" + Padded(c as int, 16, 4);
    assert EscapeChar(c)[2..6] == Padded(c as int, 16, 4);
    assert c as int as char == c;
  }

  lemma {:induction false} ReadEscaped(t: string, x: string)
    ensures ReadChars(Escaped(t) + "\"" + x) == Some((t, x))
    decreases |t|
  {
    if t == "" {
      assert (Escaped(t) + "\"" + x)[1..] == x;
    } else {
      var y := Escaped(t[1..]) + "\"" + x;
      assert Escaped(t) + "\"" + x == EscapeChar(t[0]) + y;
      ReadEscape(t[0], y);
      ReadEscaped(t[1..], x);
      assert [t[0]] + t[1..] == t;
    }
  }

  lemma ReadQuoted(t: string, x: string)
    ensures var s := Quoted(t) + x; s[0] == '"' && ReadChars(s[1..]) == Some((t, x))
  {
    hide Escaped, ReadChars;
    ReadEscaped(t, x);
    assert (Quoted(t) + x)[1..] == Escaped(t) + "\"" + x;
  }

  lemma {:induction false} RunOfDigits(digits: string, x: string)
    requires AllDigits(digits, 10) && Delimited(x)
    ensures DigitRun(digits + x) == |digits|
    decreases |digits|
  {
    var s := digits + x;
    if digits != "" {
      assert s[0] == digits[0] && IsDigit(digits[0], 10);
      assert s[1..] == digits[1..] + x;
      RunOfDigits(digits[1..], x);
    } else {
      assert s == x;
    }
  }

  lemma ReadDigits(n: nat, x: string)
    requires Delimited(x)
    ensures var s := Numeral(n, 10) + x;
            var k := DigitRun(s);
            && 0 < k <= |s| && (k > 1 ==> s[0] != '0') && Value(s[..k], 10) == n && s[k..] == x
            && (k < |s| ==> s[k] !in {'.', 'e', 'E'}) && s[0] != '-' && '0' <= s[0] <= '9'
  {
    var digits := Numeral(n, 10);
    NumeralShape(n, 10);
    ShortZero(n);
    hide Numeral, Value, DigitRun;
    RunOfDigits(digits, x);
    var s := digits + x;
    assert s[..|digits|] == digits && s[|digits|..] == x && s[0] == digits[0];
    assert IsDigit(digits[0], 10);
  }

  lemma ShortZero(n: nat)
    ensures |Numeral(n, 10)| > 1 ==> n > 0
  {
  }

  lemma ReadInt(n: int, x: string)
    requires Delimited(x)
    ensures ReadNumber(IntText(n) + x) == Some((Int(n), x)) && IntText(n) != ""
    ensures (IntText(n) + x)[0] == '-' || '0' <= (IntText(n) + x)[0] <= '9'
  {
    hide Numeral, Value, DigitRun;
    var s := IntText(n) + x;
    if n < 0 {
      ReadDigits(-n, x);
      assert s == "-" + (Numeral(-n, 10) + x);
      assert s[1..] == Numeral(-n, 10) + x;
    } else {
      ReadDigits(n, x);
    }
  }

  lemma NotAWord(s: string)
    requires s != "" && s[0] !in {'n', 't', 'f'}
    ensures !StartsWith(s, "null") && !StartsWith(s, "true") && !StartsWith(s, "false")
  {
  }

  lemma ReadArray(items: seq<Json>, x: string)
    requires forall i :: 0 <= i < |items| ==> NoFloats(items[i])
    requires items != [] ==> ReadItems(DumpItems(items) + "]" + x) == Some((items, x))
    ensures ReadValue("[" + DumpItems(items) + "]" + x) == Some((Arr(items), x))
  {
    var s := "[" + DumpItems(items) + "]" + x;
    BracketText(DumpItems(items), '[', "]", x);
    ItemsHead(items, x);
    NotAWord(s);
    if items == [] {
      EmptyItems();
      assert s[1..] == "]" + x && s[2..] == x;
    }
    hide ReadItems, DumpItems, NoFloats, ReadNumber, ReadChars, ReadMembers;
  }

  lemma EmptyItems()
    ensures DumpItems([]) == "" && DumpMembers([]) == ""
  {
  }

  lemma ReadObject(members: seq<Member>, x: string)
    requires members != [] ==> ReadMembers(DumpMembers(members) + "}" + x) == Some((members, x))
    ensures ReadValue("{" + DumpMembers(members) + "}" + x) == Some((Obj(members), x))
  {
    var s := "{" + DumpMembers(members) + "}" + x;
    BracketText(DumpMembers(members), '{', "}", x);
    MembersHead(members, x);
    NotAWord(s);
    if members == [] {
      EmptyItems();
      assert s[1..] == "}" + x && s[2..] == x;
    }
    hide ReadMembers, DumpMembers, ReadNumber, ReadChars, ReadItems;
  }

  lemma ReadWord(word: string, x: string)
    requires word in {"null", "true", "false"}
    ensures ReadValue(word + x) == Some((if word == "null" then Null else Bool(word == "true"), x))
  {
    var s := word + x;
    assert s[..|word|] == word && s[|word|..] == x && s[0] == word[0];
  }

  lemma ReadScalar(j: Json, x: string)
    requires (j.Int? || j.Str?) && Delimited(x)
    ensures ReadValue(Dump(j) + x) == Some((j, x))
  {
    hide ReadItems, ReadMembers, ReadChars, ReadNumber, Escaped, IntText;
    var s := Dump(j) + x;
    if j.Int? {
      ReadInt(j.n, x);
    } else {
      ReadQuoted(j.s, x);
    }
    NotAWord(s);
  }

  /** Reading a written value gives it back, whatever stands behind it. */
  lemma {:induction false} ReadBack(j: Json, x: string)
    requires NoFloats(j) && Delimited(x)
    ensures ReadValue(Dump(j) + x) == Some((j, x))
    decreases j, 1
  {
    hide DumpItems, DumpMembers, Quoted, IntText, ReadValue, ReadItems, ReadMembers;
    match j
    case Null => ReadWord("null", x);
    case Bool(b) => ReadWord(if b then "true" else "false", x);
    case Int(_) => ReadScalar(j, x);
    case Float(_) =>
    case Str(_) => ReadScalar(j, x);
    case Arr(items) =>
      if items != [] {
        ReadBackItems(items, x);
      }
      ReadArray(items, x);
    case Obj(members) =>
      if members != [] {
        ReadBackMembers(members, x);
      }
      ReadObject(members, x);
  }

  lemma {:induction false} ReadBackItems(items: seq<Json>, x: string)
    requires items != [] && forall i :: 0 <= i < |items| ==> NoFloats(items[i])
    ensures ReadItems(DumpItems(items) + "]" + x) == Some((items, x))
    decreases items, 0
  {
    hide Dump, DumpItems, NoFloats, ReadValue;
    var rest := ItemsText(items, x);
    ReadBack(items[0], rest);
    if |items| > 1 {
      ReadBackItems(items[1..], x);
      assert rest[1..] == DumpItems(items[1..]) + "]" + x && StartsWith(rest, ",") && rest[0] == ',';
      assert [items[0]] + items[1..] == items;
    } else {
      assert StartsWith(rest, "]") && rest[1..] == x && [items[0]] == items;
    }
  }

  lemma {:induction false} ReadBackMembers(members: seq<Member>, x: string)
    requires members != [] && forall i :: 0 <= i < |members| ==> NoFloats(members[i].value)
    ensures ReadMembers(DumpMembers(members) + "}" + x) == Some((members, x))
    decreases members, 0
  {
    hide Dump, DumpMembers, NoFloats, ReadValue, Escaped, ReadChars;
    var s := DumpMembers(members) + "}" + x;
    var rest := MembersText(members, x);
    var afterKey := ":" + (Dump(members[0].value) + rest);
    ReadQuoted(members[0].key, afterKey);
    assert afterKey[1..] == Dump(members[0].value) + rest && StartsWith(afterKey, ":");
    assert StartsWith(s, "\"");
    ReadBack(members[0].value, rest);
    assert Member(members[0].key, members[0].value) == members[0];
    if |members| > 1 {
      ReadBackMembers(members[1..], x);
      assert rest[1..] == DumpMembers(members[1..]) + "}" + x && StartsWith(rest, ",") && rest[0] == ',';
      assert [members[0]] + members[1..] == members;
    } else {
      assert StartsWith(rest, "}") && rest[1..] == x && [members[0]] == members;
    }
  }

  /** The encoder's text of a value without fractions is read back as exactly that value. */
  lemma WrittenTextReads(j: Json)
    requires NoFloats(j)
    ensures ReadText(Dump(j)) == Some(j)
  {
    hide ReadValue, Dump;
    ReadBack(j, "");
    assert Dump(j) + "" == Dump(j);
  }

  // ---------------------------------------------------------------- which of the allowed spellings

  /** A lower-case hex digit. */
  function HexChar(n: nat): char
    requires n < 16
  {
    "0123456789abcdef"[n]
  }

  /** Only what must be escaped is, and each in one way; numbers carry a minus only when negative. */
  lemma SpellingsExactly(c: char, n: int)
    ensures c == '"' ==> EscapeChar(c) == ['\\', '"']
    ensures c == '\\' ==> EscapeChar(c) == ['\\', '\\']
    ensures c as int == 8 ==> EscapeChar(c) == ['\\', 'b']
    ensures c as int == 9 ==> EscapeChar(c) == ['\\', 't']
    ensures c as int == 10 ==> EscapeChar(c) == ['\\', 'n']
    ensures c as int == 12 ==> EscapeChar(c) == ['\\', 'f']
    ensures c as int == 13 ==> EscapeChar(c) == ['\\', 'r']
    ensures c as int < 32 && c as int !in {8, 9, 10, 12, 13} ==>
              EscapeChar(c) == ['\\', 'u', '0', '0', HexChar(c as int / 16), HexChar(c as int % 16)]
    ensures c as int >= 32 && c != '"' && c != '\\' ==> EscapeChar(c) == [c]
    ensures IntText(n) != "" && (IntText(n)[0] == '-' <==> n < 0)
  {
    if c as int < 32 && c as int !in {8, 9, 10, 12, 13} {
      FourDigits(c as int);
    }
    hide EscapeChar;
    DigitsAreNotMinus(if n < 0 then -n else n);
    hide Numeral;
  }

  lemma FourDigits(n: nat)
    requires n < 32
    ensures Padded(n, 16, 4) == ['0', '0', HexChar(n / 16), HexChar(n % 16)]
  {
    assert Padded(n, 16, 4) == Padded(n / 16, 16, 3) + [Digit(n % 16)];
    assert Padded(n / 16, 16, 3) == Padded(0, 16, 2) + [Digit(n / 16)];
    assert Padded(0, 16, 2) == ['0', '0'];
  }
}
