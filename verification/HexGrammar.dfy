/**
 Python's reading of hex text as grammar: which texts int(s, 16) accepts and what number each is, and which texts
 bytes.fromhex accepts, put together from their pieces. ASCII only.
 */
module HexGrammar {
  import opened Common
  import opened Numerals
  import opened PythonText

  /** The six blanks of ASCII: tab, line feed, vertical tab, form feed, carriage return, space. */
  predicate Blank(c: char) { c as int in {9, 10, 11, 12, 13, 32} }

  predicate Blanks(s: string) { forall i :: 0 <= i < |s| ==> Blank(s[i]) }

  lemma BlankIsSpace(c: char)
    ensures IsSpace(c) <==> Blank(c)
  {
  }

  // ---------------------------------------------------------------- stripping

  lemma {:induction false} StripLeftBlanks(left: string, s: string)
    requires Blanks(left) && (s == "" || !Blank(s[0]))
    ensures StripLeft(left + s) == s
    decreases |left|
  {
    if left == "" {
      assert left + s == s;
      if s != "" {
        BlankIsSpace(s[0]);
      }
    } else {
      BlankIsSpace(left[0]);
      assert (left + s)[0] == left[0] && (left + s)[1..] == left[1..] + s;
      StripLeftBlanks(left[1..], s);
    }
  }

  lemma {:induction false} StripRightBlanks(s: string, right: string)
    requires Blanks(right) && (s == "" || !Blank(s[|s| - 1]))
    ensures StripRight(s + right) == s
    decreases |right|
  {
    if right == "" {
      assert s + right == s;
      if s != "" {
        BlankIsSpace(s[|s| - 1]);
      }
    } else {
      BlankIsSpace(right[|right| - 1]);
      assert (s + right)[|s + right| - 1] == right[|right| - 1] && (s + right)[..|s + right| - 1] == s + right[..|right| - 1];
      StripRightBlanks(s, right[..|right| - 1]);
    }
  }

  /** Stripping takes the blanks off both ends and nothing else. */
  lemma StripExactly(left: string, s: string, right: string)
    requires Blanks(left) && Blanks(right) && s != "" && !Blank(s[0]) && !Blank(s[|s| - 1])
    ensures Strip(left + s + right) == s
  {
    assert left + s + right == left + (s + right) && (s + right)[0] == s[0];
    StripLeftBlanks(left, s + right);
    StripRightBlanks(s, right);
  }

  lemma {:induction false} LeftBlanks(s: string) returns (left: string)
    ensures Blanks(left) && s == left + StripLeft(s) && (StripLeft(s) == "" || !Blank(StripLeft(s)[0]))
    decreases |s|
  {
    left := "";
    if s != "" {
      BlankIsSpace(s[0]);
      if IsSpace(s[0]) {
        var rest := LeftBlanks(s[1..]);
        left := [s[0]] + rest;
        assert s == [s[0]] + s[1..];
      }
    }
  }

  lemma {:induction false} RightBlanks(s: string) returns (right: string)
    ensures Blanks(right) && s == StripRight(s) + right && (StripRight(s) == "" || !Blank(StripRight(s)[|StripRight(s)| - 1]))
    decreases |s|
  {
    right := "";
    if s != "" {
      BlankIsSpace(s[|s| - 1]);
      if IsSpace(s[|s| - 1]) {
        var rest := RightBlanks(s[..|s| - 1]);
        right := rest + [s[|s| - 1]];
        assert s == s[..|s| - 1] + [s[|s| - 1]];
      }
    }
  }

  // ---------------------------------------------------------------- digit groups

  /** Groups of hex digits with single underscores between them, and the digits without those. */
  ghost predicate Groups(s: string, digits: string)
    decreases |s|
  {
    if |s| == 1 then IsDigit(s[0], 16) && digits == s
    else
      && |s| >= 2 && IsDigit(s[0], 16) && |digits| >= 1 && digits[0] == s[0]
      && (if s[1] == '_' then Groups(s[2..], digits[1..]) else Groups(s[1..], digits[1..]))
  }

  lemma {:induction false} GroupsExactly(s: string, digits: string)
    ensures Groups(s, digits) <==> Grouped(s, 16) && digits == Without(s, '_')
    decreases |s|
  {
    if |s| == 1 {
      assert Without(s[1..], '_') == "";
      assert s == [s[0]];
    } else if |s| >= 2 {
      var rest := if s[1] == '_' then s[2..] else s[1..];
      if digits != "" {
        GroupsExactly(rest, digits[1..]);
      }
      GroupedRest(s);
      if s[0] != '_' {
        assert Without(s, '_') == [s[0]] + Without(s[1..], '_');
        assert s[1] == '_' ==> s[1..][1..] == s[2..];
        assert digits != "" ==> digits == [digits[0]] + digits[1..];
      }
    }
  }

  lemma GroupedRest(s: string)
    requires |s| >= 2
    ensures Grouped(s, 16) <==> IsDigit(s[0], 16) && Grouped(if s[1] == '_' then s[2..] else s[1..], 16)
  {
    var k := if s[1] == '_' then 2 else 1;
    var rest := s[k..];
    assert forall i :: 0 <= i < |rest| ==> rest[i] == s[i + k];
    if Grouped(s, 16) {
      assert s[|s| - 1] != '_';
      assert rest != "";
    }
    if IsDigit(s[0], 16) && Grouped(rest, 16) {
      assert rest[0] == s[k] && rest[|rest| - 1] == s[|s| - 1];
      forall i | 0 <= i < |s| ensures s[i] == '_' || IsDigit(s[i], 16) {
        if i >= k {
          assert s[i] == rest[i - k];
        }
      }
      forall i | 0 < i < |s| ensures s[i - 1] != '_' || s[i] != '_' {
        if i > k {
          assert s[i - 1] == rest[i - 1 - k] && s[i] == rest[i - k];
        }
      }
    }
  }

  // ---------------------------------------------------------------- int(s, 16)

  /** Blanks, a sign, a base prefix that may take an underscore, digit groups, blanks. */
  datatype HexNumber = HexNumber(left: string, sign: string, prefix: string, groups: string, digits: string, right: string)

  ghost predicate WellFormed(h: HexNumber) {
    && Blanks(h.left) && Blanks(h.right) && h.sign in {"", "+", "-"} && h.prefix in {"", "0x", "0X", "0x_", "0X_"}
    && Groups(h.groups, h.digits)
  }

  function TextOf(h: HexNumber): string { h.left + (h.sign + h.prefix + h.groups) + h.right }

  lemma GroupChars(s: string, digits: string)
    requires Groups(s, digits)
    ensures s != "" && IsDigit(s[0], 16) && IsDigit(s[|s| - 1], 16) && forall i :: 0 <= i < |s| ==> IsDigit(s[i], 16) || s[i] == '_'
  {
    GroupsExactly(s, digits);
  }

  lemma PrefixDrops(prefix: string, groups: string, digits: string)
    requires prefix in {"", "0x", "0X", "0x_", "0X_"} && Groups(groups, digits)
    ensures DropHexPrefix(prefix + groups) == groups
  {
    GroupChars(groups, digits);
    var s := prefix + groups;
    if prefix == "" {
      assert s == groups;
      assert |s| >= 2 ==> s[1] != 'x' && s[1] != 'X';
    } else if |prefix| == 2 {
      assert s[0] == '0' && s[1] == prefix[1] && s[2..] == groups && groups[0] != '_';
    } else {
      assert s[0] == '0' && s[1] == prefix[1] && s[2] == '_' && s[3..] == groups && s[2..][0] == '_';
    }
  }

  lemma SignDrops(sign: string, rest: string)
    requires sign in {"", "+", "-"} && rest != "" && IsDigit(rest[0], 16)
    ensures var t := sign + rest;
            && (StartsWith(t, "-") <==> sign == "-") && (StartsWith(t, "+") <==> sign == "+")
            && (if sign == "" then t == rest else t[1..] == rest)
  {
    var t := sign + rest;
    assert t[0] == if sign == "" then rest[0] else sign[0];
  }

  lemma CoreEnds(h: HexNumber)
    requires WellFormed(h)
    ensures var t := h.sign + h.prefix + h.groups;
            && t != "" && !Blank(t[0]) && !Blank(t[|t| - 1])
            && h.prefix + h.groups != "" && IsDigit((h.prefix + h.groups)[0], 16)
  {
    GroupChars(h.groups, h.digits);
    var t := h.sign + h.prefix + h.groups;
    assert t[|t| - 1] == h.groups[|h.groups| - 1];
    assert (h.prefix + h.groups)[0] == if h.prefix == "" then h.groups[0] else h.prefix[0];
    assert t[0] == if h.sign == "" then (h.prefix + h.groups)[0] else h.sign[0];
  }

  /** Such a text is the signed number of its digits. */
  lemma HexTextReads(h: HexNumber)
    requires WellFormed(h)
    ensures IntOfHex(TextOf(h)) == Some(if h.sign == "-" then -(Value(h.digits, 16) as int) else Value(h.digits, 16))
  {
    hide Value, Groups, Strip, DropHexPrefix, Grouped, IsDigit;
    CoreEnds(h);
    StripExactly(h.left, h.sign + h.prefix + h.groups, h.right);
    assert h.sign + h.prefix + h.groups == h.sign + (h.prefix + h.groups);
    SignDrops(h.sign, h.prefix + h.groups);
    PrefixDrops(h.prefix, h.groups, h.digits);
    GroupsExactly(h.groups, h.digits);
  }

  lemma SplitPrefix(s: string) returns (prefix: string)
    ensures prefix in {"", "0x", "0X", "0x_", "0X_"} && s == prefix + DropHexPrefix(s)
  {
    if !StartsWith(s, "0x") && !StartsWith(s, "0X") {
      prefix := "";
    } else {
      var base := if StartsWith(s, "0x") then "0x" else "0X";
      assert s == base + s[2..];
      if StartsWith(s[2..], "_") {
        prefix := if base == "0x" then "0x_" else "0X_";
        assert s[2] == s[2..][0] == '_';
        assert s == prefix + s[3..];
      } else {
        prefix := base;
      }
    }
  }

  lemma SplitSign(t: string) returns (sign: string, rest: string)
    ensures sign in {"", "+", "-"} && t == sign + rest
    ensures rest == if StartsWith(t, "-") || StartsWith(t, "+") then t[1..] else t
  {
    if StartsWith(t, "-") {
      sign, rest := "-", t[1..];
    } else if StartsWith(t, "+") {
      sign, rest := "+", t[1..];
    } else {
      sign, rest := "", t;
    }
  }

  lemma SplitBlanks(s: string) returns (left: string, right: string)
    ensures Blanks(left) && Blanks(right) && s == left + Strip(s) + right
  {
    hide StripLeft, StripRight, Blanks;
    left := LeftBlanks(s);
    right := RightBlanks(StripLeft(s));
  }

  /** And every accepted text is such a text. */
  lemma HexTextIsSpelled(s: string) returns (h: HexNumber)
    requires IntOfHex(s).Some?
    ensures WellFormed(h) && TextOf(h) == s
  {
    hide Value, Groups, Grouped, DropHexPrefix, Strip, Blanks;
    var left, right := SplitBlanks(s);
    var sign, rest := SplitSign(Strip(s));
    var prefix := SplitPrefix(rest);
    var groups := DropHexPrefix(rest);
    var digits := PythonText.Without(groups, '_');
    GroupsExactly(groups, digits);
    h := HexNumber(left, sign, prefix, groups, digits, right);
    Regroup(sign, prefix, groups);
  }

  lemma Regroup(a: string, b: string, c: string)
    ensures a + b + c == a + (b + c)
  {
  }

  // ---------------------------------------------------------------- bytes.fromhex

  /** Hex digit pairs with blanks before, between and behind them. */
  ghost predicate Pairs(s: string)
    decreases |s|
  {
    || s == ""
    || (Blank(s[0]) && Pairs(s[1..]))
    || (|s| >= 2 && IsDigit(s[0], 16) && IsDigit(s[1], 16) && Pairs(s[2..]))
  }

  lemma {:induction false} FromHexExactly(s: string)
    ensures FromHexAccepts(s) <==> Pairs(s)
    decreases |s|
  {
    if s != "" {
      BlankIsSpace(s[0]);
      if IsDigit(s[0], 16) {
        DigitsAreNotSpace(s[0]);
      }
      FromHexExactly(s[1..]);
      if |s| >= 2 {
        FromHexExactly(s[2..]);
      }
    }
  }
}
