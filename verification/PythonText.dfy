/** The lenient readings of text that Python's int(s, 16) and bytes.fromhex(s) perform, on ASCII input. */
module PythonText {
  import opened Common
  import opened Numerals

  predicate IsSpace(c: char) {
    c == ' ' || c == '\t' || c == '\n' || c == '\r' || c == '\U{000B}' || c == '\U{000C}'
  }

  function StripLeft(s: string): string {
    if s != "" && IsSpace(s[0]) then StripLeft(s[1..]) else s
  }

  function StripRight(s: string): string {
    if s != "" && IsSpace(s[|s| - 1]) then StripRight(s[..|s| - 1]) else s
  }

  function Strip(s: string): string { StripRight(StripLeft(s)) }

  function Without(s: string, c: char): string {
    if s == "" then "" else if s[0] == c then Without(s[1..], c) else [s[0]] + Without(s[1..], c)
  }

  /** Digits with single underscores between them, as Python's number grammar allows. */
  predicate Grouped(s: string, base: nat) {
    && s != "" && s[0] != '_' && s[|s| - 1] != '_'
    && (forall i :: 0 <= i < |s| ==> s[i] == '_' || IsDigit(s[i], base))
    && (forall i :: 0 < i < |s| ==> s[i - 1] != '_' || s[i] != '_')
  }

  predicate StartsWith(s: string, prefix: string) {
    prefix <= s
  }

  function DropHexPrefix(s: string): string {
    if !StartsWith(s, "0x") && !StartsWith(s, "0X") then s
    else if StartsWith(s[2..], "_") then s[3..]
    else s[2..]
  }

  /** int(s, 16): None where Python raises ValueError. */
  function IntOfHex(s: string): Option<int> {
    var t := Strip(s);
    var negative := StartsWith(t, "-");
    var body := DropHexPrefix(if negative || StartsWith(t, "+") then t[1..] else t);
    if !Grouped(body, 16) then None
    else
      var magnitude: int := Value(Without(body, '_'), 16);
      Some(if negative then -magnitude else magnitude)
  }

  /** Whether bytes.fromhex(s) succeeds: hex digit pairs, with whitespace anywhere between the pairs. */
  predicate FromHexAccepts(s: string) {
    if s == "" then true
    else if IsSpace(s[0]) then FromHexAccepts(s[1..])
    else |s| >= 2 && IsDigit(s[0], 16) && IsDigit(s[1], 16) && FromHexAccepts(s[2..])
  }

  lemma {:induction false} WithoutNothing(s: string, c: char)
    requires c !in s
    ensures Without(s, c) == s
  {
    if s != "" {
      WithoutNothing(s[1..], c);
    }
  }

  lemma DigitsAreNotSpace(c: char)
    requires IsDigit(c, 16)
    ensures !IsSpace(c) && c != '_' && c != '+' && c != '-'
  {
  }

  /** On plain hex text the lenient reading is the plain one. */
  lemma IntOfPlainHex(s: string)
    requires AllDigits(s, 16) && s != ""
    ensures IntOfHex("0x" + s) == Some(Value(s, 16))
  {
    var t := "0x" + s;
    assert t[0] == '0' && t[1] == 'x' && t[|t| - 1] == s[|s| - 1];
    DigitsAreNotSpace(s[|s| - 1]);
    assert Strip(t) == t;
    assert t[2..] == s;
    assert StartsWith(t, "0x") && !StartsWith(t, "-") && !StartsWith(t, "+");
    assert s[0] != '_';
    assert forall i :: 0 <= i < |s| ==> s[i] != '_';
    WithoutNothing(s, '_');
  }

  lemma {:induction false} FromHexAcceptsPairs(s: string)
    requires AllDigits(s, 16) && |s| % 2 == 0
    ensures FromHexAccepts(s)
    decreases |s|
  {
    if s != "" {
      DigitsAreNotSpace(s[0]);
      FromHexAcceptsPairs(s[2..]);
    }
  }
}
