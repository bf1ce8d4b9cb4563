/**
 Decimal text and the number it denotes, by place value: optional sign, digits with an optional point, optional
 exponent. Stated on spellings put together from their pieces, it says what the parser must read.
 */
module DecimalText {
  import opened Common
  import opened Numerals
  import opened PythonText
  import opened Amounts

  /** The pieces of a decimal number as it is written. */
  datatype Spelling = Spelling(
    sign: string, whole: string, point: string, fraction: string, mark: string, exponentSign: string, exponent: string)

  predicate WellFormed(p: Spelling) {
    && p.sign in {"", "+", "-"} && p.point in {"", "."} && p.mark in {"", "e", "E"} && p.exponentSign in {"", "+", "-"}
    && AllDigits(p.whole, 10) && AllDigits(p.fraction, 10) && AllDigits(p.exponent, 10)
    && (p.whole != "" || p.fraction != "")
    && (p.point == "" ==> p.fraction == "")
    && (if p.mark == "" then p.exponentSign == "" && p.exponent == "" else p.exponent != "")
  }

  function Mantissa(p: Spelling): string { p.whole + p.point + p.fraction }

  function Magnitude(p: Spelling): string { Mantissa(p) + p.mark + p.exponentSign + p.exponent }

  function Spell(p: Spelling): string { p.sign + Magnitude(p) }

  /** The number: the digits by their places, times ten to the signed exponent. */
  ghost function Meaning(p: Spelling): real {
    var size := (Value(p.whole, 10) as real) + (Value(p.fraction, 10) as real) / (Pow10(|p.fraction|));
    var power := if p.exponentSign == "-" then 1.0 / Pow10(Value(p.exponent, 10)) else Pow10(Value(p.exponent, 10));
    (if p.sign == "-" then -size else size) * power
  }

  /** Ten multiplied with itself. */
  ghost function Pow10(n: nat): (r: real)
    ensures r >= 1.0
  {
    if n == 0 then 1.0 else 10.0 * Pow10(n - 1)
  }

  lemma {:induction false} Pow10Is(n: nat)
    ensures PowReal(n) == Pow10(n) && PowReal(0 - n) == 1.0 / Pow10(n) && Pow10(n) == Pow(10, n) as real
  {
    if n > 0 {
      Pow10Is(n - 1);
      TenTimes(Pow10(n - 1));
      assert PowReal(0 - n) == PowReal(1 - n) / 10.0;
    }
  }

  lemma TenTimes(x: real)
    requires x >= 1.0
    ensures 1.0 / x / 10.0 == 1.0 / (10.0 * x)
  {
    Quotient(1.0 / x / 10.0, 10.0 * x) by {
      assert 1.0 / x / 10.0 * (10.0 * x) == 1.0 / x * x;
    }
  }

  lemma Quotient(q: real, x: real)
    requires x > 0.0 && q * x == 1.0
    ensures q == 1.0 / x
  {
  }

  // ---------------------------------------------------------------- scanning a spelling

  lemma DigitsHave(s: string, i: nat)
    requires AllDigits(s, 10) && i < |s|
    ensures '0' <= s[i] <= '9'
  {
    assert IsDigit(s[i], 10);
  }

  lemma MantissaChars(p: Spelling, i: nat)
    requires WellFormed(p) && i < |Mantissa(p)|
    ensures '0' <= Mantissa(p)[i] <= '9' || Mantissa(p)[i] == '.'
    ensures i < |p.whole| ==> Mantissa(p)[i] != '.'
  {
    if i < |p.whole| {
      DigitsHave(p.whole, i);
    } else if i >= |p.whole| + |p.point| {
      DigitsHave(p.fraction, i - |p.whole| - |p.point|);
    }
  }

  lemma MantissaScan(p: Spelling)
    requires WellFormed(p)
    ensures var m := Mantissa(p);
            && IndexOf(m, '.', '.') == |p.whole| && m[..|p.whole|] == p.whole
            && (if |p.whole| == |m| then p.fraction == "" else m[|p.whole| + 1..] == p.fraction)
  {
    var m := Mantissa(p);
    forall i | 0 <= i < |p.whole| ensures m[i] != '.' {
      MantissaChars(p, i);
    }
    IndexIsFirst(m, |p.whole|, '.', '.');
  }

  lemma MagnitudeScan(p: Spelling)
    requires WellFormed(p)
    ensures var s := Magnitude(p);
            && IndexOf(s, 'e', 'E') == |Mantissa(p)| && s[..|Mantissa(p)|] == Mantissa(p)
            && (p.mark == "" ==> |Mantissa(p)| == |s|)
            && (p.mark != "" ==> |Mantissa(p)| < |s| && s[|Mantissa(p)| + 1..] == p.exponentSign + p.exponent)
  {
    hide Mantissa;
    var s := Magnitude(p);
    forall i | 0 <= i < |Mantissa(p)| ensures s[i] != 'e' && s[i] != 'E' {
      MantissaChars(p, i);
    }
    IndexIsFirst(s, |Mantissa(p)|, 'e', 'E');
  }

  /** A sign is dropped, and only a minus counts. */
  lemma SignReads(sign: string, body: string)
    requires sign in {"", "+", "-"} && body != "" && body[0] != '+' && body[0] != '-'
    ensures DropSign(sign + body) == body && (StartsWith(sign + body, "-") <==> sign == "-")
  {
    var s := sign + body;
    if sign == "" {
      assert s == body;
    } else {
      assert s[0] == sign[0] && s[1..] == body;
    }
  }

  lemma ExponentReads(p: Spelling)
    requires WellFormed(p) && p.mark != ""
    ensures ParseExponent(p.exponentSign + p.exponent) == Some(ExponentOf(p))
  {
    DigitsHave(p.exponent, 0);
    SignReads(p.exponentSign, p.exponent);
    hide Value, DropSign, AllDigits;
  }

  ghost function ExponentOf(p: Spelling): int {
    if p.exponentSign == "-" then -(Value(p.exponent, 10) as int) else Value(p.exponent, 10)
  }

  lemma MagnitudeReads(p: Spelling, negative: bool)
    requires WellFormed(p)
    ensures ParseMagnitude(negative, Magnitude(p))
         == Some(Finite(negative, Value(p.whole + p.fraction, 10), ExponentOf(p) - |p.fraction|))
  {
    hide IndexOf, Value, ParseExponent, Mantissa, Magnitude, ExponentOf;
    MagnitudeScan(p);
    MantissaScan(p);
    if p.mark != "" {
      ExponentReads(p);
    } else {
      NoExponent(p);
    }
    assert AllDigits(p.whole + p.fraction, 10);
  }

  lemma NoExponent(p: Spelling)
    requires WellFormed(p) && p.mark == ""
    ensures ExponentOf(p) == 0
  {
    assert Value("", 10) == 0;
  }

  // ---------------------------------------------------------------- what it denotes

  lemma CoefficientReads(p: Spelling)
    requires WellFormed(p)
    ensures Value(p.whole + p.fraction, 10) as real
         == ((Value(p.whole, 10) as real) + (Value(p.fraction, 10) as real) / Pow10(|p.fraction|)) * Pow10(|p.fraction|)
  {
    hide Value, Pow, Pow10, PowReal, WellFormed;
    ValueConcat(p.whole, p.fraction, 10);
    Pow10Is(|p.fraction|);
    Combines(Value(p.whole + p.fraction, 10), Value(p.whole, 10), Value(p.fraction, 10), Pow(10, |p.fraction|), Pow10(|p.fraction|));
  }

  lemma Combines(v: nat, w: nat, f: nat, n: nat, k: real)
    requires v == w * n + f && n as real == k && k > 0.0
    ensures v as real == ((w as real) + (f as real) / k) * k
  {
    RealProduct(w, n);
    Distributes(w as real, f as real, k);
  }

  lemma Distributes(w: real, f: real, k: real)
    requires k > 0.0
    ensures (w + f / k) * k == w * k + f
  {
    assert f / k * k == f;
  }

  lemma PowerReads(e: int, k: nat)
    ensures Pow10(k) * PowReal(e - k) == PowReal(e)
  {
    hide PowReal, Pow10, Pow;
    Pow10Is(k);
    PowRealAdd(e - k, k);
    assert e - k + k == e;
  }

  lemma ExponentMeans(p: Spelling)
    ensures PowReal(ExponentOf(p)) == if p.exponentSign == "-" then 1.0 / Pow10(Value(p.exponent, 10)) else Pow10(Value(p.exponent, 10))
  {
    Pow10Is(Value(p.exponent, 10));
  }

  lemma Denoted(p: Spelling)
    requires WellFormed(p)
    ensures Denotes(Finite(p.sign == "-", Value(p.whole + p.fraction, 10), ExponentOf(p) - |p.fraction|)) == Meaning(p)
  {
    hide Value, PowReal, ExponentOf, Pow10, WellFormed;
    CoefficientReads(p);
    ExponentMeans(p);
    PowerReads(ExponentOf(p), |p.fraction|);
    var size := (Value(p.whole, 10) as real) + (Value(p.fraction, 10) as real) / Pow10(|p.fraction|);
    Signed(p.sign == "-", size, Pow10(|p.fraction|), PowReal(ExponentOf(p) - |p.fraction|), PowReal(ExponentOf(p)));
  }

  lemma Signed(negative: bool, size: real, k: real, q: real, r: real)
    requires k * q == r
    ensures (if negative then -1.0 else 1.0) * (size * k) * q == (if negative then -size else size) * r
  {
    var s: real := if negative then -1.0 else 1.0;
    Regroups(s, size, k, q, r);
  }

  lemma Regroups(s: real, size: real, k: real, q: real, r: real)
    requires k * q == r
    ensures s * (size * k) * q == (s * size) * r
  {
    assert s * (size * k) * q == (s * size) * (k * q);
  }

  // ---------------------------------------------------------------- the parser

  lemma MagnitudeHead(p: Spelling)
    requires WellFormed(p)
    ensures Magnitude(p) != "" && ('0' <= Magnitude(p)[0] <= '9' || Magnitude(p)[0] == '.')
  {
    MantissaChars(p, 0);
    assert Magnitude(p)[0] == Mantissa(p)[0];
  }

  lemma HeadIsFinite(s: string)
    requires s != "" && ('0' <= s[0] <= '9' || s[0] == '.')
    ensures !IsNotFiniteText(s)
  {
    assert Lower(s)[0] == s[0];
  }

  lemma SpelledIsFinite(p: Spelling)
    requires WellFormed(p)
    ensures !IsNotFiniteText(Magnitude(p)) && DropSign(Spell(p)) == Magnitude(p) && (StartsWith(Spell(p), "-") <==> p.sign == "-")
  {
    hide Magnitude, IsNotFiniteText, DropSign;
    MagnitudeHead(p);
    HeadIsFinite(Magnitude(p));
    SignReads(p.sign, Magnitude(p));
  }

  /** A text that, without its blanks and underscores, spells a number is read as that number. */
  lemma TextDenotes(text: string, p: Spelling)
    requires WellFormed(p) && PythonText.Without(Strip(text), '_') == Spell(p)
    ensures ParseDecimal(text).Some? && ParseDecimal(text).value.Finite? && Denotes(ParseDecimal(text).value) == Meaning(p)
  {
    hide ParseMagnitude, IsNotFiniteText, Denotes, Meaning, Spell, Magnitude, WellFormed, Value, Strip, ExponentOf, PythonText.Without;
    SpelledIsFinite(p);
    MagnitudeReads(p, p.sign == "-");
    Denoted(p);
  }

  /** And a text that is read as a number spells one. */
  lemma FiniteTextIsSpelled(text: string) returns (p: Spelling)
    requires ParseDecimal(text).Some? && ParseDecimal(text).value.Finite?
    ensures WellFormed(p) && PythonText.Without(Strip(text), '_') == Spell(p)
  {
    hide IsNotFiniteText, Value, Strip, PythonText.Without, ParseMagnitude, DropSign, Magnitude, WellFormed;
    var t := PythonText.Without(Strip(text), '_');
    p := SpellingOf(StartsWith(t, "-"), DropSign(t));
    var sign := SplitSign(t);
    SignKeeps(p, sign);
    p := p.(sign := sign);
  }

  lemma SignKeeps(p: Spelling, sign: string)
    requires WellFormed(p) && sign in {"", "+", "-"}
    ensures WellFormed(p.(sign := sign)) && Magnitude(p.(sign := sign)) == Magnitude(p)
  {
  }

  lemma SplitSign(s: string) returns (sign: string)
    ensures sign in {"", "+", "-"} && s == sign + DropSign(s)
  {
    sign := if StartsWith(s, "-") then "-" else if StartsWith(s, "+") then "+" else "";
  }

  lemma SplitMantissa(m: string) returns (whole: string, point: string, fraction: string)
    ensures m == whole + point + fraction && point in {"", "."} && (point == "" ==> fraction == "")
    ensures whole == m[..IndexOf(m, '.', '.')]
    ensures fraction == if IndexOf(m, '.', '.') == |m| then "" else m[IndexOf(m, '.', '.') + 1..]
  {
    hide IndexOf;
    var k := IndexOf(m, '.', '.');
    whole := m[..k];
    point := if k == |m| then "" else ".";
    fraction := if k == |m| then "" else m[k + 1..];
  }

  lemma SplitExponent(s: string) returns (mark: string, sign: string, exponent: string)
    requires var e := IndexOf(s, 'e', 'E'); e < |s| ==> ParseExponent(s[e + 1..]).Some?
    ensures s == s[..IndexOf(s, 'e', 'E')] + mark + sign + exponent
    ensures mark in {"", "e", "E"} && sign in {"", "+", "-"} && AllDigits(exponent, 10)
    ensures if mark == "" then sign == "" && exponent == "" else exponent != ""
  {
    hide IndexOf, Value, DropSign;
    var e := IndexOf(s, 'e', 'E');
    if e == |s| {
      mark, sign, exponent := "", "", "";
    } else {
      mark := [s[e]];
      sign := SplitSign(s[e + 1..]);
      exponent := DropSign(s[e + 1..]);
      assert s == s[..e] + mark + s[e + 1..];
    }
  }

  lemma SpellingOf(negative: bool, s: string) returns (p: Spelling)
    requires ParseMagnitude(negative, s).Some?
    ensures WellFormed(p) && Magnitude(p) == s && p.sign == ""
  {
    hide Value, IndexOf, ParseExponent, AllDigits;
    var mark, sign, exponent := SplitExponent(s);
    var whole, point, fraction := SplitMantissa(s[..IndexOf(s, 'e', 'E')]);
    DigitsSplit(whole, fraction);
    p := Spelling("", whole, point, fraction, mark, sign, exponent);
  }

  lemma DigitsSplit(a: string, b: string)
    requires AllDigits(a + b, 10)
    ensures AllDigits(a, 10) && AllDigits(b, 10)
  {
    forall i | 0 <= i < |a| ensures IsDigit(a[i], 10) {
      assert (a + b)[i] == a[i];
    }
    forall i | 0 <= i < |b| ensures IsDigit(b[i], 10) {
      assert (a + b)[|a| + i] == b[i];
    }
  }

  // ---------------------------------------------------------------- to_atomic on text

  /** to_atomic of a text answers n exactly when the number it spells, times ten to the decimals, is n. */
  lemma TextConvertsExactly(text: string, p: Spelling, decimals: nat, n: nat)
    requires decimals <= 255 && WellFormed(p) && PythonText.Without(Strip(text), '_') == Spell(p)
    ensures ToAtomic(Text(text), decimals) == Ok(n) <==> |text| <= 1024 && n <= UINT256_MAX && Meaning(p) * Pow10(decimals) == n as real
  {
    hide ToAtomic, ParseDecimal, Denotes, Meaning, PowReal, Pow10, Spell, WellFormed, Strip, PythonText.Without, Pow;
    TextDenotes(text, p);
    ToAtomicExact(Text(text), decimals, n);
    Pow10Is(decimals);
  }

  /** A text that spells no number has no atomic amount. */
  lemma OtherTexts(text: string, decimals: int)
    requires forall p :: WellFormed(p) ==> PythonText.Without(Strip(text), '_') != Spell(p)
    ensures ToAtomic(Text(text), decimals).Err?
  {
    hide Scale, ParseDecimal, Spell, WellFormed, Strip, PythonText.Without;
    if ToAtomic(Text(text), decimals).Ok? {
      var p := FiniteTextIsSpelled(text);
    }
  }

  /** A whole number m has the atomic amount m times ten to the decimals. */
  lemma WholeNumbers(m: int, decimals: nat, n: nat)
    requires decimals <= 255
    ensures ToAtomic(Whole(m), decimals) == Ok(n) <==> n <= UINT256_MAX && (m as real) * Pow10(decimals) == n as real
  {
    hide PowReal, Pow10, Denotes, Pow, ToAtomic, DecimalOf;
    WholeDenotes(m);
    Pow10Is(decimals);
    ToAtomicExact(Whole(m), decimals, n);
  }

  /** Decimals that do not fit a byte are refused. */
  lemma DecimalsExactly(human: Human, decimals: int)
    ensures ToAtomic(human, decimals) == Err(BadDecimals) <==> decimals < 0 || decimals > 255
  {
    hide DecimalOf, DigitCount;
  }

  lemma WholeDenotes(m: int)
    ensures DecimalOf(Whole(m)).Some? && DecimalOf(Whole(m)).value.Finite? && Denotes(DecimalOf(Whole(m)).value) == m as real
  {
    assert PowReal(0) == 1.0;
  }

  /** What a spelling without blanks is read from: itself. */
  lemma SpellingIsPlain(p: Spelling)
    requires WellFormed(p)
    ensures PythonText.Without(Strip(Spell(p)), '_') == Spell(p)
  {
    var s := Spell(p);
    forall i | 0 <= i < |s| ensures !IsSpace(s[i]) && s[i] != '_' {
      SpellingChars(p, i);
    }
    hide Spell;
    WithoutNothing(s, '_');
  }

  lemma SpellingChars(p: Spelling, i: nat)
    requires WellFormed(p) && i < |Spell(p)|
    ensures !IsSpace(Spell(p)[i]) && Spell(p)[i] != '_'
  {
    var a, b, c, d := |p.sign|, |p.sign + Mantissa(p)|, |p.sign + Mantissa(p) + p.mark|, |p.sign + Mantissa(p) + p.mark + p.exponentSign|;
    if a <= i < b {
      assert Spell(p)[i] == Mantissa(p)[i - a];
      MantissaChars(p, i - a);
    } else if i >= d {
      DigitsHave(p.exponent, i - d);
      assert Spell(p)[i] == p.exponent[i - d];
    } else if i < a {
      assert Spell(p)[i] == p.sign[i];
    } else if i < c {
      assert Spell(p)[i] == p.mark[i - b];
    } else {
      assert Spell(p)[i] == p.exponentSign[i - c];
    }
  }

  lemma DigitReads(c: char)
    requires '0' <= c <= '9'
    ensures Value([c], 10) == c as int - '0' as int
  {
    ValueSnoc("", c, 10);
    assert "" + [c] == [c];
  }

  /** Signs of exponents matter: a millionth of a coin of six decimals is one atomic unit. */
  lemma MillionthIsOneUnit()
    ensures ToAtomic(Text("1e-6"), 6) == Ok(1)
  {
    hide ToAtomic, Strip, PythonText.Without, Pow10, Value;
    var p := Spelling("", "1", "", "", "e", "-", "6");
    assert Spell(p) == "1e-6";
    SpellingIsPlain(p);
    TextConvertsExactly("1e-6", p, 6, 1);
    DigitReads('1');
    DigitReads('6');
    assert "1" == ['1'] && "6" == ['6'];
    Millionth(p);
  }

  lemma Millionth(p: Spelling)
    requires p == Spelling("", "1", "", "", "e", "-", "6") && Value("1", 10) == 1 && Value("6", 10) == 6
    ensures Meaning(p) * Pow10(6) == 1.0
  {
    assert Value("", 10) == 0;
    assert Pow10(0) == 1.0;
    assert Pow10(3) == 1000.0;
    assert Pow10(6) == 1000000.0;
    hide Value, Pow10;
  }

  // ---------------------------------------------------------------- from_atomic

  lemma {:induction false} TrimmedEnd(s: string)
    ensures TrimZeros(s) == "" || TrimZeros(s)[|TrimZeros(s)| - 1] != '0'
  {
    if s != "" && s[|s| - 1] == '0' {
      TrimmedEnd(s[..|s| - 1]);
    }
  }

  lemma WholeStarts(numeral: string, decimals: nat)
    requires numeral == "0" || (numeral != "" && numeral[0] != '0')
    ensures var digits := RightJust(numeral, decimals + 1);
            && |digits| > decimals
            && (digits[..|digits| - decimals] == "0" || digits[0] != '0')
  {
    var digits := RightJust(numeral, decimals + 1);
    if |numeral| <= decimals + 1 {
      assert |digits[..|digits| - decimals]| == 1;
      assert digits[0] == '0' ==> digits[..|digits| - decimals] == "0";
    } else {
      assert digits == numeral;
    }
  }

  /** What from_atomic prints before and behind the point. */
  lemma Printed(n: Uint256, decimals: nat) returns (whole: string, fraction: string)
    requires decimals <= 255
    ensures FromAtomic(n, decimals) == Ok(if fraction == "" then whole else whole + "." + fraction)
    ensures AllDigits(whole, 10) && AllDigits(fraction, 10)
    ensures whole == "0" || (whole != "" && whole[0] != '0')
    ensures fraction == "" || fraction[|fraction| - 1] != '0'
  {
    hide Numeral, Value, RightJust, TrimZeros, AllDigits;
    var numeral := Numeral(n, 10);
    NumeralShape(n, 10);
    SingleZero(n);
    if decimals == 0 {
      whole, fraction := numeral, "";
      NoDigits();
    } else {
      var digits := RightJust(numeral, decimals + 1);
      RightJustValue(numeral, decimals + 1);
      WholeStarts(numeral, decimals);
      whole := digits[..|digits| - decimals];
      var rest := digits[|digits| - decimals..];
      assert digits == whole + rest && whole[0] == digits[0];
      DigitsSplit(whole, rest);
      fraction := TrimZeros(rest);
      TrimmedDigits(rest);
      TrimmedEnd(rest);
    }
  }

  lemma NoDigits()
    ensures AllDigits("", 10)
  {
  }

  lemma SingleZero(n: nat)
    ensures Numeral(n, 10) == "0" || (Numeral(n, 10) != "" && Numeral(n, 10)[0] != '0')
  {
    NumeralShape(n, 10);
    if n == 0 {
      assert Digit(0) == '0';
    }
  }

  /** from_atomic prints the exact number, without a superfluous zero on either side and no bare point. */
  lemma PrintedExactly(n: Uint256, decimals: nat) returns (p: Spelling)
    requires decimals <= 255
    ensures WellFormed(p) && p.sign == "" && p.mark == "" && FromAtomic(n, decimals) == Ok(Spell(p))
    ensures Meaning(p) * Pow10(decimals) == n as real
    ensures p.whole == "0" || (p.whole != "" && p.whole[0] != '0')
    ensures (p.point == "" <==> p.fraction == "") && (p.fraction == "" || p.fraction[|p.fraction| - 1] != '0')
  {
    hide FromAtomic, ToAtomic, Meaning, Pow10, Strip, PythonText.Without, Spell, WellFormed;
    var whole, fraction := Printed(n, decimals);
    p := PrintedSpelling(whole, fraction);
    var text := FromAtomic(n, decimals).value;
    SpellingIsPlain(p);
    AtomicRoundTrip(n, decimals);
    TextConvertsExactly(text, p, decimals, n);
  }

  lemma PrintedSpelling(whole: string, fraction: string) returns (p: Spelling)
    requires whole != "" && AllDigits(whole, 10) && AllDigits(fraction, 10)
    ensures p == Spelling("", whole, if fraction == "" then "" else ".", fraction, "", "", "")
    ensures WellFormed(p) && Spell(p) == if fraction == "" then whole else whole + "." + fraction
  {
    hide AllDigits;
    NoDigits();
    p := Spelling("", whole, if fraction == "" then "" else ".", fraction, "", "", "");
  }

  /** And it refuses exactly what is no uint256 or has no such decimals. */
  lemma PrintRefusals(atomic: int, decimals: int)
    ensures FromAtomic(atomic, decimals).Err? <==> !(0 <= atomic <= UINT256_MAX) || !(0 <= decimals <= 255)
  {
    hide RightJust, TrimZeros;
  }
}
