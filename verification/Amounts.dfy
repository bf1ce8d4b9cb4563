/**
 Exact arithmetic for token decimals and fees (src/psv/token_quirks.py).
 */
module Amounts {
  import opened Common
  import opened Numerals
  import opened PythonText

  const MAX_DECIMALS := 255
  const MAX_TEXT := 1024
  const UINT256_DIGITS := 78

  datatype Failure = BadDecimals | BadAmount | NotUint256 | NotRepresentable

  /** A Decimal as as_tuple() shows it: a sign, a coefficient and an exponent, or no number at all. */
  datatype Decimal = NotFinite | Finite(negative: bool, coefficient: nat, exponent: int)

  datatype Human = Text(text: string) | Whole(n: int)

  // ---------------------------------------------------------------- reading decimal text

  function IndexOf(s: string, a: char, b: char): (i: nat)
    ensures i <= |s|
    ensures forall k :: 0 <= k < i ==> s[k] != a && s[k] != b
    ensures i < |s| ==> s[i] == a || s[i] == b
  {
    if s == "" || s[0] == a || s[0] == b then 0 else 1 + IndexOf(s[1..], a, b)
  }

  function DropSign(s: string): string {
    if StartsWith(s, "-") || StartsWith(s, "+") then s[1..] else s
  }

  function ParseExponent(s: string): Option<int> {
    var digits := DropSign(s);
    if digits == "" || !AllDigits(digits, 10) then None
    else Some(if StartsWith(s, "-") then -(Value(digits, 10) as int) else Value(digits, 10))
  }

  /** Digits with an optional point and an optional exponent. */
  function ParseMagnitude(negative: bool, s: string): Option<Decimal> {
    var e := IndexOf(s, 'e', 'E');
    var exponent := if e == |s| then Some(0) else ParseExponent(s[e + 1..]);
    var mantissa := s[..e];
    var point := IndexOf(mantissa, '.', '.');
    var whole := mantissa[..point];
    var fraction := if point == |mantissa| then "" else mantissa[point + 1..];
    if exponent.None? || whole + fraction == "" || !AllDigits(whole + fraction, 10) then None
    else Some(Finite(negative, Value(whole + fraction, 10), exponent.value - |fraction|))
  }

  predicate IsNotFiniteText(s: string) {
    var lower := Lower(s);
    || lower == "inf" || lower == "infinity"
    || (StartsWith(lower, "nan") && AllDigits(lower[3..], 10))
    || (StartsWith(lower, "snan") && AllDigits(lower[4..], 10))
  }

  /** Decimal(s): None where Python raises InvalidOperation. */
  function ParseDecimal(s: string): Option<Decimal> {
    var t := Without(Strip(s), '_');
    var body := DropSign(t);
    if IsNotFiniteText(body) then Some(NotFinite) else ParseMagnitude(StartsWith(t, "-"), body)
  }

  function DecimalOf(human: Human): Option<Decimal> {
    match human
    case Text(text) => ParseDecimal(text)
    case Whole(n) => Some(Finite(n < 0, if n < 0 then -n else n, 0))
  }

  // ---------------------------------------------------------------- to_atomic

  function CheckUint256(n: int): Result<nat, Failure> {
    if 0 <= n <= UINT256_MAX then Ok(n) else Err(NotUint256)
  }

  function DigitCount(n: nat): nat { |Numeral(n, 10)| }

  function Scale(amount: Decimal, places: nat): Result<nat, Failure>
    requires amount.Finite?
  {
    var c, scaled := amount.coefficient, amount.exponent + places;
    if amount.negative && c > 0 then Err(BadAmount)
    else if scaled >= 0 then
      if c > 0 && DigitCount(c) + scaled > UINT256_DIGITS then Err(NotUint256)
      else CheckUint256(c * Pow(10, scaled))
    else if c > 0 && -scaled > DigitCount(c) then Err(NotRepresentable)
    else
      PowPositive(10, -scaled);
      if c % Pow(10, -scaled) != 0 then Err(NotRepresentable) else CheckUint256(c / Pow(10, -scaled))
  }

  function ToAtomic(human: Human, decimals: int): Result<nat, Failure> {
    if !(0 <= decimals <= MAX_DECIMALS) then Err(BadDecimals)
    else if human.Text? && |human.text| > MAX_TEXT then Err(BadAmount)
    else
      match DecimalOf(human)
      case None => Err(BadAmount)
      case Some(NotFinite) => Err(BadAmount)
      case Some(amount) => Scale(amount, decimals)
  }

  // ---------------------------------------------------------------- what the number is

  /** Ten to a possibly negative power. */
  ghost function PowReal(e: int): real
    decreases if e < 0 then -e else e
  {
    if e == 0 then 1.0 else if e > 0 then 10.0 * PowReal(e - 1) else PowReal(e + 1) / 10.0
  }

  /** The number a finite Decimal denotes. */
  ghost function Denotes(amount: Decimal): real
    requires amount.Finite?
  {
    (if amount.negative then -1.0 else 1.0) * (amount.coefficient as real) * PowReal(amount.exponent)
  }

  lemma {:induction false} PowRealStep(e: int)
    ensures PowReal(e + 1) == 10.0 * PowReal(e)
  {
  }

  lemma {:induction false} PowRealAdd(a: int, n: nat)
    ensures PowReal(a + n) == PowReal(a) * PowReal(n)
  {
    if n > 0 {
      PowRealAdd(a, n - 1);
      PowRealStep(a + (n - 1));
      assert a + (n - 1) + 1 == a + n;
      var x, y := PowReal(a), PowReal(n - 1);
      assert 10.0 * (x * y) == x * (10.0 * y);
    }
  }

  lemma {:induction false} PowRealNat(n: nat)
    ensures PowReal(n) == Pow(10, n) as real
  {
    if n > 0 {
      PowRealNat(n - 1);
    }
  }

  lemma {:induction false} PowRealNegative(n: nat)
    ensures PowReal(0 - n) * (Pow(10, n) as real) == 1.0
  {
    PowRealAdd(0 - n, n);
    PowRealNat(n);
  }

  lemma Uint256Digits()
    ensures UINT256_MAX < Pow(10, UINT256_DIGITS)
  {
    assert Pow(10, 6) == 1_000_000;
    assert Pow(10, 12) == 1_000_000_000_000 by { PowAdd(10, 6, 6); }
    assert Pow(10, 13) == 10_000_000_000_000;
    assert Pow(10, 26) == 100_000_000_000_000_000_000_000_000 by { PowAdd(10, 13, 13); }
    assert Pow(10, 39) == 1_000_000_000_000_000_000_000_000_000_000_000_000_000 by { PowAdd(10, 26, 13); }
    PowAdd(10, 39, 39);
  }

  /** The digit-count shortcut never rejects a uint256. */
  lemma ManyDigitsOverflow(c: nat, scaled: nat)
    requires c > 0 && DigitCount(c) + scaled > UINT256_DIGITS
    ensures c * Pow(10, scaled) > UINT256_MAX
  {
    hide Pow, Numeral, Value, Lower, AllDigits;
    NumeralLength(c, 10);
    NumeralShape(c, 10);
    var k := DigitCount(c) - 1;
    Uint256Digits();
    PowAdd(10, k, scaled);
    PowMonotone(10, UINT256_DIGITS, k + scaled);
    Exceeds(c, Pow(10, k), Pow(10, scaled), Pow(10, UINT256_DIGITS));
  }

  lemma Exceeds(c: nat, p: nat, q: nat, bound: nat)
    requires p <= c && bound <= p * q
    ensures bound <= c * q
  {
    ScaleBoth(p, c, q);
  }

  /** The divisor-length shortcut never rejects a representable amount. */
  lemma LongDivisorLeavesRemainder(c: nat, n: nat)
    requires c > 0 && n > DigitCount(c)
    ensures 0 < c < Pow(10, n)
  {
    NumeralLength(c, 10);
    PowMonotone(10, DigitCount(c), n);
  }

  /** The scaled amount as a real: the coefficient times a power of ten. */
  lemma ScaledValue(amount: Decimal, places: nat)
    requires amount.Finite?
    ensures Denotes(amount) * PowReal(places)
         == (if amount.negative then -1.0 else 1.0) * (amount.coefficient as real) * PowReal(amount.exponent + places)
  {
    PowRealAdd(amount.exponent, places);
    var s: real := if amount.negative then -1.0 else 1.0;
    var c := s * (amount.coefficient as real);
    Associate(c, PowReal(amount.exponent), PowReal(places));
  }

  lemma Associate(a: real, b: real, c: real)
    ensures (a * b) * c == a * (b * c)
  {
  }

  lemma RealProduct(a: nat, b: nat)
    ensures (a * b) as real == (a as real) * (b as real)
  {
  }

  /** Scaling a non-negative coefficient is exact in both directions of the exponent. */
  lemma ScaleMagnitude(c: nat, scaled: int, n: nat)
    ensures scaled >= 0 ==> ((c as real) * PowReal(scaled) == n as real <==> c * Pow(10, scaled) == n)
    ensures scaled < 0 ==> ((c as real) * PowReal(scaled) == n as real <==> c == n * Pow(10, -scaled))
  {
    hide Pow, PowReal;
    if scaled >= 0 {
      PowRealNat(scaled);
      RealProduct(c, Pow(10, scaled));
    } else {
      PowRealNegative(-scaled);
      RealProduct(n, Pow(10, -scaled));
      MoveAcross(c as real, PowReal(scaled), Pow(10, -scaled) as real, n as real);
    }
  }

  lemma MoveAcross(c: real, q: real, p: real, n: real)
    requires q * p == 1.0
    ensures c * q == n <==> c == n * p
  {
    Associate(c, q, p);
    Associate(n, p, q);
  }

  lemma ScaleUp(amount: Decimal, places: nat, n: nat)
    requires amount.Finite? && !(amount.negative && amount.coefficient > 0) && amount.exponent + places >= 0
    ensures Scale(amount, places) == Ok(n) <==> n <= UINT256_MAX && amount.coefficient * Pow(10, amount.exponent + places) == n
  {
    var c, scaled := amount.coefficient, amount.exponent + places;
    if c > 0 && DigitCount(c) + scaled > UINT256_DIGITS {
      ManyDigitsOverflow(c, scaled);
    }
  }

  lemma ScaleDown(amount: Decimal, places: nat, n: nat)
    requires amount.Finite? && !(amount.negative && amount.coefficient > 0) && amount.exponent + places < 0
    ensures Scale(amount, places) == Ok(n) <==> n <= UINT256_MAX && amount.coefficient == n * Pow(10, -(amount.exponent + places))
  {
    var c, k := amount.coefficient, -(amount.exponent + places);
    PowPositive(10, k);
    DivisionExact(c, Pow(10, k), n);
    if c > 0 && k > DigitCount(c) {
      LongDivisorLeavesRemainder(c, k);
      SmallIsNoMultiple(c, Pow(10, k));
    }
  }

  lemma ScaleNonNegative(amount: Decimal, places: nat, n: nat)
    requires amount.Finite? && !(amount.negative && amount.coefficient > 0)
    ensures Scale(amount, places) == Ok(n)
       <==> n <= UINT256_MAX && (amount.coefficient as real) * PowReal(amount.exponent + places) == n as real
  {
    hide Scale, PowReal, Pow;
    ScaleMagnitude(amount.coefficient, amount.exponent + places, n);
    if amount.exponent + places >= 0 {
      ScaleUp(amount, places, n);
    } else {
      ScaleDown(amount, places, n);
    }
  }

  lemma SignedCoefficient(amount: Decimal, q: real)
    requires amount.Finite? && !(amount.negative && amount.coefficient > 0)
    ensures (if amount.negative then -1.0 else 1.0) * (amount.coefficient as real) * q == (amount.coefficient as real) * q
  {
  }

  /** Exactness: an answer n means the amount times ten to the decimals is n, and nothing representable is refused. */
  lemma ScaleExact(amount: Decimal, places: nat, n: nat)
    requires amount.Finite?
    ensures Scale(amount, places) == Ok(n) <==> n <= UINT256_MAX && Denotes(amount) * PowReal(places) == n as real
  {
    hide PowReal, Denotes, Pow, DigitCount;
    ScaledValue(amount, places);
    if amount.negative && amount.coefficient > 0 {
      NegativeIsNegative(amount.coefficient, amount.exponent + places);
    } else {
      hide Scale;
      SignedCoefficient(amount, PowReal(amount.exponent + places));
      ScaleNonNegative(amount, places, n);
    }
  }

  lemma SmallIsNoMultiple(c: nat, p: nat)
    requires 0 < c < p
    ensures c % p == c
  {
  }

  lemma DivisionExact(c: nat, p: nat, n: nat)
    requires p > 0
    ensures c == n * p <==> c % p == 0 && c / p == n
  {
    assert c == (c / p) * p + c % p;
    if c == n * p {
      UniqueQuotient(n, c / p, p, c % p);
    }
  }

  lemma UniqueQuotient(n: nat, q: nat, p: nat, r: nat)
    requires r < p && n * p == q * p + r
    ensures n == q && r == 0
  {
    if n > q {
      assert n * p == q * p + (n - q) * p;
      ScaleBoth(1, n - q, p);
    } else {
      assert q * p == n * p + (q - n) * p;
      if n < q {
        ScaleBoth(1, q - n, p);
      }
    }
  }

  lemma {:induction false} PowRealPositive(e: int)
    ensures PowReal(e) > 0.0
    decreases if e < 0 then -e else e
  {
    if e > 0 {
      PowRealPositive(e - 1);
    } else if e < 0 {
      PowRealPositive(e + 1);
    }
  }

  lemma NegativeIsNegative(c: nat, e: int)
    requires c > 0
    ensures -1.0 * (c as real) * PowReal(e) < 0.0
  {
    PowRealPositive(e);
    assert (c as real) * PowReal(e) > 0.0;
  }

  /** to_atomic answers exactly; only over-long text is refused regardless of its value. */
  lemma ToAtomicExact(human: Human, decimals: nat, n: nat)
    requires decimals <= MAX_DECIMALS
    ensures ToAtomic(human, decimals) == Ok(n)
       <==> && (human.Text? ==> |human.text| <= MAX_TEXT)
            && DecimalOf(human).Some? && DecimalOf(human).value.Finite?
            && n <= UINT256_MAX
            && Denotes(DecimalOf(human).value) * PowReal(decimals) == n as real
  {
    hide Scale, Denotes, PowReal, DecimalOf;
    if DecimalOf(human).Some? && DecimalOf(human).value.Finite? {
      ScaleExact(DecimalOf(human).value, decimals, n);
    }
  }

  // ---------------------------------------------------------------- from_atomic

  function RightJust(s: string, width: nat): string {
    seq(if |s| < width then width - |s| else 0, _ => '0') + s
  }

  function TrimZeros(s: string): (r: string)
    ensures r <= s
  {
    if s != "" && s[|s| - 1] == '0' then TrimZeros(s[..|s| - 1]) else s
  }

  function FromAtomic(atomic: int, decimals: int): Result<string, Failure> {
    if !(0 <= atomic <= UINT256_MAX) then Err(NotUint256)
    else if !(0 <= decimals <= MAX_DECIMALS) then Err(BadDecimals)
    else if decimals == 0 then Ok(Numeral(atomic, 10))
    else
      var digits := RightJust(Numeral(atomic, 10), decimals + 1);
      var whole := digits[..|digits| - decimals];
      var fraction := TrimZeros(digits[|digits| - decimals..]);
      Ok(if fraction == "" then whole else whole + "." + fraction)
  }

  /** The text of a decimal number without sign or exponent. */
  ghost function Plain(whole: string, fraction: string): string {
    if fraction == "" then whole else whole + "." + fraction
  }

  lemma IndexIsFirst(s: string, k: nat, a: char, b: char)
    requires k <= |s| && forall i :: 0 <= i < k ==> s[i] != a && s[i] != b
    requires k < |s| ==> s[k] == a || s[k] == b
    ensures IndexOf(s, a, b) == k
  {
  }

  lemma ParseWhole(whole: string)
    requires whole != "" && AllDigits(whole, 10)
    ensures ParseMagnitude(false, whole) == Some(Finite(false, Value(whole, 10), 0))
  {
    hide IndexOf, Value;
    assert forall i :: 0 <= i < |whole| ==> IsDigit(whole[i], 10);
    IndexIsFirst(whole, |whole|, 'e', 'E');
    IndexIsFirst(whole, |whole|, '.', '.');
    assert whole[..|whole|] == whole && whole + "" == whole;
  }

  lemma PointedScan(whole: string, fraction: string)
    requires AllDigits(whole, 10) && AllDigits(fraction, 10)
    ensures var s := whole + "." + fraction; IndexOf(s, 'e', 'E') == |s| && IndexOf(s, '.', '.') == |whole|
  {
    hide IndexOf;
    var s := whole + "." + fraction;
    assert forall i :: 0 <= i < |s| ==> IsDigit(s[i], 10) || s[i] == '.';
    IndexIsFirst(s, |s|, 'e', 'E');
    IndexIsFirst(s, |whole|, '.', '.');
  }

  /** Parsing text whose exponent mark is absent and whose point is at a known place. */
  lemma ParseAt(s: string, point: nat, whole: string, fraction: string)
    requires IndexOf(s, 'e', 'E') == |s| && IndexOf(s, '.', '.') == point < |s|
    requires s[..point] == whole && s[point + 1..] == fraction && whole + fraction != "" && AllDigits(whole + fraction, 10)
    ensures ParseMagnitude(false, s) == Some(Finite(false, Value(whole + fraction, 10), -|fraction|))
  {
    hide IndexOf, Value, AllDigits;
    assert s[..|s|] == s;
  }

  lemma ParsePointed(whole: string, fraction: string)
    requires whole != "" && AllDigits(whole, 10) && fraction != "" && AllDigits(fraction, 10)
    ensures ParseMagnitude(false, whole + "." + fraction) == Some(Finite(false, Value(whole + fraction, 10), -|fraction|))
  {
    PointedScan(whole, fraction);
    hide IndexOf, Value, IsDigit, ParseMagnitude;
    var s := whole + "." + fraction;
    assert s[..|whole|] == whole && s[|whole| + 1..] == fraction;
    ParseAt(s, |whole|, whole, fraction);
  }

  lemma ParsePlain(whole: string, fraction: string)
    requires whole != "" && AllDigits(whole, 10) && AllDigits(fraction, 10)
    ensures ParseDecimal(Plain(whole, fraction)) == Some(Finite(false, Value(whole + fraction, 10), -|fraction|))
  {
    hide ParseMagnitude, IsNotFiniteText, Value;
    var s := Plain(whole, fraction);
    assert forall i :: 0 <= i < |s| ==> IsDigit(s[i], 10) || s[i] == '.';
    assert IsDigit(s[0], 10);
    PlainIsStripped(s);
    assert !StartsWith(s, "-") && !StartsWith(s, "+");
    NumberIsNotInfinite(s);
    if fraction == "" {
      ParseWhole(whole);
      assert whole + fraction == whole;
    } else {
      ParsePointed(whole, fraction);
    }
  }

  lemma PlainIsStripped(s: string)
    requires s != "" && forall i :: 0 <= i < |s| ==> IsDigit(s[i], 10) || s[i] == '.'
    ensures Without(Strip(s), '_') == s
  {
    assert !IsSpace(s[0]) && !IsSpace(s[|s| - 1]);
    WithoutNothing(s, '_');
  }

  lemma NumberIsNotInfinite(s: string)
    requires s != "" && IsDigit(s[0], 10)
    ensures !IsNotFiniteText(s)
  {
    assert LowerChar(s[0]) == s[0];
  }

  lemma {:induction false} TrimmedValue(digits: string)
    requires AllDigits(digits, 10)
    ensures Value(digits, 10) == Value(TrimZeros(digits), 10) * Pow(10, |digits| - |TrimZeros(digits)|)
  {
    if digits != "" && digits[|digits| - 1] == '0' {
      var init := digits[..|digits| - 1];
      TrimmedValue(init);
      var v, k := Value(TrimZeros(init), 10), |init| - |TrimZeros(init)|;
      assert Value(digits, 10) == 10 * Value(init, 10);
      assert 10 * (v * Pow(10, k)) == v * (10 * Pow(10, k));
    } else {
      assert Pow(10, 0) == 1;
    }
  }

  /** Trimming zeros off the fraction keeps the number: value and exponent shrink together. */
  lemma TrimmedFraction(whole: string, digits: string)
    requires AllDigits(whole, 10) && AllDigits(digits, 10)
    ensures var fraction := TrimZeros(digits);
            Value(whole + digits, 10) == Value(whole + fraction, 10) * Pow(10, |digits| - |fraction|)
  {
    var fraction := TrimZeros(digits);
    var k := |digits| - |fraction|;
    ValueConcat(whole, digits, 10);
    ValueConcat(whole, fraction, 10);
    TrimmedValue(digits);
    PowAdd(10, |fraction|, k);
    assert |digits| == |fraction| + k;
    Regroup(Value(whole, 10), Pow(10, |fraction|), Pow(10, k), Value(fraction, 10));
  }

  lemma Regroup(w: nat, p: nat, q: nat, v: nat)
    ensures w * (p * q) + v * q == (w * p + v) * q
  {
    assert (w * p + v) * q == (w * p) * q + v * q;
    assert (w * p) * q == w * (p * q);
  }

  lemma RightJustValue(s: string, width: nat)
    requires AllDigits(s, 10)
    ensures Value(RightJust(s, width), 10) == Value(s, 10) && AllDigits(RightJust(s, width), 10)
    ensures |RightJust(s, width)| == if |s| < width then width else |s|
  {
    var zeros := seq(if |s| < width then width - |s| else 0, _ => '0');
    ValueConcat(zeros, s, 10);
    ValueZeros(zeros, 10);
  }

  lemma AtomicDigits(n: Uint256)
    ensures DigitCount(n) <= UINT256_DIGITS
  {
    NumeralLength(n, 10);
    if DigitCount(n) > UINT256_DIGITS {
      Uint256Digits();
      PowMonotone(10, UINT256_DIGITS, DigitCount(n) - 1);
    }
  }

  ghost predicate Pieces(n: nat, decimals: nat, whole: string, fraction: string) {
    && whole != "" && AllDigits(whole, 10) && AllDigits(fraction, 10)
    && |fraction| <= decimals && |Plain(whole, fraction)| <= MAX_TEXT
    && n == Value(whole + fraction, 10) * Pow(10, decimals - |fraction|)
  }

  lemma TrimmedDigits(s: string)
    requires AllDigits(s, 10)
    ensures AllDigits(TrimZeros(s), 10) && |TrimZeros(s)| <= |s|
  {
    var t := TrimZeros(s);
    assert forall i :: 0 <= i < |t| ==> t[i] == s[i];
  }

  lemma PointPieces(n: Uint256, decimals: nat, digits: string, whole: string, rest: string)
    requires 0 < decimals <= MAX_DECIMALS && AllDigits(digits, 10) && Value(digits, 10) == n
    requires digits == whole + rest && whole != "" && |rest| == decimals && |digits| <= 256 + UINT256_DIGITS
    ensures Pieces(n, decimals, whole, TrimZeros(rest))
  {
    hide Value, TrimZeros, Pow;
    assert forall i :: 0 <= i < |whole| ==> whole[i] == digits[i];
    assert forall i :: 0 <= i < |rest| ==> rest[i] == digits[|whole| + i];
    TrimmedDigits(rest);
    TrimmedFraction(whole, rest);
  }

  lemma WholePieces(n: Uint256)
    ensures Pieces(n, 0, Numeral(n, 10), "")
  {
    NumeralShape(n, 10);
    AtomicDigits(n);
    hide Numeral;
    assert Numeral(n, 10) + "" == Numeral(n, 10);
    assert Pow(10, 0) == 1;
  }

  /** The pieces from_atomic prints, and the number they spell. */
  lemma PrintedPieces(n: Uint256, decimals: nat) returns (whole: string, fraction: string)
    requires decimals <= MAX_DECIMALS
    ensures FromAtomic(n, decimals) == Ok(Plain(whole, fraction))
    ensures Pieces(n, decimals, whole, fraction)
  {
    hide Pieces, Value, TrimZeros;
    if decimals == 0 {
      whole, fraction := Numeral(n, 10), "";
      WholePieces(n);
    } else {
      var digits := RightJust(Numeral(n, 10), decimals + 1);
      NumeralShape(n, 10);
      AtomicDigits(n);
      RightJustValue(Numeral(n, 10), decimals + 1);
      hide RightJust, Numeral;
      whole := digits[..|digits| - decimals];
      var rest := digits[|digits| - decimals..];
      fraction := TrimZeros(rest);
      PointPieces(n, decimals, digits, whole, rest);
    }
  }

  /** Round trip: reading back what from_atomic prints gives the same atomic amount, for every uint256 and every decimals. */
  lemma AtomicRoundTrip(n: Uint256, decimals: nat)
    requires decimals <= MAX_DECIMALS
    ensures FromAtomic(n, decimals).Ok?
    ensures ToAtomic(Text(FromAtomic(n, decimals).value), decimals) == Ok(n)
  {
    hide FromAtomic, Value, ParseDecimal, Scale, Plain, Pow;
    var whole, fraction := PrintedPieces(n, decimals);
    ParsePlain(whole, fraction);
    ScaleUp(Finite(false, Value(whole + fraction, 10), -|fraction|), decimals, n);
  }

  // ---------------------------------------------------------------- fees

  function NetAfterFee(gross: nat, feeBps: nat): nat
    requires feeBps <= 10_000
  {
    assert gross * feeBps / 10_000 <= gross by {
      assert gross * feeBps <= gross * 10_000;
    }
    gross - gross * feeBps / 10_000
  }

  function Underpayment(received: nat, required: nat): nat {
    if required > received then required - received else 0
  }

  /** A fee leaves the merchant short of the gross price exactly when it rounds to at least one unit. */
  lemma FeeShortfall(gross: nat, feeBps: nat)
    requires feeBps <= 10_000
    ensures Underpayment(NetAfterFee(gross, feeBps), gross) == gross * feeBps / 10_000
    ensures Underpayment(NetAfterFee(gross, feeBps), gross) > 0 <==> gross * feeBps >= 10_000
  {
  }

  /** The shortfall is what is missing to the requirement, and the net amount is the gross less the fee rounded down. */
  lemma ShortfallExactly(received: nat, required: nat, gross: nat, feeBps: nat)
    requires feeBps <= 10_000
    ensures received >= required ==> Underpayment(received, required) == 0
    ensures received < required ==> received + Underpayment(received, required) == required
    ensures NetAfterFee(gross, feeBps) <= gross
    ensures 10_000 * (gross - NetAfterFee(gross, feeBps)) <= gross * feeBps < 10_000 * (gross - NetAfterFee(gross, feeBps) + 1)
  {
  }
}
