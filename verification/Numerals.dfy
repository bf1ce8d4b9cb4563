/**
 Numerals in base 10 and base 16: the text the source builds with str(), hex() and format(),
 and the values it reads back with int().
 */
module Numerals {
  import opened Common

  // ---------------------------------------------------------------- powers

  function Pow(base: nat, e: nat): nat {
    if e == 0 then 1 else base * Pow(base, e - 1)
  }

  lemma {:induction false} PowAdd(base: nat, a: nat, b: nat)
    ensures Pow(base, a + b) == Pow(base, a) * Pow(base, b)
  {
    if a == 0 {
    } else {
      PowAdd(base, a - 1, b);
      var x, y := Pow(base, a - 1), Pow(base, b);
      assert base * (x * y) == (base * x) * y;
    }
  }

  lemma {:induction false} PowPositive(base: nat, e: nat)
    requires base > 0
    ensures Pow(base, e) > 0
  {
    if e > 0 {
      PowPositive(base, e - 1);
    }
  }

  lemma ScaleBoth(a: nat, b: nat, k: nat)
    requires a <= b
    ensures a * k <= b * k
  {
    assert b * k == a * k + (b - a) * k;
  }

  lemma MulGrows(base: nat, x: nat)
    requires base > 0
    ensures x <= base * x
  {
    assert base * x == (base - 1) * x + x;
  }

  lemma {:induction false} PowMonotone(base: nat, a: nat, b: nat)
    requires base > 0 && a <= b
    ensures Pow(base, a) <= Pow(base, b)
  {
    if a < b {
      PowMonotone(base, a, b - 1);
      MulGrows(base, Pow(base, b - 1));
    }
  }

  lemma PowersOfSixteen()
    ensures Pow(16, 40) == ADDRESS_MAX + 1
    ensures Pow(16, 64) == UINT256_MAX + 1
  {
    PowerOfSixteen8();
    var p := Pow(16, 8);
    assert Pow(16, 16) == 0x1_00000000_00000000 by { PowAdd(16, 8, 8); }
    assert Pow(16, 32) == 0x1_00000000_00000000_00000000_00000000 by { PowAdd(16, 16, 16); }
    assert Pow(16, 40) == ADDRESS_MAX + 1 by { PowAdd(16, 32, 8); }
    assert Pow(16, 64) == UINT256_MAX + 1 by { PowAdd(16, 32, 32); }
  }

  lemma PowerOfSixteen8()
    ensures Pow(16, 8) == 0x1_00000000
  {
    assert Pow(16, 4) == 65536;
    PowAdd(16, 4, 4);
  }

  // ---------------------------------------------------------------- digits

  predicate IsBase(base: nat) { base == 10 || base == 16 }

  predicate IsDigit(c: char, base: nat) {
    '0' <= c <= '9' || (base == 16 && ('a' <= c <= 'f' || 'A' <= c <= 'F'))
  }

  predicate AllDigits(s: string, base: nat) {
    forall i :: 0 <= i < |s| ==> IsDigit(s[i], base)
  }

  function DigitValue(c: char): nat {
    if '0' <= c <= '9' then c as int - '0' as int
    else if 'a' <= c <= 'f' then c as int - 'a' as int + 10
    else if 'A' <= c <= 'F' then c as int - 'A' as int + 10
    else 0
  }

  function Digit(d: nat): (c: char)
    requires d < 16
    ensures DigitValue(c) == d && IsDigit(c, 16) && (d < 10 ==> IsDigit(c, 10))
    ensures LowerChar(c) == c
  {
    if d < 10 then ('0' as int + d) as char else ('a' as int + (d - 10)) as char
  }

  /** Python's str.lower() on ASCII letters. */
  function LowerChar(c: char): char {
    if 'A' <= c <= 'Z' then (c as int + 32) as char else c
  }

  function Lower(s: string): (r: string)
    ensures |r| == |s|
    ensures forall i :: 0 <= i < |s| ==> r[i] == LowerChar(s[i])
  {
    seq(|s|, i requires 0 <= i < |s| => LowerChar(s[i]))
  }

  lemma LowerConcat(a: string, b: string)
    ensures Lower(a + b) == Lower(a) + Lower(b)
  {
  }

  lemma LowerTwice(s: string)
    ensures Lower(Lower(s)) == Lower(s)
  {
  }

  lemma DigitRange(c: char, base: nat)
    requires IsBase(base) && IsDigit(c, base)
    ensures DigitValue(c) < base && Digit(DigitValue(c)) == LowerChar(c)
  {
  }

  // ---------------------------------------------------------------- values

  /** The number a digit string denotes, most significant digit first. */
  function Value(s: string, base: nat): nat {
    if s == "" then 0 else base * Value(s[..|s| - 1], base) + DigitValue(s[|s| - 1])
  }

  lemma ValueSnoc(s: string, c: char, base: nat)
    ensures Value(s + [c], base) == base * Value(s, base) + DigitValue(c)
  {
    assert (s + [c])[..|s|] == s;
  }

  lemma Distribute(base: nat, x: nat, y: nat, z: nat)
    ensures base * (x * y + z) == x * (base * y) + base * z
  {
    assert base * (x * y + z) == base * (x * y) + base * z;
    assert base * (x * y) == x * (base * y);
  }

  lemma {:induction false} ValueConcat(a: string, b: string, base: nat)
    ensures Value(a + b, base) == Value(a, base) * Pow(base, |b|) + Value(b, base)
  {
    if b == "" {
      assert a + b == a;
    } else {
      var b', c := b[..|b| - 1], b[|b| - 1];
      assert a + b == (a + b') + [c];
      assert b == b' + [c];
      ValueSnoc(a + b', c, base);
      ValueSnoc(b', c, base);
      ValueConcat(a, b', base);
      Distribute(base, Value(a, base), Pow(base, |b'|), Value(b', base));
    }
  }

  lemma {:induction false} ValueBound(s: string, base: nat)
    requires IsBase(base) && AllDigits(s, base)
    ensures Value(s, base) < Pow(base, |s|)
  {
    if s != "" {
      var s', c := s[..|s| - 1], s[|s| - 1];
      ValueBound(s', base);
      DigitRange(c, base);
    }
  }

  lemma {:induction false} ValueZeros(s: string, base: nat)
    requires forall i :: 0 <= i < |s| ==> s[i] == '0'
    ensures Value(s, base) == 0
  {
    if s != "" {
      ValueZeros(s[..|s| - 1], base);
    }
  }

  lemma {:induction false} ValueLower(s: string)
    ensures Value(Lower(s), 16) == Value(s, 16)
  {
    if s != "" {
      ValueLower(s[..|s| - 1]);
      assert Lower(s)[..|s| - 1] == Lower(s[..|s| - 1]);
    }
  }

  // ---------------------------------------------------------------- minimal numerals: str(n) and f"{n:x}"

  function Numeral(n: nat, base: nat): string
    requires IsBase(base)
  {
    if n < base then [Digit(n)] else Numeral(n / base, base) + [Digit(n % base)]
  }

  lemma {:induction false} NumeralShape(n: nat, base: nat)
    requires IsBase(base)
    ensures Value(Numeral(n, base), base) == n
    ensures AllDigits(Numeral(n, base), base) && |Numeral(n, base)| > 0
    ensures n > 0 ==> Numeral(n, base)[0] != '0'
    ensures n == 0 ==> Numeral(n, base) == "0"
    ensures Lower(Numeral(n, base)) == Numeral(n, base)
  {
    if n < base {
      assert [Digit(n)][..0] == "";
    } else {
      NumeralShape(n / base, base);
      ValueSnoc(Numeral(n / base, base), Digit(n % base), base);
    }
  }

  lemma NumeralInjective(m: nat, n: nat, base: nat)
    requires IsBase(base) && Numeral(m, base) == Numeral(n, base)
    ensures m == n
  {
    NumeralShape(m, base);
    NumeralShape(n, base);
  }

  /** A k-digit numeral lies between base^(k-1) and base^k. */
  lemma {:induction false} NumeralLength(n: nat, base: nat)
    requires IsBase(base)
    ensures n < Pow(base, |Numeral(n, base)|)
    ensures n > 0 ==> Pow(base, |Numeral(n, base)| - 1) <= n
  {
    if n < base {
      assert Pow(base, 1) == base * Pow(base, 0) == base;
    } else {
      NumeralLength(n / base, base);
      var k := |Numeral(n / base, base)|;
      assert Pow(base, k + 1) == base * Pow(base, k);
      NumeralShape(n / base, base);
      assert Pow(base, k) == base * Pow(base, k - 1);
    }
  }

  // ---------------------------------------------------------------- fixed-width numerals: f"{n:064x}"

  /** The last `width` digits of n, padded with zeros. */
  function Padded(n: nat, base: nat, width: nat): (s: string)
    requires IsBase(base)
    ensures |s| == width
    decreases width
  {
    if width == 0 then "" else Padded(n / base, base, width - 1) + [Digit(n % base)]
  }

  lemma QuotientBound(n: nat, base: nat, p: nat)
    requires IsBase(base) && n < base * p
    ensures n / base < p
  {
  }

  lemma {:induction false} PaddedShape(n: nat, base: nat, width: nat)
    requires IsBase(base)
    ensures AllDigits(Padded(n, base, width), base)
    ensures Lower(Padded(n, base, width)) == Padded(n, base, width)
    decreases width
  {
    if width > 0 {
      PaddedShape(n / base, base, width - 1);
    }
  }

  lemma {:induction false} PaddedValue(n: nat, base: nat, width: nat)
    requires IsBase(base) && n < Pow(base, width)
    ensures Value(Padded(n, base, width), base) == n
    decreases width
  {
    if width > 0 {
      QuotientBound(n, base, Pow(base, width - 1));
      PaddedValue(n / base, base, width - 1);
      ValueSnoc(Padded(n / base, base, width - 1), Digit(n % base), base);
      assert Padded(n, base, width) == Padded(n / base, base, width - 1) + [Digit(n % base)];
    }
  }

  /** Padding is the only spelling of a value in a given width, up to letter case. */
  lemma {:induction false} PaddedOfValue(s: string, base: nat)
    requires IsBase(base) && AllDigits(s, base)
    ensures Padded(Value(s, base), base, |s|) == Lower(s)
  {
    if s != "" {
      var s', c := s[..|s| - 1], s[|s| - 1];
      PaddedOfValue(s', base);
      DigitRange(c, base);
      var v, d := Value(s', base), DigitValue(c);
      assert Value(s, base) == base * v + d;
      assert (base * v + d) / base == v && (base * v + d) % base == d;
      assert Lower(s) == Lower(s') + [LowerChar(c)];
    }
  }

  lemma {:induction false} PaddedZero(base: nat, width: nat)
    requires IsBase(base)
    ensures forall i :: 0 <= i < width ==> Padded(0, base, width)[i] == '0'
    decreases width
  {
    if width > 0 {
      PaddedZero(base, width - 1);
    }
  }

  /** Widening a numeral that already fits only adds leading zeros. */
  lemma {:induction false} PaddedWiden(n: nat, base: nat, zeros: nat, width: nat)
    requires IsBase(base) && n < Pow(base, width)
    ensures Padded(n, base, zeros + width) == Padded(0, base, zeros) + Padded(n, base, width)
    decreases width
  {
    if width == 0 {
      assert Padded(0, base, zeros) + "" == Padded(0, base, zeros);
    } else {
      QuotientBound(n, base, Pow(base, width - 1));
      PaddedWiden(n / base, base, zeros, width - 1);
      assert Padded(0, base, zeros) + (Padded(n / base, base, width - 1) + [Digit(n % base)])
          == (Padded(0, base, zeros) + Padded(n / base, base, width - 1)) + [Digit(n % base)];
    }
  }

  lemma PaddedInjective(m: nat, n: nat, base: nat, width: nat)
    requires IsBase(base) && m < Pow(base, width) && n < Pow(base, width)
    requires Padded(m, base, width) == Padded(n, base, width)
    ensures m == n
  {
    PaddedValue(m, base, width);
    PaddedValue(n, base, width);
  }
}
