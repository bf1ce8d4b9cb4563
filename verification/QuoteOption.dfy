/**
 The quote as a free option (src/psv/quote_option.py). Tolerances are exact ratios, as
 Decimal.as_integer_ratio gives them.
 */
module QuoteOption {
  import opened Common
  import opened Numerals

  datatype Tolerance = Tolerance(num: nat, den: nat) {
    ghost predicate Valid() { 0 < den && num <= den }

    /** num/den <= other.num/other.den */
    ghost predicate AtMost(other: Tolerance) { num * other.den <= other.num * den }
  }

  datatype Round = Round(lockedPrice: Uint256, fairValue: Uint256)

  datatype ExploitResult = ExploitResult(rounds: nat, exercised: nat, systemLoss: nat)

  datatype Failure = LossOverflow

  function OptionValue(locked: nat, fair: nat): nat {
    if fair > locked then fair - locked else 0
  }

  predicate QuoteIsStale(locked: nat, fair: nat, tolerance: Tolerance) {
    if locked == 0 then fair > 0
    else fair * tolerance.den > locked * (tolerance.den + tolerance.num)
  }

  /** The rational buyer exercises this round: it is in the money and no guard rejects it. */
  predicate Exercises(round: Round, guard: Option<Tolerance>) {
    && OptionValue(round.lockedPrice, round.fairValue) > 0
    && (guard.Some? ==> !QuoteIsStale(round.lockedPrice, round.fairValue, guard.value))
  }

  function Loss(rounds: seq<Round>, guard: Option<Tolerance>): nat {
    if rounds == [] then 0
    else
      var last := rounds[|rounds| - 1];
      Loss(rounds[..|rounds| - 1], guard)
      + (if Exercises(last, guard) then OptionValue(last.lockedPrice, last.fairValue) else 0)
  }

  function Exercised(rounds: seq<Round>, guard: Option<Tolerance>): nat {
    if rounds == [] then 0
    else Exercised(rounds[..|rounds| - 1], guard) + (if Exercises(rounds[|rounds| - 1], guard) then 1 else 0)
  }

  /** The locked prices of the rounds the buyer exercised. */
  function LockedExercised(rounds: seq<Round>, guard: Option<Tolerance>): nat {
    if rounds == [] then 0
    else
      var last := rounds[|rounds| - 1];
      LockedExercised(rounds[..|rounds| - 1], guard) + (if Exercises(last, guard) then last.lockedPrice else 0)
  }

  lemma {:induction false} LossGrows(rounds: seq<Round>, guard: Option<Tolerance>, n: nat)
    requires n <= |rounds|
    ensures Loss(rounds[..n], guard) <= Loss(rounds, guard)
    decreases |rounds|
  {
    if n < |rounds| {
      assert rounds[..|rounds| - 1][..n] == rounds[..n];
      LossGrows(rounds[..|rounds| - 1], guard, n);
    } else {
      assert rounds[..n] == rounds;
    }
  }

  /** The simulation fails exactly when the total loss leaves uint256, wherever the sum crosses the bound. */
  method SimulateAttacker(rounds: seq<Round>, tolerance: Tolerance, reprice: bool) returns (r: Result<ExploitResult, Failure>)
    ensures var guard := if reprice then Some(tolerance) else None;
            r == if Loss(rounds, guard) > UINT256_MAX then Err(LossOverflow)
                 else Ok(ExploitResult(|rounds|, Exercised(rounds, guard), Loss(rounds, guard)))
  {
    ghost var guard := if reprice then Some(tolerance) else None;
    var exercised, loss := 0, 0;
    for i := 0 to |rounds|
      invariant exercised == Exercised(rounds[..i], guard) && loss == Loss(rounds[..i], guard) <= UINT256_MAX
    {
      assert rounds[..i + 1][..i] == rounds[..i];
      var gain := OptionValue(rounds[i].lockedPrice, rounds[i].fairValue);
      if gain <= 0 {
        continue;
      }
      if reprice && QuoteIsStale(rounds[i].lockedPrice, rounds[i].fairValue, tolerance) {
        continue;
      }
      exercised := exercised + 1;
      loss := loss + gain;
      if loss > UINT256_MAX {
        LossGrows(rounds, guard, i + 1);
        return Err(LossOverflow);
      }
    }
    assert rounds[..|rounds|] == rounds;
    return Ok(ExploitResult(|rounds|, exercised, loss));
  }

  // ---------------------------------------------------------------- what repricing buys

  /** One exercised round under the guard loses at most the tolerated share of its locked price. */
  lemma RoundLossBound(round: Round, tolerance: Tolerance)
    requires tolerance.Valid() && Exercises(round, Some(tolerance))
    ensures OptionValue(round.lockedPrice, round.fairValue) * tolerance.den <= tolerance.num * round.lockedPrice
  {
    var l, f := round.lockedPrice, round.fairValue;
    assert f * tolerance.den <= l * (tolerance.den + tolerance.num);
    assert l * (tolerance.den + tolerance.num) == l * tolerance.den + l * tolerance.num;
    assert (f - l) * tolerance.den == f * tolerance.den - l * tolerance.den;
  }

  /** The guarded loss is at most the tolerance applied to the locked prices actually exercised. */
  lemma {:induction false} GuardedLossBound(rounds: seq<Round>, tolerance: Tolerance)
    requires tolerance.Valid()
    ensures Loss(rounds, Some(tolerance)) * tolerance.den <= tolerance.num * LockedExercised(rounds, Some(tolerance))
  {
    hide Exercises, OptionValue;
    if rounds != [] {
      var init, last := rounds[..|rounds| - 1], rounds[|rounds| - 1];
      GuardedLossBound(init, tolerance);
      if Exercises(last, Some(tolerance)) {
        RoundLossBound(last, tolerance);
        BoundsAdd(Loss(init, Some(tolerance)), OptionValue(last.lockedPrice, last.fairValue), tolerance.den,
                  LockedExercised(init, Some(tolerance)), last.lockedPrice, tolerance.num);
      }
    }
  }

  lemma BoundsAdd(a: nat, b: nat, d: nat, p: nat, q: nat, n: nat)
    requires a * d <= n * p && b * d <= n * q
    ensures (a + b) * d <= n * (p + q)
  {
    assert (a + b) * d == a * d + b * d;
    assert n * (p + q) == n * p + n * q;
  }

  /** At tolerance zero nothing in the money is exercised. */
  lemma ZeroToleranceLosesNothing(rounds: seq<Round>, tolerance: Tolerance)
    requires tolerance.Valid() && tolerance.num == 0
    ensures Loss(rounds, Some(tolerance)) == 0
  {
    GuardedLossBound(rounds, tolerance);
    if Loss(rounds, Some(tolerance)) > 0 {
      ScaleBoth(1, Loss(rounds, Some(tolerance)), tolerance.den);
    }
  }

  /** A round that passes a tighter guard passes a looser one. */
  lemma StalenessMonotone(locked: nat, fair: nat, tight: Tolerance, loose: Tolerance)
    requires tight.Valid() && loose.Valid() && tight.AtMost(loose)
    requires QuoteIsStale(locked, fair, loose)
    ensures QuoteIsStale(locked, fair, tight)
  {
    if locked > 0 && !QuoteIsStale(locked, fair, tight) {
      CrossMultiply(fair, locked, tight.num, tight.den, loose.num, loose.den);
    }
  }

  lemma CrossMultiply(f: nat, l: nat, n: nat, d: nat, m: nat, e: nat)
    requires d > 0 && f * d <= l * (d + n) && n * e <= m * d
    ensures f * e <= l * (e + m)
  {
    calc <= {
      (f * e) * d;
      { Exchange(f, e, d); }
      (f * d) * e;
      { ScaleBoth(f * d, l * (d + n), e); }
      (l * (d + n)) * e;
      { Expand(l, d, n, e); }
      l * (d * e) + l * (n * e);
      { ScaleBoth(n * e, m * d, l); Exchange(1, n * e, l); Exchange(1, m * d, l); }
      l * (d * e) + l * (m * d);
      { Expand(l, e, m, d); Exchange(1, d, e); }
      (l * (e + m)) * d;
    }
    CancelRight(f * e, l * (e + m), d);
  }

  lemma Exchange(a: nat, b: nat, c: nat)
    ensures (a * b) * c == (a * c) * b
  {
  }

  lemma Expand(l: nat, d: nat, n: nat, e: nat)
    ensures (l * (d + n)) * e == l * (d * e) + l * (n * e)
  {
    assert (d + n) * e == d * e + n * e;
    assert (l * (d + n)) * e == l * ((d + n) * e);
    assert l * (d * e + n * e) == l * (d * e) + l * (n * e);
  }

  lemma CancelRight(a: nat, b: nat, k: nat)
    requires k > 0 && a * k <= b * k
    ensures a <= b
  {
    if a > b {
      assert (b + 1) * k == b * k + k;
      ScaleBoth(b + 1, a, k);
    }
  }

  /** The guarded loss grows with the tolerance and never exceeds the unguarded loss. */
  lemma {:induction false} LossMonotone(rounds: seq<Round>, tight: Tolerance, loose: Tolerance)
    requires tight.Valid() && loose.Valid() && tight.AtMost(loose)
    ensures Loss(rounds, Some(tight)) <= Loss(rounds, Some(loose)) <= Loss(rounds, None)
  {
    if rounds != [] {
      LossMonotone(rounds[..|rounds| - 1], tight, loose);
      var last := rounds[|rounds| - 1];
      if QuoteIsStale(last.lockedPrice, last.fairValue, loose) {
        StalenessMonotone(last.lockedPrice, last.fairValue, tight, loose);
      }
    }
  }

  ghost function PositiveGains(rounds: seq<Round>): int {
    if rounds == [] then 0
    else PositiveGains(rounds[1..]) + (var gain := rounds[0].fairValue - rounds[0].lockedPrice; if gain > 0 then gain else 0)
  }

  /** Without a guard the system loses exactly the sum of the buyer's positive gains. */
  lemma {:induction false} UnguardedLossIsOptionValue(rounds: seq<Round>)
    ensures Loss(rounds, None) == PositiveGains(rounds)
    decreases |rounds|
  {
    if |rounds| == 1 {
      assert rounds[..0] == [] && rounds[1..] == [];
    } else if |rounds| > 1 {
      var n := |rounds| - 1;
      var inner := rounds[1..n];
      UnguardedLossIsOptionValue(rounds[..n]);
      UnguardedLossIsOptionValue(rounds[1..]);
      UnguardedLossIsOptionValue(inner);
      assert rounds[..n][1..] == inner && rounds[1..][..n - 1] == inner;
    }
  }

  // ---------------------------------------------------------------- the guard, in plain terms

  /** The quote is out of tolerance: the fair price exceeds the locked one by more than the tolerated share. */
  ghost predicate OutOfTolerance(locked: nat, fair: nat, tolerance: Tolerance)
    requires tolerance.den > 0
  {
    fair as real > (locked as real) * (1.0 + (tolerance.num as real) / (tolerance.den as real))
  }

  lemma StaleMeans(locked: nat, fair: nat, tolerance: Tolerance)
    requires tolerance.den > 0
    ensures QuoteIsStale(locked, fair, tolerance) <==> OutOfTolerance(locked, fair, tolerance)
  {
    var l, f, n, d := locked as real, fair as real, tolerance.num as real, tolerance.den as real;
    var bound := l * (1.0 + n / d);
    assert bound * d == l * (d + n) by {
      assert (1.0 + n / d) * d == d + n;
      assert l * (1.0 + n / d) * d == l * ((1.0 + n / d) * d);
    }
    Scaled(f, bound, d);
    assert (locked * (tolerance.den + tolerance.num)) as real == l * (d + n);
    assert (fair * tolerance.den) as real == f * d;
    if locked == 0 {
      assert fair * tolerance.den > 0 <==> fair > 0;
    }
  }

  lemma Scaled(x: real, y: real, d: real)
    requires d > 0.0
    ensures x > y <==> x * d > y * d
  {
    if x > y {
      assert (x - y) * d > 0.0;
    } else {
      assert (y - x) * d >= 0.0;
    }
  }

  /** The buyer's gain on one round: what the price rose, unless the guard finds it risen too far. */
  ghost function GainOf(round: Round, guard: Option<Tolerance>): nat
    requires guard.Some? ==> guard.value.den > 0
  {
    if round.fairValue <= round.lockedPrice then 0
    else if guard.Some? && OutOfTolerance(round.lockedPrice, round.fairValue, guard.value) then 0
    else round.fairValue - round.lockedPrice
  }

  ghost function GainsOf(rounds: seq<Round>, guard: Option<Tolerance>): nat
    requires guard.Some? ==> guard.value.den > 0
  {
    if rounds == [] then 0 else GainsOf(rounds[..|rounds| - 1], guard) + GainOf(rounds[|rounds| - 1], guard)
  }

  ghost function Wins(rounds: seq<Round>, guard: Option<Tolerance>): nat
    requires guard.Some? ==> guard.value.den > 0
  {
    if rounds == [] then 0 else Wins(rounds[..|rounds| - 1], guard) + (if GainOf(rounds[|rounds| - 1], guard) > 0 then 1 else 0)
  }

  /** With or without a guard, the loss is exactly the sum of those gains, and the exercised rounds those with one. */
  lemma {:induction false} LossExactly(rounds: seq<Round>, guard: Option<Tolerance>)
    requires guard.Some? ==> guard.value.den > 0
    ensures Loss(rounds, guard) == GainsOf(rounds, guard) && Exercised(rounds, guard) == Wins(rounds, guard)
  {
    if rounds != [] {
      var last := rounds[|rounds| - 1];
      LossExactly(rounds[..|rounds| - 1], guard);
      if guard.Some? {
        StaleMeans(last.lockedPrice, last.fairValue, guard.value);
      }
      hide OutOfTolerance, QuoteIsStale;
    }
  }
}
