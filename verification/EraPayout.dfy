/** The inflation paid out per era, in the runtime's 18-decimal fixed-point arithmetic. */
module EraPayout {
  import opened Arithmetic
  import opened Common

  /** 365.25 days: 1000 * 3600 * 24 * 36525 / 100. */
  const MILLISECONDS_PER_YEAR: nat := 31_557_600_000
  const DIV: nat := 1_000_000_000_000_000_000
  const U128_MAX: nat := 0xFFFF_FFFF_FFFF_FFFF_FFFF_FFFF_FFFF_FFFF

  /** The rounding modes of the fixed-point library; the results below hold for each of them. */
  datatype Rounding = Up | Down | NearestPrefUp | NearestPrefDown

  predicate RoundsUp(rem: nat, d: nat, mode: Rounding) {
    match mode
    case Up => rem > 0
    case Down => false
    case NearestPrefUp => 2 * rem >= d
    case NearestPrefDown => 2 * rem > d
  }

  function Divide(n: nat, d: nat, mode: Rounding): nat
    requires d > 0
  {
    if RoundsUp(n % d, d, mode) then n / d + 1 else n / d
  }

  /** The fixed-point number nearest to a / b: an integer count of 10^-18. */
  function FromRational(a: nat, b: nat, mode: Rounding): nat
    requires b > 0
  {
    Divide(DIV * a, b, mode)
  }

  function SaturatingMulInt(fixed: nat, n: nat): nat {
    var v := fixed * n / DIV;
    if v <= U128_MAX then v else U128_MAX
  }

  /** Validator payout and remainder of an era; total issuance plays no part. */
  function Payout(totalStaked: nat, eraMillis: nat, mode: Rounding): (nat, nat) {
    var relativeEraLen := FromRational(eraMillis, MILLISECONDS_PER_YEAR, mode);
    var baseRate := FromRational(79, 1000, mode);
    var yearly := SaturatingMulInt(baseRate, totalStaked);
    (SaturatingMulInt(relativeEraLen, yearly), 0)
  }

  /** 7.9% of the stake, rounded down. */
  function Yearly(totalStaked: nat): nat {
    79 * totalStaked / 1000
  }

  lemma {:induction false} YearlyIsExact(totalStaked: nat, mode: Rounding)
    requires totalStaked <= U128_MAX
    ensures SaturatingMulInt(FromRational(79, 1000, mode), totalStaked) == Yearly(totalStaked)
  {
    assert FromRational(79, 1000, mode) == 79_000_000_000_000_000;
    DivBounds(79 * totalStaked, 1000);
    DivIs(79_000_000_000_000_000 * totalStaked, DIV, Yearly(totalStaked));
  }

  /** Rounding moves a quotient by less than one unit, and keeps order. */
  lemma {:induction false} DivideError(n: nat, d: nat, mode: Rounding)
    requires d > 0
    ensures n - d < d * Divide(n, d, mode) < n + d
  {
    DivBounds(n, d);
    var q := n / d;
    assert n == d * q + n % d;
    assert d * (q + 1) == d * q + d;
  }

  lemma {:induction false} DivideMonotone(n: nat, n': nat, d: nat, mode: Rounding)
    requires d > 0 && n <= n'
    ensures Divide(n, d, mode) <= Divide(n', d, mode)
  {
    DivMonotone(n, n', d);
    if n / d == n' / d {
      assert n == d * (n / d) + n % d && n' == d * (n' / d) + n' % d;
    }
  }

  /** A longer era or a larger stake never pays less. */
  lemma {:induction false} PayoutMonotone(stake: nat, stake': nat, millis: nat, millis': nat, mode: Rounding)
    requires stake <= stake' <= U128_MAX && millis <= millis'
    ensures Payout(stake, millis, mode).0 <= Payout(stake', millis', mode).0
  {
    YearlyIsExact(stake, mode);
    YearlyIsExact(stake', mode);
    DivMonotone(79 * stake, 79 * stake', 1000);
    DivideMonotone(DIV * millis, DIV * millis', MILLISECONDS_PER_YEAR, mode);
    var f, f' := FromRational(millis, MILLISECONDS_PER_YEAR, mode), FromRational(millis', MILLISECONDS_PER_YEAR, mode);
    MulMonotone(f, Yearly(stake), Yearly(stake'));
    MulMonotone(Yearly(stake'), f, f');
    DivMonotone(f * Yearly(stake), f' * Yearly(stake'), DIV);
  }

  lemma {:induction false} NoSaturation(f: nat, y: nat)
    requires f <= DIV && y <= U128_MAX
    ensures SaturatingMulInt(f, y) == f * y / DIV
  {
    MulMonotone(y, f, DIV);
    DivMonotone(f * y, DIV * y, DIV);
    DivIs(DIV * y, DIV, y);
  }

  /** The era's share of a year as the code rounds it. */
  function Share(eraMillis: nat, mode: Rounding): nat {
    FromRational(eraMillis, MILLISECONDS_PER_YEAR, mode)
  }

  lemma {:induction false} ShareError(millis: nat, mode: Rounding)
    ensures var year := MILLISECONDS_PER_YEAR;
            DIV * millis - year <= year * Share(millis, mode) <= DIV * millis + year
    ensures millis <= MILLISECONDS_PER_YEAR ==> Share(millis, mode) <= DIV
    ensures millis <= U64_MAX ==> Share(millis, mode) <= U128_MAX
  {
    DivideError(DIV * millis, MILLISECONDS_PER_YEAR, mode);
    if millis <= MILLISECONDS_PER_YEAR {
      DivideMonotone(DIV * millis, DIV * MILLISECONDS_PER_YEAR, MILLISECONDS_PER_YEAR, mode);
    }
  }

  /** What each rounding mode does: below, above, or nearest with the tie going up or down. */
  lemma {:induction false} DivideIs(n: nat, d: nat, mode: Rounding)
    requires d > 0
    ensures var q := Divide(n, d, mode);
            match mode
            case Down => d * q <= n < d * q + d
            case Up => d * q - d < n <= d * q
            case NearestPrefUp => 2 * d * q - d <= 2 * n < 2 * d * q + d
            case NearestPrefDown => 2 * d * q - d < 2 * n <= 2 * d * q + d
  {
    DivBounds(n, d);
    var q := n / d;
    assert n == d * q + n % d;
    assert d * (q + 1) == d * q + d;
    assert 2 * d * q == 2 * (d * q) && 2 * d * (q + 1) == 2 * (d * q) + 2 * d;
  }

  /** A year is 365.25 days, and nothing is left over for the treasury. */
  lemma {:induction false} NothingLeftOver(stake: nat, millis: nat, mode: Rounding)
    ensures Payout(stake, millis, mode).1 == 0 && 100 * MILLISECONDS_PER_YEAR == 36525 * 24 * 3600 * 1000
  {
  }

  /** One payout is the rounded share of the yearly emission, short by less than one unit unless it is the largest
      128-bit number. */
  lemma {:induction false} PayoutShare(stake: nat, millis: nat, mode: Rounding)
    requires stake <= U128_MAX
    ensures var p, exact := Payout(stake, millis, mode).0, Yearly(stake) * Share(millis, mode);
            && DIV * p <= exact && p <= U128_MAX
            && (p < U128_MAX || millis <= MILLISECONDS_PER_YEAR ==> exact < DIV * (p + 1))
  {
    YearlyIsExact(stake, mode);
    var f, y := Share(millis, mode), Yearly(stake);
    assert f * y == y * f;
    DivBounds(f * y, DIV);
    ShareError(millis, mode);
    if millis <= MILLISECONDS_PER_YEAR {
      NoSaturation(f, y);
    }
  }

  function Sum(lengths: seq<nat>): nat {
    if lengths == [] then 0 else lengths[0] + Sum(lengths[1..])
  }

  function SumShares(lengths: seq<nat>, mode: Rounding): nat {
    if lengths == [] then 0 else Share(lengths[0], mode) + SumShares(lengths[1..], mode)
  }

  function TotalPayout(stake: nat, lengths: seq<nat>, mode: Rounding): nat {
    if lengths == [] then 0 else Payout(stake, lengths[0], mode).0 + TotalPayout(stake, lengths[1..], mode)
  }

  lemma {:induction false} SharesError(lengths: seq<nat>, mode: Rounding)
    ensures var year, f, n := MILLISECONDS_PER_YEAR, SumShares(lengths, mode), |lengths|;
            DIV * Sum(lengths) - year * n <= year * f <= DIV * Sum(lengths) + year * n
  {
    if lengths != [] {
      ShareError(lengths[0], mode);
      SharesError(lengths[1..], mode);
      AddScaled(MILLISECONDS_PER_YEAR, Share(lengths[0], mode), SumShares(lengths[1..], mode));
      AddScaled(DIV, lengths[0], Sum(lengths[1..]));
      AddScaled(MILLISECONDS_PER_YEAR, 1, |lengths| - 1);
    }
  }

  lemma {:induction false} AddScaled(k: nat, a: nat, b: nat)
    ensures k * (a + b) == k * a + k * b
  {
  }

  /** A product with the length of a year is compared by its other factor. */
  lemma {:induction false} CancelYear(a: int, b: int)
    requires MILLISECONDS_PER_YEAR * a <= MILLISECONDS_PER_YEAR * b
    ensures a <= b
  {
    if b + 1 <= a {
      MulMonotone(MILLISECONDS_PER_YEAR, b + 1, a);
    }
  }

  lemma {:induction false} TotalShare(stake: nat, lengths: seq<nat>, mode: Rounding)
    requires stake <= U128_MAX
    ensures var p, exact := TotalPayout(stake, lengths, mode), Yearly(stake) * SumShares(lengths, mode);
            && DIV * p <= exact
            && (Sum(lengths) <= MILLISECONDS_PER_YEAR ==> exact <= DIV * (p + |lengths|))
  {
    if lengths != [] {
      PayoutShare(stake, lengths[0], mode);
      TotalShare(stake, lengths[1..], mode);
      AddScaled(Yearly(stake), Share(lengths[0], mode), SumShares(lengths[1..], mode));
      AddScaled(DIV, Payout(stake, lengths[0], mode).0 + 1, TotalPayout(stake, lengths[1..], mode) + |lengths[1..]|);
    }
  }

  /** n eras that fit in a year pay at most y + n * y / 10^18, where y is 7.9% of the stake. */
  lemma {:induction false} YearPaysAtMost(stake: nat, lengths: seq<nat>, mode: Rounding)
    requires stake <= U128_MAX && Sum(lengths) <= MILLISECONDS_PER_YEAR
    ensures DIV * TotalPayout(stake, lengths, mode) <= Yearly(stake) * (DIV + |lengths|)
  {
    SharesError(lengths, mode);
    TotalShare(stake, lengths, mode);
    assert DIV * Sum(lengths) <= DIV * MILLISECONDS_PER_YEAR;
    AddScaled(MILLISECONDS_PER_YEAR, DIV, |lengths|);
    CancelYear(SumShares(lengths, mode), DIV + |lengths|);
    MulMonotone(Yearly(stake), SumShares(lengths, mode), DIV + |lengths|);
  }

  /** n eras that make up exactly a year pay at least y - n * y / 10^18 - n. */
  lemma {:induction false} YearPaysAtLeast(stake: nat, lengths: seq<nat>, mode: Rounding)
    requires stake <= U128_MAX && Sum(lengths) == MILLISECONDS_PER_YEAR
    ensures Yearly(stake) * (DIV - |lengths|) <= DIV * (TotalPayout(stake, lengths, mode) + |lengths|)
  {
    SharesError(lengths, mode);
    TotalShare(stake, lengths, mode);
    AddScaled(MILLISECONDS_PER_YEAR, SumShares(lengths, mode), |lengths|);
    CancelYear(DIV, SumShares(lengths, mode) + |lengths|);
    MulMonotone(Yearly(stake), DIV - |lengths|, SumShares(lengths, mode));
  }
}
