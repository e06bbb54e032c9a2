/** The adaptive anomaly threshold (anomaly.py). */
module Anomaly {
  import opened Wrappers
  import opened Models

  datatype Severity = NoSeverity | Medium | High | Critical

  datatype Assessment = Assessment(
    isSuspicious: bool,
    deviationPercent: real,
    thresholdPercent: real,
    severity: Severity)

  /** What the threshold depends on besides the instrument: volatility in percent and success rate. */
  datatype Market = Market(volatility: real, successRate: real)

  function AgeRatio(ageSeconds: int, ttl: int): real
    requires ttl > 0
  {
    MinReal(4.0, Max(0, ageSeconds) as real / ttl as real)
  }

  /** The base threshold plus its allowances for volatility and for the age of the baseline. */
  function Allowed(base: real, volatility: real, ageRatio: real): real {
    base + MinReal(base * 2.0, volatility * 1.5) + MinReal(base, base * ageRatio * 0.20)
  }

  function ReliabilityFactor(successRate: real): real {
    0.65 + 0.35 * MinReal(1.0, MaxReal(0.0, successRate))
  }

  /** The allowance weighted by reliability, between half the base and the ceiling. */
  function Clamped(base: real, ceiling: real, allowed: real, successRate: real): real {
    MinReal(ceiling, MaxReal(base * 0.5, allowed * ReliabilityFactor(successRate)))
  }

  function DynamicThreshold(instrument: Instrument, ageSeconds: int, market: Market): real {
    var base := instrument.baseThreshold;
    var allowed := Allowed(base, market.volatility, AgeRatio(ageSeconds, instrument.windows.ttl));
    Clamped(base, instrument.maximumThreshold, allowed, market.successRate)
  }

  function DeviationPercent(candidate: Price, previous: Price): real {
    Abs(candidate - previous) / previous * 100.0
  }

  function Assess(
    instrument: Instrument, candidate: Price, previous: Price, ageSeconds: int, market: Market): Assessment {
    if !instrument.Accepts(candidate) then
      Assessment(true, 999.0, instrument.baseThreshold, Critical)
    else
      var dynamic := DynamicThreshold(instrument, ageSeconds, market);
      var deviation := DeviationPercent(candidate, previous);
      if deviation <= dynamic then Assessment(false, deviation, dynamic, NoSeverity)
      else if deviation >= dynamic * 3.0 then Assessment(true, deviation, dynamic, Critical)
      else if deviation >= dynamic * 2.0 then Assessment(true, deviation, dynamic, High)
      else Assessment(true, deviation, dynamic, Medium)
  }

  /** Being within `percent` of `reference`, without a division. */
  predicate Within(price: real, reference: real, percent: real) {
    Abs(price - reference) * 100.0 <= percent * reference
  }

  lemma DivisionFree(x: real, reference: real, percent: real)
    requires reference > 0.0
    ensures x / reference * 100.0 <= percent <==> x * 100.0 <= percent * reference
  {
    var ratio := x / reference;
    assert ratio * reference == x;
    if ratio * 100.0 <= percent {
      assert (percent - ratio * 100.0) * reference >= 0.0;
    } else {
      assert (ratio * 100.0 - percent) * reference > 0.0;
    }
  }

  lemma ThresholdIsCapped(instrument: Instrument, ageSeconds: int, market: Market)
    ensures DynamicThreshold(instrument, ageSeconds, market) <= instrument.maximumThreshold
  {
  }

  lemma CloseEnough(candidate: Price, previous: Price, threshold: real, ceiling: real)
    requires DeviationPercent(candidate, previous) <= threshold <= ceiling
    ensures Within(candidate, previous, threshold) && Within(candidate, previous, ceiling)
  {
    DivisionFree(Abs(candidate - previous), previous, threshold);
    assert (ceiling - threshold) * previous >= 0.0;
  }

  /** An unsuspicious candidate is inside the sanity bounds and within the instrument's hard ceiling of the baseline. */
  lemma UnsuspiciousIsClose(instrument: Instrument, candidate: Price, previous: Price, ageSeconds: int, market: Market)
    ensures var a := Assess(instrument, candidate, previous, ageSeconds, market);
            && a.thresholdPercent <= instrument.maximumThreshold
            && (!a.isSuspicious ==>
                  && instrument.Accepts(candidate)
                  && Within(candidate, previous, a.thresholdPercent)
                  && Within(candidate, previous, instrument.maximumThreshold))
  {
    ThresholdIsCapped(instrument, ageSeconds, market);
    var a := Assess(instrument, candidate, previous, ageSeconds, market);
    if !a.isSuspicious {
      CloseEnough(candidate, previous, a.thresholdPercent, instrument.maximumThreshold);
    }
  }

  // ----- what the threshold depends on ------------------------------------------------------------

  /** The released instruments, and every sensible override, have positive thresholds. */
  predicate HasThresholds(instrument: Instrument) {
    0.0 < instrument.baseThreshold <= instrument.maximumThreshold
  }

  lemma ProductBounds(a: real, b: real, c: real)
    requires 0.0 <= a <= b && 0.0 <= c
    ensures a * c <= b * c && 0.0 <= a * c
  {
    assert (b - a) * c >= 0.0;
  }

  lemma StrictProduct(x: real, y: real, factor: real)
    requires x < y && 0.0 < factor
    ensures x * factor < y * factor
  {
    assert (y - x) * factor > 0.0;
  }

  lemma Scaled(x: real, y: real, factor: real)
    requires 0.0 < factor
    ensures x <= y <==> x * factor <= y * factor
    ensures x < y <==> x * factor < y * factor
  {
    if x < y {
      StrictProduct(x, y, factor);
    } else if y < x {
      StrictProduct(y, x, factor);
    }
  }

  /** A quiet market, a baseline of this instant and a source that never fails: the threshold is the base itself. */
  lemma QuietThresholdIsBase(instrument: Instrument, ageSeconds: int, market: Market)
    requires HasThresholds(instrument) && ageSeconds <= 0 && market.volatility == 0.0 && 1.0 <= market.successRate
    ensures DynamicThreshold(instrument, ageSeconds, market) == instrument.baseThreshold
  {
    assert AgeRatio(ageSeconds, instrument.windows.ttl) == 0.0;
    assert Allowed(instrument.baseThreshold, 0.0, 0.0) == instrument.baseThreshold;
    assert ReliabilityFactor(market.successRate) == 1.0;
  }

  /**
   Volatility adds one and a half times its percentage, up to twice the base; each live window of age
   adds a fifth of the base, up to four of them; both together are what the base is multiplied up to.
   */
  lemma AllowanceIsExact(base: real, volatility: real, ageRatio: real)
    requires 0.0 < base && 0.0 <= volatility && 0.0 <= ageRatio <= 4.0
    ensures var extra := Allowed(base, volatility, ageRatio) - base;
            && (3.0 * volatility <= 4.0 * base ==> extra == volatility * 3.0 / 2.0 + base * ageRatio / 5.0)
            && (4.0 * base <= 3.0 * volatility ==> extra == base * 2.0 + base * ageRatio / 5.0)
            && (ageRatio == 4.0 && 4.0 * base <= 3.0 * volatility ==> Allowed(base, volatility, ageRatio) == base * 3.8)
  {
    ProductBounds(ageRatio, 4.0, base);
    assert base * ageRatio * 0.20 == base * ageRatio / 5.0;
  }

  lemma QuotientBounds(n: real, d: real, limit: real)
    requires 0.0 < d && 0.0 <= n
    ensures n / d * d == n && 0.0 <= n / d
    ensures n / d <= limit <==> n <= limit * d
    ensures limit <= n / d <==> limit * d <= n
  {
    var ratio := n / d;
    assert ratio * d == n;
    Scaled(ratio, limit, d);
    Scaled(limit, ratio, d);
    Scaled(0.0, ratio, d);
  }

  /** The age counts in live windows, from none to four. */
  lemma AgeRatioIsExact(ageSeconds: int, ttl: int)
    requires ttl > 0
    ensures ageSeconds <= 0 ==> AgeRatio(ageSeconds, ttl) == 0.0
    ensures 0 <= ageSeconds <= 4 * ttl ==> AgeRatio(ageSeconds, ttl) * ttl as real == ageSeconds as real
    ensures 4 * ttl <= ageSeconds ==> AgeRatio(ageSeconds, ttl) == 4.0
    ensures 0.0 <= AgeRatio(ageSeconds, ttl) <= 4.0
  {
    var n, d := Max(0, ageSeconds) as real, ttl as real;
    QuotientBounds(n, d, 4.0);
    assert 4.0 * d == (4 * ttl) as real;
  }

  /** From 0.65 for a source that always fails to 1 for one that never does, in proportion. */
  lemma ReliabilityIsExact(successRate: real)
    ensures successRate <= 0.0 ==> ReliabilityFactor(successRate) == 0.65
    ensures 1.0 <= successRate ==> ReliabilityFactor(successRate) == 1.0
    ensures 0.0 <= successRate <= 1.0 ==> ReliabilityFactor(successRate) == 1.0 - (1.0 - successRate) * 0.35
    ensures 0.65 <= ReliabilityFactor(successRate) <= 1.0
  {
  }

  /** The threshold never rises above the ceiling, and falls below half the base only if the ceiling does. */
  lemma ThresholdIsBetween(instrument: Instrument, ageSeconds: int, market: Market)
    ensures var threshold := DynamicThreshold(instrument, ageSeconds, market);
            && threshold <= instrument.maximumThreshold
            && (instrument.baseThreshold * 0.5 <= threshold || threshold == instrument.maximumThreshold)
  {
  }

  /** Between these two the threshold is the allowance times the reliability. */
  lemma ThresholdIsAllowance(instrument: Instrument, ageSeconds: int, market: Market)
    ensures var allowed := Allowed(instrument.baseThreshold, market.volatility,
                                   AgeRatio(ageSeconds, instrument.windows.ttl));
            var product := allowed * ReliabilityFactor(market.successRate);
            instrument.baseThreshold * 0.5 <= product <= instrument.maximumThreshold ==>
              DynamicThreshold(instrument, ageSeconds, market) == product
  {
  }

  lemma AllowanceGrows(base: real, volatility: real, moreVolatility: real, ratio: real, moreRatio: real)
    requires 0.0 < base && 0.0 <= volatility <= moreVolatility && 0.0 <= ratio <= moreRatio
    ensures base <= Allowed(base, volatility, ratio) <= Allowed(base, moreVolatility, moreRatio)
  {
    ProductBounds(ratio, moreRatio, base);
    assert base * ratio * 0.20 == (ratio * base) * 0.20 && base * moreRatio * 0.20 == (moreRatio * base) * 0.20;
  }

  lemma AgeRatioGrows(age: int, moreAge: int, ttl: int)
    requires ttl > 0 && age <= moreAge
    ensures 0.0 <= AgeRatio(age, ttl) <= AgeRatio(moreAge, ttl)
  {
    var n, more, d := Max(0, age) as real, Max(0, moreAge) as real, ttl as real;
    QuotientBounds(n, d, more / d);
    QuotientBounds(more, d, more / d);
  }

  lemma ReliableAllowanceGrows(allowed: real, moreAllowed: real, rate: real, moreRate: real)
    requires 0.0 <= allowed <= moreAllowed && rate <= moreRate
    ensures allowed * ReliabilityFactor(rate) <= moreAllowed * ReliabilityFactor(moreRate)
  {
    var factor, moreFactor := ReliabilityFactor(rate), ReliabilityFactor(moreRate);
    ReliabilityIsExact(rate);
    ReliabilityGrows(rate, moreRate);
    ProductGrows(allowed, moreAllowed, factor, moreFactor);
  }

  lemma ClampedGrows(base: real, ceiling: real, allowed: real, moreAllowed: real, rate: real, moreRate: real)
    requires 0.0 <= allowed <= moreAllowed && rate <= moreRate
    ensures Clamped(base, ceiling, allowed, rate) <= Clamped(base, ceiling, moreAllowed, moreRate)
  {
    ReliableAllowanceGrows(allowed, moreAllowed, rate, moreRate);
  }

  /** More volatility, an older baseline and a more reliable source never lower the threshold. */
  lemma ThresholdIsMonotone(instrument: Instrument, age: int, moreAge: int, market: Market, more: Market)
    requires HasThresholds(instrument) && age <= moreAge
    requires 0.0 <= market.volatility <= more.volatility && market.successRate <= more.successRate
    ensures DynamicThreshold(instrument, age, market) <= DynamicThreshold(instrument, moreAge, more)
  {
    var base, ttl := instrument.baseThreshold, instrument.windows.ttl;
    AllowanceOfAgeGrows(base, ttl, age, moreAge, market.volatility, more.volatility);
    ClampedGrows(base, instrument.maximumThreshold, Allowed(base, market.volatility, AgeRatio(age, ttl)),
                 Allowed(base, more.volatility, AgeRatio(moreAge, ttl)), market.successRate, more.successRate);
  }

  lemma AllowanceOfAgeGrows(base: real, ttl: int, age: int, moreAge: int, volatility: real, moreVolatility: real)
    requires 0.0 < base && ttl > 0 && age <= moreAge && 0.0 <= volatility <= moreVolatility
    ensures 0.0 <= Allowed(base, volatility, AgeRatio(age, ttl))
    ensures Allowed(base, volatility, AgeRatio(age, ttl)) <= Allowed(base, moreVolatility, AgeRatio(moreAge, ttl))
  {
    AgeRatioGrows(age, moreAge, ttl);
    AllowanceGrows(base, volatility, moreVolatility, AgeRatio(age, ttl), AgeRatio(moreAge, ttl));
  }

  lemma ProductGrows(a: real, b: real, c: real, d: real)
    requires 0.0 <= a <= b && 0.0 <= c <= d
    ensures a * c <= b * d
  {
    assert (b - a) * c >= 0.0;
    assert b * (d - c) >= 0.0;
  }

  lemma ReliabilityGrows(rate: real, moreRate: real)
    requires rate <= moreRate
    ensures ReliabilityFactor(rate) <= ReliabilityFactor(moreRate)
  {
  }

  // ----- the verdict --------------------------------------------------------------------------------

  /** A candidate is not suspicious exactly when it is inside the sanity bounds and within the threshold. */
  lemma NotSuspiciousExactlyWhen(instrument: Instrument, candidate: Price, previous: Price, age: int, market: Market)
    ensures var threshold := DynamicThreshold(instrument, age, market);
            !Assess(instrument, candidate, previous, age, market).isSuspicious
            <==> && instrument.minimumPrice <= candidate <= instrument.maximumPrice
                 && Within(candidate, previous, threshold)
  {
    CloseExactlyWhen(candidate, previous, DynamicThreshold(instrument, age, market));
  }

  lemma CloseExactlyWhen(candidate: Price, previous: Price, threshold: real)
    ensures DeviationPercent(candidate, previous) <= threshold <==> Within(candidate, previous, threshold)
  {
    DivisionFree(Abs(candidate - previous), previous, threshold);
  }

  /** The candidate moved by at least this many thresholds. */
  predicate MovedAtLeast(candidate: Price, previous: Price, threshold: real, times: real) {
    times * (threshold * previous) <= Abs(candidate - previous) * 100.0
  }

  lemma DeviationIsMove(candidate: Price, previous: Price, threshold: real, times: real)
    ensures threshold * times <= DeviationPercent(candidate, previous)
            <==> MovedAtLeast(candidate, previous, threshold, times)
  {
    var ratio := Abs(candidate - previous) / previous;
    assert ratio * previous == Abs(candidate - previous);
    assert ratio * 100.0 * previous == (ratio * previous) * 100.0;
    Scaled(threshold * times, ratio * 100.0, previous);
    assert threshold * times * previous == times * (threshold * previous);
  }

  function SeverityOf(suspicious: bool, double: bool, triple: bool): Severity {
    if !suspicious then NoSeverity else if triple then Critical else if double then High else Medium
  }

  lemma SeverityByDeviation(instrument: Instrument, candidate: Price, previous: Price, age: int, market: Market)
    requires instrument.Accepts(candidate)
    ensures var a, dynamic := Assess(instrument, candidate, previous, age, market),
            DynamicThreshold(instrument, age, market);
            && a.thresholdPercent == dynamic && a.deviationPercent == DeviationPercent(candidate, previous)
            && a.severity
               == SeverityOf(a.isSuspicious, dynamic * 2.0 <= a.deviationPercent, dynamic * 3.0 <= a.deviationPercent)
  {
  }

  /**
   The severity of a suspicious candidate tells how many thresholds it moved: less than two, less than three,
   or more.
   */
  lemma SeverityExactlyWhen(instrument: Instrument, candidate: Price, previous: Price, age: int, market: Market)
    requires instrument.Accepts(candidate)
    ensures var a, dynamic := Assess(instrument, candidate, previous, age, market),
            DynamicThreshold(instrument, age, market);
            && a.thresholdPercent == dynamic
            && a.severity == SeverityOf(a.isSuspicious, MovedAtLeast(candidate, previous, dynamic, 2.0),
                                        MovedAtLeast(candidate, previous, dynamic, 3.0))
  {
    var dynamic := DynamicThreshold(instrument, age, market);
    SeverityByDeviation(instrument, candidate, previous, age, market);
    DeviationIsMove(candidate, previous, dynamic, 2.0);
    DeviationIsMove(candidate, previous, dynamic, 3.0);
  }

  /** Outside the sanity bounds a candidate is always critical. */
  lemma OutsideIsCritical(instrument: Instrument, candidate: Price, previous: Price, age: int, market: Market)
    requires !(instrument.minimumPrice <= candidate <= instrument.maximumPrice)
    ensures var a := Assess(instrument, candidate, previous, age, market);
            a.isSuspicious && a.severity.Critical? && a.deviationPercent == 999.0
  {
  }
}
