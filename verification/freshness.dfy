/**
 Freshness windows of a provider quote (freshness.py), the two separately written ways of
 building them (providers.py for the collector, canonical.py for the canonical policy), and how
 long Redis keeps a quote (cache.py).  Instants and durations are integers in seconds.
 */
module Freshness {
  import opened Wrappers

  const FUTURE_CLOCK_SKEW_SECONDS := 30

  datatype FreshnessStatus = Live | Stale | Expired

  datatype FreshnessError = InvalidPolicy | FutureSource | SourceTooOld

  /** The windows of an instrument that freshness depends on. */
  datatype Windows = Windows(ttl: int, stale: int, expire: int) {
    predicate Valid() { 0 < ttl <= stale <= expire }
  }

  datatype Policy = Policy(
    maximumSourceAge: int,
    providerLiveTtl: int,
    windows: Windows,
    anchorAtReceive: bool)
  {
    predicate Valid() {
      && 0 < maximumSourceAge
      && 0 < providerLiveTtl
      && windows.Valid()
    }
  }

  datatype Boundaries = Boundaries(retention: int, live: int, stale: int, expired: int) {
    function StatusAt(now: int): FreshnessStatus {
      if now <= live then Live else if now <= expired then Stale else Expired
    }
  }

  function Anchor(source: int, received: int, policy: Policy): Result<int, FreshnessError> {
    if source > received + FUTURE_CLOCK_SKEW_SECONDS then Failure(FutureSource)
    else if !policy.anchorAtReceive then Success(Min(source, received))
    else if received - source > policy.maximumSourceAge then Failure(SourceTooOld)
    else Success(received)
  }

  /** The number of seconds a quote may stay live after its anchor. */
  function LiveSeconds(policy: Policy): int {
    Min(Min(policy.maximumSourceAge, policy.providerLiveTtl), Min(policy.windows.ttl, policy.windows.expire))
  }

  function BoundariesOf(source: int, received: int, policy: Policy): Result<Boundaries, FreshnessError> {
    if !policy.Valid() then Failure(InvalidPolicy) else
      var anchor :- Anchor(source, received, policy);
      Success(Boundaries(
                Max(anchor + policy.windows.expire, received + policy.windows.expire),
                Min(anchor + LiveSeconds(policy), source + policy.maximumSourceAge),
                anchor + policy.windows.stale,
                anchor + policy.windows.expire))
  }

  /**
   A quote is refused for an invalid policy, for a source more than 30 seconds ahead, or for a vetted source
   that is too old.
   */
  lemma AcceptedExactlyWhen(source: int, received: int, policy: Policy)
    ensures BoundariesOf(source, received, policy).Success?
            <==> && policy.Valid() && source <= received + 30
                 && (policy.anchorAtReceive ==> received - source <= policy.maximumSourceAge)
    ensures var b := BoundariesOf(source, received, policy);
            && (b == Failure(InvalidPolicy) <==> !policy.Valid())
            && (b == Failure(FutureSource) <==> policy.Valid() && received + 30 < source)
            && (b == Failure(SourceTooOld)
                <==> policy.Valid() && policy.anchorAtReceive && policy.maximumSourceAge < received - source)
  {
  }

  /**
   The instant at which the windows of a quote begin: its receipt if the source is vetted, else the earlier
   instant.
   */
  function WindowStart(source: int, received: int, policy: Policy): int {
    if policy.anchorAtReceive || received < source then received else source
  }

  /**
   What the boundaries mean at any instant: live while no window has passed since the start and the
   source is not older than its maximum age, stale until the expiry window has passed, retained for a
   whole expiry window after both the receipt and the start.
   */
  lemma StatusExactlyWhen(source: int, received: int, policy: Policy, now: int)
    requires BoundariesOf(source, received, policy).Success?
    ensures var b, age := BoundariesOf(source, received, policy).value, now - WindowStart(source, received, policy);
            && (b.StatusAt(now).Live?
                <==> && age <= policy.maximumSourceAge && age <= policy.providerLiveTtl
                     && age <= policy.windows.ttl && age <= policy.windows.expire
                     && now - source <= policy.maximumSourceAge)
            && (now <= b.stale <==> age <= policy.windows.stale)
            && (b.StatusAt(now).Expired? <==> age > policy.windows.expire && !b.StatusAt(now).Live?)
            && (now <= b.retention <==> age <= policy.windows.expire || now - received <= policy.windows.expire)
  {
  }

  /** A quote goes live, then stale, then expired, and is retained until it is expired. */
  lemma BoundariesAreOrdered(source: int, received: int, policy: Policy)
    ensures var b := BoundariesOf(source, received, policy);
            b.Success? ==>
              && b.value.live <= b.value.stale <= b.value.expired <= b.value.retention
              && b.value.live <= received + policy.windows.ttl
              && (source <= received ==> source < b.value.live)
              && (forall now, later ::
                    now <= later && b.value.StatusAt(now).Expired? ==> b.value.StatusAt(later).Expired?)
              && (forall now, later :: now <= later && b.value.StatusAt(later).Live? ==> b.value.StatusAt(now).Live?)
  {
  }

  /** What the collector knows of a provider; an age of None or 0 is "not declared". */
  datatype Provider = Provider(ttl: int, maximumSourceAge: Option<int>, anchorAtReceive: bool) {
    predicate DeclaresAge() { maximumSourceAge.Some? && maximumSourceAge.value != 0 }
  }

  /** The freshness entries of a quote's metadata; absent and unparsable entries are None. */
  datatype Stamp = Stamp(providerLiveTtl: Option<int>, maximumSourceAge: Option<int>, anchorAtReceive: bool)

  /** What the collector writes into the metadata of a fetched quote. */
  function StampOf(p: Provider, w: Windows): Stamp {
    Stamp(
      Some(p.ttl),
      Some(if p.DeclaresAge() then p.maximumSourceAge.value else Min(p.ttl, Min(w.ttl, w.expire))),
      p.anchorAtReceive)
  }

  /** The boundaries the collector computes from its provider definition. */
  function CollectorBoundaries(
    source: int, received: int, p: Provider, w: Windows): Result<Boundaries, FreshnessError> {
    var age := if p.DeclaresAge() then p.maximumSourceAge.value else p.ttl;
    BoundariesOf(source, received, Policy(Min(age, w.expire), p.ttl, w, p.anchorAtReceive))
  }

  /** The boundaries the canonical policy computes from the metadata of the quote. */
  function StampedBoundaries(source: int, received: int, stamp: Stamp, w: Windows): Result<Boundaries, FreshnessError> {
    var ttl := stamp.providerLiveTtl.GetOr(w.ttl);
    if ttl <= 0 then Failure(InvalidPolicy) else
      var age := stamp.maximumSourceAge.GetOr(Min(ttl, w.ttl));
      if age <= 0 then Failure(InvalidPolicy) else
        BoundariesOf(source, received, Policy(Min(age, w.expire), ttl, w, stamp.anchorAtReceive))
  }

  /**
   What the metadata of a quote is worth: a window that is not declared is the instrument's own, a source age
   that is not declared the shorter of the two, and no age counts beyond the expiry window.
   */
  lemma StampedExactlyWhen(source: int, received: int, stamp: Stamp, w: Windows, now: int)
    requires w.Valid()
    ensures var ttl := if stamp.providerLiveTtl.Some? then stamp.providerLiveTtl.value else w.ttl;
            var maximumAge := if stamp.maximumSourceAge.Some? then stamp.maximumSourceAge.value
                              else if w.ttl < ttl then w.ttl else ttl;
            var age := now - (if stamp.anchorAtReceive || received < source then received else source);
            var b := StampedBoundaries(source, received, stamp, w);
            && (b.Success?
                <==> && 0 < ttl && 0 < maximumAge && source <= received + 30
                     && (stamp.anchorAtReceive ==> received - source <= maximumAge && received - source <= w.expire))
            && (b == Failure(InvalidPolicy) <==> ttl <= 0 || maximumAge <= 0)
            && (b.Success? ==>
                  && (b.value.StatusAt(now).Live?
                      <==> && age <= ttl && age <= w.ttl && now - source <= maximumAge && now - source <= w.expire
                           && age <= maximumAge && age <= w.expire)
                  && (now <= b.value.stale <==> age <= w.stale) && (now <= b.value.expired <==> age <= w.expire))
  {
  }

  /** Both refuse the quote, or both accept it with the same four deadlines. */
  predicate Agree(a: Result<Boundaries, FreshnessError>, b: Result<Boundaries, FreshnessError>) {
    if a.Failure? then b.Failure? else a == b
  }

  /**
   Everything a caller can read off the provider, the windows and the two timestamps that decides
   whether the two computations coincide.  Only a receive-anchored provider without a declared
   source age can make them differ.
   */
  predicate SameWindow(source: int, received: int, p: Provider, w: Windows) {
    || !p.anchorAtReceive
    || p.DeclaresAge()
    || p.ttl <= w.ttl
    || w.ttl == w.expire
    || received <= source
    || Min(p.ttl, w.expire) < received - source
  }

  /** The collector and the canonical policy agree exactly when `SameWindow` holds. */
  lemma CollectorAgreesWithPolicy(source: int, received: int, p: Provider, w: Windows)
    requires w.Valid()
    ensures Agree(CollectorBoundaries(source, received, p, w),
                  StampedBoundaries(source, received, StampOf(p, w), w))
            <==> SameWindow(source, received, p, w)
  {
  }

  /**
   They may differ for a provider that could be registered, though the registered receive-anchored ones
   declare their source age.
   A receive-anchored provider with a live window of 60 seconds and no declared age
   delivers a price 30 seconds old for an instrument with a window of 20: the collector accepts it as
   live, the canonical policy refuses it as too old.
   */
  lemma CollectorMayDisagree()
    ensures var p, w := Provider(60, None, true), Windows(20, 60, 300);
            && CollectorBoundaries(0, 30, p, w).Success? && CollectorBoundaries(0, 30, p, w).value.StatusAt(30).Live?
            && StampedBoundaries(0, 30, StampOf(p, w), w) == Failure(SourceTooOld)
  {
  }

  /** Where they differ, the canonical policy is the stricter one: it never calls live what the collector refuses. */
  lemma PolicyIsNeverLaxer(source: int, received: int, p: Provider, w: Windows, now: int)
    requires w.Valid()
    ensures var policy := StampedBoundaries(source, received, StampOf(p, w), w);
            policy.Success? && policy.value.StatusAt(now).Live? ==>
              var collector := CollectorBoundaries(source, received, p, w);
              collector.Success? && collector.value.StatusAt(now).Live?
  {
  }

  /** The instant at which Redis drops a provider quote that `set_provider_quote` stores at `now`. */
  function RedisDropsAt(
    source: int, received: int, providerTtl: int, catalogue: Windows, now: int): Result<int, FreshnessError> {
    var age := Min(providerTtl, Min(catalogue.ttl, catalogue.expire));
    var b :- BoundariesOf(source, received, Policy(age, providerTtl, catalogue, false));
    Success(now + Max(1, b.retention - now))
  }

  /**
   The cache computes its retention from the built-in catalogue, the collector from the operator's
   windows.  A quote stays in Redis until its logical expiry exactly when the operator has not
   lengthened the expiry window beyond what the receive-time slack (or the one-second floor) covers.
   */
  lemma RetentionCoversExpiry(source: int, received: int, p: Provider, catalogue: Windows, operator: Windows, now: int)
    requires catalogue.Valid() && operator.Valid()
    requires CollectorBoundaries(source, received, p, operator).Success?
    ensures var drops := RedisDropsAt(source, received, p.ttl, catalogue, now);
            var slack := if p.anchorAtReceive then 0 else Max(0, received - source);
            && drops.Success?
            && (CollectorBoundaries(source, received, p, operator).value.expired <= drops.value
                <==> || operator.expire <= catalogue.expire + slack
                     || received - slack + operator.expire <= now + 1)
  {
  }

  /** If the operator doubles an expiry of 300 seconds, Redis drops a quote 300 seconds before it has expired. */
  lemma RetentionMayEndEarly()
    ensures var p, catalogue, operator := Provider(60, None, false), Windows(20, 60, 300), Windows(20, 60, 600);
            && RedisDropsAt(0, 0, p.ttl, catalogue, 0) == Success(300)
            && CollectorBoundaries(0, 0, p, operator).Success?
               && CollectorBoundaries(0, 0, p, operator).value.expired == 600
  {
  }

  /** In particular, with the catalogue's own windows a quote is never dropped before it has expired. */
  lemma CatalogueRetentionNeverEarly(source: int, received: int, p: Provider, w: Windows, now: int)
    requires w.Valid()
    requires CollectorBoundaries(source, received, p, w).Success?
    ensures RedisDropsAt(source, received, p.ttl, w, now).Success?
    ensures CollectorBoundaries(source, received, p, w).value.expired
            <= RedisDropsAt(source, received, p.ttl, w, now).value
  {
    RetentionCoversExpiry(source, received, p, w, w, now);
  }
}
