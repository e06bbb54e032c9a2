/**
 What `select` guarantees about the evidence behind a published price and about its live window.
 */
module Decisions {
  import opened Wrappers
  import opened Freshness
  import opened Models
  import opened Anomaly
  import opened Consensus
  import opened Canonical

  // ----- the members of a consensus -----------------------------------------------------------

  lemma IndependentOffersAreDistinct(quotes: seq<PricedQuote>)
    requires PairwiseIndependent(quotes)
    ensures Distinct(Offers(quotes))
  {
    forall i, j | 0 <= i < j < |quotes| ensures Offers(quotes)[i] != Offers(quotes)[j] {
      assert Independent(quotes[i], quotes[j]);
    }
  }

  /** Two different offers of independent quotes are independent. */
  lemma DifferentOffersAreIndependent(quotes: seq<PricedQuote>, a: Offer<PricedQuote>, b: Offer<PricedQuote>)
    requires PairwiseIndependent(quotes) && a in Offers(quotes) && b in Offers(quotes) && a != b
    ensures Independent(a.quote, b.quote)
  {
    var i :| 0 <= i < |quotes| && Offers(quotes)[i] == a;
    var j :| 0 <= j < |quotes| && Offers(quotes)[j] == b;
    if i < j {
      assert Independent(quotes[i], quotes[j]);
    } else {
      assert Independent(quotes[j], quotes[i]);
    }
  }

  /** The cluster of independent quotes: sorted, within tolerance, drawn from the quotes, still independent. */
  lemma ClusterMembers(quotes: seq<PricedQuote>, tolerance: real)
    requires PairwiseIndependent(quotes)
    ensures var c := Cluster(Offers(quotes), tolerance);
            && Sorted(c) && Distinct(c)
            && (forall i | 0 <= i < |c| :: c[i] in Offers(quotes))
            && (c == [] || Fits(c, tolerance))
  {
    IndependentOffersAreDistinct(quotes);
    ClusterOfDistinct(Offers(quotes), tolerance);
  }

  lemma MembersOfCluster(quotes: seq<PricedQuote>, tolerance: real)
    requires PairwiseIndependent(quotes)
    ensures var c := Cluster(Offers(quotes), tolerance);
            && Offers(Quotes(c)) == c
            && PairwiseIndependent(Quotes(c))
            && (forall q <- Quotes(c) :: q in quotes)
  {
    ClusterMembers(quotes, tolerance);
    var c := Cluster(Offers(quotes), tolerance);
    forall i | 0 <= i < |c| ensures c[i] == Offer(c[i].quote.price.value, c[i].quote) && c[i].quote in quotes {
      var k :| 0 <= k < |quotes| && Offers(quotes)[k] == c[i];
    }
    forall i, j | 0 <= i < j < |c| ensures Independent(Quotes(c)[i], Quotes(c)[j]) {
      DifferentOffersAreIndependent(quotes, c[i], c[j]);
    }
  }

  // ----- the anomalous primary never carries an odd consensus ---------------------------------

  lemma {:induction false} NobodyConfirms(primary: PricedQuote, verifiers: seq<PricedQuote>, tolerance: real)
    requires Confirming(primary, verifiers, tolerance) == []
    ensures forall v <- verifiers :: DifferencePercent(primary.price.value, v.price.value) > tolerance
  {
    if verifiers != [] {
      var n := |verifiers| - 1;
      NobodyConfirms(primary, verifiers[..n], tolerance);
      assert verifiers == verifiers[..n] + [verifiers[n]];
    }
  }

  /** A higher price is relatively closer to a lower one than the other way round. */
  lemma CloserSeenFromAbove(low: Price, high: Price, tolerance: real)
    requires low <= high && WithinTolerance(high, low, tolerance)
    ensures DifferencePercent(low, high) <= tolerance
  {
    DivisionFree(Abs(high - low), low, tolerance);
    DivisionFree(Abs(low - high), high, tolerance);
    assert tolerance * low >= 0.0;
    assert tolerance * (high - low) >= 0.0;
  }

  /**
   If nobody confirms the primary, an inlier cluster of odd size at least three does not contain it:
   the middle member, or the one just above a primary in the middle, would have confirmed it.
   */
  lemma OddClusterExcludesPrimary(primary: PricedQuote, verifiers: seq<PricedQuote>, tolerance: real)
    requires PairwiseIndependent([primary] + verifiers)
    requires Confirming(primary, verifiers, tolerance) == []
    requires |Cluster(Offers([primary] + verifiers), tolerance)| % 2 == 1
    requires |Cluster(Offers([primary] + verifiers), tolerance)| >= 3
    ensures primary !in Quotes(Cluster(Offers([primary] + verifiers), tolerance))
  {
    var quotes := [primary] + verifiers;
    var c := Cluster(Offers(quotes), tolerance);
    MembersOfCluster(quotes, tolerance);
    ClusterMembers(quotes, tolerance);
    NobodyConfirms(primary, verifiers, tolerance);
    forall i | 0 <= i < |c| ensures Quotes(c)[i] != primary {
      var other := if i == |c| / 2 then i + 1 else |c| / 2;
      NeighbourConfirms(c, i, other, tolerance);
      assert Offers(Quotes(c))[other] == c[other] && Offers(Quotes(c))[i] == c[i] && c[other] != c[i];
      assert Quotes(c)[other] in quotes;
    }
  }

  /** In a sorted odd cluster the middle member confirms every other one, and the one above it confirms the middle. */
  lemma NeighbourConfirms(c: seq<Offer<PricedQuote>>, i: nat, other: nat, tolerance: real)
    requires |c| % 2 == 1 && |c| >= 3 && i < |c| && Sorted(c) && Fits(c, tolerance)
    requires other == if i == |c| / 2 then i + 1 else |c| / 2
    ensures DifferencePercent(c[i].price, c[other].price) <= tolerance
  {
    assert WithinTolerance(c[i].price, Median(c), tolerance) && WithinTolerance(c[other].price, Median(c), tolerance);
    if i == |c| / 2 {
      CloserSeenFromAbove(c[i].price, c[other].price, tolerance);
    }
  }

  /** So when `select` reaches an odd consensus, the candidate that raised the alarm has no part in the price. */
  lemma OddConsensusExcludesPrimary(primary: PricedQuote, assessment: Option<Assessment>, verifiers: seq<PricedQuote>)
    requires PairwiseIndependent([primary] + verifiers)
    requires BasisOf(primary, assessment, verifiers).ConsensusOf?
    requires |BasisOf(primary, assessment, verifiers).members| % 2 == 1
    ensures var members := BasisOf(primary, assessment, verifiers).members;
            && primary !in members
            && (exists v <- verifiers :: v in members && v.price.value == ConsensusPrice(members))
  {
    var tolerance := assessment.value.thresholdPercent;
    var members := BasisOf(primary, assessment, verifiers).members;
    OddClusterExcludesPrimary(primary, verifiers, tolerance);
    MembersOfCluster([primary] + verifiers, tolerance);
    var middle := members[|members| / 2];
    assert middle in members && middle in [primary] + verifiers;
    assert middle in verifiers && middle.price.value == ConsensusPrice(members);
  }

  /**
   An even consensus may contain it: at 5 percent, 100 is not confirmed by 108, yet both lie
   within 5 percent of 104.
   */
  lemma EvenConsensusMayContainPrimary(primary: PricedQuote, near: PricedQuote, far: PricedQuote)
    requires primary.price == Some(100.0) && near.price == Some(108.0) && far.price == Some(200.0)
    ensures Confirming(primary, [near, far], 5.0) == []
    ensures |Cluster(Offers([primary, near, far]), 5.0)| >= Quorum(3)
    ensures primary in Quotes(Cluster(Offers([primary, near, far]), 5.0))
  {
    NearAndFarDoNotConfirm(primary, near, far);
    ClusterOfNearPair(Offers([primary, near, far]));
  }

  lemma NearAndFarDoNotConfirm(primary: PricedQuote, near: PricedQuote, far: PricedQuote)
    requires primary.price == Some(100.0) && near.price == Some(108.0) && far.price == Some(200.0)
    ensures Confirming(primary, [near, far], 5.0) == []
  {
    DivisionFree(Abs(100.0 - 108.0), 108.0, 5.0);
    DivisionFree(Abs(100.0 - 200.0), 200.0, 5.0);
    assert [near, far][..1] == [near] && [near][..0] == [];
    assert Confirming(primary, [near], 5.0) == [];
  }

  // ----- live windows -------------------------------------------------------------------------

  /** The anchor reconstruction of `_from_price` gives back exactly the deadline it was given. */
  lemma AnchorKeepsDeadline(instrument: Instrument, draft: Draft, observedAt: int, now: int, until: int)
    ensures var r := FromPrice(instrument, draft, observedAt, now, Some(until));
            r.Success? ==> r.value.validUntil == until && r.value.price == draft.price
  {
  }

  /** The price that goes with a basis that carries evidence. */
  function PriceOf(primary: PricedQuote, basis: Basis): Price
    requires Evidence(primary, basis) != []
  {
    if basis.ConsensusOf? then ConsensusPrice(basis.members) else primary.price.value
  }

  /** A refusal aside, `select` publishes what `Publish` makes of the basis of the kept verifiers. */
  lemma DecidePublishes(
    instrument: Instrument, primary: ProviderQuote, previous: Option<CanonicalQuote>, assessment: Option<Assessment>,
    quotes: seq<ProviderQuote>, fromFreshCache: bool, now: int)
    requires Decide(instrument, primary, previous, assessment, quotes, fromFreshCache, now).Success?
    ensures primary.price.Some? && primary.persistence.Persisted? && IsFresh(primary, instrument, now)
    ensures var verifiers := ValidVerifiers(quotes, primary, instrument, now);
            Decide(instrument, primary, previous, assessment, quotes, fromFreshCache, now)
            == Publish(instrument, primary, previous, assessment, verifiers, BasisOf(primary, assessment, verifiers),
                       fromFreshCache, now)
  {
  }

  /** The price is valid exactly until the first of its sources stops being live, or as long as the price it keeps. */
  ghost predicate SetsDeadline(
    q: CanonicalQuote, previous: Option<CanonicalQuote>, evidence: seq<ProviderQuote>, instrument: Instrument) {
    if evidence == [] then
      && previous.Some?
      && q.price == previous.value.price && q.observedAt == previous.value.observedAt
      && q.validUntil == previous.value.validUntil
      && q.staleAt == previous.value.staleAt && q.expiresAt == previous.value.expiresAt
    else
      && (forall i | 0 <= i < |evidence| :: LiveUntil(evidence[i], instrument).Success?)
      && q.validUntil == MinOf(Deadlines(evidence, instrument))
  }

  lemma PublishedOnEvidence(
    instrument: Instrument, primary: PricedQuote, previous: Option<CanonicalQuote>, assessment: Option<Assessment>,
    verifiers: seq<PricedQuote>, basis: Basis, fromFreshCache: bool, now: int)
    requires Evidence(primary, basis) != []
    requires Publish(instrument, primary, previous, assessment, verifiers, basis, fromFreshCache, now).Success?
    ensures var published :=
            Publish(instrument, primary, previous, assessment, verifiers, basis, fromFreshCache, now).value.canonical;
            published.price == PriceOf(primary, basis)
              && SetsDeadline(published, previous, Evidence(primary, basis), instrument)
  {
    var (draft, observedAt) := DraftOf(primary, basis, fromFreshCache);
    AnchorKeepsDeadline(instrument, draft, observedAt, now, MinLiveUntil(Evidence(primary, basis), instrument).value);
  }

  lemma PublishedWithout(
    instrument: Instrument, primary: PricedQuote, previous: Option<CanonicalQuote>, assessment: Option<Assessment>,
    verifiers: seq<PricedQuote>, basis: Basis, fromFreshCache: bool, now: int)
    requires Evidence(primary, basis) == []
    requires Publish(instrument, primary, previous, assessment, verifiers, basis, fromFreshCache, now).Success?
    ensures var published :=
            Publish(instrument, primary, previous, assessment, verifiers, basis, fromFreshCache, now).value.canonical;
            SetsDeadline(published, previous, [], instrument)
  {
  }

  /** `select` publishes the price of its basis. */
  lemma DecisionPrice(
    instrument: Instrument, primary: ProviderQuote, previous: Option<CanonicalQuote>, assessment: Option<Assessment>,
    quotes: seq<ProviderQuote>, fromFreshCache: bool, now: int)
    requires Decide(instrument, primary, previous, assessment, quotes, fromFreshCache, now).Success?
    ensures primary.price.Some? && primary.persistence.Persisted? && IsFresh(primary, instrument, now)
    ensures var basis := BasisOf(primary, assessment, ValidVerifiers(quotes, primary, instrument, now));
            var price := Decide(instrument, primary, previous, assessment, quotes, fromFreshCache,
                                now).value.canonical.price;
            if Evidence(primary, basis) != [] then PriceOf(primary, basis) == price
            else previous.Some? && previous.value.price == price
  {
    DecidePublishes(instrument, primary, previous, assessment, quotes, fromFreshCache, now);
    var verifiers := ValidVerifiers(quotes, primary, instrument, now);
    var basis := BasisOf(primary, assessment, verifiers);
    if Evidence(primary, basis) != [] {
      PublishedOnEvidence(instrument, primary, previous, assessment, verifiers, basis, fromFreshCache, now);
    } else {
      PublishedWithout(instrument, primary, previous, assessment, verifiers, basis, fromFreshCache, now);
    }
  }

  /** Every newly decided price is valid exactly until the first of its sources stops being live. */
  lemma DecisionDeadline(
    instrument: Instrument, primary: ProviderQuote, previous: Option<CanonicalQuote>, assessment: Option<Assessment>,
    quotes: seq<ProviderQuote>, fromFreshCache: bool, now: int)
    requires Decide(instrument, primary, previous, assessment, quotes, fromFreshCache, now).Success?
    ensures primary.price.Some?
    ensures var decided :=
            Decide(instrument, primary, previous, assessment, quotes, fromFreshCache, now).value.canonical;
            SetsDeadline(decided, previous,
                         Evidence(primary,
                                  BasisOf(primary, assessment, ValidVerifiers(quotes, primary, instrument, now))),
                                    instrument)
  {
    DecidePublishes(instrument, primary, previous, assessment, quotes, fromFreshCache, now);
    var verifiers := ValidVerifiers(quotes, primary, instrument, now);
    var basis := BasisOf(primary, assessment, verifiers);
    if Evidence(primary, basis) != [] {
      PublishedOnEvidence(instrument, primary, previous, assessment, verifiers, basis, fromFreshCache, now);
    } else {
      PublishedWithout(instrument, primary, previous, assessment, verifiers, basis, fromFreshCache, now);
    }
  }

  /** One republication of a previous price while a candidate is in doubt. */
  datatype Doubt = Doubt(candidate: PricedQuote, status: CanonicalStatus, now: int)

  function KeepRounds(previous: CanonicalQuote, doubts: seq<Doubt>): Result<CanonicalQuote, PricingError> {
    if doubts == [] then Success(previous) else
      var last := doubts[|doubts| - 1];
      var kept :- KeepRounds(previous, doubts[..|doubts| - 1]);
      KeepPrevious(kept, last.candidate, last.status, last.now)
  }

  /** However often the previous price is kept, its price and all of its deadlines stay as they were. */
  lemma {:induction false} KeepingNeverExtends(previous: CanonicalQuote, doubts: seq<Doubt>)
    ensures var r := KeepRounds(previous, doubts);
            r.Success? ==>
              && r.value.price == previous.price
              && r.value.observedAt == previous.observedAt
              && r.value.validUntil == previous.validUntil
              && r.value.staleAt == previous.staleAt
              && r.value.expiresAt == previous.expiresAt
              && r.value.summary.sourceLiveUntil == previous.summary.sourceLiveUntil
              && r.value.summary.freshnessAnchor == previous.summary.freshnessAnchor
  {
    if doubts != [] {
      KeepingNeverExtends(previous, doubts[..|doubts| - 1]);
    }
  }

  /**
   A comment in `_from_price` says that the canonical quote keeps the stale and expiry boundaries of
   the provider quote it comes from.  It does exactly when the anchor can be recovered from the
   live deadline: not for a receive-anchored quote that may not be live for the whole window of the
   instrument, nor for a quote observed after it was received.
   */
  lemma BoundariesSurviveExactlyWhen(instrument: Instrument, q: PricedQuote, draft: Draft, now: int)
    requires LiveUntil(q, instrument).Success? && !q.IsDerived()
    requires FromPrice(instrument, draft, q.observedAt, now, Some(LiveUntil(q, instrument).value)).Success?
    ensures QuoteBoundaries(q, instrument).Success?
    ensures var source, live := QuoteBoundaries(q, instrument).value, LiveUntil(q, instrument).value;
            var c, ttl := FromPrice(instrument, draft, q.observedAt, now, Some(live)).value, instrument.windows.ttl;
            && c.validUntil == live
            && (c.staleAt == source.stale && c.expiresAt == source.expired
                <==> if q.stamp.anchorAtReceive
                     then (q.observedAt == q.receivedAt && live <= q.observedAt + ttl)
                          || (q.observedAt < q.receivedAt && live == q.receivedAt + ttl)
                     else q.observedAt <= q.receivedAt)
  {
  }

  /**
   The comment is wrong, for instance, of a bitcoin price that a registered receive-anchored provider
   (600 seconds live, at most 300 old) delivers 100 seconds after it was observed: with the released
   windows the stale and expiry boundaries come 100 seconds early.
   */
  lemma BoundariesMayMove(instrument: Instrument, q: PricedQuote, draft: Draft)
    requires instrument.windows == Windows(360, 900, 1800) && !q.IsDerived()
    requires q.observedAt == 0 && q.receivedAt == 100 && IsDeliveredBy(q, Provider(600, Some(300), true), instrument)
    ensures QuoteBoundaries(q, instrument).Success? && LiveUntil(q, instrument) == Success(300)
    ensures QuoteBoundaries(q, instrument).value.stale == 1000 && QuoteBoundaries(q, instrument).value.expired == 1900
    ensures var c := FromPrice(instrument, draft, q.observedAt, 100, Some(300));
            c.Success? && c.value.validUntil == 300 && c.value.staleAt == 900 && c.value.expiresAt == 1800
  {
  }
}
