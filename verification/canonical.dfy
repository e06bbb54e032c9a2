/**
 Which quote becomes the published price, for how long and on what evidence (canonical.py).
 */
module Canonical {
  import opened Wrappers
  import opened Freshness
  import opened Models
  import opened Anomaly
  import opened Consensus

  // ----- freshness of quotes ------------------------------------------------------------------

  function QuoteBoundaries(q: ProviderQuote, instrument: Instrument): Result<Boundaries, FreshnessError> {
    StampedBoundaries(q.observedAt, q.receivedAt, q.stamp, instrument.windows)
  }

  /** A quote as the collector hands it out: it carries the provider's stamp and the collector's own live bound. */
  predicate IsDeliveredBy(q: ProviderQuote, p: Provider, instrument: Instrument) {
    && q.stamp == StampOf(p, instrument.windows)
    && var b := CollectorBoundaries(q.observedAt, q.receivedAt, p, instrument.windows);
    && b.Success? && q.effectiveLiveUntil == Some(b.value.live)
  }

  predicate IsFresh(q: ProviderQuote, instrument: Instrument, now: int) {
    var b := QuoteBoundaries(q, instrument);
    b.Success? && b.value.StatusAt(now).Live?
  }

  /** `_quote_live_eligible_until`: until when a quote may back a live price. */
  function LiveUntil(q: ProviderQuote, instrument: Instrument): Result<int, PricingError> {
    if q.IsDerived() && q.inputLiveUntil.Some? then Success(q.inputLiveUntil.value) else
      var b := QuoteBoundaries(q, instrument);
      if b.Failure? then Failure(NotFresh) else
        Success(if q.effectiveLiveUntil.Some? then Min(b.value.live, q.effectiveLiveUntil.value) else b.value.live)
  }

  /** The live deadlines of quotes that all have one. */
  function Deadlines(quotes: seq<ProviderQuote>, instrument: Instrument): (d: seq<int>)
    requires forall i | 0 <= i < |quotes| :: LiveUntil(quotes[i], instrument).Success?
    ensures |d| == |quotes|
  {
    seq(|quotes|, i requires 0 <= i < |quotes| => LiveUntil(quotes[i], instrument).value)
  }

  // ----- building canonical quotes ------------------------------------------------------------

  /** What a decision contributes to a new canonical quote besides its instants. */
  datatype Draft = Draft(
    price: Price,
    status: CanonicalStatus,
    primaryQuoteId: Option<int>,
    verificationQuoteIds: seq<int>,
    verification: VerificationStatus,
    reason: string,
    summary: SourceSummary,
    candidatePrice: Option<Price>,
    candidateProviderId: Option<string>)

  /** `_from_price`: rebuild the freshness anchor from the live deadline of the sources. */
  function FromPrice(
    instrument: Instrument, draft: Draft, observedAt: int, now: int, liveUntil: Option<int>):
    Result<CanonicalQuote, PricingError> {
    var w := instrument.windows;
    var anchor := if liveUntil.Some? then Max(observedAt, liveUntil.value - w.ttl) else observedAt;
    var validUntil := if liveUntil.Some? then Min(anchor + w.ttl, liveUntil.value) else anchor + w.ttl;
    Checked(CanonicalQuote(
              instrument.id, draft.price, draft.status, draft.primaryQuoteId, draft.verificationQuoteIds,
              draft.summary.(freshnessAnchor := Some(anchor), sourceLiveUntil := liveUntil),
              observedAt, now, validUntil, anchor + w.stale, anchor + w.expire, false,
              draft.reason, draft.verification, draft.candidatePrice, draft.candidateProviderId,
              CanonicalKey(instrument.id, now, draft.price, draft.status)))
  }

  /** `keep_previous`: republish the previous price while a candidate is in doubt. */
  function KeepPrevious(
    previous: CanonicalQuote, candidate: PricedQuote, status: CanonicalStatus, now: int):
    Result<CanonicalQuote, PricingError> {
    Checked(previous.(
            status := status,
            verificationQuoteIds := [],
            summary := previous.summary.(
            progress := if status.Verifying? then ProgressPending else ProgressInsufficient),
            canonicalAt := now,
            isPersisted := false,
            reason := "suspicious_candidate_not_activated",
            verification := if status.Verifying? then Pending else Insufficient,
            candidatePrice := candidate.price,
            candidateProviderId := Some(candidate.providerId),
            key := CanonicalKey(previous.instrumentId, now, previous.price, status)))
  }

  /** `derived_fallback`: publish a formula price. */
  function DerivedCanonical(
    instrument: Instrument, derived: ProviderQuote, now: int): Result<CanonicalQuote, PricingError> {
    if !instrument.allowDerivedFallback || !derived.IsDerived() || derived.price.None?
      || derived.persistence != Persisted
    then Failure(DerivedNotAllowed) else
      var until :- LiveUntil(derived, instrument);
      if now > until then Failure(DerivedInputsNotLive) else
        FromPrice(
          instrument,
          Draft(derived.price.value, DerivedFallback, derived.id, [], NotRequired,
                "no_fresh_direct_quote_derived_fallback_allowed",
                SourceSummary([derived.providerId], true, Some(derived.depth), Some(derived.confidence),
                              derived.provenance,
                              NoProgress, None, None, None),
                None, None),
          derived.observedAt, now, Some(until))
  }

  // ----- choosing verifiers -------------------------------------------------------------------

  predicate IsUsableVerifier(q: ProviderQuote, primary: ProviderQuote, instrument: Instrument, now: int) {
    && q.price.Some?
    && (q.IsMarket() || (q.semantic.TelegramObservation? && q.telegramApproved))
    && q.validation.Accepted?
    && q.persistence.Persisted?
    && q.instrumentId == primary.instrumentId
    && IsFresh(q, instrument, now)
  }

  /** The verifiers kept so far and the families and venues already spoken for. */
  datatype Kept = Kept(verifiers: seq<PricedQuote>, families: set<string>, venues: set<string>)

  function KeepOne(kept: Kept, q: ProviderQuote, primary: ProviderQuote, instrument: Instrument, now: int): Kept {
    if IsUsableVerifier(q, primary, instrument, now) && q.family !in kept.families && q.venue !in kept.venues then
      Kept(kept.verifiers + [q], kept.families + {q.family}, kept.venues + {q.venue})
    else kept
  }

  function KeptOf(quotes: seq<ProviderQuote>, primary: ProviderQuote, instrument: Instrument, now: int): Kept {
    if quotes == [] then Kept([], {primary.family}, {primary.venue})
    else KeepOne(KeptOf(quotes[..|quotes| - 1], primary, instrument, now), quotes[|quotes| - 1], primary, instrument,
                 now)
  }

  function ValidVerifiers(
    quotes: seq<ProviderQuote>, primary: ProviderQuote, instrument: Instrument, now: int): seq<PricedQuote> {
    KeptOf(quotes, primary, instrument, now).verifiers
  }

  ghost predicate PairwiseIndependent(quotes: seq<ProviderQuote>) {
    forall i, j :: 0 <= i < j < |quotes| ==> Independent(quotes[i], quotes[j])
  }

  ghost predicate Tracks(kept: Kept, primary: ProviderQuote) {
    && primary.family in kept.families && primary.venue in kept.venues
    && (forall i | 0 <= i < |kept.verifiers| ::
          kept.verifiers[i].family in kept.families && kept.verifiers[i].venue in kept.venues)
  }

  lemma AppendKeepsIndependence(quotes: seq<ProviderQuote>, q: ProviderQuote)
    requires PairwiseIndependent(quotes) && forall i | 0 <= i < |quotes| :: Independent(quotes[i], q)
    ensures PairwiseIndependent(quotes + [q])
  {
  }

  /** The primary and the verifiers kept for it all differ in family and in venue. */
  lemma {:induction false} VerifiersAreIndependent(
    quotes: seq<ProviderQuote>, primary: ProviderQuote, instrument: Instrument, now: int)
    ensures var kept := KeptOf(quotes, primary, instrument, now);
            PairwiseIndependent([primary] + kept.verifiers) && Tracks(kept, primary)
    ensures var all := [primary] + KeptOf(quotes, primary, instrument, now).verifiers;
            forall i, j | 0 <= i < j < |all| :: all[i].family != all[j].family && all[i].venue != all[j].venue
  {
    if quotes != [] {
      var n := |quotes| - 1;
      VerifiersAreIndependent(quotes[..n], primary, instrument, now);
      var before, after := KeptOf(quotes[..n], primary, instrument, now), KeptOf(quotes, primary, instrument, now);
      if after != before {
        AppendKeepsIndependence([primary] + before.verifiers, quotes[n]);
        assert [primary] + after.verifiers == [primary] + before.verifiers + [quotes[n]];
      }
    }
  }

  lemma {:induction false} VerifiersAreUsable(
    quotes: seq<ProviderQuote>, primary: ProviderQuote, instrument: Instrument, now: int)
    ensures forall q <- ValidVerifiers(quotes, primary, instrument, now) ::
              IsUsableVerifier(q, primary, instrument, now) && q in quotes
  {
    if quotes != [] {
      var n := |quotes| - 1;
      VerifiersAreUsable(quotes[..n], primary, instrument, now);
      assert quotes == quotes[..n] + [quotes[n]];
    }
  }

  // ----- deciding -----------------------------------------------------------------------------

  /** On what grounds a price is published. */
  datatype Basis =
    | PrimaryAlone
    | ConfirmedBy(confirming: seq<PricedQuote>)
    | ConsensusOf(members: seq<PricedQuote>)
    | SourcesDisagree
    | NoVerifier

  function DifferencePercent(left: Price, right: Price): real {
    Abs(left - right) / right * 100.0
  }

  function Confirming(primary: PricedQuote, verifiers: seq<PricedQuote>, tolerance: real): seq<PricedQuote> {
    if verifiers == [] then [] else
      var n := |verifiers| - 1;
      var before := Confirming(primary, verifiers[..n], tolerance);
      if DifferencePercent(primary.price.value, verifiers[n].price.value) <= tolerance
      then before + [verifiers[n]]
      else before
  }

  function Offers(quotes: seq<PricedQuote>): (r: seq<Offer<PricedQuote>>)
    ensures |r| == |quotes|
    ensures forall i | 0 <= i < |r| :: r[i] == Offer(quotes[i].price.value, quotes[i])
  {
    seq(|quotes|, i requires 0 <= i < |quotes| => Offer(quotes[i].price.value, quotes[i]))
  }

  function Quotes(offers: seq<Offer<PricedQuote>>): (r: seq<PricedQuote>)
    ensures |r| == |offers|
    ensures forall i | 0 <= i < |r| :: r[i] == offers[i].quote
  {
    seq(|offers|, i requires 0 <= i < |offers| => offers[i].quote)
  }

  function Quorum(sources: nat): nat {
    sources / 2 + 1
  }

  function BasisOf(primary: PricedQuote, assessment: Option<Assessment>, verifiers: seq<PricedQuote>): Basis {
    if assessment.None? || !assessment.value.isSuspicious then PrimaryAlone else
      var tolerance := assessment.value.thresholdPercent;
      var confirming := Confirming(primary, verifiers, tolerance);
      if confirming != [] then ConfirmedBy(confirming) else
        var cluster := Cluster(Offers([primary] + verifiers), tolerance);
        if 1 + |verifiers| >= 3 && |cluster| >= Quorum(1 + |verifiers|) then ConsensusOf(Quotes(cluster))
        else if verifiers != [] then SourcesDisagree
        else NoVerifier
  }

  /** The quotes a price rests on; none when the previous price is kept. */
  function Evidence(primary: PricedQuote, basis: Basis): seq<PricedQuote> {
    match basis
    case PrimaryAlone => [primary]
    case ConfirmedBy(confirming) => [primary] + confirming
    case ConsensusOf(members) => members
    case SourcesDisagree => []
    case NoVerifier => []
  }

  function Ids(quotes: seq<ProviderQuote>): seq<int> {
    if quotes == [] then []
    else (if quotes[0].id.Some? then [quotes[0].id.value] else []) + Ids(quotes[1..])
  }

  function Remove(quotes: seq<PricedQuote>, q: PricedQuote): seq<PricedQuote> {
    if quotes == [] then []
    else (if quotes[0] == q then [] else [quotes[0]]) + Remove(quotes[1..], q)
  }

  function ProviderIds(quotes: seq<ProviderQuote>): seq<string> {
    seq(|quotes|, i requires 0 <= i < |quotes| => quotes[i].providerId)
  }

  function DirectSummary(lead: ProviderQuote, others: seq<ProviderQuote>, progress: Progress): SourceSummary {
    SourceSummary(ProviderIds([lead] + others), false, Some(lead.depth), None, lead.provenance, progress, None, None,
                  None)
  }

  function MinObserved(quotes: seq<ProviderQuote>): int
    requires quotes != []
  {
    MinOf(seq(|quotes|, i requires 0 <= i < |quotes| => quotes[i].observedAt))
  }

  datatype Verification = Verification(status: VerificationStatus, candidateId: Option<int>, verifierIds: seq<int>,
                                       threshold: real)

  datatype Decision = Decision(canonical: CanonicalQuote, verification: Verification)

  /** The refusals at the top of `select`, in their order. */
  function PrimaryError(primary: ProviderQuote, instrument: Instrument, now: int): Option<PricingError> {
    if primary.price.None? || primary.validation.Rejected? then Some(RejectedPrimary)
    else if !primary.persistence.Persisted? then Some(UnstoredPrimary)
    else if primary.semantic.TelegramObservation? || primary.semantic.DerivedFormula? then Some(NonMarketPrimary)
    else if !IsFresh(primary, instrument, now) then Some(PrimaryNotLive)
    else None
  }

  /** The median of the members of a consensus, in the price order the cluster has. */
  function ConsensusPrice(members: seq<PricedQuote>): Price
    requires members != []
  {
    Median(Offers(members))
  }

  function ConsensusLead(primary: PricedQuote, members: seq<PricedQuote>): PricedQuote
    requires members != []
  {
    if primary in members then primary else members[0]
  }

  /** The new price's draft and observation time, when the basis carries one. */
  function DraftOf(primary: PricedQuote, basis: Basis, fromFreshCache: bool): (Draft, int)
    requires Evidence(primary, basis) != []
  {
    match basis
    case PrimaryAlone =>
      (Draft(primary.price.value, if fromFreshCache then FreshCache else LiveQuote, primary.id, [], NotRequired,
             "valid_primary_provider_quote", DirectSummary(primary, [], NoProgress), None, None),
       primary.observedAt)
    case ConfirmedBy(confirming) =>
      (Draft(primary.price.value, Confirmed, primary.id, Ids(confirming), VerificationConfirmed,
             "anomalous_primary_confirmed_by_independent_source", DirectSummary(primary, confirming, Complete),
             primary.price, Some(primary.providerId)),
       primary.observedAt)
    case ConsensusOf(members) =>
      var lead := ConsensusLead(primary, members);
      var others := Remove(members, lead);
      (Draft(ConsensusPrice(members), Confirmed, lead.id, Ids(others), VerificationConfirmed,
             "robust_median_of_independent_fresh_inlier_cluster", DirectSummary(lead, others, Complete),
             primary.price, Some(primary.providerId)),
       MinObserved(members))
  }

  /** `select`, as a function of its arguments. */
  function Decide(
    instrument: Instrument, primary: ProviderQuote, previous: Option<CanonicalQuote>, assessment: Option<Assessment>,
    quotes: seq<ProviderQuote>, fromFreshCache: bool, now: int): Result<Decision, PricingError>
  {
    var refused := PrimaryError(primary, instrument, now);
    if refused.Some? then Failure(refused.value) else
      var verifiers := ValidVerifiers(quotes, primary, instrument, now);
      Publish(instrument, primary, previous, assessment, verifiers, BasisOf(primary, assessment, verifiers),
              fromFreshCache, now)
  }

  function MinLiveUntil(quotes: seq<ProviderQuote>, instrument: Instrument): Result<int, PricingError>
    requires quotes != []
  {
    if forall i | 0 <= i < |quotes| :: LiveUntil(quotes[i], instrument).Success?
    then Success(MinOf(Deadlines(quotes, instrument)))
    else Failure(NotFresh)
  }

  /** The canonical quote and the verification record that follow from a basis. */
  function Publish(
    instrument: Instrument, primary: PricedQuote, previous: Option<CanonicalQuote>, assessment: Option<Assessment>,
    verifiers: seq<PricedQuote>, basis: Basis, fromFreshCache: bool, now: int): Result<Decision, PricingError>
  {
    var threshold := if assessment.Some? then assessment.value.thresholdPercent else instrument.baseThreshold;
    var evidence := Evidence(primary, basis);
    if evidence != [] then
      var (draft, observedAt) := DraftOf(primary, basis, fromFreshCache);
      var until :- MinLiveUntil(evidence, instrument);
      var canonical :- FromPrice(instrument, draft, observedAt, now, Some(until));
      Success(Decision(canonical, Verification(draft.verification, primary.id, draft.verificationQuoteIds, threshold)))
    else if previous.None? then
      Failure(if basis.SourcesDisagree? then DisagreementCannotBootstrap else SuspicionCannotBootstrap)
    else
      var kept :- KeepPrevious(previous.value, primary, SuspiciousUnconfirmed, now);
      if basis.SourcesDisagree? then
        Success(Decision(
                  kept.(verification := Disagreed, reason := "disagreeing_sources_previous_canonical_kept",
                        summary := kept.summary.(progress := ProgressDisagreed)),
                  Verification(Disagreed, primary.id, Ids(verifiers), threshold)))
      else
        Success(Decision(kept, Verification(Insufficient, primary.id, Ids(verifiers), threshold)))
  }

  /** The loop of `select` that grows the verifier list and the two seen sets. */
  method CollectVerifiers(quotes: seq<ProviderQuote>, primary: ProviderQuote, instrument: Instrument, now: int)
    returns (verifiers: seq<PricedQuote>)
    ensures verifiers == ValidVerifiers(quotes, primary, instrument, now)
  {
    verifiers := [];
    var families, venues := {primary.family}, {primary.venue};
    for i := 0 to |quotes|
      invariant Kept(verifiers, families, venues) == KeptOf(quotes[..i], primary, instrument, now)
    {
      var q := quotes[i];
      assert quotes[..i + 1][..i] == quotes[..i];
      if IsUsableVerifier(q, primary, instrument, now) && q.family !in families && q.venue !in venues {
        verifiers := verifiers + [q];
        families := families + {q.family};
        venues := venues + {q.venue};
      }
    }
    assert quotes[..|quotes|] == quotes;
  }

  method CollectConfirming(
    primary: PricedQuote, verifiers: seq<PricedQuote>, tolerance: real) returns (confirming: seq<PricedQuote>)
    ensures confirming == Confirming(primary, verifiers, tolerance)
  {
    confirming := [];
    for i := 0 to |verifiers|
      invariant confirming == Confirming(primary, verifiers[..i], tolerance)
    {
      assert verifiers[..i + 1][..i] == verifiers[..i];
      if DifferencePercent(primary.price.value, verifiers[i].price.value) <= tolerance {
        confirming := confirming + [verifiers[i]];
      }
    }
    assert verifiers[..|verifiers|] == verifiers;
  }

  /** `select`: check the primary, collect verifiers, find the basis and publish. */
  method Select(
    instrument: Instrument, primary: ProviderQuote, previous: Option<CanonicalQuote>, assessment: Option<Assessment>,
    quotes: seq<ProviderQuote>, fromFreshCache: bool, now: int) returns (r: Result<Decision, PricingError>)
    ensures r == Decide(instrument, primary, previous, assessment, quotes, fromFreshCache, now)
  {
    var refused := PrimaryError(primary, instrument, now);
    if refused.Some? {
      return Failure(refused.value);
    }
    var verifiers := CollectVerifiers(quotes, primary, instrument, now);
    var basis := PrimaryAlone;
    if assessment.Some? && assessment.value.isSuspicious {
      var tolerance := assessment.value.thresholdPercent;
      var confirming := CollectConfirming(primary, verifiers, tolerance);
      if confirming != [] {
        basis := ConfirmedBy(confirming);
      } else {
        var comparable := [primary] + verifiers;
        var cluster := ConsensusCluster(Offers(comparable), tolerance);
        if |comparable| >= 3 && |cluster| >= Quorum(|comparable|) {
          basis := ConsensusOf(Quotes(cluster));
        } else if |comparable| >= 2 {
          basis := SourcesDisagree;
        } else {
          basis := NoVerifier;
        }
      }
    }
    r := Publish(instrument, primary, previous, assessment, verifiers, basis, fromFreshCache, now);
  }
}
