/**
 What `select` answers and what a refresh publishes, told by prices and sources alone (canonical.py,
 service.py): which verifiers count, when a candidate is confirmed, when there is a consensus, when the
 previous price stays.
 */
module Verdicts {
  import opened Wrappers
  import opened Freshness
  import opened Models
  import opened Anomaly
  import opened Consensus
  import opened Canonical
  import opened Decisions
  import opened Refresh
  import opened Ledger

  // ----- which verifiers are kept -----------------------------------------------------------------

  /** Somebody of the same family, or of the same venue, is among these. */
  ghost predicate IsTaken(q: ProviderQuote, quotes: seq<ProviderQuote>) {
    exists k <- quotes :: k.family == q.family || k.venue == q.venue
  }

  /** The two seen sets are those of the primary and the kept verifiers. */
  ghost predicate SeenExactly(kept: Kept, primary: ProviderQuote) {
    && (forall f :: f in kept.families <==> f == primary.family || exists v <- kept.verifiers :: v.family == f)
    && (forall x :: x in kept.venues <==> x == primary.venue || exists v <- kept.verifiers :: v.venue == x)
  }

  lemma SeenOneMore(kept: Kept, q: PricedQuote, primary: ProviderQuote)
    requires SeenExactly(kept, primary)
    ensures SeenExactly(Kept(kept.verifiers + [q], kept.families + {q.family}, kept.venues + {q.venue}), primary)
  {
    var more := kept.verifiers + [q];
    assert forall v :: v in more <==> v in kept.verifiers || v == q;
  }

  lemma {:induction false} SeenSets(
    quotes: seq<ProviderQuote>, primary: ProviderQuote, instrument: Instrument, now: int)
    ensures SeenExactly(KeptOf(quotes, primary, instrument, now), primary)
  {
    if quotes != [] {
      var n := |quotes| - 1;
      SeenSets(quotes[..n], primary, instrument, now);
      var before := KeptOf(quotes[..n], primary, instrument, now);
      if IsUsableVerifier(quotes[n], primary, instrument, now) {
        SeenOneMore(before, quotes[n], primary);
      }
    }
  }

  lemma TakenExactlyWhen(kept: Kept, primary: ProviderQuote, q: ProviderQuote)
    requires SeenExactly(kept, primary)
    ensures IsTaken(q, [primary] + kept.verifiers) <==> q.family in kept.families || q.venue in kept.venues
  {
    assert forall k :: k in [primary] + kept.verifiers <==> k == primary || k in kept.verifiers;
    if q.family in kept.families || q.venue in kept.venues {
      assert primary in [primary] + kept.verifiers;
    }
  }

  /** A quote is kept exactly when it is usable and neither its family nor its venue was taken before. */
  lemma KeptExactlyWhen(quotes: seq<ProviderQuote>, primary: ProviderQuote, instrument: Instrument, now: int, i: nat)
    requires i < |quotes|
    ensures var before, after := ValidVerifiers(quotes[..i], primary, instrument, now),
                                 ValidVerifiers(quotes[..i + 1], primary, instrument, now);
            if IsUsableVerifier(quotes[i], primary, instrument, now) && !IsTaken(quotes[i], [primary] + before)
            then after == before + [quotes[i]]
            else after == before
  {
    var upto := quotes[..i + 1];
    assert upto[..i] == quotes[..i] && upto[i] == quotes[i];
    SeenSets(quotes[..i], primary, instrument, now);
    TakenExactlyWhen(KeptOf(quotes[..i], primary, instrument, now), primary, quotes[i]);
  }

  lemma {:induction false} KeptStay(
    quotes: seq<ProviderQuote>, primary: ProviderQuote, instrument: Instrument, now: int, i: nat)
    requires i <= |quotes|
    ensures ValidVerifiers(quotes[..i], primary, instrument, now) <= ValidVerifiers(quotes, primary, instrument, now)
    decreases |quotes|
  {
    if i == |quotes| {
      assert quotes[..i] == quotes;
    } else {
      var n := |quotes| - 1;
      KeptStay(quotes[..n], primary, instrument, now, i);
      assert quotes[..n][..i] == quotes[..i];
    }
  }

  /** So an offered usable quote that is not kept has its family or its venue among the primary and the kept. */
  lemma DroppedOnlyIfTaken(
    quotes: seq<ProviderQuote>, primary: ProviderQuote, instrument: Instrument, now: int, i: nat)
    requires i < |quotes| && IsUsableVerifier(quotes[i], primary, instrument, now)
    ensures var kept := ValidVerifiers(quotes, primary, instrument, now);
            quotes[i] in kept || IsTaken(quotes[i], [primary] + kept)
  {
    var kept, before := ValidVerifiers(quotes, primary, instrument, now),
      ValidVerifiers(quotes[..i], primary, instrument, now);
    KeptExactlyWhen(quotes, primary, instrument, now, i);
    KeptStay(quotes, primary, instrument, now, i);
    KeptStay(quotes, primary, instrument, now, i + 1);
    if IsTaken(quotes[i], [primary] + before) {
      assert forall k <- [primary] + before :: k in [primary] + kept;
    } else {
      var after := ValidVerifiers(quotes[..i + 1], primary, instrument, now);
      assert after[|after| - 1] == quotes[i] && kept[|after| - 1] == quotes[i];
    }
  }

  /** A stored, accepted market quote of the instrument can verify exactly while it is fresh. */
  lemma UsableExactlyWhen(q: ProviderQuote, primary: ProviderQuote, instrument: Instrument, now: int)
    ensures IsUsableVerifier(q, primary, instrument, now)
            <==> && q.price.Some? && q.validation == Accepted && q.persistence == Persisted
                 && q.instrumentId == primary.instrumentId
                 && q.semantic != DerivedFormula && q.semantic != Legacy
                 && (q.semantic == TelegramObservation ==> q.telegramApproved)
                 && QuoteBoundaries(q, instrument).Success? && now <= QuoteBoundaries(q, instrument).value.live
  {
  }

  // ----- when the candidate is confirmed -----------------------------------------------------------

  /** The candidate is within tolerance of the verifier, in percent of the verifier. */
  predicate IsClose(candidate: PricedQuote, v: PricedQuote, tolerance: real) {
    Abs(candidate.price.value - v.price.value) * 100.0 <= tolerance * v.price.value
  }

  lemma CloseIsDifference(candidate: PricedQuote, v: PricedQuote, tolerance: real)
    ensures DifferencePercent(candidate.price.value, v.price.value) <= tolerance <==> IsClose(candidate, v, tolerance)
  {
    DivisionFree(Abs(candidate.price.value - v.price.value), v.price.value, tolerance);
  }

  /** The confirming verifiers are exactly the close ones. */
  lemma {:induction false} ConfirmingExactlyWhen(candidate: PricedQuote, verifiers: seq<PricedQuote>, tolerance: real)
    ensures forall v ::
              v in Confirming(candidate, verifiers, tolerance) <==> v in verifiers && IsClose(candidate, v, tolerance)
  {
    if verifiers != [] {
      var n := |verifiers| - 1;
      ConfirmingExactlyWhen(candidate, verifiers[..n], tolerance);
      CloseIsDifference(candidate, verifiers[n], tolerance);
      assert verifiers == verifiers[..n] + [verifiers[n]];
    }
  }

  ghost predicate IsConfirmed(candidate: PricedQuote, verifiers: seq<PricedQuote>, tolerance: real) {
    exists v <- verifiers :: IsClose(candidate, v, tolerance)
  }

  // ----- when there is a consensus ------------------------------------------------------------------

  function Comparable(candidate: PricedQuote, verifiers: seq<PricedQuote>): seq<Offer<PricedQuote>> {
    SortByPrice(Offers([candidate] + verifiers))
  }

  /** A window of the ordered offers that fits its own median and holds more than half of them. */
  ghost predicate IsMajority(offers: seq<Offer<PricedQuote>>, tolerance: real, start: nat, end: nat) {
    IsFittingWindow(offers, tolerance, start, end) && 2 * (end - start) > |offers|
  }

  ghost predicate HasMajority(offers: seq<Offer<PricedQuote>>, tolerance: real) {
    exists start: nat, end: nat :: IsMajority(offers, tolerance, start, end)
  }

  lemma MajorityExactlyWhen(candidate: PricedQuote, verifiers: seq<PricedQuote>, tolerance: real)
    ensures var offers := Comparable(candidate, verifiers);
            var cluster := Cluster(Offers([candidate] + verifiers), tolerance);
            && (|cluster| >= Quorum(1 + |verifiers|) <==> HasMajority(offers, tolerance))
            && (|cluster| >= Quorum(1 + |verifiers|) ==>
                  exists start: nat, end: nat :: IsMajority(offers, tolerance, start, end)
                    && cluster == offers[start..end])
  {
    var offers := Comparable(candidate, verifiers);
    var cluster := Cluster(Offers([candidate] + verifiers), tolerance);
    ClusterIsMaximalWindow(Offers([candidate] + verifiers), tolerance);
    assert |offers| == 1 + |verifiers|;
    if |cluster| >= Quorum(1 + |verifiers|) {
      var start: nat, end: nat :| IsFittingWindow(offers, tolerance, start, end) && cluster == offers[start..end];
      assert IsMajority(offers, tolerance, start, end);
    }
    if HasMajority(offers, tolerance) {
      var start: nat, end: nat :| IsMajority(offers, tolerance, start, end);
      assert end - start <= |cluster|;
    }
  }

  /** Nobody confirms the candidate, three sources or more can be compared, and more than half of them agree. */
  ghost predicate ReachesConsensus(candidate: PricedQuote, verifiers: seq<PricedQuote>, tolerance: real) {
    && !IsConfirmed(candidate, verifiers, tolerance)
    && 1 + |verifiers| >= 3
    && HasMajority(Comparable(candidate, verifiers), tolerance)
  }

  /** The grounds of a decision on a suspicious candidate, each by its own condition. */
  lemma BasisExactlyWhen(candidate: PricedQuote, assessment: Assessment, verifiers: seq<PricedQuote>)
    requires assessment.isSuspicious
    ensures var basis, tolerance := BasisOf(candidate, Some(assessment), verifiers), assessment.thresholdPercent;
            && (basis.ConfirmedBy? <==> IsConfirmed(candidate, verifiers, tolerance))
            && (basis.ConsensusOf? <==> ReachesConsensus(candidate, verifiers, tolerance))
            && (basis.SourcesDisagree? <==> && verifiers != [] && !IsConfirmed(candidate, verifiers, tolerance)
                                            && !ReachesConsensus(candidate, verifiers, tolerance))
            && (basis.NoVerifier? <==> verifiers == [])
            && !basis.PrimaryAlone?
  {
    var tolerance := assessment.thresholdPercent;
    ConfirmingExactlyWhen(candidate, verifiers, tolerance);
    MajorityExactlyWhen(candidate, verifiers, tolerance);
    var confirming := Confirming(candidate, verifiers, tolerance);
    if confirming != [] {
      assert confirming[0] in confirming;
    }
  }

  /** The price of a consensus is the median of a majority that fits it. */
  lemma ConsensusIsMajority(
    candidate: PricedQuote, assessment: Assessment, verifiers: seq<PricedQuote>) returns (start: nat, end: nat)
    requires assessment.isSuspicious && PairwiseIndependent([candidate] + verifiers)
    requires BasisOf(candidate, Some(assessment), verifiers).ConsensusOf?
    ensures var offers := Comparable(candidate, verifiers);
            && IsMajority(offers, assessment.thresholdPercent, start, end)
            && ConsensusPrice(BasisOf(candidate, Some(assessment), verifiers).members) == Median(offers[start..end])
  {
    var offers := Comparable(candidate, verifiers);
    var cluster := Cluster(Offers([candidate] + verifiers), assessment.thresholdPercent);
    MajorityExactlyWhen(candidate, verifiers, assessment.thresholdPercent);
    MembersOfCluster([candidate] + verifiers, assessment.thresholdPercent);
    start, end :| IsMajority(offers, assessment.thresholdPercent, start, end) && cluster == offers[start..end];
  }

  // ----- what `select` answers ------------------------------------------------------------------------

  /** The refusals of a primary, the first that applies. */
  lemma RefusedExactlyWhen(primary: ProviderQuote, instrument: Instrument, now: int)
    ensures var r := PrimaryError(primary, instrument, now);
            var isPriced := primary.price.Some? && primary.validation != Rejected;
            var isStored := primary.persistence == Persisted;
            var isMarket := primary.semantic != TelegramObservation && primary.semantic != DerivedFormula;
            var b := QuoteBoundaries(primary, instrument);
            && (r == Some(RejectedPrimary) <==> !isPriced)
            && (r == Some(UnstoredPrimary) <==> isPriced && !isStored)
            && (r == Some(NonMarketPrimary) <==> isPriced && isStored && !isMarket)
            && (r == Some(PrimaryNotLive) <==>
                  isPriced && isStored && isMarket && (b.Failure? || now > b.value.live))
            && (r == None <==> isPriced && isStored && isMarket && b.Success? && now <= b.value.live)
  {
  }

  /** A canonical quote is well built when its instants are in order, and a price that is new must not have expired. */
  lemma WellBuiltExactlyWhen(q: CanonicalQuote)
    ensures var isOrdered := q.observedAt <= q.canonicalAt && q.validUntil <= q.staleAt <= q.expiresAt;
            var isDoubted := q.status != LiveQuote && q.status != Confirmed && q.status != FreshCache
                             && q.status != DerivedFallback && q.status != UnpersistedQuote;
            && (Checked(q) == Success(q) <==> isOrdered && (isDoubted || q.canonicalAt <= q.expiresAt))
            && (Checked(q) == Failure(InvalidTimestamps) <==> !isOrdered)
            && (Checked(q) == Failure(AlreadyExpired) <==> isOrdered && !isDoubted && q.expiresAt < q.canonicalAt)
  {
  }

  lemma BuiltSucceeds(instrument: Instrument, draft: Draft, observedAt: int, now: int, until: int)
    requires observedAt <= now <= until <= now + instrument.windows.ttl
    ensures var r := FromPrice(instrument, draft, observedAt, now, Some(until));
            && r.Success?
            && r.value.price == draft.price && r.value.status == draft.status
               && r.value.verification == draft.verification
            && r.value.observedAt == observedAt && r.value.canonicalAt == now && !r.value.isPersisted
            && r.value.primaryQuoteId == draft.primaryQuoteId
               && r.value.verificationQuoteIds == draft.verificationQuoteIds
            && r.value.candidatePrice == draft.candidatePrice
               && r.value.candidateProviderId == draft.candidateProviderId
            && r.value.summary.derived == draft.summary.derived && r.value.summary.progress == draft.summary.progress
  {
  }

  /** Without a deadline of its sources a quote gets the instrument's whole windows, counted from its observation. */
  lemma UnboundedExactlyWhen(instrument: Instrument, draft: Draft, observedAt: int, now: int)
    ensures var r, w := FromPrice(instrument, draft, observedAt, now, None), instrument.windows;
            && (r.Success?
                <==> observedAt <= now && (IsAcceptedStatus(draft.status) ==> now <= observedAt + w.expire))
            && (r.Success? ==>
                  && r.value.validUntil == observedAt + w.ttl && r.value.staleAt == observedAt + w.stale
                  && r.value.expiresAt == observedAt + w.expire && r.value.price == draft.price)
  {
  }

  /** The evidence of a decision was observed by now. */
  lemma EvidenceIsObserved(primary: PricedQuote, basis: Basis, fromFreshCache: bool, now: int)
    requires Evidence(primary, basis) != [] && forall q <- Evidence(primary, basis) :: q.observedAt <= now
    ensures DraftOf(primary, basis, fromFreshCache).1 <= now
  {
    var evidence := Evidence(primary, basis);
    assert evidence[0] in evidence;
    if basis.ConsensusOf? {
      var times := seq(|evidence|, i requires 0 <= i < |evidence| => evidence[i].observedAt);
      assert times[0] in times;
    } else {
      assert evidence[0] == primary;
    }
  }

  lemma DraftIsDirect(primary: PricedQuote, basis: Basis, fromFreshCache: bool)
    requires Evidence(primary, basis) != []
    ensures var summary := DraftOf(primary, basis, fromFreshCache).0.summary;
            !summary.derived && summary.progress == if basis.PrimaryAlone? then NoProgress else Complete
  {
  }

  /** The verification record of a decision names the candidate and repeats what the quote says. */
  lemma RecordMatches(
    instrument: Instrument, primary: PricedQuote, previous: Option<CanonicalQuote>, assessment: Option<Assessment>,
    verifiers: seq<PricedQuote>, basis: Basis, fromFreshCache: bool, now: int)
    requires Publish(instrument, primary, previous, assessment, verifiers, basis, fromFreshCache, now).Success?
    ensures var d := Publish(instrument, primary, previous, assessment, verifiers, basis, fromFreshCache, now).value;
            && d.verification.status == d.canonical.verification && d.verification.candidateId == primary.id
            && d.verification.threshold
               == (if assessment.Some? then assessment.value.thresholdPercent else instrument.baseThreshold)
            && d.verification.verifierIds
               == if Evidence(primary, basis) != [] then d.canonical.verificationQuoteIds else Ids(verifiers)
  {
    if Evidence(primary, basis) != [] {
      var (draft, observedAt) := DraftOf(primary, basis, fromFreshCache);
      var until := MinLiveUntil(Evidence(primary, basis), instrument).value;
      BuiltKeepsDraft(instrument, draft, observedAt, now, Some(until));
    }
  }

  lemma BuiltKeepsDraft(instrument: Instrument, draft: Draft, observedAt: int, now: int, liveUntil: Option<int>)
    ensures var r := FromPrice(instrument, draft, observedAt, now, liveUntil);
            r.Success? ==>
              r.value.verification == draft.verification && r.value.verificationQuoteIds == draft.verificationQuoteIds
  {
  }

  /** On collected evidence a quote can always be built, with the price, the status and the names of its draft. */
  lemma EvidenceIsPublished(
    instrument: Instrument, primary: PricedQuote, previous: Option<CanonicalQuote>, assessment: Option<Assessment>,
    quotes: seq<ProviderQuote>, fromFreshCache: bool, now: int)
    requires IsCollected(primary, now) && (forall q <- quotes :: IsCollected(q, now))
    requires PrimaryError(primary, instrument, now).None?
    requires Evidence(primary, BasisOf(primary, assessment, ValidVerifiers(quotes, primary, instrument, now))) != []
    ensures var basis := BasisOf(primary, assessment, ValidVerifiers(quotes, primary, instrument, now));
            var d := Decide(instrument, primary, previous, assessment, quotes, fromFreshCache, now);
            var (draft, observedAt) := DraftOf(primary, basis, fromFreshCache);
            && d.Success?
            && var q := d.value.canonical;
            && q.price == draft.price && q.status == draft.status && q.verification == draft.verification
            && q.observedAt == observedAt && q.canonicalAt == now && !q.isPersisted
            && q.primaryQuoteId == draft.primaryQuoteId && q.verificationQuoteIds == draft.verificationQuoteIds
            && q.candidatePrice == draft.candidatePrice && q.candidateProviderId == draft.candidateProviderId
            && !q.summary.derived && q.summary.progress == if basis.PrimaryAlone? then NoProgress else Complete
  {
    var basis := BasisOf(primary, assessment, ValidVerifiers(quotes, primary, instrument, now));
    var evidence := Evidence(primary, basis);
    EvidenceIsCollected(primary, assessment, quotes, instrument, now);
    DeadlinesAreNear(evidence, instrument, now);
    EvidenceIsObserved(primary, basis, fromFreshCache, now);
    var (draft, observedAt) := DraftOf(primary, basis, fromFreshCache);
    DraftIsDirect(primary, basis, fromFreshCache);
    BuiltSucceeds(instrument, draft, observedAt, now, MinOf(Deadlines(evidence, instrument)));
  }

  /** A previous quote as it is read back: observed by now, its deadlines in order. */
  predicate IsReadable(previous: CanonicalQuote, now: int) {
    previous.observedAt <= now && previous.validUntil <= previous.staleAt <= previous.expiresAt
  }

  lemma KeptOnDoubt(
    instrument: Instrument, primary: PricedQuote, previous: Option<CanonicalQuote>, assessment: Option<Assessment>,
    verifiers: seq<PricedQuote>, basis: Basis, fromFreshCache: bool, now: int)
    requires Evidence(primary, basis) == [] && (previous.Some? ==> IsReadable(previous.value, now))
    ensures var d := Publish(instrument, primary, previous, assessment, verifiers, basis, fromFreshCache, now);
            && (d.Success? <==> previous.Some?)
            && (d.Failure?
               ==> d.error == if basis.SourcesDisagree? then DisagreementCannotBootstrap else SuspicionCannotBootstrap)
            && (d.Success? ==>
                  && d.value.canonical.price == previous.value.price
                  && d.value.canonical.status == SuspiciousUnconfirmed
                  && d.value.canonical.verification == (if basis.SourcesDisagree? then Disagreed else Insufficient)
                  && d.value.canonical.candidatePrice == primary.price
                  && d.value.canonical.candidateProviderId == Some(primary.providerId)
                  && d.value.canonical.verificationQuoteIds == [] && !d.value.canonical.isPersisted
                  && d.value.canonical.summary.progress
                     == if basis.SourcesDisagree? then ProgressDisagreed else ProgressInsufficient)
  {
  }

  /**
   A doubt can be recorded unless the previous quote was observed in the future or its deadlines are out of
   order; what is then shown is the previous quote, with the candidate in doubt.
   */
  lemma DoubtExactlyWhen(previous: CanonicalQuote, candidate: PricedQuote, isPending: bool, now: int)
    ensures var status := if isPending then Verifying else SuspiciousUnconfirmed;
            var r := KeepPrevious(previous, candidate, status, now);
            && (r.Success? <==> IsReadable(previous, now))
            && (r.Success? ==>
                  var q := r.value;
                  && q.status == status && q.canonicalAt == now && !q.isPersisted && q.verificationQuoteIds == []
                  && q.verification == (if isPending then Pending else Insufficient)
                  && q.summary.progress == (if isPending then ProgressPending else ProgressInsufficient)
                  && q.summary.(progress := previous.summary.progress) == previous.summary
                  && q.candidatePrice == candidate.price && q.candidateProviderId == Some(candidate.providerId)
                  && q.price == previous.price && q.primaryQuoteId == previous.primaryQuoteId
                  && q.observedAt == previous.observedAt && q.validUntil == previous.validUntil
                  && q.staleAt == previous.staleAt && q.expiresAt == previous.expiresAt)
  {
  }

  /** The published quote carries a new price, confirmed by evidence. */
  predicate IsConfirmedAt(q: CanonicalQuote, price: Price) {
    q.price == price && q.status == Confirmed && q.verification == VerificationConfirmed
  }

  predicate IsKeptFrom(q: CanonicalQuote, previous: CanonicalQuote, sourcesDisagree: bool) {
    && q.price == previous.price && q.status == SuspiciousUnconfirmed
    && q.verification == if sourcesDisagree then Disagreed else Insufficient
  }

  /** The price is the median of more than half of the comparable offers, all within tolerance of it. */
  ghost predicate IsMajorityMedian(price: Price, offers: seq<Offer<PricedQuote>>, tolerance: real) {
    exists start: nat, end: nat :: IsMajority(offers, tolerance, start, end) && price == Median(offers[start..end])
  }

  /**
   What `select` makes of a suspicious candidate.  It publishes the candidate's price if a kept verifier is
   within tolerance of it; otherwise the median of a majority, if there are three sources or more and such
   a majority exists; otherwise it keeps the previous price, and without one it raises.
   */
  lemma SuspicionExactlyWhen(
    instrument: Instrument, primary: PricedQuote, previous: Option<CanonicalQuote>, assessment: Assessment,
    quotes: seq<ProviderQuote>, fromFreshCache: bool, now: int)
    requires assessment.isSuspicious && PrimaryError(primary, instrument, now).None?
    requires IsCollected(primary, now) && (forall q <- quotes :: IsCollected(q, now))
    requires previous.Some? ==> IsReadable(previous.value, now)
    ensures var d := Decide(instrument, primary, previous, Some(assessment), quotes, fromFreshCache, now);
            var verifiers, tolerance := ValidVerifiers(quotes, primary, instrument, now), assessment.thresholdPercent;
            var offers := Comparable(primary, verifiers);
            if IsConfirmed(primary, verifiers, tolerance) then
              d.Success? && IsConfirmedAt(d.value.canonical, primary.price.value)
            else if ReachesConsensus(primary, verifiers, tolerance) then
              && d.Success? && IsConfirmedAt(d.value.canonical, d.value.canonical.price)
              && IsMajorityMedian(d.value.canonical.price, offers, tolerance)
            else if previous.Some? then
              d.Success? && IsKeptFrom(d.value.canonical, previous.value, verifiers != [])
            else
              d == Failure(if verifiers != [] then DisagreementCannotBootstrap else SuspicionCannotBootstrap)
  {
    var verifiers, tolerance := ValidVerifiers(quotes, primary, instrument, now), assessment.thresholdPercent;
    var basis := BasisOf(primary, Some(assessment), verifiers);
    BasisExactlyWhen(primary, assessment, verifiers);
    VerifiersAreIndependent(quotes, primary, instrument, now);
    if Evidence(primary, basis) != [] {
      EvidenceIsPublished(instrument, primary, previous, Some(assessment), quotes, fromFreshCache, now);
      if basis.ConsensusOf? {
        var start, end := ConsensusIsMajority(primary, assessment, verifiers);
      }
    } else {
      EvidenceOfConsensus(primary, assessment, verifiers);
      KeptOnDoubt(instrument, primary, previous, Some(assessment), verifiers, basis, fromFreshCache, now);
    }
  }

  /** A consensus has members. */
  lemma EvidenceOfConsensus(candidate: PricedQuote, assessment: Assessment, verifiers: seq<PricedQuote>)
    ensures var basis := BasisOf(candidate, Some(assessment), verifiers);
            Evidence(candidate, basis) == [] <==> basis.SourcesDisagree? || basis.NoVerifier?
  {
  }

  /** A candidate that raises no suspicion is published alone, at its own price. */
  lemma UnsuspiciousIsAccepted(
    instrument: Instrument, primary: PricedQuote, previous: Option<CanonicalQuote>, assessment: Option<Assessment>,
    quotes: seq<ProviderQuote>, fromFreshCache: bool, now: int)
    requires (assessment.None? || !assessment.value.isSuspicious) && PrimaryError(primary, instrument, now).None?
    requires IsCollected(primary, now) && (forall q <- quotes :: IsCollected(q, now))
    ensures var d := Decide(instrument, primary, previous, assessment, quotes, fromFreshCache, now);
            && d.Success? && d.value.canonical.price == primary.price.value
            && d.value.canonical.status == (if fromFreshCache then FreshCache else LiveQuote)
            && d.value.canonical.verification == NotRequired
            && d.value.canonical.primaryQuoteId == primary.id && d.value.canonical.verificationQuoteIds == []
            && d.value.canonical.observedAt == primary.observedAt
            && d.value.canonical.candidatePrice == None && d.value.canonical.candidateProviderId == None
  {
    EvidenceIsPublished(instrument, primary, previous, assessment, quotes, fromFreshCache, now);
  }

  // ----- what a published quote names -----------------------------------------------------------------

  lemma {:induction false} IdsExactly(quotes: seq<ProviderQuote>, x: int)
    ensures x in Ids(quotes) <==> exists q <- quotes :: q.id == Some(x)
  {
    if quotes != [] {
      IdsExactly(quotes[1..], x);
      assert quotes == [quotes[0]] + quotes[1..];
    }
  }

  lemma {:induction false} RemoveExactly(quotes: seq<PricedQuote>, q: PricedQuote, x: PricedQuote)
    ensures x in Remove(quotes, q) <==> x in quotes && x != q
  {
    if quotes != [] {
      RemoveExactly(quotes[1..], q, x);
      assert quotes == [quotes[0]] + quotes[1..];
    }
  }

  /** A confirmed price names the candidate and exactly the verifiers that are close to it. */
  lemma ConfirmationNames(
    primary: PricedQuote, verifiers: seq<PricedQuote>, tolerance: real, fromFreshCache: bool, x: int)
    requires IsConfirmed(primary, verifiers, tolerance)
    ensures var basis := ConfirmedBy(Confirming(primary, verifiers, tolerance));
            var (draft, observedAt) := DraftOf(primary, basis, fromFreshCache);
            && draft.primaryQuoteId == primary.id && observedAt == primary.observedAt
            && draft.candidatePrice == primary.price && draft.candidateProviderId == Some(primary.providerId)
            && (x in draft.verificationQuoteIds <==>
                  exists v <- verifiers :: IsClose(primary, v, tolerance) && v.id == Some(x))
  {
    ConfirmingExactlyWhen(primary, verifiers, tolerance);
    IdsExactly(Confirming(primary, verifiers, tolerance), x);
  }

  /**
   A consensus price names the candidate if it takes part, else the member with the lowest price, and
   exactly the other members; it was observed when its oldest member was.
   */
  lemma ConsensusNames(primary: PricedQuote, members: seq<PricedQuote>, fromFreshCache: bool, x: int)
    requires members != []
    ensures var lead := if primary in members then primary else members[0];
            var (draft, observedAt) := DraftOf(primary, ConsensusOf(members), fromFreshCache);
            && draft.primaryQuoteId == lead.id
            && draft.candidatePrice == primary.price && draft.candidateProviderId == Some(primary.providerId)
            && (x in draft.verificationQuoteIds <==> exists m <- members :: m != lead && m.id == Some(x))
            && (forall m <- members :: observedAt <= m.observedAt)
            && (exists m <- members :: observedAt == m.observedAt)
  {
    var lead := ConsensusLead(primary, members);
    var others := Remove(members, lead);
    IdsExactly(others, x);
    forall m: PricedQuote ensures m in others <==> m in members && m != lead {
      RemoveExactly(members, lead, m);
    }
    var times := seq(|members|, i requires 0 <= i < |members| => members[i].observedAt);
    forall m <- members ensures m.observedAt in times {
      var i :| 0 <= i < |members| && members[i] == m;
      assert times[i] == m.observedAt;
    }
    var k :| 0 <= k < |times| && times[k] == MinOf(times);
    assert members[k] in members;
  }

  // ----- what a refresh publishes -----------------------------------------------------------------------

  /** The decision a refresh comes to, with everything it looked at. */
  function DecisionOf(stored: Option<CanonicalQuote>, a: Attempt): Result<Decision, PricingError> {
    var previous := ReadStored(stored, a.instrument);
    var assessment := AssessCandidate(previous, a);
    if assessment.Some? && assessment.value.isSuspicious
    then Decide(a.instrument, a.primary.(validation := Suspicious), previous, assessment, a.verifiers, a.fromFreshCache,
                a.now)
    else Decide(a.instrument, a.primary, previous, assessment, [], a.fromFreshCache, a.now)
  }

  /**
   Against a readable stored quote, a refresh publishes what was decided unless that is older than what
   is stored; otherwise, and where the decision was refused, the stored price goes on, and shows the doubt if
   there is one.
   */
  lemma RefreshPublishesExactlyWhen(stored: CanonicalQuote, a: Attempt)
    requires a.instrument.enabled && stored.observedAt <= a.now
    ensures var previous, d := Read(stored, a.instrument), DecisionOf(Some(stored), a);
            var after := Step(Some(stored), a);
            && after.Some?
            && if d.Success? && (previous.None? || previous.value.observedAt <= d.value.canonical.observedAt)
               then after == Some(AfterPersist(d.value.canonical, a.saves))
               else
                 var assessment := AssessCandidate(previous, a);
                 && after.value.price == stored.price && after.value.observedAt == stored.observedAt
                 && (if assessment.Some? && assessment.value.isSuspicious
                     then after.value.status == Verifying && after.value.candidatePrice == a.primary.price
                     else after.value == stored)
  {
    var previous := Read(stored, a.instrument);
    if previous.Some? {
      var candidate := a.primary.(validation := Suspicious);
      var doubt := KeepPrevious(previous.value, candidate, Verifying, a.now);
      assert doubt.Success?;
    }
  }

  /** How old the baseline is when a candidate is assessed: since it was observed. */
  lemma AssessedExactlyWhen(stored: CanonicalQuote, a: Attempt)
    ensures var previous, assessment := Read(stored, a.instrument), AssessCandidate(Read(stored, a.instrument), a);
            && (assessment.None? <==> previous.None? || previous.value.expiresAt < a.now)
            && (assessment.Some? ==>
                  var age := a.now - stored.observedAt;
                  && assessment.value.thresholdPercent
                     == (if a.instrument.Accepts(a.primary.price.value)
                         then DynamicThreshold(a.instrument, age, a.market)
                         else a.instrument.baseThreshold)
                  && (!assessment.value.isSuspicious
                      <==> && a.instrument.Accepts(a.primary.price.value)
                           && Within(a.primary.price.value, stored.price,
                                     DynamicThreshold(a.instrument, age, a.market))))
  {
    var previous := Read(stored, a.instrument);
    if previous.Some? {
      NotSuspiciousExactlyWhen(a.instrument, a.primary.price.value, stored.price, a.now - stored.observedAt, a.market);
    }
  }

  /**
   A single delivered quote, no older than the stored one, against a baseline: its price is published
   exactly when it is inside the sanity bounds and within the dynamic threshold, and otherwise the
   stored price stays.
   */
  lemma LoneQuoteIsPublishedExactlyWhen(stored: CanonicalQuote, a: Attempt)
    requires a.instrument.enabled && HasBaseline(Some(stored), a) && stored.observedAt <= a.primary.observedAt
    requires a.verifiers == [] && IsCollected(a.primary, a.now) && PrimaryError(a.primary, a.instrument, a.now).None?
    ensures Step(Some(stored), a).Some?
    ensures var threshold := DynamicThreshold(a.instrument, a.now - stored.observedAt, a.market);
            var isPublished := a.instrument.Accepts(a.primary.price.value)
              && Within(a.primary.price.value, stored.price, threshold);
            Step(Some(stored), a).value.price == if isPublished then a.primary.price.value else stored.price
  {
    var previous := Read(stored, a.instrument);
    var assessment := AssessCandidate(previous, a);
    RefreshPublishesExactlyWhen(stored, a);
    AssessedExactlyWhen(stored, a);
    if assessment.value.isSuspicious {
      var candidate := a.primary.(validation := Suspicious);
      assert ValidVerifiers([], candidate, a.instrument, a.now) == [];
      SuspicionExactlyWhen(a.instrument, candidate, previous, assessment.value, [], a.fromFreshCache, a.now);
    } else {
      UnsuspiciousIsAccepted(a.instrument, a.primary, previous, assessment, [], a.fromFreshCache, a.now);
    }
  }

  // ----- formula fallbacks --------------------------------------------------------------------------

  /** A stored formula quote is published exactly when the target allows it and all its inputs are still live. */
  lemma FallbackExactlyWhen(instrument: Instrument, derived: ProviderQuote, until: int, now: int)
    requires derived.inputLiveUntil == Some(until) && derived.observedAt <= now
    ensures var c := DerivedCanonical(instrument, derived, now);
            && (c.Success?
                <==> && instrument.allowDerivedFallback && derived.semantic == DerivedFormula && derived.price.Some?
                     && derived.persistence == Persisted && now <= until)
            && (c == Failure(DerivedInputsNotLive)
                <==> && instrument.allowDerivedFallback && derived.semantic == DerivedFormula && derived.price.Some?
                     && derived.persistence == Persisted && until < now)
            && (c.Failure? ==> c.error == DerivedInputsNotLive || c.error == DerivedNotAllowed)
            && (c.Success? ==>
                  && c.value.price == derived.price.value && c.value.status == DerivedFallback
                  && c.value.summary.progress == NoProgress
                  && c.value.verification == NotRequired && c.value.primaryQuoteId == derived.id
                  && c.value.verificationQuoteIds == [] && !c.value.isPersisted
                  && c.value.observedAt == derived.observedAt && c.value.canonicalAt == now
                  && c.value.validUntil == until && c.value.summary.derived)
  {
  }
}
