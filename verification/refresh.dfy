/**
 One refresh of an instrument (service.py): read the stored quote under the current policy, assess
 the candidate against it, select, and commit.  Then whole runs of refreshes.
 */
module Refresh {
  import opened Wrappers
  import opened Freshness
  import opened Models
  import opened Anomaly
  import opened Consensus
  import opened Canonical
  import opened Decisions

  // ----- reading a stored quote under the current policy --------------------------------------

  /** The anchor `_current_policy` trusts: the stored one if it is plausible, else the observation. */
  predicate AnchorIsPlausible(q: CanonicalQuote) {
    && q.summary.freshnessAnchor.Some? && q.summary.sourceLiveUntil.Some?
    && q.observedAt <= q.summary.freshnessAnchor.value <= q.canonicalAt
    && q.summary.freshnessAnchor.value <= q.summary.sourceLiveUntil.value
  }

  /** The deadlines of a stored quote as these windows allow them. */
  function Cut(q: CanonicalQuote, w: Windows): CanonicalQuote {
    var trusted := AnchorIsPlausible(q);
    var anchor := if trusted then q.summary.freshnessAnchor.value else q.observedAt;
    var bound := if trusted then Min(q.validUntil, q.summary.sourceLiveUntil.value) else q.validUntil;
    var expiresAt := Min(q.expiresAt, anchor + w.expire);
    var staleAt := Min(Min(q.staleAt, anchor + w.stale), expiresAt);
    var validUntil := Min(Min(q.validUntil, bound), Min(anchor + w.ttl, staleAt));
    q.(expiresAt := expiresAt, staleAt := staleAt, validUntil := validUntil)
  }

  /** `_current_policy`: a stored quote as the instrument's present definition allows it to be used. */
  function Read(q: CanonicalQuote, instrument: Instrument): Option<CanonicalQuote> {
    if instrument.enabled && instrument.Accepts(q.price) then Some(Cut(q, instrument.windows)) else None
  }

  /** Reading changes nothing but the deadlines, and never moves one of them later. */
  lemma ReadNeverExtends(q: CanonicalQuote, instrument: Instrument)
    ensures var r := Read(q, instrument);
            r.Some? ==>
              && r.value.validUntil <= q.validUntil && r.value.staleAt <= q.staleAt && r.value.expiresAt <= q.expiresAt
              && r.value == q.(validUntil := r.value.validUntil, staleAt := r.value.staleAt,
                               expiresAt := r.value.expiresAt)
              && Read(r.value, instrument) == r
  {
  }

  /**
   A stored quote can be read while its instrument is enabled and accepts its price.  A deadline of it has not
   passed exactly when neither the stored one nor the window of the present definition has, counted from the
   stored anchor if that lies between the observation and both the publication and the sources' deadline.
   */
  lemma ReadExactlyWhen(q: CanonicalQuote, instrument: Instrument, t: int)
    ensures var r, w, s := Read(q, instrument), instrument.windows, q.summary;
            var isTrusted := && s.freshnessAnchor.Some? && s.sourceLiveUntil.Some?
                             && q.observedAt <= s.freshnessAnchor.value && s.freshnessAnchor.value <= q.canonicalAt
                             && s.freshnessAnchor.value <= s.sourceLiveUntil.value;
            var age := t - if isTrusted then s.freshnessAnchor.value else q.observedAt;
            && (r.Some? <==> instrument.enabled && instrument.minimumPrice <= q.price <= instrument.maximumPrice)
            && (r.Some? ==>
                  && (t <= r.value.expiresAt <==> t <= q.expiresAt && age <= w.expire)
                  && (t <= r.value.staleAt <==> t <= r.value.expiresAt && t <= q.staleAt && age <= w.stale)
                  && (t <= r.value.validUntil
                      <==> && t <= r.value.staleAt && t <= q.validUntil && age <= w.ttl
                           && (isTrusted ==> t <= s.sourceLiveUntil.value)))
  {
  }

  /** A quote that `_from_price` built under these windows at an instant no earlier than its anchor. */
  ghost predicate IsRegular(q: CanonicalQuote, w: Windows) {
    && AnchorIsPlausible(q)
    && var anchor := q.summary.freshnessAnchor.value;
    && q.validUntil == q.summary.sourceLiveUntil.value
    && q.validUntil <= anchor + w.ttl
    && q.staleAt == anchor + w.stale
    && q.expiresAt == anchor + w.expire
  }

  /** Under unchanged windows a regular quote is read back exactly as it was stored. */
  lemma RegularIsReadBack(q: CanonicalQuote, instrument: Instrument)
    requires IsRegular(q, instrument.windows) && instrument.enabled && instrument.Accepts(q.price)
    ensures Read(q, instrument) == Some(q)
  {
  }

  /**
   Unchanged windows are not enough in general.  A quote built with a live deadline more than the
   instrument's own window ahead gets an anchor in the future, which the reader does not trust: the
   quote is read back unchanged exactly when its deadline is at most one window away.
   */
  lemma ReadBackExactlyWhen(instrument: Instrument, draft: Draft, observedAt: int, now: int, until: int)
    requires instrument.enabled && instrument.Accepts(draft.price) && now <= until
    requires FromPrice(instrument, draft, observedAt, now, Some(until)).Success?
    ensures var q := FromPrice(instrument, draft, observedAt, now, Some(until)).value;
            && (Read(q, instrument) == Some(q) <==> until <= now + instrument.windows.ttl)
            && (IsRegular(q, instrument.windows) <==> until <= now + instrument.windows.ttl)
            && (until > now + instrument.windows.ttl ==>
                  Read(q, instrument).value.validUntil == observedAt + instrument.windows.ttl)
  {
  }

  // ----- one refresh --------------------------------------------------------------------------

  datatype Attempt = Attempt(
    instrument: Instrument,
    primary: PricedQuote,
    verifiers: seq<ProviderQuote>,
    market: Market,
    fromFreshCache: bool,
    savesDoubt: bool,
    saves: bool,
    now: int)

  function ReadStored(stored: Option<CanonicalQuote>, instrument: Instrument): Option<CanonicalQuote> {
    if stored.None? then None else Read(stored.value, instrument)
  }

  /** `_assess_candidate`: an absent or expired baseline is no baseline. */
  function AssessCandidate(previous: Option<CanonicalQuote>, a: Attempt): Option<Assessment> {
    if previous.None? || a.now > previous.value.expiresAt then None
    else Some(Assess(a.instrument, a.primary.price.value, previous.value.price, a.now - previous.value.observedAt,
                     a.market))
  }

  /** What `persist_canonical` leaves in the quote when the database accepts it or not. */
  function AfterPersist(q: CanonicalQuote, saves: bool): CanonicalQuote {
    if saves then q.(isPersisted := true)
    else if q.status in {LiveQuote, Confirmed, FreshCache} then
      q.(isPersisted := false, status := UnpersistedQuote, summary := q.summary.(savedStatus := Some(q.status)))
    else q.(isPersisted := false)
  }

  /** A quote counts as stored exactly when it is; a new price that is not is marked, and remembers its status. */
  lemma PersistedExactlyWhen(q: CanonicalQuote, saves: bool)
    ensures var after := AfterPersist(q, saves);
            var isMarked := !saves && (q.status == LiveQuote || q.status == Confirmed || q.status == FreshCache);
            && (after.isPersisted <==> saves)
            && (if isMarked then after.status == UnpersistedQuote && after.summary.savedStatus == Some(q.status)
                else after.status == q.status && after.summary == q.summary)
            && after.(isPersisted := q.isPersisted, status := q.status, summary := q.summary) == q
            && after.summary.(savedStatus := q.summary.savedStatus) == q.summary
  {
  }

  /** `_commit`: an older observation never replaces a newer one. */
  function Commit(
    stored: Option<CanonicalQuote>, q: CanonicalQuote, previous: Option<CanonicalQuote>, saves: bool):
    Option<CanonicalQuote> {
    if previous.Some? && q.observedAt < previous.value.observedAt then stored else Some(AfterPersist(q, saves))
  }

  /** Select and commit over `stored`, comparing ages with `base`; a refusal leaves `stored`. */
  function Conclude(
    a: Attempt, candidate: PricedQuote, previous: Option<CanonicalQuote>, assessment: Option<Assessment>,
    verifiers: seq<ProviderQuote>, stored: Option<CanonicalQuote>, base: Option<CanonicalQuote>): Option<CanonicalQuote>
  {
    var decision := Decide(a.instrument, candidate, previous, assessment, verifiers, a.fromFreshCache, a.now);
    if decision.Failure? then stored else Commit(stored, decision.value.canonical, base, a.saves)
  }

  /** `refresh_instrument` once a fresh primary is at hand; an exception leaves what was committed before it. */
  function Step(stored: Option<CanonicalQuote>, a: Attempt): Option<CanonicalQuote> {
    if !a.instrument.enabled then stored else
      var previous := ReadStored(stored, a.instrument);
      var assessment := AssessCandidate(previous, a);
      if assessment.Some? && assessment.value.isSuspicious then
        var candidate := a.primary.(validation := Suspicious);
        var doubt := KeepPrevious(previous.value, candidate, Verifying, a.now);
        if doubt.Failure? then stored else
          var shown := Commit(stored, doubt.value, previous, a.savesDoubt);
          Conclude(a, candidate, previous, assessment, a.verifiers, shown, shown)
      else
        Conclude(a, a.primary, previous, assessment, [], stored, previous)
  }

  // ----- what one refresh can do to the price -------------------------------------------------

  /** The stored quote serves as a baseline for this attempt. */
  predicate HasBaseline(stored: Option<CanonicalQuote>, a: Attempt) {
    var previous := ReadStored(stored, a.instrument);
    previous.Some? && a.now <= previous.value.expiresAt
  }

  predicate Corroborates(q: ProviderQuote, price: Price, percent: real) {
    q.price.Some? && (Within(q.price.value, price, percent) || Within(price, q.price.value, percent))
  }

  predicate IsSource(q: ProviderQuote, a: Attempt) {
    && (q in a.verifiers || q == a.primary.(validation := Suspicious))
    && q.persistence.Persisted? && IsFresh(q, a.instrument, a.now)
  }

  /** Two stored, fresh sources of different families and venues agree with the price within the ceiling. */
  predicate BackedPair(p: ProviderQuote, q: ProviderQuote, price: Price, a: Attempt) {
    && IsSource(p, a) && IsSource(q, a) && Independent(p, q)
    && Corroborates(p, price, a.instrument.maximumThreshold)
    && Corroborates(q, price, a.instrument.maximumThreshold)
  }

  ghost predicate IsBacked(price: Price, a: Attempt) {
    exists p, q :: BackedPair(p, q, price, a)
  }

  lemma CeilingCoversTolerance(x: real, reference: Price, tolerance: real, ceiling: real)
    requires x / reference * 100.0 <= tolerance <= ceiling
    ensures x * 100.0 <= ceiling * reference
  {
    DivisionFree(x, reference, tolerance);
    assert (ceiling - tolerance) * reference >= 0.0;
  }

  lemma {:induction false} ConfirmingAgree(primary: PricedQuote, verifiers: seq<PricedQuote>, tolerance: real)
    ensures forall v <- Confirming(primary, verifiers, tolerance) ::
              v in verifiers && DifferencePercent(primary.price.value, v.price.value) <= tolerance
  {
    if verifiers != [] {
      ConfirmingAgree(primary, verifiers[..|verifiers| - 1], tolerance);
    }
  }

  /** The candidate and its verifiers are stored, fresh sources. */
  lemma ComparableAreSources(candidate: PricedQuote, a: Attempt)
    requires IsSource(candidate, a)
    ensures forall q <- [candidate] + ValidVerifiers(a.verifiers, candidate, a.instrument, a.now) :: IsSource(q, a)
  {
    VerifiersAreUsable(a.verifiers, candidate, a.instrument, a.now);
    var verifiers := ValidVerifiers(a.verifiers, candidate, a.instrument, a.now);
    forall q | q in [candidate] + verifiers ensures IsSource(q, a) {
      if q in verifiers {
        assert IsUsableVerifier(q, candidate, a.instrument, a.now);
      }
    }
  }

  lemma NonNegativeCeiling(x: Price, y: Price, percent: real)
    requires Within(x, y, percent)
    ensures percent >= 0.0
    ensures Within(x, x, percent)
  {
    assert percent * y >= 0.0;
    assert percent >= 0.0;
    assert percent * x >= 0.0;
  }

  lemma ConfirmerCorroborates(candidate: PricedQuote, v: PricedQuote, tolerance: real, ceiling: real)
    requires DifferencePercent(candidate.price.value, v.price.value) <= tolerance <= ceiling
    ensures Corroborates(candidate, candidate.price.value, ceiling) && Corroborates(v, candidate.price.value, ceiling)
  {
    CeilingCoversTolerance(Abs(candidate.price.value - v.price.value), v.price.value, tolerance, ceiling);
    NonNegativeCeiling(candidate.price.value, v.price.value, ceiling);
  }

  lemma HeadIsIndependent(candidate: PricedQuote, verifiers: seq<PricedQuote>, v: PricedQuote)
    requires PairwiseIndependent([candidate] + verifiers) && v in verifiers
    ensures Independent(candidate, v)
  {
    var i :| 0 <= i < |verifiers| && verifiers[i] == v;
    assert Independent(([candidate] + verifiers)[0], ([candidate] + verifiers)[i + 1]);
  }

  /** A confirmed price is the candidate's own and lies within tolerance of an independent verifier. */
  lemma ConfirmedIsBacked(candidate: PricedQuote, a: Attempt, verifiers: seq<PricedQuote>, tolerance: real)
    requires verifiers == ValidVerifiers(a.verifiers, candidate, a.instrument, a.now) && IsSource(candidate, a)
    requires tolerance <= a.instrument.maximumThreshold
    requires Confirming(candidate, verifiers, tolerance) != []
    ensures IsBacked(candidate.price.value, a)
  {
    ConfirmingAgree(candidate, verifiers, tolerance);
    var v := Confirming(candidate, verifiers, tolerance)[0];
    assert v in verifiers && DifferencePercent(candidate.price.value, v.price.value) <= tolerance;
    ConfirmerCorroborates(candidate, v, tolerance, a.instrument.maximumThreshold);
    VerifiersAreIndependent(a.verifiers, candidate, a.instrument, a.now);
    HeadIsIndependent(candidate, verifiers, v);
    ComparableAreSources(candidate, a);
    assert v in [candidate] + verifiers;
    assert BackedPair(candidate, v, candidate.price.value, a);
  }

  lemma MemberCorroborates(c: seq<Offer<PricedQuote>>, i: nat, tolerance: real, ceiling: real)
    requires i < |c| && Fits(c, tolerance) && tolerance <= ceiling && Offers(Quotes(c)) == c
    ensures Corroborates(Quotes(c)[i], Median(c), ceiling)
  {
    assert Offers(Quotes(c))[i] == c[i];
    assert WithinTolerance(c[i].price, Median(c), tolerance);
    CeilingCoversTolerance(Abs(c[i].price - Median(c)), Median(c), tolerance, ceiling);
  }

  /** A consensus price lies within tolerance of at least two members, which are independent of each other. */
  lemma ConsensusIsBacked(candidate: PricedQuote, a: Attempt, verifiers: seq<PricedQuote>, tolerance: real)
    requires verifiers == ValidVerifiers(a.verifiers, candidate, a.instrument, a.now) && IsSource(candidate, a)
    requires tolerance <= a.instrument.maximumThreshold
    requires |Cluster(Offers([candidate] + verifiers), tolerance)| >= 2
    ensures IsBacked(ConsensusPrice(Quotes(Cluster(Offers([candidate] + verifiers), tolerance))), a)
  {
    var quotes := [candidate] + verifiers;
    var c := Cluster(Offers(quotes), tolerance);
    VerifiersAreIndependent(a.verifiers, candidate, a.instrument, a.now);
    ComparableAreSources(candidate, a);
    ClusterMembers(quotes, tolerance);
    MembersOfCluster(quotes, tolerance);
    MemberCorroborates(c, 0, tolerance, a.instrument.maximumThreshold);
    MemberCorroborates(c, 1, tolerance, a.instrument.maximumThreshold);
    var p, q := Quotes(c)[0], Quotes(c)[1];
    assert p in Quotes(c) && q in Quotes(c);
    assert Independent(p, q);
    assert BackedPair(p, q, Median(c), a);
  }

  /** The price of every basis that carries evidence against a suspicion is backed. */
  lemma EvidenceBacks(candidate: PricedQuote, assessment: Assessment, a: Attempt)
    requires candidate == a.primary.(validation := Suspicious) && IsSource(candidate, a)
    requires assessment.isSuspicious && assessment.thresholdPercent <= a.instrument.maximumThreshold
    ensures var basis :=
            BasisOf(candidate, Some(assessment), ValidVerifiers(a.verifiers, candidate, a.instrument, a.now));
            Evidence(candidate, basis) != [] ==> IsBacked(PriceOf(candidate, basis), a)
  {
    var verifiers := ValidVerifiers(a.verifiers, candidate, a.instrument, a.now);
    var tolerance := assessment.thresholdPercent;
    match BasisOf(candidate, Some(assessment), verifiers) {
      case PrimaryAlone =>
      case ConfirmedBy(_) => ConfirmedIsBacked(candidate, a, verifiers, tolerance);
      case ConsensusOf(_) => ConsensusIsBacked(candidate, a, verifiers, tolerance);
      case SourcesDisagree =>
      case NoVerifier =>
    }
  }

  /** A price `select` publishes for a suspicious candidate is the previous one or is backed. */
  lemma SuspiciousIsBacked(previous: CanonicalQuote, candidate: PricedQuote, assessment: Assessment, a: Attempt)
    requires candidate == a.primary.(validation := Suspicious)
    requires assessment.isSuspicious && assessment.thresholdPercent <= a.instrument.maximumThreshold
    ensures var d :=
            Decide(a.instrument, candidate, Some(previous), Some(assessment), a.verifiers, a.fromFreshCache, a.now);
            d.Success? ==> d.value.canonical.price == previous.price || IsBacked(d.value.canonical.price, a)
  {
    var d := Decide(a.instrument, candidate, Some(previous), Some(assessment), a.verifiers, a.fromFreshCache, a.now);
    if d.Success? {
      DecisionPrice(a.instrument, candidate, Some(previous), Some(assessment), a.verifiers, a.fromFreshCache, a.now);
      EvidenceBacks(candidate, assessment, a);
    }
  }

  lemma ConcludedPrice(
    a: Attempt, candidate: PricedQuote, previous: Option<CanonicalQuote>, assessment: Option<Assessment>,
    verifiers: seq<ProviderQuote>, stored: Option<CanonicalQuote>, base: Option<CanonicalQuote>)
    ensures var r := Conclude(a, candidate, previous, assessment, verifiers, stored, base);
            var d := Decide(a.instrument, candidate, previous, assessment, verifiers, a.fromFreshCache, a.now);
            r == stored || (r.Some? && d.Success? && r.value.price == d.value.canonical.price)
  {
  }

  lemma UnsuspiciousPrice(
    candidate: PricedQuote, previous: Option<CanonicalQuote>, assessment: Option<Assessment>, a: Attempt)
    requires assessment.None? || !assessment.value.isSuspicious
    ensures var d := Decide(a.instrument, candidate, previous, assessment, [], a.fromFreshCache, a.now);
            d.Success? ==> candidate.price == Some(d.value.canonical.price)
  {
    var d := Decide(a.instrument, candidate, previous, assessment, [], a.fromFreshCache, a.now);
    if d.Success? {
      DecisionPrice(a.instrument, candidate, previous, assessment, [], a.fromFreshCache, a.now);
    }
  }

  /**
   Against a baseline, one refresh leaves the price alone, moves it by at most the instrument's hard
   ceiling, or publishes a price that two independent sources agree with.
   */
  lemma StepIsAccountedFor(stored: Option<CanonicalQuote>, a: Attempt)
    requires HasBaseline(stored, a)
    ensures Step(stored, a).Some?
    ensures var before, after := stored.value.price, Step(stored, a).value.price;
            || after == before
            || Within(after, before, a.instrument.maximumThreshold)
            || IsBacked(after, a)
  {
    var previous := ReadStored(stored, a.instrument);
    var assessment := AssessCandidate(previous, a);
    UnsuspiciousIsClose(a.instrument, a.primary.price.value, previous.value.price, a.now - previous.value.observedAt,
                        a.market);
    if assessment.value.isSuspicious {
      var candidate := a.primary.(validation := Suspicious);
      SuspiciousIsBacked(previous.value, candidate, assessment.value, a);
      var doubt := KeepPrevious(previous.value, candidate, Verifying, a.now);
      if doubt.Success? {
        var shown := Commit(stored, doubt.value, previous, a.savesDoubt);
        ConcludedPrice(a, candidate, previous, assessment, a.verifiers, shown, shown);
      }
    } else {
      UnsuspiciousPrice(a.primary, previous, assessment, a);
      ConcludedPrice(a, a.primary, previous, assessment, [], stored, previous);
    }
  }

  // ----- without a baseline -----------------------------------------------------------------------

  /** Without a baseline a refresh can only leave the stored quote or publish the primary's price. */
  lemma WithoutBaselinePrimaryWins(stored: Option<CanonicalQuote>, a: Attempt)
    requires a.instrument.enabled && !HasBaseline(stored, a)
    ensures Step(stored, a) == stored || (Step(stored, a).Some? && a.primary.price == Some(Step(stored, a).value.price))
  {
    var previous := ReadStored(stored, a.instrument);
    UnsuspiciousPrice(a.primary, previous, None, a);
    ConcludedPrice(a, a.primary, previous, None, [], stored, previous);
  }

  /** The refresh leaves the price alone, moves it within the ceiling, or publishes a backed one. */
  ghost predicate IsAccountedFor(before: CanonicalQuote, a: Attempt) {
    && Step(Some(before), a).Some?
    && var after := Step(Some(before), a).value.price;
    && (after == before.price || Within(after, before.price, a.instrument.maximumThreshold) || IsBacked(after, a))
  }

  /** What the collector delivers as a candidate: stamped, with its live bound, at a price the parsers let through. */
  ghost predicate IsDelivered(a: Attempt) {
    && a.instrument.Accepts(a.primary.price.value)
    && exists p: Provider :: IsDeliveredBy(a.primary, p, a.instrument)
  }

  /**
   The sanity bounds leave no room to move further than the ceiling allows: no positive price is inside
   them, or the highest and the lowest one are both within the ceiling of the price.
   */
  predicate HasNoRoom(instrument: Instrument, price: Price) {
    || instrument.maximumPrice <= 0.0
    || (&& instrument.maximumPrice * 100.0 <= 100.0 * price + instrument.maximumThreshold * price
        && 100.0 * price - instrument.maximumThreshold * price <= 100.0 * MaxReal(instrument.minimumPrice, 0.0))
  }

  lemma NoRoomMeansWithin(instrument: Instrument, price: Price, offered: Price)
    requires HasNoRoom(instrument, price) && instrument.Accepts(offered)
    ensures Within(offered, price, instrument.maximumThreshold)
  {
  }

  lemma RoomBeyondSlack(minimum: real, high: real, price: Price, slack: real) returns (far: Price)
    requires 0.0 < high && minimum < high
    requires 100.0 * price + slack < high * 100.0 || 100.0 * MaxReal(minimum, 0.0) < 100.0 * price - slack
    ensures minimum <= far <= high && far != price && slack < Abs(far - price) * 100.0
  {
    var low := MaxReal(minimum, 0.0);
    if slack < 0.0 {
      far := if high != price then high else (low + high) / 2.0;
    } else if high * 100.0 > 100.0 * price + slack {
      far := high;
    } else if minimum > 0.0 {
      far := minimum;
    } else {
      far := MinReal(high, (price - slack / 100.0) / 2.0);
    }
  }

  /** Where the bounds leave room, some price inside them is further away than the ceiling allows. */
  lemma RoomIsUsable(instrument: Instrument, price: Price) returns (far: Price)
    requires !HasNoRoom(instrument, price)
    ensures instrument.Accepts(far) && far != price && !Within(far, price, instrument.maximumThreshold)
  {
    var slack := instrument.maximumThreshold * price;
    far := RoomBeyondSlack(instrument.minimumPrice, instrument.maximumPrice, price, slack);
  }

  /** A source whose live window is that of the instrument. */
  function LoneProvider(instrument: Instrument): Provider {
    Provider(instrument.windows.ttl, None, false)
  }

  /** One persisted quote, observed just now, as the collector delivers it. */
  function LoneQuote(instrument: Instrument, price: Price, now: int): PricedQuote {
    ProviderQuote(None, instrument.id, "", Some(price), now, now, Accepted, Persisted, ExchangeTrade, "", "", 1.0, 0,
                  [],
                  StampOf(LoneProvider(instrument), instrument.windows), Some(now + instrument.windows.ttl), None,
                    false)
  }

  function LoneAttempt(instrument: Instrument, price: Price, now: int): Attempt {
    Attempt(instrument, LoneQuote(instrument, price, now), [], Market(0.0, 1.0), false, true, true, now)
  }

  lemma LoneQuoteIsDelivered(instrument: Instrument, price: Price, now: int)
    ensures IsDeliveredBy(LoneQuote(instrument, price, now), LoneProvider(instrument), instrument)
  {
  }

  /** A quote without verifiers cannot be corroborated. */
  lemma LoneIsNotBacked(a: Attempt, price: Price)
    requires a.verifiers == []
    ensures !IsBacked(price, a)
  {
    forall p, q ensures !BackedPair(p, q, price, a) {
    }
  }

  lemma LoneQuoteIsFresh(instrument: Instrument, price: Price, now: int)
    ensures IsFresh(LoneQuote(instrument, price, now), instrument, now)
    ensures LiveUntil(LoneQuote(instrument, price, now), instrument) == Success(now + instrument.windows.ttl)
  {
  }

  /** What `select` makes of a lone quote when nothing was assessed. */
  lemma LoneDecision(instrument: Instrument, price: Price, previous: Option<CanonicalQuote>, now: int)
    ensures var q := LoneQuote(instrument, price, now);
            var d := Decide(instrument, q, previous, None, [], false, now);
            d.Success? && d.value.canonical.price == price && d.value.canonical.observedAt == now
  {
    var q := LoneQuote(instrument, price, now);
    LoneQuoteIsFresh(instrument, price, now);
    assert ValidVerifiers([], q, instrument, now) == [];
    assert Deadlines([q], instrument) == [now + instrument.windows.ttl];
    assert MinLiveUntil([q], instrument) == Success(now + instrument.windows.ttl);
  }

  /** Without a baseline a single source's price is published, whatever it is. */
  lemma LoneQuoteWins(before: CanonicalQuote, instrument: Instrument, price: Price, now: int)
    requires instrument.enabled && before.observedAt <= now
    requires !HasBaseline(Some(before), LoneAttempt(instrument, price, now))
    ensures Step(Some(before), LoneAttempt(instrument, price, now)).Some?
    ensures Step(Some(before), LoneAttempt(instrument, price, now)).value.price == price
  {
    var a := LoneAttempt(instrument, price, now);
    var previous := ReadStored(Some(before), instrument);
    LoneDecision(instrument, price, previous, now);
    ReadNeverExtends(before, instrument);
    assert AssessCandidate(previous, a).None?;
  }

  /** The stored quote can be compared with at this instant. */
  predicate IsBaseline(before: CanonicalQuote, instrument: Instrument, now: int) {
    var previous := Read(before, instrument);
    previous.Some? && now <= previous.value.expiresAt
  }

  lemma NoRoomIsAccountedFor(before: CanonicalQuote, a: Attempt)
    requires a.instrument.enabled && !HasBaseline(Some(before), a)
    requires HasNoRoom(a.instrument, before.price) && a.instrument.Accepts(a.primary.price.value)
    ensures IsAccountedFor(before, a)
  {
    WithoutBaselinePrimaryWins(Some(before), a);
    NoRoomMeansWithin(a.instrument, before.price, a.primary.price.value);
  }

  lemma RoomIsNotAccountedFor(before: CanonicalQuote, instrument: Instrument, now: int) returns (a: Attempt)
    requires instrument.enabled && before.observedAt <= now
    requires !IsBaseline(before, instrument, now) && !HasNoRoom(instrument, before.price)
    ensures a.instrument == instrument && a.now == now && IsDelivered(a) && !IsAccountedFor(before, a)
  {
    var far := RoomIsUsable(instrument, before.price);
    a := LoneAttempt(instrument, far, now);
    LoneQuoteIsDelivered(instrument, far, now);
    LoneQuoteWins(before, instrument, far, now);
    LoneIsNotBacked(a, far);
  }

  /**
   Every refresh of an enabled instrument at this instant is accounted for, whatever the collector
   delivers, if and only if the stored quote still serves as a baseline, or the sanity bounds leave no
   room for a larger move.
   */
  lemma AccountedForExactlyWhen(before: CanonicalQuote, instrument: Instrument, now: int)
    requires instrument.enabled && before.observedAt <= now
    ensures (forall a: Attempt | a.instrument == instrument && a.now == now
            && IsDelivered(a) :: IsAccountedFor(before, a))
            <==> IsBaseline(before, instrument, now) || HasNoRoom(instrument, before.price)
  {
    if IsBaseline(before, instrument, now) || HasNoRoom(instrument, before.price) {
      forall a: Attempt | a.instrument == instrument && a.now == now && IsDelivered(a)
        ensures IsAccountedFor(before, a) {
        if IsBaseline(before, instrument, now) {
          StepIsAccountedFor(Some(before), a);
        } else {
          NoRoomIsAccountedFor(before, a);
        }
      }
    } else {
      var a := RoomIsNotAccountedFor(before, instrument, now);
    }
  }

  /**
   For instance, with the released bounds (0.8 to 1.2) and ceiling (2 percent) of the dollar price of
   USDT: once a stored price of 1 has expired, a single delivered quote moves it to 1.1.
   */
  lemma ExpiredBaselineBoundsNothing(before: CanonicalQuote, instrument: Instrument)
    requires instrument == InstrumentDefinition(UsdtUsd, Windows(360, 900, 1800), 0.5, 2.0, 0.8, 1.2, true, false)
    requires before.price == 1.0 && before.observedAt <= before.expiresAt
    ensures var a := LoneAttempt(instrument, 1.1, before.expiresAt + 1);
            && IsDelivered(a)
            && Step(Some(before), a).Some? && Step(Some(before), a).value.price == 1.1
            && !IsAccountedFor(before, a)
  {
    var now := before.expiresAt + 1;
    var a := LoneAttempt(instrument, 1.1, now);
    ReadNeverExtends(before, instrument);
    LoneQuoteIsDelivered(instrument, 1.1, now);
    LoneQuoteWins(before, instrument, 1.1, now);
    LoneIsNotBacked(a, 1.1);
  }

  // ----- runs ---------------------------------------------------------------------------------

  function Run(stored: Option<CanonicalQuote>, attempts: seq<Attempt>): Option<CanonicalQuote> {
    if attempts == [] then stored
    else Step(Run(stored, attempts[..|attempts| - 1]), attempts[|attempts| - 1])
  }

  /** From the stored quote to the next one the price moved by at most `percent`. */
  predicate MovedWithin(before: Option<CanonicalQuote>, after: Option<CanonicalQuote>, percent: real) {
    && before.Some? && after.Some?
    && (after.value.price == before.value.price || Within(after.value.price, before.value.price, percent))
  }

  /** If the attempt moves the price, then from a baseline, and no second source backs where it moves it to. */
  ghost predicate IsLone(before: Option<CanonicalQuote>, a: Attempt, after: Option<CanonicalQuote>, ceiling: real) {
    before.Some? && after.Some? && after.value.price != before.value.price ==>
      HasBaseline(before, a) && a.instrument.maximumThreshold <= ceiling && !IsBacked(after.value.price, a)
  }

  lemma StepKeepsQuote(stored: Option<CanonicalQuote>, a: Attempt)
    requires stored.Some?
    ensures Step(stored, a).Some?
  {
  }

  lemma {:induction false} RunKeepsQuote(stored: Option<CanonicalQuote>, attempts: seq<Attempt>)
    requires stored.Some?
    ensures Run(stored, attempts).Some?
  {
    if attempts != [] {
      var n := |attempts| - 1;
      RunKeepsQuote(stored, attempts[..n]);
      StepKeepsQuote(Run(stored, attempts[..n]), attempts[n]);
      RunSteps(stored, attempts);
    }
  }

  lemma ProductIsNonNegative(x: real, y: real)
    requires x >= 0.0 && y >= 0.0
    ensures x * y >= 0.0
  {
  }

  lemma CeilingIsMonotone(x: Price, y: Price, percent: real, ceiling: real)
    requires percent <= ceiling
    ensures Within(x, y, percent) ==> Within(x, y, ceiling)
  {
    ProductIsNonNegative(ceiling - percent, y);
    assert (ceiling - percent) * y == ceiling * y - percent * y;
  }

  lemma LoneStepIsSmall(before: Option<CanonicalQuote>, a: Attempt, ceiling: real)
    requires before.Some? && IsLone(before, a, Step(before, a), ceiling)
    ensures MovedWithin(before, Step(before, a), ceiling)
  {
    StepKeepsQuote(before, a);
    if Step(before, a).value.price != before.value.price {
      StepIsAccountedFor(before, a);
      CeilingIsMonotone(Step(before, a).value.price, before.value.price, a.instrument.maximumThreshold, ceiling);
    }
  }

  function Pow(x: real, n: nat): real {
    if n == 0 then 1.0 else x * Pow(x, n - 1)
  }

  /** One more move of at most `percent` multiplies both bounds once more. */
  lemma BoundGrows(start: Price, before: Price, after: Price, percent: real, up: real, down: real)
    requires 0.0 <= percent && (after == before || Within(after, before, percent))
    requires before <= start * up
    requires percent <= 100.0 ==> start * down <= before
    ensures after <= start * ((1.0 + percent / 100.0) * up)
    ensures percent <= 100.0 ==> start * ((1.0 - percent / 100.0) * down) <= after
  {
    var step := percent / 100.0;
    assert step * 100.0 == percent;
    assert percent * before == step * before * 100.0;
    assert percent * before >= 0.0;
    assert after <= before * (1.0 + step) && before * (1.0 - step) <= after;
    assert (start * up - before) * (1.0 + step) >= 0.0;
    assert start * up * (1.0 + step) == start * ((1.0 + step) * up);
    if percent <= 100.0 {
      assert (before - start * down) * (1.0 - step) >= 0.0;
      assert start * down * (1.0 - step) == start * ((1.0 - step) * down);
    }
  }

  /** k moves of at most `ceiling` percent compound to at most the k-th power of one move, up or down. */
  ghost predicate IsCompound(start: Option<CanonicalQuote>, end: Option<CanonicalQuote>, k: nat, ceiling: real) {
    && start.Some? && end.Some?
    && end.value.price <= start.value.price * Pow(1.0 + ceiling / 100.0, k)
    && (ceiling <= 100.0 ==> start.value.price * Pow(1.0 - ceiling / 100.0, k) <= end.value.price)
  }

  ghost predicate AreSmallMoves(path: seq<Option<CanonicalQuote>>, ceiling: real) {
    forall i | 0 <= i < |path| - 1 :: MovedWithin(path[i], path[i + 1], ceiling)
  }

  /** A path of prices in which every move is small stays within the powers of one move. */
  lemma {:induction false} SmallMovesCompound(path: seq<Option<CanonicalQuote>>, ceiling: real)
    requires path != [] && path[0].Some? && 0.0 <= ceiling
    requires AreSmallMoves(path, ceiling)
    ensures IsCompound(path[0], path[|path| - 1], |path| - 1, ceiling)
  {
    var k := |path| - 1;
    if k > 0 {
      SmallMovesCompound(path[..k], ceiling);
      assert MovedWithin(path[k - 1], path[k], ceiling);
      BoundGrows(path[0].value.price, path[k - 1].value.price, path[k].value.price, ceiling,
                 Pow(1.0 + ceiling / 100.0, k - 1), Pow(1.0 - ceiling / 100.0, k - 1));
    }
  }

  /** The stored quotes along a run, the first one included. */
  function Path(stored: Option<CanonicalQuote>, attempts: seq<Attempt>): (path: seq<Option<CanonicalQuote>>)
    ensures |path| == |attempts| + 1 && path[0] == stored && path[|attempts|] == Run(stored, attempts)
  {
    assert attempts[..|attempts|] == attempts;
    seq(|attempts| + 1, i requires 0 <= i <= |attempts| => Run(stored, attempts[..i]))
  }

  /** Every attempt of the run that moves the price works alone. */
  ghost predicate IsUncorroborated(stored: Option<CanonicalQuote>, attempts: seq<Attempt>, ceiling: real) {
    forall i | 0 <= i < |attempts| ::
      IsLone(Path(stored, attempts)[i], attempts[i], Path(stored, attempts)[i + 1], ceiling)
  }

  lemma PathSteps(stored: Option<CanonicalQuote>, attempts: seq<Attempt>, i: nat)
    requires i < |attempts|
    ensures Path(stored, attempts)[i + 1] == Step(Path(stored, attempts)[i], attempts[i])
  {
    var upto := attempts[..i + 1];
    assert upto[..i] == attempts[..i] && upto[i] == attempts[i];
    RunSteps(stored, upto);
  }

  lemma RunSteps(stored: Option<CanonicalQuote>, attempts: seq<Attempt>)
    requires attempts != []
    ensures Run(stored, attempts) == Step(Run(stored, attempts[..|attempts| - 1]), attempts[|attempts| - 1])
  {
  }

  lemma LoneMoveIsSmall(stored: Option<CanonicalQuote>, attempts: seq<Attempt>, ceiling: real, i: nat)
    requires stored.Some? && i < |attempts|
    requires IsLone(Path(stored, attempts)[i], attempts[i], Path(stored, attempts)[i + 1], ceiling)
    ensures MovedWithin(Path(stored, attempts)[i], Path(stored, attempts)[i + 1], ceiling)
  {
    RunKeepsQuote(stored, attempts[..i]);
    PathSteps(stored, attempts, i);
    LoneStepIsSmall(Path(stored, attempts)[i], attempts[i], ceiling);
  }

  lemma LoneMovesAreSmall(stored: Option<CanonicalQuote>, attempts: seq<Attempt>, ceiling: real)
    requires stored.Some? && IsUncorroborated(stored, attempts, ceiling)
    ensures AreSmallMoves(Path(stored, attempts), ceiling)
  {
    forall i | 0 <= i < |attempts|
      ensures MovedWithin(Path(stored, attempts)[i], Path(stored, attempts)[i + 1], ceiling) {
      LoneMoveIsSmall(stored, attempts, ceiling, i);
    }
  }

  /**
   However long one source works alone, in k refreshes it moves the price by at most the k-th
   power of the ceiling, up or down.
   */
  lemma LoneSourceIsBounded(stored: Option<CanonicalQuote>, attempts: seq<Attempt>, ceiling: real)
    requires stored.Some? && 0.0 <= ceiling
    requires IsUncorroborated(stored, attempts, ceiling)
    ensures IsCompound(stored, Run(stored, attempts), |attempts|, ceiling)
  {
    LoneMovesAreSmall(stored, attempts, ceiling);
    SmallMovesCompound(Path(stored, attempts), ceiling);
  }
}
