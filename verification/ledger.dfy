/**
 All instruments together: refreshes and formula fallbacks in any order, against one clock and
 one set of instrument definitions.  What every reachable ledger keeps.
 */
module Ledger {
  import opened Wrappers
  import opened Freshness
  import opened Models
  import opened Anomaly
  import opened Consensus
  import opened Canonical
  import opened Decisions
  import opened Refresh
  import opened Derived

  /**
   A published quote with its history: the live deadlines of the provider quotes its price rests
   on, directly or through formulas; the instruments those formulas used; and whether the deadline
   that a reader is shown is exactly the earliest of them.
   */
  datatype Entry = Entry(quote: CanonicalQuote, deadlines: seq<int>, uses: set<InstrumentId>, exact: bool)

  datatype State = State(clock: int, entries: map<InstrumentId, Entry>)

  type Catalogue = map<InstrumentId, Instrument>

  // ----- evidence of one refresh --------------------------------------------------------------

  /** The quotes that set the stored price if this refresh replaced it, and none if it did not. */
  function NewEvidence(stored: Option<CanonicalQuote>, a: Attempt): seq<PricedQuote> {
    if !a.instrument.enabled then [] else
      var previous := ReadStored(stored, a.instrument);
      var assessment := AssessCandidate(previous, a);
      if assessment.Some? && assessment.value.isSuspicious then
        var candidate := a.primary.(validation := Suspicious);
        var doubt := KeepPrevious(previous.value, candidate, Verifying, a.now);
        if doubt.Failure? then [] else
          Replacement(a, candidate, previous, assessment, a.verifiers,
                      Commit(stored, doubt.value, previous, a.savesDoubt))
      else
        Replacement(a, a.primary, previous, assessment, [], previous)
  }

  function Replacement(
    a: Attempt, candidate: PricedQuote, previous: Option<CanonicalQuote>, assessment: Option<Assessment>,
    verifiers: seq<ProviderQuote>, base: Option<CanonicalQuote>): seq<PricedQuote>
  {
    var decision := Decide(a.instrument, candidate, previous, assessment, verifiers, a.fromFreshCache, a.now);
    if decision.Failure? || (base.Some? && decision.value.canonical.observedAt < base.value.observedAt) then []
    else Evidence(candidate, BasisOf(candidate, assessment, ValidVerifiers(verifiers, candidate, a.instrument, a.now)))
  }

  /**
   A quote as collected: observed before it was received, received by now, live by the
   collector's own bound, direct.
   */
  predicate IsCollected(q: ProviderQuote, now: int) {
    && q.observedAt <= q.receivedAt <= now
    && (q.effectiveLiveUntil.Some? ==> now <= q.effectiveLiveUntil.value)
    && !q.IsDerived()
    && q.depth == 0
  }

  ghost predicate IsSound(a: Attempt, catalogue: Catalogue, clock: int) {
    && a.primary.instrumentId == a.instrument.id
    && a.instrument.id in catalogue && catalogue[a.instrument.id] == a.instrument
    && clock <= a.now
    && IsCollected(a.primary, a.now)
    && forall q <- a.verifiers :: IsCollected(q, a.now)
  }

  // ----- what an entry keeps ------------------------------------------------------------------

  /** The lineage entries of a summary are readable, and depth costs confidence. */
  predicate HasLineage(summary: SourceSummary) {
    && summary.depth.Some? && 0 <= summary.depth.value <= MAXIMUM_DEPTH
    && var c := summary.confidence.GetOr(1.0);
    && 0.0 <= c <= Pow(0.9, summary.depth.value)
  }

  /** How deep formulas can nest with the registered formulas. */
  function Level(id: InstrumentId): nat {
    if id == UsdToman then 1
    else if id == Silver999Toman || id == BtcToman then 2
    else if id == Silver925Toman then 3
    else 0
  }

  ghost predicate EntryInv(id: InstrumentId, e: Entry, w: Windows, clock: int) {
    && e.quote.canonicalAt <= clock
    && e.deadlines != []
    && e.quote.validUntil <= MinOf(e.deadlines)
    && (e.exact ==> IsRegular(e.quote, w) && e.quote.validUntil == MinOf(e.deadlines))
    && (!e.exact ==> Cut(e.quote, w).validUntil < MinOf(e.deadlines))
    && HasLineage(e.quote.summary)
    && e.quote.summary.depth.value <= Level(id)
    && (forall u <- e.uses :: OfInstrument(u) in e.quote.summary.provenance && u != id)
  }

  ghost predicate Inv(s: State, catalogue: Catalogue) {
    forall id <- s.entries :: id in catalogue && EntryInv(id, s.entries[id], catalogue[id].windows, s.clock)
  }

  // ----- refreshes ----------------------------------------------------------------------------

  lemma CollectedDeadline(q: ProviderQuote, instrument: Instrument, now: int)
    requires IsCollected(q, now) && IsFresh(q, instrument, now)
    ensures LiveUntil(q, instrument).Success?
    ensures now <= LiveUntil(q, instrument).value <= now + instrument.windows.ttl
  {
  }

  /** The evidence for a decision is drawn from the candidate and its verifiers. */
  lemma EvidenceMembers(candidate: PricedQuote, assessment: Option<Assessment>, verifiers: seq<PricedQuote>)
    requires PairwiseIndependent([candidate] + verifiers)
    ensures forall q <- Evidence(candidate, BasisOf(candidate, assessment, verifiers)) :: q in [candidate] + verifiers
  {
    match BasisOf(candidate, assessment, verifiers) {
      case PrimaryAlone =>
      case ConfirmedBy(_) => ConfirmingAgree(candidate, verifiers, assessment.value.thresholdPercent);
      case ConsensusOf(_) => MembersOfCluster([candidate] + verifiers, assessment.value.thresholdPercent);
      case SourcesDisagree =>
      case NoVerifier =>
    }
  }

  /** The quotes behind a decision are collected and fresh. */
  lemma EvidenceIsCollected(
    candidate: PricedQuote, assessment: Option<Assessment>, quotes: seq<ProviderQuote>, instrument: Instrument,
    now: int)
    requires IsCollected(candidate, now) && IsFresh(candidate, instrument, now)
    requires forall q <- quotes :: IsCollected(q, now)
    ensures var verifiers := ValidVerifiers(quotes, candidate, instrument, now);
            forall q <- Evidence(candidate, BasisOf(candidate, assessment, verifiers)) ::
              IsCollected(q, now) && IsFresh(q, instrument, now)
  {
    var verifiers := ValidVerifiers(quotes, candidate, instrument, now);
    VerifiersAreIndependent(quotes, candidate, instrument, now);
    VerifiersAreUsable(quotes, candidate, instrument, now);
    EvidenceMembers(candidate, assessment, verifiers);
    forall q | q in Evidence(candidate, BasisOf(candidate, assessment, verifiers))
      ensures IsCollected(q, now) && IsFresh(q, instrument, now)
    {
      if q != candidate {
        assert q in verifiers;
        assert IsUsableVerifier(q, candidate, instrument, now);
      }
    }
  }

  lemma DeadlinesAreNear(quotes: seq<ProviderQuote>, instrument: Instrument, now: int)
    requires quotes != [] && forall q <- quotes :: IsCollected(q, now) && IsFresh(q, instrument, now)
    ensures forall i | 0 <= i < |quotes| :: LiveUntil(quotes[i], instrument).Success?
    ensures now <= MinOf(Deadlines(quotes, instrument)) <= now + instrument.windows.ttl
  {
    forall i | 0 <= i < |quotes|
      ensures LiveUntil(quotes[i], instrument).Success?
      ensures now <= LiveUntil(quotes[i], instrument).value <= now + instrument.windows.ttl
    {
      assert quotes[i] in quotes;
      CollectedDeadline(quotes[i], instrument, now);
    }
  }

  /** A decision with evidence is what `_from_price` builds from its draft and the weakest deadline. */
  lemma DecisionShape(
    instrument: Instrument, primary: ProviderQuote, previous: Option<CanonicalQuote>, assessment: Option<Assessment>,
    quotes: seq<ProviderQuote>, fromFreshCache: bool, now: int)
    requires Decide(instrument, primary, previous, assessment, quotes, fromFreshCache, now).Success?
    requires Evidence(primary, BasisOf(primary, assessment, ValidVerifiers(quotes, primary, instrument, now))) != []
    ensures var basis := BasisOf(primary, assessment, ValidVerifiers(quotes, primary, instrument, now));
            var evidence, (draft, observedAt) := Evidence(primary, basis), DraftOf(primary, basis, fromFreshCache);
            && MinLiveUntil(evidence, instrument).Success?
            && FromPrice(instrument, draft, observedAt, now, Some(MinLiveUntil(evidence, instrument).value))
               == Success(Decide(instrument, primary, previous, assessment, quotes, fromFreshCache,
                                 now).value.canonical)
  {
  }

  lemma DraftLineage(primary: PricedQuote, basis: Basis, fromFreshCache: bool)
    requires Evidence(primary, basis) != [] && forall q <- Evidence(primary, basis) :: q.depth == 0
    ensures DraftOf(primary, basis, fromFreshCache).0.summary.depth == Some(0)
    ensures DraftOf(primary, basis, fromFreshCache).0.summary.confidence == None
  {
    if basis.ConsensusOf? {
      assert ConsensusLead(primary, basis.members) in basis.members;
    } else {
      assert Evidence(primary, basis)[0] == primary;
    }
  }

  lemma BuiltIsRegular(instrument: Instrument, draft: Draft, observedAt: int, now: int, until: int)
    requires now <= until <= now + instrument.windows.ttl
    requires FromPrice(instrument, draft, observedAt, now, Some(until)).Success?
    ensures var q := FromPrice(instrument, draft, observedAt, now, Some(until)).value;
            && IsRegular(q, instrument.windows) && q.validUntil == until && q.canonicalAt == now
            && q.summary.depth == draft.summary.depth && q.summary.confidence == draft.summary.confidence
            && q.summary.provenance == draft.summary.provenance
  {
  }

  /** A quote decided on collected evidence: regular, valid until the weakest deadline, of depth zero. */
  ghost predicate IsDirect(q: CanonicalQuote, evidence: seq<ProviderQuote>, instrument: Instrument, now: int) {
    && evidence != []
    && (forall i | 0 <= i < |evidence| :: LiveUntil(evidence[i], instrument).Success?)
    && IsRegular(q, instrument.windows)
    && q.validUntil == MinOf(Deadlines(evidence, instrument))
    && q.canonicalAt == now
    && q.summary.depth == Some(0) && q.summary.confidence == None
  }

  lemma DecisionIsDirect(
    instrument: Instrument, primary: PricedQuote, previous: Option<CanonicalQuote>, assessment: Option<Assessment>,
    quotes: seq<ProviderQuote>, fromFreshCache: bool, now: int)
    requires Decide(instrument, primary, previous, assessment, quotes, fromFreshCache, now).Success?
    requires IsCollected(primary, now) && forall q <- quotes :: IsCollected(q, now)
    requires Evidence(primary, BasisOf(primary, assessment, ValidVerifiers(quotes, primary, instrument, now))) != []
    ensures IsDirect(Decide(instrument, primary, previous, assessment, quotes, fromFreshCache, now).value.canonical,
                     Evidence(primary, BasisOf(primary, assessment, ValidVerifiers(quotes, primary, instrument, now))),
                     instrument, now)
  {
    DecisionPrice(instrument, primary, previous, assessment, quotes, fromFreshCache, now);
    var basis := BasisOf(primary, assessment, ValidVerifiers(quotes, primary, instrument, now));
    var evidence := Evidence(primary, basis);
    EvidenceIsCollected(primary, assessment, quotes, instrument, now);
    DeadlinesAreNear(evidence, instrument, now);
    DecisionShape(instrument, primary, previous, assessment, quotes, fromFreshCache, now);
    DraftLineage(primary, basis, fromFreshCache);
    var (draft, observedAt) := DraftOf(primary, basis, fromFreshCache);
    BuiltIsRegular(instrument, draft, observedAt, now, MinOf(Deadlines(evidence, instrument)));
  }

  lemma PersistKeepsDirect(
    q: CanonicalQuote, saves: bool, evidence: seq<ProviderQuote>, instrument: Instrument, now: int)
    requires IsDirect(q, evidence, instrument, now)
    ensures IsDirect(AfterPersist(q, saves), evidence, instrument, now)
  {
  }

  lemma ConcludeReplaces(
    a: Attempt, candidate: PricedQuote, previous: Option<CanonicalQuote>, assessment: Option<Assessment>,
    verifiers: seq<ProviderQuote>, stored: Option<CanonicalQuote>, base: Option<CanonicalQuote>)
    requires IsCollected(candidate, a.now) && forall q <- verifiers :: IsCollected(q, a.now)
    requires Replacement(a, candidate, previous, assessment, verifiers, base) != []
    ensures Conclude(a, candidate, previous, assessment, verifiers, stored, base).Some?
    ensures IsDirect(Conclude(a, candidate, previous, assessment, verifiers, stored, base).value,
                     Replacement(a, candidate, previous, assessment, verifiers, base), a.instrument, a.now)
  {
    DecisionIsDirect(a.instrument, candidate, previous, assessment, verifiers, a.fromFreshCache, a.now);
    var q := Decide(a.instrument, candidate, previous, assessment, verifiers, a.fromFreshCache, a.now).value.canonical;
    PersistKeepsDirect(q, a.saves, Replacement(a, candidate, previous, assessment, verifiers, base), a.instrument,
                       a.now);
  }

  /** A refresh that replaces the price leaves a direct quote behind. */
  lemma StepReplaces(stored: Option<CanonicalQuote>, a: Attempt)
    requires IsCollected(a.primary, a.now) && forall q <- a.verifiers :: IsCollected(q, a.now)
    requires NewEvidence(stored, a) != []
    ensures Step(stored, a).Some?
    ensures IsDirect(Step(stored, a).value, NewEvidence(stored, a), a.instrument, a.now)
  {
    var previous := ReadStored(stored, a.instrument);
    var assessment := AssessCandidate(previous, a);
    if assessment.Some? && assessment.value.isSuspicious {
      var candidate := a.primary.(validation := Suspicious);
      var shown := Commit(stored, KeepPrevious(previous.value, candidate, Verifying, a.now).value, previous,
                          a.savesDoubt);
      ConcludeReplaces(a, candidate, previous, assessment, a.verifiers, shown, shown);
    } else {
      ConcludeReplaces(a, a.primary, previous, assessment, [], stored, previous);
    }
  }

  /** The same price goes on: no deadline is extended, the lineage is kept, and a regular quote stays regular. */
  ghost predicate Continues(before: CanonicalQuote, after: CanonicalQuote, w: Windows, now: int) {
    && after.validUntil <= before.validUntil
    && Cut(after, w).validUntil <= Cut(before, w).validUntil
    && after.canonicalAt <= now
    && after.summary.depth == before.summary.depth
    && after.summary.confidence == before.summary.confidence
    && after.summary.provenance == before.summary.provenance
    && (IsRegular(before, w) ==> IsRegular(after, w) && after.validUntil == before.validUntil)
  }

  lemma KeptContinues(
    stored: CanonicalQuote, instrument: Instrument, candidate: PricedQuote, status: CanonicalStatus, saves: bool,
    now: int)
    requires Read(stored, instrument).Some? && stored.canonicalAt <= now
    ensures var kept := KeepPrevious(Read(stored, instrument).value, candidate, status, now);
            kept.Success? ==>
              && Continues(stored, kept.value, instrument.windows, now)
              && Continues(stored, AfterPersist(kept.value, saves), instrument.windows, now)
  {
    ReadNeverExtends(stored, instrument);
  }

  lemma KeptDecisionContinues(stored: CanonicalQuote, a: Attempt, candidate: PricedQuote, assessment: Assessment)
    requires Read(stored, a.instrument).Some? && stored.canonicalAt <= a.now
    requires Evidence(candidate,
                      BasisOf(candidate, Some(assessment), ValidVerifiers(a.verifiers, candidate, a.instrument, a.now)))
                        == []
    ensures var d :=
            Decide(a.instrument, candidate, Read(stored, a.instrument), Some(assessment), a.verifiers, a.fromFreshCache,
                   a.now);
            d.Success? ==> Continues(stored, AfterPersist(d.value.canonical, a.saves), a.instrument.windows, a.now)
  {
    var verifiers := ValidVerifiers(a.verifiers, candidate, a.instrument, a.now);
    PublishedKeeps(stored, a, candidate, assessment, verifiers, BasisOf(candidate, Some(assessment), verifiers));
  }

  /** The verdict on the candidate does not matter to the price that is kept. */
  lemma VerdictContinues(
    before: CanonicalQuote, kept: CanonicalQuote, verification: VerificationStatus, reason: string, progress: Progress,
    saves: bool, w: Windows, now: int)
    requires Continues(before, kept, w, now)
    ensures var q := kept.(verification := verification, reason := reason,
                           summary := kept.summary.(progress := progress));
            Continues(before, AfterPersist(q, saves), w, now)
  {
  }

  lemma PublishedKeeps(
    stored: CanonicalQuote, a: Attempt, candidate: PricedQuote, assessment: Assessment, verifiers: seq<PricedQuote>,
    basis: Basis)
    requires Read(stored, a.instrument).Some? && stored.canonicalAt <= a.now && Evidence(candidate, basis) == []
    ensures var r :=
            Publish(a.instrument, candidate, Read(stored, a.instrument), Some(assessment), verifiers, basis,
                    a.fromFreshCache, a.now);
            r.Success? ==> Continues(stored, AfterPersist(r.value.canonical, a.saves), a.instrument.windows, a.now)
  {
    KeptContinues(stored, a.instrument, candidate, SuspiciousUnconfirmed, a.saves, a.now);
    var kept := KeepPrevious(Read(stored, a.instrument).value, candidate, SuspiciousUnconfirmed, a.now);
    if kept.Success? && basis.SourcesDisagree? {
      VerdictContinues(stored, kept.value, Disagreed, "disagreeing_sources_previous_canonical_kept", ProgressDisagreed,
                       a.saves, a.instrument.windows, a.now);
    }
  }

  lemma DoubtContinues(stored: CanonicalQuote, a: Attempt)
    requires stored.canonicalAt <= a.now
    requires HasBaseline(Some(stored), a)
    requires KeepPrevious(Read(stored, a.instrument).value, a.primary.(validation := Suspicious), Verifying,
                          a.now).Success?
    ensures var previous := Read(stored, a.instrument);
            var doubt := KeepPrevious(previous.value, a.primary.(validation := Suspicious), Verifying, a.now).value;
            var shown := Commit(Some(stored), doubt, previous, a.savesDoubt);
            shown.Some? && Continues(stored, shown.value, a.instrument.windows, a.now)
  {
    KeptContinues(stored, a.instrument, a.primary.(validation := Suspicious), Verifying, a.savesDoubt, a.now);
  }

  /** A refresh that does not replace the price lets the stored quote go on. */
  lemma StepContinues(stored: CanonicalQuote, a: Attempt)
    requires stored.canonicalAt <= a.now && NewEvidence(Some(stored), a) == []
    ensures Step(Some(stored), a).Some?
    ensures Continues(stored, Step(Some(stored), a).value, a.instrument.windows, a.now)
  {
    var previous := ReadStored(Some(stored), a.instrument);
    var assessment := AssessCandidate(previous, a);
    if a.instrument.enabled && assessment.Some? && assessment.value.isSuspicious {
      var candidate := a.primary.(validation := Suspicious);
      var doubt := KeepPrevious(previous.value, candidate, Verifying, a.now);
      if doubt.Success? {
        DoubtContinues(stored, a);
        var shown := Commit(Some(stored), doubt.value, previous, a.savesDoubt);
        SuspiciousContinues(stored, a, candidate, assessment.value, shown);
      }
    } else if a.instrument.enabled {
      PlainContinues(Some(stored), a, previous, assessment);
    }
  }

  lemma SuspiciousContinues(
    stored: CanonicalQuote, a: Attempt, candidate: PricedQuote, assessment: Assessment, shown: Option<CanonicalQuote>)
    requires Read(stored, a.instrument).Some? && stored.canonicalAt <= a.now
    requires shown.Some? && Continues(stored, shown.value, a.instrument.windows, a.now)
    requires Replacement(a, candidate, Read(stored, a.instrument), Some(assessment), a.verifiers, shown) == []
    ensures var r := Conclude(a, candidate, Read(stored, a.instrument), Some(assessment), a.verifiers, shown, shown);
            r.Some? && Continues(stored, r.value, a.instrument.windows, a.now)
  {
    var d := Decide(a.instrument, candidate, Read(stored, a.instrument), Some(assessment), a.verifiers,
                    a.fromFreshCache, a.now);
    if d.Success? && d.value.canonical.observedAt >= shown.value.observedAt {
      KeptDecisionContinues(stored, a, candidate, assessment);
    }
  }

  lemma PlainContinues(
    stored: Option<CanonicalQuote>, a: Attempt, previous: Option<CanonicalQuote>, assessment: Option<Assessment>)
    requires assessment.None? || !assessment.value.isSuspicious
    requires Replacement(a, a.primary, previous, assessment, [], previous) == []
    ensures Conclude(a, a.primary, previous, assessment, [], stored, previous) == stored
  {
  }

  lemma NothingFromNothing(a: Attempt)
    requires NewEvidence(None, a) == []
    ensures Step(None, a) == None
  {
    if a.instrument.enabled {
      PlainContinues(None, a, None, None);
    }
  }

  // ----- the ledger's steps -------------------------------------------------------------------

  function QuoteOf(s: State, id: InstrumentId): Option<CanonicalQuote> {
    if id in s.entries then Some(s.entries[id].quote) else None
  }

  function EvidenceDeadlines(evidence: seq<ProviderQuote>, instrument: Instrument): seq<int> {
    if forall i | 0 <= i < |evidence| ::
      LiveUntil(evidence[i], instrument).Success? then Deadlines(evidence, instrument) else []
  }

  /** One refresh; the entry's history starts anew when the price does. */
  function RefreshLedger(s: State, a: Attempt): State {
    var id := a.instrument.id;
    var stored := QuoteOf(s, id);
    var evidence, after := NewEvidence(stored, a), Step(stored, a);
    if after.None? then s.(clock := a.now)
    else if evidence != [] then
      State(a.now, s.entries[id := Entry(after.value, EvidenceDeadlines(evidence, a.instrument), {}, true)])
    else if id in s.entries then
      State(a.now, s.entries[id := s.entries[id].(quote := after.value)])
    else s.(clock := a.now)
  }

  lemma ContinuedEntry(id: InstrumentId, e: Entry, after: CanonicalQuote, w: Windows, clock: int, now: int)
    requires EntryInv(id, e, w, clock) && clock <= now && Continues(e.quote, after, w, now)
    ensures EntryInv(id, e.(quote := after), w, now)
  {
  }

  lemma DirectEntry(id: InstrumentId, q: CanonicalQuote, evidence: seq<ProviderQuote>, instrument: Instrument, now: int)
    requires IsDirect(q, evidence, instrument, now)
    ensures EntryInv(id, Entry(q, EvidenceDeadlines(evidence, instrument), {}, true), instrument.windows, now)
  {
  }

  lemma ClockAdvances(s: State, catalogue: Catalogue, now: int)
    requires Inv(s, catalogue) && s.clock <= now
    ensures Inv(s.(clock := now), catalogue)
  {
    forall id | id in s.entries ensures EntryInv(id, s.entries[id], catalogue[id].windows, now) {
      assert EntryInv(id, s.entries[id], catalogue[id].windows, s.clock);
    }
  }

  lemma ReplaceEntry(s: State, catalogue: Catalogue, id: InstrumentId, e: Entry, now: int)
    requires Inv(s, catalogue) && s.clock <= now
    requires id in catalogue && EntryInv(id, e, catalogue[id].windows, now)
    ensures Inv(State(now, s.entries[id := e]), catalogue)
  {
    ClockAdvances(s, catalogue, now);
  }

  lemma RefreshKeepsInv(s: State, a: Attempt, catalogue: Catalogue)
    requires Inv(s, catalogue) && IsSound(a, catalogue, s.clock)
    ensures Inv(RefreshLedger(s, a), catalogue)
  {
    var id := a.instrument.id;
    var stored := QuoteOf(s, id);
    var evidence := NewEvidence(stored, a);
    ClockAdvances(s, catalogue, a.now);
    if evidence != [] {
      StepReplaces(stored, a);
      var q := Step(stored, a).value;
      DirectEntry(id, q, evidence, a.instrument, a.now);
      ReplaceEntry(s, catalogue, id, Entry(q, EvidenceDeadlines(evidence, a.instrument), {}, true), a.now);
    } else if id in s.entries {
      var e := s.entries[id];
      StepContinues(e.quote, a);
      var q := Step(stored, a).value;
      ContinuedEntry(id, e, q, a.instrument.windows, s.clock, a.now);
      ReplaceEntry(s, catalogue, id, e.(quote := q), a.now);
    } else {
      NothingFromNothing(a);
    }
  }

  // ----- formula fallbacks --------------------------------------------------------------------

  /**
   A fallback: the operator's definition of the target, and the release's, which `derive` checks
   the price against.
   */
  datatype Fallback = Fallback(instrument: Instrument, released: Instrument, rates: Rates, quoteId: int,
                               storesQuote: bool, saves: bool, now: int)

  /** What a reader of all canonical quotes sees under the current definitions. */
  function Visible(s: State, catalogue: Catalogue): Snapshot {
    map id | id in s.entries && id in catalogue && Read(s.entries[id].quote, catalogue[id]).Some?
      :: Read(s.entries[id].quote, catalogue[id]).value
  }

  function DeadlinesOf(s: State, ids: seq<InstrumentId>): (r: seq<seq<int>>)
    requires forall i | 0 <= i < |ids| :: ids[i] in s.entries
    ensures |r| == |ids| && forall i | 0 <= i < |r| :: r[i] == s.entries[ids[i]].deadlines
  {
    seq(|ids|, i requires 0 <= i < |ids| => s.entries[ids[i]].deadlines)
  }

  function Concat(lists: seq<seq<int>>): seq<int> {
    if lists == [] then [] else Concat(lists[..|lists| - 1]) + lists[|lists| - 1]
  }

  function AllDeadlines(s: State, ids: seq<InstrumentId>): seq<int>
    requires forall i | 0 <= i < |ids| :: ids[i] in s.entries
  {
    Concat(DeadlinesOf(s, ids))
  }

  function AllUses(s: State, ids: seq<InstrumentId>): set<InstrumentId>
    requires forall i | 0 <= i < |ids| :: ids[i] in s.entries
  {
    if ids == [] then {} else
      var id := ids[|ids| - 1];
      AllUses(s, ids[..|ids| - 1]) + s.entries[id].uses + {id}
  }

  /**
   The entry that a derived canonical quote makes, given the inputs of its formula.  It is exact if its
   deadline is the earliest below it and lies within the target's own window.
   */
  function DerivedEntry(s: State, ids: seq<InstrumentId>, q: CanonicalQuote, instrument: Instrument, now: int): Entry
    requires forall i | 0 <= i < |ids| :: ids[i] in s.entries
  {
    var deadlines := AllDeadlines(s, ids);
    Entry(q, deadlines, AllUses(s, ids),
          q.validUntil <= now + instrument.windows.ttl && deadlines != [] && q.validUntil == MinOf(deadlines))
  }

  function FormulaQuoteOf(s: State, f: Fallback, catalogue: Catalogue): Result<ProviderQuote, DerivedError> {
    Derive(f.released, Visible(s, catalogue), f.now, f.rates)
  }

  /** `derive`, store the formula quote, `derived_fallback`, commit. */
  function DeriveLedger(s: State, f: Fallback, catalogue: Catalogue): State {
    var id := f.instrument.id;
    var derived := FormulaQuoteOf(s, f, catalogue);
    if !f.instrument.enabled || derived.Failure? || !f.storesQuote then s.(clock := f.now) else
      var c := DerivedCanonical(f.instrument, derived.value.(id := Some(f.quoteId), persistence := Persisted), f.now);
      var previous := ReadStored(QuoteOf(s, id), f.instrument);
      if c.Failure? || (previous.Some? && c.value.observedAt < previous.value.observedAt) then s.(clock := f.now) else
        var plan := ResolveFormula(f.released.id, Visible(s, catalogue), f.now, f.rates);
        InputsAreEntries(s, f, catalogue);
        State(f.now, s.entries[id := DerivedEntry(s, Inputs(plan.value), AfterPersist(c.value, f.saves), f.instrument,
                                                  f.now)])
  }

  lemma InputsAreEntries(s: State, f: Fallback, catalogue: Catalogue)
    requires FormulaQuoteOf(s, f, catalogue).Success?
    ensures var plan := ResolveFormula(f.released.id, Visible(s, catalogue), f.now, f.rates);
            plan.Some? && forall i | 0 <= i < |Inputs(plan.value)| :: Inputs(plan.value)[i] in s.entries
  {
    var ids := Inputs(ResolveFormula(f.released.id, Visible(s, catalogue), f.now, f.rates).value);
    GatheredInputs(f.released.id, ids, Visible(s, catalogue), f.now);
    var g := GatherAll(f.released.id, ids, Visible(s, catalogue), f.now).value;
    forall i | 0 <= i < |ids| ensures ids[i] in s.entries {
      assert IsReading(g, i, ids[i], Visible(s, catalogue), f.now);
    }
  }

  lemma MinOfConcat(a: seq<int>, b: seq<int>)
    requires a != [] && b != []
    ensures MinOf(a + b) == Min(MinOf(a), MinOf(b))
  {
    var m := MinOf(a + b);
    assert m in a || m in b;
    assert MinOf(a) in a + b && MinOf(b) in a + b;
  }

  ghost predicate BoundsBelow(bounds: seq<int>, lists: seq<seq<int>>) {
    |bounds| == |lists| && forall i | 0 <= i < |lists| :: lists[i] != [] && bounds[i] <= MinOf(lists[i])
  }

  ghost predicate BoundsExact(bounds: seq<int>, lists: seq<seq<int>>) {
    |bounds| == |lists| && forall i | 0 <= i < |lists| :: lists[i] != [] && bounds[i] == MinOf(lists[i])
  }

  lemma ConcatLast(lists: seq<seq<int>>)
    requires lists != []
    ensures Concat(lists) == Concat(lists[..|lists| - 1]) + lists[|lists| - 1]
    ensures |lists| == 1 ==> Concat(lists) == lists[0]
  {
    if |lists| == 1 {
      assert lists[..0] == [];
    }
  }

  lemma MinOfSplit(bounds: seq<int>, n: nat)
    requires 0 < n == |bounds| - 1
    ensures MinOf(bounds) == Min(MinOf(bounds[..n]), bounds[n])
  {
    assert bounds == bounds[..n] + [bounds[n]];
    MinOfConcat(bounds[..n], [bounds[n]]);
  }

  /** The minimum over a concatenation is bounded by the minimum over bounds of the parts. */
  lemma {:induction false} MinBelowAll(lists: seq<seq<int>>, bounds: seq<int>)
    requires lists != [] && BoundsBelow(bounds, lists)
    ensures Concat(lists) != [] && MinOf(bounds) <= MinOf(Concat(lists))
  {
    var n := |lists| - 1;
    ConcatLast(lists);
    if n > 0 {
      MinBelowAll(lists[..n], bounds[..n]);
      MinOfConcat(Concat(lists[..n]), lists[n]);
      MinOfSplit(bounds, n);
    }
  }

  /** And it is the minimum over the minima of the parts. */
  lemma {:induction false} MinExactAll(lists: seq<seq<int>>, bounds: seq<int>)
    requires lists != [] && BoundsExact(bounds, lists)
    ensures Concat(lists) != [] && MinOf(bounds) == MinOf(Concat(lists))
  {
    var n := |lists| - 1;
    ConcatLast(lists);
    if n > 0 {
      MinExactAll(lists[..n], bounds[..n]);
      MinOfConcat(Concat(lists[..n]), lists[n]);
      MinOfSplit(bounds, n);
    }
  }

  lemma {:induction false} AllUsesNamed(s: State, ids: seq<InstrumentId>, labels: seq<Label>, target: InstrumentId)
    requires forall i | 0 <= i < |ids| :: ids[i] in s.entries
    requires forall i, u | 0 <= i < |ids| && u in s.entries[ids[i]].uses + {ids[i]} :: OfInstrument(u) in labels
    requires OfInstrument(target) !in labels
    ensures forall u <- AllUses(s, ids) :: OfInstrument(u) in labels && u != target
  {
    if ids != [] {
      AllUsesNamed(s, ids[..|ids| - 1], labels, target);
    }
  }

  /** Formulas only look at instruments of a lower level. */
  lemma FormulasDescend(target: InstrumentId, quotes: Snapshot, now: int, rates: Rates)
    ensures var plan := ResolveFormula(target, quotes, now, rates);
            plan.Some? ==>
              && Inputs(plan.value) != []
              && (forall i | 0 <= i < |Inputs(plan.value)| ::
                    Level(Inputs(plan.value)[i]) < Level(target))
  {
  }

  /** Reading does not touch the lineage. */
  lemma VisibleLineage(s: State, catalogue: Catalogue, id: InstrumentId)
    requires Inv(s, catalogue) && id in Visible(s, catalogue)
    ensures var e, q := s.entries[id], Visible(s, catalogue)[id];
            && q.summary == e.quote.summary && HasLineage(q.summary) && q.summary.depth.value <= Level(id)
            && q.validUntil <= MinOf(e.deadlines)
            && (e.exact <==> q.validUntil == MinOf(e.deadlines))
  {
    ReadNeverExtends(s.entries[id].quote, catalogue[id]);
    assert EntryInv(id, s.entries[id], catalogue[id].windows, s.clock);
    if s.entries[id].exact {
      RegularIsReadBack(s.entries[id].quote, catalogue[id]);
    }
  }

  /** The deepest input of a lower level leaves room for one more level, and its confidence pays for it. */
  lemma ReadingIsPaid(
    s: State, catalogue: Catalogue, g: Gathered, k: nat, id: InstrumentId, target: InstrumentId, now: int)
    requires Inv(s, catalogue) && IsReading(g, k, id, Visible(s, catalogue), now)
    requires g.depths[k] == MaxDepth(g.depths) && Level(id) < Level(target)
    ensures MaxDepth(g.depths) + 1 <= Level(target) <= MAXIMUM_DEPTH
    ensures g.confidences[k] <= Pow(0.9, MaxDepth(g.depths))
  {
    VisibleLineage(s, catalogue, id);
  }

  lemma NineTenthsOfPower(c: real, n: nat)
    requires 0.0 <= c <= Pow(0.9, n)
    ensures 0.0 <= c * 0.90 <= Pow(0.9, n + 1)
  {
  }

  lemma DepthIsPaid(s: State, catalogue: Catalogue, g: Gathered, ids: seq<InstrumentId>, target: InstrumentId, now: int)
    requires Inv(s, catalogue) && ids != [] && AllRead(g, ids, Visible(s, catalogue), now)
    requires forall i | 0 <= i < |ids| :: Level(ids[i]) < Level(target)
    ensures MaxDepth(g.depths) + 1 <= Level(target) <= MAXIMUM_DEPTH
    ensures 0.0 <= MinConfidence(g.confidences) * 0.90 <= Pow(0.9, MaxDepth(g.depths) + 1)
  {
    var k := DeepestReading(g, ids, Visible(s, catalogue), now);
    assert IsReading(g, k, ids[k], Visible(s, catalogue), now);
    ReadingIsPaid(s, catalogue, g, k, ids[k], target, now);
    ConfidenceIsNonNegative(g, ids, Visible(s, catalogue), now);
    assert MinConfidence(g.confidences) <= g.confidences[k] by { assert g.confidences[k] in g.confidences; }
    NineTenthsOfPower(MinConfidence(g.confidences), MaxDepth(g.depths));
  }

  lemma GatheredIsPaid(s: State, catalogue: Catalogue, ids: seq<InstrumentId>, target: InstrumentId, now: int)
    requires Inv(s, catalogue) && ids != [] && forall i | 0 <= i < |ids| :: Level(ids[i]) < Level(target)
    requires GatherAll(target, ids, Visible(s, catalogue), now).Success?
    ensures var g := GatherAll(target, ids, Visible(s, catalogue), now).value;
            && MaxDepth(g.depths) + 1 <= Level(target) <= MAXIMUM_DEPTH
            && 0.0 <= MinConfidence(g.confidences) * 0.90 <= Pow(0.9, MaxDepth(g.depths) + 1)
  {
    GatheredInputs(target, ids, Visible(s, catalogue), now);
    DepthIsPaid(s, catalogue, GatherAll(target, ids, Visible(s, catalogue), now).value, ids, target, now);
  }

  /** A derived quote is no deeper than its level, and its confidence has paid for its depth. */
  lemma DerivedHasLineage(s: State, f: Fallback, catalogue: Catalogue)
    requires Inv(s, catalogue) && FormulaQuoteOf(s, f, catalogue).Success?
    ensures var d := FormulaQuoteOf(s, f, catalogue).value;
            && 1 <= d.depth <= Level(f.released.id) && d.depth <= MAXIMUM_DEPTH
            && 0.0 <= d.confidence <= Pow(0.9, d.depth)
  {
    DerivedShape(f.released, Visible(s, catalogue), f.now, f.rates);
    FormulasDescend(f.released.id, Visible(s, catalogue), f.now, f.rates);
    GatheredIsPaid(s, catalogue, Inputs(ResolveFormula(f.released.id, Visible(s, catalogue), f.now, f.rates).value),
                   f.released.id, f.now);
  }

  lemma DerivedQuoteShape(instrument: Instrument, d: ProviderQuote, now: int)
    requires d.IsDerived() && d.inputLiveUntil.Some?
    ensures var c := DerivedCanonical(instrument, d, now);
            c.Success? ==>
              && c.value.validUntil == d.inputLiveUntil.value && c.value.canonicalAt == now
              && c.value.summary.depth == Some(d.depth) && c.value.summary.confidence == Some(d.confidence)
              && c.value.summary.provenance == d.provenance
              && if c.value.validUntil <= now + instrument.windows.ttl then IsRegular(c.value, instrument.windows)
                 else Cut(c.value, instrument.windows).validUntil < c.value.validUntil
  {
  }

  lemma GatheredDeadline(s: State, catalogue: Catalogue, g: Gathered, ids: seq<InstrumentId>, now: int, i: nat)
    requires Inv(s, catalogue) && i < |ids| && IsReading(g, i, ids[i], Visible(s, catalogue), now)
    ensures ids[i] in s.entries && s.entries[ids[i]].deadlines != []
    ensures ValidUntils(g.quotes)[i] <= MinOf(s.entries[ids[i]].deadlines)
    ensures s.entries[ids[i]].exact ==> ValidUntils(g.quotes)[i] == MinOf(s.entries[ids[i]].deadlines)
  {
    VisibleLineage(s, catalogue, ids[i]);
  }

  lemma GatheredBelow(s: State, catalogue: Catalogue, g: Gathered, ids: seq<InstrumentId>, now: int)
    requires Inv(s, catalogue) && AllRead(g, ids, Visible(s, catalogue), now)
    requires forall i | 0 <= i < |ids| :: ids[i] in s.entries
    ensures BoundsBelow(ValidUntils(g.quotes), DeadlinesOf(s, ids))
  {
    var lists, bounds := DeadlinesOf(s, ids), ValidUntils(g.quotes);
    forall i | 0 <= i < |lists| ensures lists[i] != [] && bounds[i] <= MinOf(lists[i]) {
      GatheredDeadline(s, catalogue, g, ids, now, i);
    }
  }

  lemma GatheredExact(s: State, catalogue: Catalogue, g: Gathered, ids: seq<InstrumentId>, now: int)
    requires Inv(s, catalogue) && AllRead(g, ids, Visible(s, catalogue), now)
    requires forall i | 0 <= i < |ids| :: ids[i] in s.entries && s.entries[ids[i]].exact
    ensures BoundsExact(ValidUntils(g.quotes), DeadlinesOf(s, ids))
  {
    var lists, bounds := DeadlinesOf(s, ids), ValidUntils(g.quotes);
    forall i | 0 <= i < |lists| ensures lists[i] != [] && bounds[i] == MinOf(lists[i]) {
      GatheredDeadline(s, catalogue, g, ids, now, i);
    }
  }

  lemma GatheredDeadlines(s: State, catalogue: Catalogue, g: Gathered, ids: seq<InstrumentId>, now: int)
    requires Inv(s, catalogue) && ids != [] && AllRead(g, ids, Visible(s, catalogue), now)
    requires forall i | 0 <= i < |ids| :: ids[i] in s.entries
    ensures AllDeadlines(s, ids) != []
    ensures MinOf(ValidUntils(g.quotes)) <= MinOf(AllDeadlines(s, ids))
    ensures (forall i | 0 <= i < |ids| :: s.entries[ids[i]].exact)
            ==> MinOf(ValidUntils(g.quotes)) == MinOf(AllDeadlines(s, ids))
  {
    GatheredBelow(s, catalogue, g, ids, now);
    MinBelowAll(DeadlinesOf(s, ids), ValidUntils(g.quotes));
    if forall i | 0 <= i < |ids| :: s.entries[ids[i]].exact {
      GatheredExact(s, catalogue, g, ids, now);
      MinExactAll(DeadlinesOf(s, ids), ValidUntils(g.quotes));
    }
  }

  /** The deadline of a derived quote against the deadlines of everything below it. */
  lemma DerivedDeadlines(s: State, f: Fallback, catalogue: Catalogue)
    requires Inv(s, catalogue) && FormulaQuoteOf(s, f, catalogue).Success?
    ensures ResolveFormula(f.released.id, Visible(s, catalogue), f.now, f.rates).Some?
    ensures var ids := Inputs(ResolveFormula(f.released.id, Visible(s, catalogue), f.now, f.rates).value);
            var until := FormulaQuoteOf(s, f, catalogue).value.inputLiveUntil;
            && until.Some?
            && (forall i | 0 <= i < |ids| :: ids[i] in s.entries)
            && AllDeadlines(s, ids) != []
            && until.value <= MinOf(AllDeadlines(s, ids))
            && ((forall i | 0 <= i < |ids| :: s.entries[ids[i]].exact) ==> until.value == MinOf(AllDeadlines(s, ids)))
  {
    var quotes := Visible(s, catalogue);
    var ids := Inputs(ResolveFormula(f.released.id, quotes, f.now, f.rates).value);
    DerivedShape(f.released, quotes, f.now, f.rates);
    InputsAreEntries(s, f, catalogue);
    GatheredInputs(f.released.id, ids, quotes, f.now);
    var g := GatherAll(f.released.id, ids, quotes, f.now).value;
    GatheredDeadlines(s, catalogue, g, ids, f.now);
  }

  /** Everything a derived quote rests on is named in its provenance, and it is not among them. */
  lemma DerivedUses(s: State, f: Fallback, catalogue: Catalogue)
    requires Inv(s, catalogue) && FormulaQuoteOf(s, f, catalogue).Success?
    ensures ResolveFormula(f.released.id, Visible(s, catalogue), f.now, f.rates).Some?
    ensures var ids := Inputs(ResolveFormula(f.released.id, Visible(s, catalogue), f.now, f.rates).value);
            && (forall i | 0 <= i < |ids| :: ids[i] in s.entries)
            && (forall u <- AllUses(s, ids) ::
                  OfInstrument(u) in FormulaQuoteOf(s, f, catalogue).value.provenance && u != f.released.id)
  {
    var quotes := Visible(s, catalogue);
    var ids := Inputs(ResolveFormula(f.released.id, quotes, f.now, f.rates).value);
    var d := FormulaQuoteOf(s, f, catalogue).value;
    InputsAreEntries(s, f, catalogue);
    FormulasDescend(f.released.id, quotes, f.now, f.rates);
    DerivedLineage(f.released, quotes, f.now, f.rates);
    forall i, u | 0 <= i < |ids| && u in s.entries[ids[i]].uses + {ids[i]} ensures OfInstrument(u) in d.provenance {
      assert IsBelow(d, ids[i], quotes, f.now);
      VisibleLineage(s, catalogue, ids[i]);
      assert EntryInv(ids[i], s.entries[ids[i]], catalogue[ids[i]].windows, s.clock);
      assert OfInstrument(u) in quotes[ids[i]].summary.provenance + [OfInstrument(ids[i])];
      assert OfInstrument(u) in ProvenanceOf(ids[i], quotes[ids[i]]);
    }
    AllUsesNamed(s, ids, d.provenance, f.released.id);
  }

  ghost predicate IsSoundFallback(f: Fallback, catalogue: Catalogue, clock: int) {
    && f.instrument.id in catalogue && catalogue[f.instrument.id] == f.instrument
    && f.released.id == f.instrument.id
    && clock <= f.now
  }

  /** The new entry, from the facts about its formula. */
  lemma DerivedEntryIsSound(s: State, f: Fallback, ids: seq<InstrumentId>, d: ProviderQuote, saves: bool)
    requires forall i | 0 <= i < |ids| :: ids[i] in s.entries
    requires d.IsDerived() && d.inputLiveUntil.Some?
    requires DerivedCanonical(f.instrument, d, f.now).Success?
    requires 1 <= d.depth <= Level(f.instrument.id) && d.depth <= MAXIMUM_DEPTH
             && 0.0 <= d.confidence <= Pow(0.9, d.depth)
    requires AllDeadlines(s, ids) != [] && d.inputLiveUntil.value <= MinOf(AllDeadlines(s, ids))
    requires forall u <- AllUses(s, ids) :: OfInstrument(u) in d.provenance && u != f.instrument.id
    ensures var c := AfterPersist(DerivedCanonical(f.instrument, d, f.now).value, saves);
            EntryInv(f.instrument.id, DerivedEntry(s, ids, c, f.instrument, f.now), f.instrument.windows, f.now)
  {
    DerivedQuoteShape(f.instrument, d, f.now);
  }

  lemma DeriveKeepsInv(s: State, f: Fallback, catalogue: Catalogue)
    requires Inv(s, catalogue) && IsSoundFallback(f, catalogue, s.clock)
    ensures Inv(DeriveLedger(s, f, catalogue), catalogue)
  {
    ClockAdvances(s, catalogue, f.now);
    var derived := FormulaQuoteOf(s, f, catalogue);
    if derived.Success? {
      var d := derived.value.(id := Some(f.quoteId), persistence := Persisted);
      var c := DerivedCanonical(f.instrument, d, f.now);
      DerivedLineage(f.released, Visible(s, catalogue), f.now, f.rates);
      DerivedHasLineage(s, f, catalogue);
      DerivedDeadlines(s, f, catalogue);
      DerivedUses(s, f, catalogue);
      var ids := Inputs(ResolveFormula(f.released.id, Visible(s, catalogue), f.now, f.rates).value);
      if c.Success? {
        DerivedEntryIsSound(s, f, ids, d, f.saves);
        ReplaceEntry(s, catalogue, f.instrument.id,
                     DerivedEntry(s, ids, AfterPersist(c.value, f.saves), f.instrument, f.now), f.now);
      }
    }
  }

  /** The depth limit never bites: with the registered formulas three levels are always enough. */
  lemma NeverTooDeep(s: State, f: Fallback, catalogue: Catalogue)
    requires Inv(s, catalogue)
    ensures FormulaQuoteOf(s, f, catalogue) != Failure(TooDeep)
  {
    if FormulaQuoteOf(s, f, catalogue) == Failure(TooDeep) {
      var quotes := Visible(s, catalogue);
      TooDeepIsDeep(f.released, quotes, f.now, f.rates);
      FormulasDescend(f.released.id, quotes, f.now, f.rates);
      GatheredIsPaid(s, catalogue, Inputs(ResolveFormula(f.released.id, quotes, f.now, f.rates).value), f.released.id,
                     f.now);
    }
  }

  // ----- runs ---------------------------------------------------------------------------------

  datatype Event = Refreshing(attempt: Attempt) | Deriving(fallback: Fallback)

  function Next(s: State, event: Event, catalogue: Catalogue): State {
    match event
    case Refreshing(a) => RefreshLedger(s, a)
    case Deriving(f) => DeriveLedger(s, f, catalogue)
  }

  ghost predicate IsSoundEvent(event: Event, catalogue: Catalogue, clock: int) {
    match event
    case Refreshing(a) => IsSound(a, catalogue, clock)
    case Deriving(f) => IsSoundFallback(f, catalogue, clock)
  }

  function After(start: int, events: seq<Event>, catalogue: Catalogue): State {
    if events == [] then State(start, map[])
    else Next(After(start, events[..|events| - 1], catalogue), events[|events| - 1], catalogue)
  }

  ghost predicate AreSound(start: int, events: seq<Event>, catalogue: Catalogue) {
    forall i | 0 <= i < |events| :: IsSoundEvent(events[i], catalogue, After(start, events[..i], catalogue).clock)
  }

  /**
   In every reachable ledger a quote is valid no longer than the earliest live deadline of the
   provider quotes it rests on, however many formulas lie between, and exactly that long while its
   history is exact; depth is at most the instrument's level, confidence at most 0.9 to the depth,
   and no instrument is among those its own price was computed from.
   */
  lemma {:induction false} ReachableLedgerKeepsInv(start: int, events: seq<Event>, catalogue: Catalogue)
    requires AreSound(start, events, catalogue)
    ensures Inv(After(start, events, catalogue), catalogue)
  {
    if events != [] {
      var n := |events| - 1;
      var earlier := events[..n];
      forall i | 0 <= i < n ensures IsSoundEvent(earlier[i], catalogue, After(start, earlier[..i], catalogue).clock) {
        assert earlier[..i] == events[..i];
        assert IsSoundEvent(events[i], catalogue, After(start, events[..i], catalogue).clock);
      }
      ReachableLedgerKeepsInv(start, earlier, catalogue);
      assert IsSoundEvent(events[n], catalogue, After(start, earlier, catalogue).clock);
      match events[n] {
        case Refreshing(a) => RefreshKeepsInv(After(start, earlier, catalogue), a, catalogue);
        case Deriving(f) => DeriveKeepsInv(After(start, earlier, catalogue), f, catalogue);
      }
    }
  }

  /**
   A reader is shown exactly the earliest live deadline below a price if and only if its entry is exact:
   a price decided on provider quotes always is, however often it is kept, and a derived price is as the
   next lemma says.
   */
  lemma ShownIsEarliestExactlyWhen(start: int, events: seq<Event>, catalogue: Catalogue, id: InstrumentId)
    requires AreSound(start, events, catalogue) && id in Visible(After(start, events, catalogue), catalogue)
    ensures var s := After(start, events, catalogue);
            && s.entries[id].deadlines != []
            && (Visible(s, catalogue)[id].validUntil == MinOf(s.entries[id].deadlines) <==> s.entries[id].exact)
  {
    ReachableLedgerKeepsInv(start, events, catalogue);
    VisibleLineage(After(start, events, catalogue), catalogue, id);
  }

  lemma EntryIsExactExactlyWhen(
    s: State, ids: seq<InstrumentId>, instrument: Instrument, d: ProviderQuote, now: int, saves: bool)
    requires (forall i | 0 <= i < |ids| :: ids[i] in s.entries) && AllDeadlines(s, ids) != []
    requires d.IsDerived() && d.inputLiveUntil.Some? && DerivedCanonical(instrument, d, now).Success?
    ensures var c := AfterPersist(DerivedCanonical(instrument, d, now).value, saves);
            DerivedEntry(s, ids, c, instrument, now).exact
            <==> && d.inputLiveUntil.value <= now + instrument.windows.ttl
                 && d.inputLiveUntil.value == MinOf(AllDeadlines(s, ids))
  {
    DerivedQuoteShape(instrument, d, now);
  }

  /**
   A derived price is exact if and only if the earliest deadline that its inputs are shown with is the
   earliest one below them, and is at most the target's own window away; where all inputs are exact,
   only the window counts.
   */
  lemma DerivedIsExactExactlyWhen(s: State, f: Fallback, catalogue: Catalogue)
    requires Inv(s, catalogue) && FormulaQuoteOf(s, f, catalogue).Success?
    requires DerivedCanonical(f.instrument, FormulaQuoteOf(s, f, catalogue).value.(persistence := Persisted),
                              f.now).Success?
    ensures ResolveFormula(f.released.id, Visible(s, catalogue), f.now, f.rates).Some?
    ensures var ids := Inputs(ResolveFormula(f.released.id, Visible(s, catalogue), f.now, f.rates).value);
            && (forall i | 0 <= i < |ids| :: ids[i] in s.entries) && AllDeadlines(s, ids) != []
            && var d := FormulaQuoteOf(s, f, catalogue).value.(persistence := Persisted);
            && d.inputLiveUntil.Some?
            && var c := AfterPersist(DerivedCanonical(f.instrument, d, f.now).value, f.saves);
            && var exact := DerivedEntry(s, ids, c, f.instrument, f.now).exact;
            && var isNear := d.inputLiveUntil.value <= f.now + f.instrument.windows.ttl;
            && (exact <==> isNear && d.inputLiveUntil.value == MinOf(AllDeadlines(s, ids)))
            && ((forall i | 0 <= i < |ids| :: s.entries[ids[i]].exact) ==> (exact <==> isNear))
  {
    DerivedDeadlines(s, f, catalogue);
    DerivedLineage(f.released, Visible(s, catalogue), f.now, f.rates);
    var ids := Inputs(ResolveFormula(f.released.id, Visible(s, catalogue), f.now, f.rates).value);
    var d := FormulaQuoteOf(s, f, catalogue).value.(persistence := Persisted);
    EntryIsExactExactlyWhen(s, ids, f.instrument, d, f.now, f.saves);
  }
}
