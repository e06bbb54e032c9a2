/**
 Canonical quotes through the outbox (persistence.py): whether a quote was written directly or replayed
 later, its stored row is the same up to the entry that remembers the failed write.
 */
module CanonicalOutbox {
  import opened Wrappers
  import opened Freshness
  import opened Models
  import opened Anomaly
  import opened Canonical
  import opened Decisions
  import opened Refresh
  import opened Persistence
  import Outbox

  // ----- quotes that survive the detour -------------------------------------------------------------

  /** A well-built quote that was given a reason, and was not set aside before. */
  predicate IsPublishable(q: CanonicalQuote) {
    IsWellBuilt(q) && q.reason != "" && !q.status.UnpersistedQuote?
  }

  /** What a later replay of this quote would store. */
  function ReplayOf(q: CanonicalQuote): Option<CanonicalRow> {
    var r := ReplayedRow(AfterPersist(q, false));
    if r.Success? then Some(r.value) else None
  }

  lemma PublishableSurvives(q: CanonicalQuote)
    requires IsPublishable(q)
    ensures ReplayOf(q).Some? && Forgetful(ReplayOf(q).value) == Forgetful(RowOf(q))
  {
    ReplayEqualsDirectWrite(q);
  }

  lemma BuiltIsPublishable(instrument: Instrument, draft: Draft, observedAt: int, now: int, until: Option<int>)
    requires draft.reason != "" && !draft.status.UnpersistedQuote?
    ensures var q := FromPrice(instrument, draft, observedAt, now, until);
            q.Success? ==> IsPublishable(q.value)
  {
  }

  /** What `keep_previous` builds can be published, whatever became of the previous quote. */
  lemma KeptIsPublishable(previous: CanonicalQuote, candidate: PricedQuote, status: CanonicalStatus, now: int)
    requires !status.UnpersistedQuote?
    ensures var q := KeepPrevious(previous, candidate, status, now);
            q.Success? ==> IsPublishable(q.value)
  {
    var q := KeepPrevious(previous, candidate, status, now);
    assert q.Success? ==> |q.value.reason| > 0;
  }

  /** What `derived_fallback` builds can be published. */
  lemma DerivedIsPublishable(instrument: Instrument, derived: ProviderQuote, now: int)
    ensures var q := DerivedCanonical(instrument, derived, now);
            q.Success? ==> IsPublishable(q.value)
  {
    var q := DerivedCanonical(instrument, derived, now);
    assert q.Success? ==> |q.value.reason| > 0;
  }

  lemma DraftIsPublishable(primary: PricedQuote, basis: Basis, fromFreshCache: bool)
    requires Evidence(primary, basis) != []
    ensures var draft := DraftOf(primary, basis, fromFreshCache).0;
            draft.reason != "" && !draft.status.UnpersistedQuote?
  {
    var draft := DraftOf(primary, basis, fromFreshCache).0;
    assert |draft.reason| > 0;
  }

  lemma PublishedIsPublishable(
    instrument: Instrument, primary: PricedQuote, previous: Option<CanonicalQuote>, assessment: Option<Assessment>,
    verifiers: seq<PricedQuote>, basis: Basis, fromFreshCache: bool, now: int)
    ensures var d := Publish(instrument, primary, previous, assessment, verifiers, basis, fromFreshCache, now);
            d.Success? ==> IsPublishable(d.value.canonical)
  {
    if Evidence(primary, basis) != [] {
      var (draft, observedAt) := DraftOf(primary, basis, fromFreshCache);
      DraftIsPublishable(primary, basis, fromFreshCache);
      var until := MinLiveUntil(Evidence(primary, basis), instrument);
      if until.Success? {
        BuiltIsPublishable(instrument, draft, observedAt, now, Some(until.value));
      }
    } else if previous.Some? {
      KeptIsPublishable(previous.value, primary, SuspiciousUnconfirmed, now);
      assert |"disagreeing_sources_previous_canonical_kept"| > 0;
    }
  }

  /** What `select` decides can be published. */
  lemma DecidedIsPublishable(
    instrument: Instrument, primary: ProviderQuote, previous: Option<CanonicalQuote>, assessment: Option<Assessment>,
    quotes: seq<ProviderQuote>, fromFreshCache: bool, now: int)
    ensures var d := Decide(instrument, primary, previous, assessment, quotes, fromFreshCache, now);
            d.Success? ==> IsPublishable(d.value.canonical)
  {
    if PrimaryError(primary, instrument, now).None? {
      var verifiers := ValidVerifiers(quotes, primary, instrument, now);
      PublishedIsPublishable(instrument, primary, previous, assessment, verifiers,
                             BasisOf(primary, assessment, verifiers), fromFreshCache, now);
    }
  }

  // ----- whole runs ---------------------------------------------------------------------------------

  /** The step writes this quote, or queues what `persist_canonical` makes of it; `code` hashes its key. */
  ghost predicate Writes(step: Outbox.Step<CanonicalRow>, q: CanonicalQuote, code: CanonicalKey -> nat) {
    || step == Outbox.WriteDirect(code(q.key), RowOf(q))
    || step == Outbox.WriteFails(Outbox.Event(code(q.key), ReplayOf(q)))
  }

  ghost predicate IsWrite(step: Outbox.Step<CanonicalRow>) {
    step.WriteDirect? || step.WriteFails?
  }

  /** Every write of the run is that of a publishable quote. */
  ghost predicate WritesQuotes(steps: seq<Outbox.Step<CanonicalRow>>, code: CanonicalKey -> nat) {
    forall i | 0 <= i < |steps| && IsWrite(steps[i]) :: exists q :: IsPublishable(q) && Writes(steps[i], q, code)
  }

  /** The stored row is that of the quote, up to the saved status. */
  ghost predicate Stores(stored: Outbox.Stored<CanonicalRow>, q: CanonicalQuote, code: CanonicalKey -> nat) {
    stored.key == code(q.key) && Forgetful(stored.row) == Forgetful(RowOf(q))
  }

  lemma WrittenIsStored(
    step: Outbox.Step<CanonicalRow>, q: CanonicalQuote, code: CanonicalKey -> nat, key: nat, row: CanonicalRow,
    marked: bool)
    requires IsPublishable(q) && Writes(step, q, code) && Outbox.Promises(step, Outbox.Event(key, Some(row)))
    ensures Stores(Outbox.Stored(key, row, marked), q, code)
  {
    PublishableSurvives(q);
  }

  /**
   After any run of direct writes, failed writes and crashing consumers, every stored row is, up to the
   saved status, that of a quote whose writing the run contains, under the key of that quote.
   */
  lemma EveryRowIsItsQuote(steps: seq<Outbox.Step<CanonicalRow>>, code: CanonicalKey -> nat, i: nat)
    requires Outbox.After(Outbox.Init(), steps).Some? && WritesQuotes(steps, code)
    requires i < |Outbox.After(Outbox.Init(), steps).value.rows|
    ensures var stored := Outbox.After(Outbox.Init(), steps).value.rows[i];
            exists k, q :: 0 <= k < |steps| && IsPublishable(q) && Writes(steps[k], q, code) && Stores(stored, q, code)
  {
    var s := Outbox.After(Outbox.Init(), steps).value;
    var stored := s.rows[i];
    Outbox.RunKeepsInv(Outbox.Init(), steps);
    var k := Outbox.PromiseWasMade(Outbox.Init(), steps, Outbox.Event(stored.key, Some(stored.row)));
    var q :| IsPublishable(q) && Writes(steps[k], q, code);
    WrittenIsStored(steps[k], q, code, stored.key, stored.row, stored.marked);
  }

  /** Different keys have different hashes. */
  ghost predicate IsInjective(code: CanonicalKey -> nat) {
    forall a, b | code(a) == code(b) :: a == b
  }

  /** The run writes at most one row, up to the saved status, under a key. */
  ghost predicate WritesOnePerKey(steps: seq<Outbox.Step<CanonicalRow>>, code: CanonicalKey -> nat) {
    forall i, j, q, r | 0 <= i < |steps| && 0 <= j < |steps| && IsPublishable(q) && IsPublishable(r)
                        && Writes(steps[i], q, code) && Writes(steps[j], r, code) && q.key == r.key ::
      Forgetful(RowOf(q)) == Forgetful(RowOf(r))
  }

  /**
   With a hash that is injective, and one quote per key, the stored row is that of the quote with its
   key: whichever quote of the run hashes to the key of a stored row, the row is its row.
   */
  lemma RowBelongsToItsKey(
    steps: seq<Outbox.Step<CanonicalRow>>, code: CanonicalKey -> nat, i: nat, j: nat, q: CanonicalQuote)
    requires Outbox.After(Outbox.Init(), steps).Some? && WritesQuotes(steps, code)
    requires IsInjective(code) && WritesOnePerKey(steps, code)
    requires i < |Outbox.After(Outbox.Init(), steps).value.rows| && j < |steps| && IsPublishable(q)
             && Writes(steps[j], q, code)
    requires code(q.key) == Outbox.After(Outbox.Init(), steps).value.rows[i].key
    ensures Forgetful(Outbox.After(Outbox.Init(), steps).value.rows[i].row) == Forgetful(RowOf(q))
    ensures forall k, r | 0 <= k < |steps| && IsPublishable(r) && Writes(steps[k], r, code)
                          && code(r.key) == Outbox.After(Outbox.Init(), steps).value.rows[i].key :: r.key == q.key
  {
    var stored := Outbox.After(Outbox.Init(), steps).value.rows[i];
    EveryRowIsItsQuote(steps, code, i);
    var k, r :| 0 <= k < |steps| && IsPublishable(r) && Writes(steps[k], r, code) && Stores(stored, r, code);
    assert r.key == q.key;
  }
}
