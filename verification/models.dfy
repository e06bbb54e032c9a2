/**
 Instruments, provider quotes and canonical quotes (models.py).  Prices are reals, instants are
 integers in seconds, and a SHA-256 idempotency key is the tuple it hashes.
 */
module Models {
  import opened Wrappers
  import opened Freshness

  datatype InstrumentId =
    | Gold18kToman | Gold24kToman | XauUsd | Silver999Toman | Silver925Toman | XagUsd
    | UsdToman | UsdtToman | UsdtUsd | BtcToman | BtcUsd

  /** What a quote can be traced back to: an instrument, or the family of an outside source. */
  datatype Label = OfInstrument(id: InstrumentId) | OfFamily(name: string)

  datatype InstrumentDefinition = InstrumentDefinition(
    id: InstrumentId,
    windows: Windows,
    baseThreshold: real,
    maximumThreshold: real,
    minimumPrice: real,
    maximumPrice: real,
    enabled: bool,
    allowDerivedFallback: bool)
  {
    predicate Valid() {
      && windows.Valid()
      && minimumPrice < maximumPrice
      && baseThreshold <= maximumThreshold
    }

    predicate Accepts(price: real) {
      minimumPrice <= price <= maximumPrice
    }
  }

  type Instrument = i: InstrumentDefinition | i.Valid()
    witness InstrumentDefinition(BtcUsd, Windows(1, 1, 1), 0.0, 0.0, 0.0, 1.0, true, false)

  /** A price that passed `decimal_value`: finite and positive. */
  type Price = p: real | p > 0.0 witness 1.0

  datatype SourceSemantic =
    | ExchangeOrderbook | ExchangeTrade | Aggregator | ReferenceRate | PhysicalMarketQuote
    | TelegramObservation | DerivedFormula | Legacy

  datatype ValidationStatus = Accepted | Rejected | Suspicious

  datatype PersistenceStatus = Persisted | Queued | Unpersisted

  /**
   A provider quote.  `family` and `venue` are the trimmed, lower-cased independence values;
   `telegramApproved` is the verdict of the Telegram source policy for the verifier role.
   */
  datatype ProviderQuote = ProviderQuote(
    id: Option<int>,
    instrumentId: InstrumentId,
    providerId: string,
    price: Option<Price>,
    observedAt: int,
    receivedAt: int,
    validation: ValidationStatus,
    persistence: PersistenceStatus,
    semantic: SourceSemantic,
    family: string,
    venue: string,
    confidence: real,
    depth: nat,
    provenance: seq<Label>,
    stamp: Stamp,
    effectiveLiveUntil: Option<int>,
    inputLiveUntil: Option<int>,
    telegramApproved: bool)
  {
    predicate IsMarket() {
      semantic in {ExchangeOrderbook, ExchangeTrade, Aggregator, ReferenceRate, PhysicalMarketQuote}
    }

    predicate IsDerived() {
      semantic == DerivedFormula
    }
  }

  type PricedQuote = q: ProviderQuote | q.price.Some?
    witness ProviderQuote(None, BtcUsd, "", Some(1.0), 0, 0, Accepted, Unpersisted, Legacy, "", "", 1.0, 0, [],
                          Stamp(None, None, false), None, None, false)

  datatype CanonicalStatus =
    | LiveQuote | Confirmed | FreshCache | Verifying | SuspiciousUnconfirmed | DerivedFallback
    | StaleQuote | ExpiredQuote | UnpersistedQuote | Unavailable

  datatype VerificationStatus = NotRequired | Pending | VerificationConfirmed | Disagreed | Insufficient

  datatype Progress = NoProgress | Complete | ProgressPending | ProgressInsufficient | ProgressDisagreed

  /** The entries of `source_summary` that some reader uses again. */
  datatype SourceSummary = SourceSummary(
    providerIds: seq<string>,
    derived: bool,
    depth: Option<int>,
    confidence: Option<real>,
    provenance: seq<Label>,
    progress: Progress,
    freshnessAnchor: Option<int>,
    sourceLiveUntil: Option<int>,
    savedStatus: Option<CanonicalStatus>)

  datatype CanonicalKey = CanonicalKey(instrumentId: InstrumentId, canonicalAt: int, price: real,
                                       status: CanonicalStatus)

  datatype CanonicalQuote = CanonicalQuote(
    instrumentId: InstrumentId,
    price: Price,
    status: CanonicalStatus,
    primaryQuoteId: Option<int>,
    verificationQuoteIds: seq<int>,
    summary: SourceSummary,
    observedAt: int,
    canonicalAt: int,
    validUntil: int,
    staleAt: int,
    expiresAt: int,
    isPersisted: bool,
    reason: string,
    verification: VerificationStatus,
    candidatePrice: Option<Price>,
    candidateProviderId: Option<string>,
    key: CanonicalKey)

  datatype PricingError =
    | RejectedPrimary | UnstoredPrimary | NonMarketPrimary | PrimaryNotLive | NotFresh
    | DisagreementCannotBootstrap | SuspicionCannotBootstrap
    | InvalidTimestamps | AlreadyExpired | DerivedNotAllowed | DerivedInputsNotLive

  predicate IsAcceptedStatus(s: CanonicalStatus) {
    s in {LiveQuote, Confirmed, FreshCache, DerivedFallback, UnpersistedQuote}
  }

  /** The checks `CanonicalQuote` makes when it is built. */
  function Checked(q: CanonicalQuote): Result<CanonicalQuote, PricingError> {
    if !(q.observedAt <= q.canonicalAt && q.validUntil <= q.staleAt <= q.expiresAt) then Failure(InvalidTimestamps)
    else if IsAcceptedStatus(q.status) && q.canonicalAt > q.expiresAt then Failure(AlreadyExpired)
    else Success(q)
  }

  /** Two quotes come from different source families and from different venues. */
  predicate Independent(a: ProviderQuote, b: ProviderQuote) {
    a.family != b.family && a.venue != b.venue
  }
}
