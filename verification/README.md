# Pricing engine: a Dafny model

This project models the pricing engine of the API under `apps/api/app/pricing/` and proves what its
decisions and its protocols guarantee. `dafny verify dfyconfig.toml` checks all of it.

**Which price is published, and for how long.** `freshness.dfy`, `models.dfy`, `anomaly.dfy`,
`consensus.dfy` and `canonical.dfy` model the freshness windows, the adaptive threshold, the inlier
cluster and `CanonicalPricePolicy`. `decisions.dfy` proves what `select` guarantees, and `verdicts.dfy`
says what it answers on which inputs. `refresh.dfy` composes one refresh as the service does (read under
the current policy, assess, keep, select, commit) and proves facts about whole runs. `derived.dfy` models
the formula engine, and `ledger.dfy` runs refreshes and formula fallbacks of all instruments in any order.
`cut_windows.dfy` is one such run with the released windows.

**The protocols around it.** `websocket.dfy` (client queues, overflow, reconnect, shared snapshot
reads), `backfill.dfy` and `history_pages.dfy` (job queue fenced by an attempt counter, page loop),
`budgets.dfy`, `shares.dfy` and `reserves.dfy` (request counters with reserves), `locks.dfy` (leases),
`persistence.dfy` and `canonical_outbox.dfy` (outbox), `operational.dfy` (operator policy, one at a
time and batched) and `breaker.dfy` (circuit breaker).
Each protocol is a state machine whose steps interleave freely; the classes beside it model the
source's mutable objects and are proved against the same step functions.

Conventions: a `Decimal` is a real number, an instant an integer, a SHA-256 key the tuple it hashes, a
`uuid4` token a number never issued twice. A Redis script and a row-locked transaction are atomic.
Clocks, responses of providers and databases, and faults are parameters.

Hypotheses that are stated where they are used:

- `Ledger.IsCollected`: a quote was observed no later than it was received and received no later than
  now, is not past the live bound the collector wrote into it, and is direct, of depth zero. The source
  allows an observation up to 30 seconds ahead of its receipt.
- `Fanout.JoinsFresh`: a client that asks for a snapshot is not given a shared read that had reached the
  store before the client registered, or before the resync marker it acts on was put into its queue.
  Joining a read late is fine (`LateJoinIsCovered`). The source does not ensure the hypothesis;
  `StaleJoinLosesUpdate` shows what then happens.
- In the fan-out, quotes of one instrument are published in the order in which they were committed, and
  one that was overtaken by a later commit is not published any more: this is what the refresh lock is
  for. A worker that dies between its commit and its publication is covered: its quote stays unpublished
  until the next commit.
- `BackfillFencing.Enabled`: a claim is settled at most once. `SecondSettlementWouldPass` shows why.
- `BackfillJobs.Clock.Advances`, `Breaker.IsSequential` and the clocks of the other runs do not go back.

Where the code differs from its own text, or does less than one would expect, the model follows the code:

- A comment in `_from_price` says that the canonical quote keeps the stale and expiry boundaries of its
  source. `Decisions.BoundariesSurviveExactlyWhen` says exactly when it does; for a registered provider of
  BTC_USD it does not (`BoundariesMayMove`).
- A derived quote whose inputs stay live for longer than the target's own window gets a freshness anchor
  in the future, which the reader in `service.py` does not trust (`Refresh.ReadBackExactlyWhen`). With
  the released windows this happens to BTC_TOMAN (`CutWindows.DerivedWindowMayBeCut`).
- The cache computes retention from the built-in catalogue, not from the operator's windows
  (`Freshness.RetentionCoversExpiry`, `RetentionMayEndEarly`).
- A refresh compares a candidate with the stored quote only while that has not expired; after that a
  single source moves the price anywhere within the sanity bounds (`Refresh.AccountedForExactlyWhen`,
  `ExpiredBaselineBoundsNothing`).
- An operator may reserve as many anomaly checks as there are requests in a day; then the day can close
  before the reserve is used up (`ReserveSafety.DayClosesBeforeReserve`).
- One pass of the backfill worker may settle a job twice (`BackfillJobs.PassMaySettleTwice`).
- An infinite `canonical_expiry_seconds` raises `OverflowError`, which nothing catches, and takes a whole
  batch down (`Operational.OverflowEscapesExactlyWhen`, `OneOverflowFailsBatch`).

## Model

| member | source | states |
|---|---|---|
| Freshness.BoundariesAreOrdered | apps/api/app/pricing/freshness.py:69-134 | live <= stale <= expired <= retained for every quote the policy accepts; expiry is permanent and liveness only ends |
| Freshness.CollectorAgreesWithPolicy | apps/api/app/pricing/canonical.py:594-637 | the collector's boundaries and the canonical policy's coincide (all four deadlines, or both refuse) if and only if `SameWindow` holds: not receive-anchored, or a declared source age, or one of four boundary cases a caller can read off the inputs |
| Freshness.CollectorMayDisagree | apps/api/app/pricing/providers.py:789-812 | an input at which they differ: the collector calls a price live that the canonical policy refuses as too old; such a provider could be registered, but the registered receive-anchored ones declare their source age |
| Freshness.PolicyIsNeverLaxer | apps/api/app/pricing/providers.py:789-812 | where the two differ, whatever the canonical policy calls live the collector calls live too |
| Freshness.RetentionCoversExpiry | apps/api/app/pricing/cache.py:86-113 | Redis keeps a provider quote until its logical expiry if and only if the operator's expiry window exceeds the catalogue's by no more than the receive-time slack, or the one-second floor already covers it |
| Freshness.RetentionMayEndEarly | apps/api/app/pricing/cache.py:91-113 | an input at which Redis drops a quote 300 seconds before it expires |
| Freshness.CatalogueRetentionNeverEarly | apps/api/app/pricing/cache.py:91-113 | with the catalogue's own windows a quote is never dropped before it has expired |
| Freshness.AcceptedExactlyWhen | apps/api/app/pricing/freshness.py:137-151 | a quote is accepted if and only if its policy is valid, it was observed at most 30 seconds after its receipt, and a receive-anchored one is no older than its maximum source age; and which of the three errors it is otherwise |
| Freshness.StatusExactlyWhen | apps/api/app/pricing/freshness.py:53-151 | a quote is live exactly while its age, from its observation or its receipt, is within all four windows and its observation within the maximum source age; stale, expiry and retention likewise |
| Freshness.StampedExactlyWhen | apps/api/app/pricing/canonical.py:594-637 | what the metadata of a quote is worth: when it is accepted and until when it is live, stale and not expired, with a missing window replaced by the instrument's, a missing age by the shorter window, and no age beyond the expiry window |
| Anomaly.ThresholdIsCapped | apps/api/app/pricing/anomaly.py:53-59 | the adaptive threshold never exceeds the instrument's maximum, for any volatility, age and success rate; the rows below say what it is |
| Anomaly.UnsuspiciousIsClose | apps/api/app/pricing/anomaly.py:24-82 | a candidate that is not suspicious lies within the hard ceiling of the baseline; `NotSuspiciousExactlyWhen` says exactly when it is not |
| Anomaly.QuietThresholdIsBase | apps/api/app/pricing/anomaly.py:53-59 | without volatility and age, and with full success, the threshold is the base itself |
| Anomaly.AllowanceIsExact | apps/api/app/pricing/anomaly.py:54-58 | volatility adds 1.5 times its percentage up to twice the base, age a fifth of the base per live window up to four: at most 3.8 times the base in all |
| Anomaly.AgeRatioIsExact | apps/api/app/pricing/anomaly.py:45-55 | the age counts in live windows, from none to four |
| Anomaly.ReliabilityIsExact | apps/api/app/pricing/anomaly.py:51-57 | the factor goes from 0.65 at success rate 0 to 1 at success rate 1, in proportion, and saturates outside |
| Anomaly.ThresholdIsBetween | apps/api/app/pricing/anomaly.py:53-59 | the threshold falls below half the base only if the ceiling does |
| Anomaly.ThresholdIsAllowance | apps/api/app/pricing/anomaly.py:53-59 | between half the base and the ceiling the threshold is the allowance times the reliability |
| Anomaly.ThresholdIsMonotone | apps/api/app/pricing/anomaly.py:53-59 | more volatility, an older baseline and a more reliable source never lower the threshold |
| Anomaly.NotSuspiciousExactlyWhen | apps/api/app/pricing/anomaly.py:35-62 | a candidate is not suspicious if and only if it is inside the sanity bounds and its move from the baseline is within the threshold |
| Anomaly.SeverityExactlyWhen | apps/api/app/pricing/anomaly.py:61-74 | a suspicious candidate is medium below two thresholds of movement, high below three, critical from three on |
| Anomaly.OutsideIsCritical | apps/api/app/pricing/anomaly.py:35-43 | outside the sanity bounds a candidate is suspicious and critical, whatever the baseline |
| Consensus.SortByPriceSorts | apps/api/app/pricing/canonical.py:505-507 | the ordering used by the cluster search is a sorted permutation of the quotes |
| Consensus.ConsensusCluster | apps/api/app/pricing/canonical.py:501-523 | the nested loops compute `Cluster`, whose properties the following lemmas state |
| Consensus.ClusterIsMaximalWindow | apps/api/app/pricing/canonical.py:508-523 | the cluster is empty or a window of the sorted quotes within tolerance of its own median, and no fitting window is longer |
| Consensus.ClusterOfDistinct | apps/api/app/pricing/canonical.py:501-523 | for pairwise different offers the cluster is sorted, without repetitions and drawn from the offers |
| Consensus.ClusterBeatsSelections | apps/api/app/pricing/canonical.py:501-523 | no odd-sized selection of quotes, contiguous or not, that lies within tolerance of its own median outnumbers the cluster; nor does an even one whose middle pair are price neighbours |
| Consensus.EvenSelectionMayOutnumber | apps/api/app/pricing/canonical.py:501-523 | the restriction is needed: prices 100, 100, 106, 110, 110 at 5 percent have a fitting selection of four and a cluster of at most three |
| Consensus.ClusterOfNearPair | apps/api/app/pricing/canonical.py:501-523 | of 100, 108 and 200 at 5 percent the cluster is the first two |
| Consensus.SortIsStable | apps/api/app/pricing/canonical.py:505-507 | quotes of one price keep their order, so ties are broken by position |
| Consensus.MedianIsMiddle | apps/api/app/pricing/canonical.py:515-516 | half of the prices of a sorted window are at or below its median and half at or above, and an even median lies midway |
| Consensus.FitsExactlyWhen | apps/api/app/pricing/canonical.py:515-520 | a window fits if and only if every price of it is off the median by at most the tolerance, in percent of the median |
| Consensus.ClusterIsFirst | apps/api/app/pricing/canonical.py:508-523 | of several largest windows the cluster is the one of the lowest prices |
| Canonical.CollectVerifiers | apps/api/app/pricing/canonical.py:58-76 | the loop with its two seen sets yields exactly `ValidVerifiers` |
| Canonical.VerifiersAreIndependent | apps/api/app/pricing/canonical.py:58-76 | the primary and the kept verifiers differ pairwise in family and in venue |
| Canonical.VerifiersAreUsable | apps/api/app/pricing/canonical.py:62-76 | every kept verifier was offered, is priced, accepted, persisted, of the same instrument, fresh, and market or approved |
| Canonical.CollectConfirming | apps/api/app/pricing/canonical.py:118-124 | the verifiers within tolerance of the candidate, in order |
| Canonical.Select | apps/api/app/pricing/canonical.py:35-270 | `select` with its loops equals `Decide`, whose answers the `Verdicts` rows state by prices and sources alone |
| Verdicts.KeptExactlyWhen | apps/api/app/pricing/canonical.py:58-76 | one by one, a quote is kept if and only if it is usable and neither its family nor its venue belongs to the primary or an earlier kept quote |
| Verdicts.DroppedOnlyIfTaken | apps/api/app/pricing/canonical.py:58-76 | an offered usable quote is dropped only if its family or its venue is the primary's or that of a kept one |
| Verdicts.UsableExactlyWhen | apps/api/app/pricing/canonical.py:551-592 | a verifier is usable if and only if it is priced, accepted, persisted, of the same instrument, a market quote or an approved observation, and live |
| Verdicts.ConfirmingExactlyWhen | apps/api/app/pricing/canonical.py:118-124 | the confirming verifiers are exactly the kept ones from which the candidate differs by at most the tolerance, in percent of the verifier |
| Verdicts.MajorityExactlyWhen | apps/api/app/pricing/canonical.py:156-159 | the cluster reaches the quorum if and only if some window of the sorted prices lies within tolerance of its own median and holds strictly more than half of them |
| Verdicts.BasisExactlyWhen | apps/api/app/pricing/canonical.py:118-270 | each ground of a decision by its own condition: confirmation exactly when a kept verifier is close; consensus exactly when none is, at least three sources are compared and a fitting majority exists; disagreement and no verifier otherwise |
| Verdicts.ConsensusIsMajority | apps/api/app/pricing/canonical.py:160-178 | a consensus price is the median of a majority that lies within tolerance of it |
| Verdicts.RefusedExactlyWhen | apps/api/app/pricing/canonical.py:44-57 | the refusals of a primary, each if and only if it is the first that applies |
| Verdicts.SuspicionExactlyWhen | apps/api/app/pricing/canonical.py:118-270 | what `select` makes of a suspicious candidate, for all inputs: the candidate's price, Confirmed, if a kept verifier is close; else the median of a majority, Confirmed, if there are three sources and such a majority; else the previous price, or an error without one |
| Verdicts.UnsuspiciousIsAccepted | apps/api/app/pricing/canonical.py:77-117 | a candidate that raises no suspicion is published alone at its own price, status and identity |
| Verdicts.ConfirmationNames | apps/api/app/pricing/canonical.py:118-155 | a confirmed price names its candidate and exactly the verifiers close to it |
| Verdicts.ConsensusNames | apps/api/app/pricing/canonical.py:156-207 | a consensus names the candidate if it takes part, else the member of the lowest price, then exactly the other members, and was observed when the oldest member was |
| Verdicts.RecordMatches | apps/api/app/pricing/canonical.py:77-270 | the verification record of every decision names the candidate, the threshold that was applied and the verifiers, and has the status of the quote |
| Verdicts.WellBuiltExactlyWhen | apps/api/app/pricing/models.py:630-655 | a canonical quote is well built exactly when its instants are in order and a price that is new has not expired; and which error it is otherwise |
| Verdicts.KeptOnDoubt | apps/api/app/pricing/canonical.py:208-270 | without evidence the previous price stays, marked as disagreed or insufficient, with the doubted candidate recorded; without a previous price `select` raises |
| Verdicts.DoubtExactlyWhen | apps/api/app/pricing/canonical.py:272-316 | `keep_previous` succeeds if and only if the previous quote was observed by now and its deadlines are in order, and then shows that quote with the candidate in doubt, pending or insufficient |
| Decisions.ClusterMembers | apps/api/app/pricing/canonical.py:156-178 | the consensus cluster of independent quotes is sorted, repetition-free, within tolerance and drawn from them |
| Decisions.MembersOfCluster | apps/api/app/pricing/canonical.py:156-178 | the members of a consensus are independent of each other and among the compared quotes |
| Decisions.OddClusterExcludesPrimary | apps/api/app/pricing/canonical.py:118-178 | if nobody confirms the primary, an inlier cluster of odd size at least three does not contain it |
| Decisions.OddConsensusExcludesPrimary | apps/api/app/pricing/canonical.py:156-178 | an odd consensus never contains the anomalous primary and its price is a verifier's own price |
| Decisions.EvenConsensusMayContainPrimary | apps/api/app/pricing/canonical.py:156-178 | an even consensus may contain it: at 5 percent, 100 is not confirmed by 108, yet both form the cluster around 104 |
| Decisions.AnchorKeepsDeadline | apps/api/app/pricing/canonical.py:432-493 | the anchor reconstruction returns exactly the deadline it was given |
| Verdicts.UnboundedExactlyWhen | apps/api/app/pricing/canonical.py:448-493 | without a deadline of its sources a quote gets the instrument's whole windows from its observation, and can be built exactly while those have not expired |
| Decisions.DecisionPrice | apps/api/app/pricing/canonical.py:35-270 | `select` publishes the price of its evidence, or the previous price when there is none; and only for a priced, persisted, fresh primary |
| Decisions.DecisionDeadline | apps/api/app/pricing/canonical.py:640-658 | a decided price is valid exactly until the earliest live deadline of the quotes that set it, or exactly as long as the price it keeps |
| Decisions.KeepingNeverExtends | apps/api/app/pricing/canonical.py:272-316 | any number of `keep_previous` rounds leaves price, observation and all deadlines as they were |
| Decisions.BoundariesSurviveExactlyWhen | apps/api/app/pricing/canonical.py:449-453 | for every quote that is not derived, with or without the collector's live bound: its stale and expiry boundaries survive if and only if its anchor can be recovered from the live deadline, a condition on its two timestamps, its anchoring, its deadline and the instrument's window |
| Decisions.BoundariesMayMove | apps/api/app/pricing/canonical.py:449-453 | quotes that a registered receive-anchored provider delivers for BTC_USD, and whose stale and expiry boundaries come 100 seconds early |
| Refresh.ReadNeverExtends | apps/api/app/pricing/service.py:355-373 | reading a stored quote under the current policy never moves a deadline later, changes nothing else, and is idempotent |
| Refresh.ReadExactlyWhen | apps/api/app/pricing/service.py:356-373 | a stored quote can be read if and only if its instrument is enabled and accepts its price; each deadline of it has passed exactly when the stored one or the present window has, counted from the stored anchor exactly when that is plausible |
| Refresh.PersistedExactlyWhen | apps/api/app/pricing/persistence.py:79-98 | a quote counts as stored exactly when it is; a new price that is not is marked unpersisted and remembers its status |
| Refresh.RegularIsReadBack | apps/api/app/pricing/service.py:355-373 | under unchanged windows a regular quote is read back exactly as stored |
| Refresh.ReadBackExactlyWhen | apps/api/app/pricing/service.py:355-373 | a built quote is read back unchanged if and only if its deadline is at most one live window ahead; otherwise its live window is cut to observation plus ttl |
| Refresh.ConfirmedIsBacked | apps/api/app/pricing/canonical.py:118-155 | a confirmed price agrees with two stored, fresh sources of different family and venue |
| Refresh.ConsensusIsBacked | apps/api/app/pricing/canonical.py:156-207 | a consensus price agrees with two stored, fresh sources of different family and venue |
| Refresh.SuspiciousIsBacked | apps/api/app/pricing/canonical.py:118-270 | whatever `select` publishes for a suspicious candidate is the previous price or backed |
| Refresh.StepIsAccountedFor | apps/api/app/pricing/service.py:112-229 | against a baseline, a refresh leaves the price alone, moves it within the hard ceiling, or publishes a backed price; `AccountedForExactlyWhen` says when this needs the baseline |
| Refresh.WithoutBaselinePrimaryWins | apps/api/app/pricing/service.py:1036-1070 | without a baseline a refresh can only leave the stored quote or publish the primary's price |
| Refresh.LoneQuoteWins | apps/api/app/pricing/service.py:1036-1070 | without a baseline the price of a single fresh quote, as the collector delivers it, is published, whatever it is |
| Verdicts.AssessedExactlyWhen | apps/api/app/pricing/service.py:1036-1070 | a candidate is assessed exactly against a readable baseline that has not expired, by the age of that baseline, and then raises no suspicion exactly within the bounds and the threshold |
| Verdicts.RefreshPublishesExactlyWhen | apps/api/app/pricing/service.py:112-229 | a refresh publishes what was decided unless that is older than what is stored; otherwise price and observation stay, marked as being verified if the candidate was suspicious and untouched if it was not |
| Verdicts.LoneQuoteIsPublishedExactlyWhen | apps/api/app/pricing/service.py:112-229 | against a baseline, a single delivered quote is published if and only if it is inside the sanity bounds and within the dynamic threshold of the stored price, which otherwise stays |
| Refresh.AccountedForExactlyWhen | apps/api/app/pricing/service.py:112-229 | for a stored quote, an enabled instrument and an instant: every attempt the collector can deliver (stamped, bounded, at a price the parsers let through) is accounted for if and only if the stored quote still serves as a baseline, or the sanity bounds leave no room to move further than the ceiling |
| Refresh.ExpiredBaselineBoundsNothing | apps/api/app/pricing/service.py:1036-1070 | with the released bounds and ceiling of USDT_USD: once a stored price of 1.0 has expired, a single delivered quote moves it to 1.1, which is neither within 2 percent nor backed |
| Refresh.LoneSourceIsBounded | apps/api/app/pricing/service.py:112-229 | over any run of k refreshes in which every move starts from a baseline and is not backed by a second source, the price moves at most by the k-th power of one ceiling move, up or down |
| Refresh.SmallMovesCompound | apps/api/app/pricing/anomaly.py:53-59 | any path of prices whose moves are within a ceiling stays within the powers of one move |
| Derived.Gather | apps/api/app/pricing/derived.py:121-138 | the loop over the inputs equals `GatherAll`: the first unusable, malformed or cyclic input decides |
| Derived.GatheredInputs | apps/api/app/pricing/derived.py:121-138 | a successful gathering has read every input, and the target is not among the labels collected |
| Derived.DeriveQuote | apps/api/app/pricing/derived.py:108-217 | `derive` with its loop equals `Derive`, whose success and price `DerivedExactlyWhen` states |
| Derived.FormulaExactlyWhen | apps/api/app/pricing/derived.py:219-288 | which formula each target gets; the dollar bridge is used exactly while the dollar is usable, the pair of USDT prices exactly when it is not and both of them are |
| Derived.CalculateObeysLaw | apps/api/app/pricing/derived.py:87-106 | the price laws as products of inputs: price * USDT_USD = USDT_TOMAN for USD_TOMAN; reference * dollar * factor through the dollar; price * USDT_USD = reference * USDT_TOMAN * factor through the pair; SILVER_999 * ratio for SILVER_925 |
| Derived.GatherExactlyWhen | apps/api/app/pricing/derived.py:121-138 | the inputs are gathered if and only if each is usable, has a well-formed lineage and does not rest on the target |
| Derived.RefusedInputExactlyWhen | apps/api/app/pricing/derived.py:121-138 | why an input is refused, each reason if and only if it is the first that applies |
| Derived.FirstUnsuitableDecides | apps/api/app/pricing/derived.py:121-138 | the first unsuitable input decides how the gathering fails |
| Derived.DerivedExactlyWhen | apps/api/app/pricing/derived.py:108-217 | with such inputs a quote is derived if and only if they are at most two deep, a USDT price among them is in its safe range and the result is inside the sanity bounds, the first that fails naming the error; its price obeys the law of its formula |
| Derived.UnsuitableFails | apps/api/app/pricing/derived.py:108-138 | without a formula, and exactly then, the answer is that there is none; an unsuitable input makes the derivation fail |
| Derived.DerivedLineage | apps/api/app/pricing/derived.py:108-217 | a derived quote is strictly deeper than every input and at most three deep, has at most nine tenths of every input's confidence, names every input's provenance but not itself, is as old as its oldest input and live no longer than any |
| Derived.DerivedShape | apps/api/app/pricing/derived.py:139-157 | depth, confidence and live deadline of a derived quote are one more than the maximum, nine tenths of the minimum, and the minimum over its inputs |
| Derived.GatheringIsNeverTooDeep | apps/api/app/pricing/derived.py:125-141 | the inputs alone never raise the depth error |
| Ledger.StepReplaces | apps/api/app/pricing/service.py:112-229 | a refresh that replaces the price leaves a quote valid exactly until the earliest deadline of its new evidence, of depth zero |
| Ledger.StepContinues | apps/api/app/pricing/service.py:112-229 | a refresh that does not replace the price extends no deadline and keeps the lineage |
| Ledger.RefreshKeepsInv | apps/api/app/pricing/service.py:112-229 | a refresh keeps the ledger invariant |
| Ledger.DeriveKeepsInv | apps/api/app/pricing/canonical.py:318-363 | a formula fallback keeps the ledger invariant |
| Verdicts.FallbackExactlyWhen | apps/api/app/pricing/canonical.py:318-363 | a stored formula quote is published if and only if the target allows formula fallbacks and the quote is a priced, persisted formula whose inputs are all still live; and which error it is otherwise |
| Ledger.FormulasDescend | apps/api/app/pricing/derived.py:219-259 | every registered formula reads only instruments of a lower level |
| Ledger.DerivedHasLineage | apps/api/app/pricing/derived.py:290-323 | over a reachable ledger a derived quote is at most as deep as its level and its confidence is at most 0.9 to its depth |
| Ledger.DerivedDeadlines | apps/api/app/pricing/derived.py:154-157 | the deadline of a derived quote is at most the minimum over all transitive provider quotes, and equal to it while the inputs' histories are exact |
| Ledger.DerivedUses | apps/api/app/pricing/derived.py:125-138 | everything a derived quote rests on is named in its provenance, and it is not among them |
| Ledger.NeverTooDeep | apps/api/app/pricing/derived.py:139-141 | from a reachable ledger the depth limit never refuses a derivation |
| Ledger.ReachableLedgerKeepsInv | apps/api/app/pricing/service.py:112-229 | after every interleaving of refreshes and fallbacks over all instruments: deadlines bounded by (exactly, while exact) the earliest transitive live deadline, depth at most level at most 3, confidence at most 0.9^depth, no instrument among the inputs of its own price |
| Ledger.ShownIsEarliestExactlyWhen | apps/api/app/pricing/service.py:355-373 | in every reachable ledger, a reader is shown exactly the earliest live deadline below a price if and only if the price's entry is exact |
| Ledger.DerivedIsExactExactlyWhen | apps/api/app/pricing/derived.py:154-157 | a derived price is exact if and only if the earliest deadline its inputs are shown with is the earliest below them and at most the target's own window away; where all inputs are exact, only the window counts |
| CutWindows.DerivedWindowMayBeCut | apps/api/app/pricing/service.py:355-373 | with the released windows of BTC_USD, USD_TOMAN and BTC_TOMAN, a run after which a derived price is shown as live for 20 seconds although all its sources are live for at least 60 |
| Hub.PriceWebSocketHub.Register | apps/api/app/pricing/websocket.py:76-86 | accepts exactly below the connection limit, with an empty queue; starts the dispatcher |
| Hub.PriceWebSocketHub.Unregister | apps/api/app/pricing/websocket.py:88-93 | removes exactly this client and stops the dispatcher with the last one |
| Hub.PriceWebSocketHub.Dispatch | apps/api/app/pricing/websocket.py:95-134 | every queue gets the event, or a lone resync marker if it was full; no queue exceeds 64 |
| Hub.PriceWebSocketHub.RequestResync | apps/api/app/pricing/websocket.py:186-191 | every queue becomes one resync marker |
| Hub.PriceWebSocketHub.Take | apps/api/app/pricing/websocket.py:193-245 | the event loop takes the oldest pending event of its own queue |
| Hub.SixtyFourFit | apps/api/app/pricing/websocket.py:95-134 | events that leave a queue at 64 or fewer are all kept, in order |
| Hub.SixtyFifthOverflows | apps/api/app/pricing/websocket.py:95-134 | the 65th empties the queue down to one resync marker |
| Fanout.StepKeepsInv | apps/api/app/pricing/websocket.py:76-134 | every commit, publication, drop, reconnect, dispatch, registration, request, read and delivery keeps the fan-out invariant, if nobody is given a read that had reached the store before it was told to ask for one |
| Fanout.ReachableLosesNothing | apps/api/app/pricing/websocket.py:186-245 | in every reachable state with an announced subscription, replaying a client's queue and the undelivered events over its view, or over any snapshot it may still be given, leads to the latest price of everything it subscribed to, through overflow, reconnect, shared reads joined late, and the 64-event bound |
| Fanout.QuietClientIsCurrent | apps/api/app/pricing/websocket.py:193-245 | a client with nothing pending shows the store |
| Fanout.ReachableShowsSubscribed | apps/api/app/pricing/websocket.py:193-245 | in every reachable state a client is shown nothing it did not subscribe to |
| Fanout.LeavingExactlyWhen | apps/api/app/pricing/websocket.py:88-93 | a client that leaves ends the subscription exactly when it is the last, and touches nobody else |
| Fanout.LossExactlyWhen | apps/api/app/pricing/websocket.py:95-134 | once the connection is lost nothing is handed out and what is published goes nowhere until a new subscription, which needs a client |
| Fanout.AnnouncementReachesAll | apps/api/app/pricing/websocket.py:186-191 | once the connection is back, every client's queue is one marker that asks it to start over, and its view stays |
| Fanout.FailedReadIsReplaced | apps/api/app/pricing/websocket.py:50-71 | only the shared read in progress can fail, and whoever asks next gets a new one |
| Fanout.LateJoinIsCovered | apps/api/app/pricing/websocket.py:50-63 | a run that the theorem covers: a client joins a read that has been to the store, but only after the client registered, and the update in between is in its queue |
| Fanout.StaleJoinLosesUpdate | apps/api/app/pricing/websocket.py:50-63 | the snapshot hypothesis is needed: a run in which a client joins a read that had been to the store before it registered, and stays behind for good |
| Budgets.RedisRequestBudget.RunScript | apps/api/app/pricing/budgets.py:11-34 | the script refuses at the first full counter and charges nothing, or charges every counter |
| Budgets.RedisRequestBudget.Consume | apps/api/app/pricing/budgets.py:48-145 | verdict and new store of a request, for every purpose and every refusal; the `OrdinaryShares` rows state the verdict by the requests accepted before |
| Budgets.RedisRequestBudget.RecordRateLimit | apps/api/app/pricing/budgets.py:147-153 | after a 429 answer no request of the provider is allowed, for any purpose, until the cooldown is over, and no other counter is read differently |
| Budgets.HoldIsRespected | apps/api/app/pricing/budgets.py:48-58 | in every run, a request made while a hold of its provider lasts is not accepted and charges nothing |
| Budgets.ConsumeIsAllOrNothing | apps/api/app/pricing/budgets.py:11-34 | a refused request changes nothing; an accepted one counts once on each of its keys and on no other key |
| Budgets.EveryRunKeepsBudgets | apps/api/app/pricing/budgets.py:86-145 | in every run each counter equals the accepted requests of its bucket and outlives it, no bucket exceeds its budget, accepted requests of a provider are its minimum interval apart, and ordinary requests stay within what the reserves leave |
| OrdinaryShares.EveryRunAcceptsExactlyWhen | apps/api/app/pricing/budgets.py:48-145 | in every run, an ordinary request is accepted if and only if nothing but counters can stop it, it fits into four fifths (rounded down, at least one) of the minute and of the hour, into what the reserves leave of the day (at least one), and into the instrument's limits; an anomaly check if and only if the full budgets, the instrument's limits and its own reserve have room |
| OrdinaryShares.ReadyExactlyWhen | apps/api/app/pricing/budgets.py:48-145 | in every run, nothing but counters can stop a request exactly when the provider is enabled, its minimum interval has passed since its last accepted request, and its cooldown since it was last put on hold |
| OrdinaryShares.RefusedExactlyWhen | apps/api/app/pricing/budgets.py:48-145 | each refusal if and only if its condition holds, in their order: disabled, on hold, no reserve, and then the first full limit |
| OrdinaryShares.FifthIsLeft | apps/api/app/pricing/budgets.py:72-78 | in every run, a full minute or hour of a budget of at least two holds at least one anomaly check, and these make up at least a fifth of it |
| OrdinaryShares.OrdinaryTrafficNeverRefusesChecks | apps/api/app/pricing/budgets.py:72-78 | while ordinary traffic alone has filled a minute and an hour with budgets of at least two, neither of them refuses an anomaly check |
| Budgets.SlidingMinuteIsBounded | apps/api/app/pricing/budgets.py:86-127 | any 60 seconds, aligned or not, hold at most twice the minute budget of a provider or an instrument |
| Budgets.ReservesLeaveRoom | apps/api/app/pricing/registry.py:145-155 | whatever is configured, the reserves are not negative and leave at least one ordinary request a day |
| OrdinaryShares.ReservesExactlyWhen | apps/api/app/pricing/registry.py:145-160 | the day and the reserves for every configuration: what is configured, or a tenth of the day between one and twenty; but a plain tenth each if the two would take the whole day |
| Budgets.ReserveIsUntouchable | apps/api/app/pricing/budgets.py:67-127 | after any run, an anomaly check whose reserve counter has room is not refused by the day counter, if the reserve is smaller than the day |
| Budgets.BuiltReserveIsUntouchable | apps/api/app/pricing/registry.py:145-155 | with the reserves `_budget` builds from any configuration, this holds of every run |
| ReserveSafety.EveryRunIsPaced | apps/api/app/pricing/budgets.py:86-127 | in every run, no accepted request of a provider on a day comes sooner than the interval and the minute and hour limits of provider and instrument allow |
| ReserveSafety.PacedIsNoSooner | apps/api/app/pricing/budgets.py:86-127 | no paced requests are ahead of the greedy ones, so the greedy schedule tells how many fit into a day |
| ReserveSafety.GreedyRuns | apps/api/app/pricing/budgets.py:48-145 | the greedy schedule, one ordinary request and then anomaly checks, is accepted in full up to the day's budget |
| ReserveSafety.ReserveIsSafeExactlyWhen | apps/api/app/pricing/budgets.py:67-127 | over all runs of all providers and purposes, the day counter never closes before the reserve of an enabled provider is used up, if and only if the reserve is smaller than the day or a day's budget does not fit into a day under the interval, minute, hour and instrument limits |
| ReserveSafety.ChecksAreSafeExactlyWhen | apps/api/app/pricing/budgets.py:67-127 | over all runs, an anomaly check whose reserve has room is never refused by the day counter if and only if the reserve is smaller than the day, or the limits leave no time in a day for its whole budget and one more check |
| ReserveSafety.DayClosesBeforeReserve | apps/api/app/pricing/budgets.py:67-127 | a budget of two a day with both reserved: after one ordinary request and one anomaly check the next check is refused by the day counter although the reserve has room |
| BackfillJobs.JobTable.ClaimJob | apps/api/app/pricing/backfill.py:556-607 | claims the first claimable unlocked row by priority, age and id, and counts the attempt; or nothing is claimable |
| BackfillJobs.JobTable.RetryJob | apps/api/app/pricing/backfill.py:609-626 | changes the row only for its owner; fails it for good once the attempts are used up |
| BackfillJobs.JobTable.FinishJob | apps/api/app/pricing/backfill.py:629-646 | changes the row only for its owner; a deferral takes the attempt back |
| BackfillJobs.JobTable.RenewJob | apps/api/app/pricing/backfill.py:649-662 | true exactly for the owner, whose claim it refreshes |
| BackfillJobs.JobTable.ProcessOne | apps/api/app/pricing/backfill.py:214-298 | claims the first job in the queue and settles it: completed if and only if it may be fetched and got its lease, its budget and at least one point, retried or failed if and only if it may be fetched and was hindered, deferred otherwise |
| BackfillJobs.JobTable.ProcessJobs | apps/api/app/pricing/backfill.py:206-299 | with the clock read for every claim and settlement: each job was first in the queue when it was claimed, the table is what claiming and settling them in this order makes of it, the counts are those of the served, the hindered and all other jobs, and a pass stops early only when nothing is left to claim |
| BackfillJobs.SettledRowExactlyWhen | apps/api/app/pricing/backfill.py:214-298 | the whole row a job is left with: completed, failed, waiting fifteen minutes or five, each by its condition, and the attempt returned exactly when it was deferred |
| BackfillJobs.ClaimableExactlyWhen | apps/api/app/pricing/backfill.py:556-646 | when a job can be claimed again: five minutes after a deferral, fifteen after a retry, more than ten without renewal while in progress, never after completion or failure |
| BackfillJobs.QueueOrder | apps/api/app/pricing/backfill.py:575-590 | the queue is ordered by priority, then age, then id, and no two jobs share a place |
| BackfillJobs.PassSettles | apps/api/app/pricing/backfill.py:206-299 | whatever the clock does, a pass never touches completed or failed jobs, leaves none of its jobs in progress, and raises an attempt count by the number of times it settled the job otherwise than by deferral |
| BackfillJobs.RepeatsAreApart | apps/api/app/pricing/backfill.py:629-641 | a job settled twice in one pass was claimed again no sooner than five minutes after it was settled |
| BackfillJobs.PassesAreDistinctExactlyWhen | apps/api/app/pricing/backfill.py:556-641 | passes of up to n jobs settle different jobs, over all tables and findings, if and only if the n-th claim comes less than five minutes after the first settlement |
| BackfillJobs.PassMaySettleTwice | apps/api/app/pricing/backfill.py:206-299 | a pass of two that defers a job and settles it again five minutes later |
| BackfillFencing.StepKeepsInv | apps/api/app/pricing/backfill.py:556-662 | claim, reclaim, renew, retry and finish keep the fencing and conservation invariant |
| BackfillFencing.EveryRunConservesAttempts | apps/api/app/pricing/backfill.py:591-641 | in every interleaving `attempt_count` = retries + abandoned claims + (1 if processing or completed), and a job sees at most `maximum_attempts` retries |
| BackfillFencing.FencingIsSound | apps/api/app/pricing/backfill.py:609-662 | in every interleaving in which a claim is settled at most once, a holder that changes the row is the one that claimed it last |
| BackfillFencing.TerminalIsForever | apps/api/app/pricing/backfill.py:609-662 | completed and failed jobs never change again |
| BackfillFencing.SecondSettlementWouldPass | apps/api/app/pricing/backfill.py:629-641 | settling at most once is needed: after a deferral the next holder has the same token, so a settled holder would pass the fence again |
| BackfillFencing.ReclaimsAreUnbounded | apps/api/app/pricing/backfill.py:556-593 | the attempt limit does not bound reclaims of abandoned claims |
| HistoryPages.MergeMeaning | apps/api/app/pricing/backfill.py:384-391 | pages merge if and only if no two points disagree at an instant, and then into exactly those points |
| HistoryPages.MergePage | apps/api/app/pricing/backfill.py:384-391 | the loop over one page, and `added` is zero exactly when no new instant came in |
| HistoryPages.SortByTime | apps/api/app/pricing/backfill.py:393-395 | the points in strict time order, all of them and no others |
| HistoryPages.FetchHistory | apps/api/app/pricing/backfill.py:353-400 | at most 41 requests; on success the strictly time-ordered points of the specification, otherwise its error |
| HistoryPages.FetchSucceedsExactlyWhen | apps/api/app/pricing/backfill.py:353-400 | a fetch succeeds if and only if some page within the limit is the first short one, every page before it was full and brought something new within the point limit, and no two points of all pages disagree; it then holds exactly their union |
| HistoryPages.FailureIsNamed | apps/api/app/pricing/backfill.py:353-400 | after full, new and consistent pages a fetch fails at the next page for the reason that page gives: job lost, budget refused, request failed, conflict, nothing new, or too much |
| Leases.DistributedPricingLocks.Acquire | apps/api/app/pricing/locks.py:46-53 | refuses a ttl under a second; otherwise takes the key exactly when nobody holds it, under a new token |
| Leases.DistributedPricingLocks.Release | apps/api/app/pricing/locks.py:55-59 | deletes the key exactly for its holder |
| Leases.DistributedPricingLocks.Extend | apps/api/app/pricing/locks.py:61-70 | moves the expiry exactly for its holder |
| Leases.SeenBefore | apps/api/app/pricing/locks.py:20-32 | an owner seen after a step was the owner before it, at every instant in between |
| Leases.LeaseIsContinuous | apps/api/app/pricing/locks.py:20-32 | in every run with expiry, an owner that still holds the key has held it at every instant since it got it |
| Leases.ExtendProvesContinuity | apps/api/app/pricing/locks.py:46-70 | if `extend` succeeds, no other owner held the key at any instant since the matching `acquire` |
| Leases.OthersCannotInterfere | apps/api/app/pricing/locks.py:55-70 | a release, extension or acquisition by anybody else, expired or not, leaves an owner's lease as it is |
| Leases.AcquiredLasts | apps/api/app/pricing/locks.py:46-53 | an acquired key is seen under its owner exactly until its ttl is over |
| Leases.ExtendedLasts | apps/api/app/pricing/locks.py:61-70 | an extended lease is seen under its owner exactly until the given ttl, or its own if none was given, has passed since the extension; other keys, and a lease that is no longer held, are left alone |
| Leases.ReleasedIsFree | apps/api/app/pricing/locks.py:55-59 | a key released by its holder is free, and only that key |
| Persistence.ReplayEqualsDirectWrite | apps/api/app/pricing/persistence.py:688-694 | a replayed canonical row equals the directly written one up to the saved-status entry if and only if the quote has a reason and was not already set aside under another status |
| Persistence.RowHoldsQuote | apps/api/app/pricing/persistence.py:332-372 | the row of a quote holds its every field, the reason cut to 240 characters |
| CanonicalOutbox.DecidedIsPublishable | apps/api/app/pricing/canonical.py:35-270 | what `select` decides has a reason, is well built and was not set aside, so its replay equals its direct write |
| CanonicalOutbox.KeptIsPublishable | apps/api/app/pricing/canonical.py:272-316 | so does what `keep_previous` builds |
| CanonicalOutbox.DerivedIsPublishable | apps/api/app/pricing/canonical.py:318-363 | so does what `derived_fallback` builds |
| CanonicalOutbox.EveryRowIsItsQuote | apps/api/app/pricing/persistence.py:79-98 | after any run in which such quotes are written or queued, every stored row is, up to the saved status, that of a quote the run wrote under that key |
| CanonicalOutbox.RowBelongsToItsKey | apps/api/app/pricing/persistence.py:332-345 | with an injective hash and one quote per key, the stored row is that of the one quote with its key |
| Outbox.StepKeepsInv | apps/api/app/pricing/persistence.py:229-258 | every write, failure, delivery, lookup, insert, record, acknowledgement, deletion and crash keeps the outbox invariant |
| Outbox.ReachableIsExactlyOnce | apps/api/app/pricing/persistence.py:196-258 | after any run with any number of crashing consumers no key has two rows, every row was promised with that content (but for the mark of a suspicious provider quote), and every promised write has exactly one row or a pending entry |
| Outbox.LeavesOnlyWithRow | apps/api/app/pricing/persistence.py:229-258 | an entry leaves the stream only once its row exists; an event whose replay raises is never dropped |
| Outbox.RowsAreForever | apps/api/app/pricing/persistence.py:332-396 | stored rows are never removed, and never changed but for the mark of a suspicious provider quote, which is not taken back |
| Outbox.RowsExactlyWhen | apps/api/app/pricing/persistence.py:332-396 | a row is let in exactly under a new key, unmarked; a mark reaches the rows of its key and no others |
| Outbox.LedgerCountsReplays | apps/api/app/pricing/persistence.py:635-680 | in every run the replay ledger counts exactly the recorded replays of each key |
| Outbox.PricingPersistence.Persist | apps/api/app/pricing/persistence.py:65-98 | the row is stored, or its payload queued, or neither when both stores are down |
| Outbox.PricingPersistence.MarkProviderQuoteSuspicious | apps/api/app/pricing/persistence.py:380-396 | marks the row under a key in place, if there is one, and changes nothing else |
| Outbox.PricingPersistence.WriteRow | apps/api/app/pricing/persistence.py:682-694 | inserts the row unless it is there, and raises for a malformed payload |
| Outbox.PricingPersistence.Replay | apps/api/app/pricing/persistence.py:635-680 | the row first, then the replay ledger, stopping where a fault strikes |
| Outbox.PricingPersistence.Handle | apps/api/app/pricing/persistence.py:229-254 | an entry is acknowledged and deleted only after its replay; a fault leaves it in the stream |
| Outbox.PricingPersistence.FlushStream | apps/api/app/pricing/persistence.py:196-258 | processes the longest prefix of the batch that replays, stops at the first failure, removes exactly the processed entries, each with its row, and is a run of the protocol |
| Operational.Fallbacks | apps/api/app/pricing/operational.py:63-67 | names are resolved without repetition, or the call raises exactly when one is unknown |
| Operational.BatchSettingIsSingleSetting | apps/api/app/pricing/operational.py:322-334 | a lookup among the batch's settings finds what the single lookup finds, scoped rows before global ones |
| Operational.ResolveAll | apps/api/app/pricing/operational.py:76-95 | the second loop gives every instrument what its single read gives, or raises what one of them raises |
| Operational.Instruments | apps/api/app/pricing/operational.py:63-95 | the batch succeeds if and only if every single read does, with exactly their results, for every content of the database including malformed rows, scoped nulls and failing reads |
| Operational.OverridesTakeEffectExactlyWhen | apps/api/app/pricing/operational.py:98-141 | for every combination of settings: both take effect if and only if each that is set is usable (a positive integer, an amount), otherwise neither; the three windows are then cut to the expiry, the thresholds are the new base and the larger of it and the old maximum, and nothing else changes; an infinite expiry raises |
| Operational.IntegerMeaning | apps/api/app/pricing/operational.py:125-141 | which settings read as an integer, and which: numbers towards zero, booleans as 0 and 1, text if it spells one; infinity raises |
| Operational.AmountMeaning | apps/api/app/pricing/operational.py:125-141 | which settings read as an amount, and which: numbers, the infinities, not-a-number, and text that spells one |
| Operational.AmountsAreOrdered | apps/api/app/pricing/operational.py:125-141 | amounts are totally ordered, infinities included; what is not a number compares with nothing |
| Operational.OffExactlyWhen | apps/api/app/pricing/operational.py:98-122 | a flag of a row is off exactly when it is null, false, zero or empty |
| Operational.ValueExactlyWhen | apps/api/app/pricing/operational.py:271-281 | what a setting's value is in every state of the database: that of the scoped row if there is one, else of the global row, else nothing |
| Operational.SourceExactlyWhen | apps/api/app/pricing/operational.py:50-61 | what a single read rests on: unknown names raise, an unreachable or malformed row gives the release definition as it is, a missing row the release with its overrides, a readable row that row with its overrides |
| Operational.ResolvedIsOrdered | apps/api/app/pricing/operational.py:50-61 | every result keeps 0 < ttl <= stale <= expire and base <= maximum, belongs to the instrument asked for, and allows no fallback the release forbids |
| Operational.ScopedHidesGlobal | apps/api/app/pricing/operational.py:271-281 | key by key: where a scoped setting exists, even null or malformed, the global setting of that key makes no difference |
| Operational.OverflowEscapesExactlyWhen | apps/api/app/pricing/operational.py:98-141 | the read of a known instrument raises if and only if the rows can be read and its row holds an infinite integer before anything unreadable, or its row is readable or absent and its expiry setting is infinite |
| Operational.OneOverflowFailsBatch | apps/api/app/pricing/operational.py:63-95 | one instrument with an infinite expiry setting makes the whole batch raise |
| Operational.SyncedRowIsReadBack | apps/api/app/pricing/persistence.py:540-567 | a row as the catalogue synchronisation inserts it resolves to the release definition |
| Operational.InfiniteByDefaultFailsEverywhere | apps/api/app/pricing/operational.py:50-61 | a database in which every instrument has its synchronised row and the global expiry reads Infinity: no instrument can be read |
| Breaker.ProviderRuntimeState.RecordSuccess | apps/api/app/pricing/providers.py:635-658 | the runtime after a success |
| Breaker.ProviderRuntimeState.RecordFailure | apps/api/app/pricing/providers.py:677-706 | the runtime after a failure: cooldown on 429, open at three in a row |
| Breaker.ProviderRuntimeState.CircuitOpen | apps/api/app/pricing/providers.py:829-839 | blocks during a cooldown or an open minute, and moves an open circuit to half-open when its minute is over |
| Breaker.ProviderQuoteCollector.Quote | apps/api/app/pricing/providers.py:104-229 | the decision order of `quote` and what it leaves in the store |
| Breaker.HeldBackExactlyWhen | apps/api/app/pricing/providers.py:829-839 | in every run of one worker, the circuit holds a call back if and only if the last cooldown is not over, or three calls in a row have failed and the last did less than a minute ago |
| Breaker.OutcomeExactlyWhen | apps/api/app/pricing/providers.py:104-229 | in every run of one worker, each outcome of `quote` if and only if its condition holds; the provider is called exactly when the attempt is enabled, configured, not held back, finds no live cache entry, has the lock and is within budget |
| Breaker.SuccessCloses | apps/api/app/pricing/providers.py:635-658 | a success closes the circuit and forgets the failures in a row |
| Breaker.FailureIsCounted | apps/api/app/pricing/providers.py:677-706 | a failure is counted once and touches nothing of the successes; an attempt that calls nobody changes at most an open circuit to half-open |
| Breaker.HalfOpenExactlyWhen | apps/api/app/pricing/providers.py:829-839 | the circuit is left half open exactly when an attempt got as far as the budget on a circuit that was not closed and neither succeeded nor failed for the third time in a row, or when nothing touched a half-open one |
| Breaker.RunningAverageIsMean | apps/api/app/pricing/providers.py:650-657 | the running average is the mean of all successful latencies |
| Breaker.EveryRunIsGuarded | apps/api/app/pricing/providers.py:104-229 | in every run of one worker the circuit is closed exactly while fewer than three calls failed in a row, the counters and the mean are exact, no call begins before all earlier cooldowns are over, and after three failures in a row the next call waits 60 seconds from the last |
| Breaker.FailingProviderIsCalledOnceAMinute | apps/api/app/pricing/providers.py:677-706 | in every run of one worker, once the circuit has opened, k further failures in a row take at least k minutes |

## Left out

- The Telegram fallback and the Telegram source policy: a verifier carries the policy's verdict as a boolean.
- Trimming and case folding of families, venues, labels and instrument names: the model starts from the folded values.
- `Decimal` precision, `quantize` and JSON floats: arithmetic is exact.
- The standard deviation behind the volatility: any real volatility is allowed, which covers it.
- Summary entries that no reader uses again (spread, differences, changes over 1h to 30d, sequence numbers), `id` of stored rows.
- One clock reading per refresh: `select`, `keep_previous` and the commits of one refresh share one instant.
- The expiry of the stored canonical quote in Redis: a stored quote stays until it is replaced.
- Which provider is asked first (`_normal_quote`, `_fallback_quote`, `providers_for`): the refresh starts with the primary it got.
- Commits that change nothing worth publishing: in the fan-out every commit is published sooner or later.
- Initial quotes handed to a new connection by its caller, snapshot contents that are read in several commands, changes of subscriptions during a connection, heartbeats and the message rate limit of a WebSocket client.
- Hub.PriceWebSocketHub.Dispatch: does not model the order in which clients are visited, because their queues are independent.
- The `minimum_remaining` result of the budget script and rounding of Redis expiry to seconds.
- `skip_locked`: rows locked by other transactions are a parameter of `ClaimJob`; the pass of one worker meets none.
- BackfillJobs.JobTable.ProcessJobs: does not model the draining of the Redis queue before the pass, nor other workers during it, because `BackfillFencing` covers every interleaving of one job.
- Administrative changes of job rows, which could reset an attempt counter.
- HistoryPages.FetchHistory: does not model the parameters of a page request and the history providers that are not paginated, because they fetch one page.
- Cancellation of tasks inside a lease renewal: a renewal is a plain `extend`.
- Trimming of the persistence stream, and when entries are flushed: the outbox claims are safety claims for an untrimmed stream. An entry acknowledged but not yet deleted stays in it.
- Outbox.PricingPersistence.FlushStream: does not model the choice of the batch by XAUTOCLAIM and XREADGROUP, which is a parameter.
- Outbox.PricingPersistence.MarkProviderQuoteSuspicious: does not model the three marked columns one by one, because they are written together.
- The anomaly, verification and raw payload tables, and provider catalogue synchronisation: plain inserts.
- Breaker.EveryRunIsGuarded: does not model several workers, whose updates of one runtime record can overwrite each other, nor the seven-day lifetime of the record in Redis.
- The displayed entries of the runtime record (`operational_status`, `last_error_code`).
- HTTP transport, parsers, alerts, metrics, routers and front ends.
