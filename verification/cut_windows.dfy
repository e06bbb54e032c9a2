/**
 A run of the ledger with the catalogue's own windows (instruments.py), in which a derived price is
 shown for a shorter time than its sources are live.
 */
module CutWindows {
  import opened Wrappers
  import opened Freshness
  import opened Models
  import opened Anomaly
  import opened Consensus
  import opened Canonical
  import opened Decisions
  import opened Refresh
  import opened Derived
  import opened Ledger

  /** The definitions of bitcoin, of the dollar, and of bitcoin in Toman. */
  datatype Trio = Trio(bitcoin: Instrument, dollar: Instrument, target: Instrument) {
    function Catalogue(): Catalogue {
      map[bitcoin.id := bitcoin, dollar.id := dollar, target.id := target]
    }
  }

  /** The definitions as the release ships them. */
  predicate IsReleased(t: Trio) {
    && t.bitcoin == InstrumentDefinition(BtcUsd, Windows(360, 900, 1800), 2.0, 8.0, 1000.0, 1000000.0, true, false)
    && t.dollar == InstrumentDefinition(UsdToman, Windows(60, 180, 900), 1.0, 4.0, 1000.0, 1000000.0, true, true)
    && t.target == InstrumentDefinition(BtcToman, Windows(20, 60, 300), 2.0, 8.0, 10000000.0, 1000000000000.0, true,
                                        true)
  }

  /** Bitcoin and the dollar are refreshed, and the Toman price of bitcoin is derived from them, all at one instant. */
  function TheRun(t: Trio, price: Price, rates: Rates, now: int): (run: seq<Event>)
    ensures |run| == 3
  {
    [Refreshing(LoneAttempt(t.bitcoin, price, now)), Refreshing(LoneAttempt(t.dollar, price, now)),
     Deriving(Fallback(t.target, t.target, rates, 1, true, true, now))]
  }

  /** What the first refresh of an instrument by a lone quote leaves. */
  ghost predicate IsFirst(e: Entry, instrument: Instrument, price: Price, now: int) {
    && e.deadlines == [now + instrument.windows.ttl] && e.uses == {} && e.exact
    && var q := e.quote;
    && q.price == price && q.status.LiveQuote? && q.isPersisted && q.observedAt == now && q.canonicalAt == now
    && q.validUntil == now + instrument.windows.ttl && now <= q.expiresAt
    && IsRegular(q, instrument.windows)
    && q.summary.depth == Some(0) && q.summary.confidence == None && q.summary.provenance == []
  }

  lemma FirstDecision(instrument: Instrument, price: Price, now: int)
    ensures var d := Decide(instrument, LoneQuote(instrument, price, now), None, None, [], false, now);
            && d.Success?
            && IsFirst(Entry(AfterPersist(d.value.canonical, true), [now + instrument.windows.ttl], {}, true),
                       instrument, price, now)
  {
    var q := LoneQuote(instrument, price, now);
    LoneQuoteIsFresh(instrument, price, now);
    assert ValidVerifiers([], q, instrument, now) == [];
    assert Deadlines([q], instrument) == [now + instrument.windows.ttl];
    assert MinLiveUntil([q], instrument) == Success(now + instrument.windows.ttl);
  }

  lemma FirstRefresh(s: State, instrument: Instrument, price: Price, now: int) returns (e: Entry)
    requires instrument.enabled && instrument.id !in s.entries
    ensures RefreshLedger(s, LoneAttempt(instrument, price, now)) == State(now, s.entries[instrument.id := e])
    ensures IsFirst(e, instrument, price, now)
  {
    var a, q := LoneAttempt(instrument, price, now), LoneQuote(instrument, price, now);
    FirstDecision(instrument, price, now);
    LoneQuoteIsFresh(instrument, price, now);
    var d := Decide(instrument, q, None, None, [], false, now).value.canonical;
    assert ValidVerifiers([], q, instrument, now) == [];
    assert NewEvidence(None, a) == [q];
    assert Step(None, a) == Some(AfterPersist(d, true));
    assert EvidenceDeadlines([q], instrument) == [now + instrument.windows.ttl];
    e := Entry(AfterPersist(d, true), [now + instrument.windows.ttl], {}, true);
  }

  /** A fresh entry is visible as it is. */
  lemma FirstIsVisible(s: State, catalogue: Catalogue, id: InstrumentId, price: Price, now: int)
    requires id in s.entries && id in catalogue && catalogue[id].Accepts(price) && catalogue[id].enabled
    requires IsFirst(s.entries[id], catalogue[id], price, now)
    ensures id in Visible(s, catalogue) && Visible(s, catalogue)[id] == s.entries[id].quote
    ensures IsOperationallyFresh(Visible(s, catalogue)[id], now)
  {
    RegularIsReadBack(s.entries[id].quote, catalogue[id]);
  }

  /** Both inputs have just been refreshed. */
  ghost predicate IsReady(s: State, t: Trio, price: Price, now: int) {
    && s.entries.Keys == {BtcUsd, UsdToman} && s.clock == now
    && IsFirst(s.entries[BtcUsd], t.bitcoin, price, now) && IsFirst(s.entries[UsdToman], t.dollar, price, now)
  }

  lemma InputsAreReady(t: Trio, price: Price, now: int, start: int) returns (middle: State, s: State)
    requires IsReleased(t)
    ensures RefreshLedger(State(start, map[]), LoneAttempt(t.bitcoin, price, now)) == middle && middle.clock == now
    ensures RefreshLedger(middle, LoneAttempt(t.dollar, price, now)) == s && IsReady(s, t, price, now)
  {
    var bitcoin := FirstRefresh(State(start, map[]), t.bitcoin, price, now);
    middle := State(now, map[][BtcUsd := bitcoin]);
    var dollar := FirstRefresh(middle, t.dollar, price, now);
    s := State(now, middle.entries[UsdToman := dollar]);
    assert s.entries[BtcUsd] == bitcoin && s.entries[UsdToman] == dollar;
  }

  lemma BothAreVisible(s: State, t: Trio, price: Price, now: int)
    requires IsReleased(t) && IsReady(s, t, price, now) && t.bitcoin.Accepts(price) && t.dollar.Accepts(price)
    ensures var quotes := Visible(s, t.Catalogue());
            && BtcUsd in quotes && quotes[BtcUsd] == s.entries[BtcUsd].quote
               && IsOperationallyFresh(quotes[BtcUsd], now)
            && UsdToman in quotes && quotes[UsdToman] == s.entries[UsdToman].quote
               && IsOperationallyFresh(quotes[UsdToman], now)
  {
    FirstIsVisible(s, t.Catalogue(), BtcUsd, price, now);
    FirstIsVisible(s, t.Catalogue(), UsdToman, price, now);
  }

  /** The formula for bitcoin goes through the dollar. */
  lemma PlanIsThroughDollar(quotes: Snapshot, now: int, rates: Rates)
    requires BtcUsd in quotes && UsdToman in quotes && IsOperationallyFresh(quotes[UsdToman], now)
    ensures ResolveFormula(BtcToman, quotes, now, rates) == Some(ThroughBridge(BtcUsd, 1.0, Free))
  {
  }

  ghost predicate IsPlainInput(q: CanonicalQuote, now: int) {
    && IsOperationallyFresh(q, now)
    && q.summary.depth == Some(0) && q.summary.confidence == None && q.summary.provenance == []
  }

  lemma GatherPlain(g: Gathered, id: InstrumentId, quotes: Snapshot, now: int)
    requires id in quotes && IsPlainInput(quotes[id], now) && id != BtcToman
    ensures var r := GatherOne(g, BtcToman, id, quotes, now);
            r.Success? && r.value.quotes == g.quotes + [quotes[id]] && r.value.depths == g.depths + [0]
  {
  }

  lemma GatherLast(ids: seq<InstrumentId>, id: InstrumentId, quotes: Snapshot, now: int)
    requires GatherAll(BtcToman, ids, quotes, now).Success?
    ensures GatherAll(BtcToman, ids + [id], quotes, now)
            == GatherOne(GatherAll(BtcToman, ids, quotes, now).value, BtcToman, id, quotes, now)
  {
    assert (ids + [id])[..|ids|] == ids;
  }

  lemma GatherBoth(a: InstrumentId, b: InstrumentId, quotes: Snapshot, now: int)
    requires a != BtcToman && b != BtcToman
    requires a in quotes && b in quotes && IsPlainInput(quotes[a], now) && IsPlainInput(quotes[b], now)
    ensures var g := GatherAll(BtcToman, [a, b], quotes, now);
            g.Success? && g.value.quotes == [quotes[a], quotes[b]] && g.value.depths == [0, 0]
  {
    GatherLast([], a, quotes, now);
    GatherPlain(Gathered([], [], [], []), a, quotes, now);
    assert [] + [a] == [a];
    GatherLast([a], b, quotes, now);
    GatherPlain(GatherAll(BtcToman, [a], quotes, now).value, b, quotes, now);
    assert [a] + [b] == [a, b];
  }

  lemma BothDeadlines(g: Gathered, a: CanonicalQuote, b: CanonicalQuote)
    requires g.quotes == [a, b]
    ensures MinOf(ValidUntils(g.quotes)) == Min(a.validUntil, b.validUntil)
    ensures MinOf(ObservedTimes(g.quotes)) == Min(a.observedAt, b.observedAt)
  {
    assert ValidUntils(g.quotes) == [a.validUntil, b.validUntil]
           && ObservedTimes(g.quotes) == [a.observedAt, b.observedAt];
  }

  lemma InputsOfBridge(f: Formula)
    requires f == ThroughBridge(BtcUsd, 1.0, Free)
    ensures Inputs(f) == [BtcUsd, UsdToman]
  {
  }

  lemma BitcoinPrice(f: Formula, quotes: Snapshot, price: Price, rates: Rates)
    requires f == ThroughBridge(BtcUsd, 1.0, Free) && BtcUsd in quotes && UsdToman in quotes
    requires quotes[BtcUsd].price == price && quotes[UsdToman].price == price
    ensures forall id <- Inputs(f) :: id in quotes
    ensures Calculate(f, quotes, rates) == price * price
  {
    InputsOfBridge(f);
    assert FxRate(Free, quotes) == price;
    assert price * price * 1.0 == price * price;
  }

  lemma BitcoinIsAssembled(target: Instrument, f: Formula, quotes: Snapshot, g: Gathered, now: int, rates: Rates)
    requires f == ThroughBridge(BtcUsd, 1.0, Free) && (forall id <- Inputs(f) :: id in quotes)
    requires g.quotes != [] && g.depths == [0, 0] && target.Accepts(Calculate(f, quotes, rates))
    ensures forall i | 0 <= i < |Inputs(f)| :: Inputs(f)[i] in quotes
    ensures var d := Assemble(target, f, g, quotes, now, rates);
            && d.Success? && d.value.IsDerived() && d.value.inputLiveUntil == Some(MinOf(ValidUntils(g.quotes)))
            && d.value.observedAt == MinOf(ObservedTimes(g.quotes))
               && d.value.price == Some(Calculate(f, quotes, rates))
  {
    InputsOfBridge(f);
    assert MaxDepth(g.depths) in g.depths;
  }

  /** A dollar that is live for a minute: so long may the derived quote be live. */
  ghost predicate IsDerivedQuote(d: ProviderQuote, target: Instrument, now: int) {
    d.IsDerived() && d.inputLiveUntil == Some(now + 60) && d.observedAt == now && d.price.Some?
      && target.Accepts(d.price.value)
  }

  lemma DeriveThroughDollar(target: Instrument, quotes: Snapshot, f: Formula, now: int, rates: Rates)
    requires target.id == BtcToman && ResolveFormula(BtcToman, quotes, now, rates) == Some(f)
             && f == ThroughBridge(BtcUsd, 1.0, Free)
    requires (forall id <- Inputs(f) :: id in quotes) && target.Accepts(Calculate(f, quotes, rates))
    requires BtcUsd in quotes && UsdToman in quotes && IsPlainInput(quotes[BtcUsd], now)
             && IsPlainInput(quotes[UsdToman], now)
    requires quotes[BtcUsd].validUntil == now + 360 && quotes[UsdToman].validUntil == now + 60
    requires quotes[BtcUsd].observedAt == now && quotes[UsdToman].observedAt == now
    ensures var d := Derive(target, quotes, now, rates);
            d.Success? && IsDerivedQuote(d.value, target, now)
  {
    GatherBoth(BtcUsd, UsdToman, quotes, now);
    InputsOfBridge(f);
    var g := GatherAll(BtcToman, Inputs(f), quotes, now).value;
    BothDeadlines(g, quotes[BtcUsd], quotes[UsdToman]);
    BitcoinIsAssembled(target, f, quotes, g, now, rates);
  }

  lemma BitcoinIsDerived(s: State, t: Trio, price: Price, rates: Rates, now: int)
    requires IsReleased(t) && IsReady(s, t, price, now)
    requires t.bitcoin.Accepts(price) && t.dollar.Accepts(price) && t.target.Accepts(price * price)
    ensures var d := Derive(t.target, Visible(s, t.Catalogue()), now, rates);
            d.Success? && IsDerivedQuote(d.value, t.target, now)
  {
    var quotes := Visible(s, t.Catalogue());
    BothAreVisible(s, t, price, now);
    PlanIsThroughDollar(quotes, now, rates);
    var f := ResolveFormula(BtcToman, quotes, now, rates).value;
    BitcoinPrice(f, quotes, price, rates);
    DeriveThroughDollar(t.target, quotes, f, now, rates);
  }

  /** Its anchor lies in the future, so the reader falls back on the observation. */
  lemma CanonicalIsCut(target: Instrument, d: ProviderQuote, saves: bool, now: int)
    requires target.windows == Windows(20, 60, 300) && target.enabled && target.allowDerivedFallback
    requires IsDerivedQuote(d, target, now) && d.persistence == Persisted
    ensures DerivedCanonical(target, d, now).Success?
    ensures var q := AfterPersist(DerivedCanonical(target, d, now).value, saves);
            q.validUntil == now + 60 && Read(q, target).Some? && Read(q, target).value.validUntil == now + 20
  {
  }

  lemma BothHistories(s: State, t: Trio, price: Price, now: int, ids: seq<InstrumentId>)
    requires IsReleased(t) && IsReady(s, t, price, now) && ids == [BtcUsd, UsdToman]
    ensures forall i | 0 <= i < |ids| :: ids[i] in s.entries
    ensures AllDeadlines(s, ids) == [now + 360, now + 60]
  {
    var lists := DeadlinesOf(s, ids);
    assert lists == [[now + 360], [now + 60]];
    assert lists[..1] == [[now + 360]] && lists[..1][..0] == [];
    assert Concat(lists[..1]) == [now + 360];
  }

  lemma BitcoinIsCut(s: State, t: Trio, price: Price, rates: Rates, now: int)
    requires IsReleased(t) && IsReady(s, t, price, now)
    requires t.bitcoin.Accepts(price) && t.dollar.Accepts(price) && t.target.Accepts(price * price)
    ensures var after := DeriveLedger(s, Fallback(t.target, t.target, rates, 1, true, true, now), t.Catalogue());
            && BtcToman in after.entries && BtcToman in Visible(after, t.Catalogue())
            && after.entries[BtcToman].deadlines == [now + 360, now + 60]
            && Visible(after, t.Catalogue())[BtcToman].validUntil == now + 20
  {
    var f := Fallback(t.target, t.target, rates, 1, true, true, now);
    BitcoinIsDerived(s, t, price, rates, now);
    BothAreVisible(s, t, price, now);
    PlanIsThroughDollar(Visible(s, t.Catalogue()), now, rates);
    InputsAreEntries(s, f, t.Catalogue());
    var d := FormulaQuoteOf(s, f, t.Catalogue()).value.(id := Some(1), persistence := Persisted);
    CanonicalIsCut(t.target, d, true, now);
    BothHistories(s, t, price, now, Inputs(ResolveFormula(BtcToman, Visible(s, t.Catalogue()), now, rates).value));
  }

  lemma LoneAttemptIsSound(instrument: Instrument, price: Price, now: int, catalogue: Catalogue, clock: int)
    requires instrument.id in catalogue && catalogue[instrument.id] == instrument && clock <= now
    ensures IsSoundEvent(Refreshing(LoneAttempt(instrument, price, now)), catalogue, clock)
  {
  }

  lemma TheRunIsSound(t: Trio, price: Price, rates: Rates, now: int) returns (s: State)
    requires IsReleased(t)
    ensures var run := TheRun(t, price, rates, now);
            AreSound(now, run, t.Catalogue()) && After(now, run[..2], t.Catalogue()) == s
    ensures IsReady(s, t, price, now)
  {
    var run, catalogue := TheRun(t, price, rates, now), t.Catalogue();
    var middle;
    middle, s := InputsAreReady(t, price, now, now);
    var zero, one, two := run[..0], run[..1], run[..2];
    assert zero == [] && one[..0] == zero && two[..1] == one && one[0] == run[0] && two[1] == run[1];
    assert After(now, zero, catalogue) == State(now, map[]);
    assert After(now, one, catalogue) == middle;
    assert After(now, two, catalogue) == s;
    LoneAttemptIsSound(t.bitcoin, price, now, catalogue, now);
    LoneAttemptIsSound(t.dollar, price, now, catalogue, now);
    forall i | 0 <= i < |run| ensures IsSoundEvent(run[i], catalogue, After(now, run[..i], catalogue).clock) {
      assert i == 0 || i == 1 || i == 2;
    }
  }

  /**
   The shown deadline of a derived price may lie before the earliest live deadline of its sources: with
   the windows of the release, a bitcoin price derived through the dollar is shown as live for 20
   seconds, although every source of it is live for at least 60.
   */
  lemma DerivedWindowMayBeCut(t: Trio, price: Price, rates: Rates, now: int)
    requires IsReleased(t) && t.bitcoin.Accepts(price) && t.dollar.Accepts(price) && t.target.Accepts(price * price)
    ensures var run := TheRun(t, price, rates, now);
            var s := After(now, run, t.Catalogue());
            && AreSound(now, run, t.Catalogue())
            && BtcToman in s.entries && BtcToman in Visible(s, t.Catalogue()) && s.entries[BtcToman].deadlines != []
            && MinOf(s.entries[BtcToman].deadlines) == now + 60
            && Visible(s, t.Catalogue())[BtcToman].validUntil == now + 20
  {
    var run := TheRun(t, price, rates, now);
    var s := TheRunIsSound(t, price, rates, now);
    BitcoinIsCut(s, t, price, rates, now);
    assert run[..2] == run[..|run| - 1];
    assert After(now, run, t.Catalogue()) == DeriveLedger(s, run[2].fallback, t.Catalogue());
  }
}
