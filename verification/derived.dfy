/** Formula prices over canonical quotes that are already published (derived.py). */
module Derived {
  import opened Wrappers
  import opened Freshness
  import opened Models

  datatype DerivedError =
    | NoFormula | InputNotFresh | InvalidDepth | InvalidConfidence | Cycle | TooDeep | UsdtOutOfRange | OutOfBounds

  const MAXIMUM_DEPTH := 3

  /** The source family every formula quote carries. */
  const FORMULA_FAMILY := "internal_formula"

  /** The constants that come from settings and from the purities of the instruments. */
  datatype Rates = Rates(silver925Over999: Price, silver999PerOunce: Price, usdtMin: real, usdtMax: real)

  /** Canonical quotes by instrument. */
  type Snapshot = map<InstrumentId, CanonicalQuote>

  datatype Bridge = Free | Proxy

  datatype Formula = PurityOfSilver | UsdtCross | ThroughBridge(reference: InstrumentId, factor: Price, bridge: Bridge)

  function BridgeInputs(b: Bridge): seq<InstrumentId> {
    match b
    case Free => [UsdToman]
    case Proxy => [UsdtToman, UsdtUsd]
  }

  function Inputs(f: Formula): seq<InstrumentId> {
    match f
    case PurityOfSilver => [Silver999Toman]
    case UsdtCross => [UsdtToman, UsdtUsd]
    case ThroughBridge(reference, _, bridge) => [reference] + BridgeInputs(bridge)
  }

  predicate IsOperationallyFresh(q: CanonicalQuote, now: int) {
    && q.status in {LiveQuote, Confirmed, FreshCache, DerivedFallback}
    && q.isPersisted
    && now <= q.validUntil
    && now <= q.expiresAt
  }

  predicate AreUsable(ids: seq<InstrumentId>, quotes: Snapshot, now: int) {
    forall i | 0 <= i < |ids| :: ids[i] in quotes && IsOperationallyFresh(quotes[ids[i]], now)
  }

  function FxPlan(quotes: Snapshot, now: int): Option<Bridge> {
    if AreUsable(BridgeInputs(Free), quotes, now) then Some(Free)
    else if AreUsable(BridgeInputs(Proxy), quotes, now) then Some(Proxy)
    else None
  }

  function ThroughFx(reference: InstrumentId, factor: Price, quotes: Snapshot, now: int): Option<Formula> {
    var bridge :- FxPlan(quotes, now);
    Some(ThroughBridge(reference, factor, bridge))
  }

  function ResolveFormula(target: InstrumentId, quotes: Snapshot, now: int, rates: Rates): Option<Formula> {
    if target == Silver925Toman then
      if AreUsable(Inputs(PurityOfSilver), quotes, now) then Some(PurityOfSilver) else None
    else if target == UsdToman then
      if AreUsable(Inputs(UsdtCross), quotes, now) then Some(UsdtCross) else None
    else if target == Silver999Toman then ThroughFx(XagUsd, rates.silver999PerOunce, quotes, now)
    else if target == BtcToman then ThroughFx(BtcUsd, 1.0, quotes, now)
    else None
  }

  lemma QuotientIsPositive(x: Price, y: Price)
    ensures x / y > 0.0
  {
    assert (x / y) * y == x;
  }

  function FxRate(b: Bridge, quotes: Snapshot): Price
    requires forall id <- BridgeInputs(b) :: id in quotes
  {
    match b
    case Free => assert UsdToman in BridgeInputs(b); quotes[UsdToman].price
    case Proxy =>
      assert UsdtToman in BridgeInputs(b) && UsdtUsd in BridgeInputs(b);
      QuotientIsPositive(quotes[UsdtToman].price, quotes[UsdtUsd].price);
      quotes[UsdtToman].price / quotes[UsdtUsd].price
  }

  function Calculate(f: Formula, quotes: Snapshot, rates: Rates): Price
    requires forall id <- Inputs(f) :: id in quotes
  {
    match f
    case PurityOfSilver =>
      assert Silver999Toman in Inputs(f);
      quotes[Silver999Toman].price * rates.silver925Over999
    case UsdtCross =>
      assert forall id <- BridgeInputs(Proxy) :: id in Inputs(f);
      FxRate(Proxy, quotes)
    case ThroughBridge(reference, factor, bridge) =>
      assert reference in Inputs(f) && forall id <- BridgeInputs(bridge) :: id in Inputs(f);
      quotes[reference].price * FxRate(bridge, quotes) * factor
  }

  // ----- what is read from an input -----------------------------------------------------------

  function DepthOf(q: CanonicalQuote): Result<nat, DerivedError> {
    if q.summary.depth.None? then Success(if q.summary.derived then 1 else 0)
    else if q.summary.depth.value < 0 then Failure(InvalidDepth)
    else Success(q.summary.depth.value)
  }

  function ConfidenceOf(q: CanonicalQuote): Result<real, DerivedError> {
    var c := q.summary.confidence.GetOr(1.0);
    if 0.0 <= c <= 1.0 then Success(c) else Failure(InvalidConfidence)
  }

  /** `items` appended to `labels`, without repetitions. */
  function AddLabels(labels: seq<Label>, items: seq<Label>): (r: seq<Label>)
    ensures forall x :: x in r <==> x in labels || x in items
  {
    if items == [] then labels else
      var n := |items| - 1;
      assert items == items[..n] + [items[n]];
      var before := AddLabels(labels, items[..n]);
      if items[n] in before then before else before + [items[n]]
  }

  function ProvenanceOf(id: InstrumentId, q: CanonicalQuote): seq<Label> {
    AddLabels([], q.summary.provenance + [OfInstrument(id)])
  }

  // ----- gathering the inputs -----------------------------------------------------------------

  datatype Gathered = Gathered(
    quotes: seq<CanonicalQuote>, depths: seq<nat>, confidences: seq<real>, provenance: seq<Label>)

  function GatherOne(
    g: Gathered, target: InstrumentId, id: InstrumentId, quotes: Snapshot, now: int): Result<Gathered, DerivedError> {
    if id !in quotes || !IsOperationallyFresh(quotes[id], now) then Failure(InputNotFresh) else
      var depth :- DepthOf(quotes[id]);
      var labels := ProvenanceOf(id, quotes[id]);
      if OfInstrument(target) in labels then Failure(Cycle) else
        var confidence :- ConfidenceOf(quotes[id]);
        Success(Gathered(
                  g.quotes + [quotes[id]], g.depths + [depth], g.confidences + [confidence],
                  AddLabels(g.provenance, labels)))
  }

  function GatherAll(
    target: InstrumentId, ids: seq<InstrumentId>, quotes: Snapshot, now: int): Result<Gathered, DerivedError> {
    if ids == [] then Success(Gathered([], [], [], [])) else
      var before :- GatherAll(target, ids[..|ids| - 1], quotes, now);
      GatherOne(before, target, ids[|ids| - 1], quotes, now)
  }

  method Gather(
    target: InstrumentId, ids: seq<InstrumentId>, quotes: Snapshot, now: int) returns (r: Result<Gathered,
    DerivedError>)
    ensures r == GatherAll(target, ids, quotes, now)
  {
    var inputs: seq<CanonicalQuote>, depths: seq<nat>, confidences: seq<real>, provenance: seq<Label> := [], [], [], [];
    for i := 0 to |ids|
      invariant GatherAll(target, ids[..i], quotes, now) == Success(Gathered(inputs, depths, confidences, provenance))
    {
      GatherPrefix(target, ids, i + 1, quotes, now);
      assert ids[..i + 1][..i] == ids[..i];
      var id := ids[i];
      if id !in quotes || !IsOperationallyFresh(quotes[id], now) {
        return Failure(InputNotFresh);
      }
      var depth := DepthOf(quotes[id]);
      if depth.Failure? {
        return Failure(depth.error);
      }
      var labels := ProvenanceOf(id, quotes[id]);
      if OfInstrument(target) in labels {
        return Failure(Cycle);
      }
      var confidence := ConfidenceOf(quotes[id]);
      if confidence.Failure? {
        return Failure(confidence.error);
      }
      inputs, depths, confidences := inputs + [quotes[id]], depths + [depth.value], confidences + [confidence.value];
      provenance := AddLabels(provenance, labels);
    }
    assert ids[..|ids|] == ids;
    return Success(Gathered(inputs, depths, confidences, provenance));
  }

  /** The first input that cannot be used decides the outcome. */
  lemma {:induction false} GatherPrefix(
    target: InstrumentId, ids: seq<InstrumentId>, n: nat, quotes: Snapshot, now: int)
    requires n <= |ids|
    ensures GatherAll(target, ids[..n], quotes, now).Failure? ==>
              GatherAll(target, ids, quotes, now) == GatherAll(target, ids[..n], quotes, now)
  {
    if n < |ids| {
      GatherPrefix(target, ids[..|ids| - 1], n, quotes, now);
      assert ids[..|ids| - 1][..n] == ids[..n];
    } else {
      assert ids[..n] == ids;
    }
  }

  // ----- deriving -----------------------------------------------------------------------------

  function MaxDepth(depths: seq<nat>): (m: nat)
    ensures forall d <- depths :: d <= m
    ensures depths != [] ==> m in depths
  {
    if depths == [] then 0 else
      var n := |depths| - 1;
      assert depths == depths[..n] + [depths[n]];
      Max(MaxDepth(depths[..n]), depths[n])
  }

  function MinConfidence(confidences: seq<real>): (m: real)
    ensures forall c <- confidences :: m <= c
    ensures m == 1.0 || m in confidences
    ensures m <= 1.0
  {
    if confidences == [] then 1.0 else
      var n := |confidences| - 1;
      assert confidences == confidences[..n] + [confidences[n]];
      MinReal(MinConfidence(confidences[..n]), confidences[n])
  }

  function ObservedTimes(quotes: seq<CanonicalQuote>): (r: seq<int>)
    ensures |r| == |quotes| && forall i | 0 <= i < |r| :: r[i] == quotes[i].observedAt
  {
    seq(|quotes|, i requires 0 <= i < |quotes| => quotes[i].observedAt)
  }

  function ValidUntils(quotes: seq<CanonicalQuote>): (r: seq<int>)
    ensures |r| == |quotes| && forall i | 0 <= i < |r| :: r[i] == quotes[i].validUntil
  {
    seq(|quotes|, i requires 0 <= i < |quotes| => quotes[i].validUntil)
  }

  function FormulaQuote(target: InstrumentId, price: Price, g: Gathered, depth: nat, now: int): ProviderQuote
    requires g.quotes != []
  {
    ProviderQuote(
      None, target, "derived", Some(price), MinOf(ObservedTimes(g.quotes)), now,
      Accepted, Unpersisted, DerivedFormula, FORMULA_FAMILY, "nerkhbaan",
      MinConfidence(g.confidences) * 0.90, depth, AddLabels(g.provenance, [OfFamily(FORMULA_FAMILY)]),
      Stamp(None, None, false), None, Some(MinOf(ValidUntils(g.quotes))), false)
  }

  /** The checks and the quote that follow once the inputs are gathered. */
  function Assemble(
    instrument: Instrument, f: Formula, g: Gathered, quotes: Snapshot, now: int, rates: Rates):
    Result<ProviderQuote, DerivedError>
    requires g.quotes != [] && forall i | 0 <= i < |Inputs(f)| :: Inputs(f)[i] in quotes
  {
    var depth := MaxDepth(g.depths) + 1;
    if depth > MAXIMUM_DEPTH then Failure(TooDeep)
    else if UsdtUsd in Inputs(f)
      && !(rates.usdtMin <= quotes[UsdtUsd].price <= rates.usdtMax) then Failure(UsdtOutOfRange) else
      var price := Calculate(f, quotes, rates);
      if !instrument.Accepts(price) then Failure(OutOfBounds)
      else Success(FormulaQuote(instrument.id, price, g, depth, now))
  }

  /** `derive`: the formula quote for a target instrument. */
  function Derive(
    instrument: Instrument, quotes: Snapshot, now: int, rates: Rates): Result<ProviderQuote, DerivedError> {
    var plan := ResolveFormula(instrument.id, quotes, now, rates);
    if plan.None? then Failure(NoFormula) else
      var ids := Inputs(plan.value);
      var g :- GatherAll(instrument.id, ids, quotes, now);
      GatheredInputs(instrument.id, ids, quotes, now);
      assert forall i | 0 <= i < |ids| :: IsReading(g, i, ids[i], quotes, now);
      Assemble(instrument, plan.value, g, quotes, now, rates)
  }

  /** `derive` with its loop over the inputs. */
  method DeriveQuote(
    instrument: Instrument, quotes: Snapshot, now: int, rates: Rates) returns (r: Result<ProviderQuote, DerivedError>)
    ensures r == Derive(instrument, quotes, now, rates)
  {
    var plan := ResolveFormula(instrument.id, quotes, now, rates);
    if plan.None? {
      return Failure(NoFormula);
    }
    var gathered := Gather(instrument.id, Inputs(plan.value), quotes, now);
    if gathered.Failure? {
      return Failure(gathered.error);
    }
    GatheredInputs(instrument.id, Inputs(plan.value), quotes, now);
    assert forall i | 0 <= i < |Inputs(plan.value)| :: IsReading(gathered.value, i, Inputs(plan.value)[i], quotes, now);
    r := Assemble(instrument, plan.value, gathered.value, quotes, now, rates);
  }

  /** Gathering inputs fails for other reasons than depth. */
  lemma {:induction false} GatheringIsNeverTooDeep(
    target: InstrumentId, ids: seq<InstrumentId>, quotes: Snapshot, now: int)
    ensures GatherAll(target, ids, quotes, now) != Failure(TooDeep)
  {
    if ids != [] {
      GatheringIsNeverTooDeep(target, ids[..|ids| - 1], quotes, now);
    }
  }

  /** Only a complete reading that is too deep is refused for its depth. */
  lemma TooDeepIsDeep(instrument: Instrument, quotes: Snapshot, now: int, rates: Rates)
    requires Derive(instrument, quotes, now, rates) == Failure(TooDeep)
    ensures ResolveFormula(instrument.id, quotes, now, rates).Some?
    ensures var g :=
            GatherAll(instrument.id, Inputs(ResolveFormula(instrument.id, quotes, now, rates).value), quotes, now);
            g.Success? && MaxDepth(g.value.depths) + 1 > MAXIMUM_DEPTH
  {
    GatheringIsNeverTooDeep(instrument.id, Inputs(ResolveFormula(instrument.id, quotes, now, rates).value), quotes,
                            now);
  }

  /** Every one of the items is among the labels. */
  ghost predicate Covers(labels: seq<Label>, items: seq<Label>) {
    forall x <- items :: x in labels
  }

  /** The i-th thing gathered is what the input with this id holds, and it could be used. */
  ghost predicate IsReading(g: Gathered, i: nat, id: InstrumentId, quotes: Snapshot, now: int) {
    && i < |g.quotes| && i < |g.depths| && i < |g.confidences|
    && id in quotes && g.quotes[i] == quotes[id] && IsOperationallyFresh(quotes[id], now)
    && DepthOf(quotes[id]) == Success(g.depths[i])
    && ConfidenceOf(quotes[id]) == Success(g.confidences[i])
    && Covers(g.provenance, ProvenanceOf(id, quotes[id]))
  }

  ghost predicate AllRead(g: Gathered, ids: seq<InstrumentId>, quotes: Snapshot, now: int) {
    && |g.quotes| == |g.depths| == |g.confidences| == |ids|
    && (forall i | 0 <= i < |ids| :: IsReading(g, i, ids[i], quotes, now))
  }

  lemma GatherOneKeepsReading(
    g: Gathered, target: InstrumentId, id: InstrumentId, quotes: Snapshot, now: int, i: nat, x: InstrumentId)
    requires |g.quotes| == |g.depths| == |g.confidences|
    requires GatherOne(g, target, id, quotes, now).Success? && IsReading(g, i, x, quotes, now)
    ensures IsReading(GatherOne(g, target, id, quotes, now).value, i, x, quotes, now)
  {
  }

  lemma GatherOneReads(
    g: Gathered, ids: seq<InstrumentId>, target: InstrumentId, id: InstrumentId, quotes: Snapshot, now: int)
    requires AllRead(g, ids, quotes, now) && GatherOne(g, target, id, quotes, now).Success?
    ensures AllRead(GatherOne(g, target, id, quotes, now).value, ids + [id], quotes, now)
  {
    var r := GatherOne(g, target, id, quotes, now).value;
    forall i | 0 <= i < |ids| + 1 ensures IsReading(r, i, (ids + [id])[i], quotes, now) {
      if i < |ids| {
        GatherOneKeepsReading(g, target, id, quotes, now, i, ids[i]);
      }
    }
  }

  /** A successful gathering has read every input, and the target is not among the labels it collected. */
  lemma {:induction false} GatheredInputs(target: InstrumentId, ids: seq<InstrumentId>, quotes: Snapshot, now: int)
    ensures var g := GatherAll(target, ids, quotes, now);
            g.Success? ==> AllRead(g.value, ids, quotes, now) && OfInstrument(target) !in g.value.provenance
  {
    if ids != [] {
      var n := |ids| - 1;
      GatheredInputs(target, ids[..n], quotes, now);
      if GatherAll(target, ids, quotes, now).Success? {
        GatherOneReads(GatherAll(target, ids[..n], quotes, now).value, ids[..n], target, ids[n], quotes, now);
        assert ids[..n] + [ids[n]] == ids;
      }
    }
  }

  /** What a derived quote takes over from one of its inputs. */
  ghost predicate IsBelow(d: ProviderQuote, id: InstrumentId, quotes: Snapshot, now: int) {
    && id in quotes && IsOperationallyFresh(quotes[id], now)
    && DepthOf(quotes[id]).Success? && DepthOf(quotes[id]).value < d.depth
    && ConfidenceOf(quotes[id]).Success? && d.confidence <= ConfidenceOf(quotes[id]).value * 0.90
    && Covers(d.provenance, ProvenanceOf(id, quotes[id]))
    && d.inputLiveUntil.Some? && d.inputLiveUntil.value <= quotes[id].validUntil
    && d.observedAt <= quotes[id].observedAt
  }

  /**
   A derived quote is strictly deeper than every input and at most three deep, trusts itself at most
   nine tenths as much as its least trusted input, names every label of every input and every input
   itself, does not name itself, is as old as its oldest input, and may be live only while all of its
   inputs are.
   */
  lemma DerivedLineage(instrument: Instrument, quotes: Snapshot, now: int, rates: Rates)
    requires Derive(instrument, quotes, now, rates).Success?
    ensures ResolveFormula(instrument.id, quotes, now, rates).Some?
    ensures var d := Derive(instrument, quotes, now, rates).value;
            var ids := Inputs(ResolveFormula(instrument.id, quotes, now, rates).value);
            && d.IsDerived() && d.price.Some? && instrument.Accepts(d.price.value)
            && 1 <= d.depth <= MAXIMUM_DEPTH
            && 0.0 <= d.confidence <= 1.0
            && OfInstrument(instrument.id) !in d.provenance
            && (forall i | 0 <= i < |ids| :: IsBelow(d, ids[i], quotes, now))
  {
    DerivedIsAssembled(instrument, quotes, now, rates);
    var f := ResolveFormula(instrument.id, quotes, now, rates).value;
    AssembledLineage(instrument, f, GatherAll(instrument.id, Inputs(f), quotes, now).value, quotes, now, rates);
  }

  /** What `derive` returns was assembled from a complete reading of the inputs of the formula. */
  lemma DerivedIsAssembled(instrument: Instrument, quotes: Snapshot, now: int, rates: Rates)
    requires Derive(instrument, quotes, now, rates).Success?
    ensures ResolveFormula(instrument.id, quotes, now, rates).Some?
    ensures var f := ResolveFormula(instrument.id, quotes, now, rates).value;
            var g := GatherAll(instrument.id, Inputs(f), quotes, now);
            && g.Success? && OfInstrument(instrument.id) !in g.value.provenance
            && AllRead(g.value, Inputs(f), quotes, now) && g.value.quotes != []
            && (forall i | 0 <= i < |Inputs(f)| :: Inputs(f)[i] in quotes)
            && Derive(instrument, quotes, now, rates) == Assemble(instrument, f, g.value, quotes, now, rates)
  {
    var f := ResolveFormula(instrument.id, quotes, now, rates).value;
    GatheredInputs(instrument.id, Inputs(f), quotes, now);
    ReadingIsInSnapshot(GatherAll(instrument.id, Inputs(f), quotes, now).value, Inputs(f), quotes, now);
  }

  lemma ReadingIsInSnapshot(g: Gathered, ids: seq<InstrumentId>, quotes: Snapshot, now: int)
    requires AllRead(g, ids, quotes, now)
    ensures forall i | 0 <= i < |ids| :: ids[i] in quotes
  {
    forall i | 0 <= i < |ids| ensures ids[i] in quotes {
      assert IsReading(g, i, ids[i], quotes, now);
    }
  }

  lemma AssembledLineage(instrument: Instrument, f: Formula, g: Gathered, quotes: Snapshot, now: int, rates: Rates)
    requires g.quotes != [] && AllRead(g, Inputs(f), quotes, now) && OfInstrument(instrument.id) !in g.provenance
    requires forall i | 0 <= i < |Inputs(f)| :: Inputs(f)[i] in quotes
    requires Assemble(instrument, f, g, quotes, now, rates).Success?
    ensures var d := Assemble(instrument, f, g, quotes, now, rates).value;
            && d.IsDerived() && d.price.Some? && instrument.Accepts(d.price.value)
            && 1 <= d.depth <= MAXIMUM_DEPTH
            && 0.0 <= d.confidence <= 1.0
            && OfInstrument(instrument.id) !in d.provenance
            && (forall i | 0 <= i < |Inputs(f)| :: IsBelow(d, Inputs(f)[i], quotes, now))
  {
    var d := Assemble(instrument, f, g, quotes, now, rates).value;
    forall i | 0 <= i < |Inputs(f)| ensures IsBelow(d, Inputs(f)[i], quotes, now) {
      assert IsReading(g, i, Inputs(f)[i], quotes, now);
      InputIsBelow(g, Inputs(f), i, d, quotes, now);
    }
    ConfidenceIsNonNegative(g, Inputs(f), quotes, now);
  }

  lemma ConfidenceIsNonNegative(g: Gathered, ids: seq<InstrumentId>, quotes: Snapshot, now: int)
    requires AllRead(g, ids, quotes, now)
    ensures 0.0 <= MinConfidence(g.confidences)
  {
    var m := MinConfidence(g.confidences);
    if m != 1.0 {
      var i :| 0 <= i < |g.confidences| && g.confidences[i] == m;
      assert IsReading(g, i, ids[i], quotes, now);
    }
  }

  lemma InputIsBelow(g: Gathered, ids: seq<InstrumentId>, i: nat, d: ProviderQuote, quotes: Snapshot, now: int)
    requires i < |ids| && IsReading(g, i, ids[i], quotes, now)
    requires d.depth == MaxDepth(g.depths) + 1
    requires d.confidence == MinConfidence(g.confidences) * 0.90
    requires Covers(d.provenance, g.provenance)
    requires g.quotes != [] && d.inputLiveUntil == Some(MinOf(ValidUntils(g.quotes)))
             && d.observedAt == MinOf(ObservedTimes(g.quotes))
    ensures IsBelow(d, ids[i], quotes, now)
  {
    assert g.depths[i] in g.depths && g.confidences[i] in g.confidences;
    assert ValidUntils(g.quotes)[i] in ValidUntils(g.quotes);
    assert ObservedTimes(g.quotes)[i] in ObservedTimes(g.quotes);
  }

  /** Some input is as deep as the deepest. */
  lemma DeepestReading(g: Gathered, ids: seq<InstrumentId>, quotes: Snapshot, now: int) returns (deepest: nat)
    requires ids != [] && AllRead(g, ids, quotes, now)
    ensures deepest < |ids| && g.depths[deepest] == MaxDepth(g.depths)
  {
    assert g.depths != [];
    deepest :| 0 <= deepest < |g.depths| && g.depths[deepest] == MaxDepth(g.depths);
  }

  /** What `derive` makes of the gathered inputs. */
  lemma DerivedShape(instrument: Instrument, quotes: Snapshot, now: int, rates: Rates)
    requires Derive(instrument, quotes, now, rates).Success?
    ensures ResolveFormula(instrument.id, quotes, now, rates).Some?
    ensures var d := Derive(instrument, quotes, now, rates).value;
            var ids := Inputs(ResolveFormula(instrument.id, quotes, now, rates).value);
            var g := GatherAll(instrument.id, ids, quotes, now);
            && g.Success? && ids != [] && g.value.quotes != []
            && d.depth == MaxDepth(g.value.depths) + 1
            && d.confidence == MinConfidence(g.value.confidences) * 0.90
            && d.inputLiveUntil == Some(MinOf(ValidUntils(g.value.quotes)))
  {
    GatheredInputs(instrument.id, Inputs(ResolveFormula(instrument.id, quotes, now, rates).value), quotes, now);
  }

  // ----- what a formula computes ----------------------------------------------------------------------

  lemma QuotientTimes(x: Price, y: Price)
    ensures x / y * y == x
  {
  }

  lemma ProxyLaw(reference: Price, rate: Price, factor: Price, usdt: Price, toman: Price)
    requires rate * usdt == toman
    ensures reference * rate * factor * usdt == reference * toman * factor
  {
    assert reference * rate * factor * usdt == reference * (rate * usdt) * factor;
  }

  /** The laws of the formulas, as products of input prices. */
  predicate ObeysLaw(f: Formula, price: Price, quotes: Snapshot, rates: Rates)
    requires forall id <- Inputs(f) :: id in quotes
  {
    match f
    case PurityOfSilver =>
      assert Silver999Toman in Inputs(f);
      price == quotes[Silver999Toman].price * rates.silver925Over999
    case UsdtCross =>
      assert UsdtToman in Inputs(f) && UsdtUsd in Inputs(f);
      price * quotes[UsdtUsd].price == quotes[UsdtToman].price
    case ThroughBridge(reference, factor, Free) =>
      assert reference in Inputs(f) && Inputs(f)[1] == UsdToman;
      price == quotes[reference].price * quotes[UsdToman].price * factor
    case ThroughBridge(reference, factor, Proxy) =>
      assert reference in Inputs(f) && Inputs(f)[1] == UsdtToman && Inputs(f)[2] == UsdtUsd;
      price * quotes[UsdtUsd].price == quotes[reference].price * quotes[UsdtToman].price * factor
  }

  /** Every formula computes what its law says. */
  lemma CalculateObeysLaw(f: Formula, quotes: Snapshot, rates: Rates)
    requires forall id <- Inputs(f) :: id in quotes
    ensures ObeysLaw(f, Calculate(f, quotes, rates), quotes, rates)
  {
    match f
    case PurityOfSilver =>
    case UsdtCross =>
      assert UsdtToman in Inputs(f) && UsdtUsd in Inputs(f);
      QuotientTimes(quotes[UsdtToman].price, quotes[UsdtUsd].price);
    case ThroughBridge(reference, factor, Free) =>
      assert reference in Inputs(f) && Inputs(f)[1] == UsdToman;
    case ThroughBridge(reference, factor, Proxy) =>
      assert reference in Inputs(f) && Inputs(f)[1] == UsdtToman && Inputs(f)[2] == UsdtUsd;
      var toman, usdt := quotes[UsdtToman].price, quotes[UsdtUsd].price;
      QuotientIsPositive(toman, usdt);
      QuotientTimes(toman, usdt);
      ProxyLaw(quotes[reference].price, toman / usdt, factor, usdt, toman);
  }

  // ----- which formula is chosen ----------------------------------------------------------------------

  /** A published quote that formulas may use. */
  predicate IsUsable(id: InstrumentId, quotes: Snapshot, now: int) {
    && id in quotes && quotes[id].isPersisted
    && (quotes[id].status == LiveQuote || quotes[id].status == Confirmed
        || quotes[id].status == FreshCache || quotes[id].status == DerivedFallback)
    && now <= quotes[id].validUntil && now <= quotes[id].expiresAt
  }

  /** The two ways from dollars to Toman: a usable dollar if there is one, else the pair of USDT prices. */
  ghost predicate IsBridged(f: Option<Formula>, reference: InstrumentId, factor: Price, quotes: Snapshot, now: int) {
    var isPair := IsUsable(UsdtToman, quotes, now) && IsUsable(UsdtUsd, quotes, now);
    f == if IsUsable(UsdToman, quotes, now) then Some(ThroughBridge(reference, factor, Free))
         else if isPair then Some(ThroughBridge(reference, factor, Proxy))
         else None
  }

  /** Which formula each target gets: the proxy exactly when the dollar is unusable and the pair is usable. */
  lemma FormulaExactlyWhen(target: InstrumentId, quotes: Snapshot, now: int, rates: Rates)
    ensures var f := ResolveFormula(target, quotes, now, rates);
            && (target == Silver925Toman ==>
                  f == if IsUsable(Silver999Toman, quotes, now) then Some(PurityOfSilver) else None)
            && (target == UsdToman ==>
                  var isPair := IsUsable(UsdtToman, quotes, now) && IsUsable(UsdtUsd, quotes, now);
                  f == if isPair then Some(UsdtCross) else None)
            && (target == Silver999Toman ==> IsBridged(f, XagUsd, rates.silver999PerOunce, quotes, now))
            && (target == BtcToman ==> IsBridged(f, BtcUsd, 1.0, quotes, now))
            && (target !in {Silver925Toman, UsdToman, Silver999Toman, BtcToman} ==> f == None)
  {
    OneIsUsable(Inputs(PurityOfSilver), Silver999Toman, quotes, now);
    TwoAreUsable(Inputs(UsdtCross), UsdtToman, UsdtUsd, quotes, now);
    OneIsUsable(BridgeInputs(Free), UsdToman, quotes, now);
    TwoAreUsable(BridgeInputs(Proxy), UsdtToman, UsdtUsd, quotes, now);
  }

  lemma OneIsUsable(ids: seq<InstrumentId>, a: InstrumentId, quotes: Snapshot, now: int)
    requires ids == [a]
    ensures AreUsable(ids, quotes, now) <==> IsUsable(a, quotes, now)
  {
    assert ids[0] == a;
  }

  lemma TwoAreUsable(ids: seq<InstrumentId>, a: InstrumentId, b: InstrumentId, quotes: Snapshot, now: int)
    requires ids == [a, b]
    ensures AreUsable(ids, quotes, now) <==> IsUsable(a, quotes, now) && IsUsable(b, quotes, now)
  {
    assert ids[0] == a && ids[1] == b;
  }

  // ----- when a formula quote is derived -----------------------------------------------------------------

  /** The lineage of an input can be read, and does not contain the target. */
  predicate IsSuitable(id: InstrumentId, target: InstrumentId, quotes: Snapshot, now: int) {
    && IsUsable(id, quotes, now) && id != target && OfInstrument(target) !in quotes[id].summary.provenance
    && (quotes[id].summary.depth.Some? ==> quotes[id].summary.depth.value >= 0)
    && (quotes[id].summary.confidence.Some? ==> 0.0 <= quotes[id].summary.confidence.value <= 1.0)
  }

  lemma GatherOneExactlyWhen(g: Gathered, target: InstrumentId, id: InstrumentId, quotes: Snapshot, now: int)
    ensures GatherOne(g, target, id, quotes, now).Success? <==> IsSuitable(id, target, quotes, now)
  {
    if id in quotes {
      assert OfInstrument(target) in ProvenanceOf(id, quotes[id])
          <==> OfInstrument(target) in quotes[id].summary.provenance + [OfInstrument(id)];
    }
  }

  /** Why an input is refused, the first reason that applies. */
  lemma RefusedInputExactlyWhen(g: Gathered, target: InstrumentId, id: InstrumentId, quotes: Snapshot, now: int)
    ensures var r, isUsable := GatherOne(g, target, id, quotes, now), IsUsable(id, quotes, now);
            && (r == Failure(InputNotFresh) <==> !isUsable)
            && (isUsable ==>
                  var summary := quotes[id].summary;
                  var isShallow := summary.depth.Some? ==> 0 <= summary.depth.value;
                  var isCyclic := id == target || OfInstrument(target) in summary.provenance;
                  var isConfident := summary.confidence.Some? ==> 0.0 <= summary.confidence.value <= 1.0;
                  && (r == Failure(InvalidDepth) <==> !isShallow)
                  && (r == Failure(Cycle) <==> isShallow && isCyclic)
                  && (r == Failure(InvalidConfidence) <==> isShallow && !isCyclic && !isConfident)
                  && (r.Success? <==> isShallow && !isCyclic && isConfident))
  {
    if id in quotes {
      assert OfInstrument(target) in ProvenanceOf(id, quotes[id])
          <==> OfInstrument(target) in quotes[id].summary.provenance + [OfInstrument(id)];
    }
  }

  ghost predicate AreSuitable(ids: seq<InstrumentId>, target: InstrumentId, quotes: Snapshot, now: int) {
    forall id <- ids :: IsSuitable(id, target, quotes, now)
  }

  lemma SuitableSplits(ids: seq<InstrumentId>, target: InstrumentId, quotes: Snapshot, now: int)
    requires ids != []
    ensures AreSuitable(ids, target, quotes, now)
            <==> AreSuitable(ids[..|ids| - 1], target, quotes, now) && IsSuitable(ids[|ids| - 1], target, quotes, now)
  {
    assert ids == ids[..|ids| - 1] + [ids[|ids| - 1]];
  }

  lemma {:induction false} GatherExactlyWhen(target: InstrumentId, ids: seq<InstrumentId>, quotes: Snapshot, now: int)
    ensures GatherAll(target, ids, quotes, now).Success? <==> AreSuitable(ids, target, quotes, now)
  {
    if ids != [] {
      var n := |ids| - 1;
      GatherExactlyWhen(target, ids[..n], quotes, now);
      SuitableSplits(ids, target, quotes, now);
      if GatherAll(target, ids[..n], quotes, now).Success? {
        GatherOneExactlyWhen(GatherAll(target, ids[..n], quotes, now).value, target, ids[n], quotes, now);
      }
    }
  }

  /** The first unsuitable input decides how the gathering fails. */
  lemma {:induction false} FirstUnsuitableDecides(
    target: InstrumentId, ids: seq<InstrumentId>, quotes: Snapshot, now: int, k: nat)
    requires k < |ids| && AreSuitable(ids[..k], target, quotes, now) && !IsSuitable(ids[k], target, quotes, now)
    ensures GatherAll(target, ids, quotes, now) == GatherOne(Gathered([], [], [], []), target, ids[k], quotes, now)
  {
    var n := |ids| - 1;
    if k == n {
      GatherExactlyWhen(target, ids[..n], quotes, now);
      var before := GatherAll(target, ids[..n], quotes, now).value;
      GatherOneExactlyWhen(before, target, ids[n], quotes, now);
    } else {
      assert ids[..n][..k] == ids[..k];
      FirstUnsuitableDecides(target, ids[..n], quotes, now, k);
      GatherOneExactlyWhen(Gathered([], [], [], []), target, ids[k], quotes, now);
    }
  }

  /** How deep an input is: what it says, or one if it is derived and does not say, or zero. */
  function DepthIn(q: CanonicalQuote): int {
    match q.summary.depth
    case Some(depth) => depth
    case None => if q.summary.derived then 1 else 0
  }

  predicate AreShallow(ids: seq<InstrumentId>, quotes: Snapshot) {
    forall id <- ids :: id in quotes && DepthIn(quotes[id]) <= 2
  }

  /** A USDT price in dollars that takes part is in its safe range. */
  predicate IsSafe(ids: seq<InstrumentId>, quotes: Snapshot, rates: Rates) {
    UsdtUsd in ids ==> UsdtUsd in quotes && rates.usdtMin <= quotes[UsdtUsd].price <= rates.usdtMax
  }

  lemma AssembledExactlyWhen(instrument: Instrument, f: Formula, g: Gathered, quotes: Snapshot, now: int, rates: Rates)
    requires g.quotes != [] && AllRead(g, Inputs(f), quotes, now)
    ensures (forall i | 0 <= i < |Inputs(f)| :: Inputs(f)[i] in quotes) && (forall id <- Inputs(f) :: id in quotes)
    ensures var d := Assemble(instrument, f, g, quotes, now, rates);
            && (d.Success?
                <==> && AreShallow(Inputs(f), quotes) && IsSafe(Inputs(f), quotes, rates)
                     && instrument.Accepts(Calculate(f, quotes, rates)))
            && (d == Failure(TooDeep) <==> !AreShallow(Inputs(f), quotes))
            && (d == Failure(UsdtOutOfRange) <==> AreShallow(Inputs(f), quotes) && !IsSafe(Inputs(f), quotes, rates))
            && (d.Success? ==>
                  && d.value.price == Some(Calculate(f, quotes, rates)) && d.value.instrumentId == instrument.id
                  && d.value.semantic == DerivedFormula && d.value.validation == Accepted
                  && d.value.persistence == Unpersisted && d.value.receivedAt == now)
            && (d.Failure? ==> d.error in {TooDeep, UsdtOutOfRange, OutOfBounds})
  {
    ReadingIsInSnapshot(g, Inputs(f), quotes, now);
    ShallowExactlyWhen(g, Inputs(f), quotes, now);
  }

  /** Without a formula, or with an unsuitable input, there is no quote. */
  lemma UnsuitableFails(instrument: Instrument, quotes: Snapshot, now: int, rates: Rates)
    ensures var f, d := ResolveFormula(instrument.id, quotes, now, rates), Derive(instrument, quotes, now, rates);
            && (f.None? <==> d == Failure(NoFormula))
            && (f.Some? && !AreSuitable(Inputs(f.value), instrument.id, quotes, now) ==> d.Failure?)
  {
    var f := ResolveFormula(instrument.id, quotes, now, rates);
    if f.Some? {
      GatherExactlyWhen(instrument.id, Inputs(f.value), quotes, now);
      GatherFailsOtherwise(instrument.id, Inputs(f.value), quotes, now);
    }
  }

  lemma {:induction false} GatherFailsOtherwise(
    target: InstrumentId, ids: seq<InstrumentId>, quotes: Snapshot, now: int)
    ensures GatherAll(target, ids, quotes, now) != Failure(NoFormula)
  {
    if ids != [] {
      GatherFailsOtherwise(target, ids[..|ids| - 1], quotes, now);
    }
  }

  /**
   With suitable inputs a formula quote is derived exactly when they are at most two deep, a USDT price
   among them is in its safe range, and the result is inside the sanity bounds; its price then obeys the
   law of the formula.
   */
  lemma DerivedExactlyWhen(instrument: Instrument, f: Formula, quotes: Snapshot, now: int, rates: Rates)
    requires ResolveFormula(instrument.id, quotes, now, rates) == Some(f)
    requires AreSuitable(Inputs(f), instrument.id, quotes, now)
    ensures forall id <- Inputs(f) :: id in quotes
    ensures var d := Derive(instrument, quotes, now, rates);
            && (d.Success?
                <==> && AreShallow(Inputs(f), quotes) && IsSafe(Inputs(f), quotes, rates)
                     && instrument.Accepts(Calculate(f, quotes, rates)))
            && (d == Failure(TooDeep) <==> !AreShallow(Inputs(f), quotes))
            && (d == Failure(UsdtOutOfRange) <==> AreShallow(Inputs(f), quotes) && !IsSafe(Inputs(f), quotes, rates))
            && (d.Failure? ==> d.error in {TooDeep, UsdtOutOfRange, OutOfBounds})
            && (d.Success? ==>
                  && d.value.price.Some? && ObeysLaw(f, d.value.price.value, quotes, rates)
                  && d.value.instrumentId == instrument.id && d.value.semantic == DerivedFormula
                  && d.value.validation == Accepted && d.value.persistence == Unpersisted)
  {
    GatherExactlyWhen(instrument.id, Inputs(f), quotes, now);
    GatheredInputs(instrument.id, Inputs(f), quotes, now);
    AssembledExactlyWhen(instrument, f, GatherAll(instrument.id, Inputs(f), quotes, now).value, quotes, now, rates);
    CalculateObeysLaw(f, quotes, rates);
  }

  lemma ShallowExactlyWhen(g: Gathered, ids: seq<InstrumentId>, quotes: Snapshot, now: int)
    requires AllRead(g, ids, quotes, now)
    ensures MaxDepth(g.depths) + 1 <= 3 <==> AreShallow(ids, quotes)
  {
    forall i | 0 <= i < |ids| ensures ids[i] in quotes && g.depths[i] == DepthIn(quotes[ids[i]]) {
      assert IsReading(g, i, ids[i], quotes, now);
    }
    if AreShallow(ids, quotes) {
      if g.depths != [] {
        var k := DeepestReading(g, ids, quotes, now);
        assert ids[k] in ids;
      }
    } else {
      var id :| id in ids && !(id in quotes && DepthIn(quotes[id]) <= 2);
      var i :| 0 <= i < |ids| && ids[i] == id;
      assert g.depths[i] in g.depths;
    }
  }
}
