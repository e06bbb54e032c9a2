/**
 Operator policy for instruments (operational.py): the release catalogue, overlaid with a database row
 and with scoped or global settings, read one at a time or in one batch.
 */
module Operational {
  import opened Wrappers
  import opened Freshness
  import opened Models

  // ----- values as the database and `json.loads` deliver them -----------------------------------

  /** A Decimal, which may be infinite or not a number. */
  datatype Amount = Finite(value: real) | PlusInfinity | MinusInfinity | NotANumber

  predicate AtMost(a: Amount, b: Amount) {
    match (a, b)
    case (NotANumber, _) => false
    case (_, NotANumber) => false
    case (MinusInfinity, _) => true
    case (_, PlusInfinity) => true
    case (Finite(x), Finite(y)) => x <= y
    case (_, _) => false
  }

  /** A scalar or container; a text comes with what `int` and `Decimal` make of it. */
  datatype Json =
    | Null
    | Boolean(b: bool)
    | Number(n: real)
    | Infinite(isPositive: bool)
    | NaN
    | Text(isEmpty: bool, asInteger: Option<int>, asDecimal: Option<Amount>)
    | Container(isEmpty: bool)

  /** `Malformed` stands for TypeError, ValueError and InvalidOperation, which the code catches. */
  datatype ReadError = UnknownInstrument | Malformed | Overflow

  function Truncated(x: real): int {
    if x >= 0.0 then x.Floor else -((-x).Floor)
  }

  /** Python's `int(...)`. */
  function AsInteger(j: Json): Result<int, ReadError> {
    match j
    case Boolean(b) => Success(if b then 1 else 0)
    case Number(n) => Success(Truncated(n))
    case Infinite(_) => Failure(Overflow)
    case Text(_, Some(n), _) => Success(n)
    case _ => Failure(Malformed)
  }

  /** Python's `Decimal(str(...))`. */
  function AsAmount(j: Json): Result<Amount, ReadError> {
    match j
    case Number(n) => Success(Finite(n))
    case Infinite(isPositive) => Success(if isPositive then PlusInfinity else MinusInfinity)
    case NaN => Success(NotANumber)
    case Text(_, _, Some(a)) => Success(a)
    case _ => Failure(Malformed)
  }

  predicate IsTruthy(j: Json) {
    match j
    case Null => false
    case Boolean(b) => b
    case Number(n) => n != 0.0
    case Infinite(_) => true
    case NaN => true
    case Text(isEmpty, _, _) => !isEmpty
    case Container(isEmpty) => !isEmpty
  }

  // ----- definitions ----------------------------------------------------------------------------

  /** The operator's part of an instrument definition. */
  datatype Definition = Definition(
    id: InstrumentId, windows: Windows, base: Amount, maximum: Amount, minimumPrice: Amount, maximumPrice: Amount,
    importance: int, enabled: bool, allowDerivedFallback: bool)
  {
    /** The checks of `InstrumentDefinition.__post_init__` on these fields. */
    predicate Valid() {
      && windows.Valid()
      && AtMost(base, maximum)
      && AtMost(minimumPrice, maximumPrice) && minimumPrice != maximumPrice
    }
  }

  type Resolved = d: Definition | d.Valid()
    witness Definition(BtcUsd, Windows(1, 1, 1), Finite(0.0), Finite(0.0), Finite(0.0), Finite(1.0), 0, true, false)

  function Built(d: Definition): Result<Resolved, ReadError> {
    if d.Valid() then Success(d) else Failure(Malformed)
  }

  /** `catalogue`: the spelling of an id, trimmed and upper-cased, names at most one instrument. */
  datatype Catalogue = Catalogue(names: map<string, InstrumentId>, definitions: map<InstrumentId, Resolved>) {
    ghost predicate Valid() {
      && (forall name <- names :: names[name] in definitions)
      && (forall id <- definitions :: definitions[id].id == id)
    }
  }

  datatype Row = Row(
    ttl: Json, stale: Json, expire: Json, base: Json, maximum: Json, minimumPrice: Json, maximumPrice: Json,
    importance: Json, enabled: Json, allowDerivedFallback: Json)

  datatype Key = CanonicalExpirySeconds | AnomalyThresholdPercent

  datatype Scope = Global | Of(id: InstrumentId)

  /** The value column: a text that is parsed as JSON (None if it does not parse), or a value as it is. */
  datatype Cell = Encoded(parsed: Option<Json>) | Plain(json: Json)

  datatype Database = Database(
    instrumentsUp: bool, settingsUp: bool, rows: map<InstrumentId, Row>, settings: map<(Key, Scope), Cell>)

  /** `_setting_value` with the default None. */
  function SettingValue(cell: Option<Cell>): Json {
    match cell
    case Some(Encoded(parsed)) => parsed.GetOr(Null)
    case Some(Plain(json)) => json
    case None => Null
  }

  /** `_instrument_from_row`. */
  function FromRow(fallback: Resolved, row: Option<Row>): Result<Resolved, ReadError> {
    if row.None? then Success(fallback) else
      var r := row.value;
      var ttl :- AsInteger(r.ttl);
      var stale :- AsInteger(r.stale);
      var expire :- AsInteger(r.expire);
      var base :- AsAmount(r.base);
      var maximum :- AsAmount(r.maximum);
      var low :- AsAmount(r.minimumPrice);
      var high :- AsAmount(r.maximumPrice);
      var importance :- AsInteger(r.importance);
      Built(Definition(fallback.id, Windows(ttl, stale, expire), base, maximum, low, high, importance,
                       IsTruthy(r.enabled), fallback.allowDerivedFallback && IsTruthy(r.allowDerivedFallback)))
  }

  function WithExpiry(d: Definition, expire: int): Definition {
    d.(windows := Windows(Min(d.windows.ttl, expire), Min(d.windows.stale, expire), expire))
  }

  function WithThreshold(d: Definition, base: Amount): Definition {
    d.(base := base, maximum := if AtMost(base, d.maximum) then d.maximum else base)
  }

  /** The `try` block of `_instrument_overrides`. */
  function Overridden(d: Resolved, expiry: Json, threshold: Json): Result<Resolved, ReadError> {
    var first: Definition :- if expiry.Null? then Success(d)
                 else (var expire :- AsInteger(expiry); Success(WithExpiry(d, expire)));
    var second: Definition :- if threshold.Null? then Success(first)
                  else (var base :- AsAmount(threshold); Success(WithThreshold(first, base)));
    Built(second)
  }

  /** `_instrument_overrides`: only an overflow escapes. */
  function Overrides(d: Resolved, expiry: Json, threshold: Json): Result<Resolved, ReadError> {
    match Overridden(d, expiry, threshold)
    case Success(r) => Success(r)
    case Failure(Overflow) => Failure(Overflow)
    case Failure(_) => Success(d)
  }

  // ----- one at a time ----------------------------------------------------------------------------

  /** `_setting_row`: the scoped row if there is one, else the global one. */
  function SettingRow(settings: map<(Key, Scope), Cell>, key: Key, id: InstrumentId): Option<Cell> {
    if (key, Of(id)) in settings then Some(settings[(key, Of(id))])
    else if (key, Global) in settings then Some(settings[(key, Global)])
    else None
  }

  /** `value`. */
  function Value(db: Database, key: Key, id: InstrumentId): Json {
    if db.settingsUp then SettingValue(SettingRow(db.settings, key, id)) else Null
  }

  function Find<K, V>(m: map<K, V>, k: K): Option<V> {
    if k in m then Some(m[k]) else None
  }

  function Resolve(fallback: Resolved, row: Option<Row>, expiry: Json, threshold: Json): Result<Resolved, ReadError> {
    match FromRow(fallback, row)
    case Success(d) => Overrides(d, expiry, threshold)
    case Failure(Overflow) => Failure(Overflow)
    case Failure(_) => Success(fallback)
  }

  /** What the single read of an instrument of the catalogue gives. */
  function Single(c: Catalogue, db: Database, id: InstrumentId): Result<Resolved, ReadError>
    requires c.Valid() && id in c.definitions
  {
    if !db.instrumentsUp then Success(c.definitions[id])
    else Resolve(c.definitions[id], Find(db.rows, id), Value(db, CanonicalExpirySeconds, id),
                 Value(db, AnomalyThresholdPercent, id))
  }

  /** `instrument`. */
  function One(c: Catalogue, db: Database, name: string): Result<Resolved, ReadError>
    requires c.Valid()
  {
    if name in c.names then Single(c, db, c.names[name]) else Failure(UnknownInstrument)
  }

  // ----- in one batch -----------------------------------------------------------------------------

  ghost predicate Known(c: Catalogue, names: seq<string>) {
    forall name <- names :: name in c.names
  }

  /** The first loop of `instruments`: look the names up, in order and without repetition. */
  method Fallbacks(c: Catalogue, names: seq<string>) returns (r: Result<seq<InstrumentId>, ReadError>)
    requires c.Valid()
    ensures r.Success? <==> Known(c, names)
    ensures r.Failure? ==> r.error == UnknownInstrument
    ensures r.Success? ==> forall name <- names :: c.names[name] in r.value
    ensures r.Success? ==> forall id <- r.value :: exists name <- names :: c.names[name] == id
    ensures r.Success? ==> forall i, j :: 0 <= i < j < |r.value| ==> r.value[i] != r.value[j]
  {
    var ids: seq<InstrumentId> := [];
    for i := 0 to |names|
      invariant Known(c, names[..i])
      invariant forall name <- names[..i] :: c.names[name] in ids
      invariant forall id <- ids :: exists name <- names[..i] :: c.names[name] == id
      invariant forall j, k :: 0 <= j < k < |ids| ==> ids[j] != ids[k]
    {
      if names[i] !in c.names { return Failure(UnknownInstrument); }
      assert names[..i + 1] == names[..i] + [names[i]];
      if c.names[names[i]] !in ids { ids := ids + [c.names[names[i]]]; }
    }
    assert names[..|names|] == names;
    r := Success(ids);
  }

  /** `_instrument_override_rows`: the settings of these scopes and the global ones. */
  function OverrideRows(settings: map<(Key, Scope), Cell>, ids: seq<InstrumentId>): map<(Key, Scope), Cell> {
    map k <- settings | k.1 == Global || k.1.id in ids :: settings[k]
  }

  /** A batch lookup under the scope of a member of the batch finds what the single lookup finds. */
  lemma BatchSettingIsSingleSetting(
    settings: map<(Key, Scope), Cell>, ids: seq<InstrumentId>, key: Key, id: InstrumentId)
    requires id in ids
    ensures SettingRow(OverrideRows(settings, ids), key, id) == SettingRow(settings, key, id)
  {
  }

  ghost predicate AreResolved(c: Catalogue, db: Database, ids: seq<InstrumentId>, r: map<InstrumentId, Resolved>)
    requires c.Valid()
  {
    && r.Keys == (set id <- ids)
    && forall id <- ids :: id in c.definitions && Single(c, db, id) == Success(r[id])
  }

  /** The second loop of `instruments`: the rows and settings of the batch are in memory. */
  method ResolveAll(
    c: Catalogue, db: Database, ids: seq<InstrumentId>) returns (r: Result<map<InstrumentId, Resolved>, ReadError>)
    requires c.Valid() && db.instrumentsUp && forall id <- ids :: id in c.definitions
    ensures r.Success? ==> AreResolved(c, db, ids, r.value)
    ensures r.Failure? ==> r.error == Overflow && exists id <- ids :: Single(c, db, id) == Failure(Overflow)
  {
    var byId := map id <- db.rows | id in ids :: db.rows[id];
    var overrides := if db.settingsUp then OverrideRows(db.settings, ids) else map[];
    var resolved: map<InstrumentId, Resolved> := map[];
    for i := 0 to |ids|
      invariant AreResolved(c, db, ids[..i], resolved)
    {
      var id := ids[i];
      var expiry := SettingValue(SettingRow(overrides, CanonicalExpirySeconds, id));
      var threshold := SettingValue(SettingRow(overrides, AnomalyThresholdPercent, id));
      BatchSettingIsSingleSetting(db.settings, ids, CanonicalExpirySeconds, id);
      BatchSettingIsSingleSetting(db.settings, ids, AnomalyThresholdPercent, id);
      var one := Resolve(c.definitions[id], Find(byId, id), expiry, threshold);
      assert one == Single(c, db, id);
      if one.Failure? { return Failure(one.error); }
      resolved := resolved[id := one.value];
      assert ids[..i + 1] == ids[..i] + [id];
    }
    assert ids[..|ids|] == ids;
    r := Success(resolved);
  }

  /**
   `instruments`: one query for the rows and one for the settings.  The batch succeeds exactly when
   every single read would, with exactly the results of the single reads; otherwise it raises for an
   unknown name before it raises for an overflow.
   */
  method Instruments(
    c: Catalogue, db: Database, names: seq<string>) returns (r: Result<map<InstrumentId, Resolved>, ReadError>)
    requires c.Valid()
    ensures r.Success? <==> forall name <- names :: One(c, db, name).Success?
    ensures r.Success? ==> r.value.Keys == (set name <- names | name in c.names :: c.names[name])
    ensures r.Success? ==>
              forall name <- names :: name in c.names && One(c, db, name) == Success(r.value[c.names[name]])
    ensures r.Failure? ==> r.error == if Known(c, names) then Overflow else UnknownInstrument
  {
    var fallbacks := Fallbacks(c, names);
    if fallbacks.Failure? { return Failure(fallbacks.error); }
    var ids := fallbacks.value;
    if db.instrumentsUp {
      r := ResolveAll(c, db, ids);
    } else {
      r := Success(map id <- ids :: c.definitions[id]);
    }
  }

  // ----- what every result keeps ------------------------------------------------------------------

  /** `int` cuts off towards zero, and `True` is one. */
  lemma IntegerMeaning(j: Json)
    ensures match j
            case Number(x) =>
              var n := AsInteger(j);
              n.Success? && if x >= 0.0 then n.value as real <= x < n.value as real + 1.0
                            else n.value as real - 1.0 < x <= n.value as real
            case Boolean(b) => AsInteger(j) == Success(if b then 1 else 0)
            case Infinite(_) => AsInteger(j) == Failure(Overflow)
            case Text(_, n, _) => AsInteger(j) == if n.Some? then Success(n.value) else Failure(Malformed)
            case _ => AsInteger(j) == Failure(Malformed)
  {
  }

  /** Amounts are ordered as one expects, infinities included; what is not a number compares with nothing. */
  lemma AmountsAreOrdered(a: Amount, b: Amount, c: Amount)
    ensures AtMost(a, b) || AtMost(b, a) <==> a != NotANumber && b != NotANumber
    ensures AtMost(a, b) && AtMost(b, a) ==> a == b
    ensures AtMost(a, b) && AtMost(b, c) ==> AtMost(a, c)
    ensures a.Finite? && b.Finite? ==> (AtMost(a, b) <==> a.value <= b.value)
    ensures a.Finite? ==> AtMost(MinusInfinity, a) && AtMost(a, PlusInfinity)
  {
  }

  /** Which settings read as an amount: every number, and text that spells one. */
  lemma AmountMeaning(j: Json, a: Amount)
    ensures AsAmount(j) == Success(a)
            <==> || (a.Finite? && j == Number(a.value)) || (a == PlusInfinity && j == Infinite(true))
                 || (a == MinusInfinity && j == Infinite(false)) || (a == NotANumber && j == NaN)
                 || (j.Text? && j.asDecimal == Some(a))
    ensures AsAmount(j).Failure? ==> AsAmount(j) == Failure(Malformed)
  {
  }

  /** A flag is off exactly when it is null, false, zero or empty. */
  lemma OffExactlyWhen(j: Json)
    ensures !IsTruthy(j)
            <==> || j == Null || j == Boolean(false) || j == Number(0.0)
                 || ((j.Text? || j.Container?) && j.isEmpty)
  {
  }

  /** The larger of two amounts that are numbers. */
  predicate IsLarger(m: Amount, a: Amount, b: Amount) {
    AtMost(a, m) && AtMost(b, m) && (m == a || m == b)
  }

  /** A definition with an expiry override: no window is longer than the expiry, and those that were not are kept. */
  predicate IsCutTo(after: Definition, before: Definition, expire: int) {
    && after.windows.expire == expire
    && after.windows.stale == (if before.windows.stale <= expire then before.windows.stale else expire)
    && after.windows.ttl == (if before.windows.ttl <= expire then before.windows.ttl else expire)
  }

  predicate IsRaisedTo(after: Definition, before: Definition, base: Amount) {
    after.base == base && IsLarger(after.maximum, base, before.maximum)
  }

  /** Nothing but windows and thresholds is overridden. */
  predicate IsSameOtherwise(after: Definition, before: Definition) {
    after == before.(windows := after.windows, base := after.base, maximum := after.maximum)
  }

  /**
   Both overrides, either of which may be absent.  They take effect exactly when both that are given can
   be read, the expiry is positive and the threshold is a number; otherwise neither does, and an infinite
   expiry raises.
   */
  lemma OverridesTakeEffectExactlyWhen(d: Resolved, expiry: Json, threshold: Json)
    ensures var r := Overrides(d, expiry, threshold);
            var hasExpiry, hasThreshold := expiry != Null, threshold != Null;
            var isExpiry := AsInteger(expiry).Success? && AsInteger(expiry).value > 0;
            var isThreshold := AsAmount(threshold).Success? && AsAmount(threshold).value != NotANumber;
            if expiry.Infinite? then r == Failure(Overflow)
            else if (hasExpiry ==> isExpiry) && (hasThreshold ==> isThreshold) then
              && r.Success? && IsSameOtherwise(r.value, d)
              && (if hasExpiry then IsCutTo(r.value, d, AsInteger(expiry).value) else r.value.windows == d.windows)
              && (if hasThreshold then IsRaisedTo(r.value, d, AsAmount(threshold).value)
                  else r.value.base == d.base && r.value.maximum == d.maximum)
            else r == Success(d)
  {
    if expiry != Null && AsInteger(expiry).Success? {
      assert WithExpiry(d, AsInteger(expiry).value).windows.Valid() <==> AsInteger(expiry).value > 0;
    }
    if threshold != Null && AsAmount(threshold).Success? {
      RaisedIsOrdered(d, AsAmount(threshold).value);
    }
  }

  lemma RaisedIsOrdered(d: Definition, base: Amount)
    requires AtMost(d.base, d.maximum)
    ensures var raised := WithThreshold(d, base);
            && (AtMost(raised.base, raised.maximum) <==> base != NotANumber)
            && (base != NotANumber ==> IsLarger(raised.maximum, base, d.maximum))
  {
  }

  /**
   A setting is the scoped one if there is one, else the global one; unreadable text counts as absent, null
   does too.
   */
  lemma ValueExactlyWhen(db: Database, key: Key, id: InstrumentId)
    ensures var hasScoped, hasGlobal := (key, Of(id)) in db.settings, (key, Global) in db.settings;
            && (!db.settingsUp ==> Value(db, key, id) == Null)
            && (db.settingsUp && hasScoped ==> Value(db, key, id) == Meaning(db.settings[(key, Of(id))]))
            && (db.settingsUp && !hasScoped && hasGlobal ==> Value(db, key, id) == Meaning(db.settings[(key, Global)]))
            && (db.settingsUp && !hasScoped && !hasGlobal ==> Value(db, key, id) == Null)
  {
  }

  /** What a stored value means: itself, or what its text parses to, or nothing. */
  function Meaning(cell: Cell): Json {
    if cell.Plain? then cell.json else if cell.parsed.None? then Null else cell.parsed.value
  }

  /**
   Whatever the rows and settings hold, a definition that comes back is ordered, belongs to the
   instrument that was asked for, and never allows a fallback the release forbids.
   */
  lemma ResolvedIsOrdered(c: Catalogue, db: Database, name: string)
    requires c.Valid() && One(c, db, name).Success?
    ensures var d := One(c, db, name).value;
            && name in c.names && d.id == c.names[name]
            && 0 < d.windows.ttl <= d.windows.stale <= d.windows.expire
            && AtMost(d.base, d.maximum)
            && (d.allowDerivedFallback ==> c.definitions[d.id].allowDerivedFallback)
  {
    var fallback := c.definitions[c.names[name]];
    if db.instrumentsUp {
      RowKeepsIdentity(fallback, Find(db.rows, fallback.id));
    }
  }

  lemma RowKeepsIdentity(fallback: Resolved, row: Option<Row>)
    ensures FromRow(fallback, row).Success? ==>
              var d := FromRow(fallback, row).value;
              d.id == fallback.id && (d.allowDerivedFallback ==> fallback.allowDerivedFallback)
  {
  }

  /**
   Where a definition comes from: the release, if the rows cannot be read or the row is malformed; else the
   row with its overrides.
   */
  lemma SourceExactlyWhen(c: Catalogue, db: Database, name: string)
    requires c.Valid()
    ensures name !in c.names ==> One(c, db, name) == Failure(UnknownInstrument)
    ensures name in c.names ==>
              var released, id := c.definitions[c.names[name]], c.names[name];
              var expiry, threshold := Value(db, CanonicalExpirySeconds, id), Value(db, AnomalyThresholdPercent, id);
              && (!db.instrumentsUp ==> One(c, db, name) == Success(released))
              && (db.instrumentsUp && id !in db.rows ==> One(c, db, name) == Overrides(released, expiry, threshold))
              && (db.instrumentsUp && id in db.rows && FromRow(released, Some(db.rows[id])) == Failure(Malformed) ==>
                    One(c, db, name) == Success(released))
              && (db.instrumentsUp && id in db.rows && FromRow(released, Some(db.rows[id])).Success? ==>
                    One(c, db, name) == Overrides(FromRow(released, Some(db.rows[id])).value, expiry, threshold))
  {
  }

  /** Two databases that differ at most in the global setting of one key. */
  ghost predicate DifferInGlobal(db: Database, other: Database, key: Key) {
    && other == db.(settings := other.settings)
    && (forall k: Key, scope: Scope | (k, scope) != (key, Global) ::
       Find(db.settings, (k, scope)) == Find(other.settings, (k, scope)))
  }

  /** A scoped setting, even a null or a malformed one, hides the global setting of the same key. */
  lemma ScopedHidesGlobal(c: Catalogue, db: Database, other: Database, key: Key, name: string)
    requires c.Valid() && name in c.names && DifferInGlobal(db, other, key)
    requires (key, Of(c.names[name])) in db.settings
    ensures One(c, db, name) == One(c, other, name)
  {
    var id := c.names[name];
    forall k: Key ensures Value(db, k, id) == Value(other, k, id) {
      assert Find(db.settings, (k, Of(id))) == Find(other.settings, (k, Of(id)));
      assert k != key ==> Find(db.settings, (k, Global)) == Find(other.settings, (k, Global));
    }
  }

  // ----- the one exception that escapes -------------------------------------------------------------

  predicate IsInteger(j: Json) {
    AsInteger(j).Success?
  }

  predicate IsAmount(j: Json) {
    AsAmount(j).Success?
  }

  /** An infinite integer column that is read before any column that cannot be read. */
  predicate RowOverflows(r: Row) {
    || r.ttl.Infinite?
    || (IsInteger(r.ttl) && r.stale.Infinite?)
    || (IsInteger(r.ttl) && IsInteger(r.stale) && r.expire.Infinite?)
    || (IsInteger(r.ttl) && IsInteger(r.stale) && IsInteger(r.expire) && IsAmount(r.base) && IsAmount(r.maximum)
        && IsAmount(r.minimumPrice) && IsAmount(r.maximumPrice) && r.importance.Infinite?)
  }

  lemma RowOverflowsExactlyWhen(fallback: Resolved, r: Row)
    ensures FromRow(fallback, Some(r)) == Failure(Overflow) <==> RowOverflows(r)
  {
  }

  lemma OverridesOverflowExactlyWhen(d: Resolved, expiry: Json, threshold: Json)
    ensures Overrides(d, expiry, threshold).Failure? <==> expiry.Infinite?
    ensures Overrides(d, expiry, threshold).Failure? ==> Overrides(d, expiry, threshold).error == Overflow
  {
  }

  /**
   The read of a known instrument raises if and only if the rows can be read and either its row holds
   an infinite integer, or the row (if there is one) is readable and the expiry setting is infinite.
   */
  lemma OverflowEscapesExactlyWhen(c: Catalogue, db: Database, name: string)
    requires c.Valid() && name in c.names
    ensures var id := c.names[name];
            One(c, db, name).Failure? <==>
              && db.instrumentsUp
              && (|| (id in db.rows && RowOverflows(db.rows[id]))
                  || (FromRow(c.definitions[id], Find(db.rows, id)).Success?
                     && Value(db, CanonicalExpirySeconds, id).Infinite?))
  {
    var id := c.names[name];
    var fallback, row := c.definitions[id], Find(db.rows, id);
    if id in db.rows {
      RowOverflowsExactlyWhen(fallback, db.rows[id]);
    }
    if FromRow(fallback, row).Success? {
      OverridesOverflowExactlyWhen(FromRow(fallback, row).value, Value(db, CanonicalExpirySeconds, id),
                                   Value(db, AnomalyThresholdPercent, id));
    }
  }

  /** One such instrument takes a whole batch down. */
  method OneOverflowFailsBatch(
    c: Catalogue, db: Database, names: seq<string>, name: string) returns (r: Result<map<InstrumentId, Resolved>,
    ReadError>)
    requires c.Valid() && Known(c, names) && name in names && db.instrumentsUp
    requires FromRow(c.definitions[c.names[name]], Find(db.rows, c.names[name])).Success?
    requires Value(db, CanonicalExpirySeconds, c.names[name]).Infinite?
    ensures r == Failure(Overflow)
  {
    OverflowEscapesExactlyWhen(c, db, name);
    r := Instruments(c, db, names);
  }

  predicate IsFinite(d: Definition) {
    d.base.Finite? && d.maximum.Finite? && d.minimumPrice.Finite? && d.maximumPrice.Finite?
  }

  /** The row that the catalogue synchronisation inserts for an instrument. */
  function SyncedRow(d: Definition): Row
    requires IsFinite(d)
  {
    Row(Number(d.windows.ttl as real), Number(d.windows.stale as real), Number(d.windows.expire as real),
        Number(d.base.value),
        Number(d.maximum.value), Number(d.minimumPrice.value), Number(d.maximumPrice.value),
          Number(d.importance as real),
        Boolean(d.enabled), Boolean(d.allowDerivedFallback))
  }

  /** An instrument whose row is the synchronised one resolves to its release definition. */
  lemma SyncedRowIsReadBack(d: Resolved)
    requires IsFinite(d)
    ensures FromRow(d, Some(SyncedRow(d))) == Success(d)
  {
  }

  /** A database in which every instrument has its row, and the global expiry setting reads Infinity. */
  function InfiniteByDefault(c: Catalogue): Database
    requires c.Valid() && forall id <- c.definitions :: IsFinite(c.definitions[id])
  {
    Database(true, true, map id <- c.definitions :: SyncedRow(c.definitions[id]),
             map[(CanonicalExpirySeconds, Global) := Encoded(Some(Infinite(true)))])
  }

  /** There no instrument can be read at all. */
  lemma InfiniteByDefaultFailsEverywhere(c: Catalogue, name: string)
    requires c.Valid() && (forall id <- c.definitions :: IsFinite(c.definitions[id])) && name in c.names
    ensures One(c, InfiniteByDefault(c), name).Failure?
  {
    SyncedRowIsReadBack(c.definitions[c.names[name]]);
    OverflowEscapesExactlyWhen(c, InfiniteByDefault(c), name);
  }
}
