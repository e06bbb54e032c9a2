/**
 Request budgets (budgets.py): counters in Redis that are checked together and charged together,
 and the reserves that `_budget` sets aside (registry.py).  Instants are in milliseconds.
 */
module Budgets {
  import opened Wrappers

  datatype Purpose = Normal | Anomaly | Fallback | Backfill

  datatype Budget = Budget(
    perMinute: int, perHour: int, perDay: int, reservedAnomaly: int, reservedFallback: int, minimumInterval: int,
    cooldown: int)
  {
    predicate Valid() { 0 <= reservedAnomaly && 0 <= reservedFallback }
  }

  datatype InstrumentBudget = InstrumentBudget(perMinute: int, perHour: int)

  datatype Provider = Provider(id: string, instrument: string, budget: Budget)

  // ----- keys and counters --------------------------------------------------------------------

  datatype Scope = OfProvider(provider: string) | OfInstrument(instrument: string)

  datatype Kind = Minute | Hour | Day | AnomalyDay

  datatype Key = Interval(provider: string) | Counter(scope: Scope, kind: Kind,
                                                      bucket: int) | Cooldown(provider: string)

  /** The length of a bucket, and how long its counter lives after its first request: twice that. */
  function Length(kind: Kind): (l: int)
    ensures l > 0
  {
    match kind
    case Minute => 60_000
    case Hour => 3_600_000
    case Day => 86_400_000
    case AnomalyDay => 86_400_000
  }

  function Bucket(kind: Kind, t: int): int {
    t / Length(kind)
  }

  datatype Cell = Cell(count: int, expiresAt: int)

  type Store = map<Key, Cell>

  /** What `GET` sees: an expired key is gone. */
  function Live(store: Store, k: Key, t: int): int {
    if k in store && t < store[k].expiresAt then store[k].count else 0
  }

  /** `INCR`, and `EXPIRE` when that created the counter. */
  function Increment(store: Store, k: Key, ttl: int, t: int): Store {
    var count := Live(store, k, t) + 1;
    store[k := Cell(count, if count == 1 || k !in store then t + ttl else store[k].expiresAt)]
  }

  datatype Limit = Limit(key: Key, limit: int, ttl: int)

  /** The first counter that has reached its limit. */
  function FirstBlocked(store: Store, limits: seq<Limit>, t: int, from: nat := 0): (r: Option<nat>)
    requires from <= |limits|
    ensures r.Some? ==> from <= r.value < |limits| && Live(store, limits[r.value].key, t) >= limits[r.value].limit
    ensures r.Some? ==> forall i | from <= i < r.value :: Live(store, limits[i].key, t) < limits[i].limit
    ensures r.None? ==> forall i | from <= i < |limits| :: Live(store, limits[i].key, t) < limits[i].limit
    decreases |limits| - from
  {
    if from == |limits| then None
    else if Live(store, limits[from].key, t) >= limits[from].limit then Some(from)
    else FirstBlocked(store, limits, t, from + 1)
  }

  function ChargeAll(store: Store, limits: seq<Limit>, t: int): Store {
    if limits == [] then store else
      var n := |limits| - 1;
      Increment(ChargeAll(store, limits[..n], t), limits[n].key, limits[n].ttl, t)
  }

  predicate KeysDiffer(limits: seq<Limit>) {
    forall i, j :: 0 <= i < j < |limits| ==> limits[i].key != limits[j].key
  }

  /** Charging touches only the keys it is given. */
  lemma {:induction false} ChargeAllLeaves(store: Store, limits: seq<Limit>, t: int, k: Key)
    requires forall i | 0 <= i < |limits| :: limits[i].key != k
    ensures k in ChargeAll(store, limits, t) <==> k in store
    ensures k in store ==> ChargeAll(store, limits, t)[k] == store[k]
  {
    if limits != [] {
      ChargeAllLeaves(store, limits[..|limits| - 1], t, k);
    }
  }

  /** Charging counts one request on each of its keys, whatever else it charges. */
  lemma {:induction false} ChargeAllCounts(store: Store, limits: seq<Limit>, t: int, i: nat)
    requires KeysDiffer(limits) && i < |limits|
    ensures limits[i].key in ChargeAll(store, limits, t)
    ensures ChargeAll(store, limits, t)[limits[i].key]
            == Increment(store, limits[i].key, limits[i].ttl, t)[limits[i].key]
  {
    var n := |limits| - 1;
    if i < n {
      ChargeAllCounts(store, limits[..n], t, i);
    } else {
      ChargeAllLeaves(store, limits[..n], t, limits[n].key);
    }
  }

  // ----- one request --------------------------------------------------------------------------

  datatype Verdict = Allowed | Blocked(index: nat) | Disabled | CoolingDown | NoReserve

  function FourFifths(x: int): int {
    Max(1, x * 4 / 5)
  }

  /** The day limit for everything but anomaly checks: what the reserves leave, at least one. */
  function OrdinaryDayLimit(b: Budget): int {
    Max(1, b.perDay - b.reservedAnomaly - b.reservedFallback)
  }

  function Limits(p: Provider, instrument: InstrumentBudget, purpose: Purpose, t: int): seq<Limit> {
    var b, ordinary := p.budget, !purpose.Anomaly?;
    var own, shared := OfProvider(p.id), OfInstrument(p.instrument);
    [ Limit(Interval(p.id), 1, 1000 * Max(1, b.minimumInterval)),
      Limit(Counter(own, Minute, Bucket(Minute, t)), if ordinary then FourFifths(b.perMinute) else b.perMinute,
            120_000),
      Limit(Counter(own, Hour, Bucket(Hour, t)), if ordinary then FourFifths(b.perHour) else b.perHour, 7_200_000),
      Limit(Counter(own, Day, Bucket(Day, t)), if ordinary then OrdinaryDayLimit(b) else b.perDay, 172_800_000),
      Limit(Counter(shared, Minute, Bucket(Minute, t)), instrument.perMinute, 120_000),
      Limit(Counter(shared, Hour, Bucket(Hour, t)), instrument.perHour, 7_200_000) ]
    + (if ordinary then []
      else [Limit(Counter(own, AnomalyDay, Bucket(AnomalyDay, t)), b.reservedAnomaly, 172_800_000)])
  }

  function Decide(store: Store, p: Provider, instrument: InstrumentBudget, purpose: Purpose, t: int): Verdict {
    var b := p.budget;
    if Min(b.perMinute, Min(b.perHour, b.perDay)) <= 0 then Disabled
    else if Live(store, Cooldown(p.id), t) > 0 then CoolingDown
    else if purpose.Anomaly? && b.reservedAnomaly <= 0 then NoReserve
    else
      var blocked := FirstBlocked(store, Limits(p, instrument, purpose, t), t);
      if blocked.Some? then Blocked(blocked.value) else Allowed
  }

  function Charged(store: Store, p: Provider, instrument: InstrumentBudget, purpose: Purpose, t: int): Store {
    if Decide(store, p, instrument, purpose, t).Allowed?
    then ChargeAll(store, Limits(p, instrument, purpose, t), t)
    else store
  }

  class RedisRequestBudget {
    var store: Store

    constructor ()
      ensures store == map[]
    {
      store := map[];
    }

    /** The Lua script: check every counter, then charge every counter. */
    method RunScript(limits: seq<Limit>, t: int) returns (blocked: Option<nat>)
      modifies this
      ensures blocked == FirstBlocked(old(store), limits, t)
      ensures store == if blocked.Some? then old(store) else ChargeAll(old(store), limits, t)
    {
      for i := 0 to |limits|
        invariant store == old(store)
        invariant FirstBlocked(store, limits, t) == FirstBlocked(store, limits, t, i)
      {
        if Live(store, limits[i].key, t) >= limits[i].limit {
          return Some(i);
        }
      }
      for i := 0 to |limits|
        invariant store == ChargeAll(old(store), limits[..i], t)
      {
        store := Increment(store, limits[i].key, limits[i].ttl, t);
        assert limits[..i + 1][..i] == limits[..i];
      }
      assert limits[..|limits|] == limits;
      blocked := None;
    }

    method Consume(p: Provider, instrument: InstrumentBudget, purpose: Purpose, t: int) returns (v: Verdict)
      modifies this
      ensures v == Decide(old(store), p, instrument, purpose, t)
      ensures store == Charged(old(store), p, instrument, purpose, t)
    {
      var b := p.budget;
      if Min(b.perMinute, Min(b.perHour, b.perDay)) <= 0 {
        return Disabled;
      }
      if Live(store, Cooldown(p.id), t) > 0 {
        return CoolingDown;
      }
      var minute, hour, day := b.perMinute, b.perHour, b.perDay;
      if purpose.Normal? || purpose.Backfill? || purpose.Fallback? {
        minute, hour := Max(1, minute * 4 / 5), Max(1, hour * 4 / 5);
        day := Max(1, day - b.reservedAnomaly - b.reservedFallback);
      }
      var own, shared := OfProvider(p.id), OfInstrument(p.instrument);
      var limits := [
        Limit(Interval(p.id), 1, 1000 * Max(1, b.minimumInterval)),
        Limit(Counter(own, Minute, Bucket(Minute, t)), minute, 120_000),
        Limit(Counter(own, Hour, Bucket(Hour, t)), hour, 7_200_000),
        Limit(Counter(own, Day, Bucket(Day, t)), day, 172_800_000),
        Limit(Counter(shared, Minute, Bucket(Minute, t)), instrument.perMinute, 120_000),
        Limit(Counter(shared, Hour, Bucket(Hour, t)), instrument.perHour, 7_200_000)];
      if purpose.Anomaly? {
        if b.reservedAnomaly <= 0 {
          return NoReserve;
        }
        limits := limits + [Limit(Counter(own, AnomalyDay, Bucket(AnomalyDay, t)), b.reservedAnomaly, 172_800_000)];
      }
      assert limits == Limits(p, instrument, purpose, t);
      var blocked := RunScript(limits, t);
      if blocked.Some? {
        return Blocked(blocked.value);
      }
      v := Allowed;
    }

    /** A 429 answer puts the provider on hold: no request of it is allowed until the cooldown is over. */
    method RecordRateLimit(p: Provider, t: int)
      modifies this
      ensures store == OnHold(old(store), p, t)
      ensures forall k: Key, later: int | k != Cooldown(p.id) :: Live(store, k, later) == Live(old(store), k, later)
      ensures forall shared: InstrumentBudget, purpose: Purpose, later: int | later < t + 1000 * p.budget.cooldown ::
                !Decide(store, p, shared, purpose, later).Allowed?
    {
      store := store[Cooldown(p.id) := Cell(1, t + 1000 * p.budget.cooldown)];
    }
  }

  function OnHold(store: Store, p: Provider, t: int): Store {
    store[Cooldown(p.id) := Cell(1, t + 1000 * p.budget.cooldown)]
  }

  lemma LimitKeysDiffer(p: Provider, instrument: InstrumentBudget, purpose: Purpose, t: int)
    ensures KeysDiffer(Limits(p, instrument, purpose, t))
  {
  }

  /** A refused request charges nothing; an accepted one charges each of its keys once and no other key. */
  lemma ConsumeIsAllOrNothing(store: Store, p: Provider, instrument: InstrumentBudget, purpose: Purpose, t: int, k: Key)
    ensures var limits, after := Limits(p, instrument, purpose, t), Charged(store, p, instrument, purpose, t);
            if Decide(store, p, instrument, purpose, t).Allowed? then
              Live(after, k, t) == Live(store, k, t) + if exists i | 0 <= i < |limits| ::
                limits[i].key == k then 1 else 0
            else after == store
  {
    var limits := Limits(p, instrument, purpose, t);
    if i: nat :| i < |limits| && limits[i].key == k {
      LimitKeysDiffer(p, instrument, purpose, t);
      ChargeAllCounts(store, limits, t, i);
      assert limits[i].ttl > 0;
    } else {
      ChargeAllLeaves(store, limits, t, k);
    }
  }

  // ----- runs ---------------------------------------------------------------------------------

  /** The fixed budgets a run is governed by. */
  datatype Policy = Policy(providers: map<string, Provider>, instruments: map<string, InstrumentBudget>) {
    predicate Valid() {
      forall id <- providers ::
        providers[id].id == id && providers[id].budget.Valid() && providers[id].instrument in instruments
    }
  }

  datatype Action = Request(provider: string, purpose: Purpose, time: int) | RateLimited(provider: string, time: int)

  datatype Accepted = Accepted(provider: string, instrument: string, purpose: Purpose, time: int)

  datatype State = State(store: Store, log: seq<Accepted>, clock: int)

  predicate Enabled(s: State, a: Action, policy: Policy) {
    a.provider in policy.providers && policy.providers[a.provider].instrument in policy.instruments && s.clock <= a.time
  }

  function Step(s: State, a: Action, policy: Policy): State
    requires Enabled(s, a, policy)
  {
    var p := policy.providers[a.provider];
    match a
    case RateLimited(_, t) => State(OnHold(s.store, p, t), s.log, t)
    case Request(_, purpose, t) =>
      var shared := policy.instruments[p.instrument];
      State(Charged(s.store, p, shared, purpose, t),
            if Decide(s.store, p, shared, purpose, t).Allowed?
            then s.log + [Accepted(p.id, p.instrument, purpose, t)]
            else s.log,
            t)
  }

  function After(actions: seq<Action>, policy: Policy): Option<State> {
    if actions == [] then Some(State(map[], [], 0)) else
      var before := After(actions[..|actions| - 1], policy);
      if before.Some? && Enabled(before.value, actions[|actions| - 1], policy)
      then Some(Step(before.value, actions[|actions| - 1], policy)) else None
  }

  // ----- what the counters mean ---------------------------------------------------------------

  predicate Matches(e: Accepted, scope: Scope, kind: Kind, bucket: int) {
    && (match scope case OfProvider(p) => e.provider == p case OfInstrument(i) => e.instrument == i)
    && (kind.AnomalyDay? ==> e.purpose.Anomaly?)
    && Bucket(kind, e.time) == bucket
  }

  function Count(log: seq<Accepted>, scope: Scope, kind: Kind, bucket: int): (n: nat)
    ensures n <= |log|
  {
    if log == [] then 0 else
      var n := |log| - 1;
      Count(log[..n], scope, kind, bucket) + if Matches(log[n], scope, kind, bucket) then 1 else 0
  }

  /** Instruments have no day counters. */
  predicate IsKept(scope: Scope, kind: Kind) {
    scope.OfInstrument? ==> kind.Minute? || kind.Hour?
  }

  /** A counter holds exactly the accepted requests of its bucket, and outlives the bucket. */
  ghost predicate CounterInv(s: State, scope: Scope, kind: Kind, bucket: int) {
    var k := Counter(scope, kind, bucket);
    if k in s.store then
      && s.store[k].count == Count(s.log, scope, kind, bucket) >= 1
      && bucket <= Bucket(kind, s.clock)
      && (bucket + 1) * Length(kind) <= s.store[k].expiresAt
    else Count(s.log, scope, kind, bucket) == 0
  }

  ghost predicate CountersInv(s: State) {
    forall scope, kind, bucket | IsKept(scope, kind) :: CounterInv(s, scope, kind, bucket)
  }

  /** While its bucket lasts, a counter is read as the number of accepted requests. */
  lemma LiveIsCount(s: State, scope: Scope, kind: Kind, t: int)
    requires CounterInv(s, scope, kind, Bucket(kind, t))
    ensures Live(s.store, Counter(scope, kind, Bucket(kind, t)), t) == Count(s.log, scope, kind, Bucket(kind, t))
  {
    BucketEnds(kind, t);
  }

  lemma BucketEnds(kind: Kind, t: int)
    ensures Bucket(kind, t) * Length(kind) <= t < (Bucket(kind, t) + 1) * Length(kind)
  {
    var l := Length(kind);
    assert t == (t / l) * l + t % l;
  }

  lemma BucketMonotone(kind: Kind, t: int, t': int)
    requires t <= t'
    ensures Bucket(kind, t) <= Bucket(kind, t')
  {
    BucketEnds(kind, t);
    BucketEnds(kind, t');
  }

  /** Where the counters stand in the list of limits. */
  function Position(scope: Scope, kind: Kind): nat {
    if scope.OfInstrument? then (if kind.Minute? then 4 else 5)
    else match kind case Minute => 1 case Hour => 2 case Day => 3 case AnomalyDay => 6
  }

  /** A request charges exactly the counters it counts for, each with a life of two buckets. */
  lemma LimitsMatch(
    p: Provider, instrument: InstrumentBudget, purpose: Purpose, t: int, scope: Scope, kind: Kind, bucket: int)
    requires IsKept(scope, kind)
    ensures var limits := Limits(p, instrument, purpose, t);
            var k := Counter(scope, kind, bucket);
            if Matches(Accepted(p.id, p.instrument, purpose, t), scope, kind, bucket) then
              && Position(scope, kind) < |limits|
              && limits[Position(scope, kind)].key == k && limits[Position(scope, kind)].ttl == 2 * Length(kind)
            else
              forall i | 0 <= i < |limits| :: limits[i].key != k
  {
  }

  lemma IncrementCounts(s: State, scope: Scope, kind: Kind, t: int)
    requires CounterInv(s, scope, kind, Bucket(kind, t)) && s.clock <= t
    ensures var k := Counter(scope, kind, Bucket(kind, t));
            var cell := Increment(s.store, k, 2 * Length(kind), t)[k];
            && cell.count == Count(s.log, scope, kind, Bucket(kind, t)) + 1
            && (Bucket(kind, t) + 1) * Length(kind) <= cell.expiresAt
  {
    LiveIsCount(s, scope, kind, t);
    BucketEnds(kind, t);
  }

  lemma AppendCounts(log: seq<Accepted>, e: Accepted, scope: Scope, kind: Kind, bucket: int)
    ensures Count(log + [e], scope, kind, bucket)
            == Count(log, scope, kind, bucket) + if Matches(e, scope, kind, bucket) then 1 else 0
  {
    assert (log + [e])[..|log|] == log;
  }

  lemma AcceptedKeepsCounter(
    s: State, p: Provider, instrument: InstrumentBudget, purpose: Purpose, t: int, scope: Scope, kind: Kind,
    bucket: int)
    requires CounterInv(s, scope, kind, bucket) && IsKept(scope, kind) && s.clock <= t
    ensures CounterInv(State(ChargeAll(s.store, Limits(p, instrument, purpose, t), t),
                             s.log + [Accepted(p.id, p.instrument, purpose, t)], t), scope, kind, bucket)
  {
    var limits, e := Limits(p, instrument, purpose, t), Accepted(p.id, p.instrument, purpose, t);
    LimitsMatch(p, instrument, purpose, t, scope, kind, bucket);
    AppendCounts(s.log, e, scope, kind, bucket);
    BucketMonotone(kind, s.clock, t);
    if Matches(e, scope, kind, bucket) {
      LimitKeysDiffer(p, instrument, purpose, t);
      ChargeAllCounts(s.store, limits, t, Position(scope, kind));
      IncrementCounts(s, scope, kind, t);
    } else {
      ChargeAllLeaves(s.store, limits, t, Counter(scope, kind, bucket));
    }
  }

  lemma StepKeepsCounter(s: State, a: Action, policy: Policy, scope: Scope, kind: Kind, bucket: int)
    requires CounterInv(s, scope, kind, bucket) && IsKept(scope, kind) && policy.Valid() && Enabled(s, a, policy)
    ensures CounterInv(Step(s, a, policy), scope, kind, bucket)
  {
    BucketMonotone(kind, s.clock, a.time);
    if a.Request? {
      var p := policy.providers[a.provider];
      AcceptedKeepsCounter(s, p, policy.instruments[p.instrument], a.purpose, a.time, scope, kind, bucket);
    }
  }

  // ----- the limits hold ----------------------------------------------------------------------

  /** The full budget a counter stands for. */
  function Ceiling(policy: Policy, scope: Scope, kind: Kind): int
    requires scope.OfProvider? ==> scope.provider in policy.providers
    requires scope.OfInstrument? ==> scope.instrument in policy.instruments
  {
    match scope
    case OfInstrument(i) => if kind.Minute? then policy.instruments[i].perMinute else policy.instruments[i].perHour
    case OfProvider(id) =>
      var b := policy.providers[id].budget;
      match kind case Minute => b.perMinute case Hour => b.perHour case Day => b.perDay case AnomalyDay =>
        b.reservedAnomaly
  }

  predicate IsGoverned(policy: Policy, scope: Scope) {
    match scope case OfProvider(p) => p in policy.providers case OfInstrument(i) => i in policy.instruments
  }

  /** No bucket ever holds more accepted requests than its budget. */
  ghost predicate WithinCeilings(s: State, policy: Policy) {
    forall scope, kind, bucket | IsKept(scope, kind) && IsGoverned(policy, scope) ::
      Count(s.log, scope, kind, bucket) <= Max(0, Ceiling(policy, scope, kind))
  }

  lemma LimitsRespectCeilings(policy: Policy, p: Provider, purpose: Purpose, t: int, scope: Scope, kind: Kind)
    requires policy.Valid() && p.id in policy.providers && policy.providers[p.id] == p
    requires IsKept(scope, kind) && IsGoverned(policy, scope)
    requires 0 < p.budget.perMinute && 0 < p.budget.perHour && 0 < p.budget.perDay
    requires Matches(Accepted(p.id, p.instrument, purpose, t), scope, kind, Bucket(kind, t))
    ensures Position(scope, kind) < |Limits(p, policy.instruments[p.instrument], purpose, t)|
    ensures Limits(p, policy.instruments[p.instrument], purpose, t)[Position(scope, kind)].limit <= Ceiling(policy,
                                                                                                            scope, kind)
  {
  }

  /** An allowed request finds every counter it counts for below its full budget. */
  lemma AllowedIsBelowCeiling(s: State, policy: Policy, p: Provider, purpose: Purpose, t: int, scope: Scope, kind: Kind)
    requires CounterInv(s, scope, kind, Bucket(kind, t)) && policy.Valid() && p.id in policy.providers
             && policy.providers[p.id] == p
    requires IsKept(scope, kind) && IsGoverned(policy, scope)
    requires Decide(s.store, p, policy.instruments[p.instrument], purpose, t).Allowed?
    requires Matches(Accepted(p.id, p.instrument, purpose, t), scope, kind, Bucket(kind, t))
    ensures Count(s.log, scope, kind, Bucket(kind, t)) < Ceiling(policy, scope, kind)
  {
    var limits := Limits(p, policy.instruments[p.instrument], purpose, t);
    LimitsMatch(p, policy.instruments[p.instrument], purpose, t, scope, kind, Bucket(kind, t));
    LimitsRespectCeilings(policy, p, purpose, t, scope, kind);
    LiveIsCount(s, scope, kind, t);
    assert Live(s.store, limits[Position(scope, kind)].key, t) < limits[Position(scope, kind)].limit;
  }

  lemma StepKeepsCeiling(s: State, a: Action, policy: Policy, scope: Scope, kind: Kind, bucket: int)
    requires CounterInv(s, scope, kind, bucket) && policy.Valid() && Enabled(s, a, policy)
    requires IsKept(scope, kind) && IsGoverned(policy, scope)
    requires Count(s.log, scope, kind, bucket) <= Max(0, Ceiling(policy, scope, kind))
    ensures Count(Step(s, a, policy).log, scope, kind, bucket) <= Max(0, Ceiling(policy, scope, kind))
  {
    if a.Request? {
      var p := policy.providers[a.provider];
      var e := Accepted(p.id, p.instrument, a.purpose, a.time);
      AppendCounts(s.log, e, scope, kind, bucket);
      if Decide(s.store, p, policy.instruments[p.instrument], a.purpose, a.time).Allowed?
        && Matches(e, scope, kind, bucket) {
        AllowedIsBelowCeiling(s, policy, p, a.purpose, a.time, scope, kind);
      }
    }
  }

  // ----- the minimum interval -----------------------------------------------------------------

  function IntervalOf(policy: Policy, id: string): int
    requires id in policy.providers
  {
    1000 * Max(1, policy.providers[id].budget.minimumInterval)
  }

  /** The interval key of a provider is held since its last accepted request. */
  ghost predicate IntervalInv(s: State, policy: Policy, id: string)
    requires id in policy.providers
  {
    if Interval(id) in s.store then
      && s.store[Interval(id)].count == 1
      && (forall i | 0 <= i < |s.log|
         && s.log[i].provider == id :: s.log[i].time + IntervalOf(policy, id) <= s.store[Interval(id)].expiresAt)
    else forall i | 0 <= i < |s.log| :: s.log[i].provider != id
  }

  /** Accepted requests of a provider are at least its minimum interval apart. */
  ghost predicate IsSpaced(s: State, policy: Policy, id: string)
    requires id in policy.providers
  {
    forall i, j :: 0 <= i < j < |s.log| && s.log[i].provider == id && s.log[j].provider == id ==>
      s.log[j].time - s.log[i].time >= IntervalOf(policy, id)
  }

  lemma StepKeepsInterval(s: State, a: Action, policy: Policy, id: string)
    requires policy.Valid() && Enabled(s, a, policy) && id in policy.providers
    requires IntervalInv(s, policy, id) && IsSpaced(s, policy, id)
    requires forall i | 0 <= i < |s.log| :: s.log[i].time <= s.clock
    ensures IntervalInv(Step(s, a, policy), policy, id) && IsSpaced(Step(s, a, policy), policy, id)
  {
    var p := policy.providers[a.provider];
    if a.Request? && Decide(s.store, p, policy.instruments[p.instrument], a.purpose, a.time).Allowed? {
      var limits := Limits(p, policy.instruments[p.instrument], a.purpose, a.time);
      assert limits[0].key == Interval(p.id);
      if a.provider == id {
        LimitKeysDiffer(p, policy.instruments[p.instrument], a.purpose, a.time);
        ChargeAllCounts(s.store, limits, a.time, 0);
        assert Live(s.store, limits[0].key, a.time) < limits[0].limit;
      } else {
        ChargeAllLeaves(s.store, limits, a.time, Interval(id));
      }
    }
  }

  // ----- every run ----------------------------------------------------------------------------

  /** Requests other than anomaly checks stay within what the reserves leave of the day. */
  ghost predicate OrdinaryInv(s: State, policy: Policy, id: string)
    requires id in policy.providers
  {
    forall bucket ::
      Count(s.log, OfProvider(id), Day, bucket) - Count(s.log, OfProvider(id), AnomalyDay, bucket)
      <= OrdinaryDayLimit(policy.providers[id].budget)
  }

  lemma OrdinaryStaysBelow(store: Store, p: Provider, instrument: InstrumentBudget, purpose: Purpose, t: int)
    requires Decide(store, p, instrument, purpose, t).Allowed? && !purpose.Anomaly?
    ensures Live(store, Counter(OfProvider(p.id), Day, Bucket(Day, t)), t) < OrdinaryDayLimit(p.budget)
  {
    var limits := Limits(p, instrument, purpose, t);
    assert Live(store, limits[3].key, t) < limits[3].limit;
  }

  lemma StepKeepsOrdinary(s: State, a: Action, policy: Policy, id: string, bucket: int)
    requires policy.Valid() && Enabled(s, a, policy) && id in policy.providers
    requires CounterInv(s, OfProvider(id), Day, bucket)
    requires Count(s.log, OfProvider(id), Day, bucket) - Count(s.log, OfProvider(id), AnomalyDay, bucket)
             <= OrdinaryDayLimit(policy.providers[id].budget)
    ensures var log := Step(s, a, policy).log;
            Count(log, OfProvider(id), Day, bucket) - Count(log, OfProvider(id), AnomalyDay, bucket)
            <= OrdinaryDayLimit(policy.providers[id].budget)
  {
    if a.Request? {
      var p := policy.providers[a.provider];
      var shared, e := policy.instruments[p.instrument], Accepted(p.id, p.instrument, a.purpose, a.time);
      AppendCounts(s.log, e, OfProvider(id), Day, bucket);
      AppendCounts(s.log, e, OfProvider(id), AnomalyDay, bucket);
      if Decide(s.store, p, shared, a.purpose, a.time).Allowed? && Matches(e, OfProvider(id), Day, bucket)
        && !a.purpose.Anomaly? {
        LiveIsCount(s, OfProvider(id), Day, a.time);
        OrdinaryStaysBelow(s.store, p, shared, a.purpose, a.time);
      }
    }
  }

  ghost predicate ProviderInv(s: State, policy: Policy, id: string)
    requires id in policy.providers
  {
    IntervalInv(s, policy, id) && IsSpaced(s, policy, id) && OrdinaryInv(s, policy, id)
  }

  ghost predicate Inv(s: State, policy: Policy) {
    && CountersInv(s)
    && WithinCeilings(s, policy)
    && (forall i | 0 <= i < |s.log| :: s.log[i].time <= s.clock)
    && (forall id <- policy.providers :: ProviderInv(s, policy, id))
  }

  lemma StepKeepsCounters(s: State, a: Action, policy: Policy)
    requires CountersInv(s) && WithinCeilings(s, policy) && policy.Valid() && Enabled(s, a, policy)
    ensures CountersInv(Step(s, a, policy)) && WithinCeilings(Step(s, a, policy), policy)
  {
    forall scope, kind, bucket | IsKept(scope, kind) ensures CounterInv(Step(s, a, policy), scope, kind, bucket) {
      assert CounterInv(s, scope, kind, bucket);
      StepKeepsCounter(s, a, policy, scope, kind, bucket);
    }
    forall scope, kind, bucket | IsKept(scope, kind) && IsGoverned(policy, scope)
      ensures Count(Step(s, a, policy).log, scope, kind, bucket) <= Max(0, Ceiling(policy, scope, kind))
    {
      assert CounterInv(s, scope, kind, bucket);
      StepKeepsCeiling(s, a, policy, scope, kind, bucket);
    }
  }

  lemma StepKeepsProvider(s: State, a: Action, policy: Policy, id: string)
    requires Inv(s, policy) && policy.Valid() && Enabled(s, a, policy) && id in policy.providers
    ensures ProviderInv(Step(s, a, policy), policy, id)
  {
    assert ProviderInv(s, policy, id);
    StepKeepsInterval(s, a, policy, id);
    forall bucket
      ensures Count(Step(s, a, policy).log, OfProvider(id), Day, bucket) - Count(Step(s, a, policy).log, OfProvider(id),
                                                                                 AnomalyDay, bucket)
              <= OrdinaryDayLimit(policy.providers[id].budget)
    {
      assert CounterInv(s, OfProvider(id), Day, bucket);
      StepKeepsOrdinary(s, a, policy, id, bucket);
    }
  }

  /**
   In every run under fixed budgets: each counter equals the number of accepted requests in its
   bucket and does not expire inside it, no bucket exceeds its budget, and the accepted requests of
   a provider are spaced by its minimum interval.
   */
  lemma {:induction false} EveryRunKeepsBudgets(actions: seq<Action>, policy: Policy)
    requires policy.Valid() && After(actions, policy).Some?
    ensures Inv(After(actions, policy).value, policy)
  {
    if actions != [] {
      var n := |actions| - 1;
      EveryRunKeepsBudgets(actions[..n], policy);
      var s, a := After(actions[..n], policy).value, actions[n];
      StepKeepsCounters(s, a, policy);
      forall id | id in policy.providers ensures ProviderInv(Step(s, a, policy), policy, id) {
        StepKeepsProvider(s, a, policy, id);
      }
    }
  }

  // ----- sliding windows ----------------------------------------------------------------------

  /** Accepted requests of a scope in the 60 seconds from `start`. */
  function InWindow(log: seq<Accepted>, scope: Scope, start: int): nat {
    if log == [] then 0 else
      var n := |log| - 1;
      InWindow(log[..n], scope, start)
      + if Matches(log[n], scope, Minute, Bucket(Minute, log[n].time))
        && start <= log[n].time < start + 60_000 then 1 else 0
  }

  lemma {:induction false} WindowTouchesTwoMinutes(log: seq<Accepted>, scope: Scope, start: int)
    ensures InWindow(log, scope, start)
            <= Count(log, scope, Minute, Bucket(Minute, start)) + Count(log, scope, Minute, Bucket(Minute, start) + 1)
  {
    if log != [] {
      WindowTouchesTwoMinutes(log[..|log| - 1], scope, start);
      BucketEnds(Minute, start);
      BucketEnds(Minute, log[|log| - 1].time);
    }
  }

  /** Any 60 seconds, aligned or not, hold at most twice the minute budget of a provider or an instrument. */
  lemma SlidingMinuteIsBounded(actions: seq<Action>, policy: Policy, scope: Scope, start: int)
    requires policy.Valid() && After(actions, policy).Some? && IsGoverned(policy, scope)
    ensures InWindow(After(actions, policy).value.log, scope, start) <= 2 * Max(0, Ceiling(policy, scope, Minute))
  {
    EveryRunKeepsBudgets(actions, policy);
    WindowTouchesTwoMinutes(After(actions, policy).value.log, scope, start);
  }

  // ----- the anomaly reserve ------------------------------------------------------------------

  /** An integer setting: the configured value if it is present and large enough, else the default. */
  function IntSetting(configured: Option<int>, default: int, minimum: int): int {
    if configured.Some? && configured.value >= minimum then configured.value else default
  }

  /** The reserves `_budget` puts aside. */
  function Reserves(
    perDay: Option<int>, anomaly: Option<int>, fallback: Option<int>, defaultPerDay: int): (int, int, int) {
    var day := IntSetting(perDay, defaultPerDay, 1);
    var a := IntSetting(anomaly, Max(1, Min(20, day / 10)), 0);
    var f := IntSetting(fallback, Max(1, Min(20, day / 10)), 0);
    if a + f >= day then (day, Max(0, day / 10), Max(0, day / 10)) else (day, a, f)
  }

  /** Whatever is configured, the reserves leave at least one ordinary request a day. */
  lemma ReservesLeaveRoom(perDay: Option<int>, anomaly: Option<int>, fallback: Option<int>, defaultPerDay: int)
    requires defaultPerDay >= 1
    ensures var (day, a, f) := Reserves(perDay, anomaly, fallback, defaultPerDay);
            1 <= day && 0 <= a && 0 <= f && a + f < day
  {
  }

  /**
   The anomaly reserve cannot be used up by other traffic: whatever was requested before, an anomaly
   check whose own reserve counter has room is not refused by the day counter, if the reserve is
   smaller than the day.
   */
  lemma ReserveIsUntouchable(actions: seq<Action>, policy: Policy, id: string, t: int)
    requires policy.Valid() && After(actions, policy).Some? && id in policy.providers
    requires policy.providers[id].budget.reservedAnomaly < policy.providers[id].budget.perDay
    ensures var s, b := After(actions, policy).value, policy.providers[id].budget;
            Live(s.store, Counter(OfProvider(id), AnomalyDay, Bucket(AnomalyDay, t)), t) < b.reservedAnomaly ==>
              Live(s.store, Counter(OfProvider(id), Day, Bucket(Day, t)), t) < b.perDay
  {
    EveryRunKeepsBudgets(actions, policy);
    var s := After(actions, policy).value;
    assert ProviderInv(s, policy, id);
    assert CounterInv(s, OfProvider(id), Day, Bucket(Day, t))
           && CounterInv(s, OfProvider(id), AnomalyDay, Bucket(AnomalyDay, t));
    LiveIsCount(s, OfProvider(id), Day, t);
    LiveIsCount(s, OfProvider(id), AnomalyDay, t);
  }

  /**
   So with the reserves `_budget` builds, whatever is configured, an anomaly check whose reserve
   counter has room is never refused by the day counter.
   */
  lemma BuiltReserveIsUntouchable(
    actions: seq<Action>, policy: Policy, id: string, t: int,
    perDay: Option<int>, anomaly: Option<int>, fallback: Option<int>, defaultPerDay: int)
    requires policy.Valid() && After(actions, policy).Some? && id in policy.providers && defaultPerDay >= 1
    requires var b := policy.providers[id].budget;
             (b.perDay, b.reservedAnomaly, b.reservedFallback) == Reserves(perDay, anomaly, fallback, defaultPerDay)
    ensures var s, b := After(actions, policy).value, policy.providers[id].budget;
            Live(s.store, Counter(OfProvider(id), AnomalyDay, Bucket(AnomalyDay, t)), t) < b.reservedAnomaly ==>
              Live(s.store, Counter(OfProvider(id), Day, Bucket(Day, t)), t) < b.perDay
  {
    ReservesLeaveRoom(perDay, anomaly, fallback, defaultPerDay);
    ReserveIsUntouchable(actions, policy, id, t);
  }

  // ----- holds --------------------------------------------------------------------------------

  /** The provider is on hold at least until this instant. */
  predicate IsHeldUntil(store: Store, id: string, until: int) {
    Cooldown(id) in store && store[Cooldown(id)].count == 1 && until <= store[Cooldown(id)].expiresAt
  }

  lemma StepKeepsHold(s: State, a: Action, policy: Policy, id: string, until: int)
    requires policy.Valid() && Enabled(s, a, policy) && id in policy.providers && IsHeldUntil(s.store, id, until)
    requires until <= a.time + 1000 * policy.providers[id].budget.cooldown
    ensures IsHeldUntil(Step(s, a, policy).store, id, until)
  {
    if a.Request? {
      var p := policy.providers[a.provider];
      ChargeAllLeaves(s.store, Limits(p, policy.instruments[p.instrument], a.purpose, a.time), a.time, Cooldown(id));
    }
  }

  lemma HoldStarts(s: State, a: Action, policy: Policy)
    requires Enabled(s, a, policy) && a.RateLimited? && policy.Valid()
    ensures IsHeldUntil(Step(s, a, policy).store, a.provider,
                        a.time + 1000 * policy.providers[a.provider].budget.cooldown)
  {
  }

  lemma StepSetsClock(s: State, a: Action, policy: Policy)
    requires Enabled(s, a, policy)
    ensures Step(s, a, policy).clock == a.time
  {
  }

  lemma {:induction false} HoldLasts(actions: seq<Action>, policy: Policy, i: nat, j: nat)
    requires policy.Valid() && After(actions, policy).Some? && i < j <= |actions| && actions[i].RateLimited?
    ensures actions[i].provider in policy.providers && After(actions[..j], policy).Some?
    ensures actions[i].time <= After(actions[..j], policy).value.clock
    ensures IsHeldUntil(After(actions[..j], policy).value.store, actions[i].provider,
                        actions[i].time + 1000 * policy.providers[actions[i].provider].budget.cooldown)
    decreases j
  {
    PrefixStep(actions, policy, j - 1);
    var s, a := After(actions[..j - 1], policy).value, actions[j - 1];
    StepSetsClock(s, a, policy);
    if j - 1 == i {
      HoldStarts(s, a, policy);
    } else {
      HoldLasts(actions, policy, i, j - 1);
      StepKeepsHold(s, a, policy, actions[i].provider,
                    actions[i].time + 1000 * policy.providers[actions[i].provider].budget.cooldown);
    }
  }

  lemma PrefixStep(actions: seq<Action>, policy: Policy, j: nat)
    requires After(actions, policy).Some? && j < |actions|
    ensures After(actions[..j], policy).Some? && Enabled(After(actions[..j], policy).value, actions[j], policy)
    ensures After(actions[..j + 1], policy) == Some(Step(After(actions[..j], policy).value, actions[j], policy))
  {
    PrefixRuns(actions, policy, j + 1);
    assert actions[..j + 1][..j] == actions[..j];
  }

  lemma {:induction false} PrefixRuns(actions: seq<Action>, policy: Policy, j: nat)
    requires After(actions, policy).Some? && j <= |actions|
    ensures After(actions[..j], policy).Some?
    decreases |actions|
  {
    if j == |actions| {
      assert actions[..j] == actions;
    } else {
      PrefixRuns(actions[..|actions| - 1], policy, j);
      assert actions[..|actions| - 1][..j] == actions[..j];
    }
  }

  lemma HeldIsRefused(s: State, a: Action, policy: Policy, until: int)
    requires policy.Valid() && Enabled(s, a, policy) && a.Request? && IsHeldUntil(s.store, a.provider, until)
             && a.time < until
    ensures Step(s, a, policy).log == s.log && Step(s, a, policy).store == s.store
  {
  }

  /** In every run, no request of a provider is accepted while a hold that a 429 answer put on it lasts. */
  lemma HoldIsRespected(actions: seq<Action>, policy: Policy, i: nat, j: nat)
    requires policy.Valid() && After(actions, policy).Some? && i < j < |actions|
    requires actions[i].RateLimited? && actions[j].Request? && actions[j].provider == actions[i].provider
    ensures actions[i].provider in policy.providers && After(actions[..j], policy).Some?
            && After(actions[..j + 1], policy).Some?
    ensures actions[j].time < actions[i].time + 1000 * policy.providers[actions[i].provider].budget.cooldown ==>
              && After(actions[..j + 1], policy).value.log == After(actions[..j], policy).value.log
              && After(actions[..j + 1], policy).value.store == After(actions[..j], policy).value.store
  {
    HoldLasts(actions, policy, i, j);
    PrefixStep(actions, policy, j);
    var until := actions[i].time + 1000 * policy.providers[actions[i].provider].budget.cooldown;
    if actions[j].time < until {
      HeldIsRefused(After(actions[..j], policy).value, actions[j], policy, until);
    }
  }
}
