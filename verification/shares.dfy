/**
 Who may call a provider (budgets.py), told by the requests that were accepted before: what share of the
 minute, the hour and the day ordinary traffic gets, and what it leaves to anomaly checks.
 */
module OrdinaryShares {
  import opened Wrappers
  import opened Budgets

  // ----- when a request is accepted -----------------------------------------------------------------

  /** One more request fits into four fifths of the budget, rounded down; the first one always does. */
  predicate FitsShare(count: nat, budget: int) {
    count == 0 || 5 * (count + 1) <= 4 * budget
  }

  /** One more ordinary request leaves the reserves of the day untouched; the first one is always let through. */
  predicate FitsDay(count: nat, b: Budget) {
    count == 0 || count + b.reservedAnomaly + b.reservedFallback < b.perDay
  }

  /** Nothing but the counters can stop this request: the provider is enabled, off hold, and its interval is over. */
  predicate IsReady(store: Store, p: Provider, t: int) {
    && 0 < p.budget.perMinute && 0 < p.budget.perHour && 0 < p.budget.perDay
    && Live(store, Cooldown(p.id), t) <= 0
    && Live(store, Interval(p.id), t) < 1
  }

  lemma FirstBlockedExactlyWhen(store: Store, limits: seq<Limit>, t: int)
    ensures FirstBlocked(store, limits, t).None?
            <==> forall i | 0 <= i < |limits| :: Live(store, limits[i].key, t) < limits[i].limit
  {
  }

  lemma FirstBlockedIs(store: Store, limits: seq<Limit>, t: int, i: nat)
    ensures FirstBlocked(store, limits, t) == Some(i)
            <==> && i < |limits| && limits[i].limit <= Live(store, limits[i].key, t)
                 && forall j | 0 <= j < i :: Live(store, limits[j].key, t) < limits[j].limit
  {
    var first := FirstBlocked(store, limits, t);
    if first.Some? && first.value < i < |limits| {
      assert limits[first.value].limit <= Live(store, limits[first.value].key, t);
    }
  }

  /** The refusals, each by its own condition; what is refused by a limit is refused by the first full one. */
  lemma RefusedExactlyWhen(store: Store, p: Provider, shared: InstrumentBudget, purpose: Purpose, t: int, i: nat)
    ensures var v, b, limits := Decide(store, p, shared, purpose, t), p.budget, Limits(p, shared, purpose, t);
            var isEnabled := 0 < b.perMinute && 0 < b.perHour && 0 < b.perDay;
            var isHeld := 0 < Live(store, Cooldown(p.id), t);
            var isReserved := purpose == Anomaly ==> 0 < b.reservedAnomaly;
            && (v == Disabled <==> !isEnabled)
            && (v == CoolingDown <==> isEnabled && isHeld)
            && (v == NoReserve <==> isEnabled && !isHeld && !isReserved)
            && (v == Blocked(i)
                <==> && isEnabled && !isHeld && isReserved
                     && i < |limits| && limits[i].limit <= Live(store, limits[i].key, t)
                     && forall j | 0 <= j < i :: Live(store, limits[j].key, t) < limits[j].limit)
  {
    FirstBlockedIs(store, Limits(p, shared, purpose, t), t, i);
  }

  /** The limits of a request, by position. */
  lemma LimitsAre(p: Provider, shared: InstrumentBudget, purpose: Purpose, t: int)
    ensures var limits, b := Limits(p, shared, purpose, t), p.budget;
            var own, common, ordinary := OfProvider(p.id), OfInstrument(p.instrument), purpose != Anomaly;
            && |limits| == (if ordinary then 6 else 7)
            && limits[0].key == Interval(p.id) && limits[0].limit == 1
            && limits[1].key == Counter(own, Minute, Bucket(Minute, t))
            && limits[2].key == Counter(own, Hour, Bucket(Hour, t))
            && limits[3].key == Counter(own, Day, Bucket(Day, t))
            && limits[4] == Limit(Counter(common, Minute, Bucket(Minute, t)), shared.perMinute, 120_000)
            && limits[5] == Limit(Counter(common, Hour, Bucket(Hour, t)), shared.perHour, 7_200_000)
            && (forall n: nat | ordinary && 0 < b.perMinute :: n < limits[1].limit <==> FitsShare(n, b.perMinute))
            && (forall n: nat | ordinary && 0 < b.perHour :: n < limits[2].limit <==> FitsShare(n, b.perHour))
            && (forall n: nat | ordinary :: n < limits[3].limit <==> FitsDay(n, b))
            && (!ordinary ==>
                  && limits[1].limit == b.perMinute && limits[2].limit == b.perHour && limits[3].limit == b.perDay
                  && limits[6].key == Counter(own, AnomalyDay, Bucket(AnomalyDay, t))
                     && limits[6].limit == b.reservedAnomaly)
  {
  }

  /** The accepted requests in the bucket of this instant. */
  function Used(s: State, scope: Scope, kind: Kind, t: int): nat {
    Count(s.log, scope, kind, Bucket(kind, t))
  }

  /** The six counters that every request is checked against, as numbers of accepted requests. */
  lemma CountersAre(s: State, p: Provider, t: int)
    requires CountersInv(s)
    ensures var own, common := OfProvider(p.id), OfInstrument(p.instrument);
            && Live(s.store, Counter(own, Minute, Bucket(Minute, t)), t) == Used(s, own, Minute, t)
            && Live(s.store, Counter(own, Hour, Bucket(Hour, t)), t) == Used(s, own, Hour, t)
            && Live(s.store, Counter(own, Day, Bucket(Day, t)), t) == Used(s, own, Day, t)
            && Live(s.store, Counter(own, AnomalyDay, Bucket(AnomalyDay, t)), t) == Used(s, own, AnomalyDay, t)
            && Live(s.store, Counter(common, Minute, Bucket(Minute, t)), t) == Used(s, common, Minute, t)
            && Live(s.store, Counter(common, Hour, Bucket(Hour, t)), t) == Used(s, common, Hour, t)
  {
    var own, common := OfProvider(p.id), OfInstrument(p.instrument);
    assert CounterInv(s, own, Minute, Bucket(Minute, t)) && CounterInv(s, own, Hour, Bucket(Hour, t));
    assert CounterInv(s, own, Day, Bucket(Day, t)) && CounterInv(s, own, AnomalyDay, Bucket(AnomalyDay, t));
    assert CounterInv(s, common, Minute, Bucket(Minute, t)) && CounterInv(s, common, Hour, Bucket(Hour, t));
    LiveIsCount(s, own, Minute, t);
    LiveIsCount(s, own, Hour, t);
    LiveIsCount(s, own, Day, t);
    LiveIsCount(s, own, AnomalyDay, t);
    LiveIsCount(s, common, Minute, t);
    LiveIsCount(s, common, Hour, t);
  }

  /** The instrument's own limits leave room for one more request. */
  predicate FitsInstrument(s: State, p: Provider, shared: InstrumentBudget, t: int) {
    var common := OfInstrument(p.instrument);
    Used(s, common, Minute, t) < shared.perMinute && Used(s, common, Hour, t) < shared.perHour
  }

  /**
   An ordinary request is accepted exactly when nothing else stops it, it fits into four fifths of the
   minute and of the hour, into what the reserves leave of the day, and into the instrument's limits.
   */
  lemma OrdinaryExactlyWhen(s: State, p: Provider, shared: InstrumentBudget, purpose: Purpose, t: int)
    requires CountersInv(s) && purpose != Anomaly
    ensures Decide(s.store, p, shared, purpose, t) == Allowed
            <==> && IsReady(s.store, p, t) && FitsInstrument(s, p, shared, t)
                 && FitsShare(Used(s, OfProvider(p.id), Minute, t), p.budget.perMinute)
                 && FitsShare(Used(s, OfProvider(p.id), Hour, t), p.budget.perHour)
                 && FitsDay(Used(s, OfProvider(p.id), Day, t), p.budget)
  {
    LimitsAre(p, shared, purpose, t);
    CountersAre(s, p, t);
    FirstBlockedExactlyWhen(s.store, Limits(p, shared, purpose, t), t);
  }

  /** An anomaly check may use the whole budgets, as long as its own reserve has room. */
  lemma CheckExactlyWhen(s: State, p: Provider, shared: InstrumentBudget, t: int)
    requires CountersInv(s)
    ensures Decide(s.store, p, shared, Anomaly, t) == Allowed
            <==> && IsReady(s.store, p, t) && FitsInstrument(s, p, shared, t)
                 && Used(s, OfProvider(p.id), Minute, t) < p.budget.perMinute
                 && Used(s, OfProvider(p.id), Hour, t) < p.budget.perHour
                 && Used(s, OfProvider(p.id), Day, t) < p.budget.perDay
                 && Used(s, OfProvider(p.id), AnomalyDay, t) < p.budget.reservedAnomaly
  {
    LimitsAre(p, shared, Anomaly, t);
    CountersAre(s, p, t);
    FirstBlockedExactlyWhen(s.store, Limits(p, shared, Anomaly, t), t);
  }

  /** In every run of requests by every provider, this is when a request is accepted. */
  lemma EveryRunAcceptsExactlyWhen(actions: seq<Action>, policy: Policy, id: string, purpose: Purpose, t: int)
    requires policy.Valid() && After(actions, policy).Some? && id in policy.providers
    ensures var s, p := After(actions, policy).value, policy.providers[id];
            var shared, own := policy.instruments[p.instrument], OfProvider(id);
            Decide(s.store, p, shared, purpose, t) == Allowed
            <==> && IsReady(s.store, p, t) && FitsInstrument(s, p, shared, t)
                 && if purpose == Anomaly then
                      && Used(s, own, Minute, t) < p.budget.perMinute && Used(s, own, Hour, t) < p.budget.perHour
                      && Used(s, own, Day, t) < p.budget.perDay
                         && Used(s, own, AnomalyDay, t) < p.budget.reservedAnomaly
                    else
                      && FitsShare(Used(s, own, Minute, t), p.budget.perMinute)
                      && FitsShare(Used(s, own, Hour, t), p.budget.perHour)
                      && FitsDay(Used(s, own, Day, t), p.budget)
  {
    var s, p := After(actions, policy).value, policy.providers[id];
    EveryRunKeepsBudgets(actions, policy);
    if purpose == Anomaly {
      CheckExactlyWhen(s, p, policy.instruments[p.instrument], t);
    } else {
      OrdinaryExactlyWhen(s, p, policy.instruments[p.instrument], purpose, t);
    }
  }

  // ----- when nothing but the counters stops a request -------------------------------------------------

  /** When the provider's last request was accepted. */
  function LastAccepted(log: seq<Accepted>, id: string): Option<int> {
    if log == [] then None
    else if log[|log| - 1].provider == id then Some(log[|log| - 1].time)
    else LastAccepted(log[..|log| - 1], id)
  }

  /** When the provider was last put on hold. */
  function LastHold(actions: seq<Action>, id: string): Option<int> {
    if actions == [] then None else
      var a := actions[|actions| - 1];
      if a.RateLimited? && a.provider == id then Some(a.time) else LastHold(actions[..|actions| - 1], id)
  }

  /**
   The interval key expires the minimum interval after the last accepted request, the hold its cooldown after
   it began.
   */
  ghost predicate KeysExpire(s: State, hold: Option<int>, policy: Policy, id: string)
    requires id in policy.providers
  {
    var interval := if Interval(id) in s.store then Some(s.store[Interval(id)]) else None;
    var cooldown := if Cooldown(id) in s.store then Some(s.store[Cooldown(id)]) else None;
    && interval == (match LastAccepted(s.log, id)
                    case None => None
                    case Some(time) => Some(Cell(1, time + 1000 * Max(1, policy.providers[id].budget.minimumInterval))))
    && cooldown == (match hold
                    case None => None
                    case Some(time) => Some(Cell(1, time + 1000 * policy.providers[id].budget.cooldown)))
  }

  lemma LastAcceptedAppend(log: seq<Accepted>, e: Accepted, id: string)
    ensures LastAccepted(log + [e], id) == if e.provider == id then Some(e.time) else LastAccepted(log, id)
  {
    assert (log + [e])[..|log|] == log;
  }

  lemma AcceptedExpires(s: State, p: Provider, shared: InstrumentBudget, purpose: Purpose, t: int)
    requires Decide(s.store, p, shared, purpose, t) == Allowed
    requires Interval(p.id) in s.store ==> s.store[Interval(p.id)].count == 1
    ensures var after := Charged(s.store, p, shared, purpose, t);
            && Interval(p.id) in after
            && after[Interval(p.id)] == Cell(1, t + 1000 * Max(1, p.budget.minimumInterval))
  {
    var limits := Limits(p, shared, purpose, t);
    LimitKeysDiffer(p, shared, purpose, t);
    FirstBlockedExactlyWhen(s.store, limits, t);
    assert limits[0] == Limit(Interval(p.id), 1, 1000 * Max(1, p.budget.minimumInterval));
    ChargeAllCounts(s.store, limits, t, 0);
  }

  lemma OthersLeave(store: Store, p: Provider, shared: InstrumentBudget, purpose: Purpose, t: int, id: string)
    ensures var after := Charged(store, p, shared, purpose, t);
            && (Cooldown(id) in after <==> Cooldown(id) in store)
            && (Cooldown(id) in store ==> after[Cooldown(id)] == store[Cooldown(id)])
            && (id != p.id ==> (Interval(id) in after <==> Interval(id) in store))
            && (id != p.id && Interval(id) in store ==> after[Interval(id)] == store[Interval(id)])
  {
    var limits := Limits(p, shared, purpose, t);
    LimitsAre(p, shared, purpose, t);
    ChargeAllLeaves(store, limits, t, Cooldown(id));
    if id != p.id {
      ChargeAllLeaves(store, limits, t, Interval(id));
    }
  }

  lemma StepExpires(s: State, a: Action, hold: Option<int>, policy: Policy, id: string)
    requires policy.Valid() && Enabled(s, a, policy) && id in policy.providers && KeysExpire(s, hold, policy, id)
    ensures var holdNow := if a.RateLimited? && a.provider == id then Some(a.time) else hold;
            KeysExpire(Step(s, a, policy), holdNow, policy, id)
  {
    if a.Request? {
      var p := policy.providers[a.provider];
      var shared := policy.instruments[p.instrument];
      OthersLeave(s.store, p, shared, a.purpose, a.time, id);
      if Decide(s.store, p, shared, a.purpose, a.time) == Allowed {
        LastAcceptedAppend(s.log, Accepted(p.id, p.instrument, a.purpose, a.time), id);
        if p.id == id {
          AcceptedExpires(s, p, shared, a.purpose, a.time);
        }
      }
    }
  }

  lemma {:induction false} EveryRunExpires(actions: seq<Action>, policy: Policy, id: string)
    requires policy.Valid() && After(actions, policy).Some? && id in policy.providers
    ensures KeysExpire(After(actions, policy).value, LastHold(actions, id), policy, id)
  {
    if actions != [] {
      var n := |actions| - 1;
      EveryRunExpires(actions[..n], policy, id);
      StepExpires(After(actions[..n], policy).value, actions[n], LastHold(actions[..n], id), policy, id);
    }
  }

  /**
   In every run, nothing but the counters stops a request of an enabled provider exactly when its minimum
   interval has passed since its last accepted request, and its cooldown since it was last put on hold.
   */
  lemma ReadyExactlyWhen(actions: seq<Action>, policy: Policy, id: string, t: int)
    requires policy.Valid() && After(actions, policy).Some? && id in policy.providers
    ensures var s, b := After(actions, policy).value, policy.providers[id].budget;
            var last, hold := LastAccepted(s.log, id), LastHold(actions, id);
            IsReady(s.store, policy.providers[id], t)
            <==> && 0 < b.perMinute && 0 < b.perHour && 0 < b.perDay
                 && (last.Some? ==> last.value + 1000 * Max(1, b.minimumInterval) <= t)
                 && (hold.Some? ==> hold.value + 1000 * b.cooldown <= t)
  {
    EveryRunExpires(actions, policy, id);
  }

  // ----- the built reserves -----------------------------------------------------------------------------

  /** A tenth of the day, rounded down, but at least one and at most twenty. */
  predicate IsDefaultReserve(share: int, day: int) {
    1 <= share <= 20 && (1 < share ==> 10 * share <= day) && (share < 20 ==> day < 10 * share + 10)
  }

  /**
   The reserves that are put aside: what is configured, or else the default; but if the two would take the
   whole day, a tenth of it each.
   */
  lemma ReservesExactlyWhen(perDay: Option<int>, anomaly: Option<int>, fallback: Option<int>, defaultPerDay: int)
    returns (share: int)
    requires 1 <= defaultPerDay
    ensures var (day, a, f) := Reserves(perDay, anomaly, fallback, defaultPerDay);
            var wantedA := if anomaly.Some? && 0 <= anomaly.value then anomaly.value else share;
            var wantedF := if fallback.Some? && 0 <= fallback.value then fallback.value else share;
            && IsDefaultReserve(share, day)
            && day == (if perDay.Some? && 1 <= perDay.value then perDay.value else defaultPerDay)
            && (if wantedA + wantedF < day then a == wantedA && f == wantedF else a == f && 10 * a <= day < 10 * a + 10)
  {
    share := Max(1, Min(20, Reserves(perDay, anomaly, fallback, defaultPerDay).0 / 10));
  }

  // ----- what ordinary requests leave to anomaly checks -------------------------------------------------

  /** The accepted anomaly checks of a provider in a bucket. */
  function Checks(log: seq<Accepted>, id: string, kind: Kind, bucket: int): nat {
    if log == [] then 0 else
      var n := |log| - 1;
      Checks(log[..n], id, kind, bucket)
      + if Matches(log[n], OfProvider(id), kind, bucket) && log[n].purpose == Anomaly then 1 else 0
  }

  /** The accepted ordinary requests of a bucket are within its share. */
  ghost predicate IsShared(log: seq<Accepted>, id: string, kind: Kind, bucket: int, budget: int) {
    var ordinary := Count(log, OfProvider(id), kind, bucket) - Checks(log, id, kind, bucket);
    ordinary <= 1 || 5 * ordinary <= 4 * budget
  }

  lemma ChecksAppend(log: seq<Accepted>, e: Accepted, id: string, kind: Kind, bucket: int)
    ensures Checks(log + [e], id, kind, bucket)
            == Checks(log, id, kind, bucket)
               + if Matches(e, OfProvider(id), kind, bucket) && e.purpose == Anomaly then 1 else 0
  {
    assert (log + [e])[..|log|] == log;
  }

  lemma {:induction false} ChecksAreCounted(log: seq<Accepted>, id: string, kind: Kind, bucket: int)
    ensures Checks(log, id, kind, bucket) <= Count(log, OfProvider(id), kind, bucket)
  {
    if log != [] {
      ChecksAreCounted(log[..|log| - 1], id, kind, bucket);
    }
  }

  function BudgetOf(b: Budget, kind: Kind): int {
    if kind == Minute then b.perMinute else b.perHour
  }

  lemma StepIsShared(s: State, a: Action, policy: Policy, id: string, kind: Kind, bucket: int)
    requires policy.Valid() && Enabled(s, a, policy) && id in policy.providers && CountersInv(s)
    requires (kind == Minute || kind == Hour)
             && IsShared(s.log, id, kind, bucket, BudgetOf(policy.providers[id].budget, kind))
    ensures IsShared(Step(s, a, policy).log, id, kind, bucket, BudgetOf(policy.providers[id].budget, kind))
  {
    if a.Request? {
      var p := policy.providers[a.provider];
      var e := Accepted(p.id, p.instrument, a.purpose, a.time);
      AppendCounts(s.log, e, OfProvider(id), kind, bucket);
      ChecksAppend(s.log, e, id, kind, bucket);
      if a.purpose != Anomaly {
        OrdinaryExactlyWhen(s, p, policy.instruments[p.instrument], a.purpose, a.time);
      }
    }
  }

  lemma {:induction false} EveryRunIsShared(actions: seq<Action>, policy: Policy, id: string, kind: Kind, bucket: int)
    requires policy.Valid() && After(actions, policy).Some? && id in policy.providers
             && (kind == Minute || kind == Hour)
    ensures IsShared(After(actions, policy).value.log, id, kind, bucket, BudgetOf(policy.providers[id].budget, kind))
  {
    if actions != [] {
      var n := |actions| - 1;
      EveryRunIsShared(actions[..n], policy, id, kind, bucket);
      EveryRunKeepsBudgets(actions[..n], policy);
      StepIsShared(After(actions[..n], policy).value, actions[n], policy, id, kind, bucket);
    }
  }

  /**
   A fifth of every minute and hour is left to anomaly checks: in every run, a full bucket of a budget of
   at least two holds at least one check, and checks make up at least a fifth of it.
   */
  lemma FifthIsLeft(actions: seq<Action>, policy: Policy, id: string, kind: Kind, bucket: int)
    requires policy.Valid() && After(actions, policy).Some? && id in policy.providers
             && (kind == Minute || kind == Hour)
    ensures var log, budget := After(actions, policy).value.log, BudgetOf(policy.providers[id].budget, kind);
            2 <= budget <= Count(log, OfProvider(id), kind, bucket) ==>
              1 <= Checks(log, id, kind, bucket) && budget <= 5 * Checks(log, id, kind, bucket)
  {
    EveryRunIsShared(actions, policy, id, kind, bucket);
  }

  /** So while ordinary traffic alone has filled a minute and an hour, neither of them refuses a check. */
  lemma OrdinaryTrafficNeverRefusesChecks(actions: seq<Action>, policy: Policy, id: string, t: int)
    requires policy.Valid() && After(actions, policy).Some? && id in policy.providers
    requires var s := After(actions, policy).value;
             Checks(s.log, id, Minute, Bucket(Minute, t)) == 0 && Checks(s.log, id, Hour, Bucket(Hour, t)) == 0
    requires 2 <= policy.providers[id].budget.perMinute && 2 <= policy.providers[id].budget.perHour
    ensures var s, p := After(actions, policy).value, policy.providers[id];
            var v := Decide(s.store, p, policy.instruments[p.instrument], Anomaly, t);
            v != Blocked(1) && v != Blocked(2)
  {
    var s, p := After(actions, policy).value, policy.providers[id];
    FifthIsLeft(actions, policy, id, Minute, Bucket(Minute, t));
    FifthIsLeft(actions, policy, id, Hour, Bucket(Hour, t));
    EveryRunKeepsBudgets(actions, policy);
    LimitsAre(p, policy.instruments[p.instrument], Anomaly, t);
    CountersAre(s, p, t);
  }
}
