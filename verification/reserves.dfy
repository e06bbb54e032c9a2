/**
 When the anomaly reserve is safe (budgets.py): over whole runs of requests, exactly when it is smaller
 than the day or the other limits leave no room to use the day up.
 */
module ReserveSafety {
  import opened Wrappers
  import opened Budgets

  // ----- how fast requests can follow each other ------------------------------------------------

  /** The minimum interval, and the tighter of the provider's and the instrument's minute and hour limits. */
  datatype Pace = Pace(interval: int, perMinute: int, perHour: int) {
    predicate IsOpen() { 1 <= interval && 1 <= perMinute && 1 <= perHour }
  }

  function PaceOf(policy: Policy, id: string): Pace
    requires policy.Valid() && id in policy.providers
  {
    var p := policy.providers[id];
    var shared := policy.instruments[p.instrument];
    Pace(IntervalOf(policy, id), Min(p.budget.perMinute, shared.perMinute), Min(p.budget.perHour, shared.perHour))
  }

  function NextBucket(kind: Kind, t: int): int {
    (Bucket(kind, t) + 1) * Length(kind)
  }

  /** A bucket that took `limit` of these requests is closed to the next one. */
  function AfterFullBucket(kind: Kind, limit: int, start: int, times: seq<int>): int {
    if 1 <= limit <= |times| then NextBucket(kind, times[|times| - limit]) else start
  }

  /** The soonest instant, not before `start`, at which one more request can follow these. */
  function Soonest(p: Pace, start: int, times: seq<int>): int {
    Max(Max(start, if times == [] then start else times[|times| - 1] + p.interval),
        Max(AfterFullBucket(Minute, p.perMinute, start, times), AfterFullBucket(Hour, p.perHour, start, times)))
  }

  /** k requests, each as soon as possible. */
  function Earliest(p: Pace, start: int, k: nat): (times: seq<int>)
    ensures |times| == k
  {
    if k == 0 then [] else
      var before := Earliest(p, start, k - 1);
      before + [Soonest(p, start, before)]
  }

  /** No request came sooner than the ones before it allow. */
  ghost predicate IsPaced(p: Pace, start: int, times: seq<int>) {
    forall k {:trigger Soonest(p, start, times[..k])} | 0 <= k < |times| :: Soonest(p, start, times[..k]) <= times[k]
  }

  ghost predicate NoSooner(a: seq<int>, b: seq<int>) {
    |a| == |b| && forall k | 0 <= k < |a| :: b[k] <= a[k]
  }

  lemma NextBucketMonotone(kind: Kind, a: int, b: int)
    requires a <= b
    ensures NextBucket(kind, a) <= NextBucket(kind, b)
  {
    BucketMonotone(kind, a, b);
  }

  lemma SoonestMonotone(p: Pace, start: int, a: seq<int>, b: seq<int>)
    requires NoSooner(a, b)
    ensures Soonest(p, start, b) <= Soonest(p, start, a)
  {
    if 1 <= p.perMinute <= |a| { NextBucketMonotone(Minute, b[|a| - p.perMinute], a[|a| - p.perMinute]); }
    if 1 <= p.perHour <= |a| { NextBucketMonotone(Hour, b[|a| - p.perHour], a[|a| - p.perHour]); }
  }

  lemma PacedBefore(p: Pace, start: int, times: seq<int>, n: nat)
    requires IsPaced(p, start, times) && n <= |times|
    ensures IsPaced(p, start, times[..n])
    ensures n < |times| ==> Soonest(p, start, times[..n]) <= times[n]
  {
    forall k | 0 <= k < n ensures Soonest(p, start, times[..n][..k]) <= times[..n][k] {
      assert times[..n][..k] == times[..k];
      assert Soonest(p, start, times[..k]) <= times[k];
    }
  }

  /** Being greedy is best: no paced requests are ahead of the earliest ones. */
  lemma {:induction false} PacedIsNoSooner(p: Pace, start: int, times: seq<int>)
    requires IsPaced(p, start, times)
    ensures NoSooner(times, Earliest(p, start, |times|))
    decreases |times|
  {
    if times != [] {
      var n := |times| - 1;
      PacedBefore(p, start, times, n);
      PacedIsNoSooner(p, start, times[..n]);
      SoonestMonotone(p, start, times[..n], Earliest(p, start, n));
      assert Earliest(p, start, n + 1) == Earliest(p, start, n) + [Soonest(p, start, Earliest(p, start, n))];
    }
  }

  // ----- every day is like the first -------------------------------------------------------------

  lemma NextBucketShifts(kind: Kind, day: int, t: int)
    requires kind.Minute? || kind.Hour?
    ensures NextBucket(kind, day * Length(Day) + t) == day * Length(Day) + NextBucket(kind, t)
  {
    if kind.Minute? {
      assert (day * 86_400_000 + t) / 60_000 == day * 1440 + t / 60_000;
    } else {
      assert (day * 86_400_000 + t) / 3_600_000 == day * 24 + t / 3_600_000;
    }
  }

  ghost predicate AreShifted(day: int, a: seq<int>, b: seq<int>) {
    |a| == |b| && forall k | 0 <= k < |a| :: a[k] == day * Length(Day) + b[k]
  }

  lemma SoonestShifts(p: Pace, day: int, a: seq<int>, b: seq<int>)
    requires AreShifted(day, a, b)
    ensures Soonest(p, day * Length(Day), a) == day * Length(Day) + Soonest(p, 0, b)
  {
    if 1 <= p.perMinute <= |a| { NextBucketShifts(Minute, day, b[|b| - p.perMinute]); }
    if 1 <= p.perHour <= |a| { NextBucketShifts(Hour, day, b[|b| - p.perHour]); }
  }

  lemma {:induction false} EarliestShifts(p: Pace, day: int, k: nat)
    ensures AreShifted(day, Earliest(p, day * Length(Day), k), Earliest(p, 0, k))
  {
    if k > 0 {
      EarliestShifts(p, day, k - 1);
      SoonestShifts(p, day, Earliest(p, day * Length(Day), k - 1), Earliest(p, 0, k - 1));
    }
  }

  // ----- the requests of a provider on one day --------------------------------------------------

  /** The instants of a provider's accepted requests on a day. */
  function DayTimes(log: seq<Accepted>, id: string, day: int): (times: seq<int>)
    ensures |times| == Count(log, OfProvider(id), Day, day)
  {
    if log == [] then [] else
      var n := |log| - 1;
      DayTimes(log[..n], id, day) + if Matches(log[n], OfProvider(id), Day, day) then [log[n].time] else []
  }

  /** A scope that counts every request of this provider. */
  ghost predicate Covers(log: seq<Accepted>, scope: Scope, id: string) {
    forall i | 0 <= i < |log| && log[i].provider == id ::
      match scope case OfProvider(p) => log[i].provider == p case OfInstrument(x) => log[i].instrument == x
  }

  lemma {:induction false} DayTimesMember(log: seq<Accepted>, id: string, day: int, k: nat) returns (i: nat)
    requires k < |DayTimes(log, id, day)|
    ensures i < |log| && log[i].provider == id && log[i].time == DayTimes(log, id, day)[k]
    ensures Bucket(Day, DayTimes(log, id, day)[k]) == day
  {
    var n := |log| - 1;
    if k < |DayTimes(log[..n], id, day)| {
      i := DayTimesMember(log[..n], id, day, k);
    } else {
      i := n;
    }
  }

  /** If the requests from the j-th on fall into one bucket, its counter counts them all. */
  lemma {:induction false} SuffixIsCounted(
    log: seq<Accepted>, id: string, day: int, scope: Scope, kind: Kind, bucket: int, j: nat)
    requires Covers(log, scope, id) && !kind.AnomalyDay? && j <= |DayTimes(log, id, day)|
    requires forall k | j <= k < |DayTimes(log, id, day)| :: Bucket(kind, DayTimes(log, id, day)[k]) == bucket
    ensures Count(log, scope, kind, bucket) >= |DayTimes(log, id, day)| - j
  {
    if log != [] {
      var n := |log| - 1;
      var times, before := DayTimes(log, id, day), DayTimes(log[..n], id, day);
      if j <= |before| {
        forall k | j <= k < |before| ensures Bucket(kind, before[k]) == bucket {
          assert before[k] == times[k];
        }
        SuffixIsCounted(log[..n], id, day, scope, kind, bucket, j);
        if |times| > |before| {
          assert Bucket(kind, times[|before|]) == bucket;
        }
      }
    }
  }

  // ----- every run is paced ----------------------------------------------------------------------

  ghost predicate NamesInstruments(log: seq<Accepted>, policy: Policy) {
    forall i | 0 <= i < |log| :: log[i].provider in policy.providers
      && log[i].instrument == policy.providers[log[i].provider].instrument
  }

  ghost predicate IsIncreasing(times: seq<int>) {
    forall k | 0 <= k < |times| - 1 :: times[k] <= times[k + 1]
  }

  lemma MatchesOwnBucket(log: seq<Accepted>, e: Accepted, scope: Scope, kind: Kind)
    requires Covers(log + [e], scope, e.provider) && !kind.AnomalyDay?
    ensures Matches(e, scope, kind, Bucket(kind, e.time)) && Covers(log, scope, e.provider)
  {
    assert (log + [e])[|log|] == e;
    assert forall i | 0 <= i < |log| :: (log + [e])[i] == log[i];
  }

  /** A request in the bucket of the j-th one of the day shares it with all requests in between. */
  lemma BucketIsShared(log: seq<Accepted>, e: Accepted, day: int, scope: Scope, kind: Kind, j: nat)
    requires Covers(log + [e], scope, e.provider) && !kind.AnomalyDay? && j < |DayTimes(log, e.provider, day)|
    requires var times := DayTimes(log, e.provider, day);
             IsIncreasing(times) && times[|times| - 1] <= e.time && Bucket(kind, e.time) <= Bucket(kind, times[j])
    ensures Count(log + [e], scope, kind, Bucket(kind, e.time)) >= |DayTimes(log, e.provider, day)| - j + 1
  {
    var times, b := DayTimes(log, e.provider, day), Bucket(kind, e.time);
    Increasing(times, j);
    forall k | j <= k < |times| ensures Bucket(kind, times[k]) == b {
      BucketMonotone(kind, times[j], times[k]);
      BucketMonotone(kind, times[k], e.time);
    }
    MatchesOwnBucket(log, e, scope, kind);
    SuffixIsCounted(log, e.provider, day, scope, kind, b, j);
    AppendCounts(log, e, scope, kind, b);
  }

  lemma LaterBucket(kind: Kind, a: int, b: int)
    requires Bucket(kind, a) < Bucket(kind, b)
    ensures NextBucket(kind, a) <= b
  {
    BucketEnds(kind, b);
    assert (Bucket(kind, a) + 1) * Length(kind) <= Bucket(kind, b) * Length(kind);
  }

  /** One more accepted request cannot share a bucket with the one that filled it. */
  lemma FullBucketIsOver(log: seq<Accepted>, e: Accepted, day: int, scope: Scope, kind: Kind, limit: int)
    requires Covers(log + [e], scope, e.provider) && !kind.AnomalyDay? && 1 <= limit <= |DayTimes(log, e.provider, day)|
    requires var times := DayTimes(log, e.provider, day);
             IsIncreasing(times) && times[|times| - 1] <= e.time
    requires Count(log + [e], scope, kind, Bucket(kind, e.time)) <= limit
    ensures AfterFullBucket(kind, limit, 0, DayTimes(log, e.provider, day)) <= e.time
  {
    var times := DayTimes(log, e.provider, day);
    if Bucket(kind, times[|times| - limit]) < Bucket(kind, e.time) {
      LaterBucket(kind, times[|times| - limit], e.time);
    } else {
      BucketIsShared(log, e, day, scope, kind, |times| - limit);
    }
  }

  lemma {:induction false} Increasing(times: seq<int>, j: nat)
    requires j < |times| && IsIncreasing(times)
    ensures forall k | j <= k < |times| :: times[j] <= times[k] <= times[|times| - 1]
    decreases |times| - j
  {
    if j < |times| - 1 {
      Increasing(times, j + 1);
    }
  }

  lemma {:induction false} RunNamesInstruments(actions: seq<Action>, policy: Policy)
    requires policy.Valid() && After(actions, policy).Some?
    ensures NamesInstruments(After(actions, policy).value.log, policy)
  {
    if actions != [] {
      RunNamesInstruments(actions[..|actions| - 1], policy);
    }
  }

  lemma PacedIsIncreasing(p: Pace, start: int, times: seq<int>)
    requires IsPaced(p, start, times) && 1 <= p.interval
    ensures IsIncreasing(times)
  {
    forall k | 0 <= k < |times| - 1 ensures times[k] <= times[k + 1] {
      assert Soonest(p, start, times[..k + 1]) <= times[k + 1];
      assert times[..k + 1][k] == times[k];
    }
  }

  /** The scope whose limit is the tighter one. */
  function Tighter(policy: Policy, id: string, kind: Kind): Scope
    requires policy.Valid() && id in policy.providers
  {
    var x := policy.providers[id].instrument;
    if Ceiling(policy, OfProvider(id), kind) <= Ceiling(policy, OfInstrument(x), kind)
    then OfProvider(id)
    else OfInstrument(x)
  }

  lemma SoonestAtMost(p: Pace, start: int, times: seq<int>, t: int)
    requires start <= t && (times != [] ==> times[|times| - 1] + p.interval <= t)
    requires AfterFullBucket(Minute, p.perMinute, start, times) <= t
             && AfterFullBucket(Hour, p.perHour, start, times) <= t
    ensures Soonest(p, start, times) <= t
  {
  }

  function LimitOf(p: Pace, kind: Kind): int {
    if kind.Minute? then p.perMinute else p.perHour
  }

  /** The last request of the day was at least the minimum interval ago. */
  lemma LastIsSpaced(s: State, e: Accepted, policy: Policy, day: int)
    requires e.provider in policy.providers && IsSpaced(s, policy, e.provider) && s.log != [] && s.log[|s.log| - 1] == e
    requires DayTimes(s.log[..|s.log| - 1], e.provider, day) != []
    ensures var times := DayTimes(s.log[..|s.log| - 1], e.provider, day);
            times[|times| - 1] + IntervalOf(policy, e.provider) <= e.time
  {
    var n := |s.log| - 1;
    var i := DayTimesMember(s.log[..n], e.provider, day, |DayTimes(s.log[..n], e.provider, day)| - 1);
    assert s.log[i] == s.log[..n][i];
    assert s.log[n].time - s.log[i].time >= IntervalOf(policy, e.provider);
  }

  lemma TighterIsOver(s: State, e: Accepted, policy: Policy, day: int, kind: Kind, start: int)
    requires policy.Valid() && e.provider in policy.providers && NamesInstruments(s.log, policy)
             && WithinCeilings(s, policy)
    requires s.log != [] && s.log[|s.log| - 1] == e && (kind.Minute? || kind.Hour?) && start <= e.time
    requires var times := DayTimes(s.log[..|s.log| - 1], e.provider, day);
             times != [] ==> IsIncreasing(times) && times[|times| - 1] <= e.time
    ensures AfterFullBucket(kind, LimitOf(PaceOf(policy, e.provider), kind), start,
                            DayTimes(s.log[..|s.log| - 1], e.provider, day)) <= e.time
  {
    var scope := Tighter(policy, e.provider, kind);
    var limit, before := Ceiling(policy, scope, kind), s.log[..|s.log| - 1];
    assert limit == LimitOf(PaceOf(policy, e.provider), kind);
    if 1 <= limit <= |DayTimes(before, e.provider, day)| {
      assert s.log == before + [e];
      assert Count(s.log, scope, kind, Bucket(kind, e.time)) <= Max(0, limit);
      FullBucketIsOver(before, e, day, scope, kind, limit);
    }
  }

  lemma AcceptedComesNoSooner(s: State, e: Accepted, policy: Policy, day: int)
    requires policy.Valid() && e.provider in policy.providers && WithinCeilings(s, policy)
             && IsSpaced(s, policy, e.provider)
    requires NamesInstruments(s.log, policy) && s.log != [] && s.log[|s.log| - 1] == e && Bucket(Day, e.time) == day
    requires IsPaced(PaceOf(policy, e.provider), day * Length(Day), DayTimes(s.log[..|s.log| - 1], e.provider, day))
    ensures Soonest(PaceOf(policy, e.provider), day * Length(Day),
                    DayTimes(s.log[..|s.log| - 1], e.provider, day)) <= e.time
  {
    var p, times, start := PaceOf(policy, e.provider), DayTimes(s.log[..|s.log| - 1], e.provider, day),
      day * Length(Day);
    BucketEnds(Day, e.time);
    if times != [] {
      PacedIsIncreasing(p, start, times);
      LastIsSpaced(s, e, policy, day);
    }
    TighterIsOver(s, e, policy, day, Minute, start);
    TighterIsOver(s, e, policy, day, Hour, start);
    SoonestAtMost(p, start, times, e.time);
  }

  lemma PacedOneMore(p: Pace, start: int, times: seq<int>, t: int)
    requires IsPaced(p, start, times) && Soonest(p, start, times) <= t
    ensures IsPaced(p, start, times + [t])
  {
    forall k | 0 <= k < |times| + 1 ensures Soonest(p, start, (times + [t])[..k]) <= (times + [t])[k] {
      assert (times + [t])[..k] == times[..k];
      assert k == |times| ==> times[..k] == times;
    }
  }

  /** A step appends at most one request to the log. */
  lemma StepAppends(s: State, a: Action, policy: Policy)
    requires policy.Valid() && Enabled(s, a, policy)
    ensures var log := Step(s, a, policy).log;
            log == s.log || (|log| == |s.log| + 1 && log[..|s.log|] == s.log
              && log[|s.log|].provider in policy.providers)
  {
  }

  lemma AcceptedIsPaced(s: State, policy: Policy, id: string, day: int)
    requires policy.Valid() && id in policy.providers && WithinCeilings(s, policy) && IsSpaced(s, policy, id)
    requires NamesInstruments(s.log, policy) && s.log != []
    requires IsPaced(PaceOf(policy, id), day * Length(Day), DayTimes(s.log[..|s.log| - 1], id, day))
    ensures IsPaced(PaceOf(policy, id), day * Length(Day), DayTimes(s.log, id, day))
  {
    var n := |s.log| - 1;
    if Matches(s.log[n], OfProvider(id), Day, day) {
      AcceptedComesNoSooner(s, s.log[n], policy, day);
      PacedOneMore(PaceOf(policy, id), day * Length(Day), DayTimes(s.log[..n], id, day), s.log[n].time);
    } else {
      assert DayTimes(s.log, id, day) == DayTimes(s.log[..n], id, day);
    }
  }

  /** In every run, the accepted requests of a provider on a day are paced by its limits and the instrument's. */
  lemma {:induction false} EveryRunIsPaced(actions: seq<Action>, policy: Policy, id: string, day: int)
    requires policy.Valid() && After(actions, policy).Some? && id in policy.providers
    ensures IsPaced(PaceOf(policy, id), day * Length(Day), DayTimes(After(actions, policy).value.log, id, day))
  {
    if actions != [] {
      var n := |actions| - 1;
      EveryRunIsPaced(actions[..n], policy, id, day);
      StepAppends(After(actions[..n], policy).value, actions[n], policy);
      EveryRunKeepsBudgets(actions, policy);
      assert ProviderInv(After(actions, policy).value, policy, id);
      RunNamesInstruments(actions, policy);
      if After(actions, policy).value.log != After(actions[..n], policy).value.log {
        AcceptedIsPaced(After(actions, policy).value, policy, id, day);
      }
    }
  }

  // ----- when the day cannot be used up ----------------------------------------------------------

  /** The day counter of an enabled provider is full while its reserve counter has room. */
  predicate IsStarved(store: Store, p: Provider, t: int) {
    && 0 < Min(p.budget.perMinute, Min(p.budget.perHour, p.budget.perDay))
    && p.budget.perDay <= Live(store, Counter(OfProvider(p.id), Day, Bucket(Day, t)), t)
    && Live(store, Counter(OfProvider(p.id), AnomalyDay, Bucket(AnomalyDay, t)), t) < p.budget.reservedAnomaly
  }

  /** The interval, minute, hour and instrument limits leave room for a whole day's budget in a day. */
  predicate DayFits(policy: Policy, id: string)
    requires policy.Valid() && id in policy.providers
  {
    var p, n := PaceOf(policy, id), policy.providers[id].budget.perDay;
    1 <= n && p.IsOpen() && Earliest(p, 0, n)[n - 1] < Length(Day)
  }

  lemma ClosedPaceAcceptsNothing(s: State, policy: Policy, id: string, day: int, kind: Kind)
    requires policy.Valid() && id in policy.providers && WithinCeilings(s, policy) && NamesInstruments(s.log, policy)
    requires (kind.Minute? || kind.Hour?) && Ceiling(policy, Tighter(policy, id, kind), kind) <= 0
    ensures DayTimes(s.log, id, day) == []
  {
    var times, scope := DayTimes(s.log, id, day), Tighter(policy, id, kind);
    if times != [] {
      var b := Bucket(kind, times[|times| - 1]);
      assert Count(s.log, scope, kind, b) <= Max(0, Ceiling(policy, scope, kind));
      SuffixIsCounted(s.log, id, day, scope, kind, b, |times| - 1);
    }
  }

  /** Where the day does not fit, no run uses it up. */
  lemma DayIsNotUsedUp(actions: seq<Action>, policy: Policy, id: string, day: int)
    requires policy.Valid() && After(actions, policy).Some? && id in policy.providers
    requires 1 <= policy.providers[id].budget.perDay && !DayFits(policy, id)
    ensures |DayTimes(After(actions, policy).value.log, id, day)| < policy.providers[id].budget.perDay
  {
    var s, p, n := After(actions, policy).value, PaceOf(policy, id), policy.providers[id].budget.perDay;
    EveryRunKeepsBudgets(actions, policy);
    RunNamesInstruments(actions, policy);
    if p.perMinute <= 0 {
      ClosedPaceAcceptsNothing(s, policy, id, day, Minute);
    } else if p.perHour <= 0 {
      ClosedPaceAcceptsNothing(s, policy, id, day, Hour);
    } else {
      EveryRunIsPaced(actions, policy, id, day);
      PaceIsTooSlow(p, s.log, id, day, n);
    }
  }

  lemma PaceIsTooSlow(p: Pace, log: seq<Accepted>, id: string, day: int, n: nat)
    requires 1 <= n && Earliest(p, 0, n)[n - 1] >= Length(Day) && IsPaced(p, day * Length(Day), DayTimes(log, id, day))
    ensures |DayTimes(log, id, day)| < n
  {
    var times := DayTimes(log, id, day);
    PacedIsNoSooner(p, day * Length(Day), times);
    EarliestShifts(p, day, |times|);
    if n <= |times| {
      EarliestIsPrefix(p, 0, n, |times|);
      var i := DayTimesMember(log, id, day, n - 1);
      BucketEnds(Day, times[n - 1]);
    }
  }

  lemma {:induction false} EarliestIsPrefix(p: Pace, start: int, n: nat, k: nat)
    requires n <= k
    ensures Earliest(p, start, n) == Earliest(p, start, k)[..n]
    decreases k
  {
    if n < k {
      EarliestIsPrefix(p, start, n, k - 1);
    }
  }

  // ----- a run that uses the day up --------------------------------------------------------------

  lemma {:induction false} EarliestGoesOn(p: Pace, start: int, k: nat, i: nat)
    requires i < k && 1 <= p.interval
    ensures Soonest(p, start, Earliest(p, start, i)) == Earliest(p, start, k)[i]
    ensures start <= Earliest(p, start, k)[i] <= Earliest(p, start, k)[k - 1]
    decreases k
  {
    if i < k - 1 {
      EarliestGoesOn(p, start, k - 1, i);
    }
  }

  /** One ordinary request, then anomaly checks, each as soon as possible. */
  function Greedy(p: Pace, id: string, k: nat): (actions: seq<Action>)
    ensures |actions| == k
  {
    if k == 0 then [] else
      Greedy(p, id, k - 1) + [Request(id, if k == 1 then Normal else Anomaly, Earliest(p, 0, k)[k - 1])]
  }

  /** The log of such a run, and what it has left of the interval key. */
  ghost predicate IsGreedyState(s: State, policy: Policy, id: string, k: nat)
    requires policy.Valid() && id in policy.providers
  {
    var times := Earliest(PaceOf(policy, id), 0, k);
    && |s.log| == k
    && (forall i | 0 <= i < k ::
          s.log[i] == Accepted(id, policy.providers[id].instrument, if i == 0 then Normal else Anomaly, times[i]))
    && s.clock == (if k == 0 then 0 else times[k - 1])
    && Cooldown(id) !in s.store
    && (Interval(id) in s.store ==> k > 0 && s.store[Interval(id)].expiresAt <= times[k - 1] + IntervalOf(policy, id))
  }

  /** A counter holds at most what came after the j-th request, if the first j lie in other buckets. */
  lemma {:induction false} FewInBucket(log: seq<Accepted>, scope: Scope, kind: Kind, bucket: int, j: nat)
    requires j <= |log| && forall i | 0 <= i < j :: Bucket(kind, log[i].time) != bucket
    ensures Count(log, scope, kind, bucket) <= |log| - j
  {
    if log != [] && j < |log| {
      FewInBucket(log[..|log| - 1], scope, kind, bucket, j);
    } else if log != [] {
      FewInBucket(log[..|log| - 1], scope, kind, bucket, j - 1);
    }
  }

  /** After k greedy requests, the soonest instant that a pace allows is in a bucket with room. */
  lemma BucketHasRoomFor(s: State, policy: Policy, id: string, k: nat, pace: Pace, scope: Scope, kind: Kind)
    requires policy.Valid() && id in policy.providers && IsGreedyState(s, policy, id, k) && (kind.Minute? || kind.Hour?)
    requires pace.IsOpen() && PaceOf(policy, id).IsOpen()
    ensures Count(s.log, scope, kind,
                  Bucket(kind, Soonest(pace, 0, Earliest(PaceOf(policy, id), 0, k)))) < LimitOf(pace, kind)
  {
    var p, limit := PaceOf(policy, id), LimitOf(pace, kind);
    var t := Soonest(pace, 0, Earliest(p, 0, k));
    if k < limit {
      FewInBucket(s.log, scope, kind, Bucket(kind, t), 0);
    } else {
      forall i | 0 <= i < k - limit + 1 ensures Bucket(kind, s.log[i].time) != Bucket(kind, t) {
        GreedyLeavesBucket(p, pace, k, kind, i);
      }
      FewInBucket(s.log, scope, kind, Bucket(kind, t), k - limit + 1);
    }
  }

  /** The next greedy request finds room in its bucket. */
  lemma BucketHasRoom(s: State, policy: Policy, id: string, k: nat, scope: Scope, kind: Kind)
    requires policy.Valid() && id in policy.providers && IsGreedyState(s, policy, id, k) && (kind.Minute? || kind.Hour?)
    requires PaceOf(policy, id).IsOpen()
    ensures Count(s.log, scope, kind,
                  Bucket(kind, Earliest(PaceOf(policy, id), 0, k + 1)[k])) < LimitOf(PaceOf(policy, id), kind)
  {
    BucketHasRoomFor(s, policy, id, k, PaceOf(policy, id), scope, kind);
    LastIsSoonest(PaceOf(policy, id), k);
  }

  lemma PastBucket(kind: Kind, a: int, t: int)
    requires NextBucket(kind, a) <= t
    ensures Bucket(kind, a) < Bucket(kind, t)
  {
    BucketMonotone(kind, NextBucket(kind, a), t);
  }

  lemma EarliestInOrder(p: Pace, k: nat, i: nat, j: nat)
    requires 1 <= p.interval && i <= j < k
    ensures Earliest(p, 0, k)[i] <= Earliest(p, 0, k)[j]
  {
    EarliestGoesOn(p, 0, j + 1, i);
    EarliestIsPrefix(p, 0, j + 1, k);
  }

  lemma LastIsSoonest(p: Pace, k: nat)
    ensures Earliest(p, 0, k + 1)[k] == Soonest(p, 0, Earliest(p, 0, k))
  {
  }

  lemma GreedyLeavesBucket(p: Pace, pace: Pace, k: nat, kind: Kind, i: nat)
    requires p.IsOpen() && pace.IsOpen() && (kind.Minute? || kind.Hour?) && i + LimitOf(pace, kind) <= k
    ensures Bucket(kind, Earliest(p, 0, k)[i]) < Bucket(kind, Soonest(pace, 0, Earliest(p, 0, k)))
  {
    var j := k - LimitOf(pace, kind);
    EarliestInOrder(p, k, i, j);
    BucketMonotone(kind, Earliest(p, 0, k)[i], Earliest(p, 0, k)[j]);
    SoonestIsPastBucket(pace, Earliest(p, 0, k), kind);
  }

  lemma SoonestIsPastBucket(p: Pace, times: seq<int>, kind: Kind)
    requires p.IsOpen() && (kind.Minute? || kind.Hour?) && LimitOf(p, kind) <= |times|
    ensures Bucket(kind, times[|times| - LimitOf(p, kind)]) < Bucket(kind, Soonest(p, 0, times))
  {
    PastBucket(kind, times[|times| - LimitOf(p, kind)], Soonest(p, 0, times));
  }

  ghost predicate IsFree(s: State, l: Limit, t: int) {
    Live(s.store, l.key, t) < l.limit
  }

  lemma FreeMeansAllowed(s: State, p: Provider, shared: InstrumentBudget, purpose: Purpose, t: int)
    requires 0 < Min(p.budget.perMinute, Min(p.budget.perHour, p.budget.perDay)) && Cooldown(p.id) !in s.store
    requires purpose.Anomaly? ==> 0 < p.budget.reservedAnomaly
    requires forall i | 0 <= i < |Limits(p, shared, purpose, t)| :: IsFree(s, Limits(p, shared, purpose, t)[i], t)
    ensures Decide(s.store, p, shared, purpose, t).Allowed?
  {
    var limits := Limits(p, shared, purpose, t);
    var blocked := FirstBlocked(s.store, limits, t);
    assert blocked.Some? ==> !IsFree(s, limits[blocked.value], t);
  }

  /** The budgets of the provider are such that a whole day's requests can start with one ordinary one. */
  predicate CanFill(policy: Policy, id: string)
    requires policy.Valid() && id in policy.providers
  {
    var b := policy.providers[id].budget;
    PaceOf(policy, id).IsOpen() && 1 <= b.perDay <= b.reservedAnomaly
  }

  lemma MinuteIsFree(s: State, policy: Policy, id: string, k: nat, scope: Scope, kind: Kind, t: int)
    requires policy.Valid() && id in policy.providers && CanFill(policy, id) && IsGreedyState(s, policy, id, k)
    requires (kind.Minute? || kind.Hour?) && CounterInv(s, scope, kind, Bucket(kind, t))
             && t == Earliest(PaceOf(policy, id), 0, k + 1)[k]
    ensures Live(s.store, Counter(scope, kind, Bucket(kind, t)), t) < LimitOf(PaceOf(policy, id), kind)
    ensures k == 0 ==> Live(s.store, Counter(scope, kind, Bucket(kind, t)), t) == 0
  {
    BucketHasRoom(s, policy, id, k, scope, kind);
    LiveIsCount(s, scope, kind, t);
  }

  lemma DayIsFree(s: State, policy: Policy, id: string, k: nat, kind: Kind, t: int)
    requires policy.Valid() && id in policy.providers && CanFill(policy, id) && IsGreedyState(s, policy, id, k)
    requires (kind.Day? || kind.AnomalyDay?) && CounterInv(s, OfProvider(id), kind, Bucket(kind, t))
    ensures Live(s.store, Counter(OfProvider(id), kind, Bucket(kind, t)), t) <= k
  {
    LiveIsCount(s, OfProvider(id), kind, t);
  }

  lemma IntervalIsFree(s: State, policy: Policy, id: string, k: nat, t: int)
    requires policy.Valid() && id in policy.providers && CanFill(policy, id) && IsGreedyState(s, policy, id, k)
    requires t == Earliest(PaceOf(policy, id), 0, k + 1)[k]
    ensures Live(s.store, Interval(id), t) == 0 && s.clock <= t
  {
    var p := PaceOf(policy, id);
    assert t == Soonest(p, 0, Earliest(p, 0, k));
  }

  /** All counters the next greedy request is checked against, one after the other. */
  lemma GreedyLimitIsFree(s: State, policy: Policy, id: string, k: nat, t: int, i: nat)
    requires policy.Valid() && id in policy.providers && CanFill(policy, id) && CountersInv(s)
             && IsGreedyState(s, policy, id, k)
    requires k < policy.providers[id].budget.perDay && t == Earliest(PaceOf(policy, id), 0, k + 1)[k]
    requires var p := policy.providers[id];
             i < |Limits(p, policy.instruments[p.instrument], if k == 0 then Normal else Anomaly, t)|
    ensures var p := policy.providers[id];
            IsFree(s, Limits(p, policy.instruments[p.instrument], if k == 0 then Normal else Anomaly, t)[i], t)
  {
    var own, shared := OfProvider(id), OfInstrument(policy.providers[id].instrument);
    if i == 0 {
      IntervalIsFree(s, policy, id, k, t);
    } else if i == 3 || i == 6 {
      var kind := if i == 3 then Day else AnomalyDay;
      assert CounterInv(s, own, kind, Bucket(kind, t));
      DayIsFree(s, policy, id, k, kind, t);
    } else {
      var scope, kind := if i < 3 then own else shared, if i == 1 || i == 4 then Minute else Hour;
      assert CounterInv(s, scope, kind, Bucket(kind, t));
      MinuteIsFree(s, policy, id, k, scope, kind, t);
    }
  }

  /** The next greedy request is allowed. */
  lemma GreedyIsAllowed(s: State, policy: Policy, id: string, k: nat, t: int)
    requires policy.Valid() && id in policy.providers && CanFill(policy, id) && CountersInv(s)
             && IsGreedyState(s, policy, id, k)
    requires k < policy.providers[id].budget.perDay && t == Earliest(PaceOf(policy, id), 0, k + 1)[k]
    ensures var p := policy.providers[id];
            Decide(s.store, p, policy.instruments[p.instrument], if k == 0 then Normal else Anomaly, t).Allowed?
    ensures s.clock <= t
  {
    var p, purpose := policy.providers[id], if k == 0 then Normal else Anomaly;
    IntervalIsFree(s, policy, id, k, t);
    forall i | 0 <= i < |Limits(p, policy.instruments[p.instrument], purpose, t)|
      ensures IsFree(s, Limits(p, policy.instruments[p.instrument], purpose, t)[i], t)
    {
      GreedyLimitIsFree(s, policy, id, k, t, i);
    }
    FreeMeansAllowed(s, p, policy.instruments[p.instrument], purpose, t);
  }

  lemma GreedyStepCharges(s: State, policy: Policy, id: string, purpose: Purpose, t: int)
    requires policy.Valid() && id in policy.providers && Enabled(s, Request(id, purpose, t), policy)
    requires var p := policy.providers[id]; Decide(s.store, p, policy.instruments[p.instrument], purpose, t).Allowed?
    requires Cooldown(id) !in s.store && Live(s.store, Interval(id), t) == 0
    ensures var s' := Step(s, Request(id, purpose, t), policy);
            && s'.log == s.log + [Accepted(id, policy.providers[id].instrument, purpose, t)]
            && s'.clock == t && Cooldown(id) !in s'.store
            && Interval(id) in s'.store && s'.store[Interval(id)].expiresAt == t + IntervalOf(policy, id)
  {
    var p := policy.providers[id];
    var limits := Limits(p, policy.instruments[p.instrument], purpose, t);
    LimitKeysDiffer(p, policy.instruments[p.instrument], purpose, t);
    assert limits[0] == Limit(Interval(id), 1, IntervalOf(policy, id));
    ChargeAllCounts(s.store, limits, t, 0);
    ChargeAllLeaves(s.store, limits, t, Cooldown(id));
  }

  lemma GreedyStep(s: State, policy: Policy, id: string, k: nat)
    requires policy.Valid() && id in policy.providers && CanFill(policy, id)
             && 0 < k <= policy.providers[id].budget.perDay
    requires CountersInv(s) && IsGreedyState(s, policy, id, k - 1)
    ensures var a := Greedy(PaceOf(policy, id), id, k)[k - 1];
            Enabled(s, a, policy) && IsGreedyState(Step(s, a, policy), policy, id, k)
  {
    var t, purpose := Earliest(PaceOf(policy, id), 0, k)[k - 1], if k == 1 then Normal else Anomaly;
    GreedyIsAllowed(s, policy, id, k - 1, t);
    IntervalIsFree(s, policy, id, k - 1, t);
    GreedyStepCharges(s, policy, id, purpose, t);
    GreedyStateGoesOn(s, Step(s, Request(id, purpose, t), policy), policy, id, k);
  }

  lemma {:induction false} GreedyRuns(policy: Policy, id: string, k: nat)
    requires policy.Valid() && id in policy.providers && CanFill(policy, id) && k <= policy.providers[id].budget.perDay
    ensures var s := After(Greedy(PaceOf(policy, id), id, k), policy);
            s.Some? && IsGreedyState(s.value, policy, id, k)
  {
    if k > 0 {
      var actions := Greedy(PaceOf(policy, id), id, k - 1);
      GreedyRuns(policy, id, k - 1);
      EveryRunKeepsBudgets(actions, policy);
      GreedyStep(After(actions, policy).value, policy, id, k);
      assert Greedy(PaceOf(policy, id), id, k)[..k - 1] == actions;
    }
  }

  lemma GreedyStateGoesOn(s: State, s': State, policy: Policy, id: string, k: nat)
    requires policy.Valid() && id in policy.providers && k > 0 && IsGreedyState(s, policy, id, k - 1)
    requires var t := Earliest(PaceOf(policy, id), 0, k)[k - 1];
             && s'.log == s.log + [Accepted(id, policy.providers[id].instrument, if k == 1 then Normal else Anomaly, t)]
             && s'.clock == t && Cooldown(id) !in s'.store
             && Interval(id) in s'.store && s'.store[Interval(id)].expiresAt == t + IntervalOf(policy, id)
    ensures IsGreedyState(s', policy, id, k)
  {
  }

  // ----- exactly when ----------------------------------------------------------------------------

  /** No run closes the day to a reserve that still has room. */
  ghost predicate ReserveIsSafe(policy: Policy, id: string)
    requires policy.Valid() && id in policy.providers
  {
    forall actions: seq<Action>, t: int | After(actions, policy).Some? ::
      !IsStarved(After(actions, policy).value.store, policy.providers[id], t)
  }

  lemma {:induction false} AllAreCounted(log: seq<Accepted>, id: string)
    requires forall i | 0 <= i < |log| :: Matches(log[i], OfProvider(id), Day, 0)
    ensures Count(log, OfProvider(id), Day, 0) == |log|
  {
    if log != [] {
      AllAreCounted(log[..|log| - 1], id);
    }
  }

  lemma {:induction false} FirstIsNotCounted(log: seq<Accepted>, id: string)
    requires log != [] && !log[0].purpose.Anomaly?
    ensures Count(log, OfProvider(id), AnomalyDay, 0) < |log|
  {
    if |log| > 1 {
      FirstIsNotCounted(log[..|log| - 1], id);
    }
  }

  lemma InFirstDay(t: int)
    requires 0 <= t < Length(Day)
    ensures Bucket(Day, t) == 0 && Bucket(AnomalyDay, t) == 0
  {
  }

  lemma GreedyFillsFirstDay(s: State, policy: Policy, id: string, n: nat)
    requires policy.Valid() && id in policy.providers && CanFill(policy, id) && DayFits(policy, id)
    requires n == policy.providers[id].budget.perDay && IsGreedyState(s, policy, id, n)
    ensures Bucket(Day, s.clock) == 0 && Bucket(AnomalyDay, s.clock) == 0
    ensures Count(s.log, OfProvider(id), Day, 0) == n && Count(s.log, OfProvider(id), AnomalyDay, 0) < n
  {
    var times := Earliest(PaceOf(policy, id), 0, n);
    forall i | 0 <= i < n ensures Matches(s.log[i], OfProvider(id), Day, 0) {
      EarliestGoesOn(PaceOf(policy, id), 0, n, i);
      InFirstDay(times[i]);
    }
    EarliestGoesOn(PaceOf(policy, id), 0, n, n - 1);
    InFirstDay(s.clock);
    AllAreCounted(s.log, id);
    FirstIsNotCounted(s.log, id);
  }

  /** After a day's worth of greedy requests the day is closed, and the reserve has room. */
  lemma GreedyStarves(s: State, policy: Policy, id: string, n: nat)
    requires policy.Valid() && id in policy.providers && CanFill(policy, id) && DayFits(policy, id)
    requires n == policy.providers[id].budget.perDay && CountersInv(s) && IsGreedyState(s, policy, id, n)
    ensures IsStarved(s.store, policy.providers[id], s.clock)
  {
    GreedyFillsFirstDay(s, policy, id, n);
    assert CounterInv(s, OfProvider(id), Day, 0) && CounterInv(s, OfProvider(id), AnomalyDay, 0);
    LiveIsCount(s, OfProvider(id), Day, s.clock);
    LiveIsCount(s, OfProvider(id), AnomalyDay, s.clock);
  }

  lemma SlowDayIsSafe(actions: seq<Action>, policy: Policy, id: string, t: int)
    requires policy.Valid() && id in policy.providers && After(actions, policy).Some? && !DayFits(policy, id)
    ensures !IsStarved(After(actions, policy).value.store, policy.providers[id], t)
  {
    if 1 <= policy.providers[id].budget.perDay {
      var s := After(actions, policy).value;
      DayIsNotUsedUp(actions, policy, id, Bucket(Day, t));
      EveryRunKeepsBudgets(actions, policy);
      assert CounterInv(s, OfProvider(id), Day, Bucket(Day, t));
      LiveIsCount(s, OfProvider(id), Day, t);
    }
  }

  /**
   Over every run of requests of every purpose by every provider, the reserve of a provider is safe if
   and only if it is smaller than the day, or the interval, minute, hour and instrument limits do not
   leave room for a whole day's requests in a day.
   */
  lemma ReserveIsSafeExactlyWhen(policy: Policy, id: string)
    requires policy.Valid() && id in policy.providers
    ensures ReserveIsSafe(policy, id)
            <==> || policy.providers[id].budget.reservedAnomaly < policy.providers[id].budget.perDay
                 || !DayFits(policy, id)
  {
    var b := policy.providers[id].budget;
    if b.reservedAnomaly < b.perDay || !DayFits(policy, id) {
      forall actions: seq<Action>, t: int | After(actions, policy).Some?
        ensures !IsStarved(After(actions, policy).value.store, policy.providers[id], t)
      {
        if b.reservedAnomaly < b.perDay {
          ReserveIsUntouchable(actions, policy, id, t);
        } else {
          SlowDayIsSafe(actions, policy, id, t);
        }
      }
    } else {
      var actions := Greedy(PaceOf(policy, id), id, b.perDay);
      GreedyRuns(policy, id, b.perDay);
      EveryRunKeepsBudgets(actions, policy);
      GreedyStarves(After(actions, policy).value, policy, id, b.perDay);
      assert IsStarved(After(actions, policy).value.store, policy.providers[id], After(actions, policy).value.clock);
    }
  }

  // ----- and when a request is refused -----------------------------------------------------------

  /** The pace of a provider by its own limits: the instrument's are checked after the day. */
  function OwnPace(policy: Policy, id: string): Pace
    requires policy.Valid() && id in policy.providers
  {
    var b := policy.providers[id].budget;
    Pace(IntervalOf(policy, id), b.perMinute, b.perHour)
  }

  /** After a whole day's requests the day still leaves time for the own limits to admit one more. */
  predicate OneMoreFits(policy: Policy, id: string)
    requires policy.Valid() && id in policy.providers
  {
    && DayFits(policy, id)
    && Soonest(OwnPace(policy, id), 0,
               Earliest(PaceOf(policy, id), 0, policy.providers[id].budget.perDay)) < Length(Day)
  }

  /** An anomaly check at t is refused by the day counter, although its reserve has room. */
  ghost predicate IsRefusedByDay(s: State, policy: Policy, id: string, t: int)
    requires policy.Valid() && id in policy.providers
  {
    var p := policy.providers[id];
    && s.clock <= t
    && Decide(s.store, p, policy.instruments[p.instrument], Anomaly, t) == Blocked(3)
    && Live(s.store, Counter(OfProvider(id), AnomalyDay, Bucket(AnomalyDay, t)), t) < p.budget.reservedAnomaly
  }

  ghost predicate NoCheckIsRefused(policy: Policy, id: string)
    requires policy.Valid() && id in policy.providers
  {
    forall actions: seq<Action>, t: int | After(actions, policy).Some? ::
      !IsRefusedByDay(After(actions, policy).value, policy, id, t)
  }

  lemma {:induction false} EarlierAreFree(store: Store, limits: seq<Limit>, t: int, from: nat, i: nat)
    requires from <= i < |limits| && FirstBlocked(store, limits, t, from).Some?
    requires i < FirstBlocked(store, limits, t, from).value
    ensures Live(store, limits[i].key, t) < limits[i].limit
    decreases |limits| - from
  {
    if from < i {
      EarlierAreFree(store, limits, t, from + 1, i);
    }
  }

  /** What a refusal by the day counter says of the counters before it. */
  lemma RefusalCounts(s: State, policy: Policy, id: string, t: int)
    requires policy.Valid() && id in policy.providers && CountersInv(s) && IsRefusedByDay(s, policy, id, t)
    ensures IsStarved(s.store, policy.providers[id], t)
    ensures Live(s.store, Interval(id), t) < 1
    ensures Count(s.log, OfProvider(id), Minute, Bucket(Minute, t)) < policy.providers[id].budget.perMinute
    ensures Count(s.log, OfProvider(id), Hour, Bucket(Hour, t)) < policy.providers[id].budget.perHour
    ensures policy.providers[id].budget.perDay <= Count(s.log, OfProvider(id), Day, Bucket(Day, t))
  {
    var p, own := policy.providers[id], OfProvider(id);
    var limits := Limits(p, policy.instruments[p.instrument], Anomaly, t);
    EarlierAreFree(s.store, limits, t, 0, 0);
    EarlierAreFree(s.store, limits, t, 0, 1);
    EarlierAreFree(s.store, limits, t, 0, 2);
    assert CounterInv(s, own, Minute, Bucket(Minute, t)) && CounterInv(s, own, Hour, Bucket(Hour, t));
    assert CounterInv(s, own, Day, Bucket(Day, t));
    LiveIsCount(s, own, Minute, t);
    LiveIsCount(s, own, Hour, t);
    LiveIsCount(s, own, Day, t);
  }

  /** A free interval key means that the last request is the minimum interval ago. */
  lemma FreeIntervalIsOver(s: State, policy: Policy, id: string, day: int, t: int)
    requires policy.Valid() && id in policy.providers && IntervalInv(s, policy, id)
             && Live(s.store, Interval(id), t) < 1
    requires DayTimes(s.log, id, day) != []
    ensures var times := DayTimes(s.log, id, day);
            times[|times| - 1] + IntervalOf(policy, id) <= t
  {
    var i := DayTimesMember(s.log, id, day, |DayTimes(s.log, id, day)| - 1);
    assert s.log[i].provider == id;
  }

  /** A bucket with room is not the one that was filled before. */
  lemma RoomIsLater(s: State, policy: Policy, id: string, day: int, t: int, kind: Kind, limit: int, start: int)
    requires policy.Valid() && id in policy.providers && (kind.Minute? || kind.Hour?) && 1 <= limit && start <= t
    requires IsIncreasing(DayTimes(s.log, id, day))
    requires var times := DayTimes(s.log, id, day); times != [] && times[|times| - 1] <= t
    requires Count(s.log, OfProvider(id), kind, Bucket(kind, t)) < limit
    ensures AfterFullBucket(kind, limit, start, DayTimes(s.log, id, day)) <= t
  {
    var e := Accepted(id, policy.providers[id].instrument, Anomaly, t);
    if limit <= |DayTimes(s.log, id, day)| {
      AppendCounts(s.log, e, OfProvider(id), kind, Bucket(kind, t));
      FullBucketIsOver(s.log, e, day, OfProvider(id), kind, limit);
    }
  }

  /** A refused check comes no sooner than the own limits allow after the day's requests. */
  lemma RefusalIsPaced(s: State, policy: Policy, id: string, t: int)
    requires policy.Valid() && id in policy.providers && CountersInv(s) && ProviderInv(s, policy, id)
    requires IsRefusedByDay(s, policy, id, t)
    requires IsPaced(PaceOf(policy, id), Bucket(Day, t) * Length(Day), DayTimes(s.log, id, Bucket(Day, t)))
    ensures Soonest(OwnPace(policy, id), Bucket(Day, t) * Length(Day), DayTimes(s.log, id, Bucket(Day, t))) <= t
  {
    var day, b := Bucket(Day, t), policy.providers[id].budget;
    var start, times := day * Length(Day), DayTimes(s.log, id, day);
    RefusalCounts(s, policy, id, t);
    PacedIsIncreasing(PaceOf(policy, id), start, times);
    BucketEnds(Day, t);
    FreeIntervalIsOver(s, policy, id, day, t);
    RoomIsLater(s, policy, id, day, t, Minute, b.perMinute, start);
    RoomIsLater(s, policy, id, day, t, Hour, b.perHour, start);
    SoonestAtMost(OwnPace(policy, id), start, times, t);
  }

  /** It meets a day with exactly its budget of requests. */
  lemma RefusalMeetsFullDay(s: State, policy: Policy, id: string, t: int)
    requires policy.Valid() && id in policy.providers && CountersInv(s) && WithinCeilings(s, policy)
    requires IsRefusedByDay(s, policy, id, t)
    ensures |DayTimes(s.log, id, Bucket(Day, t))| == policy.providers[id].budget.perDay
  {
    RefusalCounts(s, policy, id, t);
    assert Count(s.log, OfProvider(id), Day, Bucket(Day, t)) <= Max(0, Ceiling(policy, OfProvider(id), Day));
  }

  lemma RefusalIsNoSooner(actions: seq<Action>, policy: Policy, id: string, t: int)
    requires policy.Valid() && id in policy.providers && After(actions, policy).Some?
    requires IsRefusedByDay(After(actions, policy).value, policy, id, t)
    ensures var s, day := After(actions, policy).value, Bucket(Day, t);
            && |DayTimes(s.log, id, day)| == policy.providers[id].budget.perDay
            && Soonest(OwnPace(policy, id), day * Length(Day), DayTimes(s.log, id, day)) <= t
  {
    EveryRunKeepsBudgets(actions, policy);
    assert ProviderInv(After(actions, policy).value, policy, id);
    EveryRunIsPaced(actions, policy, id, Bucket(Day, t));
    RefusalMeetsFullDay(After(actions, policy).value, policy, id, t);
    RefusalIsPaced(After(actions, policy).value, policy, id, t);
  }

  /** What fits after paced requests of some day fits after the greedy ones of the first. */
  lemma TimeIsLeft(p: Pace, own: Pace, day: int, times: seq<int>, t: int)
    requires IsPaced(p, day * Length(Day), times) && Soonest(own, day * Length(Day), times) <= t
             && Bucket(Day, t) == day
    ensures Soonest(own, 0, Earliest(p, 0, |times|)) < Length(Day)
  {
    var start, n := day * Length(Day), |times|;
    GreedyLeavesMoreTime(p, own, start, times);
    NextSoonestShifts(p, own, day, n);
    BucketEnds(Day, t);
  }

  lemma GreedyLeavesMoreTime(p: Pace, own: Pace, start: int, times: seq<int>)
    requires IsPaced(p, start, times)
    ensures Soonest(own, start, Earliest(p, start, |times|)) <= Soonest(own, start, times)
  {
    PacedIsNoSooner(p, start, times);
    SoonestMonotone(own, start, times, Earliest(p, start, |times|));
  }

  lemma NextSoonestShifts(p: Pace, own: Pace, day: int, n: nat)
    ensures Soonest(own, day * Length(Day), Earliest(p, day * Length(Day), n))
            == day * Length(Day) + Soonest(own, 0, Earliest(p, 0, n))
  {
    EarliestShifts(p, day, n);
    SoonestShifts(own, day, Earliest(p, day * Length(Day), n), Earliest(p, 0, n));
  }

  lemma RefusalMeansDayFits(actions: seq<Action>, policy: Policy, id: string, t: int)
    requires policy.Valid() && id in policy.providers && After(actions, policy).Some?
    requires IsRefusedByDay(After(actions, policy).value, policy, id, t)
    ensures policy.providers[id].budget.perDay <= policy.providers[id].budget.reservedAnomaly && DayFits(policy, id)
  {
    EveryRunKeepsBudgets(actions, policy);
    RefusalCounts(After(actions, policy).value, policy, id, t);
    ReserveIsSafeExactlyWhen(policy, id);
    assert !ReserveIsSafe(policy, id);
  }

  lemma RefusalMeansOneMoreFits(actions: seq<Action>, policy: Policy, id: string, t: int)
    requires policy.Valid() && id in policy.providers && After(actions, policy).Some?
    requires IsRefusedByDay(After(actions, policy).value, policy, id, t)
    ensures policy.providers[id].budget.perDay <= policy.providers[id].budget.reservedAnomaly && OneMoreFits(policy, id)
  {
    var day := Bucket(Day, t);
    RefusalMeansDayFits(actions, policy, id, t);
    RefusalIsNoSooner(actions, policy, id, t);
    EveryRunIsPaced(actions, policy, id, day);
    TimeIsLeft(PaceOf(policy, id), OwnPace(policy, id), day, DayTimes(After(actions, policy).value.log, id, day), t);
  }

  /** After the greedy requests of a whole day, the soonest check the own limits admit meets a closed day. */
  lemma GreedyIsRefused(s: State, policy: Policy, id: string, t: int)
    requires policy.Valid() && id in policy.providers && CanFill(policy, id) && OneMoreFits(policy, id)
             && CountersInv(s)
    requires IsGreedyState(s, policy, id, policy.providers[id].budget.perDay)
    requires t == Soonest(OwnPace(policy, id), 0, Earliest(PaceOf(policy, id), 0, policy.providers[id].budget.perDay))
    ensures IsRefusedByDay(s, policy, id, t)
  {
    var p, own, n := policy.providers[id], OfProvider(id), policy.providers[id].budget.perDay;
    GreedyFillsFirstDay(s, policy, id, n);
    InFirstDay(t);
    BucketHasRoomFor(s, policy, id, n, OwnPace(policy, id), own, Minute);
    BucketHasRoomFor(s, policy, id, n, OwnPace(policy, id), own, Hour);
    assert CounterInv(s, own, Minute, Bucket(Minute, t)) && CounterInv(s, own, Hour, Bucket(Hour, t));
    assert CounterInv(s, own, Day, Bucket(Day, t)) && CounterInv(s, own, AnomalyDay, Bucket(AnomalyDay, t));
    LiveIsCount(s, own, Minute, t);
    LiveIsCount(s, own, Hour, t);
    LiveIsCount(s, own, Day, t);
    LiveIsCount(s, own, AnomalyDay, t);
    FourthIsFirstBlocked(s.store, Limits(p, policy.instruments[p.instrument], Anomaly, t), t);
  }

  /**
   Over every run, an anomaly check whose reserve has room is never refused by the day counter if and
   only if the reserve is smaller than the day, or the limits leave no time in a day for its whole
   budget and one more check.
   */
  lemma ChecksAreSafeExactlyWhen(policy: Policy, id: string)
    requires policy.Valid() && id in policy.providers
    ensures NoCheckIsRefused(policy, id)
            <==> || policy.providers[id].budget.reservedAnomaly < policy.providers[id].budget.perDay
                 || !OneMoreFits(policy, id)
  {
    var n := policy.providers[id].budget.perDay;
    if policy.providers[id].budget.reservedAnomaly < n || !OneMoreFits(policy, id) {
      forall actions: seq<Action>, t: int | After(actions, policy).Some?
        ensures !IsRefusedByDay(After(actions, policy).value, policy, id, t)
      {
        if IsRefusedByDay(After(actions, policy).value, policy, id, t) {
          RefusalMeansOneMoreFits(actions, policy, id, t);
        }
      }
    } else {
      var actions := Greedy(PaceOf(policy, id), id, n);
      var t := Soonest(OwnPace(policy, id), 0, Earliest(PaceOf(policy, id), 0, n));
      GreedyRuns(policy, id, n);
      EveryRunKeepsBudgets(actions, policy);
      GreedyIsRefused(After(actions, policy).value, policy, id, t);
      assert IsRefusedByDay(After(actions, policy).value, policy, id, t);
    }
  }

  lemma FourthIsFirstBlocked(store: Store, limits: seq<Limit>, t: int)
    requires |limits| > 3 && (forall i | 0 <= i < 3 :: Live(store, limits[i].key, t) < limits[i].limit)
    requires Live(store, limits[3].key, t) >= limits[3].limit
    ensures FirstBlocked(store, limits, t) == Some(3)
  {
    assert FirstBlocked(store, limits, t, 0) == FirstBlocked(store, limits, t, 1);
    assert FirstBlocked(store, limits, t, 1) == FirstBlocked(store, limits, t, 2);
    assert FirstBlocked(store, limits, t, 2) == FirstBlocked(store, limits, t, 3);
  }

  // ----- a day that closes too early ---------------------------------------------------------------

  /** A provider with two requests a day, both reserved for anomaly checks, as an operator may set it. */
  predicate IsOverReserved(policy: Policy, id: string) {
    && policy.Valid() && id in policy.providers
    && var p := policy.providers[id];
    && p.budget == Budget(60, 60, 2, 2, 0, 1, 300) && policy.instruments[p.instrument] == InstrumentBudget(60, 60)
  }

  lemma TwoRequestsAt(p: Pace)
    requires p == Pace(1000, 60, 60)
    ensures Earliest(p, 0, 2) == [0, 1000]
  {
    assert Earliest(p, 0, 0) == [];
    assert Earliest(p, 0, 1) == [0];
  }

  /**
   One ordinary request and one anomaly check, a second apart, use such a day up: the next anomaly
   check is refused by the day counter, although its reserve has room.
   */
  lemma DayClosesBeforeReserve(policy: Policy, id: string)
    requires IsOverReserved(policy, id)
    ensures var p, actions := policy.providers[id], [Request(id, Normal, 0), Request(id, Anomaly, 1000)];
            && After(actions, policy).Some?
            && Decide(After(actions, policy).value.store, p, policy.instruments[p.instrument], Anomaly, 2000)
               == Blocked(3)
            && Live(After(actions, policy).value.store, Counter(OfProvider(id), AnomalyDay, 0),
                    2000) < p.budget.reservedAnomaly
            && !ReserveIsSafe(policy, id)
  {
    var p, pace := policy.providers[id], PaceOf(policy, id);
    TwoRequestsAt(pace);
    var actions := Greedy(pace, id, 2);
    EarliestIsPrefix(pace, 0, 1, 2);
    assert Greedy(pace, id, 1) == [Request(id, Normal, 0)] by { assert Greedy(pace, id, 0) == []; }
    assert actions == [Request(id, Normal, 0), Request(id, Anomaly, 1000)];
    GreedyRuns(policy, id, 2);
    EveryRunKeepsBudgets(actions, policy);
    TwoRequestsCloseTheDay(After(actions, policy).value, policy, id);
    ReserveIsSafeExactlyWhen(policy, id);
  }

  lemma TwoRequestsCloseTheDay(s: State, policy: Policy, id: string)
    requires IsOverReserved(policy, id) && CountersInv(s) && IsGreedyState(s, policy, id, 2)
    ensures var p := policy.providers[id];
            && Decide(s.store, p, policy.instruments[p.instrument], Anomaly, 2000) == Blocked(3)
            && Live(s.store, Counter(OfProvider(id), AnomalyDay, 0), 2000) < 2
  {
    var p, own := policy.providers[id], OfProvider(id);
    TwoRequestsAt(PaceOf(policy, id));
    assert CounterInv(s, own, Minute, Bucket(Minute, 2000)) && CounterInv(s, own, Hour, Bucket(Hour, 2000));
    assert CounterInv(s, own, Day, Bucket(Day, 2000)) && CounterInv(s, own, AnomalyDay, Bucket(AnomalyDay, 2000));
    LiveIsCount(s, own, Minute, 2000);
    LiveIsCount(s, own, Hour, 2000);
    LiveIsCount(s, own, Day, 2000);
    LiveIsCount(s, own, AnomalyDay, 2000);
    AllAreCounted(s.log, id);
    FirstIsNotCounted(s.log, id);
    FourthIsFirstBlocked(s.store, Limits(p, policy.instruments[p.instrument], Anomaly, 2000), 2000);
  }
}
