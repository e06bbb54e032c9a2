/** The circuit breaker of a provider, for one worker at a time (providers.py, models.py). */
module Breaker {
  import opened Wrappers

  const FAILURE_THRESHOLD := 3
  const CIRCUIT_OPEN_SECONDS := 60

  datatype Circuit = Closed | Open | HalfOpen

  /** `ProviderRuntimeState`, without the entries that are only displayed. */
  datatype Runtime = Runtime(
    circuit: Circuit, consecutiveFailures: nat, successes: nat, failures: nat, averageLatency: Option<real>,
    lastSuccessAt: Option<int>, lastFailureAt: Option<int>, openUntil: Option<int>, cooldownUntil: Option<int>)

  function Fresh(): Runtime {
    Runtime(Closed, 0, 0, 0, None, None, None, None, None)
  }

  /** What the provider answered; `retryAfter` comes with a 429 response. */
  datatype Response = Answered(latency: nat) | Failed(rateLimited: bool, retryAfter: Option<nat>)

  /** What one call of `quote` meets on its way, from the first check at `at` to the record at `done`. */
  datatype Attempt = Attempt(
    at: int, done: int, enabled: bool, configured: bool, cacheIsLive: bool, lockIsFree: bool,
    cacheIsLiveUnderLock: bool, budgetAllows: bool, response: Response)

  datatype Outcome = Disabled | MissingKey | FreshCache | CircuitOpen | Locked | BudgetDenied | Called

  /** The average latency after one more success. */
  function RunningAverage(average: Option<real>, previousTotal: nat, latency: nat): real {
    if average.None? then latency as real
    else (average.value * previousTotal as real + latency as real) / Max(1, previousTotal + 1) as real
  }

  /** The runtime after `_record_success`. */
  function Succeeded(r: Runtime, now: int, latency: nat): Runtime {
    r.(circuit := Closed, consecutiveFailures := 0, successes := r.successes + 1,
       averageLatency := Some(RunningAverage(r.averageLatency, r.successes, latency)),
       lastSuccessAt := Some(now), openUntil := None)
  }

  function CooldownSeconds(cooldown: int, retryAfter: Option<nat>): int {
    Max(cooldown, retryAfter.GetOr(0))
  }

  /** The runtime after `_record_failure`. */
  function FailedAt(r: Runtime, now: int, cooldown: int, response: Response): Runtime
    requires response.Failed?
  {
    var cooled := if response.rateLimited
                  then Some(now + CooldownSeconds(cooldown, response.retryAfter))
                  else r.cooldownUntil;
    var opens := r.consecutiveFailures + 1 >= FAILURE_THRESHOLD;
    r.(circuit := if opens then Open else r.circuit, consecutiveFailures := r.consecutiveFailures + 1,
       failures := r.failures + 1, lastFailureAt := Some(now),
       openUntil := if opens then Some(now + CIRCUIT_OPEN_SECONDS) else r.openUntil, cooldownUntil := cooled)
  }

  /** Whether `_circuit_open` lets nothing through. */
  predicate Blocks(r: Runtime, now: int) {
    || (r.cooldownUntil.Some? && now < r.cooldownUntil.value)
    || (r.circuit == Open && r.openUntil.Some? && now < r.openUntil.value)
  }

  /** The state `_circuit_open` leaves behind when it lets a call through. */
  function Probed(r: Runtime): Runtime {
    r.(circuit := if r.circuit == Open then HalfOpen else r.circuit)
  }

  /** The decision order of `quote`. */
  function Decide(r: Runtime, a: Attempt): Outcome {
    if !a.enabled then Disabled
    else if !a.configured then MissingKey
    else if a.cacheIsLive then FreshCache
    else if Blocks(r, a.at) then CircuitOpen
    else if !a.lockIsFree then Locked
    else if a.cacheIsLiveUnderLock then FreshCache
    else if !a.budgetAllows then BudgetDenied
    else Called
  }

  /** What `quote` leaves in the store.  A probe that finds the lock taken is not written back. */
  function Next(r: Runtime, a: Attempt, cooldown: int): Runtime {
    match Decide(r, a)
    case BudgetDenied => Probed(r)
    case Called =>
      (match a.response
       case Answered(latency) => Succeeded(Probed(r), a.done, latency)
       case Failed(_, _) => FailedAt(Probed(r), a.done, cooldown, a.response))
    case _ => r
  }

  // ----- the objects ------------------------------------------------------------------------------

  class ProviderRuntimeState {
    var circuit: Circuit
    var consecutiveFailures: nat
    var successes: nat
    var failures: nat
    var averageLatency: Option<real>
    var lastSuccessAt: Option<int>
    var lastFailureAt: Option<int>
    var openUntil: Option<int>
    var cooldownUntil: Option<int>

    ghost function View(): Runtime
      reads this
    {
      Runtime(circuit, consecutiveFailures, successes, failures, averageLatency, lastSuccessAt, lastFailureAt,
              openUntil, cooldownUntil)
    }

    /** What `get_provider_runtime` reads back. */
    constructor (r: Runtime)
      ensures View() == r
    {
      circuit, consecutiveFailures, successes, failures := r.circuit, r.consecutiveFailures, r.successes, r.failures;
      averageLatency, lastSuccessAt, lastFailureAt := r.averageLatency, r.lastSuccessAt, r.lastFailureAt;
      openUntil, cooldownUntil := r.openUntil, r.cooldownUntil;
    }

    /** What `set_provider_runtime` writes. */
    method Stored() returns (r: Runtime)
      ensures r == View()
    {
      r := Runtime(circuit, consecutiveFailures, successes, failures, averageLatency, lastSuccessAt, lastFailureAt,
                   openUntil, cooldownUntil);
    }

    method RecordSuccess(now: int, latency: nat)
      modifies this
      ensures View() == Succeeded(old(View()), now, latency)
    {
      var previousTotal := successes;
      successes := successes + 1;
      consecutiveFailures := 0;
      lastSuccessAt := Some(now);
      circuit := Closed;
      openUntil := None;
      averageLatency := Some(RunningAverage(averageLatency, previousTotal, latency));
    }

    method RecordFailure(now: int, cooldown: int, response: Response)
      requires response.Failed?
      modifies this
      ensures View() == FailedAt(old(View()), now, cooldown, response)
    {
      failures := failures + 1;
      consecutiveFailures := consecutiveFailures + 1;
      lastFailureAt := Some(now);
      if response.rateLimited {
        cooldownUntil := Some(now + CooldownSeconds(cooldown, response.retryAfter));
      }
      if consecutiveFailures >= FAILURE_THRESHOLD {
        circuit := Open;
        openUntil := Some(now + CIRCUIT_OPEN_SECONDS);
      }
    }

    /** `_circuit_open`, which also moves an open circuit to half-open once its time is over. */
    method CircuitOpen(now: int) returns (blocked: bool)
      modifies this
      ensures blocked == Blocks(old(View()), now)
      ensures View() == if blocked then old(View()) else Probed(old(View()))
    {
      if cooldownUntil.Some? && now < cooldownUntil.value { return true; }
      if circuit != Open { return false; }
      if openUntil.None? || now >= openUntil.value {
        circuit := HalfOpen;
        return false;
      }
      return true;
    }
  }

  class ProviderQuoteCollector {
    /** The runtime of one provider in the shared store. */
    var stored: Runtime

    constructor ()
      ensures stored == Fresh()
    {
      stored := Fresh();
    }

    /** `quote` and the bookkeeping of `_call_and_parse`. */
    method Quote(a: Attempt, cooldown: int) returns (outcome: Outcome)
      modifies this
      ensures outcome == Decide(old(stored), a)
      ensures stored == Next(old(stored), a, cooldown)
    {
      var runtime := new ProviderRuntimeState(stored);
      if !a.enabled { return Disabled; }
      if !a.configured { return MissingKey; }
      if a.cacheIsLive { return FreshCache; }
      var blocked := runtime.CircuitOpen(a.at);
      if blocked { return CircuitOpen; }
      if !a.lockIsFree { return Locked; }
      if a.cacheIsLiveUnderLock { return FreshCache; }
      if !a.budgetAllows {
        stored := runtime.Stored();
        return BudgetDenied;
      }
      match a.response {
        case Answered(latency) => runtime.RecordSuccess(a.done, latency);
        case Failed(_, _) => runtime.RecordFailure(a.done, cooldown, a.response);
      }
      stored := runtime.Stored();
      return Called;
    }
  }

  // ----- the history of external calls --------------------------------------------------------------

  /** One external call: when it began, when it was recorded, and what came back. */
  datatype Call = Call(start: int, end: int, response: Response)

  /** The calls at the end of the history that failed without a success in between. */
  function Streak(calls: seq<Call>): nat {
    if calls == [] || calls[|calls| - 1].response.Answered? then 0 else Streak(calls[..|calls| - 1]) + 1
  }

  /** The latencies of the calls that succeeded. */
  function Latencies(calls: seq<Call>): seq<nat> {
    if calls == [] then [] else
      var rest := Latencies(calls[..|calls| - 1]);
      match calls[|calls| - 1].response
      case Answered(latency) => rest + [latency]
      case Failed(_, _) => rest
  }

  function Sum(xs: seq<nat>): nat {
    if xs == [] then 0 else Sum(xs[..|xs| - 1]) + xs[|xs| - 1]
  }

  function Mean(xs: seq<nat>): Option<real> {
    if xs == [] then None else Some(Sum(xs) as real / |xs| as real)
  }

  /** The calls of a run of attempts, and the state it leaves. */
  function After(attempts: seq<Attempt>, cooldown: int): (Runtime, seq<Call>) {
    if attempts == [] then (Fresh(), []) else
      var last := attempts[|attempts| - 1];
      var (r, calls) := After(attempts[..|attempts| - 1], cooldown);
      (Next(r, last, cooldown),
       if Decide(r, last) == Called then calls + [Call(last.at, last.done, last.response)] else calls)
  }

  /** One worker: an attempt ends before the next one begins. */
  ghost predicate IsSequential(attempts: seq<Attempt>) {
    && (forall i | 0 <= i < |attempts| :: attempts[i].at <= attempts[i].done)
    && (forall i, j :: 0 <= i < j < |attempts| ==> attempts[i].done <= attempts[j].at)
  }

  /** The earliest instant after which a call of this history no longer forbids another. */
  function Cooled(c: Call, cooldown: int): int {
    if c.response.Failed?
      && c.response.rateLimited then c.end + CooldownSeconds(cooldown, c.response.retryAfter) else c.end
  }

  /**
   Every call waited for the cooldown of all calls before it, and a minute after a failure that
   opened the circuit.
   */
  ghost predicate IsSpaced(calls: seq<Call>, cooldown: int) {
    forall j {:trigger calls[..j]} | 0 <= j < |calls| :: CallIsDue(calls[..j], calls[j].start, cooldown)
  }

  ghost predicate CallIsDue(before: seq<Call>, now: int, cooldown: int) {
    && (forall i | 0 <= i < |before| :: Cooled(before[i], cooldown) <= now)
    && (Streak(before) >= 3 ==> before[|before| - 1].end + 60 <= now)
  }

  ghost predicate CountersInv(r: Runtime, calls: seq<Call>) {
    && r.consecutiveFailures == Streak(calls)
    && r.successes == |Latencies(calls)|
    && r.successes + r.failures == |calls|
    && r.averageLatency == Mean(Latencies(calls))
  }

  ghost predicate CircuitInv(r: Runtime, calls: seq<Call>, now: int) {
    && (r.circuit == Closed <==> Streak(calls) < 3)
    && (Streak(calls) >= 3 ==>
          && r.openUntil == Some(calls[|calls| - 1].end + 60)
          && (r.circuit == HalfOpen ==> r.openUntil.value <= now))
  }

  ghost predicate CooldownInv(r: Runtime, calls: seq<Call>, now: int, cooldown: int) {
    forall i | 0 <= i < |calls| :: Cooled(calls[i], cooldown) <= Max(now, r.cooldownUntil.GetOr(now))
  }

  lemma DivideThenMultiply(x: real, n: real)
    requires n != 0.0
    ensures x / n * n == x
  {
  }

  lemma SumGrows(xs: seq<nat>, x: nat)
    ensures Sum(xs + [x]) == Sum(xs) + x
  {
    assert (xs + [x])[..|xs|] == xs;
  }

  /** The running average is the mean. */
  lemma RunningAverageIsMean(xs: seq<nat>, x: nat)
    ensures Mean(xs + [x]) == Some(RunningAverage(Mean(xs), |xs|, x))
  {
    SumGrows(xs, x);
    if xs != [] {
      var sum, count := Sum(xs) as real, |xs| as real;
      assert Mean(xs) == Some(sum / count);
      DivideThenMultiply(sum, count);
      assert RunningAverage(Mean(xs), |xs|, x) == (sum / count * count + x as real) / (|xs| + 1) as real;
      assert sum + x as real == Sum(xs + [x]) as real && |xs + [x]| == |xs| + 1;
    }
  }

  lemma CountersStep(r: Runtime, calls: seq<Call>, c: Call, cooldown: int)
    requires CountersInv(r, calls)
    ensures c.response.Answered? ==> CountersInv(Succeeded(r, c.end, c.response.latency), calls + [c])
    ensures c.response.Failed? ==> CountersInv(FailedAt(r, c.end, cooldown, c.response), calls + [c])
  {
    assert (calls + [c])[..|calls|] == calls;
    if c.response.Answered? {
      RunningAverageIsMean(Latencies(calls), c.response.latency);
    }
  }

  /** When nothing blocks, a call is due. */
  lemma UnblockedIsDue(r: Runtime, calls: seq<Call>, since: int, now: int, cooldown: int)
    requires CircuitInv(r, calls, since) && CooldownInv(r, calls, since, cooldown) && since <= now
    requires !Blocks(r, now)
    ensures CallIsDue(calls, now, cooldown)
  {
  }

  ghost predicate Inv(r: Runtime, calls: seq<Call>, now: int, cooldown: int) {
    CountersInv(r, calls) && CircuitInv(r, calls, now) && CooldownInv(r, calls, now, cooldown)
      && IsSpaced(calls, cooldown)
  }

  lemma SpacedOneMore(calls: seq<Call>, c: Call, cooldown: int)
    requires IsSpaced(calls, cooldown) && CallIsDue(calls, c.start, cooldown)
    ensures IsSpaced(calls + [c], cooldown)
  {
    forall j | 0 <= j < |calls + [c]| ensures CallIsDue((calls + [c])[..j], (calls + [c])[j].start, cooldown) {
      assert (calls + [c])[..j] == calls[..j];
      assert j == |calls| ==> calls[..j] == calls;
    }
  }

  lemma StreakGrows(calls: seq<Call>, c: Call)
    ensures Streak(calls + [c]) == if c.response.Answered? then 0 else Streak(calls) + 1
  {
    assert (calls + [c])[..|calls|] == calls;
  }

  lemma CallKeepsCircuit(r: Runtime, calls: seq<Call>, since: int, a: Attempt, cooldown: int)
    requires CountersInv(r, calls) && CircuitInv(r, calls, since) && Decide(r, a) == Called
    ensures CircuitInv(Next(r, a, cooldown), calls + [Call(a.at, a.done, a.response)], a.done)
  {
    StreakGrows(calls, Call(a.at, a.done, a.response));
  }

  lemma CallKeepsCooldown(r: Runtime, calls: seq<Call>, a: Attempt, cooldown: int)
    requires (forall i | 0 <= i < |calls| :: Cooled(calls[i], cooldown) <= a.at) && a.at <= a.done
             && Decide(r, a) == Called
    ensures CooldownInv(Next(r, a, cooldown), calls + [Call(a.at, a.done, a.response)], a.done, cooldown)
  {
    var c, after := Call(a.at, a.done, a.response), Next(r, a, cooldown);
    forall i | 0 <= i < |calls + [c]|
      ensures Cooled((calls + [c])[i], cooldown) <= Max(a.done, after.cooldownUntil.GetOr(a.done)) {
      if i < |calls| {
        assert (calls + [c])[i] == calls[i];
      }
    }
  }

  lemma CallKeepsInv(r: Runtime, calls: seq<Call>, since: int, a: Attempt, cooldown: int)
    requires Inv(r, calls, since, cooldown) && since <= a.at <= a.done && Decide(r, a) == Called
    ensures Inv(Next(r, a, cooldown), calls + [Call(a.at, a.done, a.response)], a.done, cooldown)
  {
    UnblockedIsDue(r, calls, since, a.at, cooldown);
    SpacedOneMore(calls, Call(a.at, a.done, a.response), cooldown);
    CountersStep(Probed(r), calls, Call(a.at, a.done, a.response), cooldown);
    CallKeepsCircuit(r, calls, since, a, cooldown);
    CallKeepsCooldown(r, calls, a, cooldown);
  }

  lemma AttemptKeepsInv(r: Runtime, calls: seq<Call>, since: int, a: Attempt, cooldown: int)
    requires Inv(r, calls, since, cooldown) && since <= a.at <= a.done
    ensures Inv(Next(r, a, cooldown),
                if Decide(r, a) == Called then calls + [Call(a.at, a.done, a.response)] else calls,
                a.done, cooldown)
  {
    if Decide(r, a) == Called {
      CallKeepsInv(r, calls, since, a, cooldown);
    } else {
      QuietKeepsInv(r, calls, since, a, cooldown);
    }
  }

  lemma QuietKeepsInv(r: Runtime, calls: seq<Call>, since: int, a: Attempt, cooldown: int)
    requires Inv(r, calls, since, cooldown) && since <= a.at <= a.done && Decide(r, a) != Called
    ensures Inv(Next(r, a, cooldown), calls, a.done, cooldown)
  {
    assert CooldownInv(Next(r, a, cooldown), calls, a.done, cooldown) by {
      forall i | 0 <= i < |calls| ensures Cooled(calls[i], cooldown) <= Max(a.done, r.cooldownUntil.GetOr(a.done)) {}
    }
  }

  lemma InvLater(r: Runtime, calls: seq<Call>, since: int, now: int, cooldown: int)
    requires Inv(r, calls, since, cooldown) && since <= now
    ensures Inv(r, calls, now, cooldown)
  {
  }

  lemma {:induction false} RunKeepsInv(attempts: seq<Attempt>, cooldown: int, now: int)
    requires IsSequential(attempts) && (attempts != [] ==> attempts[|attempts| - 1].done <= now)
    ensures Inv(After(attempts, cooldown).0, After(attempts, cooldown).1, now, cooldown)
  {
    if attempts != [] {
      var n := |attempts| - 1;
      var a := attempts[n];
      RunKeepsInv(attempts[..n], cooldown, a.at);
      var (r, calls) := After(attempts[..n], cooldown);
      AttemptKeepsInv(r, calls, a.at, a, cooldown);
      InvLater(After(attempts, cooldown).0, After(attempts, cooldown).1, a.done, now, cooldown);
    }
  }

  /**
   In every run of one worker the circuit is closed exactly while fewer than three calls failed in a
   row, the counters and the mean latency are those of the calls made, no call begins before the
   cooldowns of all earlier calls are over, and after three failures in a row the next call waits a
   minute from the last of them.
   */
  lemma EveryRunIsGuarded(attempts: seq<Attempt>, cooldown: int)
    requires IsSequential(attempts)
    ensures var (r, calls) := After(attempts, cooldown);
            && CountersInv(r, calls)
            && (r.circuit == Closed <==> Streak(calls) < 3)
            && IsSpaced(calls, cooldown)
  {
    RunKeepsInv(attempts, cooldown, if attempts == [] then 0 else attempts[|attempts| - 1].done);
  }

  lemma {:induction false} StreakGoesOn(calls: seq<Call>, i: nat, j: nat)
    requires i <= j < |calls| && Streak(calls[..i + 1]) >= 3
    requires forall k | i <= k <= j :: calls[k].response.Failed?
    ensures Streak(calls[..j + 1]) >= 3
    decreases j
  {
    if i < j {
      StreakGoesOn(calls, i, j - 1);
      assert calls[..j + 1][..j] == calls[..j];
    }
  }

  lemma NextCallIsDue(calls: seq<Call>, cooldown: int, j: nat)
    requires IsSpaced(calls, cooldown) && 0 < j < |calls| && Streak(calls[..j]) >= 3
    ensures calls[j - 1].end + 60 <= calls[j].start
  {
    assert CallIsDue(calls[..j], calls[j].start, cooldown);
    assert calls[..j][j - 1] == calls[j - 1];
  }

  ghost predicate AllEnd(calls: seq<Call>) {
    forall k | 0 <= k < |calls| :: calls[k].start <= calls[k].end
  }

  lemma {:induction false} FailuresAreApart(calls: seq<Call>, cooldown: int, i: nat, j: nat)
    requires IsSpaced(calls, cooldown) && AllEnd(calls)
    requires i <= j < |calls| && Streak(calls[..i + 1]) >= 3
    requires forall k | i <= k < j :: calls[k].response.Failed?
    ensures calls[j].end >= calls[i].end + 60 * (j - i)
    decreases j
  {
    if i < j {
      FailuresAreApart(calls, cooldown, i, j - 1);
      StreakGoesOn(calls, i, j - 1);
      NextCallIsDue(calls, cooldown, j);
    }
  }

  lemma {:induction false} RunCallsEnd(attempts: seq<Attempt>, cooldown: int)
    requires IsSequential(attempts)
    ensures AllEnd(After(attempts, cooldown).1)
  {
    if attempts != [] {
      RunCallsEnd(attempts[..|attempts| - 1], cooldown);
    }
  }

  /** In every run: once the circuit has opened, a provider that keeps failing is called at most once a minute. */
  lemma FailingProviderIsCalledOnceAMinute(attempts: seq<Attempt>, cooldown: int, i: nat, j: nat)
    requires IsSequential(attempts) && i <= j < |After(attempts, cooldown).1|
    requires var calls := After(attempts, cooldown).1;
             Streak(calls[..i + 1]) >= 3 && forall k | i <= k < j :: calls[k].response.Failed?
    ensures var calls := After(attempts, cooldown).1;
            calls[j].end >= calls[i].end + 60 * (j - i)
  {
    EveryRunIsGuarded(attempts, cooldown);
    RunCallsEnd(attempts, cooldown);
    FailuresAreApart(After(attempts, cooldown).1, cooldown, i, j);
  }

  // ----- when the provider is called ------------------------------------------------------------------

  /** When the cooldown of the last rate-limited call ends. */
  function LastCooldown(calls: seq<Call>, cooldown: int): Option<int> {
    if calls == [] then None else
      var c := calls[|calls| - 1];
      if c.response.Failed? && c.response.rateLimited
      then Some(c.end + Max(cooldown, c.response.retryAfter.GetOr(0)))
      else LastCooldown(calls[..|calls| - 1], cooldown)
  }

  lemma LastCooldownGrows(calls: seq<Call>, c: Call, cooldown: int)
    ensures LastCooldown(calls + [c], cooldown)
            == if c.response.Failed? && c.response.rateLimited
               then Some(c.end + Max(cooldown, c.response.retryAfter.GetOr(0)))
               else LastCooldown(calls, cooldown)
  {
    assert (calls + [c])[..|calls|] == calls;
  }

  lemma {:induction false} EveryRunCools(attempts: seq<Attempt>, cooldown: int)
    ensures After(attempts, cooldown).0.cooldownUntil == LastCooldown(After(attempts, cooldown).1, cooldown)
  {
    if attempts != [] {
      var n := |attempts| - 1;
      EveryRunCools(attempts[..n], cooldown);
      LastCooldownGrows(After(attempts[..n], cooldown).1, Call(attempts[n].at, attempts[n].done, attempts[n].response),
                        cooldown);
    }
  }

  /** A cooldown is running, or three calls in a row failed and the last of them ended less than a minute ago. */
  predicate IsHeldBack(calls: seq<Call>, cooldown: int, now: int) {
    || (LastCooldown(calls, cooldown).Some? && now < LastCooldown(calls, cooldown).value)
    || (Streak(calls) >= 3 && calls != [] && now < calls[|calls| - 1].end + 60)
  }

  lemma StreakHasCalls(calls: seq<Call>)
    ensures Streak(calls) > 0 ==> calls != []
  {
  }

  lemma HeldBackExactlyWhen(attempts: seq<Attempt>, cooldown: int, now: int)
    requires IsSequential(attempts) && (attempts != [] ==> attempts[|attempts| - 1].done <= now)
    ensures Blocks(After(attempts, cooldown).0, now) <==> IsHeldBack(After(attempts, cooldown).1, cooldown, now)
  {
    RunKeepsInv(attempts, cooldown, now);
    EveryRunCools(attempts, cooldown);
    StreakHasCalls(After(attempts, cooldown).1);
  }

  /**
   In every run of one worker, the provider is called exactly when it is enabled and configured, no live
   quote is cached before or under the lock, nothing holds it back, and lock and budget are granted; the
   other outcomes are told in the order of the questions.
   */
  lemma OutcomeExactlyWhen(attempts: seq<Attempt>, cooldown: int, a: Attempt)
    requires IsSequential(attempts) && (attempts != [] ==> attempts[|attempts| - 1].done <= a.at)
    ensures var (r, calls) := After(attempts, cooldown);
            var isWanted := a.enabled && a.configured && !a.cacheIsLive;
            var isHeldBack := IsHeldBack(calls, cooldown, a.at);
            var isLeading := isWanted && !isHeldBack && a.lockIsFree;
            && (Decide(r, a) == Disabled <==> !a.enabled)
            && (Decide(r, a) == MissingKey <==> a.enabled && !a.configured)
            && (Decide(r, a) == CircuitOpen <==> isWanted && isHeldBack)
            && (Decide(r, a) == Locked <==> isWanted && !isHeldBack && !a.lockIsFree)
            && (Decide(r, a) == FreshCache
                <==> (a.enabled && a.configured && a.cacheIsLive) || (isLeading && a.cacheIsLiveUnderLock))
            && (Decide(r, a) == BudgetDenied <==> isLeading && !a.cacheIsLiveUnderLock && !a.budgetAllows)
            && (Decide(r, a) == Called <==> isLeading && !a.cacheIsLiveUnderLock && a.budgetAllows)
  {
    HeldBackExactlyWhen(attempts, cooldown, a.at);
  }

  /** A success closes the circuit and forgets the failures in a row. */
  lemma SuccessCloses(r: Runtime, a: Attempt, cooldown: int)
    requires Decide(r, a) == Called && a.response.Answered?
    ensures var after := Next(r, a, cooldown);
            && after.circuit == Closed && after.consecutiveFailures == 0 && after.openUntil == None
            && after.lastSuccessAt == Some(a.done) && after.lastFailureAt == r.lastFailureAt
            && after.successes == r.successes + 1 && after.failures == r.failures
  {
  }

  /** A failure is counted and dated; a refusal or a cached answer leaves the counts alone. */
  lemma FailureIsCounted(r: Runtime, a: Attempt, cooldown: int)
    ensures var after := Next(r, a, cooldown);
            && (Decide(r, a) == Called && a.response.Failed? ==>
                  && after.consecutiveFailures == r.consecutiveFailures + 1 && after.failures == r.failures + 1
                  && after.lastFailureAt == Some(a.done) && after.successes == r.successes
                  && after.lastSuccessAt == r.lastSuccessAt && after.averageLatency == r.averageLatency)
            && (Decide(r, a) != Called ==>
                  && after.(circuit := r.circuit) == r
                  && (after.circuit == r.circuit || (r.circuit == Open && after.circuit == HalfOpen)))
  {
  }

  /**
   An open circuit whose minute is over is left half open by an attempt that gets as far as the budget, unless
   the call succeeds or is the third failure in a row or a later one.
   */
  lemma HalfOpenExactlyWhen(r: Runtime, a: Attempt, cooldown: int)
    ensures var outcome, after := Decide(r, a), Next(r, a, cooldown);
            after.circuit == HalfOpen
            <==> if outcome == BudgetDenied then r.circuit != Closed
                 else if outcome == Called then
                   a.response.Failed? && r.circuit != Closed && r.consecutiveFailures + 1 < 3
                 else r.circuit == HalfOpen
  {
  }
}
