/** The backfill job table (backfill.py): claims fenced by an attempt counter that deferral takes back. */
module BackfillJobs {
  import opened Wrappers

  const ABANDONED_AFTER_SECONDS := 600
  const RETRY_DELAY_SECONDS := 900
  const DEFER_DELAY_SECONDS := 300

  datatype Status = Pending | Processing | Retrying | Deferred | Completed | Failed

  datatype Row = Row(
    instrument: string, priority: int, createdAt: int,
    status: Status, attempts: int, nextAttemptAt: Option<int>, updatedAt: int, completedAt: Option<int>)

  predicate IsClaimable(r: Row, now: int) {
    || (r.status in {Pending, Retrying, Deferred} && (r.nextAttemptAt.None? || r.nextAttemptAt.value <= now))
    || (r.status.Processing? && r.updatedAt < now - ABANDONED_AFTER_SECONDS)
  }

  function Claimed(r: Row, now: int): Row {
    r.(status := Processing, attempts := r.attempts + 1, updatedAt := now)
  }

  /** The fence: the row is in progress, and under the attempt the caller was given. */
  predicate IsOwned(r: Row, token: Option<int>) {
    r.status.Processing? && (token.None? || r.attempts == token.value)
  }

  function Renewed(r: Row, now: int): Row {
    r.(updatedAt := now)
  }

  function Retried(r: Row, token: int, maximumAttempts: int, now: int): Row {
    var status := if token >= maximumAttempts then Failed else Retrying;
    r.(status := status, nextAttemptAt := if status.Failed? then None else Some(now + RETRY_DELAY_SECONDS),
       updatedAt := now)
  }

  datatype Outcome = Complete | Defer

  function Finished(r: Row, outcome: Outcome, now: int): Row {
    match outcome
    case Complete => r.(status := Completed, nextAttemptAt := None, updatedAt := now, completedAt := Some(now))
    case Defer =>
      r.(status := Deferred, nextAttemptAt := Some(now + DEFER_DELAY_SECONDS), updatedAt := now, completedAt := None,
         attempts := Max(0, r.attempts - 1))
  }

  /** The queue order: priority, then age, then id. */
  predicate IsBefore(a: Row, i: nat, b: Row, j: nat) {
    || a.priority < b.priority
    || (a.priority == b.priority && (a.createdAt < b.createdAt || (a.createdAt == b.createdAt && i <= j)))
  }

  datatype Claim = Claim(id: nat, token: int)

  // ----- what one pass does with a claimed job ------------------------------------------------

  datatype History = Points(count: nat) | BudgetDeferred | FetchFailed

  /** What `process_jobs` finds out about a claimed job, in the order in which it asks. */
  datatype World = World(
    featureEnabled: bool, instrumentEnabled: bool, hasProvider: bool, hasLiveQuote: bool,
    hasIndependentProvider: bool, providerNeedsLiveQuote: bool,
    leaseGranted: bool, budgetAllowed: bool, history: History)

  datatype Settlement = Finish(outcome: Outcome) | Retry

  function SettlementOf(w: World): Settlement {
    if !w.featureEnabled || !w.instrumentEnabled || !w.hasProvider then Finish(Defer)
    else if !w.hasLiveQuote && !w.hasIndependentProvider then Finish(Defer)
    else if w.providerNeedsLiveQuote && !w.hasLiveQuote then Finish(Defer)
    else if !w.leaseGranted || !w.budgetAllowed then Retry
    else match w.history
      case BudgetDeferred => Finish(Defer)
      case FetchFailed => Retry
      case Points(n) => if n == 0 then Finish(Defer) else Finish(Complete)
  }

  predicate IsCandidate(rows: map<nat, Row>, id: nat, eligible: set<string>, locked: set<nat>, now: int) {
    id in rows && id !in locked && rows[id].instrument in eligible && IsClaimable(rows[id], now)
  }

  ghost predicate NothingToClaim(rows: map<nat, Row>, eligible: set<string>, locked: set<nat>, now: int) {
    forall id <- rows :: !IsCandidate(rows, id, eligible, locked, now)
  }

  /** The first candidate in queue order. */
  ghost predicate IsNext(rows: map<nat, Row>, id: nat, eligible: set<string>, now: int) {
    && IsCandidate(rows, id, eligible, {}, now)
    && (forall other <- rows | IsCandidate(rows, other, eligible, {}, now) ::
       IsBefore(rows[id], id, rows[other], other))
  }

  /** What the clock shows when the n-th job of a pass is claimed, and when it is settled. */
  datatype Clock = Clock(claim: nat -> int, settle: nat -> int) {
    ghost predicate Advances() {
      forall n: nat :: claim(n) <= settle(n) <= claim(n + 1)
    }

    lemma {:induction false} SettlesInOrder(i: nat, j: nat)
      requires Advances() && i <= j
      ensures settle(i) <= settle(j) && claim(i) <= claim(j)
      decreases j
    {
      if i < j {
        SettlesInOrder(i, j - 1);
        assert claim(j - 1) <= settle(j - 1) <= claim(j - 1 + 1);
        assert claim(j) <= settle(j);
      }
    }
  }

  class JobTable {
    var rows: map<nat, Row>
    const maximumAttempts: int

    constructor (maximumAttempts: int)
      ensures rows == map[] && this.maximumAttempts == maximumAttempts
    {
      rows := map[];
      this.maximumAttempts := maximumAttempts;
    }

    /** Take the first claimable row that no other transaction has locked. */
    method ClaimJob(eligible: set<string>, locked: set<nat>, now: int) returns (claim: Option<Claim>)
      modifies this
      ensures claim.None? ==> rows == old(rows) && NothingToClaim(rows, eligible, locked, now)
      ensures claim.Some? ==>
                && IsCandidate(old(rows), claim.value.id, eligible, locked, now)
                && (forall id <- old(rows) | IsCandidate(old(rows), id, eligible, locked, now) ::
                      IsBefore(old(rows)[claim.value.id], claim.value.id, old(rows)[id], id))
                && rows == old(rows)[claim.value.id := Claimed(old(rows)[claim.value.id], now)]
                && claim.value.token == rows[claim.value.id].attempts
    {
      var best: Option<nat> := None;
      var rest := rows.Keys;
      while rest != {}
        invariant rest <= rows.Keys && rows == old(rows)
        invariant best.Some? ==> IsCandidate(rows, best.value, eligible, locked, now)
        invariant forall id <- rows | IsCandidate(rows, id, eligible, locked, now) && id !in rest ::
                    best.Some? && IsBefore(rows[best.value], best.value, rows[id], id)
      {
        var id :| id in rest;
        rest := rest - {id};
        if IsCandidate(rows, id, eligible, locked, now)
          && (best.None? || !IsBefore(rows[best.value], best.value, rows[id], id)) {
          best := Some(id);
        }
      }
      if best.None? {
        return None;
      }
      rows := rows[best.value := Claimed(rows[best.value], now)];
      claim := Some(Claim(best.value, rows[best.value].attempts));
    }

    method RetryJob(id: nat, token: int, now: int)
      modifies this
      ensures rows == if id in old(rows) && IsOwned(old(rows)[id], Some(token))
                      then old(rows)[id := Retried(old(rows)[id], token, maximumAttempts, now)] else old(rows)
    {
      if id in rows && IsOwned(rows[id], Some(token)) {
        rows := rows[id := Retried(rows[id], token, maximumAttempts, now)];
      }
    }

    method FinishJob(id: nat, outcome: Outcome, token: Option<int>, now: int)
      modifies this
      ensures rows == if id in old(rows) && IsOwned(old(rows)[id], token)
                      then old(rows)[id := Finished(old(rows)[id], outcome, now)] else old(rows)
    {
      if id in rows && IsOwned(rows[id], token) {
        rows := rows[id := Finished(rows[id], outcome, now)];
      }
    }

    method RenewJob(id: nat, token: Option<int>, now: int) returns (renewed: bool)
      modifies this
      ensures renewed <==> id in old(rows) && IsOwned(old(rows)[id], token)
      ensures rows == if renewed then old(rows)[id := Renewed(old(rows)[id], now)] else old(rows)
    {
      if id !in rows || !IsOwned(rows[id], token) {
        return false;
      }
      rows := rows[id := Renewed(rows[id], now)];
      renewed := true;
    }

    /** The body of the loop in `process_jobs`: claim a job, find out about it, and settle it later. */
    method ProcessOne(eligible: set<string>, world: World, claimAt: int, settleAt: int) returns (job: Option<nat>)
      modifies this
      ensures job.None? ==> rows == old(rows) && NothingToClaim(rows, eligible, {}, claimAt)
      ensures job.Some? ==>
                && IsNext(old(rows), job.value, eligible, claimAt)
                && rows == old(rows)[job.value := Settled(old(rows)[job.value], SettlementOf(world), maximumAttempts,
                                                          claimAt, settleAt)]
      ensures job.Some? ==>
                && (rows[job.value].status == Completed <==> MayFetch(world) && HasHistory(world))
                && (rows[job.value].status in {Retrying, Failed} <==> MayFetch(world) && WasHindered(world))
                && rows[job.value].status in {Completed, Retrying, Failed, Deferred}
    {
      var claim := ClaimJob(eligible, {}, claimAt);
      if claim.None? {
        return None;
      }
      match SettlementOf(world) {
        case Finish(outcome) => FinishJob(claim.value.id, outcome, Some(claim.value.token), settleAt);
        case Retry => RetryJob(claim.value.id, claim.value.token, settleAt);
      }
      job := Some(claim.value.id);
    }

    /**
     One pass of a worker: claim, find out, settle, at most twenty times, reading the clock for every
     claim and for every settlement.  `order` names the jobs in the order in which it took them.
     */
    method ProcessJobs(eligible: set<string>, maximumJobs: int, worlds: nat -> World, clock: Clock)
      returns (completed: nat, deferred: nat, failed: nat, ghost order: seq<nat>)
      modifies this
      ensures |order| <= Max(1, Min(maximumJobs, 20))
      ensures AreTallies(worlds, |order|, completed, deferred, failed)
      ensures AreCounts(worlds, |order|, completed, deferred, failed)
      ensures IsPass(old(rows), order, eligible, worlds, clock, maximumAttempts)
      ensures rows == PassOver(old(rows), order, worlds, clock, maximumAttempts)
      ensures eligible != {} && |order| < Max(1, Min(maximumJobs, 20))
              ==> NothingToClaim(rows, eligible, {}, clock.claim(|order|))
    {
      completed, deferred, failed, order := 0, 0, 0, [];
      TalliesAreCounts(worlds, 0);
      if eligible == {} {
        return;
      }
      for n := 0 to Max(1, Min(maximumJobs, 20))
        invariant |order| == n
        invariant AreTallies(worlds, n, completed, deferred, failed)
                  && AreCounts(worlds, n, completed, deferred, failed)
        invariant IsPass(old(rows), order, eligible, worlds, clock, maximumAttempts)
        invariant rows == PassOver(old(rows), order, worlds, clock, maximumAttempts)
      {
        var job := ProcessOne(eligible, worlds(n), clock.claim(n), clock.settle(n));
        if job.None? {
          return;
        }
        TalliesGoOn(worlds, n, completed, deferred, failed);
        match SettlementOf(worlds(n)) {
          case Finish(Complete) => completed := completed + 1;
          case Finish(Defer) => deferred := deferred + 1;
          case Retry => failed := failed + 1;
        }
        PassGoesOn(old(rows), order, eligible, worlds, clock, maximumAttempts, job.value);
        order := order + [job.value];
        TalliesAreCounts(worlds, n + 1);
      }
    }
  }

  /** How many of the first n jobs end in this settlement. */
  function Tally(worlds: nat -> World, n: nat, s: Settlement): nat {
    if n == 0 then 0 else Tally(worlds, n - 1, s) + if SettlementOf(worlds(n - 1)) == s then 1 else 0
  }

  ghost predicate AreTallies(worlds: nat -> World, n: nat, completed: nat, deferred: nat, failed: nat) {
    && completed == Tally(worlds, n, Finish(Complete))
    && deferred == Tally(worlds, n, Finish(Defer))
    && failed == Tally(worlds, n, Retry)
  }

  lemma TalliesGoOn(worlds: nat -> World, n: nat, completed: nat, deferred: nat, failed: nat)
    requires AreTallies(worlds, n, completed, deferred, failed)
    ensures match SettlementOf(worlds(n))
            case Finish(Complete) => AreTallies(worlds, n + 1, completed + 1, deferred, failed)
            case Finish(Defer) => AreTallies(worlds, n + 1, completed, deferred + 1, failed)
            case Retry => AreTallies(worlds, n + 1, completed, deferred, failed + 1)
  {
  }

  // ----- how a job ends -------------------------------------------------------------------------------

  /** The job is enabled, and has a provider with the live quote that this provider needs. */
  predicate MayFetch(w: World) {
    && w.featureEnabled && w.instrumentEnabled && w.hasProvider
    && (w.hasLiveQuote || (w.hasIndependentProvider && !w.providerNeedsLiveQuote))
  }

  /** Its lease or its budget was refused, or the fetch raised. */
  predicate WasHindered(w: World) {
    !w.leaseGranted || !w.budgetAllowed || w.history.FetchFailed?
  }

  /** It got its lease and its budget, and the fetch returned at least one point. */
  predicate HasHistory(w: World) {
    w.leaseGranted && w.budgetAllowed && w.history.Points? && w.history.count >= 1
  }

  /** A job is completed, tried again or put off, by what was found out about it. */
  lemma SettlementExactlyWhen(w: World)
    ensures SettlementOf(w) == Finish(Complete) <==> MayFetch(w) && HasHistory(w)
    ensures SettlementOf(w) == Retry <==> MayFetch(w) && WasHindered(w)
    ensures SettlementOf(w) == Finish(Defer) <==> !MayFetch(w) || (!HasHistory(w) && !WasHindered(w))
  {
  }

  /**
   The row a settled job is left with.  It is completed with its history; it is failed or waits fifteen
   minutes when it was hindered, by whether its attempts are used up; otherwise it waits five minutes and
   gets its attempt back.
   */
  lemma SettledRowExactlyWhen(r: Row, w: World, maximumAttempts: int, claimAt: int, settleAt: int)
    requires r.attempts >= 0
    ensures var after := Settled(r, SettlementOf(w), maximumAttempts, claimAt, settleAt);
            && (after.status == Completed <==> MayFetch(w) && HasHistory(w))
            && (after.status == Failed <==> MayFetch(w) && WasHindered(w) && r.attempts + 1 >= maximumAttempts)
            && (after.status == Retrying <==> MayFetch(w) && WasHindered(w) && r.attempts + 1 < maximumAttempts)
            && (after.status == Deferred <==> !MayFetch(w) || (!HasHistory(w) && !WasHindered(w)))
            && after.nextAttemptAt == (if after.status == Retrying then Some(settleAt + 15 * 60)
                                       else if after.status == Deferred then Some(settleAt + 5 * 60) else None)
            && after.attempts == (if after.status == Deferred then r.attempts else r.attempts + 1)
            && after.completedAt == (if after.status == Completed then Some(settleAt)
                                     else if after.status == Deferred then None else r.completedAt)
            && after.updatedAt == settleAt
            && after.instrument == r.instrument && after.priority == r.priority && after.createdAt == r.createdAt
  {
    SettlementExactlyWhen(w);
  }

  /** The jobs among the first n that got their history, and those that were hindered. */
  ghost function Served(worlds: nat -> World, n: nat): set<nat> {
    set k: nat | k < n && MayFetch(worlds(k)) && HasHistory(worlds(k))
  }

  ghost function Hindered(worlds: nat -> World, n: nat): set<nat> {
    set k: nat | k < n && MayFetch(worlds(k)) && WasHindered(worlds(k))
  }

  lemma ServedGrows(worlds: nat -> World, n: nat)
    ensures n !in Served(worlds, n) && n !in Hindered(worlds, n)
    ensures Served(worlds, n + 1)
            == Served(worlds, n) + if SettlementOf(worlds(n)) == Finish(Complete) then {n} else {}
    ensures Hindered(worlds, n + 1) == Hindered(worlds, n) + if SettlementOf(worlds(n)) == Retry then {n} else {}
  {
    SettlementExactlyWhen(worlds(n));
  }

  /** The counts of a pass: the jobs that got their history, the hindered ones, and all others. */
  ghost predicate AreCounts(worlds: nat -> World, n: nat, completed: nat, deferred: nat, failed: nat) {
    completed == |Served(worlds, n)| && failed == |Hindered(worlds, n)| && completed + deferred + failed == n
  }

  /** Each kind of end is counted under its own name. */
  lemma {:induction false} TalliesAreCounts(worlds: nat -> World, n: nat)
    ensures AreCounts(worlds, n, Tally(worlds, n, Finish(Complete)), Tally(worlds, n, Finish(Defer)),
                      Tally(worlds, n, Retry))
  {
    if n > 0 {
      TalliesAreCounts(worlds, n - 1);
      ServedGrows(worlds, n - 1);
    }
  }

  // ----- when a job can be claimed ----------------------------------------------------------------------

  /**
   When a row can be claimed: a new one at once, a deferred one after five minutes, a retried one after
   fifteen, one in progress when it was not renewed for more than ten, a completed or failed one never.
   */
  lemma ClaimableExactlyWhen(r: Row, token: int, maximumAttempts: int, at: int, now: int)
    ensures r.status == Pending && r.nextAttemptAt == None ==> IsClaimable(r, now)
    ensures IsClaimable(Finished(r, Defer, at), now) <==> at + 300 <= now
    ensures token < maximumAttempts ==> (IsClaimable(Retried(r, token, maximumAttempts, at), now) <==> at + 900 <= now)
    ensures maximumAttempts <= token ==> !IsClaimable(Retried(r, token, maximumAttempts, at), now)
    ensures !IsClaimable(Finished(r, Complete, at), now)
    ensures IsClaimable(Claimed(r, at), now) <==> at + 600 < now
    ensures r.status == Processing ==> (IsClaimable(Renewed(r, at), now) <==> at + 600 < now)
  {
  }

  /** The queue is ordered by priority, then age, then id; no two rows share a place. */
  lemma QueueOrder(a: Row, i: nat, b: Row, j: nat)
    ensures a.priority < b.priority ==> IsBefore(a, i, b, j)
    ensures a.priority == b.priority && a.createdAt < b.createdAt ==> IsBefore(a, i, b, j)
    ensures a.priority == b.priority && a.createdAt == b.createdAt && i < j ==> IsBefore(a, i, b, j)
    ensures IsBefore(a, i, b, j) || IsBefore(b, j, a, i)
    ensures i != j ==> !(IsBefore(a, i, b, j) && IsBefore(b, j, a, i))
  {
  }

  // ----- one pass -------------------------------------------------------------------------------

  /** The row of a job that was claimed and then settled by its holder. */
  function Settled(r: Row, s: Settlement, maximumAttempts: int, claimAt: int, settleAt: int): Row {
    var claimed := Claimed(r, claimAt);
    match s
    case Finish(outcome) => Finished(claimed, outcome, settleAt)
    case Retry => Retried(claimed, claimed.attempts, maximumAttempts, settleAt)
  }

  /** The table after the jobs in `order` have been claimed and settled, one after the other. */
  function PassOver(
    rows: map<nat, Row>, order: seq<nat>, worlds: nat -> World, clock: Clock, maximumAttempts: int): map<nat, Row> {
    if order == [] then rows else
      var n := |order| - 1;
      var before, id := PassOver(rows, order[..n], worlds, clock, maximumAttempts), order[n];
      if id in before
      then before[id := Settled(before[id], SettlementOf(worlds(n)), maximumAttempts, clock.claim(n), clock.settle(n))]
      else before
  }

  /** Every job was the first in the queue when it was claimed. */
  ghost predicate IsPass(
    rows: map<nat, Row>, order: seq<nat>, eligible: set<string>, worlds: nat -> World, clock: Clock,
    maximumAttempts: int)
  {
    forall n {:trigger order[n]} | 0 <= n < |order| ::
      IsNext(PassOver(rows, order[..n], worlds, clock, maximumAttempts), order[n], eligible, clock.claim(n))
  }

  lemma PassGoesOn(
    rows: map<nat, Row>, order: seq<nat>, eligible: set<string>, worlds: nat -> World, clock: Clock,
    maximumAttempts: int, id: nat)
    requires IsPass(rows, order, eligible, worlds, clock, maximumAttempts)
    requires IsNext(PassOver(rows, order, worlds, clock, maximumAttempts), id, eligible, clock.claim(|order|))
    ensures IsPass(rows, order + [id], eligible, worlds, clock, maximumAttempts)
    ensures PassOver(rows, (order + [id])[..|order|], worlds, clock, maximumAttempts)
            == PassOver(rows, order, worlds, clock, maximumAttempts)
  {
    assert (order + [id])[..|order|] == order;
    forall n | 0 <= n < |order + [id]|
      ensures IsNext(PassOver(rows, (order + [id])[..n], worlds, clock, maximumAttempts), (order + [id])[n], eligible,
                     clock.claim(n))
    {
      if n < |order| {
        assert (order + [id])[..n] == order[..n] && (order + [id])[n] == order[n];
      }
    }
  }

  lemma PassBefore(
    rows: map<nat, Row>, order: seq<nat>, eligible: set<string>, worlds: nat -> World, clock: Clock,
    maximumAttempts: int, n: nat)
    requires IsPass(rows, order, eligible, worlds, clock, maximumAttempts) && n < |order|
    ensures IsPass(rows, order[..n], eligible, worlds, clock, maximumAttempts)
    ensures IsNext(PassOver(rows, order[..n], worlds, clock, maximumAttempts), order[n], eligible, clock.claim(n))
  {
    forall k | 0 <= k < n
      ensures IsNext(PassOver(rows, order[..n][..k], worlds, clock, maximumAttempts), order[..n][k], eligible,
                     clock.claim(k))
    {
      assert order[..n][..k] == order[..k] && order[..n][k] == order[k];
    }
  }

  /** How often a pass settles this job otherwise than by deferring it. */
  function Spent(order: seq<nat>, worlds: nat -> World, id: nat): nat {
    if order == [] then 0 else
      var n := |order| - 1;
      Spent(order[..n], worlds, id) + if order[n] == id && SettlementOf(worlds(n)) != Finish(Defer) then 1 else 0
  }

  /** What a pass does to one job, whatever the clock does. */
  ghost predicate IsSettledRow(before: Row, after: Row, spent: nat) {
    && (before.status in {Completed, Failed} ==> after == before)
    && (after == before || !after.status.Processing?)
    && (0 <= before.attempts ==> after.attempts == before.attempts + spent)
  }

  /**
   A pass never touches a job that is completed or failed, leaves none of its jobs in progress, and
   raises the attempt count of a job by the number of times it settled it otherwise than by deferral.
   */
  lemma {:induction false} PassSettles(
    rows: map<nat, Row>, order: seq<nat>, eligible: set<string>, worlds: nat -> World, clock: Clock,
    maximumAttempts: int, id: nat)
    requires IsPass(rows, order, eligible, worlds, clock, maximumAttempts) && id in rows
    ensures PassOver(rows, order, worlds, clock, maximumAttempts).Keys == rows.Keys
    ensures IsSettledRow(rows[id], PassOver(rows, order, worlds, clock, maximumAttempts)[id], Spent(order, worlds, id))
    decreases |order|
  {
    if order != [] {
      var n := |order| - 1;
      PassBefore(rows, order, eligible, worlds, clock, maximumAttempts, n);
      PassSettles(rows, order[..n], eligible, worlds, clock, maximumAttempts, id);
      SettlingCounts(rows[id], PassOver(rows, order[..n], worlds, clock, maximumAttempts)[id],
                     Spent(order[..n], worlds, id),
                     SettlementOf(worlds(n)), maximumAttempts, clock.claim(n), clock.settle(n));
    }
  }

  lemma SettlingCounts(
    before: Row, r: Row, spent: nat, s: Settlement, maximumAttempts: int, claimAt: int, settleAt: int)
    requires IsSettledRow(before, r, spent)
    ensures IsClaimable(r, claimAt) ==>
              IsSettledRow(before, Settled(r, s, maximumAttempts, claimAt, settleAt),
                           spent + if s == Finish(Defer) then 0 else 1)
  {
  }

  // ----- when a pass settles a job twice -----------------------------------------------------------

  /** The job is over, or cannot be claimed before this instant. */
  predicate IsDelayed(r: Row, until: int) {
    || r.status in {Completed, Failed}
    || (r.status in {Retrying, Deferred} && r.nextAttemptAt.Some? && until <= r.nextAttemptAt.value)
  }

  lemma SettledIsDelayed(r: Row, s: Settlement, maximumAttempts: int, claimAt: int, settleAt: int)
    ensures IsDelayed(Settled(r, s, maximumAttempts, claimAt, settleAt), settleAt + DEFER_DELAY_SECONDS)
  {
  }

  lemma {:induction false} StaysDelayed(
    rows: map<nat, Row>, order: seq<nat>, worlds: nat -> World, clock: Clock, maximumAttempts: int, i: nat)
    requires clock.Advances() && i < |order| && order[i] in PassOver(rows, order, worlds, clock, maximumAttempts)
    ensures IsDelayed(PassOver(rows, order, worlds, clock, maximumAttempts)[order[i]],
                      clock.settle(i) + DEFER_DELAY_SECONDS)
    decreases |order|
  {
    var n := |order| - 1;
    var before := PassOver(rows, order[..n], worlds, clock, maximumAttempts);
    if order[n] == order[i] {
      clock.SettlesInOrder(i, n);
      if order[n] in before {
        SettledIsDelayed(before[order[n]], SettlementOf(worlds(n)), maximumAttempts, clock.claim(n), clock.settle(n));
      }
    } else {
      StaysDelayed(rows, order[..n], worlds, clock, maximumAttempts, i);
    }
  }

  /**
   A job that is settled twice in one pass is claimed again no sooner than the shortest delay
   after it was settled.
   */
  lemma RepeatsAreApart(
    rows: map<nat, Row>, order: seq<nat>, eligible: set<string>, worlds: nat -> World, clock: Clock,
    maximumAttempts: int, i: nat, j: nat)
    requires clock.Advances() && IsPass(rows, order, eligible, worlds, clock, maximumAttempts)
    requires i < j < |order| && order[i] == order[j]
    ensures clock.settle(i) + DEFER_DELAY_SECONDS <= clock.claim(j)
  {
    PassBefore(rows, order, eligible, worlds, clock, maximumAttempts, j);
    assert order[..j][i] == order[i];
    StaysDelayed(rows, order[..j], worlds, clock, maximumAttempts, i);
  }

  /** No pass of up to n jobs over any table, with any findings, settles a job twice. */
  ghost predicate PassesAreDistinct(clock: Clock, n: nat) {
    forall rows: map<nat, Row>, order: seq<nat>, eligible: set<string>, worlds: nat -> World, maximumAttempts: int
      | |order| <= n && IsPass(rows, order, eligible, worlds, clock, maximumAttempts) :: AreDistinct(order)
  }

  ghost predicate AreDistinct(order: seq<nat>) {
    forall i, j :: 0 <= i < j < |order| ==> order[i] != order[j]
  }

  /** k new jobs of falling priority, for one instrument. */
  function NewJobs(k: nat): map<nat, Row> {
    map i: nat | i < k :: Row("", i, 0, Pending, 0, None, 0, None)
  }

  function Upto(k: nat): (order: seq<nat>)
    ensures |order| == k && forall i | 0 <= i < k :: order[i] == i
  {
    seq(k, i requires 0 <= i => i)
  }

  /** Findings that make every job be deferred. */
  const NOTHING_ENABLED: World := World(false, false, false, false, false, false, false, false, FetchFailed)

  function Nothing(n: nat): World {
    NOTHING_ENABLED
  }

  /** The first n of these jobs have been deferred. */
  ghost predicate AreDeferred(rows: map<nat, Row>, k: nat, n: nat, clock: Clock) {
    && rows.Keys == NewJobs(k).Keys
    && (forall i: nat | i < k ::
          && rows[i].instrument == "" && rows[i].priority == i && rows[i].createdAt == 0
          && if i < n then rows[i].status.Deferred?
             && rows[i].nextAttemptAt == Some(clock.settle(i) + DEFER_DELAY_SECONDS)
             else rows[i].status.Pending? && rows[i].nextAttemptAt.None?)
  }

  lemma {:induction false} DeferAll(k: nat, n: nat, clock: Clock, maximumAttempts: int)
    requires n <= k
    ensures AreDeferred(PassOver(NewJobs(k), Upto(n), Nothing, clock, maximumAttempts), k, n, clock)
  {
    if n > 0 {
      DeferAll(k, n - 1, clock, maximumAttempts);
      assert Upto(n)[..n - 1] == Upto(n - 1);
      DeferOne(PassOver(NewJobs(k), Upto(n - 1), Nothing, clock, maximumAttempts), k, n - 1, clock, maximumAttempts);
    }
  }

  lemma DeferOne(rows: map<nat, Row>, k: nat, n: nat, clock: Clock, maximumAttempts: int)
    requires n < k && AreDeferred(rows, k, n, clock)
    ensures n in rows
    ensures AreDeferred(rows[n := Settled(rows[n], Finish(Defer), maximumAttempts, clock.claim(n), clock.settle(n))], k,
                        n + 1, clock)
  {
    assert n in NewJobs(k);
  }

  /** While the first job is still delayed, the next new job is first in the queue. */
  lemma NewJobIsNext(rows: map<nat, Row>, k: nat, n: nat, clock: Clock)
    requires clock.Advances() && n < k && AreDeferred(rows, k, n, clock)
             && clock.claim(n) < clock.settle(0) + DEFER_DELAY_SECONDS
    ensures IsNext(rows, n, {""}, clock.claim(n))
  {
    forall other <- rows | IsCandidate(rows, other, {""}, {}, clock.claim(n))
      ensures IsBefore(rows[n], n, rows[other], other) {
      assert other < k;
      clock.SettlesInOrder(0, other);
    }
  }

  /** Once it is not, the first job is first again. */
  lemma FirstJobIsNext(rows: map<nat, Row>, k: nat, clock: Clock)
    requires k > 0 && AreDeferred(rows, k, k, clock) && clock.settle(0) + DEFER_DELAY_SECONDS <= clock.claim(k)
    ensures IsNext(rows, 0, {""}, clock.claim(k))
  {
    assert 0 in NewJobs(k);
    forall other <- rows ensures IsBefore(rows[0], 0, rows[other], other) {
      assert other < k;
    }
  }

  /** A pass over k jobs that comes back to the first one as soon as its delay is over. */
  lemma PassComesBack(k: nat, clock: Clock, maximumAttempts: int)
    requires clock.Advances() && k > 0 && clock.settle(0) + DEFER_DELAY_SECONDS <= clock.claim(k)
    requires forall n: nat | n < k :: clock.claim(n) < clock.settle(0) + DEFER_DELAY_SECONDS
    ensures IsPass(NewJobs(k), Upto(k) + [0], {""}, Nothing, clock, maximumAttempts)
  {
    forall n | 0 <= n < k
      ensures IsNext(PassOver(NewJobs(k), Upto(k)[..n], Nothing, clock, maximumAttempts), Upto(k)[n], {""},
                     clock.claim(n))
    {
      DeferAll(k, n, clock, maximumAttempts);
      assert Upto(k)[..n] == Upto(n);
      NewJobIsNext(PassOver(NewJobs(k), Upto(n), Nothing, clock, maximumAttempts), k, n, clock);
    }
    DeferAll(k, k, clock, maximumAttempts);
    FirstJobIsNext(PassOver(NewJobs(k), Upto(k), Nothing, clock, maximumAttempts), k, clock);
    PassGoesOn(NewJobs(k), Upto(k), {""}, Nothing, clock, maximumAttempts, 0);
  }

  /** The first claim that comes after the delay. */
  lemma {:induction false} FirstLateClaim(clock: Clock, n: nat, until: int) returns (k: nat)
    requires until <= clock.claim(n)
    ensures k <= n && until <= clock.claim(k) && forall i: nat | i < k :: clock.claim(i) < until
  {
    k := 0;
    while k < n && clock.claim(k) < until
      invariant k <= n && forall i: nat | i < k :: clock.claim(i) < until
    {
      k := k + 1;
    }
  }

  lemma ShortPassesAreDistinct(clock: Clock, n: nat)
    requires clock.Advances() && n >= 1 && clock.claim(n - 1) < clock.settle(0) + DEFER_DELAY_SECONDS
    ensures PassesAreDistinct(clock, n)
  {
    forall rows: map<nat, Row>, order: seq<nat>, eligible: set<string>, worlds: nat -> World, maximumAttempts: int
      | |order| <= n && IsPass(rows, order, eligible, worlds, clock, maximumAttempts) ensures AreDistinct(order)
    {
      ShortPassIsDistinct(rows, order, eligible, worlds, clock, maximumAttempts, n);
    }
  }

  lemma LongPassMayRepeat(clock: Clock, n: nat) returns (k: nat, order: seq<nat>)
    requires clock.Advances() && n >= 1 && clock.settle(0) + DEFER_DELAY_SECONDS <= clock.claim(n - 1)
    ensures |order| <= n && IsPass(NewJobs(k), order, {""}, Nothing, clock, 1) && !AreDistinct(order)
  {
    k := FirstLateClaim(clock, n - 1, clock.settle(0) + DEFER_DELAY_SECONDS);
    assert clock.claim(0) <= clock.settle(0);
    PassComesBack(k, clock, 1);
    order := Upto(k) + [0];
    assert order[0] == order[k];
  }

  /**
   A pass settles different jobs, whatever it finds, exactly as long as its last claim comes before the
   shortest delay has passed since its first settlement.
   */
  lemma PassesAreDistinctExactlyWhen(clock: Clock, n: nat)
    requires clock.Advances() && n >= 1
    ensures PassesAreDistinct(clock, n) <==> clock.claim(n - 1) < clock.settle(0) + DEFER_DELAY_SECONDS
  {
    if clock.claim(n - 1) < clock.settle(0) + DEFER_DELAY_SECONDS {
      ShortPassesAreDistinct(clock, n);
    } else {
      var k, order := LongPassMayRepeat(clock, n);
    }
  }

  lemma ShortPassIsDistinct(
    rows: map<nat, Row>, order: seq<nat>, eligible: set<string>, worlds: nat -> World, clock: Clock,
    maximumAttempts: int, n: nat)
    requires clock.Advances() && n >= 1 && clock.claim(n - 1) < clock.settle(0) + DEFER_DELAY_SECONDS
    requires |order| <= n && IsPass(rows, order, eligible, worlds, clock, maximumAttempts)
    ensures AreDistinct(order)
  {
    forall i, j | 0 <= i < j < |order| ensures order[i] != order[j] {
      clock.SettlesInOrder(0, i);
      clock.SettlesInOrder(j, n - 1);
      if order[i] == order[j] {
        RepeatsAreApart(rows, order, eligible, worlds, clock, maximumAttempts, i, j);
      }
    }
  }

  /** A clock that shows a new instant every five minutes. */
  function FiveMinutesApart(): Clock {
    Clock((n: nat) => n * DEFER_DELAY_SECONDS, (n: nat) => n * DEFER_DELAY_SECONDS)
  }

  /** A pass of two that settles one and the same job twice: deferred at once, and claimed again five minutes later. */
  lemma PassMaySettleTwice(maximumAttempts: int)
    ensures FiveMinutesApart().Advances()
    ensures IsPass(NewJobs(1), [0, 0], {""}, Nothing, FiveMinutesApart(), maximumAttempts)
  {
    PassComesBack(1, FiveMinutesApart(), maximumAttempts);
    assert Upto(1) + [0] == [0, 0];
  }
}

/**
 One job and everybody who ever claimed it: claims, reclaims of abandoned claims, renewals and
 settlements by any claimant, in any order and at any time.
 */
module BackfillFencing {
  import opened Wrappers
  import opened BackfillJobs

  /** A claim as its holder remembers it, and whether the holder has settled it. */
  datatype Holder = Holder(token: int, settled: bool)

  datatype State = State(row: Row, holders: seq<Holder>, retries: nat, abandoned: nat)

  datatype Action =
    | Claiming(now: int)
    | Renewing(holder: nat, now: int)
    | RetryingBy(holder: nat, now: int)
    | FinishingBy(holder: nat, outcome: Outcome, now: int)

  predicate IsNew(r: Row) {
    r.status.Pending? && r.attempts == 0 && r.nextAttemptAt.None?
  }

  /** A holder acts until it has settled its claim once. */
  predicate Enabled(s: State, a: Action) {
    match a
    case Claiming(now) => IsClaimable(s.row, now)
    case Renewing(h, _) => h < |s.holders| && !s.holders[h].settled
    case RetryingBy(h, _) => h < |s.holders| && !s.holders[h].settled
    case FinishingBy(h, _, _) => h < |s.holders| && !s.holders[h].settled
  }

  predicate Owns(s: State, h: nat)
    requires h < |s.holders|
  {
    IsOwned(s.row, Some(s.holders[h].token))
  }

  function Step(s: State, a: Action, maximumAttempts: int): State
    requires Enabled(s, a)
  {
    match a
    case Claiming(now) =>
      var row := Claimed(s.row, now);
      State(row, s.holders + [Holder(row.attempts, false)], s.retries,
            s.abandoned + if s.row.status.Processing? then 1 else 0)
    case Renewing(h, now) =>
      if Owns(s, h) then s.(row := Renewed(s.row, now)) else s
    case RetryingBy(h, now) =>
      var settled := s.(holders := s.holders[h := s.holders[h].(settled := true)]);
      if Owns(s, h)
      then settled.(row := Retried(s.row, s.holders[h].token, maximumAttempts, now), retries := s.retries + 1)
      else settled
    case FinishingBy(h, outcome, now) =>
      var settled := s.(holders := s.holders[h := s.holders[h].(settled := true)]);
      if Owns(s, h) then settled.(row := Finished(s.row, outcome, now)) else settled
  }

  function After(start: Row, actions: seq<Action>, maximumAttempts: int): Option<State> {
    if actions == [] then Some(State(start, [], 0, 0)) else
      var before := After(start, actions[..|actions| - 1], maximumAttempts);
      if before.Some? && Enabled(before.value, actions[|actions| - 1])
      then Some(Step(before.value, actions[|actions| - 1], maximumAttempts)) else None
  }

  // ----- the invariant ------------------------------------------------------------------------

  function InProgressOrDone(r: Row): nat {
    if r.status in {Processing, Completed} then 1 else 0
  }

  /** The fence separates: an older holder that may still act has a smaller token than the row. */
  ghost predicate FenceInv(s: State) {
    && (s.row.status.Processing? ==>
          var last := |s.holders| - 1;
          last >= 0 && !s.holders[last].settled && s.holders[last].token == s.row.attempts)
    && (forall h | 0 <= h < |s.holders| && !s.holders[h].settled ::
          if s.row.status.Processing? then h == |s.holders| - 1 || s.holders[h].token < s.row.attempts
          else s.holders[h].token <= s.row.attempts)
  }

  ghost predicate Inv(s: State, maximumAttempts: int) {
    && FenceInv(s)
    && s.row.attempts == s.retries + s.abandoned + InProgressOrDone(s.row)
    && (if s.row.status.Failed? then s.retries <= maximumAttempts else s.retries < maximumAttempts)
  }

  /** Only the most recent holder owns the row. */
  lemma OnlyTheLatestOwns(s: State, h: nat)
    requires FenceInv(s) && h < |s.holders| && !s.holders[h].settled && Owns(s, h)
    ensures h == |s.holders| - 1
  {
  }

  lemma StepKeepsInv(s: State, a: Action, maximumAttempts: int)
    requires Inv(s, maximumAttempts) && Enabled(s, a) && maximumAttempts >= 1
    ensures Inv(Step(s, a, maximumAttempts), maximumAttempts)
  {
  }

  /**
   In every run: `attempt_count` is the number of retries and abandoned claims, plus one while the
   job is in progress or once it is completed, and a job sees at most `maximum_attempts` retries.
   */
  lemma {:induction false} EveryRunConservesAttempts(start: Row, actions: seq<Action>, maximumAttempts: int)
    requires IsNew(start) && maximumAttempts >= 1 && After(start, actions, maximumAttempts).Some?
    ensures Inv(After(start, actions, maximumAttempts).value, maximumAttempts)
  {
    if actions != [] {
      var n := |actions| - 1;
      EveryRunConservesAttempts(start, actions[..n], maximumAttempts);
      StepKeepsInv(After(start, actions[..n], maximumAttempts).value, actions[n], maximumAttempts);
    }
  }

  predicate IsByHolder(a: Action) {
    !a.Claiming?
  }

  /** Fencing: in every run, a holder that changes the row is the one that claimed it last. */
  lemma FencingIsSound(start: Row, actions: seq<Action>, a: Action, maximumAttempts: int)
    requires IsNew(start) && maximumAttempts >= 1 && After(start, actions, maximumAttempts).Some?
    requires Enabled(After(start, actions, maximumAttempts).value, a) && IsByHolder(a)
    ensures var s := After(start, actions, maximumAttempts).value;
            Step(s, a, maximumAttempts).row != s.row ==> a.holder == |s.holders| - 1
  {
    EveryRunConservesAttempts(start, actions, maximumAttempts);
    var s := After(start, actions, maximumAttempts).value;
    if Owns(s, a.holder) {
      OnlyTheLatestOwns(s, a.holder);
    }
  }

  /** A completed or failed job never changes again, whatever is tried. */
  lemma {:induction false} TerminalIsForever(start: Row, actions: seq<Action>, more: seq<Action>, maximumAttempts: int)
    requires After(start, actions, maximumAttempts).Some? && After(start, actions + more, maximumAttempts).Some?
    requires After(start, actions, maximumAttempts).value.row.status in {Completed, Failed}
    ensures After(start, actions + more, maximumAttempts).value.row == After(start, actions, maximumAttempts).value.row
  {
    if more == [] {
      assert actions + more == actions;
    } else {
      var n := |more| - 1;
      assert (actions + more)[..|actions + more| - 1] == actions + more[..n];
      TerminalIsForever(start, actions, more[..n], maximumAttempts);
    }
  }

  // ----- what the fence does not do -----------------------------------------------------------

  /**
   Settling at most once is needed.  Deferral takes the attempt back, so the next holder gets the
   same token, and a holder that has already settled would still pass the fence.
   */
  lemma SecondSettlementWouldPass(start: Row, maximumAttempts: int)
    returns (actions: seq<Action>)
    requires IsNew(start)
    ensures After(start, actions, maximumAttempts).Some?
    ensures var s := After(start, actions, maximumAttempts).value;
            |s.holders| == 2 && s.holders[0].settled && Owns(s, 0)
  {
    var first, second, third := Claiming(0), FinishingBy(0, Defer, 0), Claiming(DEFER_DELAY_SECONDS);
    actions := [first, second, third];
    assert actions[..2] == [first, second] && [first, second][..1] == [first] && [first][..0] == [];
    assert After(start, [], maximumAttempts) == Some(State(start, [], 0, 0));
    assert After(start, [first], maximumAttempts).Some?;
    assert After(start, [first, second], maximumAttempts).Some?;
  }

  /** Instants far enough apart for every earlier claim to count as abandoned. */
  function ReclaimTime(n: nat): int {
    if n == 0 then 0 else ReclaimTime(n - 1) + ABANDONED_AFTER_SECONDS + 1
  }

  function Reclaims(n: nat): (actions: seq<Action>)
    ensures |actions| == n
  {
    if n == 0 then [] else Reclaims(n - 1) + [Claiming(ReclaimTime(n - 1))]
  }

  /** The attempt limit does not bound reclaims: a job whose workers keep dying is claimed any number of times. */
  lemma {:induction false} ReclaimsAreUnbounded(start: Row, n: nat, maximumAttempts: int)
    requires IsNew(start)
    ensures var s := After(start, Reclaims(n), maximumAttempts);
            && s.Some? && |s.value.holders| == n
            && (n == 0 ==> s.value.row == start)
            && (n > 0 ==> s.value.row.status.Processing? && s.value.row.updatedAt == ReclaimTime(n - 1))
  {
    if n > 0 {
      ReclaimsAreUnbounded(start, n - 1, maximumAttempts);
      assert Reclaims(n)[..n - 1] == Reclaims(n - 1);
      assert IsClaimable(After(start, Reclaims(n - 1), maximumAttempts).value.row, ReclaimTime(n - 1));
    }
  }
}
