/** Redis leases (locks.py).  Instants are in milliseconds; `uuid4` tokens are numbers never issued twice. */
module Leases {
  import opened Wrappers

  datatype Holding = Holding(owner: nat, expiresAt: int)

  type Store = map<string, Holding>

  datatype Lease = Lease(key: string, owner: nat, ttl: int)

  const MINIMUM_TTL := 1000

  /** What `GET` answers: an expired key is gone. */
  function OwnerAt(store: Store, key: string, now: int): Option<nat> {
    if key in store && now < store[key].expiresAt then Some(store[key].owner) else None
  }

  /** `SET key owner NX PX ttl`. */
  function Acquired(store: Store, key: string, owner: nat, ttl: int, now: int): Store {
    if OwnerAt(store, key, now).None? then store[key := Holding(owner, now + ttl)] else store
  }

  /** Compare and delete. */
  function Released(store: Store, lease: Lease, now: int): Store {
    if OwnerAt(store, lease.key, now) == Some(lease.owner) then store - {lease.key} else store
  }

  /** `ttl_ms or lease.ttl_ms`. */
  function Extension(lease: Lease, ttl: Option<int>): int {
    if ttl.Some? && ttl.value != 0 then ttl.value else lease.ttl
  }

  /** Compare and set the expiry; one that is not in the future deletes the key. */
  function Extended(store: Store, lease: Lease, ttl: Option<int>, now: int): Store {
    if OwnerAt(store, lease.key, now) != Some(lease.owner) then store
    else if Extension(lease, ttl) <= 0 then store - {lease.key}
    else store[lease.key := Holding(lease.owner, now + Extension(lease, ttl))]
  }

  class DistributedPricingLocks {
    var store: Store
    var issued: nat

    constructor ()
      ensures store == map[] && issued == 0
    {
      store, issued := map[], 0;
    }

    method Acquire(key: string, ttl: int, now: int) returns (r: Result<Option<Lease>, string>)
      modifies this
      ensures ttl < 1000 ==> r.Failure? && store == old(store) && issued == old(issued)
      ensures ttl >= 1000 ==>
                && r.Success? && issued == old(issued) + 1
                && store == Acquired(old(store), key, old(issued), ttl, now)
                && r.value == if OwnerAt(old(store), key, now).None? then Some(Lease(key, old(issued), ttl)) else None
    {
      if ttl < MINIMUM_TTL {
        return Failure("Lock TTL must be at least one second");
      }
      var owner := issued;
      issued := issued + 1;
      if OwnerAt(store, key, now).Some? {
        return Success(None);
      }
      store := store[key := Holding(owner, now + ttl)];
      r := Success(Some(Lease(key, owner, ttl)));
    }

    method Release(lease: Lease, now: int) returns (released: bool)
      modifies this
      ensures released <==> OwnerAt(old(store), lease.key, now) == Some(lease.owner)
      ensures store == Released(old(store), lease, now) && issued == old(issued)
    {
      released := OwnerAt(store, lease.key, now) == Some(lease.owner);
      if released {
        store := store - {lease.key};
      }
    }

    method Extend(lease: Lease, ttl: Option<int>, now: int) returns (extended: bool)
      modifies this
      ensures extended <==> OwnerAt(old(store), lease.key, now) == Some(lease.owner)
      ensures store == Extended(old(store), lease, ttl, now) && issued == old(issued)
    {
      extended := OwnerAt(store, lease.key, now) == Some(lease.owner);
      if extended {
        var extension := Extension(lease, ttl);
        if extension <= 0 {
          store := store - {lease.key};
        } else {
          store := store[lease.key := Holding(lease.owner, now + extension)];
        }
      }
    }
  }

  // ----- runs ---------------------------------------------------------------------------------

  datatype Action =
    | Acquiring(key: string, ttl: int, time: int)
    | Releasing(lease: Lease, time: int)
    | Extending(lease: Lease, extension: Option<int>, time: int)

  datatype State = State(store: Store, issued: nat, clock: int)

  function Step(s: State, a: Action): State
    requires s.clock <= a.time
  {
    match a
    case Acquiring(key, ttl, t) =>
      if ttl < MINIMUM_TTL then s.(clock := t) else State(Acquired(s.store, key, s.issued, ttl, t), s.issued + 1, t)
    case Releasing(lease, t) => State(Released(s.store, lease, t), s.issued, t)
    case Extending(lease, extension, t) => State(Extended(s.store, lease, extension, t), s.issued, t)
  }

  /** The state after actions whose clock never runs backwards. */
  function After(start: State, actions: seq<Action>): Option<State> {
    if actions == [] then Some(start) else
      var before := After(start, actions[..|actions| - 1]);
      if before.Some? && before.value.clock <= actions[|actions| - 1].time
      then Some(Step(before.value, actions[|actions| - 1])) else None
  }

  /** A token that was issued earlier and is seen after a step was there before the step, at every instant since. */
  lemma SeenBefore(s: State, a: Action, key: string, owner: nat, earlier: int, now: int)
    requires s.clock <= earlier <= a.time <= now && owner < s.issued
    requires OwnerAt(Step(s, a).store, key, now) == Some(owner)
    ensures OwnerAt(s.store, key, earlier) == Some(owner)
    ensures OwnerAt(s.store, key, a.time) == Some(owner)
  {
  }

  lemma {:induction false} ClockAndTokensGrow(start: State, actions: seq<Action>)
    requires After(start, actions).Some?
    ensures start.clock <= After(start, actions).value.clock && start.issued <= After(start, actions).value.issued
    ensures forall j | 0 <= j <= |actions| :: After(start, actions[..j]).Some?
  {
    if actions != [] {
      var n := |actions| - 1;
      ClockAndTokensGrow(start, actions[..n]);
      forall j | 0 <= j <= |actions| ensures After(start, actions[..j]).Some? {
        if j <= n {
          assert actions[..n][..j] == actions[..j];
        } else {
          assert actions[..j] == actions;
        }
      }
    }
  }

  /** The end of the stretch of time that follows the first j actions. */
  function Until(actions: seq<Action>, j: nat, now: int): int
    requires j <= |actions|
  {
    if j < |actions| then actions[j].time else now
  }

  /**
   Lease continuity: if an owner still holds the key, which is what a successful `extend` sees, then it
   has held it at every instant since it got it, so nobody else did in between.
   */
  lemma {:induction false} LeaseIsContinuous(
    start: State, actions: seq<Action>, key: string, owner: nat, now: int, j: nat, instant: int)
    requires After(start, actions).Some? && After(start, actions).value.clock <= now
    requires owner < start.issued
    requires OwnerAt(After(start, actions).value.store, key, now) == Some(owner)
    requires j <= |actions| && After(start, actions[..j]).Some?
    requires After(start, actions[..j]).value.clock <= instant <= Until(actions, j, now)
    ensures OwnerAt(After(start, actions[..j]).value.store, key, instant) == Some(owner)
    decreases |actions| - j
  {
    if j == |actions| {
      assert actions[..j] == actions;
    } else {
      ClockAndTokensGrow(start, actions);
      assert actions[..j + 1][..j] == actions[..j];
      var s := After(start, actions[..j]).value;
      ClockAndTokensGrow(start, actions[..j]);
      assert After(start, actions[..j + 1]) == Some(Step(s, actions[j]));
      if j + 1 < |actions| {
        assert actions[..j + 2][..j + 1] == actions[..j + 1] && After(start, actions[..j + 2]).Some?;
      } else {
        assert actions[..j + 1] == actions;
      }
      LeaseIsContinuous(start, actions, key, owner, now, j + 1, actions[j].time);
      SeenBefore(s, actions[j], key, owner, instant, actions[j].time);
    }
  }

  /** From the acquiring step on: a later successful `extend` proves that the lease was never lost. */
  lemma ExtendProvesContinuity(
    s: State, key: string, ttl: int, t: int, actions: seq<Action>, now: int, j: nat, instant: int)
    requires s.clock <= t && ttl >= MINIMUM_TTL && OwnerAt(s.store, key, t).None?
    requires var start := Step(s, Acquiring(key, ttl, t));
             && After(start, actions).Some? && After(start, actions).value.clock <= now
             && OwnerAt(After(start, actions).value.store, key, now) == Some(s.issued)
             && j <= |actions| && After(start, actions[..j]).Some?
             && After(start, actions[..j]).value.clock <= instant <= Until(actions, j, now)
    ensures OwnerAt(After(Step(s, Acquiring(key, ttl, t)), actions[..j]).value.store, key, instant) == Some(s.issued)
  {
    LeaseIsContinuous(Step(s, Acquiring(key, ttl, t)), actions, key, s.issued, now, j, instant);
  }

  /** Whose lease an action can end before its time. */
  predicate ActsFor(a: Action, owner: nat) {
    (a.Releasing? || a.Extending?) && a.lease.owner == owner
  }

  /** Nobody ends or takes over another owner's lease: not by a late release, an extension or an acquisition. */
  lemma OthersCannotInterfere(s: State, a: Action, key: string, owner: nat)
    requires s.clock <= a.time && OwnerAt(s.store, key, a.time) == Some(owner) && !ActsFor(a, owner)
    ensures Step(s, a).store[key := s.store[key]] == Step(s, a).store && key in Step(s, a).store
    ensures OwnerAt(Step(s, a).store, key, a.time) == Some(owner)
  {
  }

  // ----- how long a lease lasts -----------------------------------------------------------------------

  /** An acquired key shows its owner from then on for exactly the lease's time. */
  lemma AcquiredLasts(store: Store, key: string, owner: nat, ttl: int, now: int, later: int)
    requires OwnerAt(store, key, now).None? && now <= later
    ensures OwnerAt(Acquired(store, key, owner, ttl, now), key, later)
            == if later < now + ttl then Some(owner) else None
  {
  }

  /**
   A successful extension starts the lease's time anew: with the given time, or with the lease's own if
   none, or zero, is given.  Nothing changes for anybody but the holder, nor for any other key.
   */
  lemma ExtendedLasts(store: Store, lease: Lease, ttl: Option<int>, now: int, later: int, other: string)
    requires now <= later
    ensures var time := if ttl == None || ttl == Some(0) then lease.ttl else ttl.value;
            var after := Extended(store, lease, ttl, now);
            && (OwnerAt(store, lease.key, now) == Some(lease.owner) ==>
                  OwnerAt(after, lease.key, later) == if later < now + time then Some(lease.owner) else None)
            && (OwnerAt(store, lease.key, now) != Some(lease.owner) ==> after == store)
            && (other != lease.key ==> OwnerAt(after, other, later) == OwnerAt(store, other, later))
  {
  }

  /** A released key is free at once. */
  lemma ReleasedIsFree(store: Store, lease: Lease, now: int, later: int, other: string)
    requires now <= later
    ensures var after := Released(store, lease, now);
            && (OwnerAt(store, lease.key, now) == Some(lease.owner) ==> OwnerAt(after, lease.key, later) == None)
            && (OwnerAt(store, lease.key, now) != Some(lease.owner) ==> after == store)
            && (other != lease.key ==> OwnerAt(after, other, later) == OwnerAt(store, other, later))
  {
  }
}
