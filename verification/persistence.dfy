/** What a canonical quote looks like in the database, written directly or replayed from the outbox (persistence.py). */
module Persistence {
  import opened Wrappers
  import opened Freshness
  import opened Models
  import opened Refresh

  const REASON_COLUMN := 240

  /** The stored columns that depend on the quote. */
  datatype CanonicalRow = CanonicalRow(
    instrumentId: InstrumentId, price: Price, status: CanonicalStatus, primaryQuoteId: Option<int>,
    verificationQuoteIds: seq<int>, summary: SourceSummary, candidatePrice: Option<Price>,
    candidateProviderId: Option<string>,
    observedAt: int, canonicalAt: int, validUntil: int, staleAt: int, expiresAt: int,
    reason: string, verification: VerificationStatus, key: CanonicalKey)

  function Truncate(s: string, n: nat): string {
    if |s| <= n then s else s[..n]
  }

  /** `_persist_canonical`. */
  function RowOf(q: CanonicalQuote): CanonicalRow {
    CanonicalRow(q.instrumentId, q.price, q.status, q.primaryQuoteId, q.verificationQuoteIds, q.summary,
                 q.candidatePrice, q.candidateProviderId, q.observedAt, q.canonicalAt, q.validUntil, q.staleAt,
                   q.expiresAt,
                 Truncate(q.reason, REASON_COLUMN), q.verification, q.key)
  }

  /** `from_dict` of the payload `to_dict` made: an empty reason is replaced, and the quote is checked again. */
  function FromPayload(q: CanonicalQuote): Result<CanonicalQuote, PricingError> {
    Checked(q.(reason := if q.reason == "" then "not recorded" else q.reason))
  }

  /** `_replay_canonical_quote`: restore the status that was set aside, and write the row. */
  function ReplayedRow(payload: CanonicalQuote): Result<CanonicalRow, PricingError> {
    var q :- FromPayload(payload);
    var saved := q.summary.savedStatus;
    Success(RowOf(q.(isPersisted := true, status := if q.status.UnpersistedQuote?
      && saved.Some? then saved.value else q.status)))
  }

  /** The row holds the quote, column by column, and of its reason as much as fits into 240 characters. */
  lemma RowHoldsQuote(q: CanonicalQuote)
    ensures var r := RowOf(q);
            && r.instrumentId == q.instrumentId && r.price == q.price && r.status == q.status && r.key == q.key
            && r.primaryQuoteId == q.primaryQuoteId && r.verificationQuoteIds == q.verificationQuoteIds
            && r.summary == q.summary && r.verification == q.verification
            && r.candidatePrice == q.candidatePrice && r.candidateProviderId == q.candidateProviderId
            && r.observedAt == q.observedAt && r.canonicalAt == q.canonicalAt && r.validUntil == q.validUntil
            && r.staleAt == q.staleAt && r.expiresAt == q.expiresAt
            && r.reason <= q.reason && (|q.reason| <= 240 ==> r.reason == q.reason)
            && (240 <= |q.reason| ==> |r.reason| == 240)
  {
  }

  /** The row without the one entry that remembers a failed write. */
  function Forgetful(r: CanonicalRow): CanonicalRow {
    r.(summary := r.summary.(savedStatus := None))
  }

  /** A quote that was built by the constructor. */
  predicate IsWellBuilt(q: CanonicalQuote) {
    Checked(q) == Success(q)
  }

  /**
   When the database refuses a quote and the outbox replays it later, the row is the one a direct
   write would have made, up to the saved-status entry, exactly when the quote has a reason and was
   not already set aside with a saved status.
   */
  lemma ReplayEqualsDirectWrite(q: CanonicalQuote)
    requires IsWellBuilt(q)
    ensures ReplayedRow(AfterPersist(q, false)).Success?
    ensures Forgetful(ReplayedRow(AfterPersist(q, false)).value) == Forgetful(RowOf(q))
            <==> && q.reason != ""
                 && (q.status.UnpersistedQuote? && q.summary.savedStatus.Some? ==>
                       q.summary.savedStatus.value.UnpersistedQuote?)
  {
    var payload := AfterPersist(q, false);
    assert FromPayload(payload).Success?;
    var r := ReplayedRow(payload).value;
    if q.reason == "" {
      assert r.reason == "not recorded" && RowOf(q).reason == "";
      assert Forgetful(r).reason != Forgetful(RowOf(q)).reason;
    }
  }
}

/**
 The outbox as a protocol: direct writes, failed writes that are queued, and any number of consumers
 that replay events and may crash between any two steps.  A write that commits but loses its answer is
 a WriteDirect followed by a WriteFails under the same key.
 */
module Outbox {
  import opened Wrappers

  /** A queued write.  `row` is what its replay would insert, or None if its replay always raises. */
  datatype Event<R> = Event(key: nat, row: Option<R>)

  /** A row as it was inserted, and whether its provider quote has been marked suspicious since. */
  datatype Stored<R> = Stored(key: nat, row: R, marked: bool)

  datatype Stage = Delivered | Checked(found: bool) | Written | Recorded | Acknowledged

  datatype Consumer<R> = Idle | Busy(id: nat, event: Event<R>, stage: Stage)

  /**
   `rows` is the table, `ledger` counts the replays of a key, `acked` are the stream entries no longer
   pending.  `promised` are the writes whose caller was told that they are stored or queued.
   */
  datatype State<R> = State(
    rows: seq<Stored<R>>,
    ledger: map<nat, nat>,
    stream: map<nat, Event<R>>,
    acked: set<nat>,
    nextId: nat,
    consumers: map<nat, Consumer<R>>,
    promised: seq<Event<R>>)

  datatype Step<R> =
    | WriteDirect(key: nat, row: R)
    | WriteFails(event: Event<R>)
    | MarkSuspicious(key: nat)
    | Deliver(consumer: nat, id: nat)
    | Look(consumer: nat)
    | Insert(consumer: nat)
    | Record(consumer: nat)
    | Acknowledge(consumer: nat)
    | Delete(consumer: nat)
    | Crash(consumer: nat)

  ghost predicate HasRow<R>(rows: seq<Stored<R>>, key: nat) {
    exists i | 0 <= i < |rows| :: rows[i].key == key
  }

  function Lookup<R>(rows: seq<Stored<R>>, key: nat): (r: Option<R>)
    ensures r.Some? <==> HasRow(rows, key)
  {
    if rows == [] then None else
      var n := |rows| - 1;
      assert rows == rows[..n] + [rows[n]];
      if rows[n].key == key then Some(rows[n].row) else
        var r := Lookup(rows[..n], key);
        assert HasRow(rows[..n], key) ==> HasRow(rows, key);
        assert HasRow(rows, key) ==> HasRow(rows[..n], key) by {
          if HasRow(rows, key) {
            var i :| 0 <= i < |rows| && rows[i].key == key;
            assert i < n && rows[..n][i].key == key;
          }
        }
        r
  }

  /** The unique constraint lets a row in only under a new key. */
  function InsertUnique<R>(rows: seq<Stored<R>>, key: nat, row: R): seq<Stored<R>> {
    if Lookup(rows, key).Some? then rows else rows + [Stored(key, row, false)]
  }

  /** `_mark_provider_quote_suspicious`: the row under this key, if there is one, is marked in place. */
  function Mark<R>(rows: seq<Stored<R>>, key: nat): (r: seq<Stored<R>>)
    ensures |r| == |rows|
  {
    seq(|rows|, i requires 0 <= i < |rows| => if rows[i].key == key then rows[i].(marked := true) else rows[i])
  }

  /** A row is let in, unmarked and last, exactly when its key is new; marking a key marks its rows and no others. */
  lemma RowsExactlyWhen<R>(rows: seq<Stored<R>>, key: nat, row: R, i: nat)
    ensures var after := InsertUnique(rows, key, row);
            if HasRow(rows, key) then after == rows else after == rows + [Stored(key, row, false)]
    ensures i < |rows| ==>
              var after := Mark(rows, key)[i];
              && after.key == rows[i].key && after.row == rows[i].row
              && (after.marked <==> rows[i].marked || rows[i].key == key)
  {
  }

  function Init<R>(): State<R> {
    State([], map[], map[], {}, 0, map[], [])
  }

  predicate IsAt<R>(s: State<R>, c: nat, stage: Stage) {
    c in s.consumers && s.consumers[c].Busy? && s.consumers[c].stage == stage
  }

  predicate Enabled<R>(s: State<R>, step: Step<R>) {
    match step
    case WriteDirect(_, _) => true
    case WriteFails(_) => true
    case MarkSuspicious(_) => true
    case Deliver(c, id) => (c in s.consumers ==> s.consumers[c].Idle?) && id in s.stream && id !in s.acked
    case Look(c) => IsAt(s, c, Delivered)
    case Insert(c) => IsAt(s, c, Checked(true)) || IsAt(s, c, Checked(false))
    case Record(c) => IsAt(s, c, Written)
    case Acknowledge(c) => IsAt(s, c, Recorded)
    case Delete(c) => IsAt(s, c, Acknowledged)
    case Crash(c) => c in s.consumers
  }

  function At<R>(s: State<R>, c: nat, stage: Stage): map<nat, Consumer<R>>
    requires c in s.consumers && s.consumers[c].Busy?
  {
    s.consumers[c := s.consumers[c].(stage := stage)]
  }

  function Queued<R>(s: State<R>, e: Event<R>): State<R> {
    s.(stream := s.stream[s.nextId := e], nextId := s.nextId + 1, promised := s.promised + [e])
  }

  function Apply<R>(s: State<R>, step: Step<R>): State<R>
    requires Enabled(s, step)
  {
    match step
    case WriteDirect(key, row) =>
      s.(rows := InsertUnique(s.rows, key, row), promised := s.promised + [Event(key, Some(row))])
    case WriteFails(e) => Queued(s, e)
    case MarkSuspicious(key) => s.(rows := Mark(s.rows, key))
    case Deliver(c, id) => s.(consumers := s.consumers[c := Busy(id, s.stream[id], Delivered)])
    case Look(c) =>
      var e := s.consumers[c].event;
      if e.row.None? then s.(consumers := s.consumers[c := Idle])
      else s.(consumers := At(s, c, Checked(Lookup(s.rows, e.key).Some?)))
    case Insert(c) =>
      var e := s.consumers[c].event;
      if s.consumers[c].stage.found then s.(consumers := At(s, c, Written))
      else if Lookup(s.rows, e.key).Some? || e.row.None? then s.(consumers := s.consumers[c := Idle])
      else s.(rows := InsertUnique(s.rows, e.key, e.row.value), consumers := At(s, c, Written))
    case Record(c) =>
      var key := s.consumers[c].event.key;
      s.(ledger := s.ledger[key := (if key in s.ledger then s.ledger[key] else 0) + 1], consumers := At(s, c, Recorded))
    case Acknowledge(c) => s.(acked := s.acked + {s.consumers[c].id}, consumers := At(s, c, Acknowledged))
    case Delete(c) => s.(stream := s.stream - {s.consumers[c].id}, consumers := s.consumers[c := Idle])
    case Crash(c) => s.(consumers := s.consumers[c := Idle])
  }

  // ----- the invariant ------------------------------------------------------------------------

  ghost predicate RowsInv<R>(s: State<R>) {
    && (forall i, j :: 0 <= i < j < |s.rows| ==> s.rows[i].key != s.rows[j].key)
    && (forall i | 0 <= i < |s.rows| :: Event(s.rows[i].key, Some(s.rows[i].row)) in s.promised)
  }

  predicate IsPastWrite(stage: Stage) {
    stage == Checked(true) || stage.Written? || stage.Recorded? || stage.Acknowledged?
  }

  ghost predicate ConsumerInv<R>(s: State<R>, c: Consumer<R>) {
    c.Busy? ==>
      && c.id < s.nextId
      && c.event in s.promised
      && (c.id in s.stream ==> s.stream[c.id] == c.event)
      && (!c.stage.Delivered? ==> c.event.row.Some?)
      && (IsPastWrite(c.stage) ==> HasRow(s.rows, c.event.key))
      && (c.stage.Acknowledged? ==> c.id in s.acked)
  }

  ghost predicate ConsumersInv<R>(s: State<R>) {
    forall c <- s.consumers :: ConsumerInv(s, s.consumers[c])
  }

  /** What an entry of the stream still stands for. */
  ghost predicate EntryInv<R>(s: State<R>, id: nat)
    requires id in s.stream
  {
    && id < s.nextId
    && s.stream[id] in s.promised
    && (id in s.acked ==> s.stream[id].row.Some? && HasRow(s.rows, s.stream[id].key))
  }

  ghost predicate StreamInv<R>(s: State<R>) {
    && (forall id <- s.stream :: EntryInv(s, id))
    && (forall id <- s.acked :: id < s.nextId)
  }

  ghost predicate IsPending<R>(s: State<R>, e: Event<R>) {
    exists id <- s.stream :: id !in s.acked && s.stream[id] == e
  }

  /** A promised write is in the table, or an entry that is still pending will bring it there. */
  ghost predicate IsKept<R>(s: State<R>, e: Event<R>) {
    HasRow(s.rows, e.key) || IsPending(s, e)
  }

  ghost predicate PromisesInv<R>(s: State<R>) {
    forall i | 0 <= i < |s.promised| :: IsKept(s, s.promised[i])
  }

  ghost predicate Inv<R>(s: State<R>) {
    RowsInv(s) && StreamInv(s) && ConsumersInv(s) && PromisesInv(s)
  }

  // ----- every step keeps it ------------------------------------------------------------------

  /** The rows are still there, in their place and with their content; a mark is not taken back. */
  ghost predicate StillThere<R>(rows: seq<Stored<R>>, more: seq<Stored<R>>) {
    && |rows| <= |more|
    && forall i | 0 <= i < |rows| ::
         more[i].key == rows[i].key && more[i].row == rows[i].row && (rows[i].marked ==> more[i].marked)
  }

  lemma RowsOnlyGrow<R>(rows: seq<Stored<R>>, more: seq<Stored<R>>, key: nat)
    requires StillThere(rows, more) && HasRow(rows, key)
    ensures HasRow(more, key)
  {
    var i :| 0 <= i < |rows| && rows[i].key == key;
    assert more[i].key == key;
  }

  lemma InsertedIsThere<R>(rows: seq<Stored<R>>, key: nat, row: R)
    ensures StillThere(rows, InsertUnique(rows, key, row))
    ensures HasRow(InsertUnique(rows, key, row), key)
  {
    if Lookup(rows, key).None? {
      assert InsertUnique(rows, key, row)[|rows|].key == key;
    }
  }

  lemma InsertKeepsRows<R>(s: State<R>, key: nat, row: R, promised: seq<Event<R>>)
    requires RowsInv(s) && s.promised <= promised && Event(key, Some(row)) in promised
    ensures RowsInv(s.(rows := InsertUnique(s.rows, key, row), promised := promised))
  {
    if Lookup(s.rows, key).None? {
      assert forall i | 0 <= i < |s.rows| :: s.rows[i].key != key;
    }
  }

  /** Going from s to t lost nothing that others rely on. */
  ghost predicate Extends<R>(s: State<R>, t: State<R>) {
    && StillThere(s.rows, t.rows) && s.promised <= t.promised
    && s.nextId <= t.nextId && s.acked <= t.acked
    && (forall id <- t.stream | id < s.nextId :: id in s.stream && t.stream[id] == s.stream[id])
  }

  lemma ConsumerInvExtends<R>(s: State<R>, t: State<R>, c: Consumer<R>)
    requires Extends(s, t) && ConsumerInv(s, c)
    ensures ConsumerInv(t, c)
  {
    if c.Busy? && IsPastWrite(c.stage) {
      RowsOnlyGrow(s.rows, t.rows, c.event.key);
    }
  }

  /** Only consumer c moved, and it is well again. */
  lemma ConsumersExtend<R>(s: State<R>, t: State<R>, c: nat)
    requires Extends(s, t) && ConsumersInv(s)
    requires c in t.consumers && t.consumers == s.consumers[c := t.consumers[c]]
    requires ConsumerInv(t, t.consumers[c])
    ensures ConsumersInv(t)
  {
    forall d <- t.consumers | d != c ensures ConsumerInv(t, t.consumers[d]) {
      ConsumerInvExtends(s, t, s.consumers[d]);
    }
  }

  lemma ConsumersStay<R>(s: State<R>, t: State<R>)
    requires Extends(s, t) && ConsumersInv(s) && t.consumers == s.consumers
    ensures ConsumersInv(t)
  {
    forall d <- t.consumers ensures ConsumerInv(t, t.consumers[d]) {
      ConsumerInvExtends(s, t, s.consumers[d]);
    }
  }

  lemma StreamStays<R>(s: State<R>, t: State<R>)
    requires Extends(s, t) && StreamInv(s) && t.acked == s.acked && t.nextId == s.nextId
    requires forall id <- t.stream :: id in s.stream
    ensures StreamInv(t)
  {
    forall id <- t.stream ensures EntryInv(t, id) {
      assert EntryInv(s, id);
      if id in t.acked { RowsOnlyGrow(s.rows, t.rows, t.stream[id].key); }
    }
  }

  lemma KeptStays<R>(s: State<R>, t: State<R>, e: Event<R>)
    requires StillThere(s.rows, t.rows) && IsKept(s, e)
    requires forall id <- s.stream | id !in s.acked :: id in t.stream && id !in t.acked && t.stream[id] == s.stream[id]
    ensures IsKept(t, e)
  {
    if HasRow(s.rows, e.key) {
      RowsOnlyGrow(s.rows, t.rows, e.key);
    } else {
      var id :| id in s.stream && id !in s.acked && s.stream[id] == e;
      assert id in t.stream && t.stream[id] == e;
    }
  }

  lemma PromisesStay<R>(s: State<R>, t: State<R>)
    requires StillThere(s.rows, t.rows) && PromisesInv(s) && t.promised == s.promised
    requires forall id <- s.stream | id !in s.acked :: id in t.stream && id !in t.acked && t.stream[id] == s.stream[id]
    ensures PromisesInv(t)
  {
    forall i | 0 <= i < |t.promised| ensures IsKept(t, t.promised[i]) {
      KeptStays(s, t, s.promised[i]);
    }
  }

  lemma PromisesGrow<R>(s: State<R>, t: State<R>, e: Event<R>)
    requires StillThere(s.rows, t.rows) && PromisesInv(s) && t.promised == s.promised + [e] && IsKept(t, e)
    requires forall id <- s.stream | id !in s.acked :: id in t.stream && id !in t.acked && t.stream[id] == s.stream[id]
    ensures PromisesInv(t)
  {
    forall i | 0 <= i < |t.promised| ensures IsKept(t, t.promised[i]) {
      if i < |s.promised| { KeptStays(s, t, s.promised[i]); }
    }
  }

  lemma DirectWriteKeepsInv<R>(s: State<R>, key: nat, row: R)
    requires Inv(s)
    ensures Inv(Apply(s, WriteDirect(key, row)))
  {
    var t := Apply(s, WriteDirect(key, row));
    InsertedIsThere(s.rows, key, row);
    InsertKeepsRows(s, key, row, t.promised);
    StreamStays(s, t);
    ConsumersStay(s, t);
    PromisesGrow(s, t, Event(key, Some(row)));
  }

  lemma QueueKeepsInv<R>(s: State<R>, e: Event<R>)
    requires Inv(s)
    ensures Inv(Queued(s, e))
  {
    var t := Queued(s, e);
    assert t.stream[s.nextId] == e && t.promised[|s.promised|] == e;
    forall id <- t.stream ensures EntryInv(t, id) {
      if id != s.nextId { assert EntryInv(s, id); }
    }
    assert s.nextId !in s.acked;
    forall id <- s.stream ensures id != s.nextId { assert EntryInv(s, id); }
    ConsumersStay(s, t);
    assert IsPending(t, e);
    PromisesGrow(s, t, e);
  }

  /** The steps that change nothing but the consumer's own place and, perhaps, the ledger. */
  lemma MoveKeepsInv<R>(s: State<R>, t: State<R>, c: nat)
    requires Inv(s) && c in t.consumers && ConsumerInv(t, t.consumers[c])
    requires t == s.(ledger := t.ledger, consumers := s.consumers[c := t.consumers[c]])
    ensures Inv(t)
  {
    StreamStays(s, t);
    ConsumersExtend(s, t, c);
    PromisesStay(s, t);
  }

  /** A consumer inserts the row of its event under a new key. */
  lemma NewRowKeepsInv<R>(s: State<R>, t: State<R>, c: nat, key: nat, row: R)
    requires Inv(s) && c in t.consumers && Event(key, Some(row)) in s.promised
    requires t == s.(rows := InsertUnique(s.rows, key, row), consumers := s.consumers[c := t.consumers[c]])
    requires ConsumerInv(t, t.consumers[c])
    ensures Inv(t)
  {
    InsertedIsThere(s.rows, key, row);
    InsertKeepsRows(s, key, row, s.promised);
    StreamStays(s, t);
    ConsumersExtend(s, t, c);
    PromisesStay(s, t);
  }

  lemma InsertStepKeepsInv<R>(s: State<R>, c: nat)
    requires Inv(s) && Enabled(s, Insert(c))
    ensures Inv(Apply(s, Insert(c)))
  {
    var t := Apply(s, Insert(c));
    assert ConsumerInv(s, s.consumers[c]);
    var e := s.consumers[c].event;
    if s.consumers[c].stage.found || Lookup(s.rows, e.key).Some? {
      MoveKeepsInv(s, t, c);
    } else {
      InsertedIsThere(s.rows, e.key, e.row.value);
      assert e == Event(e.key, Some(e.row.value));
      NewRowKeepsInv(s, t, c, e.key, e.row.value);
    }
  }

  lemma MarkKeepsInv<R>(s: State<R>, key: nat)
    requires Inv(s)
    ensures Inv(Apply(s, MarkSuspicious(key)))
  {
    var t := Apply(s, MarkSuspicious(key));
    assert RowsInv(t) by {
      forall i | 0 <= i < |t.rows| ensures Event(t.rows[i].key, Some(t.rows[i].row)) in t.promised {
        assert Event(s.rows[i].key, Some(s.rows[i].row)) in s.promised;
      }
    }
    StreamStays(s, t);
    ConsumersStay(s, t);
    PromisesStay(s, t);
  }

  lemma AcknowledgeKeepsInv<R>(s: State<R>, c: nat)
    requires Inv(s) && Enabled(s, Acknowledge(c))
    ensures Inv(Apply(s, Acknowledge(c)))
  {
    var t := Apply(s, Acknowledge(c));
    var b := s.consumers[c];
    assert ConsumerInv(s, b);
    forall id <- t.stream ensures EntryInv(t, id) { assert EntryInv(s, id); }
    ConsumersExtend(s, t, c);
    forall i | 0 <= i < |t.promised| ensures IsKept(t, t.promised[i]) {
      var e := s.promised[i];
      assert IsKept(s, e);
      if !HasRow(s.rows, e.key) {
        var id :| id in s.stream && id !in s.acked && s.stream[id] == e;
        assert id != b.id;
        assert id in t.stream && id !in t.acked && t.stream[id] == e;
      }
    }
  }

  lemma DeleteKeepsInv<R>(s: State<R>, c: nat)
    requires Inv(s) && Enabled(s, Delete(c))
    ensures Inv(Apply(s, Delete(c)))
  {
    var t := Apply(s, Delete(c));
    assert ConsumerInv(s, s.consumers[c]);
    StreamStays(s, t);
    ConsumersExtend(s, t, c);
    PromisesStay(s, t);
  }

  lemma StepKeepsInv<R>(s: State<R>, step: Step<R>)
    requires Inv(s) && Enabled(s, step)
    ensures Inv(Apply(s, step))
  {
    match step
    case WriteDirect(key, row) => DirectWriteKeepsInv(s, key, row);
    case WriteFails(e) => QueueKeepsInv(s, e);
    case MarkSuspicious(key) => MarkKeepsInv(s, key);
    case Deliver(c, id) =>
      assert EntryInv(s, id);
      MoveKeepsInv(s, Apply(s, step), c);
    case Look(c) =>
      assert ConsumerInv(s, s.consumers[c]);
      MoveKeepsInv(s, Apply(s, step), c);
    case Insert(c) => InsertStepKeepsInv(s, c);
    case Record(c) =>
      assert ConsumerInv(s, s.consumers[c]);
      MoveKeepsInv(s, Apply(s, step), c);
    case Acknowledge(c) => AcknowledgeKeepsInv(s, c);
    case Delete(c) => DeleteKeepsInv(s, c);
    case Crash(c) => MoveKeepsInv(s, Apply(s, step), c);
  }

  // ----- whole runs ---------------------------------------------------------------------------

  /** The state a run ends in, or None if some step of it was not possible. */
  function After<R>(s: State<R>, steps: seq<Step<R>>): Option<State<R>>
    decreases |steps|
  {
    if steps == [] then Some(s)
    else if Enabled(s, steps[0]) then After(Apply(s, steps[0]), steps[1..])
    else None
  }

  lemma {:induction false} RunKeepsInv<R>(s: State<R>, steps: seq<Step<R>>)
    requires Inv(s) && After(s, steps).Some?
    ensures Inv(After(s, steps).value)
    decreases |steps|
  {
    if steps != [] {
      StepKeepsInv(s, steps[0]);
      RunKeepsInv(Apply(s, steps[0]), steps[1..]);
    }
  }

  /** The step tells its caller that this write is stored or queued. */
  predicate Promises<R(==)>(step: Step<R>, e: Event<R>) {
    match step
    case WriteDirect(key, row) => e == Event(key, Some(row))
    case WriteFails(queued) => e == queued
    case _ => false
  }

  /** Every promise was made by a step of the run. */
  lemma {:induction false} PromiseWasMade<R>(s: State<R>, steps: seq<Step<R>>, e: Event<R>) returns (k: nat)
    requires After(s, steps).Some? && e in After(s, steps).value.promised && e !in s.promised
    ensures k < |steps| && Promises(steps[k], e)
    decreases |steps|
  {
    if Promises(steps[0], e) {
      k := 0;
    } else {
      k := PromiseWasMade(Apply(s, steps[0]), steps[1..], e);
      k := k + 1;
    }
  }

  lemma StepRowsGrow<R>(s: State<R>, step: Step<R>)
    requires Enabled(s, step)
    ensures StillThere(s.rows, Apply(s, step).rows)
  {
    if step.WriteDirect? {
      InsertedIsThere(s.rows, step.key, step.row);
    }
  }

  /** Stored rows are never removed, and never changed but for the mark. */
  lemma {:induction false} RowsAreForever<R>(s: State<R>, steps: seq<Step<R>>)
    requires After(s, steps).Some?
    ensures StillThere(s.rows, After(s, steps).value.rows)
    decreases |steps|
  {
    if steps != [] {
      StepRowsGrow(s, steps[0]);
      RowsAreForever(Apply(s, steps[0]), steps[1..]);
    }
  }

  lemma StepLeavesOnlyWithRow<R>(s: State<R>, step: Step<R>, id: nat)
    requires Inv(s) && Enabled(s, step) && id in s.stream
    ensures var t := Apply(s, step);
            if id in t.stream then t.stream[id] == s.stream[id]
            else s.stream[id].row.Some? && HasRow(t.rows, s.stream[id].key)
  {
    assert EntryInv(s, id);
    if step.Delete? && s.consumers[step.consumer].id == id {
      assert ConsumerInv(s, s.consumers[step.consumer]);
    }
  }

  /**
   An entry of the stream stays as it is until its row is in the table, whatever the consumers do and
   wherever they crash; an event whose replay raises is never dropped.
   */
  lemma {:induction false} LeavesOnlyWithRow<R>(s: State<R>, steps: seq<Step<R>>, id: nat)
    requires Inv(s) && After(s, steps).Some? && id in s.stream
    ensures var t := After(s, steps).value;
            || (id in t.stream && t.stream[id] == s.stream[id])
            || (s.stream[id].row.Some? && HasRow(t.rows, s.stream[id].key))
    decreases |steps|
  {
    if steps != [] {
      var m := Apply(s, steps[0]);
      StepKeepsInv(s, steps[0]);
      StepLeavesOnlyWithRow(s, steps[0], id);
      if id in m.stream {
        LeavesOnlyWithRow(m, steps[1..], id);
      } else {
        RowsAreForever(m, steps[1..]);
        RowsOnlyGrow(m.rows, After(m, steps[1..]).value.rows, s.stream[id].key);
      }
    }
  }

  function RowsUnder<R>(rows: seq<Stored<R>>, key: nat): nat {
    if rows == [] then 0 else RowsUnder(rows[..|rows| - 1], key) + if rows[|rows| - 1].key == key then 1 else 0
  }

  lemma {:induction false} CountUnique<R>(rows: seq<Stored<R>>, key: nat)
    requires forall i, j :: 0 <= i < j < |rows| ==> rows[i].key != rows[j].key
    ensures RowsUnder(rows, key) == if HasRow(rows, key) then 1 else 0
  {
    if rows != [] {
      var n := |rows| - 1;
      CountUnique(rows[..n], key);
      if rows[n].key == key {
        assert !HasRow(rows[..n], key);
      } else if HasRow(rows, key) {
        var i :| 0 <= i < |rows| && rows[i].key == key;
        assert rows[..n][i].key == key;
      }
    }
  }

  /**
   The effect is exactly once.  After any run from the empty system no key has two rows, every row
   was promised with that content (but for the mark), and once no entry is pending every promised key has exactly one.
   */
  lemma ReachableIsExactlyOnce<R>(steps: seq<Step<R>>)
    requires After(Init<R>(), steps).Some?
    ensures var s := After(Init<R>(), steps).value;
            && (forall key :: RowsUnder(s.rows, key) <= 1)
            && (forall i | 0 <= i < |s.rows| :: Event(s.rows[i].key, Some(s.rows[i].row)) in s.promised)
            && (forall e <- s.promised :: RowsUnder(s.rows, e.key) == 1 || IsPending(s, e))
  {
    var s := After(Init<R>(), steps).value;
    RunKeepsInv(Init<R>(), steps);
    forall key ensures RowsUnder(s.rows, key) == if HasRow(s.rows, key) then 1 else 0 {
      CountUnique(s.rows, key);
    }
    forall e <- s.promised ensures RowsUnder(s.rows, e.key) == 1 || IsPending(s, e) {
      var i :| 0 <= i < |s.promised| && s.promised[i] == e;
      assert IsKept(s, s.promised[i]);
    }
  }

  // ----- the ledger of replays --------------------------------------------------------------------------

  /** How often a run records a replay under this key. */
  function Replays<R>(s: State<R>, steps: seq<Step<R>>, key: nat): nat
    requires After(s, steps).Some?
    decreases |steps|
  {
    if steps == [] then 0 else
      (if steps[0].Record? && s.consumers[steps[0].consumer].event.key == key then 1 else 0)
      + Replays(Apply(s, steps[0]), steps[1..], key)
  }

  function LedgerOf<R>(s: State<R>, key: nat): nat {
    if key in s.ledger then s.ledger[key] else 0
  }

  /** The ledger counts exactly the replays that were recorded. */
  lemma {:induction false} LedgerCountsReplays<R>(s: State<R>, steps: seq<Step<R>>, key: nat)
    requires After(s, steps).Some?
    ensures LedgerOf(After(s, steps).value, key) == LedgerOf(s, key) + Replays(s, steps, key)
    decreases |steps|
  {
    if steps != [] {
      LedgerCountsReplays(Apply(s, steps[0]), steps[1..], key);
    }
  }

  // ----- one worker ---------------------------------------------------------------------------

  lemma {:induction false} AfterOneMore<R>(s: State<R>, steps: seq<Step<R>>, t: State<R>, step: Step<R>)
    requires After(s, steps) == Some(t) && Enabled(t, step)
    ensures After(s, steps + [step]) == Some(Apply(t, step))
    decreases |steps|
  {
    if steps == [] {
      assert (steps + [step])[1..] == [];
    } else {
      AfterOneMore(Apply(s, steps[0]), steps[1..], t, step);
      assert (steps + [step])[1..] == steps[1..] + [step];
    }
  }

  lemma {:induction false} AfterBoth<R>(s: State<R>, first: seq<Step<R>>, t: State<R>, second: seq<Step<R>>)
    requires After(s, first) == Some(t)
    ensures After(s, first + second) == After(t, second)
    decreases |first|
  {
    if first == [] {
      assert first + second == second;
    } else {
      AfterBoth(Apply(s, first[0]), first[1..], t, second);
      assert (first + second)[1..] == first[1..] + second;
    }
  }

  lemma AfterTwo<R>(s: State<R>, first: Step<R>, second: Step<R>)
    requires Enabled(s, first) && Enabled(Apply(s, first), second)
    ensures After(s, [first, second]) == Some(Apply(Apply(s, first), second))
  {
    AfterOneMore(s, [], s, first);
    AfterOneMore(s, [first], Apply(s, first), second);
    assert [first] + [second] == [first, second];
  }

  lemma CrashingIsARun<R>(s: State<R>, me: nat, id: nat)
    requires Enabled(s, Deliver(me, id))
    ensures After(s, [Deliver(me, id), Crash(me)]) == Some(s.(consumers := s.consumers[me := Idle]))
  {
    AfterTwo(s, Deliver(me, id), Crash(me));
    assert s.consumers[me := Busy(id, s.stream[id], Delivered)][me := Idle] == s.consumers[me := Idle];
  }

  lemma WritingIsARun<R>(s: State<R>, me: nat, id: nat)
    requires Enabled(s, Deliver(me, id)) && s.stream[id].row.Some?
    ensures var e := s.stream[id];
            var written := InsertUnique(s.rows, e.key, e.row.value);
            && HasRow(written, e.key)
            && After(s, [Deliver(me, id), Look(me), Insert(me)])
               == Some(s.(rows := written, consumers := s.consumers[me := Busy(id, e, Written)]))
  {
    var e := s.stream[id];
    InsertedIsThere(s.rows, e.key, e.row.value);
    AfterTwo(s, Deliver(me, id), Look(me));
    var found := Lookup(s.rows, e.key).Some?;
    assert s.consumers[me := Busy(id, e, Delivered)][me := Busy(id, e, Checked(found))]
           == s.consumers[me := Busy(id, e, Checked(found))];
    assert s.consumers[me := Busy(id, e, Checked(found))][me := Busy(id, e, Written)]
           == s.consumers[me := Busy(id, e, Written)];
    var looked := s.(consumers := s.consumers[me := Busy(id, e, Checked(found))]);
    var begun: seq<Step<R>> := [Deliver(me, id), Look(me)];
    AfterOneMore(s, begun, looked, Insert(me));
    assert begun + [Insert(me)] == [Deliver(me, id), Look(me), Insert(me)];
  }

  /** The entries `ids` are gone from the stream, and only they; each has its row. */
  ghost predicate AreFlushed<R>(s: State<R>, t: State<R>, ids: seq<nat>) {
    && (forall i | 0 <= i < |ids| :: ids[i] in s.stream && HasRow(t.rows, s.stream[ids[i]].key))
    && t.stream == s.stream - set id <- ids
  }

  lemma FlushedOneMore<R>(s: State<R>, t: State<R>, u: State<R>, ids: seq<nat>, id: nat)
    requires AreFlushed(s, t, ids) && StillThere(t.rows, u.rows)
    ensures u.stream == t.stream ==> AreFlushed(s, u, ids)
    ensures id in t.stream && u.stream == t.stream - {id} && HasRow(u.rows, s.stream[id].key)
            ==> AreFlushed(s, u, ids + [id])
  {
    forall i | 0 <= i < |ids| ensures HasRow(u.rows, s.stream[ids[i]].key) {
      RowsOnlyGrow(t.rows, u.rows, s.stream[ids[i]].key);
    }
    assert (set x <- ids + [id]) == (set x <- ids) + {id};
  }

  /** The entries a consumer was given: all pending, none twice. */
  ghost predicate AreDelivered<R>(stream: map<nat, Event<R>>, acked: set<nat>, ids: seq<nat>) {
    && (forall i | 0 <= i < |ids| :: ids[i] in stream && ids[i] !in acked)
    && (forall i, j :: 0 <= i < j < |ids| ==> ids[i] != ids[j])
  }

  lemma FirstIsHandled<R>(stream: map<nat, Event<R>>, acked: set<nat>, ids: seq<nat>)
    requires AreDelivered(stream, acked, ids) && ids != []
    ensures AreDelivered(stream - {ids[0]}, acked + {ids[0]}, ids[1..])
  {
  }

  /** Where the replay of an entry raises, if it does. */
  datatype Fault = AtRow | AtLedger | AtAcknowledge | AtDelete

  class PricingPersistence<R(!new)> {
    var rows: seq<Stored<R>>
    var ledger: map<nat, nat>
    var stream: map<nat, Event<R>>
    var acked: set<nat>
    var nextId: nat
    ghost var consumers: map<nat, Consumer<R>>
    ghost var promised: seq<Event<R>>

    ghost function View(): State<R>
      reads this
    {
      State(rows, ledger, stream, acked, nextId, consumers, promised)
    }

    ghost predicate Valid()
      reads this
    {
      Inv(View())
    }

    ghost predicate IsWaiting(me: nat)
      reads this
    {
      me in consumers ==> consumers[me].Idle?
    }

    constructor ()
      ensures View() == Init() && Valid()
    {
      rows, ledger, stream, acked, nextId, consumers, promised := [], map[], map[], {}, 0, map[], [];
    }

    /** `persist_provider_quote` and `persist_canonical`: write the row, or queue its payload. */
    method Persist(
      key: nat, row: R, payload: Option<R>, databaseUp: bool, redisUp: bool) returns (persisted: bool, queued: bool)
      requires Valid()
      modifies this
      ensures Valid()
      ensures persisted == databaseUp && queued == (!databaseUp && redisUp)
      ensures persisted ==> View() == Apply(old(View()), WriteDirect(key, row))
      ensures queued ==> View() == Apply(old(View()), WriteFails(Event(key, payload)))
      ensures !persisted && !queued ==> View() == old(View())
    {
      persisted, queued := false, false;
      if databaseUp {
        StepKeepsInv(View(), WriteDirect(key, row));
        var existing := Lookup(rows, key);
        if existing.None? { rows := rows + [Stored(key, row, false)]; }
        promised := promised + [Event(key, Some(row))];
        persisted := true;
      } else if redisUp {
        StepKeepsInv(View(), WriteFails(Event(key, payload)));
        stream := stream[nextId := Event(key, payload)];
        nextId := nextId + 1;
        promised := promised + [Event(key, payload)];
        queued := true;
      }
    }

    /** `mark_provider_quote_suspicious`. */
    method MarkProviderQuoteSuspicious(key: nat)
      requires Valid()
      modifies this`rows
      ensures Valid()
      ensures View() == Apply(old(View()), MarkSuspicious(key))
    {
      MarkKeepsInv(View(), key);
      rows := Mark(rows, key);
    }

    /** The two replay handlers: parse the payload, look for the row and insert it if there is none. */
    method WriteRow(ghost me: nat, ghost id: nat, event: Event<R>, fails: bool, ghost start: State<R>)
      returns (ok: bool, ghost steps: seq<Step<R>>)
      requires View() == start && IsWaiting(me) && id in stream && id !in acked && stream[id] == event
      modifies this`rows, this`consumers
      ensures After(start, steps) == Some(View())
      ensures ok == (event.row.Some? && !fails)
      ensures consumers == start.consumers[me := if ok then Busy(id, event, Written) else Idle]
      ensures ok ==> HasRow(rows, event.key)
    {
      ok := event.row.Some? && !fails;
      if ok {
        WritingIsARun(start, me, id);
        var existing := Lookup(rows, event.key);
        if existing.None? { rows := rows + [Stored(event.key, event.row.value, false)]; }
        consumers := consumers[me := Busy(id, event, Written)];
        steps := [Deliver(me, id), Look(me), Insert(me)];
      } else {
        CrashingIsARun(start, me, id);
        consumers := consumers[me := Idle];
        steps := [Deliver(me, id), Crash(me)];
      }
    }

    /** `_replay_event`: the row first, then the ledger. */
    method Replay(ghost me: nat, ghost id: nat, event: Event<R>, fault: Option<Fault>, ghost start: State<R>)
      returns (ok: bool, ghost steps: seq<Step<R>>)
      requires View() == start && IsWaiting(me) && id in stream && id !in acked && stream[id] == event
      modifies this`rows, this`ledger, this`consumers
      ensures After(start, steps) == Some(View())
      ensures ok == (event.row.Some? && fault != Some(AtRow) && fault != Some(AtLedger))
      ensures consumers == start.consumers[me := if ok then Busy(id, event, Recorded) else Idle]
      ensures ok ==> HasRow(rows, event.key)
    {
      ok, steps := WriteRow(me, id, event, fault == Some(AtRow), start);
      if ok {
        ghost var before := View();
        if fault == Some(AtLedger) {
          ok := false;
          consumers := consumers[me := Idle];
          AfterOneMore(start, steps, before, Crash(me));
          steps := steps + [Crash(me)];
        } else {
          ledger := ledger[event.key := (if event.key in ledger then ledger[event.key] else 0) + 1];
          consumers := consumers[me := Busy(id, event, Recorded)];
          AfterOneMore(start, steps, before, Record(me));
          steps := steps + [Record(me)];
        }
      }
    }

    /** One turn of the loop in `flush_stream`. */
    method Handle(ghost me: nat, id: nat, fault: Option<Fault>) returns (ok: bool, ghost steps: seq<Step<R>>)
      requires IsWaiting(me) && id in stream && id !in acked
      modifies this
      ensures After(old(View()), steps) == Some(View()) && IsWaiting(me)
      ensures ok == (old(stream)[id].row.Some? && fault.None?)
      ensures stream == if ok then old(stream) - {id} else old(stream)
      ensures acked == old(acked) + if ok || (old(stream)[id].row.Some? && fault == Some(AtDelete)) then {id} else {}
      ensures ok ==> HasRow(rows, old(stream)[id].key)
    {
      ghost var start := View();
      assert fault.None? || fault.value.AtRow? || fault.value.AtLedger? || fault.value.AtAcknowledge?
             || fault.value.AtDelete?;
      ok, steps := Replay(me, id, stream[id], fault, start);
      if ok {
        ghost var before := View();
        if fault == Some(AtAcknowledge) {
          ok := false;
          consumers := consumers[me := Idle];
          AfterOneMore(start, steps, before, Crash(me));
          steps := steps + [Crash(me)];
        } else {
          acked := acked + {id};
          consumers := consumers[me := Busy(id, start.stream[id], Acknowledged)];
          AfterOneMore(start, steps, before, Acknowledge(me));
          steps := steps + [Acknowledge(me)];
          before := View();
          if fault == Some(AtDelete) {
            ok := false;
            consumers := consumers[me := Idle];
            AfterOneMore(start, steps, before, Crash(me));
            steps := steps + [Crash(me)];
          } else {
            stream := stream - {id};
            consumers := consumers[me := Idle];
            AfterOneMore(start, steps, before, Delete(me));
            steps := steps + [Delete(me)];
          }
        }
      }
    }

    /**
     `flush_stream`: replay the delivered entries in order and stop at the first failure.  The call is
     one worker's run of the protocol, so everything proved of runs holds of it.
     */
    method FlushStream(ghost me: nat, batch: seq<nat>, faults: map<nat, Fault>)
      returns (processed: nat, failed: nat, ghost steps: seq<Step<R>>)
      requires Valid() && IsWaiting(me)
      requires AreDelivered(stream, acked, batch)
      modifies this
      ensures Valid() && After(old(View()), steps) == Some(View())
      ensures processed <= |batch| && failed == (if processed < |batch| then 1 else 0)
      ensures forall id <- batch[..processed] :: id !in faults
      ensures AreFlushed(old(View()), View(), batch[..processed])
      ensures processed < |batch| ==> batch[processed] in faults || old(stream)[batch[processed]].row.None?
    {
      ghost var start := View();
      processed, failed, steps := 0, 0, [];
      while processed < |batch| && failed == 0
        invariant IsWaiting(me) && After(start, steps) == Some(View())
        invariant processed + failed <= |batch| && failed <= 1
        invariant forall id <- batch[..processed] :: id !in faults
        invariant AreFlushed(start, View(), batch[..processed])
        invariant failed == 0 ==> AreDelivered(stream, acked, batch[processed..])
        invariant failed == 1 ==> batch[processed] in faults || start.stream[batch[processed]].row.None?
        decreases |batch| - processed - failed
      {
        var id := batch[processed];
        ghost var before := View();
        var ok; ghost var more;
        ok, more := Handle(me, id, if id in faults then Some(faults[id]) else None);
        AfterBoth(start, steps, before, more);
        steps := steps + more;
        RowsAreForever(before, more);
        FlushedOneMore(start, before, View(), batch[..processed], id);
        if ok {
          FirstIsHandled(before.stream, before.acked, batch[processed..]);
          processed := processed + 1;
          assert batch[..processed] == batch[..processed - 1] + [id];
          assert batch[processed - 1..][1..] == batch[processed..];
        } else {
          failed := failed + 1;
        }
      }
      RunKeepsInv(start, steps);
    }
  }
}
