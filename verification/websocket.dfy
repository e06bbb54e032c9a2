/** The client queues of the WebSocket hub (websocket.py). */
module Hub {
  import opened Wrappers
  import opened Models

  const CLIENT_QUEUE_SIZE: nat := 64

  datatype Reason = QueueOverflow | SubscriptionConnected

  datatype Event<Q> = Update(instrument: InstrumentId, quote: Q) | Resync(reason: Reason)

  type Queue<Q> = seq<Event<Q>>

  /** `put_nowait`, or a resync marker in place of everything when the queue is full. */
  function Enqueue<Q>(queue: Queue<Q>, e: Event<Q>): Queue<Q> {
    if |queue| < CLIENT_QUEUE_SIZE then queue + [e] else [Resync(QueueOverflow)]
  }

  /** A queue after these events. */
  function EnqueueAll<Q>(queue: Queue<Q>, events: Queue<Q>): Queue<Q> {
    if events == [] then queue else Enqueue(EnqueueAll(queue, events[..|events| - 1]), events[|events| - 1])
  }

  /** Sixty-four events fit, in their order. */
  lemma {:induction false} SixtyFourFit<Q>(queue: Queue<Q>, events: Queue<Q>)
    requires |queue| + |events| <= 64
    ensures EnqueueAll(queue, events) == queue + events
  {
    if events != [] {
      SixtyFourFit(queue, events[..|events| - 1]);
      assert events == events[..|events| - 1] + [events[|events| - 1]];
    }
  }

  /** The next one takes the place of all of them with one request for a snapshot. */
  lemma SixtyFifthOverflows<Q>(queue: Queue<Q>, events: Queue<Q>, last: Event<Q>)
    requires |queue| + |events| == 64
    ensures EnqueueAll(queue, events + [last]) == [Resync(QueueOverflow)]
  {
    assert (events + [last])[..|events|] == events;
    SixtyFourFit(queue, events);
  }

  /** Every queue after one event has been handed to all clients. */
  function Dispatched<Q>(clients: map<nat, Queue<Q>>, e: Event<Q>): map<nat, Queue<Q>> {
    map id | id in clients :: Enqueue(clients[id], e)
  }

  /** Every queue after a resync request. */
  function Resynced<Q>(clients: map<nat, Queue<Q>>, reason: Reason): map<nat, Queue<Q>> {
    map id | id in clients :: [Resync(reason)]
  }

  class PriceWebSocketHub<Q> {
    const maximumConnections: nat
    var clients: map<nat, Queue<Q>>
    var dispatching: bool

    ghost predicate Valid()
      reads this
    {
      && (forall id <- clients :: |clients[id]| <= CLIENT_QUEUE_SIZE)
      && |clients| <= maximumConnections
      && (dispatching <==> clients != map[])
    }

    constructor (maximumConnections: nat)
      ensures Valid() && clients == map[] && this.maximumConnections == maximumConnections
    {
      this.maximumConnections := maximumConnections;
      clients := map[];
      dispatching := false;
    }

    method Register(id: nat) returns (accepted: bool)
      requires Valid() && id !in clients
      modifies this
      ensures Valid()
      ensures accepted <==> |old(clients)| < maximumConnections
      ensures clients == if accepted then old(clients)[id := []] else old(clients)
    {
      if |clients| >= maximumConnections {
        return false;
      }
      clients := clients[id := []];
      assert id in clients;
      if !dispatching {
        dispatching := true;
      }
      accepted := true;
    }

    method Unregister(id: nat)
      requires Valid()
      modifies this
      ensures Valid()
      ensures clients == old(clients) - {id}
    {
      assert (clients - {id}).Keys <= clients.Keys;
      clients := clients - {id};
      KeysBound(clients, old(clients));
      if clients == map[] && dispatching {
        dispatching := false;
      }
    }

    /** Hand one event to the queue of every client. */
    method Dispatch(e: Event<Q>)
      requires Valid()
      modifies `clients
      ensures Valid()
      ensures clients == Dispatched(old(clients), e)
    {
      var targets := clients.Keys;
      while targets != {}
        invariant targets <= clients.Keys == old(clients).Keys
        invariant forall id <- clients ::
                    clients[id] == if id in targets then old(clients)[id] else Enqueue(old(clients)[id], e)
      {
        var id :| id in targets;
        var queue := clients[id];
        if |queue| < CLIENT_QUEUE_SIZE {
          queue := queue + [e];
        } else {
          while queue != []
          {
            queue := queue[1..];
          }
          queue := queue + [Resync(QueueOverflow)];
        }
        clients := clients[id := queue];
        targets := targets - {id};
      }
      KeysBound(clients, old(clients));
    }

    /** Replace what every client has pending by one request for a snapshot. */
    method RequestResync(reason: Reason)
      requires Valid()
      modifies `clients
      ensures Valid()
      ensures clients == Resynced(old(clients), reason)
    {
      var targets := clients.Keys;
      while targets != {}
        invariant targets <= clients.Keys == old(clients).Keys
        invariant forall id <- clients ::
                    clients[id] == if id in targets then old(clients)[id] else [Resync(reason)]
      {
        var id :| id in targets;
        var queue := clients[id];
        while queue != []
        {
          queue := queue[1..];
        }
        clients := clients[id := queue + [Resync(reason)]];
        targets := targets - {id};
      }
      KeysBound(clients, old(clients));
    }

    /** The event loop of a connection takes the oldest pending event. */
    method Take(id: nat) returns (e: Event<Q>)
      requires Valid() && id in clients && clients[id] != []
      modifies `clients
      ensures Valid()
      ensures e == old(clients)[id][0] && clients == old(clients)[id := old(clients)[id][1..]]
    {
      e := clients[id][0];
      clients := clients[id := clients[id][1..]];
      KeysBound(clients, old(clients));
    }
  }

  lemma KeysBound<K, V>(a: map<K, V>, b: map<K, V>)
    requires a.Keys <= b.Keys
    ensures |a| <= |b|
    ensures a.Keys == b.Keys ==> (a == map[] <==> b == map[])
  {
    SubsetSize(a.Keys, b.Keys);
  }

  lemma {:induction false} SubsetSize<K>(a: set<K>, b: set<K>)
    requires a <= b
    ensures |a| <= |b|
  {
    if a != {} {
      var x :| x in a;
      SubsetSize(a - {x}, b - {x});
    }
  }
}

/**
 The fan-out as a protocol: commits to the store, publications on the shared channel, the
 dispatcher with its reconnects, shared snapshot reads, and the clients' event loops, in any order.
 */
module Fanout {
  import opened Wrappers
  import opened Models
  import opened Hub

  type Prices<Q> = map<InstrumentId, Q>

  datatype Message<Q> = PriceMessage(instrument: InstrumentId, quote: Q) | Noise

  /** A shared snapshot read: what it has read once it has reached the store, and whether it has returned. */
  datatype Read<Q> = Read(snapshot: Option<Prices<Q>>, done: bool)

  /** A client shows its view, is about to ask for a snapshot, or waits for one. */
  datatype Phase = Showing | Asking | Waiting(read: nat)

  /**
   `outdated` are the reads that had already reached the store when the client was last told to take a
   snapshot: when it registered, or when a resync marker was put into its queue.
   */
  datatype Client<Q> = Client(
    queue: Queue<Q>, subscriptions: set<InstrumentId>, phase: Phase, view: Prices<Q>, outdated: set<nat>)

  /**
   `unpublished` holds the quotes that are in the store but not yet on the channel.  A later commit of
   the same instrument takes the place of one whose worker died before it published.  `synced` says that
   every client has been told to resynchronise since the subscription came up.
   */
  datatype State<Q> = State(
    store: Prices<Q>,
    unpublished: Prices<Q>,
    channel: seq<Message<Q>>,
    up: bool,
    synced: bool,
    clients: map<nat, Client<Q>>,
    fetches: map<nat, Read<Q>>,
    current: Option<nat>,
    nextRead: nat)

  datatype Step<Q> =
    | Commit(instrument: InstrumentId, quote: Q)
    | Publish(instrument: InstrumentId)
    | Garble
    | Drop
    | Subscribe
    | Announce
    | Dispatch
    | Register(id: nat, subscriptions: set<InstrumentId>)
    | Unregister(id: nat)
    | Take(id: nat)
    | Join(id: nat)
    | ReachStore(read: nat)
    | FinishRead(read: nat)
    | FailRead(read: nat)
    | Deliver(id: nat)

  function Init<Q>(): State<Q> {
    State(map[], map[], [], false, false, map[], map[], None, 0)
  }

  predicate Enabled<Q>(s: State<Q>, step: Step<Q>) {
    match step
    case Commit(_, _) => true
    case Publish(i) => i in s.unpublished
    case Garble => s.up
    case Drop => s.up
    case Subscribe => !s.up && s.clients != map[]
    case Announce => s.up && !s.synced
    case Dispatch => s.up && s.synced && s.channel != []
    case Register(id, _) => id !in s.clients
    case Unregister(id) => id in s.clients
    case Take(id) => id in s.clients && s.clients[id].phase.Showing? && s.clients[id].queue != []
    case Join(id) => id in s.clients && s.clients[id].phase.Asking?
    case ReachStore(t) => t in s.fetches && s.fetches[t].snapshot.None?
    case FinishRead(t) => t in s.fetches && s.fetches[t].snapshot.Some? && !s.fetches[t].done
    case FailRead(t) => s.current == Some(t)
    case Deliver(id) =>
      && id in s.clients && s.clients[id].phase.Waiting? && s.clients[id].phase.read in s.fetches
      && s.fetches[s.clients[id].phase.read].done
  }

  /** The reads that have been to the store. */
  function Reached<Q>(fetches: map<nat, Read<Q>>): set<nat> {
    set t | t in fetches && fetches[t].snapshot.Some?
  }

  /** The read a client gets from `_read_snapshot`: an unfinished one is shared, otherwise a new one starts. */
  function JoinedRead<Q>(s: State<Q>): nat {
    if s.current.Some? then s.current.value else s.nextRead
  }

  function WithJoinedRead<Q>(s: State<Q>): State<Q> {
    if s.current.Some? then s
    else s.(fetches := s.fetches[s.nextRead := Read(None, false)], current := Some(s.nextRead),
            nextRead := s.nextRead + 1)
  }

  predicate HasMarker<Q>(c: Client<Q>) {
    c.queue != [] && c.queue[0].Resync?
  }

  /** The client with a new queue; a marker at its head is a new request for a snapshot. */
  function WithQueue<Q>(c: Client<Q>, queue: Queue<Q>, reached: set<nat>): Client<Q> {
    c.(queue := queue, outdated := if |queue| == 1 && queue[0].Resync? then reached else c.outdated)
  }

  function WithQueues<Q>(s: State<Q>, queues: map<nat, Queue<Q>>): map<nat, Client<Q>>
    requires s.clients.Keys == queues.Keys
  {
    map id | id in s.clients :: WithQueue(s.clients[id], queues[id], Reached(s.fetches))
  }

  function Queues<Q>(clients: map<nat, Client<Q>>): map<nat, Queue<Q>> {
    map id | id in clients :: clients[id].queue
  }

  function Restrict<Q>(prices: Prices<Q>, subscriptions: set<InstrumentId>): Prices<Q> {
    map i | i in prices && i in subscriptions :: prices[i]
  }

  function Apply<Q>(s: State<Q>, step: Step<Q>): State<Q>
    requires Enabled(s, step)
  {
    match step
    case Commit(i, q) => s.(store := s.store[i := q], unpublished := s.unpublished[i := q])
    case Publish(i) =>
      s.(unpublished := s.unpublished - {i},
         channel := if s.up then s.channel + [PriceMessage(i, s.unpublished[i])] else s.channel)
    case Garble => s.(channel := s.channel + [Noise])
    case Drop => s.(up := false, synced := false, channel := [])
    case Subscribe => s.(up := true, channel := [])
    case Announce => s.(synced := true, clients := WithQueues(s, Resynced(Queues(s.clients), SubscriptionConnected)))
    case Dispatch =>
      var rest := s.channel[1..];
      if s.channel[0].Noise? then s.(channel := rest)
      else
        var e := Update(s.channel[0].instrument, s.channel[0].quote);
        s.(channel := rest, clients := WithQueues(s, Dispatched(Queues(s.clients), e)))
    case Register(id, subscriptions) =>
      s.(clients := s.clients[id := Client([], subscriptions, Asking, map[], Reached(s.fetches))])
    case Unregister(id) =>
      if s.clients - {id} == map[] then s.(clients := map[], up := false, synced := false, channel := [])
      else s.(clients := s.clients - {id})
    case Take(id) => s.(clients := s.clients[id := AfterTake(s.clients[id])])
    case Join(id) => WithJoinedRead(s).(clients := s.clients[id := s.clients[id].(phase := Waiting(JoinedRead(s)))])
    case ReachStore(t) => s.(fetches := s.fetches[t := s.fetches[t].(snapshot := Some(s.store))])
    case FinishRead(t) =>
      s.(fetches := s.fetches[t := s.fetches[t].(done := true)],
         current := if s.current == Some(t) then None else s.current)
    case FailRead(t) => s.(current := None)
    case Deliver(id) =>
      var c := s.clients[id];
      var read := s.fetches[c.phase.read];
      s.(clients := s.clients[id := c.(phase := Showing,
                                       view := Restrict(read.snapshot.GetOr(map[]), c.subscriptions))])
  }

  /** The event loop handles the oldest pending event. */
  function AfterTake<Q>(c: Client<Q>): Client<Q>
    requires c.queue != []
  {
    var rest := c.(queue := c.queue[1..]);
    match c.queue[0]
    case Update(i, q) => if i in c.subscriptions then rest.(view := c.view[i := q]) else rest
    case Resync(_) => rest.(phase := Asking)
  }

  // ----- leaving, losing the connection, failing to read ----------------------------------------------

  /** A client that leaves takes the connection with it exactly when it is the last, and touches nobody else. */
  lemma LeavingExactlyWhen<Q>(s: State<Q>, id: nat, other: nat)
    ensures Enabled(s, Unregister(id)) <==> id in s.clients
    ensures id in s.clients ==>
              var t := Apply(s, Unregister(id));
              && t.clients.Keys == s.clients.Keys - {id}
              && (other in s.clients && other != id ==> t.clients[other] == s.clients[other])
              && t.store == s.store && t.unpublished == s.unpublished && t.fetches == s.fetches
              && (if s.clients.Keys == {id} then !t.up && !t.synced && t.channel == []
                  else t.up == s.up && t.synced == s.synced && t.channel == s.channel)
  {
    if id in s.clients {
      var rest := s.clients - {id};
      assert rest.Keys == s.clients.Keys - {id};
      if rest.Keys == {} {
        assert rest == map[] && s.clients.Keys == {id};
      } else {
        assert rest != map[] && s.clients.Keys != {id};
      }
    }
  }

  /** Once the connection is lost, nothing is handed out and what is published goes nowhere, until a new one. */
  lemma LossExactlyWhen<Q>(s: State<Q>, i: InstrumentId)
    requires Enabled(s, Drop)
    ensures var t := Apply(s, Drop);
            && !Enabled(t, Dispatch) && !Enabled(t, Announce) && !Enabled(t, Garble)
            && (Enabled(t, Subscribe) <==> s.clients != map[])
            && (Enabled(t, Publish(i)) ==> Apply(t, Publish(i)).channel == [])
            && t.clients == s.clients && t.store == s.store
  {
  }

  /** Once the connection is back, everybody is asked to start over. */
  lemma AnnouncementReachesAll<Q>(s: State<Q>, id: nat)
    requires Enabled(s, Announce) && id in s.clients
    ensures var t := Apply(s, Announce);
            && t.synced && t.up && t.channel == s.channel
            && id in t.clients && t.clients[id].queue == [Resync(SubscriptionConnected)]
            && t.clients[id].view == s.clients[id].view && t.clients[id].phase == s.clients[id].phase
  {
  }

  /** Only the read in progress can fail; whoever asks next gets a new one. */
  lemma FailedReadIsReplaced<Q>(s: State<Q>, t: nat)
    ensures Enabled(s, FailRead(t)) <==> s.current == Some(t)
    ensures s.current == Some(t) ==>
              JoinedRead(Apply(s, FailRead(t))) == s.nextRead && Apply(s, FailRead(t)).clients == s.clients
  {
  }

  // ----- replaying what is on its way ---------------------------------------------------------

  function Get<Q>(m: Prices<Q>, i: InstrumentId): Option<Q> {
    if i in m then Some(m[i]) else None
  }

  function AfterEvent<Q>(base: Option<Q>, e: Event<Q>, i: InstrumentId): Option<Q> {
    if e.Update? && e.instrument == i then Some(e.quote) else base
  }

  /** The price of `i` after the updates of a queue. */
  function ReplayQueue<Q>(base: Option<Q>, queue: Queue<Q>, i: InstrumentId): Option<Q> {
    if queue == [] then base else AfterEvent(ReplayQueue(base, queue[..|queue| - 1], i), queue[|queue| - 1], i)
  }

  function AfterMessage<Q>(base: Option<Q>, m: Message<Q>, i: InstrumentId): Option<Q> {
    if m.PriceMessage? && m.instrument == i then Some(m.quote) else base
  }

  function ReplayChannel<Q>(base: Option<Q>, channel: seq<Message<Q>>, i: InstrumentId): Option<Q> {
    if channel == [] then base
      else AfterMessage(ReplayChannel(base, channel[..|channel| - 1], i), channel[|channel| - 1], i)
  }

  function ReplayUnpublished<Q>(base: Option<Q>, unpublished: Prices<Q>, i: InstrumentId): Option<Q> {
    if i in unpublished then Some(unpublished[i]) else base
  }

  /** What somebody who has `base` for `i` ends up with after a queue, the channel and what is about to be published. */
  function Eventually<Q>(s: State<Q>, base: Option<Q>, queue: Queue<Q>, i: InstrumentId): Option<Q> {
    ReplayUnpublished(ReplayChannel(ReplayQueue(base, queue, i), s.channel, i), s.unpublished, i)
  }

  /** Starting from these prices, the queue and everything after it lead to the store. */
  predicate LeadsBack<Q(==)>(s: State<Q>, prices: Prices<Q>, queue: Queue<Q>, i: InstrumentId) {
    Eventually(s, Get(prices, i), queue, i) == Get(s.store, i)
  }

  /** A client that is still going to ask for a snapshot. */
  predicate WillAsk<Q>(c: Client<Q>) {
    HasMarker(c) || c.phase.Asking?
  }

  /** The events a client will handle after the snapshot it is going to ask for, if it is. */
  function Pending<Q>(c: Client<Q>): Queue<Q> {
    if HasMarker(c) then c.queue[1..] else c.queue
  }

  /** What a client has before its queue: its view, or what its snapshot holds or is going to hold. */
  function Base<Q>(s: State<Q>, c: Client<Q>): Prices<Q> {
    if c.phase.Showing? then c.view
    else if c.phase.Waiting? && c.phase.read in s.fetches && s.fetches[c.phase.read].snapshot.Some?
    then s.fetches[c.phase.read].snapshot.value
    else s.store
  }

  /**
   Nothing is lost for this client and instrument.  If it is still going to ask, then both a new
   snapshot and every snapshot taken since it was told to ask lead to the store.
   */
  ghost predicate IsServed<Q>(s: State<Q>, c: Client<Q>, i: InstrumentId) {
    if WillAsk(c) then
      && LeadsBack(s, s.store, Pending(c), i)
      && (forall t <- s.fetches | t !in c.outdated && s.fetches[t].snapshot.Some? ::
            LeadsBack(s, s.fetches[t].snapshot.value, Pending(c), i))
    else LeadsBack(s, Base(s, c), c.queue, i)
  }

  // ----- the invariant ------------------------------------------------------------------------

  /** Starting from the store, the channel and what is about to be published lead back to the store. */
  ghost predicate ChannelInv<Q(!new)>(s: State<Q>) {
    && (forall i <- s.unpublished :: i in s.store && s.store[i] == s.unpublished[i])
    && (s.up ==> forall i: InstrumentId :: LeadsBack(s, s.store, [], i))
  }

  /** The client waits for a read that exists, and its outdated reads do. */
  predicate KnowsReads<Q>(fetches: map<nat, Read<Q>>, c: Client<Q>) {
    (c.phase.Waiting? ==> c.phase.read in fetches) && c.outdated <= fetches.Keys
  }

  ghost predicate ReadsInv<Q(!new)>(s: State<Q>) {
    && (forall t <- s.fetches :: t < s.nextRead && (s.fetches[t].done ==> s.fetches[t].snapshot.Some?))
    && (s.current.Some? ==> s.current.value in s.fetches && !s.fetches[s.current.value].done)
    && (forall id <- s.clients :: KnowsReads(s.fetches, s.clients[id]))
  }

  /** A queue is bounded, and a marker is only ever at its head. */
  predicate IsQueue<Q>(queue: Queue<Q>) {
    && |queue| <= 64
    && (forall k | 1 <= k < |queue| :: queue[k].Update?)
  }

  ghost predicate QueuesInv<Q(!new)>(s: State<Q>) {
    && (forall id <- s.clients :: IsQueue(s.clients[id].queue))
    && (s.synced ==> s.up)
  }

  /** Every client ends up with the latest price of everything it subscribed to. */
  ghost predicate NothingLost<Q(!new)>(s: State<Q>) {
    forall id <- s.clients :: forall i <- s.clients[id].subscriptions :: IsServed(s, s.clients[id], i)
  }

  ghost predicate Inv<Q(!new)>(s: State<Q>) {
    && ChannelInv(s) && ReadsInv(s) && QueuesInv(s)
    && (s.synced ==> NothingLost(s))
  }

  /**
   The snapshot hypothesis: a client that asks, and has not been told to ask again, does not get a read
   that had reached the store before it was told to.
   */
  predicate JoinsFresh<Q>(s: State<Q>, step: Step<Q>)
    requires Enabled(s, step)
  {
    step.Join? && !HasMarker(s.clients[step.id]) && s.current.Some? ==> s.current.value !in s.clients[step.id].outdated
  }

  // ----- replay lemmas ------------------------------------------------------------------------

  lemma {:induction false} ReplayQueueHead<Q>(base: Option<Q>, queue: Queue<Q>, i: InstrumentId)
    requires queue != []
    ensures ReplayQueue(base, queue, i) == ReplayQueue(AfterEvent(base, queue[0], i), queue[1..], i)
  {
    var n := |queue| - 1;
    if n > 0 {
      ReplayQueueHead(base, queue[..n], i);
      assert queue[..n][1..] == queue[1..][..n - 1];
    }
  }

  lemma ReplayQueueAppend<Q>(base: Option<Q>, queue: Queue<Q>, e: Event<Q>, i: InstrumentId)
    ensures ReplayQueue(base, queue + [e], i) == AfterEvent(ReplayQueue(base, queue, i), e, i)
  {
    assert (queue + [e])[..|queue|] == queue;
  }

  lemma {:induction false} ReplayChannelHead<Q>(base: Option<Q>, channel: seq<Message<Q>>, i: InstrumentId)
    requires channel != []
    ensures ReplayChannel(base, channel, i) == ReplayChannel(AfterMessage(base, channel[0], i), channel[1..], i)
  {
    var n := |channel| - 1;
    if n > 0 {
      ReplayChannelHead(base, channel[..n], i);
      assert channel[..n][1..] == channel[1..][..n - 1];
    }
  }

  lemma ReplayChannelAppend<Q>(base: Option<Q>, channel: seq<Message<Q>>, m: Message<Q>, i: InstrumentId)
    ensures ReplayChannel(base, channel + [m], i) == AfterMessage(ReplayChannel(base, channel, i), m, i)
  {
    assert (channel + [m])[..|channel|] == channel;
  }

  /** A channel either says nothing about `i` or decides its price whatever came before. */
  lemma {:induction false} ReplayChannelDecides<Q>(
    a: Option<Q>, b: Option<Q>, channel: seq<Message<Q>>, i: InstrumentId)
    ensures (ReplayChannel(a, channel, i) == a && ReplayChannel(b, channel, i) == b)
            || ReplayChannel(a, channel, i) == ReplayChannel(b, channel, i)
  {
    if channel != [] {
      ReplayChannelDecides(a, b, channel[..|channel| - 1], i);
    }
  }

  // ----- what leads back to the store keeps leading there ----------------------------------------

  /** Committing, publishing and noise: whoever was led to the store is led to the new one. */
  lemma StoreSideLeads<Q(!new)>(s: State<Q>, step: Step<Q>, prices: Prices<Q>, queue: Queue<Q>, i: InstrumentId)
    requires ChannelInv(s) && Enabled(s, step) && (step.Commit? || (step.Publish? && s.up) || step.Garble?)
    requires LeadsBack(s, prices, queue, i)
    ensures LeadsBack(Apply(s, step), prices, queue, i)
  {
    var before := ReplayQueue(Get(prices, i), queue, i);
    match step {
      case Publish(j) => ReplayChannelAppend(before, s.channel, PriceMessage(j, s.unpublished[j]), i);
      case Garble => ReplayChannelAppend(before, s.channel, Noise, i);
      case _ =>
    }
  }

  /** The same for somebody who starts from the store itself. */
  lemma StoreLeads<Q(!new)>(s: State<Q>, step: Step<Q>, queue: Queue<Q>, i: InstrumentId)
    requires ChannelInv(s) && Enabled(s, step) && (step.Commit? || (step.Publish? && s.up) || step.Garble?)
    requires LeadsBack(s, s.store, queue, i)
    ensures LeadsBack(Apply(s, step), Apply(s, step).store, queue, i)
  {
    StoreSideLeads(s, step, s.store, queue, i);
  }

  /** The head of the channel moves to the end of the queue. */
  lemma DispatchLeads<Q(!new)>(s: State<Q>, e: Event<Q>, prices: Prices<Q>, queue: Queue<Q>, i: InstrumentId)
    requires s.channel != [] && s.channel[0].PriceMessage? && e == Update(s.channel[0].instrument, s.channel[0].quote)
    requires LeadsBack(s, prices, queue, i)
    ensures LeadsBack(s.(channel := s.channel[1..]), prices, queue + [e], i)
  {
    ReplayQueueAppend(Get(prices, i), queue, e, i);
    ReplayChannelHead(ReplayQueue(Get(prices, i), queue, i), s.channel, i);
  }

  lemma NoiseLeads<Q(!new)>(s: State<Q>, prices: Prices<Q>, queue: Queue<Q>, i: InstrumentId)
    requires s.channel != [] && s.channel[0].Noise? && LeadsBack(s, prices, queue, i)
    ensures LeadsBack(s.(channel := s.channel[1..]), prices, queue, i)
  {
    ReplayChannelHead(ReplayQueue(Get(prices, i), queue, i), s.channel, i);
  }

  /** Without its head the channel still leads from the store to the store. */
  lemma ChannelTail<Q(!new)>(s: State<Q>, i: InstrumentId)
    requires s.channel != [] && LeadsBack(s, s.store, [], i)
    ensures LeadsBack(s.(channel := s.channel[1..]), s.store, [], i)
  {
    ReplayChannelHead(Get(s.store, i), s.channel, i);
    ReplayChannelDecides(AfterMessage(Get(s.store, i), s.channel[0], i), Get(s.store, i), s.channel[1..], i);
  }

  // ----- the store side -----------------------------------------------------------------------

  /** The steps that touch the store or the channel. */
  predicate IsStoreStep<Q>(step: Step<Q>) {
    step.Commit? || step.Publish? || step.Garble? || step.Drop? || step.Subscribe? || step.Dispatch? || step.Unregister?
  }

  lemma OtherStepsLeaveChannel<Q(!new)>(s: State<Q>, step: Step<Q>)
    requires Enabled(s, step) && !IsStoreStep(step)
    ensures SameFlow(s, Apply(s, step)) && Apply(s, step).up == s.up
  {
  }

  lemma StoreStepLeads<Q(!new)>(s: State<Q>, step: Step<Q>, i: InstrumentId)
    requires ChannelInv(s) && Enabled(s, step) && IsStoreStep(step) && Apply(s, step).up
    ensures LeadsBack(Apply(s, step), Apply(s, step).store, [], i)
  {
    if step.Subscribe? {
    } else {
      assert LeadsBack(s, s.store, [], i);
      if step.Dispatch? {
        ChannelTail(s, i);
      } else if step.Commit? || step.Publish? || step.Garble? {
        StoreLeads(s, step, [], i);
      }
    }
  }

  lemma ChannelStep<Q(!new)>(s: State<Q>, step: Step<Q>)
    requires ChannelInv(s) && Enabled(s, step)
    ensures ChannelInv(Apply(s, step))
  {
    var s' := Apply(s, step);
    if IsStoreStep(step) {
      forall i: InstrumentId | s'.up ensures LeadsBack(s', s'.store, [], i) {
        StoreStepLeads(s, step, i);
      }
    } else {
      OtherStepsLeaveChannel(s, step);
      forall i: InstrumentId | s'.up ensures LeadsBack(s', s'.store, [], i) {
        assert LeadsBack(s, s.store, [], i);
      }
    }
  }

  lemma JoinReads<Q(!new)>(s: State<Q>, id: nat)
    requires ReadsInv(s) && Enabled(s, Step.Join(id))
    ensures ReadsInv(Apply(s, Step.Join(id)))
  {
    forall d <- s.clients ensures KnowsReads(WithJoinedRead(s).fetches, Apply(s, Step.Join(id)).clients[d]) {
      assert KnowsReads(s.fetches, s.clients[d]);
    }
  }

  lemma QueuesChangeReads<Q(!new)>(s: State<Q>, queues: map<nat, Queue<Q>>)
    requires ReadsInv(s) && s.clients.Keys == queues.Keys
    ensures ReadsInv(s.(clients := WithQueues(s, queues)))
  {
    forall d <- s.clients ensures KnowsReads(s.fetches, WithQueues(s, queues)[d]) {
      assert KnowsReads(s.fetches, s.clients[d]);
    }
  }

  /** The parts that `ReadsInv` looks at besides the clients. */
  ghost predicate SameReads<Q>(s: State<Q>, t: State<Q>) {
    t.fetches == s.fetches && t.current == s.current && t.nextRead == s.nextRead
  }

  lemma OneClientReads<Q(!new)>(s: State<Q>, t: State<Q>, id: nat)
    requires ReadsInv(s) && SameReads(s, t)
    requires forall d <- t.clients | d != id :: d in s.clients && t.clients[d] == s.clients[d]
    requires id in t.clients ==> KnowsReads(s.fetches, t.clients[id])
    ensures ReadsInv(t)
  {
    forall d <- t.clients ensures KnowsReads(t.fetches, t.clients[d]) {
      assert d != id ==> KnowsReads(s.fetches, s.clients[d]);
    }
  }

  lemma ProgressReads<Q(!new)>(s: State<Q>, step: Step<Q>)
    requires ReadsInv(s) && Enabled(s, step) && (step.ReachStore? || step.FinishRead? || step.FailRead?)
    ensures ReadsInv(Apply(s, step))
  {
    forall d <- s.clients ensures KnowsReads(Apply(s, step).fetches, s.clients[d]) {
      assert KnowsReads(s.fetches, s.clients[d]);
    }
  }

  lemma ReadsStep<Q(!new)>(s: State<Q>, step: Step<Q>)
    requires ReadsInv(s) && Enabled(s, step)
    ensures ReadsInv(Apply(s, step))
  {
    if step.Join? {
      JoinReads(s, step.id);
    } else if step.Announce? {
      QueuesChangeReads(s, Resynced(Queues(s.clients), SubscriptionConnected));
    } else if step.Dispatch? {
      if s.channel[0].PriceMessage? {
        QueuesChangeReads(s, Dispatched(Queues(s.clients), Update(s.channel[0].instrument, s.channel[0].quote)));
      }
    } else if IsClientStep(step) {
      ClientStepReads(s, step);
    } else if step.ReachStore? || step.FinishRead? || step.FailRead? {
      ProgressReads(s, step);
    } else {
      FlowStepReads(s, step);
    }
  }

  lemma ClientStepReads<Q(!new)>(s: State<Q>, step: Step<Q>)
    requires ReadsInv(s) && Enabled(s, step) && IsClientStep(step) && !step.Join?
    ensures ReadsInv(Apply(s, step))
  {
    assert step.id in s.clients ==> KnowsReads(s.fetches, s.clients[step.id]);
    OnlyOneClientMoves(s, step);
    OneClientReads(s, Apply(s, step), step.id);
  }

  lemma OnlyOneClientMoves<Q(!new)>(s: State<Q>, step: Step<Q>)
    requires Enabled(s, step) && IsClientStep(step) && !step.Join?
    ensures SameReads(s, Apply(s, step))
    ensures forall d <- Apply(s, step).clients | d != step.id ::
              d in s.clients && Apply(s, step).clients[d] == s.clients[d]
  {
  }

  lemma FlowStepReads<Q(!new)>(s: State<Q>, step: Step<Q>)
    requires ReadsInv(s) && Enabled(s, step)
    requires step.Commit? || step.Publish? || step.Garble? || step.Drop? || step.Subscribe?
    ensures ReadsInv(Apply(s, step))
  {
  }

  lemma QueuesChange<Q(!new)>(s: State<Q>, step: Step<Q>, id: nat)
    requires QueuesInv(s) && Enabled(s, step) && (step.Announce? || step.Dispatch?) && id in s.clients
    ensures id in Apply(s, step).clients && IsQueue(Apply(s, step).clients[id].queue)
  {
    assert IsQueue(s.clients[id].queue);
  }

  lemma QueuesStep<Q(!new)>(s: State<Q>, step: Step<Q>)
    requires QueuesInv(s) && Enabled(s, step)
    ensures QueuesInv(Apply(s, step))
  {
    var s' := Apply(s, step);
    forall id <- s'.clients ensures IsQueue(s'.clients[id].queue) {
      if step.Announce? || step.Dispatch? {
        QueuesChange(s, step, id);
      } else {
        assert id in s.clients ==> IsQueue(s.clients[id].queue);
      }
    }
  }

  // ----- the clients --------------------------------------------------------------------------

  /** The parts of the state that decide where prices lead. */
  ghost predicate SameFlow<Q>(s: State<Q>, t: State<Q>) {
    t.store == s.store && t.unpublished == s.unpublished && t.channel == s.channel
  }

  /** A client is served in the same way where it sees the same reads and the same flow. */
  lemma SameIsServed<Q(!new)>(s: State<Q>, t: State<Q>, c: Client<Q>, i: InstrumentId)
    requires SameFlow(s, t) && s.fetches == t.fetches && IsServed(s, c, i)
    ensures IsServed(t, c, i)
  {
    if WillAsk(c) {
      assert LeadsBack(s, s.store, Pending(c), i);
      forall r <- t.fetches | r !in c.outdated && t.fetches[r].snapshot.Some?
        ensures LeadsBack(t, t.fetches[r].snapshot.value, Pending(c), i)
      {
        assert LeadsBack(s, s.fetches[r].snapshot.value, Pending(c), i);
      }
    } else {
      assert LeadsBack(s, Base(s, c), c.queue, i);
    }
  }

  lemma StoreSideServes<Q(!new)>(s: State<Q>, step: Step<Q>, c: Client<Q>, i: InstrumentId)
    requires ChannelInv(s) && Enabled(s, step) && (step.Commit? || (step.Publish? && s.up) || step.Garble?)
    requires IsServed(s, c, i)
    ensures IsServed(Apply(s, step), c, i)
  {
    var s' := Apply(s, step);
    if WillAsk(c) {
      StoreLeads(s, step, Pending(c), i);
      forall t <- s'.fetches | t !in c.outdated && s'.fetches[t].snapshot.Some?
        ensures LeadsBack(s', s'.fetches[t].snapshot.value, Pending(c), i)
      {
        StoreSideLeads(s, step, s.fetches[t].snapshot.value, Pending(c), i);
      }
    } else if Base(s, c) == s.store && Base(s', c) == s'.store {
      StoreLeads(s, step, c.queue, i);
    } else {
      StoreSideLeads(s, step, Base(s, c), c.queue, i);
    }
  }

  /** A fresh marker asks for everything: no earlier read counts, and the store leads to the store. */
  lemma MarkerServes<Q(!new)>(s: State<Q>, c: Client<Q>, i: InstrumentId)
    requires LeadsBack(s, s.store, [], i) && WillAsk(c) && Pending(c) == [] && c.outdated == Reached(s.fetches)
    ensures IsServed(s, c, i)
  {
  }

  lemma EnqueueServes<Q(!new)>(s: State<Q>, e: Event<Q>, c: Client<Q>, i: InstrumentId)
    requires s.channel != [] && s.channel[0].PriceMessage? && e == Update(s.channel[0].instrument, s.channel[0].quote)
    requires IsServed(s, c, i)
    ensures IsServed(s.(channel := s.channel[1..]), c.(queue := c.queue + [e]), i)
  {
    var s' := s.(channel := s.channel[1..]);
    var c' := c.(queue := c.queue + [e]);
    if WillAsk(c) {
      assert Pending(c') == Pending(c) + [e];
      DispatchLeads(s, e, s.store, Pending(c), i);
      forall t <- s'.fetches | t !in c.outdated && s'.fetches[t].snapshot.Some?
        ensures LeadsBack(s', s'.fetches[t].snapshot.value, Pending(c'), i)
      {
        DispatchLeads(s, e, s.fetches[t].snapshot.value, Pending(c), i);
      }
    } else {
      DispatchLeads(s, e, Base(s, c), c.queue, i);
    }
  }

  lemma NoiseServes<Q(!new)>(s: State<Q>, c: Client<Q>, i: InstrumentId)
    requires s.channel != [] && s.channel[0].Noise? && IsServed(s, c, i)
    ensures IsServed(s.(channel := s.channel[1..]), c, i)
  {
    var s' := s.(channel := s.channel[1..]);
    if WillAsk(c) {
      NoiseLeads(s, s.store, Pending(c), i);
      forall t <- s'.fetches | t !in c.outdated && s'.fetches[t].snapshot.Some?
        ensures LeadsBack(s', s'.fetches[t].snapshot.value, Pending(c), i)
      {
        NoiseLeads(s, s.fetches[t].snapshot.value, Pending(c), i);
      }
    } else {
      NoiseLeads(s, Base(s, c), c.queue, i);
    }
  }

  /** One event for one client: appended, or a marker in place of a full queue. */
  lemma DispatchToServes<Q(!new)>(s: State<Q>, e: Event<Q>, c: Client<Q>, i: InstrumentId)
    requires s.channel != [] && s.channel[0].PriceMessage? && e == Update(s.channel[0].instrument, s.channel[0].quote)
    requires LeadsBack(s, s.store, [], i) && IsServed(s, c, i)
    ensures IsServed(s.(channel := s.channel[1..]), WithQueue(c, Enqueue(c.queue, e), Reached(s.fetches)), i)
  {
    if |c.queue| < CLIENT_QUEUE_SIZE {
      EnqueueServes(s, e, c, i);
    } else {
      ChannelTail(s, i);
      MarkerServes(s.(channel := s.channel[1..]), WithQueue(c, Enqueue(c.queue, e), Reached(s.fetches)), i);
    }
  }

  lemma DispatchServes<Q(!new)>(s: State<Q>, id: nat, i: InstrumentId)
    requires ChannelInv(s) && Enabled(s, Step.Dispatch) && id in s.clients && IsServed(s, s.clients[id], i)
    ensures var s' := Apply(s, Step.Dispatch);
            id in s'.clients && IsServed(s', s'.clients[id], i)
  {
    var s' := Apply(s, Step.Dispatch);
    var flow := s.(channel := s.channel[1..]);
    if s.channel[0].Noise? {
      NoiseServes(s, s.clients[id], i);
    } else {
      assert LeadsBack(s, s.store, [], i);
      DispatchToServes(s, Update(s.channel[0].instrument, s.channel[0].quote), s.clients[id], i);
    }
    SameIsServed(flow, s', s'.clients[id], i);
  }

  /** A read that reaches the store sees what a new snapshot would hold. */
  lemma ReachServes<Q(!new)>(s: State<Q>, read: nat, c: Client<Q>, i: InstrumentId)
    requires Enabled(s, ReachStore(read)) && IsServed(s, c, i)
    ensures IsServed(Apply(s, ReachStore(read)), c, i)
  {
    var s' := Apply(s, ReachStore(read));
    if WillAsk(c) {
      assert LeadsBack(s, s.store, Pending(c), i);
      forall t <- s'.fetches | t !in c.outdated && s'.fetches[t].snapshot.Some?
        ensures LeadsBack(s', s'.fetches[t].snapshot.value, Pending(c), i)
      {
        assert t != read ==> LeadsBack(s, s.fetches[t].snapshot.value, Pending(c), i);
      }
    } else {
      assert LeadsBack(s, Base(s, c), c.queue, i) && Base(s', c) == Base(s, c);
    }
  }

  lemma FinishServes<Q(!new)>(s: State<Q>, read: nat, c: Client<Q>, i: InstrumentId)
    requires read in s.fetches && IsServed(s, c, i)
    ensures IsServed(s.(fetches := s.fetches[read := s.fetches[read].(done := true)]), c, i)
  {
    var s' := s.(fetches := s.fetches[read := s.fetches[read].(done := true)]);
    if WillAsk(c) {
      assert LeadsBack(s, s.store, Pending(c), i);
      forall t <- s'.fetches | t !in c.outdated && s'.fetches[t].snapshot.Some?
        ensures LeadsBack(s', s'.fetches[t].snapshot.value, Pending(c), i)
      {
        assert LeadsBack(s, s.fetches[t].snapshot.value, Pending(c), i);
      }
    } else {
      assert LeadsBack(s, Base(s, c), c.queue, i) && Base(s', c) == Base(s, c);
    }
  }

  /** Handling an update moves it from the queue into the view; handling a marker changes nothing but the phase. */
  lemma TakeServes<Q(!new)>(s: State<Q>, c: Client<Q>, i: InstrumentId)
    requires c.queue != [] && c.phase.Showing? && IsQueue(c.queue) && i in c.subscriptions && IsServed(s, c, i)
    ensures IsServed(s, AfterTake(c), i)
  {
    var after := AfterTake(c);
    assert !HasMarker(after);
    if c.queue[0].Update? {
      assert LeadsBack(s, c.view, c.queue, i);
      ReplayQueueHead(Get(c.view, i), c.queue, i);
      assert Get(after.view, i) == AfterEvent(Get(c.view, i), c.queue[0], i);
      assert LeadsBack(s, after.view, after.queue, i);
    }
  }

  /** Starting a read does not concern anybody yet. */
  lemma NewReadServes<Q(!new)>(s: State<Q>, c: Client<Q>, i: InstrumentId)
    requires ReadsInv(s) && (c.phase.Waiting? ==> c.phase.read in s.fetches) && IsServed(s, c, i)
    ensures IsServed(WithJoinedRead(s), c, i)
  {
    var s' := WithJoinedRead(s);
    if WillAsk(c) {
      assert LeadsBack(s, s.store, Pending(c), i);
      forall t <- s'.fetches | t !in c.outdated && s'.fetches[t].snapshot.Some?
        ensures LeadsBack(s', s'.fetches[t].snapshot.value, Pending(c), i)
      {
        assert LeadsBack(s, s.fetches[t].snapshot.value, Pending(c), i);
      }
    } else {
      assert LeadsBack(s, Base(s, c), c.queue, i) && Base(s', c) == Base(s, c);
    }
  }

  /** Joining a read that is not outdated: the client has been promised that such a snapshot leads to the store. */
  lemma JoinServes<Q(!new)>(s: State<Q>, c: Client<Q>, i: InstrumentId)
    requires c.phase.Asking? && s.current.Some? && s.current.value in s.fetches && IsServed(s, c, i)
    requires !HasMarker(c) ==> s.current.value !in c.outdated
    ensures IsServed(s, c.(phase := Waiting(s.current.value)), i)
  {
    var joined := c.(phase := Waiting(s.current.value));
    if !HasMarker(c) {
      assert LeadsBack(s, s.store, Pending(c), i);
      assert LeadsBack(s, Base(s, joined), joined.queue, i);
    }
  }

  lemma JoinStepServes<Q(!new)>(s: State<Q>, id: nat, i: InstrumentId)
    requires ReadsInv(s) && Enabled(s, Step.Join(id)) && JoinsFresh(s, Step.Join(id)) && IsServed(s, s.clients[id], i)
    ensures var s' := Apply(s, Step.Join(id));
            IsServed(s', s'.clients[id], i)
  {
    var s' := Apply(s, Step.Join(id));
    NewReadServes(s, s.clients[id], i);
    JoinServes(WithJoinedRead(s), s.clients[id], i);
    SameIsServed(WithJoinedRead(s), s', s'.clients[id], i);
  }

  lemma DeliverServes<Q(!new)>(s: State<Q>, id: nat, i: InstrumentId)
    requires ReadsInv(s) && Enabled(s, Step.Deliver(id)) && i in s.clients[id].subscriptions
             && IsServed(s, s.clients[id], i)
    ensures var s' := Apply(s, Step.Deliver(id));
            IsServed(s', s'.clients[id], i)
  {
    var c, s' := s.clients[id], Apply(s, Step.Deliver(id));
    ShowServes(s, c, Restrict(Base(s, c), c.subscriptions), i);
    SameIsServed(s, s', s'.clients[id], i);
  }

  /** Showing the snapshot it waited for, the client is served as before. */
  lemma ShowServes<Q(!new)>(s: State<Q>, c: Client<Q>, view: Prices<Q>, i: InstrumentId)
    requires c.phase.Waiting? && Get(view, i) == Get(Base(s, c), i) && IsServed(s, c, i)
    ensures IsServed(s, c.(phase := Showing, view := view), i)
  {
    if !HasMarker(c) {
      assert LeadsBack(s, Base(s, c), c.queue, i);
      assert LeadsBack(s, view, c.queue, i);
    }
  }

  /** A client is not affected when another one registers, leaves, handles an event, asks or is served. */
  lemma BystanderServes<Q(!new)>(s: State<Q>, step: Step<Q>, id: nat, i: InstrumentId)
    requires ReadsInv(s) && Enabled(s, step) && id in s.clients && id in Apply(s, step).clients && Apply(s, step).synced
    requires (step.Register? || step.Unregister? || step.Take? || step.Join? || step.Deliver?) && step.id != id
    requires IsServed(s, s.clients[id], i)
    ensures IsServed(Apply(s, step), Apply(s, step).clients[id], i)
  {
    if step.Join? {
      NewReadServes(s, s.clients[id], i);
      SameIsServed(WithJoinedRead(s), Apply(s, step), s.clients[id], i);
    } else {
      SameIsServed(s, Apply(s, step), s.clients[id], i);
    }
  }

  /** The steps of the client's own event loop. */
  lemma OwnStepServes<Q(!new)>(s: State<Q>, step: Step<Q>, id: nat, i: InstrumentId)
    requires Inv(s) && Enabled(s, step) && JoinsFresh(s, step) && id in s.clients && i in s.clients[id].subscriptions
    requires (step.Take? || step.Join? || step.Deliver?) && step.id == id
    requires IsServed(s, s.clients[id], i)
    ensures IsServed(Apply(s, step), Apply(s, step).clients[id], i)
  {
    match step {
      case Take(_) =>
        TakeServes(s, s.clients[id], i);
        SameIsServed(s, Apply(s, step), AfterTake(s.clients[id]), i);
      case Join(_) => JoinStepServes(s, id, i);
      case Deliver(_) => DeliverServes(s, id, i);
    }
  }

  /** The steps that are nobody's own. */
  lemma SharedStepServes<Q(!new)>(s: State<Q>, step: Step<Q>, id: nat, i: InstrumentId)
    requires Inv(s) && s.synced && Enabled(s, step) && Apply(s, step).synced && id in s.clients
             && IsServed(s, s.clients[id], i)
    requires step.Commit? || step.Publish? || step.Garble? || step.Dispatch? || step.ReachStore? || step.FinishRead?
             || step.FailRead?
    ensures id in Apply(s, step).clients
    ensures IsServed(Apply(s, step), Apply(s, step).clients[id], i)
  {
    if step.Dispatch? {
      DispatchServes(s, id, i);
    } else if step.ReachStore? {
      ReachServes(s, step.read, s.clients[id], i);
    } else if step.FinishRead? {
      FinishServes(s, step.read, s.clients[id], i);
      SameIsServed(s.(fetches := Apply(s, step).fetches), Apply(s, step), s.clients[id], i);
    } else if step.FailRead? {
      SameIsServed(s, Apply(s, step), s.clients[id], i);
    } else {
      StoreSideServes(s, step, s.clients[id], i);
    }
  }

  predicate IsClientStep<Q>(step: Step<Q>) {
    step.Register? || step.Unregister? || step.Take? || step.Join? || step.Deliver?
  }

  lemma ClientServes<Q(!new)>(s: State<Q>, step: Step<Q>, id: nat, i: InstrumentId)
    requires Inv(s) && s.synced && Enabled(s, step) && JoinsFresh(s, step) && Apply(s, step).synced
    requires id in s.clients && id in Apply(s, step).clients && i in s.clients[id].subscriptions
    requires !step.Announce? && IsServed(s, s.clients[id], i)
    ensures IsServed(Apply(s, step), Apply(s, step).clients[id], i)
  {
    if !IsClientStep(step) {
      SharedStepServes(s, step, id, i);
    } else if step.id != id {
      BystanderServes(s, step, id, i);
    } else {
      OwnStepServes(s, step, id, i);
    }
  }

  lemma AnnounceServes<Q(!new)>(s: State<Q>, id: nat, i: InstrumentId)
    requires ChannelInv(s) && Enabled(s, Announce) && id in s.clients
    ensures IsServed(Apply(s, Announce), Apply(s, Announce).clients[id], i)
  {
    assert LeadsBack(s, s.store, [], i);
    MarkerServes(s, Apply(s, Announce).clients[id], i);
    SameIsServed(s, Apply(s, Announce), Apply(s, Announce).clients[id], i);
  }

  lemma NewcomerServes<Q(!new)>(s: State<Q>, id: nat, subscriptions: set<InstrumentId>, i: InstrumentId)
    requires ChannelInv(s) && s.up && Enabled(s, Step.Register(id, subscriptions))
    ensures var s' := Apply(s, Step.Register(id, subscriptions));
            IsServed(s', s'.clients[id], i)
  {
    var s' := Apply(s, Step.Register(id, subscriptions));
    assert LeadsBack(s, s.store, [], i);
    MarkerServes(s, s'.clients[id], i);
    SameIsServed(s, s', s'.clients[id], i);
  }

  /** Subscriptions stay as registered; only newcomers add any. */
  lemma SubscriptionsAreFixed<Q(!new)>(s: State<Q>, step: Step<Q>, id: nat)
    requires Enabled(s, step) && id in Apply(s, step).clients
    ensures id in s.clients || (step.Register? && step.id == id)
    ensures id in s.clients ==> Apply(s, step).clients[id].subscriptions == s.clients[id].subscriptions
  {
  }

  lemma NothingLostStep<Q(!new)>(s: State<Q>, step: Step<Q>)
    requires Inv(s) && Enabled(s, step) && JoinsFresh(s, step) && Apply(s, step).synced
    ensures NothingLost(Apply(s, step))
  {
    var s' := Apply(s, step);
    forall id, i | id in s'.clients && i in s'.clients[id].subscriptions ensures IsServed(s', s'.clients[id], i) {
      SubscriptionsAreFixed(s, step, id);
      if step.Announce? {
        AnnounceServes(s, id, i);
      } else if step.Register? && step.id == id {
        NewcomerServes(s, id, step.subscriptions, i);
      } else {
        assert IsServed(s, s.clients[id], i);
        ClientServes(s, step, id, i);
      }
    }
  }

  lemma StepKeepsInv<Q(!new)>(s: State<Q>, step: Step<Q>)
    requires Inv(s) && Enabled(s, step) && JoinsFresh(s, step)
    ensures Inv(Apply(s, step))
  {
    ChannelStep(s, step);
    ReadsStep(s, step);
    QueuesStep(s, step);
    if Apply(s, step).synced {
      NothingLostStep(s, step);
    }
  }

  // ----- runs ---------------------------------------------------------------------------------

  /** The state after a run, if every step was enabled when it was taken. */
  function After<Q>(steps: seq<Step<Q>>): Option<State<Q>> {
    if steps == [] then Some(Init()) else
      var before := After(steps[..|steps| - 1]);
      if before.Some?
        && Enabled(before.value, steps[|steps| - 1]) then Some(Apply(before.value, steps[|steps| - 1])) else None
  }

  /** No client is given a snapshot that was taken before it was told to ask for one. */
  predicate AllJoinFresh<Q>(steps: seq<Step<Q>>)
    requires After(steps).Some?
  {
    steps == [] || (AllJoinFresh(steps[..|steps| - 1])
      && JoinsFresh(After(steps[..|steps| - 1]).value, steps[|steps| - 1]))
  }

  /**
   Through overflow, reconnects and shared reads, in every reachable state in which the subscription
   is up and announced, what is pending for a client leads from what it has, or from any snapshot it
   may still be given, to the latest price of everything it subscribed to.
   */
  lemma {:induction false} ReachableLosesNothing<Q(!new)>(steps: seq<Step<Q>>)
    requires After(steps).Some? && AllJoinFresh(steps)
    ensures Inv(After(steps).value)
  {
    if steps != [] {
      var n := |steps| - 1;
      ReachableLosesNothing(steps[..n]);
      StepKeepsInv(After(steps[..n]).value, steps[n]);
    }
  }

  /** Nothing is under way to this client or to the channel. */
  predicate IsQuiet<Q>(s: State<Q>, id: nat) {
    && s.synced && s.channel == [] && s.unpublished == map[]
    && id in s.clients && s.clients[id].phase.Showing? && s.clients[id].queue == []
  }

  /** So a client with nothing pending shows the store. */
  lemma QuietClientIsCurrent<Q(!new)>(steps: seq<Step<Q>>, id: nat)
    requires After(steps).Some? && AllJoinFresh(steps) && IsQuiet(After(steps).value, id)
    ensures var s := After(steps).value;
            forall i <- s.clients[id].subscriptions :: Get(s.clients[id].view, i) == Get(s.store, i)
  {
    ReachableLosesNothing(steps);
    var s := After(steps).value;
    forall i <- s.clients[id].subscriptions ensures Get(s.clients[id].view, i) == Get(s.store, i) {
      assert IsServed(s, s.clients[id], i);
    }
  }

  /** A client only ever shows what it subscribed to. */
  ghost predicate ShowsSubscribed<Q(!new)>(s: State<Q>) {
    forall id <- s.clients :: ShowsOwn(s.clients[id])
  }

  predicate ShowsOwn<Q>(c: Client<Q>) {
    c.view.Keys <= c.subscriptions
  }

  lemma TakeShowsOwn<Q>(c: Client<Q>)
    requires ShowsOwn(c) && c.queue != []
    ensures ShowsOwn(AfterTake(c))
  {
  }

  lemma ShowsStep<Q(!new)>(s: State<Q>, step: Step<Q>, id: nat)
    requires ShowsSubscribed(s) && Enabled(s, step) && id in Apply(s, step).clients
    ensures ShowsOwn(Apply(s, step).clients[id])
  {
    if step.Take? {
      TakeShowsOwn(s.clients[step.id]);
    }
  }

  lemma {:induction false} ReachableShowsSubscribed<Q(!new)>(steps: seq<Step<Q>>)
    requires After(steps).Some?
    ensures ShowsSubscribed(After(steps).value)
  {
    if steps != [] {
      var n := |steps| - 1;
      ReachableShowsSubscribed(steps[..n]);
      forall id <- After(steps).value.clients
        ensures ShowsOwn(After(steps).value.clients[id])
      {
        ShowsStep(After(steps[..n]).value, steps[n], id);
      }
    }
  }

  // ----- shared reads, late and too late ---------------------------------------------------------

  lemma Extend<Q>(steps: seq<Step<Q>>, s: State<Q>, step: Step<Q>) returns (steps': seq<Step<Q>>, s': State<Q>)
    requires After(steps) == Some(s) && Enabled(s, step)
    ensures s' == Apply(s, step) && After(steps') == Some(s') && steps' == steps + [step]
    ensures AllJoinFresh(steps) && JoinsFresh(s, step) ==> AllJoinFresh(steps')
  {
    steps', s' := steps + [step], Apply(s, step);
    assert steps'[..|steps|] == steps;
  }

  // Two runs that differ in one thing: whether the second client registers before or after the read.

  lemma FirstClientAsks() returns (steps: seq<Step<nat>>, s: State<nat>)
    ensures After(steps) == Some(s) && AllJoinFresh(steps)
    ensures s.store == map[] && s.unpublished == map[] && s.channel == [] && s.up && s.synced
    ensures s.clients.Keys == {0} && s.clients[0].phase.Asking? && HasMarker(s.clients[0])
    ensures s.fetches == map[] && s.current == None && s.nextRead == 0
  {
    steps, s := [], Init();
    steps, s := Extend(steps, s, Register(0, {BtcUsd}));
    assert s.clients != map[] by { assert 0 in s.clients; }
    steps, s := Extend(steps, s, Subscribe);
    steps, s := Extend(steps, s, Announce);
  }

  /** A read is under way and has been to the empty store. */
  lemma FirstClientReads(steps: seq<Step<nat>>, s: State<nat>) returns (steps': seq<Step<nat>>, s': State<nat>)
    requires After(steps) == Some(s) && AllJoinFresh(steps)
    requires s.store == map[] && s.fetches == map[] && s.current == None && s.nextRead == 0
    requires 0 in s.clients && s.clients[0].phase.Asking?
    ensures After(steps') == Some(s') && AllJoinFresh(steps')
    ensures SameFlow(s, s') && s'.up == s.up && s'.synced == s.synced
    ensures s'.clients == s.clients[0 := s.clients[0].(phase := Waiting(0))]
    ensures s'.fetches == map[0 := Read(Some(map[]), false)] && s'.current == Some(0)
  {
    steps', s' := Extend(steps, s, Join(0));
    steps', s' := Extend(steps', s', ReachStore(0));
  }

  /** An update comes through to whoever is registered. */
  lemma UpdateComesThrough(steps: seq<Step<nat>>, s: State<nat>) returns (steps': seq<Step<nat>>, s': State<nat>)
    requires After(steps) == Some(s) && AllJoinFresh(steps)
    requires s.unpublished == map[] && s.channel == [] && s.up && s.synced
    ensures After(steps') == Some(s') && AllJoinFresh(steps')
    ensures s'.store == s.store[BtcUsd := 1] && s'.unpublished == map[] && s'.channel == [] && s'.up && s'.synced
    ensures SameReads(s, s') && s'.clients == WithQueues(s, Dispatched(Queues(s.clients), Update(BtcUsd, 1)))
  {
    steps', s' := Extend(steps, s, Commit(BtcUsd, 1));
    steps', s' := Extend(steps', s', Publish(BtcUsd));
    steps', s' := Extend(steps', s', Dispatch);
  }

  lemma SecondClientIsServed(steps: seq<Step<nat>>, s: State<nat>) returns (steps': seq<Step<nat>>, s': State<nat>)
    requires After(steps) == Some(s) && s.fetches == map[0 := Read(Some(map[]), false)] && s.current == Some(0)
    requires 1 in s.clients && s.clients[1].phase.Asking?
    ensures After(steps') == Some(s') && SameFlow(s, s') && s'.synced == s.synced
    ensures 1 in s'.clients && s'.clients[1] == s.clients[1].(phase := Showing, view := map[])
    ensures AllJoinFresh(steps) && JoinsFresh(s, Join(1)) ==> AllJoinFresh(steps')
  {
    steps', s' := Extend(steps, s, Join(1));
    steps', s' := Extend(steps', s', FinishRead(0));
    steps', s' := Extend(steps', s', Deliver(1));
  }

  /**
   Sharing a read that has already been to the store is covered as long as it went there after the
   client registered: the update that came in between is in the client's queue.
   */
  lemma LateJoinIsCovered() returns (steps: seq<Step<nat>>)
    ensures After(steps).Some? && AllJoinFresh(steps)
    ensures var s := After(steps).value;
            1 in s.clients && s.clients[1] == Client([Update(BtcUsd, 1)], {BtcUsd}, Showing, map[], {})
  {
    var s: State<nat>;
    steps, s := FirstClientAsks();
    steps, s := Extend(steps, s, Register(1, {BtcUsd}));
    steps, s := FirstClientReads(steps, s);
    steps, s := UpdateComesThrough(steps, s);
    steps, s := SecondClientIsServed(steps, s);
  }

  /**
   The hypothesis is needed.  A second client registers and joins a read that had already been to the
   store; the update that came in between went only to the first client's queue, and the second one
   stays behind with nothing pending.
   */
  lemma StaleJoinLosesUpdate() returns (steps: seq<Step<nat>>)
    ensures After(steps).Some? && IsQuiet(After(steps).value, 1)
    ensures After(steps).value.clients[1].subscriptions == {BtcUsd}
    ensures Get(After(steps).value.clients[1].view, BtcUsd) != Get(After(steps).value.store, BtcUsd)
  {
    var s: State<nat>;
    steps, s := FirstClientAsks();
    steps, s := FirstClientReads(steps, s);
    steps, s := UpdateComesThrough(steps, s);
    steps, s := Extend(steps, s, Register(1, {BtcUsd}));
    steps, s := SecondClientIsServed(steps, s);
  }
}
