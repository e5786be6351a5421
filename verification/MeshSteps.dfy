/** One call on a mesh as a step, and what a step can do to routes and deliveries. */
module MeshSteps {
  import opened Wrappers
  import opened Sums
  import opened MeshState
  import opened MeshInvariant

  /** One message, after maintenance. */
  ghost function Received(c: Contents, m: Mesh, source: Peer, message: Message, waiting: seq<Peer>, selected: seq<Peer>,
                          now: nat): Step
  {
    Handled(c, Prune(m, now), source, message, waiting, selected, now)
  }

  ghost function Handled(c: Contents, p: Mesh, source: Peer, message: Message, waiting: seq<Peer>, selected: seq<Peer>,
                         now: nat): Step
  {
    match message
    case Inventory(id, kind, bytes, hops) => ReceiveInventory(p, source, id, kind, bytes, hops, now)
    case Want(id) => ReceiveWant(p, source, id, now)
    case Frame(id, event) => ReceiveFrame(c, p, source, id, event, waiting, selected, now)
  }

  lemma ReceivedKeeps(c: Contents, p: Mesh, source: Peer, message: Message, now: nat)
    requires LockStep(c, p, now) && Current(p, now)
    ensures message.Inventory? ==>
              LockStep(c, ReceiveInventory(p, source, message.id, message.kind, message.bytes, message.hops, now).mesh, now)
    ensures message.Want? ==> LockStep(c, ReceiveWant(p, source, message.id, now).mesh, now)
  {
    hide LockStep, Current, ReceiveInventory, ReceiveWant;
    if message.Inventory? { InventoryKeeps(c, p, source, message.id, message.kind, message.bytes, message.hops, now); }
    if message.Want? { WantKeeps(c, p, source, message.id, now); }
  }

  ghost predicate Lists(order: seq<Peer>, peers: set<Peer>) {
    |order| == |peers| && forall p :: p in order <==> p in peers
  }

  /** A frame that is accepted goes to exactly the peers waiting for it. */
  ghost predicate Fair(c: Contents, p: Mesh, source: Peer, message: Message, waiting: seq<Peer>) {
    (message.Frame? && Requested(c, p, source, message.id, message.event) && !p.routes[message.id].fulfilled
     && message.id in p.pending)
    ==> Lists(waiting, p.pending[message.id].peers)
  }

  /** A frame that is accepted for the first time, and whose event may go further. */
  ghost predicate PassesOn(c: Contents, p: Mesh, source: Peer, message: Message) {
    && message.Frame? && Requested(c, p, source, message.id, message.event)
    && !p.routes[message.id].fulfilled && p.routes[message.id].hops > 1
  }

  /** Storing an event leaves everything but the cache as it is. */
  lemma {:induction false} MakeRoomElsewhere(m: Mesh, bytes: nat)
    ensures OnlyCache(m, MakeRoom(m, bytes))
    decreases |m.cacheOrder|
  {
    if (|m.cached| >= m.options.maxCachedEvents || m.cachedBytes + bytes > m.options.maxCachedBytes) && m.cacheOrder != [] {
      var oldest, rest := m.cacheOrder[0], m.cacheOrder[1..];
      if oldest in m.cached {
        MakeRoomElsewhere(m.(cacheOrder := rest, cached := m.cached - {oldest},
                             cachedBytes := SaturatingSub(m.cachedBytes, m.cached[oldest].bytes)), bytes);
      } else {
        MakeRoomElsewhere(m.(cacheOrder := rest), bytes);
      }
    }
  }

  lemma StoreElsewhere(c: Contents, m: Mesh, event: Event, now: nat)
    ensures OnlyCache(m, Store(c, m, event, now))
  {
    hide MakeRoom;
    MakeRoomElsewhere(m, c.bytes(event.id));
  }

  lemma {:induction false} ForgetDeliveredElsewhere(m: Mesh)
    ensures OnlyDelivered(m, ForgetDelivered(m))
    decreases |m.deliveredOrder|
  {
    if |m.delivered| >= m.options.maxSeen && m.deliveredOrder != [] {
      ForgetDeliveredElsewhere(m.(deliveredOrder := m.deliveredOrder[1..], delivered := m.delivered - {m.deliveredOrder[0]}));
    }
  }

  lemma NoteElsewhere(m: Mesh, id: EventId, now: nat)
    requires id !in m.delivered
    ensures OnlyDelivered(m, NoteDelivered(m, id, now))
  {
    ForgetDeliveredElsewhere(m);
  }

  // ---- Calls

  datatype Call =
    | Hear(source: Peer, message: Message, waiting: seq<Peer>, selected: seq<Peer>)
    | Originate(event: Event, selected: seq<Peer>)
    | Replays(event: Event, peer: Peer)
    | ReplaysCached(peer: Peer)
    | Seed(event: Event)
    | Maintenance
    | Dismissal(peer: Peer, id: EventId)
    | Disruption(peer: Peer, id: EventId)

  /** The calls that begin with maintenance. */
  predicate Maintains(call: Call) { !call.Dismissal? && !call.Disruption? }

  ghost function Ready(m: Mesh, call: Call, now: nat): Mesh { if Maintains(call) then Prune(m, now) else m }

  ghost function Acted(c: Contents, p: Mesh, call: Call, now: nat): Step {
    match call
    case Hear(source, message, waiting, selected) => Handled(c, p, source, message, waiting, selected, now)
    case Originate(event, selected) => Publish(c, p, event, selected, now)
    case Replays(event, peer) => Replay(c, p, event, peer, now)
    case ReplaysCached(peer) => Step(p, Some(ReplayCached(c, p, peer)))
    case Seed(event) => if Admissible(c, p.options, event.id) then Step(Store(c, p, event, now), Some([])) else Step(p, None)
    case Maintenance => Step(p, Some([]))
    case Dismissal(peer, id) => Step(Dismiss(p, peer, id), Some([]))
    case Disruption(peer, id) => Step(Disrupt(p, peer, id), Some([]))
  }

  ghost function Performed(c: Contents, m: Mesh, call: Call, now: nat): Step {
    Acted(c, Ready(m, call, now), call, now)
  }

  lemma ReadyKeeps(c: Contents, m: Mesh, call: Call, clock: nat, now: nat)
    requires LockStep(c, m, clock) && clock <= now
    ensures LockStep(c, Ready(m, call, now), now) && Ready(m, call, now).options == m.options
    ensures Maintains(call) ==> Current(Ready(m, call, now), now)
  {
    hide LockStep, Current, Prune;
    PruneKeeps(c, m, clock, now);
    TimePasses(c, m, clock, now);
  }

  lemma ReadyRoutes(m: Mesh, call: Call, now: nat)
    ensures forall k :: k in Ready(m, call, now).routes ==> k in m.routes && Ready(m, call, now).routes[k] == m.routes[k]
  {
    hide Kept, Sum, Least, Expiries, LiveCache, LiveTimes, LivePending, LiveWants;
  }

  // ---- What a call does to routes, deliveries and peers

  /** The same event offered by the same peers. */
  ghost predicate SameOffer(a: Route, b: Route) {
    a.peer == b.peer && a.alternates == b.alternates && a.kind == b.kind && a.bytes == b.bytes && a.hops == b.hops
  }

  ghost predicate SameDeliveries(m: Mesh, r: Mesh) {
    r.options == m.options && r.delivered == m.delivered && r.deliveredOrder == m.deliveredOrder
  }

  ghost predicate RoutesRemain(m: Mesh, r: Mesh) {
    forall k :: k in r.routes ==> k in m.routes && SameOffer(m.routes[k], r.routes[k])
  }

  /** A route of r: as it was, or as an announcement just heard left it, whose sender was then asked for the event
      if it provides the route. */
  ghost predicate Offered(m: Mesh, r: Route, id: EventId, source: Peer, kind: nat, bytes: nat, hops: nat,
                          actions: Option<seq<Action>>)
  {
    && r.kind == kind && r.bytes == bytes
    && (r.hops == hops || (id in m.routes && r.hops == m.routes[id].hops))
    && (id in m.routes ==> m.routes[id].kind == kind && m.routes[id].bytes == bytes)
    && (forall q :: r.ProvidedBy(q) ==>
          (id in m.routes && m.routes[id].ProvidedBy(q)) || (q == source && actions == Some([Send(source, Want(id))])))
  }

  lemma RetryEffect(m: Mesh, source: Peer, id: EventId, kind: nat, bytes: nat, hops: nat, now: nat)
    ensures var s := RetryInventory(m, source, id, kind, bytes, hops, now);
            && SameDeliveries(m, s.mesh)
            && (forall k :: k in s.mesh.routes ==>
                  (k in m.routes && SameOffer(m.routes[k], s.mesh.routes[k]))
                  || (k == id && Offered(m, s.mesh.routes[id], id, source, kind, bytes, hops, s.actions)))
  {
    hide Later, Offered;
    if id in m.routes && m.routes[id].kind == kind && m.routes[id].bytes == bytes {
      var route := m.routes[id];
      var higher := route.(hops := Max(route.hops, hops));
      RetryOffer(m, id, source, higher, hops, Some([]));
      RetryOffer(m, id, source, higher.(disrupted := route.disrupted - {source}), hops, Some([Send(source, Want(id))]));
      RetryOffer(m, id, source, higher.(alternates := route.alternates + {source}, expires := Later(now, m.options.routeTtl),
                                        disrupted := route.disrupted - {source}), hops, Some([Send(source, Want(id))]));
    }
  }

  lemma RetryOffer(m: Mesh, id: EventId, source: Peer, r: Route, hops: nat, actions: Option<seq<Action>>)
    requires id in m.routes && r.peer == m.routes[id].peer && r.kind == m.routes[id].kind && r.bytes == m.routes[id].bytes
    requires r.hops == Max(m.routes[id].hops, hops)
    requires r.alternates == m.routes[id].alternates
             || (r.alternates == m.routes[id].alternates + {source} && actions == Some([Send(source, Want(id))]))
    ensures Offered(m, r, id, source, r.kind, r.bytes, hops, actions)
  {}

  lemma InventoryEffect(c: Contents, m: Mesh, source: Peer, id: EventId, kind: nat, bytes: nat, hops: nat, now: nat)
    requires LockStep(c, m, now) && Current(m, now)
    ensures var s := ReceiveInventory(m, source, id, kind, bytes, hops, now);
            && SameDeliveries(m, s.mesh)
            && (forall k :: k in s.mesh.routes ==>
                  (k in m.routes && SameOffer(m.routes[k], s.mesh.routes[k]))
                  || (k == id && Offered(m, s.mesh.routes[id], id, source, kind, bytes, hops, s.actions)))
            && forall a :: a in Done(s) ==> a == Send(source, Want(id))
  {
    hide LockStep, RetryInventory, Remember, Later, ValidId, AllowedKind, Offered;
    if 0 < hops <= m.options.maxHops {
      if !Fresh(m, id, now) {
        RetryEffect(m, source, id, kind, bytes, hops, now);
        RetryAsks(m, source, id, kind, bytes, hops, now);
      } else {
        if id in m.routes { RouteIsOk(c, m, id, now); }
        RememberKeeps(c, m, id, now);
        NewOffer(m, source, id, kind, bytes, hops, Later(now, m.options.routeTtl));
      }
    }
  }

  lemma NewOffer(m: Mesh, source: Peer, id: EventId, kind: nat, bytes: nat, hops: nat, expires: nat)
    requires id !in m.routes
    ensures Offered(m, Route(source, {}, {}, kind, bytes, hops, expires, false), id, source, kind, bytes, hops,
                    Some([Send(source, Want(id))]))
  {}

  lemma RetryAsks(m: Mesh, source: Peer, id: EventId, kind: nat, bytes: nat, hops: nat, now: nat)
    ensures forall a :: a in Done(RetryInventory(m, source, id, kind, bytes, hops, now)) ==> a == Send(source, Want(id))
  {
    hide Later;
  }

  /** What a step sends and delivers. */
  function Done(s: Step): seq<Action> {
    if s.actions.Some? then s.actions.value else []
  }

  lemma WantEffect(c: Contents, m: Mesh, source: Peer, id: EventId, now: nat)
    requires LockStep(c, m, now) && Current(m, now)
    ensures var s := ReceiveWant(m, source, id, now);
            && SameDeliveries(m, s.mesh) && RoutesRemain(m, s.mesh)
            && forall a :: a in Done(s) ==> a.Send? && a.message.Frame?
  {
    hide LockStep, Later, ValidId;
    WantKeeps(c, m, source, id, now);
    if ValidId(id) && id !in m.cached && id in m.routes && !m.routes[id].fulfilled { RouteIsOk(c, m, id, now); }
  }

  lemma StoreEffect(c: Contents, m: Mesh, event: Event, now: nat)
    ensures SameDeliveries(m, Store(c, m, event, now)) && Store(c, m, event, now).routes == m.routes
  {
    hide Store;
    StoreElsewhere(c, m, event, now);
  }

  lemma PublishEffect(c: Contents, m: Mesh, event: Event, selected: seq<Peer>, now: nat)
    requires LockStep(c, m, now) && Current(m, now)
    ensures var s := Publish(c, m, event, selected, now);
            && SameDeliveries(m, s.mesh) && RoutesRemain(m, s.mesh)
            && forall a :: a in Done(s) ==>
                 a.Send? && a.peer in selected
                 && a.message == Inventory(event.id, c.kind(event.id), c.bytes(event.id), m.options.maxHops)
  {
    hide LockStep, Store, Remember;
    if event.signed && Admissible(c, m.options, event.id) {
      StoreEffect(c, m, event, now);
      StoreKeeps(c, m, event, now);
      var stored := Store(c, m, event, now);
      if Fresh(stored, event.id, now) { RememberKeeps(c, stored, event.id, now); }
    }
  }

  /** After dropping the k oldest of the recently delivered, one more. */
  ghost predicate Delivering(m: Mesh, r: Mesh, id: EventId, expires: nat, k: nat) {
    && k <= |m.deliveredOrder| && r.deliveredOrder == m.deliveredOrder[k..] + [id]
    && id in r.delivered && r.delivered[id] == expires
    && (forall x :: x in m.deliveredOrder[k..] && x in m.delivered ==> x in r.delivered && r.delivered[x] == m.delivered[x])
    && (k > 0 ==> |m.deliveredOrder| - k + 1 >= m.options.maxSeen)
    && r.options == m.options
  }

  lemma {:induction false} ForgetDeliveredEffect(c: Contents, m: Mesh, now: nat) returns (k: nat)
    requires DeliveredOk(m)
    ensures var r := ForgetDelivered(m);
            && k <= |m.deliveredOrder| && r.deliveredOrder == m.deliveredOrder[k..]
            && (forall x :: x in r.deliveredOrder ==> x in r.delivered && x in m.delivered && r.delivered[x] == m.delivered[x])
            && (k > 0 ==> |m.deliveredOrder| - k + 1 >= m.options.maxSeen)
            && r.options == m.options
    decreases |m.deliveredOrder|
  {
    hide Queues;
    assert |m.delivered.Keys| == |m.delivered|;
    QueueMembers(m.deliveredOrder, m.delivered.Keys);
    if |m.delivered| >= m.options.maxSeen && m.deliveredOrder != [] {
      var r := m.(deliveredOrder := m.deliveredOrder[1..], delivered := m.delivered - {m.deliveredOrder[0]});
      QueueFirst(m.deliveredOrder, m.delivered.Keys);
      Fewer(m.delivered, m.deliveredOrder[0]);
      assert r.delivered.Keys == m.delivered.Keys - {m.deliveredOrder[0]};
      var rest := ForgetDeliveredEffect(c, r, now);
      k := rest + 1;
      assert m.deliveredOrder[1..][rest..] == m.deliveredOrder[k..];
    } else {
      k := 0;
    }
  }

  lemma QueueMembers(order: seq<EventId>, keys: set<EventId>)
    requires Queues(order, keys)
    ensures |order| == |keys| && forall x :: x in order <==> x in keys
  {}

  lemma NoteDeliveredEffect(c: Contents, m: Mesh, id: EventId, now: nat) returns (k: nat)
    requires DeliveredOk(m) && id !in m.delivered
    ensures Delivering(m, NoteDelivered(m, id, now), id, Later(now, m.options.eventTtl), k)
  {
    hide Queues, ForgetDelivered, Later;
    k := ForgetDeliveredEffect(c, m, now);
    QueueMembers(m.deliveredOrder, m.delivered.Keys);
    var f := ForgetDelivered(m);
    assert forall x :: x in m.deliveredOrder[k..] ==> x in f.deliveredOrder && x in m.deliveredOrder;
  }

  /** What may come of a frame. */
  ghost predicate FrameActions(c: Contents, m: Mesh, source: Peer, id: EventId, event: Event, selected: seq<Peer>,
                               actions: seq<Action>)
  {
    forall a :: a in actions ==>
      && Requested(c, m, source, id, event)
      && match a
         case Deliver(from, e) => from == source && e == event && id !in m.delivered && !m.routes[id].fulfilled
         case Send(peer, message) =>
           message == Frame(id, event)
           || (peer in selected && m.routes[id].hops > 1
               && message == Inventory(id, c.kind(id), c.bytes(id), m.routes[id].hops - 1))
  }

  lemma FrameDone(c: Contents, m: Mesh, source: Peer, id: EventId, event: Event, waiting: seq<Peer>, selected: seq<Peer>, now: nat)
    ensures FrameActions(c, m, source, id, event, selected, Done(ReceiveFrame(c, m, source, id, event, waiting, selected, now)))
    ensures Deliver(source, event) in Done(ReceiveFrame(c, m, source, id, event, waiting, selected, now))
            <==> Requested(c, m, source, id, event) && !m.routes[id].fulfilled && id !in m.delivered
  {
    hide Store, NoteDelivered, Requested, WithoutPending;
    if Requested(c, m, source, id, event) {
      StoreEffect(c, m, event, now);
    }
  }

  lemma FrameEffect(c: Contents, m: Mesh, source: Peer, id: EventId, event: Event, waiting: seq<Peer>, selected: seq<Peer>, now: nat)
    requires LockStep(c, m, now)
    ensures var s := ReceiveFrame(c, m, source, id, event, waiting, selected, now);
            && RoutesRemain(m, s.mesh) && s.mesh.options == m.options
            && if Deliver(source, event) in Done(s)
               then exists k :: Delivering(m, s.mesh, id, Later(now, m.options.eventTtl), k)
               else SameDeliveries(m, s.mesh)
  {
    hide LockStep, Store, NoteDelivered, ValidId, Admissible, Later, Delivering, WithoutPending, RoutesRemain;
    RoutesStay(m);
    FrameDone(c, m, source, id, event, waiting, selected, now);
    if Requested(c, m, source, id, event) && !m.routes[id].fulfilled {
      StoreEffect(c, m, event, now);
      var stored := Store(c, m, event, now);
      var served := stored.(routes := stored.routes[id := m.routes[id].(fulfilled := true, disrupted := {})]);
      ServedOffer(m, served, id);
      PendingElsewhere(if id !in m.delivered then NoteDelivered(served, id, now) else served, id);
      if id !in m.delivered {
        DeliveredQueues(c, m, now);
        var k := NoteDeliveredEffect(c, served, id, now);
        NoteRoutes(served, id, now);
        SameDelivering(m, served, NoteDelivered(served, id, now), WithoutPending(NoteDelivered(served, id, now), id),
                       id, Later(now, m.options.eventTtl), k);
      }
      RoutesAlike(m, served, ReceiveFrame(c, m, source, id, event, waiting, selected, now).mesh);
    }
  }

  lemma RoutesStay(m: Mesh)
    ensures RoutesRemain(m, m)
  {}

  lemma ServedOffer(m: Mesh, served: Mesh, id: EventId)
    requires id in m.routes && served.routes == m.routes[id := m.routes[id].(fulfilled := true, disrupted := {})]
    ensures RoutesRemain(m, served)
  {}

  lemma RoutesAlike(m: Mesh, r: Mesh, s: Mesh)
    requires RoutesRemain(m, r) && s.routes == r.routes
    ensures RoutesRemain(m, s)
  {}

  lemma PendingElsewhere(m: Mesh, id: EventId)
    ensures SameDeliveries(m, WithoutPending(m, id)) && WithoutPending(m, id).routes == m.routes
  {}

  lemma DeliveredQueues(c: Contents, m: Mesh, now: nat)
    requires LockStep(c, m, now)
    ensures DeliveredOk(m)
  {
    hide Queues;
  }

  lemma NoteRoutes(m: Mesh, id: EventId, now: nat)
    requires id !in m.delivered
    ensures NoteDelivered(m, id, now).routes == m.routes
  {
    hide NoteDelivered;
    NoteElsewhere(m, id, now);
  }

  lemma SameDelivering(m: Mesh, n: Mesh, r: Mesh, q: Mesh, id: EventId, expires: nat, k: nat)
    requires SameDeliveries(m, n) && SameDeliveries(r, q) && Delivering(n, r, id, expires, k)
    ensures Delivering(m, q, id, expires, k)
  {}

  // ---- Any call

  /** Every call keeps the invariant. */
  lemma PerformedKeeps(c: Contents, m: Mesh, call: Call, clock: nat, now: nat)
    requires LockStep(c, m, clock) && clock <= now
    ensures LockStep(c, Performed(c, m, call, now).mesh, now)
  {
    hide LockStep, Current, Ready, Acted;
    ReadyKeeps(c, m, call, clock, now);
    ActedKeeps(c, Ready(m, call, now), call, now);
  }

  lemma ActedKeeps(c: Contents, p: Mesh, call: Call, now: nat)
    requires LockStep(c, p, now) && (Maintains(call) ==> Current(p, now))
    ensures LockStep(c, Acted(c, p, call, now).mesh, now)
  {
    hide LockStep, Current, Publish, Replay, Store, Dismiss, Disrupt, ReceiveInventory, ReceiveWant, ReceiveFrame;
    match call
    case Hear(source, message, waiting, selected) =>
      ReceivedKeeps(c, p, source, message, now);
      if message.Frame? { FrameKeeps(c, p, source, message.id, message.event, waiting, selected, now); }
    case Originate(event, selected) => PublishKeeps(c, p, event, selected, now);
    case Replays(event, peer) => ReplayKeeps(c, p, event, peer, now);
    case ReplaysCached(peer) =>
    case Seed(event) => if Admissible(c, p.options, event.id) { StoreKeeps(c, p, event, now); }
    case Maintenance =>
    case Dismissal(peer, id) => DismissKeeps(c, p, peer, id, now);
    case Disruption(peer, id) => DisruptKeeps(c, p, peer, id, now);
  }

  /** Where a route came from: it was there, or an announcement was just heard. */
  ghost predicate RouteStep(p: Mesh, s: Step, call: Call, k: EventId)
    requires k in s.mesh.routes
  {
    || (k in p.routes && SameOffer(p.routes[k], s.mesh.routes[k]))
    || (call.Hear? && call.message.Inventory? && call.message.id == k
        && Offered(p, s.mesh.routes[k], k, call.source, call.message.kind, call.message.bytes, call.message.hops, s.actions))
  }

  /** The one call that delivers an event. */
  ghost predicate Delivers(s: Step, call: Call) {
    call.Hear? && call.message.Frame? && Deliver(call.source, call.message.event) in Done(s)
  }

  lemma ActedRoutes(c: Contents, p: Mesh, call: Call, now: nat)
    requires LockStep(c, p, now) && (Maintains(call) ==> Current(p, now))
    ensures var s := Acted(c, p, call, now);
            && s.mesh.options == p.options
            && (forall k :: k in s.mesh.routes ==> RouteStep(p, s, call, k))
            && if Delivers(s, call)
               then exists k :: Delivering(p, s.mesh, call.message.id, Later(now, p.options.eventTtl), k)
               else SameDeliveries(p, s.mesh)
  {
    hide LockStep, Current, Publish, Replay, Store, Dismiss, Disrupt, ReceiveInventory, ReceiveWant, ReceiveFrame, Offered, SameOffer, Delivering, Later;
    SameOffers(p);
    match call
    case Hear(source, message, waiting, selected) =>
      match message {
        case Inventory(id, kind, bytes, hops) => InventoryEffect(c, p, source, id, kind, bytes, hops, now);
        case Want(id) => WantEffect(c, p, source, id, now);
        case Frame(id, event) => FrameEffect(c, p, source, id, event, waiting, selected, now);
      }
    case Originate(event, selected) => PublishEffect(c, p, event, selected, now);
    case Replays(event, peer) => ReplayEffect(c, p, event, peer, now);
    case ReplaysCached(peer) =>
    case Seed(event) => StoreEffect(c, p, event, now);
    case Maintenance =>
    case Dismissal(peer, id) => DismissEffect(p, peer, id);
    case Disruption(peer, id) => DisruptEffect(p, peer, id);
  }

  lemma SameOffers(m: Mesh)
    ensures forall k :: k in m.routes ==> SameOffer(m.routes[k], m.routes[k])
  {}

  lemma ReplayEffect(c: Contents, m: Mesh, event: Event, peer: Peer, now: nat)
    ensures SameDeliveries(m, Replay(c, m, event, peer, now).mesh) && RoutesRemain(m, Replay(c, m, event, peer, now).mesh)
    ensures forall a :: a in Done(Replay(c, m, event, peer, now)) ==> a.Send?
  {
    hide Store;
    StoreEffect(c, m, event, now);
  }

  lemma DismissEffect(m: Mesh, peer: Peer, id: EventId)
    ensures SameDeliveries(m, Dismiss(m, peer, id)) && RoutesRemain(m, Dismiss(m, peer, id))
  {}

  lemma DisruptEffect(m: Mesh, peer: Peer, id: EventId)
    ensures SameDeliveries(m, Disrupt(m, peer, id)) && RoutesRemain(m, Disrupt(m, peer, id))
  {}

  /** Whatever is delivered was requested from its sender and is as announced. */
  lemma ActedDelivers(c: Contents, p: Mesh, call: Call, now: nat)
    requires LockStep(c, p, now) && (Maintains(call) ==> Current(p, now))
    ensures var s := Acted(c, p, call, now);
            forall source, event :: Deliver(source, event) in Done(s) ==>
              && Delivers(s, call) && call.source == source && call.message == Frame(event.id, event)
              && Requested(c, p, source, event.id, event) && event.id !in p.delivered
  {
    hide LockStep, Current, Publish, Replay, Store, ReceiveInventory, ReceiveWant, ReceiveFrame;
    match call
    case Hear(source, message, waiting, selected) =>
      match message {
        case Inventory(id, kind, bytes, hops) => InventoryEffect(c, p, source, id, kind, bytes, hops, now);
        case Want(id) => WantEffect(c, p, source, id, now);
        case Frame(id, event) => FrameDone(c, p, source, id, event, waiting, selected, now);
      }
    case Originate(event, selected) => PublishEffect(c, p, event, selected, now);
    case Replays(event, peer) => ReplayEffect(c, p, event, peer, now);
    case ReplaysCached(peer) =>
    case Seed(event) =>
    case Maintenance =>
    case Dismissal(peer, id) =>
    case Disruption(peer, id) =>
  }

  /** An announcement sent: a route's passed on with one hop less, or one's own with all hops. */
  ghost predicate Announces(c: Contents, p: Mesh, call: Call, peer: Peer, message: Message)
    requires message.Inventory?
  {
    match call
    case Hear(_, _, _, selected) =>
      peer in selected && message.id in p.routes && message.hops + 1 == p.routes[message.id].hops && message.hops > 0
    case Originate(event, selected) => peer in selected && message.id == event.id && message.hops == p.options.maxHops
    case Replays(event, to) => peer == to && message.id == event.id && message.hops == p.options.maxHops
    case ReplaysCached(to) => peer == to && message.id in p.cacheOrder && message.hops == p.options.maxHops
    case _ => false
  }

  lemma ActedAnnounces(c: Contents, p: Mesh, call: Call, now: nat)
    requires LockStep(c, p, now) && (Maintains(call) ==> Current(p, now))
    ensures var s := Acted(c, p, call, now);
            forall peer, message :: Send(peer, message) in Done(s) && message.Inventory? ==> Announces(c, p, call, peer, message)
  {
    hide LockStep, Current, Publish, Replay, Store, ReceiveInventory, ReceiveWant, ReceiveFrame;
    match call
    case Hear(source, message, waiting, selected) =>
      match message {
        case Inventory(id, kind, bytes, hops) => InventoryEffect(c, p, source, id, kind, bytes, hops, now);
        case Want(id) => WantEffect(c, p, source, id, now);
        case Frame(id, event) => FrameDone(c, p, source, id, event, waiting, selected, now);
      }
    case Originate(event, selected) => PublishEffect(c, p, event, selected, now);
    case Replays(event, peer) => ReplaySends(c, p, event, peer, now);
    case ReplaysCached(peer) =>
    case Seed(event) =>
    case Maintenance =>
    case Dismissal(peer, id) =>
    case Disruption(peer, id) =>
  }

  lemma ReplaySends(c: Contents, m: Mesh, event: Event, peer: Peer, now: nat)
    ensures forall a :: a in Done(Replay(c, m, event, peer, now)) ==>
              a == Send(peer, Inventory(event.id, c.kind(event.id), c.bytes(event.id), m.options.maxHops))
  {
    hide Store;
  }
}
