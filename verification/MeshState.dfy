/** The inventory/want/frame state machine of one node: what every message and call does to its maps and
    queues, and what it sends and delivers. */
module MeshState {
  import opened Wrappers
  import opened Sums

  type Peer = string
  type EventId = string

  const MAX_TIME: nat := 0xFFFF_FFFF_FFFF_FFFF
  const MAX_PROVIDERS: nat := 3

  /** An event, known by the hash of its content; `signed` says that hash and signature verify. */
  datatype Event = Event(id: EventId, signed: bool)

  /** Identifiers are content hashes: they fix an event's kind and serialized size. */
  datatype Contents = Contents(kind: EventId -> nat, bytes: EventId -> nat)

  datatype Message =
    | Inventory(id: EventId, kind: nat, bytes: nat, hops: nat)
    | Want(id: EventId)
    | Frame(id: EventId, event: Event)

  datatype Action = Send(peer: Peer, message: Message) | Deliver(source: Peer, event: Event)

  datatype MeshPeer = MeshPeer(id: Peer, score: Option<int>)

  datatype Options = Options(
    fanout: nat, unknownReserve: nat, maxHops: nat, maxEventBytes: nat, maxCachedEvents: nat,
    maxCachedBytes: nat, maxSeen: nat, maxPending: nat, routeTtl: nat, eventTtl: nat, allowedKinds: Option<set<nat>>)

  function Max(a: nat, b: nat): nat { if a < b then b else a }
  function Min(a: nat, b: nat): nat { if a < b then a else b }

  /** The options a mesh runs with. */
  function Clamped(o: Options): Options {
    var fanout, eventBytes, routeTtl := Max(o.fanout, 1), Max(o.maxEventBytes, 1), Max(o.routeTtl, 1);
    Options(fanout, Min(o.unknownReserve, fanout), Max(o.maxHops, 1), eventBytes, Max(o.maxCachedEvents, 1),
            Max(o.maxCachedBytes, eventBytes), Max(o.maxSeen, 1), Max(o.maxPending, 1), routeTtl,
            Max(o.eventTtl, routeTtl), o.allowedKinds)
  }

  datatype Route = Route(
    peer: Peer, alternates: set<Peer>, disrupted: set<Peer>, kind: nat, bytes: nat, hops: nat, expires: nat, fulfilled: bool)
  {
    predicate ProvidedBy(p: Peer) { peer == p || p in alternates }
  }

  datatype Pending = Pending(peers: set<Peer>, expires: nat)

  datatype Cached = Cached(event: Event, expires: nat, bytes: nat)

  datatype Mesh = Mesh(
    options: Options,
    cached: map<EventId, Cached>, cacheOrder: seq<EventId>, cachedBytes: nat,
    seen: map<EventId, nat>, seenOrder: seq<EventId>,
    delivered: map<EventId, nat>, deliveredOrder: seq<EventId>,
    routes: map<EventId, Route>,
    pending: map<EventId, Pending>, pendingCount: nat,
    wants: map<EventId, nat>,
    nextPrune: Option<nat>)

  function Empty(options: Options): Mesh {
    Mesh(Clamped(options), map[], [], 0, map[], [], map[], [], map[], map[], 0, map[], None)
  }

  // ---- Small pieces

  function Later(now: nat, ttl: nat): nat { if now + ttl > MAX_TIME then MAX_TIME else now + ttl }

  function Kept(order: seq<EventId>, keys: set<EventId>): seq<EventId> {
    if order == [] then []
    else if order[0] in keys then [order[0]] + Kept(order[1..], keys)
    else Kept(order[1..], keys)
  }

  function CachedSize(c: Cached): nat { c.bytes }
  function PendingSize(p: Pending): nat { |p.peers| }

  /** The times maintenance is scheduled by. Those at which peers stop waiting are not among them: see `MeshPending`. */
  ghost function Expiries(m: Mesh): set<nat> {
    Times(m.cached, m.seen, m.delivered, m.routes)
  }

  function Times(cached: map<EventId, Cached>, seen: map<EventId, nat>, delivered: map<EventId, nat>,
                 routes: map<EventId, Route>): set<nat>
  {
    (set id | id in cached :: cached[id].expires) + (set id | id in seen :: seen[id])
    + (set id | id in delivered :: delivered[id]) + (set id | id in routes :: routes[id].expires)
  }

  ghost predicate IsLeast(times: set<nat>, least: Option<nat>) {
    match least
    case None => times == {}
    case Some(t) => t in times && forall u :: u in times ==> t <= u
  }

  lemma {:induction false} LeastExists(times: set<nat>) returns (least: Option<nat>)
    ensures IsLeast(times, least)
  {
    if times == {} {
      least := None;
    } else {
      var t :| t in times;
      var rest := LeastExists(times - {t});
      least := Some(if rest.Some? && rest.value < t then rest.value else t);
      assert times == (times - {t}) + {t};
    }
  }

  ghost function Least(times: set<nat>): (least: Option<nat>)
    ensures IsLeast(times, least)
  {
    assert exists l :: IsLeast(times, l) by {
      var l := LeastExists(times);
    }
    var l :| IsLeast(times, l);
    l
  }

  function Tracked(next: Option<nat>, expires: nat): Option<nat> {
    Some(if next.Some? && next.value < expires then next.value else expires)
  }

  predicate ValidId(id: EventId) {
    |id| == 64 && forall i :: 0 <= i < |id| ==> '0' <= id[i] <= '9' || 'a' <= id[i] <= 'f'
  }

  predicate AllowedKind(o: Options, kind: nat) {
    o.allowedKinds.Some? ==> kind in o.allowedKinds.value
  }

  /** The checks on an event whose signature holds. */
  predicate Admissible(c: Contents, o: Options, id: EventId) {
    AllowedKind(o, c.kind(id)) && c.bytes(id) <= o.maxEventBytes
  }

  // ---- Maintenance

  function LiveCache(cached: map<EventId, Cached>, now: nat): map<EventId, Cached> {
    map id | id in cached && cached[id].expires > now :: cached[id]
  }

  function LiveTimes(times: map<EventId, nat>, now: nat): map<EventId, nat> {
    map id | id in times && times[id] > now :: times[id]
  }

  function LiveRoutes(routes: map<EventId, Route>, now: nat): map<EventId, Route> {
    map id | id in routes && routes[id].expires > now :: routes[id]
  }

  function LivePending(pending: map<EventId, Pending>, routes: map<EventId, Route>, now: nat): map<EventId, Pending> {
    map id | id in pending && pending[id].expires > now && id in routes :: pending[id]
  }

  function LiveWants(wants: map<EventId, nat>, routes: map<EventId, Route>, now: nat): map<EventId, nat> {
    map id | id in wants && wants[id] > now && id in routes :: wants[id]
  }

  /** Removes what has expired, if anything may have. */
  ghost function Prune(m: Mesh, now: nat): Mesh {
    if m.nextPrune.None? || now < m.nextPrune.value then m
    else
      var cached, seen, delivered := LiveCache(m.cached, now), LiveTimes(m.seen, now), LiveTimes(m.delivered, now);
      var routes := LiveRoutes(m.routes, now);
      var pending, wants := LivePending(m.pending, routes, now), LiveWants(m.wants, routes, now);
      var pruned := Mesh(m.options, cached, Kept(m.cacheOrder, cached.Keys), Sum(cached, CachedSize),
                         seen, Kept(m.seenOrder, seen.Keys), delivered, Kept(m.deliveredOrder, delivered.Keys),
                         routes, pending, Sum(pending, PendingSize), wants, m.nextPrune);
      pruned.(nextPrune := Least(Expiries(pruned)))
  }

  /** Pops the cache's queue until the event count and bytes leave room for `bytes` more. */
  function MakeRoom(m: Mesh, bytes: nat): Mesh
    decreases |m.cacheOrder|
  {
    if !(|m.cached| >= m.options.maxCachedEvents || m.cachedBytes + bytes > m.options.maxCachedBytes)
       || m.cacheOrder == [] then m
    else
      var oldest, rest := m.cacheOrder[0], m.cacheOrder[1..];
      if oldest in m.cached then
        MakeRoom(m.(cacheOrder := rest, cached := m.cached - {oldest},
                    cachedBytes := SaturatingSub(m.cachedBytes, m.cached[oldest].bytes)), bytes)
      else MakeRoom(m.(cacheOrder := rest), bytes)
  }

  function Store(c: Contents, m: Mesh, event: Event, now: nat): Mesh {
    var id, expires, bytes := event.id, Later(now, m.options.eventTtl), c.bytes(event.id);
    if id in m.cached then
      m.(cachedBytes := SaturatingSub(m.cachedBytes, m.cached[id].bytes) + bytes,
         cached := m.cached[id := Cached(event, expires, bytes)],
         nextPrune := Tracked(m.nextPrune, expires))
    else
      var r := MakeRoom(m, bytes);
      r.(cacheOrder := r.cacheOrder + [id], cachedBytes := r.cachedBytes + bytes,
         cached := r.cached[id := Cached(event, expires, bytes)],
         nextPrune := Tracked(r.nextPrune, expires))
  }

  function WithoutPending(m: Mesh, id: EventId): Mesh {
    if id in m.pending then
      m.(pending := m.pending - {id}, pendingCount := SaturatingSub(m.pendingCount, |m.pending[id].peers|))
    else m
  }

  /** Forgets the oldest announced events until there is room for one more. */
  function ForgetSeen(m: Mesh): Mesh
    decreases |m.seenOrder|
  {
    if |m.seen| < m.options.maxSeen || m.seenOrder == [] then m
    else
      var oldest := m.seenOrder[0];
      var less := WithoutPending(m, oldest);
      ForgetSeen(less.(seenOrder := m.seenOrder[1..], seen := m.seen - {oldest},
                       routes := m.routes - {oldest}, wants := m.wants - {oldest}))
  }

  predicate Fresh(m: Mesh, id: EventId, now: nat) {
    !(id in m.seen && m.seen[id] > now)
  }

  /** Notes an announcement not seen before. */
  function Remember(m: Mesh, id: EventId, now: nat): Mesh
    requires Fresh(m, id, now)
  {
    var expires := Later(now, m.options.routeTtl);
    var r := if id in m.seen then m else var f := ForgetSeen(m); f.(seenOrder := f.seenOrder + [id]);
    r.(seen := r.seen[id := expires], nextPrune := Tracked(r.nextPrune, expires))
  }

  function ForgetDelivered(m: Mesh): Mesh
    decreases |m.deliveredOrder|
  {
    if |m.delivered| < m.options.maxSeen || m.deliveredOrder == [] then m
    else ForgetDelivered(m.(deliveredOrder := m.deliveredOrder[1..], delivered := m.delivered - {m.deliveredOrder[0]}))
  }

  function NoteDelivered(m: Mesh, id: EventId, now: nat): Mesh
    requires id !in m.delivered
  {
    var expires, f := Later(now, m.options.eventTtl), ForgetDelivered(m);
    f.(deliveredOrder := f.deliveredOrder + [id], delivered := f.delivered[id := expires],
       nextPrune := Tracked(f.nextPrune, expires))
  }

  // ---- Messages

  /** The new state, and what to send and deliver; no actions at all if the input is refused. */
  datatype Step = Step(mesh: Mesh, actions: Option<seq<Action>>)

  function Request(m: Mesh, peer: Peer, id: EventId): Step {
    Step(m, Some([Send(peer, Want(id))]))
  }

  /** A repeated announcement of an event still being requested. */
  function RetryInventory(m: Mesh, source: Peer, id: EventId, kind: nat, bytes: nat, hops: nat, now: nat): Step {
    if id !in m.routes || m.routes[id].fulfilled then Step(m, Some([]))
    else
      var route := m.routes[id];
      if route.kind != kind || route.bytes != bytes then Step(m, None)
      else
        var higher := route.(hops := Max(route.hops, hops));
        if route.ProvidedBy(source) then
          Request(m.(routes := m.routes[id := higher.(disrupted := route.disrupted - {source})]), source, id)
        else if |route.alternates| + 1 >= MAX_PROVIDERS then Step(m.(routes := m.routes[id := higher]), Some([]))
        else
          var expires := Later(now, m.options.routeTtl);
          var joined := higher.(alternates := route.alternates + {source}, expires := expires,
                                disrupted := route.disrupted - {source});
          Request(m.(routes := m.routes[id := joined], seen := m.seen[id := expires], wants := m.wants[id := expires]),
                  source, id)
  }

  function ReceiveInventory(m: Mesh, source: Peer, id: EventId, kind: nat, bytes: nat, hops: nat, now: nat): Step {
    if !ValidId(id) || !AllowedKind(m.options, kind) || bytes > m.options.maxEventBytes then Step(m, None)
    else if hops == 0 then Step(m, Some([]))
    else if hops > m.options.maxHops then Step(m, None)
    else if id in m.cached then Step(m, Some([]))
    else if !Fresh(m, id, now) then RetryInventory(m, source, id, kind, bytes, hops, now)
    else
      var r, expires := Remember(m, id, now), Later(now, m.options.routeTtl);
      var route := if id in r.routes then r.routes[id] else Route(source, {}, {}, kind, bytes, hops, expires, false);
      Request(r.(routes := r.routes[id := route], wants := r.wants[id := expires]), source, id)
  }

  /** Adds a peer to those waiting for an event, unless as many as allowed are waiting. */
  function WithPending(m: Mesh, source: Peer, id: EventId, now: nat): Mesh {
    var pending := if id in m.pending then m.pending[id] else Pending({}, Later(now, m.options.routeTtl));
    var joins := |pending.peers| < m.options.maxPending && source !in pending.peers;
    m.(pending := m.pending[id := if joins then pending.(peers := pending.peers + {source}) else pending],
       pendingCount := if joins then m.pendingCount + 1 else m.pendingCount)
  }

  function ReceiveWant(m: Mesh, source: Peer, id: EventId, now: nat): Step {
    if !ValidId(id) then Step(m, None)
    else if id in m.cached then Step(m, Some([Send(source, Frame(id, m.cached[id].event))]))
    else if id !in m.routes || m.routes[id].fulfilled then Step(m, Some([]))
    else
      var noted := WithPending(m, source, id, now);
      if id in m.wants && m.wants[id] > now then Step(noted, Some([]))
      else
        var route := m.routes[id];
        Request(noted.(routes := m.routes[id := route.(disrupted := route.disrupted - {route.peer})],
                       wants := m.wants[id := route.expires]),
                route.peer, id)
  }

  function Announce(peers: seq<Peer>, message: Message): seq<Action> {
    seq(|peers|, i requires 0 <= i < |peers| => Send(peers[i], message))
  }

  /** What a frame must satisfy: asked for, from a provider, genuine, and as announced. */
  predicate Requested(c: Contents, m: Mesh, source: Peer, id: EventId, event: Event) {
    && ValidId(id) && id in m.routes && id in m.wants && m.routes[id].ProvidedBy(source)
    && event.signed && Admissible(c, m.options, event.id) && event.id == id
    && m.routes[id].kind == c.kind(id) && m.routes[id].bytes == c.bytes(id)
  }

  /** `waiting` lists the pending peers in order, `selected` those chosen to be told of the event. */
  function ReceiveFrame(c: Contents, m: Mesh, source: Peer, id: EventId, event: Event, waiting: seq<Peer>,
                        selected: seq<Peer>, now: nat): Step {
    if !Requested(c, m, source, id, event) then Step(m, None)
    else
      var route := m.routes[id];
      if route.fulfilled then Step(m, Some([]))
      else
        var stored := Store(c, m, event, now);
        var served := stored.(routes := stored.routes[id := route.(fulfilled := true, disrupted := {})]);
        var first := id !in served.delivered;
        var noted := if first then NoteDelivered(served, id, now) else served;
        Step(WithoutPending(noted, id),
             Some((if first then [Deliver(source, event)] else [])
                + Announce(if id in noted.pending then waiting else [], Frame(id, event))
                + if route.hops > 1
                  then Announce(selected, Inventory(id, c.kind(id), c.bytes(id), route.hops - 1)) else []))
  }

  function Publish(c: Contents, m: Mesh, event: Event, selected: seq<Peer>, now: nat): Step {
    if !event.signed || !Admissible(c, m.options, event.id) then Step(m, None)
    else
      var id, stored := event.id, Store(c, m, event, now);
      if !Fresh(stored, id, now) then Step(stored, Some([]))
      else Step(Remember(stored, id, now),
                Some(Announce(selected, Inventory(id, c.kind(id), c.bytes(id), m.options.maxHops))))
  }

  /** Caches an event and announces it to one peer. */
  function Replay(c: Contents, m: Mesh, event: Event, peer: Peer, now: nat): Step {
    if !event.signed || !Admissible(c, m.options, event.id) then Step(m, None)
    else Step(Store(c, m, event, now),
              Some([Send(peer, Inventory(event.id, c.kind(event.id), c.bytes(event.id), m.options.maxHops))]))
  }

  /** The announcement of every cached event, oldest first. */
  function ReplayCached(c: Contents, m: Mesh, peer: Peer): seq<Action> {
    seq(|m.cacheOrder|, i requires 0 <= i < |m.cacheOrder| =>
      Send(peer, Inventory(m.cacheOrder[i], c.kind(m.cacheOrder[i]), c.bytes(m.cacheOrder[i]), m.options.maxHops)))
  }

  function Dismiss(m: Mesh, peer: Peer, id: EventId): Mesh {
    if id in m.routes && m.routes[id].ProvidedBy(peer) then
      WithoutPending(m.(routes := m.routes[id := m.routes[id].(fulfilled := true, disrupted := {})]), id)
    else m
  }

  predicate Disrupts(m: Mesh, peer: Peer, id: EventId) {
    id in m.routes && !m.routes[id].fulfilled && m.routes[id].ProvidedBy(peer) && peer !in m.routes[id].disrupted
  }

  function Disrupt(m: Mesh, peer: Peer, id: EventId): Mesh {
    if Disrupts(m, peer, id) then
      m.(routes := m.routes[id := m.routes[id].(disrupted := m.routes[id].disrupted + {peer})])
    else m
  }
}
