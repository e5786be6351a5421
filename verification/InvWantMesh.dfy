/** The mesh itself: one node's maps and queues, changed in place by its calls. */
module InvWantMesh {
  import opened Wrappers
  import opened Sums
  import opened MeshState
  import opened MeshInvariant
  import opened MeshSelection
  import opened MeshSteps

  /** A frame's event cached and its route closed. */
  ghost function Closed(c: Contents, m: Mesh, id: EventId, event: Event, now: nat): Mesh
    requires id in m.routes
  {
    var stored := Store(c, m, event, now);
    stored.(routes := stored.routes[id := m.routes[id].(fulfilled := true, disrupted := {})])
  }

  class InvWantMesh {
    const contents: Contents
    const options: Options
    var cached: map<EventId, Cached>
    var cacheOrder: seq<EventId>
    var cachedBytes: nat
    var seen: map<EventId, nat>
    var seenOrder: seq<EventId>
    var delivered: map<EventId, nat>
    var deliveredOrder: seq<EventId>
    var routes: map<EventId, Route>
    var pending: map<EventId, Pending>
    var pendingCount: nat
    var wants: map<EventId, nat>
    var nextPrune: Option<nat>
    ghost var clock: nat

    ghost function View(): Mesh
      reads this
    {
      Mesh(options, cached, cacheOrder, cachedBytes, seen, seenOrder, delivered, deliveredOrder,
           routes, pending, pendingCount, wants, nextPrune)
    }

    ghost predicate Valid()
      reads this
    {
      LockStep(contents, View(), clock)
    }

    constructor (contents: Contents, options: Options)
      ensures Valid() && View() == Empty(options) && this.contents == contents && clock == 0
    {
      this.contents, this.options := contents, Clamped(options);
      cached, cacheOrder, cachedBytes, seen, seenOrder := map[], [], 0, map[], [];
      delivered, deliveredOrder, routes, pending, pendingCount := map[], [], map[], map[], 0;
      wants, nextPrune, clock := map[], None, 0;
      new;
      EmptyLockStep(contents, options, 0);
    }

    // ---- Maintenance

    static method CachedTotal(cached: map<EventId, Cached>) returns (total: nat)
      ensures total == Sum(cached, CachedSize)
    {
      total := 0;
      var rest := cached;
      while rest != map[]
        invariant forall id :: id in rest ==> id in cached && rest[id] == cached[id]
        invariant total + Sum(rest, CachedSize) == Sum(cached, CachedSize)
        decreases |rest|
      {
        var id :| id in rest;
        SumRemove(rest, CachedSize, id);
        Fewer(rest, id);
        total := total + rest[id].bytes;
        rest := rest - {id};
      }
    }

    static method PendingTotal(pending: map<EventId, Pending>) returns (total: nat)
      ensures total == Sum(pending, PendingSize)
    {
      total := 0;
      var rest := pending;
      while rest != map[]
        invariant total + Sum(rest, PendingSize) == Sum(pending, PendingSize)
        decreases |rest|
      {
        var id :| id in rest;
        SumRemove(rest, PendingSize, id);
        Fewer(rest, id);
        total := total + |rest[id].peers|;
        rest := rest - {id};
      }
    }

    static method Earliest(times: set<nat>) returns (least: Option<nat>)
      ensures least == Least(times)
    {
      hide Least, IsLeast, Tracked;
      least := None;
      var rest := times;
      assert times - rest == {} && IsLeast({}, None) by { NoneLeast(); }
      while rest != {}
        invariant rest <= times && IsLeast(times - rest, least)
        decreases |rest|
      {
        var t :| t in rest;
        assert times - (rest - {t}) == (times - rest) + {t};
        TrackedLeast(times - rest, least, t);
        least := Tracked(least, t);
        rest := rest - {t};
      }
      assert times - {} == times;
      OneLeast(times, least, Least(times));
    }

    method PruneExpired(now: nat)
      requires Valid() && clock <= now
      modifies this
      ensures Valid() && clock == now && Current(View(), now)
      ensures View() == Prune(old(View()), now)
    {
      hide LockStep, Current, Prune, Expiries, Times;
      PruneKeeps(contents, View(), clock, now);
      clock := now;
      if nextPrune.None? || now < nextPrune.value {
        PruneNot(View(), now);
        return;
      }
      DropExpired(now);
    }

    method DropExpired(now: nat)
      requires nextPrune.Some? && nextPrune.value <= now
      modifies this
      ensures View() == Prune(old(View()), now) && clock == old(clock)
    {
      hide Prune, Sum, Kept, Least, IsLeast, LiveCache, LiveTimes, LiveRoutes, LivePending, LiveWants, Times, Expiries;
      DropRecords(now);
      DropRoutes(now);
      ReschedulePrune();
      PrunedIs(old(View()), now, View());
    }

    method DropRecords(now: nat)
      modifies this`cached, this`cacheOrder, this`cachedBytes, this`seen, this`seenOrder, this`delivered, this`deliveredOrder
      ensures cached == LiveCache(old(cached), now) && cacheOrder == Kept(old(cacheOrder), cached.Keys)
      ensures cachedBytes == Sum(cached, CachedSize)
      ensures seen == LiveTimes(old(seen), now) && seenOrder == Kept(old(seenOrder), seen.Keys)
      ensures delivered == LiveTimes(old(delivered), now) && deliveredOrder == Kept(old(deliveredOrder), delivered.Keys)
    {
      hide Sum, Kept, LiveCache, LiveTimes;
      cached := LiveCache(cached, now);
      cacheOrder := Kept(cacheOrder, cached.Keys);
      cachedBytes := CachedTotal(cached);
      seen := LiveTimes(seen, now);
      seenOrder := Kept(seenOrder, seen.Keys);
      delivered := LiveTimes(delivered, now);
      deliveredOrder := Kept(deliveredOrder, delivered.Keys);
    }

    method DropRoutes(now: nat)
      modifies this`routes, this`pending, this`pendingCount, this`wants
      ensures routes == LiveRoutes(old(routes), now) && pending == LivePending(old(pending), routes, now)
      ensures pendingCount == Sum(pending, PendingSize) && wants == LiveWants(old(wants), routes, now)
    {
      hide Sum, LiveRoutes, LivePending, LiveWants;
      routes := LiveRoutes(routes, now);
      pending := LivePending(pending, routes, now);
      pendingCount := PendingTotal(pending);
      wants := LiveWants(wants, routes, now);
    }

    method ReschedulePrune()
      modifies this`nextPrune
      ensures nextPrune == Least(Times(cached, seen, delivered, routes))
    {
      hide Least, IsLeast, Times;
      nextPrune := Earliest(Times(cached, seen, delivered, routes));
    }

    method TrackExpiry(expires: nat)
      modifies this`nextPrune
      ensures nextPrune == Tracked(old(nextPrune), expires)
    {
      nextPrune := Some(if nextPrune.Some? && nextPrune.value < expires then nextPrune.value else expires);
    }

    // ---- Storing events

    /** Pops the queue until a cached event is evicted. */
    method EvictOldest(ghost bytes: nat) returns (evicted: bool)
      requires |cached| >= options.maxCachedEvents || cachedBytes + bytes > options.maxCachedBytes
      modifies this`cached, this`cacheOrder, this`cachedBytes
      ensures MakeRoom(View(), bytes) == MakeRoom(old(View()), bytes)
      ensures if evicted then |cacheOrder| < |old(cacheOrder)| else cacheOrder == []
    {
      hide MakeRoom;
      while cacheOrder != []
        invariant |cacheOrder| <= |old(cacheOrder)| && cached == old(cached) && cachedBytes == old(cachedBytes)
        invariant MakeRoom(View(), bytes) == MakeRoom(old(View()), bytes)
        decreases |cacheOrder|
      {
        MakeRoomStep(View(), bytes);
        var oldest := cacheOrder[0];
        cacheOrder := cacheOrder[1..];
        if oldest in cached {
          cachedBytes := SaturatingSub(cachedBytes, cached[oldest].bytes);
          cached := cached - {oldest};
          return true;
        }
      }
      return false;
    }

    /** Evicts events until there is room for `bytes` more. */
    method EvictFor(bytes: nat)
      modifies this`cached, this`cacheOrder, this`cachedBytes
      ensures View() == MakeRoom(old(View()), bytes)
    {
      hide MakeRoom;
      var open := true;
      while open && (|cached| >= options.maxCachedEvents || cachedBytes + bytes > options.maxCachedBytes)
        invariant MakeRoom(View(), bytes) == MakeRoom(old(View()), bytes)
        invariant !open ==> cacheOrder == []
        decreases |cacheOrder|, open
      {
        open := EvictOldest(bytes);
      }
      RoomMade(View(), bytes);
    }

    method StoreEvent(event: Event, now: nat)
      modifies this`cached, this`cacheOrder, this`cachedBytes, this`nextPrune
      ensures View() == Store(contents, old(View()), event, now)
    {
      hide MakeRoom, Tracked, Later;
      var expires, bytes := Later(now, options.eventTtl), contents.bytes(event.id);
      if event.id in cached {
        cachedBytes := SaturatingSub(cachedBytes, cached[event.id].bytes) + bytes;
        cached := cached[event.id := Cached(event, expires, bytes)];
      } else {
        EvictFor(bytes);
        cacheOrder := cacheOrder + [event.id];
        cachedBytes := cachedBytes + bytes;
        cached := cached[event.id := Cached(event, expires, bytes)];
      }
      TrackExpiry(expires);
    }

    method RemovePending(id: EventId) returns (removed: Option<Pending>)
      modifies this`pending, this`pendingCount
      ensures View() == WithoutPending(old(View()), id)
      ensures removed == if id in old(pending) then Some(old(pending)[id]) else None
    {
      if id !in pending { return None; }
      removed := Some(pending[id]);
      pendingCount := SaturatingSub(pendingCount, |pending[id].peers|);
      pending := pending - {id};
    }

    /** Forgets the oldest announcement with all that hangs on it. */
    method ForgetOldest()
      requires seenOrder != []
      modifies this`seen, this`seenOrder, this`routes, this`pending, this`pendingCount, this`wants
      ensures View() == ForgetOne(old(View()))
    {
      hide WithoutPending;
      WithoutPendingElsewhere(View(), seenOrder[0]);
      var oldest := seenOrder[0];
      var removed := RemovePending(oldest);
      seenOrder := seenOrder[1..];
      seen := seen - {oldest};
      routes := routes - {oldest};
      wants := wants - {oldest};
    }

    /** Forgets the oldest announcements until there is room for one more. */
    method ForgetOldestSeen()
      modifies this`seen, this`seenOrder, this`routes, this`pending, this`pendingCount, this`wants
      ensures View() == ForgetSeen(old(View()))
    {
      hide ForgetSeen, WithoutPending, ForgetOne;
      while |seen| >= options.maxSeen && seenOrder != []
        invariant ForgetSeen(View()) == ForgetSeen(old(View()))
        decreases |seenOrder|
      {
        ForgetSeenStep(View());
        OneForgotten(View());
        ForgetOldest();
      }
      ForgetSeenDone(View());
    }

    /** Whether the announcement is new; if so it is noted, the oldest ones making room. */
    method RememberInventory(id: EventId, now: nat) returns (isNew: bool)
      modifies this`seen, this`seenOrder, this`routes, this`pending, this`pendingCount, this`wants, this`nextPrune
      ensures isNew == Fresh(old(View()), id, now)
      ensures View() == if isNew then Remember(old(View()), id, now) else old(View())
    {
      hide ForgetSeen, Tracked, Later;
      if id in seen && seen[id] > now { return false; }
      if id !in seen {
        ForgetOldestSeen();
        seenOrder := seenOrder + [id];
      }
      var expires := Later(now, options.routeTtl);
      seen := seen[id := expires];
      TrackExpiry(expires);
      return true;
    }

    method ForgetOldestDelivered()
      modifies this`delivered, this`deliveredOrder
      ensures View() == ForgetDelivered(old(View()))
    {
      hide ForgetDelivered;
      while |delivered| >= options.maxSeen && deliveredOrder != []
        invariant ForgetDelivered(View()) == ForgetDelivered(old(View()))
        decreases |deliveredOrder|
      {
        ForgetDeliveredStep(View());
        delivered := delivered - {deliveredOrder[0]};
        deliveredOrder := deliveredOrder[1..];
      }
      ForgetDeliveredDone(View());
    }

    /** Whether the event was not delivered recently; if so that is noted. */
    method RememberDelivered(id: EventId, now: nat) returns (first: bool)
      modifies this`delivered, this`deliveredOrder, this`nextPrune
      ensures first == (id !in old(delivered))
      ensures View() == if first then NoteDelivered(old(View()), id, now) else old(View())
    {
      hide ForgetDelivered, Tracked, Later;
      if id in delivered { return false; }
      ForgetOldestDelivered();
      var expires := Later(now, options.eventTtl);
      deliveredOrder := deliveredOrder + [id];
      delivered := delivered[id := expires];
      TrackExpiry(expires);
      return true;
    }

    // ---- Messages

    method ReceiveInventory(source: Peer, id: EventId, kind: nat, bytes: nat, hops: nat, now: nat)
      returns (r: Option<seq<Action>>)
      modifies this`seen, this`seenOrder, this`routes, this`pending, this`pendingCount, this`wants, this`nextPrune
      ensures Step(View(), r) == MeshState.ReceiveInventory(old(View()), source, id, kind, bytes, hops, now)
    {
      hide Remember, MeshState.RetryInventory, Later, ValidId, AllowedKind;
      if !ValidId(id) || !AllowedKind(options, kind) || bytes > options.maxEventBytes { return None; }
      if hops == 0 { return Some([]); }
      if hops > options.maxHops { return None; }
      if id in cached { return Some([]); }
      var first := RememberInventory(id, now);
      if !first {
        r := RetryInventory(source, id, kind, bytes, hops, now);
        return;
      }
      var expires := Later(now, options.routeTtl);
      if id !in routes {
        routes := routes[id := Route(source, {}, {}, kind, bytes, hops, expires, false)];
      } else {
        assert routes == routes[id := routes[id]];
      }
      wants := wants[id := expires];
      return Some([Send(source, Want(id))]);
    }

    /** A further announcement of an event still being requested. */
    method RetryInventory(source: Peer, id: EventId, kind: nat, bytes: nat, hops: nat, now: nat)
      returns (r: Option<seq<Action>>)
      modifies this`seen, this`routes, this`wants
      ensures Step(View(), r) == MeshState.RetryInventory(old(View()), source, id, kind, bytes, hops, now)
    {
      hide Later;
      if id !in routes { return Some([]); }
      var route := routes[id];
      if route.fulfilled { return Some([]); }
      if route.kind != kind || route.bytes != bytes { return None; }
      route := route.(hops := Max(route.hops, hops));
      if route.peer != source && source !in route.alternates {
        if |route.alternates| + 1 >= MAX_PROVIDERS {
          routes := routes[id := route];
          return Some([]);
        }
        var expires := Later(now, options.routeTtl);
        route := route.(alternates := route.alternates + {source}, expires := expires);
        seen := seen[id := expires];
        wants := wants[id := expires];
      }
      routes := routes[id := route.(disrupted := route.disrupted - {source})];
      return Some([Send(source, Want(id))]);
    }

    /** Adds a peer to those waiting for an event, unless as many as allowed are waiting. */
    method JoinPending(source: Peer, id: EventId, now: nat)
      modifies this`pending, this`pendingCount
      ensures View() == WithPending(old(View()), source, id, now)
    {
      hide Later;
      var waiting := if id in pending then pending[id] else Pending({}, Later(now, options.routeTtl));
      if |waiting.peers| < options.maxPending && source !in waiting.peers {
        waiting := waiting.(peers := waiting.peers + {source});
        pendingCount := pendingCount + 1;
      }
      pending := pending[id := waiting];
    }

    method ReceiveWant(source: Peer, id: EventId, now: nat) returns (r: Option<seq<Action>>)
      modifies this`pending, this`pendingCount, this`routes, this`wants
      ensures Step(View(), r) == MeshState.ReceiveWant(old(View()), source, id, now)
    {
      hide Later, ValidId, WithPending;
      WithPendingElsewhere(View(), source, id, now);
      if !ValidId(id) { return None; }
      if id in cached { return Some([Send(source, Frame(id, cached[id].event))]); }
      if id !in routes { return Some([]); }
      var route := routes[id];
      if route.fulfilled { return Some([]); }
      JoinPending(source, id, now);
      if id in wants && wants[id] > now { return Some([]); }
      routes := routes[id := route.(disrupted := route.disrupted - {route.peer})];
      wants := wants[id := route.expires];
      return Some([Send(route.peer, Want(id))]);
    }

    /** The members of a set in some fixed order. */
    static method InOrder(peers: set<Peer>) returns (order: seq<Peer>)
      ensures Lists(order, peers)
    {
      order := [];
      var rest := peers;
      while rest != {}
        invariant rest <= peers && |order| + |rest| == |peers|
        invariant forall p :: p in order <==> p in peers && p !in rest
        decreases |rest|
      {
        var p :| p in rest;
        order := order + [p];
        rest := rest - {p};
      }
    }

    /** `peers` are the connected peers with their current scores. */
    method Selected(peers: seq<MeshPeer>, excluded: Option<Peer>) returns (ids: seq<Peer>)
      ensures Best(peers, excluded, options.fanout, options.unknownReserve, ids)
      ensures |ids| <= options.fanout
      ensures forall p :: p in ids ==> excluded != Some(p) && exists q :: q in peers && q.id == p
    {
      hide Ahead, Unknowns, Ranked, WantedUnknowns, Fronted;
      var best;
      ghost var candidates;
      best, candidates := SelectMeshPeers(peers, excluded, options.fanout, options.unknownReserve);
      ids := PeerIds(best);
      forall p | p in ids ensures excluded != Some(p) && exists q :: q in peers && q.id == p {
        var i :| 0 <= i < |ids| && ids[i] == p;
        assert best[i] in candidates && Describes(peers, excluded, best[i]);
      }
    }

    /** Caches a frame's event, closes its route, and says whether it is new here and who was waiting for it. */
    method Serve(id: EventId, event: Event, now: nat) returns (first: bool, to: seq<Peer>)
      requires id in routes && event.id == id
      modifies this`cached, this`cacheOrder, this`cachedBytes, this`nextPrune, this`delivered, this`deliveredOrder,
               this`routes, this`pending, this`pendingCount
      ensures first == (id !in Closed(contents, old(View()), id, event, now).delivered)
      ensures var served := Closed(contents, old(View()), id, event, now);
              var noted := if first then NoteDelivered(served, id, now) else served;
              && View() == WithoutPending(noted, id)
              && (id in noted.pending <==> id in old(pending))
      ensures if id in old(pending) then Lists(to, old(pending)[id].peers) else to == []
    {
      hide Store, NoteDelivered, WithoutPending;
      ghost var start := View();
      var route := routes[id];
      StoreEvent(event, now);
      StoreElsewhere(contents, start, event, now);
      routes := routes[id := route.(fulfilled := true, disrupted := {})];
      ghost var served := View();
      first := RememberDelivered(id, now);
      if first { NoteElsewhere(served, id, now); }
      var removed := RemovePending(id);
      to := [];
      if removed.Some? { to := InOrder(removed.value.peers); }
    }

    method ReceiveFrame(source: Peer, id: EventId, event: Event, peers: seq<MeshPeer>, now: nat)
      returns (r: Option<seq<Action>>, ghost waiting: seq<Peer>, ghost selected: seq<Peer>)
      modifies this`cached, this`cacheOrder, this`cachedBytes, this`nextPrune, this`delivered, this`deliveredOrder,
               this`routes, this`pending, this`pendingCount
      ensures Step(View(), r)
           == MeshState.ReceiveFrame(contents, old(View()), source, id, event, waiting, selected, now)
      ensures Requested(contents, old(View()), source, id, event) && !old(routes)[id].fulfilled && id in old(pending) ==>
                Lists(waiting, old(pending)[id].peers)
      ensures Requested(contents, old(View()), source, id, event) && !old(routes)[id].fulfilled && old(routes)[id].hops > 1 ==>
                Best(peers, Some(source), options.fanout, options.unknownReserve, selected)
      ensures |selected| <= options.fanout
      ensures forall p :: p in selected ==> p != source && exists q :: q in peers && q.id == p
    {
      hide Store, NoteDelivered, WithoutPending, Best;
      waiting, selected := [], [];
      if !ValidId(id) || id !in routes { return None, [], []; }
      var route := routes[id];
      if id !in wants || (route.peer != source && source !in route.alternates) { return None, [], []; }
      if !event.signed || !Admissible(contents, options, event.id) || event.id != id { return None, [], []; }
      if route.kind != contents.kind(id) || route.bytes != contents.bytes(id) { return None, [], []; }
      if route.fulfilled { return Some([]), [], []; }
      var first, to := Serve(id, event, now);
      waiting := to;
      var actions := if first then [Deliver(source, event)] else [];
      actions := actions + Announce(to, Frame(id, event));
      if route.hops > 1 {
        var ids := Selected(peers, Some(source));
        selected := ids;
        actions := actions + Announce(ids, Inventory(id, contents.kind(id), contents.bytes(id), route.hops - 1));
      } else {
        assert actions + [] == actions;
      }
      return Some(actions), waiting, selected;
    }

    /** Runs maintenance, then handles one message. */
    method Receive(source: Peer, message: Message, peers: seq<MeshPeer>, now: nat)
      returns (r: Option<seq<Action>>, ghost waiting: seq<Peer>, ghost selected: seq<Peer>)
      requires Valid() && clock <= now
      modifies this
      ensures Valid() && clock == now
      ensures Step(View(), r) == Received(contents, old(View()), source, message, waiting, selected, now)
      ensures Fair(contents, Prune(old(View()), now), source, message, waiting)
      ensures PassesOn(contents, Prune(old(View()), now), source, message) ==>
                Best(peers, Some(source), options.fanout, options.unknownReserve, selected)
      ensures |selected| <= options.fanout
      ensures forall p :: p in selected ==> p != source && exists q :: q in peers && q.id == p
    {
      hide LockStep, Current, Prune, MeshState.ReceiveInventory, MeshState.ReceiveWant, MeshState.ReceiveFrame, Best;
      waiting, selected := [], [];
      PruneExpired(now);
      ReceivedKeeps(contents, View(), source, message, now);
      match message
      case Inventory(id, kind, bytes, hops) => r := ReceiveInventory(source, id, kind, bytes, hops, now);
      case Want(id) => r := ReceiveWant(source, id, now);
      case Frame(id, event) =>
        ghost var before := View();
        r, waiting, selected := ReceiveFrame(source, id, event, peers, now);
        FrameKeeps(contents, before, source, id, event, waiting, selected, now);
    }

    // ---- Calls of the application

    method Publish(event: Event, peers: seq<MeshPeer>, now: nat)
      returns (r: Option<seq<Action>>, ghost selected: seq<Peer>)
      requires Valid() && clock <= now
      modifies this
      ensures Valid() && clock == now
      ensures Step(View(), r) == MeshState.Publish(contents, Prune(old(View()), now), event, selected, now)
      ensures event.signed && Admissible(contents, options, event.id) && Fresh(Prune(old(View()), now), event.id, now) ==>
                Best(peers, None, options.fanout, options.unknownReserve, selected)
      ensures |selected| <= options.fanout && forall p :: p in selected ==> exists q :: q in peers && q.id == p
    {
      hide LockStep, Current, Prune, Store, Remember, Best;
      selected := [];
      PruneExpired(now);
      PublishKeeps(contents, View(), event, [], now);
      if !event.signed || !Admissible(contents, options, event.id) { return None, []; }
      StoreEvent(event, now);
      var first := RememberInventory(event.id, now);
      if !first { return Some([]), []; }
      var ids := Selected(peers, None);
      return Some(Announce(ids, Inventory(event.id, contents.kind(event.id), contents.bytes(event.id), options.maxHops))), ids;
    }

    method ReplayToPeer(event: Event, peer: Peer, now: nat) returns (r: Option<seq<Action>>)
      requires Valid() && clock <= now
      modifies this
      ensures Valid() && clock == now
      ensures Step(View(), r) == Replay(contents, Prune(old(View()), now), event, peer, now)
    {
      hide LockStep, Current, Prune, Store;
      PruneExpired(now);
      ReplayKeeps(contents, View(), event, peer, now);
      if !event.signed || !Admissible(contents, options, event.id) { return None; }
      StoreEvent(event, now);
      return Some([Send(peer, Inventory(event.id, contents.kind(event.id), contents.bytes(event.id), options.maxHops))]);
    }

    /** Restores an event into the cache without sending anything. */
    method SeedVerified(event: Event, now: nat) returns (r: Option<()>)
      requires Valid() && clock <= now && event.signed
      modifies this
      ensures Valid() && clock == now
      ensures r == if Admissible(contents, options, event.id) then Some(()) else None
      ensures View() == if r.Some? then Store(contents, Prune(old(View()), now), event, now) else Prune(old(View()), now)
    {
      hide LockStep, Current, Prune, Store;
      PruneExpired(now);
      if !Admissible(contents, options, event.id) { return None; }
      StoreKeeps(contents, View(), event, now);
      StoreEvent(event, now);
      return Some(());
    }

    /** Announces every cached event to one peer, oldest first. */
    method ReplayCachedToPeer(peer: Peer, now: nat) returns (actions: seq<Action>)
      requires Valid() && clock <= now
      modifies this
      ensures Valid() && clock == now && View() == Prune(old(View()), now)
      ensures actions == ReplayCached(contents, View(), peer)
    {
      hide LockStep, Current, Prune;
      PruneExpired(now);
      CacheKnown(contents, View(), now);
      actions := [];
      for i := 0 to |cacheOrder|
        invariant |actions| == i
        invariant forall k :: 0 <= k < i ==> actions[k] == ReplayCached(contents, View(), peer)[k]
      {
        var id := cacheOrder[i];
        if id in cached {
          actions := actions + [Send(peer, Inventory(id, contents.kind(cached[id].event.id), cached[id].bytes, options.maxHops))];
        }
      }
    }

    method DismissFrame(peer: Peer, id: EventId)
      requires Valid()
      modifies this`routes, this`pending, this`pendingCount
      ensures Valid() && View() == Dismiss(old(View()), peer, id)
    {
      hide LockStep, WithoutPending;
      DismissKeeps(contents, View(), peer, id, clock);
      if id in routes && (routes[id].peer == peer || peer in routes[id].alternates) {
        routes := routes[id := routes[id].(fulfilled := true, disrupted := {})];
        var removed := RemovePending(id);
      }
    }

    method RecordTransportDisruption(peer: Peer, id: EventId) returns (marked: bool)
      requires Valid()
      modifies this`routes
      ensures Valid() && View() == Disrupt(old(View()), peer, id) && marked == Disrupts(old(View()), peer, id)
    {
      hide LockStep;
      DisruptKeeps(contents, View(), peer, id, clock);
      if id !in routes { return false; }
      var route := routes[id];
      if !route.fulfilled && (route.peer == peer || peer in route.alternates) && peer !in route.disrupted {
        routes := routes[id := route.(disrupted := route.disrupted + {peer})];
        return true;
      }
      return false;
    }
  }

  lemma PrunedIs(m: Mesh, now: nat, r: Mesh)
    requires m.nextPrune.Some? && m.nextPrune.value <= now && r.options == m.options
    requires r.cached == LiveCache(m.cached, now) && r.cacheOrder == Kept(m.cacheOrder, r.cached.Keys)
    requires r.cachedBytes == Sum(r.cached, CachedSize)
    requires r.seen == LiveTimes(m.seen, now) && r.seenOrder == Kept(m.seenOrder, r.seen.Keys)
    requires r.delivered == LiveTimes(m.delivered, now) && r.deliveredOrder == Kept(m.deliveredOrder, r.delivered.Keys)
    requires r.routes == LiveRoutes(m.routes, now) && r.pending == LivePending(m.pending, r.routes, now)
    requires r.pendingCount == Sum(r.pending, PendingSize) && r.wants == LiveWants(m.wants, r.routes, now)
    requires r.nextPrune == Least(Times(r.cached, r.seen, r.delivered, r.routes))
    ensures r == Prune(m, now)
  {
    hide Sum, Kept, Least, IsLeast, LiveCache, LiveTimes, LiveRoutes, LivePending, LiveWants, Times;
  }

  lemma NoneLeast()
    ensures IsLeast({}, None)
  {}

  lemma TrackedLeast(times: set<nat>, least: Option<nat>, t: nat)
    requires IsLeast(times, least)
    ensures IsLeast(times + {t}, Tracked(least, t))
  {}

  lemma OneLeast(times: set<nat>, a: Option<nat>, b: Option<nat>)
    requires IsLeast(times, a) && IsLeast(times, b)
    ensures a == b
  {}

  /** One turn of each eviction loop. */
  lemma MakeRoomStep(m: Mesh, bytes: nat)
    requires m.cacheOrder != []
    requires |m.cached| >= m.options.maxCachedEvents || m.cachedBytes + bytes > m.options.maxCachedBytes
    ensures MakeRoom(m, bytes) == MakeRoom(if m.cacheOrder[0] in m.cached then EvictOne(m)
                                           else m.(cacheOrder := m.cacheOrder[1..]), bytes)
  {}

  lemma RoomMade(m: Mesh, bytes: nat)
    requires m.cacheOrder == [] || !(|m.cached| >= m.options.maxCachedEvents || m.cachedBytes + bytes > m.options.maxCachedBytes)
    ensures MakeRoom(m, bytes) == m
  {}

  lemma ForgetSeenStep(m: Mesh)
    requires |m.seen| >= m.options.maxSeen && m.seenOrder != []
    ensures ForgetSeen(m) == ForgetSeen(ForgetOne(m))
  {}

  lemma OneForgotten(m: Mesh)
    requires m.seenOrder != []
    ensures ForgetOne(m).seenOrder == m.seenOrder[1..]
  {}

  lemma ForgetSeenDone(m: Mesh)
    requires |m.seen| < m.options.maxSeen || m.seenOrder == []
    ensures ForgetSeen(m) == m
  {}

  lemma WithoutPendingElsewhere(m: Mesh, id: EventId)
    ensures WithoutPending(m, id) == m.(pending := WithoutPending(m, id).pending, pendingCount := WithoutPending(m, id).pendingCount)
  {}

  lemma WithPendingElsewhere(m: Mesh, source: Peer, id: EventId, now: nat)
    ensures var r := WithPending(m, source, id, now);
            r == m.(pending := r.pending, pendingCount := r.pendingCount)
  {}

  lemma ForgetDeliveredStep(m: Mesh)
    requires |m.delivered| >= m.options.maxSeen && m.deliveredOrder != []
    ensures ForgetDelivered(m)
         == ForgetDelivered(m.(deliveredOrder := m.deliveredOrder[1..], delivered := m.delivered - {m.deliveredOrder[0]}))
  {}

  lemma ForgetDeliveredDone(m: Mesh)
    requires |m.delivered| < m.options.maxSeen || m.deliveredOrder == []
    ensures ForgetDelivered(m) == m
  {}

  lemma CacheKnown(c: Contents, m: Mesh, now: nat)
    requires LockStep(c, m, now)
    ensures forall id :: id in m.cacheOrder ==>
              id in m.cached && m.cached[id].event.id == id && m.cached[id].bytes == c.bytes(id)
  {
    hide Sum;
  }
}
