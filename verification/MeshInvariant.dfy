/** The maps and queues of a mesh move in lock step: what every message and call keeps, under a clock that
    never goes back. */
module MeshInvariant {
  import opened Wrappers
  import opened Sets
  import opened Sums
  import opened MeshState

  ghost predicate Queues(order: seq<EventId>, keys: set<EventId>) {
    && |order| == |keys|
    && (forall id :: id in order <==> id in keys)
  }

  /** Routes, wants and announcements of one event expire together. */
  ghost predicate RoutesAgree(m: Mesh) {
    && m.wants.Keys == m.routes.Keys
    && forall id :: id in m.routes ==>
                      id in m.seen && m.seen[id] == m.wants[id] == m.routes[id].expires
  }

  ghost predicate RouteOk(o: Options, r: Route) {
    && |r.alternates| <= 2 && r.peer !in r.alternates
    && 0 < r.hops <= o.maxHops
  }

  ghost predicate PendingOk(m: Mesh) {
    && (forall id :: id in m.pending ==>
                       id in m.routes && !m.routes[id].fulfilled && |m.pending[id].peers| <= m.options.maxPending)
    && m.pendingCount == Sum(m.pending, PendingSize)
  }

  ghost predicate CacheOk(c: Contents, m: Mesh) {
    && Queues(m.cacheOrder, m.cached.Keys)
    && (forall id :: id in m.cached ==>
                       m.cached[id].event.id == id && m.cached[id].bytes == c.bytes(id) <= m.options.maxEventBytes)
    && m.cachedBytes == Sum(m.cached, CachedSize) <= m.options.maxCachedBytes
    && |m.cached| <= m.options.maxCachedEvents
  }

  /** Nothing but the wait of a peer ends before the next scheduled maintenance. */
  ghost predicate Scheduled(m: Mesh) {
    && (forall id :: id in m.cached ==> m.nextPrune.Some? && m.nextPrune.value <= m.cached[id].expires)
    && (forall id :: id in m.seen ==> m.nextPrune.Some? && m.nextPrune.value <= m.seen[id])
    && (forall id :: id in m.delivered ==> m.nextPrune.Some? && m.nextPrune.value <= m.delivered[id])
    && (forall id :: id in m.routes ==> m.nextPrune.Some? && m.nextPrune.value <= m.routes[id].expires)
  }

  ghost predicate ValidOptions(o: Options) { o == Clamped(o) }

  ghost predicate RoutesOk(m: Mesh) {
    forall id :: id in m.routes ==> RouteOk(m.options, m.routes[id])
  }

  ghost predicate SeenOk(m: Mesh) {
    Queues(m.seenOrder, m.seen.Keys) && |m.seen| <= m.options.maxSeen
  }

  ghost predicate DeliveredOk(m: Mesh) {
    Queues(m.deliveredOrder, m.delivered.Keys) && |m.delivered| <= m.options.maxSeen
  }

  ghost predicate SeenBefore(m: Mesh, now: nat) {
    forall id :: id in m.seen ==> m.seen[id] <= Later(now, m.options.routeTtl)
  }

  /** The invariant, `now` being the time of the latest call. */
  ghost predicate LockStep(c: Contents, m: Mesh, now: nat) {
    && ValidOptions(m.options)
    && RoutesAgree(m)
    && RoutesOk(m)
    && PendingOk(m)
    && CacheOk(c, m)
    && SeenOk(m)
    && DeliveredOk(m)
    && Scheduled(m)
    && SeenBefore(m, now)
  }

  // ---- What depends on what

  ghost predicate SameProgress(m: Mesh, r: Mesh) {
    forall id :: id in m.pending && id in m.routes ==> id in r.routes && r.routes[id].fulfilled == m.routes[id].fulfilled
  }

  /** Parts of the invariant carry over when what they are about stays as it is. */
  lemma Unaffected(c: Contents, m: Mesh, r: Mesh, now: nat)
    requires r.options == m.options
    ensures RoutesAgree(m) && r.routes == m.routes && r.seen == m.seen && r.wants == m.wants ==> RoutesAgree(r)
    ensures RoutesOk(m) && r.routes == m.routes ==> RoutesOk(r)
    ensures PendingOk(m) && r.pending == m.pending && r.pendingCount == m.pendingCount && SameProgress(m, r) ==> PendingOk(r)
    ensures CacheOk(c, m) && r.cached == m.cached && r.cacheOrder == m.cacheOrder && r.cachedBytes == m.cachedBytes
            ==> CacheOk(c, r)
    ensures SeenOk(m) && r.seen == m.seen && r.seenOrder == m.seenOrder ==> SeenOk(r)
    ensures DeliveredOk(m) && r.delivered == m.delivered && r.deliveredOrder == m.deliveredOrder ==> DeliveredOk(r)
    ensures SeenBefore(m, now) && r.seen == m.seen ==> SeenBefore(r, now)
  {
    hide Sum, Queues;
  }

  /** Whatever expires in r did so no earlier in m, or is the new expiry that the schedule was told of. */
  ghost predicate Follows(m: Mesh, r: Mesh, new_: Option<nat>) {
    && r.nextPrune == (if new_.Some? then Tracked(m.nextPrune, new_.value) else m.nextPrune)
    && (forall id :: id in r.cached ==>
          (id in m.cached && m.cached[id].expires <= r.cached[id].expires) || (new_.Some? && new_.value <= r.cached[id].expires))
    && (forall id :: id in r.seen ==>
          (id in m.seen && m.seen[id] <= r.seen[id]) || (new_.Some? && new_.value <= r.seen[id]))
    && (forall id :: id in r.delivered ==>
          (id in m.delivered && m.delivered[id] <= r.delivered[id]) || (new_.Some? && new_.value <= r.delivered[id]))
    && (forall id :: id in r.routes ==>
          (id in m.routes && m.routes[id].expires <= r.routes[id].expires) || (new_.Some? && new_.value <= r.routes[id].expires))
  }

  lemma FollowsScheduled(m: Mesh, r: Mesh, new_: Option<nat>)
    requires Scheduled(m) && Follows(m, r, new_)
    ensures Scheduled(r)
  {}

  // ---- Queues

  lemma QueueFirst(order: seq<EventId>, keys: set<EventId>)
    requires Queues(order, keys) && order != []
    ensures order[0] in keys && Queues(order[1..], keys - {order[0]})
  {
    assert order == [order[0]] + order[1..];
    assert order[0] in order;
    DistinctOrder(order, keys);
    assert |keys - {order[0]}| == |keys| - 1;
  }

  lemma QueueLast(order: seq<EventId>, keys: set<EventId>, id: EventId)
    requires Queues(order, keys) && id !in keys
    ensures Queues(order + [id], keys + {id})
  {
    assert |keys + {id}| == |keys| + 1;
  }

  /** As long as its key set: a queue without repetitions. */
  lemma DistinctOrder(order: seq<EventId>, keys: set<EventId>)
    requires Queues(order, keys)
    ensures forall i, j :: 0 <= i < j < |order| ==> order[i] != order[j]
  {
    assert Elements(order) == keys;
    ElementsAtMost(order);
  }

  lemma {:induction false} KeptMeans(order: seq<EventId>, keys: set<EventId>, all: set<EventId>)
    requires keys <= all && (forall id :: id in order <==> id in all)
    requires forall i, j :: 0 <= i < j < |order| ==> order[i] != order[j]
    ensures Queues(Kept(order, keys), keys)
    ensures |Kept(order, keys)| <= |order|
    decreases |order|
  {
    if order == [] {
      assert keys == {};
    } else {
      var first, rest := order[0], order[1..];
      assert order == [first] + rest;
      assert first !in rest;
      KeptMeans(rest, keys - {first}, all - {first});
      KeptSame(rest, keys - {first}, keys);
      if first in keys {
        assert |keys - {first}| == |keys| - 1;
        assert forall id :: id in [first] + Kept(rest, keys) <==> id == first || id in Kept(rest, keys);
      } else {
        assert keys - {first} == keys;
      }
    }
  }

  lemma {:induction false} KeptSame(order: seq<EventId>, a: set<EventId>, b: set<EventId>)
    requires forall id :: id in order ==> (id in a <==> id in b)
    ensures Kept(order, a) == Kept(order, b)
  {
    if order != [] { KeptSame(order[1..], a, b); }
  }

  lemma KeptQueues(order: seq<EventId>, all: set<EventId>, keys: set<EventId>)
    requires Queues(order, all) && keys <= all
    ensures Queues(Kept(order, keys), keys)
    ensures |keys| <= |all|
  {
    DistinctOrder(order, all);
    KeptMeans(order, keys, all);
  }

  // ---- The start

  lemma EmptyLockStep(c: Contents, o: Options, now: nat)
    ensures LockStep(c, Empty(o), now)
  {}

  lemma LaterMonotone(now: nat, then_: nat, ttl: nat)
    requires now <= then_
    ensures Later(now, ttl) <= Later(then_, ttl)
  {}

  lemma TimePasses(c: Contents, m: Mesh, now: nat, later: nat)
    requires LockStep(c, m, now) && now <= later
    ensures LockStep(c, m, later)
  {
    hide Sum, Clamped;
    LaterMonotone(now, later, m.options.routeTtl);
  }

  // ---- Maintenance keeps it, and leaves nothing expired but waits

  /** Nothing has expired but possibly the wait of a peer, for a route that has not. */
  ghost predicate Current(m: Mesh, now: nat) {
    && (forall id :: id in m.cached ==> m.cached[id].expires > now)
    && (forall id :: id in m.seen ==> m.seen[id] > now)
    && (forall id :: id in m.delivered ==> m.delivered[id] > now)
    && (forall id :: id in m.routes ==> m.routes[id].expires > now)
    && (forall id :: id in m.pending ==> id in m.routes)
  }

  lemma LeastSchedules(m: Mesh)
    requires m.nextPrune == Least(Expiries(m.(nextPrune := None)))
    ensures Scheduled(m)
  {
    var times := Expiries(m.(nextPrune := None));
    forall id | id in m.cached ensures m.nextPrune.Some? && m.nextPrune.value <= m.cached[id].expires {
      assert m.cached[id].expires in times;
    }
    forall id | id in m.seen ensures m.nextPrune.Some? && m.nextPrune.value <= m.seen[id] {
      assert m.seen[id] in times;
    }
    forall id | id in m.delivered ensures m.nextPrune.Some? && m.nextPrune.value <= m.delivered[id] {
      assert m.delivered[id] in times;
    }
    forall id | id in m.routes ensures m.nextPrune.Some? && m.nextPrune.value <= m.routes[id].expires {
      assert m.routes[id].expires in times;
    }
  }

  lemma PruneKeeps(c: Contents, m: Mesh, before: nat, now: nat)
    requires LockStep(c, m, before) && before <= now
    ensures LockStep(c, Prune(m, now), now) && Current(Prune(m, now), now)
    ensures Prune(m, now).options == m.options
  {
    hide Sum, Clamped, Kept, Queues, Least, Expiries, CacheOk, Prune;
    TimePasses(c, m, before, now);
    if m.nextPrune.Some? && m.nextPrune.value <= now {
      PrunedCache(c, m, now);
      PrunedQueues(m, now);
      PrunedRoutes(m, now);
      PrunedLeast(m, now);
      LeastSchedules(Prune(m, now));
    } else {
      assert Prune(m, now) == m by { PruneNot(m, now); }
      CacheCurrent(c, m, now);
    }
  }

  lemma PruneNot(m: Mesh, now: nat)
    requires !(m.nextPrune.Some? && m.nextPrune.value <= now)
    ensures Prune(m, now) == m
  {}

  lemma CacheCurrent(c: Contents, m: Mesh, now: nat)
    requires Scheduled(m) && !(m.nextPrune.Some? && m.nextPrune.value <= now)
    ensures forall id :: id in m.cached ==> m.cached[id].expires > now
  {}

  lemma PrunedCache(c: Contents, m: Mesh, now: nat)
    requires m.nextPrune.Some? && m.nextPrune.value <= now && CacheOk(c, m)
    ensures CacheOk(c, Prune(m, now)) && forall id :: id in Prune(m, now).cached ==> Prune(m, now).cached[id].expires > now
  {
    hide Sum, Kept, Queues, Least, Expiries;
    var p := Prune(m, now);
    KeptQueues(m.cacheOrder, m.cached.Keys, p.cached.Keys);
    assert |p.cached| == |p.cached.Keys| && |m.cached| == |m.cached.Keys|;
    SumSub(p.cached, m.cached, CachedSize);
  }

  lemma PrunedQueues(m: Mesh, now: nat)
    requires m.nextPrune.Some? && m.nextPrune.value <= now
    requires SeenOk(m) && DeliveredOk(m)
    ensures var p := Prune(m, now);
            && p.options == m.options && SeenOk(p) && DeliveredOk(p)
            && (forall id :: id in p.seen ==> id in m.seen && p.seen[id] == m.seen[id] > now)
            && (forall id :: id in p.delivered ==> p.delivered[id] > now)
  {
    hide Sum, Kept, Queues, Least, Expiries;
    var p := Prune(m, now);
    KeptQueues(m.seenOrder, m.seen.Keys, p.seen.Keys);
    KeptQueues(m.deliveredOrder, m.delivered.Keys, p.delivered.Keys);
    assert |p.seen| == |p.seen.Keys| && |p.delivered| == |p.delivered.Keys|;
    assert |m.seen| == |m.seen.Keys| && |m.delivered| == |m.delivered.Keys|;
  }

  lemma PrunedRoutes(m: Mesh, now: nat)
    requires m.nextPrune.Some? && m.nextPrune.value <= now
    requires RoutesAgree(m) && PendingOk(m) && RoutesOk(m)
    ensures var p := Prune(m, now);
            && RoutesAgree(p) && PendingOk(p) && RoutesOk(p)
            && (forall id :: id in p.routes ==> p.routes[id].expires > now)
  {
    hide Sum, Kept, Least, Expiries;
  }

  lemma SameExpiries(m: Mesh)
    ensures forall n: Option<nat> :: Expiries(m.(nextPrune := n)) == Expiries(m)
  {}

  lemma PrunedLeast(m: Mesh, now: nat)
    requires m.nextPrune.Some? && m.nextPrune.value <= now
    ensures Prune(m, now).nextPrune == Least(Expiries(Prune(m, now).(nextPrune := None)))
  {
    hide Sum, Kept, Least, Expiries;
    var p := Prune(m, now);
    SameExpiries(p);
    assert p.(nextPrune := m.nextPrune).(nextPrune := None) == p.(nextPrune := None);
    assert Expiries(p.(nextPrune := m.nextPrune)) == Expiries(p.(nextPrune := None));
  }

  // ---- The cache

  /** Only the cache and the schedule differ. */
  ghost predicate OnlyCache(m: Mesh, r: Mesh) {
    r == m.(cached := r.cached, cacheOrder := r.cacheOrder, cachedBytes := r.cachedBytes, nextPrune := r.nextPrune)
  }

  /** Evicts the oldest cached event. */
  function EvictOne(m: Mesh): Mesh
    requires m.cacheOrder != [] && m.cacheOrder[0] in m.cached
  {
    m.(cacheOrder := m.cacheOrder[1..], cached := m.cached - {m.cacheOrder[0]},
       cachedBytes := SaturatingSub(m.cachedBytes, m.cached[m.cacheOrder[0]].bytes))
  }

  lemma EvictOneKeeps(c: Contents, m: Mesh)
    requires CacheOk(c, m) && m.cacheOrder != []
    ensures m.cacheOrder[0] in m.cached && CacheOk(c, EvictOne(m)) && OnlyCache(m, EvictOne(m))
  {
    hide Sum, Queues;
    QueueFirst(m.cacheOrder, m.cached.Keys);
    SumRemove(m.cached, CachedSize, m.cacheOrder[0]);
    Fewer(m.cached, m.cacheOrder[0]);
    assert EvictOne(m).cached.Keys == m.cached.Keys - {m.cacheOrder[0]};
  }

  lemma {:induction false} MakeRoomKeeps(c: Contents, m: Mesh, bytes: nat)
    requires CacheOk(c, m) && bytes <= m.options.maxCachedBytes && 0 < m.options.maxCachedEvents
    ensures var r := MakeRoom(m, bytes);
            && CacheOk(c, r) && OnlyCache(m, r) && r.nextPrune == m.nextPrune
            && |r.cached| < r.options.maxCachedEvents && r.cachedBytes + bytes <= r.options.maxCachedBytes
            && (forall id :: id in r.cached ==> id in m.cached && r.cached[id] == m.cached[id])
    decreases |m.cacheOrder|
  {
    hide Sum, Queues, CacheOk;
    if |m.cached| >= m.options.maxCachedEvents || m.cachedBytes + bytes > m.options.maxCachedBytes {
      RoomNeedsEviction(c, m, bytes);
      EvictOneKeeps(c, m);
      MakeRoomKeeps(c, EvictOne(m), bytes);
    }
  }

  lemma QueueNotEmpty(order: seq<EventId>, keys: set<EventId>)
    requires Queues(order, keys)
    ensures order == [] <==> keys == {}
  {}

  lemma EmptySum(m: map<EventId, Cached>)
    requires m.Keys == {}
    ensures |m| == 0 && Sum(m, CachedSize) == 0
  {
    assert m == map[];
  }

  lemma RoomNeedsEviction(c: Contents, m: Mesh, bytes: nat)
    requires CacheOk(c, m) && bytes <= m.options.maxCachedBytes && 0 < m.options.maxCachedEvents
    requires |m.cached| >= m.options.maxCachedEvents || m.cachedBytes + bytes > m.options.maxCachedBytes
    ensures m.cacheOrder != []
  {
    hide Sum;
    QueueNotEmpty(m.cacheOrder, m.cached.Keys);
    if m.cached.Keys == {} { EmptySum(m.cached); }
  }

  lemma ClampedBounds(o: Options)
    requires ValidOptions(o)
    ensures 0 < o.maxCachedEvents && o.maxEventBytes <= o.maxCachedBytes && 0 < o.maxHops && 0 < o.maxSeen
    ensures 0 < o.maxPending && 0 < o.routeTtl <= o.eventTtl && o.unknownReserve <= o.fanout && 0 < o.fanout
  {}

  lemma StoreKeeps(c: Contents, m: Mesh, event: Event, now: nat)
    requires LockStep(c, m, now) && Admissible(c, m.options, event.id)
    ensures LockStep(c, Store(c, m, event, now), now) && OnlyCache(m, Store(c, m, event, now))
    ensures event.id in Store(c, m, event, now).cached
  {
    hide Sum, Queues, ValidOptions, RoutesAgree, RoutesOk, PendingOk, CacheOk, SeenOk, DeliveredOk, SeenBefore, Scheduled, MakeRoom, Tracked, Follows;
    ClampedBounds(m.options);
    if event.id !in m.cached { MakeRoomKeeps(c, m, c.bytes(event.id)); }
    StoredCache(c, m, event, now);
    StoredFollows(c, m, event, now);
    Unaffected(c, m, Store(c, m, event, now), now);
    FollowsScheduled(m, Store(c, m, event, now), Some(Later(now, m.options.eventTtl)));
  }

  lemma StoredCache(c: Contents, m: Mesh, event: Event, now: nat)
    requires CacheOk(c, m) && Admissible(c, m.options, event.id)
    requires event.id !in m.cached ==> Roomier(c, m, MakeRoom(m, c.bytes(event.id)), c.bytes(event.id))
    ensures CacheOk(c, Store(c, m, event, now))
  {
    hide Sum, Queues, MakeRoom, Tracked, CacheOk, RoutesAgree, RoutesOk, PendingOk, SeenOk, DeliveredOk, SeenBefore, Later;
    var v := Cached(event, Later(now, m.options.eventTtl), c.bytes(event.id));
    if event.id in m.cached {
      Replaced(c, m, event.id, v);
      Unaffected(c, m.(cachedBytes := m.cachedBytes, cached := m.cached[event.id := v]), Store(c, m, event, now), now);
    } else {
      var r := MakeRoom(m, c.bytes(event.id));
      Inserted(c, r, event.id, v);
      Unaffected(c, r.(cacheOrder := r.cacheOrder + [event.id], cachedBytes := r.cachedBytes + v.bytes,
                       cached := r.cached[event.id := v]), Store(c, m, event, now), now);
    }
  }

  lemma StoredFollows(c: Contents, m: Mesh, event: Event, now: nat)
    requires event.id !in m.cached ==> Roomier(c, m, MakeRoom(m, c.bytes(event.id)), c.bytes(event.id))
    ensures Follows(m, Store(c, m, event, now), Some(Later(now, m.options.eventTtl)))
  {
    hide MakeRoom, Tracked, CacheOk, Later;
  }

  ghost predicate Roomier(c: Contents, m: Mesh, r: Mesh, bytes: nat) {
    && CacheOk(c, r) && OnlyCache(m, r) && r.nextPrune == m.nextPrune
    && |r.cached| < r.options.maxCachedEvents && r.cachedBytes + bytes <= r.options.maxCachedBytes
    && (forall id :: id in r.cached ==> id in m.cached && r.cached[id] == m.cached[id])
  }

  lemma Replaced(c: Contents, m: Mesh, id: EventId, v: Cached)
    requires CacheOk(c, m) && id in m.cached && v.event.id == id && v.bytes == c.bytes(id)
    ensures CacheOk(c, m.(cached := m.cached[id := v]))
    ensures SaturatingSub(m.cachedBytes, m.cached[id].bytes) + v.bytes == m.cachedBytes
  {
    hide Sum, Queues;
    SumPut(m.cached, CachedSize, id, v);
    SumRemove(m.cached, CachedSize, id);
    assert m.cached[id := v].Keys == m.cached.Keys;
    assert |m.cached[id := v].Keys| == |m.cached[id := v]| && |m.cached.Keys| == |m.cached|;
  }

  lemma Inserted(c: Contents, r: Mesh, id: EventId, v: Cached)
    requires CacheOk(c, r) && id !in r.cached && v.event.id == id && v.bytes == c.bytes(id) <= r.options.maxEventBytes
    requires |r.cached| < r.options.maxCachedEvents && r.cachedBytes + v.bytes <= r.options.maxCachedBytes
    ensures CacheOk(c, r.(cacheOrder := r.cacheOrder + [id], cachedBytes := r.cachedBytes + v.bytes, cached := r.cached[id := v]))
  {
    hide Sum, Queues;
    SumPut(r.cached, CachedSize, id, v);
    QueueLast(r.cacheOrder, r.cached.Keys, id);
    assert r.cached[id := v].Keys == r.cached.Keys + {id};
    assert |r.cached[id := v]| == |r.cached| + 1;
  }

  // ---- Announcements

  lemma WithoutPendingKeeps(m: Mesh, id: EventId)
    requires m.pendingCount == Sum(m.pending, PendingSize)
    ensures var r := WithoutPending(m, id);
            && r == m.(pending := m.pending - {id}, pendingCount := r.pendingCount)
            && r.pendingCount == Sum(r.pending, PendingSize)
  {
    hide Sum;
    if id in m.pending { SumRemove(m.pending, PendingSize, id); } else { assert m.pending - {id} == m.pending; }
  }

  /** Forgets one announced event. */
  function ForgetOne(m: Mesh): Mesh
    requires m.seenOrder != []
  {
    var oldest := m.seenOrder[0];
    WithoutPending(m, oldest).(seenOrder := m.seenOrder[1..], seen := m.seen - {oldest},
                               routes := m.routes - {oldest}, wants := m.wants - {oldest})
  }

  /** Everything but announcements, routes, wants and pending requests stays. */
  ghost predicate OnlySeen(m: Mesh, r: Mesh) {
    r == m.(seen := r.seen, seenOrder := r.seenOrder, routes := r.routes, wants := r.wants,
            pending := r.pending, pendingCount := r.pendingCount, nextPrune := r.nextPrune)
  }

  lemma ForgetOneRoutes(m: Mesh)
    requires m.seenOrder != [] && RoutesAgree(m) && RoutesOk(m) && PendingOk(m)
    ensures RoutesAgree(ForgetOne(m)) && RoutesOk(ForgetOne(m)) && PendingOk(ForgetOne(m))
    ensures OnlySeen(m, ForgetOne(m)) && ForgetOne(m).nextPrune == m.nextPrune
  {
    hide Sum;
    WithoutPendingKeeps(m, m.seenOrder[0]);
  }

  lemma ForgetOneSeen(m: Mesh)
    requires m.seenOrder != [] && SeenOk(m)
    ensures SeenOk(ForgetOne(m)) && |ForgetOne(m).seen| == |m.seen| - 1
  {
    hide Queues;
    QueueFirst(m.seenOrder, m.seen.Keys);
    Fewer(m.seen, m.seenOrder[0]);
    assert ForgetOne(m).seen.Keys == m.seen.Keys - {m.seenOrder[0]};
  }

  lemma ForgetOneKeeps(c: Contents, m: Mesh, now: nat)
    requires LockStep(c, m, now) && m.seenOrder != []
    ensures LockStep(c, ForgetOne(m), now) && |ForgetOne(m).seen| == |m.seen| - 1
    ensures OnlySeen(m, ForgetOne(m)) && ForgetOne(m).nextPrune == m.nextPrune
  {
    hide Sum, Queues, ValidOptions, RoutesAgree, RoutesOk, PendingOk, CacheOk, SeenOk, DeliveredOk, Scheduled;
    ForgetOneRoutes(m);
    ForgetOneSeen(m);
    Unaffected(c, m, ForgetOne(m), now);
    FollowsScheduled(m, ForgetOne(m), None);
  }

  lemma {:induction false} ForgetSeenKeeps(c: Contents, m: Mesh, now: nat)
    requires LockStep(c, m, now)
    ensures LockStep(c, ForgetSeen(m), now) && |ForgetSeen(m).seen| < m.options.maxSeen
    ensures OnlySeen(m, ForgetSeen(m)) && ForgetSeen(m).nextPrune == m.nextPrune
    ensures forall id :: id in ForgetSeen(m).seen ==> id in m.seen && ForgetSeen(m).seen[id] == m.seen[id]
    ensures forall id :: id in ForgetSeen(m).routes ==> id in m.routes && ForgetSeen(m).routes[id] == m.routes[id]
    decreases |m.seenOrder|
  {
    hide Sum, Queues, ValidOptions, RoutesAgree, RoutesOk, PendingOk, CacheOk, DeliveredOk, Scheduled, SeenBefore;
    ClampedBounds(m.options);
    if |m.seen| >= m.options.maxSeen {
      QueueNotEmpty(m.seenOrder, m.seen.Keys);
      assert |m.seen.Keys| == |m.seen|;
      ForgetOneKeeps(c, m, now);
      ForgetSeenKeeps(c, ForgetOne(m), now);
    }
  }

  lemma RememberKeeps(c: Contents, m: Mesh, id: EventId, now: nat)
    requires LockStep(c, m, now) && id !in m.seen
    ensures var r := Remember(m, id, now);
            && LockStep(c, r, now) && OnlySeen(m, r)
            && id in r.seen && r.seen[id] == Later(now, m.options.routeTtl) && id !in r.routes
            && (forall k :: k in r.routes ==> k in m.routes && r.routes[k] == m.routes[k])
  {
    hide LockStep, ForgetSeen, Tracked, Later;
    ForgetSeenKeeps(c, m, now);
    AnnouncedKeeps(c, ForgetSeen(m), id, now);
  }

  function Announced(f: Mesh, id: EventId, now: nat): Mesh {
    var expires := Later(now, f.options.routeTtl);
    f.(seenOrder := f.seenOrder + [id], seen := f.seen[id := expires], nextPrune := Tracked(f.nextPrune, expires))
  }

  lemma AnnouncedKeeps(c: Contents, f: Mesh, id: EventId, now: nat)
    requires LockStep(c, f, now) && id !in f.seen && |f.seen| < f.options.maxSeen
    ensures LockStep(c, Announced(f, id, now), now) && id !in f.routes
  {
    hide Sum, Queues, ValidOptions, RoutesAgree, RoutesOk, PendingOk, CacheOk, SeenOk, DeliveredOk, SeenBefore, Scheduled, Tracked, Later, Follows, SameProgress, Announced;
    var r := Announced(f, id, now);
    AnnouncedFields(f, id, now);
    AnnouncedFollows(f, id, now);
    SameRoutesProgress(f, r);
    SeenAdded(f, r, id);
    SeenBeforeAdded(f, r, id, now);
    RoutesUnseen(f, r, id);
    Unaffected(c, f, r, now);
    FollowsScheduled(f, r, Some(Later(now, f.options.routeTtl)));
  }

  lemma AnnouncedFields(f: Mesh, id: EventId, now: nat)
    ensures var r := Announced(f, id, now);
            && r.options == f.options && r.routes == f.routes && r.wants == f.wants && r.pending == f.pending
            && r.pendingCount == f.pendingCount && r.cached == f.cached && r.cacheOrder == f.cacheOrder
            && r.cachedBytes == f.cachedBytes && r.delivered == f.delivered && r.deliveredOrder == f.deliveredOrder
            && r.seenOrder == f.seenOrder + [id] && r.seen == f.seen[id := Later(now, f.options.routeTtl)]
            && r.seen.Keys == f.seen.Keys + {id}
  {
    hide Tracked, Later;
  }

  lemma AnnouncedFollows(f: Mesh, id: EventId, now: nat)
    ensures Follows(f, Announced(f, id, now), Some(Later(now, f.options.routeTtl)))
  {
    hide Tracked, Later;
  }

  lemma NotedFollows(f: Mesh, id: EventId, now: nat)
    ensures Follows(f, Noted(f, id, now), Some(Later(now, f.options.eventTtl)))
  {
    hide Tracked, Later;
  }

  lemma SameRoutesProgress(m: Mesh, r: Mesh)
    requires r.routes == m.routes
    ensures SameProgress(m, r)
  {}

  lemma SeenBeforeAdded(f: Mesh, r: Mesh, id: EventId, now: nat)
    requires SeenBefore(f, now) && r.options == f.options && r.seen == f.seen[id := Later(now, f.options.routeTtl)]
    ensures SeenBefore(r, now)
  {}

  lemma SeenAdded(f: Mesh, r: Mesh, id: EventId)
    requires SeenOk(f) && |f.seen| < f.options.maxSeen && id !in f.seen && r.options == f.options
    requires r.seen.Keys == f.seen.Keys + {id} && r.seenOrder == f.seenOrder + [id]
    ensures SeenOk(r)
  {
    hide Queues;
    QueueLast(f.seenOrder, f.seen.Keys, id);
    assert |r.seen.Keys| == |r.seen| && |f.seen.Keys| == |f.seen|;
  }

  lemma RoutesUnseen(f: Mesh, r: Mesh, id: EventId)
    requires RoutesAgree(f) && id !in f.seen && r.routes == f.routes && r.wants == f.wants
    requires forall k :: k in f.seen ==> k in r.seen && r.seen[k] == f.seen[k]
    ensures RoutesAgree(r) && id !in r.routes
  {}

  // ---- Deliveries

  ghost predicate OnlyDelivered(m: Mesh, r: Mesh) {
    r == m.(delivered := r.delivered, deliveredOrder := r.deliveredOrder, nextPrune := r.nextPrune)
  }

  lemma {:induction false} ForgetDeliveredKeeps(c: Contents, m: Mesh, now: nat)
    requires LockStep(c, m, now)
    ensures var r := ForgetDelivered(m);
            && LockStep(c, r, now) && |r.delivered| < m.options.maxSeen
            && OnlyDelivered(m, r) && r.nextPrune == m.nextPrune
            && (forall id :: id in r.delivered ==> id in m.delivered)
    decreases |m.deliveredOrder|
  {
    hide Sum, Queues, ValidOptions, RoutesAgree, RoutesOk, PendingOk, CacheOk, SeenOk, Scheduled, SeenBefore;
    ClampedBounds(m.options);
    if |m.delivered| >= m.options.maxSeen {
      QueueNotEmpty(m.deliveredOrder, m.delivered.Keys);
      assert |m.delivered.Keys| == |m.delivered|;
      var oldest := m.deliveredOrder[0];
      var r := m.(deliveredOrder := m.deliveredOrder[1..], delivered := m.delivered - {oldest});
      QueueFirst(m.deliveredOrder, m.delivered.Keys);
      Fewer(m.delivered, oldest);
      assert r.delivered.Keys == m.delivered.Keys - {oldest};
      Unaffected(c, m, r, now);
      FollowsScheduled(m, r, None);
      ForgetDeliveredKeeps(c, r, now);
    }
  }

  lemma NoteDeliveredKeeps(c: Contents, m: Mesh, id: EventId, now: nat)
    requires LockStep(c, m, now) && id !in m.delivered
    ensures LockStep(c, NoteDelivered(m, id, now), now) && OnlyDelivered(m, NoteDelivered(m, id, now))
  {
    hide LockStep, ForgetDelivered, Tracked, Later;
    ForgetDeliveredKeeps(c, m, now);
    NotedKeeps(c, ForgetDelivered(m), id, now);
  }

  function Noted(f: Mesh, id: EventId, now: nat): Mesh {
    var expires := Later(now, f.options.eventTtl);
    f.(deliveredOrder := f.deliveredOrder + [id], delivered := f.delivered[id := expires],
       nextPrune := Tracked(f.nextPrune, expires))
  }

  lemma NotedKeeps(c: Contents, f: Mesh, id: EventId, now: nat)
    requires LockStep(c, f, now) && id !in f.delivered && |f.delivered| < f.options.maxSeen
    ensures LockStep(c, Noted(f, id, now), now)
  {
    hide Sum, Queues, ValidOptions, RoutesAgree, RoutesOk, PendingOk, CacheOk, SeenOk, DeliveredOk, SeenBefore, Scheduled, Tracked, Later, Follows, SameProgress;
    var r := Noted(f, id, now);
    NotedFollows(f, id, now);
    assert SameProgress(f, r) by { SameRoutesProgress(f, r); }
    DeliveredAdded(f, r, id);
    Unaffected(c, f, r, now);
    FollowsScheduled(f, r, Some(Later(now, f.options.eventTtl)));
  }

  lemma DeliveredAdded(f: Mesh, r: Mesh, id: EventId)
    requires DeliveredOk(f) && |f.delivered| < f.options.maxSeen && id !in f.delivered && r.options == f.options
    requires r.delivered.Keys == f.delivered.Keys + {id} && r.deliveredOrder == f.deliveredOrder + [id]
    ensures DeliveredOk(r)
  {
    hide Queues;
    QueueLast(f.deliveredOrder, f.delivered.Keys, id);
    assert |r.delivered.Keys| == |r.delivered| && |f.delivered.Keys| == |f.delivered|;
  }

  // ---- Messages keep the invariant

  /** Changing one route that stays a route of the same announcement. */
  lemma RouteChanged(c: Contents, m: Mesh, id: EventId, route: Route, now: nat)
    requires LockStep(c, m, now) && id in m.routes && RouteOk(m.options, route)
    requires route.fulfilled == m.routes[id].fulfilled && route.expires == m.routes[id].expires
    ensures LockStep(c, m.(routes := m.routes[id := route]), now)
  {
    hide Sum, Queues, ValidOptions, RoutesAgree, RoutesOk, CacheOk, SeenOk, DeliveredOk, SeenBefore, Scheduled, RouteOk, PendingOk;
    var r := m.(routes := m.routes[id := route]);
    Unaffected(c, m, r, now);
    RouteReplaced(m, r, id, route);
    FollowsScheduled(m, r, None);
  }

  lemma RouteReplaced(m: Mesh, r: Mesh, id: EventId, route: Route)
    requires RoutesAgree(m) && RoutesOk(m) && id in m.routes && RouteOk(m.options, route)
    requires r.options == m.options && r.routes == m.routes[id := route]
    requires (r.seen == m.seen && r.wants == m.wants && route.expires == m.routes[id].expires)
             || (r.seen == m.seen[id := route.expires] && r.wants == m.wants[id := route.expires])
    ensures RoutesAgree(r) && RoutesOk(r)
  {
    hide RouteOk;
  }

  /** A further provider extends route, announcement and want together. */
  lemma RouteExtended(c: Contents, m: Mesh, id: EventId, route: Route, now: nat)
    requires LockStep(c, m, now) && id in m.routes && RouteOk(m.options, route)
    requires route.fulfilled == m.routes[id].fulfilled && route.expires == Later(now, m.options.routeTtl)
    ensures LockStep(c, m.(routes := m.routes[id := route], seen := m.seen[id := route.expires],
                           wants := m.wants[id := route.expires]), now)
  {
    hide Sum, Queues, ValidOptions, RoutesAgree, RoutesOk, CacheOk, SeenOk, DeliveredOk, SeenBefore, Scheduled, RouteOk, PendingOk;
    var r := m.(routes := m.routes[id := route], seen := m.seen[id := route.expires], wants := m.wants[id := route.expires]);
    Unaffected(c, m, r, now);
    RouteReplaced(m, r, id, route);
    SeenExtended(m, r, id, now);
    FollowsScheduled(m, r, None);
  }

  lemma SeenExtended(m: Mesh, r: Mesh, id: EventId, now: nat)
    requires RoutesAgree(m) && SeenOk(m) && SeenBefore(m, now) && id in m.routes
    requires r.options == m.options && r.seenOrder == m.seenOrder && r.seen == m.seen[id := Later(now, m.options.routeTtl)]
    ensures SeenOk(r) && SeenBefore(r, now) && id in m.seen && m.seen[id] == m.routes[id].expires <= r.seen[id]
    ensures forall k :: k in r.seen ==> k in m.seen && m.seen[k] <= r.seen[k]
  {
    hide Queues;
    assert r.seen.Keys == m.seen.Keys;
    assert |r.seen.Keys| == |r.seen| && |m.seen.Keys| == |m.seen|;
  }

  lemma RetryKeeps(c: Contents, m: Mesh, source: Peer, id: EventId, kind: nat, bytes: nat, hops: nat, now: nat)
    requires LockStep(c, m, now) && hops <= m.options.maxHops
    ensures LockStep(c, RetryInventory(m, source, id, kind, bytes, hops, now).mesh, now)
  {
    hide LockStep, Later;
    if id in m.routes && !m.routes[id].fulfilled && m.routes[id].kind == kind && m.routes[id].bytes == bytes {
      var route := m.routes[id];
      RouteIsOk(c, m, id, now);
      var higher := route.(hops := Max(route.hops, hops));
      if route.ProvidedBy(source) {
        RouteChanged(c, m, id, higher.(disrupted := route.disrupted - {source}), now);
      } else if |route.alternates| + 1 >= MAX_PROVIDERS {
        RouteChanged(c, m, id, higher, now);
      } else {
        RouteExtended(c, m, id, higher.(alternates := route.alternates + {source}, disrupted := route.disrupted - {source},
                                        expires := Later(now, m.options.routeTtl)), now);
      }
    }
  }

  lemma RouteIsOk(c: Contents, m: Mesh, id: EventId, now: nat)
    requires LockStep(c, m, now) && id in m.routes
    ensures RouteOk(m.options, m.routes[id]) && id in m.wants && m.wants[id] == m.routes[id].expires
    ensures id in m.seen && m.seen[id] == m.routes[id].expires
  {
    hide Sum, Queues, Clamped;
  }

  lemma RouteAdded(c: Contents, m: Mesh, id: EventId, route: Route, now: nat)
    requires LockStep(c, m, now) && id !in m.routes && RouteOk(m.options, route)
    requires id in m.seen && route.expires == m.seen[id]
    ensures LockStep(c, m.(routes := m.routes[id := route], wants := m.wants[id := route.expires]), now)
  {
    hide Sum, Queues, ValidOptions, CacheOk, SeenOk, DeliveredOk, SeenBefore, RouteOk, PendingOk;
    var r := m.(routes := m.routes[id := route], wants := m.wants[id := route.expires]);
    Unaffected(c, m, r, now);
  }

  lemma InventoryKeeps(c: Contents, m: Mesh, source: Peer, id: EventId, kind: nat, bytes: nat, hops: nat, now: nat)
    requires LockStep(c, m, now) && Current(m, now)
    ensures LockStep(c, ReceiveInventory(m, source, id, kind, bytes, hops, now).mesh, now)
  {
    hide LockStep, RetryInventory, Remember, Later, ValidId, AllowedKind;
    if 0 < hops <= m.options.maxHops {
      if !Fresh(m, id, now) {
        RetryKeeps(c, m, source, id, kind, bytes, hops, now);
      } else {
        RememberKeeps(c, m, id, now);
        var expires := Later(now, m.options.routeTtl);
        RouteAdded(c, Remember(m, id, now), id, Route(source, {}, {}, kind, bytes, hops, expires, false), now);
      }
    }
  }

  lemma PendingChanged(c: Contents, m: Mesh, id: EventId, pending: Pending, count: nat, now: nat)
    requires LockStep(c, m, now) && id in m.routes && !m.routes[id].fulfilled
    requires |pending.peers| <= m.options.maxPending
    requires count == m.pendingCount + |pending.peers| - (if id in m.pending then |m.pending[id].peers| else 0)
    ensures LockStep(c, m.(pending := m.pending[id := pending], pendingCount := count), now)
  {
    hide Sum, Queues, ValidOptions, RoutesAgree, RoutesOk, CacheOk, SeenOk, DeliveredOk, SeenBefore, Scheduled;
    var r := m.(pending := m.pending[id := pending], pendingCount := count);
    SumPut(m.pending, PendingSize, id, pending);
    Unaffected(c, m, r, now);
    FollowsScheduled(m, r, None);
  }

  /** While a route is known its want counts as sent, so a want is never sent on. */
  lemma WantKeeps(c: Contents, m: Mesh, source: Peer, id: EventId, now: nat)
    requires LockStep(c, m, now) && Current(m, now)
    ensures LockStep(c, ReceiveWant(m, source, id, now).mesh, now)
    ensures var s := ReceiveWant(m, source, id, now);
            s.actions.Some? ==> forall a :: a in s.actions.value ==> a.Send? && a.message.Frame?
  {
    hide LockStep, Later, ValidId;
    if ValidId(id) && id !in m.cached && id in m.routes && !m.routes[id].fulfilled {
      RouteIsOk(c, m, id, now);
      PendingSmall(c, m, id, now);
      var pending := if id in m.pending then m.pending[id] else Pending({}, Later(now, m.options.routeTtl));
      var joins := |pending.peers| < m.options.maxPending && source !in pending.peers;
      PendingChanged(c, m, id, if joins then pending.(peers := pending.peers + {source}) else pending,
                     if joins then m.pendingCount + 1 else m.pendingCount, now);
    }
  }

  lemma PendingSmall(c: Contents, m: Mesh, id: EventId, now: nat)
    requires LockStep(c, m, now)
    ensures id in m.pending ==> |m.pending[id].peers| <= m.options.maxPending
  {
    hide Sum, Queues, Clamped;
  }

  /** A route served, with nobody waiting for it any more. */
  lemma ServedKeeps(c: Contents, m: Mesh, id: EventId, now: nat)
    requires LockStep(c, m, now) && id in m.routes
    ensures var r := WithoutPending(m.(routes := m.routes[id := m.routes[id].(fulfilled := true, disrupted := {})]), id);
            LockStep(c, r, now)
  {
    hide Sum, Queues, ValidOptions, RoutesAgree, RoutesOk, CacheOk, SeenOk, DeliveredOk, SeenBefore, Scheduled, PendingOk, WithoutPending;
    var served := m.(routes := m.routes[id := m.routes[id].(fulfilled := true, disrupted := {})]);
    var r := WithoutPending(served, id);
    PendingServed(m, id);
    RouteIsOk(c, m, id, now);
    RouteReplaced(m, r, id, served.routes[id]);
    Unaffected(c, m, r, now);
    FollowsScheduled(m, r, None);
  }

  lemma PendingServed(m: Mesh, id: EventId)
    requires PendingOk(m) && id in m.routes
    ensures var served := m.(routes := m.routes[id := m.routes[id].(fulfilled := true, disrupted := {})]);
            var r := WithoutPending(served, id);
            PendingOk(r) && r == served.(pending := r.pending, pendingCount := r.pendingCount)
  {
    hide Sum;
    WithoutPendingKeeps(m.(routes := m.routes[id := m.routes[id].(fulfilled := true, disrupted := {})]), id);
  }

  lemma DismissKeeps(c: Contents, m: Mesh, peer: Peer, id: EventId, now: nat)
    requires LockStep(c, m, now)
    ensures LockStep(c, Dismiss(m, peer, id), now)
  {
    hide LockStep;
    if id in m.routes { ServedKeeps(c, m, id, now); }
  }

  lemma DisruptKeeps(c: Contents, m: Mesh, peer: Peer, id: EventId, now: nat)
    requires LockStep(c, m, now)
    ensures LockStep(c, Disrupt(m, peer, id), now)
  {
    hide LockStep;
    if Disrupts(m, peer, id) {
      RouteIsOk(c, m, id, now);
      RouteChanged(c, m, id, m.routes[id].(disrupted := m.routes[id].disrupted + {peer}), now);
    }
  }

  lemma FrameKeeps(c: Contents, m: Mesh, source: Peer, id: EventId, event: Event, waiting: seq<Peer>, selected: seq<Peer>, now: nat)
    requires LockStep(c, m, now)
    ensures LockStep(c, ReceiveFrame(c, m, source, id, event, waiting, selected, now).mesh, now)
  {
    hide LockStep, Store, NoteDelivered, WithoutPending;
    if Requested(c, m, source, id, event) && !m.routes[id].fulfilled {
      StoreKeeps(c, m, event, now);
      var stored, route := Store(c, m, event, now), m.routes[id];
      var done := stored.routes[id := route.(fulfilled := true, disrupted := {})];
      assert stored.routes == m.routes;
      if id !in stored.delivered {
        NoteDeliveredKeeps(c, stored, id, now);
        var noted := NoteDelivered(stored, id, now);
        ServedKeeps(c, noted, id, now);
        NotedElsewhere(stored, id, now, done);
      } else {
        ServedKeeps(c, stored, id, now);
      }
    }
  }

  /** Noting a delivery does not look at the routes. */
  lemma NotedElsewhere(m: Mesh, id: EventId, now: nat, routes: map<EventId, Route>)
    requires id !in m.delivered
    ensures NoteDelivered(m.(routes := routes), id, now) == NoteDelivered(m, id, now).(routes := routes)
  {
    ForgottenElsewhere(m, routes);
  }

  lemma {:induction false} ForgottenElsewhere(m: Mesh, routes: map<EventId, Route>)
    ensures ForgetDelivered(m.(routes := routes)) == ForgetDelivered(m).(routes := routes)
    decreases |m.deliveredOrder|
  {
    if |m.delivered| >= m.options.maxSeen && m.deliveredOrder != [] {
      ForgottenElsewhere(m.(deliveredOrder := m.deliveredOrder[1..], delivered := m.delivered - {m.deliveredOrder[0]}), routes);
    }
  }

  lemma PublishKeeps(c: Contents, m: Mesh, event: Event, selected: seq<Peer>, now: nat)
    requires LockStep(c, m, now) && Current(m, now)
    ensures LockStep(c, Publish(c, m, event, selected, now).mesh, now)
  {
    hide LockStep, Store, Remember;
    if event.signed && Admissible(c, m.options, event.id) {
      StoreKeeps(c, m, event, now);
      var stored := Store(c, m, event, now);
      if Fresh(stored, event.id, now) { RememberKeeps(c, stored, event.id, now); }
    }
  }

  lemma ReplayKeeps(c: Contents, m: Mesh, event: Event, peer: Peer, now: nat)
    requires LockStep(c, m, now)
    ensures LockStep(c, Replay(c, m, event, peer, now).mesh, now)
  {
    hide LockStep, Store;
    if event.signed && Admissible(c, m.options, event.id) { StoreKeeps(c, m, event, now); }
  }
}
