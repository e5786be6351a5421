/** What a node keeps and serves: whoever wants an event that was stored lately is sent it. */
module MeshCache {
  import opened Wrappers
  import opened Sets
  import opened Sums
  import opened MeshState
  import opened MeshInvariant
  import opened MeshSteps
  import opened MeshTraces

  // ---- What stores an event

  /** Of an allowed kind and not too long. */
  predicate Permitted(c: Contents, o: Options, id: EventId) {
    (o.allowedKinds.Some? ==> c.kind(id) in o.allowedKinds.value) && c.bytes(id) <= o.maxEventBytes
  }

  /** Entry k has stored the event: published, replayed, seeded, or delivered. */
  ghost predicate Puts(c: Contents, o: Options, trace: seq<Entry>, k: nat, id: EventId)
    requires k < |trace|
  {
    match trace[k].call
    case Originate(event, _) => event.signed && event.id == id && Permitted(c, o, id)
    case Replays(event, _) => event.signed && event.id == id && Permitted(c, o, id)
    case Seed(event) => event.id == id && Permitted(c, o, id)
    case _ => Delivered(trace[k]) == Some(id)
  }

  /** Entry k may have stored it: so too may any frame of an event delivered before. */
  ghost predicate MayPut(c: Contents, o: Options, trace: seq<Entry>, k: nat, id: EventId)
    requires k < |trace|
  {
    || Puts(c, o, trace, k, id)
    || (trace[k].call.Hear? && trace[k].call.message.Frame? && trace[k].call.message.id == id && WasDelivered(trace[..k], id))
  }

  ghost predicate WasDelivered(trace: seq<Entry>, id: EventId) {
    exists i :: 0 <= i < |trace| && Delivered(trace[i]) == Some(id)
  }

  /** Stored at j, when nothing stored of it before can still be kept. */
  ghost predicate FirstPut(c: Contents, o: Options, trace: seq<Entry>, j: nat, id: EventId) {
    && j < |trace| && Puts(c, o, trace, j, id)
    && forall i :: 0 <= i < j && MayPut(c, o, trace, i, id) ==> Later(trace[i].now, o.eventTtl) <= trace[j].now
  }

  /** The identifier an entry is about. */
  function About(e: Entry): EventId {
    match e.call
    case Originate(event, _) => event.id
    case Replays(event, _) => event.id
    case Seed(event) => event.id
    case Hear(_, message, _, _) => message.id
    case _ => ""
  }

  /** The other events stored after entry j. */
  ghost function PutSince(c: Contents, o: Options, trace: seq<Entry>, j: nat, id: EventId): set<EventId> {
    set k | j < k < |trace| && MayPut(c, o, trace, k, About(trace[k])) && About(trace[k]) != id :: About(trace[k])
  }

  function Plain(n: nat): nat { n }

  /** The bytes of a set of events. */
  ghost function ByteSum(c: Contents, ids: set<EventId>): nat { Sum(map x | x in ids :: c.bytes(x), Plain) }

  /** The others stored since leave room for it. */
  ghost predicate Room(c: Contents, o: Options, trace: seq<Entry>, j: nat, id: EventId) {
    var others := PutSince(c, o, trace, j, id);
    |others| < o.maxCachedEvents && ByteSum(c, others + {id}) <= o.maxCachedBytes
  }

  lemma MayPutLonger(c: Contents, o: Options, trace: seq<Entry>, e: Entry, k: nat, id: EventId)
    requires k < |trace|
    ensures MayPut(c, o, trace + [e], k, id) <==> MayPut(c, o, trace, k, id)
    ensures Puts(c, o, trace + [e], k, id) <==> Puts(c, o, trace, k, id)
  {
    hide Delivered, Permitted;
    assert (trace + [e])[k] == trace[k] && (trace + [e])[..k] == trace[..k];
  }

  lemma MayPutAbout(c: Contents, o: Options, trace: seq<Entry>, k: nat, id: EventId)
    requires k < |trace| && MayPut(c, o, trace, k, id)
    ensures About(trace[k]) == id
  {}

  lemma PutSinceGrows(c: Contents, o: Options, trace: seq<Entry>, e: Entry, j: nat, id: EventId)
    requires j < |trace|
    ensures PutSince(c, o, trace + [e], j, id)
         == PutSince(c, o, trace, j, id)
            + if MayPut(c, o, trace + [e], |trace|, About(e)) && About(e) != id then {About(e)} else {}
  {
    hide MayPut, About;
    var longer := trace + [e];
    forall k | 0 <= k < |trace| ensures MayPut(c, o, longer, k, About(longer[k])) == MayPut(c, o, trace, k, About(trace[k])) {
      assert longer[k] == trace[k];
      MayPutLonger(c, o, trace, e, k, About(trace[k]));
    }
    forall x | x in PutSince(c, o, trace, j, id) ensures x in PutSince(c, o, longer, j, id) {
      var k :| j < k < |trace| && MayPut(c, o, trace, k, About(trace[k])) && About(trace[k]) != id && About(trace[k]) == x;
      assert About(longer[k]) == x;
    }
    assert longer[|trace|] == e;
  }

  lemma SumSame<T>(m: map<EventId, T>, f: T -> nat, n: map<EventId, nat>)
    requires m.Keys == n.Keys && forall k :: k in m ==> f(m[k]) == n[k]
    ensures Sum(m, f) == Sum(n, Plain)
    decreases |m|
  {
    if m == map[] {
      assert n == map[];
      SumNone<EventId, T>(f);
      SumNone<EventId, nat>(Plain);
    } else {
      var k :| k in m;
      SumRemove(m, f, k);
      SumRemove(n, Plain, k);
      Fewer(m, k);
      SumSame(m - {k}, f, n - {k});
    }
  }

  lemma ByteSumMonotone(c: Contents, a: set<EventId>, b: set<EventId>)
    requires a <= b
    ensures ByteSum(c, a) <= ByteSum(c, b)
  {
    SumSub(map x | x in a :: c.bytes(x), map x | x in b :: c.bytes(x), Plain);
  }

  lemma ByteSumMore(c: Contents, a: set<EventId>, x: EventId)
    requires x !in a
    ensures ByteSum(c, a + {x}) == ByteSum(c, a) + c.bytes(x)
  {
    var m := map y | y in a :: c.bytes(y);
    SumPut(m, Plain, x, c.bytes(x));
    assert m[x := c.bytes(x)] == map y | y in a + {x} :: c.bytes(y);
  }

  // ---- What one call does to the cache

  ghost predicate SameCache(m: Mesh, r: Mesh) {
    && r.options == m.options && r.cached == m.cached && r.cacheOrder == m.cacheOrder && r.cachedBytes == m.cachedBytes
  }

  /** The event a call stores. */
  ghost function Storing(c: Contents, p: Mesh, call: Call): Option<Event> {
    match call
    case Originate(event, _) => if event.signed && Admissible(c, p.options, event.id) then Some(event) else None
    case Replays(event, _) => if event.signed && Admissible(c, p.options, event.id) then Some(event) else None
    case Seed(event) => if Admissible(c, p.options, event.id) then Some(event) else None
    case Hear(source, message, _, _) =>
      if message.Frame? && Requested(c, p, source, message.id, message.event) && !p.routes[message.id].fulfilled
      then Some(message.event) else None
    case _ => None
  }

  lemma ActedCache(c: Contents, p: Mesh, call: Call, now: nat)
    requires LockStep(c, p, now) && (Maintains(call) ==> Current(p, now))
    ensures var s := Acted(c, p, call, now).mesh;
            match Storing(c, p, call)
            case None => SameCache(p, s)
            case Some(event) => SameCache(Store(c, p, event, now), s)
  {
    hide LockStep, Current, Store, Remember, Requested, Admissible, ReceiveInventory, ReceiveFrame, Later;
    match call
    case Hear(source, message, waiting, selected) =>
      match message {
        case Inventory(id, kind, bytes, hops) => InventoryCache(c, p, source, id, kind, bytes, hops, now);
        case Want(id) =>
        case Frame(id, event) => FrameCache(c, p, source, id, event, waiting, selected, now);
      }
    case Originate(event, selected) =>
      if event.signed && Admissible(c, p.options, event.id) { PublishCache(c, p, event, selected, now); }
    case Replays(event, peer) =>
    case ReplaysCached(peer) =>
    case Seed(event) =>
    case Maintenance =>
    case Dismissal(peer, id) =>
    case Disruption(peer, id) =>
  }

  lemma InventoryCache(c: Contents, m: Mesh, source: Peer, id: EventId, kind: nat, bytes: nat, hops: nat, now: nat)
    requires LockStep(c, m, now) && Current(m, now)
    ensures SameCache(m, ReceiveInventory(m, source, id, kind, bytes, hops, now).mesh)
  {
    hide LockStep, Remember, Later, ValidId, AllowedKind;
    if Fresh(m, id, now) && id !in m.cached {
      FreshUnseen(c, m, id, now);
      RememberKeeps(c, m, id, now);
    }
  }

  lemma FreshUnseen(c: Contents, m: Mesh, id: EventId, now: nat)
    requires Current(m, now) && Fresh(m, id, now)
    ensures id !in m.seen
  {}

  lemma PublishCache(c: Contents, m: Mesh, event: Event, selected: seq<Peer>, now: nat)
    requires LockStep(c, m, now) && Current(m, now) && event.signed && Admissible(c, m.options, event.id)
    ensures SameCache(Store(c, m, event, now), Publish(c, m, event, selected, now).mesh)
  {
    hide LockStep, Store, Remember, Admissible;
    StoreKeeps(c, m, event, now);
    var stored := Store(c, m, event, now);
    if Fresh(stored, event.id, now) { RememberKeeps(c, stored, event.id, now); }
  }

  lemma FrameCache(c: Contents, m: Mesh, source: Peer, id: EventId, event: Event, waiting: seq<Peer>, selected: seq<Peer>, now: nat)
    ensures var r := ReceiveFrame(c, m, source, id, event, waiting, selected, now).mesh;
            if Requested(c, m, source, id, event) && !m.routes[id].fulfilled then SameCache(Store(c, m, event, now), r)
            else SameCache(m, r)
  {
    hide Store, NoteDelivered, ValidId, Admissible;
    if Requested(c, m, source, id, event) && !m.routes[id].fulfilled {
      StoreEffect(c, m, event, now);
      var stored := Store(c, m, event, now);
      var served := stored.(routes := stored.routes[id := m.routes[id].(fulfilled := true, disrupted := {})]);
      if id !in served.delivered { NoteElsewhere(served, id, now); }
    }
  }

  // ---- Making room takes the oldest, and only while there is none

  /** What was kept when the last event was dropped. */
  ghost predicate Crowded(c: Contents, m: Mesh, k: nat, bytes: nat, part: map<EventId, Cached>)
    requires 0 < k <= |m.cacheOrder|
  {
    && part.Keys == Elements(m.cacheOrder[k - 1..])
    && (forall x :: x in part ==> x in m.cached && part[x] == m.cached[x])
    && (|part| >= m.options.maxCachedEvents || Sum(part, CachedSize) + bytes > m.options.maxCachedBytes)
  }

  /** The oldest k are gone, the others are as they were. */
  ghost predicate Dropping(c: Contents, m: Mesh, r: Mesh, k: nat, bytes: nat, part: map<EventId, Cached>) {
    && k <= |m.cacheOrder| && r.cacheOrder == m.cacheOrder[k..]
    && (forall x :: x in m.cacheOrder[k..] ==> x in r.cached && x in m.cached && r.cached[x] == m.cached[x])
    && (k > 0 ==> Crowded(c, m, k, bytes, part))
  }

  lemma {:induction false} MakeRoomDrops(c: Contents, m: Mesh, bytes: nat) returns (k: nat, part: map<EventId, Cached>)
    requires CacheOk(c, m) && bytes <= m.options.maxCachedBytes && 0 < m.options.maxCachedEvents
    ensures Dropping(c, m, MakeRoom(m, bytes), k, bytes, part)
    decreases |m.cacheOrder|
  {
    hide Sum, CacheOk, Queues, Dropping;
    if |m.cached| >= m.options.maxCachedEvents || m.cachedBytes + bytes > m.options.maxCachedBytes {
      RoomNeedsEviction(c, m, bytes);
      EvictOneKeeps(c, m);
      k, part := MakeRoomDrops(c, EvictOne(m), bytes);
      part := OneMoreDropped(c, m, MakeRoom(m, bytes), k, bytes, part);
      k := k + 1;
    } else {
      k, part := 0, map[];
      NoneDropped(c, m, bytes);
    }
  }

  lemma NoneDropped(c: Contents, m: Mesh, bytes: nat)
    requires CacheOk(c, m)
    ensures Dropping(c, m, m, 0, bytes, map[])
  {
    hide Sum, CacheOk;
    CacheQueue(c, m);
    assert m.cacheOrder[0..] == m.cacheOrder;
    assert forall x :: x in m.cacheOrder ==> x in Elements(m.cacheOrder);
  }

  lemma OneMoreDropped(c: Contents, m: Mesh, r: Mesh, k: nat, bytes: nat, part: map<EventId, Cached>)
    returns (larger: map<EventId, Cached>)
    requires CacheOk(c, m) && m.cacheOrder != [] && m.cacheOrder[0] in m.cached && CacheOk(c, EvictOne(m))
    requires |m.cached| >= m.options.maxCachedEvents || m.cachedBytes + bytes > m.options.maxCachedBytes
    requires Dropping(c, EvictOne(m), r, k, bytes, part)
    ensures Dropping(c, m, r, k + 1, bytes, larger)
  {
    hide Sum, CacheOk, EvictOne, Crowded;
    CacheQueue(c, m);
    CacheQueue(c, EvictOne(m));
    Evicted(m);
    assert m.cacheOrder[1..][k..] == m.cacheOrder[k + 1..];
    if k == 0 {
      larger := m.cached;
      assert Crowded(c, m, 1, bytes, m.cached) by { AllCrowded(c, m, bytes); }
    } else {
      larger := part;
      assert Crowded(c, m, k + 1, bytes, part) by { StillCrowded(c, m, k, bytes, part); }
    }
  }

  lemma AllCrowded(c: Contents, m: Mesh, bytes: nat)
    requires CacheOk(c, m) && m.cacheOrder != []
    requires |m.cached| >= m.options.maxCachedEvents || m.cachedBytes + bytes > m.options.maxCachedBytes
    ensures Crowded(c, m, 1, bytes, m.cached)
  {
    hide Sum, CacheOk;
    CacheQueue(c, m);
    assert m.cacheOrder[0..] == m.cacheOrder;
  }

  lemma StillCrowded(c: Contents, m: Mesh, k: nat, bytes: nat, part: map<EventId, Cached>)
    requires m.cacheOrder != [] && m.cacheOrder[0] in m.cached && 0 < k < |m.cacheOrder| && EvictOne(m).cacheOrder == m.cacheOrder[1..]
    requires Crowded(c, EvictOne(m), k, bytes, part)
    ensures Crowded(c, m, k + 1, bytes, part)
  {
    hide Sum, EvictOne;
    Evicted(m);
    assert m.cacheOrder[1..][k - 1..] == m.cacheOrder[k..];
  }

  lemma Evicted(m: Mesh)
    requires m.cacheOrder != [] && m.cacheOrder[0] in m.cached
    ensures var r := EvictOne(m);
            && r.options == m.options && r.cacheOrder == m.cacheOrder[1..]
            && forall x :: x in r.cached ==> x in m.cached && r.cached[x] == m.cached[x]
  {}

  lemma CacheQueue(c: Contents, m: Mesh)
    requires CacheOk(c, m)
    ensures m.cached.Keys == Elements(m.cacheOrder) && m.cachedBytes == Sum(m.cached, CachedSize)
    ensures forall x :: x in m.cached ==> m.cached[x].bytes == c.bytes(x) && m.cached[x].event.id == x
    ensures forall i, j :: 0 <= i < j < |m.cacheOrder| ==> m.cacheOrder[i] != m.cacheOrder[j]
  {
    hide Sum;
    DistinctOrder(m.cacheOrder, m.cached.Keys);
  }

  // ---- What is kept was stored

  ghost predicate DeliveredKnown(m: Mesh, trace: seq<Entry>) {
    forall id :: id in m.delivered ==> WasDelivered(trace, id)
  }

  ghost predicate PutAt(c: Contents, o: Options, trace: seq<Entry>, id: EventId, expires: nat) {
    exists i :: 0 <= i < |trace| && MayPut(c, o, trace, i, id) && expires == Later(trace[i].now, o.eventTtl)
  }

  ghost predicate CachedPut(c: Contents, m: Mesh, trace: seq<Entry>) {
    forall id :: id in m.cached ==> PutAt(c, m.options, trace, id, m.cached[id].expires)
  }

  lemma WasDeliveredLonger(trace: seq<Entry>, e: Entry, id: EventId)
    ensures WasDelivered(trace + [e], id) <==> WasDelivered(trace, id) || Delivered(e) == Some(id)
  {
    hide Delivered;
    var longer := trace + [e];
    assert longer[|trace|] == e;
    if WasDelivered(trace, id) {
      var i :| 0 <= i < |trace| && Delivered(trace[i]) == Some(id);
      assert longer[i] == trace[i];
    }
  }

  lemma DeliveredStep(c: Contents, p: Mesh, call: Call, now: nat, trace: seq<Entry>)
    requires LockStep(c, p, now) && (Maintains(call) ==> Current(p, now)) && DeliveredKnown(p, trace)
    ensures var s := Acted(c, p, call, now);
            DeliveredKnown(s.mesh, trace + [Entry(call, now, Done(s))])
  {
    hide LockStep, Current, Acted, RouteStep, Queues, WasDelivered, Later;
    var s := Acted(c, p, call, now);
    var e := Entry(call, now, Done(s));
    ActedRoutes(c, p, call, now);
    ActedKeeps(c, p, call, now);
    DeliveredQueues(c, p, now);
    DeliveredQueues(c, s.mesh, now);
    QueueMembers(p.deliveredOrder, p.delivered.Keys);
    QueueMembers(s.mesh.deliveredOrder, s.mesh.delivered.Keys);
    forall id | id in s.mesh.delivered ensures WasDelivered(trace + [e], id) {
      WasDeliveredLonger(trace, e, id);
    }
  }

  lemma PutAtLonger(c: Contents, o: Options, trace: seq<Entry>, e: Entry, id: EventId, expires: nat)
    requires PutAt(c, o, trace, id, expires)
    ensures PutAt(c, o, trace + [e], id, expires)
  {
    hide MayPut, Later;
    var i :| 0 <= i < |trace| && MayPut(c, o, trace, i, id) && expires == Later(trace[i].now, o.eventTtl);
    MayPutLonger(c, o, trace, e, i, id);
    assert (trace + [e])[i] == trace[i];
  }

  /** What a call stores counts as stored by it. */
  lemma StoringMayPut(c: Contents, p: Mesh, call: Call, now: nat, trace: seq<Entry>)
    requires Storing(c, p, call).Some? && DeliveredKnown(p, trace)
    ensures var e := Entry(call, now, Done(Acted(c, p, call, now)));
            && MayPut(c, p.options, trace + [e], |trace|, Storing(c, p, call).value.id) && About(e) == Storing(c, p, call).value.id
  {
    hide Publish, Replay, Store, ReceiveFrame, WasDelivered;
    var s := Acted(c, p, call, now);
    var longer := trace + [Entry(call, now, Done(s))];
    assert longer[|trace|] == Entry(call, now, Done(s)) && longer[..|trace|] == trace;
    if call.Hear? {
      FrameDone(c, p, call.source, call.message.id, call.message.event, call.waiting, call.selected, now);
    }
  }

  /** What is stored for certain is stored. */
  lemma PutsStoring(c: Contents, p: Mesh, call: Call, now: nat, trace: seq<Entry>, id: EventId)
    requires var e := Entry(call, now, Done(Acted(c, p, call, now))); Puts(c, p.options, trace + [e], |trace|, id)
    ensures Storing(c, p, call).Some? && Storing(c, p, call).value.id == id
  {
    hide Publish, Replay, Store, ReceiveFrame;
    var s := Acted(c, p, call, now);
    var longer := trace + [Entry(call, now, Done(s))];
    assert longer[|trace|] == Entry(call, now, Done(s));
    if call.Hear? && call.message.Frame? {
      FrameDone(c, p, call.source, call.message.id, call.message.event, call.waiting, call.selected, now);
    }
  }

  lemma CachedStep(c: Contents, p: Mesh, call: Call, now: nat, trace: seq<Entry>)
    requires LockStep(c, p, now) && (Maintains(call) ==> Current(p, now)) && DeliveredKnown(p, trace) && CachedPut(c, p, trace)
    ensures var s := Acted(c, p, call, now);
            CachedPut(c, s.mesh, trace + [Entry(call, now, Done(s))])
  {
    hide LockStep, Current, Acted, PutAt, MayPut, Later, DeliveredKnown, Storing, Store;
    var s := Acted(c, p, call, now);
    var e := Entry(call, now, Done(s));
    ActedCache(c, p, call, now);
    var stored := Storing(c, p, call);
    if stored.Some? {
      StoringMayPut(c, p, call, now, trace);
      StoringPermitted(c, p, call);
      StoredFrom(c, p, stored.value, now);
      assert (trace + [e])[|trace|] == e;
    }
    forall id | id in s.mesh.cached ensures PutAt(c, p.options, trace + [e], id, s.mesh.cached[id].expires) {
      if stored.Some? && id == stored.value.id {
        assert PutAt(c, p.options, trace + [e], id, Later(now, p.options.eventTtl)) by { hide MayPut; JustPut(c, p.options, trace, e, id); }
      } else {
        PutAtLonger(c, p.options, trace, e, id, p.cached[id].expires);
      }
    }
  }

  lemma JustPut(c: Contents, o: Options, trace: seq<Entry>, e: Entry, id: EventId)
    requires MayPut(c, o, trace + [e], |trace|, id)
    ensures PutAt(c, o, trace + [e], id, Later(e.now, o.eventTtl))
  {
    hide MayPut, Later;
    assert (trace + [e])[|trace|] == e;
  }

  lemma StoringPermitted(c: Contents, p: Mesh, call: Call)
    ensures Storing(c, p, call).Some? ==> Admissible(c, p.options, Storing(c, p, call).value.id)
  {}

  /** Storing leaves of the rest what it leaves, as it was. */
  lemma StoredFrom(c: Contents, m: Mesh, event: Event, now: nat)
    requires LockStep(c, m, now) && Admissible(c, m.options, event.id)
    ensures var r := Store(c, m, event, now);
            && r.options == m.options && event.id in r.cached
            && r.cached[event.id] == Cached(event, Later(now, m.options.eventTtl), c.bytes(event.id))
            && forall x :: x in r.cached && x != event.id ==> x in m.cached && r.cached[x] == m.cached[x]
  {
    hide ValidOptions, RoutesAgree, RoutesOk, PendingOk, CacheOk, SeenOk, DeliveredOk, SeenBefore, Scheduled, MakeRoom, Later;
    ClampedBounds(m.options);
    if event.id !in m.cached { MakeRoomKeeps(c, m, c.bytes(event.id)); }
  }

  lemma ReadyCached(m: Mesh, call: Call, now: nat)
    ensures var p := Ready(m, call, now);
            && p.options == m.options
            && (forall id :: id in p.cached ==> id in m.cached && p.cached[id] == m.cached[id])
            && (forall id :: id in m.cached && m.cached[id].expires > now ==> id in p.cached)
            && (p.cacheOrder == m.cacheOrder || p.cacheOrder == Kept(m.cacheOrder, p.cached.Keys))
            && (forall id :: id in p.delivered ==> id in m.delivered)
  {
    hide Kept, Sum, Least, Expiries, LiveRoutes, LivePending, LiveWants;
  }

  lemma {:induction false} RunCached(c: Contents, o: Options, calls: seq<Timed>)
    requires Timely(calls)
    ensures var run := RunOf(c, o, calls);
            DeliveredKnown(run.mesh, run.trace) && CachedPut(c, run.mesh, run.trace)
    ensures calls != [] ==>
              DeliveredKnown(Before(c, o, calls), RunOf(c, o, calls[..|calls| - 1]).trace)
              && CachedPut(c, Before(c, o, calls), RunOf(c, o, calls[..|calls| - 1]).trace)
  {
    hide LockStep, Ready, Acted, Current, WasDelivered, PutAt, Clamped;
    if calls != [] {
      var n := |calls| - 1;
      RunCached(c, o, calls[..n]);
      BeforeReady(c, o, calls);
      ReadyCached(RunOf(c, o, calls[..n]).mesh, calls[n].call, calls[n].now);
      DeliveredStep(c, Before(c, o, calls), calls[n].call, calls[n].now, RunOf(c, o, calls[..n]).trace);
      CachedStep(c, Before(c, o, calls), calls[n].call, calls[n].now, RunOf(c, o, calls[..n]).trace);
    }
  }

  // ---- What is stored stays

  /** Entry j stored the event first: its lifetime is over, others crowded it out, or it is kept. */
  ghost predicate StillCached(c: Contents, m: Mesh, trace: seq<Entry>, j: nat, id: EventId, now: nat)
    requires j < |trace|
  {
    Later(trace[j].now, m.options.eventTtl) > now && Room(c, m.options, trace, j, id) ==>
      && id in m.cached && m.cached[id].expires >= Later(trace[j].now, m.options.eventTtl)
      && forall x :: After(m.cacheOrder, id, x) ==> x in PutSince(c, m.options, trace, j, id)
  }

  lemma ReadyStill(c: Contents, m: Mesh, call: Call, trace: seq<Entry>, j: nat, id: EventId, clock: nat, now: nat)
    requires j < |trace| && clock <= now && StillCached(c, m, trace, j, id, clock)
    ensures StillCached(c, Ready(m, call, now), trace, j, id, now)
  {
    hide Ready, PutSince, Room, Later, After;
    ReadyCached(m, call, now);
    var p := Ready(m, call, now);
    forall x | After(p.cacheOrder, id, x) ensures After(m.cacheOrder, id, x) {
      if p.cacheOrder != m.cacheOrder { KeptAfter(m.cacheOrder, p.cached.Keys, id, x); }
    }
  }

  lemma RoomBefore(c: Contents, o: Options, trace: seq<Entry>, e: Entry, j: nat, id: EventId)
    requires j < |trace| && Room(c, o, trace + [e], j, id)
    ensures Room(c, o, trace, j, id)
  {
    hide PutSince, ByteSum;
    PutSinceGrows(c, o, trace, e, j, id);
    var less, more := PutSince(c, o, trace, j, id), PutSince(c, o, trace + [e], j, id);
    SubsetSize(less, more);
    ByteSumMonotone(c, less + {id}, more + {id});
  }

  /** Whoever was dropped for x, and whatever was after it, is crowded out by x and the others. */
  lemma DroppedCrowded(c: Contents, m: Mesh, k: nat, part: map<EventId, Cached>, id: EventId, x: EventId, others: set<EventId>)
    requires CacheOk(c, m) && 0 < k <= |m.cacheOrder| && Crowded(c, m, k, c.bytes(x), part)
    requires id in m.cacheOrder[..k] && x !in m.cached && x != id && x in others
    requires forall y :: After(m.cacheOrder, id, y) ==> y in others
    requires id !in others
    ensures |others| >= m.options.maxCachedEvents || ByteSum(c, others + {id}) > m.options.maxCachedBytes
  {
    hide Sum, CacheOk, ByteSum, After;
    CacheQueue(c, m);
    LaterOnes(m.cacheOrder, k, id);
    var kept := part.Keys;
    assert |part| == |kept| && x !in kept;
    SwappedSize(kept, id, x, others);
    PartBytes(c, part);
    ByteSumMore(c, kept, x);
    ByteSumMonotone(c, kept + {x}, others + {id});
  }

  lemma LaterOnes(order: seq<EventId>, k: nat, id: EventId)
    requires 0 < k <= |order| && id in order[..k]
    ensures forall y :: y in Elements(order[k - 1..]) && y != id ==> After(order, id, y)
  {
    hide After;
    var front, back := order[..k], order[k - 1..];
    var a :| 0 <= a < |front| && front[a] == id;
    assert order[a] == id;
    forall y | y in Elements(back) && y != id ensures After(order, id, y) {
      var b :| 0 <= b < |back| && back[b] == y;
      IsAfter(order, a, k - 1 + b, id, y);
    }
  }

  lemma IsAfter(order: seq<EventId>, a: nat, b: nat, id: EventId, y: EventId)
    requires a <= b < |order| && order[a] == id && order[b] == y && y != id
    ensures After(order, id, y)
  {
    assert a < b;
  }

  lemma SwappedSize(kept: set<EventId>, id: EventId, x: EventId, others: set<EventId>)
    requires x !in kept && x in others && id !in others && forall y :: y in kept && y != id ==> y in others
    ensures |kept| <= |others| && kept + {x} <= others + {id}
  {
    SubsetSize(kept - {id} + {x}, others);
    assert |kept - {id} + {x}| == |kept - {id}| + 1;
    if id in kept { assert |kept - {id}| == |kept| - 1; } else { assert kept - {id} == kept; }
  }

  lemma PartBytes(c: Contents, part: map<EventId, Cached>)
    requires forall y :: y in part ==> part[y].bytes == c.bytes(y)
    ensures Sum(part, CachedSize) == ByteSum(c, part.Keys)
  {
    SumSame(part, CachedSize, map y | y in part.Keys :: c.bytes(y));
  }

  lemma StoredStill(c: Contents, p: Mesh, event: Event, now: nat, id: EventId, others: set<EventId>, expires: nat)
    requires LockStep(c, p, now) && Admissible(c, p.options, event.id)
    requires id in p.cached && p.cached[id].expires >= expires && id !in others && Later(now, p.options.eventTtl) >= expires
    requires forall x :: After(p.cacheOrder, id, x) ==> x in others
    requires event.id != id ==> event.id in others
    requires |others| < p.options.maxCachedEvents && ByteSum(c, others + {id}) <= p.options.maxCachedBytes
    ensures var r := Store(c, p, event, now);
            && id in r.cached && r.cached[id].expires >= expires
            && forall x :: After(r.cacheOrder, id, x) ==> x in others
  {
    hide ValidOptions, RoutesAgree, RoutesOk, PendingOk, CacheOk, SeenOk, DeliveredOk, SeenBefore, Scheduled, MakeRoom, Later, After,
         Crowded, ByteSum;
    if event.id !in p.cached {
      ClampedBounds(p.options);
      CacheQueue(c, p);
      var k, part := MakeRoomDrops(c, p, c.bytes(event.id));
      if id in p.cacheOrder[..k] {
        DroppedCrowded(c, p, k, part, id, event.id, others);
        assert false;
      }
      assert id in p.cacheOrder && p.cacheOrder == p.cacheOrder[..k] + p.cacheOrder[k..];
      assert id in p.cacheOrder[k..];
      KeptFollowers(p.cacheOrder, k, id, event.id);
    }
  }

  lemma StepStill(c: Contents, p: Mesh, call: Call, trace: seq<Entry>, j: nat, id: EventId, now: nat)
    requires LockStep(c, p, now) && (Maintains(call) ==> Current(p, now)) && DeliveredKnown(p, trace)
    requires j < |trace| && trace[j].now <= now && StillCached(c, p, trace, j, id, now)
    ensures var s := Acted(c, p, call, now);
            StillCached(c, s.mesh, trace + [Entry(call, now, Done(s))], j, id, now)
  {
    hide LockStep, Current, Acted, Room, Later, DeliveredKnown, Storing, Store, After, PutSince, MayPut, About;
    var s := Acted(c, p, call, now);
    var e := Entry(call, now, Done(s));
    var longer := trace + [e];
    ActedCache(c, p, call, now);
    SameOptions(c, p, call, now);
    assert longer[j] == trace[j];
    if Later(trace[j].now, p.options.eventTtl) > now && Room(c, p.options, longer, j, id) {
      RoomBefore(c, p.options, trace, e, j, id);
      PutSinceGrows(c, p.options, trace, e, j, id);
      LaterMonotone(trace[j].now, now, p.options.eventTtl);
      var others := PutSince(c, p.options, longer, j, id);
      NotOther(c, p.options, longer, j, id);
      var stored := Storing(c, p, call);
      if stored.Some? {
        StoringMayPut(c, p, call, now, trace);
        StoringPermitted(c, p, call);
        assert Room(c, p.options, longer, j, id) ==>
          |others| < p.options.maxCachedEvents && ByteSum(c, others + {id}) <= p.options.maxCachedBytes by { RoomMeans(c, p.options, longer, j, id); }
        StoredStill(c, p, stored.value, now, id, others, Later(trace[j].now, p.options.eventTtl));
      }
    }
  }

  lemma RoomMeans(c: Contents, o: Options, trace: seq<Entry>, j: nat, id: EventId)
    ensures Room(c, o, trace, j, id) <==>
            var others := PutSince(c, o, trace, j, id);
            |others| < o.maxCachedEvents && ByteSum(c, others + {id}) <= o.maxCachedBytes
  {}

  lemma NotOther(c: Contents, o: Options, trace: seq<Entry>, j: nat, id: EventId)
    ensures id !in PutSince(c, o, trace, j, id)
  {
    hide MayPut, About;
  }

  lemma SameOptions(c: Contents, p: Mesh, call: Call, now: nat)
    requires LockStep(c, p, now) && (Maintains(call) ==> Current(p, now))
    ensures Acted(c, p, call, now).mesh.options == p.options
  {
    hide LockStep, Current, Acted, RouteStep, SameDeliveries, Delivering;
    ActedRoutes(c, p, call, now);
  }

  lemma LapsedBefore(c: Contents, o: Options, trace: seq<Entry>, e: Entry, id: EventId, expires: nat)
    requires PutAt(c, o, trace, id, expires) && FirstPut(c, o, trace + [e], |trace|, id)
    ensures expires <= e.now
  {
    hide MayPut, Puts, Later;
    var i :| 0 <= i < |trace| && MayPut(c, o, trace, i, id) && expires == Later(trace[i].now, o.eventTtl);
    MayPutLonger(c, o, trace, e, i, id);
    assert (trace + [e])[i] == trace[i] && (trace + [e])[|trace|] == e;
  }

  /** At the moment it is first stored nothing comes after it. */
  lemma NewStill(c: Contents, p: Mesh, call: Call, trace: seq<Entry>, id: EventId, now: nat)
    requires LockStep(c, p, now) && (Maintains(call) ==> Current(p, now)) && DeliveredKnown(p, trace) && CachedPut(c, p, trace)
    requires var e := Entry(call, now, Done(Acted(c, p, call, now))); FirstPut(c, p.options, trace + [e], |trace|, id)
    ensures var e := Entry(call, now, Done(Acted(c, p, call, now)));
            StillCached(c, Acted(c, p, call, now).mesh, trace + [e], |trace|, id, now)
  {
    hide LockStep, Acted, Later, DeliveredKnown, Storing, Store, After, PutSince, MayPut, Puts;
    var s := Acted(c, p, call, now);
    var e := Entry(call, now, Done(s));
    PutsStoring(c, p, call, now, trace, id);
    PutsMaintains(c, p.options, trace + [e], |trace|, id);
    assert (trace + [e])[|trace|] == e;
    if id in p.cached { LapsedBefore(c, p.options, trace, e, id, p.cached[id].expires); }
    assert id !in p.cached;
    ActedCache(c, p, call, now);
    SameOptions(c, p, call, now);
    StoringPermitted(c, p, call);
    StoredLast(c, p, Storing(c, p, call).value, now);
  }

  lemma PutsMaintains(c: Contents, o: Options, trace: seq<Entry>, k: nat, id: EventId)
    requires k < |trace| && Puts(c, o, trace, k, id)
    ensures Maintains(trace[k].call)
  {}

  lemma StoredLast(c: Contents, p: Mesh, event: Event, now: nat)
    requires LockStep(c, p, now) && Admissible(c, p.options, event.id) && event.id !in p.cached
    ensures var r := Store(c, p, event, now);
            && event.id in r.cached && r.cached[event.id].expires == Later(now, p.options.eventTtl)
            && forall x :: !After(r.cacheOrder, event.id, x)
  {
    hide ValidOptions, RoutesAgree, RoutesOk, PendingOk, CacheOk, SeenOk, DeliveredOk, SeenBefore, Scheduled, MakeRoom, Later;
    ClampedBounds(p.options);
    CacheQueue(c, p);
    var k, part := MakeRoomDrops(c, p, c.bytes(event.id));
    var r := Store(c, p, event, now);
    assert forall i :: 0 <= i < |r.cacheOrder| - 1 ==> r.cacheOrder[i] == p.cacheOrder[k + i] && p.cacheOrder[k + i] in p.cacheOrder;
  }

  /** The run up to each call. */
  lemma {:induction false} TraceAt(c: Contents, o: Options, calls: seq<Timed>, n: nat)
    requires n < |calls|
    ensures |RunOf(c, o, calls).trace| == |calls|
    ensures RunOf(c, o, calls[..n]).trace == RunOf(c, o, calls).trace[..n]
    ensures var p := Before(c, o, calls[..n + 1]);
            RunOf(c, o, calls).trace[n] == Entry(calls[n].call, calls[n].now, Done(Acted(c, p, calls[n].call, calls[n].now)))
    decreases |calls|
  {
    hide Acted, Ready;
    var last := |calls| - 1;
    TraceLength(c, o, calls);
    TraceLength(c, o, calls[..last]);
    if n < last {
      TraceAt(c, o, calls[..last], n);
      assert calls[..last][..n] == calls[..n] && calls[..last][..n + 1] == calls[..n + 1];
    } else {
      assert calls[..n + 1] == calls;
    }
  }

  lemma {:induction false} TraceLength(c: Contents, o: Options, calls: seq<Timed>)
    ensures |RunOf(c, o, calls).trace| == |calls|
  {
    hide Acted, Ready;
    if calls != [] { TraceLength(c, o, calls[..|calls| - 1]); }
  }

  lemma {:induction false} RunStill(c: Contents, o: Options, calls: seq<Timed>, j: nat, id: EventId)
    requires Timely(calls) && j < |calls| && FirstPut(c, Clamped(o), RunOf(c, o, calls).trace, j, id)
    ensures StillCached(c, RunOf(c, o, calls).mesh, RunOf(c, o, calls).trace, j, id, Clock(calls))
    decreases |calls|
  {
    hide LockStep, Ready, Acted, Current, StillCached, FirstPut, Clamped, DeliveredKnown, CachedPut;
    var n := |calls| - 1;
    TraceAt(c, o, calls, n);
    if j < n {
      FirstPutEarlier(c, Clamped(o), RunOf(c, o, calls[..n]).trace, RunOf(c, o, calls).trace[n], j, id);
      RunStill(c, o, calls[..n], j, id);
      LaterStill(c, o, calls, j, id);
    } else {
      LastStill(c, o, calls, id);
    }
  }

  lemma LaterStill(c: Contents, o: Options, calls: seq<Timed>, j: nat, id: EventId)
    requires Timely(calls) && j < |calls| - 1 && |RunOf(c, o, calls[..|calls| - 1]).trace| == |calls| - 1
    requires var n := |calls| - 1;
             StillCached(c, RunOf(c, o, calls[..n]).mesh, RunOf(c, o, calls[..n]).trace, j, id, Clock(calls[..n]))
    ensures StillCached(c, RunOf(c, o, calls).mesh, RunOf(c, o, calls).trace, j, id, Clock(calls))
  {
    hide LockStep, Ready, Acted, Current, StillCached, Clamped, DeliveredKnown, CachedPut;
    var n := |calls| - 1;
    RunCached(c, o, calls);
    BeforeReady(c, o, calls);
    RunLocked(c, o, calls[..n]);
    var before := RunOf(c, o, calls[..n]);
    ReadyStill(c, before.mesh, calls[n].call, before.trace, j, id, Clock(calls[..n]), calls[n].now);
    StepStill(c, Before(c, o, calls), calls[n].call, before.trace, j, id, calls[n].now);
  }

  lemma LastStill(c: Contents, o: Options, calls: seq<Timed>, id: EventId)
    requires Timely(calls) && calls != [] && FirstPut(c, Clamped(o), RunOf(c, o, calls).trace, |calls| - 1, id)
    ensures |RunOf(c, o, calls).trace| == |calls|
    ensures StillCached(c, RunOf(c, o, calls).mesh, RunOf(c, o, calls).trace, |calls| - 1, id, Clock(calls))
  {
    hide LockStep, Ready, Acted, Current, StillCached, Clamped, DeliveredKnown, CachedPut, FirstPut;
    var n := |calls| - 1;
    RunCached(c, o, calls);
    BeforeReady(c, o, calls);
    TraceLength(c, o, calls[..n]);
    NewStill(c, Before(c, o, calls), calls[n].call, RunOf(c, o, calls[..n]).trace, id, calls[n].now);
  }

  lemma FirstPutEarlier(c: Contents, o: Options, trace: seq<Entry>, e: Entry, j: nat, id: EventId)
    requires j < |trace| && FirstPut(c, o, trace + [e], j, id)
    ensures FirstPut(c, o, trace, j, id)
  {
    hide MayPut, Puts, Later;
    assert (trace + [e])[j] == trace[j];
    MayPutLonger(c, o, trace, e, j, id);
    forall i | 0 <= i < j && MayPut(c, o, trace, i, id) ensures Later(trace[i].now, o.eventTtl) <= trace[j].now {
      MayPutLonger(c, o, trace, e, i, id);
      assert (trace + [e])[i] == trace[i];
    }
  }

  // ---- Only genuine events are kept

  /** Seeded events are verified by the caller. */
  predicate SeedsSigned(calls: seq<Timed>) {
    forall i :: 0 <= i < |calls| && calls[i].call.Seed? ==> calls[i].call.event.signed
  }

  ghost predicate AllSigned(m: Mesh) {
    forall id :: id in m.cached ==> m.cached[id].event == Event(id, true)
  }

  lemma {:induction false} RunSigned(c: Contents, o: Options, calls: seq<Timed>)
    requires Timely(calls) && SeedsSigned(calls)
    ensures AllSigned(RunOf(c, o, calls).mesh)
    ensures calls != [] ==> AllSigned(Before(c, o, calls))
  {
    hide LockStep, Ready, Acted, Current, Clamped, Storing, Store, Later;
    if calls != [] {
      var n := |calls| - 1;
      RunSigned(c, o, calls[..n]);
      BeforeReady(c, o, calls);
      ReadyCached(RunOf(c, o, calls[..n]).mesh, calls[n].call, calls[n].now);
      var p := Before(c, o, calls);
      ActedCache(c, p, calls[n].call, calls[n].now);
      StoringSigned(c, p, calls[n].call);
      StoringPermitted(c, p, calls[n].call);
      if Storing(c, p, calls[n].call).Some? { StoredFrom(c, p, Storing(c, p, calls[n].call).value, calls[n].now); }
    }
  }

  lemma StoringSigned(c: Contents, p: Mesh, call: Call)
    ensures Storing(c, p, call).Some? && (call.Seed? ==> call.event.signed) ==> Storing(c, p, call).value.signed
  {}

  // ---- Served

  predicate Hex64(id: EventId) {
    |id| == 64 && forall i :: 0 <= i < 64 ==> id[i] in "0123456789abcdef"
  }

  lemma HexValid(id: EventId)
    ensures Hex64(id) <==> ValidId(id)
  {
    forall ch: char ensures ch in "0123456789abcdef" <==> '0' <= ch <= '9' || 'a' <= ch <= 'f' { HexDigit(ch); }
  }

  lemma HexDigit(ch: char)
    ensures ch in "0123456789abcdef" <==> '0' <= ch <= '9' || 'a' <= ch <= 'f'
  {
    var digits := "0123456789abcdef";
    if '0' <= ch <= '9' { assert digits[ch as int - '0' as int] == ch; }
    if 'a' <= ch <= 'f' { assert digits[ch as int - 'a' as int + 10] == ch; }
  }

  /** What was first stored at j is in the cache when call n is handled. */
  lemma CachedAt(c: Contents, o: Options, calls: seq<Timed>, j: nat, n: nat, id: EventId)
    requires Timely(calls) && j < n < |calls| && Maintains(calls[n].call) && |RunOf(c, o, calls).trace| == |calls|
    requires FirstPut(c, Clamped(o), RunOf(c, o, calls).trace, j, id)
    requires calls[n].now < Later(calls[j].now, Clamped(o).eventTtl)
    requires Room(c, Clamped(o), RunOf(c, o, calls).trace[..n], j, id)
    ensures id in Before(c, o, calls[..n + 1]).cached && Before(c, o, calls[..n + 1]).options == Clamped(o)
    ensures LockStep(c, Before(c, o, calls[..n + 1]), calls[n].now)
  {
    hide LockStep, Ready, Acted, Current, Clamped, FirstPut, Room, PutSince, After, Later, RunOf;
    var upTo := calls[..n + 1];
    assert upTo[..n] == calls[..n] && upTo[n] == calls[n];
    TraceAt(c, o, calls, n);
    TraceAt(c, o, calls, j);
    BeforeReady(c, o, upTo);
    var trace := RunOf(c, o, calls).trace;
    FirstPutPrefix(c, Clamped(o), trace, n, j, id);
    RunStill(c, o, calls[..n], j, id);
    RunLocked(c, o, calls[..n]);
    ReadyStill(c, RunOf(c, o, calls[..n]).mesh, calls[n].call, trace[..n], j, id, Clock(calls[..n]), calls[n].now);
  }

  lemma {:induction false} FirstPutPrefix(c: Contents, o: Options, trace: seq<Entry>, n: nat, j: nat, id: EventId)
    requires j < n <= |trace| && FirstPut(c, o, trace, j, id)
    ensures FirstPut(c, o, trace[..n], j, id)
    decreases |trace|
  {
    hide FirstPut;
    if n < |trace| {
      var last := |trace| - 1;
      assert trace == trace[..last] + [trace[last]];
      FirstPutEarlier(c, o, trace[..last], trace[last], j, id);
      FirstPutPrefix(c, o, trace[..last], n, j, id);
      assert trace[..last][..n] == trace[..n];
    } else {
      assert trace[..n] == trace;
    }
  }

  /** Whoever wants an event within its lifetime from a node that published, replayed, was seeded with or delivered it
      is sent it, unless as many events or bytes as the node may keep were stored in between. */
  lemma StoredIsServed(c: Contents, o: Options, calls: seq<Timed>, j: nat, n: nat, id: EventId)
    requires Timely(calls) && SeedsSigned(calls) && j < n < |calls| && Hex64(id)
    requires calls[n].call.Hear? && calls[n].call.message == Want(id)
    requires FirstPut(c, Clamped(o), RunOf(c, o, calls).trace, j, id)
    requires calls[n].now < Later(calls[j].now, Clamped(o).eventTtl)
    requires |RunOf(c, o, calls).trace| == |calls| && Room(c, Clamped(o), RunOf(c, o, calls).trace[..n], j, id)
    ensures RunOf(c, o, calls).trace[n].actions == [Send(calls[n].call.source, Frame(id, Event(id, true)))]
  {
    hide LockStep, Ready, Current, Clamped, FirstPut, Room, Later, Before, RunOf, ValidId, Hex64;
    CachedAt(c, o, calls, j, n, id);
    HexValid(id);
    assert SeedsSigned(calls[..n + 1]);
    RunSigned(c, o, calls[..n + 1]);
    TraceAt(c, o, calls, n);
  }

  /** A peer to which the cache is replayed is told of it too. */
  lemma StoredIsReplayed(c: Contents, o: Options, calls: seq<Timed>, j: nat, n: nat, id: EventId)
    requires Timely(calls) && j < n < |calls| && calls[n].call.ReplaysCached?
    requires FirstPut(c, Clamped(o), RunOf(c, o, calls).trace, j, id)
    requires calls[n].now < Later(calls[j].now, Clamped(o).eventTtl)
    requires |RunOf(c, o, calls).trace| == |calls| && Room(c, Clamped(o), RunOf(c, o, calls).trace[..n], j, id)
    ensures Send(calls[n].call.peer, Inventory(id, c.kind(id), c.bytes(id), Clamped(o).maxHops)) in RunOf(c, o, calls).trace[n].actions
  {
    hide LockStep, Ready, Current, Clamped, FirstPut, Room, Later, Before, RunOf;
    CachedAt(c, o, calls, j, n, id);
    TraceAt(c, o, calls, n);
    var p := Before(c, o, calls[..n + 1]);
    assert id in p.cacheOrder by { CacheListed(c, p, calls[n].now); }
    var i :| 0 <= i < |p.cacheOrder| && p.cacheOrder[i] == id;
    assert ReplayCached(c, p, calls[n].call.peer)[i] == Send(calls[n].call.peer, Inventory(id, c.kind(id), c.bytes(id), Clamped(o).maxHops));
  }

  lemma CacheListed(c: Contents, m: Mesh, now: nat)
    requires LockStep(c, m, now)
    ensures forall id :: id in m.cached ==> id in m.cacheOrder
  {
    hide ValidOptions, RoutesAgree, RoutesOk, PendingOk, SeenOk, DeliveredOk, SeenBefore, Scheduled, Sum;
  }
}
