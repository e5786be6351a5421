/** Peers that wait for an event. Their wait expires on its own, but maintenance is scheduled without regard to it:
    when a wait outlives its end, and exactly which do. */
module MeshPending {
  import opened Wrappers
  import opened Sums
  import opened MeshState
  import opened MeshInvariant
  import opened MeshSteps
  import opened MeshTraces

  // ---- Only a further provider lets a route outlive the wait for it

  ghost predicate LateJoined(m: Mesh) {
    forall id :: id in m.pending && id in m.routes && m.pending[id].expires < m.routes[id].expires ==>
                   m.routes[id].alternates != {}
  }

  /** Whoever still waits in r did so in m, for as long, on a route that lives as long. */
  ghost predicate StillWaiting(m: Mesh, r: Mesh) {
    forall id :: id in r.pending && id in r.routes ==>
                   && id in m.pending && id in m.routes
                   && r.pending[id].expires == m.pending[id].expires && r.routes[id].expires == m.routes[id].expires
                   && m.routes[id].alternates <= r.routes[id].alternates
  }

  lemma StillJoined(m: Mesh, r: Mesh)
    requires LateJoined(m) && StillWaiting(m, r)
    ensures LateJoined(r)
  {}

  lemma PruneJoined(m: Mesh, now: nat)
    requires LateJoined(m)
    ensures LateJoined(Prune(m, now))
  {
    hide Kept, Least, Expiries, LiveCache, LiveTimes, LiveWants;
    StillJoined(m, Prune(m, now));
  }

  lemma {:induction false} ForgetSeenWaiting(m: Mesh)
    ensures var r := ForgetSeen(m);
            && (forall id :: id in r.pending ==> id in m.pending && r.pending[id] == m.pending[id])
            && (forall id :: id in r.routes ==> id in m.routes && r.routes[id] == m.routes[id])
    decreases |m.seenOrder|
  {
    if !(|m.seen| < m.options.maxSeen || m.seenOrder == []) {
      var oldest := m.seenOrder[0];
      var less := WithoutPending(m, oldest);
      ForgetSeenWaiting(less.(seenOrder := m.seenOrder[1..], seen := m.seen - {oldest},
                              routes := m.routes - {oldest}, wants := m.wants - {oldest}));
    }
  }

  lemma RememberWaiting(m: Mesh, id: EventId, now: nat)
    requires Fresh(m, id, now)
    ensures StillWaiting(m, Remember(m, id, now)) && Remember(m, id, now).pending.Keys <= m.pending.Keys
  {
    hide ForgetSeen, Tracked;
    ForgetSeenWaiting(m);
  }

  lemma RetryJoined(m: Mesh, source: Peer, id: EventId, kind: nat, bytes: nat, hops: nat, now: nat)
    requires LateJoined(m)
    ensures LateJoined(RetryInventory(m, source, id, kind, bytes, hops, now).mesh)
  {
    hide Later;
  }

  /** An event that nobody announced lately has no route, and so nobody who waits. */
  lemma FreshUnasked(c: Contents, m: Mesh, id: EventId, now: nat)
    requires LockStep(c, m, now) && Current(m, now) && Fresh(m, id, now)
    ensures id !in m.pending
  {
    hide Queues, ValidOptions, CacheOk, SeenOk, DeliveredOk, Scheduled, SeenBefore, RoutesOk;
  }

  lemma InventoryJoined(c: Contents, m: Mesh, source: Peer, id: EventId, kind: nat, bytes: nat, hops: nat, now: nat)
    requires LockStep(c, m, now) && Current(m, now) && LateJoined(m)
    ensures LateJoined(ReceiveInventory(m, source, id, kind, bytes, hops, now).mesh)
  {
    hide LockStep, Current, Later, ValidId, AllowedKind, Remember, RetryInventory;
    if Fresh(m, id, now) {
      FreshUnasked(c, m, id, now);
      RememberWaiting(m, id, now);
      StillJoined(m, Remember(m, id, now));
    } else {
      RetryJoined(m, source, id, kind, bytes, hops, now);
    }
  }

  lemma WantJoined(c: Contents, m: Mesh, source: Peer, id: EventId, now: nat)
    requires LockStep(c, m, now) && LateJoined(m)
    ensures LateJoined(ReceiveWant(m, source, id, now).mesh)
  {
    hide Queues, ValidOptions, Later, ValidId, CacheOk, SeenOk, DeliveredOk, Scheduled, RoutesOk;
  }

  lemma StoreWaiting(c: Contents, m: Mesh, event: Event, now: nat)
    ensures StillWaiting(m, Store(c, m, event, now))
  {
    hide Store;
    StoreElsewhere(c, m, event, now);
  }

  lemma FrameWaiting(c: Contents, m: Mesh, source: Peer, id: EventId, event: Event, waiting: seq<Peer>,
                     selected: seq<Peer>, now: nat)
    ensures StillWaiting(m, ReceiveFrame(c, m, source, id, event, waiting, selected, now).mesh)
  {
    hide Store, NoteDelivered, Admissible, ValidId, Announce;
    StoreElsewhere(c, m, event, now);
    if Requested(c, m, source, id, event) && !m.routes[id].fulfilled {
      var stored := Store(c, m, event, now);
      var served := stored.(routes := stored.routes[id := m.routes[id].(fulfilled := true, disrupted := {})]);
      if id !in served.delivered { NoteElsewhere(served, id, now); }
    }
  }

  lemma ActedJoined(c: Contents, p: Mesh, call: Call, now: nat)
    requires LockStep(c, p, now) && (Maintains(call) ==> Current(p, now)) && LateJoined(p)
    ensures LateJoined(Acted(c, p, call, now).mesh)
  {
    hide LockStep, Current, LateJoined, StillWaiting, Store, ReceiveInventory, ReceiveWant, ReceiveFrame, Remember;
    var r := Acted(c, p, call, now).mesh;
    match call
    case Hear(source, message, waiting, selected) =>
      match message {
        case Inventory(id, kind, bytes, hops) => InventoryJoined(c, p, source, id, kind, bytes, hops, now);
        case Want(id) => WantJoined(c, p, source, id, now);
        case Frame(id, event) =>
          FrameWaiting(c, p, source, id, event, waiting, selected, now);
          StillJoined(p, r);
      }
    case Originate(event, selected) =>
      PublishWaiting(c, p, event, selected, now);
      StillJoined(p, r);
    case Replays(event, peer) =>
      StoreWaiting(c, p, event, now);
      StillJoined(p, Store(c, p, event, now));
    case ReplaysCached(peer) =>
    case Seed(event) =>
      StoreWaiting(c, p, event, now);
      StillJoined(p, Store(c, p, event, now));
    case Maintenance =>
    case Dismissal(peer, id) =>
      DismissWaiting(p, peer, id);
      StillJoined(p, r);
    case Disruption(peer, id) =>
      DisruptWaiting(p, peer, id);
      StillJoined(p, r);
  }

  lemma PublishWaiting(c: Contents, m: Mesh, event: Event, selected: seq<Peer>, now: nat)
    ensures StillWaiting(m, Publish(c, m, event, selected, now).mesh)
  {
    hide Store, Remember, Admissible;
    StoreWaiting(c, m, event, now);
    var stored := Store(c, m, event, now);
    if Fresh(stored, event.id, now) { RememberWaiting(stored, event.id, now); }
  }

  lemma DismissWaiting(m: Mesh, peer: Peer, id: EventId)
    ensures StillWaiting(m, Dismiss(m, peer, id))
  {}

  lemma DisruptWaiting(m: Mesh, peer: Peer, id: EventId)
    ensures StillWaiting(m, Disrupt(m, peer, id))
  {}

  lemma {:induction false} RunJoined(c: Contents, o: Options, calls: seq<Timed>)
    requires Timely(calls)
    ensures LateJoined(RunOf(c, o, calls).mesh)
  {
    hide LockStep, Current, LateJoined, Ready, Acted;
    if calls == [] {
      assert LateJoined(Empty(o)) by { NobodyWaits(o); }
    } else {
      var n := |calls| - 1;
      RunJoined(c, o, calls[..n]);
      BeforeReady(c, o, calls);
      ReadyJoined(RunOf(c, o, calls[..n]).mesh, calls[n].call, calls[n].now);
      ActedJoined(c, Before(c, o, calls), calls[n].call, calls[n].now);
    }
  }

  lemma NobodyWaits(o: Options)
    ensures LateJoined(Empty(o))
  {}

  lemma ReadyJoined(m: Mesh, call: Call, now: nat)
    requires LateJoined(m)
    ensures LateJoined(Ready(m, call, now))
  {
    hide LateJoined, Prune;
    PruneJoined(m, now);
  }

  // ---- The schedule and the waits

  /** In every state a mesh can be in: maintenance is due by the end of a route, and by the end of the waits for it
      unless a further provider has prolonged the route past them. */
  lemma WaitsScheduled(c: Contents, o: Options, calls: seq<Timed>, id: EventId)
    requires Timely(calls) && id in RunOf(c, o, calls).mesh.pending
    ensures var m := RunOf(c, o, calls).mesh;
            && id in m.routes && m.nextPrune.Some? && m.nextPrune.value <= m.routes[id].expires
            && (m.nextPrune.value > m.pending[id].expires ==>
                  m.pending[id].expires < m.routes[id].expires && m.routes[id].alternates != {})
  {
    hide RunOf, Queues, ValidOptions, CacheOk, SeenOk, DeliveredOk, SeenBefore, RoutesOk;
    RunLocked(c, o, calls);
    RunJoined(c, o, calls);
  }

  /** Maintenance leaves a wait that is over if and only if it is not due yet. */
  lemma PruneLeaves(c: Contents, m: Mesh, before: nat, now: nat, id: EventId)
    requires LockStep(c, m, before) && before <= now && id in m.pending && m.pending[id].expires <= now
    ensures m.nextPrune.Some?
    ensures id in Prune(m, now).pending <==> now < m.nextPrune.value
  {
    hide Kept, Least, Expiries, LiveCache, LiveTimes, LiveWants, Queues, ValidOptions, CacheOk, SeenOk, DeliveredOk, SeenBefore;
  }

  /** Maintenance that was due is scheduled past the end of a wait if and only if everything else lives longer. */
  lemma DueSchedules(m: Mesh, now: nat, id: EventId)
    requires m.nextPrune.Some? && m.nextPrune.value <= now && id in Prune(m, now).pending
    ensures var p := Prune(m, now);
            && p.nextPrune.Some? && p.pending[id].expires > now
            && (p.nextPrune.value > p.pending[id].expires <==> forall t :: t in Expiries(p) ==> t > p.pending[id].expires)
  {
    hide Kept, Least, Times;
    var p := Prune(m, now);
    PrunedLeast(m, now);
    SameExpiries(p);
    assert p.routes[id].expires in Expiries(p) by { RouteExpires(p, id); }
    assert IsLeast(Expiries(p), p.nextPrune);
  }

  lemma RouteExpires(m: Mesh, id: EventId)
    requires id in m.routes
    ensures m.routes[id].expires in Expiries(m)
  {}

  // ---- A wait that outlives its end

  /** "b" announces the event 50 after "a" did, "x" having asked for it in between; then maintenance, twice. */
  function Overdue(id: EventId): seq<Timed> {
    [Timed(Hear("a", Inventory(id, 1, 10, 1), [], []), 0),
     Timed(Hear("x", Want(id), [], []), 10),
     Timed(Hear("b", Inventory(id, 1, 10, 1), [], []), 50),
     Timed(Maintenance, 100),
     Timed(Maintenance, 120)]
  }

  ghost predicate HundredLong(o: Options) {
    Clamped(o).routeTtl == 100 && AllowedKind(Clamped(o), 1) && Clamped(o).maxEventBytes >= 10
  }

  lemma RunSnoc(c: Contents, o: Options, calls: seq<Timed>, n: nat)
    requires n < |calls|
    ensures RunOf(c, o, calls[..n + 1]).mesh == Performed(c, RunOf(c, o, calls[..n]).mesh, calls[n].call, calls[n].now).mesh
  {
    hide Performed;
    assert calls[..n + 1][..n] == calls[..n];
  }

  function Announced(id: EventId, o: Options): Mesh {
    Mesh(Clamped(o), map[], [], 0, map[id := 100], [id], map[], [],
         map[id := Route("a", {}, {}, 1, 10, 1, 100, false)], map[], 0, map[id := 100], Some(100))
  }

  function Asked(id: EventId, o: Options): Mesh {
    Mesh(Clamped(o), map[], [], 0, map[id := 100], [id], map[], [],
         map[id := Route("a", {}, {}, 1, 10, 1, 100, false)], map[id := Pending({"x"}, 110)], 1,
         map[id := 100], Some(100))
  }

  function Prolonged(id: EventId, o: Options, next: nat): Mesh {
    Mesh(Clamped(o), map[], [], 0, map[id := 150], [id], map[], [],
         map[id := Route("a", {"b"}, {}, 1, 10, 1, 150, false)], map[id := Pending({"x"}, 110)], 1,
         map[id := 150], Some(next))
  }

  lemma FirstAnnouncement(c: Contents, id: EventId, o: Options)
    requires HundredLong(o) && ValidId(id)
    ensures Performed(c, Empty(o), Overdue(id)[0].call, 0).mesh == Announced(id, o)
  {
    hide Clamped;
    assert ForgetSeen(Empty(o)) == Empty(o);
    ClampedHops(o);
  }

  lemma ClampedHops(o: Options)
    ensures Clamped(o).maxHops >= 1 && Clamped(o).maxPending >= 1 && Clamped(o).maxSeen >= 1
  {}

  lemma SomebodyAsks(c: Contents, id: EventId, o: Options)
    requires HundredLong(o) && ValidId(id)
    ensures Performed(c, Announced(id, o), Overdue(id)[1].call, 10).mesh == Asked(id, o)
  {
    hide Clamped;
    ClampedHops(o);
  }

  lemma RouteProlonged(c: Contents, id: EventId, o: Options)
    requires HundredLong(o) && ValidId(id)
    ensures Performed(c, Asked(id, o), Overdue(id)[2].call, 50).mesh == Prolonged(id, o, 100)
  {
    hide Clamped;
    ClampedHops(o);
  }

  lemma Rescheduled(c: Contents, id: EventId, o: Options)
    requires HundredLong(o) && ValidId(id)
    ensures Performed(c, Prolonged(id, o, 100), Maintenance, 100).mesh == Prolonged(id, o, 150)
  {
    hide Clamped, Least, Kept, Sum, LiveCache, LiveTimes, LiveRoutes, LivePending, LiveWants, Times;
    AllLive(id, o);
    var p := Prune(Prolonged(id, o, 100), 100);
    SumNone<EventId, Cached>(CachedSize);
    SumOne(id);
    KeptOne(id);
    assert p.nextPrune == Least({150}) && IsLeast({150}, Least({150}));
    assert p.seen.Keys == {id} && p.cached.Keys == {} && p.delivered.Keys == {};
  }

  lemma AllLive(id: EventId, o: Options)
    ensures var m := Prolonged(id, o, 100);
            && LiveCache(map[], 100) == map[] && LiveTimes(map[], 100) == map[]
            && LiveTimes(m.seen, 100) == m.seen && LiveRoutes(m.routes, 100) == m.routes
            && LivePending(m.pending, m.routes, 100) == m.pending && LiveWants(m.wants, m.routes, 100) == m.wants
            && Times(map[], m.seen, map[], m.routes) == {150}
  {
    hide Clamped;
    var m := Prolonged(id, o, 100);
    assert m.routes[id].expires == 150 && m.pending[id].expires == 110 && m.seen[id] == 150;
    assert LiveRoutes(m.routes, 100) == m.routes;
  }

  lemma KeptOne(id: EventId)
    ensures Kept([id], {id}) == [id] && Kept([], {}) == []
  {
    assert [id][1..] == [];
  }

  lemma SumOne(id: EventId)
    ensures Sum(map[id := Pending({"x"}, 110)], PendingSize) == 1
  {
    SumNone<EventId, Pending>(PendingSize);
    SumPut<EventId, Pending>(map[], PendingSize, id, Pending({"x"}, 110));
  }

  lemma NotDue(c: Contents, id: EventId, o: Options)
    ensures Performed(c, Prolonged(id, o, 150), Maintenance, 120).mesh == Prolonged(id, o, 150)
  {
    hide Clamped;
  }

  /** At 120, right after maintenance, "x" still waits although its wait ended at 110, and maintenance is not due
      before 150; a frame at that time is still sent to it. */
  lemma WaitOverdue(c: Contents, id: EventId, o: Options, event: Event)
    requires HundredLong(o) && ValidId(id) && event == Event(id, true) && c.kind(id) == 1 && c.bytes(id) == 10
    ensures Timely(Overdue(id))
    ensures var m := RunOf(c, o, Overdue(id)).mesh;
            && m.nextPrune == Some(150) && id in m.pending && m.pending[id].expires == 110
            && Send("x", Frame(id, event)) in
                 Done(Performed(c, m, Hear("a", Frame(id, event), ["x"], []), 120))
  {
    hide Clamped, Performed, Asked, Announced, HundredLong;
    var calls := Overdue(id);
    assert calls[..5] == calls && calls[..0] == [];
    RunSnoc(c, o, calls, 0);
    FirstAnnouncement(c, id, o);
    RunSnoc(c, o, calls, 1);
    SomebodyAsks(c, id, o);
    RunSnoc(c, o, calls, 2);
    RouteProlonged(c, id, o);
    RunSnoc(c, o, calls, 3);
    Rescheduled(c, id, o);
    RunSnoc(c, o, calls, 4);
    NotDue(c, id, o);
    StillServed(c, id, o, event);
  }

  lemma StillServed(c: Contents, id: EventId, o: Options, event: Event)
    requires HundredLong(o) && ValidId(id) && event == Event(id, true) && c.kind(id) == 1 && c.bytes(id) == 10
    ensures Send("x", Frame(id, event)) in
              Done(Performed(c, Prolonged(id, o, 150), Hear("a", Frame(id, event), ["x"], []), 120))
  {
    hide Clamped, Store, NoteDelivered;
    var m := Prolonged(id, o, 150);
    StoreElsewhere(c, m, event, 120);
    var served := Store(c, m, event, 120);
    var route := m.routes[id].(fulfilled := true, disrupted := {});
    served := served.(routes := served.routes[id := route]);
    NoteElsewhere(served, id, 120);
    assert Announce(["x"], Frame(id, event))[0] == Send("x", Frame(id, event));
  }
}
