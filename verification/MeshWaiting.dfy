/** Open routes: a node that was asked for an event while it fetches it passes it on as soon as it comes. */
module MeshWaiting {
  import opened Wrappers
  import opened Sets
  import opened Sums
  import opened MeshState
  import opened MeshInvariant
  import opened MeshSteps
  import opened MeshTraces
  import opened MeshCache
  import opened MeshService

  // ---- What one call leaves of a route and of those who wait for it

  ghost predicate SameRoute(a: Route, b: Route) {
    SameOffer(a, b) && a.expires == b.expires && a.fulfilled == b.fulfilled
  }

  /** The route and its waiting peers are as they were. */
  ghost predicate SameWait(p: Mesh, r: Mesh, id: EventId)
    requires id in p.routes
  {
    && id in r.routes && SameRoute(p.routes[id], r.routes[id])
    && (id in r.pending <==> id in p.pending) && (id in p.pending ==> r.pending[id] == p.pending[id])
  }

  /** Nothing is forgotten. */
  ghost predicate Unforgotten(p: Mesh, r: Mesh, id: EventId)
    requires id in p.routes
  {
    r.options == p.options && r.seenOrder == p.seenOrder && SameWait(p, r, id)
  }

  /** The k longest known are forgotten for one more. */
  ghost predicate ForgetsFor(p: Mesh, r: Mesh, k: nat, x: EventId) {
    && r.options == p.options && k <= |p.seenOrder| && r.seenOrder == p.seenOrder[k..] + [x] && x !in p.seenOrder
    && (k > 0 ==> |p.seenOrder| - k + 1 >= p.options.maxSeen)
    && forall y :: y in p.seenOrder[k..] && y in p.routes ==> SameWait(p, r, y)
  }

  /** The k longest known are forgotten. */
  ghost predicate Forgets(m: Mesh, r: Mesh, k: nat) {
    && r.options == m.options && k <= |m.seenOrder| && r.seenOrder == m.seenOrder[k..]
    && (k > 0 ==> |m.seenOrder| - k + 1 >= m.options.maxSeen)
    && forall y :: y in m.seenOrder[k..] && y in m.routes ==> SameWait(m, r, y)
  }

  lemma {:induction false} ForgetSeenDrops(m: Mesh) returns (k: nat)
    requires SeenOk(m)
    ensures Forgets(m, ForgetSeen(m), k)
    decreases |m.seenOrder|
  {
    hide Queues, Forgets, WithoutPending;
    assert |m.seen.Keys| == |m.seen|;
    QueueMembers(m.seenOrder, m.seen.Keys);
    if |m.seen| >= m.options.maxSeen && m.seenOrder != [] {
      ForgetOneSeen(m);
      k := ForgetSeenDrops(ForgetOne(m));
      OneMoreForgotten(m, ForgetSeen(m), k);
      k := k + 1;
    } else {
      k := 0;
      NoneForgotten(m);
    }
  }

  lemma NoneForgotten(m: Mesh)
    ensures Forgets(m, m, 0)
  {
    hide SameWait;
    assert m.seenOrder[0..] == m.seenOrder;
    forall y | y in m.routes ensures SameWait(m, m, y) { SameWaitSelf(m, y); }
  }

  lemma OneMoreForgotten(m: Mesh, r: Mesh, k: nat)
    requires SeenOk(m) && m.seenOrder != [] && |m.seen| >= m.options.maxSeen && Forgets(ForgetOne(m), r, k)
    ensures Forgets(m, r, k + 1)
  {
    hide Queues, SameWait, ForgetOne;
    assert |m.seen.Keys| == |m.seen|;
    QueueMembers(m.seenOrder, m.seen.Keys);
    ForgetOneOthers(m);
    assert m.seenOrder[1..][k..] == m.seenOrder[k + 1..];
    DistinctOrder(m.seenOrder, m.seen.Keys);
    forall y | y in m.seenOrder[k + 1..] && y in m.routes ensures SameWait(m, r, y) {
      var i :| 0 <= i < |m.seenOrder[k + 1..]| && m.seenOrder[k + 1..][i] == y;
      assert m.seenOrder[k + 1 + i] == y && y != m.seenOrder[0];
      assert y in ForgetOne(m).routes by { SameWaitStays(m, ForgetOne(m), y); }
      SameWaitChain(m, ForgetOne(m), r, y);
    }
  }

  lemma SameWaitStays(m: Mesh, r: Mesh, id: EventId)
    requires id in m.routes && SameWait(m, r, id)
    ensures id in r.routes
  {}

  lemma ForgetOneOthers(m: Mesh)
    requires m.seenOrder != []
    ensures ForgetOne(m).options == m.options && ForgetOne(m).seenOrder == m.seenOrder[1..]
    ensures forall y :: y in m.routes && y != m.seenOrder[0] ==> SameWait(m, ForgetOne(m), y)
  {}

  lemma SameWaitChain(m: Mesh, n: Mesh, r: Mesh, id: EventId)
    requires id in m.routes && SameWait(m, n, id) && id in n.routes && SameWait(n, r, id)
    ensures SameWait(m, r, id)
  {}

  lemma SameWaitSelf(m: Mesh, id: EventId)
    requires id in m.routes
    ensures SameWait(m, m, id)
  {}

  lemma RememberForgets(c: Contents, m: Mesh, x: EventId, now: nat) returns (k: nat)
    requires LockStep(c, m, now) && x !in m.seen
    ensures ForgetsFor(m, Remember(m, x, now), k, x)
  {
    hide LockStep, ForgetSeen, Later, Tracked, Queues;
    assert SeenOk(m) by { SeenQueue(c, m, now); }
    QueueMembers(m.seenOrder, m.seen.Keys);
    k := ForgetSeenDrops(m);
  }

  lemma SeenQueue(c: Contents, m: Mesh, now: nat)
    requires LockStep(c, m, now)
    ensures SeenOk(m) && forall id :: id in m.routes ==> id in m.seenOrder && id in m.seen && m.seen[id] == m.routes[id].expires
  {
    hide ValidOptions, RoutesOk, PendingOk, CacheOk, DeliveredOk, SeenBefore, Scheduled;
  }

  /** Calls that are about the route of an event: its announcements, wants, frames and dismissals. */
  predicate Touches(call: Call, id: EventId) {
    (call.Hear? && call.message.id == id) || (call.Dismissal? && call.id == id)
  }

  ghost predicate Leaves(p: Mesh, r: Mesh, call: Call, id: EventId)
    requires id in p.routes
  {
    || Unforgotten(p, r, id)
    || (Mentioned(call).Some? && Mentioned(call).value != id && exists k: nat :: ForgetsFor(p, r, k, Mentioned(call).value))
  }

  lemma ActedElsewhere(c: Contents, p: Mesh, call: Call, now: nat, id: EventId)
    requires LockStep(c, p, now) && (Maintains(call) ==> Current(p, now)) && id in p.routes && !Touches(call, id)
    ensures Leaves(p, Acted(c, p, call, now).mesh, call, id)
  {
    hide LockStep, Current, Store, Remember, Requested, Admissible, ReceiveInventory, ReceiveWant, ReceiveFrame, Publish, Replay,
         Later, ForgetsFor, Dismiss, Disrupt, Unforgotten;
    match call
    case Hear(source, message, waiting, selected) =>
      match message {
        case Inventory(x, kind, bytes, hops) => InventoryElsewhere(c, p, call, now, id);
        case Want(x) => WantElsewhere(p, source, x, now, id);
        case Frame(x, event) => FrameElsewhere(c, p, call, now, id);
      }
    case Originate(event, selected) => PublishElsewhere(c, p, event, selected, now, id);
    case Replays(event, peer) => ReplayElsewhere(c, p, event, peer, now, id);
    case ReplaysCached(peer) => UnforgottenSelf(p, id);
    case Seed(event) =>
      SeedElsewhere(c, p, event, now, id);
      UnforgottenSelf(p, id);
    case Maintenance => UnforgottenSelf(p, id);
    case Dismissal(peer, x) => DismissElsewhere(p, peer, x, id);
    case Disruption(peer, x) => DisruptElsewhere(p, peer, x, id);
  }

  lemma DismissElsewhere(p: Mesh, peer: Peer, x: EventId, id: EventId)
    requires id in p.routes && id != x
    ensures Unforgotten(p, Dismiss(p, peer, x), id)
  {}

  lemma DisruptElsewhere(p: Mesh, peer: Peer, x: EventId, id: EventId)
    requires id in p.routes
    ensures Unforgotten(p, Disrupt(p, peer, x), id)
  {}

  lemma SeedElsewhere(c: Contents, p: Mesh, event: Event, now: nat, id: EventId)
    requires id in p.routes
    ensures Unforgotten(p, Store(c, p, event, now), id)
  {
    hide Store;
    StoreElsewhere(c, p, event, now);
  }

  lemma UnforgottenSelf(m: Mesh, id: EventId)
    requires id in m.routes
    ensures Unforgotten(m, m, id)
  {}

  lemma ReplayElsewhere(c: Contents, p: Mesh, event: Event, peer: Peer, now: nat, id: EventId)
    requires id in p.routes
    ensures Unforgotten(p, Replay(c, p, event, peer, now).mesh, id)
  {
    hide Store;
    StoreElsewhere(c, p, event, now);
  }

  /** What an announcement leaves of the state. */
  ghost predicate InventoryLeaves(p: Mesh, r: Mesh, m: Message, source: Peer, now: nat)
    requires m.Inventory?
  {
    || r == p
    || (!Fresh(p, m.id, now) && r == RetryInventory(p, source, m.id, m.kind, m.bytes, m.hops, now).mesh)
    || (Fresh(p, m.id, now)
        && var known := Remember(p, m.id, now);
        && r.options == known.options && r.seenOrder == known.seenOrder && r.pending == known.pending
        && forall y :: y in known.routes && y != m.id ==> y in r.routes && r.routes[y] == known.routes[y])
  }

  lemma InventoryOutcome(p: Mesh, source: Peer, m: Message, now: nat)
    requires m.Inventory?
    ensures InventoryLeaves(p, ReceiveInventory(p, source, m.id, m.kind, m.bytes, m.hops, now).mesh, m, source, now)
  {
    hide Remember, Later, ValidId, AllowedKind, RetryInventory;
  }

  lemma InventoryElsewhere(c: Contents, p: Mesh, call: Call, now: nat, id: EventId)
    requires LockStep(c, p, now) && Current(p, now) && id in p.routes
    requires call.Hear? && call.message.Inventory? && call.message.id != id
    ensures Leaves(p, Acted(c, p, call, now).mesh, call, id)
  {
    hide LockStep, Current, Remember, ForgetsFor, RetryInventory, ReceiveInventory, Unforgotten;
    var m, r := call.message, Acted(c, p, call, now).mesh;
    InventoryOutcome(p, call.source, m, now);
    UnforgottenSelf(p, id);
    RetryElsewhere(p, call.source, m.id, m.kind, m.bytes, m.hops, now, id);
    if r != p && Fresh(p, m.id, now) {
      FreshUnseen(c, p, m.id, now);
      var k := RememberForgets(c, p, m.id, now);
      SameForgets(p, Remember(p, m.id, now), r, k, m.id);
    }
  }

  lemma SameForgets(p: Mesh, r: Mesh, s: Mesh, k: nat, x: EventId)
    requires ForgetsFor(p, r, k, x) && s.options == r.options && s.seenOrder == r.seenOrder && s.pending == r.pending
    requires forall y :: y in r.routes && y != x ==> y in s.routes && s.routes[y] == r.routes[y]
    ensures ForgetsFor(p, s, k, x)
  {
    forall y | y in p.seenOrder[k..] && y in p.routes ensures SameWait(p, s, y) {
      assert y != x && SameWait(p, r, y);
    }
  }

  lemma RetryElsewhere(p: Mesh, source: Peer, x: EventId, kind: nat, bytes: nat, hops: nat, now: nat, id: EventId)
    requires id in p.routes && id != x
    ensures Unforgotten(p, RetryInventory(p, source, x, kind, bytes, hops, now).mesh, id)
  {
    hide Later, Unforgotten;
    var r := RetryInventory(p, source, x, kind, bytes, hops, now).mesh;
    UnforgottenSelf(p, id);
    if x in r.routes { OtherRoute(p, r, x, id); }
  }

  lemma OtherRoute(p: Mesh, r: Mesh, x: EventId, id: EventId)
    requires id in p.routes && id != x && r.options == p.options && r.seenOrder == p.seenOrder && r.pending == p.pending
    requires x in r.routes && r.routes == p.routes[x := r.routes[x]]
    ensures Unforgotten(p, r, id)
  {}

  lemma WantElsewhere(p: Mesh, source: Peer, x: EventId, now: nat, id: EventId)
    requires id in p.routes && id != x
    ensures Unforgotten(p, ReceiveWant(p, source, x, now).mesh, id)
  {
    hide Later;
  }

  lemma FrameElsewhere(c: Contents, p: Mesh, call: Call, now: nat, id: EventId)
    requires id in p.routes && call.Hear? && call.message.Frame? && call.message.id != id
    ensures Unforgotten(p, Acted(c, p, call, now).mesh, id)
  {
    hide Store, NoteDelivered, ValidId, Admissible, Later;
    var x, event := call.message.id, call.message.event;
    if Requested(c, p, call.source, x, event) && !p.routes[x].fulfilled {
      StoreElsewhere(c, p, event, now);
      var stored := Store(c, p, event, now);
      var served := stored.(routes := stored.routes[x := p.routes[x].(fulfilled := true, disrupted := {})]);
      if x !in served.delivered { NoteElsewhere(served, x, now); }
    }
  }

  /** What publishing leaves of the state. */
  lemma PublishLeaves(c: Contents, p: Mesh, event: Event, selected: seq<Peer>, now: nat)
    ensures var r, stored := Publish(c, p, event, selected, now).mesh, Store(c, p, event, now);
            if !event.signed || !Admissible(c, p.options, event.id) then r == p
            else r == if Fresh(stored, event.id, now) then Remember(stored, event.id, now) else stored
  {
    hide Store, Remember, Admissible, Announce;
  }

  lemma PublishElsewhere(c: Contents, p: Mesh, event: Event, selected: seq<Peer>, now: nat, id: EventId)
    requires LockStep(c, p, now) && Current(p, now) && id in p.routes
    ensures Leaves(p, Publish(c, p, event, selected, now).mesh, Originate(event, selected), id)
  {
    hide LockStep, Current, Store, Remember, Later, ForgetsFor, Admissible, Publish, Unforgotten;
    UnforgottenSelf(p, id);
    SeedElsewhere(c, p, event, now, id);
    PublishLeaves(c, p, event, selected, now);
    if event.signed && Admissible(c, p.options, event.id) && Fresh(Store(c, p, event, now), event.id, now) {
      PublishedElsewhere(c, p, event, now, id);
    }
  }

  lemma PublishedElsewhere(c: Contents, p: Mesh, event: Event, now: nat, id: EventId)
    requires LockStep(c, p, now) && Current(p, now) && id in p.routes && Admissible(c, p.options, event.id)
    requires Fresh(Store(c, p, event, now), event.id, now)
    ensures event.id != id && exists k: nat :: ForgetsFor(p, Remember(Store(c, p, event, now), event.id, now), k, event.id)
  {
    hide LockStep, Store, Remember, Admissible, ForgetsFor;
    var stored := Store(c, p, event, now);
    StoreElsewhere(c, p, event, now);
    StoreKeeps(c, p, event, now);
    FreshUnseen(c, p, event.id, now);
    SeenQueue(c, p, now);
    var k := RememberForgets(c, stored, event.id, now);
    StoredForgets(p, stored, Remember(stored, event.id, now), k, event.id);
  }

  lemma StoredForgets(p: Mesh, stored: Mesh, r: Mesh, k: nat, x: EventId)
    requires OnlyCache(p, stored) && ForgetsFor(stored, r, k, x)
    ensures ForgetsFor(p, r, k, x)
  {
    forall y | y in p.seenOrder[k..] && y in p.routes ensures SameWait(p, r, y) {
      assert SameWait(stored, r, y);
    }
  }

  // ---- An open route

  /** A peer announced the event and was asked for it. */
  ghost predicate RequestedAt(e: Entry, source: Peer, id: EventId) {
    && e.call.Hear? && e.call.source == source && e.call.message.Inventory? && e.call.message.id == id
    && e.actions == [Send(source, Want(id))]
  }

  predicate WantedAt(e: Entry, peer: Peer, id: EventId) {
    e.call.Hear? && e.call.source == peer && e.call.message == Want(id)
  }

  ghost predicate SentFrame(e: Entry, peer: Peer, id: EventId) {
    exists event :: Send(peer, Frame(id, event)) in e.actions
  }

  ghost predicate RequestedSince(trace: seq<Entry>, a: nat, source: Peer, id: EventId) {
    exists k :: a <= k < |trace| && RequestedAt(trace[k], source, id)
  }

  /** Entry k is a genuine frame, or the dismissal, of a peer that was asked for the event at or after entry a. */
  ghost predicate Disturbs(trace: seq<Entry>, a: nat, k: nat, id: EventId)
    requires k < |trace|
  {
    match trace[k].call
    case Hear(source, message, _, _) => message == Frame(id, Event(id, true)) && RequestedSince(trace[..k], a, source, id)
    case Dismissal(peer, dismissed) => dismissed == id && RequestedSince(trace[..k], a, peer, id)
    case _ => false
  }

  /** No genuine frame came from a peer that was asked, and none of these was dismissed. */
  ghost predicate Undisturbed(trace: seq<Entry>, a: nat, id: EventId) {
    forall k :: a < k < |trace| ==> !Disturbs(trace, a, k, id)
  }

  /** The other events announced or published after entry a. */
  ghost function OthersMentioned(trace: seq<Entry>, a: nat, id: EventId): set<EventId> {
    set k | a < k < |trace| && Mentioned(trace[k].call).Some? && Mentioned(trace[k].call).value != id :: Mentioned(trace[k].call).value
  }

  /** Who wanted the event after entry a. */
  ghost function Wanters(trace: seq<Entry>, a: nat, id: EventId): set<Peer> {
    set k | a < k < |trace| && trace[k].call.Hear? && trace[k].call.message == Want(id) :: trace[k].call.source
  }

  /** Exactly those asked for the event since entry a provide the route. */
  ghost predicate Provided(r: Route, trace: seq<Entry>, a: nat, id: EventId) {
    forall q :: r.ProvidedBy(q) <==> RequestedSince(trace, a, q, id)
  }

  /** Only what was announced since came after it. */
  ghost predicate Followed(m: Mesh, trace: seq<Entry>, a: nat, id: EventId) {
    forall x :: After(m.seenOrder, id, x) ==> x in OthersMentioned(trace, a, id)
  }

  predicate Waits(m: Mesh, id: EventId, q: Peer) { id in m.pending && q in m.pending[id].peers }

  /** Whoever wanted the event while there was room to wait was sent it then or waits for it. */
  ghost predicate Awaited(m: Mesh, trace: seq<Entry>, a: nat, id: EventId) {
    forall k, q :: a < k < |trace| && WantedAt(trace[k], q, id) && |Wanters(trace[..k], a, id)| < m.options.maxPending ==>
      SentFrame(trace[k], q, id) || Waits(m, id, q)
  }

  ghost predicate Waiting(m: Mesh, trace: seq<Entry>, a: nat, id: EventId)
    requires a < |trace|
  {
    && (id in m.pending ==>
          m.pending[id].peers <= Wanters(trace, a, id) && m.pending[id].expires >= Later(trace[a].now, m.options.routeTtl))
    && Awaited(m, trace, a, id)
  }

  /** Of what was announced, not served yet, and at least as long and far. */
  ghost predicate AsTold(m: Mesh, e: Entry, id: EventId)
    requires e.call.Hear? && e.call.message.Inventory?
  {
    && id in m.routes
    && var r, told := m.routes[id], e.call.message;
    && !r.fulfilled && r.kind == told.kind && r.bytes == told.bytes && r.hops >= told.hops
    && r.expires >= Later(e.now, m.options.routeTtl)
  }

  /** The announcement at a has opened a route that is still open. */
  ghost predicate OpenRoute(m: Mesh, trace: seq<Entry>, a: nat, id: EventId)
    requires a < |trace| && trace[a].call.Hear? && trace[a].call.message.Inventory?
  {
    AsTold(m, trace[a], id) && Provided(m.routes[id], trace, a, id) && Followed(m, trace, a, id) && Waiting(m, trace, a, id)
  }

  // ---- Maintenance keeps it open

  lemma ReadyWaits(c: Contents, m: Mesh, call: Call, clock: nat, now: nat, id: EventId)
    requires id in m.routes && m.routes[id].expires > now
    ensures var p := Ready(m, call, now);
            && p.options == m.options && id in p.routes && p.routes[id] == m.routes[id]
            && (id in p.pending ==> id in m.pending && p.pending[id] == m.pending[id])
            && (id in m.pending && m.pending[id].expires > now ==> id in p.pending)
            && (p.seenOrder == m.seenOrder || p.seenOrder == Kept(m.seenOrder, p.seen.Keys))
  {
    hide Kept, Sum, Least, Expiries, LiveCache, LiveTimes, LiveWants;
  }

  lemma ReadyOpen(c: Contents, m: Mesh, call: Call, trace: seq<Entry>, a: nat, id: EventId, clock: nat, now: nat)
    requires a < |trace| && trace[a].call.Hear? && trace[a].call.message.Inventory?
    requires OpenRoute(m, trace, a, id) && now < Later(trace[a].now, m.options.routeTtl)
    ensures OpenRoute(Ready(m, call, now), trace, a, id)
  {
    hide Ready, Later, OthersMentioned, Wanters, RequestedAt, WantedAt, SentFrame, After;
    ReadyWaits(c, m, call, clock, now, id);
    var p := Ready(m, call, now);
    forall x | After(p.seenOrder, id, x) ensures After(m.seenOrder, id, x) {
      if p.seenOrder != m.seenOrder { KeptAfter(m.seenOrder, p.seen.Keys, id, x); }
    }
    assert forall q :: Waits(m, id, q) ==> Waits(p, id, q);
  }

  // ---- Longer traces

  lemma OthersMentionedGrow(trace: seq<Entry>, e: Entry, a: nat, id: EventId)
    requires a < |trace|
    ensures OthersMentioned(trace + [e], a, id)
         == OthersMentioned(trace, a, id)
            + if Mentioned(e.call).Some? && Mentioned(e.call).value != id then {Mentioned(e.call).value} else {}
  {
    hide Mentioned;
    var longer := trace + [e];
    assert forall k :: 0 <= k < |trace| ==> longer[k] == trace[k];
    assert longer[|trace|] == e;
    forall x | x in OthersMentioned(trace, a, id) ensures x in OthersMentioned(longer, a, id) {
      var k :| a < k < |trace| && Mentioned(trace[k].call).Some? && Mentioned(trace[k].call).value != id && Mentioned(trace[k].call).value == x;
      assert Mentioned(longer[k].call).value == x;
    }
    if Mentioned(e.call).Some? && Mentioned(e.call).value != id {
      assert Mentioned(longer[|trace|].call).value in OthersMentioned(longer, a, id);
    }
  }

  lemma WantersGrow(trace: seq<Entry>, e: Entry, a: nat, id: EventId)
    requires a < |trace|
    ensures Wanters(trace + [e], a, id)
         == Wanters(trace, a, id) + if e.call.Hear? && e.call.message == Want(id) then {e.call.source} else {}
  {
    var longer := trace + [e];
    assert forall k :: 0 <= k < |trace| ==> longer[k] == trace[k];
    assert longer[|trace|] == e;
    forall x | x in Wanters(trace, a, id) ensures x in Wanters(longer, a, id) {
      var k :| a < k < |trace| && trace[k].call.Hear? && trace[k].call.message == Want(id) && trace[k].call.source == x;
      assert longer[k].call.source == x;
    }
    if e.call.Hear? && e.call.message == Want(id) { assert longer[|trace|].call.source in Wanters(longer, a, id); }
  }

  lemma RequestedLonger(trace: seq<Entry>, e: Entry, a: nat, q: Peer, id: EventId)
    requires a <= |trace|
    ensures RequestedSince(trace + [e], a, q, id) <==> RequestedSince(trace, a, q, id) || RequestedAt(e, q, id)
  {
    hide RequestedAt;
    var longer := trace + [e];
    assert longer[|trace|] == e;
    if RequestedSince(trace, a, q, id) {
      var k :| a <= k < |trace| && RequestedAt(trace[k], q, id);
      assert longer[k] == trace[k];
    }
  }

  lemma ProvidedLonger(p: Route, r: Route, trace: seq<Entry>, e: Entry, a: nat, id: EventId)
    requires a <= |trace| && Provided(p, trace, a, id)
    requires forall q :: r.ProvidedBy(q) <==> p.ProvidedBy(q) || RequestedAt(e, q, id)
    ensures Provided(r, trace + [e], a, id)
  {
    hide RequestedAt, RequestedSince;
    forall q ensures r.ProvidedBy(q) <==> RequestedSince(trace + [e], a, q, id) { RequestedLonger(trace, e, a, q, id); }
  }

  lemma AwaitedLonger(p: Mesh, r: Mesh, trace: seq<Entry>, e: Entry, a: nat, id: EventId)
    requires a < |trace| && Awaited(p, trace, a, id) && r.options == p.options
    requires id in p.pending ==> id in r.pending && p.pending[id].peers <= r.pending[id].peers
    requires forall q :: WantedAt(e, q, id) && |Wanters(trace, a, id)| < p.options.maxPending ==>
               SentFrame(e, q, id) || Waits(r, id, q)
    ensures Awaited(r, trace + [e], a, id)
  {
    hide WantedAt, SentFrame, Wanters;
    var longer := trace + [e];
    assert forall q :: Waits(p, id, q) ==> Waits(r, id, q);
    forall k, q | a < k < |longer| && WantedAt(longer[k], q, id) && |Wanters(longer[..k], a, id)| < r.options.maxPending
      ensures SentFrame(longer[k], q, id) || Waits(r, id, q)
    {
      if k < |trace| {
        assert longer[k] == trace[k] && longer[..k] == trace[..k];
      } else {
        assert longer[k] == e && longer[..k] == trace;
      }
    }
  }

  // ---- Calls that are not about it

  /** With few others announced since, it is not forgotten for one more. */
  lemma StaysKnown(c: Contents, p: Mesh, r: Mesh, trace: seq<Entry>, e: Entry, a: nat, id: EventId, k: nat, x: EventId, now: nat)
    requires LockStep(c, p, now) && a < |trace| && id in p.routes && Followed(p, trace, a, id)
    requires ForgetsFor(p, r, k, x) && x != id && Mentioned(e.call) == Some(x)
    requires |OthersMentioned(trace + [e], a, id)| < p.options.maxSeen
    ensures SameWait(p, r, id) && Followed(r, trace + [e], a, id)
  {
    hide LockStep, OthersMentioned, Mentioned, SameWait, After, Queues;
    OthersMentionedGrow(trace, e, a, id);
    SeenQueue(c, p, now);
    DistinctOrder(p.seenOrder, p.seen.Keys);
    var i :| 0 <= i < |p.seenOrder| && p.seenOrder[i] == id;
    if i < k {
      DroppedFar(p.seenOrder, p.options.maxSeen, OthersMentioned(trace, a, id), OthersMentioned(trace + [e], a, id), i, id, x, k);
    }
    assert p.seenOrder[k..][i - k] == id;
    KeptFollowers(p.seenOrder, k, id, x);
  }

  lemma ElsewhereOpen(c: Contents, p: Mesh, call: Call, now: nat, trace: seq<Entry>, a: nat, id: EventId)
    requires LockStep(c, p, now) && (Maintains(call) ==> Current(p, now)) && !Touches(call, id)
    requires a < |trace| && trace[a].call.Hear? && trace[a].call.message.Inventory? && OpenRoute(p, trace, a, id)
    requires |OthersMentioned(trace + [Entry(call, now, Done(Acted(c, p, call, now)))], a, id)| < p.options.maxSeen
    ensures var s := Acted(c, p, call, now);
            OpenRoute(s.mesh, trace + [Entry(call, now, Done(s))], a, id)
  {
    hide LockStep, Current, Acted, OthersMentioned, Wanters, SentFrame, After, Later, Provided, Awaited, Followed;
    var s := Acted(c, p, call, now);
    var e := Entry(call, now, Done(s));
    var longer := trace + [e];
    ActedElsewhere(c, p, call, now, id);
    assert longer[a] == trace[a];
    WantersGrow(trace, e, a, id);
    if Unforgotten(p, s.mesh, id) {
      FollowedLonger(p, s.mesh, trace, e, a, id);
    } else {
      var k: nat :| ForgetsFor(p, s.mesh, k, Mentioned(call).value);
      StaysKnown(c, p, s.mesh, trace, e, a, id, k, Mentioned(call).value, now);
    }
    ProvidedLonger(p.routes[id], s.mesh.routes[id], trace, e, a, id);
    AwaitedLonger(p, s.mesh, trace, e, a, id);
  }

  lemma FollowedLonger(p: Mesh, r: Mesh, trace: seq<Entry>, e: Entry, a: nat, id: EventId)
    requires a < |trace| && r.seenOrder == p.seenOrder && Followed(p, trace, a, id)
    ensures Followed(r, trace + [e], a, id)
  {
    hide OthersMentioned, After;
    OthersMentionedGrow(trace, e, a, id);
  }

  // ---- Calls that are about it

  /** The announcement may raise the hops, prolong the route and add its sender, who is asked only if he provides it. */
  ghost predicate Prolongs(p: Mesh, s: Step, source: Peer, id: EventId)
    requires id in p.routes
  {
    && s.mesh.options == p.options && s.mesh.seenOrder == p.seenOrder && s.mesh.pending == p.pending
    && id in s.mesh.routes
    && var q, r := p.routes[id], s.mesh.routes[id];
    && !r.fulfilled && r.kind == q.kind && r.bytes == q.bytes && r.hops >= q.hops && r.expires >= q.expires
    && (Done(s) == [] || Done(s) == [Send(source, Want(id))])
    && forall x :: r.ProvidedBy(x) <==> q.ProvidedBy(x) || (x == source && Done(s) != [])
  }

  lemma RetryOwn(p: Mesh, source: Peer, id: EventId, kind: nat, bytes: nat, hops: nat, now: nat)
    requires id in p.routes && !p.routes[id].fulfilled && p.routes[id].expires <= Later(now, p.options.routeTtl)
    ensures Prolongs(p, RetryInventory(p, source, id, kind, bytes, hops, now), source, id)
  {
    hide Later, Prolongs, RetryInventory;
    var route := p.routes[id];
    if route.kind == kind && route.bytes == bytes && !route.ProvidedBy(source) && |route.alternates| + 1 < MAX_PROVIDERS {
      RetryJoining(p, source, id, hops, now);
    } else {
      RetryStaying(p, source, id, kind, bytes, hops, now);
    }
  }

  lemma RetryStaying(p: Mesh, source: Peer, id: EventId, kind: nat, bytes: nat, hops: nat, now: nat)
    requires id in p.routes && !p.routes[id].fulfilled
    requires var route := p.routes[id];
             route.kind != kind || route.bytes != bytes || route.ProvidedBy(source) || |route.alternates| + 1 >= MAX_PROVIDERS
    ensures Prolongs(p, RetryInventory(p, source, id, kind, bytes, hops, now), source, id)
  {
    hide Prolongs;
    var route, s := p.routes[id], RetryInventory(p, source, id, kind, bytes, hops, now);
    RouteOwn(p, s, source, id, s.mesh.routes[id]);
  }

  lemma RetryJoining(p: Mesh, source: Peer, id: EventId, hops: nat, now: nat)
    requires id in p.routes && !p.routes[id].fulfilled && p.routes[id].expires <= Later(now, p.options.routeTtl)
    requires !p.routes[id].ProvidedBy(source) && |p.routes[id].alternates| + 1 < MAX_PROVIDERS
    ensures Prolongs(p, RetryInventory(p, source, id, p.routes[id].kind, p.routes[id].bytes, hops, now), source, id)
  {
    hide Later, Prolongs;
    var route := p.routes[id];
    var s := RetryInventory(p, source, id, route.kind, route.bytes, hops, now);
    RouteOwn(p, s, source, id, s.mesh.routes[id]);
  }

  lemma RouteOwn(p: Mesh, s: Step, source: Peer, id: EventId, r: Route)
    requires id in p.routes && !p.routes[id].fulfilled && id in s.mesh.routes && s.mesh.routes[id] == r
    requires s.mesh.options == p.options && s.mesh.seenOrder == p.seenOrder && s.mesh.pending == p.pending
    requires var q := p.routes[id];
             && r.peer == q.peer && r.alternates == q.alternates + (if Done(s) == [] || q.ProvidedBy(source) then {} else {source}) && r.kind == q.kind && r.bytes == q.bytes
             && r.hops >= q.hops && r.expires >= q.expires && !r.fulfilled
    requires Done(s) == [] || Done(s) == [Send(source, Want(id))]
    ensures Prolongs(p, s, source, id)
  {}

  lemma InventoryOwn(c: Contents, p: Mesh, source: Peer, id: EventId, kind: nat, bytes: nat, hops: nat, now: nat)
    requires LockStep(c, p, now) && Current(p, now) && id in p.routes && !p.routes[id].fulfilled
    ensures Prolongs(p, ReceiveInventory(p, source, id, kind, bytes, hops, now), source, id)
  {
    hide LockStep, Later, ValidId, AllowedKind, RetryInventory, Current, Remember;
    SeenSoon(c, p, id, now);
    RetryOwn(p, source, id, kind, bytes, hops, now);
  }

  lemma SeenSoon(c: Contents, p: Mesh, id: EventId, now: nat)
    requires LockStep(c, p, now) && Current(p, now) && id in p.routes
    ensures id in p.seen && now < p.seen[id] == p.routes[id].expires <= Later(now, p.options.routeTtl)
  {
    hide ValidOptions, RoutesOk, PendingOk, CacheOk, DeliveredOk, Scheduled, Queues;
  }

  lemma WantOwn(c: Contents, p: Mesh, source: Peer, id: EventId, now: nat)
    requires LockStep(c, p, now) && Current(p, now) && id in p.routes && !p.routes[id].fulfilled && ValidId(id)
    ensures var s := ReceiveWant(p, source, id, now);
            && s.mesh.options == p.options && s.mesh.seenOrder == p.seenOrder && s.mesh.routes == p.routes
            && (id in p.cached ==> s.mesh == p && Done(s) == [Send(source, Frame(id, p.cached[id].event))])
            && (id !in p.cached ==>
                  && Done(s) == [] && id in s.mesh.pending
                  && (id in p.pending ==> p.pending[id].peers <= s.mesh.pending[id].peers
                                          && s.mesh.pending[id].expires == p.pending[id].expires)
                  && (id !in p.pending ==> s.mesh.pending[id].expires == Later(now, p.options.routeTtl))
                  && s.mesh.pending[id].peers <= {source} + (if id in p.pending then p.pending[id].peers else {})
                  && ((id in p.pending ==> |p.pending[id].peers| < p.options.maxPending) ==> source in s.mesh.pending[id].peers))
  {
    hide LockStep, Later, ValidId;
    RouteIsOk(c, p, id, now);
    PendingRoom(c, p, now);
  }

  lemma PendingRoom(c: Contents, p: Mesh, now: nat)
    requires LockStep(c, p, now)
    ensures p.options.maxPending > 0
  {
    ClampedBounds(p.options);
  }

  lemma InventoryOpen(c: Contents, p: Mesh, call: Call, now: nat, trace: seq<Entry>, a: nat, id: EventId)
    requires LockStep(c, p, now) && Current(p, now)
    requires a < |trace| && trace[a].call.Hear? && trace[a].call.message.Inventory? && OpenRoute(p, trace, a, id)
    requires call.Hear? && call.message.Inventory? && call.message.id == id
    ensures var s := Acted(c, p, call, now);
            OpenRoute(s.mesh, trace + [Entry(call, now, Done(s))], a, id)
  {
    hide LockStep, Current, OthersMentioned, Wanters, SentFrame, After, Later, Provided, Awaited, Followed, ReceiveInventory;
    var s := Acted(c, p, call, now);
    var e := Entry(call, now, Done(s));
    InventoryOwn(c, p, call.source, id, call.message.kind, call.message.bytes, call.message.hops, now);
    assert (trace + [e])[a] == trace[a];
    WantersGrow(trace, e, a, id);
    FollowedLonger(p, s.mesh, trace, e, a, id);
    ProvidedLonger(p.routes[id], s.mesh.routes[id], trace, e, a, id);
    AwaitedLonger(p, s.mesh, trace, e, a, id);
  }

  lemma WantOpen(c: Contents, p: Mesh, call: Call, now: nat, trace: seq<Entry>, a: nat, id: EventId)
    requires LockStep(c, p, now) && Current(p, now) && ValidId(id)
    requires a < |trace| && trace[a].call.Hear? && trace[a].call.message.Inventory? && OpenRoute(p, trace, a, id)
    requires call.Hear? && call.message == Want(id) && trace[a].now <= now
    ensures var s := Acted(c, p, call, now);
            OpenRoute(s.mesh, trace + [Entry(call, now, Done(s))], a, id)
  {
    hide LockStep, Current, OthersMentioned, Wanters, After, Later, Provided, Awaited, Followed, ReceiveWant, ValidId;
    var s := Acted(c, p, call, now);
    var e := Entry(call, now, Done(s));
    WantOwn(c, p, call.source, id, now);
    LaterMonotone(trace[a].now, now, p.options.routeTtl);
    assert (trace + [e])[a] == trace[a];
    WantersGrow(trace, e, a, id);
    FollowedLonger(p, s.mesh, trace, e, a, id);
    ProvidedLonger(p.routes[id], s.mesh.routes[id], trace, e, a, id);
    if id in p.pending { SubsetSize(p.pending[id].peers, Wanters(trace, a, id)); }
    if id in p.cached { assert SentFrame(e, call.source, id) by { assert Send(call.source, Frame(id, p.cached[id].event)) in e.actions; } }
    AwaitedLonger(p, s.mesh, trace, e, a, id);
  }

  lemma StepOpen(c: Contents, p: Mesh, call: Call, now: nat, trace: seq<Entry>, a: nat, id: EventId)
    requires LockStep(c, p, now) && (Maintains(call) ==> Current(p, now)) && ValidId(id)
    requires a < |trace| && trace[a].call.Hear? && trace[a].call.message.Inventory? && OpenRoute(p, trace, a, id)
    requires var longer := trace + [Entry(call, now, Done(Acted(c, p, call, now)))];
             Undisturbed(longer, a, id) && |OthersMentioned(longer, a, id)| < p.options.maxSeen
    requires trace[a].now <= now
    ensures var s := Acted(c, p, call, now);
            OpenRoute(s.mesh, trace + [Entry(call, now, Done(s))], a, id)
  {
    hide LockStep, Current, Acted, OthersMentioned, OpenRoute, ValidId;
    var longer := trace + [Entry(call, now, Done(Acted(c, p, call, now)))];
    assert longer[|trace|] == Entry(call, now, Done(Acted(c, p, call, now)));
    assert longer[..|trace|] == trace;
    if !Touches(call, id) {
      ElsewhereOpen(c, p, call, now, trace, a, id);
    } else if call.Hear? && call.message.Inventory? {
      InventoryOpen(c, p, call, now, trace, a, id);
    } else if call.Hear? && call.message.Want? {
      WantOpen(c, p, call, now, trace, a, id);
    } else {
      assert !Disturbs(longer, a, |trace|, id);
      RefusedOpen(c, p, call, now, trace, a, id);
    }
  }

  /** Frames and dismissals by others change nothing. */
  lemma RefusedOpen(c: Contents, p: Mesh, call: Call, now: nat, trace: seq<Entry>, a: nat, id: EventId)
    requires a < |trace| && trace[a].call.Hear? && trace[a].call.message.Inventory? && OpenRoute(p, trace, a, id)
    requires (call.Hear? && call.message.Frame? && call.message.id == id) || (call.Dismissal? && call.id == id)
    requires !Disturbs(trace + [Entry(call, now, Done(Acted(c, p, call, now)))], a, |trace|, id)
    ensures var s := Acted(c, p, call, now);
            OpenRoute(s.mesh, trace + [Entry(call, now, Done(s))], a, id)
  {
    hide OthersMentioned, Wanters, SentFrame, After, Later, Awaited, Followed, RequestedSince, Store, NoteDelivered, Admissible, ValidId;
    var s := Acted(c, p, call, now);
    var e := Entry(call, now, Done(s));
    assert (trace + [e])[|trace|] == e && (trace + [e])[..|trace|] == trace && (trace + [e])[a] == trace[a];
    assert s.mesh == p;
    WantersGrow(trace, e, a, id);
    FollowedLonger(p, p, trace, e, a, id);
    ProvidedLonger(p.routes[id], p.routes[id], trace, e, a, id);
    AwaitedLonger(p, p, trace, e, a, id);
  }

  // ---- Over whole runs

  lemma NewOpen(c: Contents, p: Mesh, call: Call, now: nat, trace: seq<Entry>, id: EventId)
    requires LockStep(c, p, now) && Current(p, now) && id !in p.seen && id !in p.cached
    requires call.Hear? && call.message.Inventory? && call.message.id == id && ValidId(id)
    requires AllowedKind(p.options, call.message.kind) && call.message.bytes <= p.options.maxEventBytes
    requires 0 < call.message.hops <= p.options.maxHops
    ensures var s := Acted(c, p, call, now);
            OpenRoute(s.mesh, trace + [Entry(call, now, Done(s))], |trace|, id)
  {
    hide LockStep, Current, Later, ValidId, AllowedKind, Remember, OthersMentioned, Wanters, Queues, After;
    var s := Acted(c, p, call, now);
    var longer := trace + [Entry(call, now, Done(s))];
    assert longer[|trace|] == Entry(call, now, Done(s));
    SeenQueue(c, p, now);
    QueueMembers(p.seenOrder, p.seen.Keys);
    RememberKeeps(c, p, id, now);
    var k := RememberForgets(c, p, id, now);
    LastFollowed(p.seenOrder[k..], id);
    NobodyWaits(c, Remember(p, id, now), id, now);
  }

  lemma LastFollowed(order: seq<EventId>, id: EventId)
    requires id !in order
    ensures forall x :: !After(order + [id], id, x)
  {
    assert forall i :: 0 <= i < |order| ==> (order + [id])[i] == order[i] && order[i] in order;
  }

  lemma NobodyWaits(c: Contents, m: Mesh, id: EventId, now: nat)
    requires LockStep(c, m, now) && id !in m.routes
    ensures id !in m.pending
  {
    hide ValidOptions, RoutesAgree, RoutesOk, CacheOk, SeenOk, DeliveredOk, Scheduled, SeenBefore, Sum;
  }

  lemma UndisturbedEarlier(trace: seq<Entry>, e: Entry, a: nat, id: EventId)
    requires a < |trace| && Undisturbed(trace + [e], a, id)
    ensures Undisturbed(trace, a, id)
  {
    hide RequestedSince;
    var longer := trace + [e];
    forall k | a < k < |trace| ensures !Disturbs(trace, a, k, id) {
      assert longer[k] == trace[k] && longer[..k] == trace[..k];
      assert !Disturbs(longer, a, k, id);
    }
  }

  lemma FewerMentioned(trace: seq<Entry>, e: Entry, a: nat, id: EventId)
    requires a < |trace|
    ensures |OthersMentioned(trace, a, id)| <= |OthersMentioned(trace + [e], a, id)|
  {
    hide OthersMentioned, Mentioned;
    OthersMentionedGrow(trace, e, a, id);
    SubsetSize(OthersMentioned(trace, a, id), OthersMentioned(trace + [e], a, id));
  }

  lemma {:induction false} FreshlyEarlier(c: Contents, o: Options, trace: seq<Entry>, e: Entry, a: nat, id: EventId)
    requires a < |trace| && FreshlyAnnounced(c, o, trace + [e], a, id)
    ensures FreshlyAnnounced(c, o, trace, a, id)
  {
    hide MayPut, Later, Hex64, Forgotten;
    assert (trace + [e])[a] == trace[a] && (trace + [e])[..a] == trace[..a];
    forall i | 0 <= i < a && MayPut(c, o, trace, i, id) ensures Later(trace[i].now, o.eventTtl) <= trace[a].now {
      MayPutLonger(c, o, trace, e, i, id);
      assert (trace + [e])[i] == trace[i];
    }
  }

  lemma {:induction false} RunOpen(c: Contents, o: Options, calls: seq<Timed>, a: nat, id: EventId)
    requires Timely(calls) && a < |calls| && FreshlyAnnounced(c, Clamped(o), RunOf(c, o, calls).trace, a, id)
    requires var trace := RunOf(c, o, calls).trace;
             Undisturbed(trace, a, id) && |OthersMentioned(trace, a, id)| < Clamped(o).maxSeen
    requires Clock(calls) < Later(RunOf(c, o, calls).trace[a].now, Clamped(o).routeTtl) || a == |calls| - 1
    ensures OpenRoute(RunOf(c, o, calls).mesh, RunOf(c, o, calls).trace, a, id)
    decreases |calls|
  {
    hide LockStep, Ready, Acted, Current, Clamped, OpenRoute, FreshlyAnnounced, Undisturbed, OthersMentioned, Later;
    var n := |calls| - 1;
    TraceAt(c, o, calls, n);
    if a < n {
      var before, e := RunOf(c, o, calls[..n]), RunOf(c, o, calls).trace[n];
      assert RunOf(c, o, calls).trace == before.trace + [e];
      assert before.trace[a] == RunOf(c, o, calls).trace[a];
      FreshlyEarlier(c, Clamped(o), before.trace, e, a, id);
      UndisturbedEarlier(before.trace, e, a, id);
      FewerMentioned(before.trace, e, a, id);
      FreshlyMeans(c, Clamped(o), before.trace, a, id);
      RunOpen(c, o, calls[..n], a, id);
      LaterOpen(c, o, calls, a, id);
    } else {
      FirstOpen(c, o, calls, id);
    }
  }

  lemma FreshlyMeans(c: Contents, o: Options, trace: seq<Entry>, a: nat, id: EventId)
    requires FreshlyAnnounced(c, o, trace, a, id)
    ensures a < |trace| && trace[a].call.Hear? && trace[a].call.message.Inventory? && trace[a].call.message.id == id && ValidId(id)
    ensures AllowedKind(o, trace[a].call.message.kind) && trace[a].call.message.bytes <= o.maxEventBytes
    ensures 0 < trace[a].call.message.hops <= o.maxHops
  {
    hide MayPut, Later, Hex64, Forgotten, ValidId;
    HexValid(id);
  }

  lemma LaterOpen(c: Contents, o: Options, calls: seq<Timed>, a: nat, id: EventId)
    requires Timely(calls) && a < |calls| - 1 && FreshlyAnnounced(c, Clamped(o), RunOf(c, o, calls[..|calls| - 1]).trace, a, id)
    requires |RunOf(c, o, calls).trace| == |calls|
    requires var trace := RunOf(c, o, calls).trace;
             Undisturbed(trace, a, id) && |OthersMentioned(trace, a, id)| < Clamped(o).maxSeen
    requires Clock(calls) < Later(RunOf(c, o, calls[..|calls| - 1]).trace[a].now, Clamped(o).routeTtl)
    requires a < |RunOf(c, o, calls[..|calls| - 1]).trace| && var e := RunOf(c, o, calls[..|calls| - 1]).trace[a]; e.call.Hear? && e.call.message.Inventory?
    requires OpenRoute(RunOf(c, o, calls[..|calls| - 1]).mesh, RunOf(c, o, calls[..|calls| - 1]).trace, a, id)
    ensures a < |RunOf(c, o, calls).trace| && var e := RunOf(c, o, calls).trace[a]; e.call.Hear? && e.call.message.Inventory?
    ensures OpenRoute(RunOf(c, o, calls).mesh, RunOf(c, o, calls).trace, a, id)
  {
    hide LockStep, Ready, Acted, Current, Clamped, OpenRoute, FreshlyAnnounced, Undisturbed, OthersMentioned, Later, ValidId;
    var n := |calls| - 1;
    var before, p := RunOf(c, o, calls[..n]), Before(c, o, calls);
    FreshlyMeans(c, Clamped(o), before.trace, a, id);
    BeforeReady(c, o, calls);
    RunLocked(c, o, calls[..n]);
    assert before.trace[a].now == calls[..n][a].now == calls[a].now;
    ReadyOpen(c, before.mesh, calls[n].call, before.trace, a, id, Clock(calls[..n]), calls[n].now);
    StepOpen(c, p, calls[n].call, calls[n].now, before.trace, a, id);
    assert RunOf(c, o, calls).trace[a] == before.trace[a];
  }

  lemma FirstOpen(c: Contents, o: Options, calls: seq<Timed>, id: EventId)
    requires Timely(calls) && calls != [] && FreshlyAnnounced(c, Clamped(o), RunOf(c, o, calls).trace, |calls| - 1, id)
    ensures |RunOf(c, o, calls).trace| == |calls|
    ensures var e := RunOf(c, o, calls).trace[|calls| - 1]; e.call.Hear? && e.call.message.Inventory?
    ensures OpenRoute(RunOf(c, o, calls).mesh, RunOf(c, o, calls).trace, |calls| - 1, id)
  {
    hide LockStep, Ready, Acted, Current, Clamped, OpenRoute, FreshlyAnnounced, Later, ValidId;
    var n := |calls| - 1;
    assert calls[..n + 1] == calls;
    FreshState(c, o, calls, n, id);
    FreshlyMeans(c, Clamped(o), RunOf(c, o, calls).trace, n, id);
    TraceLength(c, o, calls[..n]);
    NewOpen(c, Before(c, o, calls), calls[n].call, calls[n].now, RunOf(c, o, calls[..n]).trace, id);
  }

  // ---- What comes of a frame that arrives in time

  lemma FrameAccepted(c: Contents, p: Mesh, source: Peer, id: EventId, event: Event, waiting: seq<Peer>, selected: seq<Peer>, now: nat)
    requires Requested(c, p, source, id, event) && !p.routes[id].fulfilled
    ensures Done(ReceiveFrame(c, p, source, id, event, waiting, selected, now))
         == (if id !in p.delivered then [Deliver(source, event)] else [])
            + Announce(if id in p.pending then waiting else [], Frame(id, event))
            + if p.routes[id].hops > 1
              then Announce(selected, Inventory(id, c.kind(id), c.bytes(id), p.routes[id].hops - 1)) else []
  {
    hide Store, NoteDelivered, ValidId, Admissible, Announce;
    StoreElsewhere(c, p, event, now);
    var stored := Store(c, p, event, now);
    var served := stored.(routes := stored.routes[id := p.routes[id].(fulfilled := true, disrupted := {})]);
    if id !in served.delivered { NoteElsewhere(served, id, now); }
  }

  lemma AnnouncedTo(peers: seq<Peer>, message: Message, peer: Peer)
    requires peer in peers
    ensures Send(peer, message) in Announce(peers, message)
  {
    var i :| 0 <= i < |peers| && peers[i] == peer;
    assert Announce(peers, message)[i] == Send(peer, message);
  }

  lemma {:induction false} FreshlyPrefix(c: Contents, o: Options, trace: seq<Entry>, n: nat, a: nat, id: EventId)
    requires a < n <= |trace| && FreshlyAnnounced(c, o, trace, a, id)
    ensures FreshlyAnnounced(c, o, trace[..n], a, id)
    decreases |trace|
  {
    hide FreshlyAnnounced;
    if n < |trace| {
      var last := |trace| - 1;
      assert trace == trace[..last] + [trace[last]];
      FreshlyEarlier(c, o, trace[..last], trace[last], a, id);
      FreshlyPrefix(c, o, trace[..last], n, a, id);
      assert trace[..last][..n] == trace[..n];
    } else {
      assert trace[..n] == trace;
    }
  }

  /** The frame of call f comes while the route that the announcement at a has opened is open. */
  ghost predicate InTime(c: Contents, o: Options, calls: seq<Timed>, a: nat, f: nat, id: EventId)
  {
    && a < f < |calls| && |RunOf(c, o, calls).trace| == |calls|
    && calls[a].call.Hear? && calls[a].call.message.Inventory? && calls[f].call.Hear?
    && var trace := RunOf(c, o, calls).trace;
    && FreshlyAnnounced(c, Clamped(o), trace, a, id)
    && Undisturbed(trace[..f], a, id)
    && |OthersMentioned(trace[..f], a, id)| < Clamped(o).maxSeen
    && calls[f].now < Later(calls[a].now, Clamped(o).routeTtl)
  }

  /** It is genuine, as announced, and from a peer that was asked for it. */
  ghost predicate Genuine(c: Contents, o: Options, calls: seq<Timed>, a: nat, f: nat, id: EventId)
    requires InTime(c, o, calls, a, f, id)
  {
    && calls[f].call.message == Frame(id, Event(id, true))
    && calls[a].call.message.kind == c.kind(id) && calls[a].call.message.bytes == c.bytes(id)
    && RequestedSince(RunOf(c, o, calls).trace[..f], a, calls[f].call.source, id)
  }

  lemma OpenAt(c: Contents, o: Options, calls: seq<Timed>, a: nat, f: nat, id: EventId)
    requires Timely(calls) && InTime(c, o, calls, a, f, id)
    ensures var trace := RunOf(c, o, calls).trace[..f];
            && trace[a].call == calls[a].call && trace[a].now == calls[a].now
            && OpenRoute(Before(c, o, calls[..f + 1]), trace, a, id)
    ensures LockStep(c, Before(c, o, calls[..f + 1]), calls[f].now) && Before(c, o, calls[..f + 1]).options == Clamped(o)
    ensures Current(Before(c, o, calls[..f + 1]), calls[f].now)
    ensures ValidId(id)
  {
    hide LockStep, Ready, Acted, Current, Clamped, OpenRoute, FreshlyAnnounced, Undisturbed, OthersMentioned, Later, ValidId, RunOf;
    var upTo, trace := calls[..f + 1], RunOf(c, o, calls).trace;
    assert upTo[..f] == calls[..f] && upTo[f] == calls[f];
    TraceAt(c, o, calls, f);
    TraceAt(c, o, calls, a);
    BeforeReady(c, o, upTo);
    FreshlyPrefix(c, Clamped(o), trace, f, a, id);
    FreshlyMeans(c, Clamped(o), trace[..f], a, id);
    OpenUntil(c, o, calls, a, f, id);
    ReadyOpen(c, RunOf(c, o, calls[..f]).mesh, calls[f].call, trace[..f], a, id, Clock(calls[..f]), calls[f].now);
  }

  lemma OpenUntil(c: Contents, o: Options, calls: seq<Timed>, a: nat, f: nat, id: EventId)
    requires Timely(calls) && InTime(c, o, calls, a, f, id)
    requires RunOf(c, o, calls[..f]).trace == RunOf(c, o, calls).trace[..f]
    requires RunOf(c, o, calls).trace[a].call == calls[a].call && RunOf(c, o, calls).trace[a].now == calls[a].now
    requires FreshlyAnnounced(c, Clamped(o), RunOf(c, o, calls).trace[..f], a, id)
    ensures OpenRoute(RunOf(c, o, calls[..f]).mesh, RunOf(c, o, calls).trace[..f], a, id)
    ensures RunOf(c, o, calls[..f]).mesh.options == Clamped(o)
  {
    hide LockStep, Ready, Acted, Current, Clamped, OpenRoute, FreshlyAnnounced, Undisturbed, OthersMentioned, Later, RunOf;
    assert calls[..f][a] == calls[a] && Clock(calls[..f]) <= calls[f].now;
    RunOpen(c, o, calls[..f], a, id);
    RunLocked(c, o, calls[..f]);
  }

  /** Such a frame meets every check. */
  lemma FrameRequested(c: Contents, o: Options, calls: seq<Timed>, a: nat, f: nat, id: EventId)
    requires Timely(calls) && InTime(c, o, calls, a, f, id) && Genuine(c, o, calls, a, f, id)
    ensures var p := Before(c, o, calls[..f + 1]);
            && id in p.routes && Requested(c, p, calls[f].call.source, id, Event(id, true)) && !p.routes[id].fulfilled
            && p.routes[id].hops >= calls[a].call.message.hops
            && Waiting(p, RunOf(c, o, calls).trace[..f], a, id)
  {
    hide LockStep, Ready, Acted, Current, Clamped, Undisturbed, OthersMentioned, Later, ValidId, FreshlyAnnounced, RunOf, Before,
         Followed, Waiting, RequestedSince;
    OpenAt(c, o, calls, a, f, id);
    var p, trace := Before(c, o, calls[..f + 1]), RunOf(c, o, calls).trace;
    RouteIsOk(c, p, id, calls[f].now);
    FreshlyMeans(c, Clamped(o), trace, a, id);
    TraceAt(c, o, calls, a);
    assert p.routes[id].ProvidedBy(calls[f].call.source);
  }

  /** A genuine frame that was asked for and comes in time is delivered, unless its event was delivered before, and if it
      may go further every selected peer is told of it, with at most one hop less than it was announced with. */
  lemma FetchedIsDelivered(c: Contents, o: Options, calls: seq<Timed>, a: nat, f: nat, id: EventId)
    requires Timely(calls) && InTime(c, o, calls, a, f, id) && Genuine(c, o, calls, a, f, id)
    ensures var entry := RunOf(c, o, calls).trace[f];
            Deliver(calls[f].call.source, Event(id, true)) in entry.actions || WasDelivered(RunOf(c, o, calls).trace[..f], id)
    ensures calls[a].call.message.hops > 1 ==>
              exists h :: h + 1 >= calls[a].call.message.hops && forall q :: q in calls[f].call.selected ==>
                Send(q, Inventory(id, c.kind(id), c.bytes(id), h)) in RunOf(c, o, calls).trace[f].actions
  {
    hide LockStep, Ready, Current, Clamped, Later, ValidId, InTime, Genuine, RunOf, Before, Waiting, Requested, WasDelivered, Announce,
         ReceiveFrame;
    FrameNow(c, o, calls, a, f, id);
    var p, call, entry := Before(c, o, calls[..f + 1]), calls[f].call, RunOf(c, o, calls).trace[f];
    FrameRequested(c, o, calls, a, f, id);
    FrameAccepted(c, p, call.source, id, Event(id, true), call.waiting, call.selected, calls[f].now);
    assert calls[..f + 1][..f] == calls[..f];
    TraceAt(c, o, calls, f);
    RunCached(c, o, calls[..f + 1]);
    var h := p.routes[id].hops - 1;
    forall q | q in call.selected && p.routes[id].hops > 1
      ensures Send(q, Inventory(id, c.kind(id), c.bytes(id), h)) in entry.actions
    {
      AnnouncedTo(call.selected, Inventory(id, c.kind(id), c.bytes(id), h), q);
    }
  }

  lemma FrameNow(c: Contents, o: Options, calls: seq<Timed>, a: nat, f: nat, id: EventId)
    requires InTime(c, o, calls, a, f, id) && Genuine(c, o, calls, a, f, id)
    ensures a < f < |calls| && |RunOf(c, o, calls).trace| == |calls|
    ensures calls[f].call.Hear? && calls[f].call.message == Frame(id, Event(id, true))
    ensures calls[a].call.Hear? && calls[a].call.message.Inventory?
    ensures RunOf(c, o, calls).trace[f].actions
         == Done(ReceiveFrame(c, Before(c, o, calls[..f + 1]), calls[f].call.source, id, Event(id, true), calls[f].call.waiting,
                              calls[f].call.selected, calls[f].now))
  {
    hide RunOf, Before, ReceiveFrame, FreshlyAnnounced, Undisturbed, OthersMentioned, Later, Clamped, RequestedSince;
    TraceAt(c, o, calls, f);
  }

  /** Whoever wanted the event while it was being fetched, when fewer than may wait had wanted it, is sent it: at once,
      or as soon as such a frame comes. */
  lemma WaitingAreServed(c: Contents, o: Options, calls: seq<Timed>, a: nat, w: nat, f: nat, peer: Peer, id: EventId)
    requires Timely(calls) && InTime(c, o, calls, a, f, id) && Genuine(c, o, calls, a, f, id)
    requires a < w < f && calls[w].call.Hear? && calls[w].call.source == peer && calls[w].call.message == Want(id)
    requires |Wanters(RunOf(c, o, calls).trace[..w], a, id)| < Clamped(o).maxPending
    requires Fair(c, Before(c, o, calls[..f + 1]), calls[f].call.source, calls[f].call.message, calls[f].call.waiting)
    ensures SentFrame(RunOf(c, o, calls).trace[w], peer, id)
            || Send(peer, Frame(id, Event(id, true))) in RunOf(c, o, calls).trace[f].actions
  {
    hide LockStep, Ready, Current, Clamped, Later, ValidId, InTime, Genuine, RunOf, Before, Requested, Announce,
         ReceiveFrame, SentFrame, Wanters;
    FrameNow(c, o, calls, a, f, id);
    var p, call, trace := Before(c, o, calls[..f + 1]), calls[f].call, RunOf(c, o, calls).trace;
    FrameRequested(c, o, calls, a, f, id);
    OpenAt(c, o, calls, a, f, id);
    FrameAccepted(c, p, call.source, id, Event(id, true), call.waiting, call.selected, calls[f].now);
    TraceAt(c, o, calls, w);
    assert trace[..f][w] == trace[w] && trace[..f][..w] == trace[..w];
    assert WantedAt(trace[..f][w], peer, id);
    assert SentFrame(trace[w], peer, id) || Waits(p, id, peer);
    if Waits(p, id, peer) {
      assert peer in call.waiting;
      AnnouncedTo(call.waiting, Frame(id, Event(id, true)), peer);
    }
  }
}
