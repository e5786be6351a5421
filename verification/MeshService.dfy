/** What a node does for its peers: it asks for what is newly announced, tells of what it publishes, and passes what it
    receives on to everyone who waited for it. */
module MeshService {
  import opened Wrappers
  import opened Sets
  import opened Sums
  import opened MeshState
  import opened MeshInvariant
  import opened MeshSteps
  import opened MeshTraces
  import opened MeshCache

  /** The event an entry announces to the node, or the node to others as its own. */
  function Mentioned(call: Call): Option<EventId> {
    match call
    case Hear(_, message, _, _) => if message.Inventory? then Some(message.id) else None
    case Originate(event, _) => Some(event.id)
    case _ => None
  }

  // ---- What was announced is remembered for the time of a route

  ghost predicate MentionedAt(o: Options, trace: seq<Entry>, id: EventId, expires: nat) {
    exists i :: 0 <= i < |trace| && Mentioned(trace[i].call) == Some(id) && expires == Later(trace[i].now, o.routeTtl)
  }

  ghost predicate SeenMentioned(m: Mesh, trace: seq<Entry>) {
    forall id :: id in m.seen ==> MentionedAt(m.options, trace, id, m.seen[id])
  }

  ghost predicate SeenStep(p: Mesh, r: Mesh, call: Call, now: nat) {
    && r.options == p.options
    && forall id :: id in r.seen ==>
         || (id in p.seen && r.seen[id] == p.seen[id])
         || (Mentioned(call) == Some(id) && r.seen[id] == Later(now, p.options.routeTtl))
  }

  lemma ActedSeen(c: Contents, p: Mesh, call: Call, now: nat)
    requires LockStep(c, p, now) && (Maintains(call) ==> Current(p, now))
    ensures SeenStep(p, Acted(c, p, call, now).mesh, call, now)
  {
    hide LockStep, Current, Store, Remember, Requested, Admissible, ReceiveInventory, ReceiveFrame, Later, SeenStep;
    SeenStays(p, p, call, now);
    match call
    case Hear(source, message, waiting, selected) =>
      match message {
        case Inventory(id, kind, bytes, hops) => InventorySeen(c, p, call, now);
        case Want(id) => SeenStays(p, ReceiveWant(p, source, id, now).mesh, call, now);
        case Frame(id, event) => FrameSeen(c, p, call, now);
      }
    case Originate(event, selected) => PublishSeen(c, p, event, selected, now);
    case Replays(event, peer) =>
      StoreElsewhere(c, p, event, now);
      SeenStays(p, Replay(c, p, event, peer, now).mesh, call, now);
    case ReplaysCached(peer) =>
    case Seed(event) =>
      StoreElsewhere(c, p, event, now);
      SeenStays(p, Store(c, p, event, now), call, now);
    case Maintenance =>
    case Dismissal(peer, id) => SeenStays(p, Dismiss(p, peer, id), call, now);
    case Disruption(peer, id) => SeenStays(p, Disrupt(p, peer, id), call, now);
  }

  lemma SeenStays(p: Mesh, r: Mesh, call: Call, now: nat)
    requires r.options == p.options && r.seen == p.seen
    ensures SeenStep(p, r, call, now)
  {}

  lemma RememberSeen(c: Contents, m: Mesh, id: EventId, now: nat)
    requires LockStep(c, m, now) && id !in m.seen
    ensures var r := Remember(m, id, now);
            && r.options == m.options && id in r.seen && r.seen[id] == Later(now, m.options.routeTtl)
            && forall x :: x in r.seen && x != id ==> x in m.seen && r.seen[x] == m.seen[x]
  {
    hide LockStep, ForgetSeen, Later, Tracked;
    ForgetSeenKeeps(c, m, now);
  }

  lemma InventorySeen(c: Contents, p: Mesh, call: Call, now: nat)
    requires LockStep(c, p, now) && Current(p, now) && call.Hear? && call.message.Inventory?
    ensures SeenStep(p, Acted(c, p, call, now).mesh, call, now)
  {
    hide LockStep, Remember, Later, ValidId, AllowedKind;
    if Fresh(p, call.message.id, now) && call.message.id !in p.cached {
      FreshUnseen(c, p, call.message.id, now);
      RememberSeen(c, p, call.message.id, now);
    }
  }

  lemma PublishSeen(c: Contents, p: Mesh, event: Event, selected: seq<Peer>, now: nat)
    requires LockStep(c, p, now) && Current(p, now)
    ensures SeenStep(p, Publish(c, p, event, selected, now).mesh, Originate(event, selected), now)
  {
    hide LockStep, Store, Remember, Later;
    if event.signed && Admissible(c, p.options, event.id) {
      StoreKeeps(c, p, event, now);
      var stored := Store(c, p, event, now);
      if Fresh(stored, event.id, now) { RememberSeen(c, stored, event.id, now); }
    }
  }

  lemma FrameSeen(c: Contents, p: Mesh, call: Call, now: nat)
    requires call.Hear? && call.message.Frame?
    ensures SeenStep(p, Acted(c, p, call, now).mesh, call, now)
  {
    hide Store, NoteDelivered, ValidId, Admissible, Later;
    var id, event := call.message.id, call.message.event;
    if Requested(c, p, call.source, id, event) && !p.routes[id].fulfilled {
      StoreElsewhere(c, p, event, now);
      var stored := Store(c, p, event, now);
      var served := stored.(routes := stored.routes[id := p.routes[id].(fulfilled := true, disrupted := {})]);
      if id !in served.delivered { NoteElsewhere(served, id, now); }
    }
  }

  lemma MentionedLonger(o: Options, trace: seq<Entry>, e: Entry, id: EventId, expires: nat)
    ensures MentionedAt(o, trace, id, expires) ==> MentionedAt(o, trace + [e], id, expires)
    ensures Mentioned(e.call) == Some(id) && expires == Later(e.now, o.routeTtl) ==> MentionedAt(o, trace + [e], id, expires)
  {
    hide Later;
    var longer := trace + [e];
    assert longer[|trace|] == e;
    if MentionedAt(o, trace, id, expires) {
      var i :| 0 <= i < |trace| && Mentioned(trace[i].call) == Some(id) && expires == Later(trace[i].now, o.routeTtl);
      assert longer[i] == trace[i];
    }
  }

  lemma SeenLonger(p: Mesh, r: Mesh, call: Call, now: nat, trace: seq<Entry>, actions: seq<Action>)
    requires SeenMentioned(p, trace) && SeenStep(p, r, call, now)
    ensures SeenMentioned(r, trace + [Entry(call, now, actions)])
  {
    hide MentionedAt, Later;
    forall id | id in r.seen ensures MentionedAt(r.options, trace + [Entry(call, now, actions)], id, r.seen[id]) {
      MentionedLonger(p.options, trace, Entry(call, now, actions), id, r.seen[id]);
    }
  }

  lemma {:induction false} RunSeen(c: Contents, o: Options, calls: seq<Timed>)
    requires Timely(calls)
    ensures SeenMentioned(RunOf(c, o, calls).mesh, RunOf(c, o, calls).trace)
    ensures calls != [] ==> SeenMentioned(Before(c, o, calls), RunOf(c, o, calls[..|calls| - 1]).trace)
  {
    hide LockStep, Ready, Acted, Current, Clamped, MentionedAt, SeenStep;
    if calls != [] {
      var n := |calls| - 1;
      RunSeen(c, o, calls[..n]);
      BeforeReady(c, o, calls);
      ReadySeen(RunOf(c, o, calls[..n]).mesh, calls[n].call, calls[n].now);
      var p, s := Before(c, o, calls), Acted(c, Before(c, o, calls), calls[n].call, calls[n].now);
      ActedSeen(c, p, calls[n].call, calls[n].now);
      SeenLonger(p, s.mesh, calls[n].call, calls[n].now, RunOf(c, o, calls[..n]).trace, Done(s));
    }
  }

  lemma ReadySeen(m: Mesh, call: Call, now: nat)
    ensures var p := Ready(m, call, now);
            && p.options == m.options
            && (forall id :: id in p.seen ==> id in m.seen && p.seen[id] == m.seen[id])
            && (p.seenOrder == m.seenOrder || p.seenOrder == Kept(m.seenOrder, p.seen.Keys))
  {
    hide Kept, Sum, Least, Expiries, LiveCache, LiveRoutes, LivePending, LiveWants;
  }

  /** Options that make sense are used as they are. */
  lemma SensibleOptions(o: Options)
    requires o.fanout > 0 && o.unknownReserve <= o.fanout && o.maxHops > 0 && o.maxEventBytes > 0 && o.maxCachedEvents > 0
    requires o.maxCachedBytes >= o.maxEventBytes && o.maxSeen > 0 && o.maxPending > 0 && 0 < o.routeTtl <= o.eventTtl
    ensures Clamped(o) == o
  {}

  // ---- A fresh announcement is asked for

  /** An announcement of an allowed event that was neither announced nor stored lately. */
  ghost predicate FreshlyAnnounced(c: Contents, o: Options, trace: seq<Entry>, a: nat, id: EventId) {
    && a < |trace| && trace[a].call.Hear? && trace[a].call.message.Inventory? && trace[a].call.message.id == id && Hex64(id)
    && (o.allowedKinds.Some? ==> trace[a].call.message.kind in o.allowedKinds.value)
    && trace[a].call.message.bytes <= o.maxEventBytes && 0 < trace[a].call.message.hops <= o.maxHops
    && Forgotten(o, trace[..a], id, trace[a].now)
    && forall i :: 0 <= i < a && MayPut(c, o, trace, i, id) ==> Later(trace[i].now, o.eventTtl) <= trace[a].now
  }

  /** Not announced within the time of a route. */
  ghost predicate Forgotten(o: Options, trace: seq<Entry>, id: EventId, now: nat) {
    forall i :: 0 <= i < |trace| && Mentioned(trace[i].call) == Some(id) ==> Later(trace[i].now, o.routeTtl) <= now
  }

  lemma ForgottenUnseen(m: Mesh, trace: seq<Entry>, id: EventId, now: nat)
    requires SeenMentioned(m, trace) && Forgotten(m.options, trace, id, now)
    ensures Fresh(m, id, now) && (Current(m, now) ==> id !in m.seen)
  {
    hide Later;
    if id in m.seen { assert MentionedAt(m.options, trace, id, m.seen[id]); }
  }

  lemma LapsedPut(c: Contents, o: Options, trace: seq<Entry>, id: EventId, expires: nat, now: nat)
    requires PutAt(c, o, trace, id, expires)
    requires forall i :: 0 <= i < |trace| && MayPut(c, o, trace, i, id) ==> Later(trace[i].now, o.eventTtl) <= now
    ensures expires <= now
  {
    hide MayPut, Later;
  }

  lemma Uncached(c: Contents, p: Mesh, trace: seq<Entry>, id: EventId, now: nat)
    requires CachedPut(c, p, trace) && Current(p, now)
    requires forall i :: 0 <= i < |trace| && MayPut(c, p.options, trace, i, id) ==> Later(trace[i].now, p.options.eventTtl) <= now
    ensures id !in p.cached
  {
    hide MayPut, Later;
    if id in p.cached { LapsedPut(c, p.options, trace, id, p.cached[id].expires, now); }
  }

  lemma MayPutPrefix(c: Contents, o: Options, trace: seq<Entry>, n: nat, k: nat, id: EventId)
    requires k < n <= |trace|
    ensures MayPut(c, o, trace[..n], k, id) <==> MayPut(c, o, trace, k, id)
  {
    hide Delivered, Permitted;
    assert trace[..n][k] == trace[k] && trace[..n][..k] == trace[..k];
  }

  /** The state in which a fresh announcement is heard. */
  lemma FreshState(c: Contents, o: Options, calls: seq<Timed>, a: nat, id: EventId)
    requires Timely(calls) && a < |calls| && FreshlyAnnounced(c, Clamped(o), RunOf(c, o, calls).trace, a, id)
    ensures |RunOf(c, o, calls).trace| == |calls|
    ensures RunOf(c, o, calls).trace[a].call == calls[a].call && RunOf(c, o, calls).trace[a].now == calls[a].now
    ensures var p := Before(c, o, calls[..a + 1]);
            && LockStep(c, p, calls[a].now) && Current(p, calls[a].now) && p.options == Clamped(o)
            && id !in p.seen && id !in p.cached
  {
    hide LockStep, Ready, Acted, Current, Clamped, MayPut, Later, SeenMentioned, Hex64, RunOf, CachedPut, Before;
    var upTo, trace := calls[..a + 1], RunOf(c, o, calls).trace;
    assert upTo[..a] == calls[..a] && upTo[a] == calls[a];
    TraceAt(c, o, calls, a);
    RunSeen(c, o, upTo);
    RunCached(c, o, upTo);
    BeforeReady(c, o, upTo);
    var p := Before(c, o, upTo);
    ForgottenUnseen(p, trace[..a], id, calls[a].now);
    forall i | 0 <= i < a && MayPut(c, p.options, trace[..a], i, id) ensures Later(trace[..a][i].now, p.options.eventTtl) <= calls[a].now {
      MayPutPrefix(c, p.options, trace, a, i, id);
    }
    Uncached(c, p, trace[..a], id, calls[a].now);
  }

  /** Whoever freshly announces an allowed event is asked for it, and nothing else is done. */
  lemma AnnouncedIsAsked(c: Contents, o: Options, calls: seq<Timed>, a: nat, id: EventId)
    requires Timely(calls) && a < |calls| && FreshlyAnnounced(c, Clamped(o), RunOf(c, o, calls).trace, a, id)
    ensures |RunOf(c, o, calls).trace| == |calls| && calls[a].call.Hear?
    ensures RunOf(c, o, calls).trace[a].actions == [Send(calls[a].call.source, Want(id))]
  {
    hide LockStep, Ready, Current, Clamped, MayPut, Later, RunOf, Before, Remember, Hex64, Forgotten;
    FreshState(c, o, calls, a, id);
    TraceAt(c, o, calls, a);
    HexValid(id);
  }

  /** Publishing a genuine allowed event that was not announced lately tells every selected peer of it, with all hops. */
  lemma PublishedIsAnnounced(c: Contents, o: Options, calls: seq<Timed>, n: nat)
    requires Timely(calls) && n < |calls| && calls[n].call.Originate? && calls[n].call.event.signed
    requires |RunOf(c, o, calls).trace| == |calls|
    requires Permitted(c, Clamped(o), calls[n].call.event.id)
    requires Forgotten(Clamped(o), RunOf(c, o, calls).trace[..n], calls[n].call.event.id, calls[n].now)
    ensures var id, actions := calls[n].call.event.id, RunOf(c, o, calls).trace[n].actions;
            && |actions| == |calls[n].call.selected|
            && forall i :: 0 <= i < |actions| ==>
                 actions[i] == Send(calls[n].call.selected[i], Inventory(id, c.kind(id), c.bytes(id), Clamped(o).maxHops))
  {
    hide LockStep, Ready, Current, Clamped, Later, RunOf, Before, Remember, Store, Forgotten, SeenMentioned;
    var upTo, event := calls[..n + 1], calls[n].call.event;
    assert upTo[..n] == calls[..n] && upTo[n] == calls[n];
    TraceAt(c, o, calls, n);
    RunSeen(c, o, upTo);
    BeforeReady(c, o, upTo);
    var p := Before(c, o, upTo);
    ForgottenUnseen(p, RunOf(c, o, calls).trace[..n], event.id, calls[n].now);
    StoreElsewhere(c, p, event, calls[n].now);
  }

  /** Replaying one announces it to its peer whatever was announced before. */
  lemma ReplayedIsAnnounced(c: Contents, o: Options, calls: seq<Timed>, n: nat)
    requires Timely(calls) && n < |calls| && calls[n].call.Replays? && calls[n].call.event.signed
    requires Permitted(c, Clamped(o), calls[n].call.event.id)
    ensures |RunOf(c, o, calls).trace| == |calls|
    ensures var id := calls[n].call.event.id;
            RunOf(c, o, calls).trace[n].actions
            == [Send(calls[n].call.peer, Inventory(id, c.kind(id), c.bytes(id), Clamped(o).maxHops))]
  {
    hide LockStep, Ready, Current, Clamped, RunOf, Before, Store;
    assert calls[..n + 1][n] == calls[n];
    TraceAt(c, o, calls, n);
    BeforeReady(c, o, calls[..n + 1]);
  }
}
