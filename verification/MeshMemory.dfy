/** What a node remembers of announcements: an event published or asked for lately is not announced again. */
module MeshMemory {
  import opened Wrappers
  import opened Sets
  import opened Sums
  import opened MeshState
  import opened MeshInvariant
  import opened MeshSteps
  import opened MeshTraces
  import opened MeshCache
  import opened MeshService
  import opened MeshWaiting

  // ---- One call

  /** The order of what is remembered stays, or the k longest known make room for what the call is about. */
  ghost predicate OrderStep(p: Mesh, r: Mesh, call: Call) {
    || r.seenOrder == p.seenOrder
    || (Mentioned(call).Some? && exists k: nat :: Replacing(p, r, k, Mentioned(call).value))
  }

  ghost predicate Replacing(p: Mesh, r: Mesh, k: nat, x: EventId) {
    && k <= |p.seenOrder| && r.seenOrder == p.seenOrder[k..] + [x] && x !in p.seenOrder
    && (k > 0 ==> |p.seenOrder| - k + 1 >= p.options.maxSeen)
  }

  lemma ActedOrder(c: Contents, p: Mesh, call: Call, now: nat)
    requires LockStep(c, p, now) && (Maintains(call) ==> Current(p, now))
    ensures OrderStep(p, Acted(c, p, call, now).mesh, call)
  {
    hide LockStep, Current, Store, Remember, Requested, Admissible, ReceiveInventory, ReceiveWant, ReceiveFrame, Publish, Later;
    match call
    case Hear(source, message, waiting, selected) =>
      match message {
        case Inventory(id, kind, bytes, hops) => InventoryOrder(c, p, call, now);
        case Want(id) => WantOrder(p, source, id, now);
        case Frame(id, event) => FrameOrder(c, p, call, now);
      }
    case Originate(event, selected) => PublishOrder(c, p, event, selected, now);
    case Replays(event, peer) => StoreElsewhere(c, p, event, now);
    case ReplaysCached(peer) =>
    case Seed(event) => StoreElsewhere(c, p, event, now);
    case Maintenance =>
    case Dismissal(peer, id) =>
    case Disruption(peer, id) =>
  }

  lemma RememberOrder(c: Contents, m: Mesh, x: EventId, now: nat) returns (k: nat)
    requires LockStep(c, m, now) && x !in m.seen
    ensures Replacing(m, Remember(m, x, now), k, x)
  {
    hide LockStep, Remember, SameWait;
    k := RememberForgets(c, m, x, now);
  }

  lemma InventoryOrder(c: Contents, p: Mesh, call: Call, now: nat)
    requires LockStep(c, p, now) && Current(p, now) && call.Hear? && call.message.Inventory?
    ensures OrderStep(p, Acted(c, p, call, now).mesh, call)
  {
    hide LockStep, Current, Remember, RetryInventory, ReceiveInventory;
    var m, r := call.message, Acted(c, p, call, now).mesh;
    InventoryOutcome(p, call.source, m, now);
    RetryOrder(p, call.source, m.id, m.kind, m.bytes, m.hops, now);
    if r != p && Fresh(p, m.id, now) {
      FreshUnseen(c, p, m.id, now);
      var k := RememberOrder(c, p, m.id, now);
      assert Replacing(p, r, k, m.id);
    }
  }

  lemma RetryOrder(p: Mesh, source: Peer, id: EventId, kind: nat, bytes: nat, hops: nat, now: nat)
    ensures RetryInventory(p, source, id, kind, bytes, hops, now).mesh.seenOrder == p.seenOrder
  {
    hide Later;
  }

  lemma WantOrder(p: Mesh, source: Peer, id: EventId, now: nat)
    ensures ReceiveWant(p, source, id, now).mesh.seenOrder == p.seenOrder
  {
    hide Later, ValidId;
  }

  lemma FrameOrder(c: Contents, p: Mesh, call: Call, now: nat)
    requires call.Hear? && call.message.Frame?
    ensures Acted(c, p, call, now).mesh.seenOrder == p.seenOrder
  {
    hide Store, NoteDelivered, ValidId, Admissible, Later;
    var id, event := call.message.id, call.message.event;
    if Requested(c, p, call.source, id, event) && !p.routes[id].fulfilled {
      StoreElsewhere(c, p, event, now);
      var stored := Store(c, p, event, now);
      var served := stored.(routes := stored.routes[id := p.routes[id].(fulfilled := true, disrupted := {})]);
      if id !in served.delivered { NoteElsewhere(served, id, now); }
    }
  }

  lemma PublishOrder(c: Contents, p: Mesh, event: Event, selected: seq<Peer>, now: nat)
    requires LockStep(c, p, now) && Current(p, now)
    ensures OrderStep(p, Publish(c, p, event, selected, now).mesh, Originate(event, selected))
  {
    hide LockStep, Store, Remember, Admissible, Publish, Replacing;
    StoreElsewhere(c, p, event, now);
    PublishLeaves(c, p, event, selected, now);
    if event.signed && Admissible(c, p.options, event.id) && Fresh(Store(c, p, event, now), event.id, now) {
      PublishedOrder(c, p, event, now);
    }
  }

  lemma PublishedOrder(c: Contents, p: Mesh, event: Event, now: nat)
    requires LockStep(c, p, now) && Current(p, now) && Admissible(c, p.options, event.id)
    requires Fresh(Store(c, p, event, now), event.id, now)
    ensures exists k: nat :: Replacing(p, Remember(Store(c, p, event, now), event.id, now), k, event.id)
  {
    hide LockStep, Store, Remember, Admissible;
    var stored := Store(c, p, event, now);
    StoreElsewhere(c, p, event, now);
    StoreKeeps(c, p, event, now);
    FreshUnseen(c, p, event.id, now);
    var k := RememberOrder(c, stored, event.id, now);
    assert Replacing(p, Remember(stored, event.id, now), k, event.id);
  }

  // ---- Whole runs

  /** Entry i made the node know the event: its time is over, many others came since, or it is still known. */
  ghost predicate StillKnown(m: Mesh, trace: seq<Entry>, i: nat, id: EventId, now: nat)
    requires i < |trace|
  {
    Later(trace[i].now, m.options.routeTtl) > now && |OthersMentioned(trace, i, id)| < m.options.maxSeen ==>
      id in m.seen && m.seen[id] >= Later(trace[i].now, m.options.routeTtl) && Followed(m, trace, i, id)
  }

  lemma ReadyKnown(m: Mesh, call: Call, trace: seq<Entry>, i: nat, id: EventId, clock: nat, now: nat)
    requires i < |trace| && clock <= now && StillKnown(m, trace, i, id, clock)
    ensures StillKnown(Ready(m, call, now), trace, i, id, now)
  {
    hide Ready, OthersMentioned, Later, After;
    ReadySeen(m, call, now);
    ReadyLiveSeen(m, call, now);
    var p := Ready(m, call, now);
    forall x | After(p.seenOrder, id, x) ensures After(m.seenOrder, id, x) {
      if p.seenOrder != m.seenOrder { KeptAfter(m.seenOrder, p.seen.Keys, id, x); }
    }
  }

  lemma ReadyLiveSeen(m: Mesh, call: Call, now: nat)
    ensures forall id :: id in m.seen && m.seen[id] > now ==> id in Ready(m, call, now).seen
  {
    hide Kept, Sum, Least, Expiries, LiveCache, LiveRoutes, LivePending, LiveWants;
  }

  lemma Members(c: Contents, m: Mesh, now: nat)
    requires LockStep(c, m, now)
    ensures m.seen.Keys == Elements(m.seenOrder)
    ensures forall i, j :: 0 <= i < j < |m.seenOrder| ==> m.seenOrder[i] != m.seenOrder[j]
    ensures forall id :: id in m.seen ==> m.seen[id] <= Later(now, m.options.routeTtl)
  {
    hide ValidOptions, RoutesAgree, RoutesOk, PendingOk, CacheOk, DeliveredOk, Scheduled;
    DistinctOrder(m.seenOrder, m.seen.Keys);
  }

  lemma StepKnown(c: Contents, p: Mesh, call: Call, trace: seq<Entry>, i: nat, id: EventId, now: nat)
    requires LockStep(c, p, now) && (Maintains(call) ==> Current(p, now))
    requires i < |trace| && StillKnown(p, trace, i, id, now)
    ensures var s := Acted(c, p, call, now);
            StillKnown(s.mesh, trace + [Entry(call, now, Done(s))], i, id, now)
  {
    hide LockStep, Current, Acted, OthersMentioned, Later, After, Replacing, Elements;
    var s := Acted(c, p, call, now);
    var e := Entry(call, now, Done(s));
    var longer := trace + [e];
    ActedSeen(c, p, call, now);
    ActedOrder(c, p, call, now);
    ActedKeeps(c, p, call, now);
    Members(c, p, now);
    Members(c, s.mesh, now);
    FewerMentioned(trace, e, i, id);
    assert longer[i] == trace[i];
    if Later(trace[i].now, p.options.routeTtl) > now && |OthersMentioned(longer, i, id)| < p.options.maxSeen {
      if s.mesh.seenOrder == p.seenOrder {
        FollowedLonger(p, s.mesh, trace, e, i, id);
      } else {
        var k: nat :| Replacing(p, s.mesh, k, Mentioned(call).value);
        StaysListed(p, s.mesh, trace, e, i, id, k, Mentioned(call).value);
      }
    }
  }

  lemma StaysListed(p: Mesh, r: Mesh, trace: seq<Entry>, e: Entry, i: nat, id: EventId, k: nat, x: EventId)
    requires i < |trace| && id in Elements(p.seenOrder) && Followed(p, trace, i, id)
    requires Replacing(p, r, k, x) && Mentioned(e.call) == Some(x)
    requires forall a, b :: 0 <= a < b < |p.seenOrder| ==> p.seenOrder[a] != p.seenOrder[b]
    requires |OthersMentioned(trace + [e], i, id)| < p.options.maxSeen
    ensures id in Elements(r.seenOrder) && Followed(r, trace + [e], i, id)
  {
    hide OthersMentioned, Mentioned, After;
    OthersMentionedGrow(trace, e, i, id);
    var a :| 0 <= a < |p.seenOrder| && p.seenOrder[a] == id;
    if a < k {
      DroppedFar(p.seenOrder, p.options.maxSeen, OthersMentioned(trace, i, id), OthersMentioned(trace + [e], i, id), a, id, x, k);
    }
    assert r.seenOrder[a - k] == id;
    KeptFollowers(p.seenOrder, k, id, x);
  }

  /** Entry i published a genuine allowed event that was not known. */
  ghost predicate FirstPublished(c: Contents, o: Options, trace: seq<Entry>, i: nat, id: EventId) {
    && i < |trace| && trace[i].call.Originate? && trace[i].call.event.id == id && trace[i].call.event.signed
    && Permitted(c, o, id) && Forgotten(o, trace[..i], id, trace[i].now)
  }

  lemma PublishedKnown(c: Contents, p: Mesh, call: Call, now: nat, trace: seq<Entry>, id: EventId)
    requires LockStep(c, p, now) && Current(p, now) && id !in p.seen
    requires call.Originate? && call.event.id == id && call.event.signed && Permitted(c, p.options, id)
    ensures var s := Acted(c, p, call, now);
            StillKnown(s.mesh, trace + [Entry(call, now, Done(s))], |trace|, id, now)
  {
    hide LockStep, Current, Store, Remember, Later, OthersMentioned, After, Elements;
    var s := Acted(c, p, call, now);
    var longer := trace + [Entry(call, now, Done(s))];
    assert longer[|trace|] == Entry(call, now, Done(s));
    StoreKeeps(c, p, call.event, now);
    var stored := Store(c, p, call.event, now);
    RememberSeen(c, stored, id, now);
    Members(c, stored, now);
    var k := RememberOrder(c, stored, id, now);
    NotListed(stored.seenOrder, k, id);
    LastFollowed(stored.seenOrder[k..], id);
  }

  lemma NotListed(order: seq<EventId>, k: nat, id: EventId)
    requires k <= |order| && id !in Elements(order)
    ensures id !in order[k..]
  {}

  lemma {:induction false} RunKnown(c: Contents, o: Options, calls: seq<Timed>, i: nat, id: EventId)
    requires Timely(calls) && i < |calls| && FirstPublished(c, Clamped(o), RunOf(c, o, calls).trace, i, id)
    ensures |RunOf(c, o, calls).trace| == |calls|
    ensures StillKnown(RunOf(c, o, calls).mesh, RunOf(c, o, calls).trace, i, id, Clock(calls))
    decreases |calls|
  {
    hide LockStep, Ready, Acted, Current, StillKnown, Clamped, RunOf, Before, Forgotten;
    var n := |calls| - 1;
    TraceAt(c, o, calls, n);
    if i < n {
      assert RunOf(c, o, calls).trace[..n][i] == RunOf(c, o, calls).trace[i];
      assert RunOf(c, o, calls).trace[..n][..i] == RunOf(c, o, calls).trace[..i];
      RunKnown(c, o, calls[..n], i, id);
      LaterKnown(c, o, calls, i, id);
    } else {
      FirstKnown(c, o, calls, id);
    }
  }

  lemma LaterKnown(c: Contents, o: Options, calls: seq<Timed>, i: nat, id: EventId)
    requires Timely(calls) && i < |calls| - 1 && |RunOf(c, o, calls[..|calls| - 1]).trace| == |calls| - 1
    requires var n := |calls| - 1;
             StillKnown(RunOf(c, o, calls[..n]).mesh, RunOf(c, o, calls[..n]).trace, i, id, Clock(calls[..n]))
    ensures |RunOf(c, o, calls).trace| == |calls|
    ensures StillKnown(RunOf(c, o, calls).mesh, RunOf(c, o, calls).trace, i, id, Clock(calls))
  {
    hide LockStep, Ready, Acted, Current, StillKnown, Clamped;
    var n := |calls| - 1;
    BeforeReady(c, o, calls);
    RunLocked(c, o, calls[..n]);
    var before := RunOf(c, o, calls[..n]);
    ReadyKnown(before.mesh, calls[n].call, before.trace, i, id, Clock(calls[..n]), calls[n].now);
    StepKnown(c, Before(c, o, calls), calls[n].call, before.trace, i, id, calls[n].now);
  }

  lemma FirstKnown(c: Contents, o: Options, calls: seq<Timed>, id: EventId)
    requires Timely(calls) && calls != [] && FirstPublished(c, Clamped(o), RunOf(c, o, calls).trace, |calls| - 1, id)
    ensures |RunOf(c, o, calls).trace| == |calls|
    ensures StillKnown(RunOf(c, o, calls).mesh, RunOf(c, o, calls).trace, |calls| - 1, id, Clock(calls))
  {
    hide LockStep, Ready, Acted, Current, StillKnown, Clamped, Forgotten, SeenMentioned;
    var n := |calls| - 1;
    assert calls[..n + 1] == calls;
    TraceAt(c, o, calls, n);
    TraceLength(c, o, calls[..n]);
    RunSeen(c, o, calls);
    BeforeReady(c, o, calls);
    ForgottenUnseen(Before(c, o, calls), RunOf(c, o, calls[..n]).trace, id, calls[n].now);
    PublishedKnown(c, Before(c, o, calls), calls[n].call, calls[n].now, RunOf(c, o, calls[..n]).trace, id);
  }

  /** Publishing an event again within the time of a route announces nothing, unless as many others as are remembered
      were announced or published in between. */
  lemma PublishedOnce(c: Contents, o: Options, calls: seq<Timed>, i: nat, n: nat, id: EventId)
    requires Timely(calls) && i < n < |calls| && |RunOf(c, o, calls).trace| == |calls|
    requires FirstPublished(c, Clamped(o), RunOf(c, o, calls).trace, i, id)
    requires calls[n].call.Originate? && calls[n].call.event.id == id
    requires calls[n].now < Later(calls[i].now, Clamped(o).routeTtl)
    requires |OthersMentioned(RunOf(c, o, calls).trace[..n], i, id)| < Clamped(o).maxSeen
    ensures RunOf(c, o, calls).trace[n].actions == []
  {
    hide LockStep, Ready, Current, Clamped, RunOf, Forgotten, OthersMentioned, Later, Followed, Store, Remember, Admissible;
    var upTo, trace := calls[..n + 1], RunOf(c, o, calls).trace;
    assert upTo[..n] == calls[..n] && upTo[n] == calls[n];
    TraceAt(c, o, calls, n);
    TraceAt(c, o, calls, i);
    assert trace[..n][i] == trace[i] && trace[..n][..i] == trace[..i];
    BeforeReady(c, o, upTo);
    RunKnown(c, o, calls[..n], i, id);
    RunLocked(c, o, calls[..n]);
    ReadyKnown(RunOf(c, o, calls[..n]).mesh, calls[n].call, trace[..n], i, id, Clock(calls[..n]), calls[n].now);
    StoreElsewhere(c, Before(c, o, upTo), calls[n].call.event, calls[n].now);
  }
}
