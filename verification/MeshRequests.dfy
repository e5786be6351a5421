/** A request is good for one delivery: once an event was delivered, or its provider dismissed, it is delivered again only
    by a peer that was asked for it again. */
module MeshRequests {
  import opened Wrappers
  import opened Sums
  import opened MeshState
  import opened MeshInvariant
  import opened MeshSteps
  import opened MeshTraces
  import opened MeshCache
  import opened MeshService
  import opened MeshWaiting

  // ---- A fulfilled route stays fulfilled

  ghost predicate FulfilledStays(p: Mesh, r: Mesh) {
    forall id :: id in r.routes && id in p.routes && p.routes[id].fulfilled ==> r.routes[id].fulfilled
  }

  lemma ActedFulfilled(c: Contents, p: Mesh, call: Call, now: nat)
    requires LockStep(c, p, now) && (Maintains(call) ==> Current(p, now))
    ensures FulfilledStays(p, Acted(c, p, call, now).mesh)
  {
    hide LockStep, Current, Store, Remember, Requested, Admissible, ReceiveInventory, ReceiveWant, ReceiveFrame, Publish, Later;
    match call
    case Hear(source, message, waiting, selected) =>
      match message {
        case Inventory(id, kind, bytes, hops) => InventoryFulfilled(c, p, source, id, kind, bytes, hops, now);
        case Want(id) => WantFulfilled(p, source, id, now);
        case Frame(id, event) => FrameFulfilled(c, p, source, id, event, waiting, selected, now);
      }
    case Originate(event, selected) => PublishFulfilled(c, p, event, selected, now);
    case Replays(event, peer) => StoreElsewhere(c, p, event, now);
    case ReplaysCached(peer) =>
    case Seed(event) => StoreElsewhere(c, p, event, now);
    case Maintenance =>
    case Dismissal(peer, id) =>
    case Disruption(peer, id) =>
  }

  lemma InventoryFulfilled(c: Contents, p: Mesh, source: Peer, id: EventId, kind: nat, bytes: nat, hops: nat, now: nat)
    requires LockStep(c, p, now) && Current(p, now)
    ensures FulfilledStays(p, ReceiveInventory(p, source, id, kind, bytes, hops, now).mesh)
  {
    hide LockStep, Remember, Later, ValidId, AllowedKind;
    if Fresh(p, id, now) {
      FreshUnseen(c, p, id, now);
      RememberKeeps(c, p, id, now);
      SeenQueue(c, p, now);
    }
  }

  lemma WantFulfilled(p: Mesh, source: Peer, id: EventId, now: nat)
    ensures FulfilledStays(p, ReceiveWant(p, source, id, now).mesh)
  {
    hide Later, ValidId;
  }

  lemma PublishFulfilled(c: Contents, p: Mesh, event: Event, selected: seq<Peer>, now: nat)
    requires LockStep(c, p, now) && Current(p, now)
    ensures FulfilledStays(p, Publish(c, p, event, selected, now).mesh)
  {
    hide LockStep, Store, Remember, Admissible;
    StoreElsewhere(c, p, event, now);
    if event.signed && Admissible(c, p.options, event.id) {
      StoreKeeps(c, p, event, now);
      var stored := Store(c, p, event, now);
      if Fresh(stored, event.id, now) { RememberKeeps(c, stored, event.id, now); }
    }
  }

  lemma FrameFulfilled(c: Contents, p: Mesh, source: Peer, id: EventId, event: Event, waiting: seq<Peer>, selected: seq<Peer>, now: nat)
    ensures var r := ReceiveFrame(c, p, source, id, event, waiting, selected, now).mesh;
            && FulfilledStays(p, r)
            && (Requested(c, p, source, id, event) ==> id in r.routes && r.routes[id].fulfilled)
  {
    hide Store, NoteDelivered, ValidId, Admissible, Later;
    if Requested(c, p, source, id, event) && !p.routes[id].fulfilled {
      StoreElsewhere(c, p, event, now);
      var stored := Store(c, p, event, now);
      var served := stored.(routes := stored.routes[id := p.routes[id].(fulfilled := true, disrupted := {})]);
      if id !in served.delivered { NoteElsewhere(served, id, now); }
    }
  }

  // ---- Whoever may deliver was asked since

  predicate Closed(m: Mesh, id: EventId) { id in m.routes ==> m.routes[id].fulfilled }

  /** Only peers asked after entry i may deliver. */
  ghost predicate AskedAgain(m: Mesh, trace: seq<Entry>, i: nat, id: EventId) {
    !Closed(m, id) ==> forall q :: m.routes[id].ProvidedBy(q) ==> RequestedSince(trace, i + 1, q, id)
  }

  lemma StepAgain(c: Contents, p: Mesh, call: Call, now: nat, trace: seq<Entry>, i: nat, id: EventId)
    requires LockStep(c, p, now) && (Maintains(call) ==> Current(p, now)) && i < |trace| && AskedAgain(p, trace, i, id)
    ensures var s := Acted(c, p, call, now);
            AskedAgain(s.mesh, trace + [Entry(call, now, Done(s))], i, id)
  {
    hide LockStep, Current, Acted, RequestedSince, Delivering, SameDeliveries, Later;
    var s := Acted(c, p, call, now);
    var e := Entry(call, now, Done(s));
    ActedRoutes(c, p, call, now);
    ActedFulfilled(c, p, call, now);
    if !Closed(s.mesh, id) {
      forall q | s.mesh.routes[id].ProvidedBy(q) ensures RequestedSince(trace + [e], i + 1, q, id) {
        RequestedLonger(trace, e, i + 1, q, id);
        assert RouteStep(p, s, call, id);
        if id in p.routes && p.routes[id].ProvidedBy(q) {
          assert !Closed(p, id);
        } else {
          assert RequestedAt(e, q, id);
        }
      }
    }
  }

  lemma ReadyAgain(m: Mesh, call: Call, now: nat, trace: seq<Entry>, i: nat, id: EventId)
    requires AskedAgain(m, trace, i, id)
    ensures AskedAgain(Ready(m, call, now), trace, i, id)
  {
    hide Ready, RequestedSince;
    ReadyRoutes(m, call, now);
  }

  /** Entry i has delivered the event, or dismissed a provider of its route. */
  ghost predicate Closes(c: Contents, o: Options, calls: seq<Timed>, i: nat, id: EventId)
    requires i < |calls| && |RunOf(c, o, calls).trace| == |calls|
  {
    || Delivered(RunOf(c, o, calls).trace[i]) == Some(id)
    || (calls[i].call.Dismissal? && calls[i].call.id == id
        && var p := Before(c, o, calls[..i + 1]); id in p.routes ==> p.routes[id].ProvidedBy(calls[i].call.peer))
  }

  lemma ClosingCloses(c: Contents, o: Options, calls: seq<Timed>, id: EventId)
    requires Timely(calls) && calls != [] && |RunOf(c, o, calls).trace| == |calls| && Closes(c, o, calls, |calls| - 1, id)
    ensures Closed(RunOf(c, o, calls).mesh, id)
  {
    hide LockStep, Current, Ready, Clamped, ReceiveFrame, Publish, Replay, Store, ReceiveInventory, ReceiveWant, Requested;
    var n := |calls| - 1;
    assert calls[..n + 1] == calls;
    BeforeReady(c, o, calls);
    TraceLength(c, o, calls[..n]);
    var p, call, now := Before(c, o, calls), calls[n].call, calls[n].now;
    if !call.Dismissal? {
      FrameDone(c, p, call.source, id, call.message.event, call.waiting, call.selected, now);
      FrameFulfilled(c, p, call.source, id, call.message.event, call.waiting, call.selected, now);
    }
  }

  lemma {:induction false} RunAgain(c: Contents, o: Options, calls: seq<Timed>, i: nat, id: EventId)
    requires Timely(calls) && i < |calls| && |RunOf(c, o, calls).trace| == |calls| && Closes(c, o, calls, i, id)
    ensures AskedAgain(RunOf(c, o, calls).mesh, RunOf(c, o, calls).trace, i, id)
    decreases |calls|
  {
    hide LockStep, Current, Ready, Acted, Clamped, AskedAgain, Closes;
    var n := |calls| - 1;
    if i < n {
      TraceLength(c, o, calls[..n]);
      ClosesEarlier(c, o, calls, i, id);
      RunAgain(c, o, calls[..n], i, id);
      BeforeReady(c, o, calls);
      ReadyAgain(RunOf(c, o, calls[..n]).mesh, calls[n].call, calls[n].now, RunOf(c, o, calls[..n]).trace, i, id);
      StepAgain(c, Before(c, o, calls), calls[n].call, calls[n].now, RunOf(c, o, calls[..n]).trace, i, id);
    } else {
      ClosingCloses(c, o, calls, id);
      ClosedAgain(RunOf(c, o, calls).mesh, RunOf(c, o, calls).trace, i, id);
    }
  }

  lemma ClosedAgain(m: Mesh, trace: seq<Entry>, i: nat, id: EventId)
    requires Closed(m, id)
    ensures AskedAgain(m, trace, i, id)
  {}

  lemma ClosesEarlier(c: Contents, o: Options, calls: seq<Timed>, i: nat, id: EventId)
    requires i < |calls| - 1 && |RunOf(c, o, calls).trace| == |calls| && |RunOf(c, o, calls[..|calls| - 1]).trace| == |calls| - 1
    requires Closes(c, o, calls, i, id)
    ensures Closes(c, o, calls[..|calls| - 1], i, id)
  {
    hide RunOf, Before, Delivered;
    var n := |calls| - 1;
    assert calls[..n][..i + 1] == calls[..i + 1] && calls[..n][i] == calls[i];
    TraceAt(c, o, calls, n);
    assert RunOf(c, o, calls).trace[i] == RunOf(c, o, calls[..n]).trace[i];
  }

  /** Between a delivery, or the dismissal of a provider, and the next delivery of the same event, the peer that delivers
      it announced it and was asked for it anew. */
  lemma DeliveredAgainIfAsked(c: Contents, o: Options, calls: seq<Timed>, i: nat, j: nat, id: EventId)
    requires Timely(calls) && i < j < |calls| && |RunOf(c, o, calls).trace| == |calls|
    requires Closes(c, o, calls, i, id) && Delivered(RunOf(c, o, calls).trace[j]) == Some(id)
    ensures exists k :: i < k < j && RequestedAt(RunOf(c, o, calls).trace[k], RunOf(c, o, calls).trace[j].call.source, id)
  {
    hide LockStep, Current, Ready, Acted, Clamped, Closes, Requested, RequestedAt;
    var upTo, trace := calls[..j + 1], RunOf(c, o, calls).trace;
    assert upTo[..j] == calls[..j] && upTo[j] == calls[j];
    TraceAt(c, o, calls, j);
    BeforeReady(c, o, upTo);
    TraceLength(c, o, calls[..j]);
    ClosesPrefix(c, o, calls, j, i, id);
    RunAgain(c, o, calls[..j], i, id);
    ReadyAgain(RunOf(c, o, calls[..j]).mesh, calls[j].call, calls[j].now, trace[..j], i, id);
    DeliversOpen(c, Before(c, o, upTo), calls[j].call, calls[j].now, id);
    assert RequestedSince(trace[..j], i + 1, trace[j].call.source, id);
    var k :| i + 1 <= k < j && RequestedAt(trace[..j][k], trace[j].call.source, id);
    assert trace[..j][k] == trace[k];
  }

  lemma DeliversOpen(c: Contents, p: Mesh, call: Call, now: nat, id: EventId)
    requires Delivered(Entry(call, now, Done(Acted(c, p, call, now)))) == Some(id)
    ensures call.Hear? && !Closed(p, id) && p.routes[id].ProvidedBy(call.source)
  {
    hide ReceiveFrame;
    FrameDone(c, p, call.source, id, call.message.event, call.waiting, call.selected, now);
  }

  lemma {:induction false} ClosesPrefix(c: Contents, o: Options, calls: seq<Timed>, n: nat, i: nat, id: EventId)
    requires i < n <= |calls| && |RunOf(c, o, calls).trace| == |calls| && Closes(c, o, calls, i, id)
    ensures |RunOf(c, o, calls[..n]).trace| == n && Closes(c, o, calls[..n], i, id)
    decreases |calls|
  {
    hide Closes, RunOf;
    if n < |calls| {
      var last := |calls| - 1;
      TraceLength(c, o, calls[..last]);
      ClosesEarlier(c, o, calls, i, id);
      ClosesPrefix(c, o, calls[..last], n, i, id);
      assert calls[..last][..n] == calls[..n];
    } else {
      assert calls[..n] == calls;
    }
  }
}
