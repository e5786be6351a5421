/** What holds over every run of one mesh: an event is delivered only if its sender was asked for it after
    announcing it, and a second time only after the event's lifetime or many other deliveries. */
module MeshTraces {
  import opened Wrappers
  import opened Sets
  import opened Sums
  import opened MeshState
  import opened MeshInvariant
  import opened MeshSteps

  datatype Timed = Timed(call: Call, now: nat)

  datatype Entry = Entry(call: Call, now: nat, actions: seq<Action>)

  datatype Run = Run(mesh: Mesh, trace: seq<Entry>)

  ghost function RunOf(c: Contents, o: Options, calls: seq<Timed>): Run {
    if calls == [] then Run(Empty(o), [])
    else
      var before, last := RunOf(c, o, calls[..|calls| - 1]), calls[|calls| - 1];
      var s := Performed(c, before.mesh, last.call, last.now);
      Run(s.mesh, before.trace + [Entry(last.call, last.now, Done(s))])
  }

  /** The clock never goes back. */
  predicate Timely(calls: seq<Timed>) {
    forall i, j :: 0 <= i < j < |calls| ==> calls[i].now <= calls[j].now
  }

  function Clock(calls: seq<Timed>): nat { if calls == [] then 0 else calls[|calls| - 1].now }

  lemma {:induction false} RunLocked(c: Contents, o: Options, calls: seq<Timed>)
    requires Timely(calls)
    ensures LockStep(c, RunOf(c, o, calls).mesh, Clock(calls))
    ensures RunOf(c, o, calls).mesh.options == Clamped(o)
    ensures |RunOf(c, o, calls).trace| == |calls|
    ensures forall i :: 0 <= i < |calls| ==> RunOf(c, o, calls).trace[i].now == calls[i].now
  {
    hide LockStep, Ready, Acted, Clamped;
    if calls == [] {
      EmptyLockStep(c, o, 0);
    } else {
      var n := |calls| - 1;
      RunLocked(c, o, calls[..n]);
      LastLocked(c, o, calls);
    }
  }

  lemma LastLocked(c: Contents, o: Options, calls: seq<Timed>)
    requires Timely(calls) && calls != []
    requires LockStep(c, RunOf(c, o, calls[..|calls| - 1]).mesh, Clock(calls[..|calls| - 1]))
    ensures LockStep(c, RunOf(c, o, calls).mesh, Clock(calls))
    ensures RunOf(c, o, calls).mesh.options == RunOf(c, o, calls[..|calls| - 1]).mesh.options
  {
    hide LockStep, Ready, Acted, Current;
    var n := |calls| - 1;
    var before, last := RunOf(c, o, calls[..n]).mesh, calls[n];
    PerformedKeeps(c, before, last.call, Clock(calls[..n]), last.now);
    ReadyKeeps(c, before, last.call, Clock(calls[..n]), last.now);
    ActedRoutes(c, Ready(before, last.call, last.now), last.call, last.now);
  }

  /** The run one call earlier, made ready for the last call. */
  ghost function Before(c: Contents, o: Options, calls: seq<Timed>): Mesh
    requires calls != []
  {
    Ready(RunOf(c, o, calls[..|calls| - 1]).mesh, calls[|calls| - 1].call, calls[|calls| - 1].now)
  }

  lemma BeforeReady(c: Contents, o: Options, calls: seq<Timed>)
    requires Timely(calls) && calls != []
    ensures var p := Before(c, o, calls);
            && LockStep(c, p, Clock(calls)) && p.options == Clamped(o)
            && (Maintains(calls[|calls| - 1].call) ==> Current(p, Clock(calls)))
  {
    hide LockStep, Ready, Current, Clamped, RunOf;
    RunLocked(c, o, calls[..|calls| - 1]);
    var n := |calls| - 1;
    ReadyKeeps(c, RunOf(c, o, calls[..n]).mesh, calls[n].call, Clock(calls[..n]), calls[n].now);
  }

  // ---- Maintenance only removes

  /** x was delivered after id. */
  ghost predicate After(order: seq<EventId>, id: EventId, x: EventId) {
    exists i, j :: 0 <= i < j < |order| && order[i] == id && order[j] == x
  }

  lemma {:induction false} KeptAfter(order: seq<EventId>, keys: set<EventId>, id: EventId, x: EventId)
    requires After(Kept(order, keys), id, x)
    ensures After(order, id, x)
  {
    var kept := Kept(order, keys);
    var i, j :| 0 <= i < j < |kept| && kept[i] == id && kept[j] == x;
    var first, rest := order[0], order[1..];
    assert order == [first] + rest;
    if first in keys {
      var later := Kept(rest, keys);
      if i == 0 {
        assert x == later[j - 1];
        KeptMembers(rest, keys);
        assert x in later && x in rest;
        var k :| 0 <= k < |rest| && rest[k] == x;
        assert order[0] == id && order[k + 1] == x;
        return;
      }
      assert later[i - 1] == id && later[j - 1] == x;
    }
    KeptAfter(rest, keys, id, x);
    var a, b :| 0 <= a < b < |rest| && rest[a] == id && rest[b] == x;
    assert order[a + 1] == id && order[b + 1] == x;
  }

  lemma {:induction false} KeptMembers(order: seq<EventId>, keys: set<EventId>)
    ensures forall x :: x in Kept(order, keys) ==> x in order
  {
    if order != [] {
      KeptMembers(order[1..], keys);
      assert order == [order[0]] + order[1..];
    }
  }

  lemma ReadyDelivered(m: Mesh, call: Call, now: nat)
    ensures var p := Ready(m, call, now);
            && (forall id :: id in m.delivered ==> if id in p.delivered then p.delivered[id] == m.delivered[id] else m.delivered[id] <= now)
            && (p.deliveredOrder == m.deliveredOrder || p.deliveredOrder == Kept(m.deliveredOrder, p.delivered.Keys))
  {
    hide Kept, Sum, Least, Expiries, LiveCache, LiveRoutes, LivePending, LiveWants;
  }

  // ---- Deliveries were asked for

  /** A peer announced the event and was asked for it in turn. */
  ghost predicate AskedAt(e: Entry, source: Peer, id: EventId, kind: nat, bytes: nat) {
    && e.call.Hear? && e.call.source == source && e.call.message.Inventory?
    && e.call.message.id == id && e.call.message.kind == kind && e.call.message.bytes == bytes
    && e.actions == [Send(source, Want(id))]
  }

  ghost predicate Asked(trace: seq<Entry>, source: Peer, id: EventId, kind: nat, bytes: nat) {
    exists j :: 0 <= j < |trace| && AskedAt(trace[j], source, id, kind, bytes)
  }

  ghost predicate RoutesAsked(m: Mesh, trace: seq<Entry>) {
    forall id, q :: id in m.routes && m.routes[id].ProvidedBy(q) ==> Asked(trace, q, id, m.routes[id].kind, m.routes[id].bytes)
  }

  lemma AskedLonger(trace: seq<Entry>, e: Entry, source: Peer, id: EventId, kind: nat, bytes: nat)
    requires Asked(trace, source, id, kind, bytes)
    ensures Asked(trace + [e], source, id, kind, bytes)
  {
    var j :| 0 <= j < |trace| && AskedAt(trace[j], source, id, kind, bytes);
    assert (trace + [e])[j] == trace[j];
  }

  lemma RouteAsked(p: Mesh, s: Step, call: Call, now: nat, trace: seq<Entry>, id: EventId, q: Peer)
    requires RoutesAsked(p, trace) && id in s.mesh.routes && s.mesh.routes[id].ProvidedBy(q) && RouteStep(p, s, call, id)
    ensures Asked(trace + [Entry(call, now, Done(s))], q, id, s.mesh.routes[id].kind, s.mesh.routes[id].bytes)
  {
    var r, e := s.mesh.routes[id], Entry(call, now, Done(s));
    if id in p.routes && p.routes[id].ProvidedBy(q) {
      AskedLonger(trace, e, q, id, r.kind, r.bytes);
    } else {
      assert AskedAt((trace + [e])[|trace|], q, id, r.kind, r.bytes);
    }
  }

  lemma {:induction false} AllAsked(c: Contents, o: Options, calls: seq<Timed>)
    requires Timely(calls)
    ensures RoutesAsked(RunOf(c, o, calls).mesh, RunOf(c, o, calls).trace)
  {
    hide LockStep, Ready, Acted, Current, RouteStep, Asked, Clamped;
    if calls != [] {
      var n := |calls| - 1;
      AllAsked(c, o, calls[..n]);
      var before, last, p := RunOf(c, o, calls[..n]), calls[n], Before(c, o, calls);
      BeforeReady(c, o, calls);
      ReadyRoutes(before.mesh, last.call, last.now);
      ActedRoutes(c, p, last.call, last.now);
      var s := Acted(c, p, last.call, last.now);
      forall id, q | id in s.mesh.routes && s.mesh.routes[id].ProvidedBy(q)
        ensures Asked(before.trace + [Entry(last.call, last.now, Done(s))], q, id, s.mesh.routes[id].kind, s.mesh.routes[id].bytes)
      {
        RouteAsked(p, s, last.call, last.now, before.trace, id, q);
      }
    }
  }

  /** Every delivery is of a genuine event that its sender announced, with its kind and size, and was then asked for. */
  lemma {:induction false} DeliveriesAsked(c: Contents, o: Options, calls: seq<Timed>, i: nat, source: Peer, event: Event)
    requires Timely(calls) && i < |calls|
    requires |RunOf(c, o, calls).trace| == |calls| && Deliver(source, event) in RunOf(c, o, calls).trace[i].actions
    ensures var trace := RunOf(c, o, calls).trace;
            && trace[i].call.Hear? && trace[i].call.source == source && trace[i].call.message == Frame(event.id, event)
            && event.signed && (o.allowedKinds.Some? ==> c.kind(event.id) in o.allowedKinds.value)
            && c.bytes(event.id) <= (if o.maxEventBytes == 0 then 1 else o.maxEventBytes)
            && Asked(trace[..i], source, event.id, c.kind(event.id), c.bytes(event.id))
  {
    hide LockStep, Ready, Acted, Current, Clamped, Asked, Admissible, ValidId;
    var n := |calls| - 1;
    var before, last, p := RunOf(c, o, calls[..n]), calls[n], Before(c, o, calls);
    RunLocked(c, o, calls[..n]);
    if i < n {
      DeliveriesAsked(c, o, calls[..n], i, source, event);
      assert RunOf(c, o, calls).trace[..i] == before.trace[..i];
    } else {
      BeforeReady(c, o, calls);
      ActedDelivers(c, p, last.call, last.now);
      AdmissibleMeans(c, o, event.id);
      ReadyRoutes(before.mesh, last.call, last.now);
      AllAsked(c, o, calls[..n]);
      assert RunOf(c, o, calls).trace[..i] == before.trace;
    }
  }

  lemma AdmissibleMeans(c: Contents, o: Options, id: EventId)
    ensures Admissible(c, Clamped(o), id) <==>
            && (o.allowedKinds.Some? ==> c.kind(id) in o.allowedKinds.value)
            && c.bytes(id) <= (if o.maxEventBytes == 0 then 1 else o.maxEventBytes)
  {}

  // ---- Deliveries of one event are far apart

  /** The event an entry delivers. */
  ghost function Delivered(e: Entry): Option<EventId> {
    if e.call.Hear? && e.call.message.Frame? && Deliver(e.call.source, e.call.message.event) in e.actions
    then Some(e.call.message.id) else None
  }

  /** The other events delivered after entry i. */
  ghost function OthersSince(trace: seq<Entry>, i: nat, id: EventId): set<EventId> {
    set j | i < j < |trace| && Delivered(trace[j]).Some? && Delivered(trace[j]).value != id :: Delivered(trace[j]).value
  }

  /** Entry i delivered id: its lifetime is over, many others were delivered since, or it is remembered. */
  ghost predicate Remembered(m: Mesh, trace: seq<Entry>, i: nat, id: EventId, now: nat)
    requires i < |trace|
  {
    || Later(trace[i].now, m.options.eventTtl) <= now
    || |OthersSince(trace, i, id)| >= m.options.maxSeen
    || (id in m.delivered && m.delivered[id] == Later(trace[i].now, m.options.eventTtl)
        && forall x :: After(m.deliveredOrder, id, x) ==> x in OthersSince(trace, i, id))
  }

  ghost predicate AllRemembered(m: Mesh, trace: seq<Entry>, now: nat) {
    forall i :: 0 <= i < |trace| && Delivered(trace[i]).Some? ==> Remembered(m, trace, i, Delivered(trace[i]).value, now)
  }

  lemma OthersGrow(trace: seq<Entry>, e: Entry, i: nat, id: EventId)
    requires i < |trace|
    ensures OthersSince(trace + [e], i, id)
         == OthersSince(trace, i, id)
            + if Delivered(e).Some? && Delivered(e).value != id then {Delivered(e).value} else {}
  {
    hide Delivered;
    var longer := trace + [e];
    assert forall j :: 0 <= j < |trace| ==> longer[j] == trace[j];
    assert longer[|trace|] == e;
    forall x | x in OthersSince(trace, i, id) ensures x in OthersSince(longer, i, id) {
      var j :| i < j < |trace| && Delivered(trace[j]).Some? && Delivered(trace[j]).value != id && Delivered(trace[j]).value == x;
      assert Delivered(longer[j]).value == x;
    }
    if Delivered(e).Some? && Delivered(e).value != id { assert Delivered(longer[|trace|]).value in OthersSince(longer, i, id); }
  }

  lemma OthersMore(trace: seq<Entry>, e: Entry, i: nat, id: EventId)
    requires i < |trace|
    ensures OthersSince(trace, i, id) <= OthersSince(trace + [e], i, id)
    ensures |OthersSince(trace, i, id)| <= |OthersSince(trace + [e], i, id)|
  {
    hide OthersSince, Delivered;
    OthersGrow(trace, e, i, id);
    SubsetSize(OthersSince(trace, i, id), OthersSince(trace + [e], i, id));
  }

  /** Maintenance forgets only what has expired. */
  lemma ReadyRemembers(m: Mesh, call: Call, trace: seq<Entry>, i: nat, id: EventId, clock: nat, now: nat)
    requires i < |trace| && clock <= now && Remembered(m, trace, i, id, clock)
    requires Ready(m, call, now).options == m.options
    ensures Remembered(Ready(m, call, now), trace, i, id, now)
  {
    hide Ready, OthersSince, Later, After;
    ReadyDelivered(m, call, now);
    var p := Ready(m, call, now);
    if id in p.delivered {
      forall x | After(p.deliveredOrder, id, x) ensures After(m.deliveredOrder, id, x) {
        if p.deliveredOrder != m.deliveredOrder { KeptAfter(m.deliveredOrder, p.delivered.Keys, id, x); }
      }
    }
  }

  lemma QuietRemembers(p: Mesh, r: Mesh, trace: seq<Entry>, e: Entry, i: nat, id: EventId, now: nat)
    requires i < |trace| && SameDeliveries(p, r) && Remembered(p, trace, i, id, now)
    ensures Remembered(r, trace + [e], i, id, now)
  {
    hide OthersSince, Later, After;
    OthersMore(trace, e, i, id);
    assert (trace + [e])[i] == trace[i];
  }

  lemma {:induction false} TailSize(tail: seq<EventId>)
    requires forall i, j :: 0 <= i < j < |tail| ==> tail[i] != tail[j]
    ensures |Elements(tail)| == |tail|
  {
    if tail == [] {
      assert Elements(tail) == {};
    } else {
      var rest := tail[1..];
      TailSize(rest);
      assert tail == [tail[0]] + rest;
      assert Elements(tail) == {tail[0]} + Elements(rest);
      assert forall j :: 0 <= j < |rest| ==> rest[j] == tail[j + 1];
    }
  }

  lemma DropRemembers(p: Mesh, r: Mesh, trace: seq<Entry>, e: Entry, i: nat, id: EventId, new_: EventId, k: nat, now: nat)
    requires DeliveredOk(p) && i < |trace| && Remembered(p, trace, i, id, now)
    requires new_ !in p.delivered && Delivering(p, r, new_, Later(now, p.options.eventTtl), k) && Delivered(e) == Some(new_)
    ensures Remembered(r, trace + [e], i, id, now)
  {
    hide OthersSince, Later, Delivered, Queues;
    var others, longer := OthersSince(trace, i, id), OthersSince(trace + [e], i, id);
    OthersMore(trace, e, i, id);
    OthersGrow(trace, e, i, id);
    assert (trace + [e])[i] == trace[i];
    QueueMembers(p.deliveredOrder, p.delivered.Keys);
    if !(Later(trace[i].now, p.options.eventTtl) <= now) && |others| < p.options.maxSeen {
      var a :| 0 <= a < |p.deliveredOrder| && p.deliveredOrder[a] == id;
      DistinctOrder(p.deliveredOrder, p.delivered.Keys);
      if a < k {
        DroppedFar(p.deliveredOrder, p.options.maxSeen, others, longer, a, id, new_, k);
      } else {
        assert p.deliveredOrder[k..][a - k] == id;
        KeptFollowers(p.deliveredOrder, k, id, new_);
      }
    }
  }

  /** Dropped as the oldest: enough others came after it. */
  lemma DroppedFar(order: seq<EventId>, maxSeen: nat, others: set<EventId>, longer: set<EventId>, a: nat, id: EventId,
                   new_: EventId, k: nat)
    requires a < k <= |order| && order[a] == id && |order| - k + 1 >= maxSeen
    requires forall i, j :: 0 <= i < j < |order| ==> order[i] != order[j]
    requires forall x :: After(order, id, x) ==> x in others
    requires new_ !in order && longer == others + {new_}
    ensures |longer| >= maxSeen
  {
    TailSize(order[k..]);
    var tail := Elements(order[k..]);
    forall x | x in tail ensures x in others && x in order {
      var j :| 0 <= j < |order[k..]| && order[k..][j] == x;
      assert order[k + j] == x && After(order, id, x);
    }
    assert |tail + {new_}| == |tail| + 1;
    SubsetSize(tail + {new_}, longer);
  }

  lemma KeptFollowers(order: seq<EventId>, k: nat, id: EventId, new_: EventId)
    requires k <= |order| && id in order && id != new_
    ensures forall x :: After(order[k..] + [new_], id, x) ==> x == new_ || After(order, id, x)
  {
    forall x | After(order[k..] + [new_], id, x) && x != new_ ensures After(order, id, x) {
      var i, j :| 0 <= i < j < |order[k..] + [new_]| && (order[k..] + [new_])[i] == id && (order[k..] + [new_])[j] == x;
      assert order[k + i] == id && order[k + j] == x;
    }
  }

  lemma NewRemembered(p: Mesh, r: Mesh, trace: seq<Entry>, e: Entry, id: EventId, k: nat)
    requires DeliveredOk(p) && id !in p.delivered && Delivering(p, r, id, Later(e.now, p.options.eventTtl), k)
    ensures Remembered(r, trace + [e], |trace|, id, e.now)
  {
    hide OthersSince, Later, Queues;
    QueueMembers(p.deliveredOrder, p.delivered.Keys);
    assert (trace + [e])[|trace|] == e;
    assert forall j :: 0 <= j < |r.deliveredOrder| - 1 ==>
      r.deliveredOrder[j] == p.deliveredOrder[k + j] && p.deliveredOrder[k + j] in p.deliveredOrder;
    assert forall x :: !After(r.deliveredOrder, id, x);
  }

  lemma StepRemembers(c: Contents, p: Mesh, call: Call, trace: seq<Entry>, i: nat, now: nat)
    requires LockStep(c, p, now) && (Maintains(call) ==> Current(p, now))
    requires AllRemembered(p, trace, now)
    ensures var s := Acted(c, p, call, now);
            var longer := trace + [Entry(call, now, Done(s))];
            i < |longer| && Delivered(longer[i]).Some? ==> Remembered(s.mesh, longer, i, Delivered(longer[i]).value, now)
  {
    hide LockStep, Current, Acted, Remembered, SameDeliveries, Delivering, RouteStep, Later;
    var s := Acted(c, p, call, now);
    var e := Entry(call, now, Done(s));
    ActedRoutes(c, p, call, now);
    DeliveredQueues(c, p, now);
    if Delivers(s, call) {
      ActedDelivers(c, p, call, now);
      var k :| Delivering(p, s.mesh, call.message.id, Later(now, p.options.eventTtl), k);
      if i < |trace| {
        if Delivered(trace[i]).Some? {
          DropRemembers(p, s.mesh, trace, e, i, Delivered(trace[i]).value, call.message.id, k, now);
        }
      } else if i == |trace| {
        NewRemembered(p, s.mesh, trace, e, call.message.id, k);
      }
    } else if i < |trace| && Delivered(trace[i]).Some? {
      QuietRemembers(p, s.mesh, trace, e, i, Delivered(trace[i]).value, now);
    }
  }

  lemma {:induction false} RunRemembers(c: Contents, o: Options, calls: seq<Timed>)
    requires Timely(calls)
    ensures AllRemembered(RunOf(c, o, calls).mesh, RunOf(c, o, calls).trace, Clock(calls))
  {
    hide LockStep, Ready, Acted, Current, Remembered, Delivered, Clamped;
    if calls != [] {
      RunRemembers(c, o, calls[..|calls| - 1]);
      BeforeRemembers(c, o, calls);
      BeforeReady(c, o, calls);
      var n := |calls| - 1;
      forall i | 0 <= i < |RunOf(c, o, calls).trace| && Delivered(RunOf(c, o, calls).trace[i]).Some?
        ensures Remembered(RunOf(c, o, calls).mesh, RunOf(c, o, calls).trace, i, Delivered(RunOf(c, o, calls).trace[i]).value, Clock(calls))
      {
        StepRemembers(c, Before(c, o, calls), calls[n].call, RunOf(c, o, calls[..n]).trace, i, calls[n].now);
      }
    }
  }

  lemma BeforeRemembers(c: Contents, o: Options, calls: seq<Timed>)
    requires Timely(calls) && calls != []
    requires AllRemembered(RunOf(c, o, calls[..|calls| - 1]).mesh, RunOf(c, o, calls[..|calls| - 1]).trace, Clock(calls[..|calls| - 1]))
    ensures AllRemembered(Before(c, o, calls), RunOf(c, o, calls[..|calls| - 1]).trace, Clock(calls))
  {
    hide LockStep, Ready, Current, Remembered, Delivered, Clamped, RunOf;
    var n := |calls| - 1;
    var before := RunOf(c, o, calls[..n]);
    BeforeReady(c, o, calls);
    RunLocked(c, o, calls[..n]);
    forall i | 0 <= i < |before.trace| && Delivered(before.trace[i]).Some?
      ensures Remembered(Before(c, o, calls), before.trace, i, Delivered(before.trace[i]).value, Clock(calls))
    {
      ReadyRemembers(before.mesh, calls[n].call, before.trace, i, Delivered(before.trace[i]).value, Clock(calls[..n]), calls[n].now);
    }
  }

  /** Two deliveries of one event: the first one's lifetime has passed, or as many other events as the mesh
      remembers were delivered in between. */
  lemma {:induction false} DeliveriesFarApart(c: Contents, o: Options, calls: seq<Timed>, i: nat, j: nat, id: EventId)
    requires Timely(calls) && i < j < |calls| && |RunOf(c, o, calls).trace| == |calls|
    requires Delivered(RunOf(c, o, calls).trace[i]) == Delivered(RunOf(c, o, calls).trace[j]) == Some(id)
    ensures var trace := RunOf(c, o, calls).trace;
            || Later(calls[i].now, Clamped(o).eventTtl) <= calls[j].now
            || |OthersSince(trace[..j], i, id)| >= Clamped(o).maxSeen
  {
    hide LockStep, Ready, Acted, Current, OthersSince, Clamped, Later;
    var n := |calls| - 1;
    var before, last, p := RunOf(c, o, calls[..n]), calls[n], Before(c, o, calls);
    RunLocked(c, o, calls[..n]);
    assert before.trace[i] == RunOf(c, o, calls).trace[i];
    if j < n {
      DeliveriesFarApart(c, o, calls[..n], i, j, id);
      assert RunOf(c, o, calls).trace[..j] == before.trace[..j];
    } else {
      BeforeReady(c, o, calls);
      RunRemembers(c, o, calls[..n]);
      BeforeRemembers(c, o, calls);
      ActedDelivers(c, p, last.call, last.now);
      assert Remembered(p, before.trace, i, id, last.now);
      assert RunOf(c, o, calls).trace[..j] == before.trace;
    }
  }
}
