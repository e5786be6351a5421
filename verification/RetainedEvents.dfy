/** The retained events of one store, changed in place by its calls. */
module RetainedEvents {
  import opened Wrappers
  import opened Sets
  import opened Retention

  const MAX_RETAINED: nat := 4_096

  method TotalBytes(events: seq<Event>) returns (total: nat)
    ensures total == Bytes(events)
  {
    total := 0;
    for i := 0 to |events|
      invariant total == Bytes(events[..i])
    {
      assert events[..i + 1][..i] == events[..i];
      total := total + events[i].size + 1;
    }
    assert events[..|events|] == events;
  }

  method NewestFirst(events: seq<Event>) returns (sorted: seq<Event>)
    requires forall i, j :: 0 <= i < j < |events| ==> events[i].id != events[j].id
    ensures Ordered(sorted) && Elements(sorted) == Elements(events)
  {
    hide Ordered, Before, Placed;
    sorted := [];
    NoneOrdered();
    for i := 0 to |events|
      invariant Ordered(sorted) && forall x :: x in sorted <==> x in events[..i]
    {
      assert events[..i + 1] == events[..i] + [events[i]];
      forall x | x in sorted ensures x.id != events[i].id {
        var j :| 0 <= j < i && events[..i][j] == x;
      }
      PlacedMeans(sorted, events[i]);
      sorted := Placed(sorted, events[i]);
    }
    assert events[..|events|] == events;
  }

  class RetainedEvents {
    const policy: Policy
    var events: seq<Event>
    var bytes: nat

    ghost predicate Valid()
      reads this
    {
      Kept(policy, events) && bytes == Bytes(events)
    }

    constructor (policy: Policy)
      ensures Valid() && events == [] && this.policy == policy
    {
      this.policy, events, bytes := policy, [], 0;
      new;
      EmptyKept(policy);
    }

    /** A store for a policy that has filters and allows a sensible number of events. */
    static method New(policy: Policy, anyFilters: bool) returns (r: Option<RetainedEvents>)
      ensures r.Some? <==> 1 <= policy.maxEvents <= 4096 && anyFilters
      ensures r.Some? ==> fresh(r.value) && r.value.Valid() && r.value.events == [] && r.value.policy == policy
    {
      if policy.maxEvents == 0 || policy.maxEvents > MAX_RETAINED || !anyFilters { return None; }
      var made := new RetainedEvents(policy);
      return Some(made);
    }

    method IsRefused(event: Event, now: nat) returns (refused: bool)
      ensures refused == Refused(policy, events, event, now)
    {
      hide Current, Before, Rivals;
      if !policy.accepts(event) || !Current(event, now) { return true; }
      for i := 0 to |events|
        invariant forall k :: 0 <= k < i ==> events[k].id != event.id
      {
        if events[i].id == event.id { return true; }
      }
      if event.size > MAX_EVENT_BYTES { return true; }
      for i := 0 to |events|
        invariant forall k :: 0 <= k < i ==> !(Rivals(events[k], event) && !Before(event, events[k]))
      {
        if Rivals(events[i], event) && !Before(event, events[i]) { return true; }
      }
      return false;
    }

    /** Drops what is no longer current and what the event replaces. */
    method Retain(event: Event, now: nat)
      modifies this`events
      ensures events == Without(old(events), event, now)
    {
      hide Current, Rivals;
      var kept := [];
      for i := 0 to |events|
        modifies {}
        invariant kept == Without(events[..i], event, now)
      {
        assert events[..i + 1][..i] == events[..i];
        if Current(events[i], now) && !Rivals(events[i], event) { kept := kept + [events[i]]; } else { assert kept + [] == kept; }
      }
      assert events[..|events|] == events;
      events := kept;
    }

    method Insert(event: Event, now: nat) returns (stored: bool)
      requires Valid()
      modifies this
      ensures Valid() && events == Inserted(policy, old(events), event, now)
      ensures stored <==> !Refused(policy, old(events), event, now) && exists x :: x in events && x.id == event.id
    {
      hide Current, Before, Rivals, Candidate, Refused, Kept, Without, Placed, Trimmed, Bytes;
      InsertedKept(policy, events, event, now);
      var refused := IsRefused(event, now);
      if refused { return false; }
      KeptApart(policy, events, event, now);
      ghost var before := events;
      Retain(event, now);
      PlacedMeans(events, event);
      ghost var placed := Placed(events, event);
      PushedDistinct(before, events, event, now);
      events := NewestFirst(events + [event]);
      OrderedUnique(events, placed);
      bytes := TotalBytes(events);
      Trim();
      for i := 0 to |events|
        modifies {}
        invariant forall k :: 0 <= k < i ==> events[k].id != event.id
      {
        if events[i].id == event.id {
          assert events[i] in events;
          return true;
        }
      }
      return false;
    }

    /** Drops the oldest while there are too many events or bytes. */
    method Trim()
      requires bytes == Bytes(events)
      modifies this`events, this`bytes
      ensures events == Trimmed(policy, old(events)) && bytes == Bytes(events)
    {
      while |events| > policy.maxEvents || bytes + ENVELOPE > MAX_SNAPSHOT_BYTES
        invariant bytes == Bytes(events) && Trimmed(policy, events) == Trimmed(policy, old(events))
        decreases |events|
      {
        var last := events[|events| - 1];
        events := events[..|events| - 1];
        bytes := bytes - (last.size + 1);
      }
    }

    /** Puts events back; `verified` says of each that its identifier and signature hold. */
    method Restore(stored: seq<Event>, verified: Event -> bool, now: nat)
      requires Valid()
      modifies this
      ensures Valid() && events == InsertedAll(policy, old(events), Verified(stored, verified), now)
    {
      hide Inserted, Kept, Bytes;
      for i := 0 to |stored|
        invariant Valid() && events == InsertedAll(policy, old(events), Verified(stored[..i], verified), now)
      {
        assert stored[..i + 1][..i] == stored[..i];
        ghost var before := Verified(stored[..i], verified);
        assert (before + [stored[i]])[..|before|] == before && before + [] == before;
        if verified(stored[i]) { var kept := Insert(stored[i], now); }
      }
      assert stored[..|stored|] == stored;
    }

    method Snapshot(now: nat) returns (current: seq<Event>)
      ensures current == Retention.Snapshot(events, now)
    {
      hide Current;
      current := [];
      for i := 0 to |events|
        invariant current == Retention.Snapshot(events[..i], now)
      {
        assert events[..i + 1][..i] == events[..i];
        if Current(events[i], now) { current := current + [events[i]]; } else { assert current + [] == current; }
      }
      assert events[..|events|] == events;
    }
  }

  function Verified(stored: seq<Event>, verified: Event -> bool): seq<Event> {
    if stored == [] then []
    else Verified(stored[..|stored| - 1], verified) + if verified(stored[|stored| - 1]) then [stored[|stored| - 1]] else []
  }

  lemma KeptApart(p: Policy, s: seq<Event>, e: Event, now: nat)
    requires Kept(p, s) && !Refused(p, s, e, now)
    ensures Ordered(s) && Ordered(Without(s, e, now))
    ensures forall x :: x in Without(s, e, now) ==> x in s && x.id != e.id
    ensures forall x, y :: x in s && y in s && x != y ==> x.id != y.id
  {
    hide Current, Before, Rivals, Bytes;
    WithoutMeans(s, e, now);
    forall x | x in s ensures x.id != e.id {
      var i :| 0 <= i < |s| && s[i] == x;
    }
    assert forall x :: x in s ==> x in Elements(s);
  }

  lemma PushedDistinct(s: seq<Event>, kept: seq<Event>, e: Event, now: nat)
    requires Ordered(kept) && forall x :: x in kept ==> x in s && x.id != e.id
    requires forall x, y :: x in s && y in s && x != y ==> x.id != y.id
    ensures var t := kept + [e];
            (forall i, j :: 0 <= i < j < |t| ==> t[i].id != t[j].id) && Elements(t) == Elements(Placed(kept, e))
  {
    hide Before, Placed;
    OrderedDistinct(kept);
    PlacedMeans(kept, e);
    var t := kept + [e];
    forall i, j | 0 <= i < j < |t| ensures t[i].id != t[j].id {
      assert t[i] in kept;
      if j < |kept| { assert t[j] in kept; }
    }
  }
}
