/** Event identifiers seen recently, per peer and subscription: a window of bounded size for each scope, a
    bound on all windows together, and queues whose stale records are dropped lazily. */
module SeenIds {
  import opened Wrappers
  import opened Sets

  datatype Scope = Scope(peer: string, subscription: string)

  // ---- What it amounts to: one list of observations, oldest first

  datatype Entry = Entry(scope: Scope, id: string, matched: bool)

  function IndexOf(log: seq<Entry>, scope: Scope, id: string): (i: nat)
    ensures i <= |log| && (forall k :: 0 <= k < i ==> !(log[k].scope == scope && log[k].id == id))
    ensures i < |log| ==> log[i].scope == scope && log[i].id == id
  {
    if log == [] || (log[0].scope == scope && log[0].id == id) then 0
    else IndexOf(log[1..], scope, id) + 1
  }

  function Oldest(log: seq<Entry>, scope: Scope): (i: nat)
    ensures i <= |log| && (forall k :: 0 <= k < i ==> log[k].scope != scope)
    ensures i < |log| ==> log[i].scope == scope
  {
    if log == [] || log[0].scope == scope then 0 else Oldest(log[1..], scope) + 1
  }

  /** The identifiers of one scope, oldest first. */
  function Queue(log: seq<Entry>, scope: Scope): seq<string> {
    if log == [] then []
    else Queue(log[..|log| - 1], scope) + if log[|log| - 1].scope == scope then [log[|log| - 1].id] else []
  }

  function Without<T>(s: seq<T>, i: nat): seq<T>
    requires i < |s|
  {
    s[..i] + s[i + 1..]
  }

  function Keep(log: seq<Entry>, drop: set<Scope>): seq<Entry> {
    if log == [] then []
    else Keep(log[..|log| - 1], drop) + if log[|log| - 1].scope in drop then [] else [log[|log| - 1]]
  }

  predicate Knows(log: seq<Entry>, scope: Scope, id: string) {
    IndexOf(log, scope, id) < |log|
  }

  /** A new observation is appended; then its scope, then the whole list, drops its oldest if too long. */
  function Observed(log: seq<Entry>, e: Entry, maxPerScope: nat, maxTotal: nat): seq<Entry> {
    if Knows(log, e.scope, e.id) then log
    else
      var longer := log + [e];
      var scoped := if |Queue(longer, e.scope)| > maxPerScope && Oldest(longer, e.scope) < |longer|
                    then Without(longer, Oldest(longer, e.scope)) else longer;
      if |scoped| > maxTotal then scoped[1..] else scoped
  }

  // ---- Facts about the list

  lemma {:induction false} QueueConcat(a: seq<Entry>, b: seq<Entry>, scope: Scope)
    ensures Queue(a + b, scope) == Queue(a, scope) + Queue(b, scope)
    decreases |b|
  {
    if b == [] {
      assert a + b == a;
    } else {
      var n := |b| - 1;
      QueueConcat(a, b[..n], scope);
      assert (a + b)[..|a| + n] == a + b[..n];
    }
  }

  lemma {:induction false} QueueMember(log: seq<Entry>, scope: Scope, id: string)
    ensures id in Queue(log, scope) <==> exists i :: 0 <= i < |log| && log[i].scope == scope && log[i].id == id
  {
    if log != [] {
      var n := |log| - 1;
      QueueMember(log[..n], scope, id);
      if log[n].scope == scope && log[n].id == id {
        assert id in Queue(log, scope);
      } else if exists i :: 0 <= i < |log| && log[i].scope == scope && log[i].id == id {
        var i :| 0 <= i < |log| && log[i].scope == scope && log[i].id == id;
        assert log[..n][i] == log[i];
      }
    }
  }

  lemma QueueOne(e: Entry, scope: Scope)
    ensures Queue([e], scope) == if e.scope == scope then [e.id] else []
  {
    assert [e][..0] == [];
  }

  lemma {:induction false} QueueNone(log: seq<Entry>, scope: Scope)
    requires forall k :: 0 <= k < |log| ==> log[k].scope != scope
    ensures Queue(log, scope) == []
  {
    if log != [] { QueueNone(log[..|log| - 1], scope); }
  }

  lemma QueueParts(log: seq<Entry>, i: nat, scope: Scope)
    requires i < |log|
    ensures Queue(log, scope) == Queue(log[..i], scope) + Queue([log[i]], scope) + Queue(log[i + 1..], scope)
    ensures Queue(Without(log, i), scope) == Queue(log[..i], scope) + Queue(log[i + 1..], scope)
  {
    hide Queue;
    var a, b := log[..i], log[i + 1..];
    assert log == a + [log[i]] + b;
    QueueConcat(a + [log[i]], b, scope);
    QueueConcat(a, [log[i]], scope);
    QueueConcat(a, b, scope);
  }

  /** Dropping entry i takes its identifier out of its scope's queue, at the front if i is the oldest. */
  lemma QueueWithout(log: seq<Entry>, i: nat, scope: Scope)
    requires i < |log|
    ensures log[i].scope != scope ==> Queue(Without(log, i), scope) == Queue(log, scope)
    ensures log[i].scope == scope && i == Oldest(log, scope) ==>
              Queue(log, scope) == [log[i].id] + Queue(Without(log, i), scope)
  {
    hide Queue;
    QueueParts(log, i, scope);
    QueueOne(log[i], scope);
    if i == Oldest(log, scope) { QueueNone(log[..i], scope); }
  }

  lemma {:induction false} KeepMember(log: seq<Entry>, drop: set<Scope>, e: Entry)
    ensures e in Keep(log, drop) <==> e in log && e.scope !in drop
  {
    if log != [] {
      var n := |log| - 1;
      KeepMember(log[..n], drop, e);
      assert log == log[..n] + [log[n]];
    }
  }

  lemma {:induction false} KeepQueue(log: seq<Entry>, drop: set<Scope>, scope: Scope)
    ensures Queue(Keep(log, drop), scope) == if scope in drop then [] else Queue(log, scope)
  {
    if log != [] {
      var n := |log| - 1;
      KeepQueue(log[..n], drop, scope);
      var kept := Keep(log[..n], drop);
      if log[n].scope !in drop {
        QueueConcat(kept, [log[n]], scope);
        QueueOne(log[n], scope);
      } else {
        assert kept + [] == kept;
      }
    }
  }

  lemma {:induction false} KeepLess(log: seq<Entry>, drop: set<Scope>, scope: Scope)
    requires scope !in drop
    ensures |Keep(log, drop + {scope})| + |Queue(log, scope)| == |Keep(log, drop)|
  {
    if log != [] { KeepLess(log[..|log| - 1], drop, scope); }
  }

  lemma {:induction false} KeepShortens(log: seq<Entry>, drop: set<Scope>)
    ensures |Keep(log, drop)| <= |log|
  {
    if log != [] { KeepShortens(log[..|log| - 1], drop); }
  }

  lemma {:induction false} KeepAll(log: seq<Entry>, drop: set<Scope>)
    requires forall e :: e in log ==> e.scope !in drop
    ensures Keep(log, drop) == log
  {
    if log != [] {
      var n := |log| - 1;
      assert log == log[..n] + [log[n]];
      KeepAll(log[..n], drop);
    }
  }

  // ---- How the maps and queues stand for the list

  datatype Seen = Seen(generation: nat, matched: bool)

  datatype Window = Window(ids: map<string, Seen>, order: seq<(string, nat)>)

  datatype Record = Record(scope: Scope, id: string, generation: nat)

  predicate Present(scopes: map<Scope, Window>, scope: Scope, id: string) {
    scope in scopes && id in scopes[scope].ids
  }

  function Gen(scopes: map<Scope, Window>, e: Entry): nat
    requires Present(scopes, e.scope, e.id)
  {
    scopes[e.scope].ids[e.id].generation
  }

  /** The record is that of a present identifier, not of an earlier observation of it. */
  predicate Live(scopes: map<Scope, Window>, r: Record) {
    Present(scopes, r.scope, r.id) && scopes[r.scope].ids[r.id].generation == r.generation
  }

  ghost predicate Holds(scopes: map<Scope, Window>, e: Entry, next: nat) {
    Present(scopes, e.scope, e.id) && scopes[e.scope].ids[e.id].matched == e.matched && Gen(scopes, e) < next
  }

  /** A window holds exactly its scope's queue, each identifier with its generation. */
  ghost predicate WindowHolds(w: Window, queue: seq<string>) {
    && |w.ids| == |w.order| == |queue|
    && (forall k :: 0 <= k < |queue| ==> queue[k] in w.ids && w.order[k] == (queue[k], w.ids[queue[k]].generation))
    && (forall id :: id in w.ids ==> id in queue)
  }

  ghost predicate Backed(log: seq<Entry>, scopes: map<Scope, Window>, next: nat) {
    && (forall i :: 0 <= i < |log| ==> Holds(scopes, log[i], next))
    && (forall i, j :: 0 <= i < j < |log| ==> Gen(scopes, log[i]) < Gen(scopes, log[j]))
    && (forall s :: s in scopes ==> WindowHolds(scopes[s], Queue(log, s)))
  }

  /** The global queue lists the live records in order, among stale ones. */
  ghost predicate Listed(log: seq<Entry>, scopes: map<Scope, Window>, order: seq<Record>, next: nat) {
    && (forall i, j :: 0 <= i < j < |order| ==> order[i].generation < order[j].generation)
    && (forall i :: 0 <= i < |order| ==> order[i].generation < next)
    && (forall i :: 0 <= i < |log| && Present(scopes, log[i].scope, log[i].id) ==> RecordOf(scopes, log[i]) in order)
  }

  function RecordOf(scopes: map<Scope, Window>, e: Entry): Record
    requires Present(scopes, e.scope, e.id)
  {
    Record(e.scope, e.id, Gen(scopes, e))
  }

  /** A present identifier is one of the list, and at one place only. */
  lemma PresentMeans(log: seq<Entry>, scopes: map<Scope, Window>, next: nat, scope: Scope, id: string)
    requires Backed(log, scopes, next)
    ensures Present(scopes, scope, id) <==> Knows(log, scope, id)
    ensures Knows(log, scope, id) ==>
              forall k :: 0 <= k < |log| && log[k].scope == scope && log[k].id == id ==> k == IndexOf(log, scope, id)
  {
    hide Queue, IndexOf, Gen;
    var i := IndexOf(log, scope, id);
    if Present(scopes, scope, id) {
      assert WindowHolds(scopes[scope], Queue(log, scope));
      QueueMember(log, scope, id);
      var k :| 0 <= k < |log| && log[k].scope == scope && log[k].id == id;
    }
    if i < |log| {
      assert Holds(scopes, log[i], next);
      forall k | 0 <= k < |log| && log[k].scope == scope && log[k].id == id ensures k == i {
        assert Holds(scopes, log[k], next);
        assert Gen(scopes, log[k]) == Gen(scopes, log[i]) by { SameGen(scopes, log[k], log[i]); }
      }
    }
  }

  lemma SameGen(scopes: map<Scope, Window>, d: Entry, e: Entry)
    requires d.scope == e.scope && d.id == e.id && Present(scopes, d.scope, d.id)
    ensures Gen(scopes, d) == Gen(scopes, e)
  {}

  /** The windows after an observation is added to its scope's window w. */
  function Extended(scopes: map<Scope, Window>, e: Entry, next: nat): map<Scope, Window> {
    var w := if e.scope in scopes then scopes[e.scope] else Window(map[], []);
    scopes[e.scope := Window(w.ids[e.id := Seen(next, e.matched)], w.order + [(e.id, next)])]
  }

  lemma ExtendedEntry(scopes: map<Scope, Window>, d: Entry, e: Entry, next: nat)
    requires Holds(scopes, d, next) && !Present(scopes, e.scope, e.id)
    ensures Holds(Extended(scopes, e, next), d, next + 1) && Gen(Extended(scopes, e, next), d) == Gen(scopes, d)
  {}

  lemma ExtendedWindow(w: Window, queue: seq<string>, id: string, seen: Seen)
    requires WindowHolds(w, queue) && id !in w.ids
    ensures WindowHolds(Window(w.ids[id := seen], w.order + [(id, seen.generation)]), queue + [id])
  {
    var ids := w.ids[id := seen];
    assert ids.Keys == w.ids.Keys + {id};
    assert |ids.Keys| == |ids| && |w.ids.Keys| == |w.ids|;
  }

  lemma ExtendedWindows(log: seq<Entry>, scopes: map<Scope, Window>, next: nat, e: Entry, s: Scope)
    requires Backed(log, scopes, next) && !Present(scopes, e.scope, e.id)
    requires s in Extended(scopes, e, next)
    ensures WindowHolds(Extended(scopes, e, next)[s], Queue(log + [e], s))
  {
    hide Queue;
    QueueConcat(log, [e], s);
    QueueOne(e, s);
    if s in scopes {
      assert WindowHolds(scopes[s], Queue(log, s));
    } else {
      forall k | 0 <= k < |log| ensures log[k].scope != s { assert Holds(scopes, log[k], next); }
      QueueNone(log, s);
    }
    if s == e.scope {
      var w := if e.scope in scopes then scopes[e.scope] else Window(map[], []);
      ExtendedWindow(w, Queue(log, s), e.id, Seen(next, e.matched));
    } else {
      assert Queue(log, s) + [] == Queue(log, s);
    }
  }

  lemma Appended(log: seq<Entry>, scopes: map<Scope, Window>, order: seq<Record>, next: nat, e: Entry)
    requires Backed(log, scopes, next) && Listed(log, scopes, order, next) && !Present(scopes, e.scope, e.id)
    ensures Backed(log + [e], Extended(scopes, e, next), next + 1)
    ensures Listed(log + [e], Extended(scopes, e, next), order + [Record(e.scope, e.id, next)], next + 1)
  {
    hide Queue, WindowHolds;
    var scopes', log', order' := Extended(scopes, e, next), log + [e], order + [Record(e.scope, e.id, next)];
    forall i | 0 <= i < |log| ensures Holds(scopes', log[i], next + 1) && Gen(scopes', log[i]) == Gen(scopes, log[i]) {
      assert Holds(scopes, log[i], next);
      ExtendedEntry(scopes, log[i], e, next);
    }
    assert Holds(scopes', e, next + 1) && Gen(scopes', e) == next;
    forall s | s in scopes' ensures WindowHolds(scopes'[s], Queue(log', s)) {
      ExtendedWindows(log, scopes, next, e, s);
    }
    forall i | 0 <= i < |log'| ensures RecordOf(scopes', log'[i]) in order' {
      if i < |log| { assert RecordOf(scopes, log[i]) in order; } else { assert order'[|order|] == RecordOf(scopes', e); }
    }
  }

  /** The windows after the oldest entry of a scope is dropped. */
  function Dropped(scopes: map<Scope, Window>, e: Entry): map<Scope, Window>
    requires Present(scopes, e.scope, e.id) && scopes[e.scope].order != []
  {
    scopes[e.scope := Window(scopes[e.scope].ids - {e.id}, scopes[e.scope].order[1..])]
  }

  lemma FrontIs(log: seq<Entry>, scopes: map<Scope, Window>, next: nat, i: nat)
    requires Backed(log, scopes, next) && i < |log| && i == Oldest(log, log[i].scope)
    ensures var w := scopes[log[i].scope];
            && Present(scopes, log[i].scope, log[i].id) && w.order != []
            && w.order[0] == (log[i].id, Gen(scopes, log[i]))
            && WindowHolds(w, [log[i].id] + Queue(Without(log, i), log[i].scope))
  {
    hide Queue, Oldest;
    assert Holds(scopes, log[i], next);
    assert WindowHolds(scopes[log[i].scope], Queue(log, log[i].scope));
    QueueWithout(log, i, log[i].scope);
    assert ([log[i].id] + Queue(Without(log, i), log[i].scope))[0] == log[i].id;
  }

  lemma DroppedEntry(log: seq<Entry>, scopes: map<Scope, Window>, next: nat, i: nat, j: nat)
    requires Backed(log, scopes, next) && i < |log| && j < |log| && i != j
    requires Present(scopes, log[i].scope, log[i].id) && scopes[log[i].scope].order != []
    ensures Holds(Dropped(scopes, log[i]), log[j], next)
    ensures Present(scopes, log[j].scope, log[j].id) && Gen(Dropped(scopes, log[i]), log[j]) == Gen(scopes, log[j])
  {
    hide Queue, WindowHolds;
    OneEntry(log, scopes, next, i, j);
    assert Holds(scopes, log[j], next);
  }

  lemma DroppedWindow(log: seq<Entry>, scopes: map<Scope, Window>, next: nat, i: nat, s: Scope)
    requires Backed(log, scopes, next) && i < |log| && i == Oldest(log, log[i].scope)
    requires Present(scopes, log[i].scope, log[i].id) && scopes[log[i].scope].order != []
    requires s in scopes
    ensures WindowHolds(Dropped(scopes, log[i])[s], Queue(Without(log, i), s))
  {
    hide Queue, Oldest;
    assert WindowHolds(scopes[s], Queue(log, s));
    if s == log[i].scope {
      FrontIs(log, scopes, next, i);
      FrontDropped(scopes[s], log[i].id, Queue(Without(log, i), s));
    } else {
      QueueWithout(log, i, s);
    }
  }

  lemma DroppedAt(log: seq<Entry>, scopes: map<Scope, Window>, order: seq<Record>, next: nat, i: nat, j: nat)
    requires Backed(log, scopes, next) && Listed(log, scopes, order, next)
    requires i < |log| && j < |log| && i != j
    requires Present(scopes, log[i].scope, log[i].id) && scopes[log[i].scope].order != []
    ensures var scopes' := Dropped(scopes, log[i]);
            && Holds(scopes', log[j], next) && Present(scopes, log[j].scope, log[j].id)
            && Gen(scopes', log[j]) == Gen(scopes, log[j]) && RecordOf(scopes', log[j]) in order
  {
    hide Queue, WindowHolds, Dropped, Gen;
    DroppedEntry(log, scopes, next, i, j);
    assert RecordOf(scopes, log[j]) in order;
  }

  lemma DroppedBacked(log: seq<Entry>, scopes: map<Scope, Window>, order: seq<Record>, next: nat, i: nat)
    requires Backed(log, scopes, next) && Listed(log, scopes, order, next)
    requires i < |log| && i == Oldest(log, log[i].scope)
    requires Present(scopes, log[i].scope, log[i].id) && scopes[log[i].scope].order != []
    ensures Backed(Without(log, i), Dropped(scopes, log[i]), next)
    ensures Listed(Without(log, i), Dropped(scopes, log[i]), order, next)
  {
    hide Queue, Oldest, WindowHolds, Dropped, Gen, RecordOf;
    var log', scopes' := Without(log, i), Dropped(scopes, log[i]);
    forall k | 0 <= k < |log'|
      ensures Holds(scopes', log'[k], next) && Present(scopes, log'[k].scope, log'[k].id)
      ensures Gen(scopes', log'[k]) == Gen(scopes, log'[k]) && RecordOf(scopes', log'[k]) in order
      ensures log'[k] == log[if k < i then k else k + 1]
    {
      DroppedAt(log, scopes, order, next, i, if k < i then k else k + 1);
    }
    forall s | s in scopes' ensures WindowHolds(scopes'[s], Queue(log', s)) {
      DroppedKeys(scopes, log[i]);
      DroppedWindow(log, scopes, next, i, s);
    }
    forall a, b | 0 <= a < b < |log'| ensures Gen(scopes', log'[a]) < Gen(scopes', log'[b]) {
      assert Gen(scopes, log[if a < i then a else a + 1]) < Gen(scopes, log[if b < i then b else b + 1]);
    }
  }

  lemma DroppedKeys(scopes: map<Scope, Window>, e: Entry)
    requires Present(scopes, e.scope, e.id) && scopes[e.scope].order != []
    ensures Dropped(scopes, e).Keys == scopes.Keys
  {}

  lemma OneEntry(log: seq<Entry>, scopes: map<Scope, Window>, next: nat, i: nat, j: nat)
    requires Backed(log, scopes, next) && i < |log| && j < |log| && i != j
    ensures !(log[i].scope == log[j].scope && log[i].id == log[j].id)
  {
    hide Queue;
    assert Holds(scopes, log[i], next) && Holds(scopes, log[j], next);
    if i < j { assert Gen(scopes, log[i]) < Gen(scopes, log[j]); } else { assert Gen(scopes, log[j]) < Gen(scopes, log[i]); }
  }

  lemma FrontDropped(w: Window, id: string, queue: seq<string>)
    requires WindowHolds(w, [id] + queue)
    ensures WindowHolds(Window(w.ids - {id}, w.order[1..]), queue)
  {
    var all := [id] + queue;
    assert all[0] == id && id in w.ids;
    assert (w.ids - {id}).Keys == w.ids.Keys - {id};
    assert |w.ids.Keys| == |w.ids| && |(w.ids - {id}).Keys| == |w.ids - {id}|;
    DistinctQueue(w, all);
    forall k | 0 <= k < |queue| ensures queue[k] in w.ids - {id} && w.order[1..][k] == (queue[k], w.ids[queue[k]].generation) {
      assert all[k + 1] == queue[k];
      assert all[0] != all[k + 1];
    }
  }

  /** As many identifiers as places: no identifier is queued twice. */
  lemma DistinctQueue(w: Window, queue: seq<string>)
    requires WindowHolds(w, queue)
    ensures forall i, j :: 0 <= i < j < |queue| ==> queue[i] != queue[j]
  {
    assert w.ids.Keys == Elements(queue);
    assert |w.ids.Keys| == |queue|;
    ElementsAtMost(queue);
  }

  // ---- Forgetting whole scopes

  ghost predicate Ascending(log: seq<Entry>, scopes: map<Scope, Window>) {
    && (forall i :: 0 <= i < |log| ==> Present(scopes, log[i].scope, log[i].id))
    && (forall i, j :: 0 <= i < j < |log| ==> Gen(scopes, log[i]) < Gen(scopes, log[j]))
  }

  lemma {:induction false} KeepAscending(log: seq<Entry>, scopes: map<Scope, Window>, drop: set<Scope>)
    requires Ascending(log, scopes)
    ensures Ascending(Keep(log, drop), scopes)
  {
    hide Gen, Present;
    if log != [] {
      var n := |log| - 1;
      var kept := Keep(log[..n], drop);
      assert forall i :: 0 <= i < n ==> log[..n][i] == log[i];
      KeepAscending(log[..n], scopes, drop);
      forall i | 0 <= i < |kept| ensures Present(scopes, kept[i].scope, kept[i].id) && Gen(scopes, kept[i]) < Gen(scopes, log[n]) {
        KeepMember(log[..n], drop, kept[i]);
        var k :| 0 <= k < n && log[k] == kept[i];
      }
    }
  }

  lemma KeptBacked(log: seq<Entry>, scopes: map<Scope, Window>, order: seq<Record>, next: nat, drop: set<Scope>)
    requires Backed(log, scopes, next) && Listed(log, scopes, order, next)
    ensures Backed(Keep(log, drop), scopes - drop, next)
    ensures forall i :: 0 <= i < |Keep(log, drop)| ==>
              var e := Keep(log, drop)[i]; Present(scopes - drop, e.scope, e.id) && RecordOf(scopes - drop, e) in order
  {
    hide Queue, Keep, WindowHolds, Gen;
    var kept, left := Keep(log, drop), scopes - drop;
    forall i | 0 <= i < |log| ensures Present(scopes, log[i].scope, log[i].id) { assert Holds(scopes, log[i], next); }
    KeepAscending(log, scopes, drop);
    forall i | 0 <= i < |kept|
      ensures Holds(left, kept[i], next) && Present(scopes, kept[i].scope, kept[i].id)
      ensures Gen(left, kept[i]) == Gen(scopes, kept[i]) && RecordOf(left, kept[i]) in order
    {
      KeepMember(log, drop, kept[i]);
      var k :| 0 <= k < |log| && log[k] == kept[i];
      assert Holds(scopes, log[k], next) && RecordOf(scopes, log[k]) in order;
      KeptGen(scopes, drop, log[k]);
    }
    forall s | s in left ensures WindowHolds(left[s], Queue(kept, s)) {
      KeepQueue(log, drop, s);
      assert WindowHolds(scopes[s], Queue(log, s));
    }
  }

  lemma KeptGen(scopes: map<Scope, Window>, drop: set<Scope>, e: Entry)
    requires Present(scopes, e.scope, e.id) && e.scope !in drop
    ensures Present(scopes - drop, e.scope, e.id) && Gen(scopes - drop, e) == Gen(scopes, e)
  {}

  function Retained(order: seq<Record>, keep: Record -> bool): seq<Record> {
    if order == [] then []
    else Retained(order[..|order| - 1], keep) + if keep(order[|order| - 1]) then [order[|order| - 1]] else []
  }

  lemma {:induction false} RetainedMeans(order: seq<Record>, keep: Record -> bool, next: nat)
    requires forall i, j :: 0 <= i < j < |order| ==> order[i].generation < order[j].generation
    requires forall i :: 0 <= i < |order| ==> order[i].generation < next
    ensures var r := Retained(order, keep);
            && |r| <= |order|
            && (forall i, j :: 0 <= i < j < |r| ==> r[i].generation < r[j].generation)
            && (forall i :: 0 <= i < |r| ==> r[i].generation < next)
            && (forall x :: x in r <==> x in order && keep(x))
  {
    if order != [] {
      var n := |order| - 1;
      assert order == order[..n] + [order[n]];
      RetainedMeans(order[..n], keep, order[n].generation);
    }
  }

  // ---- Facts the evictions rest on

  lemma AppendedCounts(log: seq<Entry>, e: Entry)
    ensures Queue(log + [e], e.scope) == Queue(log, e.scope) + [e.id]
    ensures forall s :: s != e.scope ==> Queue(log + [e], s) == Queue(log, s)
  {
    hide Queue;
    forall s ensures Queue(log + [e], s) == Queue(log, s) + if s == e.scope then [e.id] else [] {
      QueueConcat(log, [e], s);
      QueueOne(e, s);
    }
  }

  lemma QueueHasOldest(log: seq<Entry>, scope: Scope)
    requires Queue(log, scope) != []
    ensures Oldest(log, scope) < |log|
  {
    hide Queue, Oldest;
    if Oldest(log, scope) == |log| { QueueNone(log, scope); }
  }

  lemma OthersKept(log: seq<Entry>, i: nat)
    requires i < |log| && i == Oldest(log, log[i].scope)
    ensures forall s :: s != log[i].scope ==> Queue(Without(log, i), s) == Queue(log, s)
    ensures |Queue(Without(log, i), log[i].scope)| == |Queue(log, log[i].scope)| - 1
  {
    hide Queue, Oldest;
    forall s ensures s != log[i].scope ==> Queue(Without(log, i), s) == Queue(log, s) { QueueWithout(log, i, s); }
    QueueWithout(log, i, log[i].scope);
  }

  lemma SameRecord(scopes: map<Scope, Window>, d: Entry, r: Record)
    requires Present(scopes, d.scope, d.id) && d.scope == r.scope && d.id == r.id && Live(scopes, r)
    ensures RecordOf(scopes, d) == r
  {}

  /** A live record at the front is that of the overall oldest entry. */
  lemma FirstLive(log: seq<Entry>, scopes: map<Scope, Window>, order: seq<Record>, next: nat)
    requires Backed(log, scopes, next) && Listed(log, scopes, order, next)
    requires order != [] && log != [] && Live(scopes, order[0])
    ensures log[0].scope == order[0].scope && log[0].id == order[0].id
  {
    hide Queue, Gen, WindowHolds, IndexOf;
    var r := order[0];
    PresentMeans(log, scopes, next, r.scope, r.id);
    var k := IndexOf(log, r.scope, r.id);
    assert Holds(scopes, log[k], next) && Holds(scopes, log[0], next);
    SameRecord(scopes, log[k], r);
    var first := RecordOf(scopes, log[0]);
    assert first in order;
  }

  lemma PoppedListed(log: seq<Entry>, scopes: map<Scope, Window>, order: seq<Record>, next: nat)
    requires Listed(log, scopes, order, next) && order != [] && !Live(scopes, order[0])
    ensures Listed(log, scopes, order[1..], next)
  {
    hide Gen;
    assert order == [order[0]] + order[1..];
    forall i | 0 <= i < |log| && Present(scopes, log[i].scope, log[i].id) ensures RecordOf(scopes, log[i]) in order[1..] {
      assert RecordOf(scopes, log[i]) in order;
      RecordLive(scopes, log[i]);
    }
  }

  lemma RecordLive(scopes: map<Scope, Window>, e: Entry)
    requires Present(scopes, e.scope, e.id)
    ensures Live(scopes, RecordOf(scopes, e))
  {}

  lemma {:induction false} Generations(order: seq<Record>)
    requires forall i, j :: 0 <= i < j < |order| ==> order[i].generation < order[j].generation
    ensures |set r | r in order :: r.generation| == |order|
  {
    if order == [] {
      assert (set r | r in order :: r.generation) == {};
    } else {
      var n := |order| - 1;
      Generations(order[..n]);
      assert order == order[..n] + [order[n]];
      var before := set r | r in order[..n] :: r.generation;
      assert (set r | r in order :: r.generation) == before + {order[n].generation};
      assert order[n].generation !in before;
    }
  }

  lemma {:induction false} EntriesBound(log: seq<Entry>, scopes: map<Scope, Window>)
    requires forall i :: 0 <= i < |log| ==> Present(scopes, log[i].scope, log[i].id)
    ensures |set e | e in log && Present(scopes, e.scope, e.id) :: Gen(scopes, e)| <= |log|
  {
    hide Gen, Present;
    var all := set e | e in log && Present(scopes, e.scope, e.id) :: Gen(scopes, e);
    if log == [] {
      assert all == {};
    } else {
      var n := |log| - 1;
      EntriesBound(log[..n], scopes);
      assert log == log[..n] + [log[n]];
      var before := set e | e in log[..n] && Present(scopes, e.scope, e.id) :: Gen(scopes, e);
      assert all == before + {Gen(scopes, log[n])};
    }
  }

  /** There are no more live records than entries. */
  lemma LiveAreFew(log: seq<Entry>, scopes: map<Scope, Window>, order: seq<Record>, next: nat)
    requires Backed(log, scopes, next)
    requires forall i, j :: 0 <= i < j < |order| ==> order[i].generation < order[j].generation
    requires forall r :: r in order ==> Live(scopes, r)
    ensures |order| <= |log|
  {
    hide Queue, Gen, WindowHolds, IndexOf;
    forall i | 0 <= i < |log| ensures Present(scopes, log[i].scope, log[i].id) { assert Holds(scopes, log[i], next); }
    Generations(order);
    EntriesBound(log, scopes);
    var gens := set r | r in order :: r.generation;
    var all := set e | e in log && Present(scopes, e.scope, e.id) :: Gen(scopes, e);
    forall r | r in order ensures r.generation in all {
      PresentMeans(log, scopes, next, r.scope, r.id);
      var e := log[IndexOf(log, r.scope, r.id)];
      SameRecord(scopes, e, r);
      assert e in log;
    }
    SubsetSize(gens, all);
  }

  lemma FrontLive(w: Window, queue: seq<string>)
    requires WindowHolds(w, queue) && w.order != []
    ensures w.order[0].0 in w.ids && w.ids[w.order[0].0].generation == w.order[0].1
  {
    assert queue[0] in w.ids && w.order[0] == (queue[0], w.ids[queue[0]].generation);
  }

  lemma WindowCounts(w: Window, queue: seq<string>)
    requires WindowHolds(w, queue)
    ensures |w.ids| == |w.order| == |queue| && (w.ids == map[] <==> queue == [])
  {
    if queue == [] { assert w.ids == map[]; }
  }

  lemma BackedWindow(log: seq<Entry>, scopes: map<Scope, Window>, next: nat, s: Scope)
    requires Backed(log, scopes, next) && s in scopes
    ensures WindowHolds(scopes[s], Queue(log, s))
    ensures |scopes[s].ids| == |scopes[s].order| == |Queue(log, s)|
  {
    hide Queue;
  }

  lemma PresentIs(scopes: map<Scope, Window>, scope: Scope, id: string)
    ensures Present(scopes, scope, id) <==> scope in scopes && id in scopes[scope].ids
  {}

  lemma AbsentScope(log: seq<Entry>, scopes: map<Scope, Window>, next: nat, scope: Scope)
    requires Backed(log, scopes, next) && scope !in scopes
    ensures Queue(log, scope) == []
  {
    hide Queue, WindowHolds;
    forall k | 0 <= k < |log| ensures log[k].scope != scope { assert Holds(scopes, log[k], next); }
    QueueNone(log, scope);
  }

  lemma FirstListed(log: seq<Entry>, scopes: map<Scope, Window>, order: seq<Record>, next: nat)
    requires Backed(log, scopes, next) && Listed(log, scopes, order, next) && log != []
    ensures order != []
  {
    hide Queue, WindowHolds;
    assert Holds(scopes, log[0], next);
    assert RecordOf(scopes, log[0]) in order;
  }

  lemma FrontHeld(w: Window, id: string, queue: seq<string>)
    requires WindowHolds(w, [id] + queue)
    ensures w.order != [] && w.order[0].0 == id && id in w.ids && w.ids[id].generation == w.order[0].1
  {
    assert ([id] + queue)[0] == id;
  }

  lemma BackedEntry(log: seq<Entry>, scopes: map<Scope, Window>, next: nat, i: nat)
    requires Backed(log, scopes, next) && i < |log|
    ensures Holds(scopes, log[i], next)
  {
    hide Queue;
  }

  lemma EmptyScope(log: seq<Entry>, scopes: map<Scope, Window>, order: seq<Record>, next: nat, scope: Scope)
    requires Backed(log, scopes, next) && Listed(log, scopes, order, next) && Queue(log, scope) == []
    ensures Backed(log, scopes - {scope}, next) && Listed(log, scopes - {scope}, order, next)
  {
    hide Queue, Gen, WindowHolds;
    forall i | 0 <= i < |log|
      ensures Holds(scopes - {scope}, log[i], next) && Present(scopes, log[i].scope, log[i].id)
      ensures Gen(scopes - {scope}, log[i]) == Gen(scopes, log[i])
    {
      assert Holds(scopes, log[i], next);
      if log[i].scope == scope { QueueMember(log, scope, log[i].id); }
      KeptGen(scopes, {scope}, log[i]);
    }
  }

  // ---- The state machine

  const MAX_GENERATION: nat := 0xFFFF_FFFF_FFFF_FFFF

  /** Generations wrap around to 1. */
  function Succeeding(generation: nat): nat {
    if generation >= MAX_GENERATION then 1 else generation + 1
  }

  datatype Observation = Observation(first: bool, previouslyMatched: bool)

  /** Whether an observation is the first inside the window, and if not, what was noted then. */
  function Noted(log: seq<Entry>, scope: Scope, id: string): Observation {
    if Knows(log, scope, id) then Observation(false, log[IndexOf(log, scope, id)].matched) else Observation(true, false)
  }

  class ScopedSeenIds {
    const maxPerScope: nat
    const maxTotal: nat
    var nextGeneration: nat
    var total: nat
    var scopes: map<Scope, Window>
    var globalOrder: seq<Record>
    ghost var log: seq<Entry>

    ghost predicate Consistent()
      reads this
    {
      && 0 < maxPerScope <= maxTotal && 0 < nextGeneration <= MAX_GENERATION
      && total == |log|
      && Backed(log, scopes, nextGeneration)
      && Listed(log, scopes, globalOrder, nextGeneration)
    }

    /** No empty window is kept, and every bound holds. */
    ghost predicate Valid()
      reads this
    {
      && Consistent()
      && total <= maxTotal
      && |globalOrder| <= 2 * maxTotal
      && (forall s :: s in scopes ==> 0 < |scopes[s].ids| == |scopes[s].order| == |Queue(log, s)| <= maxPerScope)
    }

    constructor (maxPerScope: nat, maxTotal: nat)
      requires 0 < maxPerScope <= maxTotal
      ensures Valid() && log == [] && nextGeneration == 1
      ensures this.maxPerScope == maxPerScope && this.maxTotal == maxTotal
    {
      this.maxPerScope, this.maxTotal := maxPerScope, maxTotal;
      nextGeneration, total, scopes, globalOrder, log := 1, 0, map[], [], [];
    }

    /** Whether this is the first observation still inside the window, and if not, what was noted then. */
    method ObserveWithMatch(scope: Scope, id: string, matched: bool) returns (o: Observation)
      requires Valid() && (Knows(log, scope, id) || nextGeneration < MAX_GENERATION)
      modifies this
      ensures Valid() && nextGeneration <= old(nextGeneration) + 1
      ensures log == Observed(old(log), Entry(scope, id, matched), maxPerScope, maxTotal)
      ensures o == Noted(old(log), scope, id)
    {
      hide Queue, IndexOf, Oldest, Gen, WindowHolds, Backed, Listed, Present;
      PresentMeans(log, scopes, nextGeneration, scope, id);
      PresentIs(scopes, scope, id);
      var window := if scope in scopes then scopes[scope] else Window(map[], []);
      if id in window.ids {
        BackedEntry(log, scopes, nextGeneration, IndexOf(log, scope, id));
        return Observation(false, window.ids[id].matched);
      }
      Insert(scope, id, matched, window);
      EvictFromScope(scope);
      EvictGlobal();
      return Observation(true, false);
    }

    /** Adds an identifier that its window does not hold. */
    method Insert(scope: Scope, id: string, matched: bool, window: Window)
      requires Valid() && nextGeneration < MAX_GENERATION && !Present(scopes, scope, id)
      requires window == if scope in scopes then scopes[scope] else Window(map[], [])
      modifies this
      ensures Consistent() && nextGeneration == old(nextGeneration) + 1 && scope in scopes
      ensures log == old(log) + [Entry(scope, id, matched)] && total <= maxTotal + 1
      ensures |globalOrder| <= 2 * maxTotal + 1
      ensures |Queue(log, scope)| <= maxPerScope + 1
      ensures forall s :: s in scopes ==> 0 < |Queue(log, s)| && (s != scope ==> |Queue(log, s)| <= maxPerScope)
    {
      hide Queue, Gen, WindowHolds, Backed, Listed, Present;
      ghost var e := Entry(scope, id, matched);
      var generation := nextGeneration;
      Appended(log, scopes, globalOrder, nextGeneration, e);
      AppendedCounts(log, e);
      if scope !in scopes { AbsentScope(log, scopes, nextGeneration, scope); }
      nextGeneration := Succeeding(nextGeneration);
      scopes := scopes[scope := Window(window.ids[id := Seen(generation, matched)], window.order + [(id, generation)])];
      globalOrder := globalOrder + [Record(scope, id, generation)];
      total := total + 1;
      log := log + [e];
    }

    /** Pops the scope's queue until its window fits: the scope's oldest identifier goes, if any has to. */
    method EvictFromScope(scope: Scope)
      requires Consistent() && scope in scopes
      requires |Queue(log, scope)| <= maxPerScope + 1
      requires forall s :: s in scopes ==> 0 < |Queue(log, s)| && (s != scope ==> |Queue(log, s)| <= maxPerScope)
      modifies this`scopes, this`total, this`log
      ensures Consistent() && total <= old(total)
      ensures forall s :: s in scopes ==> 0 < |Queue(log, s)| <= maxPerScope
      ensures var oldest := Oldest(old(log), scope);
              log == if |Queue(old(log), scope)| > maxPerScope && oldest < |old(log)|
                     then Without(old(log), oldest) else old(log)
    {
      hide Queue, Oldest, Gen, WindowHolds, Backed, Listed, Present, Without;
      BackedWindow(log, scopes, nextGeneration, scope);
      while |scopes[scope].ids| > maxPerScope
        invariant Consistent() && scopes.Keys == old(scopes.Keys) && total <= old(total)
        invariant |scopes[scope].ids| == |Queue(log, scope)| <= maxPerScope + 1
        invariant |scopes[scope].ids| > maxPerScope ==> log == old(log) && scopes == old(scopes)
        invariant |scopes[scope].ids| <= maxPerScope ==>
                    log == if |Queue(old(log), scope)| > maxPerScope && Oldest(old(log), scope) < |old(log)|
                           then Without(old(log), Oldest(old(log), scope)) else old(log)
        invariant forall s :: s in scopes ==> 0 < |Queue(log, s)| && (s != scope ==> |Queue(log, s)| <= maxPerScope)
        decreases |scopes[scope].ids|
      {
        PopScope(scope);
      }
    }

    /** Pops the front of a scope's queue, which is the scope's oldest identifier. */
    method PopScope(scope: Scope)
      requires Consistent() && scope in scopes && Queue(log, scope) != []
      modifies this`scopes, this`total, this`log
      ensures Consistent() && scopes.Keys == old(scopes.Keys) && total == old(total) - 1
      ensures Oldest(old(log), scope) < |old(log)| && log == Without(old(log), Oldest(old(log), scope))
      ensures |scopes[scope].ids| == |Queue(log, scope)| == |Queue(old(log), scope)| - 1
      ensures forall s :: s != scope ==> Queue(log, s) == Queue(old(log), s)
    {
      hide Queue, Oldest, Gen, WindowHolds, Backed, Listed;
      var window := scopes[scope];
      BackedWindow(log, scopes, nextGeneration, scope);
      ghost var i := Oldest(log, scope);
      QueueHasOldest(log, scope);
      FrontIs(log, scopes, nextGeneration, i);
      DroppedBacked(log, scopes, globalOrder, nextGeneration, i);
      OthersKept(log, i);
      FrontHeld(window, log[i].id, Queue(Without(log, i), scope));
      var (oldest, oldestGeneration) := window.order[0];
      window := window.(order := window.order[1..]);
      if oldest in window.ids && window.ids[oldest].generation == oldestGeneration {
        window := window.(ids := window.ids - {oldest});
        total := total - 1;
      }
      assert scopes[scope := window] == Dropped(scopes, log[i]);
      scopes := scopes[scope := window];
      log := Without(log, i);
      BackedWindow(log, scopes, nextGeneration, scope);
    }

    /** Pops the global queue, past stale records, until the total fits; then compacts the queue if long. */
    method EvictGlobal()
      requires Consistent() && total <= maxTotal + 1 && |globalOrder| <= 2 * maxTotal + 1
      requires forall s :: s in scopes ==> 0 < |Queue(log, s)| <= maxPerScope
      modifies this`scopes, this`total, this`globalOrder, this`log
      ensures Valid()
      ensures log == if |old(log)| > maxTotal then old(log)[1..] else old(log)
    {
      hide Queue, Gen, WindowHolds, Backed, Listed;
      while total > maxTotal
        invariant Consistent() && |globalOrder| <= 2 * maxTotal + 1
        invariant total > maxTotal ==> log == old(log) && total == maxTotal + 1
        invariant total <= maxTotal ==>
                    log == if |old(log)| > maxTotal then old(log)[1..] else old(log)
        invariant forall s :: s in scopes ==> 0 < |Queue(log, s)| <= maxPerScope
        decreases |globalOrder|
      {
        FirstListed(log, scopes, globalOrder, nextGeneration);
        var r := globalOrder[0];
        if r.scope in scopes && r.id in scopes[r.scope].ids && scopes[r.scope].ids[r.id].generation == r.generation {
          FirstLive(log, scopes, globalOrder, nextGeneration);
          DropFirst(r.scope, r.id);
        }
        PoppedListed(log, scopes, globalOrder, nextGeneration);
        globalOrder := globalOrder[1..];
      }
      if |globalOrder| > maxTotal * 2 { Compact(); }
      forall s | s in scopes ensures 0 < |scopes[s].ids| == |scopes[s].order| == |Queue(log, s)| <= maxPerScope {
        BackedWindow(log, scopes, nextGeneration, s);
      }
    }

    /** Keeps only live records in the global queue, in order. */
    method Compact()
      requires Consistent()
      modifies this`globalOrder
      ensures Consistent() && |globalOrder| <= total
    {
      hide Queue, Gen, Backed;
      var live := scopes;
      RetainedMeans(globalOrder, (x: Record) => Live(live, x), nextGeneration);
      ghost var before := globalOrder;
      globalOrder := Retained(globalOrder, (x: Record) => Live(live, x));
      forall i | 0 <= i < |log| && Present(scopes, log[i].scope, log[i].id)
        ensures RecordOf(scopes, log[i]) in globalOrder
      {
        assert RecordOf(scopes, log[i]) in before;
        RecordLive(scopes, log[i]);
      }
      LiveAreFew(log, scopes, globalOrder, nextGeneration);
    }

    /** Removes the overall oldest identifier, its queue's stale front, and its window if left empty. */
    method DropFirst(scope: Scope, id: string)
      requires Consistent() && log != [] && log[0].scope == scope && log[0].id == id && Present(scopes, scope, id)
      requires forall s :: s in scopes ==> 0 < |Queue(log, s)| <= maxPerScope
      modifies this`scopes, this`total, this`log
      ensures Consistent() && log == old(log)[1..] && total == old(total) - 1 && !Present(scopes, scope, id)
      ensures forall s :: s in scopes ==> 0 < |Queue(log, s)| <= maxPerScope
    {
      hide Queue, Gen, WindowHolds, Backed, Listed;
      var window := scopes[scope];
      assert Oldest(log, scope) == 0;
      FrontIs(log, scopes, nextGeneration, 0);
      DroppedBacked(log, scopes, globalOrder, nextGeneration, 0);
      OthersKept(log, 0);
      assert Without(log, 0) == log[1..];
      ghost var dropped, queue := Dropped(scopes, log[0]), Queue(log[1..], scope);
      window := window.(ids := window.ids - {id});
      total := total - 1;
      ghost var order := window.order;
      BackedWindow(log[1..], dropped, nextGeneration, scope);
      while window.order != [] && !(window.order[0].0 in window.ids
                                    && window.ids[window.order[0].0].generation == window.order[0].1)
        invariant window.ids == dropped[scope].ids
        invariant window.order == order || window.order == order[1..]
        decreases |window.order|
        modifies {}
      {
        if dropped[scope].order != [] { FrontLive(dropped[scope], queue); }
        window := window.(order := window.order[1..]);
      }
      assert order[0].0 == id && id !in window.ids;
      assert window == dropped[scope];
      scopes := scopes[scope := window];
      log := log[1..];
      assert scopes == dropped && !Present(scopes, scope, id);
      WindowCounts(window, queue);
      if window.ids == map[] {
        EmptyScope(log, scopes, globalOrder, nextGeneration, scope);
        scopes := scopes - {scope};
      }
    }

    /** An answer to one subscription is also noted under the wire subscription it came through. */
    method ObserveResponse(peer: string, wire: Option<string>, subscription: string, id: string, matched: bool)
      returns (o: Observation)
      requires Valid() && nextGeneration + 1 < MAX_GENERATION
      modifies this
      ensures Valid()
      ensures var first := if wire.Some? && wire.value != subscription
                           then Observed(old(log), Entry(Scope(peer, wire.value), id, matched), maxPerScope, maxTotal)
                           else old(log);
              && log == Observed(first, Entry(Scope(peer, subscription), id, matched), maxPerScope, maxTotal)
              && o == Noted(first, Scope(peer, subscription), id)
    {
      hide Queue, IndexOf, Oldest, Noted;
      if wire.Some? && wire.value != subscription {
        var earlier := ObserveWithMatch(Scope(peer, wire.value), id, matched);
      }
      o := ObserveWithMatch(Scope(peer, subscription), id, matched);
    }

    /** Forgets whole scopes; the caller clears the global queue. */
    method Forget(drop: set<Scope>)
      requires Valid() && drop <= scopes.Keys
      modifies this`scopes, this`total
      ensures scopes == old(scopes) - drop && total == |Keep(log, drop)|
    {
      hide Queue, Gen, WindowHolds, Backed, Listed, Keep;
      var removed: nat, todo := 0, drop;
      KeepAll(log, {});
      assert drop - drop == {};
      while todo != {}
        invariant todo <= drop && removed + |Keep(log, drop - todo)| == |log|
        decreases todo
        modifies {}
      {
        var s :| s in todo;
        BackedWindow(log, scopes, nextGeneration, s);
        KeepLess(log, drop - todo, s);
        assert drop - (todo - {s}) == (drop - todo) + {s};
        removed := removed + |scopes[s].ids|;
        todo := todo - {s};
      }
      assert drop - {} == drop;
      scopes := scopes - drop;
      total := SaturatingSub(total, removed);
    }

    method ClearPeer(peer: string)
      requires Valid()
      modifies this
      ensures Valid() && nextGeneration == old(nextGeneration)
      ensures log == Keep(old(log), set e | e in old(log) && e.scope.peer == peer :: e.scope)
    {
      hide Queue, Gen, WindowHolds, Backed, Listed, Keep;
      ghost var before := scopes;
      var drop := set s | s in scopes && s.peer == peer;
      Forget(drop);
      KeepShortens(log, drop);
      assert drop == set e | e in log && e.scope.peer == peer :: e.scope by {
        DroppedScopes(log, before, nextGeneration, drop, (s: Scope) => s.peer == peer);
      }
      var keep := (r: Record) => r.scope.peer != peer;
      ghost var order := globalOrder;
      globalOrder := Retained(globalOrder, keep);
      ghost var which := (s: Scope) => s.peer == peer;
      Cleared(log, before, order, nextGeneration, drop, which, keep, maxPerScope);
      log := Keep(log, drop);
    }

    method ClearSubscription(subscription: string)
      requires Valid()
      modifies this
      ensures Valid() && nextGeneration == old(nextGeneration)
      ensures log == Keep(old(log), set e | e in old(log) && e.scope.subscription == subscription :: e.scope)
    {
      hide Queue, Gen, WindowHolds, Backed, Listed, Keep;
      ghost var before := scopes;
      var drop := set s | s in scopes && s.subscription == subscription;
      Forget(drop);
      KeepShortens(log, drop);
      assert drop == set e | e in log && e.scope.subscription == subscription :: e.scope by {
        DroppedScopes(log, before, nextGeneration, drop, (s: Scope) => s.subscription == subscription);
      }
      var keep := (r: Record) => r.scope.subscription != subscription;
      ghost var order := globalOrder;
      globalOrder := Retained(globalOrder, keep);
      ghost var which := (s: Scope) => s.subscription == subscription;
      Cleared(log, before, order, nextGeneration, drop, which, keep, maxPerScope);
      log := Keep(log, drop);
    }
  }

  // ---- Clearing

  /** The scopes in the maps are those of the list. */
  lemma DroppedScopes(log: seq<Entry>, scopes: map<Scope, Window>, next: nat, drop: set<Scope>, which: Scope -> bool)
    requires Backed(log, scopes, next) && (forall s :: s in scopes ==> Queue(log, s) != [])
    requires drop == set s | s in scopes && which(s)
    ensures drop == set e | e in log && which(e.scope) :: e.scope
  {
    hide Queue, WindowHolds;
    forall e | e in log ensures e.scope in scopes {
      var i :| 0 <= i < |log| && log[i] == e;
      assert Holds(scopes, log[i], next);
    }
    forall s | s in scopes ensures exists e :: e in log && e.scope == s {
      var id := Queue(log, s)[0];
      QueueMember(log, s, id);
      var i :| 0 <= i < |log| && log[i].scope == s && log[i].id == id;
      assert log[i] in log;
    }
  }

  lemma Cleared(log: seq<Entry>, scopes: map<Scope, Window>, order: seq<Record>, next: nat, drop: set<Scope>,
                which: Scope -> bool, keep: Record -> bool, maxPerScope: nat)
    requires Backed(log, scopes, next) && Listed(log, scopes, order, next)
    requires drop == set s | s in scopes && which(s)
    requires forall r: Record :: keep(r) <==> !which(r.scope)
    requires forall s :: s in scopes ==> 0 < |scopes[s].ids| == |scopes[s].order| == |Queue(log, s)| <= maxPerScope
    ensures Backed(Keep(log, drop), scopes - drop, next)
    ensures Listed(Keep(log, drop), scopes - drop, Retained(order, keep), next)
    ensures |Retained(order, keep)| <= |order|
    ensures forall s :: s in scopes - drop ==>
              0 < |(scopes - drop)[s].ids| == |(scopes - drop)[s].order| == |Queue(Keep(log, drop), s)| <= maxPerScope
  {
    hide Queue, Gen, WindowHolds, Keep;
    KeptBacked(log, scopes, order, next, drop);
    RetainedMeans(order, keep, next);
    var kept, left := Keep(log, drop), scopes - drop;
    forall i | 0 <= i < |kept| && Present(left, kept[i].scope, kept[i].id)
      ensures RecordOf(left, kept[i]) in Retained(order, keep)
    {
      KeepMember(log, drop, kept[i]);
      assert keep(RecordOf(left, kept[i]));
    }
    forall s | s in left ensures Queue(kept, s) == Queue(log, s) { KeepQueue(log, drop, s); }
  }
}
