/** Whole runs of observations and clearings: what each observation was answered. */
module SeenRuns {
  import opened Wrappers
  import opened Sets
  import opened SeenIds

  datatype Step = Observes(entry: Entry) | ClearsPeer(peer: string) | ClearsSubscription(subscription: string)

  /** A step and, if it was an observation, what it was answered. */
  datatype Told = Told(step: Step, answer: Option<Observation>)

  datatype Run = Run(log: seq<Entry>, trace: seq<Told>)


  predicate Clears(step: Step, scope: Scope) {
    match step
    case Observes(_) => false
    case ClearsPeer(peer) => scope.peer == peer
    case ClearsSubscription(subscription) => scope.subscription == subscription
  }

  function Stepped(log: seq<Entry>, step: Step, maxPerScope: nat, maxTotal: nat): seq<Entry> {
    match step
    case Observes(e) => Observed(log, e, maxPerScope, maxTotal)
    case ClearsPeer(peer) => Keep(log, set e | e in log && e.scope.peer == peer :: e.scope)
    case ClearsSubscription(subscription) => Keep(log, set e | e in log && e.scope.subscription == subscription :: e.scope)
  }

  function Answered(log: seq<Entry>, step: Step): Option<Observation> {
    if step.Observes? then Some(Noted(log, step.entry.scope, step.entry.id)) else None
  }

  function RunOf(steps: seq<Step>, maxPerScope: nat, maxTotal: nat): (r: Run)
    ensures |r.trace| == |steps| && forall i :: 0 <= i < |steps| ==> r.trace[i].step == steps[i]
    ensures forall i :: 0 <= i < |steps| ==> (r.trace[i].answer.Some? <==> steps[i].Observes?)
  {
    if steps == [] then Run([], [])
    else
      var before, last := RunOf(steps[..|steps| - 1], maxPerScope, maxTotal), steps[|steps| - 1];
      Run(Stepped(before.log, last, maxPerScope, maxTotal), before.trace + [Told(last, Answered(before.log, last))])
  }

  /** An observation answered as the first of its identifier. */
  predicate First(t: Told) { t.answer.Some? && t.answer.value.first && t.step.Observes? }

  predicate Sees(t: Told, scope: Scope, id: string) {
    t.step.Observes? && t.step.entry.scope == scope && t.step.entry.id == id
  }

  /** How many observations after entry j were answered as first. */
  function NewSince(trace: seq<Told>, j: nat): nat {
    if |trace| <= j + 1 then 0
    else NewSince(trace[..|trace| - 1], j) + if First(trace[|trace| - 1]) then 1 else 0
  }

  /** How many of them were in one scope. */
  function NewInScope(trace: seq<Told>, j: nat, scope: Scope): nat {
    if |trace| <= j + 1 then 0
    else
      var t := trace[|trace| - 1];
      NewInScope(trace[..|trace| - 1], j, scope) + if First(t) && t.step.entry.scope == scope then 1 else 0
  }

  // ---- What one observation does to an entry of the list

  /** Entry x, with at most `later` entries after it, `scoped` of them in its scope. */
  ghost predicate Recent(log: seq<Entry>, x: Entry, later: nat, scoped: nat) {
    exists i :: 0 <= i < |log| && log[i] == x && |log| - 1 - i <= later && |Queue(log[i + 1..], x.scope)| <= scoped
  }

  lemma {:induction false} FewInScope(log: seq<Entry>, scope: Scope)
    ensures |Queue(log, scope)| <= |log|
  {
    if log != [] { FewInScope(log[..|log| - 1], scope); }
  }

  lemma RecentAfterAppend(log: seq<Entry>, x: Entry, e: Entry, later: nat, scoped: nat)
    requires Recent(log, x, later, scoped)
    ensures Recent(log + [e], x, later + 1, scoped + if e.scope == x.scope then 1 else 0)
  {
    hide Queue;
    var i :| 0 <= i < |log| && log[i] == x && |log| - 1 - i <= later && |Queue(log[i + 1..], x.scope)| <= scoped;
    assert (log + [e])[i + 1..] == log[i + 1..] + [e];
    QueueConcat(log[i + 1..], [e], x.scope);
    QueueOne(e, x.scope);
    assert (log + [e])[i] == x;
  }

  /** Dropping an entry before x leaves x as recent as it was. */
  lemma RecentAfterDrop(log: seq<Entry>, x: Entry, later: nat, scoped: nat, j: nat)
    requires Recent(log, x, later, scoped) && j < |log| && j == Oldest(log, log[j].scope)
    requires log[j].scope == x.scope ==> |Queue(log, x.scope)| > scoped + 1
    requires log[j].scope != x.scope ==> j == 0
    ensures Recent(Without(log, j), x, later, scoped)
  {
    hide Queue, Oldest;
    var i :| 0 <= i < |log| && log[i] == x && |log| - 1 - i <= later && |Queue(log[i + 1..], x.scope)| <= scoped;
    if i == j { OldestCounts(log, i); }
    assert j < i;
    ShiftedDown(log, j, i);
  }

  lemma OldestCounts(log: seq<Entry>, i: nat)
    requires i < |log| && i == Oldest(log, log[i].scope)
    ensures |Queue(log, log[i].scope)| == 1 + |Queue(log[i + 1..], log[i].scope)|
  {
    hide Queue, Oldest;
    QueueParts(log, i, log[i].scope);
    QueueOne(log[i], log[i].scope);
    QueueNone(log[..i], log[i].scope);
  }

  lemma ShiftedDown(log: seq<Entry>, j: nat, i: nat)
    requires j < i < |log|
    ensures Without(log, j)[i - 1] == log[i] && Without(log, j)[i..] == log[i + 1..]
  {}

  /** An observation stays known as long as fewer than maxPerScope of the following observations are in its
      scope and fewer than maxTotal follow in all. */
  lemma ObservedStays(log: seq<Entry>, e: Entry, maxPerScope: nat, maxTotal: nat, x: Entry, later: nat, scoped: nat)
    requires Recent(log, x, later, scoped)
    requires var more := scoped + if e.scope == x.scope then 1 else 0; more < maxPerScope && later + 1 < maxTotal
    ensures Recent(Observed(log, e, maxPerScope, maxTotal), x, later + 1, scoped + if e.scope == x.scope then 1 else 0)
  {
    hide Queue, Oldest, IndexOf, Recent;
    var more := scoped + if e.scope == x.scope then 1 else 0;
    if Knows(log, e.scope, e.id) {
      RecentWeaker(log, x, later, scoped, later + 1, more);
    } else {
      var longer := log + [e];
      RecentAfterAppend(log, x, e, later, scoped);
      var j := Oldest(longer, e.scope);
      var scopedLog := if |Queue(longer, e.scope)| > maxPerScope && j < |longer| then Without(longer, j) else longer;
      if scopedLog != longer {
        if e.scope == x.scope {
          RecentAfterDrop(longer, x, later + 1, more, j);
        } else {
          RecentAfterOther(longer, x, later + 1, more, j);
        }
      }
      if |scopedLog| > maxTotal {
        RecentAfterOldest(scopedLog, x, later + 1, more);
      }
    }
  }

  lemma RecentWeaker(log: seq<Entry>, x: Entry, later: nat, scoped: nat, later': nat, scoped': nat)
    requires Recent(log, x, later, scoped) && later <= later' && scoped <= scoped'
    ensures Recent(log, x, later', scoped')
  {
    hide Queue;
  }

  lemma RecentAfterOther(log: seq<Entry>, x: Entry, later: nat, scoped: nat, j: nat)
    requires Recent(log, x, later, scoped) && j < |log| && log[j].scope != x.scope
    ensures Recent(Without(log, j), x, later, scoped)
  {
    hide Queue;
    var i :| 0 <= i < |log| && log[i] == x && |log| - 1 - i <= later && |Queue(log[i + 1..], x.scope)| <= scoped;
    var out := Without(log, j);
    if j < i {
      ShiftedDown(log, j, i);
    } else {
      var tail := log[i + 1..];
      var k := j - i - 1;
      assert tail[k] == log[j];
      QueueParts(tail, k, x.scope);
      QueueOne(tail[k], x.scope);
      assert out[i] == x && out[i + 1..] == Without(tail, k);
    }
  }

  lemma RecentAfterOldest(log: seq<Entry>, x: Entry, later: nat, scoped: nat)
    requires Recent(log, x, later, scoped) && |log| > later + 1
    ensures Recent(log[1..], x, later, scoped)
  {
    hide Queue;
    var i :| 0 <= i < |log| && log[i] == x && |log| - 1 - i <= later && |Queue(log[i + 1..], x.scope)| <= scoped;
    assert log[1..][i - 1] == x && log[1..][i..] == log[i + 1..];
  }

  lemma JustObserved(log: seq<Entry>, e: Entry, maxPerScope: nat, maxTotal: nat)
    requires 0 < maxPerScope && 0 < maxTotal && !Knows(log, e.scope, e.id)
    ensures Recent(Observed(log, e, maxPerScope, maxTotal), e, 0, 0)
  {
    hide Queue, Oldest, IndexOf, Recent;
    var longer := log + [e];
    assert Recent(longer, e, 0, 0) by { LastIsRecent(log, e); }
    var j := Oldest(longer, e.scope);
    var scopedLog := if |Queue(longer, e.scope)| > maxPerScope && j < |longer| then Without(longer, j) else longer;
    if scopedLog != longer { RecentAfterDrop(longer, e, 0, 0, j); }
    if |scopedLog| > maxTotal { RecentAfterOldest(scopedLog, e, 0, 0); }
  }

  lemma LastIsRecent(log: seq<Entry>, e: Entry)
    ensures Recent(log + [e], e, 0, 0)
  {
    var longer := log + [e];
    assert longer[|log|] == e && longer[|log| + 1..] == [];
    assert Queue([], e.scope) == [];
  }


  // ---- Clearing leaves what is after an entry of another scope

  lemma {:induction false} KeepFinds(log: seq<Entry>, drop: set<Scope>, i: nat) returns (k: nat)
    requires i < |log| && log[i].scope !in drop
    ensures k < |Keep(log, drop)| && Keep(log, drop)[k] == log[i] && |Keep(log, drop)| - k <= |log| - i
    ensures Queue(Keep(log, drop)[k + 1..], log[i].scope) == Queue(log[i + 1..], log[i].scope)
  {
    hide Queue;
    var n, s := |log| - 1, log[i].scope;
    var kept := Keep(log[..n], drop);
    if i == n {
      k := |kept|;
      assert Keep(log, drop)[k + 1..] == log[i + 1..] == [];
    } else {
      k := KeepFinds(log[..n], drop, i);
      KeptSuffix(log, drop, i, k);
    }
  }

  lemma KeptSuffix(log: seq<Entry>, drop: set<Scope>, i: nat, k: nat)
    requires i < |log| - 1 && log[i].scope !in drop && k < |Keep(log[..|log| - 1], drop)|
    requires Queue(Keep(log[..|log| - 1], drop)[k + 1..], log[i].scope) == Queue(log[..|log| - 1][i + 1..], log[i].scope)
    ensures Queue(Keep(log, drop)[k + 1..], log[i].scope) == Queue(log[i + 1..], log[i].scope)
  {
    hide Queue;
    var n, s := |log| - 1, log[i].scope;
    var kept := Keep(log[..n], drop);
    assert log[i + 1..] == log[..n][i + 1..] + [log[n]];
    QueueConcat(log[..n][i + 1..], [log[n]], s);
    QueueOne(log[n], s);
    if log[n].scope in drop {
      assert Keep(log, drop) == kept;
    } else {
      assert Keep(log, drop)[k + 1..] == kept[k + 1..] + [log[n]];
      QueueConcat(kept[k + 1..], [log[n]], s);
    }
  }

  lemma {:induction false} KeepStems(log: seq<Entry>, drop: set<Scope>, k: nat) returns (i: nat)
    requires k < |Keep(log, drop)|
    ensures i < |log| && log[i] == Keep(log, drop)[k] && log[i].scope !in drop
    ensures Queue(Keep(log, drop)[k + 1..], log[i].scope) == Queue(log[i + 1..], log[i].scope)
  {
    hide Queue;
    var n := |log| - 1;
    var kept := Keep(log[..n], drop);
    if k == |kept| {
      i := n;
      assert Keep(log, drop)[k + 1..] == log[i + 1..] == [];
    } else {
      i := KeepStems(log[..n], drop, k);
      KeptSuffix(log, drop, i, k);
    }
  }

  lemma ClearedScopes(log: seq<Entry>, step: Step, maxPerScope: nat, maxTotal: nat) returns (drop: set<Scope>)
    requires !step.Observes?
    ensures Stepped(log, step, maxPerScope, maxTotal) == Keep(log, drop)
    ensures forall e :: e in log ==> (e.scope in drop <==> Clears(step, e.scope))
  {
    if step.ClearsPeer? {
      drop := set e | e in log && e.scope.peer == step.peer :: e.scope;
    } else {
      drop := set e | e in log && e.scope.subscription == step.subscription :: e.scope;
    }
  }

  // ---- Where what is known stems from

  predicate ClearedSince(trace: seq<Told>, j: nat, scope: Scope) {
    exists k :: j < k < |trace| && Clears(trace[k].step, scope)
  }

  /** Entry j was the latest first observation of this identifier, and nothing has cleared it. */
  ghost predicate Latest(trace: seq<Told>, j: nat, scope: Scope, id: string) {
    && j < |trace| && First(trace[j]) && Sees(trace[j], scope, id) && !ClearedSince(trace, j, scope)
    && forall k :: j < k < |trace| && Sees(trace[k], scope, id) ==> !First(trace[k])
  }

  ghost predicate Stems(trace: seq<Told>, log: seq<Entry>, i: nat, j: nat)
    requires i < |log|
  {
    && Latest(trace, j, log[i].scope, log[i].id) && trace[j].step == Observes(log[i])
    && |Queue(log[i + 1..], log[i].scope)| == NewInScope(trace, j, log[i].scope)
  }

  ghost predicate Stemming(trace: seq<Told>, log: seq<Entry>, i: nat)
    requires i < |log|
  {
    exists j: nat :: Stems(trace, log, i, j)
  }

  ghost predicate AllStem(trace: seq<Told>, log: seq<Entry>) {
    forall i :: 0 <= i < |log| ==> Stemming(trace, log, i)
  }

  lemma LatestStays(trace: seq<Told>, t: Told, j: nat, scope: Scope, id: string)
    requires Latest(trace, j, scope, id) && !Clears(t.step, scope) && !(Sees(t, scope, id) && First(t))
    ensures Latest(trace + [t], j, scope, id) && (trace + [t])[j] == trace[j]
    ensures NewInScope(trace + [t], j, scope)
         == NewInScope(trace, j, scope) + if First(t) && t.step.entry.scope == scope then 1 else 0
    ensures NewSince(trace + [t], j) == NewSince(trace, j) + if First(t) then 1 else 0
  {
    hide Clears;
    var longer := trace + [t];
    assert longer[..|trace|] == trace;
    assert forall k :: 0 <= k < |trace| ==> longer[k] == trace[k];
  }

  lemma StemsWithout(trace: seq<Told>, log: seq<Entry>, i: nat, j: nat, k: nat)
    requires i < |log| && k < |log| && k != i && Stems(trace, log, i, j)
    requires k < i || log[k].scope != log[i].scope
    ensures Stems(trace, Without(log, k), if k < i then i - 1 else i, j)
  {
    hide Queue, Latest, NewInScope;
    var out := Without(log, k);
    if k < i {
      ShiftedDown(log, k, i);
    } else {
      var tail := log[i + 1..];
      assert tail[k - i - 1] == log[k];
      QueueParts(tail, k - i - 1, log[i].scope);
      QueueOne(log[k], log[i].scope);
      assert out[i] == log[i] && out[i + 1..] == Without(tail, k - i - 1);
    }
  }

  lemma AllStemWithout(trace: seq<Told>, log: seq<Entry>, k: nat)
    requires AllStem(trace, log) && k < |log|
    requires k == Oldest(log, log[k].scope)
    ensures AllStem(trace, Without(log, k))
  {
    hide Queue, Latest, NewInScope, Oldest, Stems;
    var out := Without(log, k);
    forall a | 0 <= a < |out| ensures Stemming(trace, out, a) {
      var i := if a < k then a else a + 1;
      assert Stemming(trace, log, i);
      var j: nat :| Stems(trace, log, i, j);
      StemsWithout(trace, log, i, j, k);
    }
  }

  lemma AppendedStems(trace: seq<Told>, log: seq<Entry>, e: Entry, t: Told)
    requires AllStem(trace, log) && !Knows(log, e.scope, e.id)
    requires t == Told(Observes(e), Some(Observation(true, false)))
    ensures AllStem(trace + [t], log + [e])
  {
    hide Queue, NewInScope, IndexOf;
    var longer, all := log + [e], trace + [t];
    forall i | 0 <= i < |longer| ensures Stemming(all, longer, i) {
      if i == |log| {
        assert longer[i + 1..] == [];
        assert Queue([], e.scope) == [] by { QueueNone([], e.scope); }
        assert NewInScope(all, |trace|, e.scope) == 0 by { NothingSince(all, |trace|, e.scope); }
        assert all[|trace|] == t;
        assert Stems(all, longer, i, |trace|);
      } else {
        assert Stemming(trace, log, i);
        var j: nat :| Stems(trace, log, i, j);
        if log[i].scope == e.scope && log[i].id == e.id { assert false; }
        LatestStays(trace, t, j, log[i].scope, log[i].id);
        assert longer[i + 1..] == log[i + 1..] + [e];
        QueueConcat(log[i + 1..], [e], log[i].scope);
        QueueOne(e, log[i].scope);
        assert Stems(all, longer, i, j);
      }
    }
  }

  lemma NothingSince(trace: seq<Told>, j: nat, scope: Scope)
    requires |trace| <= j + 1
    ensures NewInScope(trace, j, scope) == 0 && NewSince(trace, j) == 0
  {}

  lemma ObservedStems(trace: seq<Told>, log: seq<Entry>, e: Entry, t: Told, maxPerScope: nat, maxTotal: nat)
    requires AllStem(trace, log) && t == Told(Observes(e), Answered(log, Observes(e)))
    ensures AllStem(trace + [t], Observed(log, e, maxPerScope, maxTotal))
  {
    hide Queue, NewInScope, IndexOf, Oldest, Latest, Knows, Without;
    if Knows(log, e.scope, e.id) {
      forall i | 0 <= i < |log| ensures Stemming(trace + [t], log, i) {
        assert Stemming(trace, log, i);
        var j: nat :| Stems(trace, log, i, j);
        LatestStays(trace, t, j, log[i].scope, log[i].id);
        assert Stems(trace + [t], log, i, j);
      }
    } else {
      AppendedStems(trace, log, e, t);
      var longer := log + [e];
      var j := Oldest(longer, e.scope);
      var scoped := if |Queue(longer, e.scope)| > maxPerScope && j < |longer| then Without(longer, j) else longer;
      if scoped != longer { AllStemWithout(trace + [t], longer, j); }
      if |scoped| > maxTotal {
        FirstGone(scoped);
        AllStemWithout(trace + [t], scoped, 0);
      }
    }
  }

  lemma FirstGone(log: seq<Entry>)
    requires log != []
    ensures Oldest(log, log[0].scope) == 0 && Without(log, 0) == log[1..]
  {}

  lemma ClearedStems(trace: seq<Told>, log: seq<Entry>, step: Step, maxPerScope: nat, maxTotal: nat)
    requires AllStem(trace, log) && !step.Observes?
    ensures AllStem(trace + [Told(step, None)], Stepped(log, step, maxPerScope, maxTotal))
  {
    hide Queue, NewInScope, Latest, Keep, Clears;
    var t := Told(step, None);
    var drop := ClearedScopes(log, step, maxPerScope, maxTotal);
    forall k | 0 <= k < |Keep(log, drop)| ensures Stemming(trace + [t], Keep(log, drop), k) {
      var i := KeepStems(log, drop, k);
      assert Stemming(trace, log, i);
      var j: nat :| Stems(trace, log, i, j);
      LatestStays(trace, t, j, log[i].scope, log[i].id);
      assert Stems(trace + [t], Keep(log, drop), k, j);
    }
  }

  lemma {:induction false} RunStems(steps: seq<Step>, maxPerScope: nat, maxTotal: nat)
    ensures AllStem(RunOf(steps, maxPerScope, maxTotal).trace, RunOf(steps, maxPerScope, maxTotal).log)
  {
    hide AllStem, Observed, Keep, Noted;
    if steps == [] {
      assert AllStem([], []) by { NothingStems(); }
    } else {
      var n := |steps| - 1;
      RunStems(steps[..n], maxPerScope, maxTotal);
      var before := RunOf(steps[..n], maxPerScope, maxTotal);
      match steps[n]
      case Observes(e) =>
        ObservedStems(before.trace, before.log, e, Told(steps[n], Answered(before.log, steps[n])), maxPerScope, maxTotal);
      case _ => ClearedStems(before.trace, before.log, steps[n], maxPerScope, maxTotal);
    }
  }

  lemma NothingStems()
    ensures AllStem([], [])
  {}

  // ---- The window stays as small as promised

  lemma {:induction false} ScopeBounded(steps: seq<Step>, maxPerScope: nat, maxTotal: nat, scope: Scope)
    ensures |Queue(RunOf(steps, maxPerScope, maxTotal).log, scope)| <= maxPerScope
  {
    hide Queue, Keep, Oldest, IndexOf, Noted;
    if steps == [] {
      QueueNone([], scope);
    } else {
      var n := |steps| - 1;
      ScopeBounded(steps[..n], maxPerScope, maxTotal, scope);
      var log := RunOf(steps[..n], maxPerScope, maxTotal).log;
      match steps[n]
      case Observes(e) => ObservedBounded(log, e, maxPerScope, maxTotal, scope);
      case _ =>
        var drop := ClearedScopes(log, steps[n], maxPerScope, maxTotal);
        KeepQueue(log, drop, scope);
    }
  }

  lemma ObservedBounded(log: seq<Entry>, e: Entry, maxPerScope: nat, maxTotal: nat, scope: Scope)
    requires |Queue(log, scope)| <= maxPerScope
    ensures |Queue(Observed(log, e, maxPerScope, maxTotal), scope)| <= maxPerScope
  {
    hide Queue, Oldest, Knows;
    if !Knows(log, e.scope, e.id) {
      var longer := log + [e];
      AppendedCounts(log, e);
      QueueHasOldest(longer, e.scope);
      var j := Oldest(longer, e.scope);
      var scoped := if |Queue(longer, e.scope)| > maxPerScope && j < |longer| then Without(longer, j) else longer;
      if scoped != longer { OthersKept(longer, j); }
      assert |Queue(scoped, scope)| <= maxPerScope;
      if |scoped| > maxTotal { FewerQueued(scoped, scope); }
    }
  }

  lemma FewerQueued(log: seq<Entry>, scope: Scope)
    requires log != []
    ensures |Queue(log[1..], scope)| <= |Queue(log, scope)|
  {
    hide Queue, Oldest;
    FirstGone(log);
    OthersKept(log, 0);
  }

  // ---- What was observed lately is known

  /** Entry j is known while it is among the latest of its scope and of all. */
  ghost predicate AllRecent(trace: seq<Told>, log: seq<Entry>, maxPerScope: nat, maxTotal: nat) {
    forall j :: 0 <= j < |trace| && First(trace[j]) ==> StillRecent(trace, log, j, maxPerScope, maxTotal)
  }

  ghost predicate StillRecent(trace: seq<Told>, log: seq<Entry>, j: nat, maxPerScope: nat, maxTotal: nat)
    requires j < |trace| && First(trace[j])
  {
    var e := trace[j].step.entry;
    !ClearedSince(trace, j, e.scope) && NewInScope(trace, j, e.scope) < maxPerScope && NewSince(trace, j) < maxTotal
    ==> Recent(log, e, NewSince(trace, j), NewInScope(trace, j, e.scope))
  }

  lemma CountsGrow(trace: seq<Told>, t: Told, j: nat, scope: Scope)
    requires j < |trace|
    ensures NewInScope(trace + [t], j, scope)
         == NewInScope(trace, j, scope) + if First(t) && t.step.entry.scope == scope then 1 else 0
    ensures NewSince(trace + [t], j) == NewSince(trace, j) + if First(t) then 1 else 0
    ensures ClearedSince(trace + [t], j, scope) <==> ClearedSince(trace, j, scope) || Clears(t.step, scope)
  {
    hide Clears;
    var longer := trace + [t];
    assert longer[..|trace|] == trace;
    assert forall k :: 0 <= k < |trace| ==> longer[k] == trace[k];
    assert longer[|trace|] == t;
  }

  lemma ClearedRecent(log: seq<Entry>, drop: set<Scope>, x: Entry, later: nat, scoped: nat)
    requires Recent(log, x, later, scoped) && x.scope !in drop
    ensures Recent(Keep(log, drop), x, later, scoped)
  {
    hide Queue, Keep;
    var i :| 0 <= i < |log| && log[i] == x && |log| - 1 - i <= later && |Queue(log[i + 1..], x.scope)| <= scoped;
    var k := KeepFinds(log, drop, i);
  }

  lemma StepRecent(trace: seq<Told>, log: seq<Entry>, step: Step, j: nat, maxPerScope: nat, maxTotal: nat)
    requires j < |trace| && First(trace[j]) && StillRecent(trace, log, j, maxPerScope, maxTotal)
    ensures StillRecent(trace + [Told(step, Answered(log, step))], Stepped(log, step, maxPerScope, maxTotal), j, maxPerScope, maxTotal)
  {
    hide Queue, Keep, Observed, Recent, Knows, NewSince, NewInScope, ClearedSince, Clears, IndexOf;
    var t, e := Told(step, Answered(log, step)), trace[j].step.entry;
    CountsGrow(trace, t, j, e.scope);
    assert (trace + [t])[j] == trace[j];
    if !ClearedSince(trace + [t], j, e.scope) && NewInScope(trace + [t], j, e.scope) < maxPerScope && NewSince(trace + [t], j) < maxTotal {
      match step
      case Observes(x) =>
        if Knows(log, x.scope, x.id) {
          KnownUnchanged(log, x, maxPerScope, maxTotal);
        } else {
          ObservedStays(log, x, maxPerScope, maxTotal, e, NewSince(trace, j), NewInScope(trace, j, e.scope));
        }
      case _ =>
        var drop := ClearedScopes(log, step, maxPerScope, maxTotal);
        assert e in log by { RecentMember(log, e, NewSince(trace, j), NewInScope(trace, j, e.scope)); }
        ClearedRecent(log, drop, e, NewSince(trace, j), NewInScope(trace, j, e.scope));
    }
  }

  lemma RecentMember(log: seq<Entry>, x: Entry, later: nat, scoped: nat)
    requires Recent(log, x, later, scoped)
    ensures x in log && Knows(log, x.scope, x.id)
  {
    hide Queue;
  }

  lemma KnownUnchanged(log: seq<Entry>, e: Entry, maxPerScope: nat, maxTotal: nat)
    requires Knows(log, e.scope, e.id)
    ensures Observed(log, e, maxPerScope, maxTotal) == log
  {}

  lemma {:induction false} RunRecent(steps: seq<Step>, maxPerScope: nat, maxTotal: nat)
    ensures AllRecent(RunOf(steps, maxPerScope, maxTotal).trace, RunOf(steps, maxPerScope, maxTotal).log, maxPerScope, maxTotal)
  {
    hide Stepped, StillRecent, Noted;
    if steps != [] {
      var n := |steps| - 1;
      RunRecent(steps[..n], maxPerScope, maxTotal);
      var before, run := RunOf(steps[..n], maxPerScope, maxTotal), RunOf(steps, maxPerScope, maxTotal);
      forall j | 0 <= j < |steps| && First(run.trace[j]) ensures StillRecent(run.trace, run.log, j, maxPerScope, maxTotal) {
        if j < n {
          StepRecent(before.trace, before.log, steps[n], j, maxPerScope, maxTotal);
        } else {
          NewestRecent(before, steps[n], maxPerScope, maxTotal);
        }
      }
    }
  }

  lemma NewestRecent(before: Run, step: Step, maxPerScope: nat, maxTotal: nat)
    requires var t := Told(step, Answered(before.log, step)); First(t)
    ensures StillRecent(before.trace + [Told(step, Answered(before.log, step))], Stepped(before.log, step, maxPerScope, maxTotal),
                        |before.trace|, maxPerScope, maxTotal)
  {
    hide Queue, Oldest, IndexOf, Observed, Recent;
    var all, n := before.trace + [Told(step, Answered(before.log, step))], |before.trace|;
    NothingSince(all, n, step.entry.scope);
    if 0 < maxPerScope && 0 < maxTotal { JustObserved(before.log, step.entry, maxPerScope, maxTotal); }
  }

  // ---- The answers

  /** The trace of a run is its own past. */
  lemma {:induction false} RunPrefix(steps: seq<Step>, n: nat, maxPerScope: nat, maxTotal: nat)
    requires n < |steps|
    ensures RunOf(steps[..n], maxPerScope, maxTotal).trace == RunOf(steps, maxPerScope, maxTotal).trace[..n]
    ensures RunOf(steps, maxPerScope, maxTotal).trace[n].answer == Answered(RunOf(steps[..n], maxPerScope, maxTotal).log, steps[n])
    decreases |steps|
  {
    hide Stepped, Answered;
    var last := |steps| - 1;
    if n < last {
      RunPrefix(steps[..last], n, maxPerScope, maxTotal);
      assert steps[..last][..n] == steps[..n];
    }
  }

  /** One peer's or subscription's observations never make another's identifier look seen: an observation is answered
      as a repetition only if exactly that scope observed the identifier before, was answered as first then, was not
      cleared since and has had fewer new identifiers since than it may hold; and it is then told what was noted. */
  lemma RepetitionsAreKnown(steps: seq<Step>, maxPerScope: nat, maxTotal: nat, i: nat)
    requires i < |steps| && steps[i].Observes?
    ensures var trace, e := RunOf(steps, maxPerScope, maxTotal).trace, steps[i].entry;
            !trace[i].answer.value.first ==>
              exists j: nat :: && Latest(trace[..i], j, e.scope, e.id)
                          && trace[i].answer.value.previouslyMatched == steps[j].entry.matched
                          && NewInScope(trace[..i], j, e.scope) < maxPerScope
  {
    hide Stepped, Latest, Queue, IndexOf, NewInScope;
    var e, before := steps[i].entry, RunOf(steps[..i], maxPerScope, maxTotal);
    RunPrefix(steps, i, maxPerScope, maxTotal);
    if Knows(before.log, e.scope, e.id) {
      RunStems(steps[..i], maxPerScope, maxTotal);
      var k := IndexOf(before.log, e.scope, e.id);
      assert Stemming(before.trace, before.log, k);
      var j: nat :| Stems(before.trace, before.log, k, j);
      ScopeBounded(steps[..i], maxPerScope, maxTotal, e.scope);
      QueueParts(before.log, k, e.scope);
      QueueOne(before.log[k], e.scope);
      assert j < i by { LatestBefore(before.trace, j, e.scope, e.id); }
    }
  }

  lemma LatestBefore(trace: seq<Told>, j: nat, scope: Scope, id: string)
    requires Latest(trace, j, scope, id)
    ensures j < |trace|
  {}

  /** An identifier observed for the first time is known at every later observation, unless its scope was cleared or as
      many new identifiers came since as its scope, or all scopes together, may hold. */
  lemma RecentlySeenIsKnown(steps: seq<Step>, maxPerScope: nat, maxTotal: nat, j: nat, i: nat)
    requires j < i < |steps| && steps[j].Observes? && steps[i].Observes?
    requires steps[i].entry.scope == steps[j].entry.scope && steps[i].entry.id == steps[j].entry.id
    requires var trace, scope := RunOf(steps, maxPerScope, maxTotal).trace[..i], steps[j].entry.scope;
             && First(trace[j]) && !ClearedSince(trace, j, scope)
             && NewInScope(trace, j, scope) < maxPerScope && NewSince(trace, j) < maxTotal
    ensures !RunOf(steps, maxPerScope, maxTotal).trace[i].answer.value.first
  {
    hide Stepped, Queue, IndexOf, NewInScope, NewSince, ClearedSince, Recent;
    var trace, scope := RunOf(steps, maxPerScope, maxTotal).trace[..i], steps[j].entry.scope;
    var before := RunOf(steps[..i], maxPerScope, maxTotal);
    RunPrefix(steps, i, maxPerScope, maxTotal);
    RunRecent(steps[..i], maxPerScope, maxTotal);
    assert StillRecent(before.trace, before.log, j, maxPerScope, maxTotal);
    RecentMember(before.log, steps[j].entry, NewSince(trace, j), NewInScope(trace, j, scope));
  }

  /** A first observation is told of no match. */
  lemma FirstsMatchNothing(steps: seq<Step>, maxPerScope: nat, maxTotal: nat, i: nat)
    requires i < |steps| && steps[i].Observes? && RunOf(steps, maxPerScope, maxTotal).trace[i].answer.value.first
    ensures !RunOf(steps, maxPerScope, maxTotal).trace[i].answer.value.previouslyMatched
  {
    hide Stepped, IndexOf;
    RunPrefix(steps, i, maxPerScope, maxTotal);
  }
}
