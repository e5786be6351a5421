/** The rating store of one node, changed in place by its calls. */
module PeerReputation {
  import opened Wrappers
  import opened Sets
  import opened Strings
  import opened RatingCaps
  import opened Reputation

  // ---- Sorting by removal

  ghost predicate InOrder(m: Ratings, trusted: set<string>, s: seq<Key>) {
    && (forall k :: k in s ==> k in m)
    && forall i, j :: 0 <= i < j < |s| ==> Sooner(m, trusted, s[i], s[j])
  }

  function Insert(m: Ratings, trusted: set<string>, s: seq<Key>, k: Key): (r: seq<Key>)
    requires k in m && forall x :: x in s ==> x in m
    ensures |r| == |s| + 1 && forall x :: x in r <==> x in s || x == k
  {
    if s == [] then [k]
    else
      assert s == [s[0]] + s[1..];
      if Sooner(m, trusted, k, s[0]) then [k] + s else [s[0]] + Insert(m, trusted, s[1..], k)
  }

  lemma InOrderFront(m: Ratings, trusted: set<string>, k: Key, s: seq<Key>)
    requires k in m && InOrder(m, trusted, s) && forall x :: x in s ==> Sooner(m, trusted, k, x)
    ensures InOrder(m, trusted, [k] + s)
  {
    hide Sooner;
    assert forall j :: 0 <= j < |s| ==> s[j] in s;
  }

  lemma InOrderRest(m: Ratings, trusted: set<string>, s: seq<Key>)
    requires InOrder(m, trusted, s) && s != []
    ensures InOrder(m, trusted, s[1..]) && s[0] in m && forall x :: x in s[1..] ==> x in m && Sooner(m, trusted, s[0], x)
    ensures s == [s[0]] + s[1..]
  {
    hide Sooner;
    assert s[0] in s;
    assert forall j :: 0 <= j < |s[1..]| ==> s[1..][j] == s[j + 1] && s[j + 1] in s;
  }

  lemma {:induction false} InsertKeeps(m: Ratings, trusted: set<string>, s: seq<Key>, k: Key)
    requires k in m && InOrder(m, trusted, s) && k !in s
    ensures InOrder(m, trusted, Insert(m, trusted, s, k))
  {
    hide Sooner, InOrder;
    if s == [] {
      NoneInOrder(m, trusted);
      InOrderFront(m, trusted, k, s);
      assert [k] + s == [k];
    } else {
      InOrderRest(m, trusted, s);
      SoonerTotal(m, trusted, k, s[0]);
      if Sooner(m, trusted, k, s[0]) {
        forall x | x in s ensures x in m && Sooner(m, trusted, k, x) {
          if x != s[0] { SoonerTransitive(m, trusted, k, s[0], x); }
        }
        InOrderFront(m, trusted, k, s);
      } else {
        InsertKeeps(m, trusted, s[1..], k);
        InOrderFront(m, trusted, s[0], Insert(m, trusted, s[1..], k));
      }
    }
  }

  lemma NoneInOrder(m: Ratings, trusted: set<string>)
    ensures InOrder(m, trusted, [])
  {}

  method Sorted(m: Ratings, trusted: set<string>, keys: set<Key>) returns (s: seq<Key>)
    requires keys <= m.Keys
    ensures InOrder(m, trusted, s) && |s| == |keys| && forall k :: k in s <==> k in keys
  {
    hide Sooner;
    s := [];
    var rest := keys;
    while rest != {}
      invariant rest <= keys && InOrder(m, trusted, s) && |s| + |rest| == |keys|
      invariant forall k :: k in s <==> k in keys && k !in rest
      decreases |rest|
    {
      var k :| k in rest;
      InsertKeeps(m, trusted, s, k);
      s := Insert(m, trusted, s, k);
      rest := rest - {k};
    }
  }

  lemma {:induction false} OrderedSize(m: Ratings, trusted: set<string>, s: seq<Key>)
    requires InOrder(m, trusted, s)
    ensures |Elements(s)| == |s|
  {
    hide Sooner;
    if s == [] {
      assert Elements(s) == {};
    } else {
      var n := |s| - 1;
      assert s == s[..n] + [s[n]];
      assert forall k :: k in s[..n] ==> k in s;
      assert s[n] in s;
      OrderedSize(m, trusted, s[..n]);
      SoonerTotal(m, trusted, s[n], s[n]);
      assert s[n] !in s[..n];
      assert Elements(s) == Elements(s[..n]) + {s[n]};
    }
  }

  /** In order, the rank of a key is its position. */
  lemma OrderedRank(m: Ratings, trusted: set<string>, keys: set<Key>, s: seq<Key>, i: nat)
    requires keys <= m.Keys && InOrder(m, trusted, s) && (forall k :: k in s <==> k in keys) && i < |s|
    ensures Rank(m, trusted, keys, s[i]) == i
  {
    hide Sooner;
    forall j | 0 <= j < |s| ensures Sooner(m, trusted, s[j], s[i]) <==> j < i {
      SoonerTotal(m, trusted, s[j], s[i]);
    }
    assert forall k :: k in s[..i] ==> k in s;
    OrderedSize(m, trusted, s[..i]);
    forall k | k in keys ensures k in Ahead(m, trusted, keys, s[i]) <==> k in s[..i] {
      var j :| 0 <= j < |s| && s[j] == k;
      if j < i { assert s[..i][j] == k; }
    }
    assert Ahead(m, trusted, keys, s[i]) == Elements(s[..i]);
  }

  lemma FirstLow(m: Ratings, trusted: set<string>, keys: set<Key>, s: seq<Key>, n: nat)
    requires keys <= m.Keys && InOrder(m, trusted, s) && (forall k :: k in s <==> k in keys) && n <= |s|
    ensures Elements(s[..n]) == Low(m, trusted, keys, n)
  {
    hide Sooner, Rank;
    forall k | k in keys ensures k in s[..n] <==> Rank(m, trusted, keys, k) < n {
      var i :| 0 <= i < |s| && s[i] == k;
      OrderedRank(m, trusted, keys, s, i);
      if i < n { assert s[..n][i] == k; }
      if k in s[..n] {
        var j :| 0 <= j < n && s[j] == k;
        OrderedRank(m, trusted, keys, s, j);
      }
    }
    assert forall k :: k in s[..n] ==> k in s;
  }

  // ---- Counts

  function Raters(m: Ratings): set<string> { set k | k in m :: k.rater }

  ghost function Counts(m: Ratings): map<string, nat> { map r | r in Raters(m) :: |OfRater(m, r)| }

  /** One entry more for a rater. */
  function Counted(counts: map<string, nat>, rater: string): map<string, nat> {
    counts[rater := (if rater in counts then counts[rater] else 0) + 1]
  }

  lemma CountsInserted(m: Ratings, key: Key, stored: Stored)
    ensures Counts(m[key := stored]) == if key in m then Counts(m) else Counted(Counts(m), key.rater)
  {
    hide OfRater;
    var inserted := m[key := stored];
    assert Raters(inserted) == Raters(m) + {key.rater};
    forall r ensures |OfRater(inserted, r)| == |OfRater(m, r)| + if key !in m && r == key.rater then 1 else 0 {
      OfRaterInserted(m, key, stored, r);
    }
    if key.rater !in Raters(m) { NoneOfRater(m, key.rater); }
    if key in m { assert key.rater in Raters(m); }
  }

  lemma OfRaterInserted(m: Ratings, key: Key, stored: Stored, r: string)
    ensures |OfRater(m[key := stored], r)| == |OfRater(m, r)| + if key !in m && r == key.rater then 1 else 0
  {
    if r == key.rater {
      assert OfRater(m[key := stored], r) == OfRater(m, r) + {key};
    } else {
      assert OfRater(m[key := stored], r) == OfRater(m, r);
    }
  }

  lemma NoneOfRater(m: Ratings, r: string)
    requires r !in Raters(m)
    ensures |OfRater(m, r)| == 0
  {
    assert OfRater(m, r) == {};
  }

  lemma CountOf(m: Ratings, key: Key)
    requires key in m
    ensures key.rater in Counts(m) && Counts(m)[key.rater] == |OfRater(m, key.rater)|
  {
    hide OfRater;
    assert key.rater in Raters(m);
  }

  lemma NoCounts()
    ensures Counts(map[]) == map[]
  {
    assert Raters(map[]) == {};
  }

  class PeerReputation<G> {
    const root: string
    const scope: string
    const trustedRaters: set<string>
    const project: Ratings -> G
    var latest: Ratings
    var entriesByRater: map<string, nat>
    var nextPrune: Option<nat>
    var graph: G

    /** The authority behind the projection: the root and the configured raters. */
    ghost function Rule(): Authority<G> { Authority(scope, trustedRaters + {root}, project) }

    ghost function View(): State<G>
      reads this
    {
      State(latest, nextPrune, graph)
    }

    ghost predicate Valid()
      reads this
    {
      Consistent(Rule(), View()) && entriesByRater == Counts(latest)
    }

    constructor (root: string, scope: string, trustedRaters: set<string>, project: Ratings -> G)
      ensures Valid() && Rule() == Authority(scope, trustedRaters + {root}, project)
      ensures View() == New(Rule())
    {
      this.root, this.scope, this.trustedRaters, this.project := root, scope, trustedRaters, project;
      latest, entriesByRater, nextPrune, graph := map[], map[], None, project(map[]);
      new;
      NewSound(Rule());
    }

    predicate RaterIsAuthorized(rater: string) {
      rater == root || rater in trustedRaters
    }

    method RebuildEntryCounts()
      modifies this`entriesByRater
      ensures entriesByRater == Counts(latest)
    {
      hide Counts, OfRater, Counted;
      entriesByRater := map[];
      var done: Ratings := map[];
      var rest := latest;
      NoCounts();
      while rest != map[]
        invariant done.Keys + rest.Keys == latest.Keys && done.Keys !! rest.Keys
        invariant entriesByRater == Counts(done)
        decreases |rest|
      {
        var key :| key in rest;
        CountsInserted(done, key, rest[key]);
        entriesByRater := Counted(entriesByRater, key.rater);
        done := done[key := rest[key]];
        assert |rest.Keys - {key}| == |rest.Keys| - 1 && |rest.Keys| == |rest|;
        assert (rest - {key}).Keys == rest.Keys - {key} && |(rest - {key}).Keys| == |rest - {key}|;
        rest := rest - {key};
      }
      SameCounts(done, latest);
    }

    static lemma SameCounts(m: Ratings, n: Ratings)
      requires m.Keys == n.Keys
      ensures Counts(m) == Counts(n)
    {
      forall r ensures OfRater(m, r) == OfRater(n, r) {}
    }

    /** The keys of ratings that exceed what one rater may have. */
    method Excessive(trusted: set<string>) returns (remove: set<Key>)
      ensures remove <= latest.Keys
      ensures forall k :: k in latest ==>
                (k in remove <==> Rank(latest, trusted, OfRater(latest, k.rater), k) + MAX_PER_RATER < |OfRater(latest, k.rater)|)
    {
      hide Rank, InOrder;
      remove := {};
      var raters := Raters(latest);
      while raters != {}
        invariant remove <= latest.Keys && raters <= Raters(latest)
        invariant forall k :: k in latest ==>
                    (k in remove <==> k.rater !in raters
                                      && Rank(latest, trusted, OfRater(latest, k.rater), k) + MAX_PER_RATER < |OfRater(latest, k.rater)|)
        decreases |raters|
      {
        var r :| r in raters;
        var keys := set k | k in latest && k.rater == r;
        assert keys == OfRater(latest, r);
        var entries := Sorted(latest, trusted, keys);
        var excess := if |entries| > MAX_PER_RATER then |entries| - MAX_PER_RATER else 0;
        FirstLow(latest, trusted, keys, entries, excess);
        remove := remove + Elements(entries[..excess]);
        raters := raters - {r};
      }
    }

    method EnforceEntryLimits()
      modifies this`latest
      ensures latest == Capped(old(latest), trustedRaters + {root})
    {
      hide Rank, InOrder;
      var trusted := trustedRaters + {root};
      var remove := Excessive(trusted);
      latest := latest - remove;
      assert latest == NewestOfEach(old(latest), trusted, MAX_PER_RATER);
      if |latest| <= MAX_ENTRIES {
        assert NewestOverall(latest, trusted, MAX_ENTRIES) == latest;
        return;
      }
      var oldest := Sorted(latest, trusted, latest.Keys);
      assert |latest.Keys| == |latest|;
      var excess := |latest| - MAX_ENTRIES;
      FirstLow(latest, trusted, latest.Keys, oldest, excess);
      assert latest - Elements(oldest[..excess]) == NewestOverall(latest, trusted, MAX_ENTRIES);
      latest := latest - Elements(oldest[..excess]);
    }

    method ConsiderEvent(event: Event, now: nat) returns (accepted: bool, mayChange: bool)
      requires entriesByRater == Counts(latest)
      modifies this`latest, this`entriesByRater, this`nextPrune
      ensures entriesByRater == Counts(latest)
      ensures Considered(latest, nextPrune, accepted, mayChange)
           == Consider(scope, trustedRaters + {root}, old(latest), old(nextPrune), event, now)
      ensures accepted ==>
                && event.rating.Some? && event.rating.value.rater == Some(event.author) && event.rating.value.subject.Some?
                && var key := Key(event.author, event.rating.value.subject.value);
                && key in latest && latest[key].eventId == event.id
                && (key in old(latest) ==>
                      event.rating.value.created > old(latest[key].created)
                      || (event.rating.value.created == old(latest[key].created) && Lex(old(latest[key].eventId), event.id)))
    {
      hide Capped, Lex, Expiry, TimeValid, Counts, Counted, OfRater, Earlier;
      if event.rating.None? { return false, false; }
      var rating := event.rating.value;
      if !TimeValid(rating.created, now) { return false, false; }
      if rating.scope != Some(scope) { return false, false; }
      if rating.rater != Some(event.author) || rating.subject.None? { return false, false; }
      var key := Key(event.author, rating.subject.value);
      var stored := Stored(event.id, rating.created, rating.content);
      if key in latest && !Newer(stored, latest[key]) { return false, false; }
      var isNew := key !in latest;
      CountsInserted(latest, key, stored);
      latest := latest[key := stored];
      if isNew {
        entriesByRater := Counted(entriesByRater, key.rater);
      }
      CountOf(latest, key);
      nextPrune := Earlier(nextPrune, Expiry(stored.created));
      var exceeded := |latest| > MAX_ENTRIES || entriesByRater[key.rater] > MAX_PER_RATER;
      if exceeded {
        EnforceEntryLimits();
        RebuildEntryCounts();
      }
      var retained := key in latest && latest[key].eventId == event.id;
      return retained, (retained && RaterIsAuthorized(key.rater)) || exceeded;
    }

    method PruneMemory(now: nat) returns (removed: nat)
      requires entriesByRater == Counts(latest)
      modifies this`latest, this`entriesByRater, this`nextPrune
      ensures entriesByRater == Counts(latest)
      ensures (latest, nextPrune) == Pruned(old(latest), old(nextPrune), now)
      ensures removed == |old(latest)| - |latest| && (removed > 0 <==> latest != old(latest))
    {
      hide Earliest, Expiry, TimeValid, Counts;
      if nextPrune.None? || now < nextPrune.value { return 0; }
      var before := |latest|;
      latest := LiveRatings(latest, now);
      LiveFewer(old(latest), now);
      removed := before - |latest|;
      if removed > 0 { RebuildEntryCounts(); }
      nextPrune := EarliestExpiry();
    }

    static lemma LiveFewer(m: Ratings, now: nat)
      ensures |LiveRatings(m, now)| <= |m|
      ensures |LiveRatings(m, now)| == |m| ==> LiveRatings(m, now) == m
    {
      var live := LiveRatings(m, now);
      assert m.Keys == live.Keys + (m.Keys - live.Keys);
      assert |m.Keys| == |m| && |live.Keys| == |live|;
    }

    method EarliestExpiry() returns (next: Option<nat>)
      ensures next == Earliest(latest)
    {
      hide Earliest, Expiry, IsEarliest;
      next := None;
      var done: Ratings := map[];
      var rest := latest;
      NoneEarliest();
      while rest != map[]
        invariant done.Keys + rest.Keys == latest.Keys && IsEarliest(done, next)
        invariant forall k :: k in done ==> done[k] == latest[k]
        invariant forall k :: k in rest ==> rest[k] == latest[k]
        decreases |rest|
      {
        var key :| key in rest;
        SoonerEarliest(done, next, key, rest[key]);
        next := Earlier(next, Expiry(rest[key].created));
        done := done[key := rest[key]];
        assert |rest.Keys - {key}| == |rest.Keys| - 1 && |rest.Keys| == |rest|;
        assert (rest - {key}).Keys == rest.Keys - {key} && |(rest - {key}).Keys| == |rest - {key}|;
        rest := rest - {key};
      }
      assert done == latest;
      OneEarliest(latest, next, Earliest(latest));
    }

    static lemma NoneEarliest()
      ensures IsEarliest(map[], None)
    {}

    static lemma SoonerEarliest(m: Ratings, next: Option<nat>, key: Key, stored: Stored)
      requires IsEarliest(m, next) && (key in m ==> m[key] == stored)
      ensures IsEarliest(m[key := stored], Earlier(next, Expiry(stored.created)))
    {
      var n := m[key := stored];
      assert key in n;
      if next.Some? {
        var k :| k in m && Expiry(m[k].created) == next.value;
        assert k in n && n[k] == m[k];
      }
    }

    static lemma OneEarliest(m: Ratings, a: Option<nat>, b: Option<nat>)
      requires IsEarliest(m, a) && IsEarliest(m, b)
      ensures a == b
    {}

    method Rebuild()
      modifies this`graph
      ensures graph == project(Trusted(latest, trustedRaters + {root}))
    {
      var ratings := map k | k in latest && RaterIsAuthorized(k.rater) :: latest[k];
      assert ratings == Trusted(latest, trustedRaters + {root});
      graph := project(ratings);
    }

    method IngestEventAt(event: Event, now: nat) returns (accepted: bool)
      requires Valid()
      modifies this
      ensures Valid() && View() == Replayed(Rule(), old(View()), [event], now)
      ensures accepted <==> Accepted(Rule(), old(View()), [event], now) == 1
    {
      hide Consistent, Pruned, Consider, Counts, Trusted;
      ReplayedConsistent(Rule(), View(), [event], now);
      var pruned := PruneMemory(now);
      OneBatch(scope, trustedRaters + {root}, latest, nextPrune, event, now);
      var mayChange;
      accepted, mayChange := ConsiderEvent(event, now);
      if pruned > 0 || mayChange { Rebuild(); }
    }

    static lemma OneBatch(scope: string, trusted: set<string>, m: Ratings, next: Option<nat>, event: Event, now: nat)
      ensures var c := Consider(scope, trusted, m, next, event, now);
              ConsiderAll(scope, trusted, m, next, [event], now)
              == Batch(c.latest, c.nextPrune, if c.accepted then 1 else 0, c.mayChange)
    {
      hide Consider;
      var events := [event];
      assert events[..0] == [];
    }

    method ReplayAt(events: seq<Event>, now: nat) returns (changed: nat)
      requires Valid()
      modifies this
      ensures Valid() && View() == Replayed(Rule(), old(View()), events, now)
      ensures changed == Accepted(Rule(), old(View()), events, now)
    {
      hide Consistent, Pruned, Consider, Counts, Trusted;
      ReplayedConsistent(Rule(), View(), events, now);
      var pruned := PruneMemory(now);
      ghost var start, next := latest, nextPrune;
      changed := 0;
      var mayChange := false;
      for i := 0 to |events|
        invariant entriesByRater == Counts(latest) && graph == old(graph)
        invariant Batch(latest, nextPrune, changed, mayChange)
               == ConsiderAll(scope, trustedRaters + {root}, start, next, events[..i], now)
      {
        assert events[..i + 1][..i] == events[..i];
        var accepted, changes := ConsiderEvent(events[i], now);
        changed := changed + if accepted then 1 else 0;
        mayChange := mayChange || changes;
      }
      assert events[..|events|] == events;
      if pruned > 0 || mayChange { Rebuild(); }
    }

    method Prune(now: nat) returns (removed: nat)
      requires Valid()
      modifies this
      ensures Valid() && View() == Replayed(Rule(), old(View()), [], now)
      ensures removed == |old(latest)| - |latest|
    {
      hide Consistent, Pruned, Counts, Trusted;
      ReplayedConsistent(Rule(), View(), [], now);
      removed := PruneMemory(now);
      if removed > 0 { Rebuild(); }
    }
  }
}
