/** Peer ratings: what every call does to the retained ratings and the shared trust graph, and why ratings of
    untrusted raters make no difference to either. */
module Reputation {
  import opened Wrappers
  import opened Sets
  import opened Strings
  import opened RatingCaps

  const MAX_AGE: nat := 2_592_000
  const MAX_SKEW: nat := 600
  const MAX_SECONDS: nat := 0xFFFF_FFFF_FFFF_FFFF

  /** A parsed rating; a key that does not parse is absent. */
  datatype Rating = Rating(
    rater: Option<string>, subject: Option<string>, scope: Option<string>, created: nat, content: string)

  /** An event; `rating` is absent if kind, signature or content are not those of a rating. */
  datatype Event = Event(id: string, author: string, rating: Option<Rating>)

  /** Who counts: the local root and its configured raters. `project` builds the graph from the retained ratings of
      these, in the order of their keys. */
  datatype Authority<!G> = Authority(scope: string, trusted: set<string>, project: Ratings -> G)

  datatype State<G> = State(latest: Ratings, nextPrune: Option<nat>, graph: G)

  function Saturated(t: nat): nat { if t > MAX_SECONDS then MAX_SECONDS else t }

  predicate TimeValid(created: nat, now: nat) {
    created <= Saturated(now + MAX_SKEW) && now <= created + MAX_AGE
  }

  function Expiry(created: nat): nat { Saturated(Saturated(created + MAX_AGE) + 1) }

  function Earlier(next: Option<nat>, expires: nat): Option<nat> {
    Some(if next.Some? && next.value < expires then next.value else expires)
  }

  // ---- Single calls

  /** The rating an event brings, if it passes the checks. */
  function Rated(scope: string, event: Event, now: nat): Option<(Key, Stored)> {
    match event.rating
    case None => None
    case Some(r) =>
      if TimeValid(r.created, now) && r.scope == Some(scope) && r.rater == Some(event.author) && r.subject.Some?
      then Some((Key(event.author, r.subject.value), Stored(event.id, r.created, r.content)))
      else None
  }

  /** Later, or at the same time with the greater event identifier. */
  predicate Newer(a: Stored, b: Stored) {
    a.created > b.created || (a.created == b.created && Lex(b.eventId, a.eventId))
  }

  datatype Considered = Considered(latest: Ratings, nextPrune: Option<nat>, accepted: bool, mayChange: bool)

  ghost function Consider(scope: string, trusted: set<string>, latest: Ratings, next: Option<nat>, event: Event, now: nat): Considered {
    match Rated(scope, event, now)
    case None => Considered(latest, next, false, false)
    case Some((key, stored)) =>
      if key in latest && !Newer(stored, latest[key]) then Considered(latest, next, false, false)
      else
        var inserted := latest[key := stored];
        var exceeded := |inserted| > MAX_ENTRIES || |OfRater(inserted, key.rater)| > MAX_PER_RATER;
        var kept := if exceeded then Capped(inserted, trusted) else inserted;
        var retained := key in kept && kept[key].eventId == stored.eventId;
        Considered(kept, Earlier(next, Expiry(stored.created)), retained, (retained && key.rater in trusted) || exceeded)
  }

  /** A batch; `accepted` counts the ratings taken. */
  datatype Batch = Batch(latest: Ratings, nextPrune: Option<nat>, accepted: nat, mayChange: bool)

  ghost function ConsiderAll(scope: string, trusted: set<string>, latest: Ratings, next: Option<nat>, events: seq<Event>, now: nat): Batch {
    if events == [] then Batch(latest, next, 0, false)
    else
      var n := |events| - 1;
      var b := ConsiderAll(scope, trusted, latest, next, events[..n], now);
      var c := Consider(scope, trusted, b.latest, b.nextPrune, events[n], now);
      Batch(c.latest, c.nextPrune, b.accepted + (if c.accepted then 1 else 0), b.mayChange || c.mayChange)
  }

  function LiveRatings(m: Ratings, now: nat): Ratings {
    map k | k in m && TimeValid(m[k].created, now) :: m[k]
  }

  ghost predicate IsEarliest(m: Ratings, next: Option<nat>) {
    match next
    case None => m == map[]
    case Some(t) => (exists k :: k in m && Expiry(m[k].created) == t) && forall k :: k in m ==> t <= Expiry(m[k].created)
  }

  lemma {:induction false} EarliestExists(m: Ratings) returns (next: Option<nat>)
    ensures IsEarliest(m, next)
    decreases |m|
  {
    if m == map[] {
      next := None;
    } else {
      var k :| k in m;
      assert (m - {k}).Keys == m.Keys - {k} && |m - {k}| == |(m - {k}).Keys| && |m| == |m.Keys|;
      assert m.Keys == (m - {k}).Keys + {k} && forall j :: j in m - {k} ==> (m - {k})[j] == m[j];
      var rest := EarliestExists(m - {k});
      next := Earlier(rest, Expiry(m[k].created));
    }
  }

  ghost function Earliest(m: Ratings): (next: Option<nat>)
    ensures IsEarliest(m, next)
  {
    assert exists n :: IsEarliest(m, n) by {
      var n := EarliestExists(m);
    }
    var n :| IsEarliest(m, n);
    n
  }

  predicate Due(next: Option<nat>, now: nat) { next.Some? && next.value <= now }

  ghost function Pruned(m: Ratings, next: Option<nat>, now: nat): (Ratings, Option<nat>) {
    if Due(next, now) then (LiveRatings(m, now), Earliest(LiveRatings(m, now))) else (m, next)
  }

  /** Maintenance, then a batch of events, then the graph is rebuilt if it may have changed. */
  ghost function Replayed<G>(a: Authority<G>, s: State<G>, events: seq<Event>, now: nat): State<G> {
    var (latest, next) := Pruned(s.latest, s.nextPrune, now);
    var b := ConsiderAll(a.scope, a.trusted, latest, next, events, now);
    State(b.latest, b.nextPrune,
          if latest != s.latest || b.mayChange then a.project(Trusted(b.latest, a.trusted)) else s.graph)
  }

  ghost function Accepted<G>(a: Authority<G>, s: State<G>, events: seq<Event>, now: nat): nat {
    var (latest, next) := Pruned(s.latest, s.nextPrune, now);
    ConsiderAll(a.scope, a.trusted, latest, next, events, now).accepted
  }

  function New<G>(a: Authority<G>): State<G> { State(map[], None, a.project(map[])) }

  // ---- The invariant

  ghost predicate Scheduled(m: Ratings, next: Option<nat>) {
    forall k :: k in m ==> next.Some? && next.value <= Expiry(m[k].created)
  }

  ghost predicate AllValid(m: Ratings, now: nat) {
    forall k :: k in m ==> TimeValid(m[k].created, now)
  }

  /** Within the limits, maintenance scheduled in time, and the graph built from exactly the retained trusted ratings. */
  ghost predicate Consistent<G>(a: Authority<G>, s: State<G>) {
    && WithinLimits(s.latest) && Scheduled(s.latest, s.nextPrune)
    && s.graph == a.project(Trusted(s.latest, a.trusted))
  }

  /** And nothing retained has expired at the time of the latest call. */
  ghost predicate Sound<G>(a: Authority<G>, s: State<G>, now: nat) {
    Consistent(a, s) && AllValid(s.latest, now)
  }

  lemma PrunedKeeps(m: Ratings, next: Option<nat>, now: nat)
    requires WithinLimits(m) && Scheduled(m, next)
    ensures var p := Pruned(m, next, now);
            WithinLimits(p.0) && Scheduled(p.0, p.1)
  {
    if Due(next, now) {
      var live := LiveRatings(m, now);
      SubsetSize(live.Keys, m.Keys);
      assert |live.Keys| == |live| && |m.Keys| == |m|;
      forall r ensures |OfRater(live, r)| <= MAX_PER_RATER { SubsetSize(OfRater(live, r), OfRater(m, r)); }
    }
  }

  /** Maintenance leaves exactly the ratings still valid, whether or not it was due. */
  lemma PrunedValid(m: Ratings, next: Option<nat>, before: nat, now: nat)
    requires AllValid(m, before) && Scheduled(m, next) && before <= now
    ensures var p := Pruned(m, next, now);
            p.0 == LiveRatings(m, now) && AllValid(p.0, now)
  {
    if !Due(next, now) { assert LiveRatings(m, now) == m; }
  }

  /** Inserting needs the limits enforced only where they are exceeded. */
  lemma InsertedCapped(m: Ratings, trusted: set<string>, key: Key, stored: Stored)
    requires WithinLimits(m)
    ensures var inserted := m[key := stored];
            !(|inserted| > MAX_ENTRIES || |OfRater(inserted, key.rater)| > MAX_PER_RATER) ==>
              WithinLimits(inserted) && Capped(inserted, trusted) == inserted
  {
    hide Capped;
    var inserted := m[key := stored];
    forall r | r != key.rater ensures OfRater(inserted, r) == OfRater(m, r) {}
    if !(|inserted| > MAX_ENTRIES || |OfRater(inserted, key.rater)| > MAX_PER_RATER) { CappedSame(inserted, trusted); }
  }

  /** What considering an event comes to: insert, then apply the limits. */
  lemma ConsiderMeans(scope: string, trusted: set<string>, m: Ratings, next: Option<nat>, event: Event, now: nat)
    requires WithinLimits(m)
    ensures var c := Consider(scope, trusted, m, next, event, now);
            match Rated(scope, event, now)
            case None => c.latest == m && c.nextPrune == next && !c.accepted
            case Some((key, stored)) =>
              if key in m && (stored.created < m[key].created
                              || (stored.created == m[key].created && !Lex(m[key].eventId, stored.eventId))) then c.latest == m && c.nextPrune == next && !c.accepted
              else && c.latest == Capped(m[key := stored], trusted) && c.nextPrune == Earlier(next, Expiry(stored.created))
                   && c.accepted == (key in c.latest && c.latest[key].eventId == stored.eventId)
  {
    hide Capped, WithinLimits, Lex;
    match Rated(scope, event, now)
    case None =>
    case Some((key, stored)) => InsertedCapped(m, trusted, key, stored);
  }

  lemma ConsiderKeeps(scope: string, trusted: set<string>, m: Ratings, next: Option<nat>, event: Event, now: nat)
    requires WithinLimits(m) && Scheduled(m, next)
    ensures var c := Consider(scope, trusted, m, next, event, now);
            WithinLimits(c.latest) && Scheduled(c.latest, c.nextPrune) && (AllValid(m, now) ==> AllValid(c.latest, now))
  {
    hide Capped, WithinLimits, Newer, Expiry, TimeValid, Consider;
    ConsiderMeans(scope, trusted, m, next, event, now);
    match Rated(scope, event, now)
    case None =>
    case Some((key, stored)) =>
      RatedValid(scope, event, now);
      CappedWithin(m[key := stored], trusted);
  }

  lemma RatedValid(scope: string, event: Event, now: nat)
    ensures Rated(scope, event, now).Some? ==>
              TimeValid(Rated(scope, event, now).value.1.created, now) && Rated(scope, event, now).value.0.rater == event.author
  {}

  // ---- Untrusted ratings make no difference

  lemma TrustedInsert(m: Ratings, trusted: set<string>, key: Key, stored: Stored)
    ensures Trusted(m[key := stored], trusted)
         == if key.rater in trusted then Trusted(m, trusted)[key := stored] else Trusted(m, trusted)
  {}

  lemma TrustedWithin(m: Ratings, trusted: set<string>)
    requires WithinLimits(m)
    ensures WithinLimits(Trusted(m, trusted))
  {
    var t := Trusted(m, trusted);
    SubsetSize(t.Keys, m.Keys);
    assert |t.Keys| == |t| && |m.Keys| == |m|;
    forall r ensures |OfRater(t, r)| <= MAX_PER_RATER { SubsetSize(OfRater(t, r), OfRater(m, r)); }
  }

  /** An untrusted rating leaves the trusted ones, and does not ask for a new graph without need. */
  lemma UntrustedIgnored(scope: string, trusted: set<string>, m: Ratings, next: Option<nat>, event: Event, now: nat)
    requires WithinLimits(m) && event.author !in trusted
    ensures Trusted(Consider(scope, trusted, m, next, event, now).latest, trusted) == Trusted(m, trusted)
  {
    hide Capped, WithinLimits, Newer, Consider, Trusted;
    ConsiderMeans(scope, trusted, m, next, event, now);
    match Rated(scope, event, now)
    case None =>
    case Some((key, stored)) =>
      RatedValid(scope, event, now);
      CappedTrusted(m[key := stored], trusted);
      TrustedInsert(m, trusted, key, stored);
      TrustedWithin(m, trusted);
      CappedSame(Trusted(m, trusted), trusted);
  }

  /** A trusted rating does to the trusted ones what it would do without the others, with the same answer. */
  lemma TrustedAlone(scope: string, trusted: set<string>, m: Ratings, next: Option<nat>, other: Option<nat>, event: Event, now: nat)
    requires WithinLimits(m) && event.author in trusted
    ensures var c := Consider(scope, trusted, m, next, event, now);
            var d := Consider(scope, trusted, Trusted(m, trusted), other, event, now);
            Trusted(c.latest, trusted) == d.latest && c.accepted == d.accepted
  {
    hide Capped, WithinLimits, Newer, Consider;
    TrustedWithin(m, trusted);
    ConsiderMeans(scope, trusted, m, next, event, now);
    ConsiderMeans(scope, trusted, Trusted(m, trusted), other, event, now);
    ConsiderNothing(scope, trusted, m, next, event, now);
    ConsiderNothing(scope, trusted, Trusted(m, trusted), other, event, now);
    match Rated(scope, event, now)
    case None =>
    case Some((key, stored)) =>
      RatedValid(scope, event, now);
      CappedTrusted(m[key := stored], trusted);
      TrustedInsert(m, trusted, key, stored);
  }

  lemma ConsiderNothing(scope: string, trusted: set<string>, m: Ratings, next: Option<nat>, event: Event, now: nat)
    ensures Rated(scope, event, now).None? ==> !Consider(scope, trusted, m, next, event, now).accepted
  {
    hide Capped, Rated;
  }

  /** No rebuild is due only if the trusted ratings are as they were. */
  lemma ConsiderQuiet(scope: string, trusted: set<string>, m: Ratings, next: Option<nat>, event: Event, now: nat)
    ensures var c := Consider(scope, trusted, m, next, event, now);
            !c.mayChange ==> Trusted(c.latest, trusted) == Trusted(m, trusted)
  {
    hide Capped, Newer;
    match Rated(scope, event, now)
    case None =>
    case Some((key, stored)) => TrustedInsert(m, trusted, key, stored);
  }

  lemma {:induction false} BatchKeeps(scope: string, trusted: set<string>, m: Ratings, next: Option<nat>, events: seq<Event>, now: nat)
    requires WithinLimits(m) && Scheduled(m, next)
    ensures var b := ConsiderAll(scope, trusted, m, next, events, now);
            && WithinLimits(b.latest) && Scheduled(b.latest, b.nextPrune) && (AllValid(m, now) ==> AllValid(b.latest, now))
            && (!b.mayChange ==> Trusted(b.latest, trusted) == Trusted(m, trusted))
  {
    hide WithinLimits, AllValid, Scheduled, Consider, Trusted;
    if events != [] {
      var n := |events| - 1;
      BatchKeeps(scope, trusted, m, next, events[..n], now);
      var b := ConsiderAll(scope, trusted, m, next, events[..n], now);
      ConsiderKeeps(scope, trusted, b.latest, b.nextPrune, events[n], now);
      ConsiderQuiet(scope, trusted, b.latest, b.nextPrune, events[n], now);
    }
  }

  /** Every call, at whatever time, keeps the invariant; in particular the graph is always that of the retained
      trusted ratings. */
  lemma ReplayedConsistent<G>(a: Authority<G>, s: State<G>, events: seq<Event>, now: nat)
    requires Consistent(a, s)
    ensures Consistent(a, Replayed(a, s, events, now))
  {
    hide WithinLimits, AllValid, Scheduled, Trusted, Pruned, ConsiderAll;
    PrunedKeeps(s.latest, s.nextPrune, now);
    var p := Pruned(s.latest, s.nextPrune, now);
    BatchKeeps(a.scope, a.trusted, p.0, p.1, events, now);
  }

  lemma ReplayedKeeps<G>(a: Authority<G>, s: State<G>, events: seq<Event>, before: nat, now: nat)
    requires Sound(a, s, before) && before <= now
    ensures Sound(a, Replayed(a, s, events, now), now)
  {
    hide WithinLimits, AllValid, Scheduled, Trusted, Pruned, ConsiderAll;
    ReplayedConsistent(a, s, events, now);
    PrunedKeeps(s.latest, s.nextPrune, now);
    PrunedValid(s.latest, s.nextPrune, before, now);
    var p := Pruned(s.latest, s.nextPrune, now);
    BatchKeeps(a.scope, a.trusted, p.0, p.1, events, now);
  }

  // ---- Runs

  /** A call: a batch replayed, one event ingested, or with no events just maintenance. */
  datatype Call = Call(events: seq<Event>, now: nat)

  ghost function Run<G>(a: Authority<G>, calls: seq<Call>): State<G> {
    if calls == [] then New(a)
    else
      var n := |calls| - 1;
      Replayed(a, Run(a, calls[..n]), calls[n].events, calls[n].now)
  }

  predicate Timely(calls: seq<Call>) {
    forall i, j :: 0 <= i < j < |calls| ==> calls[i].now <= calls[j].now
  }

  function Clock(calls: seq<Call>): nat { if calls == [] then 0 else calls[|calls| - 1].now }

  lemma {:induction false} RunSound<G>(a: Authority<G>, calls: seq<Call>)
    requires Timely(calls)
    ensures Sound(a, Run(a, calls), Clock(calls))
  {
    hide Replayed, WithinLimits;
    if calls == [] {
      NewSound(a);
    } else {
      var n := |calls| - 1;
      RunSound(a, calls[..n]);
      ReplayedKeeps(a, Run(a, calls[..n]), calls[n].events, Clock(calls[..n]), calls[n].now);
    }
  }

  lemma NewSound<G>(a: Authority<G>)
    ensures Sound(a, New(a), 0)
  {
    assert Trusted(map[], a.trusted) == map[];
    forall r ensures |OfRater(map[], r)| <= MAX_PER_RATER { assert OfRater(map[], r) == {}; }
  }

  /** Only the events of trusted authors. */
  function Filtered(trusted: set<string>, events: seq<Event>): seq<Event> {
    if events == [] then []
    else
      var n := |events| - 1;
      Filtered(trusted, events[..n]) + if events[n].author in trusted then [events[n]] else []
  }

  /** The run in which every other event is replaced by maintenance at that time. */
  function Silenced(trusted: set<string>, calls: seq<Call>): seq<Call> {
    seq(|calls|, i requires 0 <= i < |calls| => Call(Filtered(trusted, calls[i].events), calls[i].now))
  }

  lemma {:induction false} BatchAlone(scope: string, trusted: set<string>, m: Ratings, next: Option<nat>, other: Option<nat>,
                                      events: seq<Event>, now: nat)
    requires WithinLimits(m) && Scheduled(m, next)
    ensures Trusted(ConsiderAll(scope, trusted, m, next, events, now).latest, trusted)
         == ConsiderAll(scope, trusted, Trusted(m, trusted), other, Filtered(trusted, events), now).latest
    decreases |events|
  {
    hide WithinLimits, AllValid, Scheduled, Consider, Trusted;
    if events != [] {
      var n := |events| - 1;
      var e, rest := events[n], events[..n];
      BatchAlone(scope, trusted, m, next, other, rest, now);
      BatchKeeps(scope, trusted, m, next, rest, now);
      var b := ConsiderAll(scope, trusted, m, next, rest, now);
      if e.author in trusted {
        var short := Filtered(trusted, rest);
        assert Filtered(trusted, events)[..|short|] == short;
        var d := ConsiderAll(scope, trusted, Trusted(m, trusted), other, short, now);
        TrustedAlone(scope, trusted, b.latest, b.nextPrune, d.nextPrune, e, now);
      } else {
        assert Filtered(trusted, events) == Filtered(trusted, rest);
        UntrustedIgnored(scope, trusted, b.latest, b.nextPrune, e, now);
      }
    }
  }

  lemma LiveTrusted(m: Ratings, trusted: set<string>, now: nat)
    ensures Trusted(LiveRatings(m, now), trusted) == LiveRatings(Trusted(m, trusted), now)
  {}

  lemma CallAlone<G>(a: Authority<G>, s: State<G>, t: State<G>, events: seq<Event>, before: nat, now: nat)
    requires Sound(a, s, before) && Sound(a, t, before) && before <= now && Trusted(s.latest, a.trusted) == t.latest
    ensures Trusted(Replayed(a, s, events, now).latest, a.trusted)
         == Replayed(a, t, Filtered(a.trusted, events), now).latest
  {
    hide WithinLimits, AllValid, Scheduled, Trusted, Pruned, ConsiderAll, LiveRatings, Filtered;
    PrunedValid(s.latest, s.nextPrune, before, now);
    PrunedValid(t.latest, t.nextPrune, before, now);
    PrunedKeeps(s.latest, s.nextPrune, now);
    LiveTrusted(s.latest, a.trusted, now);
    var p, q := Pruned(s.latest, s.nextPrune, now), Pruned(t.latest, t.nextPrune, now);
    BatchAlone(a.scope, a.trusted, p.0, p.1, q.1, events, now);
  }

  /** Under a clock that never goes back, the trusted ratings and the graph are those of the run without any
      untrusted event, whatever the shared limits and maintenance do. */
  lemma {:induction false} NonInterference<G>(a: Authority<G>, calls: seq<Call>)
    requires Timely(calls)
    ensures var s, t := Run(a, calls), Run(a, Silenced(a.trusted, calls));
            Trusted(s.latest, a.trusted) == t.latest && s.graph == t.graph
  {
    hide Sound, Trusted, Replayed;
    RunSound(a, calls);
    SilencedTimely(a.trusted, calls);
    RunSound(a, Silenced(a.trusted, calls));
    if calls == [] {
      assert Trusted(map[], a.trusted) == map[] by { NoneTrusted(a.trusted); }
    } else {
      var n := |calls| - 1;
      NonInterference(a, calls[..n]);
      RunSound(a, calls[..n]);
      SilencedTimely(a.trusted, calls[..n]);
      RunSound(a, Silenced(a.trusted, calls[..n]));
      assert Silenced(a.trusted, calls)[..n] == Silenced(a.trusted, calls[..n]);
      CallAlone(a, Run(a, calls[..n]), Run(a, Silenced(a.trusted, calls[..n])), calls[n].events, Clock(calls[..n]), calls[n].now);
    }
    SameGraph(a, Run(a, calls), Run(a, Silenced(a.trusted, calls)), Clock(calls));
  }

  lemma NoneTrusted(trusted: set<string>)
    ensures Trusted(map[], trusted) == map[]
  {}

  lemma TrustedTwice(m: Ratings, trusted: set<string>)
    ensures Trusted(Trusted(m, trusted), trusted) == Trusted(m, trusted)
  {}

  lemma SameGraph<G>(a: Authority<G>, s: State<G>, t: State<G>, now: nat)
    requires Sound(a, s, now) && Sound(a, t, now) && Trusted(s.latest, a.trusted) == t.latest
    ensures s.graph == t.graph
  {
    hide WithinLimits, AllValid, Scheduled, Trusted;
    TrustedTwice(s.latest, a.trusted);
  }

  lemma SilencedTimely(trusted: set<string>, calls: seq<Call>)
    requires Timely(calls)
    ensures Timely(Silenced(trusted, calls)) && Clock(Silenced(trusted, calls)) == Clock(calls)
  {}

  /** A trusted author's event gets the same answer whatever untrusted raters sent before. */
  lemma SameAnswer<G>(a: Authority<G>, calls: seq<Call>, event: Event, now: nat)
    requires Timely(calls) && Clock(calls) <= now && event.author in a.trusted
    ensures Accepted(a, Run(a, calls), [event], now) == Accepted(a, Run(a, Silenced(a.trusted, calls)), [event], now)
  {
    hide WithinLimits, AllValid, Scheduled, Trusted, Pruned, LiveRatings, Consider, Run;
    NonInterference(a, calls);
    RunSound(a, calls);
    SilencedTimely(a.trusted, calls);
    RunSound(a, Silenced(a.trusted, calls));
    var s, t := Run(a, calls), Run(a, Silenced(a.trusted, calls));
    PrunedValid(s.latest, s.nextPrune, Clock(calls), now);
    PrunedValid(t.latest, t.nextPrune, Clock(calls), now);
    PrunedKeeps(s.latest, s.nextPrune, now);
    LiveTrusted(s.latest, a.trusted, now);
    var p, q := Pruned(s.latest, s.nextPrune, now), Pruned(t.latest, t.nextPrune, now);
    TrustedAlone(a.scope, a.trusted, p.0, p.1, q.1, event, now);
    OneEvent(a.scope, a.trusted, p.0, p.1, event, now);
    OneEvent(a.scope, a.trusted, q.0, q.1, event, now);
  }

  lemma OneEvent(scope: string, trusted: set<string>, m: Ratings, next: Option<nat>, event: Event, now: nat)
    ensures ConsiderAll(scope, trusted, m, next, [event], now).accepted
         == if Consider(scope, trusted, m, next, event, now).accepted then 1 else 0
  {
    hide Consider;
    var events := [event];
    assert events[..0] == [];
  }
}
