/** Which ratings a run retains: of each subject by each rater the newest of those offered that is still valid. */
module RatingRuns {
  import opened Wrappers
  import opened Sets
  import opened Strings
  import opened RatingCaps
  import opened Reputation

  /** A rating of the scope, by its own author, neither from the future nor too old. */
  predicate Offers(scope: string, e: Event, now: nat) {
    && e.rating.Some? && e.rating.value.rater == Some(e.author) && e.rating.value.subject.Some?
    && e.rating.value.scope == Some(scope) && Valid(e.rating.value.created, now)
  }

  /** Ten minutes ahead at most, thirty days back at most, on a clock of 64 bits. */
  predicate Valid(created: nat, now: nat) {
    created <= now + 600 && created <= 0xFFFF_FFFF_FFFF_FFFF && now <= created + 30 * 86_400
  }

  function KeyOf(e: Event): Key
    requires e.rating.Some? && e.rating.value.subject.Some?
  {
    Key(e.author, e.rating.value.subject.value)
  }

  function StoredOf(e: Event): Stored
    requires e.rating.Some?
  {
    Stored(e.id, e.rating.value.created, e.rating.value.content)
  }

  function OfferedNow(scope: string, events: seq<Event>, now: nat): set<(Key, Stored)> {
    set e | e in events && Offers(scope, e, now) :: (KeyOf(e), StoredOf(e))
  }

  function Offered(scope: string, calls: seq<Call>): set<(Key, Stored)> {
    set i, e | 0 <= i < |calls| && e in calls[i].events && Offers(scope, e, calls[i].now) :: (KeyOf(e), StoredOf(e))
  }

  // ---- The newest

  /** As new, by creation time and then identifier. */
  predicate NotAfter(a: Stored, b: Stored) {
    a.created < b.created || (a.created == b.created && (a.eventId == b.eventId || Lex(a.eventId, b.eventId)))
  }

  /** Exactly what is still valid is represented, by its newest. */
  ghost predicate KeepsNewest(m: Ratings, offered: set<(Key, Stored)>, now: nat) {
    && (forall k :: k in m ==> (k, m[k]) in offered && Valid(m[k].created, now))
    && (forall k, s :: (k, s) in offered && Valid(s.created, now) ==> k in m && NotAfter(s, m[k]))
  }

  function LiveKeys(offered: set<(Key, Stored)>, now: nat): set<Key> {
    set p | p in offered && Valid(p.1.created, now) :: p.0
  }

  function LiveOf(offered: set<(Key, Stored)>, now: nat, rater: string): set<Key> {
    set k | k in LiveKeys(offered, now) && k.rater == rater
  }

  /** No more than may be retained, of one rater or in all, is valid. */
  ghost predicate Fits(offered: set<(Key, Stored)>, now: nat) {
    && |LiveKeys(offered, now)| <= 4_096
    && forall r :: |LiveOf(offered, now, r)| <= 1_024
  }

  ghost predicate AlwaysFits(scope: string, calls: seq<Call>) {
    forall n :: 0 < n <= |calls| ==> Fits(Offered(scope, calls[..n]), calls[n - 1].now)
  }

  lemma ValidMeans(created: nat, now: nat)
    ensures Valid(created, now) <==> TimeValid(created, now)
  {}

  lemma OffersMeans(scope: string, e: Event, now: nat)
    ensures Offers(scope, e, now) <==> Rated(scope, e, now).Some?
    ensures Offers(scope, e, now) ==> Rated(scope, e, now).value == (KeyOf(e), StoredOf(e)) && Valid(StoredOf(e).created, now)
  {}

  lemma NewerMeans(a: Stored, b: Stored)
    ensures NotAfter(a, b) <==> !Newer(a, b)
    ensures Newer(a, b) ==> NotAfter(b, a) && a != b
  {
    LexTotal(a.eventId, b.eventId);
  }

  lemma NotAfterChain(a: Stored, b: Stored, c: Stored)
    requires NotAfter(a, b) && NotAfter(b, c)
    ensures NotAfter(a, c)
  {
    hide Lex;
    if Lex(a.eventId, b.eventId) && Lex(b.eventId, c.eventId) { LexTransitive(a.eventId, b.eventId, c.eventId); }
  }

  /** What fits needs no limit enforced. */
  lemma FitsWithin(m: Ratings, offered: set<(Key, Stored)>, now: nat)
    requires Fits(offered, now) && m.Keys <= LiveKeys(offered, now)
    ensures WithinLimits(m)
  {
    hide LiveKeys;
    SubsetSize(m.Keys, LiveKeys(offered, now));
    assert |m.Keys| == |m|;
    forall r ensures |OfRater(m, r)| <= MAX_PER_RATER {
      SubsetSize(OfRater(m, r), LiveOf(offered, now, r));
    }
  }

  lemma NewestInLive(m: Ratings, offered: set<(Key, Stored)>, more: set<(Key, Stored)>, now: nat)
    requires KeepsNewest(m, offered, now) && offered <= more
    ensures m.Keys <= LiveKeys(more, now)
  {
    forall k | k in m ensures k in LiveKeys(more, now) { assert (k, m[k]) in more; }
  }

  lemma OneConsidered(scope: string, trusted: set<string>, m: Ratings, next: Option<nat>, e: Event, now: nat,
                      offered: set<(Key, Stored)>, more: set<(Key, Stored)>)
    requires KeepsNewest(m, offered, now) && Fits(more, now)
    requires offered + (if Offers(scope, e, now) then {(KeyOf(e), StoredOf(e))} else {}) <= more
    ensures KeepsNewest(Consider(scope, trusted, m, next, e, now).latest,
                        offered + (if Offers(scope, e, now) then {(KeyOf(e), StoredOf(e))} else {}), now)
  {
    hide Lex, Capped, Consider, Fits, LiveKeys, Valid, Rated, WithinLimits;
    OffersMeans(scope, e, now);
    NewestInLive(m, offered, more, now);
    FitsWithin(m, more, now);
    ConsiderMeans(scope, trusted, m, next, e, now);
    if Offers(scope, e, now) {
      var k, s := KeyOf(e), StoredOf(e);
      InLive(more, k, s, now);
      FitsWithin(m[k := s], more, now);
      CappedSame(m[k := s], trusted);
      NewerMeans(s, s);
      if k in m {
        NewerMeans(s, m[k]);
        forall t | (k, t) in offered && Valid(t.created, now) && NotAfter(m[k], s) ensures NotAfter(t, s) {
          NotAfterChain(t, m[k], s);
        }
      }
    }
  }

  lemma InLive(offered: set<(Key, Stored)>, k: Key, s: Stored, now: nat)
    requires (k, s) in offered && Valid(s.created, now)
    ensures k in LiveKeys(offered, now)
  {}

  lemma {:induction false} BatchConsidered(scope: string, trusted: set<string>, m: Ratings, next: Option<nat>, events: seq<Event>,
                                           now: nat, offered: set<(Key, Stored)>, more: set<(Key, Stored)>)
    requires KeepsNewest(m, offered, now) && Fits(more, now) && offered + OfferedNow(scope, events, now) <= more
    ensures KeepsNewest(ConsiderAll(scope, trusted, m, next, events, now).latest, offered + OfferedNow(scope, events, now), now)
    decreases |events|
  {
    hide KeepsNewest, Fits, Consider, Valid;
    if events == [] {
      assert offered + OfferedNow(scope, events, now) == offered;
    } else {
      var n := |events| - 1;
      var e, before := events[n], OfferedNow(scope, events[..n], now);
      assert events == events[..n] + [e];
      assert OfferedNow(scope, events, now) == before + if Offers(scope, e, now) then {(KeyOf(e), StoredOf(e))} else {};
      BatchConsidered(scope, trusted, m, next, events[..n], now, offered, more);
      var b := ConsiderAll(scope, trusted, m, next, events[..n], now);
      OneConsidered(scope, trusted, b.latest, b.nextPrune, e, now, offered + before, more);
      assert offered + before + (if Offers(scope, e, now) then {(KeyOf(e), StoredOf(e))} else {})
          == offered + OfferedNow(scope, events, now);
    }
  }

  /** Time takes the oldest: what is still valid was valid before. */
  lemma NewestLater(m: Ratings, offered: set<(Key, Stored)>, before: nat, now: nat)
    requires KeepsNewest(m, offered, before) && before <= now
    requires forall k, s :: (k, s) in offered ==> s.created <= before + 600
    ensures KeepsNewest(LiveRatings(m, now), offered, now)
  {
    hide Lex;
    forall k, s | (k, s) in offered && Valid(s.created, now) ensures k in LiveRatings(m, now) && NotAfter(s, LiveRatings(m, now)[k]) {
      assert Valid(s.created, before) && NotAfter(s, m[k]);
      ValidMeans(m[k].created, now);
      assert (k, m[k]) in offered;
    }
    forall k | k in LiveRatings(m, now) ensures Valid(m[k].created, now) { ValidMeans(m[k].created, now); }
  }

  lemma OfferedOnTime(scope: string, calls: seq<Call>)
    requires Timely(calls)
    ensures forall k, s :: (k, s) in Offered(scope, calls) ==> s.created <= Clock(calls) + 600
  {
    forall k, s | (k, s) in Offered(scope, calls) ensures s.created <= Clock(calls) + 600 {
      var i, e :| 0 <= i < |calls| && e in calls[i].events && Offers(scope, e, calls[i].now) && (k, s) == (KeyOf(e), StoredOf(e));
      assert calls[i].now <= Clock(calls);
    }
  }

  lemma OfferedMore(scope: string, calls: seq<Call>)
    requires calls != []
    ensures var n := |calls| - 1;
            Offered(scope, calls) == Offered(scope, calls[..n]) + OfferedNow(scope, calls[n].events, calls[n].now)
  {
    hide Valid;
    var n := |calls| - 1;
    forall p | p in Offered(scope, calls) ensures p in Offered(scope, calls[..n]) + OfferedNow(scope, calls[n].events, calls[n].now) {
      var i, e :| 0 <= i < |calls| && e in calls[i].events && Offers(scope, e, calls[i].now) && p == (KeyOf(e), StoredOf(e));
      if i < n { assert calls[..n][i] == calls[i]; }
    }
    forall p | p in Offered(scope, calls[..n]) ensures p in Offered(scope, calls) {
      var i, e :| 0 <= i < n && e in calls[..n][i].events && Offers(scope, e, calls[..n][i].now) && p == (KeyOf(e), StoredOf(e));
      assert calls[..n][i] == calls[i];
    }
  }

  /** As long as what is valid fits the limits, a run retains for each rater and subject exactly the newest of the
      ratings offered that are still valid, in whatever order they came. */
  lemma {:induction false} NewestRetained<G>(a: Authority<G>, calls: seq<Call>)
    requires Timely(calls) && AlwaysFits(a.scope, calls)
    ensures KeepsNewest(Run(a, calls).latest, Offered(a.scope, calls), Clock(calls))
  {
    hide KeepsNewest, Fits, ConsiderAll, Pruned, Offered, OfferedNow, LiveRatings, Sound;
    if calls == [] {
      assert KeepsNewest(map[], Offered(a.scope, []), 0) by { NothingOffered(a.scope); }
    } else {
      var n := |calls| - 1;
      var earlier, last := calls[..n], calls[n];
      assert forall k :: 0 < k <= n ==> earlier[..k] == calls[..k] && earlier[k - 1] == calls[k - 1];
      NewestRetained(a, earlier);
      OfferedOnTime(a.scope, earlier);
      OfferedMore(a.scope, calls);
      var s := Run(a, earlier);
      RunSound(a, earlier);
      SoundPruned(a, s, Clock(earlier), last.now);
      NewestLater(s.latest, Offered(a.scope, earlier), Clock(earlier), last.now);
      assert calls[..n + 1] == calls;
      var p := Pruned(s.latest, s.nextPrune, last.now);
      BatchConsidered(a.scope, a.trusted, p.0, p.1, last.events, last.now, Offered(a.scope, earlier), Offered(a.scope, calls));
    }
  }

  lemma NothingOffered(scope: string)
    ensures KeepsNewest(map[], Offered(scope, []), 0)
  {}

  lemma SoundPruned<G>(a: Authority<G>, s: State<G>, before: nat, now: nat)
    requires Sound(a, s, before) && before <= now
    ensures Pruned(s.latest, s.nextPrune, now).0 == LiveRatings(s.latest, now)
  {
    hide WithinLimits, Pruned, LiveRatings;
    PrunedValid(s.latest, s.nextPrune, before, now);
  }

  // ---- Only the trusted need to fit

  /** What trusted raters offered. */
  function OfferedByTrusted(scope: string, trusted: set<string>, calls: seq<Call>): set<(Key, Stored)> {
    set p | p in Offered(scope, calls) && p.0.rater in trusted
  }

  lemma {:induction false} FilteredMembers(trusted: set<string>, events: seq<Event>)
    ensures forall e :: e in Filtered(trusted, events) <==> e in events && e.author in trusted
  {
    if events != [] {
      var n := |events| - 1;
      FilteredMembers(trusted, events[..n]);
      assert events == events[..n] + [events[n]];
    }
  }

  lemma SilencedOffers(scope: string, trusted: set<string>, calls: seq<Call>)
    ensures Offered(scope, Silenced(trusted, calls)) == OfferedByTrusted(scope, trusted, calls)
  {
    hide Filtered;
    var silent := Silenced(trusted, calls);
    forall i | 0 <= i < |calls| ensures forall e :: e in silent[i].events <==> e in calls[i].events && e.author in trusted {
      FilteredMembers(trusted, calls[i].events);
    }
    forall p | p in Offered(scope, silent) ensures p in OfferedByTrusted(scope, trusted, calls) {
      var i, e :| 0 <= i < |silent| && e in silent[i].events && Offers(scope, e, silent[i].now) && p == (KeyOf(e), StoredOf(e));
      assert e in calls[i].events && Offers(scope, e, calls[i].now);
    }
    forall p | p in OfferedByTrusted(scope, trusted, calls) ensures p in Offered(scope, silent) {
      var i, e :| 0 <= i < |calls| && e in calls[i].events && Offers(scope, e, calls[i].now) && p == (KeyOf(e), StoredOf(e));
      assert e in silent[i].events && Offers(scope, e, silent[i].now);
    }
  }

  ghost predicate TrustedFit(scope: string, trusted: set<string>, calls: seq<Call>) {
    forall n :: 0 < n <= |calls| ==> Fits(OfferedByTrusted(scope, trusted, calls[..n]), calls[n - 1].now)
  }

  /** However many ratings untrusted raters send: while those of trusted raters fit the limits, the graph is built from
      exactly the newest still valid one of each trusted rater and subject. */
  lemma NewestTrusted<G>(a: Authority<G>, calls: seq<Call>)
    requires Timely(calls) && TrustedFit(a.scope, a.trusted, calls)
    ensures KeepsNewest(Trusted(Run(a, calls).latest, a.trusted), OfferedByTrusted(a.scope, a.trusted, calls), Clock(calls))
    ensures Run(a, calls).graph == a.project(Trusted(Run(a, calls).latest, a.trusted))
  {
    hide KeepsNewest, Fits, Offered, OfferedByTrusted, Run, Filtered, WithinLimits;
    var silent := Silenced(a.trusted, calls);
    NonInterference(a, calls);
    SilencedTimely(a.trusted, calls);
    forall n | 0 < n <= |silent| ensures Fits(Offered(a.scope, silent[..n]), silent[n - 1].now) {
      assert silent[..n] == Silenced(a.trusted, calls[..n]);
      SilencedOffers(a.scope, a.trusted, calls[..n]);
    }
    NewestRetained(a, silent);
    SilencedOffers(a.scope, a.trusted, calls);
    RunSound(a, calls);
  }

  /** Identifiers are content hashes: two ratings under one identifier are the same. */
  ghost predicate Hashed(offered: set<(Key, Stored)>) {
    forall p, q :: p in offered && q in offered && p.1.eventId == q.1.eventId ==> p == q
  }

  lemma OneNewest(m: Ratings, n: Ratings, offered: set<(Key, Stored)>, now: nat)
    requires KeepsNewest(m, offered, now) && KeepsNewest(n, offered, now) && Hashed(offered)
    ensures m == n
  {
    hide Lex;
    forall k | k in m ensures k in n && m[k] == n[k] {
      LexTotal(m[k].eventId, n[k].eventId);
      assert (k, m[k]) in offered && (k, n[k]) in offered;
    }
    forall k | k in n ensures k in m { assert (k, n[k]) in offered; }
  }

  /** The order in which ratings arrive, within a batch or over many, makes no difference to the graph. */
  lemma RatingOrderDoesNotMatter<G>(a: Authority<G>, calls: seq<Call>, others: seq<Call>)
    requires Timely(calls) && TrustedFit(a.scope, a.trusted, calls)
    requires Timely(others) && TrustedFit(a.scope, a.trusted, others)
    requires OfferedByTrusted(a.scope, a.trusted, calls) == OfferedByTrusted(a.scope, a.trusted, others)
    requires Hashed(OfferedByTrusted(a.scope, a.trusted, calls)) && Clock(calls) == Clock(others)
    ensures Trusted(Run(a, calls).latest, a.trusted) == Trusted(Run(a, others).latest, a.trusted)
    ensures Run(a, calls).graph == Run(a, others).graph
  {
    hide KeepsNewest, Fits, Offered, OfferedByTrusted, Run, Trusted, Hashed;
    NewestTrusted(a, calls);
    NewestTrusted(a, others);
    OneNewest(Trusted(Run(a, calls).latest, a.trusted), Trusted(Run(a, others).latest, a.trusted),
              OfferedByTrusted(a.scope, a.trusted, calls), Clock(calls));
  }
}
