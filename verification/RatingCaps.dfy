/** Which ratings are kept when there are too many: for each rater the newest ones, then overall the newest ones,
    those of untrusted raters going first. */
module RatingCaps {
  import opened Strings
  import opened Sets

  datatype Key = Key(rater: string, subject: string)

  datatype Stored = Stored(eventId: string, created: nat, content: string)

  type Ratings = map<Key, Stored>

  const MAX_ENTRIES: nat := 4_096
  const MAX_PER_RATER: nat := 1_024

  // ---- The order of removal

  predicate KeyLess(a: Key, b: Key) {
    Lex(a.rater, b.rater) || (a.rater == b.rater && Lex(a.subject, b.subject))
  }

  predicate Older(m: Ratings, a: Key, b: Key)
    requires a in m && b in m
  {
    || m[a].created < m[b].created
    || (m[a].created == m[b].created
        && (Lex(m[a].eventId, m[b].eventId) || (m[a].eventId == m[b].eventId && KeyLess(a, b))))
  }

  /** a is removed before b. */
  predicate Sooner(m: Ratings, trusted: set<string>, a: Key, b: Key)
    requires a in m && b in m
  {
    (a.rater !in trusted && b.rater in trusted) || ((a.rater in trusted <==> b.rater in trusted) && Older(m, a, b))
  }

  lemma SoonerTotal(m: Ratings, trusted: set<string>, a: Key, b: Key)
    requires a in m && b in m
    ensures a == b || Sooner(m, trusted, a, b) || Sooner(m, trusted, b, a)
    ensures !(Sooner(m, trusted, a, b) && Sooner(m, trusted, b, a)) && !Sooner(m, trusted, a, a)
  {
    LexTotal(m[a].eventId, m[b].eventId);
    LexTotal(a.rater, b.rater);
    LexTotal(a.subject, b.subject);
  }

  lemma LexChain(a: string, b: string, c: string)
    ensures Lex(a, b) && Lex(b, c) ==> Lex(a, c)
  {
    if Lex(a, b) && Lex(b, c) { LexTransitive(a, b, c); }
  }

  lemma SoonerTransitive(m: Ratings, trusted: set<string>, a: Key, b: Key, c: Key)
    requires a in m && b in m && c in m && Sooner(m, trusted, a, b) && Sooner(m, trusted, b, c)
    ensures Sooner(m, trusted, a, c)
  {
    hide Lex;
    LexChain(m[a].eventId, m[b].eventId, m[c].eventId);
    LexChain(a.rater, b.rater, c.rater);
    LexChain(a.subject, b.subject, c.subject);
  }

  // ---- Ranks

  /** How many of a set are removed before k. */
  ghost function Rank(m: Ratings, trusted: set<string>, among: set<Key>, k: Key): nat
    requires among <= m.Keys && k in m
  {
    |Ahead(m, trusted, among, k)|
  }

  ghost function Ahead(m: Ratings, trusted: set<string>, among: set<Key>, k: Key): set<Key>
    requires among <= m.Keys && k in m
  {
    set j | j in among && Sooner(m, trusted, j, k)
  }

  ghost function OfRater(m: Ratings, rater: string): set<Key> { set k | k in m && k.rater == rater }

  ghost function NewestOfEach(m: Ratings, trusted: set<string>, limit: nat): Ratings {
    map k | k in m && Rank(m, trusted, OfRater(m, k.rater), k) + limit >= |OfRater(m, k.rater)| :: m[k]
  }

  ghost function NewestOverall(m: Ratings, trusted: set<string>, limit: nat): Ratings {
    map k | k in m && Rank(m, trusted, m.Keys, k) + limit >= |m| :: m[k]
  }

  /** What the limits leave. */
  ghost function Capped(m: Ratings, trusted: set<string>): Ratings {
    NewestOverall(NewestOfEach(m, trusted, MAX_PER_RATER), trusted, MAX_ENTRIES)
  }

  // ---- Counting by rank

  lemma {:induction false} LastExists(m: Ratings, trusted: set<string>, among: set<Key>) returns (g: Key)
    requires among <= m.Keys && among != {}
    ensures g in among && forall j :: j in among && j != g ==> Sooner(m, trusted, j, g)
    decreases |among|
  {
    hide Sooner;
    var k :| k in among;
    var rest := among - {k};
    assert among == rest + {k};
    if rest == {} {
      g := k;
    } else {
      var h := LastExists(m, trusted, rest);
      SoonerTotal(m, trusted, k, h);
      if Sooner(m, trusted, k, h) {
        g := h;
      } else {
        g := k;
        forall j | j in among && j != k ensures Sooner(m, trusted, j, k) {
          if j != h { SoonerTransitive(m, trusted, j, h, k); }
        }
      }
    }
  }

  ghost function Low(m: Ratings, trusted: set<string>, among: set<Key>, n: nat): set<Key>
    requires among <= m.Keys
  {
    set k | k in among && Rank(m, trusted, among, k) < n
  }

  /** Of any set exactly n have a rank below n. */
  lemma {:induction false} RankCount(m: Ratings, trusted: set<string>, among: set<Key>, n: nat)
    requires among <= m.Keys && n <= |among|
    ensures |Low(m, trusted, among, n)| == n
    decreases |among|
  {
    hide Sooner;
    if among == {} {
      assert Low(m, trusted, among, n) == {};
    } else {
      var g := LastExists(m, trusted, among);
      var rest := among - {g};
      forall k | k in rest ensures Rank(m, trusted, among, k) == Rank(m, trusted, rest, k) {
        SoonerTotal(m, trusted, g, k);
        assert Ahead(m, trusted, among, k) == Ahead(m, trusted, rest, k);
      }
      SoonerTotal(m, trusted, g, g);
      assert Ahead(m, trusted, among, g) == rest;
      assert |rest| == |among| - 1;
      if n == |among| {
        RankCount(m, trusted, rest, n - 1);
        LowAll(m, trusted, rest);
        assert Low(m, trusted, among, n) == among;
      } else {
        RankCount(m, trusted, rest, n);
        assert Low(m, trusted, among, n) == Low(m, trusted, rest, n);
      }
    }
  }

  lemma LowAll(m: Ratings, trusted: set<string>, among: set<Key>)
    requires among <= m.Keys && |Low(m, trusted, among, |among|)| == |among|
    ensures forall k :: k in among ==> Rank(m, trusted, among, k) < |among|
  {
    var low := Low(m, trusted, among, |among|);
    assert |among - low| == |among| - |low|;
    assert among == low + (among - low);
  }

  /** All but those of lowest rank. */
  ghost function High(m: Ratings, trusted: set<string>, among: set<Key>, limit: nat): set<Key>
    requires among <= m.Keys
  {
    set k | k in among && Rank(m, trusted, among, k) + limit >= |among|
  }

  lemma HighCount(m: Ratings, trusted: set<string>, among: set<Key>, limit: nat)
    requires among <= m.Keys
    ensures |High(m, trusted, among, limit)| == if |among| <= limit then |among| else limit
  {
    hide Rank;
    var high := High(m, trusted, among, limit);
    if |among| <= limit {
      assert high == among;
    } else {
      var n := |among| - limit;
      RankCount(m, trusted, among, n);
      assert among == Low(m, trusted, among, n) + high && Low(m, trusted, among, n) !! high;
    }
  }

  // ---- What the limits do

  ghost predicate WithinLimits(m: Ratings) {
    |m| <= MAX_ENTRIES && forall r :: |OfRater(m, r)| <= MAX_PER_RATER
  }

  lemma CappedWithin(m: Ratings, trusted: set<string>)
    ensures WithinLimits(Capped(m, trusted))
    ensures forall k :: k in Capped(m, trusted) ==> k in m && Capped(m, trusted)[k] == m[k]
  {
    hide Rank, Sooner;
    var each := NewestOfEach(m, trusted, MAX_PER_RATER);
    var all := Capped(m, trusted);
    HighCount(each, trusted, each.Keys, MAX_ENTRIES);
    assert |each.Keys| == |each| && |all.Keys| == |all|;
    assert all.Keys == High(each, trusted, each.Keys, MAX_ENTRIES);
    forall r ensures |OfRater(all, r)| <= MAX_PER_RATER {
      var of := OfRater(m, r);
      HighCount(m, trusted, of, MAX_PER_RATER);
      SubsetSize(OfRater(all, r), High(m, trusted, of, MAX_PER_RATER));
    }
  }

  lemma CappedSame(m: Ratings, trusted: set<string>)
    requires WithinLimits(m)
    ensures Capped(m, trusted) == m
  {
    hide Rank;
    assert NewestOfEach(m, trusted, MAX_PER_RATER) == m;
  }

  lemma RankOrder(m: Ratings, trusted: set<string>, among: set<Key>, j: Key, k: Key)
    requires among <= m.Keys && j in among && k in among && Rank(m, trusted, among, j) < Rank(m, trusted, among, k)
    ensures Sooner(m, trusted, j, k)
  {
    hide Sooner;
    SoonerTotal(m, trusted, j, k);
    if Sooner(m, trusted, k, j) {
      forall x | x in Ahead(m, trusted, among, k) ensures x in Ahead(m, trusted, among, j) {
        SoonerTransitive(m, trusted, x, k, j);
      }
      SubsetSize(Ahead(m, trusted, among, k), Ahead(m, trusted, among, j));
    }
  }

  /** What is dropped is no newer than what is kept of the same rater. If its rater has no more than he may have, then
      as many as allowed in all are kept, trusted ones rather than others, and none older among equals. */
  lemma CappedNewest(m: Ratings, trusted: set<string>, j: Key, k: Key)
    requires j in m && j !in Capped(m, trusted) && k in Capped(m, trusted)
    ensures k in m
    ensures var sooner := m[j].created < m[k].created || (m[j].created == m[k].created && !Lex(m[k].eventId, m[j].eventId));
            && (j.rater == k.rater ==> sooner)
            && (|OfRater(m, j.rater)| <= 1024 ==>
                  && |Capped(m, trusted)| == 4096
                  && (j.rater in trusted ==> k.rater in trusted)
                  && ((j.rater in trusted <==> k.rater in trusted) ==> sooner))
  {
    hide Rank, Sooner, Lex;
    var each := NewestOfEach(m, trusted, MAX_PER_RATER);
    if j in each {
      DroppedOverall(each, trusted, j, k);
      SoonerMeans(each, trusted, j, k);
    } else if j.rater == k.rater {
      RankOrder(m, trusted, OfRater(m, j.rater), j, k);
      SoonerMeans(m, trusted, j, k);
    }
  }

  lemma DroppedOverall(each: Ratings, trusted: set<string>, j: Key, k: Key)
    requires j in each && j !in NewestOverall(each, trusted, MAX_ENTRIES) && k in NewestOverall(each, trusted, MAX_ENTRIES)
    ensures Sooner(each, trusted, j, k) && |NewestOverall(each, trusted, MAX_ENTRIES)| == MAX_ENTRIES
  {
    hide Rank, Sooner;
    var all := NewestOverall(each, trusted, MAX_ENTRIES);
    assert |each.Keys| == |each| && |all.Keys| == |all|;
    HighCount(each, trusted, each.Keys, MAX_ENTRIES);
    assert all.Keys == High(each, trusted, each.Keys, MAX_ENTRIES);
    RankOrder(each, trusted, each.Keys, j, k);
  }

  lemma SoonerMeans(m: Ratings, trusted: set<string>, j: Key, k: Key)
    requires j in m && k in m && Sooner(m, trusted, j, k)
    ensures var sooner := m[j].created < m[k].created || (m[j].created == m[k].created && !Lex(m[k].eventId, m[j].eventId));
            && (j.rater in trusted ==> k.rater in trusted)
            && ((j.rater in trusted <==> k.rater in trusted) ==> sooner)
  {
    LexTotal(m[j].eventId, m[k].eventId);
  }

  // ---- Trusted ratings are not affected by the others

  ghost function Trusted(m: Ratings, trusted: set<string>): Ratings {
    map k | k in m && k.rater in trusted :: m[k]
  }

  lemma EachTrusted(m: Ratings, trusted: set<string>, limit: nat)
    ensures Trusted(NewestOfEach(m, trusted, limit), trusted) == NewestOfEach(Trusted(m, trusted), trusted, limit)
  {
    hide Older;
    var t := Trusted(m, trusted);
    forall k | k in t ensures OfRater(t, k.rater) == OfRater(m, k.rater)
                              && Rank(t, trusted, OfRater(t, k.rater), k) == Rank(m, trusted, OfRater(m, k.rater), k)
    {
      assert OfRater(t, k.rater) == OfRater(m, k.rater);
      forall j | j in OfRater(m, k.rater) ensures Sooner(t, trusted, j, k) == Sooner(m, trusted, j, k) {
        OlderSame(t, m, j, k);
      }
      assert Ahead(t, trusted, OfRater(t, k.rater), k) == Ahead(m, trusted, OfRater(m, k.rater), k);
    }
  }

  lemma OlderSame(m: Ratings, n: Ratings, a: Key, b: Key)
    requires a in m && b in m && a in n && b in n && m[a] == n[a] && m[b] == n[b]
    ensures Older(m, a, b) == Older(n, a, b)
  {}

  /** All others are removed before any trusted rating. */
  lemma RankTrusted(m: Ratings, trusted: set<string>, k: Key)
    requires k in m && k.rater in trusted
    ensures Rank(m, trusted, m.Keys, k)
         == Rank(Trusted(m, trusted), trusted, Trusted(m, trusted).Keys, k) + |m| - |Trusted(m, trusted)|
  {
    hide Older;
    var t := Trusted(m, trusted);
    var others := m.Keys - t.Keys;
    assert |m.Keys| == |m| && |t.Keys| == |t|;
    assert m.Keys == t.Keys + others;
    forall j | j in t ensures Sooner(t, trusted, j, k) == Sooner(m, trusted, j, k) { OlderSame(t, m, j, k); }
    assert Ahead(m, trusted, m.Keys, k) == Ahead(t, trusted, t.Keys, k) + others;
  }

  lemma OverallTrusted(m: Ratings, trusted: set<string>, limit: nat)
    ensures Trusted(NewestOverall(m, trusted, limit), trusted) == NewestOverall(Trusted(m, trusted), trusted, limit)
  {
    hide Rank;
    forall k | k in m && k.rater in trusted
      ensures Rank(m, trusted, m.Keys, k)
           == Rank(Trusted(m, trusted), trusted, Trusted(m, trusted).Keys, k) + |m| - |Trusted(m, trusted)|
    {
      RankTrusted(m, trusted, k);
    }
  }

  /** The limits leave the same trusted ratings as if there were no others. */
  lemma CappedTrusted(m: Ratings, trusted: set<string>)
    ensures Trusted(Capped(m, trusted), trusted) == Capped(Trusted(m, trusted), trusted)
  {
    hide NewestOfEach, NewestOverall, Trusted;
    EachTrusted(m, trusted, MAX_PER_RATER);
    OverallTrusted(NewestOfEach(m, trusted, MAX_PER_RATER), trusted, MAX_ENTRIES);
  }
}
