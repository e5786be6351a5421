/** What the ranges of a frame mean: each says something true of its sender's storage between two wire
    bounds, and the ranges other than Skips are the part of the key space still under discussion. */
module Truth {
  import opened Codec
  import opened Items
  import opened Wire
  import opened Steps

  // ---- Truthful ranges

  /** The payload tells what `s` holds from key `a` to key `b`. */
  ghost predicate PayloadTrue(fp: seq<Id> -> Hash, s: seq<Item>, a: nat, b: nat, payload: Payload) {
    match payload
    case Skip => true
    case Fingerprint(hash) => hash == fp(Ids(Between(s, a, b)))
    case IdList(ids) => ids == Ids(Between(s, a, b))
  }

  ghost predicate RangeTrue(fp: seq<Id> -> Hash, s: seq<Item>, a: nat, r: Range) {
    a <= Key(r.bound) <= Key(MAX_BOUND) && PayloadTrue(fp, s, a, Key(r.bound), r.payload)
  }

  ghost predicate TruthfulFrom(fp: seq<Id> -> Hash, s: seq<Item>, a: nat, ranges: seq<Range>) {
    forall i {:trigger From(a, ranges, i)} :: 0 <= i < |ranges| ==> RangeTrue(fp, s, From(a, ranges, i), ranges[i])
  }

  /** Every range of the frame describes exactly its sender's items between the wire bounds around it. */
  ghost predicate Truthful(fp: seq<Id> -> Hash, s: seq<Item>, ranges: seq<Range>) {
    TruthfulFrom(fp, s, 0, ranges)
  }

  lemma TruthfulAppend(fp: seq<Id> -> Hash, s: seq<Item>, a: nat, x: seq<Range>, y: seq<Range>)
    ensures TruthfulFrom(fp, s, a, x + y) <==> TruthfulFrom(fp, s, a, x) && TruthfulFrom(fp, s, End(a, x), y)
    ensures End(a, x + y) == End(End(a, x), y)
  {
    hide Key, RangeTrue;
    var all := x + y;
    assert forall i :: 0 <= i < |x| ==> From(a, all, i) == From(a, x, i) && all[i] == x[i];
    assert forall i :: 0 <= i < |y| ==> From(a, all, |x| + i) == From(End(a, x), y, i) && all[|x| + i] == y[i];
    if TruthfulFrom(fp, s, a, all) {
      forall i | 0 <= i < |y| ensures RangeTrue(fp, s, From(End(a, x), y, i), y[i]) {
        assert RangeTrue(fp, s, From(a, all, |x| + i), all[|x| + i]);
      }
      forall i | 0 <= i < |x| ensures RangeTrue(fp, s, From(a, x, i), x[i]) {
        assert RangeTrue(fp, s, From(a, all, i), all[i]);
      }
    }
    if TruthfulFrom(fp, s, a, x) && TruthfulFrom(fp, s, End(a, x), y) {
      forall i | 0 <= i < |all| ensures RangeTrue(fp, s, From(a, all, i), all[i]) {
        if i >= |x| { assert RangeTrue(fp, s, From(End(a, x), y, i - |x|), y[i - |x|]); }
      }
    }
  }

  lemma TruthfulOne(fp: seq<Id> -> Hash, s: seq<Item>, a: nat, r: Range)
    ensures TruthfulFrom(fp, s, a, [r]) <==> RangeTrue(fp, s, a, r)
  {
    hide Key, RangeTrue;
    assert From(a, [r], 0) == a && [r][0] == r;
  }

  lemma {:induction false} TruthfulAscends(fp: seq<Id> -> Hash, s: seq<Item>, a: nat, ranges: seq<Range>, i: nat, j: nat)
    requires TruthfulFrom(fp, s, a, ranges) && i <= j <= |ranges|
    ensures From(a, ranges, i) <= From(a, ranges, j)
    ensures a <= Key(MAX_BOUND) ==> From(a, ranges, j) <= Key(MAX_BOUND)
    decreases j
  {
    hide Key, PayloadTrue;
    if i < j {
      TruthfulAscends(fp, s, a, ranges, i, j - 1);
      assert RangeTrue(fp, s, From(a, ranges, j - 1), ranges[j - 1]);
    } else if j > 0 {
      assert RangeTrue(fp, s, From(a, ranges, j - 1), ranges[j - 1]);
    }
  }

  lemma TruthfulOrdered(fp: seq<Id> -> Hash, s: seq<Item>, ranges: seq<Range>)
    requires Truthful(fp, s, ranges)
    ensures Ordered(ranges)
  {
    hide Key, PayloadTrue;
    forall i | 0 <= i < |ranges| ensures From(0, ranges, i) <= Key(ranges[i].bound) {
      assert RangeTrue(fp, s, From(0, ranges, i), ranges[i]);
    }
  }

  // ---- Open ranges

  ghost predicate OpenAt(a: nat, ranges: seq<Range>, i: nat, k: nat)
    requires i < |ranges|
  {
    From(a, ranges, i) <= k < Key(ranges[i].bound) && !ranges[i].payload.Skip?
  }

  /** Key k lies in a range that is not a Skip. */
  ghost predicate OpenFrom(a: nat, ranges: seq<Range>, k: nat) {
    exists i :: 0 <= i < |ranges| && OpenAt(a, ranges, i, k)
  }

  ghost predicate Open(ranges: seq<Range>, x: Item) { OpenFrom(0, ranges, ItemKey(x)) }

  lemma OpenAtAppend(a: nat, x: seq<Range>, y: seq<Range>, i: nat, k: nat)
    requires i < |x + y|
    ensures OpenAt(a, x + y, i, k) <==> if i < |x| then OpenAt(a, x, i, k) else OpenAt(End(a, x), y, i - |x|, k)
  {
    hide Key;
  }

  lemma OpenAppend(a: nat, x: seq<Range>, y: seq<Range>, k: nat)
    ensures OpenFrom(a, x + y, k) <==> OpenFrom(a, x, k) || OpenFrom(End(a, x), y, k)
  {
    hide Key, OpenAt, End, From;
    if OpenFrom(a, x + y, k) {
      var i :| 0 <= i < |x + y| && OpenAt(a, x + y, i, k);
      OpenAtAppend(a, x, y, i, k);
    }
    if OpenFrom(a, x, k) {
      var i :| 0 <= i < |x| && OpenAt(a, x, i, k);
      OpenAtAppend(a, x, y, i, k);
    }
    if OpenFrom(End(a, x), y, k) {
      var i :| 0 <= i < |y| && OpenAt(End(a, x), y, i, k);
      OpenAtAppend(a, x, y, |x| + i, k);
    }
  }

  lemma OpenOne(a: nat, r: Range, k: nat)
    ensures OpenFrom(a, [r], k) <==> a <= k < Key(r.bound) && !r.payload.Skip?
  {
    hide Key;
    if a <= k < Key(r.bound) && !r.payload.Skip? {
      assert OpenAt(a, [r], 0, k);
    }
  }

  /** Nothing outside the ranges is open. */
  lemma OpenInside(fp: seq<Id> -> Hash, s: seq<Item>, a: nat, ranges: seq<Range>, k: nat)
    requires TruthfulFrom(fp, s, a, ranges) && OpenFrom(a, ranges, k)
    ensures a <= k < End(a, ranges)
  {
    hide Key, TruthfulFrom;
    var i :| 0 <= i < |ranges| && OpenAt(a, ranges, i, k);
    TruthfulAscends(fp, s, a, ranges, 0, i);
    TruthfulAscends(fp, s, a, ranges, i + 1, |ranges|);
  }

  /** Ranges none of which is a Skip leave all that they span open. */
  lemma {:induction false} OpenThroughout(a: nat, ranges: seq<Range>, k: nat)
    requires forall i :: 0 <= i < |ranges| ==> !ranges[i].payload.Skip?
    requires a <= k < End(a, ranges)
    ensures OpenFrom(a, ranges, k)
    decreases |ranges|
  {
    hide Key;
    if ranges != [] {
      var n := |ranges| - 1;
      if From(a, ranges, n) <= k {
        assert OpenAt(a, ranges, n, k);
      } else {
        assert End(a, ranges[..n]) == From(a, ranges, n);
        OpenThroughout(a, ranges[..n], k);
        assert ranges == ranges[..n] + [ranges[n]];
        OpenAppend(a, ranges[..n], [ranges[n]], k);
      }
    }
  }

  // ---- A split describes the range it replaces

  lemma SpanIsBetween(c: Peer, a: nat, b: nat)
    requires Sealed(c.items) && a <= b
    ensures Below(c.items, a) <= Below(c.items, b)
    ensures Span(c, Below(c.items, a), Below(c.items, b)) == Ids(Between(c.items, a, b))
  {
    BelowMonotone(c.items, a, b);
  }

  lemma BucketBound(c: Peer, lower: nat, upper: nat, bound: Bound, i: nat)
    requires ValidPeer(c) && lower + 2 * BUCKETS <= upper <= |c.items| && i < BUCKETS
    requires Below(c.items, Key(bound)) == upper && Key(bound) <= Key(MAX_BOUND)
    ensures Below(c.items, Key(Bucket(c, lower, upper, bound, i).bound)) == Edge(lower, upper - lower, i + 1)
    ensures Key(Bucket(c, lower, upper, bound, i).bound) <= Key(MAX_BOUND)
    ensures Edge(lower, upper - lower, i + 1) < upper ==>
              Key(Bucket(c, lower, upper, bound, i).bound) <= ItemKey(c.items[Edge(lower, upper - lower, i + 1)])
  {
    hide Key, ItemKey, Edge, MinimalBound, Below;
    var next := Edge(lower, upper - lower, i + 1);
    EdgeInside(lower, upper - lower, i);
    EdgeInside(lower, upper - lower, i + 1);
    if next != upper {
      var prev, curr := c.items[next - 1], c.items[next];
      ItemKeyOrder(prev, curr);
      MinimalBoundSeparates(prev, curr);
      BelowIs(c.items, Key(MinimalBound(prev, curr)), next);
      MaxKey(curr);
    }
  }

  lemma SplitTruthful(c: Peer, a: nat, bound: Bound)
    requires ValidPeer(c) && a <= Key(bound) <= Key(MAX_BOUND)
    ensures Below(c.items, a) <= Below(c.items, Key(bound)) <= |c.items|
    ensures var split := Split(c, Below(c.items, a), Below(c.items, Key(bound)), bound);
            && split != []
            && TruthfulFrom(c.fingerprint, c.items, a, split)
            && End(a, split) == Key(bound)
            && forall i :: 0 <= i < |split| ==> !split[i].payload.Skip?
  {
    hide Key, ItemKey, Edge, Below, Between, Bucket;
    SpanIsBetween(c, a, Key(bound));
    var lower, upper := Below(c.items, a), Below(c.items, Key(bound));
    var split := Split(c, lower, upper, bound);
    if upper - lower < 2 * BUCKETS {
      TruthfulOne(c.fingerprint, c.items, a, split[0]);
    } else {
      forall i | 0 <= i < |split|
        ensures RangeTrue(c.fingerprint, c.items, From(a, split, i), split[i]) && !split[i].payload.Skip?
      {
        BucketTrue(c, a, bound, i);
      }
      LastBucket(c, lower, upper, bound);
    }
  }

  lemma LastBucket(c: Peer, lower: nat, upper: nat, bound: Bound)
    requires ValidPeer(c) && lower + 2 * BUCKETS <= upper <= |c.items|
    ensures Bucket(c, lower, upper, bound, BUCKETS - 1).bound == bound
  {
    EdgeInside(lower, upper - lower, BUCKETS);
  }

  lemma BucketTrue(c: Peer, a: nat, bound: Bound, i: nat)
    requires ValidPeer(c) && a <= Key(bound) <= Key(MAX_BOUND) && i < BUCKETS
    requires Below(c.items, a) + 2 * BUCKETS <= Below(c.items, Key(bound))
    ensures var lower, upper := Below(c.items, a), Below(c.items, Key(bound));
            var split := Split(c, lower, upper, bound);
            && RangeTrue(c.fingerprint, c.items, From(a, split, i), split[i])
            && split[i].payload.Fingerprint?
            && Below(c.items, From(a, split, i)) == Edge(lower, upper - lower, i)
  {
    hide Key, ItemKey, Edge, MinimalBound, Below;
    var lower, upper := Below(c.items, a), Below(c.items, Key(bound));
    var n := upper - lower;
    var split := Split(c, lower, upper, bound);
    var here, next := Edge(lower, n, i), Edge(lower, n, i + 1);
    EdgeInside(lower, n, i);
    EdgeStep(lower, n, 0);
    BucketBound(c, lower, upper, bound, i);
    if i > 0 { BucketBound(c, lower, upper, bound, i - 1); }
    var start, end := From(a, split, i), Key(split[i].bound);
    assert Below(c.items, start) == here && Below(c.items, end) == next;
    if end < start { BelowMonotone(c.items, end, start); }
    assert Between(c.items, start, end) == c.items[here..next];
  }
}
