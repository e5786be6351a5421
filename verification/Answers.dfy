/** Answers to any frame that passes the check, whether or not it tells the truth: what the other side's check
    makes of them. */
module Answers {
  import opened Wrappers
  import opened Codec
  import opened Items
  import opened Wire
  import opened Validation
  import opened Steps
  import opened Sizes

  // ---- Blocks of ranges that go forward

  lemma OrderedLower(a: nat, b: nat, m: seq<Range>)
    requires a <= b && OrderedFrom(b, m)
    ensures OrderedFrom(a, m) && (m != [] ==> End(a, m) == End(b, m))
  {
    hide Key;
    forall i | 0 <= i < |m| ensures From(a, m, i) <= Key(m[i].bound) {
      assert From(b, m, i) <= Key(m[i].bound);
    }
  }

  lemma CountableAppend(x: seq<Range>, y: seq<Range>)
    ensures Countable(x + y) <==> Countable(x) && Countable(y)
  {
    assert forall i :: 0 <= i < |x| ==> (x + y)[i] == x[i];
    assert forall i :: 0 <= i < |y| ==> (x + y)[|x| + i] == y[i];
  }

  /** The items on either side of a bucket's end. */
  lemma BucketBetween(c: Peer, lower: nat, upper: nat, bound: Bound, i: nat)
    requires ValidPeer(c) && lower + 2 * BUCKETS <= upper <= |c.items| && i < BUCKETS
    requires ItemKey(c.items[upper - 1]) < Key(bound)
    ensures var next, b := Edge(lower, upper - lower, i + 1), Key(Bucket(c, lower, upper, bound, i).bound);
            && lower < next <= upper && ItemKey(c.items[next - 1]) < b
            && (next < upper ==> b <= ItemKey(c.items[next]))
  {
    hide Key, ItemKey, Edge, MinimalBound;
    var next := Edge(lower, upper - lower, i + 1);
    EdgeInside(lower, upper - lower, i);
    EdgeInside(lower, upper - lower, i + 1);
    if next != upper {
      ItemKeyOrder(c.items[next - 1], c.items[next]);
      MinimalBoundSeparates(c.items[next - 1], c.items[next]);
    }
  }

  lemma SplitForward(c: Peer, a: nat, lower: nat, upper: nat, bound: Bound)
    requires ValidPeer(c) && lower <= upper <= |c.items| && a <= Key(bound)
    requires lower < |c.items| ==> a <= ItemKey(c.items[lower])
    requires lower < upper ==> ItemKey(c.items[upper - 1]) < Key(bound)
    ensures var split := Split(c, lower, upper, bound);
            OrderedFrom(a, split) && End(a, split) == Key(bound) && Countable(split) && split != []
  {
    hide Key, ItemKey, Edge, Bucket, Span;
    var split := Split(c, lower, upper, bound);
    if upper - lower < 2 * BUCKETS {
      OrderedOne(a, split[0]);
    } else {
      SplitShort(c, lower, upper, bound);
      forall i | 0 <= i < |split| ensures From(a, split, i) <= Key(split[i].bound) {
        BucketForward(c, a, lower, upper, bound, i);
      }
      LastBucketBound(c, lower, upper, bound);
    }
  }

  lemma LastBucketBound(c: Peer, lower: nat, upper: nat, bound: Bound)
    requires ValidPeer(c) && lower + 2 * BUCKETS <= upper <= |c.items|
    ensures Bucket(c, lower, upper, bound, BUCKETS - 1).bound == bound
  {
    EdgeInside(lower, upper - lower, BUCKETS);
  }

  lemma BucketForward(c: Peer, a: nat, lower: nat, upper: nat, bound: Bound, i: nat)
    requires ValidPeer(c) && lower + 2 * BUCKETS <= upper <= |c.items| && i < BUCKETS
    requires a <= ItemKey(c.items[lower]) && ItemKey(c.items[upper - 1]) < Key(bound)
    ensures var split := Split(c, lower, upper, bound); From(a, split, i) <= Key(split[i].bound)
  {
    hide Key, ItemKey, Edge, Bucket;
    var here := Edge(lower, upper - lower, i);
    var next := Edge(lower, upper - lower, i + 1);
    EdgeInside(lower, upper - lower, i);
    EdgeStep(lower, upper - lower, 0);
    BucketBetween(c, lower, upper, bound, i);
    if i > 0 { BucketBetween(c, lower, upper, bound, i - 1); }
    if here < next - 1 { assert ItemKey(c.items[here]) < ItemKey(c.items[next - 1]); }
  }

  // ---- One range

  /** Where an answer stands while the ranges it answers go forward. */
  ghost predicate Forward(c: Peer, p: Progress) {
    && ValidPeer(c) && p.cut.None? && p.index <= |c.items|
    && Ordered(p.out) && Countable(p.out) && End(0, p.out) <= Key(p.prev)
    && (p.index < |c.items| ==> Key(p.prev) <= ItemKey(c.items[p.index]))
  }

  /** A cut answer: ranges up to the cut, and the fingerprint of all behind it. */
  ghost predicate CutShort(q: Progress) {
    && q.cut.Some? && q.out != [] && Countable(q.out)
    && var n := |q.out| - 1;
       Ordered(q.out[..n]) && End(0, q.out[..n]) == Key(q.cut.value) && q.out[n].bound == MAX_BOUND
  }

  lemma UpperAfter(c: Peer, p: Progress, r: Range)
    requires Forward(c, p)
    ensures var upper := Upper(c, p, r);
            && p.index <= upper <= |c.items|
            && (upper > p.index ==> ItemKey(c.items[upper - 1]) < Key(r.bound))
            && (upper < |c.items| ==> Key(r.bound) <= ItemKey(c.items[upper]))
  {
    hide Key, ItemKey;
  }

  /** Appending a pending Skip and a block. */
  lemma Appended(c: Peer, p: Progress, block: seq<Range>)
    requires Forward(c, p) && block != [] && OrderedFrom(Key(p.prev), block) && Countable(block)
    ensures var out := p.out + Pending(p) + block;
            Ordered(out) && Countable(out) && End(0, out) == End(Key(p.prev), block)
  {
    hide Key, ItemKey, OrderedFrom, End, ValidPeer;
    var mid := p.out + Pending(p);
    assert Ordered(mid) && Countable(mid) && End(0, mid) <= Key(p.prev) by {
      if p.skip {
        var skip := Range(p.prev, Skip);
        OrderedAppend(0, p.out, [skip]);
        OrderedOne(End(0, p.out), skip);
        CountableAppend(p.out, [skip]);
      } else {
        assert mid == p.out;
      }
    }
    OrderedLower(End(0, mid), Key(p.prev), block);
    OrderedAppend(0, mid, block);
    CountableAppend(mid, block);
  }

  /** What a draft leaves to close. */
  ghost predicate DraftForward(c: Peer, p: Progress, r: Range, d: Draft) {
    && p.index <= d.upper <= |c.items|
    && Ordered(d.out) && Ordered(d.out + d.extra) && Countable(d.out + d.extra)
    && End(0, d.out + d.extra) <= Key(r.bound)
    && (d.extra != [] ==> d.out == p.out && !d.truncated)
    && (d.truncated ==> d.out != [] && d.extra == [])
    && (!d.truncated && d.upper < |c.items| ==> Key(r.bound) <= ItemKey(c.items[d.upper]))
  }

  lemma DrawnForward(c: Peer, p: Progress, r: Range)
    requires Forward(c, p) && Key(p.prev) <= Key(r.bound)
    ensures DraftForward(c, p, r, Draw(c, p, r))
  {
    hide Key, ItemKey, OrderedFrom, End, LowerBound, Split, Sift, Fitting, Frame, Countable, Pending, Hashed, Span;
    UpperAfter(c, p, r);
    var upper, d := Upper(c, p, r), Draw(c, p, r);
    assert p.out + [] == p.out;
    if r.payload.Fingerprint? && d.extra != [] {
      var split := Split(c, p.index, upper, r.bound);
      SplitForward(c, Key(p.prev), p.index, upper, r.bound);
      Appended(c, p, split);
      assert p.out + (Pending(p) + split) == p.out + Pending(p) + split;
    }
    if r.payload.IdList? && !c.initiator {
      var n := Fitting(c, |Frame(p.out)|, 0, upper - p.index);
      ListForward(c, p, r, p.index + n, upper);
      assert d.out + [] == d.out;
    }
  }

  lemma ListForward(c: Peer, p: Progress, r: Range, end: nat, upper: nat)
    requires Forward(c, p) && Key(p.prev) <= Key(r.bound) && p.index <= end <= upper <= |c.items|
    requires upper > p.index ==> ItemKey(c.items[upper - 1]) < Key(r.bound)
    ensures var list := Range(if end < upper then FromItem(c.items[end]) else r.bound, IdList(Span(c, p.index, end)));
            var out := p.out + Pending(p) + [list];
            Ordered(out) && Countable(out) && End(0, out) == Key(list.bound) <= Key(r.bound)
  {
    hide Key, ItemKey, OrderedFrom, End;
    var list := Range(if end < upper then FromItem(c.items[end]) else r.bound, IdList(Span(c, p.index, end)));
    if end < upper {
      FromItemKey(c.items[end]);
      if p.index < end { assert ItemKey(c.items[p.index]) < ItemKey(c.items[end]); }
      if end < upper - 1 { assert ItemKey(c.items[end]) < ItemKey(c.items[upper - 1]); }
    }
    OrderedOne(Key(p.prev), list);
    Appended(c, p, [list]);
  }

  lemma ClosedForward(c: Peer, p: Progress, r: Range, d: Draft)
    requires Forward(c, p) && Key(p.prev) <= Key(r.bound) && DraftForward(c, p, r, d)
    ensures var q := Close(c, p, r, d);
            if q.cut.None? then Forward(c, q) && q.prev == r.bound else CutShort(q) && Key(q.cut.value) <= Key(r.bound)
  {
    hide Key, ItemKey, OrderedFrom, Frame, Hashed, CutShort, Countable;
    if Close(c, p, r, d).cut.Some? { ClosedShort(c, p, r, d); }
  }

  lemma ClosedShort(c: Peer, p: Progress, r: Range, d: Draft)
    requires Forward(c, p) && Key(p.prev) <= Key(r.bound) && DraftForward(c, p, r, d) && Close(c, p, r, d).cut.Some?
    ensures CutShort(Close(c, p, r, d)) && Key(Close(c, p, r, d).cut.value) <= Key(r.bound)
  {
    hide Key, ItemKey, OrderedFrom, Frame, Hashed;
    var q := Close(c, p, r, d);
    var cut, n := q.cut.value, |q.out| - 1;
    var front := q.out[..n];
    var tail := q.out[n];
    assert q.out == front + [tail];
    CountableAppend(d.out, d.extra);
    if d.truncated {
      assert front == d.out;
      assert d.out + [] == d.out;
    } else {
      var skip := Range(cut, Skip);
      assert front == d.out + [skip];
      if d.extra == [] { assert d.out + [] == d.out; }
      OrderedAppend(0, d.out, [skip]);
      OrderedOne(End(0, d.out), skip);
      CountableAppend(d.out, [skip]);
    }
    CountableAppend(front, [tail]);
  }

  // ---- The whole answer

  lemma {:induction false} OrderedEnd(a: nat, m: seq<Range>)
    requires OrderedFrom(a, m)
    ensures a <= End(a, m)
    decreases |m|
  {
    hide Key, OrderedFrom;
    if m != [] {
      assert m == [m[0]] + m[1..];
      OrderedCons(a, m[0], m[1..]);
      OrderedEnd(Key(m[0].bound), m[1..]);
    }
  }

  /** An answer is never cut above the last bound of the frame it answers. */
  lemma {:induction false} ProcessForward(c: Peer, p: Progress, rest: seq<Range>)
    requires Forward(c, p) && OrderedFrom(Key(p.prev), rest)
    ensures var q := Process(c, p, rest);
            Forward(c, q) || (CutShort(q) && Key(q.cut.value) <= End(Key(p.prev), rest))
    decreases |rest|
  {
    hide Key, ItemKey, OrderedFrom, Draw, Close, DraftForward, CutShort;
    if rest != [] {
      var r, more, q := rest[0], rest[1..], Advance(c, p, rest[0]);
      assert rest == [r] + more;
      OrderedCons(Key(p.prev), r, more);
      OrderedEnd(Key(r.bound), more);
      DrawnForward(c, p, r);
      ClosedForward(c, p, r, Draw(c, p, r));
      if q.cut.None? {
        ProcessForward(c, q, more);
      } else {
        assert Process(c, q, more) == q;
      }
    }
  }

  /** A cut answer's timestamps go forward, and its bounds do exactly if the cut is not above the last bound. */
  lemma CutOrder(q: Progress)
    requires CutShort(q)
    ensures TimesOrdered(0, q.out)
    ensures Ordered(q.out) <==> Key(q.cut.value) <= Key(MAX_BOUND)
  {
    hide Key, OrderedFrom;
    var n := |q.out| - 1;
    var front, tail := q.out[..n], q.out[n];
    assert q.out == front + [tail];
    OrderedTimes(front);
    OrderedAppend(0, front, [tail]);
    OrderedOne(End(0, front), tail);
    forall i | 0 < i < |q.out| ensures q.out[i - 1].bound.timestamp <= q.out[i].bound.timestamp {
      if i < n { assert front[i - 1] == q.out[i - 1] && front[i] == q.out[i]; }
    }
  }

  lemma StartForward(c: Peer)
    requires ValidPeer(c)
    ensures Forward(c, Start()) && Key(Start().prev) == 0
  {
    hide ItemKey, Key;
    ZeroKey();
  }

  /** Whatever a valid frame claims, the answer to it is refused by the other side's check if and only if it was cut
      above the last bound: then its trailing fingerprint goes back. */
  lemma AnswerAccepted(c: Peer, frame: seq<byte>)
    requires ValidPeer(c) && AcceptsFrame(frame)
    ensures var q := Process(c, Start(), ReadRanges(0, frame[1..]).ranges);
            && Reply(c, frame) == Ok(Answer(Frame(q.out), q.have, q.need))
            && (AcceptsFrame(Frame(q.out)) <==> !(q.cut.Some? && Key(q.cut.value) > Key(MAX_BOUND)))
  {
    hide Key, ItemKey, Process, RangesBytes, ReadRanges, Accepts, OrderedFrom;
    AcceptedFrameReads(frame);
    var m := ReadRanges(0, frame[1..]).ranges;
    StartForward(c);
    ProcessForward(c, Start(), m);
    var q := Process(c, Start(), m);
    if q.cut.Some? { CutOrder(q); } else { OrderedTimes(q.out); }
    WrittenFrameAccepted(q.out);
  }

  /** So a frame whose last bound is not above the last bound of all gets an answer that is taken. */
  lemma OrdinaryFrameAnswered(c: Peer, frame: seq<byte>)
    requires ValidPeer(c) && AcceptsFrame(frame)
    requires End(0, ReadRanges(0, frame[1..]).ranges) <= Key(MAX_BOUND)
    ensures Reply(c, frame).Ok? && AcceptsFrame(Reply(c, frame).value.frame)
  {
    hide Key, ItemKey, Process, RangesBytes, ReadRanges, Accepts, OrderedFrom;
    AnswerAccepted(c, frame);
    AcceptedFrameReads(frame);
    StartForward(c);
    ProcessForward(c, Start(), ReadRanges(0, frame[1..]).ranges);
  }

  // ---- A frame whose answer is refused

  const ABOVE: Bound := Bound(MAX_U64, [1])

  lemma AboveLast()
    ensures Key(MAX_BOUND) < Key(ABOVE)
  {
    var p := Padded([1]);
    assert p[0] == 1 && Padded([])[0] == 0 && p[..0] == Padded([])[..0];
    KeyOrder(MAX_U64, Padded([]), MAX_U64, p);
  }

  /** Asked for its identifiers up to a bound above the last one, a responder whose 122 identifiers just overfill
      a frame of 4096 bytes lists them all and then goes back to the last bound. */
  lemma AnswerRefused(c: Peer)
    requires ValidPeer(c) && !c.initiator && c.limit == 4096 && |c.items| == 122
    ensures var frame := Frame([Range(ABOVE, IdList([]))]);
            && AcceptsFrame(frame)
            && Reply(c, frame).Ok? && !AcceptsFrame(Reply(c, frame).value.frame)
  {
    hide Key, ItemKey, RangesBytes, ReadRanges, Accepts, Process;
    var r := Range(ABOVE, IdList([]));
    var frame := Frame([r]);
    OrderedOne(0, r);
    WrittenFrameAccepted([r]);
    FrameRoundTrip([r]);
    AnswerAccepted(c, frame);
    AboveLast();
    CutAbove(c, r);
  }

  lemma ListLength(bound: Bound, ids: seq<Id>)
    ensures |Frame([Range(bound, IdList(ids))])| > 32 * |ids|
  {
    hide RangesBytes;
    RangesBytesOne(0, Range(bound, IdList(ids)));
    FlatLength(ids);
  }

  function Crowd(): seq<Item> {
    seq(122, k requires 0 <= k < 122 => Item(k, [k] + Zeros(31)))
  }

  lemma CrowdAnswerRefused(fp: seq<Id> -> Hash)
    ensures ValidPeer(Peer(Crowd(), fp, 4096, false))
    ensures var frame, c := Frame([Range(ABOVE, IdList([]))]), Peer(Crowd(), fp, 4096, false);
            AcceptsFrame(frame) && Reply(c, frame).Ok? && !AcceptsFrame(Reply(c, frame).value.frame)
  {
    hide Reply, Frame, AcceptsFrame;
    forall i, j | 0 <= i < j < 122 ensures Crowd()[i].id != Crowd()[j].id {
      assert Crowd()[i].id[0] == i && Crowd()[j].id[0] == j;
    }
    TimesSealed(Crowd());
    AnswerRefused(Peer(Crowd(), fp, 4096, false));
  }

  lemma CutAbove(c: Peer, r: Range)
    requires ValidPeer(c) && !c.initiator && c.limit == 4096 && |c.items| == 122 && r == Range(ABOVE, IdList([]))
    ensures Process(c, Start(), [r]).cut == Some(ABOVE)
  {
    hide Key, ItemKey, Frame, Span, LowerBound, Fitting;
    AboveLast();
    MaxKey(c.items[121]);
    StartForward(c);
    UpperAfter(c, Start(), r);
    var upper := Upper(c, Start(), r);
    assert upper == 122 by {
      assert forall k :: 0 <= k < 122 ==> ItemKey(c.items[k]) <= ItemKey(c.items[121]);
    }
    FrameEmpty();
    AllFit(c, 1, 0, 122);
    var list := Range(ABOVE, IdList(Span(c, 0, 122)));
    var d := Draw(c, Start(), r);
    assert d.out == [list] && d.out + d.extra == d.out;
    ListLength(ABOVE, Span(c, 0, 122));
    var q := Advance(c, Start(), r);
    assert q.cut == Some(ABOVE);
    assert Process(c, Start(), [r]) == Process(c, q, []);
  }
}
