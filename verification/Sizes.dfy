/** How long frames get: the 200 bytes held back below the limit cover everything a frame may still have
    to hold once it is found too long. */
module Sizes {
  import opened Codec
  import opened Items
  import opened Wire
  import opened Steps

  lemma BoundLength(last: u64, bound: Bound)
    ensures |BoundBytes(last, bound)| <= 43
    ensures bound == MAX_BOUND ==> |BoundBytes(last, bound)| == 2
  {
    hide VarInt;
    VarIntLength(TimestampCode(last, bound.timestamp));
    VarIntLength(|bound.prefix|);
  }

  function MaxLength(payload: Payload): nat {
    match payload
    case Skip => 44
    case Fingerprint(_) => 60
    case IdList(ids) => 54 + 32 * |ids|
  }

  lemma RangeLength(last: u64, r: Range)
    requires r.payload.IdList? ==> |r.payload.ids| <= MAX_U64
    ensures |RangeBytes(last, r)| <= MaxLength(r.payload)
    ensures r.bound == MAX_BOUND && r.payload.Fingerprint? ==> |RangeBytes(last, r)| == 19
  {
    hide BoundBytes, VarInt, Flatten;
    BoundLength(last, r.bound);
    VarIntLength(Mode(r.payload));
    if r.payload.IdList? {
      VarIntLength(|r.payload.ids|);
      FlatLength(r.payload.ids);
    }
  }

  lemma FrameSnoc(out: seq<Range>, r: Range)
    requires r.payload.IdList? ==> |r.payload.ids| <= MAX_U64
    ensures |Frame(out)| <= |Frame(out + [r])| <= |Frame(out)| + MaxLength(r.payload)
    ensures r.bound == MAX_BOUND && r.payload.Fingerprint? ==> |Frame(out + [r])| == |Frame(out)| + 19
  {
    hide Frame, RangesBytes, RangeBytes, MaxLength;
    FrameConcat(out, [r]);
    RangesBytesOne(LastTimestamp(0, out), r);
    RangeLength(LastTimestamp(0, out), r);
  }

  lemma PendingLength(p: Progress)
    ensures |Frame(p.out)| <= |Frame(p.out + Pending(p))| <= |Frame(p.out)| + 44
  {
    hide Frame;
    if p.skip { FrameSnoc(p.out, Range(p.prev, Skip)); } else { assert p.out + [] == p.out; }
  }

  lemma {:induction false} FittingLength(c: Peer, used: nat, n: nat, count: nat)
    requires n <= count && c.limit >= 4096 && (n == 0 ==> !Exceeded(c, used)) && (n > 0 ==> !Exceeded(c, used + 32 * (n - 1)))
    ensures var m := Fitting(c, used, n, count); used + 32 * m + 168 <= c.limit
    decreases count - n
  {
    if !(n == count || Exceeded(c, used + 32 * n)) {
      FittingLength(c, used, n + 1, count);
    }
  }

  lemma {:induction false} AllFit(c: Peer, used: nat, n: nat, count: nat)
    requires n <= count && count > 0 && !Exceeded(c, used + 32 * count - 32)
    ensures Fitting(c, used, n, count) == count
    decreases count - n
  {
    if n < count { AllFit(c, used, n + 1, count); }
  }

  lemma ListFits(c: Peer, p: Progress, bound: Bound, upper: nat)
    requires ValidPeer(c) && c.limit > 0 && p.index <= upper <= |c.items| && !Exceeded(c, |Frame(p.out)|)
    ensures |Frame(DrawIdList(c, p, bound, upper).out)| + 70 <= c.limit
  {
    hide Frame, Fitting, Pending;
    var n := Fitting(c, |Frame(p.out)|, 0, upper - p.index);
    var end := p.index + n;
    FittingLength(c, |Frame(p.out)|, 0, upper - p.index);
    PendingLength(p);
    var list := IdList(Span(c, p.index, end));
    FrameSnoc(p.out + Pending(p), Range(if end < upper then FromItem(c.items[end]) else bound, list));
  }

  lemma AdvanceFits(c: Peer, p: Progress, r: Range)
    requires ValidPeer(c) && c.limit > 0 && p.index <= |c.items| && p.cut.None? && !Exceeded(c, |Frame(p.out)|)
    ensures var q := Advance(c, p, r);
            |Frame(q.out)| <= c.limit && (q.cut.None? ==> !Exceeded(c, |Frame(q.out)|))
  {
    hide Frame, LowerBound, Split, Fitting, Sift, Pending;
    var d := Draw(c, p, r);
    if r.payload.IdList? && !c.initiator { ListFits(c, p, r.bound, Upper(c, p, r)); }
    assert d.extra == [] ==> d.out + d.extra == d.out;
    if Full(c, d) {
      var cut := CutBound(p, r, d);
      var from := if d.extra == [] then d.upper else p.index;
      if d.truncated {
        assert d.out + [] == d.out;
        FrameSnoc(d.out, Tail(c, from));
      } else {
        FrameSnoc(d.out, Range(cut, Skip));
        FrameSnoc(d.out + [Range(cut, Skip)], Tail(c, from));
      }
    }
  }

  /** No answer is longer than the limit, whatever frame it answers. */
  lemma {:induction false} AnswerFits(c: Peer, p: Progress, ranges: seq<Range>)
    requires ValidPeer(c) && c.limit > 0 && p.index <= |c.items|
    requires |Frame(p.out)| <= c.limit && (p.cut.None? ==> !Exceeded(c, |Frame(p.out)|))
    ensures |Frame(Process(c, p, ranges).out)| <= c.limit
    decreases |ranges|
  {
    hide Frame, Advance, Exceeded;
    if ranges != [] && p.cut.None? {
      AdvanceFits(c, p, ranges[0]);
      AnswerFits(c, Advance(c, p, ranges[0]), ranges[1..]);
    }
  }

  lemma {:induction false} BlockLength(out: seq<Range>, block: seq<Range>, most: nat)
    requires forall i :: 0 <= i < |block| ==>
               (block[i].payload.IdList? ==> |block[i].payload.ids| <= MAX_U64) && MaxLength(block[i].payload) <= most
    ensures |Frame(out + block)| <= |Frame(out)| + |block| * most
    decreases |block|
  {
    hide Frame, MaxLength;
    if block == [] {
      assert out + block == out;
    } else {
      var n := |block| - 1;
      BlockLength(out, block[..n], most);
      FrameSnoc(out + block[..n], block[n]);
      assert out + block == out + block[..n] + [block[n]];
      assert |block| * most == n * most + most;
    }
  }

  /** The answer to the first range that is not settled always fits: at most a Skip and one split. */
  lemma FirstSplitFits(c: Peer, p: Progress, lower: nat, upper: nat, bound: Bound)
    requires ValidPeer(c) && lower <= upper <= |c.items| && p.out == []
    ensures !Exceeded(c, |Frame(p.out + (Pending(p) + Split(c, lower, upper, bound)))|)
  {
    hide Frame, Bucket, Pending;
    var split := Split(c, lower, upper, bound);
    PendingLength(p);
    FrameEmpty();
    var most := if upper - lower < 2 * BUCKETS then 54 + 32 * 31 else 60;
    SplitShort(c, lower, upper, bound);
    BlockLength(p.out + Pending(p), split, most);
    assert p.out + (Pending(p) + split) == p.out + Pending(p) + split;
  }

  lemma FrameEmpty()
    ensures |Frame([])| == 1
  {
    RangesBytesNone(0);
  }

  lemma SplitShort(c: Peer, lower: nat, upper: nat, bound: Bound)
    requires ValidPeer(c) && lower <= upper <= |c.items|
    ensures var split := Split(c, lower, upper, bound);
            if upper - lower < 2 * BUCKETS
            then |split| == 1 && split[0].payload.IdList? && |split[0].payload.ids| <= 31
            else |split| == BUCKETS && forall i :: 0 <= i < |split| ==> split[i].payload.Fingerprint?
  {}

  lemma OpeningFits(c: Peer)
    requires ValidPeer(c) && c.limit > 0
    ensures |Frame(Opening(c))| <= c.limit
  {
    hide Frame, Split;
    FirstSplitFits(c, Start(), 0, |c.items|, MAX_BOUND);
    assert [] + ([] + Opening(c)) == Opening(c);
  }
}
