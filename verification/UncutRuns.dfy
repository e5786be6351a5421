/** Conversations whose frames are never cut, because there is no limit or because it is ample for the records the
    two peers hold: every difference is reported once, and the rounds are few. */
module UncutRuns {
  import opened Codec
  import opened Items
  import opened Wire
  import opened Steps
  import opened Truth
  import opened Ledger
  import opened Sizes
  import opened Conversation
  import opened Termination
  import opened Rounds

  /** A limit no frame can reach when the peers hold n records together. */
  function Ample(n: nat): nat { 130 * n + 299 }

  predicate Spacious(limit: nat, n: nat) { limit == 0 || limit >= Ample(n) }

  // ---- What one range adds to a frame

  /** What is written about the records below the end of `done`, and about one range that may hold none. */
  ghost predicate Within(c: Peer, t: seq<Item>, done: seq<Range>, p: Progress, slack: nat) {
    |Frame(p.out)| + 130 * Rest(c.items, t, End(0, done)) <= 1 + 130 * (|c.items| + |t|) + slack
  }

  lemma SplitLength(c: Peer, out: seq<Range>, lower: nat, upper: nat, bound: Bound)
    requires ValidPeer(c) && lower <= upper <= |c.items|
    ensures |Frame(out + Split(c, lower, upper, bound))| <= |Frame(out)| + 54 + 32 * (upper - lower)
  {
    hide Frame, Bucket;
    SplitShort(c, lower, upper, bound);
    BlockLength(out, Split(c, lower, upper, bound), if upper - lower < 2 * BUCKETS then 54 + 32 * (upper - lower) else 60);
  }

  /** A range costs at most 98 bytes and 32 for each of our records in it. */
  lemma DrawnLength(c: Peer, done: seq<Range>, p: Progress, r: Range)
    requires Placed(c, done, p) && p.index <= Upper(c, p, r) <= |c.items|
    requires Spacious(c.limit, 0) && (c.limit == 0 || |Frame(p.out)| + 98 + 32 * (Upper(c, p, r) - p.index) + 200 <= c.limit)
    ensures var d := Draw(c, p, r);
            && |Frame(d.out + d.extra)| <= |Frame(p.out)| + 98 + 32 * (Upper(c, p, r) - p.index)
            && !d.truncated
            && (d.out + d.extra == p.out || (r.payload.Fingerprint? && r.payload.hash != Hashed(c, p.index, Upper(c, p, r)))
                || (r.payload.IdList? && !c.initiator))
  {
    hide Key, Frame, Below, Truthful, End, LowerBound, Split, Sift, Pending, Fitting;
    var upper, d := Upper(c, p, r), Draw(c, p, r);
    PendingLength(p);
    assert p.out + [] == p.out;
    if r.payload.Fingerprint? {
      var split := Split(c, p.index, upper, r.bound);
      SplitLength(c, p.out + Pending(p), p.index, upper, r.bound);
      assert p.out + (Pending(p) + split) == p.out + Pending(p) + split;
    }
    if r.payload.IdList? && !c.initiator {
      if upper > p.index { AllFit(c, |Frame(p.out)|, 0, upper - p.index); }
      FrameSnoc(p.out + Pending(p), Range(r.bound, IdList(Span(c, p.index, upper))));
      assert d.out + [] == d.out;
    }
  }

  /** A range that is answered holds a record of some peer. */
  ghost predicate Held(c: Peer, t: seq<Item>, a: nat, r: Range) {
    r.payload.IdList? && !c.initiator ==> Weight(c.items, t, a, Key(r.bound)) > 0
  }

  lemma RangeWeighs(c: Peer, t: seq<Item>, done: seq<Range>, p: Progress, r: Range)
    requires Pair(c, t) && Placed(c, done, p) && RangeTrue(c.fingerprint, t, End(0, done), r)
    ensures var a, b, upper := End(0, done), Key(r.bound), Upper(c, p, r);
            && p.index <= upper <= |c.items|
            && Rest(c.items, t, b) + Weight(c.items, t, a, b) == Rest(c.items, t, a) <= |c.items| + |t|
            && upper - p.index <= Weight(c.items, t, a, b)
            && (r.payload.Fingerprint? && r.payload.hash != Hashed(c, p.index, upper) ==> Weight(c.items, t, a, b) > 0)
  {
    hide Key, ItemKey, Frame, Below, Truthful, Between, Upper, Sealed;
    var a, b := End(0, done), Key(r.bound);
    UpperIs(c, done, p, r);
    RestMonotone(c.items, t, a, b);
    if r.payload.Fingerprint? && r.payload.hash != Hashed(c, p.index, Upper(c, p, r)) {
      SpanIsBetween(c, a, b);
      DifferentNotEmpty(c.items, t, a, b);
    }
  }

  lemma StepWithin(c: Peer, t: seq<Item>, done: seq<Range>, p: Progress, r: Range)
    requires Pair(c, t) && Placed(c, done, p) && RangeTrue(c.fingerprint, t, End(0, done), r)
    requires Spacious(c.limit, |c.items| + |t|) && Within(c, t, done, p, 0)
    ensures var q := Advance(c, p, r);
            q.cut.None? && Within(c, t, done + [r], q, if Held(c, t, End(0, done), r) then 0 else 98)
  {
    hide Key, ItemKey, Frame, Below, Truthful, Draw, Upper, Rest, Weight;
    RangeWeighs(c, t, done, p, r);
    DrawnLength(c, done, p, r);
    EndSnoc(done, r);
    var d := Draw(c, p, r);
    assert !Exceeded(c, |Frame(d.out + d.extra)|);
  }

  // ---- Whole turns

  /** Every range of the frame but the last holds a record, if the receiver is to list identifiers. */
  ghost predicate AllHeld(c: Peer, t: seq<Item>, a: nat, rest: seq<Range>) {
    forall i :: 0 <= i < |rest| - 1 ==> Held(c, t, From(a, rest, i), rest[i])
  }

  lemma {:induction false} ProcessUncut(c: Peer, t: seq<Item>, done: seq<Range>, p: Progress, rest: seq<Range>)
    requires Pair(c, t) && Truthful(c.fingerprint, t, done + rest) && Kept(c, t, done, p)
    requires p.index <= |c.items| && p.cut.None?
    requires Spacious(c.limit, |c.items| + |t|) && (rest != [] ==> Within(c, t, done, p, 0))
    requires AllHeld(c, t, End(0, done), rest)
    ensures Process(c, p, rest).cut.None?
    decreases |rest|
  {
    hide Key, TruthfulFrom, OpenFrom, Consistent, Discerning, Advance, Below, Frame, Balanced, Sound, Held, Within, Spacious;
    if rest != [] {
      var r, more, q := rest[0], rest[1..], Advance(c, p, rest[0]);
      Next(c, t, done, p, rest);
      StepWithin(c, t, done, p, r);
      assert From(End(0, done), rest, 0) == End(0, done);
      EndSnoc(done, r);
      forall i | 0 <= i < |more| - 1 ensures Held(c, t, From(End(0, done + [r]), more, i), more[i]) {
        assert From(End(0, done + [r]), more, i) == From(End(0, done), rest, i + 1) && more[i] == rest[i + 1];
        assert Held(c, t, From(End(0, done), rest, i + 1), rest[i + 1]);
      }
      if more != [] { assert Held(c, t, From(End(0, done), rest, 0), rest[0]); }
      ProcessUncut(c, t, done + [r], q, more);
    }
  }

  /** No turn of either peer is cut. */
  ghost predicate NeverCut(l: Peer, r: Peer, frames: seq<seq<Range>>)
    requires Peers(l, r)
  {
    forall i :: 0 <= i < |frames| - 1 ==> Turn(l, r, frames, i).cut.None?
  }

  lemma TurnUncut(c: Peer, t: seq<Item>, m: seq<Range>)
    requires Pair(c, t) && Truthful(c.fingerprint, t, m) && Spacious(c.limit, |c.items| + |t|)
    requires c.initiator || m == [] || Busy(c.items, t, m, |m| - 1)
    ensures Process(c, Start(), m).cut.None?
  {
    hide Key, TruthfulFrom, Consistent, Sealed, Rest, Weight;
    StartKept(c, t);
    assert [] + m == m;
    FrameEmpty();
    StartWithin(c, t);
    forall i | 0 <= i < |m| - 1 ensures Held(c, t, From(0, m, i), m[i]) {
      if !c.initiator { assert BusyAt(c.items, t, m, i); }
    }
    ProcessUncut(c, t, [], Start(), m);
  }

  lemma StartWithin(c: Peer, t: seq<Item>)
    requires Pair(c, t)
    ensures Within(c, t, [], Start(), 0)
  {
    hide Below, Sealed, Frame;
    FrameEmpty();
    RestMonotone(c.items, t, 0, 0);
  }

  lemma BusySwap(s: seq<Item>, t: seq<Item>, m: seq<Range>, n: nat)
    requires n <= |m| && Busy(s, t, m, n)
    ensures Busy(t, s, m, n)
  {
    hide Weight, Key;
    forall i | 0 <= i < n ensures BusyAt(t, s, m, i) {
      assert BusyAt(s, t, m, i);
      WeightSwap(s, t, From(0, m, i), Key(m[i].bound));
    }
  }

  /** Without a limit, or with an ample one, no frame of a conversation is cut. */
  lemma AmpleNeverCut(l: Peer, r: Peer, frames: seq<seq<Range>>)
    requires IsRun(l, r, frames)
    requires Spacious(l.limit, |l.items| + |r.items|) && Spacious(r.limit, |l.items| + |r.items|)
    ensures NeverCut(l, r, frames)
  {
    hide Key, TruthfulFrom, Busy, Consistent, Process, Sealed, Rank, Opening, Discerning, Spacious;
    ConsistentSwap(l.items, r.items);
    forall i | 0 <= i < |frames| - 1 ensures Turn(l, r, frames, i).cut.None? {
      RunStands(l, r, frames, i);
      if i % 2 == 0 {
        RunRanks(l, r, frames, i / 2);
        BusySwap(l.items, r.items, frames[i], |frames[i]| - 1);
        TurnUncut(r, l.items, frames[i]);
      } else {
        TurnUncut(l, r.items, frames[i]);
      }
    }
  }

  /** Then every difference is reported exactly once, if equal fingerprints can be relied on. */
  lemma UncutReportsOnce(l: Peer, r: Peer, frames: seq<seq<Range>>, x: Item)
    requires Complete(l, r, frames) && Discerning(l.fingerprint, l.items, r.items) && Differs(l.items, r.items, x)
    requires Spacious(l.limit, |l.items| + |r.items|) && Spacious(r.limit, |l.items| + |r.items|)
    ensures Reports(l, r, frames, |frames| - 1, x) == 1
  {
    hide Discerning, Consistent, Have, Need, Turn, Opening, Spacious;
    AmpleNeverCut(l, r, frames);
    ReportedOnce(l, r, frames, x);
  }

  // ---- Few rounds

  /** A fingerprint's range can be split fewer than d times, going by the records of s. */
  ghost predicate ShallowAt(s: seq<Item>, a: nat, r: Range, d: nat) {
    r.payload.Fingerprint? ==> Splits(Count(s, a, Key(r.bound))) < d
  }

  ghost predicate Shallow(s: seq<Item>, a: nat, m: seq<Range>, d: nat) {
    forall i {:trigger From(a, m, i)} :: 0 <= i < |m| ==> ShallowAt(s, From(a, m, i), m[i], d)
  }

  lemma ShallowAppend(s: seq<Item>, a: nat, x: seq<Range>, y: seq<Range>, d: nat)
    ensures Shallow(s, a, x + y, d) <==> Shallow(s, a, x, d) && Shallow(s, End(a, x), y, d)
  {
    hide Key, From, ShallowAt;
    FromStart(End(a, x), y);
    forall i | 0 <= i < |x + y|
      ensures From(a, x + y, i) == if i < |x| then From(a, x, i) else From(End(a, x), y, i - |x|)
    {
      FromAppend(a, x, y, i);
    }
    if Shallow(s, a, x + y, d) {
      forall i | 0 <= i < |y| ensures ShallowAt(s, From(End(a, x), y, i), y[i], d) {
        assert ShallowAt(s, From(a, x + y, |x| + i), (x + y)[|x| + i], d);
      }
    }
  }

  lemma ShallowOne(s: seq<Item>, a: nat, r: Range, d: nat)
    ensures Shallow(s, a, [r], d) <==> ShallowAt(s, a, r, d)
  {
    hide Key, ShallowAt;
    assert From(a, [r], 0) == a && [r][0] == r;
  }

  /** The parts of a split can be split no more often than the range they replace, and once less going by the
      records of the peer that splits it. */
  lemma SplitShallow(c: Peer, s: seq<Item>, a: nat, r: Range, d: nat, e: nat)
    requires ValidPeer(c) && Sealed(s) && a <= Key(r.bound) <= Key(MAX_BOUND) && r.payload.Fingerprint?
    requires ShallowAt(s, a, r, d) && (e == d || (s == c.items && e + 1 == d))
    ensures Below(c.items, a) <= Below(c.items, Key(r.bound)) <= |c.items|
    ensures Shallow(s, a, Split(c, Below(c.items, a), Below(c.items, Key(r.bound)), r.bound), e)
  {
    hide Key, Below, Sealed, Split, Splits;
    SplitTruthful(c, a, r.bound);
    var split := Split(c, Below(c.items, a), Below(c.items, Key(r.bound)), r.bound);
    forall i | 0 <= i < |split| ensures ShallowAt(s, From(a, split, i), split[i], e) {
      if e == d {
        TruthfulAscends(c.fingerprint, c.items, a, split, 0, i);
        TruthfulAscends(c.fingerprint, c.items, a, split, i, i + 1);
        TruthfulAscends(c.fingerprint, c.items, a, split, i + 1, |split|);
        CountWithin(s, a, From(a, split, i), Key(r.bound));
        CountWithin(s, From(a, split, i), Key(split[i].bound), Key(r.bound));
        SplitsMonotone(Count(s, From(a, split, i), Key(split[i].bound)), Count(s, a, Key(r.bound)));
      } else {
        PartDepth(c, a, r.bound, i, Key(r.bound));
      }
    }
  }

  /** What an uncut step writes: nothing, the parts of a split, or a list. */
  lemma StepShape(c: Peer, done: seq<Range>, p: Progress, r: Range)
    requires Placed(c, done, p) && End(0, done) <= Key(r.bound) <= Key(MAX_BOUND) && Advance(c, p, r).cut.None?
    ensures Below(c.items, End(0, done)) <= Below(c.items, Key(r.bound)) <= |c.items|
    ensures var out := Advance(c, p, r).out;
            || out == p.out
            || (r.payload.Fingerprint?
                && out == p.out + Pending(p) + Split(c, Below(c.items, End(0, done)), Below(c.items, Key(r.bound)), r.bound))
            || (r.payload.IdList? && !c.initiator
                && out == p.out + Pending(p) + [Range(r.bound, IdList(Span(c, p.index, Upper(c, p, r))))])
  {
    hide Key, Frame, Below, Truthful, End, LowerBound, Split, Sift, Pending, Fitting, Exceeded;
    UpperIs(c, done, p, r);
    var d := Draw(c, p, r);
    assert p.out + [] == p.out && d.out + [] == d.out;
    if r.payload.Fingerprint? {
      var split := Split(c, p.index, Upper(c, p, r), r.bound);
      assert p.out + (Pending(p) + split) == p.out + Pending(p) + split;
    }
  }

  lemma PendingEnd(c: Peer, done: seq<Range>, p: Progress, s: seq<Item>, d: nat)
    requires Placed(c, done, p) && Shallow(s, 0, p.out, d)
    ensures End(0, p.out + Pending(p)) == End(0, done) && Shallow(s, 0, p.out + Pending(p), d)
  {
    hide Key, Frame, Below, Truthful, Shallow;
    if p.skip {
      ShallowOne(s, End(0, p.out), Range(p.prev, Skip), d);
      ShallowAppend(s, 0, p.out, [Range(p.prev, Skip)], d);
    } else {
      assert p.out + [] == p.out;
    }
  }

  lemma StepShallow(c: Peer, s: seq<Item>, done: seq<Range>, p: Progress, r: Range, d: nat, e: nat)
    requires Placed(c, done, p) && Sealed(s) && End(0, done) <= Key(r.bound) <= Key(MAX_BOUND) && Advance(c, p, r).cut.None?
    requires ShallowAt(s, End(0, done), r, d) && (e == d || (s == c.items && e + 1 == d))
    requires Shallow(s, 0, p.out, e)
    ensures Shallow(s, 0, Advance(c, p, r).out, e)
  {
    hide Key, Frame, Below, Truthful, Shallow, Split, Advance, Sealed, Exceeded;
    StepShape(c, done, p, r);
    PendingEnd(c, done, p, s, e);
    var a, out := End(0, done), p.out + Pending(p);
    if r.payload.Fingerprint? {
      SplitShallow(c, s, a, r, d, e);
      ShallowAppend(s, 0, out, Split(c, Below(c.items, a), Below(c.items, Key(r.bound)), r.bound), e);
    } else {
      UpperIs(c, done, p, r);
      var list := Range(r.bound, IdList(Span(c, p.index, Upper(c, p, r))));
      ShallowOne(s, a, list, e);
      ShallowAppend(s, 0, out, [list], e);
    }
  }

  lemma {:induction false} ProcessShallow(c: Peer, t: seq<Item>, done: seq<Range>, p: Progress, rest: seq<Range>,
                                          s: seq<Item>, d: nat, e: nat)
    requires Pair(c, t) && Truthful(c.fingerprint, t, done + rest) && Kept(c, t, done, p) && Sealed(s)
    requires p.index <= |c.items| && p.cut.None? && Process(c, p, rest).cut.None?
    requires Shallow(s, End(0, done), rest, d) && (e == d || (s == c.items && e + 1 == d)) && Shallow(s, 0, p.out, e)
    ensures Shallow(s, 0, Process(c, p, rest).out, e)
    decreases |rest|
  {
    hide Key, TruthfulFrom, OpenFrom, Consistent, Discerning, Advance, Below, Frame, Balanced, Sound, Shallow, Sealed, ShallowAt;
    if rest != [] {
      var r, more, q := rest[0], rest[1..], Advance(c, p, rest[0]);
      Next(c, t, done, p, rest);
      assert rest == [r] + more;
      ShallowAppend(s, End(0, done), [r], more, d);
      ShallowOne(s, End(0, done), r, d);
      EndSnoc(done, r);
      StepShallow(c, s, done, p, r, d, e);
      ProcessShallow(c, t, done + [r], q, more, s, d, e);
    }
  }

  /** A frame without fingerprints leaves the initiator nothing to ask. */
  lemma {:induction false} ProcessSettles(c: Peer, t: seq<Item>, done: seq<Range>, p: Progress, rest: seq<Range>, s: seq<Item>)
    requires Pair(c, t) && Truthful(c.fingerprint, t, done + rest) && Kept(c, t, done, p) && c.initiator
    requires p.index <= |c.items| && p.cut.None? && p.out == [] && Process(c, p, rest).cut.None?
    requires Shallow(s, End(0, done), rest, 0)
    ensures Process(c, p, rest).out == []
    decreases |rest|
  {
    hide Key, TruthfulFrom, OpenFrom, Consistent, Discerning, Advance, Below, Frame, Balanced, Sound, Shallow, Sealed, Splits;
    if rest != [] {
      var r, more, q := rest[0], rest[1..], Advance(c, p, rest[0]);
      Next(c, t, done, p, rest);
      assert rest == [r] + more;
      ShallowAppend(s, End(0, done), [r], more, 0);
      ShallowOne(s, End(0, done), r, 0);
      EndSnoc(done, r);
      StepShape(c, done, p, r);
      ProcessSettles(c, t, done + [r], q, more, s);
    }
  }

  lemma OpeningShallow(c: Peer)
    requires ValidPeer(c)
    ensures Shallow(c.items, 0, Opening(c), Splits(|c.items|))
  {
    hide Key, Below, Split;
    BelowEnds(c.items);
    var m := Opening(c);
    forall i | 0 <= i < |m| ensures ShallowAt(c.items, From(0, m, i), m[i], Splits(|c.items|)) {
      PartDepth(c, 0, MAX_BOUND, i, Key(MAX_BOUND));
    }
  }

  lemma TurnShallow(c: Peer, t: seq<Item>, m: seq<Range>, s: seq<Item>, d: nat, e: nat)
    requires Pair(c, t) && Truthful(c.fingerprint, t, m) && Sealed(s) && Process(c, Start(), m).cut.None?
    requires Shallow(s, 0, m, d) && (e == d || (s == c.items && e + 1 == d))
    ensures Shallow(s, 0, Process(c, Start(), m).out, e)
  {
    hide Key, TruthfulFrom, Consistent, Sealed, ShallowAt, Process;
    StartKept(c, t);
    assert [] + m == m;
    ProcessShallow(c, t, [], Start(), m, s, d, e);
  }

  lemma TurnSettles(c: Peer, t: seq<Item>, m: seq<Range>, s: seq<Item>)
    requires Pair(c, t) && Truthful(c.fingerprint, t, m) && c.initiator && Process(c, Start(), m).cut.None?
    requires Shallow(s, 0, m, 0)
    ensures Process(c, Start(), m).out == []
  {
    hide Key, TruthfulFrom, Consistent, Sealed, ShallowAt, Process;
    StartKept(c, t);
    assert [] + m == m;
    ProcessSettles(c, t, [], Start(), m, s);
  }

  /** With every round the initiator's ranges can be split once less. */
  lemma {:induction false} RunShallow(l: Peer, r: Peer, frames: seq<seq<Range>>, k: nat)
    requires IsRun(l, r, frames) && NeverCut(l, r, frames) && 2 * k < |frames| && k <= Splits(|l.items|)
    ensures Shallow(l.items, 0, frames[2 * k], Splits(|l.items|) - k)
    ensures 2 * k + 1 < |frames| ==> Shallow(l.items, 0, frames[2 * k + 1], Splits(|l.items|) - k)
  {
    hide Key, TruthfulFrom, Consistent, Process, Sealed, Opening, Discerning, Shallow, Splits;
    ConsistentSwap(l.items, r.items);
    var d := Splits(|l.items|) - k;
    if k == 0 {
      OpeningShallow(l);
    } else {
      RunShallow(l, r, frames, k - 1);
      RunStands(l, r, frames, 2 * k - 1);
      assert frames[2 * k] == Turn(l, r, frames, 2 * k - 1).out;
      TurnShallow(l, r.items, frames[2 * k - 1], l.items, d + 1, d);
    }
    if 2 * k + 1 < |frames| {
      RunStands(l, r, frames, 2 * k);
      assert frames[2 * k + 1] == Turn(l, r, frames, 2 * k).out;
      TurnShallow(r, l.items, frames[2 * k], l.items, d, d);
    }
  }

  /** A conversation without cuts ends after as many rounds as the initiator's storage can be split, and one more. */
  lemma UncutRunsAreShort(l: Peer, r: Peer, frames: seq<seq<Range>>)
    requires IsRun(l, r, frames) && NeverCut(l, r, frames)
    ensures |frames| <= 2 * Splits(|l.items|) + 3
  {
    hide Key, TruthfulFrom, Consistent, Process, Sealed, Opening, Discerning, Shallow, Splits;
    var n := 2 * Splits(|l.items|);
    if |frames| > n + 2 {
      RunShallow(l, r, frames, Splits(|l.items|));
      RunStands(l, r, frames, n + 1);
      assert frames[n + 2] == Turn(l, r, frames, n + 1).out;
      TurnSettles(l, r.items, frames[n + 1], l.items);
      assert frames[n + 2] == [];
    }
  }
}
