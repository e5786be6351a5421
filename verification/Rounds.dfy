/** A rank that falls with every round, hence a bound on the number of rounds. */
module Rounds {
  import opened Codec
  import opened Items
  import opened Wire
  import opened Steps
  import opened Truth
  import opened Ledger
  import opened Sizes
  import opened Termination
  import opened Conversation

  /** How many records, counted once per peer, lie at or above key a. */
  function Rest(s: seq<Item>, t: seq<Item>, a: nat): nat {
    (|s| - Below(s, a)) + (|t| - Below(t, a))
  }

  /** How many lie from key a up to key b. */
  function Weight(s: seq<Item>, t: seq<Item>, a: nat, b: nat): nat {
    if Rest(s, t, b) <= Rest(s, t, a) then Rest(s, t, a) - Rest(s, t, b) else 0
  }

  lemma RestMonotone(s: seq<Item>, t: seq<Item>, a: nat, b: nat)
    requires Sealed(s) && Sealed(t) && a <= b
    ensures Rest(s, t, b) <= Rest(s, t, a) <= |s| + |t|
    ensures Weight(s, t, a, b) == (Below(s, b) - Below(s, a)) + (Below(t, b) - Below(t, a))
    ensures Below(s, a) <= Below(s, b) && Below(t, a) <= Below(t, b)
  {
    hide Below, Sealed;
    BelowMonotone(s, a, b);
    BelowMonotone(t, a, b);
  }

  // ---- An initiator's ranges under discussion hold records

  ghost predicate BusyAt(s: seq<Item>, t: seq<Item>, m: seq<Range>, i: nat)
    requires i < |m|
  {
    m[i].payload.Skip? || Weight(s, t, From(0, m, i), Key(m[i].bound)) > 0
  }

  /** Every range under discussion among the first n holds a record of some peer. */
  ghost predicate Busy(s: seq<Item>, t: seq<Item>, m: seq<Range>, n: nat)
    requires n <= |m|
  {
    forall i :: 0 <= i < n ==> BusyAt(s, t, m, i)
  }

  lemma BusyPrefix(s: seq<Item>, t: seq<Item>, x: seq<Range>, m: seq<Range>)
    requires x <= m && Busy(s, t, x, |x|)
    ensures Busy(s, t, m, |x|)
  {
    hide Weight, Key;
    forall i | 0 <= i < |x| ensures BusyAt(s, t, m, i) {
      assert BusyAt(s, t, x, i);
    }
  }

  lemma SplitBusyAt(c: Peer, t: seq<Item>, a: nat, bound: Bound, i: nat)
    requires ValidPeer(c) && Sealed(t) && a <= Key(bound) <= Key(MAX_BOUND)
    requires Below(c.items, a) <= Below(c.items, Key(bound)) <= |c.items|
    requires Ids(Between(c.items, a, Key(bound))) != Ids(Between(t, a, Key(bound)))
             || Below(c.items, a) + 2 * BUCKETS <= Below(c.items, Key(bound))
    requires i < |Split(c, Below(c.items, a), Below(c.items, Key(bound)), bound)|
    ensures var split := Split(c, Below(c.items, a), Below(c.items, Key(bound)), bound);
            && Weight(c.items, t, From(a, split, i), Key(split[i].bound)) > 0
            && From(a, split, i) <= Key(split[i].bound) <= Key(bound)
            && (Below(c.items, a) + 2 * BUCKETS <= Below(c.items, Key(bound)) ==>
                  split[i].payload.Fingerprint?)
            && (Below(c.items, a) + 2 * BUCKETS > Below(c.items, Key(bound)) ==>
                  split[i] == Range(bound, split[i].payload) && split[i].payload.IdList?)
  {
    hide Key, ItemKey, Below, Edge, Bucket, Between, Weight;
    var s, b := c.items, Key(bound);
    var lower, upper := Below(s, a), Below(s, b);
    var split := Split(c, lower, upper, bound);
    RestMonotone(s, t, a, b);
    if lower + 2 * BUCKETS <= upper {
      BucketTrue(c, a, bound, i);
      BucketBound(c, lower, upper, bound, i);
      EdgeInside(lower, upper - lower, i);
      var start, end := From(a, split, i), Key(split[i].bound);
      BucketEnds(c, t, a, bound, i);
      RestMonotone(s, t, start, end);
      RestMonotone(s, t, a, start);
      RestMonotone(s, t, end, b);
    } else {
      DifferentNotEmpty(s, t, a, b);
    }
  }

  lemma BucketEnds(c: Peer, t: seq<Item>, a: nat, bound: Bound, i: nat)
    requires ValidPeer(c) && a <= Key(bound) <= Key(MAX_BOUND) && i < BUCKETS
    requires Below(c.items, a) + 2 * BUCKETS <= Below(c.items, Key(bound)) <= |c.items|
    ensures var split := Split(c, Below(c.items, a), Below(c.items, Key(bound)), bound);
            a <= From(a, split, i) <= Key(split[i].bound) <= Key(bound)
  {
    hide Key, ItemKey, Below, Edge, Between, Bucket;
    var split := Split(c, Below(c.items, a), Below(c.items, Key(bound)), bound);
    SplitTruthful(c, a, bound);
    TruthfulAscends(c.fingerprint, c.items, a, split, 0, i);
    TruthfulAscends(c.fingerprint, c.items, a, split, i, i + 1);
    TruthfulAscends(c.fingerprint, c.items, a, split, i + 1, |split|);
  }

  lemma DifferentNotEmpty(s: seq<Item>, t: seq<Item>, a: nat, b: nat)
    requires Sealed(s) && Sealed(t) && a <= b
    requires Ids(Between(s, a, b)) != Ids(Between(t, a, b))
    ensures Weight(s, t, a, b) > 0
  {
    hide Below;
    RestMonotone(s, t, a, b);
  }

  /** One step of an initiator leaves all ranges under discussion busy, but for a trailing fingerprint. */
  lemma AdvanceBusy(c: Peer, t: seq<Item>, done: seq<Range>, p: Progress, r: Range)
    requires Pair(c, t) && c.initiator && Placed(c, done, p) && RangeTrue(c.fingerprint, t, End(0, done), r)
    requires Busy(c.items, t, p.out, |p.out|)
    ensures var q := Advance(c, p, r);
            if q.cut.None? then Busy(c.items, t, q.out, |q.out|)
            else q.out != [] && Busy(c.items, t, q.out, |q.out| - 1)
  {
    hide Key, Truthful, OpenFrom, Below, Frame, LowerBound, Between, Split, Weight, Sift, Busy;
    UpperIs(c, done, p, r);
    var q := Advance(c, p, r);
    var settled := Draw(c, p, r).extra == [];
    if settled {
      SettledDraft(c, t, done, p, r);
      SettledStep(c, done, p, r);
    } else {
      SpanIsBetween(c, End(0, done), Key(r.bound));
      var a, split := End(0, done), Split(c, p.index, Upper(c, p, r), r.bound);
      WithPending(c, done, p);
      PendingBusy(c, t, p);
      if q.cut.None? {
        SplitBusy(c, t, p.out + Pending(p), a, r.bound);
        assert q.out == p.out + Pending(p) + split;
      } else {
        SkipTailBusy(c, t, p.out, p.prev, Tail(c, p.index));
      }
    }
  }

  lemma SettledDraft(c: Peer, t: seq<Item>, done: seq<Range>, p: Progress, r: Range)
    requires Pair(c, t) && c.initiator && Placed(c, done, p) && RangeTrue(c.fingerprint, t, End(0, done), r)
    requires p.index <= Upper(c, p, r) <= |c.items| && Upper(c, p, r) == Below(c.items, Key(r.bound))
    requires Draw(c, p, r).extra == []
    ensures var d := Draw(c, p, r); d.out == p.out && !d.truncated && d.skip && d.upper == Upper(c, p, r)
  {
    hide Key, Truthful, OpenFrom, Below, Frame, LowerBound, Between, Split, Sift, Upper;
    SplitTruthful(c, End(0, done), r.bound);
  }

  lemma PendingBusy(c: Peer, t: seq<Item>, p: Progress)
    requires Busy(c.items, t, p.out, |p.out|)
    ensures Busy(c.items, t, p.out + Pending(p), |p.out + Pending(p)|)
  {
    hide Weight, Key;
    BusyPrefix(c.items, t, p.out, p.out + Pending(p));
  }

  lemma SkipTailBusy(c: Peer, t: seq<Item>, out: seq<Range>, cut: Bound, tail: Range)
    requires Busy(c.items, t, out, |out|)
    ensures Busy(c.items, t, out + [Range(cut, Skip)] + [tail], |out| + 1)
  {
    hide Weight, Key;
    BusyPrefix(c.items, t, out, out + [Range(cut, Skip)] + [tail]);
  }

  lemma SplitBusy(c: Peer, t: seq<Item>, out: seq<Range>, a: nat, bound: Bound)
    requires ValidPeer(c) && Sealed(t) && a <= Key(bound) <= Key(MAX_BOUND) && End(0, out) == a
    requires Below(c.items, a) <= Below(c.items, Key(bound)) <= |c.items|
    requires Ids(Between(c.items, a, Key(bound))) != Ids(Between(t, a, Key(bound)))
             || Below(c.items, a) + 2 * BUCKETS <= Below(c.items, Key(bound))
    requires Busy(c.items, t, out, |out|)
    ensures var all := out + Split(c, Below(c.items, a), Below(c.items, Key(bound)), bound);
            Busy(c.items, t, all, |all|)
  {
    hide Weight, Key, Split, Below, Between;
    var split := Split(c, Below(c.items, a), Below(c.items, Key(bound)), bound);
    var all := out + split;
    BusyPrefix(c.items, t, out, all);
    forall i | |out| <= i < |all| ensures BusyAt(c.items, t, all, i) {
      SplitBusyAt(c, t, a, bound, i - |out|);
      assert From(0, all, i) == From(a, split, i - |out|) && all[i] == split[i - |out|];
    }
  }

  lemma {:induction false} ProcessBusy(c: Peer, t: seq<Item>, done: seq<Range>, p: Progress, rest: seq<Range>)
    requires Pair(c, t) && c.initiator && Truthful(c.fingerprint, t, done + rest) && Kept(c, t, done, p)
    requires p.index <= |c.items|
    requires if p.cut.None? then Busy(c.items, t, p.out, |p.out|) else p.out != [] && Busy(c.items, t, p.out, |p.out| - 1)
    ensures var out := Process(c, p, rest).out;
            out == [] || Busy(c.items, t, out, |out| - 1)
    decreases |rest|
  {
    hide Key, TruthfulFrom, OpenFrom, Consistent, Discerning, Advance, Below, Frame, Balanced, Sound, BusyAt;
    if rest != [] && p.cut.None? {
      Next(c, t, done, p, rest);
      AdvanceBusy(c, t, done, p, rest[0]);
      ProcessBusy(c, t, done + [rest[0]], Advance(c, p, rest[0]), rest[1..]);
    }
  }

  lemma OpeningBusy(c: Peer, t: seq<Item>)
    requires Pair(c, t)
    ensures Busy(c.items, t, Opening(c), |Opening(c)| - 1)
  {
    hide Weight, Key, Split, Below, Between;
    BelowEnds(c.items);
    SplitTruthful(c, 0, MAX_BOUND);
    SplitShort(c, 0, |c.items|, MAX_BOUND);
    if |c.items| >= 2 * BUCKETS {
      SplitBusy(c, t, [], 0, MAX_BOUND);
      assert [] + Opening(c) == Opening(c);
    }
  }

  // ---- How often a range can be split

  /** How often `n` records can be divided by sixteen, rounding up, before too few are left to split. */
  function Splits(n: nat): nat {
    if n < 2 * BUCKETS then 0 else 1 + Splits(n / BUCKETS + 1)
  }

  lemma {:induction false} SplitsMonotone(m: nat, n: nat)
    requires m <= n
    ensures Splits(m) <= Splits(n)
    decreases n
  {
    if m >= 2 * BUCKETS { SplitsMonotone(m / BUCKETS + 1, n / BUCKETS + 1); }
  }

  function Power16(k: nat): nat { if k == 0 then 1 else 16 * Power16(k - 1) }

  /** Splitting is logarithmic: a million records can be split four times. */
  lemma {:induction false} SplitsFew(n: nat, k: nat)
    requires n <= 30 * Power16(k) + 1
    ensures Splits(n) <= k
    decreases k
  {
    if n >= 2 * BUCKETS { SplitsFew(n / BUCKETS + 1, k - 1); }
  }

  /** How many records of s lie from key a up to key b. */
  function Count(s: seq<Item>, a: nat, b: nat): nat {
    if Below(s, a) <= Below(s, b) then Below(s, b) - Below(s, a) else 0
  }

  lemma CountWithin(s: seq<Item>, a: nat, b: nat, e: nat)
    requires Sealed(s) && a <= b <= e
    ensures Count(s, a, b) <= Count(s, a, e) <= |s| && Count(s, b, e) <= Count(s, a, e)
  {
    hide Below, Sealed;
    BelowMonotone(s, a, b);
    BelowMonotone(s, b, e);
  }

  // ---- The rank

  /** How many more times the initiator can answer a range by splitting it, or listing it at last. */
  function Depth(s: seq<Item>, a: nat, r: Range): nat {
    if r.payload.Fingerprint? then 1 + Splits(Count(s, a, Key(r.bound))) else 0
  }

  function Deepest(s: seq<Item>): nat { 1 + Splits(|s|) }

  /** Zero when nothing is under discussion; else lexicographic in the records at or above the start of the
      first range under discussion and its depth. */
  function Rank(s: seq<Item>, t: seq<Item>, m: seq<Range>): nat {
    if Lead(m) == |m| then 0
    else
      var a := From(0, m, Lead(m));
      Score(Deepest(s), Rest(s, t, a), Depth(s, a, m[Lead(m)]))
  }

  function Score(deepest: nat, rest: nat, depth: nat): nat {
    1 + rest * (deepest + 1) + depth
  }

  lemma Lexicographic(r1: nat, d1: nat, r2: nat, d2: nat, deepest: nat)
    requires d2 <= deepest && (r2 < r1 || (r2 == r1 && d2 < d1))
    ensures r2 * (deepest + 1) + d2 < r1 * (deepest + 1) + d1
  {
    if r2 < r1 { TimesMonotone(r2 + 1, r1, deepest + 1); }
  }

  lemma {:induction false} TimesMonotone(x: nat, y: nat, n: nat)
    requires x <= y
    ensures x * n <= y * n
    decreases y
  {
    if x < y { TimesMonotone(x, y - 1, n); }
  }

  lemma DepthBound(s: seq<Item>, a: nat, r: Range)
    requires Sealed(s)
    ensures Depth(s, a, r) <= Deepest(s)
  {
    hide Below, Sealed, Key;
    SplitsMonotone(Count(s, a, Key(r.bound)), |s|);
  }

  lemma RankFallsByStart(s: seq<Item>, t: seq<Item>, m: seq<Range>, next: seq<Range>, a: nat, r: Range, k: nat)
    requires Sealed(s) && Sealed(t) && Leads(m, a, r) && StartsAt(next, k) && Rest(s, t, k) < Rest(s, t, a)
    ensures Rank(s, t, next) < Rank(s, t, m)
  {
    hide Key, Sealed, Below, Depth, Deepest;
    if Lead(next) < |next| {
      var a2, r2 := From(0, next, Lead(next)), next[Lead(next)];
      RestMonotone(s, t, k, a2);
      DepthBound(s, a2, r2);
      Lexicographic(Rest(s, t, a), Depth(s, a, r), Rest(s, t, a2), Depth(s, a2, r2), Deepest(s));
    }
  }

  lemma RankFallsByDepth(s: seq<Item>, t: seq<Item>, m: seq<Range>, next: seq<Range>, a: nat, r: Range, r2: Range)
    requires Sealed(s) && Sealed(t) && Leads(m, a, r) && Leads(next, a, r2)
    requires Depth(s, a, r2) < Depth(s, a, r)
    ensures Rank(s, t, next) < Rank(s, t, m)
  {
    hide Key, Sealed, Below, Depth, Deepest;
    DepthBound(s, a, r2);
    Lexicographic(Rest(s, t, a), Depth(s, a, r), Rest(s, t, a), Depth(s, a, r2), Deepest(s));
  }

  /** A part of a split can be split once less than the range that was split, and than any range around it. */
  lemma PartDepth(c: Peer, a: nat, bound: Bound, i: nat, e: nat)
    requires ValidPeer(c) && a <= Key(bound) <= Key(MAX_BOUND) && Key(bound) <= e
    requires Below(c.items, a) <= Below(c.items, Key(bound)) <= |c.items|
    requires i < |Split(c, Below(c.items, a), Below(c.items, Key(bound)), bound)|
    ensures var split := Split(c, Below(c.items, a), Below(c.items, Key(bound)), bound);
            Depth(c.items, From(a, split, i), split[i]) <= Splits(Count(c.items, a, e))
  {
    hide Key, ItemKey, Below, Edge, Bucket, Between;
    var s, lower, upper := c.items, Below(c.items, a), Below(c.items, Key(bound));
    var split := Split(c, lower, upper, bound);
    CountWithin(s, a, Key(bound), e);
    SplitsMonotone(Count(s, a, Key(bound)), Count(s, a, e));
    if lower + 2 * BUCKETS <= upper {
      BucketTrue(c, a, bound, i);
      BucketBound(c, lower, upper, bound, i);
      EdgeStep(lower, upper - lower, i);
      SplitsMonotone(Count(s, From(a, split, i), Key(split[i].bound)), (upper - lower) / BUCKETS + 1);
    }
  }

  lemma TurnStarts(c: Peer, t: seq<Item>, m: seq<Range>, k: nat)
    requires Pair(c, t) && Truthful(c.fingerprint, t, m) && StartsAt(m, k)
    ensures StartsAt(Process(c, Start(), m).out, k)
  {
    hide Key, TruthfulFrom, Consistent;
    StartKept(c, t);
    assert [] + m == m;
    ProcessStarts(c, t, [], Start(), m, k);
  }

  lemma TurnTruthful(c: Peer, t: seq<Item>, m: seq<Range>)
    requires Pair(c, t) && Truthful(c.fingerprint, t, m)
    ensures Truthful(c.fingerprint, c.items, Process(c, Start(), m).out)
  {
    TurnKeeps(c, t, m);
  }

  lemma NothingFromNothing(c: Peer)
    requires ValidPeer(c)
    ensures Process(c, Start(), []).out == []
  {}

  lemma WeightSwap(s: seq<Item>, t: seq<Item>, a: nat, b: nat)
    ensures Weight(s, t, a, b) == Weight(t, s, a, b) && Rest(s, t, a) == Rest(t, s, a)
  {
    hide Below;
  }

  /** Both peers' turns on an initiator's frame. */
  function Round(l: Peer, r: Peer, m: seq<Range>): seq<Range>
    requires ValidPeer(l) && ValidPeer(r)
  {
    Process(l, Start(), Process(r, Start(), m).out).out
  }

  ghost predicate InitiatorFrame(l: Peer, r: Peer, m: seq<Range>) {
    Peers(l, r) && Truthful(l.fingerprint, l.items, m) && Lead(m) < |m| && Busy(l.items, r.items, m, |m| - 1)
  }

  lemma LeadWeighs(l: Peer, r: Peer, m: seq<Range>, a: nat, lead: Range)
    requires InitiatorFrame(l, r, m) && Leads(m, a, lead) && Lead(m) + 1 < |m|
    ensures Weight(l.items, r.items, a, Key(lead.bound)) > 0
  {
    hide Weight, Key, Truthful, Peers;
    assert BusyAt(l.items, r.items, m, Lead(m));
  }

  lemma LeadTrue(fp: seq<Id> -> Hash, s: seq<Item>, m: seq<Range>, a: nat, lead: Range)
    requires Truthful(fp, s, m) && Leads(m, a, lead)
    ensures a <= Key(lead.bound) <= Key(MAX_BOUND)
  {
    hide Key, PayloadTrue;
    assert RangeTrue(fp, s, From(0, m, Lead(m)), m[Lead(m)]);
  }

  /** The responder settled the first range: everything still open lies above it. */
  lemma RoundAfterSettled(l: Peer, r: Peer, m: seq<Range>, a: nat, lead: Range)
    requires InitiatorFrame(l, r, m) && Leads(m, a, lead)
    requires LeadSettled(m, Process(r, Start(), m).out, Key(lead.bound))
    ensures Rank(l.items, r.items, Round(l, r, m)) < Rank(l.items, r.items, m)
  {
    hide Key, TruthfulFrom, Busy, Consistent, Process, Sealed, Rest, Weight, Below;
    var reply := Process(r, Start(), m).out;
    if Lead(m) + 1 == |m| {
      NothingFromNothing(l);
    } else {
      ConsistentSwap(l.items, r.items);
      TurnTruthful(r, l.items, m);
      TurnStarts(l, r.items, reply, Key(lead.bound));
      LeadWeighs(l, r, m, a, lead);
      LeadTrue(l.fingerprint, l.items, m, a, lead);
      FallsPast(l.items, r.items, a, Key(lead.bound));
      RankFallsByStart(l.items, r.items, m, Round(l, r, m), a, lead, Key(lead.bound));
    }
  }

  lemma FallsPast(s: seq<Item>, t: seq<Item>, a: nat, b: nat)
    requires Weight(s, t, a, b) > 0
    ensures Rest(s, t, b) < Rest(s, t, a)
  {}

  /** The responder split the first range: the initiator settles the first part, or splits it further. */
  lemma RoundAfterSplit(l: Peer, r: Peer, m: seq<Range>, a: nat, lead: Range)
    requires InitiatorFrame(l, r, m) && Leads(m, a, lead)
    requires LeadSplit(r, l.items, a, lead, Process(r, Start(), m).out)
    ensures Rank(l.items, r.items, Round(l, r, m)) < Rank(l.items, r.items, m)
  {
    hide Key, TruthfulFrom, Busy, Consistent, Process, Sealed, Rest, Weight, Below, Between, Split, Discerning;
    var s, t, b := l.items, r.items, Key(lead.bound);
    var reply, next := Process(r, Start(), m).out, Round(l, r, m);
    ConsistentSwap(s, t);
    TurnTruthful(r, s, m);
    LeadTrue(l.fingerprint, s, m, a, lead);
    SplitBusyAt(r, s, a, lead.bound, 0);
    var part := Split(r, Below(t, a), Below(t, b), lead.bound)[0];
    var e := Key(part.bound);
    WeightSwap(s, t, a, e);
    WeightSwap(s, t, a, b);
    FallsPast(s, t, a, e);
    if part.payload.IdList? {
      TurnLeadReported(l, t, reply, a, part);
      RankFallsByStart(s, t, m, next, a, lead, e);
    } else {
      TurnLeadFingerprint(l, t, reply, a, part);
      if LeadSettled(reply, next, e) {
        RankFallsByStart(s, t, m, next, a, lead, e);
      } else {
        LeadTrue(l.fingerprint, t, reply, a, part);
        SplitBusyAt(l, t, a, part.bound, 0);
        var piece := Split(l, Below(s, a), Below(s, e), part.bound)[0];
        PartDepth(l, a, part.bound, 0, b);
        RankFallsByDepth(s, t, m, next, a, lead, piece);
      }
    }
  }

  /** The responder listed (the front of) the first range: the initiator settles what was listed. */
  lemma RoundAfterListed(l: Peer, r: Peer, m: seq<Range>, a: nat, lead: Range, listed: Range)
    requires InitiatorFrame(l, r, m) && Leads(m, a, lead)
    requires LeadListed(r, m, a, lead, Process(r, Start(), m).out, listed)
    ensures Rank(l.items, r.items, Round(l, r, m)) < Rank(l.items, r.items, m)
  {
    hide Key, TruthfulFrom, Busy, Consistent, Process, Sealed, Rest, Weight, Below, Between, Split, Discerning;
    var s, t, e := l.items, r.items, Key(listed.bound);
    var reply, next := Process(r, Start(), m).out, Round(l, r, m);
    ConsistentSwap(s, t);
    TurnTruthful(r, s, m);
    TurnLeadReported(l, t, reply, a, listed);
    if Below(t, a) < Below(t, e) {
      ListedWeighs(s, t, a, e);
      FallsPast(s, t, a, e);
      RankFallsByStart(s, t, m, next, a, lead, e);
    } else if Lead(m) + 1 < |m| {
      LeadWeighs(l, r, m, a, lead);
      FallsPast(s, t, a, e);
      RankFallsByStart(s, t, m, next, a, lead, e);
    }
  }

  lemma ListedWeighs(s: seq<Item>, t: seq<Item>, a: nat, e: nat)
    requires Sealed(s) && Sealed(t) && a <= e && Below(t, a) < Below(t, e)
    ensures Weight(s, t, a, e) > 0
  {
    hide Below, Sealed;
    RestMonotone(s, t, a, e);
  }

  /** Every round on a frame that still discusses something lowers the rank. */
  lemma RoundFalls(l: Peer, r: Peer, m: seq<Range>)
    requires InitiatorFrame(l, r, m)
    ensures Rank(l.items, r.items, Round(l, r, m)) < Rank(l.items, r.items, m)
  {
    hide Key, TruthfulFrom, Busy, Consistent, Process, Sealed, Rank, Round, LeadSettled, LeadSplit, LeadListed;
    var a, lead := From(0, m, Lead(m)), m[Lead(m)];
    ConsistentSwap(l.items, r.items);
    match lead.payload
    case Fingerprint(_) =>
      TurnLeadFingerprint(r, l.items, m, a, lead);
      if LeadSettled(m, Process(r, Start(), m).out, Key(lead.bound)) {
        RoundAfterSettled(l, r, m, a, lead);
      } else {
        RoundAfterSplit(l, r, m, a, lead);
      }
    case IdList(_) =>
      var listed := TurnLeadIdList(r, l.items, m, a, lead);
      RoundAfterListed(l, r, m, a, lead, listed);
  }

  // ---- Conversations end

  ghost predicate EndsOpen(out: seq<Range>) {
    out == [] || !out[|out| - 1].payload.Skip?
  }

  lemma AdvanceEndsOpen(c: Peer, p: Progress, r: Range)
    requires ValidPeer(c) && p.index <= |c.items| && EndsOpen(p.out)
    ensures EndsOpen(Advance(c, p, r).out)
  {
    hide Frame, DrawFingerprint, DrawReport, DrawIdList, LowerBound, Exceeded, Key, Sift;
    match r.payload
    case Skip =>
      assert p.out + [] == p.out;
    case Fingerprint(theirs) =>
      DrawnEndsOpen(c, p, r.bound, theirs, Upper(c, p, r));
    case IdList(theirs) =>
      ListedEndsOpen(c, p, r.bound, theirs, Upper(c, p, r));
  }

  lemma DrawnEndsOpen(c: Peer, p: Progress, bound: Bound, theirs: Hash, upper: nat)
    requires ValidPeer(c) && p.index <= upper <= |c.items| && EndsOpen(p.out)
    ensures var d := DrawFingerprint(c, p, bound, theirs, upper); EndsOpen(d.out + d.extra)
  {
    hide Split, Hashed;
    SplitShort(c, p.index, upper, bound);
    assert p.out + [] == p.out;
  }

  lemma ListedEndsOpen(c: Peer, p: Progress, bound: Bound, theirs: seq<Id>, upper: nat)
    requires p.index <= upper <= |c.items| && EndsOpen(p.out)
    ensures var d := DrawIdList(c, p, bound, upper); EndsOpen(d.out + d.extra)
    ensures var d := DrawReport(c, p, theirs, upper); EndsOpen(d.out + d.extra)
  {
    hide Fitting, Sift, Frame;
    var d := DrawIdList(c, p, bound, upper);
    assert d.out + [] == d.out && p.out + [] == p.out;
  }

  lemma {:induction false} AnswersEndOpen(c: Peer, p: Progress, ranges: seq<Range>)
    requires ValidPeer(c) && p.index <= |c.items| && EndsOpen(p.out)
    ensures EndsOpen(Process(c, p, ranges).out)
    decreases |ranges|
  {
    hide Advance, EndsOpen;
    if ranges != [] && p.cut.None? {
      AdvanceEndsOpen(c, p, ranges[0]);
      AnswersEndOpen(c, Advance(c, p, ranges[0]), ranges[1..]);
    }
  }

  /** Every frame of the initiator is one of which the round lemma speaks, unless it is empty. */
  lemma {:induction false} RunRanks(l: Peer, r: Peer, frames: seq<seq<Range>>, k: nat)
    requires IsRun(l, r, frames) && 2 * k < |frames|
    ensures frames[2 * k] == [] || InitiatorFrame(l, r, frames[2 * k])
    ensures Rank(l.items, r.items, frames[2 * k]) + k <= Rank(l.items, r.items, Opening(l))
  {
    hide Key, TruthfulFrom, Busy, Consistent, Process, Sealed, Rank, Opening, Discerning;
    if k == 0 {
      OpeningTruthful(l);
      OpeningBusy(l, r.items);
      OpeningOpen(l);
    } else {
      RunRanks(l, r, frames, k - 1);
      var m := frames[2 * k - 2];
      RoundFalls(l, r, m);
      assert frames[2 * k - 1] == Turn(l, r, frames, 2 * k - 2).out;
      assert frames[2 * k] == Turn(l, r, frames, 2 * k - 1).out;
      assert frames[2 * k] == Round(l, r, m);
      RunStands(l, r, frames, 2 * k);
      RunStands(l, r, frames, 2 * k - 1);
      InitiatorAnswers(l, r, frames[2 * k - 1]);
    }
  }

  lemma OpeningOpen(c: Peer)
    requires ValidPeer(c)
    ensures Lead(Opening(c)) == 0 && Opening(c) != []
  {
    hide Bucket;
    SplitShort(c, 0, |c.items|, MAX_BOUND);
  }

  lemma InitiatorAnswers(l: Peer, r: Peer, reply: seq<Range>)
    requires Peers(l, r) && Truthful(l.fingerprint, r.items, reply)
    ensures var out := Process(l, Start(), reply).out;
            out == [] || (Lead(out) < |out| && Busy(l.items, r.items, out, |out| - 1))
  {
    hide Key, TruthfulFrom, BusyAt, Consistent, Process;
    StartKept(l, r.items);
    assert [] + reply == reply;
    ProcessBusy(l, r.items, [], Start(), reply);
    AnswersEndOpen(l, Start(), reply);
  }

  /** How many rounds a conversation can take, however its frames are cut. */
  function MaxRounds(l: Peer, r: Peer): nat { MaxRoundsFor(|l.items|, |r.items|) }

  function MaxRoundsFor(n: nat, m: nat): (rounds: nat)
    ensures rounds >= Splits(n) + 2
  {
    (n + m) * (Splits(n) + 2) + Splits(n) + 2
  }

  lemma RankBound(l: Peer, r: Peer, m: seq<Range>)
    requires Sealed(l.items) && Sealed(r.items)
    ensures Rank(l.items, r.items, m) <= MaxRounds(l, r)
  {
    hide Key, Below, Sealed, Depth;
    if Lead(m) < |m| {
      var a, n, d := From(0, m, Lead(m)), |l.items| + |r.items|, Deepest(l.items);
      RestMonotone(l.items, r.items, a, a);
      DepthBound(l.items, a, m[Lead(m)]);
      TimesMonotone(Rest(l.items, r.items, a), n, d + 1);
      assert n * (d + 1) + (d + 1) == (n + 1) * (d + 1);
    }
  }

  /** A conversation has at most twice as many turns as the rank of its opening. */
  lemma RunsWithinRank(l: Peer, r: Peer, frames: seq<seq<Range>>)
    requires IsRun(l, r, frames)
    ensures |frames| <= 2 * Rank(l.items, r.items, Opening(l)) + 1
  {
    hide Key, TruthfulFrom, Busy, Consistent, Process, Sealed, Opening, Rest, Weight;
    var k := (|frames| - 1) / 2;
    RunRanks(l, r, frames, k);
    if 2 * k < |frames| - 1 {
      assert frames[2 * k] != [];
      assert InitiatorFrame(l, r, frames[2 * k]);
    }
  }

  /** However frames are cut, a conversation takes hardly more rounds than there are records, times the logarithm
      of those of the initiator. */
  lemma RunsAreShort(l: Peer, r: Peer, frames: seq<seq<Range>>)
    requires IsRun(l, r, frames)
    ensures |frames| <= 2 * MaxRounds(l, r) + 1
  {
    hide Rank, IsRun, Opening, Sealed, MaxRounds;
    RunPeers(l, r, frames);
    RunsWithinRank(l, r, frames);
    RankBound(l, r, Opening(l));
  }

  lemma RunPeers(l: Peer, r: Peer, frames: seq<seq<Range>>)
    requires IsRun(l, r, frames)
    ensures Peers(l, r)
  {}

  /** Every conversation, carried on, ends with an initiator that has nothing left to ask. */
  lemma {:induction false} RunsFinish(l: Peer, r: Peer, frames: seq<seq<Range>>) returns (all: seq<seq<Range>>)
    requires IsRun(l, r, frames) && |frames| % 2 == 1
    ensures frames <= all && Complete(l, r, all)
    decreases 2 * MaxRounds(l, r) + 1 - |frames|
  {
    hide Key, Process, Opening, ValidPeer, Consistent;
    RunsAreShort(l, r, frames);
    var n := |frames|;
    if frames[n - 1] == [] {
      all := frames;
    } else {
      var more := frames + [Turn(l, r, frames, n - 1).out];
      assert more[n - 1] == frames[n - 1];
      var round := more + [Turn(l, r, more, n).out];
      RunExtends(l, r, frames, round);
      RunsAreShort(l, r, round);
      all := RunsFinish(l, r, round);
    }
  }

  lemma RunExtends(l: Peer, r: Peer, frames: seq<seq<Range>>, round: seq<seq<Range>>)
    requires IsRun(l, r, frames) && |frames| % 2 == 1 && frames[|frames| - 1] != [] && |round| == |frames| + 2
    requires frames <= round
    requires round[|frames|] == Process(r, Start(), frames[|frames| - 1]).out
    requires round[|frames| + 1] == Process(l, Start(), round[|frames|]).out
    ensures IsRun(l, r, round)
  {
    hide Process, Opening, ValidPeer, Consistent;
    forall i | 0 <= i < |round| - 1 ensures round[i + 1] == Turn(l, r, round, i).out {
      if i < |frames| - 1 {
        assert frames[i + 1] == Turn(l, r, frames, i).out;
        assert round[i + 1] == frames[i + 1] && round[i] == frames[i];
      }
    }
    forall i | 0 <= i < |round| - 1 && i % 2 == 0 ensures round[i] != [] {
      if i < |frames| - 1 { assert frames[i] != [] && round[i] == frames[i]; }
    }
  }
}
