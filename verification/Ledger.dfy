/** One turn of the conversation keeps a ledger: every record on which the two peers differ is, once and
    only once, either already reported or still inside a range under discussion. The turn may only reopen
    what lies above the bound where it cut its frame short. */
module Ledger {
  import opened Wrappers
  import opened Codec
  import opened Items
  import opened Wire
  import opened Steps
  import opened Truth

  // ---- The two storages

  /** An identifier names one record, whichever peer holds it. */
  ghost predicate Consistent(s: seq<Item>, t: seq<Item>) {
    forall x, y :: (x in s || x in t) && (y in s || y in t) && x.id == y.id ==> x == y
  }

  ghost predicate Differs(s: seq<Item>, t: seq<Item>, x: Item) {
    (x in s) != (x in t)
  }

  /** Equal fingerprints mean equal identifiers; only completeness ever relies on it. */
  ghost predicate Discerning(fp: seq<Id> -> Hash, s: seq<Item>, t: seq<Item>) {
    forall a: nat, b: nat | a <= b && fp(Ids(Between(s, a, b))) == fp(Ids(Between(t, a, b))) ::
      Ids(Between(s, a, b)) == Ids(Between(t, a, b))
  }

  ghost predicate Pair(c: Peer, t: seq<Item>) {
    ValidPeer(c) && Sealed(t) && Consistent(c.items, t)
  }

  function N(b: bool): nat { if b then 1 else 0 }

  /** How often x has been reported in its direction: as ours alone if we hold it, else as theirs alone. */
  function Told(c: Peer, p: Progress, x: Item): nat {
    if x in c.items then p.have[x.id] else p.need[x.id]
  }

  /** x is in an open range, or at or above the cut. */
  ghost predicate Covered(ranges: seq<Range>, cut: Option<Bound>, x: Item) {
    Open(ranges, x) || (cut.Some? && Key(cut.value) <= ItemKey(x))
  }

  ghost predicate BalancedAt(c: Peer, t: seq<Item>, m: seq<Range>, p: Progress, x: Item) {
    && Told(c, p, x) + N(Open(p.out, x)) <= N(Covered(m, p.cut, x))
    && (Discerning(c.fingerprint, c.items, t) ==>
          Told(c, p, x) + N(Open(p.out, x)) == N(Covered(m, p.cut, x)))
  }

  ghost predicate Balanced(c: Peer, t: seq<Item>, m: seq<Range>, p: Progress) {
    forall x :: Differs(c.items, t, x) ==> BalancedAt(c, t, m, p, x)
  }

  ghost predicate Alone(s: seq<Item>, t: seq<Item>, id: Id) {
    exists x :: x in s && x !in t && x.id == id
  }

  /** Only differences are ever reported, each in its direction. */
  ghost predicate Sound(c: Peer, t: seq<Item>, p: Progress) {
    && (forall id :: id in p.have ==> Alone(c.items, t, id))
    && (forall id :: id in p.need ==> Alone(t, c.items, id))
  }

  /** Where the answer stands after the ranges `done`. */
  ghost predicate Placed(c: Peer, done: seq<Range>, p: Progress) {
    && ValidPeer(c) && p.cut.None?
    && Key(p.prev) == End(0, done) <= Key(MAX_BOUND)
    && p.index == Below(c.items, End(0, done)) <= |c.items|
    && Truthful(c.fingerprint, c.items, p.out)
    && End(0, p.out) <= End(0, done)
    && (!p.skip ==> End(0, p.out) == End(0, done))
    && !Exceeded(c, |Frame(p.out)|)
  }

  // ---- What one range adds to the answer

  lemma UpperIs(c: Peer, done: seq<Range>, p: Progress, r: Range)
    requires Placed(c, done, p) && End(0, done) <= Key(r.bound) <= Key(MAX_BOUND)
    ensures Upper(c, p, r) == Below(c.items, Key(r.bound)) && p.index <= Upper(c, p, r) <= |c.items|
  {
    BelowMonotone(c.items, End(0, done), Key(r.bound));
  }

  lemma EndSnoc(done: seq<Range>, r: Range)
    ensures End(0, done + [r]) == Key(r.bound)
  {}

  /** A range found settled adds nothing. */
  lemma SettledStep(c: Peer, done: seq<Range>, p: Progress, r: Range)
    requires Placed(c, done, p) && End(0, done) <= Key(r.bound) <= Key(MAX_BOUND)
    requires var d := Draw(c, p, r); d.out == p.out && d.extra == [] && !d.truncated && d.skip && d.upper == Upper(c, p, r)
    ensures var q := Advance(c, p, r); Placed(c, done + [r], q) && q.out == p.out
  {
    hide Key, Frame, Below, Truthful, End, Draw;
    UpperIs(c, done, p, r);
    EndSnoc(done, r);
    assert p.out + [] == p.out;
  }

  /** Appending a pending Skip and ranges that describe the items from the end of `done` to key b. */
  lemma Extended(c: Peer, done: seq<Range>, p: Progress, block: seq<Range>, b: nat)
    requires Placed(c, done, p)
    requires TruthfulFrom(c.fingerprint, c.items, End(0, done), block)
    requires forall i :: 0 <= i < |block| ==> !block[i].payload.Skip?
    requires End(End(0, done), block) == b
    ensures var out := p.out + Pending(p) + block;
            && Truthful(c.fingerprint, c.items, out)
            && End(0, out) == b
            && forall k: nat :: OpenFrom(0, out, k) <==> OpenFrom(0, p.out, k) || End(0, done) <= k < b
  {
    hide Key, Frame, Below, TruthfulFrom, OpenFrom;
    var fp, s, a, mid := c.fingerprint, c.items, End(0, done), p.out + Pending(p);
    WithPending(c, done, p);
    TruthfulAppend(fp, s, 0, mid, block);
    forall k: nat ensures OpenFrom(0, mid + block, k) <==> OpenFrom(0, p.out, k) || a <= k < b {
      OpenAppend(0, mid, block, k);
      if a <= k < b { OpenThroughout(a, block, k); }
      if OpenFrom(a, block, k) { OpenInside(fp, s, a, block, k); }
    }
  }

  lemma WithPending(c: Peer, done: seq<Range>, p: Progress)
    requires Placed(c, done, p)
    ensures Truthful(c.fingerprint, c.items, p.out + Pending(p))
    ensures End(0, p.out + Pending(p)) == End(0, done)
    ensures forall k: nat :: OpenFrom(0, p.out + Pending(p), k) <==> OpenFrom(0, p.out, k)
  {
    hide Key, Frame, Below, TruthfulFrom, OpenFrom;
    if p.skip {
      var skip := Range(p.prev, Skip);
      TruthfulOne(c.fingerprint, c.items, End(0, p.out), skip);
      TruthfulAppend(c.fingerprint, c.items, 0, p.out, [skip]);
      forall k: nat ensures OpenFrom(0, p.out + [skip], k) <==> OpenFrom(0, p.out, k) {
        OpenAppend(0, p.out, [skip], k);
        OpenOne(End(0, p.out), skip, k);
      }
    } else {
      assert p.out + [] == p.out;
    }
  }

  /** Closing a frame whose ranges end at key e with a Skip up to key `a` and a fingerprint of the rest. */
  lemma WithTail(c: Peer, out: seq<Range>, cut: Bound, boundary: seq<Range>)
    requires ValidPeer(c) && Truthful(c.fingerprint, c.items, out)
    requires End(0, out) <= Key(cut) <= Key(MAX_BOUND)
    requires boundary == [Range(cut, Skip)] || (boundary == [] && End(0, out) == Key(cut))
    ensures var all := out + boundary + [Tail(c, Below(c.items, Key(cut)))];
            && Truthful(c.fingerprint, c.items, all)
            && forall k: nat | k < Key(MAX_BOUND) :: OpenFrom(0, all, k) <==> OpenFrom(0, out, k) || Key(cut) <= k
  {
    hide Key, Frame, TruthfulFrom, OpenFrom, Below;
    var fp, s, mid := c.fingerprint, c.items, out + boundary;
    if boundary == [] {
      assert mid == out;
    } else {
      TruthfulOne(fp, s, End(0, out), boundary[0]);
      TruthfulAppend(fp, s, 0, out, boundary);
    }
    assert Truthful(fp, s, mid) && End(0, mid) == Key(cut);
    var tail := Tail(c, Below(s, Key(cut)));
    TailTrue(c, Key(cut));
    TruthfulOne(fp, s, Key(cut), tail);
    TruthfulAppend(fp, s, 0, mid, [tail]);
    forall k: nat | k < Key(MAX_BOUND)
      ensures OpenFrom(0, mid + [tail], k) <==> OpenFrom(0, out, k) || Key(cut) <= k
    {
      OpenAppend(0, mid, [tail], k);
      OpenOne(Key(cut), tail, k);
      if boundary != [] {
        OpenAppend(0, out, boundary, k);
        OpenOne(End(0, out), boundary[0], k);
      }
    }
  }

  lemma TailTrue(c: Peer, k: nat)
    requires ValidPeer(c) && k <= Key(MAX_BOUND)
    ensures Below(c.items, k) <= |c.items|
    ensures RangeTrue(c.fingerprint, c.items, k, Tail(c, Below(c.items, k)))
  {
    hide Key, ItemKey;
    BelowEnds(c.items);
    SpanIsBetween(c, k, Key(MAX_BOUND));
  }

  /** What a step that answers a range, rather than settling it, leaves: a longer answer, or a cut one. */
  ghost predicate Answered(c: Peer, done: seq<Range>, p: Progress, r: Range, q: Progress) {
    var a, b := End(0, done), Key(r.bound);
    && q.have == p.have && q.need == p.need
    && Truthful(c.fingerprint, c.items, q.out)
    && match q.cut
       case None =>
         && Placed(c, done + [r], q)
         && forall k: nat :: OpenFrom(0, q.out, k) <==> OpenFrom(0, p.out, k) || a <= k < b
       case Some(cut) =>
         && a <= Key(cut) <= b
         && forall k: nat | k < Key(MAX_BOUND) :: OpenFrom(0, q.out, k) <==> OpenFrom(0, p.out, k) || a <= k
  }

  lemma MismatchStep(c: Peer, done: seq<Range>, p: Progress, r: Range)
    requires Placed(c, done, p) && End(0, done) <= Key(r.bound) <= Key(MAX_BOUND)
    requires r.payload.Fingerprint? && r.payload.hash != Hashed(c, p.index, Upper(c, p, r))
    ensures Answered(c, done, p, r, Advance(c, p, r))
  {
    hide Key, Frame, Below, Truthful, OpenFrom, Split, Upper, Hashed, Full, End;
    UpperIs(c, done, p, r);
    var d := Draw(c, p, r);
    if Full(c, d) {
      SplitTruthful(c, End(0, done), r.bound);
      assert d.extra != [];
      WithTail(c, p.out, p.prev, [Range(p.prev, Skip)]);
    } else {
      MismatchKept(c, done, p, r, d);
    }
  }

  lemma MismatchKept(c: Peer, done: seq<Range>, p: Progress, r: Range, d: Draft)
    requires Placed(c, done, p) && End(0, done) <= Key(r.bound) <= Key(MAX_BOUND)
    requires p.index <= Upper(c, p, r) <= |c.items| && Upper(c, p, r) == Below(c.items, Key(r.bound))
    requires d == Draft(p.out, Pending(p) + Split(c, p.index, Upper(c, p, r), r.bound), Upper(c, p, r), false, false, p.have, p.need)
    requires !Full(c, d)
    ensures Answered(c, done, p, r, Close(c, p, r, d))
  {
    hide Key, Frame, Below, Truthful, OpenFrom, Split, Upper, End, Exceeded, Pending, LowerBound;
    EndSnoc(done, r);
    SplitTruthful(c, End(0, done), r.bound);
    var split := Split(c, p.index, d.upper, r.bound);
    Extended(c, done, p, split, Key(r.bound));
    assert d.out + d.extra == p.out + Pending(p) + split;
  }

  lemma IdListStep(c: Peer, done: seq<Range>, p: Progress, r: Range)
    requires Placed(c, done, p) && End(0, done) <= Key(r.bound) <= Key(MAX_BOUND)
    requires r.payload.IdList? && !c.initiator
    ensures Answered(c, done, p, r, Advance(c, p, r))
  {
    hide Key, ItemKey, Frame, Truthful, OpenFrom, LowerBound, Below, RangeTrue, Exceeded, Sealed, Fitting;
    var a := End(0, done);
    UpperIs(c, done, p, r);
    EndSnoc(done, r);
    var d := Draw(c, p, r);
    var end := d.upper;
    var bound := if d.truncated then FromItem(c.items[end]) else r.bound;
    var list := Range(bound, IdList(Span(c, p.index, end)));
    ListBound(c, a, r.bound, d.truncated, end);
    TruthfulOne(c.fingerprint, c.items, a, list);
    Extended(c, done, p, [list], Key(bound));
    var out := p.out + Pending(p) + [list];
    assert d.out == out && d.extra == [] && out + [] == out;
    if Full(c, d) {
      WithTail(c, out, bound, if d.truncated then [] else [Range(bound, Skip)]);
    }
  }

  /** The bound an identifier list ends at, cut or not, excludes exactly what the list leaves out. */
  lemma ListBound(c: Peer, a: nat, bound: Bound, truncated: bool, end: nat)
    requires ValidPeer(c) && a <= Key(bound) <= Key(MAX_BOUND)
    requires Below(c.items, a) <= end <= Below(c.items, Key(bound)) <= |c.items|
    requires truncated <==> end < Below(c.items, Key(bound))
    ensures var last := if truncated then FromItem(c.items[end]) else bound;
            && a <= Key(last) <= Key(bound)
            && Below(c.items, Key(last)) == end
            && RangeTrue(c.fingerprint, c.items, a, Range(last, IdList(Span(c, Below(c.items, a), end))))
  {
    hide Key, ItemKey;
    var last := if truncated then FromItem(c.items[end]) else bound;
    if truncated {
      FromItemKey(c.items[end]);
      BelowSplits(c.items, a);
      BelowSplits(c.items, Key(bound));
      BelowIs(c.items, Key(last), end);
    }
    SpanIsBetween(c, a, Key(last));
  }

  // ---- What one range reports

  ghost predicate Distinct(ids: seq<Id>) {
    forall i, j :: 0 <= i < j < |ids| ==> ids[i] != ids[j]
  }

  lemma {:induction false} SiftMeans(ours: seq<Id>, theirs: set<Id>)
    requires Distinct(ours)
    ensures forall id :: Sift(ours, theirs).0[id] == N(id in ours && id !in theirs)
    ensures Sift(ours, theirs).1 == theirs - set id | id in ours
    decreases |ours|
  {
    if ours != [] {
      var rest := ours[1..];
      assert ours == [ours[0]] + rest;
      assert Distinct(rest) by {
        assert forall i :: 0 <= i < |rest| ==> rest[i] == ours[i + 1];
      }
      SiftMeans(rest, if ours[0] in theirs then theirs - {ours[0]} else theirs);
      assert ours[0] !in rest;
    }
  }

  lemma BetweenIds(s: seq<Item>, a: nat, b: nat, id: Id)
    requires Sealed(s) && a <= b
    ensures Distinct(Ids(Between(s, a, b)))
    ensures id in Ids(Between(s, a, b)) <==> exists x :: x in s && a <= ItemKey(x) < b && x.id == id
  {
    hide ItemKey, Below;
    var slice := Between(s, a, b);
    BelowMonotone(s, a, b);
    if id in Ids(slice) {
      var i :| 0 <= i < |slice| && Ids(slice)[i] == id;
      InBetween(s, a, b, slice[i]);
    }
    if exists x :: x in s && a <= ItemKey(x) < b && x.id == id {
      var x :| x in s && a <= ItemKey(x) < b && x.id == id;
      InBetween(s, a, b, x);
      var i :| 0 <= i < |slice| && slice[i] == x;
      assert Ids(slice)[i] == id;
    }
  }

  /** For a record of either peer: its identifier is in a peer's range exactly if that peer holds it there. */
  lemma ListedMeans(s: seq<Item>, t: seq<Item>, a: nat, b: nat, x: Item)
    requires Sealed(s) && Consistent(s, t) && a <= b && (x in s || x in t)
    ensures x.id in Ids(Between(s, a, b)) <==> x in s && a <= ItemKey(x) < b
  {
    hide ItemKey, Between, Sealed;
    BetweenIds(s, a, b, x.id);
  }

  lemma ReportStep(c: Peer, t: seq<Item>, done: seq<Range>, p: Progress, r: Range)
    requires Pair(c, t) && Placed(c, done, p) && RangeTrue(c.fingerprint, t, End(0, done), r)
    requires r.payload.IdList? && c.initiator
    ensures var q, a, b := Advance(c, p, r), End(0, done), Key(r.bound);
            && Placed(c, done + [r], q) && q.out == p.out
            && forall x | Differs(c.items, t, x) :: Told(c, q, x) == Told(c, p, x) + N(a <= ItemKey(x) < b)
    ensures Sound(c, t, p) ==> Sound(c, t, Advance(c, p, r))
  {
    hide Key, ItemKey, Between, Below, Truthful, Frame, LowerBound;
    var q, a, b := Advance(c, p, r), End(0, done), Key(r.bound);
    SettledStep(c, done, p, r);
    UpperIs(c, done, p, r);
    SpanIsBetween(c, a, b);
    var ours, theirs := Ids(Between(c.items, a, b)), Ids(Between(t, a, b));
    assert r.payload.ids == theirs && Span(c, p.index, Upper(c, p, r)) == ours;
    ReportedIds(c, t, p, a, b, ours, theirs, q);
  }

  lemma ReportedIds(c: Peer, t: seq<Item>, p: Progress, a: nat, b: nat, ours: seq<Id>, theirs: seq<Id>, q: Progress)
    requires Pair(c, t) && a <= b
    requires ours == Ids(Between(c.items, a, b)) && theirs == Ids(Between(t, a, b))
    requires var (have, need) := Sift(ours, set id | id in theirs);
             q.have == p.have + have && q.need == p.need + multiset(need)
    ensures forall x | Differs(c.items, t, x) :: Told(c, q, x) == Told(c, p, x) + N(a <= ItemKey(x) < b)
    ensures Sound(c, t, p) ==> Sound(c, t, q)
  {
    hide ItemKey, Between, Sealed;
    var listed := set id | id in theirs;
    if ours != [] { BetweenIds(c.items, a, b, ours[0]); }
    SiftMeans(ours, listed);
    forall x | Differs(c.items, t, x)
      ensures Told(c, q, x) == Told(c, p, x) + N(a <= ItemKey(x) < b)
    {
      ListedMeans(c.items, t, a, b, x);
      ConsistentSwap(c.items, t);
      ListedMeans(t, c.items, a, b, x);
    }
    if Sound(c, t, p) {
      forall id | id in q.have ensures Alone(c.items, t, id) {
        if id !in p.have { FoundAlone(c.items, t, a, b, id); }
      }
      forall id | id in q.need ensures Alone(t, c.items, id) {
        if id !in p.need {
          ConsistentSwap(c.items, t);
          FoundAlone(t, c.items, a, b, id);
        }
      }
    }
  }

  lemma ConsistentSwap(s: seq<Item>, t: seq<Item>)
    requires Consistent(s, t)
    ensures Consistent(t, s)
  {}

  lemma FoundAlone(s: seq<Item>, t: seq<Item>, a: nat, b: nat, id: Id)
    requires Sealed(s) && Sealed(t) && Consistent(s, t) && a <= b
    requires id in Ids(Between(s, a, b)) && id !in Ids(Between(t, a, b))
    ensures Alone(s, t, id)
  {
    hide ItemKey, Between;
    BetweenIds(s, a, b, id);
    BetweenIds(t, a, b, id);
  }

  // ---- The ledger balances

  lemma OpenSnoc(done: seq<Range>, r: Range, x: Item)
    ensures Open(done + [r], x) <==>
              Open(done, x) || (End(0, done) <= ItemKey(x) < Key(r.bound) && !r.payload.Skip?)
  {
    hide Key, ItemKey, OpenFrom;
    OpenAppend(0, done, [r], ItemKey(x));
    OpenOne(End(0, done), r, ItemKey(x));
  }

  /** Equal fingerprints over a range leave no difference in it, if fingerprints can be relied on. */
  lemma EqualMeans(c: Peer, t: seq<Item>, a: nat, b: nat, x: Item)
    requires Pair(c, t) && a <= b && Discerning(c.fingerprint, c.items, t)
    requires c.fingerprint(Ids(Between(c.items, a, b))) == c.fingerprint(Ids(Between(t, a, b)))
    requires a <= ItemKey(x) < b
    ensures !Differs(c.items, t, x)
  {
    hide ItemKey, Between, Sealed;
    assert Ids(Between(c.items, a, b)) == Ids(Between(t, a, b));
    if x in c.items || x in t {
      ListedMeans(c.items, t, a, b, x);
      ConsistentSwap(c.items, t);
      ListedMeans(t, c.items, a, b, x);
    }
  }

  ghost predicate Kept(c: Peer, t: seq<Item>, done: seq<Range>, q: Progress) {
    && Truthful(c.fingerprint, c.items, q.out)
    && Balanced(c, t, done, q)
    && Sound(c, t, q)
    && (q.cut.None? ==> Placed(c, done, q))
    && (q.cut.Some? ==> Key(q.cut.value) <= End(0, done))
  }

  lemma ItemBelowMax(c: Peer, t: seq<Item>, x: Item)
    requires Pair(c, t) && Differs(c.items, t, x)
    ensures ItemKey(x) < Key(MAX_BOUND)
  {
    hide ItemKey, Key;
    MaxKey(x);
  }

  /** The three things that can happen to a range. */
  ghost predicate Settles(c: Peer, t: seq<Item>, done: seq<Range>, p: Progress, r: Range, q: Progress) {
    var a, b := End(0, done), Key(r.bound);
    && q.out == p.out && q.have == p.have && q.need == p.need && q.cut.None? && Placed(c, done + [r], q)
    && (r.payload.Skip? ||
        (r.payload.Fingerprint? && c.fingerprint(Ids(Between(c.items, a, b))) == c.fingerprint(Ids(Between(t, a, b)))))
  }

  ghost predicate Tallies(c: Peer, t: seq<Item>, done: seq<Range>, p: Progress, r: Range, q: Progress) {
    var a, b := End(0, done), Key(r.bound);
    && q.out == p.out && q.cut.None? && Placed(c, done + [r], q) && !r.payload.Skip?
    && forall x | Differs(c.items, t, x) :: Told(c, q, x) == Told(c, p, x) + N(a <= ItemKey(x) < b)
  }

  lemma StepKind(c: Peer, t: seq<Item>, done: seq<Range>, p: Progress, r: Range)
    requires Pair(c, t) && Placed(c, done, p) && Sound(c, t, p)
    requires RangeTrue(c.fingerprint, t, End(0, done), r)
    ensures var q := Advance(c, p, r);
            && Sound(c, t, q)
            && (Settles(c, t, done, p, r, q) || Tallies(c, t, done, p, r, q)
                || (Answered(c, done, p, r, q) && !r.payload.Skip?))
  {
    hide Key, ItemKey, Between, Below, Frame, LowerBound, Truthful, OpenFrom, Consistent, Split, Answered;
    UpperIs(c, done, p, r);
    match r.payload
    case Skip => SettledStep(c, done, p, r);
    case Fingerprint(theirs) =>
      SpanIsBetween(c, End(0, done), Key(r.bound));
      if theirs == Hashed(c, p.index, Upper(c, p, r)) {
        SettledStep(c, done, p, r);
      } else {
        MismatchStep(c, done, p, r);
        assert Answered(c, done, p, r, Advance(c, p, r));
        AnswersTellNothing(c, t, done, p, r);
      }
    case IdList(theirs) =>
      if c.initiator {
        ReportStep(c, t, done, p, r);
      } else {
        IdListStep(c, done, p, r);
        AnswersTellNothing(c, t, done, p, r);
      }
  }

  lemma AnswersTellNothing(c: Peer, t: seq<Item>, done: seq<Range>, p: Progress, r: Range)
    requires ValidPeer(c) && p.index <= |c.items| && Answered(c, done, p, r, Advance(c, p, r)) && Sound(c, t, p)
    ensures Sound(c, t, Advance(c, p, r))
  {
    hide Advance, Truthful, Placed, OpenFrom, Key;
  }

  lemma AdvanceKeeps(c: Peer, t: seq<Item>, done: seq<Range>, p: Progress, r: Range)
    requires Pair(c, t) && Placed(c, done, p) && Balanced(c, t, done, p) && Sound(c, t, p)
    requires Truthful(c.fingerprint, t, done) && RangeTrue(c.fingerprint, t, End(0, done), r)
    ensures Kept(c, t, done + [r], Advance(c, p, r))
  {
    hide Key, ItemKey, Between, Below, Frame, LowerBound, TruthfulFrom, Sound, OpenFrom, Consistent, Discerning, Advance, Exceeded;
    var q := Advance(c, p, r);
    EndSnoc(done, r);
    StepKind(c, t, done, p, r);
    forall x | Differs(c.items, t, x) ensures BalancedAt(c, t, done + [r], q, x) {
      StepBalances(c, t, done, p, r, q, x);
    }
  }

  lemma StepBalances(c: Peer, t: seq<Item>, done: seq<Range>, p: Progress, r: Range, q: Progress, x: Item)
    requires Pair(c, t) && Differs(c.items, t, x) && p.cut.None? && BalancedAt(c, t, done, p, x)
    requires Truthful(c.fingerprint, t, done) && RangeTrue(c.fingerprint, t, End(0, done), r)
    requires Settles(c, t, done, p, r, q) || Tallies(c, t, done, p, r, q)
             || (Answered(c, done, p, r, q) && !r.payload.Skip?)
    ensures BalancedAt(c, t, done + [r], q, x)
  {
    hide Key, ItemKey, Between, Placed, TruthfulFrom, OpenFrom, Consistent, Discerning;
    var a, b := End(0, done), Key(r.bound);
    ItemBelowMax(c, t, x);
    OpenSnoc(done, r, x);
    if OpenFrom(0, done, ItemKey(x)) { OpenInside(c.fingerprint, t, 0, done, ItemKey(x)); }
    if Settles(c, t, done, p, r, q) && !r.payload.Skip? && Discerning(c.fingerprint, c.items, t) && a <= ItemKey(x) < b {
      EqualMeans(c, t, a, b, x);
    }
  }

  /** The whole turn, from where it stands after `done`. */
  lemma {:induction false} ProcessKeeps(c: Peer, t: seq<Item>, done: seq<Range>, p: Progress, rest: seq<Range>)
    requires Pair(c, t) && Truthful(c.fingerprint, t, done + rest) && Kept(c, t, done, p)
    requires p.index <= |c.items|
    ensures var q := Process(c, p, rest);
            && Truthful(c.fingerprint, c.items, q.out)
            && Balanced(c, t, done + rest, q)
            && Sound(c, t, q)
    decreases |rest|
  {
    hide Key, ItemKey, Below, Frame, TruthfulFrom, Sound, OpenFrom, Consistent, Discerning, Advance, Exceeded;
    if rest == [] {
      assert done + rest == done;
    } else if p.cut.Some? {
      CutCoversRest(c, t, done, p, rest);
    } else {
      var r := rest[0];
      TruthfulAppend(c.fingerprint, t, 0, done, rest);
      TruthfulAppend(c.fingerprint, t, End(0, done), [r], rest[1..]);
      TruthfulOne(c.fingerprint, t, End(0, done), r);
      assert rest == [r] + rest[1..];
      AdvanceKeeps(c, t, done, p, r);
      assert done + [r] + rest[1..] == done + rest;
      ProcessKeeps(c, t, done + [r], Advance(c, p, r), rest[1..]);
    }
  }

  lemma CutCoversRest(c: Peer, t: seq<Item>, done: seq<Range>, p: Progress, rest: seq<Range>)
    requires Truthful(c.fingerprint, t, done + rest) && Balanced(c, t, done, p)
    requires p.cut.Some? && Key(p.cut.value) <= End(0, done)
    ensures Balanced(c, t, done + rest, p)
  {
    hide Key, ItemKey, TruthfulFrom, OpenFrom, Discerning, Differs, Told;
    TruthfulAppend(c.fingerprint, t, 0, done, rest);
    forall x | Differs(c.items, t, x) ensures BalancedAt(c, t, done + rest, p, x) {
      assert BalancedAt(c, t, done, p, x);
      OpenAppend(0, done, rest, ItemKey(x));
      if OpenFrom(End(0, done), rest, ItemKey(x)) {
        OpenInside(c.fingerprint, t, End(0, done), rest, ItemKey(x));
      }
    }
  }

  lemma StartKept(c: Peer, t: seq<Item>)
    requires Pair(c, t)
    ensures Kept(c, t, [], Start())
  {
    hide Key, Discerning;
    ZeroKey();
    BelowEnds(c.items);
    KeyOrder(0, Padded([]), MAX_U64, Padded([]));
  }

  /** One turn: given a truthful frame of the other peer, the answer is truthful, what it reports is sound,
      and every difference is accounted for. */
  lemma TurnKeeps(c: Peer, t: seq<Item>, m: seq<Range>)
    requires Pair(c, t) && Truthful(c.fingerprint, t, m)
    ensures var q := Process(c, Start(), m);
            Truthful(c.fingerprint, c.items, q.out) && Balanced(c, t, m, q) && Sound(c, t, q)
  {
    StartKept(c, t);
    assert [] + m == m;
    ProcessKeeps(c, t, [], Start(), m);
  }
}
