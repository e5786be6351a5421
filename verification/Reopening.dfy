/** A difference can be reported twice. In this conversation the responder, having to list 125 identifiers at
    once, cuts its second frame near the start; the trailing fingerprint then reopens everything above,
    records included that the initiator reported a turn earlier. */
module Reopening {
  import opened Codec
  import opened Items
  import opened Wire
  import opened Steps
  import opened Truth
  import opened Ledger
  import opened Sizes
  import opened Conversation
  import opened Termination
  import opened Rounds

  // ---- Two storages: 32 records far apart, and 2000 close together near the start

  function LeftItem(k: nat): Item
    requires k < 32
  {
    Item(5000 * k, [1, k] + Zeros(30))
  }

  function RightItem(k: nat): Item
    requires k < 2000
  {
    Item(k, [2, k / 256, k % 256] + Zeros(29))
  }

  function Left(): seq<Item> { seq(32, k requires 0 <= k < 32 => LeftItem(k)) }

  function Right(): seq<Item> { seq(2000, k requires 0 <= k < 2000 => RightItem(k)) }

  function L(fp: seq<Id> -> Hash): Peer { Peer(Left(), fp, 4096, true) }

  function R(fp: seq<Id> -> Hash): Peer { Peer(Right(), fp, 4096, false) }

  lemma LeftIds(i: nat, j: nat)
    requires i < j < 32
    ensures LeftItem(i).id != LeftItem(j).id
  {
    assert LeftItem(i).id[1] == i && LeftItem(j).id[1] == j;
  }

  lemma RightIds(i: nat, j: nat)
    requires i < j < 2000
    ensures RightItem(i).id != RightItem(j).id
  {
    assert RightItem(i).id[1] == i / 256 && RightItem(i).id[2] == i % 256;
    assert RightItem(j).id[1] == j / 256 && RightItem(j).id[2] == j % 256;
  }

  lemma Stored(fp: seq<Id> -> Hash)
    ensures Peers(L(fp), R(fp))
    ensures |Left()| == 32 && |Right()| == 2000
    ensures Sealed(Left()) && Sealed(Right()) && Consistent(Left(), Right())
  {
    hide Sealed;
    forall i, j | 0 <= i < j < 32 ensures Left()[i].id != Left()[j].id { LeftIds(i, j); }
    forall i, j | 0 <= i < j < 2000 ensures Right()[i].id != Right()[j].id { RightIds(i, j); }
    TimesSealed(Left());
    TimesSealed(Right());
    forall x, y | (x in Left() || x in Right()) && (y in Left() || y in Right()) && x.id == y.id ensures x == y {
      SameRecord(x, y);
    }
  }

  lemma LeftMember(x: Item) returns (i: nat)
    requires x in Left()
    ensures i < 32 && x == LeftItem(i) && x.id[0] == 1
  {
    i :| 0 <= i < 32 && Left()[i] == x;
  }

  lemma RightMember(x: Item) returns (i: nat)
    requires x in Right()
    ensures i < 2000 && x == RightItem(i) && x.id[0] == 2
  {
    i :| 0 <= i < 2000 && Right()[i] == x;
  }

  lemma SameRecord(x: Item, y: Item)
    requires (x in Left() || x in Right()) && (y in Left() || y in Right()) && x.id == y.id
    ensures x == y
  {
    hide Left, Right, LeftItem, RightItem;
    if x in Left() && y in Left() {
      var i := LeftMember(x);
      var j := LeftMember(y);
      if i < j { LeftIds(i, j); }
      if j < i { LeftIds(j, i); }
    } else if x in Right() && y in Right() {
      var i := RightMember(x);
      var j := RightMember(y);
      if i < j { RightIds(i, j); }
      if j < i { RightIds(j, i); }
    } else if x in Left() {
      var i := LeftMember(x);
      var j := RightMember(y);
    } else {
      var i := RightMember(x);
      var j := LeftMember(y);
    }
  }

  /** A bound without a prefix divides by timestamp. */
  lemma TimeBound(x: Item, time: u64)
    ensures ItemKey(x) < Key(Bound(time, [])) <==> x.timestamp < time
  {
    KeyOrder(x.timestamp, x.id, time, Padded([]));
    PrefixNotAbove(x.id, 0);
    assert x.id[..0] == [];
  }

  lemma LeftBelow(time: u64, n: nat)
    requires n <= 32 && 5000 * n - 5000 < time <= 5000 * n
    ensures Below(Left(), Key(Bound(time, []))) == n
  {
    hide ItemKey, Key, Below;
    Stored(_ => Zeros(16));
    if n > 0 { TimeBound(Left()[n - 1], time); }
    if n < 32 { TimeBound(Left()[n], time); }
    BelowIs(Left(), Key(Bound(time, [])), n);
  }

  lemma RightBelow(time: u64)
    ensures Below(Right(), Key(Bound(time, []))) == if time < 2000 then time else 2000
  {
    hide ItemKey, Key, Below;
    Stored(_ => Zeros(16));
    var n := if time < 2000 then time else 2000;
    if n > 0 { TimeBound(Right()[n - 1], time); }
    if n < 2000 { TimeBound(Right()[n], time); }
    BelowIs(Right(), Key(Bound(time, [])), n);
  }

  // ---- Turns whose ranges hold few records of the receiver are not cut

  /** How many ranges are fingerprints. */
  function Fingerprints(m: seq<Range>): nat {
    if m == [] then 0
    else Fingerprints(m[..|m| - 1]) + N(m[|m| - 1].payload.Fingerprint?)
  }

  /** Every range under discussion, or every fingerprint, ends at or below key k. */
  ghost predicate EndsBelow(m: seq<Range>, k: nat, fingerprintsOnly: bool) {
    forall i :: 0 <= i < |m| && (if fingerprintsOnly then m[i].payload.Fingerprint? else !m[i].payload.Skip?) ==>
                  Key(m[i].bound) <= k
  }

  ghost predicate SmallAt(c: Peer, a: nat, r: Range) {
    && (r.payload.IdList? ==> c.initiator)
    && (r.payload.Fingerprint? ==> Below(c.items, Key(r.bound)) <= Below(c.items, a) + 2)
  }

  /** Before the next range: room for it, and what is written so far. */
  ghost predicate Roomy(c: Peer, p: Progress, left: nat) {
    c.limit == 4096 && |Frame(p.out)| + 162 * left + 200 <= 4096
  }

  lemma FingerprintsSnoc(m: seq<Range>, r: Range)
    ensures Fingerprints(m + [r]) == Fingerprints(m) + N(r.payload.Fingerprint?)
  {
    assert (m + [r])[..|m|] == m;
  }

  lemma SmallStep(c: Peer, t: seq<Item>, done: seq<Range>, p: Progress, r: Range, left: nat)
    requires Pair(c, t) && Placed(c, done, p) && RangeTrue(c.fingerprint, t, End(0, done), r)
    requires SmallAt(c, End(0, done), r) && Roomy(c, p, left + N(r.payload.Fingerprint?))
    ensures var q := Advance(c, p, r);
            && q.cut.None? && Roomy(c, q, left)
            && (q.out == p.out || (r.payload.Fingerprint? && exists ids ::
                  q.out == p.out + Pending(p) + [Range(r.bound, IdList(ids))]))
  {
    hide Key, Truthful, Below, Frame, LowerBound, Between, Pending, Sift;
    UpperIs(c, done, p, r);
    var d := Draw(c, p, r);
    assert p.out + [] == p.out;
    if r.payload.Fingerprint? && d.extra != [] {
      var ids := Span(c, p.index, d.upper);
      var list := Range(r.bound, IdList(ids));
      PendingLength(p);
      FrameSnoc(p.out + Pending(p), list);
      assert d.extra == Pending(p) + [list];
      assert p.out + (Pending(p) + [list]) == p.out + Pending(p) + [list];
    }
  }

  lemma SmallKeeps(p: Progress, q: Progress, r: Range, k: nat, fingerprintsOnly: bool)
    requires q.out == p.out || (r.payload.Fingerprint? && exists ids :: q.out == p.out + Pending(p) + [Range(r.bound, IdList(ids))])
    requires EndsBelow(p.out, k, fingerprintsOnly)
    requires !fingerprintsOnly && r.payload.Fingerprint? ==> Key(r.bound) <= k
    ensures EndsBelow(q.out, k, fingerprintsOnly) && Fingerprints(q.out) == Fingerprints(p.out)
  {
    hide Key;
    if q.out != p.out {
      var ids :| q.out == p.out + Pending(p) + [Range(r.bound, IdList(ids))];
      FingerprintsSnoc(p.out + Pending(p), Range(r.bound, IdList(ids)));
      if p.skip { FingerprintsSnoc(p.out, Range(p.prev, Skip)); } else { assert p.out + [] == p.out; }
    }
  }

  lemma {:induction false} SmallRun(c: Peer, t: seq<Item>, done: seq<Range>, p: Progress, rest: seq<Range>, k: nat, fingerprintsOnly: bool)
    requires Pair(c, t) && Truthful(c.fingerprint, t, done + rest) && Kept(c, t, done, p)
    requires p.index <= |c.items| && p.cut.None? && Roomy(c, p, Fingerprints(rest))
    requires forall i :: 0 <= i < |rest| ==> SmallAt(c, From(End(0, done), rest, i), rest[i])
    requires EndsBelow(p.out, k, fingerprintsOnly)
    requires !fingerprintsOnly ==> EndsBelow(rest, k, true)
    ensures var q := Process(c, p, rest);
            q.cut.None? && EndsBelow(q.out, k, fingerprintsOnly) && Fingerprints(q.out) == Fingerprints(p.out)
    decreases |rest|
  {
    hide Key, TruthfulFrom, OpenFrom, Consistent, Discerning, Advance, Below, Frame, Balanced, Sound, EndsBelow, SmallAt, Roomy;
    if rest != [] {
      var r, more, q := rest[0], rest[1..], Advance(c, p, rest[0]);
      assert rest == [r] + more;
      Next(c, t, done, p, rest);
      FingerprintsCons(r, more);
      assert From(End(0, done), rest, 0) == End(0, done);
      SmallStep(c, t, done, p, r, Fingerprints(more));
      FirstEndsBelow(rest, k, fingerprintsOnly);
      SmallKeeps(p, q, r, k, fingerprintsOnly);
      EndSnoc(done, r);
      forall i | 0 <= i < |more| ensures SmallAt(c, From(End(0, done + [r]), more, i), more[i]) {
        assert From(End(0, done + [r]), more, i) == From(End(0, done), rest, i + 1) && more[i] == rest[i + 1];
      }
      SmallRun(c, t, done + [r], q, more, k, fingerprintsOnly);
    }
  }

  lemma FirstEndsBelow(rest: seq<Range>, k: nat, fingerprintsOnly: bool)
    requires rest != [] && (!fingerprintsOnly ==> EndsBelow(rest, k, true))
    ensures !fingerprintsOnly && rest[0].payload.Fingerprint? ==> Key(rest[0].bound) <= k
    ensures !fingerprintsOnly ==> EndsBelow(rest[1..], k, true)
  {
    hide Key;
  }

  lemma {:induction false} FingerprintsCons(r: Range, more: seq<Range>)
    ensures Fingerprints([r] + more) == N(r.payload.Fingerprint?) + Fingerprints(more)
    decreases |more|
  {
    if more == [] {
      assert [r] + more == [r] && [r][..0] == [];
    } else {
      var n := |more| - 1;
      FingerprintsCons(r, more[..n]);
      assert ([r] + more)[..n + 1] == [r] + more[..n];
    }
  }

  // ---- The first three turns

  const FIRST: Bound := Bound(10000, [])
  const SECOND: Bound := Bound(125, [])

  lemma FirstBounds()
    ensures Key(SECOND) <= Key(FIRST) <= Key(MAX_BOUND)
    ensures forall x :: x in Left() && x.timestamp >= 10000 ==> Key(FIRST) <= ItemKey(x)
    ensures Below(Left(), Key(FIRST)) == 2 && Below(Right(), Key(FIRST)) == 2000
    ensures Below(Left(), Key(SECOND)) == 1 && Below(Right(), Key(SECOND)) == 125
    ensures Below(Left(), 0) == 0 && Below(Right(), 0) == 0
  {
    hide ItemKey, Key, Below;
    KeyOrder(125, Padded([]), 10000, Padded([]));
    KeyOrder(10000, Padded([]), MAX_U64, Padded([]));
    assert Key(SECOND) <= Key(FIRST) <= Key(MAX_BOUND) by { KeysByTime(); }
    LeftBelow(10000, 2);
    RightBelow(10000);
    LeftBelow(125, 1);
    RightBelow(125);
    Stored(_ => Zeros(16));
    BelowEnds(Left());
    BelowEnds(Right());
    forall x | x in Left() && x.timestamp >= 10000 ensures Key(FIRST) <= ItemKey(x) { TimeBound(x, 10000); }
  }

  lemma KeysByTime()
    ensures Key(SECOND) <= Key(FIRST) <= Key(MAX_BOUND)
  {
    KeyOrder(125, Padded([]), 10000, Padded([]));
    KeyOrder(10000, Padded([]), MAX_U64, Padded([]));
  }

  lemma OpeningStart(fp: seq<Id> -> Hash)
    ensures ValidPeer(L(fp)) && |Opening(L(fp))| == 16
    ensures Leads(Opening(L(fp)), 0, Opening(L(fp))[0]) && Opening(L(fp))[0].bound == FIRST
    ensures forall i :: 0 <= i < 16 ==> Opening(L(fp))[i].payload.Fingerprint?
  {
    hide Key, ItemKey;
    Stored(fp);
    OpeningOpen(L(fp));
    SplitShort(L(fp), 0, 32, MAX_BOUND);
  }

  lemma ReplyStart(fp: seq<Id> -> Hash)
    ensures ValidPeer(R(fp))
    ensures var split := Split(R(fp), 0, 2000, FIRST);
            |split| == 16 && split[0].bound == SECOND && forall i :: 0 <= i < 16 ==> split[i].payload.Fingerprint?
  {
    hide Key, ItemKey;
    Stored(fp);
    SplitShort(R(fp), 0, 2000, FIRST);
  }

  lemma {:induction false} AllFingerprints(m: seq<Range>)
    requires forall i :: 0 <= i < |m| ==> m[i].payload.Fingerprint?
    ensures Fingerprints(m) == |m|
  {
    if m != [] { AllFingerprints(m[..|m| - 1]); }
  }

  lemma {:induction false} FingerprintsAppend(x: seq<Range>, y: seq<Range>)
    ensures Fingerprints(x + y) == Fingerprints(x) + Fingerprints(y)
    decreases |y|
  {
    if y == [] {
      assert x + y == x;
    } else {
      var n := |y| - 1;
      FingerprintsAppend(x, y[..n]);
      assert (x + y)[..|x| + n] == x + y[..n];
    }
  }

  /** Where the two storages hold different numbers of records, their fingerprints differ. */
  lemma Distinguished(fp: seq<Id> -> Hash, s: seq<Item>, t: seq<Item>, a: nat, b: nat)
    requires Sealed(s) && Sealed(t) && Discerning(fp, s, t) && a <= b
    requires Below(s, b) - Below(s, a) != Below(t, b) - Below(t, a)
    ensures fp(Ids(Between(s, a, b))) != fp(Ids(Between(t, a, b)))
  {
    hide Below, Sealed;
    BelowMonotone(s, a, b);
    BelowMonotone(t, a, b);
    assert |Ids(Between(s, a, b))| != |Ids(Between(t, a, b))|;
  }

  /** The initiator's opening: a fingerprint up to FIRST that does not match the responder's. */
  lemma OpeningFacts(fp: seq<Id> -> Hash)
    requires Discerning(fp, Left(), Right())
    ensures Pair(R(fp), Left()) && Peers(L(fp), R(fp))
    ensures var m := Opening(L(fp));
            && |m| == 16 && Truthful(fp, Left(), m) && Leads(m, 0, m[0]) && Lead(m) == 0 && m[0].bound == FIRST
            && forall i :: 0 <= i < 16 ==> m[i].payload.Fingerprint?
    ensures fp(Ids(Between(Right(), 0, Key(FIRST)))) != fp(Ids(Between(Left(), 0, Key(FIRST))))
  {
    hide Key, ItemKey, Below, Left, Right, Opening, Truthful, Discerning, Consistent, Between;
    Stored(fp);
    ConsistentSwap(Left(), Right());
    OpeningStart(fp);
    OpeningTruthful(L(fp));
    OpeningOpen(L(fp));
    FirstBounds();
    DiscerningSwap(fp, Left(), Right());
    Distinguished(fp, Right(), Left(), 0, Key(FIRST));
  }

  /** The responder splits the first bucket into 16 and lists nothing in the other fifteen. */
  lemma FirstTurn(fp: seq<Id> -> Hash) returns (reply: seq<Range>)
    requires Discerning(fp, Left(), Right())
    ensures Peers(L(fp), R(fp)) && reply == Process(R(fp), Start(), Opening(L(fp))).out
    ensures Truthful(fp, Right(), reply)
    ensures exists r :: Leads(reply, 0, r) && r.bound == SECOND && r.payload.Fingerprint?
    ensures EndsBelow(reply, Key(FIRST), true) && Fingerprints(reply) <= 16
  {
    hide Key, ItemKey, Below, Left, Right, Opening, Process, Split, Truthful, Discerning, Consistent, Fingerprints, EndsBelow, Between;
    OpeningFacts(fp);
    var r, m := R(fp), Opening(L(fp));
    ReplyStart(fp);
    FirstBounds();
    reply := Process(r, Start(), m).out;
    TurnTruthful(r, Left(), m);
    TurnLeadFingerprint(r, Left(), m, 0, m[0]);
    assert Leads(reply, 0, Split(r, 0, 2000, FIRST)[0]);
    FirstTurnSmall(fp, m);
  }

  lemma FirstTurnSmall(fp: seq<Id> -> Hash, m: seq<Range>)
    requires Pair(R(fp), Left())
    requires |m| == 16 && Truthful(fp, Left(), m) && Leads(m, 0, m[0]) && Lead(m) == 0 && m[0].bound == FIRST
    requires forall i :: 0 <= i < 16 ==> m[i].payload.Fingerprint?
    requires fp(Ids(Between(Right(), 0, Key(FIRST)))) != fp(Ids(Between(Left(), 0, Key(FIRST))))
    ensures var out := Process(R(fp), Start(), m).out; EndsBelow(out, Key(FIRST), true) && Fingerprints(out) <= 16
  {
    hide Key, ItemKey, Below, Left, Right, Process, Split, Truthful, Discerning, Consistent, Frame, OpenFrom, Fingerprints, EndsBelow, Between, SmallAt, Lead, Balanced, Sound, Advance, Roomy, PayloadTrue;
    var r := R(fp);
    FirstBounds();
    var p, q := AnswerLead(r, Left(), m);
    FirstSplit(r, Left(), m[..0], p, m[0]);
    FirstAnswer(fp, p, q);
    RestSmall(fp, m);
    assert m[..1] + m[1..] == m && End(0, m[..1]) == Key(FIRST);
    AllFingerprints(m[1..]);
    SmallRun(r, Left(), m[..1], q, m[1..], Key(FIRST), true);
  }

  /** The split of the first bucket ends where it did, and leaves room. */
  lemma FirstAnswer(fp: seq<Id> -> Hash, p: Progress, q: Progress)
    requires ValidPeer(R(fp)) && p.out == [] && q.out == Pending(p) + Split(R(fp), 0, 2000, FIRST)
    ensures Roomy(R(fp), q, 15) && EndsBelow(q.out, Key(FIRST), true) && Fingerprints(q.out) <= 16
  {
    hide Key, ItemKey, Below, Right, Frame, Between, Bucket;
    var c, split := R(fp), Split(R(fp), 0, 2000, FIRST);
    FirstBounds();
    ReplyStart(fp);
    FrameEmpty();
    PendingLength(p);
    assert [] + Pending(p) == Pending(p);
    BlockLength(Pending(p), split, 60);
    AllFingerprints(split);
    FingerprintsAppend(Pending(p), split);
    if p.skip { FingerprintsSnoc([], Range(p.prev, Skip)); assert [] + Pending(p) == Pending(p); }
    forall i | 0 <= i < |q.out| && q.out[i].payload.Fingerprint? ensures Key(q.out[i].bound) <= Key(FIRST) {
      var j := i - |Pending(p)|;
      assert q.out[i] == split[j];
      BucketEnds(c, Left(), 0, FIRST, j);
    }
  }

  /** Above the first bucket the responder holds nothing. */
  lemma RestSmall(fp: seq<Id> -> Hash, m: seq<Range>)
    requires |m| == 16 && Truthful(fp, Left(), m) && m[0].bound == FIRST
    requires forall i :: 0 <= i < 16 ==> m[i].payload.Fingerprint?
    ensures forall i :: 0 <= i < 15 ==> SmallAt(R(fp), From(Key(FIRST), m[1..], i), m[1..][i])
  {
    hide Key, ItemKey, Below, Left, Right, TruthfulFrom;
    FirstBounds();
    Stored(fp);
    forall i | 0 <= i < 15 ensures SmallAt(R(fp), From(Key(FIRST), m[1..], i), m[1..][i]) {
      assert From(Key(FIRST), m[1..], i) == From(0, m, i + 1);
      TruthfulAscends(fp, Left(), 0, m, 1, i + 1);
      BelowMonotone(Right(), Key(FIRST), From(0, m, i + 1));
    }
  }

  /** The initiator lists its few records below the first bucket's end and reports everything above. */
  lemma SecondTurn(fp: seq<Id> -> Hash, reply: seq<Range>) returns (next: seq<Range>)
    requires Discerning(fp, Left(), Right()) && Truthful(fp, Right(), reply)
    requires exists r :: Leads(reply, 0, r) && r.bound == SECOND && r.payload.Fingerprint?
    requires EndsBelow(reply, Key(FIRST), true) && Fingerprints(reply) <= 16
    ensures ValidPeer(L(fp)) && next == Process(L(fp), Start(), reply).out
    ensures Truthful(fp, Left(), next) && EndsBelow(next, Key(FIRST), false)
    ensures exists r :: Leads(next, 0, r) && r.bound == SECOND && r.payload.IdList?
  {
    hide Key, ItemKey, Below, Left, Right, Process, Split, TruthfulFrom, Discerning, Consistent, Frame, OpenFrom, Fingerprints, Between;
    var c := L(fp);
    var r :| Leads(reply, 0, r) && r.bound == SECOND && r.payload.Fingerprint?;
    Stored(fp);
    FirstBounds();
    Distinguished(fp, Left(), Right(), 0, Key(SECOND));
    next := Process(c, Start(), reply).out;
    TurnTruthful(c, Right(), reply);
    TurnLeadFingerprint(c, Right(), reply, 0, r);
    SplitShort(c, 0, 1, SECOND);
    SplitOne(c, 0, 1, SECOND);
    assert Leads(next, 0, Split(c, 0, 1, SECOND)[0]);
    StartKept(c, Right());
    FrameEmpty();
    forall i | 0 <= i < |reply| ensures SmallAt(c, From(0, reply, i), reply[i]) {
      assert RangeTrue(fp, Right(), From(0, reply, i), reply[i]) by { TruthAt(fp, Right(), reply, i); }
      if reply[i].payload.Fingerprint? { BelowMonotone(Left(), Key(reply[i].bound), Key(FIRST)); }
    }
    assert [] + reply == reply;
    SmallRun(c, Right(), [], Start(), reply, Key(FIRST), false);
  }

  lemma TruthAt(fp: seq<Id> -> Hash, s: seq<Item>, m: seq<Range>, i: nat)
    requires Truthful(fp, s, m) && i < |m|
    ensures RangeTrue(fp, s, From(0, m, i), m[i])
  {}

  lemma SplitOne(c: Peer, lower: nat, upper: nat, bound: Bound)
    requires ValidPeer(c) && lower <= upper <= |c.items| && upper - lower < 32
    ensures Split(c, lower, upper, bound)[0].bound == bound
  {}

  lemma {:induction false} FittingStops(c: Peer, used: nat, n: nat, count: nat, most: nat)
    requires n <= most < count && Exceeded(c, used + 32 * most)
    ensures Fitting(c, used, n, count) <= most
    decreases count - n
  {
    if n < most && !Exceeded(c, used + 32 * n) { FittingStops(c, used, n + 1, count, most); }
  }

  /** A list too long for one frame cuts it, at or below the bound of the range it answers. */
  lemma CutsAtOnce(c: Peer, done: seq<Range>, p: Progress, r: Range)
    requires Placed(c, done, p) && p.out == [] && c.limit == 4096 && !c.initiator && r.payload.IdList?
    requires End(0, done) <= Key(r.bound) <= Key(MAX_BOUND)
    requires Below(c.items, Key(r.bound)) - Below(c.items, End(0, done)) == 125
    ensures Advance(c, p, r).cut.Some?
  {
    hide Key, Below, Truthful, Frame, LowerBound, Fitting;
    UpperIs(c, done, p, r);
    FrameEmpty();
    FittingStops(c, 1, 0, 125, 124);
    assert Full(c, Draw(c, p, r));
  }

  /** The responder has 125 identifiers to list first, and cuts its frame there. */
  lemma ThirdTurn(fp: seq<Id> -> Hash, next: seq<Range>)
    requires Truthful(fp, Left(), next)
    requires exists r :: Leads(next, 0, r) && r.bound == SECOND && r.payload.IdList?
    ensures ValidPeer(R(fp))
    ensures var q := Process(R(fp), Start(), next); q.cut.Some? && Key(q.cut.value) <= Key(FIRST)
  {
    hide Key, ItemKey, Below, Left, Right, TruthfulFrom, Consistent, Frame, OpenFrom, Balanced, Sound, Discerning, Lead, Advance;
    var c := R(fp);
    var r :| Leads(next, 0, r) && r.bound == SECOND && r.payload.IdList?;
    Stored(fp);
    ConsistentSwap(Left(), Right());
    FirstBounds();
    var p, q := AnswerLead(c, Left(), next);
    var done := next[..Lead(next)];
    CutsAtOnce(c, done, p, r);
    assert next[..Lead(next) + 1] == done + [r];
    EndSnoc(done, r);
  }

  // ---- The record reported twice

  /** Whatever fingerprint tells these storages apart, the finished conversation has reported the last
      record of the initiator, which only it holds, at least twice. */
  lemma ReportedTwice(fp: seq<Id> -> Hash, frames: seq<seq<Range>>)
    requires Discerning(fp, Left(), Right()) && Complete(L(fp), R(fp), frames)
    ensures LeftItem(31) in Left() && LeftItem(31) !in Right()
    ensures Have(L(fp), R(fp), frames, |frames| - 1)[LeftItem(31).id] >= 2
  {
    hide Key, ItemKey, Below, Right, Process, TruthfulFrom, Discerning, Consistent, OpenFrom, Opening, Have, Need, Reopened, Reopenings, EndsBelow;
    var l, r, x := L(fp), R(fp), LeftItem(31);
    OnlyLeft();
    Stored(fp);
    FirstBounds();
    OpeningStart(fp);
    var reply := FirstTurn(fp);
    var next := SecondTurn(fp, reply);
    ThirdTurn(fp, next);
    assert frames[1] == Turn(l, r, frames, 0).out;
    assert frames[2] == Turn(l, r, frames, 1).out;
    assert frames[2] == next && next != [];
    NotOpenAbove(next, Key(FIRST), x);
    ThirdReopens(l, r, frames, x);
    ReportsConserved(l, r, frames);
    ReopeningsZero(l, r, frames, |frames| - 1, x);
  }

  lemma ThirdReopens(l: Peer, r: Peer, frames: seq<seq<Range>>, x: Item)
    requires Peers(l, r) && 2 < |frames| && !Open(frames[2], x)
    requires var q := Process(r, Start(), frames[2]); q.cut.Some? && Key(q.cut.value) <= ItemKey(x)
    ensures Reopened(l, r, frames, 2, x)
  {
    hide Key, ItemKey, Process, Open;
  }

  lemma OnlyLeft()
    ensures LeftItem(31) in Left() && LeftItem(31) !in Right()
  {
    assert Left()[31] == LeftItem(31);
    if LeftItem(31) in Right() { var i := RightMember(LeftItem(31)); }
  }

  lemma NotOpenAbove(m: seq<Range>, k: nat, x: Item)
    requires EndsBelow(m, k, false) && k <= ItemKey(x)
    ensures !Open(m, x)
  {
    hide Key, ItemKey;
  }

  /** Such a fingerprint: these storages differ in their very first bytes. */
  function FirstBytes(ids: seq<Id>): Hash {
    if ids == [] then Zeros(16) else ids[0][..16]
  }

  lemma LeftBytes(a: nat, b: nat)
    requires a <= b
    ensures FirstBytes(Ids(Between(Left(), a, b)))[0] == if Between(Left(), a, b) == [] then 0 else 1
  {
    hide ItemKey, Below, Left, Between;
    Stored(FirstBytes);
    var s := Between(Left(), a, b);
    if s != [] {
      InBetween(Left(), a, b, s[0]);
      var i := LeftMember(s[0]);
    }
  }

  lemma RightBytes(a: nat, b: nat)
    requires a <= b
    ensures FirstBytes(Ids(Between(Right(), a, b)))[0] == if Between(Right(), a, b) == [] then 0 else 2
  {
    hide ItemKey, Below, Right, Between;
    Stored(FirstBytes);
    var s := Between(Right(), a, b);
    if s != [] {
      InBetween(Right(), a, b, s[0]);
      var i := RightMember(s[0]);
    }
  }

  lemma FirstBytesDiscern()
    ensures Discerning(FirstBytes, Left(), Right())
  {
    hide ItemKey, Between, Left, Right, FirstBytes;
    forall a: nat, b: nat | a <= b && FirstBytes(Ids(Between(Left(), a, b))) == FirstBytes(Ids(Between(Right(), a, b)))
      ensures Ids(Between(Left(), a, b)) == Ids(Between(Right(), a, b))
    {
      LeftBytes(a, b);
      RightBytes(a, b);
    }
  }

  /** There is a finished conversation, with fingerprints that can be relied on, that reports one
      identifier at least twice. */
  lemma NotAlwaysOnce() returns (frames: seq<seq<Range>>)
    ensures Complete(L(FirstBytes), R(FirstBytes), frames) && Discerning(FirstBytes, Left(), Right())
    ensures Have(L(FirstBytes), R(FirstBytes), frames, |frames| - 1)[LeftItem(31).id] >= 2
  {
    hide Discerning, IsRun, Have, Opening, Left, Right;
    var l, r := L(FirstBytes), R(FirstBytes);
    FirstBytesDiscern();
    Stored(FirstBytes);
    OpeningRuns(l, r);
    frames := RunsFinish(l, r, [Opening(l)]);
    ReportedTwice(FirstBytes, frames);
  }

  lemma OpeningRuns(l: Peer, r: Peer)
    requires Peers(l, r)
    ensures IsRun(l, r, [Opening(l)])
  {
    hide Opening, Peers;
  }
}
