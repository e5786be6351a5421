/** Why a conversation ends, even with cut frames: in each round the first range under discussion is
    answered in full, so either the records at or above its start become fewer, or its own do. */
module Termination {
  import opened Codec
  import opened Items
  import opened Wire
  import opened Steps
  import opened Truth
  import opened Ledger
  import opened Sizes

  // ---- The first range under discussion

  function Lead(m: seq<Range>): (i: nat)
    ensures i <= |m| && (forall j :: 0 <= j < i ==> m[j].payload.Skip?) && (i < |m| ==> !m[i].payload.Skip?)
  {
    if m == [] || !m[0].payload.Skip? then 0 else 1 + Lead(m[1..])
  }

  ghost predicate Leads(m: seq<Range>, a: nat, r: Range) {
    Lead(m) < |m| && From(0, m, Lead(m)) == a && m[Lead(m)] == r
  }

  lemma LeadIs(m: seq<Range>, i: nat)
    requires i < |m| && !m[i].payload.Skip? && forall j :: 0 <= j < i ==> m[j].payload.Skip?
    ensures Lead(m) == i
  {}

  /** Every range under discussion starts at or above key k. */
  ghost predicate StartsAt(m: seq<Range>, k: nat) {
    forall i :: 0 <= i < |m| && !m[i].payload.Skip? ==> k <= From(0, m, i)
  }

  // ---- How an answer grows

  /** The answer only grows, and a pending Skip is the first thing written. */
  ghost predicate Grows(p: Progress, q: Progress) {
    && p.out <= q.out
    && (|q.out| > |p.out| && p.skip ==> q.out[|p.out|] == Range(p.prev, Skip))
  }

  lemma AdvanceGrows(c: Peer, p: Progress, r: Range)
    requires ValidPeer(c) && p.index <= |c.items| && p.cut.None?
    ensures Grows(p, Advance(c, p, r)) || (Full(c, Draw(c, p, r)) && Draw(c, p, r).extra == [] && Draw(c, p, r).out == p.out)
  {
    hide Frame, LowerBound, Split, Fitting, Sift, Key, Exceeded;
  }

  lemma {:induction false} ProcessGrows(c: Peer, t: seq<Item>, done: seq<Range>, p: Progress, rest: seq<Range>)
    requires Pair(c, t) && Truthful(c.fingerprint, t, done + rest) && Kept(c, t, done, p)
    requires p.index <= |c.items|
    ensures p.out <= Process(c, p, rest).out
    decreases |rest|
  {
    hide Key, TruthfulFrom, OpenFrom, Consistent, Discerning, Advance, Sound, Balanced, Below;
    if rest != [] && p.cut.None? {
      Next(c, t, done, p, rest);
      ProcessGrows(c, t, done + [rest[0]], Advance(c, p, rest[0]), rest[1..]);
    }
  }

  /** One range further. */
  lemma Next(c: Peer, t: seq<Item>, done: seq<Range>, p: Progress, rest: seq<Range>)
    requires Pair(c, t) && Truthful(c.fingerprint, t, done + rest) && Kept(c, t, done, p)
    requires p.index <= |c.items| && rest != [] && p.cut.None?
    ensures Kept(c, t, done + [rest[0]], Advance(c, p, rest[0]))
    ensures done + [rest[0]] + rest[1..] == done + rest
    ensures RangeTrue(c.fingerprint, t, End(0, done), rest[0])
    ensures Grows(p, Advance(c, p, rest[0]))
  {
    hide Key, TruthfulFrom, OpenFrom, Consistent, Discerning, Advance, Frame, Below, Balanced, Sound, Draw;
    var r := rest[0];
    assert done + [r] + rest[1..] == done + rest;
    TruthfulAppend(c.fingerprint, t, 0, done + [r], rest[1..]);
    TruthfulAppend(c.fingerprint, t, 0, done, [r]);
    TruthfulOne(c.fingerprint, t, End(0, done), r);
    AdvanceKeeps(c, t, done, p, r);
    AdvanceGrows(c, p, r);
    var d := Draw(c, p, r);
    assert p.out + [] == p.out;
    NotFull(c, p, r);
  }

  lemma NotFull(c: Peer, p: Progress, r: Range)
    requires ValidPeer(c) && p.index <= |c.items| && !Exceeded(c, |Frame(p.out)|)
    ensures var d := Draw(c, p, r); Full(c, d) && d.extra == [] ==> d.out != p.out
  {
    hide Frame, LowerBound, Split, Fitting, Sift, Key, Exceeded;
    assert p.out + [] == p.out;
    var d := Draw(c, p, r);
    if d.truncated { assert |d.out| > |p.out|; }
  }

  lemma NewRangesStart(c: Peer, t: seq<Item>, done: seq<Range>, p: Progress, q: Progress, i: nat)
    requires Placed(c, done, p) && Grows(p, q) && Truthful(c.fingerprint, c.items, q.out)
    requires |p.out| <= i < |q.out| && !q.out[i].payload.Skip?
    ensures End(0, done) <= From(0, q.out, i)
  {
    hide Key, TruthfulFrom, Frame, Below;
    var n := |p.out|;
    assert p.out == q.out[..n];
    if p.skip {
      assert q.out[n] == Range(p.prev, Skip) && From(0, q.out, n + 1) == Key(p.prev);
      TruthfulAscends(c.fingerprint, c.items, 0, q.out, n + 1, i);
    } else {
      assert From(0, q.out, n) == End(0, p.out);
      TruthfulAscends(c.fingerprint, c.items, 0, q.out, n, i);
    }
  }

  /** What starts at or above k is answered at or above k. */
  lemma {:induction false} ProcessStarts(c: Peer, t: seq<Item>, done: seq<Range>, p: Progress, rest: seq<Range>, k: nat)
    requires Pair(c, t) && Truthful(c.fingerprint, t, done + rest) && Kept(c, t, done, p)
    requires p.index <= |c.items| && StartsAt(p.out, k)
    requires forall i :: 0 <= i < |rest| && !rest[i].payload.Skip? ==> k <= From(End(0, done), rest, i)
    ensures StartsAt(Process(c, p, rest).out, k)
    decreases |rest|
  {
    hide Key, TruthfulFrom, OpenFrom, Consistent, Discerning, Advance, Below, Frame, Balanced, Sound;
    if rest != [] && p.cut.None? {
      var r, q := rest[0], Advance(c, p, rest[0]);
      Next(c, t, done, p, rest);
      forall i | 0 <= i < |q.out| && !q.out[i].payload.Skip? ensures k <= From(0, q.out, i) {
        if i < |p.out| {
          assert p.out == q.out[..|p.out|];
          assert From(0, q.out, i) == From(0, p.out, i) && !p.out[i].payload.Skip?;
        } else {
          NewRangesStart(c, t, done, p, q, i);
          if r.payload.Skip? { SkipAddsNothing(c, done, p, r); }
          assert k <= From(End(0, done), rest, 0);
        }
      }
      forall i | 0 <= i < |rest[1..]| && !rest[1..][i].payload.Skip?
        ensures k <= From(End(0, done + [r]), rest[1..], i)
      {
        EndSnoc(done, r);
        assert k <= From(End(0, done), rest, i + 1);
      }
      ProcessStarts(c, t, done + [r], q, rest[1..], k);
    }
  }

  lemma SkipAddsNothing(c: Peer, done: seq<Range>, p: Progress, r: Range)
    requires Placed(c, done, p) && r.payload.Skip? && End(0, done) <= Key(r.bound) <= Key(MAX_BOUND)
    ensures Advance(c, p, r).out == p.out && Advance(c, p, r).cut.None?
  {
    hide Key, Frame, Truthful, Below;
    UpperIs(c, done, p, r);
    SettledStep(c, done, p, r);
  }

  // ---- The turn up to and including the first range under discussion

  /** Leading Skips are only remembered: the turn stands before the first range under discussion. */
  lemma {:induction false} ReachLead(c: Peer, t: seq<Item>, m: seq<Range>, i: nat) returns (p: Progress)
    requires Pair(c, t) && Truthful(c.fingerprint, t, m) && i <= Lead(m)
    ensures Kept(c, t, m[..i], p) && p.index <= |c.items| && p.cut.None? && p.out == []
    ensures Process(c, Start(), m) == Process(c, p, m[i..])
  {
    hide Key, TruthfulFrom, OpenFrom, Consistent, Discerning, Advance, Below, Frame, Balanced, Sound, Lead;
    if i == 0 {
      StartKept(c, t);
      p := Start();
      assert m[..0] == [] && m[0..] == m;
    } else {
      var before := ReachLead(c, t, m, i - 1);
      var rest := m[i - 1..];
      assert m[..i - 1] + rest == m && rest[0] == m[i - 1] && rest[1..] == m[i..] && m[..i - 1] + [rest[0]] == m[..i];
      Next(c, t, m[..i - 1], before, rest);
      SkipAddsNothing(c, m[..i - 1], before, rest[0]);
      p := Advance(c, before, rest[0]);
    }
  }

  /** The answer to the first range under discussion, before the rest of the frame is looked at. */
  lemma AnswerLead(c: Peer, t: seq<Item>, m: seq<Range>) returns (p: Progress, q: Progress)
    requires Pair(c, t) && Truthful(c.fingerprint, t, m) && Lead(m) < |m|
    ensures var i := Lead(m);
            && Placed(c, m[..i], p) && p.out == [] && q == Advance(c, p, m[i])
            && Kept(c, t, m[..i + 1], q) && q.index <= |c.items|
            && RangeTrue(c.fingerprint, t, From(0, m, i), m[i])
            && End(0, m[..i]) == From(0, m, i)
            && Process(c, Start(), m) == Process(c, q, m[i + 1..])
  {
    hide Key, TruthfulFrom, OpenFrom, Consistent, Discerning, Advance, Below, Frame, Balanced, Sound, Lead;
    var i := Lead(m);
    p := ReachLead(c, t, m, i);
    var rest := m[i..];
    assert m[..i] + rest == m && rest[0] == m[i] && rest[1..] == m[i + 1..] && m[..i] + [rest[0]] == m[..i + 1];
    Next(c, t, m[..i], p, rest);
    q := Advance(c, p, m[i]);
  }

  /** What becomes of the first range under discussion in one turn. */
  ghost predicate LeadSettled(m: seq<Range>, out: seq<Range>, b: nat) {
    StartsAt(out, b) && (Lead(m) + 1 == |m| ==> out == [])
  }

  ghost predicate LeadSplit(c: Peer, t: seq<Item>, a: nat, r: Range, out: seq<Range>)
    requires ValidPeer(c)
  {
    var lower, upper := Below(c.items, a), Below(c.items, Key(r.bound));
    && r.payload.Fingerprint? && lower <= upper <= |c.items|
    && Ids(Between(c.items, a, Key(r.bound))) != Ids(Between(t, a, Key(r.bound)))
    && Split(c, lower, upper, r.bound) != []
    && Leads(out, a, Split(c, lower, upper, r.bound)[0])
  }

  ghost predicate LeadListed(c: Peer, m: seq<Range>, a: nat, r: Range, out: seq<Range>, listed: Range) {
    && r.payload.IdList? && listed.payload.IdList? && Leads(out, a, listed)
    && a <= Key(listed.bound) <= Key(r.bound)
    && (Below(c.items, a) < Below(c.items, Key(listed.bound))
        || (listed.bound == r.bound && (Lead(m) + 1 == |m| ==> Lead(out) + 1 == |out|)))
  }

  lemma PendingLeads(p: Progress, done: seq<Range>, c: Peer, block: seq<Range>, out: seq<Range>)
    requires Placed(c, done, p) && p.out == [] && block != [] && !block[0].payload.Skip?
    requires Pending(p) + block <= out
    ensures Leads(out, End(0, done), block[0]) && Lead(out) == |Pending(p)|
  {
    hide Key, Truthful, Frame, Below;
    var n := |Pending(p)|;
    assert out[n] == (Pending(p) + block)[n] == block[0];
    assert n > 0 ==> out[0] == (Pending(p) + block)[0] == Range(p.prev, Skip);
    LeadIs(out, n);
  }

  lemma SettledLead(c: Peer, t: seq<Item>, m: seq<Range>, q: Progress)
    requires Pair(c, t) && Truthful(c.fingerprint, t, m) && Lead(m) < |m|
    requires Kept(c, t, m[..Lead(m) + 1], q) && q.index <= |c.items| && q.out == []
    ensures LeadSettled(m, Process(c, q, m[Lead(m) + 1..]).out, Key(m[Lead(m)].bound))
  {
    hide Key, TruthfulFrom, OpenFrom, Consistent, Discerning, Below, Frame, Balanced, Sound, Lead;
    var i := Lead(m);
    var done, rest, b := m[..i + 1], m[i + 1..], Key(m[i].bound);
    assert done + rest == m;
    assert End(0, done) == b;
    forall j | 0 <= j < |rest| && !rest[j].payload.Skip? ensures b <= From(b, rest, j) {
      assert From(b, rest, j) == From(0, m, i + 1 + j);
      TruthfulAscends(c.fingerprint, t, 0, m, i + 1, i + 1 + j);
    }
    ProcessStarts(c, t, done, q, rest, b);
  }

  lemma TurnLeadFingerprint(c: Peer, t: seq<Item>, m: seq<Range>, a: nat, r: Range)
    requires Pair(c, t) && Truthful(c.fingerprint, t, m) && Leads(m, a, r) && r.payload.Fingerprint?
    ensures var out := Process(c, Start(), m).out;
            if c.fingerprint(Ids(Between(c.items, a, Key(r.bound)))) == c.fingerprint(Ids(Between(t, a, Key(r.bound))))
            then LeadSettled(m, out, Key(r.bound))
            else LeadSplit(c, t, a, r, out)
  {
    hide Key, TruthfulFrom, OpenFrom, Consistent, Discerning, Below, Frame, Balanced, Sound, Lead, Split, LowerBound, Between,
         Advance, Exceeded, Pending;
    var i := Lead(m);
    var p, q := AnswerLead(c, t, m);
    var done, rest := m[..i], m[i + 1..];
    FirstSplit(c, t, done, p, r);
    if q.out == [] {
      SettledLead(c, t, m, q);
    } else {
      var split := Split(c, Below(c.items, a), Below(c.items, Key(r.bound)), r.bound);
      assert m[..i + 1] + rest == m;
      ProcessGrows(c, t, m[..i + 1], q, rest);
      PendingLeads(p, done, c, split, Process(c, q, rest).out);
    }
  }

  /** As the first answer of a frame, a fingerprint is found equal or its range is split and fits. */
  lemma FirstSplit(c: Peer, t: seq<Item>, done: seq<Range>, p: Progress, r: Range)
    requires Pair(c, t) && Placed(c, done, p) && p.out == [] && RangeTrue(c.fingerprint, t, End(0, done), r)
    requires r.payload.Fingerprint?
    ensures var a, q := End(0, done), Advance(c, p, r);
            var lower, upper := Below(c.items, a), Below(c.items, Key(r.bound));
            && lower <= upper <= |c.items| && q.cut.None?
            && if c.fingerprint(Ids(Between(c.items, a, Key(r.bound)))) == c.fingerprint(Ids(Between(t, a, Key(r.bound))))
               then q.out == []
               else var split := Split(c, lower, upper, r.bound);
                    q.out == Pending(p) + split && split != [] && !split[0].payload.Skip?
  {
    hide Key, Truthful, Below, Frame, Split, LowerBound, Between, Exceeded, Pending;
    UpperIs(c, done, p, r);
    SpanIsBetween(c, End(0, done), Key(r.bound));
    if r.payload.hash == Hashed(c, p.index, Upper(c, p, r)) {
      SettledStep(c, done, p, r);
    } else {
      var split := Split(c, p.index, Upper(c, p, r), r.bound);
      SplitTruthful(c, End(0, done), r.bound);
      FirstSplitFits(c, p, p.index, Upper(c, p, r), r.bound);
      assert [] + (Pending(p) + split) == Pending(p) + split;
    }
  }

  lemma TurnLeadReported(c: Peer, t: seq<Item>, m: seq<Range>, a: nat, r: Range)
    requires Pair(c, t) && Truthful(c.fingerprint, t, m) && Leads(m, a, r) && r.payload.IdList? && c.initiator
    ensures LeadSettled(m, Process(c, Start(), m).out, Key(r.bound))
  {
    hide Key, TruthfulFrom, OpenFrom, Consistent, Discerning, Below, Frame, Balanced, Sound, Lead, Split, LowerBound, Sift;
    var p, q := AnswerLead(c, t, m);
    SettledStep(c, m[..Lead(m)], p, r);
    SettledLead(c, t, m, q);
  }

  lemma TurnLeadIdList(c: Peer, t: seq<Item>, m: seq<Range>, a: nat, r: Range) returns (listed: Range)
    requires Pair(c, t) && Truthful(c.fingerprint, t, m) && Leads(m, a, r) && r.payload.IdList? && !c.initiator
    ensures LeadListed(c, m, a, r, Process(c, Start(), m).out, listed)
  {
    hide Key, TruthfulFrom, OpenFrom, Consistent, Discerning, Below, Frame, Balanced, Sound, Lead, Advance, Pending;
    var i := Lead(m);
    var p, q := AnswerLead(c, t, m);
    var done, rest := m[..i], m[i + 1..];
    listed := FirstList(c, done, p, r);
    assert m[..i + 1] + rest == m;
    ProcessGrows(c, t, m[..i + 1], q, rest);
    PendingLeads(p, done, c, [listed], Process(c, q, rest).out);
  }

  lemma FirstList(c: Peer, done: seq<Range>, p: Progress, r: Range) returns (listed: Range)
    requires Placed(c, done, p) && p.out == [] && r.payload.IdList? && !c.initiator
    requires End(0, done) <= Key(r.bound) <= Key(MAX_BOUND)
    ensures var a, out := End(0, done), Advance(c, p, r).out;
            && listed.payload.IdList? && Pending(p) + [listed] <= out
            && a <= Key(listed.bound) <= Key(r.bound)
            && (Below(c.items, a) < Below(c.items, Key(listed.bound))
                || (listed.bound == r.bound && out == Pending(p) + [listed]))
  {
    hide Key, Truthful, Below, Frame, LowerBound, Fitting, Exceeded;
    UpperIs(c, done, p, r);
    var d := Draw(c, p, r);
    var end := d.upper;
    listed := Range(if d.truncated then FromItem(c.items[end]) else r.bound, IdList(Span(c, p.index, end)));
    ListBound(c, End(0, done), r.bound, d.truncated, end);
    assert d.out == Pending(p) + [listed];
    if end == p.index {
      if d.truncated { FirstIdFits(c, p, Upper(c, p, r) - p.index); }
      FirstListFits(c, p, listed);
      assert d.out + [] == d.out;
    }
  }

  /** The first answer lists at least one identifier, if there is one. */
  lemma FirstIdFits(c: Peer, p: Progress, count: nat)
    requires ValidPeer(c) && p.out == [] && count > 0
    ensures Fitting(c, |Frame(p.out)|, 0, count) > 0
  {
    FrameEmpty();
  }

  lemma FirstListFits(c: Peer, p: Progress, listed: Range)
    requires ValidPeer(c) && p.out == [] && listed.payload == IdList([])
    ensures !Exceeded(c, |Frame(Pending(p) + [listed])|)
  {
    hide Frame;
    FrameEmpty();
    PendingLength(p);
    assert [] + Pending(p) == Pending(p);
    FrameSnoc(Pending(p), listed);
  }
}
