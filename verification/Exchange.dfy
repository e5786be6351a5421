/** Two sessions exchanging frames until the initiator has nothing left to ask. */
module Exchange {
  import opened Wrappers
  import opened Codec
  import opened Items
  import opened Wire
  import opened Validation
  import opened Steps
  import opened Truth
  import opened Ledger
  import opened Sizes
  import opened Conversation
  import opened Rounds
  import opened UncutRuns
  import opened Openings
  import opened Engine
  import Sessions = Session

  /** A truthful frame never holds more identifiers than its sender's storage. */
  lemma TruthfulCountable(fp: seq<Id> -> Hash, s: seq<Item>, m: seq<Range>)
    requires Truthful(fp, s, m) && |s| <= MAX_U64
    ensures Countable(m)
  {
    hide Key, Below;
    forall i | 0 <= i < |m| && m[i].payload.IdList? ensures |m[i].payload.ids| <= MAX_U64 {
      assert RangeTrue(fp, s, From(0, m, i), m[i]);
    }
  }

  /** What the engine answers, byte for byte, to a truthful frame is the answer to its ranges. */
  lemma ReplyToFrame(c: Peer, fp: seq<Id> -> Hash, s: seq<Item>, m: seq<Range>)
    requires ValidPeer(c) && Truthful(fp, s, m) && |s| <= MAX_U64
    ensures AcceptsFrame(Frame(m))
    ensures var q := Process(c, Start(), m); Reply(c, Frame(m)) == Ok(Answer(Frame(q.out), q.have, q.need))
  {
    hide Key, Process, RangesBytes, ReadRanges, Truthful, Accepts;
    TruthfulCountable(fp, s, m);
    TruthfulOrdered(fp, s, m);
    OrderedTimes(m);
    WrittenFrameAccepted(m);
    FrameRoundTrip(m);
    assert Frame(m)[0] == PROTOCOL_VERSION;
  }

  lemma FrameLengthOne(m: seq<Range>)
    ensures |Frame(m)| == 1 <==> m == []
  {
    hide RangesBytes;
    RangesBytesNone(0);
    if m != [] { RangesBytesSome(0, m); }
  }

  lemma StartFits(c: Peer, m: seq<Range>)
    requires ValidPeer(c) && c.limit > 0
    ensures |Frame(Process(c, Start(), m).out)| <= c.limit
  {
    hide Frame;
    FrameEmpty();
    AnswerFits(c, Start(), m);
  }

  // ---- The run, one round at a time

  lemma OpeningRun(l: Peer, r: Peer)
    requires Peers(l, r)
    ensures IsRun(l, r, [Opening(l)])
  {
    hide Opening, Peers;
  }

  function OneRound(l: Peer, r: Peer, frames: seq<seq<Range>>): seq<seq<Range>>
    requires ValidPeer(l) && ValidPeer(r) && frames != []
  {
    var reply := Process(r, Start(), frames[|frames| - 1]).out;
    frames + [reply, Process(l, Start(), reply).out]
  }

  lemma {:induction false} SameHistory(l: Peer, r: Peer, frames: seq<seq<Range>>, more: seq<seq<Range>>, n: nat)
    requires Peers(l, r) && frames <= more && n <= |frames|
    ensures Have(l, r, more, n) == Have(l, r, frames, n) && Need(l, r, more, n) == Need(l, r, frames, n)
  {
    hide Process, Peers, Have, Need;
    if n == 0 {
      HaveNothing(l, r, frames);
      HaveNothing(l, r, more);
    } else {
      SameHistory(l, r, frames, more, n - 1);
      assert more[n - 1] == frames[n - 1];
      HaveOneTurn(l, r, frames, n - 1);
      HaveOneTurn(l, r, more, n - 1);
    }
  }

  lemma RunTruthful(l: Peer, r: Peer, frames: seq<seq<Range>>, n: nat)
    requires IsRun(l, r, frames) && n < |frames|
    ensures Truthful(l.fingerprint, Sender(l, r, n).items, frames[n])
  {
    hide Opening, Turn, Truthful;
    RunStands(l, r, frames, n);
  }

  lemma RoundReports(l: Peer, r: Peer, frames: seq<seq<Range>>)
    requires IsRun(l, r, frames) && |frames| % 2 == 1 && frames[|frames| - 1] != []
    ensures var more, n := OneRound(l, r, frames), |frames|;
            var q := Process(l, Start(), more[n]);
            && IsRun(l, r, more)
            && Have(l, r, more, n + 1) == Have(l, r, frames, n - 1) + q.have
            && Need(l, r, more, n + 1) == Need(l, r, frames, n - 1) + q.need
            && Truthful(l.fingerprint, r.items, more[n]) && Truthful(l.fingerprint, l.items, more[n + 1])
  {
    hide Process, Truthful, Have, Need, IsRun, Turn;
    RunPeers(l, r, frames);
    var more, n := OneRound(l, r, frames), |frames|;
    RoundIsRun(l, r, frames);
    SameHistory(l, r, frames, more, n - 1);
    RunTruthful(l, r, more, n);
    RunTruthful(l, r, more, n + 1);
    HaveTwoTurns(l, r, more, n);
  }

  lemma RoundIsRun(l: Peer, r: Peer, frames: seq<seq<Range>>)
    requires IsRun(l, r, frames) && |frames| % 2 == 1 && frames[|frames| - 1] != []
    ensures IsRun(l, r, OneRound(l, r, frames))
  {
    hide Process, Opening, ValidPeer, Consistent;
    RunExtends(l, r, frames, OneRound(l, r, frames));
  }

  lemma HaveTwoTurns(l: Peer, r: Peer, frames: seq<seq<Range>>, n: nat)
    requires Peers(l, r) && n + 1 < |frames| && n % 2 == 1
    ensures Have(l, r, frames, n + 1) == Have(l, r, frames, n - 1) + Process(l, Start(), frames[n]).have
    ensures Need(l, r, frames, n + 1) == Need(l, r, frames, n - 1) + Process(l, Start(), frames[n]).need
  {
    hide Process, ValidPeer, Consistent;
    HaveOneTurn(l, r, frames, n);
    HaveOneTurn(l, r, frames, n - 1);
  }

  lemma HaveOneTurn(l: Peer, r: Peer, frames: seq<seq<Range>>, n: nat)
    requires Peers(l, r) && n < |frames|
    ensures Have(l, r, frames, n + 1) == Have(l, r, frames, n) + if n % 2 == 1 then Process(l, Start(), frames[n]).have else multiset{}
    ensures Need(l, r, frames, n + 1) == Need(l, r, frames, n) + if n % 2 == 1 then Process(l, Start(), frames[n]).need else multiset{}
  {
    hide Process, ValidPeer, Consistent;
  }

  // ---- The exchange

  /** Have and need of a finished exchange: sound always, complete if equal fingerprints can be relied on. */
  ghost predicate Exact(l: Peer, r: Peer, have: seq<Id>, need: seq<Id>) {
    && (forall id :: id in have ==> Alone(l.items, r.items, id))
    && (forall id :: id in need ==> Alone(r.items, l.items, id))
    && (Discerning(l.fingerprint, l.items, r.items) ==>
          && (forall id :: Alone(l.items, r.items, id) ==> id in have)
          && (forall id :: Alone(r.items, l.items, id) ==> id in need))
  }

  lemma ExactIfComplete(l: Peer, r: Peer, frames: seq<seq<Range>>, have: seq<Id>, need: seq<Id>)
    requires Complete(l, r, frames)
    requires multiset(have) == Have(l, r, frames, |frames| - 1) && multiset(need) == Need(l, r, frames, |frames| - 1)
    ensures Exact(l, r, have, need)
  {
    hide Discerning, Alone, Have, Need, Turn, Opening, Peers;
    ReportsConserved(l, r, frames);
    assert forall id :: id in have <==> id in multiset(have);
    assert forall id :: id in need <==> id in multiset(need);
    if Discerning(l.fingerprint, l.items, r.items) { ExactReconciliation(l, r, frames); }
  }

  /** Every difference is found once, if equal fingerprints can be relied on. */
  ghost predicate Once(l: Peer, r: Peer, have: seq<Id>, need: seq<Id>) {
    Discerning(l.fingerprint, l.items, r.items) ==>
      forall x | Differs(l.items, r.items, x) :: multiset(if x in l.items then have else need)[x.id] == 1
  }

  lemma OnceIfUncut(l: Peer, r: Peer, frames: seq<seq<Range>>, have: seq<Id>, need: seq<Id>)
    requires Complete(l, r, frames)
    requires Spacious(l.limit, |l.items| + |r.items|) && Spacious(r.limit, |l.items| + |r.items|)
    requires multiset(have) == Have(l, r, frames, |frames| - 1) && multiset(need) == Need(l, r, frames, |frames| - 1)
    ensures Once(l, r, have, need)
  {
    hide Discerning, Have, Need, Turn, Opening, Spacious, Peers;
    if Discerning(l.fingerprint, l.items, r.items) {
      forall x | Differs(l.items, r.items, x) ensures multiset(if x in l.items then have else need)[x.id] == 1 {
        UncutReportsOnce(l, r, frames, x);
      }
    }
  }

  /** How many rounds two peers need at most: few if no frame can be cut. */
  function RoundsNeeded(l: Peer, r: Peer): nat { RoundsFor(|l.items|, |r.items|, l.limit) }

  function RoundsFor(n: nat, m: nat, limit: nat): (rounds: nat)
    ensures rounds >= 2
  {
    if Spacious(limit, n + m) then Splits(n) + 2 else MaxRoundsFor(n, m) + 1
  }

  lemma RunsWithinNeeded(l: Peer, r: Peer, frames: seq<seq<Range>>)
    requires IsRun(l, r, frames) && l.limit == r.limit
    ensures |frames| <= 2 * RoundsNeeded(l, r) - 1
  {
    hide IsRun, MaxRoundsFor, Splits;
    RunPeers(l, r, frames);
    if Spacious(l.limit, |l.items| + |r.items|) {
      AmpleNeverCut(l, r, frames);
      UncutRunsAreShort(l, r, frames);
    } else {
      RunsAreShort(l, r, frames);
    }
  }

  // ---- What the two sessions know of the run

  /** It is the responder's turn. */
  ghost predicate Ongoing(l: Peer, r: Peer, frames: seq<seq<Range>>, query: seq<byte>, have: seq<Id>, need: seq<Id>) {
    && IsRun(l, r, frames) && |frames| % 2 == 1 && frames[|frames| - 1] != []
    && query == Frame(frames[|frames| - 1]) && |query| <= l.limit && l.limit == r.limit > 0
    && multiset(have) == Have(l, r, frames, |frames| - 1)
    && multiset(need) == Need(l, r, frames, |frames| - 1)
  }

  lemma PeersFrom(c: Peer, l: Peer, r: Peer)
    requires ValidPeer(c) && ValidPeer(r) && !r.initiator && l == c.(initiator := true)
    requires c.fingerprint == r.fingerprint && Consistent(c.items, r.items)
    ensures Peers(l, r)
  {}

  lemma OpeningSent(c: Peer, l: Peer, r: Peer, last: u64) returns (frames: seq<seq<Range>>)
    requires ValidPeer(c) && Peers(l, r) && l == c.(initiator := true) && l.limit == r.limit > 0
    requires last == 0 || !Displaceable(c)
    ensures Ongoing(l, r, frames, [PROTOCOL_VERSION] + RangesBytes(last, Opening(l)), [], []) && |frames| == 1
    ensures RoundsNeeded(l, r) > 0
  {
    hide Opening, RangesBytes, RoundsNeeded, Have, Need, Consistent;
    frames := [Opening(l)];
    OpeningReads(l, last);
    PlainBytes(last, Opening(l));
    OpeningRun(l, r);
    RunsWithinNeeded(l, r, frames);
    OpeningFits(l);
    OpeningTruthful(l);
    HaveNothing(l, r, frames);
  }

  /** What both sessions make of the frames of one round. */
  lemma RoundTaken(l: Peer, r: Peer, frames: seq<seq<Range>>, query: seq<byte>, have: seq<Id>, need: seq<Id>)
    returns (reply: seq<byte>, answer: Answer)
    requires Ongoing(l, r, frames, query, have, need)
    ensures ValidPeer(l) && ValidPeer(r)
    ensures AcceptsFrame(query) && Reply(r, query).Ok? && Reply(r, query).value.frame == reply
    ensures |query| <= l.limit && |reply| <= l.limit
    ensures AcceptsFrame(reply) && Reply(l, reply) == Ok(answer)
    ensures |frames| + 2 <= 2 * RoundsNeeded(l, r) - 1
    ensures var more, n := OneRound(l, r, frames), |frames|;
            && answer == Answer(Frame(more[n + 1]), Process(l, Start(), more[n]).have, Process(l, Start(), more[n]).need)
            && more[n] == Process(r, Start(), frames[n - 1]).out && |answer.frame| <= l.limit
  {
    hide Truthful, Process, Have, Need, Frame, Reply, AcceptsFrame, IsRun, RoundsNeeded;
    RunPeers(l, r, frames);
    var m, more, n := frames[|frames| - 1], OneRound(l, r, frames), |frames|;
    RunTruthful(l, r, frames, n - 1);
    RoundReports(l, r, frames);
    RunsWithinNeeded(l, r, more);
    ReplyToFrame(r, l.fingerprint, l.items, m);
    StartFits(r, m);
    ReplyToFrame(l, l.fingerprint, r.items, more[n]);
    StartFits(l, more[n]);
    reply := Frame(more[n]);
    answer := Answer(Frame(more[n + 1]), Process(l, Start(), more[n]).have, Process(l, Start(), more[n]).need);
  }

  /** After it, the conversation goes on or has found what it was for. */
  lemma RoundSent(l: Peer, r: Peer, frames: seq<seq<Range>>, query: seq<byte>, have: seq<Id>, need: seq<Id>,
                  answer: Answer, haveAll: seq<Id>, needAll: seq<Id>)
    returns (more: seq<seq<Range>>)
    requires Ongoing(l, r, frames, query, have, need) && ValidPeer(l) && ValidPeer(r) && |answer.frame| <= l.limit
    requires var next, n := OneRound(l, r, frames), |frames|;
             answer == Answer(Frame(next[n + 1]), Process(l, Start(), next[n]).have, Process(l, Start(), next[n]).need)
    requires multiset(haveAll) == multiset(have) + answer.have && multiset(needAll) == multiset(need) + answer.need
    ensures |more| == |frames| + 2
    ensures |answer.frame| != 1 ==> Ongoing(l, r, more, answer.frame, haveAll, needAll)
    ensures |answer.frame| == 1 ==>
              && Exact(l, r, haveAll, needAll)
              && (Spacious(l.limit, |l.items| + |r.items|) ==> Once(l, r, haveAll, needAll))
  {
    hide Truthful, Process, Have, Need, Frame, IsRun, Exact, Once, Spacious, RoundsNeeded;
    more := OneRound(l, r, frames);
    RoundReports(l, r, frames);
    FrameLengthOne(more[|frames| + 1]);
    if |answer.frame| == 1 {
      CompleteNow(l, r, more);
      ExactIfComplete(l, r, more, haveAll, needAll);
      if Spacious(l.limit, |l.items| + |r.items|) { OnceIfUncut(l, r, more, haveAll, needAll); }
    }
  }

  /** Alternates two sessions with one frame limit, of which the first may have answered frames before but writes
      its opening as it is meant. It can fail only by exhausting a round limit, and not if enough rounds are left. */
  method Differences(a: Sessions.Session, b: Sessions.Session)
    returns (result: Result<()>, have: seq<Id>, need: seq<Id>)
    requires a.Valid() && b.Valid() && a != b && a.engine != b.engine
    requires !a.finished && !b.finished
    requires !a.engine.isInitiator && !b.engine.isInitiator
    requires a.engine.lastTimestampOut == 0 || !Displaceable(a.Self())
    requires a.limits.maxFrameBytes == b.limits.maxFrameBytes
    requires a.engine.fingerprint == b.engine.fingerprint
    requires Consistent(a.engine.items, b.engine.items)
    modifies a, b, a.engine, b.engine
    ensures result.Err? ==> result.error == SessionOver
    ensures result.Ok? ==> Exact(old(a.Self()).(initiator := true), old(b.Self()), have, need)
    ensures result.Ok? && Spacious(a.limits.maxFrameBytes, |a.engine.items| + |b.engine.items|) ==>
              Once(old(a.Self()).(initiator := true), old(b.Self()), have, need)
    ensures var rounds := RoundsNeeded(old(a.Self()).(initiator := true), old(b.Self()));
            old(a.rounds) + rounds <= a.limits.maxRounds && old(b.rounds) + rounds <= b.limits.maxRounds ==> result.Ok?
  {
    hide Exact, Once, Ongoing, RoundsNeeded, Displaceable, RangesBytes, Opening, Spacious, Reply, AcceptsFrame, Peers, Consistent,
         Process, Frame, OneRound, Start, Written,
         ValidPeer;
    ghost var l, r := a.Self().(initiator := true), b.Self();
    PeersFrom(a.Self(), l, r);
    have, need := [], [];
    ghost var frames := OpeningSent(a.Self(), l, r, a.engine.lastTimestampOut);
    var opening := a.Initiate();
    var query;
    match opening {
      case Err(e) => return Err(e), have, need;
      case Ok(frame) => query := frame;
    }
    while true
      invariant a.Valid() && b.Valid() && a.Self() == l && b.Self() == r
      invariant !a.finished && !b.finished
      invariant Ongoing(l, r, frames, query, have, need)
      invariant 2 * (a.rounds - old(a.rounds)) == |frames| + 1 && 2 * (b.rounds - old(b.rounds)) == |frames| - 1
      decreases 2 * RoundsNeeded(l, r) - |frames|
    {
      ghost var reply, answer := RoundTaken(l, r, frames, query, have, need);
      var response := b.Respond(query);
      if response.Err? { return Err(response.error), have, need; }
      var step := a.Reconcile(response.value);
      if step.Err? { return Err(step.error), have, need; }
      frames := RoundSent(l, r, frames, query, have, need, answer, have + step.value.have, need + step.value.need);
      have, need := have + step.value.have, need + step.value.need;
      match step.value.next {
        case Some(next) => query := next;
        case None => return Ok(()), have, need;
      }
    }
  }

  // ---- Two lists of records

  /** A record of the window that only the first list holds. */
  ghost predicate OnlyIn(mine: seq<Item>, other: seq<Item>, since: u64, until: u64, x: Item) {
    x in mine && x !in other && since <= x.timestamp <= until
  }

  lemma AloneInWindow(s: seq<Item>, t: seq<Item>, mine: seq<Item>, other: seq<Item>, since: u64, until: u64, id: Id)
    requires forall x :: x in s <==> x in mine && since <= x.timestamp <= until
    requires forall x :: x in t <==> x in other && since <= x.timestamp <= until
    ensures Alone(s, t, id) <==> exists x :: OnlyIn(mine, other, since, until, x) && x.id == id
  {
    if Alone(s, t, id) {
      var x :| x in s && x !in t && x.id == id;
      assert OnlyIn(mine, other, since, until, x);
    }
    if exists x :: OnlyIn(mine, other, since, until, x) && x.id == id {
      var x :| OnlyIn(mine, other, since, until, x) && x.id == id;
      assert x in s && x !in t;
    }
  }

  /** The sorted snapshot of the window's records. */
  ghost predicate Snapshot(s: seq<Item>, records: seq<Item>, since: u64, until: u64) {
    Sealed(s) && forall x :: x in s <==> x in records && since <= x.timestamp <= until
  }

  /** Where the fingerprints of one stretch of the two snapshots agree, so do its records. */
  ghost predicate Trusted(fp: seq<Id> -> Hash, mine: seq<Item>, other: seq<Item>, since: u64, until: u64) {
    forall s, t :: Snapshot(s, mine, since, until) && Snapshot(t, other, since, until) ==> Discerning(fp, s, t)
  }

  /** Reconciles two lists of records over a window they agree on: what is found are exactly the identifiers of the
      window's records, those of its first and last second included, that one of the lists lacks. */
  method ReconcileRecords(mine: seq<Item>, other: seq<Item>, filter: Sessions.Filter, limits: Sessions.Limits,
                          fingerprint: seq<Id> -> Hash)
    returns (result: Result<()>, have: seq<Id>, need: seq<Id>)
    requires forall x, y :: (x in mine || x in other) && (y in mine || y in other) && x.id == y.id ==> x == y
    ensures filter.since <= filter.until < MAX_U64 && 0 < limits.maxRecords <= 1_000_000
            && 4096 <= limits.maxFrameBytes <= 65_536
            && |Sessions.WindowIds(mine, filter)| <= limits.maxRecords && |Sessions.WindowIds(other, filter)| <= limits.maxRecords
            && RoundsFor(|Sessions.WindowIds(mine, filter)|, |Sessions.WindowIds(other, filter)|, limits.maxFrameBytes)
               <= limits.maxRounds
            ==> result.Ok?
    ensures result.Ok? ==>
              && (forall id :: id in have ==> exists x :: OnlyIn(mine, other, filter.since, filter.until, x) && x.id == id)
              && (forall id :: id in need ==> exists x :: OnlyIn(other, mine, filter.since, filter.until, x) && x.id == id)
    ensures result.Ok? && Trusted(fingerprint, mine, other, filter.since, filter.until) ==>
              && (forall x :: OnlyIn(mine, other, filter.since, filter.until, x) ==> x.id in have)
              && (forall x :: OnlyIn(other, mine, filter.since, filter.until, x) ==> x.id in need)
  {
    hide Once, Displaceable, RoundsFor, Spacious, Discerning, Alone, OnlyIn, Sealed;
    have, need := [], [];
    var first := Sessions.Session.New(mine, filter, limits, fingerprint);
    if first.Err? { return Err(first.error), have, need; }
    var second := Sessions.Session.New(other, filter, limits, fingerprint);
    if second.Err? { return Err(second.error), have, need; }
    var a, b := first.value, second.value;
    ghost var s, t := a.engine.items, b.engine.items;
    assert Snapshot(s, mine, filter.since, filter.until) && Snapshot(t, other, filter.since, filter.until);
    result, have, need := Differences(a, b);
    if result.Ok? {
      forall id ensures Alone(s, t, id) <==> exists x :: OnlyIn(mine, other, filter.since, filter.until, x) && x.id == id {
        AloneInWindow(s, t, mine, other, filter.since, filter.until, id);
      }
      forall id ensures Alone(t, s, id) <==> exists x :: OnlyIn(other, mine, filter.since, filter.until, x) && x.id == id {
        AloneInWindow(t, s, other, mine, filter.since, filter.until, id);
      }
    }
  }

  lemma HaveNothing(l: Peer, r: Peer, frames: seq<seq<Range>>)
    requires Peers(l, r)
    ensures Have(l, r, frames, 0) == multiset{} && Need(l, r, frames, 0) == multiset{}
  {}

  lemma CompleteNow(l: Peer, r: Peer, frames: seq<seq<Range>>)
    requires IsRun(l, r, frames) && |frames| % 2 == 1 && frames[|frames| - 1] == []
    ensures Complete(l, r, frames)
  {}
}
