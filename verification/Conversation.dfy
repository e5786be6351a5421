/** Whole conversations: the frames two peers exchange until the initiator has nothing left to ask, and
    what the initiator has then reported. */
module Conversation {
  import opened Codec
  import opened Items
  import opened Wire
  import opened Steps
  import opened Truth
  import opened Ledger

  /** An initiator and a responder that share their fingerprint function and the meaning of identifiers. */
  ghost predicate Peers(l: Peer, r: Peer) {
    && ValidPeer(l) && ValidPeer(r) && l.initiator && !r.initiator
    && l.fingerprint == r.fingerprint && Consistent(l.items, r.items)
  }

  /** Who receives frame i: the responder gets the initiator's frames 0, 2, 4, ... */
  function Receiver(l: Peer, r: Peer, i: nat): Peer { if i % 2 == 0 then r else l }

  function Sender(l: Peer, r: Peer, i: nat): Peer { if i % 2 == 0 then l else r }

  function Turn(l: Peer, r: Peer, frames: seq<seq<Range>>, i: nat): Progress
    requires ValidPeer(l) && ValidPeer(r) && i < |frames|
  {
    Process(Receiver(l, r, i), Start(), frames[i])
  }

  /** The frames of a conversation so far; an initiator with an empty answer sends nothing more. */
  ghost predicate IsRun(l: Peer, r: Peer, frames: seq<seq<Range>>) {
    && Peers(l, r) && frames != []
    && frames[0] == Opening(l)
    && (forall i :: 0 <= i < |frames| - 1 ==> frames[i + 1] == Turn(l, r, frames, i).out)
    && (forall i :: 0 <= i < |frames| - 1 && i % 2 == 0 ==> frames[i] != [])
  }

  /** The conversation is over: the initiator's last answer holds no range. */
  ghost predicate Complete(l: Peer, r: Peer, frames: seq<seq<Range>>) {
    IsRun(l, r, frames) && |frames| % 2 == 1 && frames[|frames| - 1] == []
  }

  // ---- What the initiator has reported after n turns, and what turns have reopened

  ghost function Have(l: Peer, r: Peer, frames: seq<seq<Range>>, n: nat): multiset<Id>
    requires Peers(l, r) && n <= |frames|
  {
    if n == 0 then multiset{}
    else Have(l, r, frames, n - 1) + if n % 2 == 0 then Turn(l, r, frames, n - 1).have else multiset{}
  }

  ghost function Need(l: Peer, r: Peer, frames: seq<seq<Range>>, n: nat): multiset<Id>
    requires Peers(l, r) && n <= |frames|
  {
    if n == 0 then multiset{}
    else Need(l, r, frames, n - 1) + if n % 2 == 0 then Turn(l, r, frames, n - 1).need else multiset{}
  }

  /** Turn i cut its frame at or below x although x was not under discussion. */
  ghost predicate Reopened(l: Peer, r: Peer, frames: seq<seq<Range>>, i: nat, x: Item)
    requires Peers(l, r) && i < |frames|
  {
    var cut := Turn(l, r, frames, i).cut;
    cut.Some? && Key(cut.value) <= ItemKey(x) && !Open(frames[i], x)
  }

  ghost function Reopenings(l: Peer, r: Peer, frames: seq<seq<Range>>, n: nat, x: Item): nat
    requires Peers(l, r) && n <= |frames|
  {
    if n == 0 then 0
    else Reopenings(l, r, frames, n - 1, x) + N(Reopened(l, r, frames, n - 1, x))
  }

  /** How often x was reported in its direction during the first n turns. */
  ghost function Reports(l: Peer, r: Peer, frames: seq<seq<Range>>, n: nat, x: Item): nat
    requires Peers(l, r) && n <= |frames|
  {
    if x in l.items then Have(l, r, frames, n)[x.id] else Need(l, r, frames, n)[x.id]
  }

  // ---- The ledger over a run

  lemma {:induction false} ResponderTellsNothing(c: Peer, p: Progress, ranges: seq<Range>)
    requires ValidPeer(c) && !c.initiator && p.index <= |c.items|
    ensures Process(c, p, ranges).have == p.have && Process(c, p, ranges).need == p.need
    decreases |ranges|
  {
    hide LowerBound, Split, Fitting, Exceeded, Frame;
    if ranges != [] && p.cut.None? {
      ResponderTellsNothing(c, Advance(c, p, ranges[0]), ranges[1..]);
    }
  }

  lemma OpeningTruthful(c: Peer)
    requires ValidPeer(c)
    ensures Truthful(c.fingerprint, c.items, Opening(c)) && Opening(c) != []
    ensures forall k: nat | k < Key(MAX_BOUND) :: OpenFrom(0, Opening(c), k)
  {
    hide Key, Split;
    BelowEnds(c.items);
    SplitTruthful(c, 0, MAX_BOUND);
    forall k: nat | k < Key(MAX_BOUND) ensures OpenFrom(0, Opening(c), k) {
      OpenThroughout(0, Opening(c), k);
    }
  }

  /** After n turns: frame n is truthful, and reports plus "still open" is one more than the reopenings. */
  ghost predicate Stands(l: Peer, r: Peer, frames: seq<seq<Range>>, n: nat)
    requires Peers(l, r) && n < |frames|
  {
    && Truthful(l.fingerprint, Sender(l, r, n).items, frames[n])
    && (forall id :: id in Have(l, r, frames, n) ==> Alone(l.items, r.items, id))
    && (forall id :: id in Need(l, r, frames, n) ==> Alone(r.items, l.items, id))
    && forall x | Differs(l.items, r.items, x) :: StandsAt(l, r, frames, n, x)
  }

  ghost predicate StandsAt(l: Peer, r: Peer, frames: seq<seq<Range>>, n: nat, x: Item)
    requires Peers(l, r) && n < |frames|
  {
    var told := Reports(l, r, frames, n, x) + N(Open(frames[n], x));
    && told <= 1 + Reopenings(l, r, frames, n, x)
    && (Discerning(l.fingerprint, l.items, r.items) ==> told == 1 + Reopenings(l, r, frames, n, x))
  }

  lemma DiscerningSwap(fp: seq<Id> -> Hash, s: seq<Item>, t: seq<Item>)
    requires Discerning(fp, s, t)
    ensures Discerning(fp, t, s)
  {
    hide Between;
    forall a: nat, b: nat | a <= b && fp(Ids(Between(t, a, b))) == fp(Ids(Between(s, a, b)))
      ensures Ids(Between(t, a, b)) == Ids(Between(s, a, b))
    {}
  }

  lemma TurnSound(l: Peer, r: Peer, frames: seq<seq<Range>>, n: nat)
    requires IsRun(l, r, frames) && n + 1 < |frames|
    requires Truthful(l.fingerprint, Sender(l, r, n).items, frames[n])
    ensures var q := Turn(l, r, frames, n);
            && Truthful(l.fingerprint, Sender(l, r, n + 1).items, frames[n + 1])
            && Balanced(Receiver(l, r, n), Sender(l, r, n).items, frames[n], q)
            && Sound(Receiver(l, r, n), Sender(l, r, n).items, q)
            && (n % 2 == 0 ==> q.have == multiset{} && q.need == multiset{})
  {
    hide Truthful, Balanced, Sound, Process, Opening, Consistent, Sealed;
    ConsistentSwap(l.items, r.items);
    assert frames[n + 1] == Turn(l, r, frames, n).out;
    assert Receiver(l, r, n) == Sender(l, r, n + 1);
    TurnKeeps(Receiver(l, r, n), Sender(l, r, n).items, frames[n]);
    if n % 2 == 0 { ResponderTellsNothing(r, Start(), frames[n]); }
  }

  lemma {:induction false} RunStands(l: Peer, r: Peer, frames: seq<seq<Range>>, n: nat)
    requires IsRun(l, r, frames) && n < |frames|
    ensures Stands(l, r, frames, n)
  {
    hide Key, ItemKey, OpenFrom, TruthfulFrom, Discerning, Turn, Consistent;
    if n == 0 {
      OpeningTruthful(l);
      forall x | Differs(l.items, r.items, x) ensures StandsAt(l, r, frames, 0, x) {
        ItemBelowMax(l, r.items, x);
      }
    } else {
      RunStands(l, r, frames, n - 1);
      TurnSound(l, r, frames, n - 1);
      forall x | Differs(l.items, r.items, x) ensures StandsAt(l, r, frames, n, x) {
        StandsStep(l, r, frames, n, x);
      }
    }
  }

  lemma StandsStep(l: Peer, r: Peer, frames: seq<seq<Range>>, n: nat, x: Item)
    requires IsRun(l, r, frames) && 0 < n < |frames| && Differs(l.items, r.items, x)
    requires StandsAt(l, r, frames, n - 1, x)
    requires var q := Turn(l, r, frames, n - 1);
             && Balanced(Receiver(l, r, n - 1), Sender(l, r, n - 1).items, frames[n - 1], q)
             && (n % 2 == 1 ==> q.have == multiset{} && q.need == multiset{})
    ensures StandsAt(l, r, frames, n, x)
  {
    hide Key, ItemKey, OpenFrom, Discerning, Turn, Consistent;
    assert BalancedAt(Receiver(l, r, n - 1), Sender(l, r, n - 1).items, frames[n - 1], Turn(l, r, frames, n - 1), x);
    if Discerning(l.fingerprint, l.items, r.items) { DiscerningSwap(l.fingerprint, l.items, r.items); }
  }

  // ---- Exact reconciliation

  /** A finished conversation has reported only true differences, each in its direction, never more often
      than one plus the times a cut frame reopened it; if equal fingerprints can be relied on, exactly so. */
  lemma ReportsConserved(l: Peer, r: Peer, frames: seq<seq<Range>>)
    requires Complete(l, r, frames)
    ensures var n := |frames| - 1;
            && (forall id :: id in Have(l, r, frames, n) ==> Alone(l.items, r.items, id))
            && (forall id :: id in Need(l, r, frames, n) ==> Alone(r.items, l.items, id))
            && (forall x | Differs(l.items, r.items, x) ::
                  Reports(l, r, frames, n, x) <= 1 + Reopenings(l, r, frames, n, x))
            && (Discerning(l.fingerprint, l.items, r.items) ==>
                  forall x | Differs(l.items, r.items, x) ::
                    Reports(l, r, frames, n, x) == 1 + Reopenings(l, r, frames, n, x))
  {
    hide Discerning, Consistent, Differs, Alone, Have, Need, Reopenings;
    var n := |frames| - 1;
    RunStands(l, r, frames, n);
    forall x | Differs(l.items, r.items, x)
      ensures Reports(l, r, frames, n, x) <= 1 + Reopenings(l, r, frames, n, x)
      ensures Discerning(l.fingerprint, l.items, r.items) ==>
                Reports(l, r, frames, n, x) == 1 + Reopenings(l, r, frames, n, x)
    {
      assert StandsAt(l, r, frames, n, x);
    }
  }

  /** The identifiers reported as ours alone (theirs alone) are exactly those. */
  lemma ExactReconciliation(l: Peer, r: Peer, frames: seq<seq<Range>>)
    requires Complete(l, r, frames) && Discerning(l.fingerprint, l.items, r.items)
    ensures var n := |frames| - 1;
            && (forall id :: id in Have(l, r, frames, n) <==> Alone(l.items, r.items, id))
            && (forall id :: id in Need(l, r, frames, n) <==> Alone(r.items, l.items, id))
  {
    hide Discerning, Consistent, Have, Need, Reopenings, Turn, Opening;
    var n := |frames| - 1;
    ReportsConserved(l, r, frames);
    forall id | Alone(l.items, r.items, id) ensures id in Have(l, r, frames, n) {
      var x :| x in l.items && x !in r.items && x.id == id;
      assert Differs(l.items, r.items, x);
      assert Reports(l, r, frames, n, x) >= 1;
    }
    forall id | Alone(r.items, l.items, id) ensures id in Need(l, r, frames, n) {
      var x :| x in r.items && x !in l.items && x.id == id;
      assert Differs(l.items, r.items, x);
      assert Reports(l, r, frames, n, x) >= 1;
    }
  }

  lemma {:induction false} ReopeningsZero(l: Peer, r: Peer, frames: seq<seq<Range>>, n: nat, x: Item)
    requires Peers(l, r) && n <= |frames|
    ensures Reopenings(l, r, frames, n, x) == 0 <==> forall i :: 0 <= i < n ==> !Reopened(l, r, frames, i, x)
  {
    hide Reopened;
    if n > 0 { ReopeningsZero(l, r, frames, n - 1, x); }
  }

  /** Each difference is reported exactly once if and only if no cut frame ever reopens it. */
  lemma ReportedOnce(l: Peer, r: Peer, frames: seq<seq<Range>>, x: Item)
    requires Complete(l, r, frames) && Discerning(l.fingerprint, l.items, r.items) && Differs(l.items, r.items, x)
    ensures Reports(l, r, frames, |frames| - 1, x) == 1
       <==> forall i :: 0 <= i < |frames| - 1 ==> !Reopened(l, r, frames, i, x)
  {
    hide Discerning, Consistent, Have, Need, Reopened, Turn, Opening;
    ReportsConserved(l, r, frames);
    ReopeningsZero(l, r, frames, |frames| - 1, x);
  }
}
