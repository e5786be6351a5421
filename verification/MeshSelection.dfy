/** Which connected peers are told of an event: the best scored ones, with room kept for unknown peers. */
module MeshSelection {
  import opened Wrappers
  import opened MeshState
  import opened Sets
  import opened Strings

  // ---- The ranking

  function Score(p: MeshPeer): int { if p.score.Some? then p.score.value else 0 }

  predicate Unknown(p: MeshPeer) { p.score.None? }

  /** Better score first, known before unknown at the same score, then by identifier. */
  predicate Ahead(p: MeshPeer, q: MeshPeer) {
    Score(p) > Score(q)
    || (Score(p) == Score(q) && ((!Unknown(p) && Unknown(q)) || (Unknown(p) == Unknown(q) && Lex(p.id, q.id))))
  }

  lemma AheadTotal(p: MeshPeer, q: MeshPeer)
    ensures p.id != q.id ==> Ahead(p, q) || Ahead(q, p)
    ensures !(Ahead(p, q) && Ahead(q, p))
  {
    LexTotal(p.id, q.id);
  }

  lemma AheadTransitive(p: MeshPeer, q: MeshPeer, r: MeshPeer)
    requires Ahead(p, q) && Ahead(q, r)
    ensures Ahead(p, r)
  {
    if Lex(p.id, q.id) && Lex(q.id, r.id) { LexTransitive(p.id, q.id, r.id); }
  }

  ghost predicate Ranked(s: seq<MeshPeer>) {
    forall i, j :: 0 <= i < j < |s| ==> Ahead(s[i], s[j]) && s[i].id != s[j].id
  }

  // ---- Candidates

  /** What is known of a peer: its first score, if any entry has one. */
  ghost predicate Describes(peers: seq<MeshPeer>, excluded: Option<Peer>, p: MeshPeer) {
    && excluded != Some(p.id)
    && (exists q :: q in peers && q.id == p.id)
    && match p.score
       case None => forall q :: q in peers && q.id == p.id ==> q.score.None?
       case Some(_) => exists i :: 0 <= i < |peers| && peers[i] == p
                                   && forall k :: 0 <= k < i && peers[k].id == p.id ==> peers[k].score.None?
  }

  ghost predicate Gathered(m: map<Peer, MeshPeer>, peers: seq<MeshPeer>, excluded: Option<Peer>) {
    && (forall id :: id in m ==> m[id].id == id && Describes(peers, excluded, m[id]))
    && (forall q :: q in peers && excluded != Some(q.id) ==> q.id in m)
  }

  lemma DescribesMore(peers: seq<MeshPeer>, excluded: Option<Peer>, p: MeshPeer, q: MeshPeer)
    requires Describes(peers, excluded, p) && (excluded == Some(q.id) || q.id != p.id || p.score.Some? || q.score.None?)
    ensures Describes(peers + [q], excluded, p)
  {
    if p.score.Some? {
      var i :| 0 <= i < |peers| && peers[i] == p
               && forall k :: 0 <= k < i && peers[k].id == p.id ==> peers[k].score.None?;
      assert (peers + [q])[i] == p;
    }
    assert forall x :: x in peers + [q] <==> x in peers || x == q;
  }

  lemma DescribesNew(peers: seq<MeshPeer>, excluded: Option<Peer>, q: MeshPeer)
    requires excluded != Some(q.id)
    requires forall x :: x in peers && x.id == q.id ==> x.score.None?
    ensures Describes(peers + [q], excluded, q)
  {
    assert (peers + [q])[|peers|] == q;
    assert forall x :: x in peers + [q] <==> x in peers || x == q;
  }

  predicate Replaces(m: map<Peer, MeshPeer>, excluded: Option<Peer>, q: MeshPeer) {
    excluded != Some(q.id) && (q.id !in m || (m[q.id].score.None? && q.score.Some?))
  }

  lemma GatheredMore(m: map<Peer, MeshPeer>, peers: seq<MeshPeer>, excluded: Option<Peer>, q: MeshPeer)
    requires Gathered(m, peers, excluded)
    ensures Gathered(if Replaces(m, excluded, q) then m[q.id := q] else m, peers + [q], excluded)
  {
    hide Describes;
    var r := if Replaces(m, excluded, q) then m[q.id := q] else m;
    if Replaces(m, excluded, q) {
      UnscoredSoFar(m, peers, excluded, q);
      DescribesNew(peers, excluded, q);
    }
    forall id | id in r ensures r[id].id == id && Describes(peers + [q], excluded, r[id]) {
      if !Replaces(m, excluded, q) || id != q.id { DescribesMore(peers, excluded, m[id], q); }
    }
  }

  lemma UnscoredSoFar(m: map<Peer, MeshPeer>, peers: seq<MeshPeer>, excluded: Option<Peer>, q: MeshPeer)
    requires Gathered(m, peers, excluded) && Replaces(m, excluded, q)
    ensures forall x :: x in peers && x.id == q.id ==> x.score.None?
  {}

  method Gather(peers: seq<MeshPeer>, excluded: Option<Peer>) returns (m: map<Peer, MeshPeer>)
    ensures Gathered(m, peers, excluded)
  {
    hide Describes;
    m := map[];
    for i := 0 to |peers|
      invariant Gathered(m, peers[..i], excluded)
    {
      var q := peers[i];
      GatheredMore(m, peers[..i], excluded, q);
      assert peers[..i + 1] == peers[..i] + [q];
      if excluded != Some(q.id) {
        if q.id !in m || (m[q.id].score.None? && q.score.Some?) {
          m := m[q.id := q];
        }
      }
    }
    assert peers[..|peers|] == peers;
  }

  /** Inserts a candidate in rank order. */
  function InsertRanked(s: seq<MeshPeer>, p: MeshPeer): (r: seq<MeshPeer>)
    ensures |r| == |s| + 1 && forall x :: x in r <==> x in s || x == p
  {
    if s == [] then [p]
    else if Ahead(p, s[0]) then
      assert forall x :: x in [p] + s <==> x in s || x == p;
      [p] + s
    else
      assert s == [s[0]] + s[1..];
      [s[0]] + InsertRanked(s[1..], p)
  }

  lemma RankedFront(p: MeshPeer, s: seq<MeshPeer>)
    requires Ranked(s) && forall x :: x in s ==> Ahead(p, x) && p.id != x.id
    ensures Ranked([p] + s)
  {
    hide Ahead;
    assert forall j :: 0 <= j < |s| ==> s[j] in s;
  }

  lemma RankedRest(s: seq<MeshPeer>)
    requires Ranked(s) && s != []
    ensures Ranked(s[1..]) && s == [s[0]] + s[1..] && forall x :: x in s[1..] ==> Ahead(s[0], x) && s[0].id != x.id
  {
    hide Ahead;
  }

  lemma NoneRanked()
    ensures Ranked([])
  {}

  lemma {:induction false} InsertRankedKeeps(s: seq<MeshPeer>, p: MeshPeer)
    requires Ranked(s) && forall x :: x in s ==> x.id != p.id
    ensures Ranked(InsertRanked(s, p))
  {
    hide Ahead, Ranked;
    if s == [] {
      NoneRanked();
      RankedFront(p, []);
      assert [p] + [] == [p];
    } else {
      RankedRest(s);
      AheadTotal(p, s[0]);
      assert s[0] in s;
      if Ahead(p, s[0]) {
        forall x | x in s ensures Ahead(p, x) { if x != s[0] { AheadTransitive(p, s[0], x); } }
        RankedFront(p, s);
      } else {
        InsertRankedKeeps(s[1..], p);
        RankedFront(s[0], InsertRanked(s[1..], p));
      }
    }
  }

  method Rank(m: map<Peer, MeshPeer>) returns (s: seq<MeshPeer>)
    requires forall id :: id in m ==> m[id].id == id
    ensures Ranked(s) && |s| == |m|
    ensures forall p :: p in s <==> p.id in m && m[p.id] == p
  {
    hide Ahead;
    s := [];
    var rest := m.Keys;
    while rest != {}
      invariant rest <= m.Keys && Ranked(s) && |s| + |rest| == |m.Keys|
      invariant forall p :: p in s <==> p.id in m && m[p.id] == p && p.id !in rest
      decreases |rest|
    {
      var id :| id in rest;
      InsertRankedKeeps(s, m[id]);
      s := InsertRanked(s, m[id]);
      rest := rest - {id};
    }
    assert |m.Keys| == |m|;
  }

  // ---- The selection

  function Unknowns(s: seq<MeshPeer>): nat {
    if s == [] then 0 else Unknowns(s[..|s| - 1]) + if Unknown(s[|s| - 1]) then 1 else 0
  }

  lemma {:induction false} UnknownsConcat(a: seq<MeshPeer>, b: seq<MeshPeer>)
    ensures Unknowns(a + b) == Unknowns(a) + Unknowns(b)
    decreases |b|
  {
    if b == [] {
      assert a + b == a;
    } else {
      var n := |b| - 1;
      UnknownsConcat(a, b[..n]);
      assert (a + b)[..|a| + n] == a + b[..n];
    }
  }

  lemma UnknownsUpdate(s: seq<MeshPeer>, i: nat, p: MeshPeer)
    requires i < |s| && !Unknown(s[i]) && Unknown(p)
    ensures Unknowns(s[i := p]) == Unknowns(s) + 1
  {
    UnknownsConcat(s[..i], [s[i]]);
    UnknownsConcat(s[..i] + [s[i]], s[i + 1..]);
    UnknownsConcat(s[..i], [p]);
    UnknownsConcat(s[..i] + [p], s[i + 1..]);
    assert s == s[..i] + [s[i]] + s[i + 1..] && s[i := p] == s[..i] + [p] + s[i + 1..];
    assert [s[i]][..0] == [] && [p][..0] == [];
  }

  lemma {:induction false} UnknownsFull(s: seq<MeshPeer>)
    ensures Unknowns(s) <= |s|
    ensures (forall p :: p in s ==> Unknown(p)) ==> Unknowns(s) == |s|
    ensures (forall p :: p in s ==> !Unknown(p)) ==> Unknowns(s) == 0
  {
    if s != [] {
      var n := |s| - 1;
      assert s == s[..n] + [s[n]];
      UnknownsFull(s[..n]);
    }
  }

  /** How many unknown peers are chosen: as many as reserved, if there are so many, or as rank among the best. */
  function WantedUnknowns(candidates: seq<MeshPeer>, fanout: nat, reserve: nat): nat {
    Max(Min(Min(reserve, fanout), Unknowns(candidates)), Unknowns(candidates[..Min(fanout, |candidates|)]))
  }

  /** The order: up to place b the best candidates in theirs, behind it only unknown ones, in their own places if they
      rank there, and otherwise in the places of known ones, the better the further back. */
  ghost predicate Fronted(candidates: seq<MeshPeer>, chosen: seq<MeshPeer>, b: nat) {
    && b <= |chosen| <= |candidates| && chosen[..b] == candidates[..b]
    && (forall i :: b <= i < |chosen| ==> Unknown(chosen[i]) && (Unknown(candidates[i]) ==> chosen[i] == candidates[i]))
    && BackToFront(candidates, chosen, b)
  }

  ghost predicate BackToFront(candidates: seq<MeshPeer>, chosen: seq<MeshPeer>, b: nat)
    requires |chosen| <= |candidates|
  {
    forall i, j :: b <= i < j < |chosen| && !Unknown(candidates[i]) && !Unknown(candidates[j]) ==> Ahead(chosen[j], chosen[i])
  }

  /** A selection from ranked candidates: as many as wanted, just so many of them unknown, and of the known as of
      the unknown always the best. */
  ghost predicate Selects(candidates: seq<MeshPeer>, fanout: nat, reserve: nat, chosen: seq<MeshPeer>) {
    && |chosen| == Min(fanout, |candidates|)
    && (forall i, j :: 0 <= i < j < |chosen| ==> chosen[i].id != chosen[j].id)
    && (forall p :: p in chosen ==> p in candidates)
    && Unknowns(chosen) == WantedUnknowns(candidates, fanout, reserve)
    && (exists b :: Fronted(candidates, chosen, b))
    && (forall p, q :: p in chosen && q in candidates && q !in chosen && Unknown(p) == Unknown(q) ==> Ahead(p, q))
  }

  /** The loop's state: the first b candidates are chosen, behind them unknown ones: those that ranked there
      and those that ranked from `target` up to r. */
  ghost predicate Choosing(c: seq<MeshPeer>, chosen: seq<MeshPeer>, b: nat, r: nat) {
    && b <= |chosen| <= r <= |c|
    && (forall i :: 0 <= i < b ==> chosen[i] == c[i])
    && (forall i :: b <= i < |chosen| ==> Unknown(chosen[i]) && From(c, chosen[i], i, |chosen|, r))
    && (forall i :: b <= i < |chosen| && Unknown(c[i]) ==> chosen[i] == c[i])
    && (forall k :: |chosen| <= k < r && Unknown(c[k]) ==> c[k] in chosen)
    && (forall i, j :: 0 <= i < j < |chosen| ==> chosen[i].id != chosen[j].id)
    && Unknowns(chosen) == Unknowns(c[..r])
    && BackToFront(c, chosen, b)
  }

  ghost predicate From(c: seq<MeshPeer>, p: MeshPeer, i: nat, target: nat, r: nat) {
    (i < |c| && p == c[i]) || exists k :: target <= k < r && k < |c| && c[k] == p
  }

  /** The next unknown candidate from index r on, if any. */
  method NextUnknown(c: seq<MeshPeer>, r: nat) returns (k: nat)
    requires r <= |c|
    ensures r <= k <= |c| && (k < |c| ==> Unknown(c[k])) && forall j :: r <= j < k ==> !Unknown(c[j])
    ensures Unknowns(c[..k]) == Unknowns(c[..r])
  {
    k := r;
    while k < |c| && !Unknown(c[k])
      invariant r <= k <= |c| && Unknowns(c[..k]) == Unknowns(c[..r])
      invariant forall j :: r <= j < k ==> !Unknown(c[j])
    {
      assert c[..k + 1] == c[..k] + [c[k]];
      k := k + 1;
    }
  }

  /** The last known peer chosen, if any. */
  method LastKnown(chosen: seq<MeshPeer>) returns (i: Option<nat>)
    ensures i.Some? ==> i.value < |chosen| && !Unknown(chosen[i.value])
    ensures forall j :: (if i.Some? then i.value < j else 0 <= j) && j < |chosen| ==> Unknown(chosen[j])
  {
    var j := |chosen|;
    while j > 0
      invariant 0 <= j <= |chosen|
      invariant forall k :: j <= k < |chosen| ==> Unknown(chosen[k])
    {
      j := j - 1;
      if !Unknown(chosen[j]) { return Some(j); }
    }
    return None;
  }

  lemma Replaced(c: seq<MeshPeer>, chosen: seq<MeshPeer>, b: nat, r: nat, i: nat, k: nat)
    requires Ranked(c) && Choosing(c, chosen, b, r)
    requires i < |chosen| && !Unknown(chosen[i]) && forall j :: i < j < |chosen| ==> Unknown(chosen[j])
    requires r <= k < |c| && Unknown(c[k]) && Unknowns(c[..k]) == Unknowns(c[..r])
    requires forall j :: r <= j < k ==> !Unknown(c[j])
    ensures Choosing(c, chosen[i := c[k]], i, k + 1)
  {
    hide Ahead, Unknowns;
    var out := chosen[i := c[k]];
    assert i < b;
    UnknownsUpdate(chosen, i, c[k]);
    UnknownsConcat(c[..k], [c[k]]);
    UnknownOne(c[k]);
    assert c[..k + 1] == c[..k] + [c[k]];
    forall j | i <= j < |out| ensures Unknown(out[j]) && From(c, out[j], j, |out|, k + 1) {
      if j == i { assert c[k] == out[j]; }
      if j >= b { assert From(c, chosen[j], j, |chosen|, r); }
    }
    forall n | |out| <= n < k + 1 && Unknown(c[n]) ensures c[n] in out {
      if n == k {
        assert out[i] == c[k];
      } else {
        assert c[n] in chosen;
        var j :| 0 <= j < |chosen| && chosen[j] == c[n];
        assert j != i && out[j] == c[n];
      }
    }
    forall j | i < j < |out| && !Unknown(c[j]) ensures Ahead(out[j], out[i]) {
      assert From(c, chosen[j], j, |chosen|, r);
      var n :| |chosen| <= n < r && c[n] == chosen[j];
      assert Ahead(c[n], c[k]);
    }
    forall j | 0 <= j < |out| && j != i ensures out[j].id != c[k].id {
      if j < b {
        assert c[j].id != c[k].id;
      } else {
        assert From(c, chosen[j], j, |chosen|, r);
        var n :| 0 <= n < r && chosen[j] == c[n];
        assert c[n].id != c[k].id;
      }
    }
  }

  lemma UnknownOne(p: MeshPeer)
    ensures Unknowns([p]) == if Unknown(p) then 1 else 0
  {
    assert [p][..0] == [];
  }

  lemma Chosen(c: seq<MeshPeer>, fanout: nat, reserve: nat, chosen: seq<MeshPeer>, b: nat, r: nat)
    requires Ranked(c) && Choosing(c, chosen, b, r) && |chosen| == fanout <= |c|
    requires Unknowns(chosen) == WantedUnknowns(c, fanout, reserve)
    ensures Selects(c, fanout, reserve, chosen)
  {
    hide Ahead, Unknowns, WantedUnknowns;
    assert Fronted(c, chosen, b);
    forall p | p in chosen ensures exists i :: 0 <= i < |c| && c[i] == p && (if Unknown(p) then i < r else i < b) {
      var i :| 0 <= i < |chosen| && chosen[i] == p;
      if i < b {
        assert c[i] == p;
      } else {
        assert From(c, chosen[i], i, |chosen|, r);
      }
    }
    assert forall j :: 0 <= j < b ==> c[j] == chosen[j] && c[j] in chosen;
    assert forall j :: b <= j < |chosen| && Unknown(c[j]) ==> c[j] == chosen[j] && c[j] in chosen;
    forall p, q | p in chosen && q in c && q !in chosen && Unknown(p) == Unknown(q) ensures Ahead(p, q) {
      var i :| 0 <= i < |c| && c[i] == p && (if Unknown(p) then i < r else i < b);
      var j :| 0 <= j < |c| && c[j] == q;
    }
  }

  lemma AllChosen(c: seq<MeshPeer>, fanout: nat, reserve: nat)
    requires Ranked(c) && |c| <= fanout
    ensures Selects(c, fanout, reserve, c)
  {
    hide Ahead;
    UnknownsFull(c);
    assert c[..|c|] == c;
    assert Fronted(c, c, |c|);
  }

  lemma FirstChosen(c: seq<MeshPeer>, target: nat)
    requires Ranked(c) && target <= |c|
    ensures Choosing(c, c[..target], target, target)
  {
    hide Ahead, Unknowns;
  }

  lemma ChoosingCounts(c: seq<MeshPeer>, chosen: seq<MeshPeer>, b: nat, r: nat)
    requires Choosing(c, chosen, b, r)
    ensures r <= |c| && Unknowns(chosen) == Unknowns(c[..r])
  {
    hide Unknowns;
  }

  /** Takes the best candidates, then replaces the last known ones until `required` unknown ones are in. */
  method ReserveUnknown(c: seq<MeshPeer>, target: nat, required: nat)
    returns (chosen: seq<MeshPeer>, ghost b: nat, ghost r: nat)
    requires Ranked(c) && required <= target <= |c| && required <= Unknowns(c)
    ensures Choosing(c, chosen, b, r) && |chosen| == target
    ensures Unknowns(chosen) == Max(required, Unknowns(c[..target]))
  {
    hide Ahead, Unknowns, Ranked, Choosing;
    chosen, b := c[..target], target;
    var next := target;
    FirstChosen(c, target);
    assert c[..|c|] == c;
    while Unknowns(chosen) < required
      invariant Choosing(c, chosen, b, next) && |chosen| == target && next <= |c|
      invariant Unknowns(c[..target]) <= Unknowns(chosen) <= Max(required, Unknowns(c[..target]))
      decreases |c| - next
    {
      ChoosingCounts(c, chosen, b, next);
      var k := NextUnknown(c, next);
      if k == |c| { break; }
      var i := LastKnown(chosen);
      if i.None? {
        AllUnknown(chosen);
        break;
      }
      Replaced(c, chosen, b, next, i.value, k);
      UnknownsUpdate(chosen, i.value, c[k]);
      chosen := chosen[i.value := c[k]];
      b, next := i.value, k + 1;
    }
    r := next;
  }

  // ---- What a selection means for the scores

  function OfKind(s: seq<MeshPeer>, unknown: bool): set<MeshPeer> { set p | p in s && Unknown(p) == unknown }

  ghost predicate DistinctIds(s: seq<MeshPeer>) { forall i, j :: 0 <= i < j < |s| ==> s[i].id != s[j].id }

  lemma {:induction false} KindCounts(s: seq<MeshPeer>)
    requires DistinctIds(s)
    ensures |OfKind(s, true)| == Unknowns(s) && |OfKind(s, false)| == |s| - Unknowns(s)
  {
    if s == [] {
      assert OfKind(s, true) == {} && OfKind(s, false) == {};
    } else {
      var n := |s| - 1;
      KindCounts(s[..n]);
      assert s == s[..n] + [s[n]];
      assert s[n] !in s[..n];
      KindMore(s[..n], s[n], true);
      KindMore(s[..n], s[n], false);
    }
  }

  lemma KindMore(s: seq<MeshPeer>, p: MeshPeer, unknown: bool)
    requires p !in s
    ensures |OfKind(s + [p], unknown)| == |OfKind(s, unknown)| + if Unknown(p) == unknown then 1 else 0
  {
    assert OfKind(s + [p], unknown) == OfKind(s, unknown) + if Unknown(p) == unknown then {p} else {};
  }

  /** Of one kind only the best are chosen. */
  ghost predicate BestOfKind(c: seq<MeshPeer>, chosen: seq<MeshPeer>) {
    && (forall p :: p in chosen ==> p in c)
    && forall p, q :: p in chosen && q in c && q !in chosen && Unknown(p) == Unknown(q) ==> Ahead(p, q)
  }

  lemma TopHas(c: seq<MeshPeer>, t: nat, i: nat)
    requires i < |c| && t <= |c|
    ensures i < t ==> c[i] in c[..t]
  {
    if i < t { assert c[..t][i] == c[i]; }
  }

  /** With no more chosen of its kind than rank among the first t, a chosen peer ranks among them. */
  lemma ChosenInTop(c: seq<MeshPeer>, chosen: seq<MeshPeer>, t: nat, p: MeshPeer)
    requires Ranked(c) && BestOfKind(c, chosen) && t <= |c| && p in chosen
    requires |OfKind(chosen, Unknown(p))| <= |OfKind(c[..t], Unknown(p))|
    ensures p in c[..t]
  {
    hide Ahead;
    if p !in c[..t] {
      var i :| 0 <= i < |c| && c[i] == p;
      var top := OfKind(c[..t], Unknown(p));
      forall k | k in top ensures k in OfKind(chosen, Unknown(p)) {
        var j :| 0 <= j < t && c[..t][j] == k;
        assert c[j] == k;
        TopHas(c, t, i);
        AheadTotal(p, k);
      }
      SubsetSize(top + {p}, OfKind(chosen, Unknown(p)));
    }
  }

  /** With no fewer chosen of its kind than rank among the first t, a peer not chosen does not rank among them. */
  lemma OtherNotInTop(c: seq<MeshPeer>, chosen: seq<MeshPeer>, t: nat, q: MeshPeer)
    requires Ranked(c) && BestOfKind(c, chosen) && t <= |c| && q in c && q !in chosen
    requires |OfKind(chosen, Unknown(q))| >= |OfKind(c[..t], Unknown(q))|
    ensures q !in c[..t]
  {
    hide Ahead;
    if q in c[..t] {
      var j :| 0 <= j < t && c[..t][j] == q;
      var top := OfKind(c[..t], Unknown(q));
      forall p | p in OfKind(chosen, Unknown(q)) ensures p in top && p != q {
        var i :| 0 <= i < |c| && c[i] == p;
        assert c[j] == q;
        AheadTotal(p, q);
        TopHas(c, t, i);
      }
      SubsetSize(OfKind(chosen, Unknown(q)), top - {q});
    }
  }

  lemma TopIsAhead(c: seq<MeshPeer>, t: nat, p: MeshPeer, q: MeshPeer)
    requires Ranked(c) && t <= |c| && p in c[..t] && q in c && q !in c[..t]
    ensures Ahead(p, q)
  {
    hide Ahead;
    var i :| 0 <= i < t && c[..t][i] == p;
    var j :| 0 <= j < |c| && c[j] == q;
    TopHas(c, t, j);
    assert c[i] == p;
  }

  /** No known peer is told whose score is lower than that of a known one who is not. Known peers of negative score are
      told only with all unknown ones, unknown ones instead of known peers of no negative score only up to the reserve,
      and the reserve is used as far as there are unknown peers. Ties go to the smaller identifier. */
  lemma BestAreTold(c: seq<MeshPeer>, fanout: nat, reserve: nat, chosen: seq<MeshPeer>, p: MeshPeer, q: MeshPeer)
    requires Ranked(c) && Selects(c, fanout, reserve, chosen) && p in chosen && q in c && q !in chosen
    ensures p.score.Some? && q.score.Some? ==>
              p.score.value > q.score.value || (p.score.value == q.score.value && Lex(p.id, q.id))
    ensures p.score.None? && q.score.None? ==> Lex(p.id, q.id)
    ensures p.score.Some? && q.score.None? ==> p.score.value >= 0
    ensures p.score.None? && q.score.Some? && |OfKind(chosen, true)| > reserve ==> q.score.value < 0
    ensures q.score.None? ==> |OfKind(chosen, true)| >= Min(reserve, fanout)
    ensures |chosen| == fanout
  {
    hide Ranked, Lex, Fronted, Unknowns;
    var t := |chosen|;
    RankedApart(c, t);
    KindCounts(chosen);
    KindCounts(c);
    KindCounts(c[..t]);
    NotAllChosen(c, chosen, q);
    if q.score.None? { OneMore(c, chosen, q); }
    if p.score.Some? != q.score.Some? && (q.score.None? || |OfKind(chosen, true)| > reserve) {
      ChosenInTop(c, chosen, t, p);
      OtherNotInTop(c, chosen, t, q);
      TopIsAhead(c, t, p, q);
    }
  }

  lemma RankedApart(c: seq<MeshPeer>, t: nat)
    requires Ranked(c) && t <= |c|
    ensures DistinctIds(c) && DistinctIds(c[..t])
  {
    hide Ahead;
  }

  lemma NotAllChosen(c: seq<MeshPeer>, chosen: seq<MeshPeer>, q: MeshPeer)
    requires DistinctIds(c) && DistinctIds(chosen) && (forall p :: p in chosen ==> p in c) && q in c && q !in chosen
    ensures |chosen| < |c|
  {
    KindCounts(c);
    KindCounts(chosen);
    SubsetSize(OfKind(chosen, true), OfKind(c, true));
    SubsetSize(OfKind(chosen, false), OfKind(c, false));
    assert q in OfKind(c, Unknown(q)) && q !in OfKind(chosen, Unknown(q));
  }

  /** An unknown candidate who is not chosen: there are more of them than are chosen. */
  lemma OneMore(c: seq<MeshPeer>, chosen: seq<MeshPeer>, q: MeshPeer)
    requires (forall p :: p in chosen ==> p in c) && q in c && q !in chosen && Unknown(q)
    ensures |OfKind(chosen, true)| < |OfKind(c, true)|
  {
    assert q in OfKind(c, true) && q !in OfKind(chosen, true);
    SubsetSize(OfKind(chosen, true), OfKind(c, true));
  }

  /** The candidates, ranked: one entry for each peer but the excluded one. */
  ghost predicate Candidates(peers: seq<MeshPeer>, excluded: Option<Peer>, candidates: seq<MeshPeer>) {
    && Ranked(candidates)
    && (forall p :: p in candidates ==> Describes(peers, excluded, p))
    && (forall q :: q in peers && excluded != Some(q.id) ==> exists p :: p in candidates && p.id == q.id)
  }

  function PeerIds(peers: seq<MeshPeer>): seq<Peer> {
    seq(|peers|, i requires 0 <= i < |peers| => peers[i].id)
  }

  /** The peers to be told of something: those the selection chooses. */
  ghost predicate Best(peers: seq<MeshPeer>, excluded: Option<Peer>, fanout: nat, reserve: nat, ids: seq<Peer>) {
    exists candidates, chosen ::
      Candidates(peers, excluded, candidates) && Selects(candidates, fanout, reserve, chosen) && ids == PeerIds(chosen)
  }

  /** Chooses the best candidates, then replaces the last known ones by further unknown ones as reserved. */
  method SelectMeshPeers(peers: seq<MeshPeer>, excluded: Option<Peer>, fanout: nat, reserve: nat)
    returns (chosen: seq<MeshPeer>, ghost candidates: seq<MeshPeer>)
    ensures Candidates(peers, excluded, candidates) && Selects(candidates, fanout, reserve, chosen)
  {
    hide Ahead, Unknowns, Describes, Ranked, Selects;
    var m := Gather(peers, excluded);
    var c := Rank(m);
    candidates := c;
    forall q | q in peers && excluded != Some(q.id) ensures exists p :: p in candidates && p.id == q.id {
      assert m[q.id] in c;
    }
    if fanout >= |c| {
      chosen := c;
      AllChosen(c, fanout, reserve);
      return;
    }
    ghost var b;
    ghost var r;
    chosen, b, r := ReserveUnknown(c, fanout, Min(Min(reserve, fanout), Unknowns(c)));
    Chosen(c, fanout, reserve, chosen, b, r);
  }

  lemma AllUnknown(s: seq<MeshPeer>)
    requires forall j :: 0 <= j < |s| ==> Unknown(s[j])
    ensures Unknowns(s) == |s|
  {
    UnknownsFull(s);
  }
}
