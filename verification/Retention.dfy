/** Which events a bounded snapshot keeps, and why the order in which they came does not matter. */
module Retention {
  import opened Wrappers
  import opened Sets
  import opened Strings
  import opened Sums

  const MAX_EVENT_BYTES: nat := 65_536
  const MAX_SNAPSHOT_BYTES: nat := 16_777_216
  const MAX_U64: nat := 0xFFFF_FFFF_FFFF_FFFF
  const ENVELOPE: nat := 128

  /** `identifier` is the value of the first `d` tag, empty if there is none; `size` the length of the event as JSON. */
  datatype Event = Event(
    id: string, created: nat, kind: nat, author: string, identifier: string, tags: seq<seq<string>>, size: nat)

  datatype Policy = Policy(accepts: Event -> bool, maxEvents: nat)

  // ---- Which events are current

  function FirstTag(tags: seq<seq<string>>, name: string): Option<seq<string>> {
    if tags == [] then None
    else if tags[0] != [] && tags[0][0] == name then Some(tags[0])
    else FirstTag(tags[1..], name)
  }

  predicate AllDigits(s: string) { forall i :: 0 <= i < |s| ==> '0' <= s[i] <= '9' }

  function Number(s: string): nat
    requires AllDigits(s)
  {
    if s == [] then 0 else Number(s[..|s| - 1]) * 10 + (s[|s| - 1] as int - '0' as int)
  }

  predicate Unexpired(tags: seq<seq<string>>, now: nat) {
    match FirstTag(tags, "expiration")
    case None => true
    case Some(tag) => |tag| > 1 && tag[1] != [] && AllDigits(tag[1]) && now < Number(tag[1]) <= MAX_U64
  }

  predicate Current(e: Event, now: nat) {
    !(20_000 <= e.kind < 30_000) && e.created <= (if now + 300 > MAX_U64 then MAX_U64 else now + 300)
    && Unexpired(e.tags, now)
  }

  // ---- Replacement and order

  /** Newest first, lower identifier first at the same time; also the order in which one replaces another. */
  predicate Before(a: Event, b: Event) {
    a.created > b.created || (a.created == b.created && Lex(a.id, b.id))
  }

  lemma BeforeTotal(a: Event, b: Event)
    ensures a.id == b.id || Before(a, b) || Before(b, a)
    ensures !(Before(a, b) && Before(b, a)) && !Before(a, a)
  {
    LexTotal(a.id, b.id);
  }

  lemma BeforeTransitive(a: Event, b: Event, c: Event)
    requires Before(a, b) && Before(b, c)
    ensures Before(a, c)
  {
    if Lex(a.id, b.id) && Lex(b.id, c.id) { LexTransitive(a.id, b.id, c.id); }
  }

  /** The coordinate at which only one event is kept (NIP-01, replaceable and addressable kinds). */
  function Coordinate(e: Event): Option<(nat, string, string)> {
    if e.kind == 0 || e.kind == 3 || 10_000 <= e.kind <= 19_999 then Some((e.kind, e.author, ""))
    else if 30_000 <= e.kind < 40_000 then Some((e.kind, e.author, e.identifier))
    else None
  }

  predicate Rivals(a: Event, b: Event) { Coordinate(a).Some? && Coordinate(a) == Coordinate(b) }

  // ---- One insertion

  predicate Candidate(p: Policy, e: Event, now: nat) { p.accepts(e) && Current(e, now) && e.size <= MAX_EVENT_BYTES }

  function Bytes(s: seq<Event>): nat {
    if s == [] then 0 else Bytes(s[..|s| - 1]) + s[|s| - 1].size + 1
  }

  function Without(s: seq<Event>, e: Event, now: nat): seq<Event> {
    if s == [] then []
    else Without(s[..|s| - 1], e, now) + if Current(s[|s| - 1], now) && !Rivals(s[|s| - 1], e) then [s[|s| - 1]] else []
  }

  /** An event put in its place. */
  function Placed(s: seq<Event>, e: Event): seq<Event> {
    if s == [] || Before(s[|s| - 1], e) then s + [e]
    else Placed(s[..|s| - 1], e) + [s[|s| - 1]]
  }

  predicate Over(p: Policy, s: seq<Event>) { |s| > p.maxEvents || Bytes(s) + ENVELOPE > MAX_SNAPSHOT_BYTES }

  /** Drops the oldest until the rest is within the limits. */
  function Trimmed(p: Policy, s: seq<Event>): seq<Event> {
    if s == [] || !Over(p, s) then s else Trimmed(p, s[..|s| - 1])
  }

  predicate Refused(p: Policy, s: seq<Event>, e: Event, now: nat) {
    || !Candidate(p, e, now)
    || (exists i :: 0 <= i < |s| && s[i].id == e.id)
    || (exists i :: 0 <= i < |s| && Rivals(s[i], e) && !Before(e, s[i]))
  }

  function Inserted(p: Policy, s: seq<Event>, e: Event, now: nat): seq<Event> {
    if Refused(p, s, e, now) then s else Trimmed(p, Placed(Without(s, e, now), e))
  }

  function InsertedAll(p: Policy, s: seq<Event>, events: seq<Event>, now: nat): seq<Event> {
    if events == [] then s
    else Inserted(p, InsertedAll(p, s, events[..|events| - 1], now), events[|events| - 1], now)
  }

  // ---- Lists in order

  ghost predicate Ordered(s: seq<Event>) {
    forall i, j :: 0 <= i < j < |s| ==> Before(s[i], s[j])
  }

  lemma OrderedAppend(s: seq<Event>, e: Event)
    requires Ordered(s) && forall x :: x in s ==> Before(x, e)
    ensures Ordered(s + [e]) && forall x :: x in s + [e] <==> x in s || x == e
  {
    hide Before;
    forall i | 0 <= i < |s| ensures Before(s[i], e) { assert s[i] in s; }
  }

  lemma OrderedLast(s: seq<Event>)
    requires Ordered(s) && s != []
    ensures var first, last := s[..|s| - 1], s[|s| - 1];
            && Ordered(first) && (forall x :: x in first ==> Before(x, last))
            && forall x :: x in s <==> x in first || x == last
  {
    hide Before;
    assert s == s[..|s| - 1] + [s[|s| - 1]];
  }

  lemma {:induction false} WithoutMeans(s: seq<Event>, e: Event, now: nat)
    requires Ordered(s)
    ensures Ordered(Without(s, e, now))
    ensures forall x :: x in Without(s, e, now) <==> x in s && Current(x, now) && !Rivals(x, e)
  {
    hide Before, Current, Rivals, Ordered;
    if s == [] {
      NoneOrdered();
    } else {
      var n := |s| - 1;
      OrderedLast(s);
      WithoutMeans(s[..n], e, now);
      var w := Without(s[..n], e, now);
      assert w + [] == w;
      if Current(s[n], now) && !Rivals(s[n], e) { OrderedAppend(w, s[n]); }
    }
  }

  lemma NoneOrdered()
    ensures Ordered([])
  {}

  lemma {:induction false} PlacedMeans(s: seq<Event>, e: Event)
    requires Ordered(s) && forall x :: x in s ==> x.id != e.id
    ensures Ordered(Placed(s, e)) && |Placed(s, e)| == |s| + 1
    ensures forall x :: x in Placed(s, e) <==> x in s || x == e
  {
    hide Before, Ordered;
    if s == [] {
      OrderedAppend(s, e);
    } else {
      var n := |s| - 1;
      OrderedLast(s);
      BeforeTotal(s[n], e);
      if Before(s[n], e) {
        forall x | x in s[..n] ensures Before(x, e) { BeforeTransitive(x, s[n], e); }
        OrderedAppend(s, e);
      } else {
        PlacedMeans(s[..n], e);
        OrderedAppend(Placed(s[..n], e), s[n]);
      }
    }
  }

  lemma {:induction false} TrimmedPrefix(p: Policy, s: seq<Event>)
    ensures |Trimmed(p, s)| <= |s| && Trimmed(p, s) == s[..|Trimmed(p, s)|]
    ensures Trimmed(p, s) == [] || !Over(p, Trimmed(p, s))
  {
    hide Over;
    if s != [] && Over(p, s) {
      TrimmedPrefix(p, s[..|s| - 1]);
      var r := Trimmed(p, s);
      assert s[..|s| - 1][..|r|] == s[..|r|];
    }
  }

  lemma OrderedDistinct(s: seq<Event>)
    requires Ordered(s)
    ensures forall i, j :: 0 <= i < j < |s| ==> s[i] != s[j]
  {
    hide Before;
    forall i, j | 0 <= i < j < |s| ensures s[i] != s[j] { BeforeTotal(s[i], s[j]); }
  }

  lemma {:induction false} OrderedSize(s: seq<Event>)
    requires Ordered(s)
    ensures |Elements(s)| == |s|
  {
    hide Before;
    if s == [] {
      assert Elements(s) == {};
    } else {
      var n := |s| - 1;
      assert s == s[..n] + [s[n]];
      OrderedDistinct(s);
      OrderedSize(s[..n]);
      assert Elements(s) == Elements(s[..n]) + {s[n]};
      assert s[n] !in s[..n];
    }
  }

  /** An ordered list is determined by its elements. */
  lemma {:induction false} OrderedUnique(s: seq<Event>, t: seq<Event>)
    requires Ordered(s) && Ordered(t) && Elements(s) == Elements(t)
    ensures s == t
  {
    hide Before, Ordered, Elements;
    OrderedSize(s);
    OrderedSize(t);
    if s != [] {
      var n := |s| - 1;
      LastElement(s);
      LastElement(t);
      LastSame(s, t);
      OrderedUnique(s[..n], t[..n]);
      assert s == s[..n] + [s[n]] && t == t[..n] + [t[n]];
    }
  }

  lemma LastElement(s: seq<Event>)
    requires Ordered(s) && s != []
    ensures var n := |s| - 1;
            Ordered(s[..n]) && s[n] in Elements(s) && Elements(s[..n]) == Elements(s) - {s[n]}
  {
    hide Before;
    OrderedLast(s);
    OrderedDistinct(s);
    assert s[|s| - 1] !in s[..|s| - 1];
  }

  lemma LastSame(s: seq<Event>, t: seq<Event>)
    requires Ordered(s) && Ordered(t) && |s| == |t| > 0 && s[|s| - 1] in Elements(t) && t[|t| - 1] in Elements(s)
    ensures s[|s| - 1] == t[|t| - 1]
  {
    hide Before;
    var n := |s| - 1;
    var i :| 0 <= i <= n && t[i] == s[n];
    var j :| 0 <= j <= n && s[j] == t[n];
    if i < n && j < n { BeforeTotal(s[n], t[n]); }
  }

  // ---- What should be kept of a set of events

  /** Identifiers are hashes. */
  ghost predicate Hashed(events: set<Event>) {
    forall a, b :: a in events && b in events && a.id == b.id ==> a == b
  }

  ghost function Candidates(p: Policy, events: set<Event>, now: nat): set<Event> {
    set e | e in events && Candidate(p, e, now)
  }

  ghost predicate Wins(among: set<Event>, e: Event) {
    forall f :: f in among && Rivals(f, e) && f != e ==> Before(e, f)
  }

  /** The current events, at each coordinate only the one that replaces the others. */
  ghost function Winners(p: Policy, events: set<Event>, now: nat): set<Event> {
    set e | e in Candidates(p, events, now) && Wins(Candidates(p, events, now), e)
  }

  function Least(a: nat, b: nat): nat { if a < b then a else b }

  /** The first so many of a set. */
  ghost predicate IsTop(limit: nat, top: set<Event>, all: set<Event>) {
    && top <= all && |top| == Least(limit, |all|)
    && forall a, b :: a in top && b in all && b !in top ==> Before(a, b)
  }

  ghost predicate Ideal(p: Policy, s: seq<Event>, events: set<Event>, now: nat) {
    Ordered(s) && IsTop(p.maxEvents, Elements(s), Winners(p, events, now))
  }

  lemma TopUnique(limit: nat, top: set<Event>, other: set<Event>, all: set<Event>)
    requires IsTop(limit, top, all) && IsTop(limit, other, all)
    ensures top == other
  {
    hide Before;
    if top != other {
      if top <= other { SubsetSize(top, other); }
      if other <= top { SubsetSize(other, top); }
      var a :| a in top && a !in other;
      var b :| b in other && b !in top;
      BeforeTotal(a, b);
    }
  }

  /** There is only one ideal list. */
  lemma IdealUnique(p: Policy, s: seq<Event>, t: seq<Event>, events: set<Event>, now: nat)
    requires Ideal(p, s, events, now) && Ideal(p, t, events, now)
    ensures s == t
  {
    hide Before, IsTop, Winners;
    TopUnique(p.maxEvents, Elements(s), Elements(t), Winners(p, events, now));
    OrderedUnique(s, t);
  }

  lemma {:induction false} FirstExists(events: set<Event>) returns (g: Event)
    requires events != {} && Hashed(events)
    ensures g in events && forall e :: e in events && e != g ==> Before(g, e)
    decreases |events|
  {
    hide Before;
    var k :| k in events;
    var rest := events - {k};
    assert events == rest + {k};
    if rest == {} {
      g := k;
    } else {
      var h := FirstExists(rest);
      BeforeTotal(h, k);
      if Before(h, k) {
        g := h;
      } else {
        g := k;
        forall e | e in rest && e != h ensures Before(k, e) { BeforeTransitive(k, h, e); }
      }
    }
  }

  /** Whoever does not win loses to a winner. */
  lemma LosesTo(among: set<Event>, e: Event) returns (w: Event)
    requires Hashed(among + {e}) && exists f :: f in among && Rivals(f, e) && f != e && !Before(e, f)
    ensures w in among && Rivals(w, e) && w != e && Before(w, e) && Wins(among, w)
  {
    hide Before;
    var rivals := set f | f in among && Rivals(f, e);
    var f :| f in among && Rivals(f, e) && f != e && !Before(e, f);
    assert f in rivals;
    w := FirstExists(rivals);
    BeforeTotal(f, e);
    assert e in among + {e} && f in among + {e};
    if w != f { BeforeTransitive(w, f, e); }
    BeforeTotal(e, e);
  }

  // ---- One insertion reaches the ideal again

  /** Of one too many the last one goes. */
  lemma TopDropped(limit: nat, top: set<Event>, all: set<Event>, e: Event, z: Event)
    requires IsTop(limit, top, all) && |top| == limit && e !in all && z in top + {e}
    requires forall a :: a in top + {e} && a != z ==> Before(a, z)
    ensures IsTop(limit, top + {e} - {z}, all + {e})
  {
    hide Before;
    assert |top + {e}| == |top| + 1 && |all + {e}| == |all| + 1 && |top + {e} - {z}| == |top|;
    SubsetSize(top, all);
    forall a, b | a in top + {e} - {z} && b in all + {e} && b !in top + {e} - {z} ensures Before(a, b) {
      assert Before(a, z);
      if b != z && a == e { BeforeTransitive(e, z, b); }
    }
  }

  lemma LastOf(t: seq<Event>)
    requires Ordered(t) && t != []
    ensures var n := |t| - 1;
            && Elements(t[..n]) == Elements(t) - {t[n]} && t[n] in Elements(t)
            && forall a :: a in Elements(t) && a != t[n] ==> Before(a, t[n])
  {
    hide Before;
    var n := |t| - 1;
    assert t == t[..n] + [t[n]];
    OrderedDistinct(t);
    forall a | a in Elements(t) && a != t[n] ensures Before(a, t[n]) {
      var i :| 0 <= i < |t| && t[i] == a;
    }
    assert t[n] !in t[..n];
  }

  /** Dropping the last of a list that is one too long. */
  lemma TopOfOneMore(limit: nat, t: seq<Event>, top: set<Event>, all: set<Event>, e: Event)
    requires IsTop(limit, top, all) && e !in all && Ordered(t) && Elements(t) == top + {e}
    ensures |t| == |top| + 1 && IsTop(limit, Elements(t[..Least(limit, |t|)]), all + {e})
  {
    hide Before, Elements;
    OrderedSize(t);
    assert |top + {e}| == |top| + 1 && |all + {e}| == |all| + 1;
    if |t| <= limit {
      assert t[..|t|] == t;
      if top != all { SubsetSize(top, all); }
      assert top == all;
    } else {
      LastOf(t);
      TopDropped(limit, top, all, e, t[limit]);
    }
  }

  /** A loser of which no rival is listed comes after everything in a full list. */
  lemma LoserLast(limit: nat, top: set<Event>, all: set<Event>, w: Event, e: Event)
    requires IsTop(limit, top, all) && w in all && w !in top && Before(w, e)
    ensures |top| == limit && forall x :: x in top ==> Before(x, e)
  {
    hide Before;
    SubsetSize(top, all);
    forall x | x in top ensures Before(x, e) { BeforeTransitive(x, w, e); }
  }

  /** A winner in place of the previous one. */
  lemma TopReplaced(limit: nat, top: set<Event>, all: set<Event>, w: Event, e: Event)
    requires IsTop(limit, top, all) && w in top && e !in all && Before(e, w)
    ensures IsTop(limit, top - {w} + {e}, all - {w} + {e})
  {
    hide Before;
    assert |top - {w} + {e}| == |top| && |all - {w} + {e}| == |all|;
    forall a, b | a in top - {w} + {e} && b in all - {w} + {e} && b !in top - {w} + {e} ensures Before(a, b) {
      if a == e { BeforeTransitive(e, w, b); }
    }
  }

  /** Replacing a winner that was not listed. */
  lemma TopElsewhere(limit: nat, top: set<Event>, all: set<Event>, w: Event)
    requires IsTop(limit, top, all) && w in all && w !in top
    ensures IsTop(limit, top, all - {w})
  {
    SubsetSize(top, all);
    SubsetSize(top, all - {w});
  }

  lemma WinnersRival(p: Policy, events: set<Event>, now: nat, a: Event, b: Event)
    requires a in Winners(p, events, now) && b in Winners(p, events, now) && Rivals(a, b)
    ensures a == b
  {
    hide Before;
    BeforeTotal(a, b);
  }

  /** Losers and events not accepted change nothing. */
  lemma WinnersSame(p: Policy, events: set<Event>, e: Event, now: nat)
    requires Hashed(events + {e})
    requires !Candidate(p, e, now) || !Wins(Candidates(p, events, now), e)
    ensures Winners(p, events + {e}, now) == Winners(p, events, now)
  {
    hide Before, Rivals, Candidate;
    var all, more := Candidates(p, events, now), Candidates(p, events + {e}, now);
    if !Candidate(p, e, now) {
      assert more == all;
    } else {
      assert more == all + {e};
      var w := LosesTo(all, e);
      forall x | x in all ensures Wins(more, x) == Wins(all, x) {
        if Wins(all, x) && Rivals(e, x) && e != x {
          RivalsJoin(x, e, w);
          if x != w { BeforeTotal(x, w); }
        }
      }
      RivalsSwap(w, e);
      BeforeTotal(w, e);
    }
  }

  lemma RivalsSwap(a: Event, b: Event)
    ensures Rivals(a, b) == Rivals(b, a)
  {}

  lemma RivalsJoin(a: Event, b: Event, c: Event)
    requires Rivals(b, a) && Rivals(c, b)
    ensures Rivals(a, c) && Rivals(c, a)
  {}

  /** A new winner takes the place of its rivals. */
  lemma WinnersMore(p: Policy, events: set<Event>, e: Event, now: nat)
    requires Hashed(events + {e}) && e !in events
    requires Candidate(p, e, now) && Wins(Candidates(p, events, now), e)
    ensures Winners(p, events + {e}, now) == (set x | x in Winners(p, events, now) && !Rivals(x, e)) + {e}
  {
    hide Before, Rivals, Candidate;
    var all, more := Candidates(p, events, now), Candidates(p, events + {e}, now);
    assert more == all + {e};
    forall x | x in all ensures Wins(more, x) <==> Wins(all, x) && !Rivals(x, e) {
      RivalsSwap(x, e);
      BeforeTotal(x, e);
    }
  }

  // ---- Insertion, if the byte limit does not bind

  /** With the oldest beyond the number of events dropped, the bytes are within their limit. */
  predicate Roomy(p: Policy, s: seq<Event>, e: Event, now: nat) {
    Refused(p, s, e, now)
    || var t := Placed(Without(s, e, now), e);
       Bytes(t[..Least(p.maxEvents, |t|)]) + ENVELOPE <= MAX_SNAPSHOT_BYTES
  }

  lemma {:induction false} TrimmedRoomy(p: Policy, t: seq<Event>)
    requires Bytes(t[..Least(p.maxEvents, |t|)]) + ENVELOPE <= MAX_SNAPSHOT_BYTES
    ensures Trimmed(p, t) == t[..Least(p.maxEvents, |t|)]
  {
    if |t| <= p.maxEvents {
      assert t[..|t|] == t;
    } else {
      var n := |t| - 1;
      assert t[..n][..p.maxEvents] == t[..p.maxEvents];
      TrimmedRoomy(p, t[..n]);
    }
  }

  /** An event after everything in a full list is dropped again. */
  lemma LastDropped(p: Policy, s: seq<Event>, e: Event, now: nat)
    requires Ordered(s) && |s| == p.maxEvents && Roomy(p, s, e, now)
    requires forall x :: x in s ==> Before(x, e) && Current(x, now) && !Rivals(x, e)
    ensures Inserted(p, s, e, now) == s
  {
    hide Before, Current, Rivals, Candidate, Bytes, Refused;
    WithoutMeans(s, e, now);
    OrderedUnique(Without(s, e, now), s);
    if s != [] { assert s[|s| - 1] in s; }
    if !Refused(p, s, e, now) {
      assert Placed(s, e) == s + [e];
      TrimmedRoomy(p, s + [e]);
    }
  }

  lemma IdealCurrent(p: Policy, s: seq<Event>, events: set<Event>, now: nat)
    requires Ideal(p, s, events, now)
    ensures forall x :: x in s ==> x in Winners(p, events, now) && x in events && Current(x, now) && Candidate(p, x, now)
    ensures |s| == Least(p.maxEvents, |Winners(p, events, now)|)
  {
    hide Before, Current;
    OrderedSize(s);
    forall x | x in s ensures x in Winners(p, events, now) { assert x in Elements(s); }
  }

  /** Known before, or a loser: the list stays. */
  lemma InsertedSame(p: Policy, s: seq<Event>, events: set<Event>, e: Event, now: nat)
    requires Ideal(p, s, events, now) && Hashed(events + {e}) && Roomy(p, s, e, now)
    requires e in events || !Wins(Candidates(p, events, now), e)
    ensures Inserted(p, s, e, now) == s
  {
    hide Before, Current, Rivals, Candidate, Roomy, Placed, Without, Trimmed, IsTop;
    IdealCurrent(p, s, events, now);
    if !Refused(p, s, e, now) {
      var w := e;
      if !Wins(Candidates(p, events, now), e) { w := LosesTo(Candidates(p, events, now), e); }
      assert w in Winners(p, events, now);
      assert w !in s by { BeforeTotal(w, e); }
      if w == e {
        TopBefore(p.maxEvents, Elements(s), Winners(p, events, now), e);
      } else {
        LoserLast(p.maxEvents, Elements(s), Winners(p, events, now), w, e);
      }
      forall x | x in s ensures !Rivals(x, e) && Before(x, e) {
        assert x in Elements(s);
        if Rivals(x, e) {
          RivalsShare(x, e, w);
          WinnersRival(p, events, now, x, w);
        }
      }
      OrderedSize(s);
      LastDropped(p, s, e, now);
    }
  }

  lemma RivalsShare(x: Event, e: Event, w: Event)
    requires Rivals(x, e) && (w == e || Rivals(w, e))
    ensures Rivals(x, w)
  {}

  lemma TopBefore(limit: nat, top: set<Event>, all: set<Event>, e: Event)
    requires IsTop(limit, top, all) && e in all && e !in top
    ensures |top| == limit && forall x :: x in top ==> Before(x, e)
  {
    hide Before;
    SubsetSize(top, all);
  }

  ghost function Unrivalled(events: set<Event>, e: Event): set<Event> { set x | x in events && !Rivals(x, e) }

  /** The first so many, with a new winner for its rival if it has one. */
  lemma TopAfter(limit: nat, t: seq<Event>, top: set<Event>, all: set<Event>, e: Event)
    requires IsTop(limit, top, all) && e !in all && Ordered(t) && Elements(t) == Unrivalled(top, e) + {e}
    requires forall x, y :: x in all && y in all && Rivals(x, e) && Rivals(y, e) ==> x == y
    requires forall x :: x in all && Rivals(x, e) ==> Before(e, x)
    ensures IsTop(limit, Elements(t[..Least(limit, |t|)]), Unrivalled(all, e) + {e})
  {
    hide Before, Rivals, IsTop, Elements;
    assert top <= all by { TopWithin(limit, top, all); }
    if w :| w in all && Rivals(w, e) {
      assert Unrivalled(all, e) == all - {w};
      if w in top {
        assert Unrivalled(top, e) == top - {w};
        TopReplaced(limit, top, all, w, e);
        OrderedSize(t);
        TopWithin(limit, top, all);
        assert |top - {w} + {e}| == |top|;
        assert t[..|t|] == t;
      } else {
        assert Unrivalled(top, e) == top;
        TopElsewhere(limit, top, all, w);
        TopOfOneMore(limit, t, top, all - {w}, e);
      }
    } else {
      assert Unrivalled(all, e) == all && Unrivalled(top, e) == top;
      TopOfOneMore(limit, t, top, all, e);
    }
  }

  lemma TopWithin(limit: nat, top: set<Event>, all: set<Event>)
    requires IsTop(limit, top, all)
    ensures top <= all && |top| <= limit
  {}

  lemma WinnerPlaced(p: Policy, s: seq<Event>, e: Event, now: nat)
    requires Ordered(s) && Roomy(p, s, e, now) && Candidate(p, e, now)
    requires forall x :: x in s ==> x.id != e.id && Current(x, now) && (Rivals(x, e) ==> Before(e, x))
    ensures var t := Placed(Without(s, e, now), e);
            && Ordered(t) && Elements(t) == Unrivalled(Elements(s), e) + {e}
            && Inserted(p, s, e, now) == t[..Least(p.maxEvents, |t|)]
  {
    hide Before, Current, Rivals, Candidate, Placed, Without, Trimmed, Bytes;
    WithoutMeans(s, e, now);
    PlacedMeans(Without(s, e, now), e);
    TrimmedRoomy(p, Placed(Without(s, e, now), e));
  }

  /** A new winner takes its place. */
  lemma InsertedWinner(p: Policy, s: seq<Event>, events: set<Event>, e: Event, now: nat)
    requires Ideal(p, s, events, now) && Hashed(events + {e}) && Roomy(p, s, e, now)
    requires e !in events && Candidate(p, e, now) && Wins(Candidates(p, events, now), e)
    ensures Ideal(p, Inserted(p, s, e, now), events + {e}, now)
  {
    hide Before, Current, Rivals, Candidate, Placed, Without, Trimmed, IsTop, Bytes, Inserted, Roomy;
    IdealCurrent(p, s, events, now);
    WinnersMore(p, events, e, now);
    var all := Winners(p, events, now);
    assert Unrivalled(all, e) == set x | x in all && !Rivals(x, e);
    forall x | x in all ensures x.id != e.id && (Rivals(x, e) ==> Before(e, x)) {
      assert x in events + {e} && e in events + {e};
    }
    WinnerPlaced(p, s, e, now);
    var t := Placed(Without(s, e, now), e);
    forall x, y | x in all && y in all && Rivals(x, e) && Rivals(y, e) ensures x == y {
      RivalsShare(x, e, y);
      WinnersRival(p, events, now, x, y);
    }
    TopAfter(p.maxEvents, t, Elements(s), all, e);
  }

  lemma InsertedIdeal(p: Policy, s: seq<Event>, events: set<Event>, e: Event, now: nat)
    requires Ideal(p, s, events, now) && Hashed(events + {e}) && Roomy(p, s, e, now)
    ensures Ideal(p, Inserted(p, s, e, now), events + {e}, now)
  {
    hide Before, Current, Rivals, Candidate, Roomy, Inserted, IsTop, Wins, Candidates, Winners;
    if e in events {
      assert events + {e} == events;
      InsertedSame(p, s, events, e, now);
    } else if !Candidate(p, e, now) {
      WinnersSame(p, events, e, now);
      NotCandidate(p, s, e, now);
    } else if !Wins(Candidates(p, events, now), e) {
      WinnersSame(p, events, e, now);
      InsertedSame(p, s, events, e, now);
    } else {
      InsertedWinner(p, s, events, e, now);
    }
  }

  lemma NotCandidate(p: Policy, s: seq<Event>, e: Event, now: nat)
    requires !Candidate(p, e, now)
    ensures Inserted(p, s, e, now) == s
  {}

  // ---- Any order of insertion

  predicate AllRoomy(p: Policy, events: seq<Event>, now: nat) {
    forall n :: 0 <= n < |events| ==> Roomy(p, InsertedAll(p, [], events[..n], now), events[n], now)
  }

  /** Whatever the order and repetitions, what is left are the first of the winners. */
  lemma {:induction false} Converges(p: Policy, events: seq<Event>, now: nat)
    requires Hashed(Elements(events)) && AllRoomy(p, events, now)
    ensures Ideal(p, InsertedAll(p, [], events, now), Elements(events), now)
  {
    hide Roomy, Before, Candidate, Inserted, Ideal, Winners, Hashed;
    if events == [] {
      NothingIdeal(p, now);
      assert Elements(events) == {};
    } else {
      assert Hashed(Elements(events[..|events| - 1])) by { FewerHashed(Elements(events[..|events| - 1]), Elements(events)); }
      var n := |events| - 1;
      assert events == events[..n] + [events[n]];
      assert Elements(events) == Elements(events[..n]) + {events[n]};
      forall k | 0 <= k < n ensures Roomy(p, InsertedAll(p, [], events[..n][..k], now), events[..n][k], now) {
        assert events[..n][..k] == events[..k];
      }
      Converges(p, events[..n], now);
      InsertedIdeal(p, InsertedAll(p, [], events[..n], now), Elements(events[..n]), events[n], now);
    }
  }

  lemma NothingIdeal(p: Policy, now: nat)
    ensures Ideal(p, [], {}, now)
  {
    assert Winners(p, {}, now) == {} && Elements<Event>([]) == {};
  }

  lemma FewerHashed(some: set<Event>, events: set<Event>)
    requires Hashed(events) && some <= events
    ensures Hashed(some)
  {}

  /** Two runs over the same events end with the same list. */
  lemma OrderDoesNotMatter(p: Policy, events: seq<Event>, others: seq<Event>, now: nat)
    requires Elements(events) == Elements(others) && Hashed(Elements(events))
    requires AllRoomy(p, events, now) && AllRoomy(p, others, now)
    ensures InsertedAll(p, [], events, now) == InsertedAll(p, [], others, now)
  {
    hide Before, Roomy, InsertedAll, Winners, AllRoomy;
    Converges(p, events, now);
    Converges(p, others, now);
    IdealUnique(p, InsertedAll(p, [], events, now), InsertedAll(p, [], others, now), Elements(events), now);
  }

  // ---- What always holds of the list

  /** Fit to be kept together. */
  ghost predicate Compatible(p: Policy, events: set<Event>) {
    && (forall x :: x in events ==> p.accepts(x) && x.size <= MAX_EVENT_BYTES)
    && (forall x, y :: x in events && y in events && x != y ==> x.id != y.id && !Rivals(x, y))
  }

  ghost predicate Kept(p: Policy, s: seq<Event>) {
    && Ordered(s) && |s| <= p.maxEvents && Bytes(s) + ENVELOPE <= MAX_SNAPSHOT_BYTES
    && Compatible(p, Elements(s))
  }

  lemma CompatibleMore(p: Policy, events: set<Event>, e: Event)
    requires Compatible(p, events) && p.accepts(e) && e.size <= MAX_EVENT_BYTES
    requires forall x :: x in events ==> x.id != e.id && !Rivals(x, e)
    ensures Compatible(p, events + {e})
  {
    hide Rivals;
    forall x | x in events ensures !Rivals(e, x) { RivalsSwap(x, e); }
  }

  lemma CompatibleLess(p: Policy, some: set<Event>, events: set<Event>)
    requires Compatible(p, events) && some <= events
    ensures Compatible(p, some)
  {
    hide Rivals;
  }

  /** An insertion at any time keeps the list in order, without two events of one identifier or coordinate, and within
      its limits. */
  lemma InsertedKept(p: Policy, s: seq<Event>, e: Event, now: nat)
    requires Kept(p, s)
    ensures Kept(p, Inserted(p, s, e, now))
  {
    hide Before, Current, Rivals, Bytes, Placed, Without, Trimmed, Over, Compatible;
    if !Refused(p, s, e, now) {
      WithoutMeans(s, e, now);
      var kept := Without(s, e, now);
      forall x | x in kept ensures x.id != e.id && x in s {}
      PlacedMeans(kept, e);
      var t := Placed(kept, e);
      CompatibleLess(p, Elements(kept), Elements(s));
      CompatibleMore(p, Elements(kept), e);
      TrimmedPrefix(p, t);
      var n := |Trimmed(p, t)|;
      assert forall x :: x in t[..n] ==> x in t;
      CompatibleLess(p, Elements(t[..n]), Elements(kept) + {e});
      WithinTrimmed(p, Trimmed(p, t));
    }
  }

  lemma WithinTrimmed(p: Policy, s: seq<Event>)
    requires s == [] || !Over(p, s)
    ensures |s| <= p.maxEvents && Bytes(s) + ENVELOPE <= MAX_SNAPSHOT_BYTES
  {}

  lemma EmptyKept(p: Policy)
    ensures Kept(p, [])
  {}

  // ---- Snapshots

  /** What is written out: the current events, in order. */
  function Snapshot(s: seq<Event>, now: nat): seq<Event> {
    if s == [] then []
    else Snapshot(s[..|s| - 1], now) + if Current(s[|s| - 1], now) then [s[|s| - 1]] else []
  }

  lemma BytesAppend(s: seq<Event>, e: Event)
    ensures Bytes(s + [e]) == Bytes(s) + e.size + 1
  {
    assert (s + [e])[..|s|] == s;
  }

  lemma {:induction false} SnapshotMeans(s: seq<Event>, now: nat)
    requires Ordered(s)
    ensures Ordered(Snapshot(s, now)) && Bytes(Snapshot(s, now)) <= Bytes(s) && |Snapshot(s, now)| <= |s|
    ensures forall x :: x in Snapshot(s, now) <==> x in s && Current(x, now)
  {
    hide Before, Current, Ordered;
    if s == [] {
      NoneOrdered();
    } else {
      var n := |s| - 1;
      OrderedLast(s);
      SnapshotMeans(s[..n], now);
      var t := Snapshot(s[..n], now);
      assert t + [] == t;
      if Current(s[n], now) {
        OrderedAppend(t, s[n]);
        BytesAppend(t, s[n]);
      }
    }
  }

  lemma NotRefused(p: Policy, s: seq<Event>, e: Event, now: nat)
    requires Candidate(p, e, now) && forall x :: x in s ==> x.id != e.id && !Rivals(x, e)
    ensures !Refused(p, s, e, now)
  {
    hide Before, Rivals, Candidate;
    assert forall i :: 0 <= i < |s| ==> s[i] in s;
  }

  lemma PlacedLast(s: seq<Event>, e: Event)
    requires forall x :: x in s ==> Before(x, e)
    ensures Placed(s, e) == s + [e]
  {
    hide Before;
    if s != [] { assert s[|s| - 1] in s; }
  }

  lemma KeptLast(p: Policy, s: seq<Event>, e: Event)
    requires Kept(p, s + [e])
    ensures Ordered(s) && p.accepts(e) && e.size <= MAX_EVENT_BYTES && !Over(p, s + [e])
    ensures forall x :: x in s ==> Before(x, e) && x.id != e.id && !Rivals(x, e)
  {
    hide Before, Bytes, Rivals;
    var t := s + [e];
    assert t[..|s|] == s && t[|s|] == e && e in Elements(t);
    OrderedLast(t);
    forall x | x in s ensures x != e && x in Elements(t) { BeforeTotal(x, e); }
  }

  /** An event after all others, of its own coordinate and within the limits, is just appended. */
  lemma Appended(p: Policy, s: seq<Event>, e: Event, now: nat)
    requires Kept(p, s + [e]) && Current(e, now) && forall x :: x in s ==> Current(x, now)
    ensures Inserted(p, s, e, now) == s + [e]
  {
    hide Before, Current, Rivals, Bytes, Ordered, Kept, Refused, Placed, Without, Over;
    KeptLast(p, s, e);
    WithoutMeans(s, e, now);
    OrderedUnique(Without(s, e, now), s);
    PlacedLast(s, e);
    NotRefused(p, s, e, now);
  }

  /** A snapshot read back into an empty store gives the same list, even at the byte limit. */
  lemma {:induction false} SnapshotRestores(p: Policy, s: seq<Event>, now: nat)
    requires Kept(p, s)
    ensures InsertedAll(p, [], Snapshot(s, now), now) == Snapshot(s, now)
  {
    hide Current, Before, Rivals, Bytes, Compatible;
    SnapshotMeans(s, now);
    CompatibleLess(p, Elements(Snapshot(s, now)), Elements(s));
    RestoredPrefix(p, Snapshot(s, now), now);
  }

  lemma {:induction false} RestoredPrefix(p: Policy, t: seq<Event>, now: nat)
    requires Kept(p, t) && forall x :: x in t ==> Current(x, now)
    ensures InsertedAll(p, [], t, now) == t
  {
    hide Current, Before, Rivals, Inserted, Compatible;
    if t != [] {
      var n := |t| - 1;
      assert t == t[..n] + [t[n]];
      CompatibleLess(p, Elements(t[..n]), Elements(t));
      RestoredPrefix(p, t[..n], now);
      Appended(p, t[..n], t[n], now);
    }
  }

  /** With few enough events allowed the byte limit never binds. */
  lemma SmallIsRoomy(p: Policy, s: seq<Event>, e: Event, now: nat)
    requires Kept(p, s) && p.maxEvents * (MAX_EVENT_BYTES + 1) + ENVELOPE <= MAX_SNAPSHOT_BYTES
    ensures Roomy(p, s, e, now)
  {
    hide Before, Current, Rivals, Placed, Without;
    if !Refused(p, s, e, now) {
      WithoutMeans(s, e, now);
      PlacedMeans(Without(s, e, now), e);
      var t := Placed(Without(s, e, now), e);
      forall i | 0 <= i < |t| ensures t[i].size <= MAX_EVENT_BYTES { assert t[i] in t; }
      BytesSmall(t[..Least(p.maxEvents, |t|)]);
    }
  }

  lemma {:induction false} BytesSmall(s: seq<Event>)
    requires forall i :: 0 <= i < |s| ==> s[i].size <= MAX_EVENT_BYTES
    ensures Bytes(s) <= |s| * (MAX_EVENT_BYTES + 1)
  {
    if s != [] { BytesSmall(s[..|s| - 1]); }
  }

  lemma {:induction false} AllKept(p: Policy, events: seq<Event>, now: nat)
    ensures Kept(p, InsertedAll(p, [], events, now))
  {
    hide Kept, Inserted;
    if events == [] {
      EmptyKept(p);
    } else {
      AllKept(p, events[..|events| - 1], now);
      InsertedKept(p, InsertedAll(p, [], events[..|events| - 1], now), events[|events| - 1], now);
    }
  }

  /** With few enough events allowed the outcome depends on nothing but the set of events. */
  lemma FewConverge(p: Policy, events: seq<Event>, now: nat)
    requires p.maxEvents * (MAX_EVENT_BYTES + 1) + ENVELOPE <= MAX_SNAPSHOT_BYTES && Hashed(Elements(events))
    ensures Ideal(p, InsertedAll(p, [], events, now), Elements(events), now)
  {
    hide Kept, Roomy, InsertedAll, Ideal;
    forall n | 0 <= n < |events| ensures Roomy(p, InsertedAll(p, [], events[..n], now), events[n], now) {
      AllKept(p, events[..n], now);
      SmallIsRoomy(p, InsertedAll(p, [], events[..n], now), events[n], now);
    }
    Converges(p, events, now);
  }

  // ---- Events that all fit

  function Cost(size: nat): nat { size + 1 }

  /** The bytes of a set of events. */
  ghost function Total(events: set<Event>): nat { Sum(map e | e in events :: e.size, Cost) }

  lemma TotalMore(events: set<Event>, e: Event)
    requires e in events
    ensures Total(events) == e.size + 1 + Total(events - {e})
  {
    var sizes := map x | x in events :: x.size;
    SumRemove(sizes, Cost, e);
    assert sizes - {e} == map x | x in events - {e} :: x.size;
  }

  lemma {:induction false} BytesWithin(s: seq<Event>, events: set<Event>)
    requires Ordered(s) && Elements(s) <= events
    ensures Bytes(s) <= Total(events)
  {
    hide Before, Ordered, Total;
    if s != [] {
      var n := |s| - 1;
      OrderedLast(s);
      BeforeTotal(s[n], s[n]);
      assert s[n] in Elements(s);
      forall x | x in Elements(s[..n]) ensures x in events - {s[n]} { assert x in Elements(s); }
      TotalMore(events, s[n]);
      BytesWithin(s[..n], events - {s[n]});
    }
  }

  lemma {:induction false} InsertedFrom(p: Policy, events: seq<Event>, now: nat)
    ensures Elements(InsertedAll(p, [], events, now)) <= Candidates(p, Elements(events), now)
  {
    hide Candidate, Placed, Without, Trimmed, Before, Current, Rivals, Kept;
    if events != [] {
      var n := |events| - 1;
      var s, e := InsertedAll(p, [], events[..n], now), events[n];
      InsertedFrom(p, events[..n], now);
      AllKept(p, events[..n], now);
      assert events == events[..n] + [e];
      if !Refused(p, s, e, now) {
        PlacedFrom(p, s, e, now);
        var t := Placed(Without(s, e, now), e);
        TrimmedPrefix(p, t);
        assert InsertedAll(p, [], events, now) == Trimmed(p, t);
        forall x | x in Trimmed(p, t) ensures x in Elements(t) {}
      }
      assert e in Elements(events) && Elements(events[..n]) <= Elements(events);
    }
  }

  lemma PlacedFrom(p: Policy, s: seq<Event>, e: Event, now: nat)
    requires Kept(p, s) && !Refused(p, s, e, now)
    ensures Ordered(Placed(Without(s, e, now), e)) && Elements(Placed(Without(s, e, now), e)) <= Elements(s) + {e}
  {
    hide Before, Current, Rivals, Placed, Without, Bytes;
    WithoutMeans(s, e, now);
    PlacedMeans(Without(s, e, now), e);
  }

  /** The events that may be kept fit together. */
  ghost predicate AllFit(p: Policy, events: set<Event>, now: nat) {
    Total(Candidates(p, events, now)) + ENVELOPE <= MAX_SNAPSHOT_BYTES
  }

  /** If they fit, the outcome depends on nothing but the set of events. */
  lemma FitConverge(p: Policy, events: seq<Event>, now: nat)
    requires Hashed(Elements(events)) && AllFit(p, Elements(events), now)
    ensures AllRoomy(p, events, now)
    ensures Ideal(p, InsertedAll(p, [], events, now), Elements(events), now)
  {
    hide Kept, InsertedAll, Ideal, Total, Placed, Without, Candidate, Refused;
    forall n | 0 <= n < |events| ensures Roomy(p, InsertedAll(p, [], events[..n], now), events[n], now) {
      FitRoomy(p, events, now, n);
    }
    Converges(p, events, now);
  }

  lemma FitRoomy(p: Policy, events: seq<Event>, now: nat, n: nat)
    requires AllFit(p, Elements(events), now) && n < |events|
    ensures Roomy(p, InsertedAll(p, [], events[..n], now), events[n], now)
  {
    hide Kept, InsertedAll, Total, Placed, Without, Before, Current, Rivals;
    var s, e := InsertedAll(p, [], events[..n], now), events[n];
    if !Refused(p, s, e, now) {
      AllKept(p, events[..n], now);
      InsertedFrom(p, events[..n], now);
      PlacedFrom(p, s, e, now);
      var t := Placed(Without(s, e, now), e);
      var front := t[..Least(p.maxEvents, |t|)];
      assert forall x :: x in events[..n] ==> x in events;
      assert Elements(front) <= Elements(t);
      BytesWithin(front, Candidates(p, Elements(events), now));
    }
  }

  /** So two orders of events that fit end with the same list. */
  lemma FitOrderDoesNotMatter(p: Policy, events: seq<Event>, others: seq<Event>, now: nat)
    requires Elements(events) == Elements(others) && Hashed(Elements(events)) && AllFit(p, Elements(events), now)
    ensures InsertedAll(p, [], events, now) == InsertedAll(p, [], others, now)
  {
    hide Before, Roomy, InsertedAll, Winners, AllRoomy, AllFit;
    FitConverge(p, events, now);
    FitConverge(p, others, now);
    OrderDoesNotMatter(p, events, others, now);
  }
}
