/** What a retained list holds, in terms of the events' own fields: kind, author, identifier, times and tags. */
module RetentionRules {
  import opened Wrappers
  import opened Sets
  import opened Strings
  import opened Retention

  // ---- Expiry

  function Digit(d: nat): char
    requires d < 10
  {
    "0123456789"[d]
  }

  function Decimal(n: nat): string {
    if n < 10 then [Digit(n)] else Decimal(n / 10) + [Digit(n % 10)]
  }

  /** A decimal numeral is read as its number. */
  lemma {:induction false} DecimalRead(n: nat)
    ensures Decimal(n) != [] && AllDigits(Decimal(n)) && Number(Decimal(n)) == n
  {
    if n < 10 {
      assert Number([]) == 0;
      assert [Digit(n)][..0] == [];
    } else {
      DecimalRead(n / 10);
      var s := Decimal(n / 10);
      assert (s + [Digit(n % 10)])[..|s|] == s;
    }
  }

  /** Leading zeros make no difference. */
  lemma {:induction false} LeadingZeroRead(s: string)
    requires AllDigits(s)
    ensures AllDigits("0" + s) && Number("0" + s) == Number(s)
  {
    assert AllDigits("0" + s);
    if s == [] {
      assert "0" + s == "0" && "0"[..0] == [];
      assert Number([]) == 0;
    } else {
      var n := |s| - 1;
      LeadingZeroRead(s[..n]);
      assert ("0" + s)[..n + 1] == "0" + s[..n];
    }
  }

  predicate Named(tag: seq<string>, name: string) { tag != [] && tag[0] == name }

  /** The tag is the first of its name. */
  ghost predicate FirstNamed(tags: seq<seq<string>>, i: nat, name: string) {
    i < |tags| && Named(tags[i], name) && forall j :: 0 <= j < i ==> !Named(tags[j], name)
  }

  lemma {:induction false} FirstTagMeans(tags: seq<seq<string>>, name: string)
    ensures FirstTag(tags, name).None? <==> forall i :: 0 <= i < |tags| ==> !Named(tags[i], name)
    ensures forall i: nat :: FirstNamed(tags, i, name) ==> FirstTag(tags, name) == Some(tags[i])
    ensures FirstTag(tags, name).Some? ==> exists i: nat :: FirstNamed(tags, i, name)
  {
    if tags != [] {
      var rest := tags[1..];
      assert tags == [tags[0]] + rest;
      if Named(tags[0], name) {
        assert FirstNamed(tags, 0, name);
        forall i: nat | FirstNamed(tags, i, name) ensures i == 0 {}
      } else {
        FirstTagMeans(rest, name);
        forall i: nat | FirstNamed(tags, i, name) ensures FirstTag(tags, name) == Some(tags[i]) {
          assert i > 0;
          assert FirstNamed(rest, i - 1, name) by {
            forall j | 0 <= j < i - 1 ensures !Named(rest[j], name) { assert rest[j] == tags[j + 1]; }
          }
        }
        if FirstTag(tags, name).Some? {
          var i: nat :| FirstNamed(rest, i, name);
          assert forall j :: 0 <= j < |rest| ==> rest[j] == tags[j + 1];
          assert FirstNamed(tags, i + 1, name);
        }
      }
    }
  }

  /** An event without an expiration tag never expires; one whose first is the numeral of a time does at that time. */
  lemma ExpiresAt(tags: seq<seq<string>>, now: nat)
    ensures (forall i :: 0 <= i < |tags| ==> !Named(tags[i], "expiration")) ==> Unexpired(tags, now)
    ensures forall i: nat, t: nat ::
              FirstNamed(tags, i, "expiration") && |tags[i]| > 1 && tags[i][1] == Decimal(t) && t <= 0xFFFF_FFFF_FFFF_FFFF ==>
                (Unexpired(tags, now) <==> now < t)
    ensures forall i: nat ::
              FirstNamed(tags, i, "expiration") && (|tags[i]| == 1 || tags[i][1] == "" || !AllDigits(tags[i][1])) ==>
                !Unexpired(tags, now)
  {
    hide FirstTag, Number;
    FirstTagMeans(tags, "expiration");
    forall i: nat, t: nat | FirstNamed(tags, i, "expiration") && |tags[i]| > 1 && tags[i][1] == Decimal(t) && t <= 0xFFFF_FFFF_FFFF_FFFF
      ensures Unexpired(tags, now) <==> now < t
    {
      DecimalRead(t);
    }
    forall i: nat | FirstNamed(tags, i, "expiration") && (|tags[i]| == 1 || tags[i][1] == "" || !AllDigits(tags[i][1]))
      ensures !Unexpired(tags, now)
    {
    }
  }

  // ---- What may be stored, and what replaces what

  /** Selected, not too long, not ephemeral, at most five minutes ahead, and not expired. */
  predicate Storable(p: Policy, e: Event, now: nat) {
    && p.accepts(e) && e.size <= 65_536 && (e.kind < 20_000 || 30_000 <= e.kind)
    && e.created <= now + 300 && e.created <= 0xFFFF_FFFF_FFFF_FFFF && Unexpired(e.tags, now)
  }

  /** Two events of which only one is kept: of one addressable kind with the same author and identifier, or of one
      replaceable kind with the same author. */
  predicate SameSlot(a: Event, b: Event) {
    && a.kind == b.kind && a.author == b.author
    && ((30_000 <= a.kind <= 39_999 && a.identifier == b.identifier)
        || a.kind == 0 || a.kind == 3 || 10_000 <= a.kind <= 19_999)
  }

  /** Created later, or at the same time with the lower identifier. */
  predicate Above(a: Event, b: Event) {
    a.created > b.created || (a.created == b.created && Lex(a.id, b.id))
  }

  ghost predicate Foremost(p: Policy, events: set<Event>, x: Event, now: nat) {
    && x in events && Storable(p, x, now)
    && forall y :: y in events && Storable(p, y, now) && y != x && SameSlot(x, y) ==> Above(x, y)
  }

  lemma StorableMeans(p: Policy, e: Event, now: nat)
    ensures Storable(p, e, now) <==> Candidate(p, e, now)
  {
    hide Unexpired;
  }

  lemma SlotsMean(a: Event, b: Event)
    ensures SameSlot(a, b) <==> Rivals(b, a)
  {}

  lemma ForemostWins(p: Policy, events: set<Event>, x: Event, now: nat)
    ensures Foremost(p, events, x, now) <==> x in Winners(p, events, now)
  {
    hide Storable, Candidate, SameSlot, Rivals, Lex;
    forall y ensures Storable(p, y, now) == Candidate(p, y, now) && SameSlot(x, y) == Rivals(y, x) {
      StorableMeans(p, y, now);
      SlotsMean(x, y);
    }
    if Foremost(p, events, x, now) {
      forall f | f in Candidates(p, events, now) && Rivals(f, x) && f != x ensures Before(x, f) {
        assert SameSlot(x, f);
      }
    }
  }

  function Stored(p: Policy, events: set<Event>, now: nat): set<Event> {
    set e | e in events && Storable(p, e, now)
  }

  /** Few enough to be kept together whatever they are, or small enough. */
  ghost predicate Fits(p: Policy, events: set<Event>, now: nat) {
    p.maxEvents <= 255 || Total(Stored(p, events, now)) + 128 <= 16 * 1024 * 1024
  }

  /** Whatever the order in which events came: what is kept are the storable ones that nothing storable of their slot is
      above, newest first; and if some of these are not kept, as many as allowed are, all above those. */
  lemma KeptExactly(p: Policy, events: seq<Event>, now: nat)
    requires forall a, b :: a in events && b in events && a.id == b.id ==> a == b
    requires Fits(p, Elements(events), now)
    ensures var s := InsertedAll(p, [], events, now);
            && (forall i, j :: 0 <= i < j < |s| ==> Above(s[i], s[j]))
            && |s| <= p.maxEvents
            && (forall x :: x in s ==> Foremost(p, Elements(events), x, now))
            && (forall x :: Foremost(p, Elements(events), x, now) ==>
                  x in s || (|s| == p.maxEvents && forall y :: y in s ==> Above(y, x)))
  {
    hide Foremost, Storable, InsertedAll, Winners, Lex, Total, Candidates;
    var all, s := Elements(events), InsertedAll(p, [], events, now);
    assert Hashed(all);
    if p.maxEvents <= 255 {
      FewConverge(p, events, now);
    } else {
      assert Stored(p, all, now) == Candidates(p, all, now) by { StoredMeans(p, all, now); }
      FitConverge(p, events, now);
    }
    forall x ensures Foremost(p, all, x, now) <==> x in Winners(p, all, now) { ForemostWins(p, all, x, now); }
    assert Ideal(p, s, all, now);
    OrderedSize(s);
    forall x | x in s ensures x in Winners(p, all, now) { assert x in Elements(s); }
    forall x | Foremost(p, all, x, now) && x !in s ensures |s| == p.maxEvents && forall y :: y in s ==> Above(y, x) {
      assert x !in Elements(s);
      MoreThanKept(Elements(s), Winners(p, all, now), p.maxEvents, x);
      assert forall y :: y in s ==> y in Elements(s);
    }
  }

  lemma StoredMeans(p: Policy, events: set<Event>, now: nat)
    ensures Stored(p, events, now) == Candidates(p, events, now)
  {
    hide Storable, Candidate;
    forall e ensures Storable(p, e, now) == Candidate(p, e, now) { StorableMeans(p, e, now); }
  }

  lemma MoreThanKept(top: set<Event>, all: set<Event>, limit: nat, x: Event)
    requires IsTop(limit, top, all) && x in all && x !in top
    ensures |top| == limit
  {
    hide Before;
    SubsetSize(top, all);
  }

  // ---- Two events

  /** Two storable events are both kept unless they share a slot, and then the one above is kept alone. */
  lemma TwoEvents(p: Policy, a: Event, b: Event, now: nat)
    requires a.id != b.id && Storable(p, a, now) && Storable(p, b, now) && 2 <= p.maxEvents
    ensures var s := InsertedAll(p, [], [a, b], now);
            if SameSlot(a, b) then s == [if Above(a, b) then a else b]
            else s == if Above(a, b) then [a, b] else [b, a]
  {
    hide InsertedAll, Storable, Lex, SameSlot, Total;
    var events, s := [a, b], InsertedAll(p, [], [a, b], now);
    assert Elements(events) == {a, b};
    SlotsMean(a, b);
    SlotsMean(b, a);
    RivalsSwap(a, b);
    BeforeTotal(a, b);
    TwoFit(p, a, b, now);
    KeptExactly(p, events, now);
    TwoForemost(p, a, b, now);
    var kept := set x | x in {a, b} && Foremost(p, {a, b}, x, now);
    assert Elements(s) == kept by { AllOfTwo(p, s, a, b, now); }
    var t := if SameSlot(a, b) then [if Above(a, b) then a else b] else if Above(a, b) then [a, b] else [b, a];
    assert Elements(t) == kept;
    assert Ordered(s) && Ordered(t);
    OrderedUnique(s, t);
  }

  lemma AllOfTwo(p: Policy, s: seq<Event>, a: Event, b: Event, now: nat)
    requires a != b && 2 <= p.maxEvents && Ordered(s)
    requires forall x :: x in s ==> Foremost(p, {a, b}, x, now)
    requires forall x :: Foremost(p, {a, b}, x, now) ==> x in s || |s| == p.maxEvents
    ensures Elements(s) == set x | x in {a, b} && Foremost(p, {a, b}, x, now)
  {
    hide Storable, SameSlot, Lex, Before;
    forall x | x in {a, b} && Foremost(p, {a, b}, x, now) ensures x in s {
      if x !in s {
        OrderedSize(s);
        SubsetSize(Elements(s), {a, b} - {x});
      }
    }
  }

  lemma TwoForemost(p: Policy, a: Event, b: Event, now: nat)
    requires a.id != b.id && Storable(p, a, now) && Storable(p, b, now) && (SameSlot(a, b) <==> SameSlot(b, a))
    ensures Foremost(p, {a, b}, a, now) <==> !SameSlot(a, b) || Above(a, b)
    ensures Foremost(p, {a, b}, b, now) <==> !SameSlot(a, b) || Above(b, a)
  {
    hide Storable, SameSlot, Lex;
  }

  lemma TwoFit(p: Policy, a: Event, b: Event, now: nat)
    requires a.id != b.id && Storable(p, a, now) && Storable(p, b, now)
    ensures Fits(p, {a, b}, now)
  {
    hide Total, Unexpired;
    assert Stored(p, {a, b}, now) == {a, b};
    TotalMore({a, b}, a);
    assert {a, b} - {a} == {b};
    TotalMore({b}, b);
    assert {b} - {b} == {};
    NoTotal();
  }

  lemma NoTotal()
    ensures Total({}) == 0
  {
    var none: set<Event> := {};
    assert (map e | e in none :: e.size) == map[];
  }
}
