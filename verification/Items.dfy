/** Records and range bounds, ordered by timestamp and then by identifier bytes, and the sealed
    storage (a strictly sorted sequence) that both peers of a reconciliation search. */
module Items {
  import opened Codec

  type Id = s: seq<byte> | |s| == 32 witness Zeros(32)

  function Zeros(n: nat): (z: seq<byte>)
    ensures |z| == n && forall i :: 0 <= i < n ==> z[i] == 0
  {
    seq(n, _ => 0)
  }

  datatype Item = Item(timestamp: u64, id: Id)

  /** A bound names the least item it does not exclude: its prefix is padded with zero bytes. */
  datatype RawBound = Bound(timestamp: u64, prefix: seq<byte>)
  type Bound = b: RawBound | |b.prefix| <= 32 witness Bound(0, [])

  const ZERO_BOUND: Bound := Bound(0, [])
  const MAX_BOUND: Bound := Bound(MAX_U64, [])

  function Padded(prefix: seq<byte>): (id: Id)
    requires |prefix| <= 32
  {
    prefix + Zeros(32 - |prefix|)
  }

  // ---- The order, as one number

  /** `timestamp` followed by the bytes of `id`, read as base-256 digits. */
  function Digits(timestamp: nat, id: seq<byte>): nat {
    if id == [] then timestamp
    else Digits(timestamp, id[..|id| - 1]) * 256 + id[|id| - 1]
  }

  function ItemKey(item: Item): nat { Digits(item.timestamp, item.id) }

  function Key(bound: Bound): nat { Digits(bound.timestamp, Padded(bound.prefix)) }

  /** Byte-wise lexicographic order on strings of one length. */
  ghost predicate LexLess(a: seq<byte>, b: seq<byte>) {
    exists i :: 0 <= i < |a| && i < |b| && a[..i] == b[..i] && a[i] < b[i]
  }

  ghost predicate Before(t: nat, a: seq<byte>, u: nat, b: seq<byte>) {
    t < u || (t == u && LexLess(a, b))
  }

  lemma LexLessSnoc(a: seq<byte>, x: byte, b: seq<byte>, y: byte)
    requires |a| == |b|
    ensures LexLess(a + [x], b + [y]) <==> LexLess(a, b) || (a == b && x < y)
  {
    var a', b' := a + [x], b + [y];
    if LexLess(a', b') {
      var i :| 0 <= i < |a'| && a'[..i] == b'[..i] && a'[i] < b'[i];
      if i < |a| {
        assert a[..i] == a'[..i] && b[..i] == b'[..i];
      } else {
        assert a == a'[..i] && b == b'[..i];
      }
    }
    if LexLess(a, b) {
      var i :| 0 <= i < |a| && a[..i] == b[..i] && a[i] < b[i];
      assert a[..i] == a'[..i] && b[..i] == b'[..i];
    }
    if a == b && x < y {
      assert a == a'[..|a|] && b == b'[..|a|];
    }
  }

  /** Comparing keys is comparing (timestamp, id bytes) lexicographically. */
  lemma {:induction false} KeyOrder(t: nat, a: seq<byte>, u: nat, b: seq<byte>)
    requires |a| == |b|
    ensures Digits(t, a) < Digits(u, b) <==> Before(t, a, u, b)
    ensures Digits(t, a) == Digits(u, b) <==> t == u && a == b
  {
    if a != [] {
      var n := |a| - 1;
      KeyOrder(t, a[..n], u, b[..n]);
      LexLessSnoc(a[..n], a[n], b[..n], b[n]);
      assert a == a[..n] + [a[n]] && b == b[..n] + [b[n]];
    }
  }

  lemma ItemKeyOrder(x: Item, y: Item)
    ensures ItemKey(x) < ItemKey(y) <==> Before(x.timestamp, x.id, y.timestamp, y.id)
    ensures ItemKey(x) == ItemKey(y) <==> x == y
  {
    KeyOrder(x.timestamp, x.id, y.timestamp, y.id);
  }

  lemma ZeroKey()
    ensures Key(ZERO_BOUND) == 0
  {
    ZeroDigits(32);
    assert Padded([]) == Zeros(32);
  }

  lemma {:induction false} ZeroDigits(n: nat)
    ensures Digits(0, Zeros(n)) == 0
  {
    if n > 0 {
      ZeroDigits(n - 1);
      assert Zeros(n)[..n - 1] == Zeros(n - 1);
    }
  }

  /** The last bound lies above every record older than the largest timestamp. */
  lemma MaxKey(x: Item)
    requires x.timestamp < MAX_U64
    ensures ItemKey(x) < Key(MAX_BOUND)
  {
    KeyOrder(x.timestamp, x.id, MAX_U64, Padded([]));
  }

  // ---- Bounds that separate two neighbouring items

  function FromItem(item: Item): Bound { Bound(item.timestamp, item.id) }

  lemma FromItemKey(item: Item)
    ensures Key(FromItem(item)) == ItemKey(item)
  {
    assert Padded(item.id) == item.id;
  }

  function SharedPrefix(a: seq<byte>, b: seq<byte>): (n: nat)
    requires |a| == |b|
    ensures n <= |a| && a[..n] == b[..n] && (n < |a| ==> a[n] != b[n])
    ensures a != b ==> n < |a|
  {
    if a == [] || a[0] != b[0] then 0
    else
      assert a == [a[0]] + a[1..] && b == [b[0]] + b[1..];
      SharedPrefix(a[1..], b[1..]) + 1
  }

  /** The shortest bound above `prev` that does not exclude `curr`. */
  function MinimalBound(prev: Item, curr: Item): Bound
    requires curr.timestamp == prev.timestamp ==> prev.id != curr.id
  {
    if curr.timestamp != prev.timestamp then Bound(curr.timestamp, [])
    else
      Bound(curr.timestamp, curr.id[..SharedPrefix(curr.id, prev.id) + 1])
  }

  lemma PrefixNotAbove(id: Id, n: nat)
    requires n <= 32
    ensures !LexLess(id, Padded(id[..n]))
  {
    var p := Padded(id[..n]);
    assert forall i :: 0 <= i < 32 ==> p[i] <= id[i];
  }

  lemma AgreeUpTo(a: seq<byte>, b: seq<byte>, n: nat)
    requires n <= |a| == |b| && a[..n] == b[..n]
    ensures forall k :: 0 <= k < n ==> a[k] == b[k]
  {
    forall k | 0 <= k < n ensures a[k] == b[k] {
      assert a[k] == a[..n][k];
    }
  }

  /** A bucket boundary put between two neighbours on the wire excludes exactly the left one. */
  lemma MinimalBoundSeparates(prev: Item, curr: Item)
    requires ItemKey(prev) < ItemKey(curr) && prev.id != curr.id
    ensures ItemKey(prev) < Key(MinimalBound(prev, curr)) <= ItemKey(curr)
  {
    ItemKeyOrder(prev, curr);
    var b := MinimalBound(prev, curr);
    var p := Padded(b.prefix);
    KeyOrder(prev.timestamp, prev.id, b.timestamp, p);
    KeyOrder(curr.timestamp, curr.id, b.timestamp, p);
    if curr.timestamp == prev.timestamp {
      var n := SharedPrefix(curr.id, prev.id);
      PrefixNotAbove(curr.id, n + 1);
      var i :| 0 <= i < 32 && prev.id[..i] == curr.id[..i] && prev.id[i] < curr.id[i];
      AgreeUpTo(prev.id, curr.id, n);
      AgreeUpTo(prev.id, curr.id, i);
      assert i == n;
      assert p[..n] == curr.id[..n];
      assert p[n] == curr.id[n];
      assert LexLess(prev.id, p);
    } else {
      assert b.prefix == curr.id[..0];
      PrefixNotAbove(curr.id, 0);
    }
  }

  // ---- Sealed storage

  ghost predicate Sealed(s: seq<Item>) {
    && (forall i, j :: 0 <= i < j < |s| ==> ItemKey(s[i]) < ItemKey(s[j]))
    && (forall i, j :: 0 <= i < j < |s| ==> s[i].id != s[j].id)
    && (forall i :: 0 <= i < |s| ==> s[i].timestamp < MAX_U64)
  }

  /** Records with ascending timestamps and different identifiers are sealed storage. */
  lemma TimesSealed(s: seq<Item>)
    requires forall i, j :: 0 <= i < j < |s| ==> s[i].timestamp < s[j].timestamp && s[i].id != s[j].id
    requires forall i :: 0 <= i < |s| ==> s[i].timestamp < MAX_U64
    ensures Sealed(s)
  {
    hide ItemKey;
    forall i, j | 0 <= i < j < |s| ensures ItemKey(s[i]) < ItemKey(s[j]) {
      ItemKeyOrder(s[i], s[j]);
    }
  }

  /** The first index, from `first` on, of an item that the key does not exclude. */
  function LowerBound(s: seq<Item>, first: nat, key: nat): (i: nat)
    requires first <= |s|
    ensures first <= i <= |s|
    ensures forall k :: first <= k < i ==> ItemKey(s[k]) < key
    ensures i < |s| ==> key <= ItemKey(s[i])
    decreases |s| - first
  {
    if first == |s| || key <= ItemKey(s[first]) then first
    else LowerBound(s, first + 1, key)
  }

  /** Number of items of `s` below the key, which is where the key splits `s`. */
  function Below(s: seq<Item>, key: nat): (i: nat)
    ensures i <= |s|
  {
    LowerBound(s, 0, key)
  }

  lemma BelowSplits(s: seq<Item>, key: nat)
    requires Sealed(s)
    ensures forall k :: 0 <= k < |s| ==> (ItemKey(s[k]) < key <==> k < Below(s, key))
  {}

  lemma BelowIs(s: seq<Item>, key: nat, i: nat)
    requires Sealed(s) && i <= |s|
    requires i > 0 ==> ItemKey(s[i - 1]) < key
    requires i < |s| ==> key <= ItemKey(s[i])
    ensures Below(s, key) == i
  {
    BelowSplits(s, key);
    var j := Below(s, key);
    assert forall k :: 0 <= k < |s| ==> (ItemKey(s[k]) < key <==> k < i);
  }

  lemma BelowMonotone(s: seq<Item>, a: nat, b: nat)
    requires Sealed(s) && a <= b
    ensures Below(s, a) <= Below(s, b)
    ensures LowerBound(s, Below(s, a), b) == Below(s, b)
  {
    BelowSplits(s, a);
    BelowSplits(s, b);
    var i := LowerBound(s, Below(s, a), b);
    if i > 0 && i == Below(s, a) { assert ItemKey(s[i - 1]) < a; }
    BelowIs(s, b, i);
  }

  lemma BelowEnds(s: seq<Item>)
    requires Sealed(s)
    ensures Below(s, 0) == 0
    ensures Below(s, Key(ZERO_BOUND)) == 0
    ensures Below(s, Key(MAX_BOUND)) == |s|
  {
    ZeroKey();
    if s != [] { MaxKey(s[|s| - 1]); }
    BelowIs(s, Key(MAX_BOUND), |s|);
  }

  function Ids(s: seq<Item>): seq<Id> {
    seq(|s|, i requires 0 <= i < |s| => s[i].id)
  }

  /** The items of `s` from one key up to another. */
  function Between(s: seq<Item>, a: nat, b: nat): seq<Item> {
    if Below(s, a) <= Below(s, b) then s[Below(s, a)..Below(s, b)] else []
  }

  lemma InBetween(s: seq<Item>, a: nat, b: nat, x: Item)
    requires Sealed(s) && a <= b
    ensures x in Between(s, a, b) <==> x in s && a <= ItemKey(x) < b
  {
    BelowMonotone(s, a, b);
    BelowSplits(s, a);
    BelowSplits(s, b);
    var lo, hi := Below(s, a), Below(s, b);
    if x in s && a <= ItemKey(x) < b {
      var k :| 0 <= k < |s| && s[k] == x;
      assert lo <= k < hi;
      assert s[lo..hi][k - lo] == x;
    }
  }
}
