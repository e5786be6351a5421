/** What one peer answers to a frame, as a function of its sealed storage: range splitting, the
    answers to each kind of range, and the truncation that keeps a frame within its size limit. */
module Steps {
  import opened Wrappers
  import opened Codec
  import opened Items
  import opened Wire

  const BUCKETS := 16

  /** A peer: its records, the fingerprint of a run of identifiers, its frame limit (0 for none) and role. */
  datatype Peer = Peer(items: seq<Item>, fingerprint: seq<Id> -> Hash, limit: nat, initiator: bool)

  ghost predicate ValidPeer(c: Peer) {
    Sealed(c.items) && |c.items| <= MAX_U64 && (c.limit == 0 || 4096 <= c.limit <= MAX_U64)
  }

  function Span(c: Peer, lower: nat, upper: nat): (ids: seq<Id>)
    requires lower <= upper <= |c.items|
    ensures |ids| == upper - lower
  {
    Ids(c.items[lower..upper])
  }

  function Hashed(c: Peer, lower: nat, upper: nat): Hash
    requires lower <= upper <= |c.items|
  {
    c.fingerprint(Span(c, lower, upper))
  }

  // ---- Splitting a range

  /** Where bucket i of `n` items starting at `lower` begins; the first n % 16 buckets hold one item more. */
  function Edge(lower: nat, n: nat, i: nat): nat {
    lower + i * (n / BUCKETS) + if i < n % BUCKETS then i else n % BUCKETS
  }

  lemma EdgeStep(lower: nat, n: nat, i: nat)
    ensures Edge(lower, n, i + 1) == Edge(lower, n, i) + n / BUCKETS + (if i < n % BUCKETS then 1 else 0)
    ensures Edge(lower, n, 0) == lower
    ensures Edge(lower, n, BUCKETS) == lower + n
  {
    assert (i + 1) * (n / BUCKETS) == i * (n / BUCKETS) + n / BUCKETS;
  }

  lemma {:induction false} EdgesAscend(lower: nat, n: nat, i: nat, j: nat)
    requires i <= j
    ensures Edge(lower, n, i) + (j - i) * (n / BUCKETS) <= Edge(lower, n, j)
    decreases j
  {
    if i < j {
      EdgesAscend(lower, n, i, j - 1);
      EdgeStep(lower, n, j - 1);
      assert (j - i) * (n / BUCKETS) == (j - 1 - i) * (n / BUCKETS) + n / BUCKETS;
    }
  }

  lemma EdgeInside(lower: nat, n: nat, i: nat)
    requires i <= BUCKETS
    ensures lower <= Edge(lower, n, i) <= lower + n
    ensures n >= BUCKETS ==> (Edge(lower, n, i) == lower + n <==> i == BUCKETS)
    ensures n >= 2 * BUCKETS && i < BUCKETS ==> Edge(lower, n, i) + 2 <= Edge(lower, n, i + 1) <= lower + n
  {
    EdgeStep(lower, n, i);
    EdgesAscend(lower, n, 0, i);
    EdgesAscend(lower, n, i, BUCKETS);
    if i < BUCKETS { EdgesAscend(lower, n, i + 1, BUCKETS); }
  }

  /** Bucket i: a fingerprint up to a bound that separates it from the next bucket. */
  function Bucket(c: Peer, lower: nat, upper: nat, bound: Bound, i: nat): Range
    requires ValidPeer(c) && lower + 2 * BUCKETS <= upper <= |c.items| && i < BUCKETS
  {
    EdgeInside(lower, upper - lower, i);
    var here, next := Edge(lower, upper - lower, i), Edge(lower, upper - lower, i + 1);
    Range(if next == upper then bound else
            ItemKeyOrder(c.items[next - 1], c.items[next]);
            MinimalBound(c.items[next - 1], c.items[next]),
          Fingerprint(Hashed(c, here, next)))
  }

  function Split(c: Peer, lower: nat, upper: nat, bound: Bound): (ranges: seq<Range>)
    requires ValidPeer(c) && lower <= upper <= |c.items|
  {
    if upper - lower < 2 * BUCKETS then [Range(bound, IdList(Span(c, lower, upper)))]
    else seq(BUCKETS, i requires 0 <= i < BUCKETS => Bucket(c, lower, upper, bound, i))
  }

  // ---- Answering one range

  /** The answer so far. `skip` says that ranges up to `prev` are settled but not yet written as a Skip;
      `cut` is the bound from which a trailing fingerprint replaced everything. */
  datatype Progress = Progress(
    out: seq<Range>, prev: Bound, index: nat, skip: bool,
    have: multiset<Id>, need: multiset<Id>, cut: Option<Bound>)

  function Start(): Progress {
    Progress([], ZERO_BOUND, 0, false, multiset{}, multiset{}, None)
  }

  predicate Exceeded(c: Peer, length: nat) {
    c.limit != 0 && length + 200 > c.limit
  }

  function Pending(p: Progress): seq<Range> {
    if p.skip then [Range(p.prev, Skip)] else []
  }

  /** Removes our identifiers one by one from theirs: those not found are ours alone, those left theirs alone. */
  function Sift(ours: seq<Id>, theirs: set<Id>): (multiset<Id>, set<Id>)
    decreases |ours|
  {
    if ours == [] then (multiset{}, theirs)
    else if ours[0] in theirs then Sift(ours[1..], theirs - {ours[0]})
    else
      var (have, need) := Sift(ours[1..], theirs);
      (multiset{ours[0]} + have, need)
  }

  /** How many of `count` identifiers are listed before the frame is found too long. */
  function Fitting(c: Peer, used: nat, n: nat, count: nat): (m: nat)
    requires n <= count
    ensures n <= m <= count
    decreases count - n
  {
    if n == count || Exceeded(c, used + 32 * n) then n else Fitting(c, used, n + 1, count)
  }

  /** One range's answer before the frame's length is looked at: `out` is committed, `extra` is not. */
  datatype Draft = Draft(
    out: seq<Range>, extra: seq<Range>, upper: nat, truncated: bool, skip: bool,
    have: multiset<Id>, need: multiset<Id>)

  function Upper(c: Peer, p: Progress, r: Range): nat
    requires p.index <= |c.items|
  {
    LowerBound(c.items, p.index, Key(r.bound))
  }

  function Settled(p: Progress, upper: nat): Draft {
    Draft(p.out, [], upper, false, true, p.have, p.need)
  }

  function DrawFingerprint(c: Peer, p: Progress, bound: Bound, theirs: Hash, upper: nat): Draft
    requires ValidPeer(c) && p.index <= upper <= |c.items|
  {
    if theirs == Hashed(c, p.index, upper) then Settled(p, upper)
    else Draft(p.out, Pending(p) + Split(c, p.index, upper, bound), upper, false, false, p.have, p.need)
  }

  function DrawReport(c: Peer, p: Progress, theirs: seq<Id>, upper: nat): Draft
    requires p.index <= upper <= |c.items|
  {
    var (have, need) := Sift(Span(c, p.index, upper), set id | id in theirs);
    Settled(p, upper).(have := p.have + have, need := p.need + multiset(need))
  }

  function DrawIdList(c: Peer, p: Progress, bound: Bound, upper: nat): Draft
    requires p.index <= upper <= |c.items|
  {
    var n := Fitting(c, |Frame(p.out)|, 0, upper - p.index);
    var end := p.index + n;
    var list := IdList(Span(c, p.index, end));
    if end < upper then
      Draft(p.out + Pending(p) + [Range(FromItem(c.items[end]), list)], [], end, true, false, p.have, p.need)
    else
      Draft(p.out + Pending(p) + [Range(bound, list)], [], upper, false, false, p.have, p.need)
  }

  function Draw(c: Peer, p: Progress, r: Range): Draft
    requires ValidPeer(c) && p.index <= |c.items|
  {
    var upper := Upper(c, p, r);
    match r.payload
    case Skip => Settled(p, upper)
    case Fingerprint(theirs) => DrawFingerprint(c, p, r.bound, theirs, upper)
    case IdList(theirs) =>
      if c.initiator then DrawReport(c, p, theirs, upper) else DrawIdList(c, p, r.bound, upper)
  }

  /** Whether the drafted answer makes the frame too long, so that it ends here. */
  predicate Full(c: Peer, d: Draft) {
    d.truncated || Exceeded(c, |Frame(d.out + d.extra)|)
  }

  function Tail(c: Peer, from: nat): Range
    requires from <= |c.items|
  {
    Range(MAX_BOUND, Fingerprint(Hashed(c, from, |c.items|)))
  }

  /** The bound from which the trailing fingerprint hashes. */
  function CutBound(p: Progress, r: Range, d: Draft): Bound {
    if d.truncated && d.out != [] then d.out[|d.out| - 1].bound
    else if d.extra == [] then r.bound
    else p.prev
  }

  function Close(c: Peer, p: Progress, r: Range, d: Draft): Progress
    requires p.index <= |c.items| && d.upper <= |c.items|
  {
    if Full(c, d) then
      var cut := CutBound(p, r, d);
      var boundary := if d.truncated then [] else [Range(cut, Skip)];
      var from := if d.extra == [] then d.upper else p.index;
      Progress(d.out + boundary + [Tail(c, from)], r.bound, d.upper, d.skip, d.have, d.need, Some(cut))
    else
      Progress(d.out + d.extra, r.bound, d.upper, d.skip, d.have, d.need, None)
  }

  function Advance(c: Peer, p: Progress, r: Range): (q: Progress)
    requires ValidPeer(c) && p.index <= |c.items|
    ensures q.index <= |c.items|
  {
    Close(c, p, r, Draw(c, p, r))
  }

  /** Answers the ranges in turn until one overfills the frame. */
  function Process(c: Peer, p: Progress, ranges: seq<Range>): Progress
    requires ValidPeer(c) && p.index <= |c.items|
    decreases |ranges|
  {
    if ranges == [] || p.cut.Some? then p else Process(c, Advance(c, p, ranges[0]), ranges[1..])
  }

  /** The whole answer to the ranges of a frame; a flaw matters only if the frame was read that far. */
  function Outcome(c: Peer, p: Progress, listing: Listing): Result<Progress>
    requires ValidPeer(c) && p.index <= |c.items|
  {
    var q := Process(c, p, listing.ranges);
    if q.cut.None? && listing.flaw.Err? then Err(listing.flaw.error) else Ok(q)
  }

  datatype Answer = Answer(frame: seq<byte>, have: multiset<Id>, need: multiset<Id>)

  function Reply(c: Peer, query: seq<byte>): Result<Answer>
    requires ValidPeer(c)
  {
    if query == [] then Err(ParseEndsPrematurely)
    else if query[0] < 0x60 || query[0] > 0x6F then Err(InvalidProtocolVersion)
    else if query[0] != PROTOCOL_VERSION then
      if c.initiator then Err(UnsupportedProtocolVersion) else Ok(Answer([PROTOCOL_VERSION], multiset{}, multiset{}))
    else
      match Outcome(c, Start(), ReadRanges(0, query[1..]))
      case Err(e) => Err(e)
      case Ok(p) => Ok(Answer(Frame(p.out), p.have, p.need))
  }

  /** The initiator's opening: its whole storage, split. */
  function Opening(c: Peer): seq<Range>
    requires ValidPeer(c)
  {
    Split(c, 0, |c.items|, MAX_BOUND)
  }
}
