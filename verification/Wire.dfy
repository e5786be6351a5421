/** The frames of a Negentropy V1 conversation: a version byte and a list of ranges, each holding the
    bound it ends at (timestamps delta-coded, identifiers as prefixes) and what its sender says of it. */
module Wire {
  import opened Wrappers
  import opened Codec
  import opened Items

  const PROTOCOL_VERSION: byte := 0x61

  type Hash = h: seq<byte> | |h| == 16 witness Zeros(16)

  datatype Payload = Skip | Fingerprint(hash: Hash) | IdList(ids: seq<Id>)

  datatype Range = Range(bound: Bound, payload: Payload)

  // ---- Encoding

  function SaturatingAdd(a: u64, b: u64): u64 { if a + b > MAX_U64 then MAX_U64 else a + b }

  /** A timestamp is written as one more than its distance from the previous one, the largest as 0. */
  function TimestampCode(last: u64, timestamp: u64): u64 {
    if timestamp == MAX_U64 then 0 else SaturatingAdd(SaturatingSub(timestamp, last), 1)
  }

  function TimestampBytes(last: u64, timestamp: u64): seq<byte> {
    VarInt(TimestampCode(last, timestamp))
  }

  function BoundBytes(last: u64, bound: Bound): seq<byte> {
    TimestampBytes(last, bound.timestamp) + VarInt(|bound.prefix|) + bound.prefix
  }

  function Mode(payload: Payload): (m: u64)
    ensures m <= 2
  {
    match payload
    case Skip => 0
    case Fingerprint(_) => 1
    case IdList(_) => 2
  }

  function Flatten<T>(pieces: seq<seq<T>>): seq<T> {
    if pieces == [] then [] else pieces[0] + Flatten(pieces[1..])
  }

  lemma {:induction false} FlattenConcat<T>(a: seq<seq<T>>, b: seq<seq<T>>)
    ensures Flatten(a + b) == Flatten(a) + Flatten(b)
  {
    if a == [] {
      assert a + b == b;
    } else {
      FlattenConcat(a[1..], b);
      assert (a + b)[1..] == a[1..] + b;
      Associative(a[0], Flatten(a[1..]), Flatten(b));
    }
  }

  lemma Associative<T>(x: seq<T>, y: seq<T>, z: seq<T>)
    ensures x + (y + z) == (x + y) + z
  {}

  lemma FlattenOne<T>(piece: seq<T>)
    ensures Flatten([piece]) == piece
  {
    assert Flatten([piece]) == piece + Flatten([]);
  }

  lemma FlattenNone()
    ensures Flatten<byte>([]) == []
  {}

  lemma {:induction false} FlatLength(ids: seq<Id>)
    ensures |Flatten(ids)| == 32 * |ids|
  {
    if ids != [] { FlatLength(ids[1..]); }
  }

  function ContentBytes(payload: Payload): seq<byte>
  {
    match payload
    case Skip => []
    case Fingerprint(hash) => hash
    case IdList(ids) => VarInt(|ids|) + Flatten(ids)
  }

  function RangeBytes(last: u64, r: Range): seq<byte>
  {
    BoundBytes(last, r.bound) + VarInt(Mode(r.payload)) + ContentBytes(r.payload)
  }

  function LastTimestamp(last: u64, ranges: seq<Range>): u64 {
    if ranges == [] then last else ranges[|ranges| - 1].bound.timestamp
  }

  /** Each range's bytes; `last` is the timestamp of the bound written before them. */
  function Pieces(last: u64, ranges: seq<Range>): seq<seq<byte>> {
    seq(|ranges|, i requires 0 <= i < |ranges| =>
      RangeBytes(if i == 0 then last else ranges[i - 1].bound.timestamp, ranges[i]))
  }

  function RangesBytes(last: u64, ranges: seq<Range>): seq<byte> {
    Flatten(Pieces(last, ranges))
  }

  function Frame(ranges: seq<Range>): seq<byte>
  {
    [PROTOCOL_VERSION] + RangesBytes(0, ranges)
  }

  lemma PiecesConcat(last: u64, a: seq<Range>, b: seq<Range>)
    ensures Pieces(last, a + b) == Pieces(last, a) + Pieces(LastTimestamp(last, a), b)
  {
    hide RangeBytes;
  }

  lemma RangesBytesConcat(last: u64, a: seq<Range>, b: seq<Range>)
    ensures RangesBytes(last, a + b) == RangesBytes(last, a) + RangesBytes(LastTimestamp(last, a), b)
  {
    hide Pieces, LastTimestamp;
    PiecesConcat(last, a, b);
    FlattenConcat(Pieces(last, a), Pieces(LastTimestamp(last, a), b));
  }

  lemma RangesBytesOne(last: u64, r: Range)
    ensures RangesBytes(last, [r]) == RangeBytes(last, r)
  {
    assert Pieces(last, [r]) == [RangeBytes(last, r)];
    FlattenOne(RangeBytes(last, r));
  }

  lemma RangesBytesNone(last: u64)
    ensures RangesBytes(last, []) == []
  {}

  lemma RangesBytesSome(last: u64, ranges: seq<Range>)
    requires ranges != []
    ensures RangesBytes(last, ranges) != []
  {
    hide RangeBytes;
    RangesBytesCons(last, ranges[0], ranges[1..]);
    assert ranges == [ranges[0]] + ranges[1..];
    RangeBytesSome(last, ranges[0]);
  }

  lemma RangeBytesSome(last: u64, r: Range)
    ensures RangeBytes(last, r) != []
  {}

  lemma RangesBytesCons(last: u64, r: Range, more: seq<Range>)
    ensures RangesBytes(last, [r] + more) == RangeBytes(last, r) + RangesBytes(r.bound.timestamp, more)
  {
    RangesBytesConcat(last, [r], more);
    RangesBytesOne(last, r);
  }

  lemma RangesBytesSnoc(last: u64, ranges: seq<Range>, i: nat)
    requires i < |ranges|
    ensures RangesBytes(last, ranges[..i + 1])
         == RangesBytes(last, ranges[..i]) + RangesBytes(LastTimestamp(last, ranges[..i]), [ranges[i]])
  {
    RangesBytesConcat(last, ranges[..i], [ranges[i]]);
    assert ranges[..i + 1] == ranges[..i] + [ranges[i]];
  }

  lemma FrameConcat(a: seq<Range>, b: seq<Range>)
    ensures Frame(a + b) == Frame(a) + RangesBytes(LastTimestamp(0, a), b)
    ensures LastTimestamp(0, a + b) == LastTimestamp(LastTimestamp(0, a), b)
  {
    RangesBytesConcat(0, a, b);
  }

  // ---- Decoding, as the engine does it

  function Take(bytes: seq<byte>, n: nat): (p: Parsed<seq<byte>>)
    ensures p.Got? ==> |p.value| == n && bytes == p.value + p.rest
  {
    if |bytes| < n then Bad(ParseEndsPrematurely) else Got(bytes[..n], bytes[n..])
  }

  function ReadTimestamp(last: u64, bytes: seq<byte>): Parsed<u64> {
    match ReadVarInt(bytes)
    case Bad(e) => Bad(e)
    case Got(n, rest) =>
      var delta := if n == 0 then MAX_U64 else n - 1;
      Got(SaturatingAdd(delta, last), rest)
  }

  function ReadBound(last: u64, bytes: seq<byte>): Parsed<Bound> {
    match ReadTimestamp(last, bytes)
    case Bad(e) => Bad(e)
    case Got(timestamp, rest) =>
      match ReadVarInt(rest)
      case Bad(e) => Bad(e)
      case Got(n, rest) =>
        match Take(rest, n)
        case Bad(e) => Bad(e)
        case Got(prefix, rest) =>
          if n > 32 then Bad(IdTooBig) else Got(Bound(timestamp, prefix), rest)
  }

  /** Cuts the first n identifiers off a byte string that is long enough. */
  function Chop(bytes: seq<byte>, n: nat): (ids: seq<Id>)
    requires 32 * n <= |bytes|
    ensures |ids| == n
  {
    if n == 0 then [] else [bytes[..32]] + Chop(bytes[32..], n - 1)
  }

  function ReadPayload(bytes: seq<byte>): Parsed<Payload> {
    match ReadVarInt(bytes)
    case Bad(e) => Bad(e)
    case Got(mode, rest) =>
      if mode == 0 then Got(Skip, rest)
      else if mode == 1 then
        match Take(rest, 16)
        case Bad(e) => Bad(e)
        case Got(hash, rest) => Got(Fingerprint(hash), rest)
      else if mode == 2 then
        match ReadVarInt(rest)
        case Bad(e) => Bad(e)
        case Got(n, rest) =>
          if n > |rest| / 32 then Bad(ParseEndsPrematurely)
          else Got(IdList(Chop(rest, n)), rest[32 * n..])
      else Bad(UnexpectedMode(mode))
  }

  function ReadRange(last: u64, bytes: seq<byte>): (p: Parsed<Range>)
    ensures p.Got? ==> |p.rest| < |bytes|
  {
    match ReadBound(last, bytes)
    case Bad(e) => Bad(e)
    case Got(bound, rest) =>
      ReadBoundShrinks(last, bytes);
      ReadPayloadShrinks(rest);
      match ReadPayload(rest)
      case Bad(e) => Bad(e)
      case Got(payload, rest) => Got(Range(bound, payload), rest)
  }

  lemma ReadBoundShrinks(last: u64, bytes: seq<byte>)
    ensures ReadBound(last, bytes).Got? ==> |ReadBound(last, bytes).rest| < |bytes|
  {
    ReadShrinks(bytes, 0, MaxGroups());
    if ReadTimestamp(last, bytes).Got? {
      ReadShrinks(ReadTimestamp(last, bytes).rest, 0, MaxGroups());
    }
  }

  lemma ReadPayloadShrinks(bytes: seq<byte>)
    ensures ReadPayload(bytes).Got? ==> |ReadPayload(bytes).rest| < |bytes|
  {
    ReadShrinks(bytes, 0, MaxGroups());
    if ReadVarInt(bytes).Got? {
      ReadShrinks(ReadVarInt(bytes).rest, 0, MaxGroups());
    }
  }

  /** The ranges a byte string holds, up to the first that does not parse, and why that one does not. */
  datatype Listing = Listing(ranges: seq<Range>, flaw: Result<()>)

  function ReadRanges(last: u64, bytes: seq<byte>): Listing
    decreases |bytes|
  {
    if bytes == [] then Listing([], Ok(()))
    else
      match ReadRange(last, bytes)
      case Bad(e) => Listing([], Err(e))
      case Got(r, rest) =>
        var more := ReadRanges(r.bound.timestamp, rest);
        Listing([r] + more.ranges, more.flaw)
  }

  // ---- Frames whose bounds never go back

  /** Where range i begins when the ranges start at key `a`. */
  function From(a: nat, ranges: seq<Range>, i: nat): nat
    requires i <= |ranges|
  {
    if i == 0 then a else Key(ranges[i - 1].bound)
  }

  function End(a: nat, ranges: seq<Range>): nat { From(a, ranges, |ranges|) }

  /** Identifier counts that fit the wire's 64-bit integers. */
  ghost predicate Countable(ranges: seq<Range>) {
    forall i :: 0 <= i < |ranges| ==> ranges[i].payload.IdList? ==> |ranges[i].payload.ids| <= MAX_U64
  }

  ghost predicate OrderedFrom(a: nat, ranges: seq<Range>) {
    forall i {:trigger From(a, ranges, i)} :: 0 <= i < |ranges| ==> From(a, ranges, i) <= Key(ranges[i].bound)
  }

  ghost predicate Ordered(ranges: seq<Range>) { OrderedFrom(0, ranges) }

  lemma FromAppend(a: nat, x: seq<Range>, y: seq<Range>, i: nat)
    requires i <= |x + y|
    ensures From(a, x + y, i) == if i <= |x| then From(a, x, i) else From(End(a, x), y, i - |x|)
  {
    hide Key;
  }

  lemma OrderedAppend(a: nat, x: seq<Range>, y: seq<Range>)
    ensures OrderedFrom(a, x + y) <==> OrderedFrom(a, x) && OrderedFrom(End(a, x), y)
    ensures End(a, x + y) == End(End(a, x), y)
  {
    hide Key, From;
    FromAppend(a, x, y, |x + y|);
    FromStart(End(a, x), y);
    forall i | 0 <= i < |x + y|
      ensures From(a, x + y, i) == if i < |x| then From(a, x, i) else From(End(a, x), y, i - |x|)
    {
      FromAppend(a, x, y, i);
    }
    if OrderedFrom(a, x + y) {
      forall i | 0 <= i < |y| ensures From(End(a, x), y, i) <= Key(y[i].bound) {
        assert From(a, x + y, |x| + i) <= Key((x + y)[|x| + i].bound);
      }
    }
  }

  lemma FromStart(a: nat, ranges: seq<Range>)
    ensures From(a, ranges, 0) == a
  {}

  lemma OrderedOne(a: nat, r: Range)
    ensures OrderedFrom(a, [r]) <==> a <= Key(r.bound)
    ensures End(a, [r]) == Key(r.bound)
  {
    hide Key;
    assert From(a, [r], 0) == a && [r][0] == r;
  }

  lemma KeyTimestamps(a: Bound, b: Bound)
    requires Key(a) <= Key(b)
    ensures a.timestamp <= b.timestamp
  {
    KeyOrder(a.timestamp, Padded(a.prefix), b.timestamp, Padded(b.prefix));
  }

  lemma TimestampRoundTrip(last: u64, timestamp: u64, tail: seq<byte>)
    requires last <= timestamp
    ensures ReadTimestamp(last, TimestampBytes(last, timestamp) + tail) == Got(timestamp, tail)
  {
    hide VarInt, ReadVarInt, ReadTimestamp, TimestampCode, SaturatingAdd;
    var n := TimestampCode(last, timestamp);
    VarIntRoundTrip(n, tail);
    ReadTimestampFrom(last, VarInt(n) + tail, n, tail);
    CodeMeans(last, timestamp);
  }

  lemma CodeMeans(last: u64, timestamp: u64)
    requires last <= timestamp
    ensures var n := TimestampCode(last, timestamp);
            SaturatingAdd(if n == 0 then MAX_U64 else n - 1, last) == timestamp
  {}

  lemma ReadTimestampFrom(last: u64, bytes: seq<byte>, n: u64, tail: seq<byte>)
    requires ReadVarInt(bytes) == Got(n, tail)
    ensures ReadTimestamp(last, bytes) == Got(SaturatingAdd(if n == 0 then MAX_U64 else n - 1, last), tail)
  {
    hide ReadVarInt, SaturatingAdd;
  }

  lemma BoundRoundTrip(last: u64, bound: Bound, tail: seq<byte>)
    requires last <= bound.timestamp
    ensures ReadBound(last, BoundBytes(last, bound) + tail) == Got(bound, tail)
  {
    hide TimestampBytes, VarInt, ReadVarInt, ReadTimestamp;
    var p := bound.prefix;
    var afterTime := VarInt(|p|) + (p + tail);
    assert BoundBytes(last, bound) + tail == TimestampBytes(last, bound.timestamp) + afterTime;
    TimestampRoundTrip(last, bound.timestamp, afterTime);
    VarIntRoundTrip(|p|, p + tail);
    assert (p + tail)[..|p|] == p && (p + tail)[|p|..] == tail;
  }

  lemma {:induction false} ChopFlat(ids: seq<Id>, tail: seq<byte>)
    ensures |Flatten(ids)| == 32 * |ids|
    ensures Chop(Flatten(ids) + tail, |ids|) == ids
  {
    FlatLength(ids);
    if ids != [] {
      ChopFlat(ids[1..], tail);
      var bytes := Flatten(ids) + tail;
      assert bytes == ids[0] + (Flatten(ids[1..]) + tail);
      assert bytes[..32] == ids[0] && bytes[32..] == Flatten(ids[1..]) + tail;
    }
  }

  lemma IdListRoundTrip(ids: seq<Id>, tail: seq<byte>)
    requires |ids| <= MAX_U64
    ensures ReadPayload(VarInt(2) + (ContentBytes(IdList(ids)) + tail)) == Got(IdList(ids), tail)
  {
    var body := Flatten(ids) + tail;
    assert ContentBytes(IdList(ids)) + tail == VarInt(|ids|) + body;
    VarIntRoundTrip(2, VarInt(|ids|) + body);
    VarIntRoundTrip(|ids|, body);
    ChopFlat(ids, tail);
    assert body[32 * |ids|..] == tail;
  }

  lemma PayloadRoundTrip(p: Payload, tail: seq<byte>)
    requires p.IdList? ==> |p.ids| <= MAX_U64
    ensures ReadPayload(VarInt(Mode(p)) + (ContentBytes(p) + tail)) == Got(p, tail)
  {
    if p.IdList? {
      IdListRoundTrip(p.ids, tail);
    } else {
      var after := ContentBytes(p) + tail;
      VarIntRoundTrip(Mode(p), after);
      if p.Skip? {
        assert after == tail;
      } else {
        assert after[..16] == p.hash && after[16..] == tail;
      }
    }
  }

  lemma RangeRoundTrip(last: u64, r: Range, tail: seq<byte>)
    requires r.payload.IdList? ==> |r.payload.ids| <= MAX_U64
    requires last <= r.bound.timestamp
    ensures ReadRange(last, RangeBytes(last, r) + tail) == Got(r, tail)
  {
    var rest := VarInt(Mode(r.payload)) + (ContentBytes(r.payload) + tail);
    assert RangeBytes(last, r) + tail == BoundBytes(last, r.bound) + rest;
    BoundRoundTrip(last, r.bound, rest);
    PayloadRoundTrip(r.payload, tail);
  }

  ghost predicate TimesOrdered(last: u64, ranges: seq<Range>) {
    && (ranges != [] ==> last <= ranges[0].bound.timestamp)
    && forall i :: 0 < i < |ranges| ==> ranges[i - 1].bound.timestamp <= ranges[i].bound.timestamp
  }

  lemma {:induction false} RangesRoundTrip(last: u64, ranges: seq<Range>)
    requires Countable(ranges) && TimesOrdered(last, ranges)
    ensures ReadRanges(last, RangesBytes(last, ranges)) == Listing(ranges, Ok(()))
    decreases |ranges|
  {
    if ranges != [] {
      var r, more := ranges[0], ranges[1..];
      var tail := RangesBytes(r.bound.timestamp, more);
      assert ranges == [r] + more;
      RangesBytesCons(last, r, more);
      RangeRoundTrip(last, r, tail);
      assert TimesOrdered(r.bound.timestamp, more) by {
        forall i | 0 < i < |more| ensures more[i - 1].bound.timestamp <= more[i].bound.timestamp {
          assert more[i - 1] == ranges[i] && more[i] == ranges[i + 1];
        }
      }
      RangesRoundTrip(r.bound.timestamp, more);
    }
  }

  lemma OrderedTimes(ranges: seq<Range>)
    requires Ordered(ranges)
    ensures TimesOrdered(0, ranges)
  {
    forall i | 0 < i < |ranges| ensures ranges[i - 1].bound.timestamp <= ranges[i].bound.timestamp {
      assert From(0, ranges, i) <= Key(ranges[i].bound);
      KeyTimestamps(ranges[i - 1].bound, ranges[i].bound);
    }
  }

  /** What the engine reads from a frame with nondecreasing timestamps is what was written into it. */
  lemma FrameRoundTrip(ranges: seq<Range>)
    requires Countable(ranges) && TimesOrdered(0, ranges)
    ensures ReadRanges(0, Frame(ranges)[1..]) == Listing(ranges, Ok(()))
  {
    RangesRoundTrip(0, ranges);
    assert Frame(ranges)[1..] == RangesBytes(0, ranges);
  }
}
