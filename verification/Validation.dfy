/** The check a session makes on every frame before its engine reads it. */
module Validation {
  import opened Codec
  import opened Items
  import opened Wire

  // ---- Which frames pass

  /** Whether one range's content can be cut off the front, and what remains. */
  function SkipContent(bytes: seq<byte>): (p: Parsed<()>)
    ensures p.Got? ==> |p.rest| < |bytes|
  {
    ReadPayloadShrinks(bytes);
    ReadShrinks(bytes, 0, MaxGroups());
    match ReadVarInt(bytes)
    case Bad(e) => Bad(InvalidFrame)
    case Got(mode, rest) =>
      if mode == 0 then Got((), rest)
      else if mode == 1 then
        if 16 > |rest| then Bad(InvalidFrame) else Got((), rest[16..])
      else if mode == 2 then
        ReadShrinks(rest, 0, MaxGroups());
        match ReadVarInt(rest)
        case Bad(e) => Bad(InvalidFrame)
        case Got(count, rest) =>
          if count * 32 > |rest| then Bad(InvalidFrame) else Got((), rest[count * 32..])
      else Bad(InvalidFrame)
  }

  /** The timestamp at the front, its addition checked. */
  function CheckTimestamp(bytes: seq<byte>, timestamp: u64): (p: Parsed<u64>)
    ensures p.Got? ==> |p.rest| < |bytes|
  {
    ReadShrinks(bytes, 0, MaxGroups());
    match ReadVarInt(bytes)
    case Bad(e) => Bad(InvalidFrame)
    case Got(delta, rest) =>
      if delta == 0 || timestamp == MAX_U64 then Got(MAX_U64, rest)
      else if timestamp + (delta - 1) > MAX_U64 then Bad(InvalidFrame)
      else Got(timestamp + (delta - 1), rest)
  }

  /** The bound at the front, which must not go back before `previous`. */
  function CheckBound(bytes: seq<byte>, timestamp: u64, previous: nat): (p: Parsed<Bound>)
    ensures p.Got? ==> |p.rest| < |bytes|
  {
    match CheckTimestamp(bytes, timestamp)
    case Bad(e) => Bad(InvalidFrame)
    case Got(time, rest) =>
      ReadShrinks(rest, 0, MaxGroups());
      match ReadVarInt(rest)
      case Bad(e) => Bad(InvalidFrame)
      case Got(len, rest) =>
        if len > 32 || len > |rest| then Bad(InvalidFrame)
        else
          var bound := Bound(time, rest[..len]);
          if Key(bound) < previous then Bad(InvalidFrame) else Got(bound, rest[len..])
  }

  predicate Accepts(bytes: seq<byte>, timestamp: u64, previous: nat)
    decreases |bytes|
  {
    bytes == [] ||
    match CheckBound(bytes, timestamp, previous)
    case Bad(_) => false
    case Got(bound, rest) =>
      match SkipContent(rest)
      case Bad(_) => false
      case Got(_, rest) => Accepts(rest, bound.timestamp, Key(bound))
  }

  predicate AcceptsFrame(frame: seq<byte>) {
    frame != [] && frame[0] == PROTOCOL_VERSION && Accepts(frame[1..], 0, 0)
  }

  method TakeTimestamp(bytes: seq<byte>, timestamp: u64) returns (p: Parsed<u64>)
    ensures p == CheckTimestamp(bytes, timestamp)
  {
    var delta := DecodeVarInt(bytes);
    if delta.Bad? { return Bad(InvalidFrame); }
    if delta.value == 0 || timestamp == MAX_U64 { return Got(MAX_U64, delta.rest); }
    if timestamp + (delta.value - 1) > MAX_U64 { return Bad(InvalidFrame); }
    return Got(timestamp + (delta.value - 1), delta.rest);
  }

  method TakeBound(bytes: seq<byte>, timestamp: u64, previous: nat) returns (p: Parsed<Bound>)
    ensures p == CheckBound(bytes, timestamp, previous)
  {
    var time := TakeTimestamp(bytes, timestamp);
    if time.Bad? { return Bad(InvalidFrame); }
    var len := DecodeVarInt(time.rest);
    if len.Bad? || len.value > 32 || len.value > |len.rest| { return Bad(InvalidFrame); }
    var bound: Bound := Bound(time.value, len.rest[..len.value]);
    if Key(bound) < previous { return Bad(InvalidFrame); }
    return Got(bound, len.rest[len.value..]);
  }

  method TakeContent(bytes: seq<byte>) returns (p: Parsed<()>)
    ensures p == SkipContent(bytes)
  {
    var mode := DecodeVarInt(bytes);
    if mode.Bad? { return Bad(InvalidFrame); }
    var rest := mode.rest;
    if mode.value == 1 {
      if 16 > |rest| { return Bad(InvalidFrame); }
      rest := rest[16..];
    } else if mode.value == 2 {
      var count := DecodeVarInt(rest);
      if count.Bad? || count.value * 32 > |count.rest| { return Bad(InvalidFrame); }
      rest := count.rest[count.value * 32..];
    } else if mode.value != 0 {
      return Bad(InvalidFrame);
    }
    return Got((), rest);
  }

  method Validate(frame: seq<byte>) returns (r: Result<()>)
    ensures r == if AcceptsFrame(frame) then Ok(()) else Err(InvalidFrame)
  {
    if |frame| < 1 || frame[0] != PROTOCOL_VERSION { return Err(InvalidFrame); }
    var bytes, timestamp, previous := frame[1..], 0, 0;
    while bytes != []
      invariant 0 <= timestamp <= MAX_U64 && 0 <= previous
      invariant Accepts(frame[1..], 0, 0) <==> Accepts(bytes, timestamp, previous)
      decreases |bytes|
    {
      var bound := TakeBound(bytes, timestamp, previous);
      if bound.Bad? { return Err(InvalidFrame); }
      var content := TakeContent(bound.rest);
      if content.Bad? { return Err(InvalidFrame); }
      timestamp, previous := bound.value.timestamp, Key(bound.value);
      bytes := content.rest;
    }
    return Ok(());
  }

  // ---- Agreement with the engine's parser and printer

  lemma OrderedCons(previous: nat, r: Range, more: seq<Range>)
    ensures OrderedFrom(previous, [r] + more) <==> previous <= Key(r.bound) && OrderedFrom(Key(r.bound), more)
  {
    hide Key, OrderedFrom;
    OrderedOne(previous, r);
    OrderedAppend(previous, [r], more);
  }

  lemma CheckedBoundReads(bytes: seq<byte>, timestamp: u64, previous: nat)
    requires CheckBound(bytes, timestamp, previous).Got?
    ensures ReadBound(timestamp, bytes) == CheckBound(bytes, timestamp, previous)
    ensures previous <= Key(CheckBound(bytes, timestamp, previous).value)
  {
    assert ReadTimestamp(timestamp, bytes) == CheckTimestamp(bytes, timestamp);
  }

  lemma SkippedContentReads(bytes: seq<byte>)
    ensures SkipContent(bytes).Got? <==> ReadPayload(bytes).Got?
    ensures SkipContent(bytes).Got? ==> ReadPayload(bytes).rest == SkipContent(bytes).rest
  {}

  /** The engine never fails to parse a frame that passed, and its bounds never go back. */
  lemma {:induction false} AcceptedReads(bytes: seq<byte>, timestamp: u64, previous: nat)
    requires Accepts(bytes, timestamp, previous)
    ensures ReadRanges(timestamp, bytes).flaw == Ok(())
    ensures OrderedFrom(previous, ReadRanges(timestamp, bytes).ranges)
    decreases |bytes|
  {
    if bytes != [] {
      CheckedBoundReads(bytes, timestamp, previous);
      var bound := CheckBound(bytes, timestamp, previous).value;
      var rest := CheckBound(bytes, timestamp, previous).rest;
      SkippedContentReads(rest);
      var tail := SkipContent(rest).rest;
      AcceptedReads(tail, bound.timestamp, Key(bound));
      var r := Range(bound, ReadPayload(rest).value);
      assert ReadRange(timestamp, bytes) == Got(r, tail);
      OrderedCons(previous, r, ReadRanges(bound.timestamp, tail).ranges);
    }
  }

  lemma AcceptedFrameReads(frame: seq<byte>)
    requires AcceptsFrame(frame)
    ensures frame != [] && frame[0] == PROTOCOL_VERSION
    ensures ReadRanges(0, frame[1..]).flaw == Ok(()) && Ordered(ReadRanges(0, frame[1..]).ranges)
  {
    AcceptedReads(frame[1..], 0, 0);
  }

  lemma ChecksFrom(bytes: seq<byte>, last: u64, previous: nat, n: u64, after: seq<byte>, bound: Bound, tail: seq<byte>)
    requires ReadVarInt(bytes) == Got(n, after)
    requires ReadVarInt(after) == Got(|bound.prefix|, bound.prefix + tail)
    requires last <= bound.timestamp && previous <= Key(bound)
    requires n == TimestampCode(last, bound.timestamp)
    ensures CheckBound(bytes, last, previous) == Got(bound, tail)
  {
    var p := bound.prefix;
    assert CheckTimestamp(bytes, last) == Got(bound.timestamp, after);
    assert (p + tail)[..|p|] == p && (p + tail)[|p|..] == tail;
  }

  lemma WrittenBoundChecks(last: u64, bound: Bound, tail: seq<byte>, previous: nat)
    requires last <= bound.timestamp && previous <= Key(bound)
    ensures CheckBound(BoundBytes(last, bound) + tail, last, previous) == Got(bound, tail)
  {
    var p, t := bound.prefix, bound.timestamp;
    var n := TimestampCode(last, t);
    var after := VarInt(|p|) + (p + tail);
    assert BoundBytes(last, bound) + tail == VarInt(n) + after;
    VarIntRoundTrip(n, after);
    VarIntRoundTrip(|p|, p + tail);
    ChecksFrom(VarInt(n) + after, last, previous, n, after, bound, tail);
  }

  /** A range that goes forward passes, and the check then stands behind it. */
  lemma WrittenRangeAccepted(last: u64, r: Range, tail: seq<byte>, previous: nat)
    requires r.payload.IdList? ==> |r.payload.ids| <= MAX_U64
    requires last <= r.bound.timestamp && previous <= Key(r.bound)
    ensures Accepts(RangeBytes(last, r) + tail, last, previous) <==> Accepts(tail, r.bound.timestamp, Key(r.bound))
  {
    hide BoundBytes, Key, VarInt, CheckBound, SkipContent, ReadPayload, ContentBytes;
    var content := VarInt(Mode(r.payload)) + (ContentBytes(r.payload) + tail);
    assert RangeBytes(last, r) + tail == BoundBytes(last, r.bound) + content;
    WrittenBoundChecks(last, r.bound, content, previous);
    PayloadRoundTrip(r.payload, tail);
    SkippedContentReads(content);
  }

  lemma {:induction false} WrittenRangesAccepted(last: u64, previous: nat, ranges: seq<Range>)
    requires Countable(ranges) && OrderedFrom(previous, ranges)
    requires ranges != [] ==> last <= ranges[0].bound.timestamp
    ensures Accepts(RangesBytes(last, ranges), last, previous)
    decreases |ranges|
  {
    hide RangeBytes, Key, RangesBytes;
    if ranges == [] {
      RangesBytesNone(last);
    } else {
      var r, more := ranges[0], ranges[1..];
      assert ranges == [r] + more;
      OrderedCons(previous, r, more);
      if more != [] {
        assert From(Key(r.bound), more, 0) <= Key(more[0].bound);
        KeyTimestamps(r.bound, more[0].bound);
      }
      WrittenRangesAccepted(r.bound.timestamp, Key(r.bound), more);
      RangesBytesCons(last, r, more);
      WrittenRangeAccepted(last, r, RangesBytes(r.bound.timestamp, more), previous);
    }
  }

  /** A frame as it is written passes if and only if its bounds never go back. */
  lemma WrittenFrameAccepted(ranges: seq<Range>)
    requires Countable(ranges) && TimesOrdered(0, ranges)
    ensures AcceptsFrame(Frame(ranges)) <==> Ordered(ranges)
  {
    hide Key, RangesBytes, ReadRanges, Accepts;
    assert Frame(ranges)[1..] == RangesBytes(0, ranges);
    if Ordered(ranges) { WrittenRangesAccepted(0, 0, ranges); }
    if AcceptsFrame(Frame(ranges)) {
      FrameRoundTrip(ranges);
      AcceptedFrameReads(Frame(ranges));
    }
  }
}
