/** The engine: it reads a frame byte by byte, keeps the two delta-coding timestamps, and writes the
    bytes of exactly the answer that module Steps specifies. */
module Engine {
  import opened Wrappers
  import opened Codec
  import opened Items
  import opened Wire
  import opened Steps

  /** After answering a frame in its own version, `last` is the last timestamp of the answer. */
  ghost predicate Written(c: Peer, query: seq<byte>, last: u64)
    requires ValidPeer(c)
  {
    query != [] && query[0] == PROTOCOL_VERSION ==>
      var outcome := Outcome(c, Start(), ReadRanges(0, query[1..]));
      outcome.Ok? ==> last == LastTimestamp(0, outcome.value.out)
  }

  class Negentropy {
    const items: seq<Item>
    const fingerprint: seq<Id> -> Hash
    const frameSizeLimit: nat
    var isInitiator: bool
    var lastTimestampIn: u64
    var lastTimestampOut: u64

    ghost function Self(): Peer
      reads this
    {
      Peer(items, fingerprint, frameSizeLimit, isInitiator)
    }

    ghost predicate Valid()
      reads this
    {
      ValidPeer(Self())
    }

    constructor (items: seq<Item>, fingerprint: seq<Id> -> Hash, frameSizeLimit: nat)
      requires Sealed(items) && |items| <= MAX_U64
      requires frameSizeLimit == 0 || 4096 <= frameSizeLimit <= MAX_U64
      ensures Valid() && Self() == Peer(items, fingerprint, frameSizeLimit, false)
      ensures fresh(this) && lastTimestampOut == 0
    {
      this.items, this.fingerprint, this.frameSizeLimit := items, fingerprint, frameSizeLimit;
      isInitiator, lastTimestampIn, lastTimestampOut := false, 0, 0;
    }

    static method New(items: seq<Item>, fingerprint: seq<Id> -> Hash, frameSizeLimit: u64)
      returns (r: Result<Negentropy>)
      requires Sealed(items) && |items| <= MAX_U64
      ensures r.Ok? <==> frameSizeLimit == 0 || frameSizeLimit >= 4096
      ensures r.Ok? ==> fresh(r.value) && r.value.Valid() && r.value.lastTimestampOut == 0
      ensures r.Ok? ==> r.value.Self() == Peer(items, fingerprint, frameSizeLimit, false)
    {
      if frameSizeLimit != 0 && frameSizeLimit < 4096 { return Err(FrameSizeLimitTooSmall); }
      var engine := new Negentropy(items, fingerprint, frameSizeLimit);
      return Ok(engine);
    }

    // ---- Encoding

    method EncodeTimestampOut(timestamp: u64) returns (o: seq<byte>)
      modifies this`lastTimestampOut
      ensures o == TimestampBytes(old(lastTimestampOut), timestamp) && lastTimestampOut == timestamp
    {
      if timestamp == MAX_U64 {
        lastTimestampOut := MAX_U64;
        o := EncodeVarInt(0);
      } else {
        var delta := SaturatingSub(timestamp, lastTimestampOut);
        lastTimestampOut := timestamp;
        o := EncodeVarInt(SaturatingAdd(delta, 1));
      }
    }

    method EncodeBound(bound: Bound) returns (o: seq<byte>)
      modifies this`lastTimestampOut
      ensures o == BoundBytes(old(lastTimestampOut), bound) && lastTimestampOut == bound.timestamp
    {
      o := EncodeTimestampOut(bound.timestamp);
      var length := EncodeVarInt(|bound.prefix|);
      o := o + length + bound.prefix;
    }

    /** A bound, a mode and a content, in that order. */
    method EncodeRange(bound: Bound, mode: u64, ghost payload: Payload, content: seq<byte>) returns (o: seq<byte>)
      requires mode == Mode(payload) && content == ContentBytes(payload)
      modifies this`lastTimestampOut
      ensures o == RangesBytes(old(lastTimestampOut), [Range(bound, payload)])
      ensures lastTimestampOut == bound.timestamp
    {
      ghost var last := lastTimestampOut;
      o := EncodeBound(bound);
      var m := EncodeVarInt(mode);
      o := o + m + content;
      RangesBytesOne(last, Range(bound, payload));
    }

    method ListIds(lower: nat, upper: nat) returns (content: seq<byte>)
      requires Valid() && lower <= upper <= |items|
      ensures content == ContentBytes(IdList(Span(Self(), lower, upper)))
    {
      hide VarInt, Flatten, Sealed;
      FlattenNone();
      content := EncodeVarInt(upper - lower);
      ghost var count := content;
      for i := lower to upper
        invariant content == count + Flatten(Span(Self(), lower, i))
      {
        FlattenConcat(Span(Self(), lower, i), [items[i].id]);
        FlattenOne(items[i].id);
        assert Span(Self(), lower, i + 1) == Span(Self(), lower, i) + [items[i].id];
        content := content + items[i].id;
      }
    }

    method SplitRange(lower: nat, upper: nat, upperBound: Bound) returns (o: seq<byte>)
      requires Valid() && lower <= upper <= |items|
      modifies this`lastTimestampOut
      ensures o == RangesBytes(old(lastTimestampOut), Split(Self(), lower, upper, upperBound))
      ensures lastTimestampOut == LastTimestamp(old(lastTimestampOut), Split(Self(), lower, upper, upperBound))
    {
      if upper - lower < 2 * BUCKETS {
        var content := ListIds(lower, upper);
        o := EncodeRange(upperBound, 2, IdList(Span(Self(), lower, upper)), content);
      } else {
        o := SplitIntoBuckets(lower, upper, upperBound);
      }
    }

    method SplitIntoBuckets(lower: nat, upper: nat, upperBound: Bound) returns (o: seq<byte>)
      requires Valid() && lower + 2 * BUCKETS <= upper <= |items|
      modifies this`lastTimestampOut
      ensures o == RangesBytes(old(lastTimestampOut), Split(Self(), lower, upper, upperBound))
      ensures lastTimestampOut == LastTimestamp(old(lastTimestampOut), Split(Self(), lower, upper, upperBound))
    {
      hide RangesBytes, Edge, Bucket;
      var count := upper - lower;
      ghost var last, split := lastTimestampOut, Split(Self(), lower, upper, upperBound);
      var perBucket, withExtra, curr := count / BUCKETS, count % BUCKETS, lower;
      o := [];
      RangesBytesNone(last);
      EdgeStep(lower, count, 0);
      for i := 0 to BUCKETS
        invariant curr == Edge(lower, count, i)
        invariant o == RangesBytes(last, split[..i])
        invariant lastTimestampOut == LastTimestamp(last, split[..i])
      {
        EdgeStep(lower, count, i);
        var bucketSize := perBucket + if i < withExtra then 1 else 0;
        var range := EncodeBucket(lower, upper, upperBound, i, curr, curr + bucketSize);
        curr := curr + bucketSize;
        RangesBytesSnoc(last, split, i);
        o := o + range;
      }
      assert split[..BUCKETS] == split;
    }

    method EncodeBucket(ghost lower: nat, upper: nat, upperBound: Bound, ghost i: nat, curr: nat, next: nat)
      returns (o: seq<byte>)
      requires Valid() && lower + 2 * BUCKETS <= upper <= |items| && i < BUCKETS
      requires curr == Edge(lower, upper - lower, i) && next == Edge(lower, upper - lower, i + 1)
      modifies this`lastTimestampOut
      ensures o == RangesBytes(old(lastTimestampOut), [Bucket(Self(), lower, upper, upperBound, i)])
      ensures lastTimestampOut == Bucket(Self(), lower, upper, upperBound, i).bound.timestamp
    {
      hide RangesBytes, Edge;
      EdgeInside(lower, upper - lower, i);
      var hash := fingerprint(Ids(items[curr..next]));
      var nextBound := upperBound;
      if next != upper {
        ItemKeyOrder(items[next - 1], items[next]);
        nextBound := MinimalBound(items[next - 1], items[next]);
      }
      o := EncodeRange(nextBound, 1, Fingerprint(hash), hash);
    }

    predicate ExceededFrameSizeLimit(n: nat)
      requires Valid()
      reads this
      ensures ExceededFrameSizeLimit(n) <==> Exceeded(Self(), n)
    {
      frameSizeLimit != 0 && n > frameSizeLimit - 200
    }

    /** Opens the conversation. The timestamp last written is not reset first: see `Openings.OpeningReads`. */
    method Initiate() returns (r: Result<seq<byte>>)
      requires Valid()
      modifies this`isInitiator, this`lastTimestampOut
      ensures Valid() && isInitiator
      ensures r == if old(isInitiator) then Err(AlreadyBuiltInitialMessage)
                   else Ok([PROTOCOL_VERSION] + RangesBytes(old(lastTimestampOut), Opening(Self())))
    {
      if isInitiator { return Err(AlreadyBuiltInitialMessage); }
      isInitiator := true;
      var o := SplitRange(0, |items|, MAX_BOUND);
      return Ok([PROTOCOL_VERSION] + o);
    }

    // ---- Decoding

    method DecodeTimestampIn(encoded: seq<byte>) returns (p: Parsed<u64>)
      modifies this`lastTimestampIn
      ensures p == ReadTimestamp(old(lastTimestampIn), encoded)
      ensures p.Got? ==> lastTimestampIn == p.value
    {
      var n := DecodeVarInt(encoded);
      if n.Bad? { return Bad(n.error); }
      var timestamp := if n.value == 0 then MAX_U64 else n.value - 1;
      timestamp := SaturatingAdd(timestamp, lastTimestampIn);
      lastTimestampIn := timestamp;
      return Got(timestamp, n.rest);
    }

    method DecodeBound(encoded: seq<byte>) returns (p: Parsed<Bound>)
      modifies this`lastTimestampIn
      ensures p == ReadBound(old(lastTimestampIn), encoded)
      ensures p.Got? ==> lastTimestampIn == p.value.timestamp
    {
      var timestamp := DecodeTimestampIn(encoded);
      if timestamp.Bad? { return Bad(timestamp.error); }
      var length := DecodeVarInt(timestamp.rest);
      if length.Bad? { return Bad(length.error); }
      var prefix := Take(length.rest, length.value);
      if prefix.Bad? { return Bad(prefix.error); }
      if length.value > 32 { return Bad(IdTooBig); }
      return Got(Bound(timestamp.value, prefix.value), prefix.rest);
    }

    static method DecodeIds(encoded: seq<byte>, count: nat) returns (ids: seq<Id>, rest: seq<byte>)
      requires 32 * count <= |encoded|
      ensures ids == Chop(encoded, count) && rest == encoded[32 * count..]
    {
      ids, rest := [], encoded;
      for i := 0 to count
        invariant |rest| == |encoded| - 32 * i
        invariant rest == encoded[32 * i..]
        invariant Chop(encoded, count) == ids + Chop(rest, count - i)
      {
        ids := ids + [rest[..32]];
        rest := rest[32..];
      }
    }

    static method DecodePayload(encoded: seq<byte>) returns (p: Parsed<Payload>)
      ensures p == ReadPayload(encoded)
    {
      var mode := DecodeVarInt(encoded);
      if mode.Bad? { return Bad(mode.error); }
      if mode.value == 0 {
        return Got(Skip, mode.rest);
      } else if mode.value == 1 {
        var hash := Take(mode.rest, 16);
        if hash.Bad? { return Bad(hash.error); }
        return Got(Fingerprint(hash.value), hash.rest);
      } else if mode.value == 2 {
        var count := DecodeVarInt(mode.rest);
        if count.Bad? { return Bad(count.error); }
        if count.value > |count.rest| / 32 { return Bad(ParseEndsPrematurely); }
        var ids, rest := DecodeIds(count.rest, count.value);
        return Got(IdList(ids), rest);
      } else {
        return Bad(UnexpectedMode(mode.value));
      }
    }

    // ---- Reconciling

    /** Writes the pending Skip, if any. */
    method DoSkip(prevBound: Bound, skip: bool, ghost p: Progress) returns (o: seq<byte>)
      requires skip == p.skip && prevBound == p.prev
      modifies this`lastTimestampOut
      ensures o == RangesBytes(old(lastTimestampOut), Pending(p))
      ensures lastTimestampOut == LastTimestamp(old(lastTimestampOut), Pending(p))
    {
      if skip {
        o := EncodeRange(prevBound, 0, Skip, []);
      } else {
        o := [];
      }
    }

    method AnswerFingerprint(theirs: Hash, lower: nat, upper: nat, bound: Bound, prevBound: Bound, skip: bool,
                             ghost p: Progress)
      returns (o: seq<byte>, skipNext: bool, ghost d: Draft)
      requires Valid() && lower == p.index && skip == p.skip && prevBound == p.prev
      requires lower <= upper <= |items|
      modifies this`lastTimestampOut
      ensures d == DrawFingerprint(Self(), p, bound, theirs, upper)
      ensures o == RangesBytes(old(lastTimestampOut), d.extra) && skipNext == d.skip
      ensures lastTimestampOut == LastTimestamp(old(lastTimestampOut), d.extra)
    {
      hide RangesBytes, Split;
      d := DrawFingerprint(Self(), p, bound, theirs, upper);
      RangesBytesNone(lastTimestampOut);
      var ours := fingerprint(Ids(items[lower..upper]));
      if theirs == ours { return [], true, d; }
      ghost var last := lastTimestampOut;
      var skipped := DoSkip(prevBound, skip, p);
      var parts := SplitRange(lower, upper, bound);
      RangesBytesConcat(last, Pending(p), Split(Self(), lower, upper, bound));
      return skipped + parts, false, d;
    }

    /** Compares their identifiers with ours in a range; the set of those left over comes in any order. */
    method Report(theirs: seq<Id>, lower: nat, upper: nat, have: seq<Id>, need: seq<Id>)
      returns (haveAll: seq<Id>, needAll: seq<Id>)
      requires Valid() && lower <= upper <= |items|
      ensures multiset(haveAll) == multiset(have) + Sift(Span(Self(), lower, upper), set id | id in theirs).0
      ensures multiset(needAll) == multiset(need) + multiset(Sift(Span(Self(), lower, upper), set id | id in theirs).1)
    {
      var elems := set id | id in theirs;
      haveAll := have;
      ghost var start := Sift(Span(Self(), lower, upper), elems);
      for i := lower to upper
        invariant multiset(haveAll) + Sift(Span(Self(), i, upper), elems).0 == multiset(have) + start.0
        invariant Sift(Span(Self(), i, upper), elems).1 == start.1
      {
        var k := items[i].id;
        assert Span(Self(), i, upper)[1..] == Span(Self(), i + 1, upper);
        if k !in elems {
          haveAll := haveAll + [k];
        } else {
          elems := elems - {k};
        }
      }
      needAll := Append(need, elems);
    }

    static method Append(s: seq<Id>, ids: set<Id>) returns (all: seq<Id>)
      ensures multiset(all) == multiset(s) + multiset(ids)
    {
      all := s;
      var rest := ids;
      while rest != {}
        invariant rest <= ids && multiset(all) + multiset(rest) == multiset(s) + multiset(ids)
        decreases |rest|
      {
        var k :| k in rest;
        all := all + [k];
        rest := rest - {k};
      }
    }

    /** Lists identifiers until the frame is found too long; `end` is the first one left out. */
    method FitIds(length: nat, lower: nat, upper: nat) returns (ids: seq<byte>, end: nat)
      requires Valid() && lower <= upper <= |items|
      ensures end == lower + Fitting(Self(), length, 0, upper - lower)
      ensures ids == Flatten(Span(Self(), lower, end))
    {
      hide Exceeded, Flatten, Span;
      ids, end := [], lower;
      ListedNone(Self(), lower);
      while end < upper
        invariant lower <= end <= upper && |ids| == 32 * (end - lower)
        invariant ids == Flatten(Span(Self(), lower, end))
        invariant Fitting(Self(), length, 0, upper - lower) == Fitting(Self(), length, end - lower, upper - lower)
      {
        if ExceededFrameSizeLimit(length + |ids|) { return; }
        ListedMore(Self(), lower, end);
        ids := ids + items[end].id;
        end := end + 1;
      }
    }

    static lemma ListedNone(c: Peer, lower: nat)
      requires lower <= |c.items|
      ensures Flatten(Span(c, lower, lower)) == []
    {
      assert Span(c, lower, lower) == [];
    }

    static lemma ListedMore(c: Peer, lower: nat, end: nat)
      requires lower <= end < |c.items|
      ensures Flatten(Span(c, lower, end + 1)) == Flatten(Span(c, lower, end)) + c.items[end].id
    {
      FlattenConcat(Span(c, lower, end), [c.items[end].id]);
      FlattenOne(c.items[end].id);
      assert Span(c, lower, end + 1) == Span(c, lower, end) + [c.items[end].id];
    }

    /** Our own list of a range, cut off where the frame is found too long. */
    method AnswerIdList(full: seq<byte>, lower: nat, upper: nat, bound: Bound, prevBound: Bound, skip: bool,
                        ghost p: Progress)
      returns (fullNext: seq<byte>, upperNext: nat, truncated: bool, ghost d: Draft)
      requires Valid() && lower == p.index && skip == p.skip && prevBound == p.prev
      requires lower <= upper <= |items| && full == Frame(p.out)
      requires lastTimestampOut == LastTimestamp(0, p.out)
      modifies this`lastTimestampOut
      ensures d == DrawIdList(Self(), p, bound, upper)
      ensures fullNext == Frame(d.out) && upperNext == d.upper && truncated == d.truncated
      ensures lastTimestampOut == LastTimestamp(0, d.out)
    {
      hide RangesBytes, VarInt, Frame, Fitting, Pending, Flatten;
      d := DrawIdList(Self(), p, bound, upper);
      var skipped := DoSkip(prevBound, skip, p);
      var ids, end := FitIds(|full|, lower, upper);
      truncated := end < upper;
      upperNext := end;
      var endBound := if truncated then FromItem(items[end]) else bound;
      var count := EncodeVarInt(end - lower);
      ghost var list := IdList(Span(Self(), lower, end));
      var listed := EncodeRange(endBound, 2, list, count + ids);
      fullNext := full + (skipped + listed);
      FrameConcat(p.out, Pending(p));
      FrameConcat(p.out + Pending(p), [Range(endBound, list)]);
      Associative(full, skipped, listed);
      assert d.out == p.out + Pending(p) + [Range(endBound, list)];
    }

    /** Ends the frame: a Skip up to what was written, then a fingerprint of everything after it. */
    method CloseFrame(full: seq<byte>, o: seq<byte>, truncated: bool, lower: nat, upper: nat, bound: Bound,
                      prevBound: Bound, timestampBeforeRange: u64, ghost p: Progress, ghost payload: Payload, ghost d: Draft)
      returns (fullNext: seq<byte>)
      requires Valid() && lower == p.index <= |items| && prevBound == p.prev && upper == d.upper <= |items|
      requires full == Frame(d.out) && (o == [] <==> d.extra == []) && truncated == d.truncated
      requires truncated ==> d.out != []
      requires lastTimestampOut == LastTimestamp(0, d.out + d.extra)
      requires d.extra != [] ==> timestampBeforeRange == LastTimestamp(0, d.out)
      requires Full(Self(), d)
      modifies this`lastTimestampOut
      ensures fullNext == Frame(Close(Self(), p, Range(bound, payload), d).out)
      ensures lastTimestampOut == LastTimestamp(0, Close(Self(), p, Range(bound, payload), d).out)
    {
      hide RangesBytes, VarInt;
      var remaining := if o == [] then upper else lower;
      if o != [] {
        lastTimestampOut := timestampBeforeRange;
      } else {
        assert d.out + d.extra == d.out;
      }
      fullNext := full;
      ghost var written := d.out;
      if !truncated {
        var boundary := if o == [] then bound else prevBound;
        var skipped := EncodeRange(boundary, 0, Skip, []);
        FrameConcat(d.out, [Range(boundary, Skip)]);
        written := d.out + [Range(boundary, Skip)];
        fullNext := fullNext + skipped;
      }
      var hash := fingerprint(Ids(items[remaining..]));
      assert items[remaining..] == items[remaining..|items|];
      var tail := EncodeRange(MAX_BOUND, 1, Fingerprint(hash), hash);
      FrameConcat(written, [Tail(Self(), remaining)]);
      fullNext := fullNext + tail;
      assert d.truncated ==> d.out + [] == d.out;
    }

    /** Answers one range: commits its bytes to `full`, or leaves them in `o`. */
    method AnswerRange(r: Range, full: seq<byte>, lower: nat, prevBound: Bound, skip: bool,
                       have: seq<Id>, need: seq<Id>, ghost p: Progress)
      returns (fullNext: seq<byte>, o: seq<byte>, upper: nat, truncated: bool, skipNext: bool,
               haveAll: seq<Id>, needAll: seq<Id>, ghost d: Draft)
      requires Valid() && lower == p.index <= |items| && skip == p.skip && prevBound == p.prev
      requires full == Frame(p.out) && lastTimestampOut == LastTimestamp(0, p.out)
      modifies this`lastTimestampOut
      ensures d == Draw(Self(), p, r)
      ensures fullNext == Frame(d.out) && o == RangesBytes(LastTimestamp(0, d.out), d.extra)
      ensures upper == d.upper <= |items| && truncated == d.truncated && skipNext == d.skip
      ensures multiset(haveAll) + p.have == multiset(have) + d.have
      ensures multiset(needAll) + p.need == multiset(need) + d.need
      ensures lastTimestampOut == LastTimestamp(0, d.out + d.extra)
      ensures truncated ==> d.out != []
      ensures d.extra != [] ==> d.out == p.out
    {
      hide RangesBytes, Frame, Fitting, Split, Sift;
      upper := LowerBound(items, lower, Key(r.bound));
      fullNext, o, truncated, skipNext, haveAll, needAll := full, [], false, true, have, need;
      d := Draw(Self(), p, r);
      RangesBytesNone(LastTimestamp(0, d.out));
      match r.payload
      case Skip =>
        assert d.out + d.extra == d.out;
      case Fingerprint(theirs) =>
        ghost var drawn;
        o, skipNext, drawn := AnswerFingerprint(theirs, lower, upper, r.bound, prevBound, skip, p);
        FrameConcat(d.out, d.extra);
      case IdList(theirs) =>
        if isInitiator {
          haveAll, needAll := Report(theirs, lower, upper, have, need);
        } else {
          ghost var drawn;
          fullNext, upper, truncated, drawn := AnswerIdList(full, lower, upper, r.bound, prevBound, skip, p);
          skipNext := false;
        }
        assert d.out + d.extra == d.out;
    }

    /** Reads one range. */
    method DecodeRange(encoded: seq<byte>) returns (p: Parsed<Range>)
      modifies this`lastTimestampIn
      ensures p == ReadRange(old(lastTimestampIn), encoded)
      ensures p.Got? ==> lastTimestampIn == p.value.bound.timestamp
    {
      hide ReadPayload, ReadBound;
      var bound := DecodeBound(encoded);
      if bound.Bad? { return Bad(bound.error); }
      var payload := DecodePayload(bound.rest);
      if payload.Bad? { return Bad(payload.error); }
      return Got(Range(bound.value, payload.value), payload.rest);
    }

    method ReconcileRanges(query: seq<byte>, have: seq<Id>, need: seq<Id>)
      returns (r: Result<seq<byte>>, haveAll: seq<Id>, needAll: seq<Id>)
      requires Valid() && lastTimestampIn == lastTimestampOut == 0
      modifies this`lastTimestampIn, this`lastTimestampOut
      ensures match Outcome(Self(), Start(), ReadRanges(0, query))
              case Err(e) => r == Err(e)
              case Ok(p) =>
                && r == Ok(Frame(p.out)) && lastTimestampOut == LastTimestamp(0, p.out)
                && multiset(haveAll) == multiset(have) + p.have
                && multiset(needAll) == multiset(need) + p.need
    {
      hide RangesBytes, ReadRange, Draw, LowerBound, Outcome, ReadRanges;
      ghost var p := Start();
      var rest, full := query, [PROTOCOL_VERSION];
      RangesBytesNone(0);
      var prevBound: Bound, prevIndex: nat, skip := ZERO_BOUND, 0, false;
      haveAll, needAll := have, need;
      while rest != []
        invariant prevIndex == p.index <= |items| && prevBound == p.prev && skip == p.skip && p.cut.None?
        invariant full == Frame(p.out) && lastTimestampOut == LastTimestamp(0, p.out)
        invariant multiset(haveAll) == multiset(have) + p.have
        invariant multiset(needAll) == multiset(need) + p.need
        invariant Outcome(Self(), p, ReadRanges(lastTimestampIn, rest)) == Outcome(Self(), Start(), ReadRanges(0, query))
        decreases |rest|
      {
        var timestampBeforeRange := lastTimestampOut;
        OutcomeStep(Self(), p, lastTimestampIn, rest);
        var range := DecodeRange(rest);
        if range.Bad? { return Err(range.error), haveAll, needAll; }
        rest := range.rest;
        var o, upper, truncated;
        ghost var d, before := Draw(Self(), p, range.value), p;
        ghost var haveBefore, needBefore := multiset(haveAll), multiset(needAll);
        full, o, upper, truncated, skip, haveAll, needAll, d :=
          AnswerRange(range.value, full, prevIndex, prevBound, skip, haveAll, needAll, p);
        Cancel(multiset(haveAll), haveBefore, multiset(have), p.have, d.have);
        Cancel(multiset(needAll), needBefore, multiset(need), p.need, d.need);
        p := Advance(Self(), p, range.value);
        FrameConcat(d.out, d.extra);
        if truncated || ExceededFrameSizeLimit(|full| + |o|) {
          if d.extra != [] { RangesBytesSome(LastTimestamp(0, d.out), d.extra); } else { RangesBytesNone(LastTimestamp(0, d.out)); }
          full := CloseFrame(full, o, truncated, prevIndex, upper, range.value.bound, prevBound,
                             timestampBeforeRange, before, range.value.payload, d);
          return Ok(full), haveAll, needAll;
        }
        full := full + o;
        prevIndex, prevBound := upper, range.value.bound;
      }
      OutcomeEnd(Self(), p, lastTimestampIn);
      return Ok(full), haveAll, needAll;
    }

    method ReconcileAux(query: seq<byte>, have: seq<Id>, need: seq<Id>)
      returns (r: Result<seq<byte>>, haveAll: seq<Id>, needAll: seq<Id>)
      requires Valid()
      modifies this`lastTimestampIn, this`lastTimestampOut
      ensures Written(Self(), query, lastTimestampOut)
      ensures match Reply(Self(), query)
              case Err(e) => r == Err(e)
              case Ok(a) =>
                && r == Ok(a.frame)
                && multiset(haveAll) == multiset(have) + a.have
                && multiset(needAll) == multiset(need) + a.need
    {
      hide Outcome, ReadRanges;
      lastTimestampIn, lastTimestampOut := 0, 0;
      haveAll, needAll := have, need;
      if |query| < 1 { return Err(ParseEndsPrematurely), have, need; }
      var version := query[0];
      if !(0x60 <= version <= 0x6F) { return Err(InvalidProtocolVersion), have, need; }
      if version != PROTOCOL_VERSION {
        if isInitiator { return Err(UnsupportedProtocolVersion), have, need; }
        return Ok([PROTOCOL_VERSION]), have, need;
      }
      r, haveAll, needAll := ReconcileRanges(query[1..], have, need);
    }

    /** The responder's turn. */
    method Reconcile(query: seq<byte>) returns (r: Result<seq<byte>>)
      requires Valid()
      modifies this`lastTimestampIn, this`lastTimestampOut
      ensures !isInitiator ==> Written(Self(), query, lastTimestampOut)
      ensures r == if isInitiator then Err(Initiator)
                   else match Reply(Self(), query) case Err(e) => Err(e) case Ok(a) => Ok(a.frame)
    {
      if isInitiator { return Err(Initiator); }
      var have, need;
      r, have, need := ReconcileAux(query, [], []);
    }

    /** The initiator's turn: None once nothing is left to ask. */
    method ReconcileWithIds(query: seq<byte>, have: seq<Id>, need: seq<Id>)
      returns (r: Result<Option<seq<byte>>>, haveAll: seq<Id>, needAll: seq<Id>)
      requires Valid()
      modifies this`lastTimestampIn, this`lastTimestampOut
      ensures !isInitiator ==> r == Err(NonInitiator)
      ensures isInitiator ==>
                match Reply(Self(), query)
                case Err(e) => r == Err(e)
                case Ok(a) =>
                  && r == Ok(if |a.frame| == 1 then None else Some(a.frame))
                  && multiset(haveAll) == multiset(have) + a.have
                  && multiset(needAll) == multiset(need) + a.need
    {
      if !isInitiator { return Err(NonInitiator), have, need; }
      var output;
      output, haveAll, needAll := ReconcileAux(query, have, need);
      match output
      case Err(e) => r := Err(e);
      case Ok(frame) => r := Ok(if |frame| == 1 then None else Some(frame));
    }
  }

  lemma Cancel(now: multiset<Id>, before: multiset<Id>, base: multiset<Id>, p: multiset<Id>, d: multiset<Id>)
    requires now + p == before + d && before == base + p
    ensures now == base + d
  {
    forall id ensures now[id] == (base + d)[id] {
      assert (now + p)[id] == (before + d)[id];
    }
  }

  /** The ranges that follow are answered from where the first one leaves off. */
  lemma OutcomeStep(c: Peer, p: Progress, last: u64, bytes: seq<byte>)
    requires ValidPeer(c) && p.index <= |c.items| && p.cut.None? && bytes != []
    ensures match ReadRange(last, bytes)
            case Bad(e) => Outcome(c, p, ReadRanges(last, bytes)) == Err(e)
            case Got(r, rest) =>
              var q := Advance(c, p, r);
              && Outcome(c, p, ReadRanges(last, bytes)) == Outcome(c, q, ReadRanges(r.bound.timestamp, rest))
              && (q.cut.Some? ==> Outcome(c, p, ReadRanges(last, bytes)) == Ok(q))
  {
    hide ReadRange, Advance;
    if ReadRange(last, bytes).Got? {
      var r, rest := ReadRange(last, bytes).value, ReadRange(last, bytes).rest;
      var more := ReadRanges(r.bound.timestamp, rest);
      assert ([r] + more.ranges)[1..] == more.ranges;
    }
  }

  lemma OutcomeEnd(c: Peer, p: Progress, last: u64)
    requires ValidPeer(c) && p.index <= |c.items| && p.cut.None?
    ensures Outcome(c, p, ReadRanges(last, [])) == Ok(p)
  {}
}
