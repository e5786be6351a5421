/** A session may answer a frame before it opens a conversation of its own, and then writes its opening as if the
    timestamp it wrote last came before: when that does no harm, and when it does. */
module Openings {
  import opened Wrappers
  import opened Codec
  import opened Items
  import opened Wire
  import opened Validation
  import opened Steps
  import opened Sizes
  import opened Answers

  // ---- The bytes themselves

  /** A range is its bound, a mode of 0, 1 or 2, and a hash or counted identifiers; the last bound is two zeros. */
  lemma RangeOutright(last: u64, r: Range)
    ensures r.payload.Skip? ==> RangeBytes(last, r) == BoundBytes(last, r.bound) + [0]
    ensures r.payload.Fingerprint? ==> RangeBytes(last, r) == BoundBytes(last, r.bound) + [1] + r.payload.hash
    ensures r.payload.IdList? && |r.payload.ids| < 128 ==>
              RangeBytes(last, r) == BoundBytes(last, r.bound) + [2, |r.payload.ids|] + Flatten(r.payload.ids)
    ensures r.bound == MAX_BOUND ==> BoundBytes(last, r.bound) == [0, 0]
    ensures last <= r.bound.timestamp < last + 127 && r.bound.timestamp != MAX_U64 && |r.bound.prefix| <= 32 ==>
              BoundBytes(last, r.bound) == [r.bound.timestamp - last + 1, |r.bound.prefix|] + r.bound.prefix
  {
    hide VarInt, Flatten;
    VarIntOutright(Mode(r.payload));
    VarIntOutright(|r.bound.prefix|);
    VarIntOutright(TimestampCode(last, r.bound.timestamp));
    if r.payload.IdList? && |r.payload.ids| < 128 {
      VarIntOutright(|r.payload.ids|);
      assert [2] + ([|r.payload.ids|] + Flatten(r.payload.ids)) == [2, |r.payload.ids|] + Flatten(r.payload.ids);
    }
  }

  /** Opening over fewer than 32 records: version, the end of everything, a list, their number, their identifiers. In
      particular an empty storage opens with the five bytes 61 00 00 02 00. */
  lemma SmallOpening(c: Peer, last: u64)
    requires ValidPeer(c) && |c.items| < 32
    ensures [PROTOCOL_VERSION] + RangesBytes(last, Opening(c)) == [0x61, 0, 0, 2, |c.items|] + Flatten(Ids(c.items))
    ensures c.items == [] ==> [PROTOCOL_VERSION] + RangesBytes(last, Opening(c)) == [0x61, 0x00, 0x00, 0x02, 0x00]
  {
    hide RangesBytes, Flatten, RangeBytes, BoundBytes;
    var r := Range(MAX_BOUND, IdList(Ids(c.items)));
    assert c.items[0..|c.items|] == c.items;
    assert Opening(c) == [r];
    RangesBytesOne(last, r);
    RangeOutright(last, r);
    if c.items == [] { FlattenIds(); }
  }

  lemma FlattenIds()
    ensures Flatten<byte>(Ids([])) == []
  {
    assert Ids([]) == [];
    FlattenNone();
  }

  /** The receiver, who starts from timestamp 0, reads the first timestamp that was meant. */
  ghost predicate Plain(last: u64, m: seq<Range>) {
    last == 0 || m == [] || m[0].bound.timestamp == 0 || m[0].bound.timestamp == MAX_U64
  }

  lemma PlainBytes(last: u64, m: seq<Range>)
    requires Plain(last, m)
    ensures RangesBytes(last, m) == RangesBytes(0, m)
  {
    hide RangesBytes;
    if m == [] {
      RangesBytesNone(last);
      RangesBytesNone(0);
    } else {
      assert m == [m[0]] + m[1..];
      RangesBytesCons(last, m[0], m[1..]);
      RangesBytesCons(0, m[0], m[1..]);
    }
  }

  /** The first timestamp as it is read: its distance from `last`. */
  lemma FirstTimestamp(last: u64, m: seq<Range>)
    requires m != [] && ReadRanges(0, RangesBytes(last, m)).ranges != []
    ensures ReadRanges(0, RangesBytes(last, m)).ranges[0].bound.timestamp
         == if m[0].bound.timestamp == MAX_U64 then MAX_U64 else SaturatingSub(m[0].bound.timestamp, last)
  {
    hide RangesBytes, VarInt, ReadVarInt, ReadPayload, ContentBytes;
    var r, more := m[0], m[1..];
    assert m == [r] + more;
    RangesBytesCons(last, r, more);
    var content := VarInt(Mode(r.payload)) + (ContentBytes(r.payload) + RangesBytes(r.bound.timestamp, more));
    var rest := VarInt(|r.bound.prefix|) + (r.bound.prefix + content);
    var code := TimestampCode(last, r.bound.timestamp);
    assert RangesBytes(last, m) == VarInt(code) + rest;
    VarIntRoundTrip(code, rest);
    ReadTimestampFrom(0, VarInt(code) + rest, code, rest);
  }

  lemma ReadsIfPlain(last: u64, m: seq<Range>)
    requires m != [] && Countable(m) && TimesOrdered(0, m)
    ensures ReadRanges(0, RangesBytes(last, m)) == Listing(m, Ok(())) <==> Plain(last, m)
  {
    hide RangesBytes, ReadRanges;
    if Plain(last, m) {
      PlainBytes(last, m);
      RangesRoundTrip(0, m);
    } else if ReadRanges(0, RangesBytes(last, m)).ranges != [] {
      FirstTimestamp(last, m);
    }
  }

  lemma OpeningOrdered(c: Peer)
    requires ValidPeer(c)
    ensures Opening(c) != [] && Countable(Opening(c)) && TimesOrdered(0, Opening(c)) && Ordered(Opening(c))
  {
    hide Key, Split, OrderedFrom;
    BelowEnds(c.items);
    if c.items != [] { MaxKey(c.items[|c.items| - 1]); }
    SplitForward(c, 0, 0, |c.items|, MAX_BOUND);
    OrderedTimes(Opening(c));
  }

  /** A session whose first opening range would end at a timestamp other than 0 and is not its whole storage. */
  predicate Displaceable(c: Peer)
    requires ValidPeer(c)
  {
    |c.items| >= 2 * BUCKETS && Edge(0, |c.items|, 1) < |c.items| && c.items[Edge(0, |c.items|, 1)].timestamp != 0
  }

  /** An opening is read as it was meant if and only if nothing but timestamp 0 was written before it, or its first
      bound is that of few records or of timestamp 0. */
  lemma OpeningReads(c: Peer, last: u64)
    requires ValidPeer(c)
    ensures ReadRanges(0, RangesBytes(last, Opening(c))) == Listing(Opening(c), Ok(())) <==> last == 0 || !Displaceable(c)
    ensures Plain(last, Opening(c)) <==> last == 0 || !Displaceable(c)
  {
    hide Key, RangesBytes, ReadRanges;
    OpeningOrdered(c);
    ReadsIfPlain(last, Opening(c));
    SplitShort(c, 0, |c.items|, MAX_BOUND);
    if |c.items| >= 2 * BUCKETS { EdgeInside(0, |c.items|, 1); }
  }

  // ---- An opening that is misread

  /** Having answered a fingerprint of everything that is not its own, a session's next opening says that its first
      records end at timestamp 0. */
  lemma StaleOpening(c: Peer, theirs: Hash)
    requires ValidPeer(c) && !c.initiator && Displaceable(c) && theirs != Hashed(c, 0, |c.items|)
    ensures var m := [Range(MAX_BOUND, Fingerprint(theirs))];
            var q := Process(c, Start(), m);
            && AcceptsFrame(Frame(m)) && Reply(c, Frame(m)) == Ok(Answer(Frame(q.out), q.have, q.need))
            && LastTimestamp(0, q.out) == MAX_U64
            && ReadRanges(0, RangesBytes(LastTimestamp(0, q.out), Opening(c))) != Listing(Opening(c), Ok(()))
  {
    hide Key, RangesBytes, ReadRanges, Process, Accepts, OrderedFrom;
    var r := Range(MAX_BOUND, Fingerprint(theirs));
    OrderedOne(0, r);
    WrittenFrameAccepted([r]);
    FrameRoundTrip([r]);
    AnswerAccepted(c, Frame([r]));
    MismatchAnswered(c, theirs);
    OpeningReads(c, MAX_U64);
  }

  lemma MismatchAnswered(c: Peer, theirs: Hash)
    requires ValidPeer(c) && |c.items| >= 2 * BUCKETS && theirs != Hashed(c, 0, |c.items|)
    ensures LastTimestamp(0, Process(c, Start(), [Range(MAX_BOUND, Fingerprint(theirs))]).out) == MAX_U64
  {
    hide Key, ItemKey, Frame, Bucket, LowerBound;
    var r := Range(MAX_BOUND, Fingerprint(theirs));
    BelowEnds(c.items);
    assert Upper(c, Start(), r) == |c.items|;
    var q := Advance(c, Start(), r);
    SplitShort(c, 0, |c.items|, MAX_BOUND);
    LastBucketBound(c, 0, |c.items|, MAX_BOUND);
    assert Process(c, Start(), [r]) == Process(c, q, []);
  }

  lemma CrowdMisread(fp: seq<Id> -> Hash, theirs: Hash)
    requires theirs != fp(Ids(Crowd()))
    ensures var c := Peer(Crowd(), fp, 4096, false);
            ValidPeer(c) && Displaceable(c) && theirs != Hashed(c, 0, |c.items|)
  {
    CrowdAnswerRefused(fp);
    assert Crowd()[0..122] == Crowd();
  }
}
