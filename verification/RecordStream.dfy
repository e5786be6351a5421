/** Frames as length-prefixed records on a byte stream: what the sender's queue and the receiver's decoder do with
    them, and why what is decoded on one connection is what was queued for it, in order. */
module RecordStream {
  import opened Wrappers
  import opened Codec

  type Frame = seq<byte>

  const PREFIX: nat := 4
  const MAX_LENGTH: nat := 0xFFFF_FFFF

  // ---- Records

  /** A 32-bit length, most significant byte first. */
  function Length(n: nat): (s: seq<byte>)
    requires n <= MAX_LENGTH
    ensures |s| == PREFIX
  {
    var b := n / 0x100;
    var c := b / 0x100;
    [c / 0x100, c % 0x100, b % 0x100, n % 0x100]
  }

  function Declared(s: seq<byte>): nat
    requires |s| >= PREFIX
  {
    var a: nat, b: nat, c: nat, d: nat := s[0], s[1], s[2], s[3];
    a * 0x100_0000 + b * 0x1_0000 + c * 0x100 + d
  }

  /** The bytes of a length outright: value by value the most significant byte first. */
  lemma LengthOutright(n: nat)
    requires n <= MAX_LENGTH
    ensures n == Length(n)[0] as int * 0x100_0000 + Length(n)[1] as int * 0x1_0000 + Length(n)[2] as int * 0x100 + Length(n)[3] as int
    ensures n < 0x100 ==> Length(n) == [0, 0, 0, n]
  {
    var b := n / 0x100;
    var c := b / 0x100;
    assert n == 0x100 * b + n % 0x100 && b == 0x100 * c + b % 0x100 && c == 0x100 * (c / 0x100) + c % 0x100;
  }

  lemma LengthDeclared(n: nat, rest: seq<byte>)
    requires n <= MAX_LENGTH
    ensures Declared(Length(n) + rest) == n
  {
    var b := n / 0x100;
    var c := b / 0x100;
    var s := Length(n) + rest;
    assert s[0] == c / 0x100 && s[1] == c % 0x100 && s[2] == b % 0x100 && s[3] == n % 0x100;
  }

  function Encode(f: Frame): seq<byte>
    requires |f| <= MAX_LENGTH
  {
    Length(|f|) + f
  }

  ghost predicate Short(frames: seq<Frame>, limit: nat) { forall i :: 0 <= i < |frames| ==> |frames[i]| <= limit }

  function EncodeAll(frames: seq<Frame>): seq<byte>
    requires Short(frames, MAX_LENGTH)
  {
    if frames == [] then [] else Encode(frames[0]) + EncodeAll(frames[1..])
  }

  lemma {:induction false} EncodeConcat(a: seq<Frame>, b: seq<Frame>)
    requires Short(a, MAX_LENGTH) && Short(b, MAX_LENGTH)
    ensures EncodeAll(a + b) == EncodeAll(a) + EncodeAll(b)
  {
    if a == [] {
      assert a + b == b;
    } else {
      assert (a + b)[1..] == a[1..] + b;
      EncodeConcat(a[1..], b);
      assert (Encode(a[0]) + EncodeAll(a[1..])) + EncodeAll(b) == Encode(a[0]) + (EncodeAll(a[1..]) + EncodeAll(b));
    }
  }

  // ---- The sender's queue

  /** A record of which the bytes before `offset` have been written. */
  datatype Record = Record(bytes: seq<byte>, offset: nat)

  ghost predicate ValidRecords(q: seq<Record>) {
    && (forall i :: 0 <= i < |q| ==> q[i].offset < |q[i].bytes|)
    && (forall i :: 1 <= i < |q| ==> q[i].offset == 0)
  }

  /** The bytes still to be written. */
  function Unsent(q: seq<Record>): seq<byte>
    requires ValidRecords(q)
  {
    if q == [] then [] else q[0].bytes[q[0].offset..] + Unsent(q[1..])
  }

  /** The queue after `n` more bytes were written. */
  function Written(q: seq<Record>, n: nat): (r: seq<Record>)
    requires ValidRecords(q) && n <= |Unsent(q)|
    ensures ValidRecords(r)
    decreases |q|
  {
    if n == 0 then q
    else
      var left := |q[0].bytes| - q[0].offset;
      if n < left then [q[0].(offset := q[0].offset + n)] + q[1..] else Written(q[1..], n - left)
  }

  lemma {:induction false} WrittenUnsent(q: seq<Record>, n: nat)
    requires ValidRecords(q) && n <= |Unsent(q)|
    ensures Unsent(Written(q, n)) == Unsent(q)[n..]
    decreases |q|
  {
    if n == 0 {
      assert Unsent(q)[0..] == Unsent(q);
    } else {
      var left := |q[0].bytes| - q[0].offset;
      if n < left {
        var r := Written(q, n);
        assert r[1..] == q[1..];
        assert r[0].bytes[r[0].offset..] == q[0].bytes[q[0].offset..][n..];
      } else {
        WrittenUnsent(q[1..], n - left);
      }
    }
  }

  /** Writing in two steps. */
  lemma {:induction false} WrittenTwice(q: seq<Record>, n: nat, k: nat)
    requires ValidRecords(q) && n + k <= |Unsent(q)|
    ensures |Unsent(Written(q, n))| == |Unsent(q)| - n && Written(Written(q, n), k) == Written(q, n + k)
    decreases |q|
  {
    WrittenUnsent(q, n);
    if n > 0 && k > 0 {
      var left := |q[0].bytes| - q[0].offset;
      if n < left {
        var r := Written(q, n);
        assert r[1..] == q[1..];
      } else {
        WrittenTwice(q[1..], n - left, k);
      }
    }
  }

  function Restarted(q: seq<Record>): (r: seq<Record>)
    requires ValidRecords(q)
    ensures ValidRecords(r)
  {
    seq(|q|, i requires 0 <= i < |q| => Record(q[i].bytes, 0))
  }

  // ---- The receiver's decoder

  predicate Complete(buffer: seq<byte>, limit: nat) {
    |buffer| >= PREFIX && (Declared(buffer) > limit || |buffer| >= PREFIX + Declared(buffer))
  }

  datatype Taken = Taken(frames: seq<Frame>, rest: seq<byte>) | TooLong

  /** Takes up to `max` records from the front of the buffer. */
  function Take(buffer: seq<byte>, limit: nat, max: nat): Taken
    decreases max
  {
    if max == 0 || |buffer| < PREFIX then Taken([], buffer)
    else if Declared(buffer) > limit then TooLong
    else if |buffer| < PREFIX + Declared(buffer) then Taken([], buffer)
    else
      var end := PREFIX + Declared(buffer);
      match Take(buffer[end..], limit, max - 1)
      case TooLong => TooLong
      case Taken(frames, rest) => Taken([buffer[PREFIX..end]] + frames, rest)
  }

  /** A buffer filled to its capacity always has a record ready, or one to reject. */
  lemma FullIsReady(buffer: seq<byte>, limit: nat)
    requires |buffer| == limit + PREFIX
    ensures Complete(buffer, limit)
  {}

  /** At the front of a stream of encoded frames stands the first one's record. */
  lemma FirstRecord(buffer: seq<byte>, more: seq<byte>, frames: seq<Frame>)
    requires Short(frames, MAX_LENGTH) && buffer + more == EncodeAll(frames) && |buffer| >= PREFIX
    ensures frames != [] && Declared(buffer) == |frames[0]|
    ensures var end := PREFIX + |frames[0]|;
            |buffer| >= end ==> buffer[PREFIX..end] == frames[0] && buffer[end..] + more == EncodeAll(frames[1..])
  {
    hide Length, Declared;
    assert frames != [];
    var f, rest := frames[0], EncodeAll(frames[1..]);
    var s := Length(|f|) + (f + rest);
    assert buffer + more == s;
    LengthDeclared(|f|, f + rest);
    SameDeclared(buffer, s);
    var end := PREFIX + |f|;
    if |buffer| >= end {
      assert s[PREFIX..end] == f && s[end..] == rest;
      assert buffer[PREFIX..end] == s[PREFIX..end];
      assert buffer[end..] + more == s[end..];
    }
  }

  lemma SameDeclared(buffer: seq<byte>, s: seq<byte>)
    requires PREFIX <= |buffer| <= |s| && forall i :: 0 <= i < |buffer| ==> buffer[i] == s[i]
    ensures Declared(buffer) == Declared(s)
  {}

  /** From a stream of encoded frames, of which the buffer holds the front, come exactly the first frames. */
  lemma {:induction false} TakeFromStream(buffer: seq<byte>, more: seq<byte>, frames: seq<Frame>, limit: nat, max: nat)
    requires limit <= MAX_LENGTH && Short(frames, limit) && buffer + more == EncodeAll(frames)
    ensures var t := Take(buffer, limit, max);
            && t.Taken? && |t.frames| <= |frames| && t.frames == frames[..|t.frames|]
            && t.rest + more == EncodeAll(frames[|t.frames|..])
            && (Complete(buffer, limit) && max > 0 ==> t.frames != [])
            && (|t.frames| < max ==> !Complete(t.rest, limit))
    decreases max
  {
    hide Declared, EncodeAll;
    assert frames[0..] == frames;
    if max > 0 && |buffer| >= PREFIX {
      FirstRecord(buffer, more, frames);
      var end := PREFIX + |frames[0]|;
      if |buffer| >= end {
        TakeFromStream(buffer[end..], more, frames[1..], limit, max - 1);
        var k := |Take(buffer[end..], limit, max - 1).frames|;
        FramesShift(frames, k);
      }
    }
  }

  lemma FramesShift(frames: seq<Frame>, k: nat)
    requires frames != [] && k <= |frames| - 1
    ensures [frames[0]] + frames[1..][..k] == frames[..k + 1] && frames[1..][k..] == frames[k + 1..]
  {}

  // ---- One connection after another

  /** Both ends of a connection: `queued` are the frames queued since the front of the connection's queue, `received`
      those decoded on it, `wire` the bytes on their way. */
  datatype Connection = Connection(
    limit: nat, queued: seq<Frame>, received: seq<Frame>, queue: seq<Record>, wire: seq<byte>, buffer: seq<byte>)

  datatype Event =
    | Queue(frame: Frame)
    | Write(count: nat)
    | Read(count: nat)
    | Decode(max: nat)
    | Reconnect

  ghost predicate Possible(c: Connection, e: Event)
    requires ValidRecords(c.queue)
  {
    match e
    case Queue(frame) => |frame| <= c.limit
    case Write(count) => count <= |Unsent(c.queue)|
    case Read(count) => count <= |c.wire| && |c.buffer| + count <= c.limit + PREFIX
    case Decode(_) => true
    case Reconnect => true
  }

  ghost predicate Backs(queue: seq<Record>, frames: seq<Frame>) {
    |queue| == |frames| && forall i :: 0 <= i < |queue| ==> |frames[i]| <= MAX_LENGTH && queue[i].bytes == Encode(frames[i])
  }

  /** Queued records are encoded frames, the last ones of `queued`. */
  ghost predicate Backed(c: Connection) {
    |c.queue| <= |c.queued| && Backs(c.queue, c.queued[|c.queued| - |c.queue|..])
  }

  /** Nothing is lost, repeated or reordered: behind what was received, the stream is the encoding of the rest. */
  ghost predicate Flowing(c: Connection) {
    && c.limit <= MAX_LENGTH && ValidRecords(c.queue) && Short(c.queued, c.limit) && Backed(c)
    && |c.received| <= |c.queued| && c.received == c.queued[..|c.received|]
    && |c.buffer| <= c.limit + PREFIX
    && c.buffer + (c.wire + Unsent(c.queue)) == EncodeAll(c.queued[|c.received|..])
  }

  ghost function Next(c: Connection, e: Event): Connection
    requires ValidRecords(c.queue) && Possible(c, e) && c.limit <= MAX_LENGTH
  {
    match e
    case Queue(frame) => c.(queued := c.queued + [frame], queue := c.queue + [Record(Encode(frame), 0)])
    case Write(count) => c.(queue := Written(c.queue, count), wire := c.wire + Unsent(c.queue)[..count])
    case Read(count) => c.(wire := c.wire[count..], buffer := c.buffer + c.wire[..count])
    case Decode(max) =>
      (match Take(c.buffer, c.limit, max)
       case TooLong => c.(buffer := [])
       case Taken(frames, rest) => c.(received := c.received + frames, buffer := rest))
    case Reconnect =>
      var from := if |c.queue| <= |c.queued| then |c.queued| - |c.queue| else 0;
      c.(queued := c.queued[from..], received := [], queue := Restarted(c.queue), wire := [], buffer := [])
  }

  lemma {:induction false} UnsentAppend(q: seq<Record>, r: Record)
    requires ValidRecords(q) && r.offset == 0 < |r.bytes|
    ensures ValidRecords(q + [r]) && Unsent(q + [r]) == Unsent(q) + r.bytes
  {
    var t := q + [r];
    if q == [] {
      assert t[1..] == [] && r.bytes[0..] == r.bytes;
    } else {
      assert t[1..] == q[1..] + [r];
      UnsentAppend(q[1..], r);
      assert q[0].bytes[q[0].offset..] + (Unsent(q[1..]) + r.bytes) == Unsent(q) + r.bytes;
    }
  }

  lemma {:induction false} UnsentFresh(q: seq<Record>, frames: seq<Frame>)
    requires ValidRecords(q) && |q| == |frames| && Short(frames, MAX_LENGTH)
    requires forall i :: 0 <= i < |q| ==> q[i] == Record(Encode(frames[i]), 0)
    ensures Unsent(q) == EncodeAll(frames)
  {
    if q != [] {
      UnsentFresh(q[1..], frames[1..]);
      assert q[0].bytes[0..] == q[0].bytes;
    }
  }

  /** The queue left by a write is what was at its end. */
  lemma {:induction false} WrittenBacks(q: seq<Record>, frames: seq<Frame>, n: nat)
    requires ValidRecords(q) && n <= |Unsent(q)| && Backs(q, frames)
    ensures |Written(q, n)| <= |q| && Backs(Written(q, n), frames[|q| - |Written(q, n)|..])
    decreases |q|
  {
    hide Encode;
    if n > 0 {
      var left := |q[0].bytes| - q[0].offset;
      if n >= left {
        WrittenBacks(q[1..], frames[1..], n - left);
        var r := Written(q[1..], n - left);
        assert frames[1..][|q[1..]| - |r|..] == frames[|q| - |r|..];
      } else {
        assert frames[0..] == frames;
      }
    } else {
      assert frames[0..] == frames;
    }
  }

  lemma QueueBacked(c: Connection, frame: Frame)
    requires Backed(c) && |frame| <= MAX_LENGTH
    ensures Backed(c.(queued := c.queued + [frame], queue := c.queue + [Record(Encode(frame), 0)]))
  {
    hide Encode;
    var from := |c.queued| - |c.queue|;
    assert (c.queued + [frame])[from..] == c.queued[from..] + [frame];
  }

  lemma EncodeMore(frames: seq<Frame>, frame: Frame)
    requires Short(frames, MAX_LENGTH) && |frame| <= MAX_LENGTH
    ensures EncodeAll(frames + [frame]) == EncodeAll(frames) + Encode(frame)
  {
    EncodeConcat(frames, [frame]);
    assert [frame][1..] == [] && Encode(frame) + [] == Encode(frame);
  }

  lemma QueueFlows(c: Connection, frame: Frame)
    requires Flowing(c) && |frame| <= c.limit
    ensures Flowing(Next(c, Queue(frame)))
  {
    hide Backed, Encode, EncodeAll, ValidRecords, Unsent;
    var n := |c.received|;
    QueueBacked(c, frame);
    EncodedSize(frame);
    UnsentAppend(c.queue, Record(Encode(frame), 0));
    var rest := c.queued[n..];
    assert (c.queued + [frame])[n..] == rest + [frame] && (c.queued + [frame])[..n] == c.queued[..n];
    EncodeMore(rest, frame);
    StreamMore(c.buffer, c.wire, Unsent(c.queue), Encode(frame));
  }

  lemma EncodedSize(frame: Frame)
    requires |frame| <= MAX_LENGTH
    ensures |Encode(frame)| == PREFIX + |frame|
  {}

  lemma StreamMore(a: seq<byte>, b: seq<byte>, c: seq<byte>, d: seq<byte>)
    ensures a + (b + (c + d)) == (a + (b + c)) + d
  {}

  lemma WriteFlows(c: Connection, count: nat)
    requires Flowing(c) && count <= |Unsent(c.queue)|
    ensures Flowing(Next(c, Write(count)))
  {
    hide Backed, EncodeAll, Written, Unsent;
    WrittenUnsent(c.queue, count);
    WriteBacked(c, count);
    var u := Unsent(c.queue);
    assert u == u[..count] + u[count..];
    StreamMore(c.buffer, c.wire, u[..count], u[count..]);
    assert c.buffer + ((c.wire + u[..count]) + u[count..]) == c.buffer + (c.wire + u);
  }

  lemma WriteBacked(c: Connection, count: nat)
    requires Backed(c) && ValidRecords(c.queue) && count <= |Unsent(c.queue)|
    ensures Backed(c.(queue := Written(c.queue, count), wire := c.wire + Unsent(c.queue)[..count]))
  {
    hide Unsent, Written, ValidRecords, Backs;
    var from, r := |c.queued| - |c.queue|, Written(c.queue, count);
    WrittenBacks(c.queue, c.queued[from..], count);
    assert c.queued[from..][|c.queue| - |r|..] == c.queued[|c.queued| - |r|..];
  }

  lemma ReadFlows(c: Connection, count: nat)
    requires Flowing(c) && Possible(c, Read(count))
    ensures Flowing(Next(c, Read(count)))
  {
    var u, w := Unsent(c.queue), c.wire;
    assert w == w[..count] + w[count..];
    assert (c.buffer + w[..count]) + (w[count..] + u) == c.buffer + (w + u);
  }

  lemma DecodeFlows(c: Connection, max: nat)
    requires Flowing(c)
    ensures Flowing(Next(c, Decode(max))) && Take(c.buffer, c.limit, max).Taken?
  {
    hide Take, EncodeAll, ValidRecords, Unsent, Encode, Complete;
    var n := |c.received|;
    var rest := c.queued[n..];
    TakeFromStream(c.buffer, c.wire + Unsent(c.queue), rest, c.limit, max);
    var t := Take(c.buffer, c.limit, max);
    var k := |t.frames|;
    FramesJoin(c.queued, n, k);
    TakeShorter(c.buffer, c.limit, max);
    var r := c.(received := c.received + t.frames, buffer := t.rest);
    assert Backed(r);
  }

  lemma FramesJoin(frames: seq<Frame>, n: nat, k: nat)
    requires n <= |frames| && k <= |frames| - n
    ensures frames[..n] + frames[n..][..k] == frames[..n + k] && frames[n..][k..] == frames[n + k..]
  {}

  lemma {:induction false} TakeShorter(buffer: seq<byte>, limit: nat, max: nat)
    ensures Take(buffer, limit, max).Taken? ==> |Take(buffer, limit, max).rest| <= |buffer|
    decreases max
  {
    if max > 0 && |buffer| >= PREFIX && Declared(buffer) <= limit && |buffer| >= PREFIX + Declared(buffer) {
      TakeShorter(buffer[PREFIX + Declared(buffer)..], limit, max - 1);
    }
  }

  lemma ReconnectFlows(c: Connection)
    requires Flowing(c)
    ensures Flowing(Next(c, Reconnect))
  {
    hide Encode, EncodeAll, Unsent;
    var from := |c.queued| - |c.queue|;
    var q, rest := Restarted(c.queue), c.queued[from..];
    UnsentFresh(q, rest);
    assert rest[0..] == rest && rest[|rest| - |q|..] == rest;
    assert [] + ([] + Unsent(q)) == Unsent(q);
  }

  lemma NextFlows(c: Connection, e: Event)
    requires Flowing(c) && Possible(c, e)
    ensures Flowing(Next(c, e))
  {
    hide Flowing, Next;
    match e
    case Queue(frame) => QueueFlows(c, frame);
    case Write(count) => WriteFlows(c, count);
    case Read(count) => ReadFlows(c, count);
    case Decode(max) => DecodeFlows(c, max);
    case Reconnect => ReconnectFlows(c);
  }

  // ---- Runs

  ghost function Opened(limit: nat): Connection { Connection(limit, [], [], [], [], []) }

  /** A run: each step is possible where it is taken. */
  ghost predicate Run(limit: nat, events: seq<Event>, c: Connection)
    requires limit <= MAX_LENGTH
    decreases |events|
  {
    if events == [] then c == Opened(limit)
    else
      var last := events[|events| - 1];
      exists b: Connection :: Run(limit, events[..|events| - 1], b) && Steps(b, last, c)
  }

  ghost predicate Steps(b: Connection, e: Event, c: Connection) {
    ValidRecords(b.queue) && b.limit <= MAX_LENGTH && Possible(b, e) && c == Next(b, e)
  }

  lemma {:induction false} RunFlows(limit: nat, events: seq<Event>, c: Connection)
    requires limit <= MAX_LENGTH && Run(limit, events, c)
    ensures Flowing(c)
    decreases |events|
  {
    hide Flowing, Next, Possible;
    if events == [] {
      OpenedFlows(limit);
    } else {
      var b :| Run(limit, events[..|events| - 1], b) && Steps(b, events[|events| - 1], c);
      RunFlows(limit, events[..|events| - 1], b);
      NextFlows(b, events[|events| - 1]);
    }
  }

  lemma OpenedFlows(limit: nat)
    requires limit <= MAX_LENGTH
    ensures Flowing(Opened(limit))
  {}

  /** However writes and reads are cut and whenever the connection is replaced: what was decoded on a connection is a
      prefix of what was queued for it, nothing is ever rejected, and once nothing is left to write, read or decode,
      everything queued was received. */
  lemma StreamIntegrity(limit: nat, events: seq<Event>, c: Connection)
    requires limit <= MAX_LENGTH && Run(limit, events, c)
    ensures c.received <= c.queued
    ensures forall max: nat :: Take(c.buffer, c.limit, max).Taken?
    ensures ValidRecords(c.queue) && (Unsent(c.queue) == [] && c.wire == [] && !Complete(c.buffer, c.limit) ==> c.received == c.queued)
  {
    hide Run, Flowing, Take, Complete, Unsent, EncodeAll;
    RunFlows(limit, events, c);
    forall max: nat ensures Take(c.buffer, c.limit, max).Taken? { DecodeFlows(c, max); }
    EndsComplete(c);
  }

  lemma EndsComplete(c: Connection)
    requires Flowing(c)
    ensures c.received <= c.queued && ValidRecords(c.queue)
    ensures Unsent(c.queue) == [] && c.wire == [] && !Complete(c.buffer, c.limit) ==> c.received == c.queued
  {
    hide Complete, Backed, EncodeAll, Unsent;
    var rest := c.queued[|c.received|..];
    if Unsent(c.queue) == [] && c.wire == [] && rest != [] {
      assert c.buffer + (c.wire + Unsent(c.queue)) == c.buffer;
      FirstComplete(c.buffer, rest, c.limit);
    }
  }

  lemma FirstComplete(buffer: seq<byte>, frames: seq<Frame>, limit: nat)
    requires limit <= MAX_LENGTH && Short(frames, limit) && frames != [] && buffer == EncodeAll(frames)
    ensures Complete(buffer, limit)
  {
    hide Declared;
    var f, rest := frames[0], EncodeAll(frames[1..]);
    assert buffer == Length(|f|) + (f + rest);
    LengthDeclared(|f|, f + rest);
  }
}
