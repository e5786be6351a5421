/** The queue of records of one peer and the decoder of its stream, changed in place by bounded reads and writes. */
module RecordIo {
  import opened Wrappers
  import opened Codec
  import opened RecordStream

  const IO_CHUNK: nat := 16_384
  const MAX_TURNS: nat := 16

  function Smaller(a: nat, b: nat): nat { if a < b then a else b }

  // ---- Taking records apart again

  lemma DeclaredLength(s: seq<byte>)
    requires |s| >= PREFIX
    ensures Declared(s) <= MAX_LENGTH && Length(Declared(s)) == s[..PREFIX]
  {
    var a: nat, b: nat, c: nat, d: nat := s[0], s[1], s[2], s[3];
    var n := Declared(s);
    assert n / 0x100 == a * 0x1_0000 + b * 0x100 + c && n % 0x100 == d;
    var m := n / 0x100;
    assert m / 0x100 == a * 0x100 + b && m % 0x100 == c;
    var k := m / 0x100;
    assert k / 0x100 == a && k % 0x100 == b;
  }

  /** Whatever the bytes, the frames taken and the rest spell the buffer. */
  lemma {:induction false} TakeSpells(buffer: seq<byte>, limit: nat, max: nat)
    requires limit <= MAX_LENGTH
    ensures var t := Take(buffer, limit, max);
            t.Taken? ==> Short(t.frames, limit) && |t.frames| <= max && EncodeAll(t.frames) + t.rest == buffer
                         && (Complete(buffer, limit) && max > 0 ==> t.frames != [])
    decreases max
  {
    hide Length, Declared;
    if max > 0 && |buffer| >= PREFIX && Declared(buffer) <= limit && |buffer| >= PREFIX + Declared(buffer) {
      var end := PREFIX + Declared(buffer);
      TakeSpells(buffer[end..], limit, max - 1);
      DeclaredLength(buffer);
      var t := Take(buffer[end..], limit, max - 1);
      if t.Taken? {
        var f := buffer[PREFIX..end];
        assert ([f] + t.frames)[1..] == t.frames;
        assert buffer == (buffer[..PREFIX] + f) + buffer[end..];
        assert (Encode(f) + EncodeAll(t.frames)) + t.rest == Encode(f) + (EncodeAll(t.frames) + t.rest);
      }
    } else {
      assert [] + buffer == buffer;
    }
  }

  /** Frames already taken before those of t. */
  function Prepended(found: seq<Frame>, t: Taken): Taken {
    match t
    case TooLong => TooLong
    case Taken(frames, rest) => Taken(found + frames, rest)
  }

  lemma TakenMore(t: Taken, a: seq<Frame>, b: seq<Frame>)
    ensures Prepended(a, Prepended(b, t)) == Prepended(a + b, t) && Prepended([], t) == t
  {
    if t.Taken? { assert a + (b + t.frames) == (a + b) + t.frames && [] + t.frames == t.frames; }
  }

  /** One record off the front. */
  lemma TakeOne(buffer: seq<byte>, limit: nat, max: nat)
    requires max > 0 && |buffer| >= PREFIX
    ensures Declared(buffer) > limit ==> Take(buffer, limit, max) == TooLong
    ensures var end := PREFIX + Declared(buffer);
            Declared(buffer) <= limit ==>
              Take(buffer, limit, max) == if |buffer| < end then Taken([], buffer)
                                          else Prepended([buffer[PREFIX..end]], Take(buffer[end..], limit, max - 1))
  {}

  lemma TakeNone(buffer: seq<byte>, limit: nat, max: nat)
    ensures max == 0 || |buffer| < PREFIX ==> Take(buffer, limit, max) == Taken([], buffer)
  {}

  class RecordDecoder {
    const maxFrameBytes: nat
    var buffer: seq<byte>

    ghost predicate Valid()
      reads this
    {
      maxFrameBytes <= MAX_LENGTH && |buffer| <= maxFrameBytes + PREFIX
    }

    constructor (maxFrameBytes: nat)
      requires maxFrameBytes <= MAX_LENGTH
      ensures Valid() && buffer == [] && this.maxFrameBytes == maxFrameBytes
    {
      this.maxFrameBytes, buffer := maxFrameBytes, [];
    }

    method Push(bytes: seq<byte>) returns (ok: bool)
      requires Valid()
      modifies this
      ensures Valid() && ok == (|old(buffer)| + |bytes| <= maxFrameBytes + PREFIX)
      ensures buffer == if ok then old(buffer) + bytes else []
    {
      if |buffer| + |bytes| > maxFrameBytes + PREFIX {
        buffer := [];
        return false;
      }
      buffer := buffer + bytes;
      return true;
    }

    /** Takes complete records off the front; a record that is too long ends the stream. */
    method TakeFrames(maxFrames: nat) returns (frames: Option<seq<Frame>>)
      requires Valid()
      modifies this
      ensures Valid()
      ensures match Take(old(buffer), maxFrameBytes, maxFrames)
              case TooLong => frames == None && buffer == []
              case Taken(taken, rest) => frames == Some(taken) && buffer == rest
    {
      hide Declared, Take;
      var found: seq<Frame> := [];
      var consumed: nat := 0;
      TakeShorter(buffer, maxFrameBytes, maxFrames);
      assert buffer[0..] == buffer;
      TakenMore(Take(buffer, maxFrameBytes, maxFrames), [], []);
      while |found| < maxFrames && |buffer| - consumed >= PREFIX
        invariant |found| <= maxFrames && consumed <= |buffer| && buffer == old(buffer)
        invariant Take(buffer, maxFrameBytes, maxFrames)
               == Prepended(found, Take(buffer[consumed..], maxFrameBytes, maxFrames - |found|))
        decreases |buffer| - consumed
      {
        var here := buffer[consumed..];
        SameDeclared(buffer[consumed..consumed + PREFIX], here);
        var declared := Declared(buffer[consumed..consumed + PREFIX]);
        TakeOne(here, maxFrameBytes, maxFrames - |found|);
        if declared > maxFrameBytes {
          buffer := [];
          return None;
        }
        var size := PREFIX + declared;
        if |buffer| - consumed < size { break; }
        var frame := buffer[consumed + PREFIX..consumed + size];
        assert here[PREFIX..size] == frame;
        assert here[size..] == buffer[consumed + size..];
        TakenMore(Take(here[size..], maxFrameBytes, maxFrames - |found| - 1), found, [frame]);
        found := found + [frame];
        consumed := consumed + size;
      }
      TakeNone(buffer[consumed..], maxFrameBytes, maxFrames - |found|);
      buffer := buffer[consumed..];
      assert found + [] == found;
      return Some(found);
    }

    predicate HasCompleteRecord()
      reads this
    {
      Complete(buffer, maxFrameBytes)
    }

    function RemainingCapacity(): nat
      requires Valid()
      reads this
    {
      maxFrameBytes + PREFIX - |buffer|
    }

    /** Reads from the connection as much as the turns, the frames wanted and the budget allow. `arriving` is what the
        connection holds, `sizes` how much of it each read yields. */
    method ReadReady(arriving: seq<byte>, sizes: seq<nat>, budget: nat, maxFrames: nat)
      returns (frames: seq<Frame>, read: nat, rejected: bool)
      requires Valid()
      modifies this
      ensures Valid() && read <= budget && read <= |arriving| && |frames| <= maxFrames
      ensures Short(frames, maxFrameBytes)
      ensures !rejected ==> EncodeAll(frames) + buffer == old(buffer) + arriving[..read]
      ensures rejected ==> buffer == [] && exists rest ::
                EncodeAll(frames) + rest == old(buffer) + arriving[..read]
                && Take(rest, maxFrameBytes, maxFrames - |frames|) == TooLong
      ensures !rejected ==>
                || |frames| == maxFrames || read + |frames| >= 16
                || (!HasCompleteRecord() && (read == budget || read == |arriving| || |sizes| < 16 || 0 in sizes[..16]))
    {
      hide Complete, Take, EncodeAll;
      frames, read, rejected := [], 0, false;
      var turns := 0;
      NoFrames();
      assert [] + buffer == buffer + arriving[..0];
      while turns < MAX_TURNS && |frames| < maxFrames
        invariant Valid() && read <= budget && read <= |arriving| && |frames| <= maxFrames && !rejected
        invariant Short(frames, maxFrameBytes) && EncodeAll(frames) + buffer == old(buffer) + arriving[..read]
        invariant turns <= MAX_TURNS && turns <= read + |frames|
        decreases MAX_TURNS - turns
      {
        if HasCompleteRecord() {
          TakeSpells(buffer, maxFrameBytes, maxFrames - |frames|);
          ghost var before := buffer;
          var taken := TakeFrames(maxFrames - |frames|);
          if taken.None? {
            rejected := true;
            return;
          }
          FramesMore(frames, taken.value, before, buffer);
          frames := frames + taken.value;
          turns := turns + 1;
          continue;
        }
        if read == budget { break; }
        FullReady();
        var most := Smaller(Smaller(RemainingCapacity(), IO_CHUNK), budget - read);
        assert most > 0;
        var size := Smaller(if turns < |sizes| then sizes[turns] else 0, Smaller(most, |arriving| - read));
        if size == 0 {
          if turns < |sizes| && sizes[turns] == 0 && |sizes| >= 16 { assert sizes[..16][turns] == 0; }
          break;
        }
        var bytes := arriving[read..read + size];
        assert arriving[..read] + bytes == arriving[..read + size];
        BytesMore(EncodeAll(frames), buffer, bytes, old(buffer), arriving[..read]);
        var ok := Push(bytes);
        read := read + size;
        turns := turns + 1;
      }
    }

    lemma FullReady()
      requires Valid()
      ensures !HasCompleteRecord() ==> RemainingCapacity() > 0
    {
      if |buffer| == maxFrameBytes + PREFIX { FullIsReady(buffer, maxFrameBytes); }
    }
  }

  lemma NoFrames()
    ensures EncodeAll([]) == []
  {}

  lemma BytesMore(a: seq<byte>, b: seq<byte>, c: seq<byte>, d: seq<byte>, e: seq<byte>)
    requires a + b == d + e
    ensures a + (b + c) == d + (e + c)
  {
    assert a + (b + c) == (a + b) + c && d + (e + c) == (d + e) + c;
  }

  lemma FramesMore(frames: seq<Frame>, taken: seq<Frame>, before: seq<byte>, after: seq<byte>)
    requires Short(frames, MAX_LENGTH) && Short(taken, MAX_LENGTH) && EncodeAll(taken) + after == before
    ensures EncodeAll(frames + taken) + after == EncodeAll(frames) + before
  {
    EncodeConcat(frames, taken);
    assert (EncodeAll(frames) + EncodeAll(taken)) + after == EncodeAll(frames) + (EncodeAll(taken) + after);
  }

  // ---- The queue of one peer

  datatype Limits = Limits(frameCapacity: nat, queueRecords: nat, queueBytes: nat)

  class PeerQueue {
    var records: seq<Record>
    var bytes: nat

    ghost predicate Valid()
      reads this
    {
      ValidRecords(records) && bytes == |Unsent(records)|
    }

    constructor ()
      ensures Valid() && records == []
    {
      records, bytes := [], 0;
    }

    method QueueFrame(frame: Frame, limits: Limits) returns (ok: bool)
      requires Valid()
      modifies this
      ensures Valid()
      ensures ok <==> |frame| <= limits.frameCapacity && |frame| <= MAX_LENGTH && |old(records)| < limits.queueRecords
                      && old(bytes) + PREFIX + |frame| <= limits.queueBytes
      ensures records == if ok then old(records) + [Record(Encode(frame), 0)] else old(records)
    {
      if |frame| > limits.frameCapacity || |frame| > MAX_LENGTH || |records| >= limits.queueRecords { return false; }
      var record := Encode(frame);
      if bytes + |record| > limits.queueBytes { return false; }
      UnsentAppend(records, Record(record, 0));
      bytes := bytes + |record|;
      records := records + [Record(record, 0)];
      return true;
    }

    /** A new connection starts with every queued record whole. */
    method Restart()
      requires Valid()
      modifies this
      ensures Valid() && records == Restarted(old(records))
    {
      records := Restarted(records);
      bytes := 0;
      ghost var all := Unsent(records);
      assert records[0..] == records;
      for i := 0 to |records|
        modifies this`bytes
        invariant bytes + |Unsent(records[i..])| == |all| && records == Restarted(old(records))
      {
        assert records[i..][1..] == records[i + 1..];
        bytes := bytes + |records[i].bytes|;
      }
    }

    /** The first bytes still to be written. */
    method Chunk(limit: nat) returns (chunk: seq<byte>)
      requires Valid()
      ensures chunk == Unsent(records)[..Smaller(limit, |Unsent(records)|)]
    {
      hide ValidRecords, Unsent;
      chunk := [];
      var i := 0;
      assert records[0..] == records && chunk + Unsent(records) == Unsent(records);
      while i < |records| && |chunk| < limit
        invariant i <= |records| && |chunk| <= limit && ValidRecords(records[i..])
        invariant |chunk| < limit || i == |records| ==> chunk + Unsent(records[i..]) == Unsent(records)
        invariant chunk <= Unsent(records)
      {
        UnsentFrom(records, i);
        ghost var rest := Unsent(records[i + 1..]);
        var part := records[i].bytes[records[i].offset..];
        assert chunk + (part + rest) == (chunk + part) + rest;
        if |chunk| + |part| > limit {
          FrontOf(chunk, part, rest, limit);
          chunk := chunk + part[..limit - |chunk|];
          i := i + 1;
          break;
        }
        chunk := chunk + part;
        i := i + 1;
      }
      if i == |records| && |chunk| <= limit { NoneUnsent(records[i..]); }
    }

    /** Notes that so many bytes were accepted by the connection. */
    method Consume(accepted: nat)
      requires Valid() && accepted <= |Unsent(records)|
      modifies this
      ensures Valid() && records == Written(old(records), accepted)
    {
      hide ValidRecords, Unsent;
      WrittenUnsent(records, accepted);
      bytes := bytes - accepted;
      var remaining: nat := accepted;
      while remaining > 0
        modifies this`records
        invariant ValidRecords(records) && remaining <= accepted && remaining <= |Unsent(records)|
        invariant Written(records, remaining) == Written(old(records), accepted)
        decreases remaining
      {
        FrontRecord(records);
        var front := records[0];
        var consumed := Smaller(remaining, |front.bytes| - front.offset);
        if front.offset + consumed == |front.bytes| {
          records := records[1..];
        } else {
          PartlyWritten(records, consumed);
          records := [front.(offset := front.offset + consumed)] + records[1..];
        }
        remaining := remaining - consumed;
      }
      WrittenNothing(records);
    }

    /** Writes what the budget and the connection allow; `willing` says how much each write may accept. */
    method Flush(budget: nat, willing: seq<nat>) returns (sent: seq<byte>)
      requires Valid()
      modifies this
      ensures Valid() && |sent| <= budget && |sent| <= |Unsent(old(records))|
      ensures sent == Unsent(old(records))[..|sent|] && records == Written(old(records), |sent|)
      ensures |sent| == Accepting(willing, Smaller(budget, |Unsent(old(records))|))
    {
      hide ValidRecords, Written, Unsent;
      sent := [];
      WrittenNothing(records);
      ghost var room := Smaller(budget, |Unsent(records)|);
      for i := 0 to |willing|
        invariant Valid() && |sent| <= budget && |sent| <= |Unsent(old(records))|
        invariant Accepting(willing, room) == |sent| + Accepting(willing[i..], room - |sent|)
        invariant sent == Unsent(old(records))[..|sent|] && records == Written(old(records), |sent|)
      {
        WrittenUnsent(old(records), |sent|);
        NothingUnsent(records);
        assert willing[i..][1..] == willing[i + 1..];
        if |sent| == budget || records == [] { break; }
        var chunk := Chunk(Smaller(IO_CHUNK, budget - |sent|));
        var accepted := Smaller(willing[i], |chunk|);
        if accepted == 0 { break; }
        WrittenTwice(old(records), |sent|, accepted);
        SliceTwice(Unsent(old(records)), |sent|, accepted);
        assert chunk[..accepted] == Unsent(records)[..accepted];
        Consume(accepted);
        sent := sent + chunk[..accepted];
      }
    }
  }

  /** How much a connection accepts of `room` bytes, at most a chunk with each write, until a write accepts nothing. */
  function Accepting(willing: seq<nat>, room: nat): (total: nat)
    ensures total <= room
  {
    if willing == [] || room == 0 then 0
    else
      var accepted := Smaller(willing[0], Smaller(IO_CHUNK, room));
      if accepted == 0 then 0 else accepted + Accepting(willing[1..], room - accepted)
  }

  /** All that may go goes unless a write accepts nothing or the writes are used up, each having taken what it could. */
  lemma {:induction false} AcceptingProgress(willing: seq<nat>, room: nat)
    ensures Accepting(willing, room) == room || 0 in willing || Accepting(willing, room) >= |willing|
    ensures Accepting(willing, room) == room || (exists i :: 0 <= i < |willing| && willing[i] < 16_384)
            || Accepting(willing, room) == 16_384 * |willing|
    decreases |willing|
  {
    if willing != [] && room > 0 {
      var accepted := Smaller(willing[0], Smaller(IO_CHUNK, room));
      if accepted > 0 {
        AcceptingProgress(willing[1..], room - accepted);
        assert willing == [willing[0]] + willing[1..];
      }
    }
  }

  lemma UnsentFrom(q: seq<Record>, i: nat)
    requires i < |q| && ValidRecords(q[i..])
    ensures q[i].offset < |q[i].bytes| && ValidRecords(q[i + 1..])
    ensures Unsent(q[i..]) == q[i].bytes[q[i].offset..] + Unsent(q[i + 1..])
  {
    ValidTail(q[i..]);
    assert q[i..][1..] == q[i + 1..];
  }

  lemma FrontOf(a: seq<byte>, b: seq<byte>, c: seq<byte>, n: nat)
    requires |a| <= n <= |a| + |b|
    ensures a + b[..n - |a|] == (a + (b + c))[..n]
  {}

  lemma NoneUnsent(q: seq<Record>)
    requires q == []
    ensures Unsent(q) == []
  {}

  lemma NothingUnsent(q: seq<Record>)
    requires ValidRecords(q)
    ensures q == [] <==> Unsent(q) == []
  {}

  lemma SliceTwice(s: seq<byte>, n: nat, k: nat)
    requires n + k <= |s|
    ensures s[..n] + s[n..][..k] == s[..n + k]
  {}

  lemma WrittenNothing(q: seq<Record>)
    requires ValidRecords(q)
    ensures Written(q, 0) == q
  {}

  lemma ValidTail(q: seq<Record>)
    requires ValidRecords(q) && q != []
    ensures ValidRecords(q[1..]) && q[0].offset < |q[0].bytes|
  {}

  lemma FrontRecord(q: seq<Record>)
    requires ValidRecords(q) && Unsent(q) != []
    ensures q != [] && q[0].offset < |q[0].bytes| && ValidRecords(q[1..])
    ensures Unsent(q) == q[0].bytes[q[0].offset..] + Unsent(q[1..])
    ensures forall n :: |q[0].bytes| - q[0].offset <= n <= |Unsent(q)| ==>
              Written(q, n) == Written(q[1..], n - (|q[0].bytes| - q[0].offset))
  {}

  lemma PartlyWritten(q: seq<Record>, n: nat)
    requires ValidRecords(q) && q != [] && 0 < n < |q[0].bytes| - q[0].offset
    ensures Written(q, n) == [q[0].(offset := q[0].offset + n)] + q[1..]
    ensures n <= |Unsent(q)| && |Unsent(Written(q, n))| == |Unsent(q)| - n
    ensures forall k: nat :: n + k <= |Unsent(q)| ==> Written(Written(q, n), k) == Written(q, n + k)
  {
    forall k: nat | n + k <= |Unsent(q)| ensures Written(Written(q, n), k) == Written(q, n + k) { WrittenTwice(q, n, k); }
    WrittenTwice(q, n, 0);
  }
}
