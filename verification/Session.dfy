/** Sessions: an immutable snapshot of the records in an agreed window and a bounded conversation about it. */
module Session {
  import opened Wrappers
  import opened Sets
  import opened Codec
  import opened Items
  import opened Wire
  import opened Validation
  import opened Steps
  import opened Truth
  import opened Ledger
  import opened Sizes
  import opened Conversation
  import opened Rounds
  import opened Engine

  datatype Filter = Filter(since: u64, until: u64) {
    predicate Contains(timestamp: u64) {
      timestamp >= since && timestamp <= until
    }
  }

  datatype Limits = Limits(maxRecords: nat, maxFrameBytes: nat, maxRounds: nat)

  predicate ValidWindow(filter: Filter) {
    filter.since <= filter.until && filter.until != MAX_U64
  }

  predicate ValidLimits(limits: Limits) {
    && 0 < limits.maxRecords <= 1_000_000
    && 4096 <= limits.maxFrameBytes <= 65_536
    && limits.maxRounds != 0
  }

  // ---- The snapshot

  /** The window includes both its ends. */
  ghost predicate InWindow(records: seq<Item>, filter: Filter, x: Item) {
    x in records && filter.since <= x.timestamp <= filter.until
  }

  /** One identifier with two timestamps inside the window. */
  ghost predicate Conflicting(records: seq<Item>, filter: Filter) {
    exists x, y :: InWindow(records, filter, x) && InWindow(records, filter, y) && x.id == y.id && x != y
  }

  ghost function WindowIds(records: seq<Item>, filter: Filter): set<Id> {
    set x | x in records && filter.since <= x.timestamp <= filter.until :: x.id
  }

  /** The map holds exactly the records of the window. */
  ghost predicate Collected(unique: map<Id, u64>, records: seq<Item>, filter: Filter) {
    forall x: Item :: x.id in unique && unique[x.id] == x.timestamp <==> InWindow(records, filter, x)
  }

  lemma CollectedMeans(unique: map<Id, u64>, records: seq<Item>, filter: Filter)
    requires Collected(unique, records, filter)
    ensures unique.Keys == WindowIds(records, filter) && !Conflicting(records, filter)
  {
    forall id | id in unique ensures id in WindowIds(records, filter) {
      assert InWindow(records, filter, Item(unique[id], id));
    }
  }

  lemma MoreIds(records: seq<Item>, filter: Filter, i: nat)
    requires i <= |records|
    ensures |WindowIds(records[..i], filter)| <= |WindowIds(records, filter)|
  {
    SubsetSize(WindowIds(records[..i], filter), WindowIds(records, filter));
  }

  lemma PrefixConflicts(records: seq<Item>, filter: Filter, i: nat)
    requires i <= |records| && Conflicting(records[..i], filter)
    ensures Conflicting(records, filter)
  {
    var x, y :| InWindow(records[..i], filter, x) && InWindow(records[..i], filter, y) && x.id == y.id && x != y;
    assert InWindow(records, filter, x) && InWindow(records, filter, y);
  }

  /** Up to record i all is well, and with it there is a conflict, or one record too many. */
  ghost predicate FailsAt(records: seq<Item>, filter: Filter, maxRecords: nat, i: nat, error: Error)
    requires i < |records|
  {
    && !Conflicting(records[..i], filter) && |WindowIds(records[..i], filter)| <= maxRecords
    && if Conflicting(records[..i + 1], filter) then error == ConflictingTimestamps
       else |WindowIds(records[..i + 1], filter)| > maxRecords && error == TooManyRecords
  }

  /** Gathers the records of the window by identifier. */
  method Collect(records: seq<Item>, filter: Filter, maxRecords: nat) returns (r: Result<map<Id, u64>>)
    ensures r.Ok? <==> !Conflicting(records, filter) && |WindowIds(records, filter)| <= maxRecords
    ensures r.Ok? ==> Collected(r.value, records, filter)
    ensures r.Err? ==> exists i :: 0 <= i < |records| && FailsAt(records, filter, maxRecords, i, r.error)
  {
    var unique: map<Id, u64> := map[];
    for i := 0 to |records|
      invariant Collected(unique, records[..i], filter)
      invariant |unique| <= maxRecords
    {
      var record := records[i];
      assert records[..i + 1] == records[..i] + [record];
      if filter.Contains(record.timestamp) {
        CollectedMeans(unique, records[..i], filter);
        assert unique.Keys == WindowIds(records[..i], filter);
        if record.id in unique && unique[record.id] != record.timestamp {
          var other := Item(unique[record.id], record.id);
          assert InWindow(records[..i], filter, other);
          assert InWindow(records[..i + 1], filter, other) && InWindow(records[..i + 1], filter, record);
          PrefixConflicts(records, filter, i + 1);
          assert FailsAt(records, filter, maxRecords, i, ConflictingTimestamps);
          return Err(ConflictingTimestamps);
        }
        ghost var before := unique;
        unique := unique[record.id := record.timestamp];
        assert Collected(unique, records[..i + 1], filter) by {
          CollectOne(before, records[..i], record, filter);
        }
        if |unique| > maxRecords {
          CollectedMeans(unique, records[..i + 1], filter);
          MoreIds(records, filter, i + 1);
          assert unique.Keys == WindowIds(records[..i + 1], filter);
          assert FailsAt(records, filter, maxRecords, i, TooManyRecords);
          return Err(TooManyRecords);
        }
      }
    }
    assert records[..|records|] == records;
    CollectedMeans(unique, records, filter);
    assert unique.Keys == WindowIds(records, filter);
    return Ok(unique);
  }

  lemma CollectOne(unique: map<Id, u64>, records: seq<Item>, record: Item, filter: Filter)
    requires Collected(unique, records, filter) && filter.since <= record.timestamp <= filter.until
    requires record.id in unique ==> unique[record.id] == record.timestamp
    ensures Collected(unique[record.id := record.timestamp], records + [record], filter)
  {
    forall x: Item
      ensures x.id in unique[record.id := record.timestamp] && unique[record.id := record.timestamp][x.id] == x.timestamp
         <==> InWindow(records + [record], filter, x)
    {
      assert x.id in unique && unique[x.id] == x.timestamp <==> InWindow(records, filter, x);
    }
  }

  /** Inserts an item in order. */
  function Insert(items: seq<Item>, item: Item): (r: seq<Item>)
    ensures |r| == |items| + 1
    ensures forall x :: x in r <==> x in items || x == item
  {
    if items == [] then [item]
    else if ItemKey(item) < ItemKey(items[0]) then
      assert forall x :: x in [item] + items <==> x in items || x == item;
      [item] + items
    else
      var rest := Insert(items[1..], item);
      assert items == [items[0]] + items[1..];
      [items[0]] + rest
  }

  lemma {:induction false} InsertSealed(items: seq<Item>, item: Item)
    requires Sealed(items) && item.timestamp < MAX_U64
    requires forall x :: x in items ==> x.id != item.id
    ensures Sealed(Insert(items, item))
  {
    hide ItemKey;
    if items != [] {
      ItemKeyOrder(item, items[0]);
      assert items[0] in items;
      if ItemKey(item) < ItemKey(items[0]) {
        SealedCons(item, items);
      } else {
        var rest := items[1..];
        assert items == [items[0]] + rest;
        SealedTail(items);
        InsertSealed(rest, item);
        assert forall x :: x in Insert(rest, item) ==> ItemKey(items[0]) < ItemKey(x) && x.id != items[0].id;
        SealedCons(items[0], Insert(rest, item));
      }
    } else {
      SealedCons(item, []);
    }
  }

  lemma SealedTail(items: seq<Item>)
    requires Sealed(items) && items != []
    ensures Sealed(items[1..])
    ensures forall x :: x in items[1..] ==> ItemKey(items[0]) < ItemKey(x) && x.id != items[0].id
  {
    hide ItemKey;
    assert forall i :: 0 <= i < |items[1..]| ==> items[1..][i] == items[i + 1];
  }

  lemma SealedCons(item: Item, items: seq<Item>)
    requires Sealed(items) && item.timestamp < MAX_U64
    requires items != [] ==> ItemKey(item) < ItemKey(items[0])
    requires forall x :: x in items ==> x.id != item.id
    ensures Sealed([item] + items)
  {
    hide ItemKey;
    var all := [item] + items;
    forall i, j | 0 <= i < j < |all| ensures ItemKey(all[i]) < ItemKey(all[j]) && all[i].id != all[j].id {
      assert all[j] == items[j - 1] && items[j - 1] in items;
      if i > 0 { assert all[i] == items[i - 1]; }
    }
  }

  /** Sorts the collected records into sealed storage. */
  method Seal(unique: map<Id, u64>) returns (items: seq<Item>)
    requires forall id :: id in unique ==> unique[id] < MAX_U64
    ensures Sealed(items) && |items| == |unique|
    ensures forall x: Item :: x in items <==> x.id in unique && unique[x.id] == x.timestamp
  {
    hide ItemKey;
    items := [];
    var rest := unique.Keys;
    while rest != {}
      invariant rest <= unique.Keys && Sealed(items) && |items| + |rest| == |unique.Keys|
      invariant forall x: Item :: x in items <==> x.id in unique && x.id !in rest && unique[x.id] == x.timestamp
      decreases |rest|
    {
      var id :| id in rest;
      InsertSealed(items, Item(unique[id], id));
      items := Insert(items, Item(unique[id], id));
      rest := rest - {id};
    }
    assert |unique.Keys| == |unique|;
  }

  // ---- Sessions

  datatype Step = Step(next: Option<seq<byte>>, have: seq<Id>, need: seq<Id>)

  class Session {
    const engine: Negentropy
    const limits: Limits
    var rounds: nat
    var finished: bool

    ghost predicate Valid()
      reads this, engine
    {
      && engine.Valid() && ValidLimits(limits) && engine.frameSizeLimit == limits.maxFrameBytes
    }

    ghost function Self(): Peer
      reads this, engine
    {
      engine.Self()
    }

    constructor (engine: Negentropy, limits: Limits)
      requires engine.Valid() && ValidLimits(limits) && engine.frameSizeLimit == limits.maxFrameBytes
      ensures Valid() && this.engine == engine && this.limits == limits && rounds == 0 && !finished
    {
      this.engine, this.limits, rounds, finished := engine, limits, 0, false;
    }

    /** A session over the records of the window; it is refused if the window or a limit is invalid, a record
        has two timestamps, or there are too many. */
    static method New(records: seq<Item>, filter: Filter, limits: Limits, fingerprint: seq<Id> -> Hash)
      returns (r: Result<Session>)
      ensures r.Ok? <==> && filter.since <= filter.until < MAX_U64
                         && 0 < limits.maxRecords <= 1_000_000 && 4096 <= limits.maxFrameBytes <= 65_536 && limits.maxRounds > 0
                         && !Conflicting(records, filter) && |WindowIds(records, filter)| <= limits.maxRecords
      ensures !ValidWindow(filter) ==> r == Err(InvalidWindow)
      ensures ValidWindow(filter) && !ValidLimits(limits) ==> r == Err(InvalidLimits)
      ensures ValidWindow(filter) && ValidLimits(limits) && r.Err? ==>
                exists i :: 0 <= i < |records| && FailsAt(records, filter, limits.maxRecords, i, r.error)
      ensures r.Ok? ==>
                var s := r.value;
                && fresh(s) && fresh(s.engine) && s.Valid() && s.limits == limits && s.rounds == 0 && !s.finished
                && s.Self() == Peer(s.engine.items, fingerprint, limits.maxFrameBytes, false)
                && s.engine.lastTimestampOut == 0
                && |s.engine.items| == |WindowIds(records, filter)|
                && forall x :: x in s.engine.items <==> x in records && filter.since <= x.timestamp <= filter.until
    {
      if filter.since > filter.until || filter.until == MAX_U64 { return Err(InvalidWindow); }
      if limits.maxRecords == 0 || limits.maxRecords > 1_000_000
         || !(4096 <= limits.maxFrameBytes <= 65_536) || limits.maxRounds == 0 {
        return Err(InvalidLimits);
      }
      var unique := Collect(records, filter, limits.maxRecords);
      if unique.Err? { return Err(unique.error); }
      CollectedMeans(unique.value, records, filter);
      assert |unique.value.Keys| <= limits.maxRecords;
      forall id | id in unique.value ensures unique.value[id] < MAX_U64 {
        assert InWindow(records, filter, Item(unique.value[id], id));
      }
      var items := Seal(unique.value);
      var engine := Negentropy.New(items, fingerprint, limits.maxFrameBytes);
      match engine {
        case Err(e) => return Err(e);
        case Ok(e) =>
          var session := new Session(e, limits);
          return Ok(session);
      }
    }

    method Tick() returns (r: Result<()>)
      modifies this`rounds
      ensures r == if old(finished) || old(rounds) >= limits.maxRounds then Err(SessionOver) else Ok(())
      ensures rounds == if r.Ok? then old(rounds) + 1 else old(rounds)
    {
      if finished || rounds >= limits.maxRounds { return Err(SessionOver); }
      rounds := rounds + 1;
      return Ok(());
    }

    /** Whether a frame is taken: rounds left, not too long, and valid throughout. */
    method Accept(frame: seq<byte>) returns (r: Result<()>)
      modifies this`rounds
      ensures r == if old(finished) || old(rounds) >= limits.maxRounds then Err(SessionOver)
                   else if |frame| > limits.maxFrameBytes then Err(FrameTooLong)
                   else if AcceptsFrame(frame) then Ok(()) else Err(InvalidFrame)
      ensures rounds == if r == Err(SessionOver) then old(rounds) else old(rounds) + 1
    {
      r := Tick();
      if r.Err? { return; }
      if |frame| > limits.maxFrameBytes { return Err(FrameTooLong); }
      r := Validate(frame);
    }

    method Initiate() returns (r: Result<seq<byte>>)
      requires Valid()
      modifies this`rounds, engine`isInitiator, engine`lastTimestampOut
      ensures Valid()
      ensures old(finished) || old(rounds) >= limits.maxRounds ==>
                r == Err(SessionOver) && Self() == old(Self()) && rounds == old(rounds)
      ensures !(old(finished) || old(rounds) >= limits.maxRounds) ==>
                && rounds == old(rounds) + 1
                && Self() == old(Self()).(initiator := true)
                && r == if old(engine.isInitiator) then Err(AlreadyBuiltInitialMessage)
                        else Ok([PROTOCOL_VERSION] + RangesBytes(old(engine.lastTimestampOut), Opening(Self())))
    {
      var tick := Tick();
      if tick.Err? { return Err(tick.error); }
      r := engine.Initiate();
    }

    method Respond(frame: seq<byte>) returns (r: Result<seq<byte>>)
      requires Valid()
      modifies this`rounds, engine`lastTimestampIn, engine`lastTimestampOut
      ensures Valid() && Self() == old(Self())
      ensures old(finished) || old(rounds) >= limits.maxRounds ==> r == Err(SessionOver)
      ensures !(old(finished) || old(rounds) >= limits.maxRounds) ==>
                && rounds == old(rounds) + 1
                && (|frame| > limits.maxFrameBytes ==> r == Err(FrameTooLong))
                && (|frame| <= limits.maxFrameBytes && !AcceptsFrame(frame) ==> r == Err(InvalidFrame))
                && (|frame| <= limits.maxFrameBytes && AcceptsFrame(frame) ==>
                      r == if engine.isInitiator then Err(Initiator)
                           else match Reply(Self(), frame) case Err(e) => Err(e) case Ok(a) => Ok(a.frame))
    {
      var accepted := Accept(frame);
      if accepted.Err? { return Err(accepted.error); }
      r := engine.Reconcile(frame);
    }

    method Reconcile(frame: seq<byte>) returns (r: Result<Step>)
      requires Valid()
      modifies this, engine`lastTimestampIn, engine`lastTimestampOut
      ensures Valid() && Self() == old(Self())
      ensures old(finished) || old(rounds) >= limits.maxRounds ==> r == Err(SessionOver)
      ensures !(old(finished) || old(rounds) >= limits.maxRounds) ==>
                && rounds == old(rounds) + 1
                && (|frame| > limits.maxFrameBytes ==> r == Err(FrameTooLong))
                && (|frame| <= limits.maxFrameBytes && !AcceptsFrame(frame) ==> r == Err(InvalidFrame))
                && (|frame| <= limits.maxFrameBytes && AcceptsFrame(frame) ==>
                      if !engine.isInitiator then r == Err(NonInitiator)
                      else match Reply(Self(), frame)
                           case Err(e) => r == Err(e)
                           case Ok(a) =>
                             && r.Ok? && r.value.next == (if |a.frame| == 1 then None else Some(a.frame))
                             && multiset(r.value.have) == a.have && multiset(r.value.need) == a.need)
      ensures r.Ok? ==> finished == r.value.next.None?
      ensures r.Err? ==> finished == old(finished)
    {
      var accepted := Accept(frame);
      if accepted.Err? { return Err(accepted.error); }
      var next, have, need := engine.ReconcileWithIds(frame, [], []);
      if next.Err? { return Err(next.error); }
      finished := next.value.None?;
      return Ok(Step(next.value, have, need));
    }
  }
}
