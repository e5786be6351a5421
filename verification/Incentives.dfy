/** What verified deliveries are worth, and the ledger of peer credit: nothing is created or lost between what was
    delivered, earned, denied, settled and left unpaid, in whatever order it is worked through. */
module Incentives {
  import opened Wrappers
  import opened Sums

  datatype Pair = Pair(payer: nat, provider: nat)

  datatype Delivery = Delivery(receiver: nat, provider: nat, bytes: nat, at: nat)

  datatype Obligation = Obligation(pair: Pair, amount: nat, at: nat)

  function Same(n: nat): nat { n }

  // ---- Totals

  function Value(obligations: seq<Obligation>): nat {
    if obligations == [] then 0
    else Value(obligations[..|obligations| - 1]) + obligations[|obligations| - 1].amount
  }

  function ValueOf(obligations: seq<Obligation>, p: Pair): nat {
    if obligations == [] then 0
    else
      var last := obligations[|obligations| - 1];
      ValueOf(obligations[..|obligations| - 1], p) + if last.pair == p then last.amount else 0
  }

  function PairOf(d: Delivery): Pair { Pair(d.receiver, d.provider) }

  function Bytes(deliveries: seq<Delivery>): nat {
    if deliveries == [] then 0 else Bytes(deliveries[..|deliveries| - 1]) + deliveries[|deliveries| - 1].bytes
  }

  function BytesOf(deliveries: seq<Delivery>, p: Pair): nat {
    if deliveries == [] then 0
    else
      var last := deliveries[|deliveries| - 1];
      BytesOf(deliveries[..|deliveries| - 1], p) + if PairOf(last) == p then last.bytes else 0
  }

  lemma ValueMore(obligations: seq<Obligation>, o: Obligation)
    ensures Value(obligations + [o]) == Value(obligations) + o.amount
    ensures forall p :: ValueOf(obligations + [o], p) == ValueOf(obligations, p) + if o.pair == p then o.amount else 0
  {
    assert (obligations + [o])[..|obligations|] == obligations;
  }

  // ---- Prices

  ghost predicate Remains(remainders: map<Pair, nat>, obligations: seq<Obligation>, deliveries: seq<Delivery>, bytesPerSat: nat, p: Pair) {
    if p in remainders
    then remainders[p] < bytesPerSat && BytesOf(deliveries, p) == bytesPerSat * ValueOf(obligations, p) + remainders[p]
    else BytesOf(deliveries, p) == 0 && ValueOf(obligations, p) == 0
  }

  ghost predicate AllRemain(remainders: map<Pair, nat>, obligations: seq<Obligation>, deliveries: seq<Delivery>, bytesPerSat: nat) {
    forall p :: Remains(remainders, obligations, deliveries, bytesPerSat, p)
  }

  /** One delivery more, and the obligation it completes if any. */
  lemma RemainsMore(remainders: map<Pair, nat>, obligations: seq<Obligation>, deliveries: seq<Delivery>, bytesPerSat: nat,
                    i: nat, amount: nat)
    requires bytesPerSat > 0 && i < |deliveries| && AllRemain(remainders, obligations, deliveries[..i], bytesPerSat)
    requires var pair := PairOf(deliveries[i]);
             amount == ((if pair in remainders then remainders[pair] else 0) + deliveries[i].bytes) / bytesPerSat
    ensures var d, pair := deliveries[i], PairOf(deliveries[i]);
            var bytes := (if pair in remainders then remainders[pair] else 0) + d.bytes;
            AllRemain(remainders[pair := bytes % bytesPerSat],
                      if amount != 0 then obligations + [Obligation(pair, amount, d.at)] else obligations,
                      deliveries[..i + 1], bytesPerSat)
  {
    hide BytesOf, ValueOf, Value, Bytes;
    var d, pair := deliveries[i], PairOf(deliveries[i]);
    var bytes := (if pair in remainders then remainders[pair] else 0) + d.bytes;
    var o := Obligation(pair, amount, d.at);
    var more, next := deliveries[..i + 1], if amount != 0 then obligations + [o] else obligations;
    DeliveriesMore(deliveries, i);
    ValueMore(obligations, o);
    var left := remainders[pair := bytes % bytesPerSat];
    forall p ensures Remains(left, next, more, bytesPerSat, p) {
      assert Remains(remainders, obligations, deliveries[..i], bytesPerSat, p);
      if p == pair { Divided(bytes, bytesPerSat, 0, ValueOf(obligations, p)); }
    }
  }

  /** Prices deliveries, in the order of their acceptance. Each pair owes its whole satoshis' worth of bytes, whatever
      that order; what is left over is dust. */
  method PriceRecords(deliveries: seq<Delivery>, bytesPerSat: nat)
    returns (obligations: seq<Obligation>, usefulBytes: nat, usefulValue: nat, dust: nat)
    requires bytesPerSat > 0
    ensures usefulBytes == Bytes(deliveries) && usefulValue == Value(obligations)
    ensures usefulBytes == bytesPerSat * usefulValue + dust
    ensures forall p :: bytesPerSat * ValueOf(obligations, p) <= BytesOf(deliveries, p) < bytesPerSat * (ValueOf(obligations, p) + 1)
  {
    hide Sum, Bytes, BytesOf, Value, ValueOf;
    var remainders: map<Pair, nat> := map[];
    obligations, usefulBytes, usefulValue := [], 0, 0;
    Nothing();
    SumNone<Pair, nat>(Same);
    for i := 0 to |deliveries|
      invariant usefulBytes == Bytes(deliveries[..i]) && usefulValue == Value(obligations)
      invariant usefulBytes == bytesPerSat * usefulValue + Sum(remainders, Same)
      invariant AllRemain(remainders, obligations, deliveries[..i], bytesPerSat)
    {
      var d := deliveries[i];
      var pair := PairOf(d);
      DeliveriesMore(deliveries, i);
      usefulBytes := usefulBytes + d.bytes;
      var bytes := (if pair in remainders then remainders[pair] else 0) + d.bytes;
      var amount := bytes / bytesPerSat;
      RemainsMore(remainders, obligations, deliveries, bytesPerSat, i, amount);
      Divided(bytes, bytesPerSat, usefulValue, usefulValue);
      SumPut<Pair, nat>(remainders, Same, pair, bytes % bytesPerSat);
      remainders := remainders[pair := bytes % bytesPerSat];
      if amount != 0 {
        ValueMore(obligations, Obligation(pair, amount, d.at));
        usefulValue := usefulValue + amount;
        obligations := obligations + [Obligation(pair, amount, d.at)];
      }
    }
    assert deliveries[..|deliveries|] == deliveries;
    forall p
      ensures bytesPerSat * ValueOf(obligations, p) <= BytesOf(deliveries, p) < bytesPerSat * (ValueOf(obligations, p) + 1)
    {
      assert Remains(remainders, obligations, deliveries, bytesPerSat, p);
      Divided(0, bytesPerSat, 0, ValueOf(obligations, p));
    }
    dust := MapTotal(remainders);
  }

  lemma Nothing()
    ensures Bytes([]) == 0 && Value([]) == 0
    ensures forall p :: BytesOf([], p) == 0 && ValueOf([], p) == 0
  {}

  lemma DeliveriesMore(deliveries: seq<Delivery>, i: nat)
    requires i < |deliveries|
    ensures Bytes(deliveries[..i + 1]) == Bytes(deliveries[..i]) + deliveries[i].bytes
    ensures forall p :: BytesOf(deliveries[..i + 1], p)
                     == BytesOf(deliveries[..i], p) + if PairOf(deliveries[i]) == p then deliveries[i].bytes else 0
  {
    assert deliveries[..i + 1][..i] == deliveries[..i];
  }

  lemma Divided(bytes: nat, bytesPerSat: nat, value: nat, pairValue: nat)
    requires bytesPerSat > 0
    ensures bytes == bytesPerSat * (bytes / bytesPerSat) + bytes % bytesPerSat
    ensures bytesPerSat * (value + bytes / bytesPerSat) == bytesPerSat * value + bytesPerSat * (bytes / bytesPerSat)
    ensures bytesPerSat * (pairValue + bytes / bytesPerSat) == bytesPerSat * pairValue + bytesPerSat * (bytes / bytesPerSat)
  {}

  method MapTotal(m: map<Pair, nat>) returns (total: nat)
    ensures total == Sum(m, Same)
  {
    hide Sum;
    total := 0;
    var rest := m;
    SumNone<Pair, nat>(Same);
    while rest != map[]
      invariant total + Sum(rest, Same) == Sum(m, Same)
      decreases |rest|
    {
      var p :| p in rest;
      SumRemove(rest, Same, p);
      Fewer(rest, p);
      total := total + rest[p];
      rest := rest - {p};
    }
  }

  // ---- Batches

  datatype Slot = Slot(due: nat, pair: Pair)

  function Due(o: Obligation, interval: nat): Slot
    requires interval > 0
  {
    Slot((o.at / interval + 1) * interval, o.pair)
  }

  function ValueDue(obligations: seq<Obligation>, interval: nat, s: Slot): nat
    requires interval > 0
  {
    if obligations == [] then 0
    else
      var last := obligations[|obligations| - 1];
      ValueDue(obligations[..|obligations| - 1], interval, s) + if Due(last, interval) == s then last.amount else 0
  }

  /** Adds up what each pair owes in each interval. */
  method Batches(obligations: seq<Obligation>, interval: nat) returns (grouped: map<Slot, nat>)
    requires interval > 0
    ensures Sum(grouped, Same) == Value(obligations)
    ensures forall s :: (if s in grouped then grouped[s] else 0) == ValueDue(obligations, interval, s)
    ensures forall s :: s in grouped <==> exists o :: o in obligations && Due(o, interval) == s
  {
    hide Sum, Value, Due;
    grouped := map[];
    SumNone<Slot, nat>(Same);
    Nothing();
    for i := 0 to |obligations|
      invariant Sum(grouped, Same) == Value(obligations[..i])
      invariant forall s :: (if s in grouped then grouped[s] else 0) == ValueDue(obligations[..i], interval, s)
      invariant forall s :: s in grouped <==> exists o :: o in obligations[..i] && Due(o, interval) == s
    {
      var o := obligations[i];
      ghost var before := obligations[..i];
      assert obligations[..i + 1] == before + [o] && forall x :: x in before + [o] <==> x in before || x == o;
      ObligationsMore(obligations, i);
      assert obligations[..i + 1][..i] == obligations[..i];
      var slot := Due(o, interval);
      var amount := (if slot in grouped then grouped[slot] else 0) + o.amount;
      SumPut<Slot, nat>(grouped, Same, slot, amount);
      grouped := grouped[slot := amount];
    }
    assert obligations[..|obligations|] == obligations;
  }

  lemma ObligationsMore(obligations: seq<Obligation>, i: nat)
    requires i < |obligations|
    ensures Value(obligations[..i + 1]) == Value(obligations[..i]) + obligations[i].amount
  {
    assert obligations[..i + 1][..i] == obligations[..i];
  }

  // ---- Peer credit

  /** What two peers owe each other in one interval: `forth` from the lower to the higher, `back` the other way. */
  datatype Mutual = Mutual(forth: nat, back: nat)

  datatype Meeting = Meeting(due: nat, low: nat, high: nat)

  function Both(m: Mutual): nat { m.forth + m.back }

  function Got(grouped: map<Slot, nat>, s: Slot): nat { if s in grouped then grouped[s] else 0 }

  /** What both owe each other in what was grouped; what a peer owes itself counts once. */
  predicate Meets(grouped: map<Slot, nat>, k: Meeting, m: Mutual) {
    && m.forth == Got(grouped, Slot(k.due, Pair(k.low, k.high)))
    && m.back == (if k.low == k.high then 0 else Got(grouped, Slot(k.due, Pair(k.high, k.low))))
  }

  ghost predicate AllMeet(grouped: map<Slot, nat>, meetings: map<Meeting, Mutual>) {
    && (forall k :: k in meetings ==> k.low <= k.high)
    && (forall k: Meeting :: k.low <= k.high ==> Meets(grouped, k, if k in meetings then meetings[k] else Mutual(0, 0)))
    && forall k :: k in meetings <==>
         k.low <= k.high && (Slot(k.due, Pair(k.low, k.high)) in grouped || Slot(k.due, Pair(k.high, k.low)) in grouped)
  }

  method Reciprocal(grouped: map<Slot, nat>) returns (meetings: map<Meeting, Mutual>)
    ensures Sum(meetings, Both) == Sum(grouped, Same)
    ensures AllMeet(grouped, meetings)
  {
    hide Sum, AllMeet, Apart;
    meetings := map[];
    var rest := grouped;
    ghost var done: map<Slot, nat> := map[];
    ApartStart(grouped);
    SumNone<Meeting, Mutual>(Both);
    SumNone<Slot, nat>(Same);
    NoneMeet();
    while rest != map[]
      invariant Sum(meetings, Both) + Sum(rest, Same) == Sum(grouped, Same)
      invariant AllMeet(done, meetings) && Apart(grouped, done, rest)
      decreases |rest|
    {
      var slot :| slot in rest;
      ApartNext(grouped, done, rest, slot);
      SumRemove(rest, Same, slot);
      Fewer(rest, slot);
      var amount, payer, provider := rest[slot], slot.pair.payer, slot.pair.provider;
      var low, high := if payer < provider then payer else provider, if payer < provider then provider else payer;
      var key := Meeting(slot.due, low, high);
      var totals := if key in meetings then meetings[key] else Mutual(0, 0);
      var more := if payer == low then totals.(forth := totals.forth + amount) else totals.(back := totals.back + amount);
      SumPut<Meeting, Mutual>(meetings, Both, key, more);
      OneMeetsMore(done, meetings, slot, amount, key, more);
      meetings := meetings[key := more];
      done := done[slot := amount];
      rest := rest - {slot};
    }
    ApartEnd(grouped, done);
  }

  lemma NoneMeet()
    ensures AllMeet(map[], map[])
  {}

  lemma OneMeetsMore(done: map<Slot, nat>, meetings: map<Meeting, Mutual>, slot: Slot, amount: nat, key: Meeting, more: Mutual)
    requires AllMeet(done, meetings) && slot !in done
    requires key == (if slot.pair.payer < slot.pair.provider then Meeting(slot.due, slot.pair.payer, slot.pair.provider)
                     else Meeting(slot.due, slot.pair.provider, slot.pair.payer))
    requires var totals := if key in meetings then meetings[key] else Mutual(0, 0);
             more == if slot.pair.payer == key.low then Mutual(totals.forth + amount, totals.back)
                     else Mutual(totals.forth, totals.back + amount)
    ensures AllMeet(done[slot := amount], meetings[key := more])
  {
    var now, all := done[slot := amount], meetings[key := more];
    forall k: Meeting | k.low <= k.high ensures Meets(now, k, if k in all then all[k] else Mutual(0, 0)) {
      assert Meets(done, k, if k in meetings then meetings[k] else Mutual(0, 0));
    }
  }

  /** `peak` is the most any one pair ever owed. */
  datatype Report = Report(earned: nat, denied: nat, settled: nat, unpaid: nat, reciprocal: nat, peak: nat)

  /** Gives credit for as much of an amount as the cap allows. */
  method GiveCredit(outstanding: map<Pair, nat>, pair: Pair, amount: nat, cap: nat)
    returns (more: map<Pair, nat>, admitted: nat, debt: nat)
    requires forall p :: p in outstanding ==> outstanding[p] <= cap
    ensures forall p :: p in more ==> more[p] <= cap
    ensures pair in more && more[pair] == debt && admitted <= amount && (admitted < amount ==> debt == cap)
    ensures debt == Of(outstanding, pair) + admitted
    ensures Of(more, pair) == debt && forall p :: p != pair ==> Of(more, p) == Of(outstanding, p)
    ensures admitted == if amount < cap - Of(outstanding, pair) then amount else cap - Of(outstanding, pair)
    ensures Sum(more, Same) == Sum(outstanding, Same) + admitted
  {
    hide Sum;
    var owed := if pair in outstanding then outstanding[pair] else 0;
    admitted := if amount < cap - owed then amount else cap - owed;
    debt := owed + admitted;
    SumPut<Pair, nat>(outstanding, Same, pair, debt);
    more := outstanding[pair := debt];
  }

  // ---- Who owes what, net

  function Reverse(p: Pair): Pair { Pair(p.provider, p.payer) }

  /** The intervals in which either of two peers served the other. */
  function DuesOf(obligations: seq<Obligation>, interval: nat, p: Pair): set<nat>
    requires interval > 0
  {
    set o | o in obligations && (o.pair == p || o.pair == Reverse(p)) :: Due(o, interval).due
  }

  /** What p's payer owes for one interval beyond what the provider owes back for it. */
  function Surplus(obligations: seq<Obligation>, interval: nat, p: Pair, due: nat): nat
    requires interval > 0
  {
    SaturatingSub(ValueDue(obligations, interval, Slot(due, p)),
                  if p.payer == p.provider then 0 else ValueDue(obligations, interval, Slot(due, Reverse(p))))
  }

  /** All that p's payer owes net, interval by interval. */
  ghost function NetOwed(obligations: seq<Obligation>, interval: nat, p: Pair): nat
    requires interval > 0
  {
    Sum(map d | d in DuesOf(obligations, interval, p) :: Surplus(obligations, interval, p, d), Same)
  }

  function Of(m: map<Pair, nat>, p: Pair): nat { if p in m then m[p] else 0 }

  function MeetingOf(due: nat, p: Pair): Meeting {
    if p.payer < p.provider then Meeting(due, p.payer, p.provider) else Meeting(due, p.provider, p.payer)
  }

  function DebtOf(m: Mutual, p: Pair): nat {
    if p.payer <= p.provider then SaturatingSub(m.forth, m.back) else SaturatingSub(m.back, m.forth)
  }

  /** The debts of one pair in some meetings, by interval. */
  function Debts(meetings: map<Meeting, Mutual>, p: Pair): map<nat, nat> {
    map d | d in (set k | k in meetings :: k.due) && MeetingOf(d, p) in meetings :: DebtOf(meetings[MeetingOf(d, p)], p)
  }

  lemma DebtsMore(done: map<Meeting, Mutual>, k: Meeting, m: Mutual, p: Pair)
    requires k !in done
    ensures Debts(done[k := m], p) == if MeetingOf(k.due, p) == k then Debts(done, p)[k.due := DebtOf(m, p)] else Debts(done, p)
    ensures MeetingOf(k.due, p) == k ==> k.due !in Debts(done, p)
  {
    var all := done[k := m];
    forall d ensures d in Debts(all, p) <==> d in Debts(done, p) || (MeetingOf(k.due, p) == k && d == k.due) {
      if MeetingOf(d, p) in all { assert MeetingOf(d, p).due == d; }
    }
  }

  /** In the end the debts are what is owed net. */
  lemma DebtsAreNet(obligations: seq<Obligation>, interval: nat, grouped: map<Slot, nat>, meetings: map<Meeting, Mutual>, p: Pair)
    requires interval > 0 && AllMeet(grouped, meetings)
    requires forall s :: Got(grouped, s) == ValueDue(obligations, interval, s)
    requires forall s :: s in grouped <==> exists o :: o in obligations && Due(o, interval) == s
    ensures Sum(Debts(meetings, p), Same) == NetOwed(obligations, interval, p)
  {
    hide Sum, ValueDue;
    var owed := map d | d in DuesOf(obligations, interval, p) :: Surplus(obligations, interval, p, d);
    forall d ensures d in Debts(meetings, p) <==> d in owed { SameDues(obligations, interval, grouped, meetings, p, d); }
    forall d | d in owed ensures Debts(meetings, p)[d] == owed[d] {
      assert Meets(grouped, MeetingOf(d, p), meetings[MeetingOf(d, p)]);
    }
    assert Debts(meetings, p) == owed;
  }

  lemma SameDues(obligations: seq<Obligation>, interval: nat, grouped: map<Slot, nat>, meetings: map<Meeting, Mutual>, p: Pair, d: nat)
    requires interval > 0 && AllMeet(grouped, meetings)
    requires forall s :: s in grouped <==> exists o :: o in obligations && Due(o, interval) == s
    ensures d in Debts(meetings, p) <==> d in DuesOf(obligations, interval, p)
  {
    var k := MeetingOf(d, p);
    if k in meetings { assert k.due == d; }
    if d in DuesOf(obligations, interval, p) {
      var o :| o in obligations && (o.pair == p || o.pair == Reverse(p)) && Due(o, interval).due == d;
      assert Due(o, interval) in grouped;
      assert k in meetings;
    }
    if k in meetings {
      var s := if Slot(d, p) in grouped then Slot(d, p) else Slot(d, Reverse(p));
      assert s in grouped;
      var o :| o in obligations && Due(o, interval) == s;
      assert o.pair == p || o.pair == Reverse(p);
    }
  }

  ghost predicate AllPaid(succeeds: nat -> bool) { forall n :: succeeds(n) }

  lemma PaidAlways(succeeds: nat -> bool, n: nat)
    ensures AllPaid(succeeds) ==> succeeds(n)
  {}

  /** What is outstanding for a pair, given what it owed so far. */
  ghost predicate Outstanding(outstanding: map<Pair, nat>, done: map<Meeting, Mutual>, cap: nat, defaults: nat -> bool,
                              succeeds: nat -> bool, p: Pair)
  {
    && Of(outstanding, p) <= Sum(Debts(done, p), Same) && Of(outstanding, p) <= cap
    && (defaults(p.payer) ==> Of(outstanding, p) == (if Sum(Debts(done, p), Same) < cap then Sum(Debts(done, p), Same) else cap))
    && (!defaults(p.payer) && AllPaid(succeeds) ==> Of(outstanding, p) == 0)
  }

  ghost predicate AllOutstanding(outstanding: map<Pair, nat>, done: map<Meeting, Mutual>, cap: nat, defaults: nat -> bool,
                                 succeeds: nat -> bool)
  {
    forall p :: Outstanding(outstanding, done, cap, defaults, succeeds, p)
  }

  /** One meeting more: the one who owes more goes into debt by the difference, up to the cap, and may pay it all. */
  lemma OneMeeting(outstanding: map<Pair, nat>, after: map<Pair, nat>, done: map<Meeting, Mutual>, k: Meeting, m: Mutual, pair: Pair,
                   amount: nat, cap: nat, defaults: nat -> bool, succeeds: nat -> bool)
    requires AllOutstanding(outstanding, done, cap, defaults, succeeds) && k !in done && k.low <= k.high
    requires k.low == k.high ==> m.back == 0
    requires pair == (if m.forth >= m.back then Pair(k.low, k.high) else Pair(k.high, k.low))
    requires amount == (if m.forth >= m.back then m.forth - m.back else m.back - m.forth)
    requires forall p :: p != pair ==> Of(after, p) == Of(outstanding, p)
    requires var owed := Of(outstanding, pair) + amount;
             || Of(after, pair) == (if owed < cap then owed else cap)
             || (!defaults(pair.payer) && Of(after, pair) == 0)
    requires !defaults(pair.payer) && AllPaid(succeeds) ==> Of(after, pair) == 0
    ensures AllOutstanding(after, done[k := m], cap, defaults, succeeds)
  {
    hide Sum, Debts, AllPaid;
    var all := done[k := m];
    forall p ensures Outstanding(after, all, cap, defaults, succeeds, p) {
      assert Outstanding(outstanding, done, cap, defaults, succeeds, p);
      DebtsMore(done, k, m, p);
      if MeetingOf(k.due, p) == k { SumPut<nat, nat>(Debts(done, p), Same, k.due, DebtOf(m, p)); }
    }
  }

  lemma NothingOutstanding(cap: nat, defaults: nat -> bool, succeeds: nat -> bool)
    ensures AllOutstanding(map[], map[], cap, defaults, succeeds)
  {
    forall p ensures Outstanding(map[], map[], cap, defaults, succeeds, p) {
      assert Debts(map[], p) == map[];
      SumNone<nat, nat>(Same);
    }
  }

  /** Sets services off against each other, gives credit up to the cap for what remains, and settles or not. All
      providers are honest; who defaults and which settlement attempts succeed is arbitrary. */
  method PlanPeerCredit(obligations: seq<Obligation>, interval: nat, cap: nat, defaults: nat -> bool, succeeds: nat -> bool)
    returns (r: Report, unpaidBy: map<Pair, nat>)
    requires interval > 0
    ensures r.earned + r.denied == Value(obligations)
    ensures r.settled + r.unpaid == r.earned
    ensures r.reciprocal <= r.settled && r.peak <= cap
    ensures Sum(unpaidBy, Same) == r.unpaid && forall p :: p in unpaidBy ==> unpaidBy[p] <= cap
    ensures forall p :: Of(unpaidBy, p) <= NetOwed(obligations, interval, p)
    ensures forall p: Pair :: defaults(p.payer) ==>
              Of(unpaidBy, p) == if NetOwed(obligations, interval, p) < cap then NetOwed(obligations, interval, p) else cap
    ensures AllPaid(succeeds) ==> forall p: Pair :: !defaults(p.payer) ==> Of(unpaidBy, p) == 0
  {
    hide Sum, Value, AllMeet, AllOutstanding, NetOwed, ValueDue, Due, Debts, Outstanding, Apart, AllPaid;
    var grouped := Batches(obligations, interval);
    var meetings := Reciprocal(grouped);
    r := Report(0, 0, 0, 0, 0, 0);
    unpaidBy := map[];
    var rest, sequence := meetings, 0;
    ghost var done: map<Meeting, Mutual> := map[];
    SumNone<Meeting, Mutual>(Both);
    SumNone<Slot, nat>(Same);
    SumNone<Pair, nat>(Same);
    NothingOutstanding(cap, defaults, succeeds);
    ApartStart(meetings);
    while rest != map[]
      invariant r.earned + r.denied + Sum(rest, Both) == Value(obligations)
      invariant r.settled + Sum(unpaidBy, Same) == r.earned && r.unpaid == 0
      invariant r.reciprocal <= r.settled && r.peak <= cap
      invariant forall p :: p in unpaidBy ==> unpaidBy[p] <= cap
      invariant AllOutstanding(unpaidBy, done, cap, defaults, succeeds) && Apart(meetings, done, rest)
      decreases |rest|
    {
      var key :| key in rest;
      SumRemove(rest, Both, key);
      Fewer(rest, key);
      ApartNext(meetings, done, rest, key);
      MeetingMeans(grouped, meetings, key);
      r, unpaidBy, sequence := CreditMeeting(key, rest[key], r, unpaidBy, cap, defaults, succeeds, sequence, done);
      done := done[key := rest[key]];
      rest := rest - {key};
    }
    var left := MapTotal(unpaidBy);
    r := r.(unpaid := left);
    ApartEnd(meetings, done);
    forall p: Pair
      ensures Of(unpaidBy, p) <= NetOwed(obligations, interval, p)
      ensures defaults(p.payer) ==>
                Of(unpaidBy, p) == if NetOwed(obligations, interval, p) < cap then NetOwed(obligations, interval, p) else cap
      ensures AllPaid(succeeds) && !defaults(p.payer) ==> Of(unpaidBy, p) == 0
    {
      OutstandingOf(unpaidBy, meetings, cap, defaults, succeeds, p);
      DebtsAreNet(obligations, interval, grouped, meetings, p);
    }
  }

  lemma PaidOff(m: map<Pair, nat>, pair: Pair)
    requires pair in m
    ensures Sum(m, Same) == m[pair] + Sum(m - {pair}, Same)
    ensures Of(m - {pair}, pair) == 0 && forall p :: p != pair ==> Of(m - {pair}, p) == Of(m, p)
  {
    hide Sum;
    SumRemove(m, Same, pair);
  }

  /** One meeting of two peers: their services are set off, the rest is credited up to the cap, and paid or not. */
  method CreditMeeting(key: Meeting, m: Mutual, report: Report, outstanding: map<Pair, nat>, cap: nat, defaults: nat -> bool,
                       succeeds: nat -> bool, attempts: nat, ghost done: map<Meeting, Mutual>)
    returns (r: Report, after: map<Pair, nat>, sequence: nat)
    requires report.settled + Sum(outstanding, Same) == report.earned && report.unpaid == 0
    requires report.reciprocal <= report.settled && report.peak <= cap
    requires forall p :: p in outstanding ==> outstanding[p] <= cap
    requires AllOutstanding(outstanding, done, cap, defaults, succeeds) && key !in done
    requires key.low <= key.high && (key.low == key.high ==> m.back == 0)
    ensures r.earned + r.denied == report.earned + report.denied + Both(m)
    ensures r.settled + Sum(after, Same) == r.earned && r.unpaid == 0
    ensures r.reciprocal <= r.settled && r.peak <= cap
    ensures forall p :: p in after ==> after[p] <= cap
    ensures AllOutstanding(after, done[key := m], cap, defaults, succeeds)
  {
    hide Sum, AllOutstanding, Outstanding, Debts, Of, AllPaid;
    var offset := if m.forth < m.back then m.forth else m.back;
    var pair, amount := if m.forth >= m.back then Pair(key.low, key.high) else Pair(key.high, key.low),
                        if m.forth >= m.back then m.forth - m.back else m.back - m.forth;
    NoneOwed(outstanding, done, cap, defaults, succeeds, pair);
    var admitted, debt, paid;
    after, admitted, debt, paid, sequence := LendAndPay(outstanding, pair, amount, cap, defaults, succeeds, attempts);
    r := report.(earned := report.earned + 2 * offset + admitted, denied := report.denied + (amount - admitted),
                 settled := report.settled + 2 * offset + paid, reciprocal := report.reciprocal + 2 * offset,
                 peak := if report.peak < debt then debt else report.peak);
    OneMeeting(outstanding, after, done, key, m, pair, amount, cap, defaults, succeeds);
  }

  /** Credit for what is left to owe, if anything is, then an attempt to pay all debt of the pair. */
  method LendAndPay(outstanding: map<Pair, nat>, pair: Pair, amount: nat, cap: nat, defaults: nat -> bool, succeeds: nat -> bool,
                    attempts: nat)
    returns (after: map<Pair, nat>, admitted: nat, debt: nat, paid: nat, sequence: nat)
    requires forall p :: p in outstanding ==> outstanding[p] <= cap
    ensures forall p :: p in after ==> after[p] <= cap
    ensures admitted <= amount && debt <= cap && Sum(after, Same) + paid == Sum(outstanding, Same) + admitted
    ensures forall p :: p != pair ==> Of(after, p) == Of(outstanding, p)
    ensures var owed := Of(outstanding, pair) + amount;
            Of(after, pair) == (if owed < cap then owed else cap) || (!defaults(pair.payer) && Of(after, pair) == 0)
    ensures !defaults(pair.payer) && AllPaid(succeeds) && (amount == 0 ==> Of(outstanding, pair) == 0) ==> Of(after, pair) == 0
  {
    hide Sum, AllPaid;
    after, admitted, debt, paid, sequence := outstanding, 0, 0, 0, attempts;
    if amount == 0 { return; }
    after, admitted, debt := GiveCredit(outstanding, pair, amount, cap);
    if !defaults(pair.payer) && debt > 0 {
      PaidAlways(succeeds, sequence);
      var pays := succeeds(sequence);
      sequence := sequence + 1;
      if pays {
        PaidOff(after, pair);
        paid := after[pair];
        after := after - {pair};
      }
    }
  }

  lemma OutstandingOf(outstanding: map<Pair, nat>, done: map<Meeting, Mutual>, cap: nat, defaults: nat -> bool,
                      succeeds: nat -> bool, p: Pair)
    requires AllOutstanding(outstanding, done, cap, defaults, succeeds)
    ensures var owed := Sum(Debts(done, p), Same);
            && Of(outstanding, p) <= owed
            && (defaults(p.payer) ==> Of(outstanding, p) == if owed < cap then owed else cap)
            && (!defaults(p.payer) && AllPaid(succeeds) ==> Of(outstanding, p) == 0)
  {
    hide Sum, Debts;
    assert Outstanding(outstanding, done, cap, defaults, succeeds, p);
  }

  lemma NoneOwed(outstanding: map<Pair, nat>, done: map<Meeting, Mutual>, cap: nat, defaults: nat -> bool,
                 succeeds: nat -> bool, p: Pair)
    requires AllOutstanding(outstanding, done, cap, defaults, succeeds)
    ensures Of(outstanding, p) <= cap && (!defaults(p.payer) && AllPaid(succeeds) ==> Of(outstanding, p) == 0)
  {
    hide Sum, Debts;
    assert Outstanding(outstanding, done, cap, defaults, succeeds, p);
  }

  lemma MeetingMeans(grouped: map<Slot, nat>, meetings: map<Meeting, Mutual>, k: Meeting)
    requires AllMeet(grouped, meetings) && k in meetings
    ensures k.low <= k.high && (k.low == k.high ==> meetings[k].back == 0)
  {
    assert Meets(grouped, k, meetings[k]);
  }
}
