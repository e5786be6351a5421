/** Bodies on their way to one application: what each call does to those pending, whatever the receiver does in
    between, and what then holds of every run. */
module Delivery {
  import opened Wrappers

  const MAX_SEEN: nat := 4_096

  datatype Body = Body(id: string, content: string)

  datatype Status = Active | Lagged | Closed

  /** A bounded channel; `received` is what its receiver has taken. */
  datatype Channel = Channel(capacity: nat, queue: seq<Body>, received: seq<Body>, alive: bool)

  /** What the receiver does before the next attempt to send: it takes some bodies and may go away. */
  datatype Meanwhile = Meanwhile(takes: nat, leaves: bool)

  datatype State = State(
    open: bool, pending: seq<Body>, pendingIds: set<string>, deliveredIds: set<string>, deliveredOrder: seq<string>,
    maximum: nat, status: Status, channel: Channel)

  function New(capacity: nat, maximum: nat): State {
    State(true, [], {}, {}, [], maximum, Active, Channel(capacity, [], [], true))
  }

  // ---- The channel

  function Taken(c: Channel, takes: nat): Channel {
    var n := if takes < |c.queue| then takes else |c.queue|;
    if c.alive then c.(queue := c.queue[n..], received := c.received + c.queue[..n]) else c
  }

  function Passed(c: Channel, m: Meanwhile): Channel {
    var t := Taken(c, m.takes);
    if m.leaves then t.(queue := [], alive := false) else t
  }

  function First(ms: seq<Meanwhile>): Meanwhile { if ms == [] then Meanwhile(0, false) else ms[0] }

  function Rest(ms: seq<Meanwhile>): seq<Meanwhile> { if ms == [] then [] else ms[1..] }

  datatype Outcome = Sent | Full | Gone

  function Offered(c: Channel): Outcome {
    if !c.alive then Gone else if |c.queue| >= c.capacity then Full else Sent
  }

  // ---- Calls

  function Remembering(s: State, order: seq<string>, ids: set<string>): State
    decreases |order|
  {
    if |order| <= MAX_SEEN then s.(deliveredOrder := order, deliveredIds := ids)
    else Remembering(s, order[1..], ids - {order[0]})
  }

  function MarkDelivered(s: State, id: string): State {
    Remembering(s, s.deliveredOrder + [id], s.deliveredIds + {id})
  }

  /** A closed or lagging delivery lets go of the channel once nothing is pending. */
  function Settled(s: State): State {
    if s.status != Active && s.pending == [] then s.(open := false) else s
  }

  function Shut(s: State): State {
    var t := if s.status == Active then s.(status := Closed) else s;
    if t.pending == [] then t.(open := false) else t
  }

  /** Sends one body that the channel takes. */
  function Pushed(s: State, b: Body): State {
    MarkDelivered(s.(channel := s.channel.(queue := s.channel.queue + [b])), b.id)
  }

  function Front(s: State): State
    requires s.pending != []
  {
    Pushed(s.(pending := s.pending[1..], pendingIds := s.pendingIds - {s.pending[0].id}), s.pending[0])
  }

  /** Offers pending bodies to the channel, oldest first, and says what is left of `ms`. */
  function Refill(s: State, ms: seq<Meanwhile>): (State, seq<Meanwhile>)
    decreases |s.pending|
  {
    if s.pending == [] || !s.open then (Settled(s), ms)
    else
      var t := s.(channel := Passed(s.channel, First(ms)));
      match Offered(t.channel)
      case Sent => PushedFewer(t, t.pending[0]); Refill(Front(t), Rest(ms))
      case Full => (Settled(t), Rest(ms))
      case Gone => (Settled(Shut(t.(pending := [], pendingIds := {}))), Rest(ms))
  }

  lemma {:induction false} RememberingElsewhere(s: State, order: seq<string>, ids: set<string>)
    ensures var r := Remembering(s, order, ids);
            r == s.(deliveredOrder := r.deliveredOrder, deliveredIds := r.deliveredIds)
    decreases |order|
  {
    if |order| > MAX_SEEN { RememberingElsewhere(s, order[1..], ids - {order[0]}); }
  }

  lemma PushedFewer(s: State, b: Body)
    ensures s.pending != [] ==> |Front(s).pending| == |s.pending| - 1
  {
    if s.pending != [] {
      var t := s.(pending := s.pending[1..], pendingIds := s.pendingIds - {s.pending[0].id});
      var u := t.(channel := t.channel.(queue := t.channel.queue + [s.pending[0]]));
      RememberingElsewhere(u, u.deliveredOrder + [s.pending[0].id], u.deliveredIds + {s.pending[0].id});
    }
  }

  function Known(s: State, id: string): bool { id in s.deliveredIds || id in s.pendingIds }

  /** Takes in a body, and says whether it was admitted and whether it went ahead of older ones still pending. */
  datatype Enqueued = Enqueued(state: State, admitted: bool, overtook: bool)

  function Enqueue(s: State, b: Body, ms: seq<Meanwhile>): Enqueued {
    if s.status != Active || Known(s, b.id) then Enqueued(s, false, false)
    else
      var (r, rest) := Refill(s, ms);
      if !r.open then Enqueued(r, false, false)
      else
        var t := r.(channel := Passed(r.channel, First(rest)));
        match Offered(t.channel)
        case Sent => Enqueued(Pushed(t, b), true, t.pending != [])
        case Full =>
          if |t.pending| == t.maximum then Enqueued(t.(status := Lagged), false, false)
          else Enqueued(t.(pending := t.pending + [b], pendingIds := t.pendingIds + {b.id}), true, false)
        case Gone => Enqueued(Shut(t), false, false)
  }

  datatype Call =
    | Admit(body: Body, meanwhile: seq<Meanwhile>)
    | Drain(meanwhile: seq<Meanwhile>)
    | Close
    | Receive(takes: nat)

  datatype Step = Step(state: State, admitted: seq<Body>, overtook: bool)

  function Next(s: State, call: Call): Step {
    match call
    case Admit(body, ms) =>
      var e := Enqueue(s, body, ms);
      Step(e.state, if e.admitted then [body] else [], e.overtook)
    case Drain(ms) => Step(Refill(s, ms).0, [], false)
    case Close => Step(Shut(s), [], false)
    case Receive(takes) => Step(s.(channel := Taken(s.channel, takes)), [], false)
  }

  /** The receiver does not go away. */
  predicate Stays(ms: seq<Meanwhile>) { forall m :: m in ms ==> !m.leaves }

  predicate Living(call: Call) {
    match call
    case Admit(_, ms) => Stays(ms)
    case Drain(ms) => Stays(ms)
    case _ => true
  }

  // ---- What always holds while the receiver lives

  /** What went to the receiver, in order. */
  function Delivered(s: State): seq<Body> { s.channel.received + s.channel.queue }

  function Ids(bodies: seq<Body>): seq<string> {
    seq(|bodies|, i requires 0 <= i < |bodies| => bodies[i].id)
  }

  function Recent(bodies: seq<Body>): seq<Body> {
    if |bodies| > MAX_SEEN then bodies[|bodies| - MAX_SEEN..] else bodies
  }

  ghost predicate IdSet(ids: set<string>, bodies: seq<Body>) {
    forall x :: x in ids <==> exists i :: 0 <= i < |bodies| && bodies[i].id == x
  }

  /** A body comes again only after more others than are remembered. */
  ghost predicate FarApart(d: seq<Body>) {
    forall i, j :: 0 <= i < j < |d| && d[i].id == d[j].id ==> j - i > 4096
  }

  ghost predicate LongAgo(d: seq<Body>, b: Body) {
    forall i :: 0 <= i < |d| && d[i].id == b.id ==> |d| - i > 4096
  }

  ghost predicate Kept(s: State) {
    && s.channel.alive
    && s.deliveredOrder == Ids(Recent(Delivered(s))) && IdSet(s.deliveredIds, Recent(Delivered(s)))
    && IdSet(s.pendingIds, s.pending)
    && (forall i, j :: 0 <= i < j < |s.pending| ==> s.pending[i].id != s.pending[j].id)
    && FarApart(Delivered(s)) && (forall b :: b in s.pending ==> LongAgo(Delivered(s), b))
  }

  /** Only a delivery that is no longer active, with nothing pending, lets go of the channel. */
  ghost predicate Good(s: State) {
    Kept(s) && (s.status == Active ==> s.open) && (!s.open ==> s.pending == [])
  }

  lemma TakenKeeps(s: State, takes: nat)
    requires s.channel.alive
    ensures var t := s.(channel := Taken(s.channel, takes));
            Delivered(t) == Delivered(s) && (Kept(s) ==> Kept(t)) && (Good(s) ==> Good(t))
  {
    var n := if takes < |s.channel.queue| then takes else |s.channel.queue|;
    assert s.channel.queue == s.channel.queue[..n] + s.channel.queue[n..];
    var t := s.(channel := Taken(s.channel, takes));
    assert Delivered(t) == Delivered(s);
  }

  /** The recent part of a sequence and its identifiers, with one body more. */
  lemma RecentMore(d: seq<Body>, b: Body)
    requires FarApart(d) && LongAgo(d, b)
    ensures var order := Ids(Recent(d)) + [b.id];
            && Ids(Recent(d + [b])) == (if |order| <= MAX_SEEN then order else order[1..])
            && |Ids(Recent(d))| <= MAX_SEEN
            && (|order| > MAX_SEEN ==> |order[1..]| <= MAX_SEEN && order[0] !in Ids(Recent(d + [b])))
  {
    hide Recent, Ids;
    if |d| < MAX_SEEN {
      RecentShort(d, b);
    } else {
      RecentFull(d, b);
      OldestGone(d, b);
    }
  }

  lemma IdsSnoc(r: seq<Body>, b: Body)
    ensures Ids(r + [b]) == Ids(r) + [b.id] && |Ids(r)| == |r|
  {}

  lemma RecentShort(d: seq<Body>, b: Body)
    requires |d| < MAX_SEEN
    ensures Ids(Recent(d + [b])) == Ids(Recent(d)) + [b.id] && |Ids(Recent(d))| < MAX_SEEN
  {
    hide Ids;
    IdsSnoc(d, b);
  }

  lemma RecentFull(d: seq<Body>, b: Body)
    requires |d| >= MAX_SEEN
    ensures |Ids(Recent(d))| == MAX_SEEN && Ids(Recent(d))[0] == d[|d| - MAX_SEEN].id
    ensures Ids(Recent(d + [b])) == (Ids(Recent(d)) + [b.id])[1..]
  {
    var r := d[|d| - MAX_SEEN..];
    assert Recent(d) == r && Recent(d + [b]) == r[1..] + [b];
    IdsSnoc(r[1..], b);
    assert (Ids(r) + [b.id])[1..] == Ids(r[1..]) + [b.id];
  }

  lemma OldestGone(d: seq<Body>, b: Body)
    requires FarApart(d) && LongAgo(d, b) && |d| >= MAX_SEEN
    ensures d[|d| - MAX_SEEN].id !in Ids(Recent(d + [b]))
  {
    var from, all := |d| - MAX_SEEN, d + [b];
    assert Recent(all) == all[from + 1..];
    forall i | from < i <= |d| ensures all[i].id != d[from].id {}
  }

  lemma IdSetMore(ids: set<string>, bodies: seq<Body>, b: Body)
    requires IdSet(ids, bodies)
    ensures IdSet(ids + {b.id}, bodies + [b])
  {
    var more := bodies + [b];
    assert forall i :: 0 <= i < |bodies| ==> more[i] == bodies[i];
    assert more[|bodies|] == b;
  }

  lemma IdSetLess(ids: set<string>, bodies: seq<Body>)
    requires IdSet(ids, bodies) && bodies != [] && forall j :: 0 < j < |bodies| ==> bodies[j].id != bodies[0].id
    ensures IdSet(ids - {bodies[0].id}, bodies[1..])
  {
    var rest := bodies[1..];
    assert forall i :: 0 <= i < |rest| ==> rest[i] == bodies[i + 1];
    forall x | x in ids - {bodies[0].id} ensures exists i :: 0 <= i < |rest| && rest[i].id == x {
      var i :| 0 <= i < |bodies| && bodies[i].id == x;
      assert rest[i - 1].id == x;
    }
  }

  lemma FarApartMore(d: seq<Body>, b: Body)
    requires FarApart(d) && LongAgo(d, b)
    ensures FarApart(d + [b]) && forall p: Body :: LongAgo(d, p) && p.id != b.id ==> LongAgo(d + [b], p)
  {}

  lemma PushedKeeps(s: State, b: Body)
    requires Kept(s) && LongAgo(Delivered(s), b) && b.id !in s.pendingIds
    ensures var r := Pushed(s, b);
            && Kept(r) && Delivered(r) == Delivered(s) + [b]
            && r == s.(channel := r.channel, deliveredOrder := r.deliveredOrder, deliveredIds := r.deliveredIds)
  {
    hide FarApart, LongAgo, IdSet, Ids, Recent;
    var d := Delivered(s);
    var u := s.(channel := s.channel.(queue := s.channel.queue + [b]));
    assert Delivered(u) == d + [b];
    RecentMore(d, b);
    FarApartMore(d, b);
    PendingIds(s);
    RememberedSet(s, d, b);
    var order := s.deliveredOrder + [b.id];
    RememberingElsewhere(u, order, s.deliveredIds + {b.id});
  }

  lemma PendingIds(s: State)
    requires IdSet(s.pendingIds, s.pending)
    ensures forall p :: p in s.pending ==> p.id in s.pendingIds
  {}

  lemma RememberedSet(s: State, d: seq<Body>, b: Body)
    requires IdSet(s.deliveredIds, Recent(d)) && FarApart(d) && LongAgo(d, b)
    ensures var order := Ids(Recent(d)) + [b.id];
            if |order| <= MAX_SEEN then IdSet(s.deliveredIds + {b.id}, Recent(d + [b]))
            else IdSet(s.deliveredIds + {b.id} - {order[0]}, Recent(d + [b]))
  {
    hide IdSet;
    var bodies := Recent(d) + [b];
    IdSetMore(s.deliveredIds, Recent(d), b);
    if |d| >= MAX_SEEN {
      var from := |d| - MAX_SEEN;
      assert bodies == d[from..] + [b] && Recent(d + [b]) == bodies[1..];
      forall j | 0 < j < |bodies| ensures bodies[j].id != bodies[0].id {
        assert bodies[j] == (d + [b])[from + j] && bodies[0] == d[from];
      }
      IdSetLess(s.deliveredIds + {b.id}, bodies);
    } else {
      assert Recent(d + [b]) == bodies;
    }
  }

  // ---- What each call keeps

  /** What went to the receiver and what is pending. */
  function Stream(s: State): seq<Body> { Delivered(s) + s.pending }

  lemma PassedKeeps(s: State, m: Meanwhile)
    requires s.channel.alive && !m.leaves
    ensures var t := s.(channel := Passed(s.channel, m));
            Delivered(t) == Delivered(s) && (Kept(s) ==> Kept(t)) && (Good(s) ==> Good(t)) && t.channel.alive
  {
    hide Kept;
    TakenKeeps(s, m.takes);
  }

  lemma FrontKeeps(s: State)
    requires Kept(s) && s.pending != []
    ensures Kept(Front(s)) && Stream(Front(s)) == Stream(s) && Delivered(Front(s)) == Delivered(s) + [s.pending[0]]
    ensures var r := Front(s);
            r.pending == s.pending[1..] && r.open == s.open && r.status == s.status && r.pendingIds <= s.pendingIds
  {
    hide FarApart, LongAgo, Recent, Ids, IdSet;
    var b := s.pending[0];
    var t := s.(pending := s.pending[1..], pendingIds := s.pendingIds - {b.id});
    IdSetLess(s.pendingIds, s.pending);
    assert Delivered(t) == Delivered(s);
    assert forall p :: p in s.pending[1..] ==> p in s.pending;
    PushedKeeps(t, b);
    assert s.pending == [b] + s.pending[1..];
    assert (Delivered(s) + [b]) + s.pending[1..] == Delivered(s) + ([b] + s.pending[1..]);
  }

  lemma {:induction false} RefillKeeps(s: State, ms: seq<Meanwhile>)
    requires Good(s) && Stays(ms)
    ensures var (r, rest) := Refill(s, ms);
            && Good(r) && Stream(r) == Stream(s) && Delivered(s) <= Delivered(r) && Stays(rest)
            && r.status == s.status && r.pendingIds <= s.pendingIds
    decreases |s.pending|
  {
    hide Kept, Front;
    if s.pending != [] && s.open {
      var t := s.(channel := Passed(s.channel, First(ms)));
      GoodAlive(s);
      PassedKeeps(s, First(ms));
      if Offered(t.channel) == Sent {
        FrontKeeps(t);
        RefillKeeps(Front(t), Rest(ms));
      }
    }
    SettledKeeps(s);
  }

  lemma GoodAlive(s: State)
    requires Kept(s)
    ensures s.channel.alive
  {}

  lemma SettledKeeps(s: State)
    ensures forall t: State :: Good(t) ==> Good(Settled(t)) && Stream(Settled(t)) == Stream(t) && Delivered(Settled(t)) == Delivered(t)
  {
    forall t: State | Good(t) ensures Good(Settled(t)) && Stream(Settled(t)) == Stream(t) && Delivered(Settled(t)) == Delivered(t) {
      OpenElsewhere(t, false);
    }
  }

  lemma OpenElsewhere(s: State, open: bool)
    ensures Kept(s.(open := open)) == Kept(s) && Delivered(s.(open := open)) == Delivered(s)
  {}

  lemma StatusElsewhere(s: State, status: Status)
    ensures Kept(s.(status := status)) == Kept(s) && Delivered(s.(status := status)) == Delivered(s)
  {}

  lemma ShutKeeps(s: State)
    requires Good(s)
    ensures Good(Shut(s)) && Stream(Shut(s)) == Stream(s) && Delivered(Shut(s)) == Delivered(s)
  {
    hide Kept;
    StatusElsewhere(s, Closed);
    OpenElsewhere(s, false);
    OpenElsewhere(s.(status := Closed), false);
  }

  /** What is not known was not delivered recently and is not pending. */
  lemma UnknownLongAgo(s: State, b: Body)
    requires Kept(s) && !Known(s, b.id)
    ensures LongAgo(Delivered(s), b) && b.id !in s.pendingIds && forall p :: p in s.pending ==> p.id != b.id
  {
    var d := Delivered(s);
    var from := if |d| > MAX_SEEN then |d| - MAX_SEEN else 0;
    forall i | from <= i < |d| ensures d[i].id != b.id { assert Recent(d)[i - from] == d[i]; }
  }

  lemma AppendedKeeps(s: State, b: Body)
    requires Kept(s) && LongAgo(Delivered(s), b) && forall p :: p in s.pending ==> p.id != b.id
    ensures Kept(s.(pending := s.pending + [b], pendingIds := s.pendingIds + {b.id}))
  {
    hide FarApart, LongAgo, Recent, Ids, IdSet;
    IdSetMore(s.pendingIds, s.pending, b);
    assert Delivered(s.(pending := s.pending + [b], pendingIds := s.pendingIds + {b.id})) == Delivered(s);
    assert forall i :: 0 <= i < |s.pending| ==> s.pending[i] in s.pending;
  }

  /** The refill sends nothing of that identifier unless it was pending. */
  lemma {:induction false} RefillUnknown(s: State, ms: seq<Meanwhile>, b: Body)
    requires Good(s) && Stays(ms) && LongAgo(Delivered(s), b) && forall p :: p in s.pending ==> p.id != b.id
    ensures var r := Refill(s, ms).0;
            LongAgo(Delivered(r), b) && forall p :: p in r.pending ==> p.id != b.id
    decreases |s.pending|
  {
    hide Kept, Front, FarApart, LongAgo;
    if s.pending != [] && s.open {
      var t := s.(channel := Passed(s.channel, First(ms)));
      GoodAlive(s);
      PassedKeeps(s, First(ms));
      if Offered(t.channel) == Sent {
        FrontKeeps(t);
        assert s.pending[0] in s.pending;
        LongAgoMore(t, b);
        assert forall p :: p in Front(t).pending ==> p in s.pending;
        RefillUnknown(Front(t), Rest(ms), b);
      }
    }
    SettledKeeps(s);
  }

  lemma LongAgoMore(s: State, b: Body)
    requires Kept(s) && s.pending != [] && LongAgo(Delivered(s), b) && s.pending[0].id != b.id
    ensures LongAgo(Delivered(s) + [s.pending[0]], b)
  {
    FarApartMore(Delivered(s), s.pending[0]);
  }

  lemma EnqueueKeeps(s: State, b: Body, ms: seq<Meanwhile>)
    requires Good(s) && Stays(ms)
    ensures var e := Enqueue(s, b, ms);
            && Good(e.state) && Delivered(s) <= Delivered(e.state)
            && (!e.overtook ==> Stream(e.state) == Stream(s) + (if e.admitted then [b] else []))
            && (e.overtook ==> e.admitted && Overtaken(s, e.state, b))
  {
    hide Kept, Refill, FarApart, LongAgo, Overtaken;
    if s.status == Active && !Known(s, b.id) {
      RefillKeeps(s, ms);
      UnknownLongAgo(s, b);
      RefillUnknown(s, ms, b);
      var (r, rest) := Refill(s, ms);
      assert Stream(s) + [] == Stream(s);
      if r.open {
        GoodAlive(r);
        PassedKeeps(r, First(rest));
        var t := r.(channel := Passed(r.channel, First(rest)));
        GoodAlive(t);
        if Offered(t.channel) == Sent {
          PushedKeeps(t, b);
          if t.pending == [] {
            assert (Delivered(t) + [b]) + [] == (Delivered(t) + []) + [b];
          } else {
            OvertakenBy(s, t, b);
          }
        } else {
          if |t.pending| == t.maximum {
            StatusElsewhere(t, Lagged);
          } else {
            AppendedKeeps(t, b);
            assert Delivered(t) + (t.pending + [b]) == (Delivered(t) + t.pending) + [b];
          }
        }
      }
    } else {
      assert Stream(s) + [] == Stream(s);
    }
  }

  /** The new body is where another one was to be: the same bodies, but out of order. */
  ghost predicate Overtaken(s: State, r: State, b: Body) {
    && multiset(Stream(r)) == multiset(Stream(s) + [b])
    && exists k :: 0 <= k < |Delivered(r)| && k < |Stream(s)| && Delivered(r)[k] != Stream(s)[k]
  }

  lemma OvertakenBy(s: State, t: State, b: Body)
    requires Stream(t) == Stream(s) && t.pending != [] && (forall p :: p in t.pending ==> p.id != b.id)
    requires Kept(t) && LongAgo(Delivered(t), b) && b.id !in t.pendingIds
    ensures Overtaken(s, Pushed(t, b), b)
  {
    hide Kept, LongAgo;
    PushedKeeps(t, b);
    var r, d := Pushed(t, b), Delivered(t);
    assert Stream(r) == d + [b] + t.pending && Stream(s) == d + t.pending;
    assert t.pending[0] in t.pending;
    assert Delivered(r)[|d|] == b && Stream(s)[|d|] == t.pending[0];
  }

  lemma NextKeeps(s: State, call: Call)
    requires Good(s) && Living(call)
    ensures var n := Next(s, call);
            && Good(n.state) && Delivered(s) <= Delivered(n.state)
            && (!n.overtook ==> Stream(n.state) == Stream(s) + n.admitted)
            && (n.overtook ==> |n.admitted| == 1 && Overtaken(s, n.state, n.admitted[0]))
  {
    hide Kept, Enqueue, Refill, Shut, Overtaken;
    assert Stream(s) + [] == Stream(s);
    match call
    case Admit(body, ms) => EnqueueKeeps(s, body, ms);
    case Drain(ms) => RefillKeeps(s, ms);
    case Close => ShutKeeps(s);
    case Receive(takes) =>
      GoodAlive(s);
      TakenKeeps(s, takes);
  }

  // ---- Runs

  datatype Progress = Progress(state: State, admitted: seq<Body>, overtook: bool)

  function Run(capacity: nat, maximum: nat, calls: seq<Call>): Progress {
    if calls == [] then Progress(New(capacity, maximum), [], false)
    else
      var b := Run(capacity, maximum, calls[..|calls| - 1]);
      var n := Next(b.state, calls[|calls| - 1]);
      Progress(n.state, b.admitted + n.admitted, b.overtook || n.overtook)
  }

  predicate AllLiving(calls: seq<Call>) { forall c :: c in calls ==> Living(c) }

  ghost predicate OutOfOrder(delivered: seq<Body>, admitted: seq<Body>) {
    exists k :: 0 <= k < |delivered| && k < |admitted| && delivered[k] != admitted[k]
  }

  /** The order holds, or is already broken. */
  ghost predicate Ordered(p: Progress) {
    && multiset(Stream(p.state)) == multiset(p.admitted)
    && if p.overtook then OutOfOrder(Delivered(p.state), p.admitted) else Stream(p.state) == p.admitted
  }

  lemma {:induction false} RunKeeps(capacity: nat, maximum: nat, calls: seq<Call>)
    requires AllLiving(calls)
    ensures Good(Run(capacity, maximum, calls).state) && Ordered(Run(capacity, maximum, calls))
  {
    hide Kept, Next, Overtaken, OutOfOrder, Living;
    if calls == [] {
      NewKeeps(capacity, maximum);
    } else {
      var n := |calls| - 1;
      assert forall c :: c in calls[..n] ==> c in calls;
      RunKeeps(capacity, maximum, calls[..n]);
      assert calls[n] in calls;
      var b := Run(capacity, maximum, calls[..n]);
      NextKeeps(b.state, calls[n]);
      StepOrdered(b, Next(b.state, calls[n]));
    }
  }

  lemma NewKeeps(capacity: nat, maximum: nat)
    ensures Good(New(capacity, maximum)) && Ordered(Progress(New(capacity, maximum), [], false))
  {}

  lemma StepOrdered(b: Progress, n: Step)
    requires Ordered(b) && Delivered(b.state) <= Delivered(n.state)
    requires !n.overtook ==> Stream(n.state) == Stream(b.state) + n.admitted
    requires n.overtook ==> |n.admitted| == 1 && Overtaken(b.state, n.state, n.admitted[0])
    ensures Ordered(Progress(n.state, b.admitted + n.admitted, b.overtook || n.overtook))
  {
    hide Stream, Delivered;
    var admitted := b.admitted + n.admitted;
    if n.overtook { assert n.admitted == [n.admitted[0]]; }
    assert multiset(Stream(n.state)) == multiset(admitted);
    if b.overtook {
      var k :| 0 <= k < |Delivered(b.state)| && k < |b.admitted| && Delivered(b.state)[k] != b.admitted[k];
      assert Delivered(n.state)[k] != admitted[k];
    } else if n.overtook {
      var k :| 0 <= k < |Delivered(n.state)| && k < |Stream(b.state)| && Delivered(n.state)[k] != Stream(b.state)[k];
      assert Delivered(n.state)[k] != admitted[k];
    }
  }

  /** While the receiver lives, every admitted body is with it, in the channel or pending, exactly as often as it was
      admitted, and one identifier comes to the receiver again only after more than 4096 others; the channel is let go
      only when nothing is pending. */
  lemma NothingLost(capacity: nat, maximum: nat, calls: seq<Call>)
    requires AllLiving(calls)
    ensures var p := Run(capacity, maximum, calls);
            && multiset(p.state.channel.received) + multiset(p.state.channel.queue) + multiset(p.state.pending) == multiset(p.admitted)
            && FarApart(p.state.channel.received + p.state.channel.queue)
            && (!p.state.open ==> p.state.pending == [])
  {
    hide Run;
    RunKeeps(capacity, maximum, calls);
    var s := Run(capacity, maximum, calls).state;
    assert multiset(Stream(s)) == multiset(s.channel.received) + multiset(s.channel.queue) + multiset(s.pending);
  }

  /** A call that lets its body go ahead of older ones: after the pending bodies were offered some are left, the
      channel being full, and then the receiver takes a body from it. */
  predicate Overtakes(s: State, call: Call) {
    call.Admit? && s.status == Active && !Known(s, call.body.id) &&
    var (r, rest) := Refill(s, call.meanwhile);
    r.open && r.pending != [] && r.channel.queue != [] && First(rest).takes > 0
  }

  /** A channel never holds more than it may. */
  predicate Bounded(c: Channel) { |c.queue| <= c.capacity }

  lemma PushedChannel(s: State, b: Body)
    ensures Pushed(s, b).channel == s.channel.(queue := s.channel.queue + [b])
    ensures Pushed(s, b).open == s.open && Pushed(s, b).pending == s.pending
  {
    var u := s.(channel := s.channel.(queue := s.channel.queue + [b]));
    RememberingElsewhere(u, u.deliveredOrder + [b.id], u.deliveredIds + {b.id});
  }

  /** Whatever is left pending was refused by a full channel. */
  lemma {:induction false} RefillEnds(s: State, ms: seq<Meanwhile>)
    requires Bounded(s.channel)
    ensures var r := Refill(s, ms).0;
            Bounded(r.channel) && (r.pending != [] && r.open ==> Offered(r.channel) == Full)
    decreases |s.pending|
  {
    hide Remembering, Known;
    if s.pending != [] && s.open {
      var t := s.(channel := Passed(s.channel, First(ms)));
      if Offered(t.channel) == Sent {
        PushedFewer(t, t.pending[0]);
        PushedChannel(t.(pending := t.pending[1..], pendingIds := t.pendingIds - {t.pending[0].id}), t.pending[0]);
        RefillEnds(Front(t), Rest(ms));
      }
    }
  }

  lemma NextOvertakes(s: State, call: Call)
    requires Bounded(s.channel) && Living(call)
    ensures Next(s, call).overtook <==> Overtakes(s, call)
    ensures Bounded(Next(s, call).state.channel)
  {
    hide Remembering, Known, Refill;
    match call
    case Admit(body, ms) =>
      RefillEnds(s, ms);
      if s.status == Active && !Known(s, body.id) {
        var (r, rest) := Refill(s, ms);
        var t := r.(channel := Passed(r.channel, First(rest)));
        PushedChannel(t, body);
        LivingRest(s, ms);
      }
    case Drain(ms) => RefillEnds(s, ms);
    case Close =>
    case Receive(takes) =>
  }

  lemma {:induction false} LivingRest(s: State, ms: seq<Meanwhile>)
    requires Stays(ms)
    ensures Stays(Refill(s, ms).1) && !First(Refill(s, ms).1).leaves
    decreases |s.pending|
  {
    hide Front;
    assert Stays(Rest(ms));
    if s.pending != [] && s.open {
      var t := s.(channel := Passed(s.channel, First(ms)));
      if Offered(t.channel) == Sent {
        PushedFewer(t, t.pending[0]);
        LivingRest(Front(t), Rest(ms));
      }
    }
  }

  predicate OvertakesAt(capacity: nat, maximum: nat, calls: seq<Call>, i: nat)
    requires i < |calls|
  {
    Overtakes(Run(capacity, maximum, calls[..i]).state, calls[i])
  }

  /** A run overtakes exactly in the calls that do. */
  lemma {:induction false} RunOvertakes(capacity: nat, maximum: nat, calls: seq<Call>)
    requires AllLiving(calls)
    ensures Bounded(Run(capacity, maximum, calls).state.channel)
    ensures Run(capacity, maximum, calls).overtook <==> exists i :: 0 <= i < |calls| && OvertakesAt(capacity, maximum, calls, i)
  {
    hide Next, Overtakes, Living, OvertakesAt;
    if calls != [] {
      var n := |calls| - 1;
      var before := calls[..n];
      assert forall c :: c in before ==> c in calls;
      RunOvertakes(capacity, maximum, before);
      assert calls[n] in calls;
      NextOvertakes(Run(capacity, maximum, before).state, calls[n]);
      forall i | 0 <= i < n ensures OvertakesAt(capacity, maximum, before, i) <==> OvertakesAt(capacity, maximum, calls, i) {
        SameBefore(capacity, maximum, calls, i);
      }
      LastOvertakes(capacity, maximum, calls);
    }
  }

  lemma LastOvertakes(capacity: nat, maximum: nat, calls: seq<Call>)
    requires calls != []
    ensures var n := |calls| - 1;
            OvertakesAt(capacity, maximum, calls, n) <==> Overtakes(Run(capacity, maximum, calls[..n]).state, calls[n])
  {
    hide Overtakes, Run;
  }

  lemma SameBefore(capacity: nat, maximum: nat, calls: seq<Call>, i: nat)
    requires i < |calls| - 1
    ensures OvertakesAt(capacity, maximum, calls[..|calls| - 1], i) <==> OvertakesAt(capacity, maximum, calls, i)
  {
    hide Overtakes;
    assert calls[..|calls| - 1][..i] == calls[..i];
  }

  /** Bodies are received in the order of their admission if and only if no call overtakes. */
  lemma InOrderExactly(capacity: nat, maximum: nat, calls: seq<Call>)
    requires AllLiving(calls)
    ensures var p := Run(capacity, maximum, calls);
            p.state.channel.received + p.state.channel.queue + p.state.pending == p.admitted
            <==> forall i :: 0 <= i < |calls| ==> !OvertakesAt(capacity, maximum, calls, i)
  {
    hide Run, Kept, OvertakesAt;
    RunKeeps(capacity, maximum, calls);
    RunOvertakes(capacity, maximum, calls);
    var p := Run(capacity, maximum, calls);
    if p.overtook {
      var k :| 0 <= k < |Delivered(p.state)| && k < |p.admitted| && Delivered(p.state)[k] != p.admitted[k];
      assert Stream(p.state)[k] == Delivered(p.state)[k];
    }
  }

  /** If the receiver does nothing during the calls that admit bodies, they are received in that order, whatever it
      does between them and while pending bodies are offered again. */
  lemma AtomicInOrder(capacity: nat, maximum: nat, calls: seq<Call>)
    requires AllLiving(calls) && forall c :: c in calls && c.Admit? ==> c.meanwhile == []
    ensures var p := Run(capacity, maximum, calls);
            p.state.channel.received + p.state.channel.queue + p.state.pending == p.admitted
  {
    hide Run;
    forall i | 0 <= i < |calls| ensures !OvertakesAt(capacity, maximum, calls, i) {
      assert calls[i] in calls;
      if calls[i].Admit? { UndisturbedRest(Run(capacity, maximum, calls[..i]).state); }
    }
    InOrderExactly(capacity, maximum, calls);
  }

  lemma {:induction false} UndisturbedRest(s: State)
    ensures Refill(s, []).1 == []
    decreases |s.pending|
  {
    hide Front;
    if s.pending != [] && s.open {
      var t := s.(channel := Passed(s.channel, First([])));
      if Offered(t.channel) == Sent {
        PushedFewer(t, t.pending[0]);
        UndisturbedRest(Front(t));
      }
    }
  }

  function AfterOne(a: Body, maximum: nat): State {
    New(1, maximum).(channel := Channel(1, [a], [], true), deliveredIds := {a.id}, deliveredOrder := [a.id])
  }

  function AfterTwo(a: Body, b: Body, maximum: nat): State {
    AfterOne(a, maximum).(pending := [b], pendingIds := {b.id})
  }

  lemma FirstSent(a: Body, maximum: nat)
    ensures Enqueue(New(1, maximum), a, []) == Enqueued(AfterOne(a, maximum), true, false)
  {}

  lemma SecondWaits(a: Body, b: Body, maximum: nat)
    requires a.id != b.id && maximum > 0
    ensures Enqueue(AfterOne(a, maximum), b, []) == Enqueued(AfterTwo(a, b, maximum), true, false)
  {}

  lemma ThirdOvertakes(a: Body, b: Body, c: Body, maximum: nat)
    requires a.id != c.id && b.id != c.id
    ensures var e := Enqueue(AfterTwo(a, b, maximum), c, [Meanwhile(0, false), Meanwhile(1, false)]);
            e.admitted && e.overtook && Delivered(e.state) == [a, c] && e.state.pending == [b]
  {
    var s, ms := AfterTwo(a, b, maximum), [Meanwhile(0, false), Meanwhile(1, false)];
    assert Rest(ms) == [Meanwhile(1, false)];
    assert [a][0..] == [a] && [a][..0] == [];
    assert Passed(s.channel, First(ms)) == s.channel && s.(channel := s.channel) == s;
    assert Refill(s, ms) == (s, Rest(ms));
    var t := s.(channel := Channel(1, [], [a], true));
    assert t.channel == Passed(s.channel, First(Rest(ms)));
    assert Enqueue(s, c, ms) == Enqueued(Pushed(t, c), true, true);
  }

  /** It does happen: the receiver makes room after the pending bodies were offered and before the new one is. */
  lemma OvertakingHappens(a: Body, b: Body, c: Body, maximum: nat)
    requires a.id != b.id && b.id != c.id && a.id != c.id && maximum > 0
    ensures exists calls :: AllLiving(calls) &&
              var p := Run(1, maximum, calls);
              p.admitted == [a, b, c] && Delivered(p.state) == [a, c] && p.state.pending == [b]
  {
    hide Enqueue, Delivered;
    var calls := [Admit(a, []), Admit(b, []), Admit(c, [Meanwhile(0, false), Meanwhile(1, false)])];
    var two := calls[..2];
    var one := two[..1];
    assert one[..0] == [] && one == [Admit(a, [])] && two == [Admit(a, []), Admit(b, [])];
    FirstSent(a, maximum);
    assert Run(1, maximum, one) == Progress(AfterOne(a, maximum), [a], false);
    SecondWaits(a, b, maximum);
    assert Run(1, maximum, two) == Progress(AfterTwo(a, b, maximum), [a, b], false);
    ThirdOvertakes(a, b, c, maximum);
    assert AllLiving(calls);
  }

  // ---- Nobody is turned away silently, whatever the receiver does

  /** While active the channel is held; the limits stay; and every identifier remembered is among the given ones. */
  ghost predicate Steady(s: State, capacity: nat, maximum: nat, ids: set<string>) {
    && (s.status == Active ==> s.open) && s.maximum == maximum && s.channel.capacity == capacity
    && s.deliveredIds <= ids && s.pendingIds <= ids && forall p :: p in s.pending ==> p.id in ids
  }

  lemma {:induction false} RememberingIds(s: State, order: seq<string>, ids: set<string>)
    ensures Remembering(s, order, ids).deliveredIds <= ids
    decreases |order|
  {
    if |order| > MAX_SEEN { RememberingIds(s, order[1..], ids - {order[0]}); }
  }

  lemma PushedSteady(s: State, b: Body, capacity: nat, maximum: nat, ids: set<string>)
    requires Steady(s, capacity, maximum, ids) && b.id in ids
    ensures Steady(Pushed(s, b), capacity, maximum, ids) && Pushed(s, b).status == s.status
  {
    var t := s.(channel := s.channel.(queue := s.channel.queue + [b]));
    RememberingElsewhere(t, t.deliveredOrder + [b.id], t.deliveredIds + {b.id});
    RememberingIds(t, t.deliveredOrder + [b.id], t.deliveredIds + {b.id});
  }

  /** The receiver has gone, or the delivery is as active as before. */
  ghost predicate GoneOrSame(s: State, r: State) { r.status == s.status || (r.status == Closed && !r.channel.alive) }

  lemma {:induction false} RefillSteady(s: State, ms: seq<Meanwhile>, capacity: nat, maximum: nat, ids: set<string>)
    requires Steady(s, capacity, maximum, ids)
    ensures Steady(Refill(s, ms).0, capacity, maximum, ids) && GoneOrSame(s, Refill(s, ms).0)
    decreases |s.pending|
  {
    hide Pushed;
    if s.pending != [] && s.open {
      var t := s.(channel := Passed(s.channel, First(ms)));
      if Offered(t.channel) == Sent {
        PushedFewer(t, t.pending[0]);
        assert forall p :: p in t.pending[1..] ==> p in t.pending;
        PushedSteady(t.(pending := t.pending[1..], pendingIds := t.pendingIds - {t.pending[0].id}), t.pending[0], capacity, maximum, ids);
        RefillSteady(Front(t), Rest(ms), capacity, maximum, ids);
      }
    }
  }

  /** The channel and the list of pending bodies are full. */
  ghost predicate FullUp(s: State, capacity: nat, maximum: nat) {
    s.channel.alive && |s.channel.queue| >= capacity && |s.pending| == maximum
  }

  lemma EnqueueSteady(s: State, b: Body, ms: seq<Meanwhile>, capacity: nat, maximum: nat, ids: set<string>)
    requires Steady(s, capacity, maximum, ids)
    ensures var e := Enqueue(s, b, ms);
            && Steady(e.state, capacity, maximum, ids + {b.id})
            && (!e.admitted ==> Steady(e.state, capacity, maximum, ids))
            && (s.status == Active && e.state.status == Active ==> e.admitted || b.id in ids)
            && (s.status == Active && e.state.status == Lagged ==> !e.admitted && FullUp(e.state, capacity, maximum))
            && (s.status == Active && e.state.status == Closed ==> !e.admitted && !e.state.channel.alive)
  {
    hide Pushed, Refill;
    if s.status == Active && !Known(s, b.id) {
      RefillSteady(s, ms, capacity, maximum, ids);
      var (r, rest) := Refill(s, ms);
      if r.open {
        var t := r.(channel := Passed(r.channel, First(rest)));
        if Offered(t.channel) == Sent { PushedSteady(t, b, capacity, maximum, ids + {b.id}); }
      }
    }
  }

  function AdmittedIds(admitted: seq<Body>): set<string> { set b | b in admitted :: b.id }

  lemma NextSteady(s: State, call: Call, capacity: nat, maximum: nat, admitted: seq<Body>)
    requires Steady(s, capacity, maximum, AdmittedIds(admitted))
    ensures Steady(Next(s, call).state, capacity, maximum, AdmittedIds(admitted + Next(s, call).admitted))
  {
    hide Refill, Enqueue;
    var ids := AdmittedIds(admitted);
    assert admitted + [] == admitted;
    match call
    case Admit(body, ms) =>
      EnqueueSteady(s, body, ms, capacity, maximum, ids);
      assert AdmittedIds(admitted + [body]) == ids + {body.id};
    case Drain(ms) => RefillSteady(s, ms, capacity, maximum, ids);
    case Close =>
    case Receive(takes) =>
  }

  lemma {:induction false} RunSteady(capacity: nat, maximum: nat, calls: seq<Call>)
    ensures var p := Run(capacity, maximum, calls);
            Steady(p.state, capacity, maximum, AdmittedIds(p.admitted))
  {
    hide Next, Steady;
    if calls == [] {
      assert Steady(New(capacity, maximum), capacity, maximum, AdmittedIds([])) by { NewSteady(capacity, maximum); }
    } else {
      RunSteady(capacity, maximum, calls[..|calls| - 1]);
      var b := Run(capacity, maximum, calls[..|calls| - 1]);
      NextSteady(b.state, calls[|calls| - 1], capacity, maximum, b.admitted);
    }
  }

  lemma NewSteady(capacity: nat, maximum: nat)
    ensures Steady(New(capacity, maximum), capacity, maximum, AdmittedIds([]))
  {}

  /** In every run, whatever the receiver does: as long as the delivery stays active a body offered to it is admitted,
      unless one of its identifier was before. It lags only by turning a body away when channel and list are full, and
      closes on offering one only because the receiver has gone. */
  lemma AdmittedOrTold(capacity: nat, maximum: nat, calls: seq<Call>, i: nat)
    requires i < |calls| && calls[i].Admit?
    ensures var p, q := Run(capacity, maximum, calls[..i]), Run(capacity, maximum, calls[..i + 1]);
            && (q.state.status == Active ==>
                  q.admitted == p.admitted + [calls[i].body] || exists b :: b in p.admitted && b.id == calls[i].body.id)
            && (p.state.status == Active && q.state.status == Lagged ==>
                  q.admitted == p.admitted && FullUp(q.state, capacity, maximum))
            && (p.state.status == Active && q.state.status == Closed ==> q.admitted == p.admitted && !q.state.channel.alive)
  {
    hide Enqueue, Steady;
    var p := Run(capacity, maximum, calls[..i]);
    assert calls[..i + 1][..i] == calls[..i];
    assert p.admitted + [] == p.admitted;
    RunSteady(capacity, maximum, calls[..i]);
    EnqueueSteady(p.state, calls[i].body, calls[i].meanwhile, capacity, maximum, AdmittedIds(p.admitted));
    if p.state.status != Active { InactiveRefuses(p.state, calls[i].body, calls[i].meanwhile); }
  }

  lemma InactiveRefuses(s: State, b: Body, ms: seq<Meanwhile>)
    requires s.status != Active
    ensures Enqueue(s, b, ms) == Enqueued(s, false, false)
  {}
}
