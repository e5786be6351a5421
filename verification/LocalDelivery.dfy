/** The delivery of one subscription, changed in place by its calls. The channel and its receiver are part of the
    state: `meanwhile` says what the receiver does before each attempt to send. */
module LocalDelivery {
  import opened Wrappers
  import opened Delivery

  class LocalDelivery {
    var open: bool
    var pending: seq<Body>
    var pendingIds: set<string>
    var deliveredIds: set<string>
    var deliveredOrder: seq<string>
    const maximumPending: nat
    var status: Status
    var channel: Channel

    ghost function View(): State
      reads this
    {
      State(open, pending, pendingIds, deliveredIds, deliveredOrder, maximumPending, status, channel)
    }

    constructor (capacity: nat, maximumPending: nat)
      ensures View() == New(capacity, maximumPending)
    {
      open, pending, pendingIds, deliveredIds, deliveredOrder := true, [], {}, {}, [];
      this.maximumPending, status, channel := maximumPending, Active, Channel(capacity, [], [], true);
    }

    predicate Contains(id: string)
      reads this
    {
      id in deliveredIds || id in pendingIds
    }

    method MarkDelivered(id: string)
      modifies this`deliveredIds, this`deliveredOrder
      ensures View() == Delivery.MarkDelivered(old(View()), id)
    {
      hide Remembering;
      deliveredIds := deliveredIds + {id};
      deliveredOrder := deliveredOrder + [id];
      while |deliveredOrder| > MAX_SEEN
        invariant Remembering(old(View()), deliveredOrder, deliveredIds) == Delivery.MarkDelivered(old(View()), id)
        decreases |deliveredOrder|
      {
        RememberingStep(old(View()), deliveredOrder, deliveredIds);
        deliveredIds := deliveredIds - {deliveredOrder[0]};
        deliveredOrder := deliveredOrder[1..];
      }
      RememberingDone(old(View()), deliveredOrder, deliveredIds);
    }

    /** One attempt to hand a body to the channel, after what its receiver did meanwhile. */
    method TrySend(body: Body, meanwhile: Meanwhile) returns (outcome: Outcome)
      modifies this`channel
      ensures outcome == Offered(Passed(old(channel), meanwhile))
      ensures var c := Passed(old(channel), meanwhile);
              channel == if outcome == Sent then c.(queue := c.queue + [body]) else c
    {
      channel := Passed(channel, meanwhile);
      outcome := Offered(channel);
      if outcome == Sent { channel := channel.(queue := channel.queue + [body]); }
    }

    method CloseState()
      modifies this`status, this`open
      ensures View() == Shut(old(View()))
    {
      if status == Active { status := Closed; }
      if pending == [] { open := false; }
    }

    method RefillState(meanwhile: seq<Meanwhile>) returns (rest: seq<Meanwhile>)
      modifies this
      ensures (View(), rest) == Refill(old(View()), meanwhile)
    {
      hide Refill, Remembering;
      rest := meanwhile;
      while pending != [] && open
        invariant Refill(View(), rest) == Refill(old(View()), meanwhile)
        decreases |pending|
      {
        RefillStep(View(), rest);
        var body := pending[0];
        var outcome := TrySend(body, First(rest));
        rest := Rest(rest);
        if outcome == Sent {
          pending, pendingIds := pending[1..], pendingIds - {body.id};
          MarkDelivered(body.id);
        } else {
          if outcome == Gone {
            pending, pendingIds := [], {};
            CloseState();
          }
          Settle();
          return;
        }
      }
      RefillDone(View(), rest);
      Settle();
    }

    method Settle()
      modifies this`open
      ensures View() == Settled(old(View()))
    {
      if status != Active && pending == [] { open := false; }
    }

    method Enqueue(body: Body, meanwhile: seq<Meanwhile>) returns (admitted: bool)
      modifies this
      ensures var e := Delivery.Enqueue(old(View()), body, meanwhile);
              View() == e.state && admitted == e.admitted
    {
      hide Refill, Remembering;
      if status != Active { return false; }
      if Contains(body.id) { return false; }
      var rest := RefillState(meanwhile);
      if !open { return false; }
      var outcome := TrySend(body, First(rest));
      match outcome {
        case Sent => MarkDelivered(body.id);
        case Full =>
          if |pending| == maximumPending {
            status := Lagged;
            return false;
          }
          pending, pendingIds := pending + [body], pendingIds + {body.id};
        case Gone =>
          CloseState();
          return false;
      }
      return true;
    }
  }

  lemma RememberingStep(s: State, order: seq<string>, ids: set<string>)
    requires |order| > MAX_SEEN
    ensures Remembering(s, order, ids) == Remembering(s, order[1..], ids - {order[0]})
  {}

  lemma RememberingDone(s: State, order: seq<string>, ids: set<string>)
    requires |order| <= MAX_SEEN
    ensures Remembering(s, order, ids) == s.(deliveredOrder := order, deliveredIds := ids)
  {}

  /** One turn of the loop. */
  lemma RefillStep(s: State, ms: seq<Meanwhile>)
    requires s.pending != [] && s.open
    ensures var t := s.(channel := Passed(s.channel, First(ms)));
            Refill(s, ms) == match Offered(t.channel)
                             case Sent => Refill(Front(t), Rest(ms))
                             case Full => (Settled(t), Rest(ms))
                             case Gone => (Settled(Shut(t.(pending := [], pendingIds := {}))), Rest(ms))
  {}

  lemma RefillDone(s: State, ms: seq<Meanwhile>)
    requires s.pending == [] || !s.open
    ensures Refill(s, ms) == (Settled(s), ms)
  {}
}
