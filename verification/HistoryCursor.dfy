/** The cursor itself, changed in place by its calls. */
module HistoryCursor {
  import opened Wrappers
  import opened History

  datatype Filter = Filter(fits: Event -> bool, since: Option<nat>, until: Option<nat>, limit: Option<nat>)

  class HistoryCursor {
    const source: string
    const fits: Event -> bool
    const since: Option<nat>
    var until: nat
    var limit: nat
    const initialLimit: nat
    const maxLimit: nat
    const identity: nat
    var generation: nat
    var active: Option<Page>
    var stopped: bool

    ghost function View(): Cursor
      reads this
    {
      Cursor(source, fits, since, until, limit, initialLimit, maxLimit, identity, generation, active, stopped)
    }

    ghost predicate Valid()
      reads this
    {
      ValidCursor(View())
    }

    constructor (source: string, filter: Filter, now: nat, maxLimit: nat, identity: nat)
      requires Accepted(filter, now, maxLimit)
      ensures Valid()
      ensures View() == Cursor(source, filter.fits, filter.since, Until(filter, now), Limit(filter), Limit(filter), maxLimit,
                               identity, 0, None, false)
    {
      this.source, fits, since, this.maxLimit, this.identity := source, filter.fits, filter.since, maxLimit, identity;
      until, limit, initialLimit := Until(filter, now), Limit(filter), Limit(filter);
      generation, active, stopped := 0, None, false;
    }

    /** A cursor for a filter, unless its limits or times are wrong. `identity` is a number not used before. */
    static method New(source: string, filter: Filter, now: nat, maxLimit: nat, identity: nat) returns (c: Option<HistoryCursor>)
      ensures c.Some? <==>
                var limit, until := if filter.limit.Some? then filter.limit.value else 100,
                                    if filter.until.Some? then filter.until.value else now;
                0 < limit <= maxLimit <= 65_536 && (filter.since.Some? ==> filter.since.value <= until)
      ensures c.Some? ==> fresh(c.value) && c.value.Valid()
      ensures c.Some? ==>
                var limit, until := if filter.limit.Some? then filter.limit.value else 100,
                                    if filter.until.Some? then filter.until.value else now;
                c.value.View()
                == Cursor(source, filter.fits, filter.since, until, limit, limit, maxLimit, identity, 0, None, false)
    {
      if Limit(filter) == 0 || Limit(filter) > maxLimit || maxLimit > MAX_LIMIT { return None; }
      if filter.since.Some? && filter.since.value > Until(filter, now) { return None; }
      var made := new HistoryCursor(source, filter, now, maxLimit, identity);
      return Some(made);
    }

    method BeginPage() returns (token: Option<Token>)
      requires Valid()
      modifies this`generation, this`active
      ensures Valid() && (token.Some? <==> CanBegin(old(View())))
      ensures View() == if token.Some? then Begun(old(View())) else old(View())
      ensures token.Some? ==> active.Some? && active.value.token == token.value
    {
      if stopped || active.Some? { return None; }
      if generation >= MAX_GENERATION { return None; }
      generation := generation + 1;
      active := Some(Page(Token(identity, generation), {}, None, false));
      return Some(Token(identity, generation));
    }

    method Observe(token: Token, sighting: Sighting) returns (isNew: bool)
      requires Valid()
      modifies this`active
      ensures Valid() && (View(), isNew) == Observed(old(View()), token, sighting)
    {
      if active.None? || active.value.token != token { return false; }
      var page, event := active.value, sighting.event;
      if sighting.source != source || !(fits(event) && Started(since, event.created) && event.created <= until)
         || event.id in page.seen
      {
        return false;
      }
      if |page.seen| == maxLimit {
        active := Some(page.(overflow := true));
        return false;
      }
      active := Some(page.(seen := page.seen + {event.id}, oldest := Earlier(page.oldest, event.created)));
      assert |page.seen + {event.id}| == |page.seen| + 1;
      return true;
    }

    method FinishPage(token: Token, complete: bool) returns (status: Status, oldest: Option<nat>, events: nat)
      requires Valid()
      modifies this`active, this`until, this`limit, this`stopped
      ensures Valid() && Outcome(View(), status, oldest, events) == Finished(old(View()), token, complete)
    {
      if active.None? || active.value.token != token { return Stale, None, 0; }
      var page := active.value;
      active := None;
      oldest, events := page.oldest, |page.seen|;
      if page.overflow {
        stopped := true;
        status := Limited;
      } else if !complete {
        status := Retry;
      } else if page.oldest.Some? {
        if page.oldest.value < until {
          until, limit := page.oldest.value, initialLimit;
          status := Advanced;
        } else if events >= limit {
          if limit == maxLimit {
            stopped := true;
            status := Limited;
          } else {
            limit := if limit * 2 < maxLimit then limit * 2 else maxLimit;
            status := Advanced;
          }
        } else if until == 0 || (since.Some? && since.value >= until) {
          stopped := true;
          status := Exhausted;
        } else {
          until, limit := until - 1, initialLimit;
          status := Advanced;
        }
      } else {
        stopped := true;
        status := Exhausted;
      }
    }

    method Cancel()
      requires Valid()
      modifies this`active, this`stopped
      ensures Valid() && View() == old(View()).(active := None, stopped := true)
    {
      active, stopped := None, true;
    }
  }

  function Limit(filter: Filter): nat { if filter.limit.Some? then filter.limit.value else 100 }

  function Until(filter: Filter, now: nat): nat { if filter.until.Some? then filter.until.value else now }

  predicate Accepted(filter: Filter, now: nat, maxLimit: nat) {
    0 < Limit(filter) <= maxLimit <= MAX_LIMIT && Started(filter.since, Until(filter, now))
  }
}
