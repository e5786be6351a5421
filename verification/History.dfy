/** Reading one source's history page by page: what each call of a cursor does, and why a run that claims to be
    exhausted has seen everything. */
module History {
  import opened Wrappers
  import opened Sets

  const MAX_LIMIT: nat := 65_536
  const MAX_GENERATION: nat := 0xFFFF_FFFF_FFFF_FFFF

  datatype Event = Event(id: string, created: nat)

  datatype Sighting = Sighting(source: string, event: Event)

  datatype Token = Token(cursor: nat, page: nat)

  datatype Page = Page(token: Token, seen: set<string>, oldest: Option<nat>, overflow: bool)

  datatype Status = Advanced | Retry | Exhausted | Limited | Stale

  /** `fits` stands for the conditions of the filter other than time and number. */
  datatype Cursor = Cursor(
    source: string, fits: Event -> bool, since: Option<nat>, until: nat, limit: nat, initialLimit: nat, maxLimit: nat,
    identity: nat, generation: nat, active: Option<Page>, stopped: bool)

  predicate Started(since: Option<nat>, created: nat) { since.Some? ==> since.value <= created }

  predicate InTime(c: Cursor, e: Event) { c.fits(e) && Started(c.since, e.created) && e.created <= c.until }

  predicate InScope(c: Cursor, s: Sighting) { s.source == c.source && InTime(c, s.event) }

  predicate ValidPage(c: Cursor, p: Page) {
    && |p.seen| <= c.maxLimit && (p.oldest.None? <==> p.seen == {})
    && (p.oldest.Some? ==> p.oldest.value <= c.until && Started(c.since, p.oldest.value))
  }

  predicate ValidCursor(c: Cursor) {
    && 0 < c.initialLimit <= c.limit <= c.maxLimit <= MAX_LIMIT && Started(c.since, c.until)
    && (c.active.Some? ==> ValidPage(c, c.active.value))
  }

  // ---- Calls

  predicate CanBegin(c: Cursor) { !c.stopped && c.active.None? && c.generation < MAX_GENERATION }

  function Begun(c: Cursor): Cursor {
    c.(generation := c.generation + 1, active := Some(Page(Token(c.identity, c.generation + 1), {}, None, false)))
  }

  function Earlier(oldest: Option<nat>, created: nat): Option<nat> {
    Some(if oldest.Some? && oldest.value < created then oldest.value else created)
  }

  /** A page after one more event, and whether that event is new. */
  function Noted(c: Cursor, p: Page, s: Sighting): (Page, bool) {
    if !InScope(c, s) || s.event.id in p.seen then (p, false)
    else if |p.seen| == c.maxLimit then (p.(overflow := true), false)
    else (p.(seen := p.seen + {s.event.id}, oldest := Earlier(p.oldest, s.event.created)), true)
  }

  function Observed(c: Cursor, token: Token, s: Sighting): (Cursor, bool) {
    if c.active.None? || c.active.value.token != token then (c, false)
    else
      var (page, new_) := Noted(c, c.active.value, s);
      (c.(active := Some(page)), new_)
  }

  datatype Outcome = Outcome(cursor: Cursor, status: Status, oldest: Option<nat>, events: nat)

  /** Where a complete page leads. */
  function Turned(c: Cursor, oldest: Option<nat>, events: nat): (Cursor, Status) {
    if oldest.None? then (c.(stopped := true), Exhausted)
    else if oldest.value < c.until then (c.(until := oldest.value, limit := c.initialLimit), Advanced)
    else if events >= c.limit then
      if c.limit == c.maxLimit then (c.(stopped := true), Limited)
      else (c.(limit := if c.limit * 2 < c.maxLimit then c.limit * 2 else c.maxLimit), Advanced)
    else if c.until == 0 || (c.since.Some? && c.since.value >= c.until) then (c.(stopped := true), Exhausted)
    else (c.(until := c.until - 1, limit := c.initialLimit), Advanced)
  }

  function Finished(c: Cursor, token: Token, complete: bool): Outcome {
    if c.active.None? || c.active.value.token != token then Outcome(c, Stale, None, 0)
    else
      var page, idle := c.active.value, c.(active := None);
      var (next, status) :=
        if page.overflow then (idle.(stopped := true), Limited)
        else if !complete then (idle, Retry)
        else Turned(idle, page.oldest, |page.seen|);
      Outcome(next, status, page.oldest, |page.seen|)
  }

  // ---- One page

  function Listened(c: Cursor, token: Token, sightings: seq<Sighting>): Cursor {
    if sightings == [] then c
    else Observed(Listened(c, token, sightings[..|sightings| - 1]), token, sightings[|sightings| - 1]).0
  }

  /** A page from its beginning to its end. */
  function Paged(c: Cursor, sightings: seq<Sighting>, complete: bool): Outcome {
    var b := Begun(c);
    Finished(Listened(b, b.active.value.token, sightings), b.active.value.token, complete)
  }

  ghost function Ids(c: Cursor, sightings: seq<Sighting>): set<string> {
    set s | s in sightings && InScope(c, s) :: s.event.id
  }

  ghost predicate IsOldest(c: Cursor, sightings: seq<Sighting>, oldest: Option<nat>) {
    match oldest
    case None => forall s :: s in sightings ==> !InScope(c, s)
    case Some(t) => (exists s :: s in sightings && InScope(c, s) && s.event.created == t)
                    && forall s :: s in sightings && InScope(c, s) ==> t <= s.event.created
  }

  /** Identifiers are hashes. */
  ghost predicate Hashed(sightings: seq<Sighting>) {
    forall r, s :: r in sightings && s in sightings && r.event.id == s.event.id ==> r.event == s.event
  }

  /** The page holds the identifiers in scope and the oldest time, unless they were too many. */
  ghost predicate Heard(b: Cursor, sightings: seq<Sighting>, p: Page) {
    && ValidPage(b, p) && p.token == Token(b.identity, b.generation)
    && (if p.overflow then |p.seen| == b.maxLimit < |Ids(b, sightings)|
        else p.seen == Ids(b, sightings) && IsOldest(b, sightings, p.oldest))
  }

  lemma HeardMore(b: Cursor, before: seq<Sighting>, p: Page, s: Sighting)
    requires Heard(b, before, p) && Hashed(before + [s])
    ensures Heard(b, before + [s], Noted(b, p, s).0)
  {
    hide IsOldest, Ids, InScope;
    IdsMore(b, before, s);
    if p.overflow {
      SubsetSize(Ids(b, before), Ids(b, before + [s]));
    } else {
      OldestMore(b, before, s, p.oldest);
      if InScope(b, s) {
        InScopeTime(b, s);
        if s.event.id in p.seen {
          SeenBefore(b, before, s);
        } else {
          assert |p.seen + {s.event.id}| == |p.seen| + 1;
        }
      }
    }
  }

  lemma InScopeTime(c: Cursor, s: Sighting)
    requires InScope(c, s)
    ensures s.event.created <= c.until && Started(c.since, s.event.created)
  {}

  lemma SeenBefore(b: Cursor, before: seq<Sighting>, s: Sighting)
    requires s.event.id in Ids(b, before) && Hashed(before + [s])
    ensures exists r :: r in before && InScope(b, r) && r.event.created <= s.event.created
  {
    var r :| r in before && InScope(b, r) && r.event.id == s.event.id;
    assert r in before + [s] && s in before + [s];
  }

  lemma SameScope(b: Cursor, active: Option<Page>)
    ensures forall s :: InScope(b.(active := active), s) == InScope(b, s)
    ensures forall p, s :: Noted(b.(active := active), p, s) == Noted(b, p, s)
  {}

  lemma IdsMore(c: Cursor, before: seq<Sighting>, s: Sighting)
    ensures Ids(c, before + [s]) == Ids(c, before) + if InScope(c, s) then {s.event.id} else {}
    ensures Ids(c, before) <= Ids(c, before + [s])
    ensures InScope(c, s) && s.event.id !in Ids(c, before) ==> |Ids(c, before + [s])| == |Ids(c, before)| + 1
  {
    assert forall r :: r in before + [s] <==> r in before || r == s;
    forall x | x in Ids(c, before) ensures x in Ids(c, before + [s]) {
      var r :| r in before && InScope(c, r) && r.event.id == x;
      assert r in before + [s];
    }
    if InScope(c, s) { assert s in before + [s]; }
  }

  lemma {:induction false} Listening(b: Cursor, sightings: seq<Sighting>)
    requires b.active == Some(Page(Token(b.identity, b.generation), {}, None, false)) && Hashed(sightings)
    ensures var l := Listened(b, Token(b.identity, b.generation), sightings);
            l.active.Some? && l == b.(active := l.active) && Heard(b, sightings, l.active.value)
  {
    hide Heard, Noted, InScope;
    if sightings == [] {
      assert Heard(b, [], b.active.value) by { NothingHeard(b); }
    } else {
      var n := |sightings| - 1;
      assert sightings == sightings[..n] + [sightings[n]];
      assert forall s :: s in sightings[..n] ==> s in sightings;
      Listening(b, sightings[..n]);
      HeardMore(b, sightings[..n], Listened(b, Token(b.identity, b.generation), sightings[..n]).active.value, sightings[n]);
      TokenHeard(b, sightings[..n], Listened(b, Token(b.identity, b.generation), sightings[..n]).active.value);
      SameScope(b, Listened(b, Token(b.identity, b.generation), sightings[..n]).active);
    }
  }

  /** Over one page exactly the first sighting of each identifier in scope is answered as new, up to the greatest number. */
  lemma FirstsAreNew(b: Cursor, sightings: seq<Sighting>, i: nat)
    requires b.active == Some(Page(Token(b.identity, b.generation), {}, None, false)) && Hashed(sightings) && i < |sightings|
    ensures var s, token := sightings[i], Token(b.identity, b.generation);
            Observed(Listened(b, token, sightings[..i]), token, s).1 <==>
              && s.source == b.source && b.fits(s.event) && s.event.created <= b.until
              && (b.since.Some? ==> b.since.value <= s.event.created)
              && (forall j :: 0 <= j < i && InScope(b, sightings[j]) ==> sightings[j].event.id != s.event.id)
              && |Ids(b, sightings[..i])| < b.maxLimit
  {
    hide InScope, Ids, IsOldest;
    var before, s, token := sightings[..i], sightings[i], Token(b.identity, b.generation);
    assert forall r :: r in before ==> r in sightings;
    Listening(b, before);
    var l := Listened(b, token, before);
    SameScope(b, l.active);
    ScopeMeans(b, s);
    FirstOf(b, sightings, i);
  }

  lemma ScopeMeans(b: Cursor, s: Sighting)
    ensures InScope(b, s) <==> (&& s.source == b.source && b.fits(s.event) && s.event.created <= b.until
                                && (b.since.Some? ==> b.since.value <= s.event.created))
  {}

  lemma FirstOf(b: Cursor, sightings: seq<Sighting>, i: nat)
    requires i < |sightings|
    ensures sightings[i].event.id !in Ids(b, sightings[..i]) <==>
            forall j :: 0 <= j < i && InScope(b, sightings[j]) ==> sightings[j].event.id != sightings[i].event.id
  {
    hide InScope;
    var before := sightings[..i];
    forall j | 0 <= j < i && InScope(b, sightings[j]) ensures sightings[j].event.id in Ids(b, before) {
      assert before[j] == sightings[j] && sightings[j] in before;
    }
  }

  lemma TokenHeard(b: Cursor, sightings: seq<Sighting>, p: Page)
    requires Heard(b, sightings, p)
    ensures p.token == Token(b.identity, b.generation)
  {}

  lemma NothingHeard(b: Cursor)
    requires b.active == Some(Page(Token(b.identity, b.generation), {}, None, false))
    ensures Heard(b, [], b.active.value)
  {}

  lemma OldestMore(c: Cursor, before: seq<Sighting>, s: Sighting, oldest: Option<nat>)
    ensures IsOldest(c, before, oldest) && !InScope(c, s) ==> IsOldest(c, before + [s], oldest)
    ensures IsOldest(c, before, oldest) && InScope(c, s) ==> IsOldest(c, before + [s], Earlier(oldest, s.event.created))
    ensures IsOldest(c, before, oldest) && InScope(c, s) && (exists r :: r in before && InScope(c, r) && r.event.created <= s.event.created)
            ==> IsOldest(c, before + [s], oldest)
  {
    assert forall r :: r in before + [s] <==> r in before || r == s;
  }

  // ---- The source

  /** What the source holds in the page's time, under the other conditions of the filter. */
  ghost function Window(c: Cursor, store: set<Event>): set<Event> { set e | e in store && InTime(c, e) }

  ghost function Shown(c: Cursor, sightings: seq<Sighting>): set<Event> {
    set s | s in sightings && InScope(c, s) :: s.event
  }

  /** A source answers with its newest events in time, as many as asked for (NIP-01, the filter's `limit`); of
      several at one instant any may be left out. Repetitions and strays do not matter. */
  ghost predicate Answers(c: Cursor, store: set<Event>, sightings: seq<Sighting>) {
    var shown, all := Shown(c, sightings), Window(c, store);
    && shown <= all
    && |shown| == (if |all| < c.limit then |all| else c.limit)
    && forall d, e :: d in shown && e in all - shown ==> e.created <= d.created
  }

  ghost predicate Distinct(store: set<Event>) {
    forall d, e :: d in store && e in store && d.id == e.id ==> d == e
  }

  lemma {:induction false} SameCount(events: set<Event>, ids: set<string>)
    requires Distinct(events) && ids == set e | e in events :: e.id
    ensures |ids| == |events|
    decreases |events|
  {
    if events == {} {
      assert ids == {};
    } else {
      var e :| e in events;
      var rest := events - {e};
      SameCount(rest, set d | d in rest :: d.id);
      assert ids == (set d | d in rest :: d.id) + {e.id};
      assert e.id !in (set d | d in rest :: d.id);
    }
  }

  /** The events of the window at one instant. */
  ghost function At(c: Cursor, store: set<Event>, t: nat): set<Event> { set e | e in Window(c, store) && e.created == t }

  // ---- One complete page

  /** What a complete answered page does to the cursor, in terms of the store. */
  lemma PageMeans(c: Cursor, store: set<Event>, sightings: seq<Sighting>)
    requires ValidCursor(c) && CanBegin(c) && Distinct(store) && Answers(c, store, sightings) && Hashed(sightings)
    ensures var o := Paged(c, sightings, true);
            && o.events == |Shown(c, sightings)| <= c.limit
            && (o.oldest.None? <==> Window(c, store) == {})
            && (o.oldest.Some? ==>
                  && o.oldest.value <= c.until && Started(c.since, o.oldest.value)
                  && (exists d :: d in Shown(c, sightings) && d.created == o.oldest.value)
                  && (forall d :: d in Shown(c, sightings) ==> o.oldest.value <= d.created)
                  && (forall e :: e in Window(c, store) && e.created > o.oldest.value ==> e in Shown(c, sightings)))
            && (o.events < c.limit ==> Shown(c, sightings) == Window(c, store))
  {
    var b := Begun(c);
    Listening(b, sightings);
    var p := Listened(b, b.active.value.token, sightings).active.value;
    SameShown(c, b, sightings);
    ShownIds(c, store, sightings);
    AnswerSize(c, store, sightings);
  }

  lemma SameShown(c: Cursor, b: Cursor, sightings: seq<Sighting>)
    requires b == Begun(c)
    ensures Ids(b, sightings) == Ids(c, sightings) && forall s :: InScope(b, s) == InScope(c, s)
  {}

  lemma ShownIds(c: Cursor, store: set<Event>, sightings: seq<Sighting>)
    requires Distinct(store) && Shown(c, sightings) <= store
    ensures |Ids(c, sightings)| == |Shown(c, sightings)|
  {
    hide InScope;
    assert Ids(c, sightings) == set e | e in Shown(c, sightings) :: e.id;
    SameCount(Shown(c, sightings), Ids(c, sightings));
  }

  lemma AnswerSize(c: Cursor, store: set<Event>, sightings: seq<Sighting>)
    requires Answers(c, store, sightings)
    ensures |Shown(c, sightings)| <= c.limit
    ensures |Shown(c, sightings)| < c.limit ==> Shown(c, sightings) == Window(c, store)
  {
    var shown, all := Shown(c, sightings), Window(c, store);
    assert all == shown + (all - shown);
  }

  // ---- Runs

  /** One page of a run: what was delivered, and whether the source said that this was all. */
  datatype Delivery = Delivery(sightings: seq<Sighting>, complete: bool)

  /** `observed` are the identifiers the cursor accepted as new on some page. */
  datatype Progress = Progress(cursor: Cursor, status: Option<Status>, observed: set<string>)

  function PageSeen(c: Cursor, sightings: seq<Sighting>): set<string> {
    var l := Listened(Begun(c), Begun(c).active.value.token, sightings);
    if l.active.Some? then l.active.value.seen else {}
  }

  ghost function Run(c: Cursor, pages: seq<Delivery>): Progress {
    if pages == [] then Progress(c, None, {})
    else
      var b, last := Run(c, pages[..|pages| - 1]), pages[|pages| - 1];
      if !CanBegin(b.cursor) then b
      else
        var o := Paged(b.cursor, last.sightings, last.complete);
        Progress(o.cursor, Some(o.status), b.observed + PageSeen(b.cursor, last.sightings))
  }

  /** Complete pages are answers of the source; partial ones may hold anything. */
  ghost predicate Served(c: Cursor, store: set<Event>, pages: seq<Delivery>) {
    pages == []
    || (Served(c, store, pages[..|pages| - 1])
        && var last := pages[|pages| - 1];
           Hashed(last.sightings)
           && (last.complete ==> Answers(Run(c, pages[..|pages| - 1]).cursor, store, last.sightings)))
  }

  /** The same query, further on. */
  ghost predicate Continues(c: Cursor, d: Cursor) {
    && ValidCursor(d) && d.active.None? && d.source == c.source && d.fits == c.fits && d.since == c.since
    && d.initialLimit == c.initialLimit && d.maxLimit == c.maxLimit && d.until <= c.until
  }

  ghost predicate Crowded(c: Cursor, store: set<Event>, t: nat) { |At(c, store, t)| >= c.maxLimit }

  /** Everything newer than where the cursor stands was observed, and was not too dense to be. */
  ghost predicate Caught(c: Cursor, store: set<Event>, d: Cursor, observed: set<string>) {
    && (forall e :: e in Window(c, store) && e.created > d.until ==> e.id in observed)
    && (forall t :: d.until < t <= c.until ==> !Crowded(c, store, t))
  }

  ghost predicate CaughtAll(c: Cursor, store: set<Event>, observed: set<string>) {
    && (forall e :: e in Window(c, store) ==> e.id in observed)
    && (forall t :: !Crowded(c, store, t))
  }

  ghost predicate Standing(c: Cursor, store: set<Event>, p: Progress) {
    && Continues(c, p.cursor) && Caught(c, store, p.cursor, p.observed)
    && (p.status == Some(Exhausted) ==> CaughtAll(c, store, p.observed))
  }

  lemma WindowLater(c: Cursor, d: Cursor, store: set<Event>)
    requires Continues(c, d)
    ensures forall e :: e in Window(d, store) <==> e in Window(c, store) && e.created <= d.until
    ensures forall t: nat :: t <= d.until ==> At(d, store, t) == At(c, store, t)
  {
    assert forall e :: e in Window(d, store) <==> e in Window(c, store) && e.created <= d.until;
  }

  lemma PageSeenAll(c: Cursor, store: set<Event>, sightings: seq<Sighting>)
    requires ValidCursor(c) && CanBegin(c) && Distinct(store) && Answers(c, store, sightings) && Hashed(sightings)
    ensures forall e :: e in Shown(c, sightings) ==> e.id in PageSeen(c, sightings)
  {
    hide IsOldest, Noted;
    Listening(Begun(c), sightings);
    SameShown(c, Begun(c), sightings);
    ShownIds(c, store, sightings);
    AnswerSize(c, store, sightings);
  }

  /** Older events on the page: whatever is newer than the oldest is on it too. */
  lemma OlderShown(c: Cursor, store: set<Event>, sightings: seq<Sighting>, oldest: nat)
    requires |Shown(c, sightings)| <= c.limit <= c.maxLimit
    requires exists d :: d in Shown(c, sightings) && d.created == oldest
    requires forall e :: e in Window(c, store) && e.created > oldest ==> e in Shown(c, sightings)
    ensures forall t :: t > oldest ==> !Crowded(c, store, t)
  {
    forall t | t > oldest ensures !Crowded(c, store, t) {
      SubsetSize(At(c, store, t), Shown(c, sightings));
    }
  }

  lemma FewShown(c: Cursor, store: set<Event>, sightings: seq<Sighting>)
    requires |Shown(c, sightings)| < c.limit <= c.maxLimit && Shown(c, sightings) == Window(c, store)
    ensures forall t :: !Crowded(c, store, t)
  {
    forall t ensures !Crowded(c, store, t) { SubsetSize(At(c, store, t), Window(c, store)); }
  }

  lemma AllAtUntil(c: Cursor, store: set<Event>, sightings: seq<Sighting>)
    requires Shown(c, sightings) <= Window(c, store)
    requires forall d :: d in Shown(c, sightings) ==> c.until <= d.created
    ensures |At(c, store, c.until)| >= |Shown(c, sightings)|
  {
    SubsetSize(Shown(c, sightings), At(c, store, c.until));
  }

  lemma SameCrowd(c: Cursor, d: Cursor, store: set<Event>, t: nat)
    requires Continues(c, d) && t <= d.until
    ensures Crowded(c, store, t) == Crowded(d, store, t)
  {
    WindowLater(c, d, store);
  }

  lemma LaterEmpty(c: Cursor, store: set<Event>)
    requires c.maxLimit > 0
    ensures forall t :: t > c.until ==> !Crowded(c, store, t)
  {
    forall t | t > c.until ensures !Crowded(c, store, t) { assert At(c, store, t) == {}; }
  }

  lemma NoneCrowded(c: Cursor, store: set<Event>)
    requires c.maxLimit > 0 && Window(c, store) == {}
    ensures forall t :: !Crowded(c, store, t)
  {
    forall t ensures !Crowded(c, store, t) { assert At(c, store, t) == {}; }
  }

  lemma PagedTurned(c: Cursor, store: set<Event>, sightings: seq<Sighting>)
    requires ValidCursor(c) && CanBegin(c) && Distinct(store) && Answers(c, store, sightings) && Hashed(sightings)
    ensures var o := Paged(c, sightings, true);
            (o.cursor, o.status) == Turned(Begun(c).(active := None), o.oldest, o.events)
  {
    hide IsOldest, Noted, Turned;
    Listening(Begun(c), sightings);
    SameShown(c, Begun(c), sightings);
    ShownIds(c, store, sightings);
    AnswerSize(c, store, sightings);
  }

  lemma Shows(c: Cursor, store: set<Event>, sightings: seq<Sighting>)
    requires Answers(c, store, sightings)
    ensures Shown(c, sightings) <= Window(c, store)
  {}

  /** A complete page keeps the promise, and stops as limited only at a crowded instant. */
  lemma CompletePage(c: Cursor, store: set<Event>, d: Cursor, observed: set<string>, sightings: seq<Sighting>)
    requires Distinct(store) && Continues(c, d) && Caught(c, store, d, observed) && CanBegin(d)
    requires Answers(d, store, sightings) && Hashed(sightings)
    ensures var o := Paged(d, sightings, true);
            var more := observed + PageSeen(d, sightings);
            && Standing(c, store, Progress(o.cursor, Some(o.status), more))
            && (o.status == Limited ==> Crowded(c, store, d.until))
            && o.status in {Advanced, Exhausted, Limited} && (o.status == Advanced <==> !o.cursor.stopped)
            && (o.status == Advanced ==> o.cursor.until < d.until || (o.cursor.until == d.until && o.cursor.limit > d.limit))
            && o.cursor.generation == d.generation + 1
  {
    hide Answers, Crowded, Paged, Window, PageSeen, At, Shown, Ids;
    PageMeans(d, store, sightings);
    PageSeenAll(d, store, sightings);
    WindowLater(c, d, store);
    PagedTurned(d, store, sightings);
    Shows(d, store, sightings);
    LaterEmpty(c, store);
    var o := Paged(d, sightings, true);
    forall t: nat | t <= d.until ensures Crowded(c, store, t) == Crowded(d, store, t) { SameCrowd(c, d, store, t); }
    if o.oldest.None? {
      NoneCrowded(d, store);
    } else if o.oldest.value < d.until {
      OlderShown(d, store, sightings, o.oldest.value);
    } else if o.events >= d.limit {
      AllAtUntil(d, store, sightings);
      CrowdedBy(d, store);
    } else {
      FewShown(d, store, sightings);
    }
  }

  lemma CrowdedBy(c: Cursor, store: set<Event>)
    ensures |At(c, store, c.until)| >= c.maxLimit ==> Crowded(c, store, c.until)
  {}

  /** An unanswered page never moves the query; too many events stop it. */
  lemma PartialPage(c: Cursor, sightings: seq<Sighting>)
    requires ValidCursor(c) && CanBegin(c) && Hashed(sightings)
    ensures var o := Paged(c, sightings, false);
            && o.status in {Retry, Limited}
            && o.cursor == c.(generation := c.generation + 1, active := None, stopped := o.status == Limited)
  {
    hide IsOldest, Noted;
    Listening(Begun(c), sightings);
  }

  lemma {:induction false} RunStands(c: Cursor, store: set<Event>, pages: seq<Delivery>)
    requires ValidCursor(c) && c.active.None? && !c.stopped && Distinct(store) && Served(c, store, pages)
    ensures Standing(c, store, Run(c, pages))
    ensures Run(c, pages).status == Some(Exhausted) ==> Run(c, pages).cursor.stopped
  {
    hide Answers, Crowded, Paged, Window, PageSeen, CaughtAll, Hashed;
    if pages == [] {
      LaterEmpty(c, store);
      NothingLater(c, store);
    } else {
      var n := |pages| - 1;
      RunStands(c, store, pages[..n]);
      var b, last := Run(c, pages[..n]), pages[n];
      if CanBegin(b.cursor) {
        if last.complete {
          CompletePage(c, store, b.cursor, b.observed, last.sightings);
        } else {
          PartialPage(b.cursor, last.sightings);
        }
      }
    }
  }

  lemma NothingLater(c: Cursor, store: set<Event>)
    ensures forall e :: e in Window(c, store) ==> e.created <= c.until
  {}

  /** A run that ends exhausted has observed every event of the query, whatever partial pages came in between. */
  lemma ExhaustedIsComplete(c: Cursor, store: set<Event>, pages: seq<Delivery>)
    requires ValidCursor(c) && c.active.None? && !c.stopped && Distinct(store) && Served(c, store, pages)
    requires Run(c, pages).status == Some(Exhausted)
    ensures forall e :: e in store && InTime(c, e) ==> e.id in Run(c, pages).observed
  {
    hide Crowded, Run, Served;
    RunStands(c, store, pages);
    assert forall e :: e in Window(c, store) <==> e in store && InTime(c, e);
  }

  // ---- Reading to the end

  /** A source that answers every page. */
  ghost predicate Answering(c: Cursor, store: set<Event>, source: (nat, nat) -> seq<Sighting>) {
    forall until, limit :: Answers(c.(until := until, limit := limit), store, source(until, limit)) && Hashed(source(until, limit))
  }

  /** Asks for one page after the other until the cursor stops: each page that advances does so by an earlier end or,
      at the same end, by a larger page, so this ends. */
  ghost function Drain(c: Cursor, store: set<Event>, source: (nat, nat) -> seq<Sighting>): (status: Status)
    requires ValidCursor(c) && c.active.None? && Distinct(store) && Answering(c, store, source)
    ensures status in {Exhausted, Limited, Stale}
    decreases c.until, c.maxLimit - c.limit
  {
    if !CanBegin(c) then Stale
    else
      var sightings := source(c.until, c.limit);
      var o := Paged(c, sightings, true);
      DrainStep(c, store, source);
      if o.status != Advanced then o.status else Drain(o.cursor, store, source)
  }

  lemma DrainStep(c: Cursor, store: set<Event>, source: (nat, nat) -> seq<Sighting>)
    requires ValidCursor(c) && c.active.None? && Distinct(store) && Answering(c, store, source) && CanBegin(c)
    ensures var o := Paged(c, source(c.until, c.limit), true);
            && o.status in {Advanced, Exhausted, Limited}
            && (o.status == Advanced ==>
                  && ValidCursor(o.cursor) && o.cursor.active.None? && Answering(o.cursor, store, source)
                  && o.cursor.maxLimit == c.maxLimit
                  && (o.cursor.until < c.until || (o.cursor.until == c.until && o.cursor.limit > c.limit)))
  {
    hide Crowded, Paged, Hashed, Answers;
    var sightings := source(c.until, c.limit);
    assert c.(until := c.until, limit := c.limit) == c;
    LaterEmpty(c, store);
    NothingLater(c, store);
    CompletePage(c, store, c, {}, sightings);
    var d := Paged(c, sightings, true).cursor;
    forall until, limit ensures Answers(d.(until := until, limit := limit), store, source(until, limit)) {
      assert Answers(c.(until := until, limit := limit), store, source(until, limit));
      SameAnswers(c.(until := until, limit := limit), d.(until := until, limit := limit), store, source(until, limit));
    }
  }

  lemma SameAnswers(c: Cursor, d: Cursor, store: set<Event>, sightings: seq<Sighting>)
    requires Answers(c, store, sightings)
    requires d.source == c.source && d.fits == c.fits && d.since == c.since && d.until == c.until && d.limit == c.limit
    ensures Answers(d, store, sightings)
  {
    assert forall e :: InTime(d, e) == InTime(c, e);
    assert forall s :: InScope(d, s) == InScope(c, s);
    assert Shown(d, sightings) == Shown(c, sightings) && Window(d, store) == Window(c, store);
  }

  /** Reading to the end succeeds if and only if no instant holds as many events as the largest page allowed. */
  lemma {:induction false} DrainExact(c: Cursor, start: Cursor, store: set<Event>, source: (nat, nat) -> seq<Sighting>)
    requires ValidCursor(c) && c.active.None? && Distinct(store) && Answering(c, store, source)
    requires Continues(start, c) && forall t :: c.until < t <= start.until ==> !Crowded(start, store, t)
    ensures Drain(c, store, source) != Stale ==>
              (Drain(c, store, source) == Exhausted <==> forall t :: !Crowded(start, store, t))
    decreases c.until, c.maxLimit - c.limit
  {
    hide Crowded, Paged, Hashed, Answers;
    if CanBegin(c) {
      var sightings := source(c.until, c.limit);
      assert c.(until := c.until, limit := c.limit) == c;
      DrainStep(c, store, source);
      var ids := set e | e in store :: e.id;
      forall e | e in Window(start, store) && e.created > c.until ensures e.id in ids {}
      CompletePage(start, store, c, ids, sightings);
      var o := Paged(c, sightings, true);
      if o.status == Advanced { DrainExact(o.cursor, start, store, source); }
    }
  }
}
