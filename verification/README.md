# A verified model of nostr-pubsub

This project models the parts of nostr-pubsub where a compact, truncated or lazily kept structure has to agree with
something simple, and proves that it does, for every input and over whole runs. `dafny verify dfyconfig.toml` checks it.

What is modelled, and what it is shown to do:

- **Set reconciliation** (`Codec`, `Items`, `Wire`, `Validation`, `Steps`, `Engine`, `Truth`, `Ledger`, `Conversation`,
  `Sizes`, `Termination`, `Rounds`, `UncutRuns`, `Answers`, `Openings`, `Session`, `Exchange`, `Reopening`). Two peers
  exchange ranges of fingerprints and identifier lists over their sorted records (the Negentropy Protocol V1 of NIP-77).
  `Engine` and `Session` are the program's objects, byte for byte; `Steps` is the function they are proved against. Each
  frame describes exactly its sender's records between the bounds on the wire, cut or not; a ledger kept over both
  directions shows that no difference is lost; a rank falls with every round; no frame exceeds its limit.
  `Exchange.Differences` puts two sessions together, and `Exchange.ReconcileRecords` starts from two lists of records and
  a window. Fingerprints are an arbitrary function of the identifiers in a range.
  That equal fingerprints mean equal identifiers is a hypothesis (`Discerning`), used only to show that nothing is missed,
  never that what is reported is right.
- **The inventory/want/frame mesh** (`MeshState`, `MeshInvariant`, `MeshSelection`, `MeshSteps`, `InvWantMesh`, `MeshTraces`,
  `MeshCache`, `MeshService`, `MeshWaiting`, `MeshRequests`, `MeshMemory`, `MeshPending`, `MeshNetwork`). One node's maps
  and queues stay in lock step under every call. Over whole runs, what it does for others: it asks for what is newly
  announced, serves what it stored lately, and passes a fetched event on to everyone who waited for it. And what it does
  not: what is delivered was asked of its sender, again only after a new request, and twice only far apart. In a network
  that loses, repeats and reorders packets an event goes no further than its hop limit.
- **The window of seen identifiers** (`SeenIds`, `SeenRuns`). Generation-tagged queues with lazy deletion and batch
  compaction act like one list of observations; over whole runs of observations and clearings the answers are those of a
  bounded memory for each scope.
- **Peer ratings** (`RatingCaps`, `Reputation`, `PeerReputation`, `RatingRuns`). Ratings of untrusted raters change neither
  the trusted ratings nor the trust graph nor any answer about trusted ratings, although all share limits and maintenance;
  and while the trusted ones fit the limits, the graph is built from exactly the newest valid rating of each pair.
- **History paging** (`History`, `HistoryCursor`), **retained events** (`Retention`, `RetentionRules`, `RetainedEvents`),
  **record streams**
  (`RecordStream`, `RecordIo`), **local delivery** (`Delivery`, `LocalDelivery`), **the simulator's peer mesh** (`Graphs`,
  `PeerMesh`) and **its incentive ledger** (`Incentives`).
- Main results speak of calls, answers, times, kinds and scores themselves; the functions a method is proved against are
  tied to these by the lemmas over runs.
- `Wrappers`, `Strings`, `Sets` and `Sums` hold what several of these share.

## Where the program differs from what is said of it

- A difference can be reported more than once. A frame that is cut ends in a fingerprint of everything behind the cut, and
  so reopens ranges that were already settled; the repository's own wire test removes duplicates before it counts
  (crates/nostr-pubsub-reconcile/tests/wire.rs:119-123). `Conversation.ReportedOnce` gives the exact condition,
  `Reopening.NotAlwaysOnce` a conversation that breaks it, and `UncutRuns.UncutReportsOnce` limits with which it cannot
  happen.
- A session can write a frame that the other side's check refuses. A cut frame always ends at the bound of the largest
  timestamp with no identifier prefix (crates/nostr-pubsub-reconcile/src/engine.rs:283), while the check lets a peer send
  bounds above it; an answer cut up there goes back. `Answers.AnswerAccepted` gives the exact condition,
  `Answers.OrdinaryFrameAnswered` one that can be read off the frame to be answered, and `Answers.AnswerRefused` such a frame.
- A session that answers before it initiates writes its opening relative to the last timestamp of its last answer
  (crates/nostr-pubsub-reconcile/src/engine.rs:78-90), and the other side, which starts from 0, reads other ranges.
  `Openings.OpeningReads` gives the exact condition and `Openings.StaleOpening` when it fails.
- A peer can wait for an event, and be sent it, after its wait has ended. The end of a wait is checked by maintenance
  (crates/nostr-pubsub/src/mesh.rs:885-887), but the next maintenance is scheduled without regard to it (896-907).
  `MeshPending.WaitOverdue` is a run, `MeshPending.PruneLeaves` says exactly which waits are left over, and
  `MeshPending.WaitsScheduled` that it takes a further provider who prolongs the route after the wait began.
- Bodies can overtake each other on their way to the application. The comment at
  crates/nostr-pubsub-fips/src/local_delivery.rs:63-64 says that older pending bodies always go first; a receiver that makes
  room between the refill and the attempt to send lets the newer body go ahead. `Delivery.InOrderExactly` gives the exact
  condition on the calls, `Delivery.OvertakingHappens` a run, and `Delivery.AtomicInOrder` shows that it cannot happen while
  the receiver leaves the calls that admit bodies alone.
- Generation numbers of observations wrap around (crates/nostr-pubsub-fips/src/seen_ids.rs:107). A record of 2^64
  observations ago could then pass for a live one; the statements about `SeenIds` are for fewer.
- A want is never passed on: while a route is known its own want still counts as sent, so the last step of
  crates/nostr-pubsub/src/mesh.rs:607-617 is not reached in any state a mesh can be in (`MeshInvariant.WantKeeps`).

## Model

| member | source | states |
|---|---|---|
| Codec.VarIntRoundTrip | crates/nostr-pubsub-reconcile/src/codec.rs:23-57 | every 64-bit value is read back, with whatever follows it untouched |
| Codec.EncodeVarInt | crates/nostr-pubsub-reconcile/src/codec.rs:38-57 | the loop that pushes groups, reverses them and sets continuation bits writes the value's 7-bit groups, most significant first |
| Codec.DecodeVarInt | crates/nostr-pubsub-reconcile/src/codec.rs:23-36 | the loop returns the value at the front and the rest, or the error for an early end or an overflow |
| Items.KeyOrder | crates/nostr-pubsub-reconcile/src/engine.rs:162-165 | comparing single numbers is comparing timestamp, then zero-padded identifier, byte by byte |
| Items.BelowSplits | crates/nostr-pubsub-reconcile/src/engine.rs:162-165 | a bound's index splits sorted records into exactly those below it and those not |
| Items.MaxKey | crates/nostr-pubsub-reconcile/src/lib.rs:83-85 | with timestamps below the largest, the last bound lies above every record |
| Items.MinimalBoundSeparates | crates/nostr-pubsub-reconcile/src/engine.rs:414-433 | the shortest bound put between neighbours excludes the left one and not the right one |
| Wire.FrameRoundTrip | crates/nostr-pubsub-reconcile/src/engine.rs:358-412 | ranges with nondecreasing timestamps, the largest included, are read back exactly |
| Validation.Validate | crates/nostr-pubsub-reconcile/src/validation.rs:5-45 | accepts exactly the frames that the recursive reading of the format accepts |
| Validation.AcceptedFrameReads | crates/nostr-pubsub-reconcile/src/validation.rs:5-69 | no accepted frame makes the engine fail to parse, and its bounds never go back |
| Validation.WrittenFrameAccepted | crates/nostr-pubsub-reconcile/src/validation.rs:5-45 | a frame written with nondecreasing timestamps is accepted if and only if its bounds never go back |
| Answers.AnswerAccepted | crates/nostr-pubsub-reconcile/src/engine.rs:265-287 | the engine never fails on a valid frame, and its answer, cut or not, is valid if and only if it was not cut above the last bound of all |
| Answers.AnswerRefused | crates/nostr-pubsub-reconcile/src/engine.rs:275-287 | a valid frame to which the answer of every responder with 122 records and frames of 4096 bytes is invalid |
| Answers.OrdinaryFrameAnswered | crates/nostr-pubsub-reconcile/src/engine.rs:265-287 | whatever a valid frame claims, if its last bound is not above the last bound of all then the answer to it is valid |
| Engine.Negentropy.New | crates/nostr-pubsub-reconcile/src/engine.rs:56-68 | refused exactly for a limit other than 0 that is under 4096; otherwise a fresh responder over the given records |
| Engine.Negentropy.EncodeBound | crates/nostr-pubsub-reconcile/src/engine.rs:389-412 | writes a bound relative to the last timestamp and remembers the new one |
| Engine.Negentropy.DecodeBound | crates/nostr-pubsub-reconcile/src/engine.rs:365-382 | reads what was written, with every parse error, and remembers the timestamp |
| Engine.Negentropy.SplitRange | crates/nostr-pubsub-reconcile/src/engine.rs:297-352 | writes the byte form of the range's identifier list, or of 16 fingerprints that are shown to tile it |
| Engine.Negentropy.Report | crates/nostr-pubsub-reconcile/src/engine.rs:207-225 | adds what we hold and they do not, and what they hold and we do not, each once per list |
| Engine.Negentropy.FitIds | crates/nostr-pubsub-reconcile/src/engine.rs:238-252 | lists identifiers until the frame is found too long, and names the first one left out |
| Engine.Negentropy.AnswerIdList | crates/nostr-pubsub-reconcile/src/engine.rs:226-261 | commits our own list of a range, cut where it must be, to the frame |
| Engine.Negentropy.CloseFrame | crates/nostr-pubsub-reconcile/src/engine.rs:265-287 | ends a full frame so that its bytes are those of the ranges answered, the boundary and the trailing fingerprint |
| Engine.Negentropy.Initiate | crates/nostr-pubsub-reconcile/src/engine.rs:78-90 | becomes initiator once, and opens with its whole storage split, in bytes that go on from the timestamp it last wrote |
| Openings.OpeningReads | crates/nostr-pubsub-reconcile/src/engine.rs:78-90 | an opening is read as it was meant if and only if the timestamp written last was 0, or the session holds at most 31 records, or its first bucket ends at timestamp 0 |
| Openings.StaleOpening | crates/nostr-pubsub-reconcile/src/engine.rs:78-90 | after answering a fingerprint that differs from its own, a session of more than 31 records opens with bytes that are read as other ranges, unless its first bucket ends at timestamp 0 |
| Openings.CrowdMisread | crates/nostr-pubsub-reconcile/src/engine.rs:78-90 | such a session exists, whatever the fingerprint |
| Engine.Negentropy.ReconcileAux | crates/nostr-pubsub-reconcile/src/engine.rs:120-295 | for every byte string: the same frame, reports or error as the answer to the ranges that can be read from it |
| Engine.Negentropy.Reconcile | crates/nostr-pubsub-reconcile/src/engine.rs:93-99 | the responder's turn; an initiator is refused |
| Engine.Negentropy.ReconcileWithIds | crates/nostr-pubsub-reconcile/src/engine.rs:102-118 | the initiator's turn; nothing more to send exactly when the answer holds no range |
| Truth.SplitTruthful | crates/nostr-pubsub-reconcile/src/engine.rs:315-348 | every range of a split describes exactly the records between the wire bounds around it, and together they reach the upper bound |
| Ledger.TurnKeeps | crates/nostr-pubsub-reconcile/src/engine.rs:154-292 | the answer to a truthful frame is truthful, reports only differences, and every difference still open is reported or open in the answer, cut or not |
| Ledger.EqualMeans | crates/nostr-pubsub-reconcile/src/engine.rs:171-187 | a range with equal fingerprints holds no difference, if fingerprints can be relied on |
| Conversation.ReportsConserved | crates/nostr-pubsub-reconcile/src/lib.rs:134-147 | at the end of every conversation only true differences were reported, each in its direction and at most once more often than a cut frame reopened it; exactly so if equal fingerprints can be relied on |
| Conversation.ExactReconciliation | crates/nostr-pubsub-reconcile/src/lib.rs:134-147 | if equal fingerprints can be relied on, have is exactly local minus remote and need exactly remote minus local |
| Conversation.ReportedOnce | crates/nostr-pubsub-reconcile/src/engine.rs:265-287 | if equal fingerprints can be relied on, a difference is reported once if and only if no cut frame reopened it |
| Reopening.ReportedTwice | crates/nostr-pubsub-reconcile/src/engine.rs:265-287 | for 32 records against 2000 and frames of 4096 bytes, whatever the fingerprint, one record is reported at least twice |
| Reopening.NotAlwaysOnce | crates/nostr-pubsub-reconcile/src/engine.rs:265-287 | such a conversation exists, with fingerprints that can be relied on |
| Sizes.AnswerFits | crates/nostr-pubsub-reconcile/src/engine.rs:238-287 | no answer is longer than the frame limit, whatever it answers: the reserve of 200 bytes covers the overshoot |
| Sizes.OpeningFits | crates/nostr-pubsub-reconcile/src/engine.rs:78-90 | nor is an opening |
| Sizes.FirstSplitFits | crates/nostr-pubsub-reconcile/src/engine.rs:354-356 | the first range that is not settled can always be answered in full by a split |
| Termination.FirstIdFits | crates/nostr-pubsub-reconcile/src/engine.rs:238-252 | a cut list at the front of a frame holds at least one identifier |
| Rounds.RoundFalls | crates/nostr-pubsub-reconcile/src/engine.rs:154-292 | each round on a frame that still discusses something lowers a rank: the records from the first open range on, then how often that range can still be split |
| Rounds.RunsAreShort | crates/nostr-pubsub-reconcile/src/engine.rs:154-292 | no conversation of peers with l and r records takes more than (l + r + 1)(s + 2) rounds, however its frames are cut, s being how often l can be divided by 16 |
| Rounds.SplitsFew | crates/nostr-pubsub-reconcile/src/engine.rs:297-352 | that number is logarithmic: at most k for up to 30 times 16 to the k records |
| Rounds.RunsFinish | crates/nostr-pubsub-reconcile/src/engine.rs:102-118 | every conversation can be carried on to its end |
| UncutRuns.AmpleNeverCut | crates/nostr-pubsub-reconcile/src/engine.rs:265-292 | without a frame limit, or with one so large, no frame of a conversation is cut |
| UncutRuns.UncutReportsOnce | crates/nostr-pubsub-reconcile/src/engine.rs:265-292 | without a frame limit, or with one of at least 130(l + r) + 299 bytes, every difference is reported exactly once, if equal fingerprints can be relied on |
| UncutRuns.UncutRunsAreShort | crates/nostr-pubsub-reconcile/src/engine.rs:154-292 | a conversation without cut frames ends after s + 1 rounds |
| Session.Collect | crates/nostr-pubsub-reconcile/src/lib.rs:93-106 | gathers exactly the records from the first to the last second of the window, both included, and fails exactly on two timestamps for one identifier or too many records, whichever comes first |
| Session.Seal | crates/nostr-pubsub-reconcile/src/lib.rs:107-113 | sorts the records into storage with nothing lost or added |
| Session.Session.New | crates/nostr-pubsub-reconcile/src/lib.rs:78-122 | succeeds exactly for a valid window, valid limits and consistent records, holding exactly the records with since <= timestamp <= until, and else says what was wrong |
| Session.Session.Accept | crates/nostr-pubsub-reconcile/src/lib.rs:149-163 | a frame costs a round, and is taken exactly if rounds are left, it is short enough and valid throughout |
| Session.Session.Respond | crates/nostr-pubsub-reconcile/src/lib.rs:129-132 | every outcome for every frame: refused, or the engine's answer |
| Session.Session.Reconcile | crates/nostr-pubsub-reconcile/src/lib.rs:134-147 | every outcome for every frame, with what was found; finished exactly when nothing is left to ask |
| Exchange.Differences | crates/nostr-pubsub-reconcile/src/lib.rs:124-163 | two sessions that alternate never reject each other's frames for size or form, can fail only by running out of rounds, do not fail if (l + r + 1)(s + 2) + 1 are left, or s + 2 when no frame can be cut, and end with the exact differences, each found once in that case |
| Exchange.ReconcileRecords | crates/nostr-pubsub-reconcile/src/lib.rs:78-147 | two lists of records and one window: what is found are exactly the identifiers of the records with since <= timestamp <= until that only one list holds, if equal fingerprints of a stretch can be relied on; it succeeds if both lists and the rounds are within the limits |
| Codec.VarIntOutright | crates/nostr-pubsub-reconcile/src/codec.rs:38-57 | the one byte of values below 128 and the two of those below 16384 |
| Openings.RangeOutright | crates/nostr-pubsub-reconcile/src/engine.rs:384-412 | the bytes of a range: bound, mode 0, 1 or 2, and hash or counted identifiers; the last bound is two zeros |
| Openings.SmallOpening | crates/nostr-pubsub-reconcile/src/engine.rs:78-90 | the bytes of an opening over fewer than 32 records, 61 00 00 02 00 over none |
| SeenIds.ScopedSeenIds.ObserveWithMatch | crates/nostr-pubsub-fips/src/seen_ids.rs:87-134 | answers and acts as one list that drops the scope's oldest and then the overall oldest; sizes, orders and the compaction bound hold after every call |
| SeenIds.ScopedSeenIds.ObserveResponse | crates/nostr-pubsub-fips/src/seen_ids.rs:63-85 | notes a late answer under its wire subscription too, before the response's own, and answers for the latter |
| SeenIds.ScopedSeenIds.EvictGlobal | crates/nostr-pubsub-fips/src/seen_ids.rs:158-191 | skipping stale records, removes exactly the overall oldest when there is one too many, and keeps the queue within twice the total |
| SeenIds.ScopedSeenIds.ClearPeer | crates/nostr-pubsub-fips/src/seen_ids.rs:136-145 | forgets exactly the peer's observations |
| SeenIds.ScopedSeenIds.ClearSubscription | crates/nostr-pubsub-fips/src/seen_ids.rs:147-156 | forgets exactly the subscription's observations |
| SeenRuns.RepetitionsAreKnown | crates/nostr-pubsub-fips/src/seen_ids.rs:87-134 | in every run of observations and clearings: an answer says "not the first" only if that very scope observed the identifier before, was told it was the first, was not cleared and has had fewer new identifiers since than it may hold; it then tells what was noted at that first time |
| SeenRuns.RecentlySeenIsKnown | crates/nostr-pubsub-fips/src/seen_ids.rs:118-130 | an identifier is answered as known as long as fewer new ones came since than its scope, and all scopes together, may hold |
| SeenRuns.FirstsMatchNothing | crates/nostr-pubsub-fips/src/seen_ids.rs:87-134 | a first observation is told of no match |
| MeshInvariant.PruneKeeps | crates/nostr-pubsub/src/mesh.rs:849-908 | maintenance keeps everything in step and leaves nothing expired but possibly the wait of a peer |
| MeshInvariant.StoreKeeps | crates/nostr-pubsub/src/mesh_resources.rs:51-87 | after storing, count and bytes respect their caps and the byte count is the true sum |
| MeshInvariant.InventoryKeeps | crates/nostr-pubsub/src/mesh.rs:483-561 | after any announcement routes, wants and announcements still have equal keys and expiries, and at most three providers |
| MeshInvariant.WantKeeps | crates/nostr-pubsub/src/mesh.rs:563-618 | pending peers wait only for unfulfilled routes, as many as counted; and no want is ever passed on |
| MeshInvariant.FrameKeeps | crates/nostr-pubsub/src/mesh.rs:620-703 | a frame leaves everything in step and nobody waiting for what was served |
| MeshInvariant.PublishKeeps | crates/nostr-pubsub/src/mesh.rs:400-420 | so does publishing |
| MeshSteps.PerformedKeeps | crates/nostr-pubsub/src/mesh.rs:446-481 | every call of the mesh keeps the lock-step invariant |
| MeshSteps.ActedRoutes | crates/nostr-pubsub/src/mesh.rs:513-560 | a route is as it was or stems from the announcement just heard, whose sender was asked in turn if it is a new provider |
| MeshSteps.ActedDelivers | crates/nostr-pubsub/src/mesh.rs:620-675 | only a frame delivers, and only a genuine event that was requested from its sender, is as announced and was not delivered lately |
| MeshSteps.ActedAnnounces | crates/nostr-pubsub/src/mesh.rs:690-701 | an announcement sent is a route's with one hop less, or one's own with all hops |
| MeshSelection.SelectMeshPeers | crates/nostr-pubsub/src/mesh.rs:921-975 | as many as the fanout, no one twice or excluded, exactly as many unknown as reserved or ranking among the best, of the known as of the unknown always the best, in the order they are placed |
| MeshSelection.BestAreTold | crates/nostr-pubsub/src/mesh.rs:921-975 | in terms of scores: no known peer is chosen before one of higher score, known peers of negative score only with all unknown ones, unknown ones before known ones of no negative score only up to the reserve, which is used as far as it can be |
| InvWantMesh.InvWantMesh.PruneExpired | crates/nostr-pubsub/src/mesh.rs:849-908 | removes what has expired from all maps and queues together, if maintenance is due, and schedules the next for the earliest expiry left other than that of a wait |
| MeshPending.WaitsScheduled | crates/nostr-pubsub/src/mesh.rs:522-544 | in every state a mesh can be in, maintenance is due by the end of each wait unless a further provider prolonged its route past that |
| MeshPending.PruneLeaves | crates/nostr-pubsub/src/mesh.rs:849-892 | maintenance leaves a wait that is over if and only if it is not due yet |
| MeshPending.DueSchedules | crates/nostr-pubsub/src/mesh.rs:896-907 | maintenance that was due is scheduled past the end of a wait if and only if everything else lives longer |
| MeshPending.WaitOverdue | crates/nostr-pubsub/src/mesh.rs:563-618 | a run in which a peer still waits, and is served, after its wait has ended and maintenance has run |
| InvWantMesh.InvWantMesh.StoreEvent | crates/nostr-pubsub/src/mesh_resources.rs:51-87 | caches an event, evicting the oldest until it fits |
| InvWantMesh.InvWantMesh.EvictOldest | crates/nostr-pubsub/src/mesh_resources.rs:125-134 | pops the queue until an event goes, without changing what making room comes to |
| InvWantMesh.InvWantMesh.RememberInventory | crates/nostr-pubsub/src/mesh.rs:751-776 | says whether an announcement is new, and forgets the oldest ones with their routes, wants and pending peers |
| InvWantMesh.InvWantMesh.RememberDelivered | crates/nostr-pubsub/src/mesh_resources.rs:107-123 | says whether a delivery is new, and forgets the oldest ones |
| InvWantMesh.InvWantMesh.ReceiveInventory | crates/nostr-pubsub/src/mesh.rs:483-561 | new state and answer for every announcement, errors included |
| InvWantMesh.InvWantMesh.RetryInventory | crates/nostr-pubsub/src/mesh.rs:513-544 | a further announcement raises the hops and may add a provider, extending route, announcement and want together |
| InvWantMesh.InvWantMesh.ReceiveWant | crates/nostr-pubsub/src/mesh.rs:563-618 | new state and answer for every want; what that comes to over runs is `MeshCache.StoredIsServed` and `MeshWaiting.WaitingAreServed` |
| InvWantMesh.InvWantMesh.ReceiveFrame | crates/nostr-pubsub/src/mesh.rs:620-703 | new state and actions for every frame: delivered once, sent to exactly those waiting, announced to exactly the peers selected among all but its sender |
| InvWantMesh.InvWantMesh.Receive | crates/nostr-pubsub/src/mesh.rs:446-481 | maintenance, then the message; the invariant holds after every message |
| InvWantMesh.InvWantMesh.Publish | crates/nostr-pubsub/src/mesh.rs:400-420 | caches a new event and announces it with all hops to exactly the peers selected |
| InvWantMesh.InvWantMesh.ReplayToPeer | crates/nostr-pubsub/src/mesh.rs:425-444 | caches an event and announces it to one peer |
| InvWantMesh.InvWantMesh.SeedVerified | crates/nostr-pubsub/src/mesh_verified.rs:8-15 | caches an event and sends nothing |
| InvWantMesh.InvWantMesh.ReplayCachedToPeer | crates/nostr-pubsub/src/mesh_verified.rs:20-38 | announces every cached event, oldest first, with its true kind and size |
| InvWantMesh.InvWantMesh.DismissFrame | crates/nostr-pubsub/src/mesh.rs:377-385 | closes a provider's route with nobody left waiting |
| InvWantMesh.InvWantMesh.RecordTransportDisruption | crates/nostr-pubsub/src/mesh.rs:391-398 | marks a provider of an open route, and says whether it was new |
| MeshTraces.DeliveriesAsked | crates/nostr-pubsub/src/mesh.rs:627-675 | in every run each delivery follows an announcement by its sender, with the event's kind and size, that was answered by a want to it; the event is genuine, of an allowed kind and not too long |
| MeshTraces.DeliveriesFarApart | crates/nostr-pubsub/src/mesh_resources.rs:107-123 | two deliveries of one event are an event lifetime apart or have as many different other deliveries between them as the mesh remembers |
| MeshCache.StoredIsServed | crates/nostr-pubsub/src/mesh.rs:563-577 | in every run a want for an event that the node published, replayed, was seeded with or delivered is answered by its frame, throughout the event's lifetime, unless as many other events or bytes as it may keep were stored since |
| MeshCache.StoredIsReplayed | crates/nostr-pubsub/src/mesh_verified.rs:20-38 | so is such an event announced, with its kind and size, to a peer to which the cache is replayed |
| MeshService.AnnouncedIsAsked | crates/nostr-pubsub/src/mesh.rs:483-561 | in every run whoever announces an allowed event that was neither announced nor stored lately is asked for it, and nothing else happens |
| MeshService.PublishedIsAnnounced | crates/nostr-pubsub/src/mesh.rs:400-420 | publishing a genuine allowed event not announced lately tells every selected peer, with all hops |
| MeshService.ReplayedIsAnnounced | crates/nostr-pubsub/src/mesh.rs:425-444 | replaying one tells its peer whatever was announced before |
| MeshMemory.PublishedOnce | crates/nostr-pubsub/src/mesh.rs:751-776 | publishing it again within the time of a route announces nothing, unless as many others as are remembered came in between |
| MeshWaiting.FetchedIsDelivered | crates/nostr-pubsub/src/mesh.rs:620-703 | in every run a genuine frame from a peer that was asked, within the time of the route, is delivered unless its event was before, and told to every selected peer with at most one hop less than announced; forged frames, frames of peers that were not asked and up to a memory of other announcements in between change nothing |
| MeshWaiting.WaitingAreServed | crates/nostr-pubsub/src/mesh.rs:563-703 | and everyone who wanted it meanwhile, when fewer than may wait had, is sent it, at once or with that frame |
| MeshRequests.DeliveredAgainIfAsked | crates/nostr-pubsub/src/mesh.rs:620-703 | between a delivery of an event, or the dismissal of a provider, and its next delivery the peer that delivers it announced it and was asked for it anew |
| MeshNetwork.HopBudget | crates/nostr-pubsub/src/mesh.rs:498-539 | with one hop limit everywhere, an announcement with h hops left came from a node a walk of maxHops - h links from a publisher or replayer, and who delivers is within maxHops links of one |
| MeshNetwork.RouteReached | crates/nostr-pubsub/src/mesh.rs:522-522 | though a route's hops are the maximum over its announcers, they stand for a walk that was really taken |
| MeshNetwork.NothingReplayed | crates/nostr-pubsub/src/mesh.rs:425-444 | without replays only publishers count |
| RatingCaps.CappedTrusted | crates/nostr-pubsub-social-graph/src/reputation.rs:399-440 | the limits leave the same trusted ratings as if there were no others |
| RatingCaps.CappedWithin | crates/nostr-pubsub-social-graph/src/reputation.rs:399-440 | after the limits at most 1024 ratings of one rater and 4096 in all are left, unchanged |
| RatingCaps.RankCount | crates/nostr-pubsub-social-graph/src/reputation.rs:410-413 | of any set exactly n are among the n first to go |
| RatingCaps.CappedNewest | crates/nostr-pubsub-social-graph/src/reputation.rs:399-440 | what the limits drop is no newer, by time and then identifier, than what they keep of the same rater; and if its rater has no more than he may have, 4096 are kept, trusted ones rather than others and no newer one dropped |
| Reputation.ConsiderMeans | crates/nostr-pubsub-social-graph/src/reputation.rs:280-357 | taking an event is: put it at its key unless the rating there is later, or as late with no lower identifier, then apply both limits, though they are only enforced when exceeded |
| Reputation.PrunedValid | crates/nostr-pubsub-social-graph/src/reputation.rs:359-382 | maintenance leaves exactly the ratings still valid, whether or not it was due |
| Reputation.ReplayedConsistent | crates/nostr-pubsub-social-graph/src/reputation.rs:234-278 | after every call at any time the graph is the one built afresh from the retained trusted ratings, and the limits and the schedule hold |
| Reputation.NonInterference | crates/nostr-pubsub-social-graph/src/reputation.rs:234-382 | for every run with nondecreasing time, trusted ratings and graph are those of the run in which every untrusted event is just maintenance |
| Reputation.SameAnswer | crates/nostr-pubsub-social-graph/src/reputation.rs:234-241 | a trusted event gets the same answer in both runs |
| RatingRuns.NewestRetained | crates/nostr-pubsub-social-graph/src/reputation.rs:280-357 | in every run in which what is valid at any time fits the limits, what is retained for a rater and subject is the newest of the ratings offered that are still valid, by creation time and then identifier, and something is retained exactly if one is |
| RatingRuns.NewestTrusted | crates/nostr-pubsub-social-graph/src/reputation.rs:234-382 | only the ratings of trusted raters need to fit, however many others come, for this to hold of them and of the graph |
| RatingRuns.RatingOrderDoesNotMatter | crates/nostr-pubsub-social-graph/src/reputation.rs:251-268 | so two runs in which trusted raters offered the same, in whatever order, end with the same graph |
| PeerReputation.PeerReputation.EnforceEntryLimits | crates/nostr-pubsub-social-graph/src/reputation.rs:399-440 | sorting and dropping leaves exactly the newest ratings of each rater, then the newest overall with untrusted ones going first |
| PeerReputation.PeerReputation.RebuildEntryCounts | crates/nostr-pubsub-social-graph/src/reputation.rs:388-393 | counts each rater's ratings |
| PeerReputation.PeerReputation.ConsiderEvent | crates/nostr-pubsub-social-graph/src/reputation.rs:280-357 | new ratings and both answers for every event, with counts kept true; what is accepted is its author's own and later than what it replaces, or as late with the greater identifier |
| PeerReputation.PeerReputation.PruneMemory | crates/nostr-pubsub-social-graph/src/reputation.rs:359-382 | drops what is no longer valid if maintenance is due, reports how many, and reschedules |
| PeerReputation.PeerReputation.IngestEventAt | crates/nostr-pubsub-social-graph/src/reputation.rs:234-241 | maintenance, one event, and a rebuilt graph only if it may differ |
| PeerReputation.PeerReputation.ReplayAt | crates/nostr-pubsub-social-graph/src/reputation.rs:251-268 | the same for a batch, with the number accepted |
| PeerReputation.PeerReputation.Prune | crates/nostr-pubsub-social-graph/src/reputation.rs:272-278 | maintenance alone, with the number removed |
| History.PageMeans | crates/nostr-pubsub/src/pagination.rs:152-173 | a complete page knows the oldest event shown, and everything newer than it was shown |
| History.CompletePage | crates/nostr-pubsub/src/pagination.rs:175-228 | a complete page keeps the promise that everything newer was seen, and moves to an earlier end or to a larger page, or stops; it stops as limited only at an instant with as many events as the largest page |
| History.PartialPage | crates/nostr-pubsub/src/pagination.rs:189-194 | a partial page never moves the filter |
| History.ExhaustedIsComplete | crates/nostr-pubsub/src/pagination.rs:127-228 | a run that ends exhausted has observed every event of the query that the source holds, whatever partial pages came between |
| History.DrainExact | crates/nostr-pubsub/src/pagination.rs:195-222 | reading page by page ends, and exhausted if and only if no instant holds as many events as the largest page |
| History.FirstsAreNew | crates/nostr-pubsub/src/pagination.rs:152-173 | over a page exactly the first sighting of each identifier in scope is answered as new, until as many were as the largest page holds |
| HistoryCursor.HistoryCursor.New | crates/nostr-pubsub/src/pagination.rs:80-125 | refused exactly for wrong limits or a start after the end; else a cursor at its first page, with the limits and times of its filter |
| HistoryCursor.HistoryCursor.BeginPage | crates/nostr-pubsub/src/pagination.rs:128-148 | a page with a new token, unless one is active or the cursor has stopped |
| HistoryCursor.HistoryCursor.Observe | crates/nostr-pubsub/src/pagination.rs:152-173 | notes a sighting in scope once, and an overflow |
| HistoryCursor.HistoryCursor.FinishPage | crates/nostr-pubsub/src/pagination.rs:175-228 | every outcome of a page, stale ones included |
| HistoryCursor.HistoryCursor.Cancel | crates/nostr-pubsub/src/pagination.rs:231-234 | stops and forgets the page |
| Retention.InsertedIdeal | crates/nostr-pubsub/src/retained.rs:46-95 | one insertion into the ideal list of a set of events gives the ideal list of the set with that event, wherever it ranks and whatever it replaces |
| Retention.Converges | crates/nostr-pubsub/src/retained.rs:46-95 | while the byte limit does not bind, what is left is the first so many of the coordinate winners, in order |
| Retention.OrderDoesNotMatter | crates/nostr-pubsub/src/retained.rs:46-95 | two orders of the same events, with any repetitions, end with the same list |
| Retention.FewConverge | crates/nostr-pubsub/src/retained.rs:83-91 | with at most 255 events allowed that needs no condition at all |
| Retention.FitConverge | crates/nostr-pubsub/src/retained.rs:83-91 | nor does it if the events that may be kept, each counted once, are within the byte limit together |
| Retention.FitOrderDoesNotMatter | crates/nostr-pubsub/src/retained.rs:46-95 | then any two orders of them end with the same list |
| Retention.InsertedKept | crates/nostr-pubsub/src/retained.rs:46-95 | after any insertion at any time the list is sorted, has no identifier or coordinate twice, and is within its limits, bytes included |
| Retention.SnapshotRestores | crates/nostr-pubsub/src/retained.rs:38-44 | a snapshot read into an empty store gives the same list, even at the byte limit |
| RetentionRules.KeptExactly | crates/nostr-pubsub/src/retained.rs:46-95 | with at most 255 events allowed, or if all that may be kept fit the bytes: whatever the order, kept are the storable events that no storable event of the same slot is later than, or as late with a lower identifier, newest first; a slot is an author's replaceable kind, or addressable kind and identifier; and if some of these are not kept, as many as allowed are, all newer |
| RetentionRules.TwoEvents | crates/nostr-pubsub/src/retained.rs:156-169 | two storable events are both kept unless they share a slot, and then only the later one |
| RetentionRules.ExpiresAt | crates/nostr-pubsub/src/retained.rs:132-148 | an event without an expiration tag does not expire; one whose first holds the decimal numeral of a 64-bit time does at that time; any other that is no numeral makes it expired |
| RetainedEvents.RetainedEvents.New | crates/nostr-pubsub/src/retained.rs:21-35 | refused exactly without filters or for a number of events outside 1 to 4096 |
| RetainedEvents.RetainedEvents.Insert | crates/nostr-pubsub/src/retained.rs:46-95 | drops what is stale or replaced, sorts, trims and sums, and says whether the event stayed |
| RetainedEvents.RetainedEvents.Restore | crates/nostr-pubsub/src/retained.rs:38-44 | inserts what verifies, in order |
| RetainedEvents.RetainedEvents.Snapshot | crates/nostr-pubsub/src/retained.rs:97-103 | the current events, in order |
| RecordStream.StreamIntegrity | crates/nostr-pubsub-fips/src/wire_tcp.rs:536-671 | however writes and reads are cut and whenever the connection is replaced, what is decoded on a connection is a prefix of what was queued for it, nothing is rejected, and nothing is left behind when all is read |
| RecordStream.LengthOutright | crates/nostr-pubsub-fips/src/wire_tcp.rs:815-821 | the four bytes of a length, most significant first |
| RecordStream.TakeFromStream | crates/nostr-pubsub-fips/src/wire_tcp.rs:767-793 | from the front of a stream of records come exactly its first frames |
| RecordStream.FullIsReady | crates/nostr-pubsub-fips/src/wire_tcp.rs:795-813 | a full buffer always has a record to take or to reject |
| RecordStream.WrittenUnsent | crates/nostr-pubsub-fips/src/wire_tcp.rs:646-655 | consuming accepted bytes removes exactly those from the front of what is unsent |
| RecordStream.ReconnectFlows | crates/nostr-pubsub-fips/src/wire_tcp.rs:527-532 | a new connection starts with every queued record whole, and the stream is that of the queue |
| RecordIo.RecordDecoder.Push | crates/nostr-pubsub-fips/src/wire_tcp.rs:758-765 | appends, or empties the buffer and fails if it would not fit |
| RecordIo.RecordDecoder.TakeFrames | crates/nostr-pubsub-fips/src/wire_tcp.rs:767-793 | takes complete records up to the number wanted; a record that is too long ends the stream |
| RecordIo.RecordDecoder.ReadReady | crates/nostr-pubsub-fips/src/wire_tcp.rs:545-596 | never reads beyond its budget, and the frames and the buffer spell exactly what was there and what was read; rejects exactly when a record that is too long follows the frames, and then keeps nothing; it stops only with as many frames as wanted, the turns used up, or no complete record left and the budget spent or nothing more read |
| RecordIo.TakeSpells | crates/nostr-pubsub-fips/src/wire_tcp.rs:767-793 | whatever the bytes, frames taken and rest spell the buffer |
| RecordIo.PeerQueue.QueueFrame | crates/nostr-pubsub-fips/src/wire_tcp.rs:253-285 | queues a frame's record exactly if it and the queue are within all limits |
| RecordIo.PeerQueue.Restart | crates/nostr-pubsub-fips/src/wire_tcp.rs:731-738 | every record whole again, with the byte count to match |
| RecordIo.PeerQueue.Chunk | crates/nostr-pubsub-fips/src/wire_tcp.rs:617-631 | the first unsent bytes across records, as many as allowed |
| RecordIo.PeerQueue.Flush | crates/nostr-pubsub-fips/src/wire_tcp.rs:616-656 | whatever the connection accepts, sends the front of what is unsent, exactly as much as budget and connection accept in chunks of 16384 bytes, and keeps the byte count equal to the rest |
| RecordIo.AcceptingProgress | crates/nostr-pubsub-fips/src/wire_tcp.rs:616-656 | so everything that may go goes, unless a write accepts nothing or the writes are used up with each having taken what it could |
| Delivery.NothingLost | crates/nostr-pubsub-fips/src/local_delivery.rs:52-149 | at any interleaving with a living receiver every admitted body is received, in the channel or pending exactly as often as it was admitted; one identifier returns only after more than 4096 others; the channel is let go only when nothing is pending |
| Delivery.InOrderExactly | crates/nostr-pubsub-fips/src/local_delivery.rs:63-83 | bodies are received in the order of admission if and only if in no call, after its refill found the channel full and left something pending, the receiver then takes a body |
| Delivery.OvertakingHappens | crates/nostr-pubsub-fips/src/local_delivery.rs:63-83 | three bodies and a channel of one for which that fails |
| Delivery.AtomicInOrder | crates/nostr-pubsub-fips/src/local_delivery.rs:52-85 | in every run in which the receiver does nothing during the calls that admit bodies, all bodies are received in the order of admission |
| Delivery.AdmittedOrTold | crates/nostr-pubsub-fips/src/local_delivery.rs:52-85 | in every run, whatever the receiver does: while the delivery stays active a body offered is admitted unless its identifier was before; it lags only by turning one away with channel and list full, and closes on an offer only because the receiver has gone |
| Delivery.RefillKeeps | crates/nostr-pubsub-fips/src/local_delivery.rs:111-140 | refilling moves pending bodies to the channel in order and loses none |
| LocalDelivery.LocalDelivery.Enqueue | crates/nostr-pubsub-fips/src/local_delivery.rs:52-85 | new state and answer for every body, whatever the receiver does meanwhile |
| LocalDelivery.LocalDelivery.RefillState | crates/nostr-pubsub-fips/src/local_delivery.rs:111-140 | new state after refilling, a receiver that has gone included |
| LocalDelivery.LocalDelivery.MarkDelivered | crates/nostr-pubsub-fips/src/local_delivery.rs:101-109 | remembers the identifier and forgets all but the last 4096 |
| LocalDelivery.LocalDelivery.CloseState | crates/nostr-pubsub-fips/src/local_delivery.rs:142-149 | closes an active delivery, letting go of the channel only if nothing is pending |
| Graphs.ConnectedJoin | crates/nostr-pubsub-sim/src/topology.rs:377-393 | two connected parts with an edge between them are connected |
| PeerMesh.DeterministicRng.Shuffle | crates/nostr-pubsub-sim/src/topology.rs:916-922 | a permutation |
| PeerMesh.BoundedGraph.Add | crates/nostr-pubsub-sim/src/topology.rs:227-241 | links two nodes both ways exactly if they are different, not linked and below their degrees |
| PeerMesh.BoundedGraph.ConnectRing | crates/nostr-pubsub-sim/src/topology.rs:359-375 | closes a ring over nodes without links; the degrees always allow it |
| PeerMesh.BoundedGraph.ConnectFirstAvailable | crates/nostr-pubsub-sim/src/topology.rs:863-872 | links one pair, or shows that none can be linked |
| PeerMesh.HonestCohorts | crates/nostr-pubsub-sim/src/topology.rs:840-849 | every honest node in exactly the group of its cohort, by ascending identifier |
| PeerMesh.ConnectCohortBackbone | crates/nostr-pubsub-sim/src/topology.rs:377-393 | links each cohort to the next, which always fits |
| PeerMesh.BuildPeerMesh | crates/nostr-pubsub-sim/src/topology.rs:289-357 | whatever the seed: refused exactly for a wrong configuration, never for want of degrees; the result is undirected, without loops, within its degrees, with each cohort and all honest nodes connected; and beyond a connected backbone of at most four links a node, every honest node has as many shortcuts, links to other cohorts and links to attackers as asked for, or none could be added |
| Incentives.PriceRecords | crates/nostr-pubsub-sim/src/incentives.rs:371-413 | useful bytes are price times value plus dust, and each pair owes its whole satoshis' worth whatever the order |
| Incentives.Batches | crates/nostr-pubsub-sim/src/incentives.rs:540-556 | what each pair owes in each interval; batching keeps the total |
| Incentives.PlanPeerCredit | crates/nostr-pubsub-sim/src/incentives.rs:446-531 | earned plus denied is the useful value, settled plus unpaid is earned, and no pair ever owes more than the cap; what a peer is left owing is at most what it owes net, interval by interval, of what it is owed back, exactly that up to the cap if it defaults, and nothing if all its payments succeed |

## Left out

- Fingerprint arithmetic and the upstream storage: storage is a strictly sorted sequence, a fingerprint an arbitrary function of a range's identifiers.
- Iteration orders of hash sets and maps: where the program walks one, the model takes the elements in any order.
- SeenIds.ScopedSeenIds.ObserveWithMatch: requires a generation number below the largest 64-bit integer for an identifier not yet known; the wrap-around after 2^64 observations is not modelled.
- SeenIds.ScopedSeenIds.ObserveResponse: requires two such numbers.
- Exchange.Differences: is stated for two sessions with equal frame limits and one fingerprint function, of which the first writes its opening as it is meant.
- InvWantMesh.InvWantMesh.Receive: requires that time does not go back between calls, as the expiry schedule of the mesh does; identifiers fix an event's kind and size.
- Peer behaviour scores of the mesh: the `peers` given to a call carry the scores they have then, and penalties and rewards are not kept.
- The calls for already verified events: publishing, replaying and receiving them are the modelled calls on an event whose signature holds.
- The 64-bit saturation of byte and peer counters, which the caps keep far away; saturation of times is modelled.
- Reputation.NonInterference: building the graph is an arbitrary function of the retained trusted ratings, so its errors are not modelled; nor are the work counters and the key parsing of the configuration.
- History.DrainExact: says nothing of a cursor that has used up its 2^64 page numbers.
- HistoryCursor.HistoryCursor.New: takes the cursor's unique number as a parameter instead of drawing it from a shared counter.
- Retention.Converges: if the byte limit binds in some intermediate list, the outcome may depend on the order of insertion; only the limits, the order and the restoring of snapshots are shown then.
- Queries over retained events, tag parsing by the nostr library and signature checks, which enter as parameters.
- RecordStream.StreamIntegrity: both ends have one frame limit; a frame is one stream, and connections, retries and the choice between parallel streams are not modelled.
- Exchange.ReconcileRecords: takes two lists that agree on the timestamp of an identifier they share.
- RatingRuns.NewestRetained: says nothing of runs in which more is valid than the limits allow; what the limits then do is `RatingCaps.CappedNewest`.
- MeshCache.StoredIsServed: counts from when the event was stored afresh; that storing it again prolongs its stay is in the state functions only.
- RecordIo.PeerQueue.Flush: is about one peer; the loop over peers passes on what is left of the budget.
- Delivery.NothingLost: a receiver that goes away takes the bodies in its channel with it, so the statement is for one that stays; mutex poisoning is not modelled.
- PeerMesh.BuildPeerMesh: the hybrid strategy with supernodes and its discovery counters are not modelled.
- Incentives.PlanPeerCredit: all providers are honest and sums do not saturate; fees, messages, mint routes and the other payment strategies are not modelled.
- Pending wants, provider behaviour, live routes, relay and file adapters, peerfinding, anonymous publication, simulator output: thin or easier members.
