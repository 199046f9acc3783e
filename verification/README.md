# Verification of the proxy's shared state

A Dafny model of the three stateful cores of the proxy, with proofs of what they guarantee over whole runs.

**Events, sessions, capacity.** `Capacity` is the byte ledger that two containers share. `EventHub` is the ordered
event hub: a bounded replay log, a batch of capture rows, one bounded queue per subscriber, failure records and
replay copies, with every path on which bytes change their owner. `EventLog` holds the values and the invariants on
values, `HubTheorems` what they mean, `HubRuns` arbitrary runs, `HubWitnesses` inputs that show where a promise fails.
`SessionModel`, `SessionStore` and `SessionQueries` are the session store, its evictions and its paged queries;
`JointRuns` runs both containers on one ledger, with event steps inside the eviction loop. Ghost fields of the hub
record the full published log, the rows pushed, all that every subscription was given, why it ended, and whose failure
record was given up unread.

**Rules and JSON paths.** `RuleModel` says what one message, edit, snapshot or restart does to the engine state;
`RuleEngine` is the engine object, proved to compute it. `RuleMeaning` says what one message and one edit mean in the
fields of rules and messages. `RuleEvaluations` is about one message, `RuleRuns` about runs, `RuleShadowing` about
warnings and validated rules, `RuleValidation` about drafts. `JsonPaths` and
`JsonPathText` are lookup, update, parser and a canonical renderer.

**Breakpoints.** `BreakpointValidation` is the gate for decisions, `Breakpoints` the coordinator between waiting tasks
and racing finishers. Each locked section is one step, so a list of steps is an interleaving of calls.

`Sums`, `Ordering`, `Strings` and `Wrappers` are shared helpers.

Where comments and code differ, the code is modelled. The comment that replay truncation is never silent
(`src-tauri/crates/application/src/events.rs:714-720`)
holds for publication and delivery. `subscribe`, `push_capture` and `reclaim_for_limit` cut the log without a warning;
their contracts say exactly when, and `HubWitnesses.SilentCut` is an input. A subscriber that is cut off is not always
told either: its failure record may be given up for other bytes before anybody asks for it, and then the loop in
`src-tauri/src/commands/mod.rs:69-78` ends the stream without a word (`HubWitnesses.SilentEnd`).
`HubTheorems.EndedHasCause` says exactly who cannot learn its end any more, and `EventHub.EventHub.Publish` what has to
be short before that happens. The flush clock of the capture batch is not the age of the batch: a refused row that
leaves nothing pending leaves it running (`EventHub.EventHub.AgeClaim`, `HubWitnesses.EarlyFlush`).

## Model

| member | source | states |
|---|---|---|
| Capacity.SaturationExactness | src-tauri/crates/application/src/capacity.rs:54-61 | on saturating 64-bit sums the admission test is the exact one for every request iff the limit is below 2^64-1; at 2^64-1 it admits everything |
| Capacity.CapacityLedger.constructor | src-tauri/crates/application/src/capacity.rs:26-34 | a limit of 0 becomes 1; nothing is held |
| Capacity.CapacityLedger.LogicalBytes | src-tauri/crates/application/src/capacity.rs:42-45 | the sum of both shares, which never saturates under the invariant |
| Capacity.CapacityLedger.TrySetSessionBytes | src-tauri/crates/application/src/capacity.rs:54-61 | sets the session share iff it fits beside the events, otherwise changes nothing |
| Capacity.CapacityLedger.TrySetSessionBytesAndLimit | src-tauri/crates/application/src/capacity.rs:67-76 | share and limit change together iff the share fits the new limit |
| Capacity.CapacityLedger.TryReserveEventBytes | src-tauri/crates/application/src/capacity.rs:82-93 | adds event bytes iff both shares and the addition fit the limit |
| Capacity.CapacityLedger.TryReplaceEventBytes | src-tauri/crates/application/src/capacity.rs:101-116 | exchanges event bytes iff the old ones are held and the new total fits |
| Capacity.CapacityLedger.ReleaseEventBytes | src-tauri/crates/application/src/capacity.rs:118-121 | gives event bytes back, never below zero |
| EventHub.EventHub.constructor | src-tauri/crates/application/src/events.rs:223-240 | an empty hub satisfies the invariant; a replay capacity of 0 becomes 1 |
| EventHub.EventHub.ReleaseOldestRetained | src-tauri/crates/application/src/events.rs:842-848 | drops the oldest logged event and exactly its bytes, or reports that there is none |
| EventHub.EventHub.ReleaseOldestFailure | src-tauri/crates/application/src/events.rs:850-856 | the same for the oldest failure record |
| EventHub.EventHub.ReserveHistory | src-tauri/crates/application/src/events.rs:911-931 | history goes oldest first, failure records only after all history, and never one entry more than the reservation needs; failure means nothing reclaimable is left; the log is cut iff it is not empty and the reservation does not fit as things are |
| EventHub.EventHub.ReserveWithReclamation | src-tauri/crates/application/src/events.rs:938-988 | one contract for reserving and exchanging bytes: history first, then the slowest subscriber is cancelled with its control lane armed; failure leaves no history, queues are untouched, bytes other than the exchange stay accounted for; failure records are given up only once all history is, and the replay log is cut iff it was not empty and the exchange did not fit as things were |
| EventHub.EventHub.ReserveKept | src-tauri/crates/application/src/events.rs:911-931 | a reservation from history and records alone; the records that stay still belong to ended subscriptions, those that go are counted as lost; the log is cut iff it is not empty and the reservation does not fit as things are |
| EventHub.EventHub.TerminateSlowest | src-tauri/crates/application/src/events.rs:938-955 | cancels a subscriber with the largest queue, arming its notice with the newest id |
| EventHub.EventHub.Slowest | src-tauri/crates/application/src/events.rs:938-955 | picks one of the largest queues |
| EventHub.EventHub.Terminate | src-tauri/crates/application/src/events.rs:893-903 | arms the control lane of one receiver and ends its live delivery; its queue stays charged |
| EventHub.EventHub.RemoveSubscriber | src-tauri/crates/application/src/events.rs:880-885 | cancels one subscriber and touches nobody else |
| EventHub.EventHub.Retain | src-tauri/crates/application/src/events.rs:648-712 | the newest event is kept iff it fits beside what cannot be reclaimed; the log stays a run ending at it; somebody is cancelled only if it does not fit |
| EventHub.EventHub.AppendLog | src-tauri/crates/application/src/events.rs:648-712 | ids are consecutive; a resource warning about the event, under its epoch and time, follows exactly when this event made the log incomplete; the batch reservation is taken over |
| EventHub.EventHub.AppendNotice | src-tauri/crates/application/src/events.rs:648-712 | the resource warning that the log was cut takes the next id, under the epoch and time of the event before it |
| EventHub.EventHub.LogEvent | src-tauri/crates/application/src/events.rs:648-712 | the event and, on the first overflow, the warning enter the log, with what that may cost |
| EventHub.EventHub.RecordOverflowWarning | src-tauri/crates/application/src/events.rs:714-745 | the resource warning for a log cut during delivery is published once, under the epoch and time of its cause, and keeps the log a run |
| EventHub.EventHub.LogWarning | src-tauri/crates/application/src/events.rs:714-745 | the late warning takes the next id of the published log, which it tells is cut |
| EventHub.EventHub.TrimRetained | src-tauri/crates/application/src/events.rs:648-712 | the count ceiling of the log: the newest entries stay, the overflow flag is set iff something went |
| EventHub.EventHub.Deliver | src-tauri/crates/application/src/events.rs:747-813 | an event enters a queue paid for, or is refused because the queue is full or nothing reclaimable makes room |
| EventHub.EventHub.ReserveCopy | src-tauri/crates/application/src/events.rs:747-813 | one queued copy is paid for from history and records, or nothing reclaimable makes room for it |
| EventHub.EventHub.TrySend | src-tauri/crates/application/src/events.rs:747-813 | behind a reservation the event enters the queue iff it has room; otherwise its bytes are given back |
| EventHub.EventHub.OfferAll | src-tauri/crates/application/src/events.rs:747-813 | least loaded first, every live queue is offered the event once; the refused ones had a full queue before, or there is no room; without a full queue, nobody is refused who was less loaded than somebody served |
| EventHub.EventHub.OfferRound | src-tauri/crates/application/src/events.rs:747-813 | one round of the loop; a queue that takes the event shows that none was refused for room before it |
| EventHub.EventHub.FailDelivery | src-tauri/crates/application/src/events.rs:747-813 | a refusing subscription ends with a stored record of this event id, or, only if nothing reclaimable makes room for one, with an armed notice, never both |
| EventHub.EventHub.FailFirst | src-tauri/crates/application/src/events.rs:747-813 | one of the refusing subscriptions is ended, the others still wait |
| EventHub.EventHub.EndWith | src-tauri/crates/application/src/events.rs:747-813 | stores the record that was paid for, or arms the control lane |
| EventHub.EventHub.TrimEnded | src-tauri/crates/application/src/events.rs:747-813 | trimming the records to their ceiling never takes the one just stored |
| EventHub.EventHub.TrimFailures | src-tauri/crates/application/src/events.rs:747-813 | at most 512 failure records, the oldest go first and are released |
| EventHub.EventHub.DispatchLive | src-tauri/crates/application/src/events.rs:747-813 | every subscription still live has been given the event; whoever was cut had a full queue, or the event does not fit and it was at least as loaded as everybody kept; records are lost only for want of room or beyond 512 |
| EventHub.EventHub.OfferOrEnd | src-tauri/crates/application/src/events.rs:747-813 | the event is offered to every live queue and whoever refused it is ended |
| EventHub.EventHub.Publish | src-tauri/crates/application/src/events.rs:242-280 | exact accounting and every stream invariant kept; the log grows by this event and, exactly on the first overflow, by one resource warning under its epoch and time; nobody is cut without need; whoever is cut has its control lane armed, or its record stored, or that record already given up again; a record is given up only if none of the old log is left and the limit has no room for the call beside what stays without replay history, or beyond 512 records; none is given up if before the call there is room for event, warning, copies and records and for 512 records |
| EventHub.EventHub.PublishLocked | src-tauri/crates/application/src/events.rs:242-280 | the same below the lock, with the costs of logging, delivering and warning stated |
| EventHub.EventHub.PushCapture | src-tauri/crates/application/src/events.rs:282-360 | the row is appended to the pushed rows whatever the path; epoch change, full batch and refusal flush first, so order and epoch survive; without such a change the row is refused iff the JSON array of the batch with it is longer than what is left, and making room for it cuts the replay log, without a warning, iff the log is not empty and the growth of the batch does not fit as things are; a first row starts a batch whose clock tells its age iff no earlier clock was running; nobody is cut without need, and whoever is cut can learn it as with a published event |
| EventHub.EventHub.PushRow | src-tauri/crates/application/src/events.rs:282-360 | the row joins, is refused or fills the batch, by the exact conditions, over the stages of one call |
| EventHub.EventHub.FlushCaptureLocked | src-tauri/crates/application/src/events.rs:610-646 | all pending rows become one event under their own epoch; afterwards the batches are exactly the rows pushed |
| EventHub.EventHub.FlushCapture | src-tauri/crates/application/src/events.rs:380-387 | flushes iff something is pending |
| EventHub.EventHub.FlushDue | src-tauri/crates/application/src/events.rs:362-378 | flushes iff rows are pending and the clock has run for 100 ms; the clock starts with the first row, joined or refused, that finds it stopped, pending rows always have one, and only a flush of pending rows stops it |
| EventHub.EventHub.AgeClaim | src-tauri/crates/application/src/events.rs:301-378 | pending rows have a running clock; whatever is due is at least 100 ms old iff the oldest pending row had joined when the clock started |
| HubWitnesses.EarlyFlush | src-tauri/crates/application/src/events.rs:301-378 | the other case is real: a row refused at 0 starts the clock, and the row that joins at 99 is flushed at 100 |
| HubTheorems.CaptureComplete | src-tauri/crates/application/src/events.rs:282-360 | the batches in id order followed by the pending rows are the rows pushed, each under its epoch; fewer than 200 rows are pending, and every batch event holds 1 to 200 rows |
| HubTheorems.BatchIsPlaced | src-tauri/crates/application/src/events.rs:282-360 | a batch event holds exactly the pushed rows behind those of the batches before it |
| EventHub.EventHub.ReplayAfter | src-tauri/crates/application/src/events.rs:582-608 | a snapshot is demanded exactly when some published event after the cursor is no longer held; otherwise exactly the published events after it |
| EventHub.EventHub.Subscribe | src-tauri/crates/application/src/events.rs:396-497 | replay and live delivery meet at one event: an accepted subscription gets exactly the published events after its cursor; refused for capacity iff neither the copies nor the demand for a snapshot fit; the replay log is cut, without a warning, iff a snapshot is demanded, does not fit as things are and the log is not empty; records are given up only once the log is empty and the demand does not fit beside what stays; error cases change no subscription |
| HubWitnesses.SilentCut | src-tauri/crates/application/src/events.rs:714-720 | an input for which a subscription cuts the log and no warning has been published |
| EventHub.EventHub.Enroll | src-tauri/crates/application/src/events.rs:404-497 | behind the limit on subscribers: the new subscription, or exactly when it is refused, and exactly when the log is cut for the demand |
| EventHub.EventHub.Unsubscribe | src-tauri/crates/application/src/events.rs:503-506 | only this subscription stops, without a notice |
| EventHub.EventHub.Recv | src-tauri/crates/application/src/events.rs:102-129 | queue order for a live receiver; a cancelled one yields its armed notice once, destroying and releasing its queue, and then nothing; nothing given before is taken back |
| EventHub.EventHub.DiscardQueue | src-tauri/crates/application/src/events.rs:135-143 | destroyed events are released one by one, to exactly zero |
| EventHub.EventHub.DropReceiver | src-tauri/crates/application/src/events.rs:146-157 | the handle, its queue bytes and its failure record go; all others stay |
| EventHub.EventHub.Withdraw | src-tauri/crates/application/src/events.rs:146-157 | the subscription stops being live and its records are released |
| EventHub.EventHub.DrainReplay | src-tauri/crates/application/src/events.rs:65-77 | hands out the copies in order up to and including the first refused one, and releases exactly those |
| EventHub.EventHub.DropReplay | src-tauri/crates/application/src/events.rs:80-86 | releases what was not consumed |
| EventHub.EventHub.TakeFailures | src-tauri/crates/application/src/events.rs:509-515 | every stored record is handed out once and becomes the one notice of its subscription |
| EventHub.EventHub.TakeFailure | src-tauri/crates/application/src/events.rs:517-528 | finds the record of one subscription iff there is one |
| EventHub.EventHub.RemoveFailures | src-tauri/crates/application/src/events.rs:858-872 | exactly the records of one subscription go, the others keep their order |
| EventHub.EventHub.ReclaimForLimit | src-tauri/crates/application/src/events.rs:543-559 | succeeds iff the ledger is within the target at the end; history before records before subscribers; the log is cut, without a warning, iff it is not empty and the ledger is above the target; a cut subscriber means failure, because cancelling frees nothing, and gets no notice; exactly the records given up unread are lost |
| EventHub.EventHub.Drop | src-tauri/crates/application/src/events.rs:1004-1017 | only the bytes of outstanding handles stay charged; whoever was live ends without a notice; exactly the unread records are lost |
| HubTheorems.SubscriptionStream | src-tauri/crates/application/src/events.rs:101-143 | in every reachable state: replay then received events are consecutive ids from cursor+1, without a demand for a snapshot that no caller published, at most one notice, not older than anything delivered; stored record, armed notice and delivered notice exclude each other |
| HubTheorems.DemandsAreCallers | src-tauri/crates/application/src/events.rs:610-745 | neither batches nor the overflow transition publish a demand for a snapshot |
| HubTheorems.OverflowIsAnnounced | src-tauri/crates/application/src/events.rs:690-745 | in every reachable state: what the overflow transition published is a resource warning right behind its cause, under the same epoch and time, about no entity |
| HubTheorems.EndedHasCause | src-tauri/crates/application/src/events.rs:543-903 | an accepted subscription is live or has a cause for its end; with its handle alive it can still learn the end, by a notice handed out, the armed lane or a stored record of that id, iff the hub gave it up and its record is not lost; if somebody asked for the end, there is no notice |
| HubWitnesses.SilentEnd | src-tauri/crates/application/src/events.rs:785-809 | that loss is real: with a limit of 50, events of 10 and records of 18 bytes, one of two subscribers with full queues is cut off at the second event, and neither its receiver nor its failure record ever tells it |
| HubTheorems.LiveHasNoGap | src-tauri/crates/application/src/events.rs:396-497 | delivered and queued events of a live subscription reach to the newest published event |
| HubTheorems.AllReleased | src-tauri/crates/application/src/events.rs:1004-1017 | once hub, receivers and replays are gone the ledger carries no event bytes |
| HubRuns.RunHub | src-tauri/crates/application/src/events.rs:200-872 | the invariant holds over every run of all hub and handle calls; nothing published, pushed or delivered is ever undone; after its notice, and after its end, a subscription receives no further event; whoever stopped being live, and whoever lost its record, owes it to a step that may have that effect |
| HubRuns.HubStable | src-tauri/crates/application/src/capacity.rs:54-76 | moving the session share or the limit leaves the invariant of the hub intact |
| SessionStore.InMemorySessionStore.constructor | src-tauri/crates/application/src/sessions.rs:65-73 | an empty store; a count limit of 0 becomes 1 |
| SessionStore.InMemorySessionStore.EvictionPlan | src-tauri/crates/application/src/sessions.rs:310-347 | a prefix of the candidates that fits both limits; with event steps before any probe, every shorter prefix failed with the event bytes its own probe found, which move only where event steps ran; failure means that not even evicting all candidates fits what the last probe found |
| SessionStore.ShortestAlone | src-tauri/crates/application/src/sessions.rs:310-347 | without event steps in between that is the shortest prefix that fits the event bytes of the call |
| SessionStore.InMemorySessionStore.SortedCandidates | src-tauri/crates/application/src/sessions.rs:302-347 | lists exactly the evictable records other than the shielded one; every prefix of the list is the oldest part of them by completion, ties by id |
| SessionModel.CandidatesUnique | src-tauri/crates/application/src/sessions.rs:302-308 | that list is determined by the records, not by map iteration |
| SessionModel.EvictionTotals | src-tauri/crates/application/src/sessions.rs:310-355 | evicting a prefix removes that many records and exactly their bytes |
| SessionModel.FitsMore | src-tauri/crates/application/src/sessions.rs:310-347 | evicting more candidates never makes a fitting plan unfit |
| SessionModel.PrefixIsOldest | src-tauri/crates/application/src/sessions.rs:302-323 | a prefix of the candidates: completed, unshielded, no pending breakpoint, and older than all such records behind it |
| SessionStore.InMemorySessionStore.ApplyEvictions | src-tauri/crates/application/src/sessions.rs:349-355 | exactly the planned records go, and the byte counter follows |
| SessionStore.InMemorySessionStore.Upsert | src-tauri/crates/application/src/sessions.rs:121-150 | succeeds iff evicting every candidate would fit the event bytes of the last probe, with the first prefix that fits at its own probe, never the record itself; on failure records, counter and ledger share are as before; whoever is evicted was completed, without a pending breakpoint, and before every such record that stays, ties by id |
| SessionStore.InMemorySessionStore.SetLimits | src-tauri/crates/application/src/sessions.rs:79-92 | both limits and the evictions change together or not at all; the first prefix that fits at its own probe; fails iff evicting all candidates does not fit at the last; the oldest completed records go first |
| SessionStore.InMemorySessionStore.ClearCompleted | src-tauri/crates/application/src/sessions.rs:248-265 | exactly the completed records without a pending breakpoint go; giving the bytes back is always admitted, whatever events do meanwhile |
| SessionStore.InMemorySessionStore.Drop | src-tauri/crates/application/src/sessions.rs:113-118 | the release of the whole share is always admitted |
| JointRuns.JointSafety | src-tauri/crates/application/src/capacity.rs:54-121 | ledger shares are exactly the record bytes and the bytes the hub holds, together within the limit |
| JointRuns.Run | src-tauri/crates/application/src/sessions.rs:79-150 | joint safety over every run of both containers, with event steps between the admission probes of a store call |
| SessionQueries.PagingIsPartition | src-tauri/crates/application/src/sessions.rs:164-246 | the items of pages 1 to the page count, as queried one by one, list every matching session exactly once, sorted, iff the page count fits 32 bits; total and page count are the same on every page, the page count is the ceiling |
| SessionQueries.PageSlices | src-tauri/crates/application/src/sessions.rs:164-246 | the items of a page are its slice of the sorted matching sessions |
| SessionQueries.ListingExactly | src-tauri/crates/application/src/sessions.rs:164-211 | the listing is exactly the sessions that pass every filter that is set, each once, by the value of the sort field and direction, ties by id |
| SessionQueries.PrecedesExactly | src-tauri/crates/application/src/sessions.rs:357-369 | the comparison in the fields of the sessions; texts by first difference, a missing duration first |
| SessionQueries.MatchesExactly | src-tauri/crates/application/src/sessions.rs:170-209 | each filter in the fields of the session: trimmed and lower-case texts within id, target, address or result, equal channel, rule, and time range |
| SessionQueries.PageExactly | src-tauri/crates/application/src/sessions.rs:164-231 | a page holds at most its size of entries, each its own part of the listing, and fewer only at the end; page numbers start at 1, sizes are clamped to 1..200 |
| SessionQueries.QueryIgnoresMapOrder | src-tauri/crates/application/src/sessions.rs:164-246 | the result does not depend on the iteration order of the map |
| SessionQueries.DescendingIsReverse | src-tauri/crates/application/src/sessions.rs:357-369 | descending is the exact reverse of ascending, ties included |
| SessionQueries.OrderIsTotal | src-tauri/crates/application/src/sessions.rs:357-369 | the comparison is total and transitive for every field and direction |
| RuleEngine.RuleEngine.constructor | src-tauri/crates/domain/src/rule.rs:366-372 | a new engine counts nothing |
| RuleEngine.RuleEngine.Restart | src-tauri/crates/domain/src/rule.rs:379-388 | all counters and hit data start over, rules are otherwise unchanged |
| RuleMeaning.RestartedExactly | src-tauri/crates/domain/src/rule.rs:379-388 | counters and hit data are gone, all other fields stay |
| RuleEngine.RuleEngine.ReconcileWith | src-tauri/crates/domain/src/rule.rs:394-414 | counters stay exactly for rules present in both lists with equal conditions that were not just enabled |
| RuleMeaning.ReconciledExactly | src-tauri/crates/domain/src/rule.rs:394-414 | the rules are those of the snapshot; a counter stays iff its rule is in both lists with the same conditions and was not just enabled |
| RuleEngine.RuleEngine.SaveRule | src-tauri/crates/domain/src/rule.rs:416-437 | refused for an invalid draft, a missing rule or a missing or stale revision, then nothing changes; otherwise exactly the one rule has the fields of the draft under its next revision, and its hits start over iff the conditions changed or it was switched on |
| RuleMeaning.SavedExactly | src-tauri/crates/domain/src/rule.rs:416-437 | when a save is refused, and field by field what it changes otherwise |
| RuleEngine.RuleEngine.ToggleRule | src-tauri/crates/domain/src/rule.rs:439-459 | refused for a missing rule or stale revision; otherwise exactly the one rule is switched under its next revision, and switching on starts its hits over |
| RuleMeaning.ToggledExactly | src-tauri/crates/domain/src/rule.rs:439-459 | the same for switching a rule |
| RuleEngine.RuleEngine.ResetRuleHits | src-tauri/crates/domain/src/rule.rs:566-572 | only the counters and hit data of this rule go |
| RuleEngine.RuleEngine.Evaluate | src-tauri/crates/domain/src/rule.rs:461-535 | the loop over a sorted snapshot computes the evaluation and next state of the specification, whose meaning in the fields of rules and message is that of the RuleMeaning lemmas |
| RuleMeaning.ReachedExactly | src-tauri/crates/domain/src/rule.rs:461-519 | a rule is traced iff it is enabled, made for stage and channel, and no matched rule ahead of it runs a terminal action |
| RuleMeaning.MatchedExactly | src-tauri/crates/domain/src/rule.rs:574-609 | a rule is reported as matched iff it was reached, every field condition holds in the fields of the message, and every n is the count its counter has just become |
| RuleMeaning.VerdictExactly | src-tauri/crates/domain/src/rule.rs:574-584 | a trace shows the fault of the first field condition that does not hold: no JSON body, bad path, path leading nowhere, bad pattern |
| RuleMeaning.ConditionMeaning | src-tauri/crates/domain/src/rule.rs:961-997 | a condition holds iff the terminal address, certificate, target or the value at the JSON path equals, contains or matches what its operator says; when it cannot be decided, and why |
| RuleMeaning.ScanVerdict | src-tauri/crates/domain/src/rule.rs:473-519 | the verdict of a trace in one scan |
| RuleMeaning.ScanReaches | src-tauri/crates/domain/src/rule.rs:473-519 | the same claim about who is reached for one scan |
| RuleMeaning.FieldsMeaning | src-tauri/crates/domain/src/rule.rs:574-586 | all field conditions must hold; the first that does not decides |
| RuleMeaning.ActionsExactly | src-tauri/crates/domain/src/rule.rs:473-519 | traces are in the order of priority, age and id; a matched rule runs its actions through the first terminal one, others none; composed actions are theirs in order, the terminal action is the last |
| RuleMeaning.HitsExactly | src-tauri/crates/domain/src/rule.rs:522-533 | a matched rule is hit once more, now, and a matched one-shot rule switched off under its next revision; no other field of any rule changes |
| RuleEngine.RuleEngine.ScanSnapshot | src-tauri/crates/domain/src/rule.rs:473-520 | the scan with its early exits equals the recursive specification |
| RuleEngine.RuleEngine.MatchesRule | src-tauri/crates/domain/src/rule.rs:574-609 | field conditions first; only a request that passes them advances the counter; a fault is that of the first field condition that does not hold, a match needs all of them |
| RuleEngine.RuleEngine.RecordHits | src-tauri/crates/domain/src/rule.rs:522-533 | one by one equals all at once, since a rule is hit at most once by a message |
| RuleEngine.HitsDistinct | src-tauri/crates/domain/src/rule.rs:473-533 | no message hits a rule twice |
| RuleEngine.RuleEngine.ConflictWarnings | src-tauri/crates/domain/src/rule.rs:537-564 | a pair is reported, once, iff both rules are enabled, the first is ahead by priority, age and id, runs a terminal action, asks for nothing more, and applies to every message the second applies to |
| RuleShadowing.CoversExactly | src-tauri/crates/domain/src/rule.rs:547-552 | comparing stage and channel decides exactly whether one rule applies wherever the other does |
| RuleShadowing.WarnedExactly | src-tauri/crates/domain/src/rule.rs:537-564 | the pairs the check reports are exactly those |
| RuleRuns.RunSound | src-tauri/crates/domain/src/rule.rs:364-609 | in every run rules stay distinct and counters belong to existing rules |
| RuleRuns.ReconcileIdentity | src-tauri/crates/domain/src/rule.rs:394-414 | reconciling with the loaded rules changes nothing |
| RuleRuns.EditsAgree | src-tauri/crates/domain/src/rule.rs:394-459 | a save or toggle leaves exactly the counters a reconcile with the edited list leaves |
| RuleRuns.NonInterference | src-tauri/crates/domain/src/rule.rs:461-609 | without one-shot rules, and as long as no message of another terminal restarts the engine, the evaluations of a terminal over any run of messages, edits, snapshots and restarts equal those of the run without the messages of all others |
| RuleRuns.NonInterferenceInEpoch | src-tauri/crates/domain/src/rule.rs:461-609 | for messages of one epoch alone the same holds from any state |
| RuleEvaluations.ScanLocal | src-tauri/crates/domain/src/rule.rs:574-609 | an evaluation reads and writes only the counters of its own terminal |
| RuleEvaluations.ScanUnhit | src-tauri/crates/domain/src/rule.rs:461-535 | hit counts and times never influence an evaluation |
| RuleEvaluations.StorageOrderIrrelevant | src-tauri/crates/domain/src/rule.rs:461-535 | permuting the rule list changes neither evaluation nor counters, and the rules afterwards only up to order |
| RuleEvaluations.ScanCounts | src-tauri/crates/domain/src/rule.rs:574-609 | a counter advances by one iff its rule was reached with all field conditions satisfied; no other moves |
| RuleRuns.CounterMeaning | src-tauri/crates/domain/src/rule.rs:379-609 | over every run a counter equals the number of times its rule and terminal were reached since the last reset |
| RuleRuns.MatchMeaning | src-tauri/crates/domain/src/rule.rs:574-609 | a rule is reported as matched iff it was reached, its field conditions hold and its counter has just become each of its n; then it was enabled for this channel and stage (in the fields of the message: RuleMeaning.MatchedExactly) |
| RuleRuns.TwoCountsNeverMatch | src-tauri/crates/domain/src/rule.rs:587-608 | a rule with two different n never matches |
| RuleRuns.NthHitOncePerPeriod | src-tauri/crates/domain/src/rule.rs:574-609 | between two matches of an NthHit rule for one terminal lies a reset |
| RuleRuns.OneShotSwitchesOff | src-tauri/crates/domain/src/rule.rs:522-533 | a matched one-shot rule is disabled afterwards |
| RuleRuns.OneShotOnce | src-tauri/crates/domain/src/rule.rs:522-533 | between two matches of a one-shot rule an edit or snapshot has enabled it again |
| RuleEvaluations.ScanShape | src-tauri/crates/domain/src/rule.rs:473-520 | the same for one scan of sorted rules |
| RuleShadowing.EvaluationShape | src-tauri/crates/domain/src/rule.rs:461-535 | traces are a prefix of the applicable rules in (priority, created order, id) order; a terminal action is the only one, ends its rule and the scan, whose last trace is that rule, and is the only reason to stop early |
| RuleShadowing.ValidatedEvaluation | src-tauri/crates/domain/src/rule.rs:612-705 | over validated rules a matched rule runs all its actions and every composed action fits the stage |
| RuleShadowing.RunFitsStage | src-tauri/crates/domain/src/rule.rs:416-535 | validated rules stay validated over every run, so no message ever gets an action of another stage |
| RuleShadowing.WarningSound | src-tauri/crates/domain/src/rule.rs:537-564 | a warning about a higher rule without NthHit is a promise: the lower rule never matches |
| RuleShadowing.WarningExact | src-tauri/crates/domain/src/rule.rs:537-609 | for a message satisfying the lower rule, some run from a fresh engine with the two rules defeats the warning iff the higher rule counts and the lower one can match at all |
| RuleShadowing.PassingDefeats | src-tauri/crates/domain/src/rule.rs:394-609 | such a run: as many messages as the rules ask for, and one more |
| RuleShadowing.DefeatNeeds | src-tauri/crates/domain/src/rule.rs:537-609 | no run defeats any other warning |
| RuleShadowing.CountingWarningIsOnlyPossible | src-tauri/crates/domain/src/rule.rs:537-609 | a concrete run in which a warned-about rule matches on the second message |
| RuleValidation.ValidateRuleDraft | src-tauri/crates/domain/src/rule.rs:612-685 | reports exactly the problems of a draft with their places, none iff the draft is acceptable |
| RuleValidation.DraftProblems | src-tauri/crates/domain/src/rule.rs:612-915 | the acceptable drafts are those without any problem |
| RuleValidation.AcceptedExactly | src-tauri/crates/domain/src/rule.rs:612-918 | the drafts without a problem, in their fields: the actions each stage takes, all ranges as numbers, header names and values, managed headers, paths, patterns, delays, terminal action last |
| RuleValidation.ValidateActions | src-tauri/crates/domain/src/rule.rs:687-818 | terminal placement and every action problem, no more |
| RuleValidation.CheckParameters | src-tauri/crates/domain/src/rule.rs:704-818 | each range violation is reported for its action |
| RuleValidation.CheckContent | src-tauri/crates/domain/src/rule.rs:820-843 | bad paths and headers are reported for their action |
| RuleValidation.CheckHeader | src-tauri/crates/domain/src/rule.rs:845-915 | name, value and managed-header violations |
| RuleValidation.PositionsMeaning | src-tauri/crates/domain/src/rule.rs:687-702 | the position test means that no action but the last is terminal |
| JsonPaths.Resolve | src-tauri/crates/domain/src/json_path.rs:55-65 | the descent by segments and indexes equals lookup along steps |
| JsonPaths.JsonDocument.Set | src-tauri/crates/domain/src/json_path.rs:67-100 | the moving cursor computes the functional update; a failed write leaves the document unchanged |
| JsonPaths.JsonDocument.SetBelow | src-tauri/crates/domain/src/json_path.rs:67-100 | the indexes of one segment: the write is done as specified, or the cursor stands behind them |
| JsonPaths.JsonDocument.Write | src-tauri/crates/domain/src/json_path.rs:67-100 | the last step overwrites a field, or an element that exists |
| JsonPaths.SetThenGet | src-tauri/crates/domain/src/json_path.rs:55-100 | after a successful write the path resolves to the value |
| JsonPaths.GetThenSet | src-tauri/crates/domain/src/json_path.rs:55-100 | writing back what a path resolves to succeeds and changes nothing |
| JsonPaths.SetThenSet | src-tauri/crates/domain/src/json_path.rs:67-100 | the second of two writes wins |
| JsonPaths.SetElsewhere | src-tauri/crates/domain/src/json_path.rs:55-100 | a path that diverges at any step resolves as before |
| JsonPaths.SetThenGetBelow | src-tauri/crates/domain/src/json_path.rs:55-100 | paths below the target resolve inside the written value |
| JsonPaths.SetSucceeds | src-tauri/crates/domain/src/json_path.rs:67-100 | a write succeeds iff the parent resolves and has room for the last step |
| JsonPathText.ReadSegment | src-tauri/crates/domain/src/json_path.rs:103-141 | the loop over the remaining text equals the recursive parser |
| JsonPathText.RoundTrip | src-tauri/crates/domain/src/json_path.rs:42-53 | every well-formed path parses back from its canonical text |
| JsonPathText.AcceptedTextRoundTrip | src-tauri/crates/domain/src/json_path.rs:42-53 | every accepted text denotes a well-formed path whose canonical text denotes the same path |
| BreakpointValidation.ValidateStructure | src-tauri/crates/application/src/breakpoint_validation.rs:185-265 | reports exactly the fields that are not in order, none iff the decision is acceptable |
| BreakpointValidation.GateExactly | src-tauri/crates/application/src/breakpoint_validation.rs:185-265 | what the gate lets through, in the fields of the decision: the kinds each stage takes and the values of each kind as ranges |
| BreakpointValidation.OfferedMeansDecidable | src-tauri/crates/application/src/breakpoints.rs:282-325 | a kind can be decided iff it was offered and truncation has something to truncate; then its presets pass |
| Breakpoints.BreakpointCoordinator.constructor | src-tauri/crates/application/src/breakpoints.rs:33-44 | an empty coordinator |
| Breakpoints.BreakpointCoordinator.NotFoundOrTerminal | src-tauri/crates/application/src/breakpoints.rs:247-264 | the error for a non-pending id is its cause in the recent history, or not found |
| Breakpoints.BreakpointCoordinator.RememberTerminal | src-tauri/crates/application/src/breakpoints.rs:237-245 | table and queue become exactly the most recent 4096 endings |
| Breakpoints.BreakpointCoordinator.Register | src-tauri/crates/application/src/breakpoints.rs:55-84 | refused unless pending and unknown to pending and recent endings; otherwise one new waiting ticket that can be resolved by the kinds its stage takes and is as given otherwise |
| Breakpoints.BreakpointCoordinator.Get | src-tauri/crates/application/src/breakpoints.rs:104-122 | found only while pending and in its epoch |
| Breakpoints.BreakpointCoordinator.Resolve | src-tauri/crates/application/src/breakpoints.rs:124-183 | Ok iff the decision was delivered to the task; every refusal leaves the breakpoint pending; a task that is gone ends it; invalid means not one of the kinds its stage takes, or a value of that kind missing or out of range |
| Breakpoints.BreakpointCoordinator.Terminate | src-tauri/crates/application/src/breakpoints.rs:204-234 | ends a pending breakpoint once, telling the task if it listens |
| Breakpoints.BreakpointCoordinator.ClientDisconnected | src-tauri/crates/application/src/breakpoints.rs:185-187 | the same for a lost client |
| Breakpoints.BreakpointCoordinator.PendingOf | src-tauri/crates/application/src/breakpoints.rs:189-198 | collects exactly the pending ids of the epoch |
| Breakpoints.BreakpointCoordinator.ProxyStopped | src-tauri/crates/application/src/breakpoints.rs:189-202 | under any interference every breakpoint of the epoch pending at the start has ended; what the call ends is of that epoch unless the id was reused after more than 4096 endings |
| Breakpoints.ReusedIdIsStopped | src-tauri/crates/application/src/breakpoints.rs:189-202 | that exception is real: a breakpoint of another epoch under a reused id is stopped |
| Breakpoints.BreakpointCoordinator.Run | src-tauri/crates/application/src/breakpoints.rs:52-235 | over every interleaving the invariant holds and no ticket is told a second thing |
| Breakpoints.ExactlyOnce | src-tauri/crates/application/src/breakpoints.rs:124-234 | what a ticket was told is final and agrees with its one ending, a delivered decision passed the gate, an untold listening task is still pending |
| Breakpoints.RegistrationsBalance | src-tauri/crates/application/src/breakpoints.rs:55-234 | registrations are endings plus pending breakpoints |
| Breakpoints.SameOrReused | src-tauri/crates/application/src/breakpoints.rs:55-84 | an id pending again has a new ticket only after its old tombstone expired |
| Breakpoints.TombstonesAnswer | src-tauri/crates/application/src/breakpoints.rs:237-264 | the tombstone table answers like the history |
| Breakpoints.LateAnswers | src-tauri/crates/application/src/breakpoints.rs:247-264 | a late operation learns the cause iff the ending is among the last 4096 |
| EventHub.EventHub.TryAdmit | src-tauri/crates/application/src/events.rs:911-988 | one reservation or exchange of bytes, admitted iff it fits |
| EventHub.EventHub.ReclaimRetained | src-tauri/crates/application/src/events.rs:911-931 | history goes until the exchange fits, and not one event further |
| EventHub.EventHub.ReclaimFailures | src-tauri/crates/application/src/events.rs:911-931 | the same for failure records once no history is left |
| EventHub.EventHub.ReserveOptional | src-tauri/crates/application/src/events.rs:911-931 | a reservation that cancels nobody; the log stays a run, cut iff it is not empty and the reservation does not fit as things are |
| EventHub.EventHub.Admit | src-tauri/crates/application/src/events.rs:648-712 | reserving for the newest event succeeds iff it fits beside what cannot be reclaimed; with room as things are nothing is given up |
| EventHub.EventHub.AppendOne | src-tauri/crates/application/src/events.rs:648-712 | numbering, logging and retaining one event |
| EventHub.EventHub.PushRetained | src-tauri/crates/application/src/events.rs:648-712 | appending extends the run and charges the event |
| EventHub.EventHub.KeepWarning | src-tauri/crates/application/src/events.rs:721-745 | the warning is kept if paid for; the log stays a run within its ceiling |
| EventHub.EventHub.LeastLoaded | src-tauri/crates/application/src/events.rs:747-813 | a queue with the fewest queued bytes comes next |
| EventHub.EventHub.OfferOne | src-tauri/crates/application/src/events.rs:747-813 | one offer moves exactly one queue by one event or refuses with a reason |
| EventHub.EventHub.OfferNext | src-tauri/crates/application/src/events.rs:747-813 | queues not yet offered are untouched; with room for all remaining copies nothing is given up and only full queues refuse |
| EventHub.EventHub.Enqueue | src-tauri/crates/application/src/events.rs:747-813 | a queue with room takes the next event of the log |
| EventHub.EventHub.StoreFailure | src-tauri/crates/application/src/events.rs:747-813 | a record is stored for a subscription exactly as it stops being live |
| EventHub.EventHub.StoreOrArm | src-tauri/crates/application/src/events.rs:747-813 | the notice is armed only if nothing reclaimable makes room for a record |
| EventHub.EventHub.FailAll | src-tauri/crates/application/src/events.rs:747-813 | exactly the refusing subscriptions stop being live |
| EventHub.EventHub.DeliverLogged | src-tauri/crates/application/src/events.rs:242-280 | event first, then the warning logged before or during its delivery; whoever is cut had too little room in the queue or some event does not fit |
| EventHub.EventHub.LogAndDeliver | src-tauri/crates/application/src/events.rs:242-280 | logging and delivering one event, cuts forced, costs added up |
| EventHub.EventHub.DeliverWarning | src-tauri/crates/application/src/events.rs:242-280 | the warning is delivered iff one is due |
| EventHub.EventHub.Broadcast | src-tauri/crates/application/src/events.rs:242-280 | logging and delivering one event: cuts are forced, and with room everywhere nothing is lost at all |
| EventHub.EventHub.PrepareBatch | src-tauri/crates/application/src/events.rs:282-304 | rows of another epoch are flushed before a row joins, others stay; the clock is started if it does not run |
| EventHub.EventHub.AdmitRow | src-tauri/crates/application/src/events.rs:298-305 | the row joins iff the JSON array of the batch with it fits beside what cannot be reclaimed; refused, the batch is as before; only a refusal cuts anybody; the log is cut iff it is not empty and the growth does not fit as things are |
| EventHub.EventHub.RefusedText | src-tauri/crates/application/src/events.rs:830-836 | refusal is about the length of the JSON array of the batch with the row |
| EventHub.EventHub.ReserveForBatch | src-tauri/crates/application/src/events.rs:298-302 | the reservation succeeds iff it fits beside what the history does not own, and keeps log, subscriptions and accounting in order |
| EventHub.EventHub.PushDirect | src-tauri/crates/application/src/events.rs:306-348 | pending rows go out first, then the refused row as an event of its own |
| EventHub.EventHub.PlaceRow | src-tauri/crates/application/src/events.rs:298-360 | a row that meets its own epoch joins iff the batch fits with it; refused or filling the batch, it goes out at once |
| EventHub.EventHub.CloseBatch | src-tauri/crates/application/src/events.rs:350-359 | a batch is flushed iff it is full with the row |
| EventHub.EventHub.BroadcastRow | src-tauri/crates/application/src/events.rs:317-348 | one row becomes one event under its epoch; cuts are forced |
| EventHub.EventHub.FlushRows | src-tauri/crates/application/src/events.rs:610-646 | the event takes over the reservation of the batch |
| EventLog.TrimsOn | src-tauri/crates/application/src/events.rs:282-360 | the cuts of two stages of one call are forced for all it published: a queue that took the first events and not the later ones had no room for all |
| EventLog.LostDiscards | src-tauri/crates/application/src/events.rs:850-856 | after the oldest records are given up, every record not yet handed out is either stored or counted as lost |
| EventLog.SpentOn | src-tauri/crates/application/src/events.rs:911-988 | the needs of two stages of one call add up: a record is lost in them only if there is no room for both needs together, or beyond the ceiling |
| EventHub.EventHub.TakeBatch | src-tauri/crates/application/src/events.rs:610-646 | the pending rows leave the batch with their reservation |
| EventLog.PendingBytesText | src-tauri/crates/application/src/events.rs:830-836 | for every text rendering of the rows the batch is charged with exactly the length of their JSON array, brackets and commas included, and with nothing when it is empty |
| EventHub.EventHub.Expired | src-tauri/crates/application/src/events.rs:582-591 | the cursor test means that an event after it is no longer held |
| EventLog.AfterRun | src-tauri/crates/application/src/events.rs:582-608 | filtering the log by cursor gives exactly the published events after it |
| EventLog.RunMisses | src-tauri/crates/application/src/events.rs:582-591 | an event after the cursor is missing iff the cursor lies before the run |
| EventHub.EventHub.ReserveReplay | src-tauri/crates/application/src/events.rs:396-455 | copies are granted iff the cursor is held and they fit as things are; otherwise one demand for a snapshot, or nothing iff even that does not fit |
| EventHub.EventHub.ReserveSnapshot | src-tauri/crates/application/src/events.rs:817-828 | the demand for a snapshot is paid for iff it fits beside what cannot be reclaimed; the log is cut for it iff it is not empty and the demand does not fit as things are |
| EventHub.EventHub.Register | src-tauri/crates/application/src/events.rs:440-497 | a new id, a fresh receiver with its bound clamped to 1..512, and the charged replay |
| EventHub.EventHub.QueueBound | src-tauri/crates/application/src/events.rs:440-460 | the queue bound lies in 1..512 and follows the request within it |
| EventHub.EventHub.Cancel | src-tauri/crates/application/src/events.rs:503-506 | ends live delivery to one subscription |
| EventHub.EventHub.TakeHead | src-tauri/crates/application/src/events.rs:102-129 | the oldest queued event moves to the received ones and is released |
| EventHub.EventHub.DeliverNotice | src-tauri/crates/application/src/events.rs:102-129 | the armed notice is handed out once, the queue destroyed |
| EventHub.EventHub.Disarm | src-tauri/crates/application/src/events.rs:102-129 | the flag of the control lane is taken, no byte moves |
| EventHub.EventHub.DiscardHead | src-tauri/crates/application/src/events.rs:135-143 | one destroyed event, one release |
| EventHub.EventHub.ReleaseResidual | src-tauri/crates/application/src/events.rs:135-143 | what the byte counter still says is released with it |
| EventHub.EventHub.Forget | src-tauri/crates/application/src/events.rs:146-157 | the handle and its bytes go |
| EventHub.EventHub.ConsumeOne | src-tauri/crates/application/src/events.rs:65-77 | one copy consumed, its bytes released |
| EventHub.EventHub.TakeCopy | src-tauri/crates/application/src/events.rs:65-77 | the first copy leaves the handle, which owes exactly its bytes less |
| EventHub.EventHub.TakeAt | src-tauri/crates/application/src/events.rs:517-528 | taking a record makes it the notice of its subscription |
| EventHub.EventHub.SplitFailures | src-tauri/crates/application/src/events.rs:858-872 | one pass keeps the other records in order and releases the rest |
| EventHub.EventHub.ReclaimHistory | src-tauri/crates/application/src/events.rs:543-552 | history, then records, never more than the target asked for |
| EventHub.EventHub.GiveUpRetained | src-tauri/crates/application/src/events.rs:543-549 | events go only while the target is missed |
| EventHub.EventHub.GiveUpFailures | src-tauri/crates/application/src/events.rs:550-552 | records go only after all events and only while the target is missed |
| EventHub.EventHub.ReleaseAll | src-tauri/crates/application/src/events.rs:1004-1017 | everything the hub owns is released |
| EventHub.EventHub.ReleaseStores | src-tauri/crates/application/src/events.rs:1004-1017 | log, records and batch go, the bytes of the handles stay |
| HubRuns.DoHub | src-tauri/crates/application/src/events.rs:242-560 | each hub call keeps the invariant, undoes nothing, and ends subscriptions and loses records only as it may |
| HubRuns.DoPublish | src-tauri/crates/application/src/events.rs:242-390 | publication in all its forms ends a subscription only with a notice armed or a record stored, which is still there or is counted as lost |
| HubRuns.DoSubscribe | src-tauri/crates/application/src/events.rs:396-560 | unsubscribing ends one subscription, the limit and the shutdown end others, all without a notice |
| HubRuns.DoDrop | src-tauri/crates/application/src/events.rs:1004-1017 | the shutdown ends everybody without a notice |
| HubRuns.DoReclaim | src-tauri/crates/application/src/events.rs:543-559 | the limit ends subscriptions without a notice |
| HubRuns.DoUnsubscribe | src-tauri/crates/application/src/events.rs:503-506 | unsubscribing ends only its own subscription and loses no record |
| HubRuns.DoEnroll | src-tauri/crates/application/src/events.rs:396-497 | subscribing ends nobody; a record is lost only to make room |
| HubRuns.DoHandle | src-tauri/crates/application/src/events.rs:65-157 | each handle call keeps the invariant and undoes nothing, before and after the hub is dropped; only dropping a receiver ends a subscription or loses a record, its own |
| SessionStore.InMemorySessionStore.Admit | src-tauri/crates/application/src/sessions.rs:79-92 | one probe of the ledger, with or without a new limit |
| SessionStore.InMemorySessionStore.Evict | src-tauri/crates/application/src/sessions.rs:349-355 | carrying out an admitted plan reestablishes exact bytes and the count bound |
| SessionStore.InMemorySessionStore.Replace | src-tauri/crates/application/src/sessions.rs:126-134 | the record goes in, the one it replaces comes out |
| SessionStore.InMemorySessionStore.Restore | src-tauri/crates/application/src/sessions.rs:137-145 | undoes the replacement exactly |
| SessionStore.InMemorySessionStore.SumRecords | src-tauri/crates/application/src/sessions.rs:255-262 | the sum of the remaining record sizes |
| SessionStore.InMemorySessionStore.ShrinkShare | src-tauri/crates/application/src/sessions.rs:113-118 | giving a part of the session share back is always admitted, whatever the events do meanwhile |
| JointRuns.FromStart | src-tauri/crates/application/src/sessions.rs:56-73 | every state a fresh ledger, hub and store can reach satisfies the joint invariant |
| Breakpoints.FromStart | src-tauri/crates/application/src/breakpoints.rs:52-235 | every state a fresh coordinator can reach satisfies the invariant |
| JointRuns.Do | src-tauri/crates/application/src/sessions.rs:79-150 | one call of either container, with event steps during a call of the store |
| RuleEngine.RuleEngine.RunActions | src-tauri/crates/domain/src/rule.rs:484-496 | the actions up to and including the first terminal one |
| RuleEngine.RuleEngine.WarnBehind | src-tauri/crates/domain/src/rule.rs:542-561 | one rule warns about exactly the later rules it covers: a terminal action, conditions among theirs, and applicable wherever they are |
| RuleRuns.EvaluateSound | src-tauri/crates/domain/src/rule.rs:461-535 | a message keeps rules distinct and counters attached |
| RuleRuns.StepCounts | src-tauri/crates/domain/src/rule.rs:379-609 | how any operation moves any counter |
| RuleEvaluations.ScanMatched | src-tauri/crates/domain/src/rule.rs:574-609 | what a trace reported as matched says about conditions and counter |
| RuleEvaluations.ScanMatches | src-tauri/crates/domain/src/rule.rs:574-609 | conversely, a traced rule with satisfied fields and fitting counter is matched |
| RuleEvaluations.ScanHits | src-tauri/crates/domain/src/rule.rs:473-533 | the rules marked as hit are the matched ones |
| RuleShadowing.ScanShadow | src-tauri/crates/domain/src/rule.rs:461-564 | behind an uncounted shadowing rule the shadowed one is never matched |
| RuleShadowing.LetThrough | src-tauri/crates/domain/src/rule.rs:537-609 | a counter that has passed its n lets the lower rule through |
| RuleShadowing.ApplyAllOk | src-tauri/crates/domain/src/rule.rs:379-459 | every operation keeps validated rules validated |
| RuleValidation.CheckAction | src-tauri/crates/domain/src/rule.rs:704-818 | stage, parameter and content problems of one action |
| RuleValidation.CheckConditions | src-tauri/crates/domain/src/rule.rs:621-645 | path, pattern and count problems of every condition |
| JsonPaths.Advance | src-tauri/crates/domain/src/json_path.rs:67-100 | what one move of the cursor means for lookup and update of the whole path |
| JsonPaths.AssignBelow | src-tauri/crates/domain/src/json_path.rs:67-100 | updating below the cursor is updating there and writing the node back |
| JsonPathText.RootErrors | src-tauri/crates/domain/src/json_path.rs:42-50 | a text without the root is refused for it, and the root alone for having nothing behind it |
| HubTheorems.GivenDemands | src-tauri/crates/application/src/events.rs:610-745 | among the events of any part of the log only callers published demands for a snapshot |
| JsonPathText.SegmentRoundTrip | src-tauri/crates/domain/src/json_path.rs:103-141 | a rendered segment parses back |
| JsonPathText.NextIndex | src-tauri/crates/domain/src/json_path.rs:103-141 | what one bracket adds to the indexes read so far, or the error it causes |
| JsonPathText.SplitJoin | src-tauri/crates/domain/src/json_path.rs:42-53 | splitting a joined text at the separator gives the parts back |
| BreakpointValidation.ValidateValues | src-tauri/crates/application/src/breakpoint_validation.rs:203-259 | exactly the missing or out-of-range values of the kind |
| Breakpoints.BreakpointCoordinator.Send | src-tauri/crates/application/src/breakpoints.rs:155-160 | delivered iff the task still listens |
| Breakpoints.BreakpointCoordinator.Abandon | src-tauri/crates/application/src/breakpoints.rs:18-23 | a task that goes away changes no outcome |
| Breakpoints.BreakpointCoordinator.Do | src-tauri/crates/application/src/breakpoints.rs:52-235 | each step keeps the invariant and rewrites no outcome |
| Breakpoints.BreakpointCoordinator.StopOne | src-tauri/crates/application/src/breakpoints.rs:199-202 | one termination of the second phase, with its epoch justified |
| Breakpoints.PushTombstone | src-tauri/crates/application/src/breakpoints.rs:237-245 | a new tombstone, the oldest one gone if there were 4096 |
| Breakpoints.EndKeepsLog | src-tauri/crates/application/src/breakpoints.rs:204-234 | one ending keeps every ticket awaited or ended, never both |

## Left out

- Ledger limit: a byte limit of 2^64-1 is outside the model, because there the saturating test admits everything (`Capacity.SaturationExactness`).
- Counters and ids: event ids, subscription ids, revisions of rules, hit counts and byte sums are unbounded naturals; the source saturates them at 2^64-1.
- Handles: receivers and replay copies are entries of tables of the hub instead of objects of their own, and `TrackedEventReceiver::drop` is one step; with its counter zeroed before the lock is taken, the accounting is only an upper bound in between.
- Shared state: the state record behind the lock of the hub is flattened into the hub, and every locked section is atomic.
- EventHub.EventHub.Subscribe: does not claim a warning when it cuts the replay log, because the code publishes none; `PushCapture` and `ReclaimForLimit` likewise.
- EventHub.EventHub.Publish: does not claim that whoever is cut is told, because a stored record can be given up unread; it says when that is possible.
- JointRuns.Run: no store step runs between two ledger operations of one hub call, although the ledger has a lock of its own; that cuts and reclaimed history are no more than needed (`EventHub.EventHub.ReserveHistory`, `CutsForced`) is claimed for a session share and a limit that stay put during the call.
- Ties: which of two equally loaded queues is offered an event first, or cancelled, is left open, as in the source, which iterates hash maps.
- SessionStore.InMemorySessionStore.Upsert: the count bound is claimed for one store operation at a time, because the count limit is read before the state is locked.
- Session details: traces, messages and the size estimate of a record are not modelled; a record carries its size.
- JSON and text: JSON documents are values, numbers are reals; the size of an event or row, serialization, regular expressions, trimming, lower case, Unicode classes and random ids are functions or parameters. `JsonPathText.Sane` says that neither `.` nor `[` is alphanumeric.
- Rule ids: rules of one engine and of one snapshot are assumed to have distinct ids.
- RuleRuns.EditsAgree: does not compare the displayed hit data, which a reconcile takes from the snapshot.
- Match reasons: the texts of traces, warnings and errors are reduced to cases.
- Breakpoint messages: normalization of edited messages, header syntax, Content-Length rewriting and JSON formatting of drafts are not modelled; a message is its start line, headers and body.
- Breakpoint listing: the sorted list of pending summaries, labels, tones and disabled reasons.
- Asynchrony: wake-ups, the flush ticker and clocks; time is an argument and one poll or flush is one step.
- Facade and host: request handling, the network device, certificates, settings, persistence and the user interface.
