/** The ordered event hub: replay log, capture batch, live queues and failure records. */
module EventHub {
  import opened Wrappers
  import opened Sums
  import opened Capacity
  import opened EventLog

  const MAX_SUBSCRIBERS: nat := 16
  const SUBSCRIBER_CAPACITY: nat := 512
  const FAILURE_CAPACITY: nat := 512
  const CAPTURE_BATCH_SIZE: nat := 200
  const CAPTURE_BATCH_INTERVAL: int := 100
  const LOG_TRIMMED := "replay log trimmed"
  const HISTORY_TRIMMED := "replay history trimmed"
  const CURSOR_EXPIRED := "event cursor expired"
  const LIVE_CAPACITY := "live event capacity exhausted"

  datatype PendingEvent = PendingEvent(runtimeEpoch: Option<Epoch>, occurredAt: Time, entityId: Option<string>,
                                       entityRevision: Option<nat>, payload: Payload)

  function Envelope(id: nat, p: PendingEvent): Event {
    Event(id, p.runtimeEpoch, p.occurredAt, p.entityId, p.entityRevision, p.payload)
  }

  lemma EnvelopeIs(id: nat, p: PendingEvent)
    ensures Envelope(id, p) == Event(id, p.runtimeEpoch, p.occurredAt, p.entityId, p.entityRevision, p.payload)
  {
  }

  function Warning(id: nat, cause: Event, message: string): Event {
    Event(id, cause.runtimeEpoch, cause.occurredAt, None, None, ResourceWarning(message))
  }

  lemma WarningAbout(id: nat, cause: Event, message: string)
    ensures Warning(id, cause, message).id == id && Announces(Warning(id, cause, message), cause)
  {
  }

  /** The demand for a fresh snapshot that stands in for a replay. */
  function Snapshot(cursor: nat, now: Time): (event: Event)
    ensures event.id == cursor && event.payload.SnapshotRequired?
  {
    Event(cursor, None, now, None, None, SnapshotRequired(CURSOR_EXPIRED))
  }

  lemma SubscriberLimit()
    ensures MAX_SUBSCRIBERS == 16
  {
  }

  /**
   * One event on its way through the live queues: the subscriptions that do not have it yet, those not asked yet,
   * those that refused, and how everything was before.
   */
  datatype Round = Round(waiting: set<nat>, remaining: set<nat>, refused: seq<nat>, before: map<nat, Receiver>,
                         handles: nat, log: seq<Event>, records: seq<Failure>, books: Books, offered: nat,
                         spacious: bool)

  function Offered(r: Round, k: nat, ok: bool): Round {
    r.(waiting := if ok then r.waiting - {k} else r.waiting, remaining := r.remaining - {k},
       refused := if ok then r.refused else r.refused + [k], offered := r.offered + 1)
  }

  lemma OfferedIs(r: Round, k: nat, ok: bool)
    ensures Offered(r, k, ok) ==
              r.(waiting := if ok then r.waiting - {k} else r.waiting, remaining := r.remaining - {k},
                 refused := if ok then r.refused else r.refused + [k], offered := r.offered + 1)
  {
  }

  /** The bytes charged to a queue. */
  function Charge(receivers: map<nat, Receiver>, k: nat): nat {
    if k in receivers then receivers[k].queuedBytes else 0
  }

  /**
   * Who is given up for want of room had at least as many bytes queued as anybody who is kept; only a full
   * queue ends a lighter one.
   */
  ghost predicate LighterKept(live: set<nat>, left: set<nat>, before: map<nat, Receiver>) {
    forall j, k :: j in left && k in live && k !in left && !Full(before, k) ==> Charge(before, j) <= Charge(before, k)
  }

  /** Between two offers: whoever has the event was at most as loaded as all who do not, full queues aside. */
  ghost predicate Fair(live: set<nat>, r: Round) {
    && (forall j, k :: j in live && j !in r.waiting && k in r.remaining ==> Charge(r.before, j) <= Charge(r.before, k))
    && (forall j, i :: j in live && j !in r.waiting && 0 <= i < |r.refused| && !Full(r.before, r.refused[i]) ==>
          Charge(r.before, j) <= Charge(r.before, r.refused[i]))
  }

  lemma FairStart(live: set<nat>, before: map<nat, Receiver>)
    ensures forall r: Round :: r.waiting == live && r.refused == [] ==> Fair(live, r)
  {
  }

  lemma FairStep(live: set<nat>, r: Round, k: nat, ok: bool, load: map<nat, nat>)
    requires Fair(live, r) && Refusals(r.refused, r.waiting, r.remaining) && r.waiting <= live <= load.Keys
    requires k in r.remaining && r.remaining <= load.Keys && forall j :: j in r.remaining ==> load[k] <= load[j]
    requires forall j :: j in live ==> load[j] == Charge(r.before, j)
    requires ok ==> AllFull(r.refused, r.before)
    ensures Fair(live, Offered(r, k, ok))
  {
    hide Charge, Full;
  }

  lemma FairEnd(live: set<nat>, r: Round)
    requires Fair(live, r) && Refusals(r.refused, r.waiting, {})
    ensures LighterKept(live, live - ToSet(r.refused), r.before)
  {
    hide Charge, Full;
    forall k | k in ToSet(r.refused)
      ensures exists i :: 0 <= i < |r.refused| && r.refused[i] == k
    {
      SetMember(r.refused, k);
    }
  }

  lemma MinimumExists(s: set<nat>, key: map<nat, nat>)
    requires s != {} && s <= key.Keys
    ensures exists k :: k in s && forall j | j in s :: key[k] <= key[j]
  {
    var x :| x in s;
    if s != {x} {
      MinimumExists(s - {x}, key);
      var y :| y in s - {x} && forall j | j in s - {x} :: key[y] <= key[j];
      var k := if key[x] <= key[y] then x else y;
      assert forall j | j in s :: key[k] <= key[j];
    }
  }

  lemma MaximumExists(s: set<nat>, key: map<nat, nat>)
    requires s != {} && s <= key.Keys
    ensures exists k :: k in s && forall j | j in s :: key[j] <= key[k]
  {
    var x :| x in s;
    if s != {x} {
      MaximumExists(s - {x}, key);
      var y :| y in s - {x} && forall j | j in s - {x} :: key[j] <= key[y];
      var k := if key[y] <= key[x] then x else y;
      assert forall j | j in s :: key[j] <= key[k];
    }
  }

  function Omit<T>(s: seq<T>, i: nat): (r: seq<T>)
    requires i < |s|
    ensures |r| == |s| - 1
  {
    s[..i] + s[i + 1..]
  }

  lemma OmitMembers(failures: seq<Failure>, i: nat, k: nat)
    requires i < |failures| && failures[i].subscription == k
    requires forall j :: 0 <= j < |failures| && j != i ==> failures[j].subscription != k
    ensures forall f :: f in Omit(failures, i) <==> f in failures && f.subscription != k
  {
    var rest := Omit(failures, i);
    forall f | f in failures && f.subscription != k
      ensures f in rest
    {
      var j :| 0 <= j < |failures| && failures[j] == f;
      assert rest[if j < i then j else j - 1] == f;
    }
    forall f | f in rest
      ensures f in failures && f.subscription != k
    {
      var j :| 0 <= j < |rest| && rest[j] == f;
      assert failures[if j < i then j else j + 1] == f;
    }
  }

  lemma UnreadOmit(failures: seq<Failure>, i: nat)
    requires i < |failures|
    requires forall j :: 0 <= j < |failures| && j != i ==> failures[j].subscription != failures[i].subscription
    ensures failures[i].subscription in Unread(failures)
    ensures Unread(Omit(failures, i)) == Unread(failures) - {failures[i].subscription}
  {
    assert failures[i] in failures;
    OmitMembers(failures, i, failures[i].subscription);
  }

  function ToSet(s: seq<nat>): set<nat> {
    set x | x in s
  }

  /** `refused` lists, without repetition, what was offered the event and did not take it. */
  ghost predicate Refusals(refused: seq<nat>, waiting: set<nat>, remaining: set<nat>) {
    remaining <= waiting && Distinct(refused) && ToSet(refused) == waiting - remaining
  }

  lemma NoneRefused(live: set<nat>)
    ensures Refusals([], live, live)
  {
  }

  lemma RefusalsStep(refused: seq<nat>, waiting: set<nat>, remaining: set<nat>, k: nat)
    requires Refusals(refused, waiting, remaining) && k in remaining
    ensures Refusals(refused + [k], waiting, remaining - {k})
    ensures Refusals(refused, waiting - {k}, remaining - {k})
  {
    assert ToSet(refused + [k]) == ToSet(refused) + {k};
    assert k !in ToSet(refused);
  }

  lemma RefusalsKeys(refused: seq<nat>, waiting: set<nat>, remaining: set<nat>)
    requires Refusals(refused, waiting, remaining)
    ensures remaining <= waiting
  {
  }

  lemma RefusalsEnd(refused: seq<nat>, waiting: set<nat>)
    requires Refusals(refused, waiting, {})
    ensures Distinct(refused) && ToSet(refused) == waiting
  {
  }

  lemma SetMember(s: seq<nat>, x: nat)
    ensures x in ToSet(s) <==> x in s
  {
  }

  lemma RefusedNone(live: set<nat>)
    ensures live - ToSet([]) == live
  {
  }

  lemma RefusedTail(refused: seq<nat>)
    requires Distinct(refused) && refused != []
    ensures Distinct(refused[1..]) && refused[0] !in ToSet(refused[1..])
    ensures ToSet(refused) == {refused[0]} + ToSet(refused[1..])
  {
  }

  lemma {:induction false} DistinctSize(refused: seq<nat>, live: set<nat>)
    requires Distinct(refused) && ToSet(refused) <= live
    ensures |refused| <= |live|
  {
    if refused != [] {
      RefusedTail(refused);
      assert ToSet(refused[1..]) <= live - {refused[0]};
      DistinctSize(refused[1..], live - {refused[0]});
    }
  }

  ghost predicate AllFull(refused: seq<nat>, receivers: map<nat, Receiver>) {
    forall i :: 0 <= i < |refused| ==> Full(receivers, refused[i])
  }

  lemma OnlyFullRefuse(refused: seq<nat>, live: set<nat>, receivers: map<nat, Receiver>)
    requires ToSet(refused) <= live
    ensures Open(live, receivers) && AllFull(refused, receivers) ==> refused == []
    ensures refused == [] ==> live - ToSet(refused) == live
  {
    hide Full;
    if refused != [] {
      SetMember(refused, refused[0]);
    }
  }

  lemma RefusalsForced(refused: seq<nat>, live: set<nat>, receivers: map<nat, Receiver>, exhausted: bool)
    requires forall i :: 0 <= i < |refused| ==> Full(receivers, refused[i]) || exhausted
    ensures Forced(live, live - ToSet(refused), receivers, exhausted)
  {
    forall k | k in live && k !in live - ToSet(refused)
      ensures k in refused
    {
      SetMember(refused, k);
    }
  }

  ghost predicate Distinct(s: seq<nat>) {
    forall i, j :: 0 <= i < j < |s| ==> s[i] != s[j]
  }

  lemma NothingHeld(sizing: Sizing)
    ensures TableOk(map[], {}, map[], map[], [], sizing) && FailuresOk([], map[], map[], {})
    ensures AllAt({}, 0, map[], map[]) && RunUpTo([], [], 0) && FatesOk(map[], map[], {}, map[], [])
            && LostOk({}, map[], map[], map[], [])
    ensures Total([], sizing.event) == 0 && Total([], FailureSize(sizing)) == 0
    ensures TableTotal(map[], QueuedBytes, 1) == 0 && TableTotal(map[], ReservedBytes, 1) == 0
  {
  }

  ghost predicate Extends(log: seq<Event>, origins: seq<Origin>, overflowed: bool, log': seq<Event>,
                          origins': seq<Origin>, overflowed': bool, envelope: Event, origin: Origin)
  {
    if !overflowed && overflowed' then
      && |log'| == |log| + 2 && log'[..|log| + 1] == log + [envelope] && origins' == origins + [origin, Overflow]
      && (log'[|log| + 1] == Warning(envelope.id + 1, envelope, LOG_TRIMMED)
          || log'[|log| + 1] == Warning(envelope.id + 1, envelope, HISTORY_TRIMMED))
    else
      overflowed' == overflowed && log' == log + [envelope] && origins' == origins + [origin]
  }

  lemma ExtendsBy(log: seq<Event>, origins: seq<Origin>, overflowed: bool, log': seq<Event>, origins': seq<Origin>,
                  overflowed': bool, envelope: Event, origin: Origin)
    requires Extends(log, origins, overflowed, log', origins', overflowed', envelope, origin)
    ensures |log'| == |log| + if !overflowed && overflowed' then 2 else 1
    ensures |log'| == |log| + 2 ==>
              log'[|log| + 1].id == envelope.id + 1 && Announces(log'[|log| + 1], envelope)
  {
  }

  lemma LogExtends(log: seq<Event>, origins: seq<Origin>, overflowed: bool, log': seq<Event>, origins': seq<Origin>,
                   overflowed': bool, envelope: Event, origin: Origin, warning: Option<Event>)
    requires log' == log + [envelope] + if warning.Some? then [warning.value] else []
    requires origins' == origins + [origin] + if warning.Some? then [Overflow] else []
    requires (warning.Some? <==> !overflowed && overflowed') && (overflowed ==> overflowed') && !origin.Overflow?
    requires warning.Some? ==> warning.value == Warning(envelope.id + 1, envelope, LOG_TRIMMED)
                               || warning.value == Warning(envelope.id + 1, envelope, HISTORY_TRIMMED)
    ensures Extends(log, origins, overflowed, log', origins', overflowed', envelope, origin)
    ensures log <= log' && envelope in log' && log'[|log|] == envelope
    ensures overflowed ==> Quiet(origins, origins')
  {
    assert log'[|log|] == envelope;
  }

  class EventHub {
    const replayCapacity: nat
    const capacity: CapacityLedger
    const sizing: Sizing

    var nextId: nat
    var retained: seq<Event>
    var pendingCapture: seq<CaptureRow>
    var captureEpoch: Option<Epoch>
    var captureStartedAt: Option<Time>
    var replayOverflowed: bool
    var nextSubscriptionId: nat
    var subscribers: set<nat>
    var subscriptionBytes: set<nat>
    var failures: seq<Failure>
    var receivers: map<nat, Receiver>
    var replays: map<nat, Replay>
    var dropped: bool

    ghost var published: seq<Event>
    ghost var origins: seq<Origin>
    ghost var pushed: seq<Pushed>
    ghost var history: map<nat, Subscription>
    ghost var fates: map<nat, Fate>
    /** The subscriptions whose failure record was given up before anybody read it. */
    ghost var lost: set<nat>
    /** When the oldest pending row joined the batch. */
    ghost var joinedAt: Time

    // ---- what the hub holds ----

    ghost function HistoryBytes(): nat
      reads `retained, `failures
    {
      Total(retained, sizing.event) + Total(failures, FailureSize(sizing))
    }

    ghost function HandleBytes(): nat
      reads `receivers, `replays, `nextSubscriptionId
    {
      TableTotal(receivers, QueuedBytes, nextSubscriptionId) + TableTotal(replays, ReservedBytes, nextSubscriptionId)
    }

    /** Every byte the event side owns, whoever holds it. */
    ghost function Held(): nat
      reads `retained, `failures, `pendingCapture, `receivers, `replays, `nextSubscriptionId
    {
      HistoryBytes() + PendingBytes(pendingCapture, sizing) + HandleBytes()
    }

    // ---- invariants ----

    /** The replay log is a run of the full log that ends after `upTo` events. */
    ghost predicate RetainedUpTo(upTo: nat)
      reads `retained, `published
    {
      RunUpTo(published, retained, upTo)
    }

    ghost predicate LogOk()
      reads `nextId, `retained, `published, `replayOverflowed
    {
      && nextId == |published| + 1 && Numbered(published)
      && RetainedUpTo(|published|)
      && (replayOverflowed <==> |retained| < |published|)
    }

    ghost predicate SubscriptionsOk()
      reads `history, `receivers, `replays, `subscribers, `subscriptionBytes, `fates, `lost, `failures, `published,
            `nextSubscriptionId
    {
      && 1 <= nextSubscriptionId && (forall k :: k in history <==> 1 <= k < nextSubscriptionId)
      && subscriptionBytes == subscribers
      && TableOk(history, subscribers, receivers, replays, published, sizing)
      && FailuresOk(failures, history, receivers, subscribers)
      && FatesOk(fates, history, subscribers, receivers, failures)
      && LostOk(lost, fates, history, receivers, failures)
    }

    /** Every subscription in `s` has been given the log up to event `n`. */
    ghost predicate Synced(s: set<nat>, n: nat)
      reads `history, `receivers
    {
      AllAt(s, n, history, receivers)
    }

    /**
     * What the origin of an event says about it: a batch holds 1 to 200 rows of one epoch, and the overflow
     * transition publishes the resource warning about the event before it.
     */
    ghost predicate OriginsOk()
      reads `published, `origins
    {
      && |origins| == |published|
      && (forall i :: 0 <= i < |origins| && origins[i].Batch? ==>
            && published[i].payload.CaptureRowsAdded? && published[i].runtimeEpoch.Some?
            && 1 <= |published[i].payload.rows| <= CAPTURE_BATCH_SIZE)
      && (forall i :: 0 <= i < |origins| && origins[i].Overflow? ==>
            0 < i && Announces(published[i], published[i - 1]))
    }

    ghost function Batched(): seq<Pushed>
      requires |origins| == |published|
      reads `published, `origins
    {
      CaptureLog(published, origins)
    }

    /** Batched rows followed by pending rows are the pushed rows, each under the epoch it was pushed with. */
    ghost predicate CaptureOk(most: nat)
      reads `published, `origins, `pushed, `pendingCapture, `captureEpoch, `captureStartedAt
    {
      && OriginsOk()
      && |pendingCapture| <= most
      && (pendingCapture != [] ==> captureEpoch.Some? && captureStartedAt.Some?)
      && Batched() + Tag(pendingCapture, captureEpoch) == pushed
    }

    ghost predicate BoundsOk()
      reads `retained, `failures, `subscribers
    {
      1 <= replayCapacity && |retained| <= replayCapacity && |failures| <= FAILURE_CAPACITY
      && |subscribers| <= MAX_SUBSCRIBERS
    }

    /**
     * Exact accounting with `extra` bytes in transit, and every live subscription exactly at
     * event `n` of the log.
     */
    ghost predicate Core(extra: nat, n: nat)
      reads `retained, `pendingCapture, `nextSubscriptionId, `subscribers, `subscriptionBytes, `fates, `lost,
            `failures, `receivers, `replays, `published, `history, capacity
    {
      && capacity.Valid() && capacity.events == Held() + extra
      && SubscriptionsOk() && BoundsOk() && Synced(subscribers, n)
    }

    /** The hub between two of its internal steps. */
    ghost predicate Steady(extra: nat, n: nat)
      reads `nextId, `retained, `pendingCapture, `replayOverflowed, `nextSubscriptionId, `subscribers,
            `subscriptionBytes, `fates, `lost, `failures, `receivers, `replays, `published, `origins, `history, capacity
    {
      Core(extra, n) && LogOk() && OriginsOk() && WarnedOnce(origins, replayOverflowed)
    }

    /** The hub between two public calls, before and after it is dropped. */
    ghost predicate Valid()
      reads this, capacity
    {
      && Core(0, |published|) && Numbered(published) && OriginsOk()
      && (!dropped ==> LogOk() && WarnedOnce(origins, replayOverflowed) && CaptureOk(CAPTURE_BATCH_SIZE - 1))
      && (dropped ==> retained == [] && failures == [] && pendingCapture == [] && subscribers == {})
    }

    constructor (maxEvents: nat, ledger: CapacityLedger, sizes: Sizing)
      requires ledger.Valid() && ledger.events == 0
      ensures Valid() && !dropped && capacity == ledger && sizing == sizes
      ensures replayCapacity == (if maxEvents == 0 then 1 else maxEvents)
      ensures published == [] && origins == [] && pushed == [] && history == map[] && fates == map[] && lost == {}
      ensures !replayOverflowed && retained == [] && failures == [] && subscribers == {} && nextSubscriptionId == 1
      ensures receivers == map[] && replays == map[]
      ensures pendingCapture == [] && captureStartedAt == None
    {
      replayCapacity := if maxEvents == 0 then 1 else maxEvents;
      capacity, sizing := ledger, sizes;
      nextId, nextSubscriptionId := 1, 1;
      retained, pendingCapture, failures := [], [], [];
      captureEpoch, captureStartedAt := None, None;
      replayOverflowed, dropped := false, false;
      subscribers, subscriptionBytes := {}, {};
      receivers, replays := map[], map[];
      published, origins, pushed, history, fates, lost, joinedAt := [], [], [], map[], map[], {}, 0;
      new;
      hide *;
      FreshIsValid();
    }

    lemma FreshIsValid()
      requires capacity.Valid() && capacity.events == 0 && nextId == nextSubscriptionId == 1 && 1 <= replayCapacity
      requires retained == [] && pendingCapture == [] && failures == [] && captureEpoch == None
      requires !replayOverflowed && !dropped && subscribers == {} && subscriptionBytes == {}
      requires receivers == map[] && replays == map[] && history == map[]
      requires published == [] && origins == [] && pushed == [] && fates == map[] && lost == {}
      ensures Valid()
    {
      hide Total, TableOk, TableTotal, FailuresOk, FatesOk, AllAt, RunUpTo;
      NothingHeld(sizing);
    }

    // ---- reclamation ----

    method ReleaseOldestRetained() returns (ok: bool)
      requires capacity.Valid() && HistoryBytes() <= capacity.events
      modifies `retained, capacity`events
      ensures capacity.Valid()
      ensures ok <==> old(retained) != []
      ensures retained == if ok then old(retained)[1..] else []
      ensures ok ==> capacity.events == old(capacity.events) - sizing.event(old(retained)[0])
      ensures !ok ==> capacity.events == old(capacity.events)
      ensures capacity.events - HistoryBytes() == old(capacity.events - HistoryBytes())
    {
      if retained == [] {
        return false;
      }
      var event := retained[0];
      retained := retained[1..];
      capacity.ReleaseEventBytes(sizing.event(event));
      return true;
    }

    method ReleaseOldestFailure() returns (ok: bool)
      requires capacity.Valid() && HistoryBytes() <= capacity.events
      modifies `failures, `lost, capacity`events
      ensures capacity.Valid()
      ensures ok <==> old(failures) != []
      ensures failures == if ok then old(failures)[1..] else []
      ensures lost == if ok then old(lost) + {old(failures)[0].subscription} else old(lost)
      ensures ok ==> capacity.events == old(capacity.events) - FailureSize(sizing)(old(failures)[0])
      ensures !ok ==> capacity.events == old(capacity.events)
      ensures capacity.events - HistoryBytes() == old(capacity.events - HistoryBytes())
    {
      if failures == [] {
        return false;
      }
      var failure := failures[0];
      failures, lost := failures[1..], lost + {failure.subscription};
      capacity.ReleaseEventBytes(FailureSize(sizing)(failure));
      return true;
    }

    /** Reserves `bytes`, in exchange for `current` bytes already reserved if there are any. */
    method TryAdmit(current: nat, bytes: nat) returns (ok: bool)
      requires capacity.Valid() && current <= capacity.events
      modifies capacity`events
      ensures capacity.Valid()
      ensures ok <==> capacity.sessions + old(capacity.events) - current + bytes <= capacity.limit
      ensures capacity.events == old(capacity.events) + if ok then bytes - current else 0
    {
      if current == 0 {
        ok := capacity.TryReserveEventBytes(bytes);
      } else {
        ok := capacity.TryReplaceEventBytes(current, bytes);
      }
    }

    /** Nothing more was given up than the target asked for: one entry less would have missed it. */
    ghost predicate GivenUpFor(maxBytes: nat, before: seq<Event>, records: seq<Failure>)
      reads `retained, `failures, capacity
    {
      && |retained| <= |before| && |failures| <= |records|
      && (|retained| < |before| && |failures| == |records| ==>
            maxBytes < capacity.sessions + capacity.events + sizing.event(before[|before| - |retained| - 1]))
      && (|failures| < |records| ==>
            maxBytes < capacity.sessions + capacity.events + FailureSize(sizing)(records[|records| - |failures| - 1]))
    }

    lemma GaveUpNothing(bound: nat)
      ensures GivenUpFor(bound, retained, failures)
    {
    }

    lemma GaveUpRecords(bound: nat, before: seq<Event>, records: seq<Failure>)
      requires |retained| <= |before| && |failures| < |records|
      requires bound < capacity.sessions + capacity.events + FailureSize(sizing)(records[|records| - |failures| - 1])
      ensures GivenUpFor(bound, before, records)
    {
    }

    /** Gives up replay history, oldest first, until the exchange fits. */
    method ReclaimRetained(current: nat, bytes: nat) returns (ok: bool)
      requires capacity.Valid() && HistoryBytes() + current <= capacity.events
      requires capacity.limit < capacity.sessions + capacity.events - current + bytes
      modifies `retained, `replayOverflowed, capacity`events
      ensures capacity.Valid()
      ensures capacity.events - HistoryBytes() ==
                old(capacity.events - HistoryBytes()) + if ok then bytes - current else 0
      ensures IsSuffix(retained, old(retained))
      ensures replayOverflowed <==> old(replayOverflowed) || |retained| < |old(retained)|
      ensures !ok ==> retained == [] && capacity.limit < capacity.sessions + capacity.events - current + bytes
      ensures ok ==> |retained| < |old(retained)| && GivenUpFor(capacity.limit, old(retained), failures)
    {
      hide Total;
      ghost var cut := 0;
      while true
        invariant capacity.Valid() && capacity.events - HistoryBytes() == old(capacity.events - HistoryBytes())
        invariant capacity.limit < capacity.sessions + capacity.events - current + bytes
        invariant cut <= |old(retained)| && retained == old(retained)[cut..]
        invariant replayOverflowed <==> old(replayOverflowed) || |retained| < |old(retained)|
        decreases |retained|
      {
        var released := ReleaseOldestRetained();
        if !released {
          return false;
        }
        cut := cut + 1;
        replayOverflowed := true;
        ok := TryAdmit(current, bytes);
        if ok {
          return;
        }
      }
    }

    /** Gives up failure records, oldest first, until the exchange fits. */
    method ReclaimFailures(current: nat, bytes: nat) returns (ok: bool)
      requires capacity.Valid() && HistoryBytes() + current <= capacity.events
      requires capacity.limit < capacity.sessions + capacity.events - current + bytes
      modifies `failures, `lost, capacity`events
      ensures capacity.Valid()
      ensures capacity.events - HistoryBytes() ==
                old(capacity.events - HistoryBytes()) + if ok then bytes - current else 0
      ensures IsSuffix(failures, old(failures)) && Discards(old(failures), old(lost), failures, lost)
      ensures !ok ==> failures == [] && capacity.limit < capacity.sessions + capacity.events - current + bytes
      ensures ok ==> |failures| < |old(failures)| && capacity.limit < capacity.sessions + capacity.events
                        + FailureSize(sizing)(old(failures)[|old(failures)| - |failures| - 1])
    {
      hide Total, Discards;
      ghost var cut := 0;
      DiscardsNone(failures, lost);
      while true
        invariant capacity.Valid() && capacity.events - HistoryBytes() == old(capacity.events - HistoryBytes())
        invariant capacity.limit < capacity.sessions + capacity.events - current + bytes
        invariant cut <= |old(failures)| && failures == old(failures)[cut..]
        invariant Discards(old(failures), old(lost), failures, lost)
        decreases |failures|
      {
        if failures != [] {
          DiscardsOne(old(failures), old(lost), failures, lost);
        }
        var released := ReleaseOldestFailure();
        if !released {
          return false;
        }
        cut := cut + 1;
        ok := TryAdmit(current, bytes);
        if ok {
          return;
        }
      }
    }

    /**
     * Reserves `bytes` (in exchange for `current`), giving up replay history first and failure
     * records next, and never one entry more than the reservation needs.
     */
    method ReserveHistory(current: nat, bytes: nat) returns (ok: bool)
      requires capacity.Valid() && HistoryBytes() + current <= capacity.events
      modifies `retained, `failures, `lost, `replayOverflowed, capacity`events
      ensures capacity.Valid()
      ensures capacity.events - HistoryBytes() ==
                old(capacity.events - HistoryBytes()) + if ok then bytes - current else 0
      ensures IsSuffix(retained, old(retained)) && IsSuffix(failures, old(failures))
      ensures replayOverflowed <==> old(replayOverflowed) || |retained| < |old(retained)|
      ensures replayOverflowed <==>
                || old(replayOverflowed)
                || (old(retained) != [] && capacity.limit < capacity.sessions + old(capacity.events) - current + bytes)
      ensures |failures| < |old(failures)| ==> retained == []
      ensures Yields(old(failures), old(lost), failures, lost, |retained|,
                     capacity.limit < capacity.sessions + old(capacity.events) - current + bytes
                                      - old(Total(retained, sizing.event)))
      ensures !ok ==> retained == [] && failures == []
                      && capacity.limit < capacity.sessions + capacity.events - current + bytes
      ensures ok ==> GivenUpFor(capacity.limit, old(retained), old(failures))
      ensures capacity.sessions + old(capacity.events) - current + bytes <= capacity.limit ==>
                && ok && retained == old(retained) && failures == old(failures)
                && capacity.events == old(capacity.events) - current + bytes
    {
      hide HistoryBytes, Total, GivenUpFor, IsSuffix, Discards;
      DiscardsNone(failures, lost);
      ghost var before, records := retained, failures;
      SuffixSelf(before);
      SuffixSelf(records);
      GaveUpNothing(capacity.limit);
      if current == 0 && bytes == 0 {
        return true;
      }
      ok := TryAdmit(current, bytes);
      GaveUpNothing(capacity.limit);
      if ok {
        return;
      }
      HistoryIs();
      ok := ReclaimRetained(current, bytes);
      HistoryIs();
      if ok {
        return;
      }
      ok := ReclaimFailures(current, bytes);
      if ok {
        GaveUpRecords(capacity.limit, before, records);
      }
    }

    /** Stops future delivery; the queue stays with its receiver and stays charged. */
    method RemoveSubscriber(k: nat)
      requires subscribers <= receivers.Keys
      modifies `subscribers, `subscriptionBytes, `receivers
      ensures subscribers == old(subscribers) - {k} && subscriptionBytes == old(subscriptionBytes) - {k}
      ensures receivers == if k in old(subscribers)
                           then old(receivers)[k := old(receivers)[k].(cancelled := true)] else old(receivers)
    {
      if k in subscribers {
        subscribers := subscribers - {k};
        receivers := receivers[k := receivers[k].(cancelled := true)];
      }
      subscriptionBytes := subscriptionBytes - {k};
    }

    /** Arms the control lane of a live receiver with a terminal event id and cancels it. */
    method Terminate(k: nat, id: nat)
      requires SubscriptionsOk() && k in subscribers && k in receivers && k in history
      requires End(history[k], Some(receivers[k])) <= id
      modifies `subscribers, `subscriptionBytes, `fates, `receivers
      ensures SubscriptionsOk() && subscribers == old(subscribers) - {k}
      ensures receivers == old(receivers)[k := Armed(old(receivers)[k], id)]
      ensures fates == old(fates)[k := NoticeArmed(id)] && k !in old(fates)
      ensures HandleBytes() == old(HandleBytes())
    {
      hide SubscriptionOk, FailuresOk, TableTotal, FatesOk, LostOk;
      ghost var before, live := receivers, subscribers;
      TableKeys(history, subscribers, receivers, replays, published, sizing);
      FatesEnd(fates, history, subscribers, receivers, replays, failures, published, sizing, k, NoticeArmed(id),
               Armed(receivers[k], id));
      LostEnd(lost, fates, history, receivers, failures, k, NoticeArmed(id), Armed(receivers[k], id));
      receivers := receivers[k := receivers[k].(terminalId := id, snapshotOnCancel := true)];
      RemoveSubscriber(k);
      fates := fates[k := NoticeArmed(id)];
      assert receivers == before[k := Armed(before[k], id)];
      CancelKeepsTable(history, live, before, replays, failures, published, sizing, k, id, true);
      TableTotalChange(before, receivers, QueuedBytes, nextSubscriptionId, k);
    }

    lemma LiveKnown(n: nat)
      requires SubscriptionsOk() && Synced(subscribers, n)
      ensures subscriptionBytes == subscribers && subscribers <= receivers.Keys && subscribers <= history.Keys
      ensures forall k :: k in subscribers ==> End(history[k], Some(receivers[k])) == n
    {
      hide TableOk, FailuresOk, FatesOk, LostOk, End;
      TableKeys(history, subscribers, receivers, replays, published, sizing);
    }

    /** One of the largest queues. */
    method Slowest() returns (k: nat)
      requires subscriptionBytes != {} && subscriptionBytes <= receivers.Keys
      ensures SlowestOf(k, subscriptionBytes, receivers)
    {
      var load := map k | k in subscriptionBytes :: receivers[k].queuedBytes;
      MaximumExists(subscriptionBytes, load);
      k :| k in subscriptionBytes && forall j | j in subscriptionBytes :: load[j] <= load[k];
      assert forall j :: j in subscriptionBytes ==> load[j] == receivers[j].queuedBytes;
    }

    /** Cancels the subscriber with the largest queue, if there is one. */
    method TerminateSlowest(ghost n: nat)
      requires SubscriptionsOk() && Synced(subscribers, n) && n < nextId
      modifies `subscribers, `subscriptionBytes, `fates, `receivers
      ensures SubscriptionsOk() && Synced(subscribers, n) && HandleBytes() == old(HandleBytes())
      ensures old(subscribers) == {} ==> subscribers == {} && receivers == old(receivers) && fates == old(fates)
      ensures old(subscribers) != {} ==>
                exists k :: SlowestOf(k, old(subscribers), old(receivers)) && subscribers == old(subscribers) - {k}
                            && receivers == old(receivers)[k := Armed(old(receivers)[k], nextId - 1)]
                            && fates == old(fates)[k := NoticeArmed(nextId - 1)]
      ensures SameQueues(old(receivers), receivers) && Served(old(fates), fates, true)
    {
      hide SubscriptionsOk, HandleBytes, SameQueues, Served, AllAt, End;
      ServedSelf(fates, true);
      SameQueuesSelf(receivers);
      LiveKnown(n);
      if subscriptionBytes != {} {
        var slowest := Slowest();
        ghost var before := fates;
        SameQueuesArmed(receivers, slowest, nextId - 1);
        AllAtArmed(subscribers, n, history, receivers, slowest, nextId - 1);
        Terminate(slowest, nextId - 1);
        ServedOne(before, slowest, NoticeArmed(nextId - 1), true);
        assert SlowestOf(slowest, old(subscribers), old(receivers));
      }
    }

    /** A reservation from the history alone; the records that stay are still in order. */
    method ReserveKept(current: nat, bytes: nat) returns (ok: bool)
      requires capacity.Valid() && HistoryBytes() + current <= capacity.events && SubscriptionsOk()
      modifies `retained, `failures, `lost, `replayOverflowed, capacity`events
      ensures capacity.Valid() && SubscriptionsOk()
      ensures capacity.events - HistoryBytes() ==
                old(capacity.events - HistoryBytes()) + if ok then bytes - current else 0
      ensures IsSuffix(retained, old(retained)) && IsSuffix(failures, old(failures))
      ensures replayOverflowed <==> old(replayOverflowed) || |retained| < |old(retained)|
      ensures replayOverflowed <==>
                || old(replayOverflowed)
                || (old(retained) != [] && capacity.limit < capacity.sessions + old(capacity.events) - current + bytes)
      ensures Yields(old(failures), old(lost), failures, lost, |retained|,
                     capacity.limit < capacity.sessions + old(capacity.events) - current + bytes
                                      - old(Total(retained, sizing.event)))
      ensures Firm() <= old(Firm()) && |retained| <= old(|retained|)
      ensures !ok ==> retained == [] && failures == []
                      && capacity.limit < capacity.sessions + capacity.events - current + bytes
      ensures capacity.sessions + old(capacity.events) - current + bytes <= capacity.limit ==>
                && ok && retained == old(retained) && failures == old(failures)
                && capacity.events == old(capacity.events) - current + bytes
    {
      hide HistoryBytes, HandleBytes, PendingBytes, Total, TableOk, FailuresOk, FatesOk, LostOk, Discards, Yields,
           IsSuffix, GivenUpFor;
      ghost var tight := capacity.limit <
                         capacity.sessions + capacity.events - current + bytes - Total(retained, sizing.event);
      ghost var before, unread := failures, lost;
      ghost var kept := retained;
      ok := ReserveHistory(current, bytes);
      YieldsMean(before, unread, failures, lost, |retained|, tight, sizing);
      SuffixLengths(retained, kept);
      FailuresOkSuffix(before, failures, history, receivers, subscribers);
      FatesSuffix(fates, history, subscribers, receivers, before, failures);
      LostDiscards(unread, fates, history, subscribers, receivers, before, failures, lost);
    }

    /**
     * Reserves `bytes` (in exchange for `current`). When even an empty history leaves too
     * little room, the slowest subscriber is cancelled so that its queue will be handed back.
     */
    method ReserveWithReclamation(current: nat, bytes: nat, ghost n: nat) returns (ok: bool)
      requires capacity.Valid() && HistoryBytes() + current <= capacity.events
      requires SubscriptionsOk() && Synced(subscribers, n) && n < nextId
      modifies `retained, `failures, `lost, `replayOverflowed, `subscribers, `subscriptionBytes, `fates, `receivers,
               capacity`events
      ensures capacity.Valid() && SubscriptionsOk() && Synced(subscribers, n)
      ensures capacity.events - Held() == old(capacity.events - Held()) + if ok then bytes - current else 0
      ensures IsSuffix(retained, old(retained)) && IsSuffix(failures, old(failures))
      ensures replayOverflowed <==> old(replayOverflowed) || |retained| < |old(retained)|
      ensures replayOverflowed <==>
                || old(replayOverflowed)
                || (old(retained) != [] && capacity.limit < capacity.sessions + old(capacity.events) - current + bytes)
      ensures subscribers <= old(subscribers) && HandleBytes() == old(HandleBytes())
      ensures ok ==> subscribers == old(subscribers) && receivers == old(receivers)
      ensures SameQueues(old(receivers), receivers) && Served(old(fates), fates, !ok)
      ensures Firm() <= old(Firm()) && |retained| <= old(|retained|)
      ensures Yields(old(failures), old(lost), failures, lost, |retained|,
                     capacity.limit < capacity.sessions + old(capacity.events) - current + bytes
                                      - old(Total(retained, sizing.event)))
      ensures old(capacity.events) == old(Held()) + current ==> Spent(old(Account()), Account(), bytes, !ok)
      ensures !ok ==> retained == [] && failures == []
                      && capacity.limit < capacity.sessions + capacity.events - current + bytes
      ensures capacity.sessions + old(capacity.events) - current + bytes <= capacity.limit ==>
                && ok && retained == old(retained) && failures == old(failures)
                && capacity.events == old(capacity.events) - current + bytes
    {
      hide HistoryBytes, HandleBytes, PendingBytes, SubscriptionsOk, Synced, SameQueues, IsSuffix, Served, Yields,
           Spent, Total, Held, Firm, Fixed;
      HeldParts();
      SameQueuesSelf(receivers);
      ServedSelf(fates, false);
      ServedSelf(fates, true);
      HeldIs();
      ghost var books, records, live := Account(), failures, subscribers;
      ghost var tight := capacity.limit <
                         capacity.sessions + capacity.events - current + bytes - Total(retained, sizing.event);
      ok := ReserveKept(current, bytes);
      FirmIs();
      if !ok {
        TerminateSlowest(n);
        SubsetSize(subscribers, live);
      }
      FirmIs();
      HeldParts();
      if old(capacity.events) == old(Held()) + current {
        YieldsSpent(records, failures, books, Account(), tight, bytes, !ok, sizing);
      }
    }

    // ---- the log ----

    /** Records, for the specification only, that `event` was published. */
    ghost method Log(event: Event, origin: Origin)
      requires SubscriptionsOk() && OriginsOk() && Numbered(published) && event.id == |published| + 1
      requires origin.Batch? ==> event.payload.CaptureRowsAdded? && event.runtimeEpoch.Some?
                                 && 1 <= |event.payload.rows| <= CAPTURE_BATCH_SIZE
      requires origin.Overflow? ==> published != [] && Announces(event, published[|published| - 1])
      modifies `published, `origins
      ensures SubscriptionsOk() && OriginsOk() && Numbered(published)
      ensures published == old(published) + [event] && origins == old(origins) + [origin]
      ensures forall n: nat :: old(RetainedUpTo(n)) ==> RetainedUpTo(n)
      ensures Batched() == old(Batched()) + if origin.Batch? then Tag(event.payload.rows, event.runtimeEpoch) else []
    {
      hide Announces, TableOk, FailuresOk, FatesOk, LostOk, RunUpTo, CaptureLog;
      CaptureLogPush(published, origins, event, origin);
      forall n: nat | RunUpTo(published, retained, n)
        ensures RunUpTo(published + [event], retained, n)
      {
        RunExtend(published, retained, n, event);
      }
      TableOkExtend(history, subscribers, receivers, replays, published, published + [event], sizing);
      published, origins := published + [event], origins + [origin];
    }

    /** What the hub cannot reclaim by itself. */
    ghost function Fixed(): nat
      reads `pendingCapture, `receivers, `replays, `nextSubscriptionId, capacity`sessions
    {
      capacity.sessions + PendingBytes(pendingCapture, sizing) + HandleBytes()
    }

    /** What stays when all replay history is given up. */
    ghost function Firm(): nat
      reads `failures, `pendingCapture, `receivers, `replays, `nextSubscriptionId, capacity`sessions
    {
      Fixed() + Total(failures, FailureSize(sizing))
    }

    ghost function Account(): Books
      reads `published, `retained, `failures, `subscribers, `lost, `fates, `pendingCapture, `receivers, `replays,
            `nextSubscriptionId, capacity
    {
      Books(capacity.limit, |published|, |retained|, |failures|, |subscribers|, lost, fates, Firm())
    }

    /** The books as they were before the newest event was published. */
    ghost function Unpublished(): Books
      reads `published, `retained, `failures, `subscribers, `lost, `fates, `pendingCapture, `receivers, `replays,
            `nextSubscriptionId, capacity
    {
      Account().(events := if published == [] then 0 else |published| - 1)
    }

    /** Neither the event nor the record of its failed delivery is sure to fit beside what cannot be reclaimed. */
    ghost predicate Starved(event: Event)
      reads `pendingCapture, `receivers, `replays, `nextSubscriptionId, capacity`limit,
            capacity`sessions
    {
      Exhausted(event) || capacity.limit < Fixed() + RecordBytes(event, sizing)
    }

    ghost predicate SomeStarved(from: nat)
      reads `published, `pendingCapture, `receivers, `replays, `nextSubscriptionId, capacity`limit,
            capacity`sessions
    {
      exists i :: from <= i < |published| && Starved(published[i])
    }

    lemma StarvedFrom(from: nat, i: nat)
      requires from <= i < |published|
      ensures Starved(published[i]) ==> SomeStarved(from)
      ensures SomeExhausted(from) ==> SomeStarved(from)
    {
      hide Exhausted;
      if SomeExhausted(from) {
        var j :| from <= j < |published| && Exhausted(published[j]);
        assert Starved(published[j]);
      }
    }

    lemma HistoryIs()
      ensures HistoryBytes() == Total(retained, sizing.event) + Total(failures, FailureSize(sizing))
      ensures retained == [] ==> Total(retained, sizing.event) == 0
    {
    }

    lemma FirmIs()
      ensures Firm() == capacity.sessions + PendingBytes(pendingCapture, sizing) + HandleBytes()
                        + Total(failures, FailureSize(sizing))
    {
    }

    lemma FixedIs()
      ensures Fixed() == capacity.sessions + PendingBytes(pendingCapture, sizing) + HandleBytes()
    {
    }

    lemma LedgerFits()
      requires capacity.Valid()
      ensures capacity.sessions + capacity.events <= capacity.limit
    {
    }

    lemma HeldParts()
      ensures Held() == HistoryBytes() + PendingBytes(pendingCapture, sizing) + HandleBytes()
    {
    }

    lemma HeldIs()
      ensures Held() == Total(retained, sizing.event) + Firm() - capacity.sessions
    {
      hide HandleBytes, PendingBytes, Total;
    }

    /** The event does not fit beside what cannot be reclaimed. */
    ghost predicate Exhausted(event: Event)
      reads `pendingCapture, `receivers, `replays, `nextSubscriptionId, capacity`limit,
            capacity`sessions
    {
      capacity.limit < Fixed() + sizing.event(event)
    }

    method PushRetained(event: Event)
      requires 1 <= |published| && event == published[|published| - 1] && RetainedUpTo(|published| - 1)
      modifies `retained
      ensures retained == old(retained) + [event] && RetainedUpTo(|published|)
      ensures HistoryBytes() == old(HistoryBytes()) + sizing.event(event)
    {
      hide Total;
      TotalPush(retained, event, sizing.event);
      RunPush(published, retained, |published| - 1);
      retained := retained + [event];
    }

    /** The event fits as things are, in exchange for `replaced` bytes: nothing has to be given up. */
    ghost predicate Roomy(event: Event, replaced: nat)
      reads capacity
    {
      capacity.sessions + capacity.events - replaced + sizing.event(event) <= capacity.limit
    }

    /** Reserves the room of the newest published event and appends it to the replay log. */
    method Admit(event: Event, replaced: nat, ghost n: nat) returns (ok: bool)
      requires capacity.Valid() && capacity.events == Held() + replaced
      requires SubscriptionsOk() && Synced(subscribers, n) && n < nextId
      requires 1 <= |published| && event == published[|published| - 1]
      requires RetainedUpTo(|published| - 1) && (replayOverflowed <==> |retained| < |published| - 1)
      modifies `retained, `failures, `lost, `replayOverflowed, `subscribers, `subscriptionBytes, `fates, `receivers,
               capacity`events
      ensures capacity.Valid() && capacity.events == Held()
      ensures SubscriptionsOk() && Synced(subscribers, n)
      ensures RetainedUpTo(|published|)
      ensures |retained| <= old(|retained|) + 1 && |failures| <= old(|failures|) && subscribers <= old(subscribers)
      ensures old(replayOverflowed) ==> replayOverflowed
      ensures HandleBytes() == old(HandleBytes())
      ensures ok <==> Fixed() + sizing.event(event) <= capacity.limit
      ensures ok ==> retained != [] && (replayOverflowed <==> |retained| < |published|)
      ensures !ok ==> retained == []
      ensures SameQueues(old(receivers), receivers) && (ok ==> subscribers == old(subscribers))
      ensures old(Roomy(event, replaced)) ==>
                && ok && retained == old(retained) + [event] && failures == old(failures)
                && capacity.events == old(capacity.events) - replaced + sizing.event(event)
      ensures Spent(old(Unpublished()), Account(), sizing.event(event), Exhausted(event))
    {
      hide HistoryBytes, SubscriptionsOk, HandleBytes, PendingBytes, IsSuffix, Synced, RunUpTo, SameQueues, Spent, Firm,
           Discards, Yields, Total, Served;
      ghost var before, beforeFailures, books := retained, failures, Account();
      ok := ReserveWithReclamation(replaced, sizing.event(event), n);
      RunSuffix(published, before, retained, |published| - 1);
      SuffixLengths(failures, beforeFailures);
      SpentPublished(books, Account(), |retained| + if ok then 1 else 0, sizing.event(event), !ok);
      if ok {
        PushRetained(event);
      } else {
        HistoryEmpty();
        RunEmpty(published);
        if replaced > 0 {
          capacity.ReleaseEventBytes(replaced);
        }
      }
    }

    /**
     * Brings the newest published event into the replay log, in exchange for `replaced`
     * bytes. It is kept exactly if it fits beside everything that cannot be reclaimed.
     */
    method Retain(event: Event, replaced: nat, ghost n: nat)
      requires capacity.Valid() && capacity.events == Held() + replaced
      requires SubscriptionsOk() && Synced(subscribers, n) && n < nextId
      requires 1 <= |published| && event == published[|published| - 1]
      requires RetainedUpTo(|published| - 1) && (replayOverflowed <==> |retained| < |published| - 1)
      requires |retained| <= replayCapacity && 1 <= replayCapacity
      modifies `retained, `failures, `lost, `replayOverflowed, `subscribers, `subscriptionBytes, `fates, `receivers,
               capacity`events
      ensures capacity.Valid() && capacity.events == Held()
      ensures SubscriptionsOk() && Synced(subscribers, n)
      ensures RetainedUpTo(|published|) && (replayOverflowed <==> |retained| < |published|)
      ensures 1 <= replayCapacity && |retained| <= replayCapacity && |failures| <= old(|failures|)
              && subscribers <= old(subscribers)
      ensures old(replayOverflowed) ==> replayOverflowed
      ensures HandleBytes() == old(HandleBytes())
      ensures retained != [] <==> !Exhausted(event)
      ensures SameQueues(old(receivers), receivers) && (subscribers != old(subscribers) ==> Exhausted(event))
      ensures old(Roomy(event, replaced)) && old(|retained|) < replayCapacity ==>
                && retained == old(retained) + [event] && failures == old(failures)
                && replayOverflowed == old(replayOverflowed)
                && capacity.events == old(capacity.events) - replaced + sizing.event(event)
      ensures Spent(old(Unpublished()), Account(), sizing.event(event), Exhausted(event))
    {
      hide HistoryBytes, SubscriptionsOk, HandleBytes, PendingBytes, Held, IsSuffix, Synced, RunUpTo, SameQueues, Spent,
           Firm, Fixed, Exhausted, Roomy, Total, Unpublished;
      HeldParts();
      ghost var books := Unpublished();
      var ok := Admit(event, replaced, n);
      ghost var before, admitted := retained, Account();
      HeldParts();
      TrimRetained();
      HeldParts();
      SuffixLengths(retained, before);
      ExhaustedIs(event);
      FixedIs();
      SpentTrimmed(books, admitted, |retained|, sizing.event(event), Exhausted(event));
      RunSuffix(published, before, retained, |published|);
      if !ok {
        replayOverflowed := true;
      }
    }

    lemma HistoryEmpty()
      ensures retained == [] && failures == [] ==> HistoryBytes() == 0
    {
    }

    lemma StarvedIs(event: Event)
      ensures Starved(event) <==> capacity.limit < Fixed() + sizing.event(event)
                                  || capacity.limit < Fixed() + RecordBytes(event, sizing)
    {
    }

    lemma SameRecordBytes(k: nat, envelope: Event)
      ensures FailureSize(sizing)(FailureOf(k, envelope)) == RecordBytes(envelope, sizing)
    {
    }

    lemma ExhaustedIs(event: Event)
      ensures Exhausted(event) <==> capacity.limit < Fixed() + sizing.event(event)
    {
    }

    /** Enforces the count ceiling of the replay log. */
    method TrimRetained()
      requires capacity.Valid() && HistoryBytes() <= capacity.events && 1 <= replayCapacity
      modifies `retained, `replayOverflowed, capacity`events
      ensures capacity.Valid() && capacity.events - HistoryBytes() == old(capacity.events - HistoryBytes())
      ensures |retained| == if old(|retained|) > replayCapacity then replayCapacity else old(|retained|)
      ensures old(|retained|) <= replayCapacity ==> capacity.events == old(capacity.events)
      ensures IsSuffix(retained, old(retained))
      ensures replayOverflowed <==> old(replayOverflowed) || |retained| < |old(retained)|
    {
      hide Total;
      ghost var cut := 0;
      while |retained| > replayCapacity
        invariant capacity.Valid() && capacity.events - HistoryBytes() == old(capacity.events - HistoryBytes())
        invariant cut <= |old(retained)| && retained == old(retained)[cut..]
        invariant cut > 0 ==> |retained| >= replayCapacity
        invariant cut == 0 ==> capacity.events == old(capacity.events)
        invariant replayOverflowed <==> old(replayOverflowed) || cut > 0
      {
        var _ := ReleaseOldestRetained();
        cut := cut + 1;
        replayOverflowed := true;
      }
    }

    /** Numbers one event, publishes it and brings it into the replay log. */
    method AppendOne(envelope: Event, replaced: nat, ghost n: nat, ghost origin: Origin)
      requires Steady(replaced, n) && n <= |published| && envelope.id == nextId
      requires origin.Overflow? ==> Unwarned(origins) && replayOverflowed
      requires origin.Batch? ==> envelope.payload.CaptureRowsAdded? && envelope.runtimeEpoch.Some?
                                 && 1 <= |envelope.payload.rows| <= CAPTURE_BATCH_SIZE
      requires origin.Overflow? ==> published != [] && Announces(envelope, published[|published| - 1])
      modifies `nextId, `retained, `failures, `lost, `replayOverflowed, `subscribers, `subscriptionBytes, `fates,
               `receivers, `published, `origins, capacity`events
      ensures Steady(0, n)
      ensures old(replayOverflowed) ==> replayOverflowed
      ensures published == old(published) + [envelope] && origins == old(origins) + [origin]
      ensures Batched() ==
                old(Batched()) + if origin.Batch? then Tag(envelope.payload.rows, envelope.runtimeEpoch) else []
      ensures HandleBytes() == old(HandleBytes()) && subscribers <= old(subscribers)
      ensures retained != [] <==> !Exhausted(envelope)
      ensures SameQueues(old(receivers), receivers) && (subscribers != old(subscribers) ==> Exhausted(envelope))
      ensures old(Roomy(envelope, replaced)) && old(|retained|) < replayCapacity ==>
                && retained == old(retained) + [envelope] && failures == old(failures)
                && replayOverflowed == old(replayOverflowed)
                && capacity.events == old(capacity.events) - replaced + sizing.event(envelope)
      ensures Spent(old(Account()), Account(), sizing.event(envelope), Exhausted(envelope))
    {
      hide HistoryBytes, SubscriptionsOk, HandleBytes, PendingBytes, Synced, RunUpTo, Numbered, CaptureLog, SameQueues,
           Spent, Firm, Exhausted, Roomy, OriginsOk, Announces;
      ghost var live := subscribers;
      nextId := nextId + 1;
      Log(envelope, origin);
      Retain(envelope, replaced, n);
      SubsetSize(subscribers, live);
    }

    /** The warning that the log was cut for `envelope` takes the next id. */
    method AppendNotice(envelope: Event, ghost n: nat) returns (notice: Event)
      requires Steady(0, n) && n <= |published| && Unwarned(origins) && replayOverflowed
      requires published != [] && published[|published| - 1] == envelope
      modifies `nextId, `retained, `failures, `lost, `replayOverflowed, `subscribers, `subscriptionBytes, `fates,
               `receivers, `published, `origins, capacity`events
      ensures Steady(0, n) && replayOverflowed
      ensures notice == Warning(|old(published)| + 1, envelope, LOG_TRIMMED) && Announces(notice, envelope)
      ensures published == old(published) + [notice] && origins == old(origins) + [Overflow]
      ensures Batched() == old(Batched())
      ensures SameQueues(old(receivers), receivers) && Fixed() == old(Fixed()) && subscribers <= old(subscribers)
      ensures subscribers != old(subscribers) ==> Exhausted(notice)
      ensures Exhausted(envelope) == old(Exhausted(envelope))
      ensures Spent(old(Account()), Account(), sizing.event(notice), Exhausted(notice))
    {
      hide *;
      SteadyNext(0, n);
      notice := Warning(nextId, envelope, LOG_TRIMMED);
      WarningAbout(nextId, envelope, LOG_TRIMMED);
      FixedIs();
      ExhaustedIs(envelope);
      AppendOne(notice, 0, n, Overflow);
      FixedIs();
      ExhaustedIs(envelope);
    }

    /**
     * Publishes one event into the log. The first event that makes the log incomplete is
     * followed by one resource warning, which is itself an ordinary logged event.
     */
    method AppendLog(replaced: nat, pending: PendingEvent, ghost origin: Origin)
      returns (envelope: Event, warning: Option<Event>)
      requires Steady(replaced, |published|) && !origin.Overflow?
      requires origin.Batch? ==> pending.payload.CaptureRowsAdded? && pending.runtimeEpoch.Some?
                                 && 1 <= |pending.payload.rows| <= CAPTURE_BATCH_SIZE
      modifies `nextId, `retained, `failures, `lost, `replayOverflowed, `subscribers, `subscriptionBytes, `fates,
               `receivers, `published, `origins, capacity`events
      ensures Steady(0, |old(published)|)
      ensures envelope == Envelope(|old(published)| + 1, pending)
      ensures warning.Some? <==> !old(replayOverflowed) && replayOverflowed
      ensures old(replayOverflowed) ==> replayOverflowed
      ensures warning.Some? ==> warning.value == Warning(|old(published)| + 2, envelope, LOG_TRIMMED)
                                && Announces(warning.value, envelope)
      ensures published == old(published) + [envelope] + if warning.Some? then [warning.value] else []
      ensures origins == old(origins) + [origin] + if warning.Some? then [Overflow] else []
      ensures Batched() ==
                old(Batched()) + if origin.Batch? then Tag(pending.payload.rows, pending.runtimeEpoch) else []
      ensures warning.None? ==> (retained != [] <==> !Exhausted(envelope))
      ensures SameQueues(old(receivers), receivers) && Fixed() == old(Fixed()) && subscribers <= old(subscribers)
      ensures subscribers != old(subscribers) ==> Exhausted(envelope) || (warning.Some? && Exhausted(warning.value))
      ensures old(Roomy(Envelope(|published| + 1, pending), replaced)) && old(|retained|) < replayCapacity ==>
                && warning.None? && retained == old(retained) + [envelope] && failures == old(failures)
                && capacity.events == old(capacity.events) - replaced + sizing.event(envelope)
                && replayOverflowed == old(replayOverflowed) && subscribers == old(subscribers)
      ensures Spent(old(Account()), Account(),
                    sizing.event(envelope) + (if warning.Some? then sizing.event(warning.value) else 0),
                    Exhausted(envelope) || (warning.Some? && Exhausted(warning.value)))
    {
      hide *;
      SteadyNext(replaced, |published|);
      ghost var n := |published|;
      EnvelopeIs(nextId, pending);
      envelope := Envelope(nextId, pending);
      var overflowWasActive := replayOverflowed;
      ghost var before, books, sources := receivers, Account(), origins;
      SteadyUnwarned(replaced, n);
      FixedIs();
      AppendOne(envelope, replaced, n, origin);
      FixedIs();
      if !overflowWasActive && replayOverflowed {
        ghost var between, appended, first := receivers, Account(), Exhausted(envelope);
        StillUnwarned(sources, origin);
        var notice := AppendNotice(envelope, n);
        SameQueuesOn(before, between, receivers);
        SpentOn(books, appended, Account(), sizing.event(envelope), sizing.event(notice), first, Exhausted(notice),
                Exhausted(envelope) || Exhausted(notice));
        warning := Some(notice);
      } else {
        warning := None;
      }
    }

    /** Reserves room without cancelling anybody; the replay log stays a run that ends at the same event. */
    method ReserveOptional(bytes: nat) returns (ok: bool)
      requires capacity.Valid() && Held() <= capacity.events && SubscriptionsOk() && RetainedUpTo(|published|)
      modifies `retained, `failures, `lost, `replayOverflowed, capacity`events
      ensures capacity.Valid() && SubscriptionsOk() && RetainedUpTo(|published|)
      ensures capacity.events - Held() == old(capacity.events - Held()) + if ok then bytes else 0
      ensures |retained| <= old(|retained|) <= |published| && |failures| <= old(|failures|)
      ensures replayOverflowed <==> old(replayOverflowed) || |retained| < |old(retained)|
      ensures replayOverflowed <==>
                || old(replayOverflowed)
                || (old(retained) != [] && capacity.limit < capacity.sessions + old(capacity.events) + bytes)
      ensures !ok ==> retained == [] && failures == [] && capacity.limit < capacity.sessions + capacity.events + bytes
      ensures old(LogOk()) ==> LogOk()
      ensures Account().firm <= old(Account()).firm
      ensures old(capacity.events) == old(Held()) ==> Spent(old(Account()), Account(), bytes, false)
      ensures capacity.sessions + old(capacity.events) + bytes <= capacity.limit ==>
                ok && retained == old(retained) && failures == old(failures)
                && capacity.events == old(capacity.events) + bytes
    {
      hide HistoryBytes, SubscriptionsOk, HandleBytes, PendingBytes, IsSuffix, RunUpTo, Numbered, Spent, Served, Yields,
           Total;
      ServedSelf(fates, false);
      HeldIs();
      ghost var books := Account();
      ghost var tight := capacity.limit < capacity.sessions + capacity.events + bytes - Total(retained, sizing.event);
      ghost var before, beforeFailures := retained, failures;
      ok := ReserveKept(0, bytes);
      RunSuffix(published, before, retained, |published|);
      SuffixLengths(failures, beforeFailures);
      if old(capacity.events) == old(Held()) {
        YieldsSpent(beforeFailures, failures, books, Account(), tight, bytes, false, sizing);
      }
    }

    // ---- live delivery ----

    /** Nothing is left to reclaim and the event still does not fit. */
    ghost predicate NoRoom(event: Event)
      reads `retained, `failures, capacity
    {
      retained == [] && failures == [] && capacity.limit < capacity.sessions + capacity.events + sizing.event(event)
    }

    lemma NoRoomIs(event: Event)
      ensures NoRoom(event) <==>
                && retained == [] && failures == []
                && capacity.limit < capacity.sessions + capacity.events + sizing.event(event)
    {
    }

    /** Room for `n` copies of the event as things are. */
    ghost predicate Spacious(n: nat, event: Event)
      reads capacity
    {
      capacity.sessions + capacity.events + Copies(n, sizing.event(event)) <= capacity.limit
    }

    lemma OneOfMany(n: nat, event: Event)
      requires Spacious(n + 1, event)
      ensures capacity.sessions + capacity.events + sizing.event(event) + Copies(n, sizing.event(event)) <=
                capacity.limit
    {
    }

    /** Pays for one queued copy of the event from history and records. */
    method ReserveCopy(envelope: Event) returns (ok: bool)
      requires capacity.Valid() && Held() <= capacity.events && LogOk() && SubscriptionsOk()
      modifies `retained, `failures, `lost, `replayOverflowed, capacity`events
      ensures capacity.Valid() && LogOk() && SubscriptionsOk()
      ensures capacity.events - Held() == old(capacity.events - Held()) + if ok then sizing.event(envelope) else 0
      ensures |retained| <= old(|retained|) && |failures| <= old(|failures|)
      ensures old(replayOverflowed) ==> replayOverflowed
      ensures if ok then !old(NoRoom(envelope)) && sizing.event(envelope) <= capacity.events else NoRoom(envelope)
      ensures Account().firm <= old(Account()).firm
      ensures old(capacity.events) == old(Held()) ==>
                Spent(old(Account()), Account(), sizing.event(envelope), false)
      ensures capacity.sessions + old(capacity.events) + sizing.event(envelope) <= capacity.limit ==>
                && ok && retained == old(retained) && failures == old(failures)
                && capacity.events == old(capacity.events) + sizing.event(envelope)
    {
      hide *;
      NoRoomIs(envelope);
      LedgerFits();
      OverflowIs();
      ok := ReserveOptional(sizing.event(envelope));
      NoRoomIs(envelope);
      LedgerFits();
      OverflowIs();
    }

    /** Offers one event to one live queue; refused only by a full queue or an exhausted ledger. */
    method Deliver(k: nat, envelope: Event) returns (ok: bool)
      requires capacity.Valid() && Held() <= capacity.events && LogOk() && SubscriptionsOk()
      requires k in subscribers && k in history && k in receivers
      requires End(history[k], Some(receivers[k])) == envelope.id - 1
      requires 1 <= envelope.id <= |published| && published[envelope.id - 1] == envelope
      modifies `retained, `failures, `lost, `replayOverflowed, `receivers, capacity`events
      ensures capacity.Valid() && LogOk() && SubscriptionsOk()
      ensures capacity.events - Held() == old(capacity.events - Held())
      ensures |retained| <= old(|retained|) && |failures| <= old(|failures|)
      ensures old(replayOverflowed) ==> replayOverflowed
      ensures receivers ==
                if ok then old(receivers)[k := Queued(old(receivers)[k], envelope, sizing)] else old(receivers)
      ensures !ok ==> Full(receivers, k) || NoRoom(envelope)
      ensures old(NoRoom(envelope)) ==> NoRoom(envelope) && !ok
      ensures HandleBytes() >= old(HandleBytes())
      ensures old(capacity.events) == old(Held()) ==>
                Spent(old(Account()), Account(), sizing.event(envelope), false)
      ensures capacity.sessions + old(capacity.events) + sizing.event(envelope) <= capacity.limit ==>
                && retained == old(retained) && failures == old(failures)
                && capacity.events <= old(capacity.events) + sizing.event(envelope)
                && (ok || Full(old(receivers), k))
    {
      hide *;
      FullIs(receivers, k);
      ghost var books := Account();
      QueueWithin(k);
      OverflowIs();
      ok := ReserveCopy(envelope);
      if ok {
        ok := TrySend(k, envelope, books);
      }
    }

    lemma QueueWithin(k: nat)
      requires SubscriptionsOk() && k in receivers
      ensures |receivers[k].queue| <= receivers[k].capacity
    {
      hide SubscriptionsOk, TableOk;
      ReceiverFacts(k);
    }

    /** The bounded channel behind a reservation: the event goes in, or its bytes are given back. */
    method TrySend(k: nat, envelope: Event, ghost books: Books) returns (ok: bool)
      requires capacity.Valid() && sizing.event(envelope) <= capacity.events && SubscriptionsOk()
      requires k in subscribers && k in history && k in receivers
      requires End(history[k], Some(receivers[k])) < |published|
      requires published[End(history[k], Some(receivers[k]))] == envelope
      modifies `receivers, capacity`events
      ensures capacity.Valid() && SubscriptionsOk()
      ensures ok <==> |old(receivers)[k].queue| < old(receivers)[k].capacity
      ensures receivers ==
                if ok then old(receivers)[k := Queued(old(receivers)[k], envelope, sizing)] else old(receivers)
      ensures HandleBytes() == old(HandleBytes()) + if ok then sizing.event(envelope) else 0
      ensures capacity.events == old(capacity.events) - if ok then 0 else sizing.event(envelope)
      ensures capacity.events - Held() == old(capacity.events - Held()) - sizing.event(envelope)
      ensures old(Spent(books, Account(), sizing.event(envelope), false)) && old(Account()).firm <= books.firm ==>
                Spent(books, Account(), sizing.event(envelope), false)
    {
      hide HistoryBytes, HandleBytes, PendingBytes, Total, SubscriptionsOk, End, Spent;
      ghost var reserved := Account();
      ghost var paid := Spent(books, reserved, sizing.event(envelope), false) && reserved.firm <= books.firm;
      if |receivers[k].queue| < receivers[k].capacity {
        Enqueue(k, envelope);
        if paid {
          SpentGrown(books, reserved, Account().firm, sizing.event(envelope), false);
        }
        return true;
      }
      ghost var before := receivers;
      var bytes := sizing.event(envelope);
      var receiver := receivers[k].(queuedBytes := receivers[k].queuedBytes + bytes);
      var released := if receiver.queuedBytes < bytes then receiver.queuedBytes else bytes;
      receivers := receivers[k := receiver.(queuedBytes := SatSub(receiver.queuedBytes, bytes))];
      assert receivers == before;
      capacity.ReleaseEventBytes(released);
      return false;
    }

    /** Puts an event that was paid for into a queue that has room for it. */
    method Enqueue(k: nat, envelope: Event)
      requires SubscriptionsOk() && k in subscribers && k in history && k in receivers
      requires |receivers[k].queue| < receivers[k].capacity
      requires End(history[k], Some(receivers[k])) < |published|
      requires published[End(history[k], Some(receivers[k]))] == envelope
      modifies `receivers
      ensures SubscriptionsOk() && receivers == old(receivers)[k := Queued(old(receivers)[k], envelope, sizing)]
      ensures HandleBytes() == old(HandleBytes()) + sizing.event(envelope)
    {
      hide TableOk, FailuresOk, FatesOk, LostOk, TableTotal;
      ghost var before := receivers;
      TableKeys(history, subscribers, receivers, replays, published, sizing);
      var receiver := receivers[k];
      receiver := receiver.(queuedBytes := receiver.queuedBytes + sizing.event(envelope));
      receivers := receivers[k := receiver.(queue := receiver.queue + [envelope])];
      QueueKeepsTable(history, subscribers, before, replays, failures, published, sizing, k, envelope);
      FatesKept(fates, history, subscribers, before, failures, history, receivers, k);
      FatesKnown(fates, history, subscribers, before, failures);
      LostKept(lost, fates, history, before, failures, history, receivers);
      TableTotalChange(before, receivers, QueuedBytes, nextSubscriptionId, k);
    }

    lemma ReceiverFacts(k: nat)
      requires SubscriptionsOk() && k in receivers
      ensures k in history && 1 <= k < nextSubscriptionId
      ensures |receivers[k].queue| <= receivers[k].capacity
      ensures receivers[k].queuedBytes == Total(receivers[k].queue, sizing.event)
    {
      TableKeys(history, subscribers, receivers, replays, published, sizing);
      assert SubscriptionOk(history[k], k in subscribers, Lookup(receivers, k), Lookup(replays, k), published, sizing);
    }

    /** The only two reasons for which an event is not delivered. */
    ghost predicate Refuses(k: nat, event: Event)
      reads `retained, `failures, `receivers, capacity
    {
      Full(receivers, k) || NoRoom(event)
    }

    /** The queue was full already before the event was offered to anybody, or there is no room. */
    ghost predicate RefusedBy(k: nat, before: map<nat, Receiver>, event: Event)
      reads `retained, `failures, capacity
    {
      Full(before, k) || NoRoom(event)
    }

    /** Whoever is listed refused for one of the two reasons. */
    ghost predicate AllRefused(refused: seq<nat>, before: map<nat, Receiver>, event: Event)
      reads `retained, `failures, capacity
    {
      forall i :: 0 <= i < |refused| ==> RefusedBy(refused[i], before, event)
    }

    lemma RefusalsExplained(refused: seq<nat>, live: set<nat>, before: map<nat, Receiver>, event: Event)
      requires AllRefused(refused, before, event) && capacity.events == Held() && ToSet(refused) <= live
      ensures Forced(live, live - ToSet(refused), before, Exhausted(event))
      ensures Open(live, before) && AllFull(refused, before) ==> refused == []
      ensures refused == [] ==> live - ToSet(refused) == live
    {
      hide Full, HistoryBytes, HandleBytes, PendingBytes, Forced, Open;
      HistoryEmpty();
      OnlyFullRefuse(refused, live, before);
      RefusalsForced(refused, live, before, Exhausted(event));
    }

    /** Offers the event to one of the subscriptions in `waiting`, which have not been offered it yet. */
    method OfferOne(k: nat, envelope: Event, ghost waiting: set<nat>) returns (ok: bool)
      requires capacity.Valid() && capacity.events == Held() && LogOk() && SubscriptionsOk() && BoundsOk()
      requires 1 <= envelope.id <= |published| && published[envelope.id - 1] == envelope
      requires k in waiting && waiting <= subscribers
      requires Synced(waiting, envelope.id - 1) && Synced(subscribers - waiting, envelope.id)
      modifies `retained, `failures, `lost, `replayOverflowed, `receivers, capacity`events
      ensures capacity.Valid() && capacity.events == Held() && LogOk() && SubscriptionsOk() && BoundsOk()
      ensures old(replayOverflowed) ==> replayOverflowed
      ensures Spent(old(Account()), Account(), sizing.event(envelope), false)
      ensures ok ==> Synced(waiting - {k}, envelope.id - 1) && Synced(subscribers - (waiting - {k}), envelope.id)
      ensures !ok ==> Synced(waiting, envelope.id - 1) && Synced(subscribers - waiting, envelope.id)
      ensures forall j :: j != k ==> Lookup(receivers, j) == old(Lookup(receivers, j))
      ensures !ok ==> Refuses(k, envelope) && receivers == old(receivers)
      ensures old(NoRoom(envelope)) ==> NoRoom(envelope) && !ok
      ensures HandleBytes() >= old(HandleBytes()) && SameBounds(old(receivers), receivers)
      ensures k in old(receivers)
      ensures capacity.sessions + old(capacity.events) + sizing.event(envelope) <= capacity.limit ==>
                && retained == old(retained) && failures == old(failures)
                && capacity.events <= old(capacity.events) + sizing.event(envelope)
                && (ok || Full(old(receivers), k))
    {
      hide HistoryBytes, TableOk, FailuresOk, FatesOk, LostOk, HandleBytes, PendingBytes, Held, LogOk, Spent,
           Account, Full, NoRoom;
      TableKeys(history, subscribers, receivers, replays, published, sizing);
      ghost var before := receivers;
      ok := Deliver(k, envelope);
      if ok {
        AllAtQueued(waiting, envelope.id - 1, history, before, k, envelope, sizing);
        AllAtQueued(subscribers - waiting, envelope.id, history, before, k, envelope, sizing);
      }
    }

    /** The bytes in every live queue. */
    ghost predicate LoadsOf(load: map<nat, nat>)
      reads `subscribers, `receivers
    {
      && load.Keys == subscribers
      && forall k :: k in subscribers ==> k in receivers && load[k] == receivers[k].queuedBytes
    }

    ghost predicate IsLeast(k: nat, ids: set<nat>, load: map<nat, nat>)
      requires k in ids && ids <= load.Keys
    {
      forall j :: j in ids ==> load[k] <= load[j]
    }

    lemma NoneSynced(n: nat)
      ensures Synced({}, n)
    {
    }

    method Loads() returns (ids: set<nat>, load: map<nat, nat>)
      requires SubscriptionsOk()
      ensures ids == subscribers == load.Keys
      ensures LoadsOf(load)
      ensures Refusals([], subscribers, subscribers)
    {
      TableKeys(history, subscribers, receivers, replays, published, sizing);
      ids := subscribers;
      load := map k | k in subscribers :: receivers[k].queuedBytes;
    }

    method LeastLoaded(ids: set<nat>, load: map<nat, nat>) returns (k: nat)
      requires ids != {} && ids <= load.Keys
      ensures k in ids && IsLeast(k, ids, load)
    {
      MinimumExists(ids, load);
      k :| k in ids && forall j | j in ids :: load[k] <= load[j];
    }

    /** The queues that wait for the event are as they were `before`, and whoever refused it had to. */
    ghost predicate Offering(before: map<nat, Receiver>, handles: nat, refused: seq<nat>, remaining: set<nat>,
                             event: Event)
      reads `retained, `failures, `receivers, `replays, `nextSubscriptionId, capacity
    {
      && (forall i :: 0 <= i < |refused| ==> refused[i] !in remaining && RefusedBy(refused[i], before, event))
      && (forall k :: k in remaining ==> Lookup(receivers, k) == Lookup(before, k))
      && HandleBytes() >= handles && SameBounds(before, receivers)
    }

    /** There is room for `left` more copies, nothing was given up, and only full queues refused. */
    ghost predicate Unhurt(before: map<nat, Receiver>, log: seq<Event>, records: seq<Failure>, refused: seq<nat>,
                           left: nat, event: Event)
      reads `retained, `failures, capacity
    {
      Spacious(left, event) && retained == log && failures == records && AllFull(refused, before)
    }

    lemma OfferingStarts(event: Event)
      ensures Offering(receivers, HandleBytes(), [], subscribers, event)
      ensures Spacious(|subscribers|, event) ==> Unhurt(receivers, retained, failures, [], |subscribers|, event)
    {
      hide HandleBytes, Spacious;
    }

    lemma OfferingEnds(before: map<nat, Receiver>, handles: nat, log: seq<Event>, records: seq<Failure>,
                       refused: seq<nat>, event: Event)
      requires Offering(before, handles, refused, {}, event)
      ensures AllRefused(refused, before, event)
      ensures HandleBytes() >= handles && SameBounds(before, receivers)
      ensures Unhurt(before, log, records, refused, 0, event) ==>
                retained == log && failures == records && AllFull(refused, before)
    {
      hide HandleBytes, Spacious;
    }

    lemma OnlyForRoom(before: map<nat, Receiver>, handles: nat, refused: seq<nat>, remaining: set<nat>, event: Event)
      requires Offering(before, handles, refused, remaining, event)
      ensures NoRoom(event) || AllFull(refused, before)
    {
      hide HandleBytes, SameBounds, NoRoom, Full;
    }

    /** One step of the offer. */
    method OfferNext(k: nat, envelope: Event, ghost waiting: set<nat>, ghost remaining: set<nat>,
                     ghost refused: seq<nat>, ghost before: map<nat, Receiver>, ghost handles: nat,
                     ghost log: seq<Event>, ghost records: seq<Failure>, ghost books: Books, ghost offered: nat)
      returns (ok: bool)
      requires capacity.Valid() && capacity.events == Held() && LogOk() && SubscriptionsOk() && BoundsOk()
      requires 1 <= envelope.id <= |published| && published[envelope.id - 1] == envelope
      requires k in waiting && waiting <= subscribers && k in remaining
      requires Synced(waiting, envelope.id - 1) && Synced(subscribers - waiting, envelope.id)
      requires Offering(before, handles, refused, remaining, envelope)
      requires Spent(books, Account(), Copies(offered, sizing.event(envelope)), false)
      modifies `retained, `failures, `lost, `replayOverflowed, `receivers, capacity`events
      ensures capacity.Valid() && capacity.events == Held() && LogOk() && SubscriptionsOk() && BoundsOk()
      ensures old(replayOverflowed) ==> replayOverflowed
      ensures Spent(books, Account(), Copies(offered + 1, sizing.event(envelope)), false)
      ensures ok ==> Synced(waiting - {k}, envelope.id - 1) && Synced(subscribers - (waiting - {k}), envelope.id)
      ensures !ok ==> Synced(waiting, envelope.id - 1) && Synced(subscribers - waiting, envelope.id)
      ensures ok ==> AllFull(refused, before)
      ensures Offering(before, handles, if ok then refused else refused + [k], remaining - {k}, envelope)
      ensures old(Unhurt(before, log, records, refused, |remaining|, envelope)) ==>
                Unhurt(before, log, records, if ok then refused else refused + [k], |remaining - {k}|, envelope)
    {
      hide HistoryBytes, HandleBytes, Held, LogOk, BoundsOk, SubscriptionsOk, Synced, SameBounds, Spent, Account, Full,
           NoRoom;
      ghost var soFar := Account();
      OnlyForRoom(before, handles, refused, remaining, envelope);
      CopiesMore(offered, sizing.event(envelope));
      ghost var start := receivers;
      ghost var spacious := Spacious(|remaining|, envelope);
      if spacious {
        OneOfMany(|remaining| - 1, envelope);
      }
      ok := OfferOne(k, envelope, waiting);
      SameBoundsOn(before, start, receivers);
      SpentOn(books, soFar, Account(), Copies(offered, sizing.event(envelope)), sizing.event(envelope), false, false,
              false);
      FullSame(before, start, k);
      assert |remaining - {k}| == |remaining| - 1;
    }

    /** What is known between two offers of one event. */
    ghost predicate InRound(r: Round, event: Event)
      reads `nextId, `retained, `failures, `replayOverflowed, `pendingCapture, `nextSubscriptionId, `subscribers,
            `subscriptionBytes, `receivers, `replays, `history, `published, `fates, `lost, capacity
    {
      && capacity.Valid() && capacity.events == Held() && LogOk() && SubscriptionsOk() && BoundsOk()
      && 1 <= event.id <= |published| && published[event.id - 1] == event
      && r.waiting <= subscribers && Refusals(r.refused, r.waiting, r.remaining)
      && Synced(r.waiting, event.id - 1) && Synced(subscribers - r.waiting, event.id)
      && Offering(r.before, r.handles, r.refused, r.remaining, event)
      && r.offered + |r.remaining| == |subscribers|
      && Spent(r.books, Account(), Copies(r.offered, sizing.event(event)), false)
      && (r.spacious ==> Unhurt(r.before, r.log, r.records, r.refused, |r.remaining|, event))
    }

    lemma RoundStarts(event: Event)
      requires 1 <= event.id <= |published| && published[event.id - 1] == event && Steady(0, event.id - 1)
      ensures InRound(Round(subscribers, subscribers, [], receivers, HandleBytes(), retained, failures, Account(), 0,
                            Spacious(|subscribers|, event)), event)
    {
      hide HistoryBytes, HandleBytes, Held, LogOk, BoundsOk, SubscriptionsOk, Synced, Refusals, NoRoom, Spacious,
           Offering, Unhurt, Spent, Account, Copies, Steady;
      SteadyParts(0, event.id - 1);
      OfferingStarts(event);
      NoneRefused(subscribers);
      assert subscribers - subscribers == {};
      NoneSynced(event.id);
      NoCopies(sizing.event(event));
      SpentNone(Account(), 0, false);
    }

    lemma RoundKeys(r: Round, event: Event)
      requires InRound(r, event)
      ensures r.remaining <= r.waiting <= subscribers
    {
      hide HistoryBytes, HandleBytes, Held, LogOk, BoundsOk, SubscriptionsOk, Synced, Refusals, Offering, Unhurt, Spent,
           Account, Copies;
      RefusalsKeys(r.refused, r.waiting, r.remaining);
    }

    lemma RoundRefusals(r: Round, event: Event)
      requires InRound(r, event)
      ensures Refusals(r.refused, r.waiting, r.remaining)
    {
      hide HistoryBytes, HandleBytes, Held, LogOk, BoundsOk, SubscriptionsOk, Synced, Refusals, Offering, Unhurt, Spent,
           Account, Copies;
    }

    lemma LoadsAre(load: map<nat, nat>)
      requires LoadsOf(load)
      ensures load.Keys == subscribers && forall k :: k in subscribers ==> load[k] == Charge(receivers, k)
    {
    }

    lemma LeastIs(k: nat, ids: set<nat>, load: map<nat, nat>)
      requires k in ids && ids <= load.Keys && IsLeast(k, ids, load)
      ensures forall j :: j in ids ==> load[k] <= load[j]
    {
    }

    lemma RoundEnds(r: Round, event: Event)
      requires InRound(r, event) && r.remaining == {}
      ensures capacity.Valid() && capacity.events == Held() && LogOk() && SubscriptionsOk() && BoundsOk()
      ensures Distinct(r.refused) && ToSet(r.refused) <= subscribers
      ensures Synced(ToSet(r.refused), event.id - 1) && Synced(subscribers - ToSet(r.refused), event.id)
      ensures Spent(r.books, Account(), Copies(|subscribers|, sizing.event(event)), false)
      ensures AllRefused(r.refused, r.before, event)
      ensures HandleBytes() >= r.handles && SameBounds(r.before, receivers)
      ensures r.spacious ==> retained == r.log && failures == r.records && AllFull(r.refused, r.before)
    {
      hide HistoryBytes, HandleBytes, Held, LogOk, BoundsOk, SubscriptionsOk, Synced, Refusals, Offering, Unhurt, Spent,
           Account, Copies, ToSet, Distinct, AllRefused, AllFull, SameBounds;
      OfferingEnds(r.before, r.handles, r.log, r.records, r.refused, event);
      RefusalsEnd(r.refused, r.waiting);
    }

    /** One round of the loop over the queues. */
    method OfferRound(k: nat, envelope: Event, ghost r: Round) returns (ok: bool)
      requires InRound(r, envelope) && k in r.remaining
      modifies `retained, `failures, `lost, `replayOverflowed, `receivers, capacity`events
      ensures InRound(Offered(r, k, ok), envelope) && (ok ==> AllFull(r.refused, r.before))
      ensures old(replayOverflowed) ==> replayOverflowed
    {
      hide HistoryBytes, HandleBytes, Held, LogOk, BoundsOk, SubscriptionsOk, Synced, Refusals, Offering, Unhurt, Spent,
           Account, Copies, AllFull;
      RefusalsKeys(r.refused, r.waiting, r.remaining);
      RefusalsStep(r.refused, r.waiting, r.remaining, k);
      ok := OfferNext(k, envelope, r.waiting, r.remaining, r.refused, r.before, r.handles, r.log, r.records, r.books,
                      r.offered);
      assert |r.remaining - {k}| == |r.remaining| - 1;
    }

    /** Offers the event to every live queue, least loaded first, and lists the ones that refused it. */
    method OfferAll(envelope: Event) returns (refused: seq<nat>)
      requires 1 <= envelope.id <= |published| && published[envelope.id - 1] == envelope
      requires Steady(0, envelope.id - 1)
      modifies `retained, `failures, `lost, `replayOverflowed, `receivers, capacity`events
      ensures capacity.Valid() && capacity.events == Held() && LogOk() && SubscriptionsOk() && BoundsOk()
      ensures old(replayOverflowed) ==> replayOverflowed
      ensures Distinct(refused) && ToSet(refused) <= subscribers
      ensures Synced(ToSet(refused), envelope.id - 1) && Synced(subscribers - ToSet(refused), envelope.id)
      ensures Spent(old(Account()), Account(), Copies(old(|subscribers|), sizing.event(envelope)), false)
      ensures AllRefused(refused, old(receivers), envelope)
      ensures LighterKept(subscribers, subscribers - ToSet(refused), old(receivers))
      ensures HandleBytes() >= old(HandleBytes()) && SameBounds(old(receivers), receivers)
      ensures old(Spacious(|subscribers|, envelope)) ==>
                retained == old(retained) && failures == old(failures) && AllFull(refused, old(receivers))
    {
      hide *;
      SteadyParts(0, envelope.id - 1);
      var remaining, load := Loads();
      refused := [];
      ghost var round := Round(subscribers, subscribers, [], receivers, HandleBytes(), retained, failures, Account(), 0,
                               Spacious(|subscribers|, envelope));
      RoundStarts(envelope);
      FairStart(subscribers, receivers);
      LoadsAre(load);
      while remaining != {}
        invariant InRound(round, envelope) && round.remaining == remaining && round.refused == refused
        invariant Fair(subscribers, round)
        invariant round.before == old(receivers) && round.handles == old(HandleBytes()) && round.books == old(Account())
        invariant round.log == old(retained) && round.records == old(failures)
        invariant round.spacious == old(Spacious(|subscribers|, envelope))
        invariant old(replayOverflowed) ==> replayOverflowed
        decreases remaining
      {
        RoundKeys(round, envelope);
        RoundRefusals(round, envelope);
        var k := LeastLoaded(remaining, load);
        LeastIs(k, remaining, load);
        var delivered := OfferRound(k, envelope, round);
        FairStep(subscribers, round, k, delivered, load);
        OfferedIs(round, k, delivered);
        round := Offered(round, k, delivered);
        if !delivered {
          refused := refused + [k];
        }
        remaining := remaining - {k};
      }
      RoundEnds(round, envelope);
      RoundRefusals(round, envelope);
      FairEnd(subscribers, round);
    }

    /**
     * Ends a subscription that could not take `envelope`: by a stored failure record, or, if
     * even that record finds no room, through the control lane of the receiver.
     */
    method FailDelivery(k: nat, envelope: Event)
      requires capacity.Valid() && Held() <= capacity.events && LogOk() && SubscriptionsOk() && BoundsOk()
      requires k in subscribers && k in receivers && k in history
      requires End(history[k], Some(receivers[k])) <= envelope.id
      modifies `retained, `failures, `lost, `replayOverflowed, `receivers, `subscribers, `subscriptionBytes, `fates,
               capacity`events
      ensures capacity.Valid() && LogOk() && SubscriptionsOk() && BoundsOk()
      ensures capacity.events - Held() == old(capacity.events - Held())
      ensures old(replayOverflowed) ==> replayOverflowed
      ensures subscribers == old(subscribers) - {k}
      ensures EndedWith(k, old(receivers),
                        Failure(k, Event(envelope.id, envelope.runtimeEpoch, envelope.occurredAt, None, None,
                                         SnapshotRequired(QUEUE_FULL))))
      ensures HandleBytes() == old(HandleBytes())
      ensures old(capacity.events) == old(Held()) ==>
                Spent(old(Account()), Account(), RecordBytes(envelope, sizing), Starved(envelope))
    {
      hide HistoryBytes, HandleBytes, SubscriptionsOk, LogOk, Held, PendingBytes, End, FailureSize, Spent, Account,
           Fixed, Firm, Starved, RecordBytes;
      ghost var books, bytes := Account(), RecordBytes(envelope, sizing);
      SameRecordBytes(k, envelope);
      ghost var live := subscribers;
      StoreOrArm(k, FailureOf(k, envelope));
      SubsetSize(subscribers, live);
      StarvedIs(envelope);
      if old(capacity.events) == old(Held()) {
        SpentMore(books, Account(), bytes, bytes, capacity.limit < Fixed() + bytes, Starved(envelope));
      }
      TrimEnded(k, old(receivers), FailureOf(k, envelope), books, bytes, Starved(envelope));
    }

    /** The count ceiling never takes the newest record. */
    method TrimEnded(ghost k: nat, ghost before: map<nat, Receiver>, ghost failure: Failure, ghost books: Books,
                     ghost need: int, ghost tight: bool)
      requires capacity.Valid() && Held() <= capacity.events && SubscriptionsOk()
      requires k in before && EndedWith(k, before, failure)
      modifies `failures, `lost, capacity`events
      ensures capacity.Valid() && SubscriptionsOk() && |failures| <= FAILURE_CAPACITY
      ensures capacity.events - Held() == old(capacity.events - Held())
      ensures EndedWith(k, before, failure)
      ensures old(Spent(books, Account(), need, tight)) ==> Spent(books, Account(), need, tight)
    {
      hide HistoryBytes, HandleBytes, SubscriptionsOk, PendingBytes, FailureSize, Spent, Discards, Total, IsSuffix;
      ghost var kept, unread, trimmed := failures, lost, Account();
      HistoryIs();
      TrimFailures();
      HistoryIs();
      DiscardsMean(kept, unread, failures, lost, sizing);
      SuffixLengths(failures, kept);
      if failures != [] {
        SuffixEnds(failures, kept);
      }
      if old(Spent(books, Account(), need, tight)) {
        SpentCeiling(books, trimmed, Account(), need, tight);
      }
    }

    /** Ended by a stored record, or, only if nothing reclaimable makes room for one, by an armed notice. */
    ghost predicate EndedWith(k: nat, before: map<nat, Receiver>, failure: Failure)
      requires k in before
      reads `receivers, `failures, `retained, capacity
    {
      || (receivers == before[k := before[k].(cancelled := true)] && failures != []
          && failures[|failures| - 1] == failure)
      || (receivers == before[k := Armed(before[k], failure.event.id)] && failures == [] && retained == []
          && capacity.limit < capacity.sessions + capacity.events + FailureSize(sizing)(failure))
    }

    method StoreOrArm(k: nat, failure: Failure)
      requires capacity.Valid() && Held() <= capacity.events && LogOk() && SubscriptionsOk()
      requires k in subscribers && k in receivers && k in history && failure.subscription == k
      requires End(history[k], Some(receivers[k])) <= failure.event.id && failure.event.payload.SnapshotRequired?
      modifies `retained, `failures, `lost, `replayOverflowed, `receivers, `subscribers, `subscriptionBytes, `fates,
               capacity`events
      ensures capacity.Valid() && LogOk() && SubscriptionsOk()
      ensures capacity.events - Held() == old(capacity.events - Held())
      ensures old(replayOverflowed) ==> replayOverflowed
      ensures |retained| <= old(|retained|) && subscribers == old(subscribers) - {k}
      ensures EndedWith(k, old(receivers), failure)
      ensures HandleBytes() == old(HandleBytes())
      ensures old(capacity.events) == old(Held()) ==>
                Spent(old(Account()), Account(), FailureSize(sizing)(failure),
                      capacity.limit < Fixed() + FailureSize(sizing)(failure))
    {
      hide LogOk, Held, HistoryBytes, HandleBytes, SubscriptionsOk, RunUpTo, Numbered, PendingBytes, End, Spent, Total,
           FailureSize, RetainedUpTo, Fixed, Firm;
      OverflowIs();
      HeldParts();
      ghost var books := Account();
      var bytes := FailureSize(sizing)(failure);
      var stored := ReserveOptional(bytes);
      ghost var reserved := Account();
      HeldParts();
      HistoryEmpty();
      EndWith(k, failure, stored);
      HeldParts();
      FixedIs();
      if old(capacity.events) == old(Held()) {
        ghost var tight := capacity.limit < Fixed() + bytes;
        SpentMore(books, reserved, bytes, bytes, false, tight);
        SpentEnd(books, reserved, Account(), k, fates[k], bytes, tight);
      }
    }

    /** Stores the record that was paid for, or arms the control lane. */
    method EndWith(k: nat, failure: Failure, stored: bool)
      requires SubscriptionsOk() && k in subscribers && k in receivers && k in history && failure.subscription == k
      requires End(history[k], Some(receivers[k])) <= failure.event.id && failure.event.payload.SnapshotRequired?
      modifies `failures, `receivers, `subscribers, `subscriptionBytes, `fates
      ensures SubscriptionsOk() && subscribers == old(subscribers) - {k} && k !in old(fates)
      ensures fates == old(fates)[k := if stored then RecordStored(failure.event.id) else NoticeArmed(failure.event.id)]
      ensures failures == old(failures) + if stored then [failure] else []
      ensures receivers == old(receivers)[k := if stored then old(receivers)[k].(cancelled := true)
                                               else Armed(old(receivers)[k], failure.event.id)]
      ensures HandleBytes() == old(HandleBytes())
      ensures HistoryBytes() == old(HistoryBytes()) + if stored then FailureSize(sizing)(failure) else 0
      ensures 1 <= old(|subscribers|)
      ensures Account() == old(Account()).(live := old(|subscribers|) - 1, fates := fates, records := |failures|,
                                           firm := old(Firm()) + if stored then FailureSize(sizing)(failure) else 0)
    {
      hide HistoryBytes, HandleBytes, SubscriptionsOk, PendingBytes, End, Total, FailureSize;
      if stored {
        TotalPush(failures, failure, FailureSize(sizing));
        StoreFailure(failure);
      } else {
        Terminate(k, failure.event.id);
      }
    }

    method StoreFailure(failure: Failure)
      requires SubscriptionsOk() && failure.subscription in subscribers && failure.event.payload.SnapshotRequired?
      requires failure.subscription in receivers && failure.subscription in history
      requires End(history[failure.subscription], Some(receivers[failure.subscription])) <= failure.event.id
      modifies `failures, `receivers, `subscribers, `subscriptionBytes, `fates
      ensures SubscriptionsOk() && failures == old(failures) + [failure]
      ensures subscribers == old(subscribers) - {failure.subscription}
      ensures receivers ==
                old(receivers)[failure.subscription := old(receivers)[failure.subscription].(cancelled := true)]
      ensures fates == old(fates)[failure.subscription := RecordStored(failure.event.id)]
      ensures failure.subscription !in old(fates)
      ensures HistoryBytes() == old(HistoryBytes()) + FailureSize(sizing)(failure)
      ensures HistoryBytes() == old(HistoryBytes()) + 8 + sizing.event(failure.event)
      ensures HandleBytes() == old(HandleBytes())
    {
      hide TableOk, FailuresOk, FatesOk, LostOk, TableTotal, Total;
      var k := failure.subscription;
      ghost var live, before, kept := subscribers, receivers, failures;
      TableKeys(history, subscribers, receivers, replays, published, sizing);
      CancelKeepsTable(history, live, before, replays, kept, published, sizing, k, 0, false);
      FailureStored(kept, failure, history, live, before, replays, published, sizing);
      OpenLane(k);
      FatesEnd(fates, history, live, before, replays, kept, published, sizing, k, RecordStored(failure.event.id),
               before[k].(cancelled := true));
      LostStored(lost, fates, history, before, kept, failure, before[k].(cancelled := true));
      fates := fates[k := RecordStored(failure.event.id)];
      TotalPush(failures, failure, FailureSize(sizing));
      failures := failures + [failure];
      RemoveSubscriber(k);
      TableTotalChange(before, receivers, QueuedBytes, nextSubscriptionId, k);
    }

    /** Enforces the count ceiling of the failure records, oldest first. */
    method TrimFailures()
      requires capacity.Valid() && HistoryBytes() <= capacity.events && SubscriptionsOk()
      modifies `failures, `lost, capacity`events
      ensures capacity.Valid() && SubscriptionsOk()
      ensures capacity.events - HistoryBytes() == old(capacity.events - HistoryBytes())
      ensures |failures| <= 512 && IsSuffix(failures, old(failures))
      ensures Discards(old(failures), old(lost), failures, lost)
      ensures old(|failures|) <= 512 ==> failures == old(failures)
      ensures old(|failures|) > 512 ==> |failures| == 512
    {
      hide Total, TableOk, FailuresOk, FatesOk, LostOk, Discards;
      ghost var cut := 0;
      DiscardsNone(failures, lost);
      while |failures| > FAILURE_CAPACITY
        invariant capacity.Valid() && capacity.events - HistoryBytes() == old(capacity.events - HistoryBytes())
        invariant cut <= |old(failures)| && failures == old(failures)[cut..]
        invariant Discards(old(failures), old(lost), failures, lost)
        invariant cut > 0 ==> |failures| >= FAILURE_CAPACITY
      {
        DiscardsOne(old(failures), old(lost), failures, lost);
        var _ := ReleaseOldestFailure();
        cut := cut + 1;
      }
      FailuresOkSuffix(old(failures), failures, history, receivers, subscribers);
      FatesSuffix(fates, history, subscribers, receivers, old(failures), failures);
      LostDiscards(old(lost), fates, history, subscribers, receivers, old(failures), failures, lost);
    }

    /** Ends every subscription that refused `envelope`. */
    method FailAll(refused: seq<nat>, envelope: Event)
      requires capacity.Valid() && capacity.events == Held() && LogOk() && SubscriptionsOk() && BoundsOk()
      requires Distinct(refused) && ToSet(refused) <= subscribers && 1 <= envelope.id
      requires Synced(ToSet(refused), envelope.id - 1) && Synced(subscribers - ToSet(refused), envelope.id)
      modifies `retained, `failures, `lost, `replayOverflowed, `receivers, `subscribers, `subscriptionBytes, `fates,
               capacity`events
      ensures capacity.Valid() && capacity.events == Held() && LogOk() && SubscriptionsOk() && BoundsOk()
      ensures old(replayOverflowed) ==> replayOverflowed
      ensures subscribers == old(subscribers) - ToSet(refused) && Synced(subscribers, envelope.id)
      ensures HandleBytes() == old(HandleBytes()) && SameBounds(old(receivers), receivers)
      ensures refused == [] ==>
                retained == old(retained) && failures == old(failures) && replayOverflowed == old(replayOverflowed)
      ensures Spent(old(Account()), Account(), Copies(|refused|, RecordBytes(envelope, sizing)), Starved(envelope))
      decreases |refused|
    {
      hide HistoryBytes, HandleBytes, Held, LogOk, BoundsOk, SubscriptionsOk, Synced, SameBounds, Spent, Account,
           Starved, ToSet, Distinct, RecordBytes;
      SameBoundsSelf(receivers);
      ghost var books, bytes, before, live := Account(), RecordBytes(envelope, sizing), receivers, subscribers;
      SpentNone(books, 0, Starved(envelope));
      if refused == [] {
        RefusedNone(live);
        return;
      }
      RefusedTail(refused);
      FailFirst(refused, envelope);
      ghost var failed, first, between := Account(), Starved(envelope), receivers;
      StarvedIs(envelope);
      FailAll(refused[1..], envelope);
      SameBoundsOn(before, between, receivers);
      StarvedIs(envelope);
      SpentOn(books, failed, Account(), bytes, Copies(|refused| - 1, bytes), first, Starved(envelope),
              Starved(envelope));
    }

    /** Ends the first of the subscriptions that refused `envelope`. */
    method FailFirst(refused: seq<nat>, envelope: Event)
      requires capacity.Valid() && capacity.events == Held() && LogOk() && SubscriptionsOk() && BoundsOk()
      requires refused != [] && Distinct(refused) && ToSet(refused) <= subscribers && 1 <= envelope.id
      requires Synced(ToSet(refused), envelope.id - 1) && Synced(subscribers - ToSet(refused), envelope.id)
      modifies `retained, `failures, `lost, `replayOverflowed, `receivers, `subscribers, `subscriptionBytes, `fates,
               capacity`events
      ensures capacity.Valid() && capacity.events == Held() && LogOk() && SubscriptionsOk() && BoundsOk()
      ensures old(replayOverflowed) ==> replayOverflowed
      ensures subscribers == old(subscribers) - {refused[0]} && ToSet(refused[1..]) <= subscribers
      ensures subscribers - ToSet(refused[1..]) == old(subscribers) - ToSet(refused)
      ensures Synced(ToSet(refused[1..]), envelope.id - 1) && Synced(subscribers - ToSet(refused[1..]), envelope.id)
      ensures HandleBytes() == old(HandleBytes()) && SameBounds(old(receivers), receivers)
      ensures Spent(old(Account()), Account(), RecordBytes(envelope, sizing), Starved(envelope))
    {
      hide HistoryBytes, HandleBytes, Held, LogOk, BoundsOk, TableOk, FailuresOk, FatesOk, LostOk, SameBounds, Spent,
           Account, Starved;
      var k, rest := refused[0], refused[1..];
      RefusedTail(refused);
      TableKeys(history, subscribers, receivers, replays, published, sizing);
      ghost var before, live := receivers, subscribers;
      FailDelivery(k, envelope);
      SameBoundsBut(before, receivers, k);
      AllAtExcept(ToSet(rest), envelope.id - 1, history, before, receivers, k);
      AllAtExcept(live - ToSet(refused), envelope.id, history, before, receivers, k);
      assert subscribers - ToSet(rest) == live - ToSet(refused);
    }

    /** There is room for the event in every queue, and in the ledger for all the copies. */
    ghost predicate Ample(event: Event)
      reads `subscribers, `receivers, capacity
    {
      Spacious(|subscribers|, event) && Open(subscribers, receivers)
    }

    lemma AmpleIs(event: Event)
      ensures Ample(event) <==> Spacious(|subscribers|, event) && Open(subscribers, receivers)
    {
    }

    lemma OverflowIs()
      requires LogOk()
      ensures nextId == |published| + 1 && |retained| <= |published|
      ensures (replayOverflowed <==> |retained| < |published|) && RetainedUpTo(|published|) && Numbered(published)
      ensures RunUpTo(published, retained, |published|)
    {
    }

    /**
     * Hands one published event to every live subscription that is one event behind; those
     * that cannot take it stop being live. Reports whether the replay log was cut for it.
     */
    method DispatchLive(envelope: Event) returns (overflowStarted: bool)
      requires 1 <= envelope.id <= |published| && published[envelope.id - 1] == envelope
      requires Steady(0, envelope.id - 1)
      modifies `retained, `failures, `lost, `replayOverflowed, `receivers, `subscribers, `subscriptionBytes, `fates,
               capacity`events
      ensures Steady(0, envelope.id)
      ensures old(replayOverflowed) ==> replayOverflowed
      ensures overflowStarted <==> !old(replayOverflowed) && replayOverflowed
      ensures subscribers <= old(subscribers) && LighterKept(old(subscribers), subscribers, old(receivers))
      ensures Forced(old(subscribers), subscribers, old(receivers), Exhausted(envelope))
      ensures Fixed() >= old(Fixed()) && SameBounds(old(receivers), receivers)
      ensures old(Ample(envelope)) ==>
                retained == old(retained) && failures == old(failures) && subscribers == old(subscribers)
                && !overflowStarted
      ensures Spent(old(Account()), Account(), DispatchCost(old(|subscribers|), envelope, sizing), Starved(envelope))
    {
      hide *;
      SteadyParts(0, envelope.id - 1);
      OverflowIs();
      var overflowWasActive := replayOverflowed;
      OfferOrEnd(envelope);
      OverflowIs();
      SteadyAgain(envelope.id, overflowWasActive);
      overflowStarted := !overflowWasActive && replayOverflowed;
    }

    /** Every live subscription takes the event or ends. */
    method OfferOrEnd(envelope: Event)
      requires 1 <= envelope.id <= |published| && published[envelope.id - 1] == envelope
      requires Steady(0, envelope.id - 1)
      modifies `retained, `failures, `lost, `replayOverflowed, `receivers, `subscribers, `subscriptionBytes, `fates,
               capacity`events
      ensures capacity.Valid() && capacity.events == Held() && LogOk() && SubscriptionsOk() && BoundsOk()
      ensures Synced(subscribers, envelope.id) && (old(replayOverflowed) ==> replayOverflowed)
      ensures subscribers <= old(subscribers) && LighterKept(old(subscribers), subscribers, old(receivers))
      ensures Forced(old(subscribers), subscribers, old(receivers), Exhausted(envelope))
      ensures Fixed() >= old(Fixed()) && SameBounds(old(receivers), receivers)
      ensures old(Ample(envelope)) ==>
                retained == old(retained) && failures == old(failures) && subscribers == old(subscribers)
      ensures Spent(old(Account()), Account(), DispatchCost(old(|subscribers|), envelope, sizing), Starved(envelope))
    {
      hide Steady, HistoryBytes, HandleBytes, Held, LogOk, BoundsOk, SubscriptionsOk, Synced, ToSet, NoRoom, SameBounds,
           Spacious, Full, Open, Forced, Exhausted, Ample, AllRefused, AllFull, Distinct, Spent, Account, Starved,
           Copies, RecordBytes;
      ghost var before, live := receivers, subscribers;
      AmpleIs(envelope);
      ghost var books := Account();
      var refused := OfferAll(envelope);
      DistinctSize(refused, live);
      CopiesUpTo(|refused|, |live|, RecordBytes(envelope, sizing));
      ghost var offered := Account();
      ghost var between := receivers;
      RefusalsExplained(refused, live, before, envelope);
      ExhaustedIs(envelope);
      FailAll(refused, envelope);
      ExhaustedIs(envelope);
      SameBoundsOn(before, between, receivers);
      SpentOn(books, offered, Account(), Copies(|live|, sizing.event(envelope)),
              Copies(|refused|, RecordBytes(envelope, sizing)),
              false, Starved(envelope), Starved(envelope));
      SpentMore(books, Account(),
                Copies(|live|, sizing.event(envelope)) + Copies(|refused|, RecordBytes(envelope, sizing)),
                DispatchCost(|live|, envelope, sizing), Starved(envelope), Starved(envelope));
    }

    /** The warning for a replay log that was cut while `cause` was being delivered. */
    method RecordOverflowWarning(cause: Event) returns (warning: Event)
      requires Steady(0, |published|) && replayOverflowed && Unwarned(origins)
      requires published != [] && published[|published| - 1] == cause
      modifies `nextId, `retained, `failures, `lost, `replayOverflowed, `published, `origins, capacity`events
      ensures Steady(0, |old(published)|) && replayOverflowed
      ensures warning == Warning(|old(published)| + 1, cause, HISTORY_TRIMMED) && Announces(warning, cause)
      ensures published == old(published) + [warning] && origins == old(origins) + [Overflow]
      ensures Batched() == old(Batched())
      ensures Spent(old(Account()), Account(), sizing.event(warning), false)
    {
      hide *;
      SteadyParts(0, |published|);
      OverflowIs();
      BoundsAre();
      OnceMore(origins);
      ghost var books, n, sources := Account(), |published|, origins;
      warning := Warning(nextId, cause, HISTORY_TRIMMED);
      WarningAbout(nextId, cause, HISTORY_TRIMMED);
      nextId := nextId + 1;
      LogWarning(warning, n);
      SteadyAgain(n, true);
    }

    /** Reserves, publishes and keeps the warning. */
    method LogWarning(warning: Event, ghost n: nat)
      requires capacity.Valid() && capacity.events == Held() && SubscriptionsOk() && OriginsOk()
               && Synced(subscribers, n)
      requires Numbered(published) && warning.id == |published| + 1 == n + 1 && nextId == n + 2
      requires published != [] && Announces(warning, published[|published| - 1])
      requires RunUpTo(published, retained, |published|) && |retained| <= replayCapacity && 1 <= replayCapacity
      requires replayOverflowed && |retained| < |published|
      requires |failures| <= FAILURE_CAPACITY && |subscribers| <= MAX_SUBSCRIBERS
      modifies `retained, `failures, `lost, `replayOverflowed, `published, `origins, capacity`events
      ensures capacity.Valid() && capacity.events == Held() && SubscriptionsOk() && OriginsOk()
              && Synced(subscribers, n)
      ensures LogOk() && BoundsOk() && replayOverflowed
      ensures published == old(published) + [warning] && origins == old(origins) + [Overflow]
      ensures Batched() == old(Batched())
      ensures Spent(old(Account()), Account(), sizing.event(warning), false)
    {
      hide HistoryBytes, HandleBytes, PendingBytes, Held, SubscriptionsOk, LogOk, Synced, RunUpTo, Numbered, CaptureLog,
           Batched, IsSuffix, OriginsOk, Spent, Firm, Tag, Announces;
      ghost var books := Account();
      var ok := ReserveOptional(sizing.event(warning));
      ghost var reserved := Account();
      Log(warning, Overflow);
      HeldParts();
      KeepWarning(warning, ok);
      HeldParts();
      LogIs();
      SpentLogged(books, reserved, Account(), sizing.event(warning));
    }

    method KeepWarning(warning: Event, reserved: bool)
      requires capacity.Valid() && HistoryBytes() + (if reserved then sizing.event(warning) else 0) <= capacity.events
      requires 1 <= |published| && warning == published[|published| - 1] && 1 <= replayCapacity
      requires RetainedUpTo(|published| - 1) && |retained| <= replayCapacity && replayOverflowed
      requires |retained| < |published| - 1 && (!reserved ==> retained == [])
      modifies `retained, `replayOverflowed, capacity`events
      ensures capacity.Valid() && replayOverflowed && |retained| <= old(|retained|) + 1
      ensures capacity.events - HistoryBytes() ==
              old(capacity.events - HistoryBytes()) - if reserved then sizing.event(warning) else 0
      ensures RetainedUpTo(|published|) && |retained| <= replayCapacity && |retained| < |published|
    {
      hide HistoryBytes, RunUpTo, IsSuffix;
      if reserved {
        PushRetained(warning);
      } else {
        RunEmpty(published);
      }
      ghost var kept := retained;
      TrimRetained();
      RunSuffix(published, kept, retained, |published|);
      SuffixLengths(retained, kept);
    }

    // ---- publication ----

    /**
     * What one publication adds to the log: the event, and one warning exactly when this
     * publication is the one that made the replay log incomplete.
     */
    twostate predicate Extended(envelope: Event, origin: Origin)
      reads `published, `origins, `replayOverflowed
    {
      Extends(old(published), old(origins), old(replayOverflowed), published, origins, replayOverflowed, envelope,
              origin)
    }

    /**
     * Nobody is cut off without need: whoever stops being live had too little room in the queue for what
     * was published, or some published event does not fit beside what cannot be reclaimed.
     */
    twostate predicate CutsForced()
      reads `subscribers, `receivers, `published, `pendingCapture, `replays, `nextSubscriptionId, capacity
    {
      Cuts(old(subscribers), old(receivers), subscribers, receivers, |published| - |old(published)|,
           SomeExhausted(|old(published)|))
    }

    ghost predicate SomeExhausted(from: nat)
      reads `published, `pendingCapture, `receivers, `replays, `nextSubscriptionId, capacity`limit,
            capacity`sessions
    {
      exists i :: from <= i < |published| && Exhausted(published[i])
    }

    /** Delivers the warning behind an event; it is logged only now if the delivery of the event caused it. */
    method DeliverWarning(envelope: Event, logged: Option<Event>, started: bool) returns (warning: Option<Event>)
      requires 1 <= envelope.id && Steady(0, envelope.id)
      requires |published| == envelope.id + (if logged.Some? then 1 else 0) && published[envelope.id - 1] == envelope
      requires logged.Some? ==>
                 replayOverflowed && published[envelope.id] == logged.value && logged.value.id == envelope.id + 1
      requires started && logged.None? ==> replayOverflowed && Unwarned(origins)
      modifies `nextId, `retained, `failures, `lost, `replayOverflowed, `subscribers, `subscriptionBytes, `fates,
               `receivers, `published, `origins, capacity`events
      ensures Steady(0, |published|) && Batched() == old(Batched()) && Fixed() >= old(Fixed())
      ensures warning.Some? <==> logged.Some? || started
      ensures warning.Some? ==> replayOverflowed
      ensures logged.Some? ==> warning == logged && published == old(published) && origins == old(origins)
      ensures logged.None? && warning.Some? ==>
                && warning.value == Warning(envelope.id + 1, envelope, HISTORY_TRIMMED)
                && published == old(published) + [warning.value] && origins == old(origins) + [Overflow]
      ensures warning.None? ==>
                && published == old(published) && origins == old(origins) && retained == old(retained)
                && failures == old(failures) && subscribers == old(subscribers)
                && replayOverflowed == old(replayOverflowed)
      ensures Forced(old(subscribers), subscribers, old(receivers), SomeExhausted(envelope.id - 1))
      ensures subscribers <= old(subscribers) && SameBounds(old(receivers), receivers)
      ensures Spent(old(Account()), Account(), WarningCost(old(|subscribers|), warning, logged.Some?),
                    SomeStarved(envelope.id - 1))
    {
      hide Steady, CaptureLog, Fixed, SameBounds, SomeExhausted, Forced, Ample, Spent, Account,
           Starved, SomeStarved, DispatchCost;
      ghost var live, start := subscribers, receivers;
      SameBoundsSelf(start);
      ghost var books := Account();
      SpentNone(books, 0, SomeStarved(envelope.id - 1));
      warning := logged;
      SpentNone(books, 0, false);
      if logged.None? && started {
        var notice := RecordOverflowWarning(envelope);
        warning := Some(notice);
      }
      if warning.Some? {
        ghost var recorded := Account();
        var _ := DispatchLive(warning.value);
        StarvedFrom(envelope.id - 1, envelope.id);
        SpentOn(books, recorded, Account(), if logged.Some? then 0 else sizing.event(warning.value),
                DispatchCost(|live|, warning.value, sizing), false, Starved(warning.value),
                SomeStarved(envelope.id - 1));
        SomeExhaustedFrom(envelope.id - 1, envelope.id);
        ForcedMore(live, subscribers, start, Exhausted(warning.value), SomeExhausted(envelope.id - 1));
      } else {
        ForcedNone(live, start, SomeExhausted(envelope.id - 1));
      }
    }

    /** Delivers the newest event and the overflow warning. */
    method DeliverLogged(envelope: Event, logged: Option<Event>) returns (warning: Option<Event>)
      requires 1 <= envelope.id && Steady(0, envelope.id - 1)
      requires |published| == envelope.id + (if logged.Some? then 1 else 0) && published[envelope.id - 1] == envelope
      requires logged.Some? ==>
                 replayOverflowed && published[envelope.id] == logged.value && logged.value.id == envelope.id + 1
      modifies `nextId, `retained, `failures, `lost, `replayOverflowed, `subscribers, `subscriptionBytes, `fates,
               `receivers, `published, `origins, capacity`events
      ensures Steady(0, |published|)
      ensures old(replayOverflowed) ==> replayOverflowed
      ensures warning.Some? <==> logged.Some? || (!old(replayOverflowed) && replayOverflowed)
      ensures logged.Some? ==> warning == logged && published == old(published) && origins == old(origins)
      ensures logged.None? && warning.Some? ==>
                && warning.value == Warning(envelope.id + 1, envelope, HISTORY_TRIMMED)
                && published == old(published) + [warning.value] && origins == old(origins) + [Overflow]
      ensures warning.None? ==> published == old(published) && origins == old(origins)
      ensures Batched() == old(Batched())
      ensures Fixed() >= old(Fixed())
      ensures Cuts(old(subscribers), old(receivers), subscribers, receivers, |published| - envelope.id + 1,
                   SomeExhausted(envelope.id - 1))
      ensures logged.None? && old(Ample(envelope)) ==>
                && warning.None? && retained == old(retained) && failures == old(failures)
                && subscribers == old(subscribers) && replayOverflowed == old(replayOverflowed)
      ensures Spent(old(Account()), Account(), DispatchCost(old(|subscribers|), envelope, sizing)
                      + WarningCost(old(|subscribers|), warning, logged.Some?), SomeStarved(envelope.id - 1))
    {
      hide *;
      ghost var cursor, start, live, given := envelope.id - 1, receivers, subscribers, history;
      SteadyUnwarned(0, cursor);
      SteadySynced(0, cursor);
      ghost var books := Account();
      var liveOverflowStarted := DispatchLive(envelope);
      SteadySynced(0, envelope.id);
      ghost var offered, left, early, starved := receivers, subscribers, Exhausted(envelope), Starved(envelope);
      ghost var delivered := Account();
      ghost var fixed := Fixed();
      StarvedIs(envelope);
      ExhaustedIs(envelope);
      warning := DeliverWarning(envelope, logged, liveOverflowStarted);
      StarvedSince(cursor, cursor, fixed);
      DeliveredSpent(books, delivered, live, left, envelope, warning, logged.Some?, starved, SomeStarved(cursor));
      ForcedTwice(live, left, subscribers, given, cursor, start, offered, receivers, |published| - cursor, early,
                  SomeExhausted(cursor));
    }

    /**
     * The event fits into the replay log, into every live queue, and with all its copies into the ledger,
     * in exchange for `replaced` bytes.
     */
    ghost predicate Comfortable(event: Event, replaced: nat)
      reads `subscribers, `receivers, `retained, capacity
    {
      && |retained| < replayCapacity
      && capacity.sessions + capacity.events - replaced + Copies(|subscribers| + 1, sizing.event(event)) <=
           capacity.limit
      && Open(subscribers, receivers)
    }

    lemma ComfortableRoomy(event: Event, replaced: nat)
      ensures Comfortable(event, replaced) ==>
                && Roomy(event, replaced) && |retained| < replayCapacity && Open(subscribers, receivers)
                && capacity.sessions + capacity.events - replaced + sizing.event(event)
                     + Copies(|subscribers|, sizing.event(event)) <= capacity.limit
    {
      hide Full;
      CopiesMore(|subscribers|, sizing.event(event));
    }

    /** After a comfortable event was logged there is still room for it in every queue. */
    lemma StaysAmple(start: map<nat, Receiver>, event: Event)
      requires SameQueues(start, receivers)
      ensures Open(subscribers, start) && Spacious(|subscribers|, event) ==> Ample(event)
    {
      hide Full, SameQueues, Spacious;
      if Open(subscribers, start) {
        NotFullSame(start, receivers, subscribers);
      }
    }

    /** Nothing is given up for the event, and nobody is cut off. */
    twostate predicate Lossless(event: Event)
      reads `retained, `failures, `subscribers, `published, `replayOverflowed
    {
      && retained == old(retained) + [event] && published == old(published) + [event]
      && failures == old(failures) && subscribers == old(subscribers) && replayOverflowed == old(replayOverflowed)
    }

    /**
     * What the overflow warning behind an event may ask for: being kept, if that is not paid yet, and being
     * delivered.
     */
    function WarningCost(n: nat, warning: Option<Event>, paid: bool): nat {
      if warning.None? then 0
      else (if paid then 0 else sizing.event(warning.value)) + DispatchCost(n, warning.value, sizing)
    }

    lemma WarningIs(n: nat, warning: Option<Event>, paid: bool)
      ensures warning.None? ==> WarningCost(n, warning, paid) == 0
      ensures warning.Some? ==> WarningCost(n, warning, paid) ==
                                (if paid then 0 else sizing.event(warning.value))
                                + DispatchCost(n, warning.value, sizing)
    {
    }

    lemma WarningUpTo(m: nat, n: nat, warning: Option<Event>, paid: bool)
      requires m <= n
      ensures WarningCost(m, warning, paid) <= WarningCost(n, warning, paid)
    {
      hide DispatchCost;
      if warning.Some? {
        DispatchUpTo(m, n, warning.value, sizing);
      }
    }

    lemma DeliveredSpent(books: Books, delivered: Books, live: set<nat>, left: set<nat>, envelope: Event,
                         warning: Option<Event>, paid: bool, first: bool, tight: bool)
      requires left <= live && (first ==> tight)
      requires Spent(books, delivered, DispatchCost(|live|, envelope, sizing), first)
      requires Spent(delivered, Account(), WarningCost(|left|, warning, paid), tight)
      ensures Spent(books, Account(), DispatchCost(|live|, envelope, sizing) + WarningCost(|live|, warning, paid),
                    tight)
    {
      hide *;
      SubsetSize(left, live);
      WarningUpTo(|left|, |live|, warning, paid);
      SpentMore(delivered, Account(), WarningCost(|left|, warning, paid), WarningCost(|live|, warning, paid), tight,
                tight);
      SpentOn(books, delivered, Account(), DispatchCost(|live|, envelope, sizing), WarningCost(|live|, warning, paid),
              first, tight, tight);
    }

    /** An event that was too large for less has only become more so. */
    lemma StarvedSince(from: nat, i: nat, fixed: nat)
      requires from <= i < |published| && fixed <= Fixed()
      ensures capacity.limit < fixed + sizing.event(published[i]) ==> SomeExhausted(from) && SomeStarved(from)
      ensures capacity.limit < fixed + RecordBytes(published[i], sizing) ==> SomeStarved(from)
    {
      hide SomeExhausted, SomeStarved, Exhausted, Starved, Fixed, RecordBytes;
      ExhaustedIs(published[i]);
      StarvedIs(published[i]);
      SomeExhaustedFrom(from, i);
      StarvedFrom(from, i);
    }

    lemma LoggedExhausted(logged: Option<Event>)
      ensures logged.Some? ==> (Exhausted(logged.value) <==> capacity.limit < Fixed() + sizing.event(logged.value))
    {
    }

    /** The two stages of a broadcast cost what publishing its events costs. */
    lemma BroadcastCosts(books: Books, appended: Books, n: nat, m: nat, cursor: nat, envelope: Event,
                         logged: Option<Event>, warning: Option<Event>, first: bool)
      requires m <= n && (logged.Some? ==> warning == logged)
      requires cursor + 1 <= |published|
               && published[cursor..] == [envelope] + if warning.Some? then [warning.value] else []
      requires Spent(books, appended, sizing.event(envelope) + (if logged.Some? then sizing.event(logged.value) else 0),
                     first)
      requires Spent(appended, Account(), DispatchCost(m, envelope, sizing) + WarningCost(m, warning, logged.Some?),
                     SomeStarved(cursor))
      requires first ==> SomeStarved(cursor)
      ensures Spent(books, Account(), Costs(n, published[cursor..], sizing), SomeStarved(cursor))
    {
      hide *;
      WarningIs(m, warning, logged.Some?);
      ghost var paid := sizing.event(envelope) + if logged.Some? then sizing.event(logged.value) else 0;
      ghost var later := DispatchCost(m, envelope, sizing) + WarningCost(m, warning, logged.Some?);
      DispatchUpTo(m, n, envelope, sizing);
      SpentOn(books, appended, Account(), paid, later, first, SomeStarved(cursor), SomeStarved(cursor));
      CostsOfOne(n, envelope, sizing);
      if warning.Some? {
        DispatchUpTo(m, n, warning.value, sizing);
        CostsOfTwo(n, envelope, warning.value, sizing);
        assert [envelope] + [warning.value] == [envelope, warning.value];
      } else {
        assert [envelope] + [] == [envelope];
      }
      SpentMore(books, Account(), paid + later, Costs(n, published[cursor..], sizing), SomeStarved(cursor),
                SomeStarved(cursor));
    }

    /** Logs one event; if it was comfortable, there is room for its copies as well. */
    method LogEvent(replaced: nat, pending: PendingEvent, ghost origin: Origin)
      returns (envelope: Event, warning: Option<Event>)
      requires Steady(replaced, |published|) && !origin.Overflow?
      requires origin.Batch? ==> pending.payload.CaptureRowsAdded? && pending.runtimeEpoch.Some?
                                 && 1 <= |pending.payload.rows| <= CAPTURE_BATCH_SIZE
      modifies `nextId, `retained, `failures, `lost, `replayOverflowed, `subscribers, `subscriptionBytes, `fates,
               `receivers, `published, `origins, capacity`events
      ensures Steady(0, |old(published)|)
      ensures envelope == Envelope(|old(published)| + 1, pending)
      ensures (warning.Some? <==> !old(replayOverflowed) && replayOverflowed)
              && (old(replayOverflowed) ==> replayOverflowed)
      ensures warning.Some? ==> warning.value == Warning(|old(published)| + 2, envelope, LOG_TRIMMED)
      ensures published == old(published) + [envelope] + if warning.Some? then [warning.value] else []
      ensures origins == old(origins) + [origin] + if warning.Some? then [Overflow] else []
      ensures Batched() ==
                old(Batched()) + if origin.Batch? then Tag(pending.payload.rows, pending.runtimeEpoch) else []
      ensures SameQueues(old(receivers), receivers) && Fixed() == old(Fixed()) && subscribers <= old(subscribers)
      ensures subscribers != old(subscribers) ==> LoggedTight(envelope, warning, Fixed())
      ensures old(Comfortable(Envelope(|published| + 1, pending), replaced)) ==>
                && warning.None? && Ample(envelope) && retained == old(retained) + [envelope]
                && failures == old(failures)
                && subscribers == old(subscribers)
      ensures Spent(old(Account()), Account(),
                    sizing.event(envelope) + (if warning.Some? then sizing.event(warning.value) else 0),
                    LoggedTight(envelope, warning, Fixed()))
    {
      hide Steady, CaptureLog, Batched, Tag, Fixed, SameQueues, Comfortable, Roomy, Ample, Spent, Account, Exhausted;
      ghost var books, start := Account(), receivers;
      ComfortableRoomy(Envelope(|published| + 1, pending), replaced);
      envelope, warning := AppendLog(replaced, pending, origin);
      StaysAmple(start, envelope);
      ExhaustedIs(envelope);
      LoggedExhausted(warning);
      SpentMore(books, Account(), sizing.event(envelope) + (if warning.Some? then sizing.event(warning.value) else 0),
                sizing.event(envelope) + (if warning.Some? then sizing.event(warning.value) else 0),
                Exhausted(envelope) || (warning.Some? && Exhausted(warning.value)),
                LoggedTight(envelope, warning, Fixed()));
    }

    /** The event or the warning logged with it did not fit beside what could not be reclaimed. */
    ghost predicate LoggedTight(envelope: Event, warning: Option<Event>, fixed: nat)
      reads capacity`limit
    {
      || capacity.limit < fixed + sizing.event(envelope)
      || (warning.Some? && capacity.limit < fixed + sizing.event(warning.value))
    }

    /** Logs one event and delivers it and the warning. */
    method LogAndDeliver(replaced: nat, pending: PendingEvent, ghost origin: Origin)
      returns (envelope: Event, warning: Option<Event>)
      requires Steady(replaced, |published|) && !origin.Overflow?
      requires origin.Batch? ==> pending.payload.CaptureRowsAdded? && pending.runtimeEpoch.Some?
                                 && 1 <= |pending.payload.rows| <= CAPTURE_BATCH_SIZE
      modifies `nextId, `retained, `failures, `lost, `replayOverflowed, `subscribers, `subscriptionBytes, `fates,
               `receivers, `published, `origins, capacity`events
      ensures Steady(0, |published|)
      ensures envelope == Envelope(|old(published)| + 1, pending)
      ensures (warning.Some? <==> !old(replayOverflowed) && replayOverflowed)
              && (old(replayOverflowed) ==> replayOverflowed)
      ensures warning.Some? ==> warning.value == Warning(envelope.id + 1, envelope, LOG_TRIMMED)
                                || warning.value == Warning(envelope.id + 1, envelope, HISTORY_TRIMMED)
      ensures published == old(published) + [envelope] + if warning.Some? then [warning.value] else []
      ensures origins == old(origins) + [origin] + if warning.Some? then [Overflow] else []
      ensures Batched() ==
                old(Batched()) + if origin.Batch? then Tag(pending.payload.rows, pending.runtimeEpoch) else []
      ensures Fixed() >= old(Fixed())
      ensures Cuts(old(subscribers), old(receivers), subscribers, receivers, |published| - |old(published)|,
                   SomeExhausted(|old(published)|))
      ensures old(Comfortable(Envelope(|published| + 1, pending), replaced)) ==>
                && warning.None? && retained == old(retained) + [envelope] && failures == old(failures)
                && subscribers == old(subscribers)
      ensures Spent(old(Account()), Account(), Costs(old(|subscribers|), published[|old(published)|..], sizing),
                    SomeStarved(|old(published)|))
    {
      hide Steady, CaptureLog, Batched, Tag, Fixed, SameQueues, SomeExhausted, Cuts, Comfortable, Ample, Spent, Account,
           SomeStarved, Costs, DispatchCost, WarningCost, LoggedTight;
      var logged: Option<Event>;
      ghost var cursor, start, live, books := |published|, receivers, subscribers, Account();
      envelope, logged := LogEvent(replaced, pending, origin);
      ghost var between, kept, appended, fixed := receivers, subscribers, Account(), Fixed();
      ghost var first := LoggedTight(envelope, logged, fixed);
      warning := DeliverLogged(envelope, logged);
      TightSince(cursor, envelope, logged, fixed);
      SubsetSize(kept, live);
      BroadcastCosts(books, appended, |live|, |kept|, cursor, envelope, logged, warning, first);
      CutsAfter(live, start, kept, between, subscribers, receivers, |published| - cursor, SomeExhausted(cursor));
    }

    lemma TightSince(from: nat, envelope: Event, logged: Option<Event>, fixed: nat)
      requires from < |published| && published[from] == envelope && fixed <= Fixed()
      requires logged.Some? ==> published[|published| - 1] == logged.value
      ensures LoggedTight(envelope, logged, fixed) ==> SomeExhausted(from) && SomeStarved(from)
    {
      hide SomeExhausted, SomeStarved, Fixed;
      StarvedSince(from, from, fixed);
      StarvedSince(from, |published| - 1, fixed);
    }

    /** Logs one event, delivers it, and then logs and delivers the overflow warning it may have caused. */
    method Broadcast(replaced: nat, pending: PendingEvent, ghost origin: Origin) returns (envelope: Event)
      requires Steady(replaced, |published|) && !origin.Overflow?
      requires origin.Batch? ==> pending.payload.CaptureRowsAdded? && pending.runtimeEpoch.Some?
                                 && 1 <= |pending.payload.rows| <= CAPTURE_BATCH_SIZE
      modifies `nextId, `retained, `failures, `lost, `replayOverflowed, `subscribers, `subscriptionBytes, `fates,
               `receivers, `published, `origins, capacity`events
      ensures Steady(0, |published|)
      ensures envelope == Envelope(|old(published)| + 1, pending)
      ensures Extended(envelope, origin) && old(published) <= published && envelope in published
      ensures old(replayOverflowed) ==> replayOverflowed && Quiet(old(origins), origins)
      ensures CutsForced() && Fixed() >= old(Fixed())
      ensures old(Comfortable(Envelope(|published| + 1, pending), replaced)) ==> Lossless(envelope)
      ensures Batched() ==
                old(Batched()) + if origin.Batch? then Tag(pending.payload.rows, pending.runtimeEpoch) else []
      ensures Spent(old(Account()), Account(), Costs(old(|subscribers|), published[|old(published)|..], sizing),
                    SomeStarved(|old(published)|))
    {
      hide Steady, CaptureLog, Batched, Tag, Fixed, SomeExhausted, Cuts, Comfortable, Extends, Quiet, Spent, Account,
           SomeStarved, Costs;
      ghost var log, sources, overflowed := published, origins, replayOverflowed;
      var warning;
      envelope, warning := LogAndDeliver(replaced, pending, origin);
      LogExtends(log, sources, overflowed, published, origins, replayOverflowed, envelope, origin, warning);
    }

    lemma SomeExhaustedFrom(from: nat, i: nat)
      requires from <= i < |published|
      ensures Exhausted(published[i]) ==> SomeExhausted(from)
    {
    }

    lemma SteadyNext(extra: nat, n: nat)
      requires Steady(extra, n)
      ensures nextId == |published| + 1 && |origins| == |published|
    {
    }

    lemma SteadySynced(extra: nat, n: nat)
      requires Steady(extra, n)
      ensures AllAt(subscribers, n, history, receivers) && subscribers <= receivers.Keys
    {
    }

    lemma SteadyParts(extra: nat, n: nat)
      requires Steady(extra, n)
      ensures capacity.Valid() && capacity.events == Held() + extra && LogOk() && SubscriptionsOk() && BoundsOk()
      ensures Synced(subscribers, n) && OriginsOk() && WarnedOnce(origins, replayOverflowed)
    {
      hide Held, LogOk, SubscriptionsOk, BoundsOk, Synced, OriginsOk, WarnedOnce;
    }

    /** The parts of a steady hub, the overflow flag being as it was or set since. */
    lemma SteadyAgain(n: nat, wasOverflowed: bool)
      requires capacity.Valid() && capacity.events == Held() && LogOk() && SubscriptionsOk() && BoundsOk()
      requires Synced(subscribers, n) && OriginsOk() && WarnedOnce(origins, wasOverflowed)
      requires wasOverflowed ==> replayOverflowed
      ensures Steady(0, n)
    {
      hide Held, LogOk, SubscriptionsOk, BoundsOk, Synced, OriginsOk, WarnedOnce;
      StillOnce(origins, wasOverflowed, replayOverflowed);
    }

    lemma SteadySubscriptions()
      ensures forall extra: nat, n: nat :: Steady(extra, n) ==> SubscriptionsOk()
    {
      hide SubscriptionsOk, LogOk, OriginsOk, WarnedOnce;
    }

    lemma SteadyCounts(extra: nat, n: nat)
      requires Steady(extra, n)
      ensures |origins| == |published| && OriginsOk()
    {
    }

    lemma SteadyUnwarned(extra: nat, n: nat)
      requires Steady(extra, n)
      ensures !replayOverflowed ==> Unwarned(origins)
    {
    }

    /** What publishing the event may ask for in the worst case, with the overflow warning that may follow it. */
    ghost function Demand(event: Event): nat
      reads `replayOverflowed, `subscribers
    {
      sizing.event(event) + DispatchCost(|subscribers|, event, sizing)
      + if replayOverflowed then 0
        else Larger(WarningCost(|subscribers|, Some(Warning(event.id + 1, event, LOG_TRIMMED)), false),
                    WarningCost(|subscribers|, Some(Warning(event.id + 1, event, HISTORY_TRIMMED)), false))
    }

    function Larger(a: nat, b: nat): nat {
      if a < b then b else a
    }

    /**
     * There is room for the event, its copies, a record for every subscriber and the warning, beside all that
     * stays when replay history is given up, and the records will not exceed their count ceiling.
     */
    ghost predicate Secure(event: Event)
      reads `replayOverflowed, `subscribers, `failures, `pendingCapture, `receivers, `replays, `nextSubscriptionId,
      capacity
    {
      Firm() + Demand(event) <= capacity.limit && |failures| + |subscribers| <= 512
    }

    lemma DemandCovers(n: nat, demand: nat, log: seq<Event>, sources: seq<Origin>, overflowed: bool, envelope: Event,
                       origin: Origin)
      requires Extends(log, sources, overflowed, published, origins, replayOverflowed, envelope, origin)
      requires demand == sizing.event(envelope) + DispatchCost(n, envelope, sizing)
                         + if overflowed then 0
                           else Larger(WarningCost(n, Some(Warning(envelope.id + 1, envelope, LOG_TRIMMED)), false),
                                       WarningCost(n, Some(Warning(envelope.id + 1, envelope, HISTORY_TRIMMED)), false))
      ensures log <= published && Costs(n, published[|log|..], sizing) <= demand
    {
      hide DispatchCost, Announces, Warning;
      CostsPush(n, [], envelope, sizing);
      assert [] + [envelope] == [envelope];
      if !overflowed && replayOverflowed {
        var warning := published[|log| + 1];
        CostsPush(n, [envelope], warning, sizing);
        assert published[|log|..] == [envelope] + [warning];
      } else {
        assert published[|log|..] == [envelope];
      }
    }

    lemma SecureKeeps(a: Books, costs: nat, demand: nat, tight: bool)
      requires Spent(a, Account(), costs, tight) && costs <= demand
      ensures a.firm + demand <= a.limit && a.records + a.live <= FAILURE_CAPACITY ==> lost == a.lost
    {
      if a.firm + demand <= a.limit && a.records + a.live <= FAILURE_CAPACITY {
        LosesNothing(a, Account(), costs);
      }
    }

    /** The event is logged and delivered, and the warning behind it. */
    method PublishLocked(pending: PendingEvent) returns (envelope: Event)
      requires Valid() && !dropped
      modifies `nextId, `retained, `failures, `lost, `replayOverflowed, `subscribers, `subscriptionBytes, `fates,
               `receivers, `published, `origins, capacity`events
      ensures Valid() && !dropped
      ensures envelope == Envelope(|old(published)| + 1, pending)
      ensures HandleBytes() >= old(HandleBytes())
      ensures Extended(envelope, Caller) && old(published) <= published && CutsForced()
      ensures old(Comfortable(Envelope(|published| + 1, pending), 0)) ==> Lossless(envelope)
      ensures Spent(old(Account()), Account(), Costs(old(|subscribers|), published[|old(published)|..], sizing),
                    SomeStarved(|old(published)|))
    {
      hide Valid, Steady, OriginsOk, CaptureLog, Tag, CutsForced, Comfortable, Lossless, Extended, Spent, Account,
           Costs, SomeStarved, HandleBytes, PendingBytes;
      SteadyIsValid();
      envelope := Broadcast(0, pending, Caller);
      SteadyCounts(0, |published|);
      SteadyIsValid();
    }

    method Publish(runtimeEpoch: Option<Epoch>, occurredAt: Time, entityId: Option<string>,
                   entityRevision: Option<nat>, payload: Payload) returns (envelope: Event)
      requires Valid() && !dropped
      modifies `nextId, `retained, `failures, `lost, `replayOverflowed, `subscribers, `subscriptionBytes, `fates,
               `receivers, `published, `origins, capacity`events
      ensures Valid() && !dropped
      ensures envelope == Event(|old(published)| + 1, runtimeEpoch, occurredAt, entityId, entityRevision, payload)
      ensures HandleBytes() >= old(HandleBytes())
      ensures |published| == |old(published)| + if !old(replayOverflowed) && replayOverflowed then 2 else 1
      ensures |published| == |old(published)| + 2 ==>
                var warning := published[|old(published)| + 1];
                && warning.id == envelope.id + 1 && warning.payload.ResourceWarning?
                && warning.runtimeEpoch == runtimeEpoch && warning.occurredAt == occurredAt
                && warning.entityId == None && warning.entityRevision == None
      ensures Extended(envelope, Caller) && old(published) <= published && CutsForced()
      ensures old(Comfortable(Event(|published| + 1, runtimeEpoch, occurredAt, entityId, entityRevision, payload),
                              0)) ==>
                Lossless(envelope)
      ensures Spent(old(Account()), Account(), Costs(old(|subscribers|), published[|old(published)|..], sizing),
                    SomeStarved(|old(published)|))
      ensures old(Secure(Event(|published| + 1, runtimeEpoch, occurredAt, entityId, entityRevision, payload))) ==>
                lost == old(lost)
      ensures Informed(old(fates), fates, receivers, failures, lost)
    {
      hide Valid, SubscriptionsOk, Comfortable, Lossless, Extends, Spent, Costs, SomeStarved, SomeExhausted, Cuts,
           Informed, Endable, Larger, WarningCost, DispatchCost, Firm, HandleBytes;
      ValidSubscriptions();
      EndableNow();
      ghost var told, live, was, log, books := fates, subscribers, receivers, published, Account();
      ghost var sources, overflowed := origins, replayOverflowed;
      ghost var demand := Demand(Event(|published| + 1, runtimeEpoch, occurredAt, entityId, entityRevision, payload));
      envelope := PublishLocked(PendingEvent(runtimeEpoch, occurredAt, entityId, entityRevision, payload));
      ExtendsBy(log, sources, overflowed, published, origins, replayOverflowed, envelope, Caller);
      ValidSubscriptions();
      DemandCovers(|live|, demand, log, sources, overflowed, envelope, Caller);
      SecureKeeps(books, Costs(|live|, published[|log|..], sizing), demand, SomeStarved(|log|));
      InformedNow(told, live, was, |published| - |log|, SomeExhausted(|log|));
    }

    // ---- capture batching ----

    /** Turns the pending rows, if there are any, into one event that takes over their reservation. */
    method FlushCaptureLocked(occurredAt: Time) returns (r: Option<Event>)
      requires Steady(0, |published|) && CaptureOk(CAPTURE_BATCH_SIZE) && !dropped
      modifies `nextId, `retained, `failures, `lost, `replayOverflowed, `subscribers, `subscriptionBytes, `fates,
               `receivers, `pendingCapture, `captureEpoch, `captureStartedAt, `published, `origins, capacity`events
      ensures Valid() && !dropped && pendingCapture == [] && CaptureLog(published, origins) == pushed
      ensures r.None? <==> old(pendingCapture) == []
      ensures old(replayOverflowed) ==> replayOverflowed && Quiet(old(origins), origins)
      ensures r.None? ==> published == old(published) && captureEpoch == old(captureEpoch)
                          && captureStartedAt == old(captureStartedAt)
      ensures r.Some? ==> captureEpoch == None && captureStartedAt == None && Extended(r.value, Batch)
                          && r.value in published
                          && r.value == Event(|old(published)| + 1, old(captureEpoch), occurredAt, None, None,
                                              CaptureRowsAdded(old(pendingCapture)))
      ensures old(published) <= published && CutsForced() && HandleBytes() >= old(HandleBytes())
      ensures Spent(old(Account()), Account(), Costs(old(|subscribers|), published[|old(published)|..], sizing),
                    SomeStarved(|old(published)|))
      ensures Informed(old(fates), fates, receivers, failures, lost)
    {
      hide HistoryBytes, HandleBytes, Held, Core, LogOk, CaptureLog, SomeExhausted, Cuts, WarnedOnce, Spent, Account,
           SomeStarved, SubscriptionsOk, Informed, Endable;
      SteadySubscriptions();
      EndableNow();
      ghost var told, live, was, log := fates, subscribers, receivers, published;
      if pendingCapture == [] {
        assert pushed == Batched() + Tag([], captureEpoch);
        SteadyIsValid();
        CutsNone(subscribers, receivers, 0, SomeExhausted(|published|));
        QuietNone(origins);
        SpentNone(Account(), 0, SomeStarved(|published|));
        InformedNow(told, live, was, 0, SomeExhausted(|log|));
        return None;
      }
      var envelope := FlushRows(occurredAt);
      NothingPending();
      SteadyIsValid();
      SteadySubscriptions();
      InformedNow(told, live, was, |published| - |log|, SomeExhausted(|log|));
      r := Some(envelope);
    }

    lemma NothingPending()
      requires Steady(0, |published|) && pendingCapture == []
      requires |origins| == |published| && CaptureLog(published, origins) == pushed
      ensures CaptureOk(CAPTURE_BATCH_SIZE - 1)
    {
      hide Core, LogOk, WarnedOnce, CaptureLog;
    }

    lemma CaptureParts(most: nat)
      requires CaptureOk(most)
      ensures |origins| == |published| && |pendingCapture| <= most && (pendingCapture != [] ==> captureEpoch.Some?)
      ensures CaptureLog(published, origins) + Tag(pendingCapture, captureEpoch) == pushed
    {
    }

    lemma BatchedIs()
      requires |origins| == |published|
      ensures Batched() == CaptureLog(published, origins)
    {
    }

    method FlushRows(occurredAt: Time) returns (envelope: Event)
      requires Steady(0, |published|) && CaptureOk(CAPTURE_BATCH_SIZE) && pendingCapture != []
      modifies `nextId, `retained, `failures, `lost, `replayOverflowed, `subscribers, `subscriptionBytes, `fates,
               `receivers, `pendingCapture, `captureEpoch, `captureStartedAt, `published, `origins, capacity`events
      ensures Steady(0, |published|) && |origins| == |published| && CaptureLog(published, origins) == pushed
      ensures pendingCapture == [] && captureEpoch == None && captureStartedAt == None
      ensures envelope == Event(|old(published)| + 1, old(captureEpoch), occurredAt, None, None,
                                CaptureRowsAdded(old(pendingCapture)))
      ensures Extended(envelope, Batch) && envelope in published && old(published) <= published
      ensures old(replayOverflowed) ==> replayOverflowed && Quiet(old(origins), origins)
      ensures CutsForced() && HandleBytes() >= old(HandleBytes())
      ensures Spent(old(Account()), Account(), Costs(old(|subscribers|), published[|old(published)|..], sizing),
                    SomeStarved(|old(published)|))
    {
      hide Steady, CaptureLog, Batched, Tag, CaptureOk, Cuts, SomeExhausted, Comfortable, Lossless, Extends,
           HandleBytes, PendingBytes, Spent, SomeStarved, Costs, Firm, Fixed, Account, Quiet, OriginsOk, Total,
           Envelope;
      ghost var books, live, cursor := Account(), |subscribers|, |published|;
      CaptureParts(CAPTURE_BATCH_SIZE);
      BatchedIs();
      SteadyCounts(0, |published|);
      var pendingBytes := PendingBytes(pendingCapture, sizing);
      var rows, epoch := TakeBatch();
      ghost var taken := Account();
      FixedIs();
      var pending := PendingEvent(epoch, occurredAt, None, None, CaptureRowsAdded(rows));
      envelope := Broadcast(pendingBytes, pending, Batch);
      EnvelopeIs(cursor + 1, pending);
      SteadyCounts(0, |published|);
      BatchedIs();
      FixedIs();
      SpentLighter(books, taken, Account(), Costs(live, published[cursor..], sizing), SomeStarved(cursor));
    }

    /** The pending rows leave the batch; their reservation is in transit. */
    method TakeBatch() returns (rows: seq<CaptureRow>, epoch: Option<Epoch>)
      requires Steady(0, |published|)
      modifies `pendingCapture, `captureEpoch, `captureStartedAt
      ensures Steady(PendingBytes(rows, sizing), |published|) && Fixed() + PendingBytes(rows, sizing) == old(Fixed())
      ensures Account() == old(Account()).(firm := Account().firm) && Account().firm <= old(Account()).firm
      ensures rows == old(pendingCapture) && epoch == old(captureEpoch)
      ensures pendingCapture == [] && captureEpoch == None && captureStartedAt == None
    {
      hide HistoryBytes, HandleBytes, SubscriptionsOk, Synced, LogOk, BoundsOk, OriginsOk, WarnedOnce, PendingBytes;
      PendingNone();
      rows, epoch := pendingCapture, captureEpoch;
      pendingCapture, captureEpoch, captureStartedAt := [], None, None;
    }

    method FlushCapture(now: Time) returns (r: Option<Event>)
      requires Valid() && !dropped
      modifies `nextId, `retained, `failures, `lost, `replayOverflowed, `subscribers, `subscriptionBytes, `fates,
               `receivers, `pendingCapture, `captureEpoch, `captureStartedAt, `published, `origins, capacity`events
      ensures Valid() && !dropped && pendingCapture == [] && CaptureLog(published, origins) == pushed
      ensures r.Some? <==> old(pendingCapture) != []
      ensures r.Some? ==> r.value == Event(|old(published)| + 1, old(captureEpoch), now, None, None,
                                           CaptureRowsAdded(old(pendingCapture)))
                          && Extended(r.value, Batch)
      ensures old(published) <= published && CutsForced()
      ensures Spent(old(Account()), Account(), Costs(old(|subscribers|), published[|old(published)|..], sizing),
                    SomeStarved(|old(published)|))
      ensures Informed(old(fates), fates, receivers, failures, lost)
    {
      hide HistoryBytes, HandleBytes, Held, SubscriptionsOk, Synced, RunUpTo, Numbered, CaptureLog, BoundsOk, LogOk,
           SomeExhausted, Cuts, Spent, Account, SomeStarved, Informed;
      r := FlushCaptureLocked(now);
    }

    /** The clock of the pending batch has run for 100 ms. */
    predicate Due(now: Time)
      reads `captureStartedAt
    {
      captureStartedAt.Some? && now - captureStartedAt.value >= CAPTURE_BATCH_INTERVAL
    }

    /** A flush by the clock would find the oldest pending row at least 100 ms old. */
    ghost predicate DueMeansOld()
      reads `captureStartedAt, `joinedAt
    {
      forall now :: Due(now) ==> now - joinedAt >= 100
    }

    /** Pending rows always have a running clock; it tells their age exactly if it did not start before they joined. */
    lemma AgeClaim()
      requires Valid() && !dropped && pendingCapture != []
      ensures captureStartedAt.Some?
      ensures DueMeansOld() <==> joinedAt <= captureStartedAt.value
      ensures Due(joinedAt + 100) <==> captureStartedAt.value <= joinedAt
    {
      hide Core, LogOk, WarnedOnce, Numbered, OriginsOk;
      assert DueMeansOld() ==> Due(captureStartedAt.value + 100);
    }

    /**
     * The flush clock: pending rows are flushed exactly if the clock has run for 100 ms. The clock starts with
     * the first row that finds it stopped, whether that row joins the batch or is refused, and only a flush
     * of pending rows stops it; see `PushCapture` and `AgeClaim` for what that says about the age of the rows.
     */
    method FlushDue(now: Time) returns (r: Option<Event>)
      requires Valid() && !dropped
      modifies `nextId, `retained, `failures, `lost, `replayOverflowed, `subscribers, `subscriptionBytes, `fates,
               `receivers, `pendingCapture, `captureEpoch, `captureStartedAt, `published, `origins, capacity`events
      ensures Valid() && !dropped
      ensures r.Some? <==> old(pendingCapture) != [] && old(captureStartedAt).Some?
                           && now - old(captureStartedAt).value >= 100
      ensures old(pendingCapture) != [] ==> old(captureStartedAt).Some?
      ensures r.Some? ==> captureStartedAt == None && pendingCapture == [] && CaptureLog(published, origins) == pushed
                          && r.value == Event(|old(published)| + 1, old(captureEpoch), now, None, None,
                                              CaptureRowsAdded(old(pendingCapture)))
      ensures r.None? ==> pendingCapture == old(pendingCapture) && published == old(published)
                          && captureStartedAt == old(captureStartedAt)
      ensures old(published) <= published && CutsForced()
      ensures Spent(old(Account()), Account(), Costs(old(|subscribers|), published[|old(published)|..], sizing),
                    SomeStarved(|old(published)|))
      ensures Informed(old(fates), fates, receivers, failures, lost)
    {
      hide HistoryBytes, HandleBytes, Held, SubscriptionsOk, Synced, RunUpTo, Numbered, CaptureLog, BoundsOk, LogOk,
           SomeExhausted, Cuts, Spent, Account, SomeStarved;
      var due := Due(now);
      if !due {
        SpentNone(Account(), 0, SomeStarved(|published|));
        CutsNone(subscribers, receivers, 0, SomeExhausted(|published|));
        return None;
      }
      r := FlushCaptureLocked(now);
    }

    /** A batch of these rows does not fit beside what cannot be reclaimed. */
    ghost predicate BatchFull(rows: seq<CaptureRow>)
      reads `receivers, `replays, `nextSubscriptionId, capacity`limit,
            capacity`sessions
    {
      capacity.limit < capacity.sessions + HandleBytes() + PendingBytes(rows, sizing)
    }

    /** What the row adds to the size of the batch. */
    function GrowthOf(rows: seq<CaptureRow>, row: CaptureRow): int {
      PendingBytes(rows + [row], sizing) - PendingBytes(rows, sizing)
    }

    ghost function Growth(row: CaptureRow): int
      reads `pendingCapture
    {
      GrowthOf(pendingCapture, row)
    }

    /** The growth of the batch does not fit as things are, and there is replay history to give up for it. */
    ghost predicate CutsLog(row: CaptureRow)
      reads `pendingCapture, `retained, capacity
    {
      retained != [] && capacity.limit < capacity.sessions + capacity.events + Growth(row)
    }

    /** The pending batch cannot take this row. */
    ghost predicate Refused(row: CaptureRow)
      reads `pendingCapture, `receivers, `replays, `nextSubscriptionId, capacity`limit,
            capacity`sessions
    {
      BatchFull(pendingCapture + [row])
    }

    /** The row is refused iff the JSON array of the batch with it is too long for what is left. */
    lemma RefusedText(row: CaptureRow)
      ensures forall show: CaptureRow -> string :: Renders(show, sizing) ==>
                (Refused(row) <==>
                 capacity.limit < capacity.sessions + HandleBytes() + |ArrayText(pendingCapture + [row], show)|)
    {
      hide PendingBytes, ArrayText, HandleBytes;
      forall show: CaptureRow -> string | Renders(show, sizing)
        ensures Refused(row) <==>
                capacity.limit < capacity.sessions + HandleBytes() + |ArrayText(pendingCapture + [row], show)|
      {
        PendingBytesText(pendingCapture + [row], show, sizing);
      }
    }

    /** Reserves room for a growing batch; `others` are the bytes owned besides the history. */
    method ReserveForBatch(bytes: nat, ghost others: nat) returns (ok: bool)
      requires capacity.Valid() && capacity.events == HistoryBytes() + others
      requires LogOk() && SubscriptionsOk() && BoundsOk() && Synced(subscribers, |published|)
      requires WarnedOnce(origins, replayOverflowed)
      modifies `retained, `failures, `lost, `replayOverflowed, `subscribers, `subscriptionBytes, `fates, `receivers,
               capacity`events
      ensures capacity.Valid() && capacity.events == HistoryBytes() + others + if ok then bytes else 0
      ensures LogOk() && SubscriptionsOk() && BoundsOk() && Synced(subscribers, |published|)
      ensures WarnedOnce(origins, replayOverflowed) && HandleBytes() == old(HandleBytes())
      ensures replayOverflowed <==>
                || old(replayOverflowed)
                || (old(retained) != [] && capacity.limit < capacity.sessions + old(capacity.events) + bytes)
      ensures ok <==> capacity.sessions + others + bytes <= capacity.limit
      ensures Cuts(old(subscribers), old(receivers), subscribers, receivers, 0, !ok)
      ensures Served(old(fates), fates, !ok)
      ensures Yields(old(failures), old(lost), failures, lost, |retained|,
                     capacity.limit < capacity.sessions + others + old(Total(failures, FailureSize(sizing))) + bytes)
      ensures |retained| <= old(|retained|) && |subscribers| <= old(|subscribers|)
    {
      hide *;
      HistoryIs();
      OverflowIs();
      BoundsAre();
      ghost var before, beforeFailures, live, was, wasOverflowed := retained, failures, subscribers, receivers,
                                                                    replayOverflowed;
      HeldParts();
      ghost var unread, tight := lost,
                                 capacity.limit < capacity.sessions + capacity.events - 0 + bytes - Total(retained,
                                                                                                          sizing.event);
      ghost var more := capacity.limit < capacity.sessions + others + Total(failures, FailureSize(sizing)) + bytes;
      ok := ReserveWithReclamation(0, bytes, |published|);
      LedgerFits();
      LogKept(before, wasOverflowed);
      SuffixLengths(retained, before);
      SuffixLengths(failures, beforeFailures);
      SubsetSize(subscribers, live);
      StillOnce(origins, wasOverflowed, replayOverflowed);
      BoundsAre();
      HistoryIs();
      HistoryEmpty();
      HeldParts();
      YieldsMore(beforeFailures, unread, failures, lost, |retained|, tight, more);
      CutsQueues(live, was, subscribers, receivers, !ok);
    }

    /** Appends one row to the pending batch if its share of the batch can be reserved. */
    method AdmitRow(row: CaptureRow) returns (ok: bool)
      requires Steady(0, |published|)
      modifies `retained, `failures, `lost, `replayOverflowed, `subscribers, `subscriptionBytes, `fates, `receivers,
               `pendingCapture, capacity`events
      ensures Steady(0, |published|)
      ensures pendingCapture == old(pendingCapture) + if ok then [row] else []
      ensures ok <==> !old(Refused(row))
      ensures forall show: CaptureRow -> string :: Renders(show, sizing) ==>
                (ok <==> capacity.sessions + old(HandleBytes()) + |ArrayText(old(pendingCapture) + [row], show)| <=
                         capacity.limit)
      ensures HandleBytes() == old(HandleBytes())
      ensures replayOverflowed <==> old(replayOverflowed) || old(CutsLog(row))
      ensures Trims(old(Now()), Now(), sizing, !ok, old(Growth(row)))
    {
      hide Steady, Held, HistoryBytes, HandleBytes, SubscriptionsOk, Synced, LogOk, BoundsOk, OriginsOk, WarnedOnce,
           PendingBytes, Cuts, Served, Yields, Total, Trims, Refused, CutsLog, Renders, ArrayText;
      SteadyParts(0, |published|);
      HeldParts();
      CutsLogIs(row);
      ghost var rows, start, records, full := pendingCapture, Now(), failures, Refused(row);
      RefusedIs(row);
      RefusedText(row);
      var oldBytes := PendingBytes(pendingCapture, sizing);
      pendingCapture := pendingCapture + [row];
      var newBytes := PendingBytes(pendingCapture, sizing);
      PendingBytesPush(rows, row, sizing);
      ok := ReserveForBatch(SatSub(newBytes, oldBytes), oldBytes + HandleBytes());
      if !ok {
        pendingCapture := pendingCapture[..|pendingCapture| - 1];
        assert pendingCapture == rows;
      }
      HeldParts();
      SteadyAgain(|published|, replayOverflowed);
      RowTrims(start, records, GrowthOf(rows, row), ok);
    }

    lemma LogIs()
      ensures LogOk() <==> nextId == |published| + 1 && Numbered(published) && RetainedUpTo(|published|)
                           && (replayOverflowed <==> |retained| < |published|)
    {
    }

    lemma BoundsAre()
      ensures BoundsOk() <==> 1 <= replayCapacity && |retained| <= replayCapacity && |failures| <= FAILURE_CAPACITY
                              && |subscribers| <= MAX_SUBSCRIBERS
    {
    }

    /** The log after a reservation that gave up some of its oldest entries. */
    lemma LogKept(before: seq<Event>, wasOverflowed: bool)
      requires RunUpTo(published, before, |published|) && IsSuffix(retained, before)
      requires nextId == |published| + 1 && Numbered(published)
      requires wasOverflowed <==> |before| < |published|
      requires replayOverflowed <==> wasOverflowed || |retained| < |before|
      ensures LogOk()
    {
      hide Numbered, RunUpTo;
      RunSuffix(published, before, retained, |published|);
    }

    lemma CutsLogIs(row: CaptureRow)
      ensures CutsLog(row) <==> retained != [] && capacity.limit < capacity.sessions + capacity.events + Growth(row)
    {
    }

    lemma RefusedIs(row: CaptureRow)
      ensures Refused(row) <==>
                capacity.limit < capacity.sessions + HandleBytes() + PendingBytes(pendingCapture + [row], sizing)
    {
    }

    /** The reservation of the row, as the books see it. */
    lemma RowSpent(books: Books, records: seq<Failure>, growth: int, ok: bool)
      requires books == Account().(kept := books.kept, records := |records|, live := books.live, lost := books.lost,
                                   fates := books.fates, firm := books.firm)
      requires 0 <= growth && |retained| <= books.kept && |subscribers| <= books.live
      requires books.firm == Fixed() - (if ok then growth else 0) + Total(records, FailureSize(sizing))
      requires Yields(records, books.lost, failures, lost, |retained|, capacity.limit < books.firm + growth)
      requires Served(books.fates, fates, !ok)
      ensures Spent(books, Account(), growth, !ok)
    {
      hide Yields, Served, Spent, Total, Fixed;
      YieldsMean(records, books.lost, failures, lost, |retained|, capacity.limit < books.firm + growth, sizing);
      var unpaid := Account().(firm := Firm() - if ok then growth else 0);
      YieldsSpent(records, failures, books, unpaid, capacity.limit < books.firm + growth, growth, !ok, sizing);
      SpentGrown(books, unpaid, Firm(), growth, !ok);
    }

    lemma RowTrims(start: Stage, records: seq<Failure>, growth: int, ok: bool)
      requires start.log == published && start.room == Room() && start.books.events == |published|
      requires start.books == Account().(kept := start.books.kept, records := |records|, live := start.books.live,
                                         lost := start.books.lost, fates := start.books.fates, firm := start.books.firm)
      requires 0 <= growth && |retained| <= start.books.kept && |subscribers| <= start.books.live
      requires start.books.firm == Fixed() - (if ok then growth else 0) + Total(records, FailureSize(sizing))
      requires Yields(records, start.books.lost, failures, lost, |retained|, capacity.limit < start.books.firm + growth)
      requires Served(start.books.fates, fates, !ok)
      requires Cuts(start.live, start.receivers, subscribers, receivers, 0, !ok)
      ensures Trims(start, Now(), sizing, !ok, growth)
    {
      hide Yields, Served, Spent, Total, Fixed, Cuts, SomeTight, SomeBare;
      RowSpent(start.books, records, growth, ok);
      assert published[|published|..] == [];
      SpentMore(start.books, Account(), growth, growth, !ok, SomeBare(published, |published|, Room(), sizing) || !ok);
      CutsExcused(start.live, start.receivers, subscribers, receivers, 0, !ok,
                  SomeTight(published, |published|, Room(), sizing) || !ok);
    }

    /** A row of this epoch does not join the pending rows: they are flushed before it. */
    ghost predicate Flushes(runtimeEpoch: Epoch)
      reads `pendingCapture, `captureEpoch
    {
      captureEpoch.Some? && captureEpoch.value != runtimeEpoch && pendingCapture != []
    }

    /** The pending rows that a row of this epoch joins. */
    ghost function Kept(runtimeEpoch: Epoch): seq<CaptureRow>
      reads `pendingCapture, `captureEpoch
    {
      if Flushes(runtimeEpoch) then [] else pendingCapture
    }

    /** The clock that a row of this epoch meets or starts. */
    ghost function Clock(runtimeEpoch: Epoch, occurredAt: Time): Time
      reads `pendingCapture, `captureEpoch, `captureStartedAt
    {
      if captureStartedAt.None? || Flushes(runtimeEpoch) then occurredAt else captureStartedAt.value
    }

    /** What the handles and the sessions leave for one event when no row is pending. */
    ghost function Room(): int
      reads `receivers, `replays, `nextSubscriptionId, capacity`limit,
            capacity`sessions
    {
      capacity.limit - capacity.sessions - HandleBytes()
    }

    lemma TightIs(from: nat)
      ensures SomeTight(published, from, Room(), sizing) ==> SomeExhausted(from)
      ensures pendingCapture == [] && SomeExhausted(from) ==> SomeTight(published, from, Room(), sizing)
    {
      hide HandleBytes;
      if SomeTight(published, from, Room(), sizing) {
        var i :| from <= i < |published| && Room() < sizing.event(published[i]);
        assert Exhausted(published[i]);
      }
      if pendingCapture == [] && SomeExhausted(from) {
        var i :| from <= i < |published| && Exhausted(published[i]);
        assert Room() < sizing.event(published[i]);
      }
    }

    lemma BareIs(from: nat)
      ensures SomeBare(published, from, Room(), sizing) ==> SomeStarved(from)
      ensures pendingCapture == [] && SomeStarved(from) ==> SomeBare(published, from, Room(), sizing)
    {
      hide HandleBytes, RecordBytes;
      if SomeBare(published, from, Room(), sizing) {
        var i :| from <= i < |published|
                 && (Room() < sizing.event(published[i]) || Room() < RecordBytes(published[i], sizing));
        assert Starved(published[i]);
      }
      if pendingCapture == [] && SomeStarved(from) {
        var i :| from <= i < |published| && Starved(published[i]);
        assert Room() < sizing.event(published[i]) || Room() < RecordBytes(published[i], sizing);
      }
    }

    ghost function Now(): Stage
      reads `published, `retained, `failures, `subscribers, `lost, `fates, `pendingCapture, `receivers, `replays,
            `nextSubscriptionId, capacity
    {
      Stage(published, subscribers, receivers, Room(), Account())
    }

    /** `CutsForced` for a stage that leaves no row pending. */
    twostate lemma CutsTight()
      requires CutsForced() && pendingCapture == [] && old(published) <= published && Room() <= old(Room())
      requires Spent(old(Account()), Account(), Costs(old(|subscribers|), published[|old(published)|..], sizing),
                     SomeStarved(|old(published)|))
      ensures Trims(old(Now()), Now(), sizing, false, 0)
    {
      hide SomeExhausted, SomeStarved, SomeTight, SomeBare, Room, Cuts, Spent, Costs, Account;
      TightIs(|old(published)|);
      BareIs(|old(published)|);
      CutsExcused(old(subscribers), old(receivers), subscribers, receivers, |published| - |old(published)|,
                  SomeExhausted(|old(published)|), SomeTight(published, |old(published)|, Room(), sizing));
      SpentMore(old(Account()), Account(), Costs(old(|subscribers|), published[|old(published)|..], sizing),
                Costs(old(|subscribers|), published[|old(published)|..], sizing),
                SomeStarved(|old(published)|), SomeBare(published, |old(published)|, Room(), sizing));
    }

    /** What the stages of a call that is over mean for its cuts and its costs. */
    lemma TrimsForced(a: Stage, full: bool, excused: bool, extra: int)
      requires Trims(a, Now(), sizing, full, extra) && (full ==> excused)
      ensures Cuts(a.live, a.receivers, subscribers, receivers, |published| - |a.log|, SomeExhausted(|a.log|)
                   || excused)
      ensures a.log <= published && Room() <= a.room
      ensures Spent(a.books, Account(), Costs(|a.live|, published[|a.log|..], sizing) + extra,
                    SomeStarved(|a.log|) || excused)
    {
      hide SomeExhausted, SomeStarved, SomeTight, SomeBare, Room, Cuts, Spent, Costs, Account;
      TightIs(|a.log|);
      BareIs(|a.log|);
      CutsExcused(a.live, a.receivers, subscribers, receivers, |published| - |a.log|,
                  SomeTight(published, |a.log|, Room(), sizing) || full, SomeExhausted(|a.log|) || excused);
      SpentMore(a.books, Account(), Costs(|a.live|, published[|a.log|..], sizing) + extra,
                Costs(|a.live|, published[|a.log|..], sizing) + extra,
                SomeBare(published, |a.log|, Room(), sizing) || full, SomeStarved(|a.log|) || excused);
    }

    /** Before a call: every live subscription has a handle and no notice. */
    lemma EndableNow()
      requires SubscriptionsOk()
      ensures Endable(fates, history, receivers)
      ensures forall k :: k in history && history[k].accepted && k !in fates ==> history[k].notices == []
    {
      hide TableOk, FailuresOk, SubscriptionOk, FateOk, LostOk;
      TableKeys(history, subscribers, receivers, replays, published, sizing);
      forall k | k in history && history[k].accepted && k !in fates
        ensures k in receivers && history[k].notices == []
      {
        TableOne(k, history, subscribers, receivers, replays, published, sizing);
        LiveIsOpen(history[k], Lookup(receivers, k), Lookup(replays, k), published, sizing);
      }
    }

    lemma InformedNow(before: map<nat, Fate>, live: set<nat>, was: map<nat, Receiver>, n: int, excused: bool)
      requires SubscriptionsOk() && Endable(before, history, was) && Cuts(live, was, subscribers, receivers, n, excused)
      requires forall k :: k in history && history[k].accepted && k !in before ==> history[k].notices == []
      ensures Informed(before, fates, receivers, failures, lost)
    {
      hide TableOk, FailuresOk, FatesOk, LostOk, Informed;
      InformedAfter(before, fates, history, subscribers, receivers, was, failures, lost);
    }

    lemma ValidSubscriptions()
      requires Valid()
      ensures SubscriptionsOk()
    {
    }

    lemma SteadyLevel(extra: nat)
      requires Steady(extra, |published|)
      ensures Level(Now(), history)
    {
    }

    /** Makes the pending batch one that a row of `runtimeEpoch` may join. */
    method PrepareBatch(runtimeEpoch: Epoch, occurredAt: Time)
      requires Steady(0, |published|) && CaptureOk(CAPTURE_BATCH_SIZE - 1) && !dropped
      modifies `nextId, `retained, `failures, `lost, `replayOverflowed, `subscribers, `subscriptionBytes, `fates,
               `receivers, `pendingCapture, `captureEpoch, `captureStartedAt, `published, `origins, capacity`events
      ensures Steady(0, |published|) && CaptureOk(CAPTURE_BATCH_SIZE - 1)
      ensures captureEpoch == Some(runtimeEpoch) && captureStartedAt == Some(old(Clock(runtimeEpoch, occurredAt)))
      ensures pendingCapture == old(Kept(runtimeEpoch)) && old(published) <= published
      ensures HandleBytes() >= old(HandleBytes())
      ensures !old(Flushes(runtimeEpoch)) ==>
                && published == old(published) && origins == old(origins) && HandleBytes() == old(HandleBytes())
                && replayOverflowed == old(replayOverflowed) && retained == old(retained)
                && capacity.events == old(capacity.events)
      ensures Trims(old(Now()), Now(), sizing, false, 0)
    {
      hide Valid, Steady, Held, HandleBytes, OriginsOk, CaptureLog, Batched, Tag, CutsForced, Trims, Now, Extended,
           Spent, SomeStarved, Costs, Informed, Account, Quiet;
      SteadyIsValid();
      TrimsNone(Now(), sizing, false);
      if captureEpoch.Some? && captureEpoch.value != runtimeEpoch && pendingCapture != [] {
        var _ := FlushCaptureLocked(occurredAt);
        CutsTight();
      }
      SteadyIsValid();
      captureEpoch := Some(runtimeEpoch);
      if captureStartedAt.None? {
        captureStartedAt := Some(occurredAt);
      }
    }

    /** A batch event of this epoch whose last row is `row`. */
    predicate BatchEnds(event: Event, epoch: Epoch, row: CaptureRow) {
      && event.payload.CaptureRowsAdded? && event.runtimeEpoch == Some(epoch)
      && event.payload.rows != [] && event.payload.rows[|event.payload.rows| - 1] == row
    }

    /**
     * Accepts one row: into the pending batch, or, when the ledger has no room for that, as a
     * batch of its own behind the rows that were pending. A change of epoch, a full batch and
     * a refused row flush what is pending first. A refused row that finds nothing pending leaves its clock
     * running. Nobody is cut off without need, the refusal of the row being one.
     */
    method PushCapture(runtimeEpoch: Epoch, occurredAt: Time, row: CaptureRow) returns (r: Option<Event>)
      requires Valid() && !dropped
      modifies `nextId, `retained, `failures, `lost, `replayOverflowed, `subscribers, `subscriptionBytes, `fates,
               `receivers, `pendingCapture, `captureEpoch, `captureStartedAt, `joinedAt, `published, `origins, `pushed,
               capacity`events
      ensures Valid() && !dropped
      ensures pushed == old(pushed) + [Pushed(runtimeEpoch, row)] && old(published) <= published
      ensures r.None? ==> captureEpoch == Some(runtimeEpoch) && pendingCapture == old(Kept(runtimeEpoch)) + [row]
                          && captureStartedAt == Some(old(Clock(runtimeEpoch, occurredAt)))
                          && joinedAt == if old(Kept(runtimeEpoch)) == [] then occurredAt else old(joinedAt)
      ensures r.None? && old(Kept(runtimeEpoch)) == [] ==>
                (DueMeansOld() <==> old(captureStartedAt).None? || old(Flushes(runtimeEpoch))
                                    || occurredAt <= old(captureStartedAt).value)
      ensures r.Some? ==> pendingCapture == [] && CaptureLog(published, origins) == pushed
                          && r.value in published && BatchEnds(r.value, runtimeEpoch, row)
                          && captureStartedAt == if r.value.payload.rows == [row] && old(Kept(runtimeEpoch)) == []
                                                 then Some(old(Clock(runtimeEpoch, occurredAt))) else None
      ensures r.Some? && |r.value.payload.rows| < 200 ==>
                r.value.payload.rows == [row] && BatchFull(old(Kept(runtimeEpoch)) + [row])
      ensures r.Some? && |r.value.payload.rows| >= 200 ==>
                r.value.payload.rows == old(Kept(runtimeEpoch)) + [row] && |r.value.payload.rows| == 200
      ensures !old(Flushes(runtimeEpoch)) ==>
                (r.Some? && r.value.payload.rows == [row] <==> old(Refused(row)))
      ensures forall show: CaptureRow -> string :: !old(Flushes(runtimeEpoch)) && Renders(show, sizing) ==>
                (r.Some? && r.value.payload.rows == [row] <==>
                 capacity.limit < capacity.sessions + old(HandleBytes())
                                  + |ArrayText(old(pendingCapture) + [row], show)|)
      ensures !old(Flushes(runtimeEpoch)) ==>
                && (old(replayOverflowed) || old(CutsLog(row)) ==> replayOverflowed && Quiet(old(origins), origins))
                && (r.None? ==> (replayOverflowed <==> old(replayOverflowed) || old(CutsLog(row))))
      ensures Cuts(old(subscribers), old(receivers), subscribers, receivers, |published| - |old(published)|,
                   SomeExhausted(|old(published)|) || BatchFull(old(Kept(runtimeEpoch)) + [row]))
      ensures Spent(old(Account()), Account(),
                    Costs(old(|subscribers|), published[|old(published)|..], sizing)
                    + GrowthOf(old(Kept(runtimeEpoch)), row),
                    SomeStarved(|old(published)|) || BatchFull(old(Kept(runtimeEpoch)) + [row]))
      ensures Informed(old(fates), fates, receivers, failures, lost)
    {
      hide HistoryBytes, HandleBytes, Valid, SubscriptionsOk, CaptureLog, Fixed, PendingBytes, Trims, Level, Cuts,
           SomeExhausted, Spent, Account, SomeStarved, Costs, Informed, Endable, Quiet, BatchFull, CutsLog, Refused,
           DueMeansOld, Due, Renders, ArrayText, Kept, Flushes, BatchEnds, GrowthOf;
      ValidSubscriptions();
      EndableNow();
      RefusedText(row);
      ghost var start, told, kept := Now(), fates, Kept(runtimeEpoch);
      r := PushRow(runtimeEpoch, occurredAt, row);
      TrimsForced(start, BatchFull(kept + [row]), BatchFull(kept + [row]), GrowthOf(kept, row));
      ValidSubscriptions();
      InformedNow(told, start.live, start.receivers, |published| - |start.log|,
                  SomeExhausted(|start.log|) || BatchFull(kept + [row]));
      if r.None? {
        AgeClaim();
      }
    }

    /** The two stages of accepting a row. */
    method PushRow(runtimeEpoch: Epoch, occurredAt: Time, row: CaptureRow) returns (r: Option<Event>)
      requires Valid() && !dropped
      modifies `nextId, `retained, `failures, `lost, `replayOverflowed, `subscribers, `subscriptionBytes, `fates,
               `receivers, `pendingCapture, `captureEpoch, `captureStartedAt, `joinedAt, `published, `origins, `pushed,
               capacity`events
      ensures Valid() && !dropped
      ensures pushed == old(pushed) + [Pushed(runtimeEpoch, row)] && old(published) <= published
      ensures r.None? ==> captureEpoch == Some(runtimeEpoch) && pendingCapture == old(Kept(runtimeEpoch)) + [row]
                          && captureStartedAt == Some(old(Clock(runtimeEpoch, occurredAt)))
                          && joinedAt == if old(Kept(runtimeEpoch)) == [] then occurredAt else old(joinedAt)
      ensures r.Some? ==> pendingCapture == [] && CaptureLog(published, origins) == pushed
                          && r.value in published && BatchEnds(r.value, runtimeEpoch, row)
                          && captureStartedAt == if r.value.payload.rows == [row] && old(Kept(runtimeEpoch)) == []
                                                 then Some(old(Clock(runtimeEpoch, occurredAt))) else None
      ensures r.Some? && |r.value.payload.rows| < CAPTURE_BATCH_SIZE ==>
                r.value.payload.rows == [row] && BatchFull(old(Kept(runtimeEpoch)) + [row])
      ensures r.Some? && |r.value.payload.rows| >= CAPTURE_BATCH_SIZE ==>
                r.value.payload.rows == old(Kept(runtimeEpoch)) + [row] && |r.value.payload.rows| == CAPTURE_BATCH_SIZE
      ensures !old(Flushes(runtimeEpoch)) ==>
                (r.Some? && r.value.payload.rows == [row] <==> old(Refused(row)))
      ensures !old(Flushes(runtimeEpoch)) ==>
                && (old(replayOverflowed) || old(CutsLog(row)) ==> replayOverflowed && Quiet(old(origins), origins))
                && (r.None? ==> (replayOverflowed <==> old(replayOverflowed) || old(CutsLog(row))))
      ensures Trims(old(Now()), Now(), sizing, BatchFull(old(Kept(runtimeEpoch)) + [row]),
                    GrowthOf(old(Kept(runtimeEpoch)), row))
    {
      hide HistoryBytes, HandleBytes, Held, SubscriptionsOk, Steady, Synced, OriginsOk, CaptureLog, Fixed, PendingBytes,
           Core, LogOk, WarnedOnce, Numbered, Trims, Level, Account, Quiet, CutsLog;
      SteadyIsValid();
      SteadyLevel(0);
      ghost var start := Now();
      PrepareBatch(runtimeEpoch, occurredAt);
      SteadyLevel(0);
      ghost var prepared, full, growth := Now(), Refused(row), Growth(row);
      r := PlaceRow(runtimeEpoch, occurredAt, row);
      TrimsRoom(prepared, full, growth);
      TrimsOn(start, prepared, Now(), history, sizing, false, full, 0, growth);
      TrimsMore(start, Now(), sizing, full, BatchFull(old(Kept(runtimeEpoch)) + [row]), growth);
    }

    lemma TrimsRoom(a: Stage, full: bool, extra: int)
      requires Trims(a, Now(), sizing, full, extra)
      ensures a.log <= published && Room() <= a.room
    {
      hide Cuts, Spent, SomeTight, SomeBare, StageCost, Room, Account;
    }

    /** The row meets a batch of its own epoch. */
    method PlaceRow(runtimeEpoch: Epoch, occurredAt: Time, row: CaptureRow) returns (r: Option<Event>)
      requires Steady(0, |published|) && CaptureOk(CAPTURE_BATCH_SIZE - 1) && !dropped
      requires captureEpoch == Some(runtimeEpoch) && captureStartedAt.Some?
      modifies `nextId, `retained, `failures, `lost, `replayOverflowed, `subscribers, `subscriptionBytes, `fates,
               `receivers, `pendingCapture, `captureEpoch, `captureStartedAt, `joinedAt, `published, `origins, `pushed,
               capacity`events
      ensures Valid() && !dropped
      ensures pushed == old(pushed) + [Pushed(runtimeEpoch, row)]
      ensures old(replayOverflowed) || old(CutsLog(row)) ==> replayOverflowed && Quiet(old(origins), origins)
      ensures r.None? ==> (replayOverflowed <==> old(replayOverflowed) || old(CutsLog(row)))
      ensures r.None? <==> !old(Refused(row)) && |old(pendingCapture)| + 1 < CAPTURE_BATCH_SIZE
      ensures r.None? ==> captureEpoch == old(captureEpoch) && pendingCapture == old(pendingCapture) + [row]
                          && captureStartedAt == old(captureStartedAt)
                          && joinedAt == if old(pendingCapture) == [] then occurredAt else old(joinedAt)
      ensures r.Some? ==> pendingCapture == [] && CaptureLog(published, origins) == pushed
                          && r.value in published && BatchEnds(r.value, runtimeEpoch, row)
                          && r.value.payload.rows ==
                             (if old(Refused(row)) then [row] else old(pendingCapture) + [row])
                          && captureStartedAt == if old(Refused(row)) && old(pendingCapture) == []
                                                 then old(captureStartedAt) else None
      ensures Trims(old(Now()), Now(), sizing, old(Refused(row)), old(Growth(row)))
    {
      hide HistoryBytes, HandleBytes, Held, SubscriptionsOk, Steady, Synced, CaptureLog, Tag, PendingBytes, CutsForced,
           Extended, Core, LogOk, WarnedOnce, Numbered, Trims, Level, Now, Refused, BatchEnds, Growth, CutsLog, Quiet;
      SteadyLevel(0);
      ghost var rows, start, growth := pendingCapture, Now(), Growth(row);
      var ok := AdmitRow(row);
      SteadyLevel(0);
      ghost var admitted := Now();
      r := FinishRow(runtimeEpoch, occurredAt, row, ok, rows);
      TrimsOn(start, admitted, Now(), history, sizing, !ok, false, growth, 0);
    }

    /** A refused row is sent by itself; one that joined the pending rows `rows` may have filled the batch. */
    method FinishRow(runtimeEpoch: Epoch, occurredAt: Time, row: CaptureRow, ok: bool, ghost rows: seq<CaptureRow>)
      returns (r: Option<Event>)
      requires Steady(0, |published|) && !dropped && pendingCapture == (if ok then rows + [row] else rows)
      requires |rows| < CAPTURE_BATCH_SIZE && captureEpoch == Some(runtimeEpoch) && captureStartedAt.Some?
      requires |origins| == |published| && Batched() + Tag(rows, captureEpoch) == pushed
      modifies `nextId, `retained, `failures, `lost, `replayOverflowed, `subscribers, `subscriptionBytes, `fates,
               `receivers, `pendingCapture, `captureEpoch, `captureStartedAt, `joinedAt, `published, `origins, `pushed,
               capacity`events
      ensures Valid() && !dropped
      ensures pushed == old(pushed) + [Pushed(runtimeEpoch, row)]
      ensures old(replayOverflowed) ==> replayOverflowed && Quiet(old(origins), origins)
      ensures r.None? ==> replayOverflowed == old(replayOverflowed)
      ensures r.None? <==> ok && |rows| + 1 < CAPTURE_BATCH_SIZE
      ensures r.None? ==> captureEpoch == old(captureEpoch) && pendingCapture == rows + [row]
                          && captureStartedAt == old(captureStartedAt)
                          && joinedAt == if rows == [] then occurredAt else old(joinedAt)
      ensures r.Some? ==> pendingCapture == [] && CaptureLog(published, origins) == pushed
                          && r.value in published && BatchEnds(r.value, runtimeEpoch, row)
                          && r.value.payload.rows == (if ok then rows + [row] else [row])
                          && captureStartedAt == if !ok && rows == [] then old(captureStartedAt) else None
      ensures Trims(old(Now()), Now(), sizing, false, 0)
    {
      hide HistoryBytes, HandleBytes, SubscriptionsOk, Steady, CaptureLog, Tag, PendingBytes, Trims, Now, BatchEnds;
      SteadyCounts(0, |published|);
      if ok {
        r := CloseBatch(runtimeEpoch, occurredAt, row, rows);
      } else {
        var direct := PushDirect(runtimeEpoch, occurredAt, row);
        SteadyIsValid();
        r := Some(direct);
      }
    }

    /** The row joined the pending ones; a batch that is full with it is flushed. */
    method CloseBatch(runtimeEpoch: Epoch, occurredAt: Time, row: CaptureRow, ghost rows: seq<CaptureRow>)
      returns (r: Option<Event>)
      requires Steady(0, |published|) && !dropped && pendingCapture == rows + [row] && |rows| < CAPTURE_BATCH_SIZE
      requires captureEpoch == Some(runtimeEpoch) && captureStartedAt.Some?
      requires |origins| == |published| && Batched() + Tag(rows, captureEpoch) == pushed
      modifies `nextId, `retained, `failures, `lost, `replayOverflowed, `subscribers, `subscriptionBytes, `fates,
               `receivers, `pendingCapture, `captureEpoch, `captureStartedAt, `joinedAt, `published, `origins, `pushed,
               capacity`events
      ensures Valid() && !dropped
      ensures pushed == old(pushed) + [Pushed(runtimeEpoch, row)]
      ensures old(replayOverflowed) ==> replayOverflowed && Quiet(old(origins), origins)
      ensures r.None? ==> replayOverflowed == old(replayOverflowed)
      ensures r.None? <==> |rows| + 1 < CAPTURE_BATCH_SIZE
      ensures r.None? ==> captureEpoch == old(captureEpoch) && pendingCapture == rows + [row]
                          && captureStartedAt == old(captureStartedAt)
                          && joinedAt == if rows == [] then occurredAt else old(joinedAt)
      ensures r.Some? ==> pendingCapture == [] && captureStartedAt == None && CaptureLog(published, origins) == pushed
                          && r.value in published && BatchEnds(r.value, runtimeEpoch, row)
                          && r.value.payload.rows == rows + [row]
      ensures Trims(old(Now()), Now(), sizing, false, 0)
    {
      hide HistoryBytes, HandleBytes, Held, SubscriptionsOk, Synced, CaptureLog, Fixed, Tag, PendingBytes,
           Extended, Core, LogOk, WarnedOnce, Numbered, Cuts, Trims, Now, Spent,
           Account, SomeStarved, Costs, Informed;
      TagPush(rows, row, runtimeEpoch);
      pushed := pushed + [Pushed(runtimeEpoch, row)];
      joinedAt := if rows == [] then occurredAt else joinedAt;
      if |pendingCapture| >= CAPTURE_BATCH_SIZE {
        r := FlushCaptureLocked(occurredAt);
        CutsTight();
      } else {
        QuietNone(origins);
        TrimsNone(Now(), sizing, false);
        SteadyIsValid();
        r := None;
      }
    }

    lemma SteadyIsValid()
      requires !dropped
      ensures Valid() <==> Steady(0, |published|) && CaptureOk(CAPTURE_BATCH_SIZE - 1)
    {
    }

    method PushDirect(runtimeEpoch: Epoch, occurredAt: Time, row: CaptureRow) returns (direct: Event)
      requires Steady(0, |published|) && CaptureOk(CAPTURE_BATCH_SIZE - 1) && !dropped
      modifies `nextId, `retained, `failures, `lost, `replayOverflowed, `subscribers, `subscriptionBytes, `fates,
               `receivers, `pendingCapture, `captureEpoch, `captureStartedAt, `published, `origins, `pushed,
               capacity`events
      ensures Steady(0, |published|) && CaptureOk(CAPTURE_BATCH_SIZE - 1) && pendingCapture == []
      ensures CaptureLog(published, origins) == pushed == old(pushed) + [Pushed(runtimeEpoch, row)]
      ensures direct in published && BatchEnds(direct, runtimeEpoch, row) && direct.payload.rows == [row]
      ensures old(replayOverflowed) ==> replayOverflowed && Quiet(old(origins), origins)
      ensures captureStartedAt == if old(pendingCapture) == [] then old(captureStartedAt) else None
      ensures Trims(old(Now()), Now(), sizing, false, 0)
    {
      hide HistoryBytes, HandleBytes, Held, SubscriptionsOk, Steady, Synced, CaptureLog, CaptureOk, Tag, Extended,
           CutsForced, BatchEnds, Trims, Level, Now;
      SteadyLevel(0);
      ghost var start, sources := Now(), origins;
      FlushPending(occurredAt);
      SteadyLevel(0);
      ghost var flushed, flushedSources := Now(), origins;
      direct := BroadcastRow(runtimeEpoch, occurredAt, row);
      TrimsOn(start, flushed, Now(), history, sizing, false, false, 0, 0);
      if old(replayOverflowed) {
        QuietOn(sources, flushedSources, origins);
      }
      NothingPending();
    }

    method FlushPending(occurredAt: Time)
      requires Steady(0, |published|) && CaptureOk(CAPTURE_BATCH_SIZE - 1) && !dropped
      modifies `nextId, `retained, `failures, `lost, `replayOverflowed, `subscribers, `subscriptionBytes, `fates,
               `receivers, `pendingCapture, `captureEpoch, `captureStartedAt, `published, `origins, capacity`events
      ensures Steady(0, |published|) && pendingCapture == []
      ensures |origins| == |published| && CaptureLog(published, origins) == pushed
      ensures old(replayOverflowed) ==> replayOverflowed && Quiet(old(origins), origins)
      ensures captureStartedAt == if old(pendingCapture) == [] then old(captureStartedAt) else None
      ensures Trims(old(Now()), Now(), sizing, false, 0)
    {
      hide HistoryBytes, HandleBytes, Held, Core, LogOk, CaptureLog, CutsForced, Trims, Now, WarnedOnce, Numbered,
           Extended, Spent, Account, SomeStarved, Costs, Informed;
      if pendingCapture != [] {
        var _ := FlushCaptureLocked(occurredAt);
        CutsTight();
      } else {
        QuietNone(origins);
        TrimsNone(Now(), sizing, false);
        assert pushed == Batched() + Tag([], captureEpoch);
      }
    }

    /** A row that no pending batch could take becomes an event by itself. */
    method BroadcastRow(runtimeEpoch: Epoch, occurredAt: Time, row: CaptureRow) returns (direct: Event)
      requires Steady(0, |published|) && pendingCapture == [] && CaptureLog(published, origins) == pushed
      modifies `nextId, `retained, `failures, `lost, `replayOverflowed, `subscribers, `subscriptionBytes, `fates,
               `receivers, `published, `origins, `pushed, capacity`events
      ensures Steady(0, |published|) && |origins| == |published| && CaptureLog(published, origins) == pushed
      ensures pushed == old(pushed) + [Pushed(runtimeEpoch, row)]
      ensures direct == Event(|old(published)| + 1, Some(runtimeEpoch), occurredAt, None, None, CaptureRowsAdded([row]))
      ensures Extended(direct, Batch) && HandleBytes() >= old(HandleBytes()) && direct in published
              && BatchEnds(direct, runtimeEpoch, row)
      ensures old(published) <= published && CutsForced()
      ensures old(replayOverflowed) ==> replayOverflowed && Quiet(old(origins), origins)
      ensures Trims(old(Now()), Now(), sizing, false, 0)
    {
      hide Steady, HistoryBytes, HandleBytes, CaptureLog, CutsForced, Trims, Now, Comfortable, Lossless, Extended,
           Spent, Account, SomeStarved, Costs, Quiet, OriginsOk, PendingBytes, Total, Batched, Tag, Fixed, Firm;
      SteadyCounts(0, |published|);
      BatchedIs();
      FixedIs();
      direct := Broadcast(0, PendingEvent(Some(runtimeEpoch), occurredAt, None, None, CaptureRowsAdded([row])), Batch);
      FixedIs();
      CutsTight();
      SteadyCounts(0, |published|);
      BatchedIs();
      TagPush([], row, runtimeEpoch);
      assert [] + [row] == [row];
      pushed := pushed + [Pushed(runtimeEpoch, row)];
    }

    // ---- replay and subscription ----

    /** True exactly when an event after cursor `c` is no longer in the replay log. */
    predicate Expired(c: nat): (expired: bool)
      requires LogOk()
      reads `nextId, `retained, `published, `replayOverflowed
      ensures expired <==> c < |published| - |retained|
    {
      var currentCursor := nextId - 1;
      var oldest := if retained == [] then nextId else retained[0].id;
      assert retained != [] ==> retained[0] == published[|published| - |retained|];
      c < currentCursor && c + 1 < oldest
    }

    /** Exactly the published events after `c`, or the demand for a snapshot when one of them is gone. */
    method ReplayAfter(c: nat, now: Time) returns (r: EventReplay)
      requires Valid() && !dropped
      ensures r.currentCursor == |published|
      ensures r.snapshotRequired <==> exists i :: c <= i < |published| && published[i] !in retained
      ensures !r.snapshotRequired ==> r.events == if c <= |published| then published[c..] else []
      ensures r.snapshotRequired ==>
                r.events == [Event(|published|, None, now, None, None, SnapshotRequired(CURSOR_EXPIRED))]
    {
      hide HistoryBytes, HandleBytes, Held, SubscriptionsOk, Synced, RunUpTo, Numbered, CaptureLog;
      var expired := Expired(c);
      RunMisses(published, retained, c);
      if expired {
        return EventReplay([Snapshot(nextId - 1, now)], nextId - 1, true);
      }
      AfterRun(published, retained, c);
      return EventReplay(After(retained, c), nextId - 1, false);
    }

    /** The ledger has room for copies of the events after `c` as it stands. */
    ghost predicate CopiesFit(c: nat)
      reads `published, capacity
    {
      capacity.sessions + capacity.events + Total(Tail(published, c), sizing.event) <= capacity.limit
    }

    /** The replay copies of a new subscription, with their bytes reserved; `None` if nothing can be reserved. */
    method ReserveReplay(c: nat, now: Time) returns (events: Option<seq<Event>>, accepted: bool)
      requires Steady(0, |published|)
      requires c < |published| - |retained| || |subscribers| < MAX_SUBSCRIBERS
      modifies `retained, `failures, `lost, `replayOverflowed, capacity`events
      ensures Steady(if events.Some? then Total(events.value, sizing.event) else 0, |published|)
      ensures old(lost) <= lost && (lost != old(lost) ==>
                retained == [] && capacity.limit < old(Firm()) + sizing.event(Snapshot(|published|, now)))
      ensures replayOverflowed <==>
                || old(replayOverflowed)
                || (!accepted && old(retained) != [] && !old(Roomy(Snapshot(|published|, now), 0)))
      ensures events.None? ==> !accepted && NoRoom(Snapshot(|published|, now))
      ensures events.None? <==> !accepted && old(Exhausted(Snapshot(|published|, now)))
      ensures accepted <==> c >= |published| - |old(retained)| && old(CopiesFit(c))
      ensures accepted ==> retained == old(retained) && failures == old(failures)
                           && |subscribers| < MAX_SUBSCRIBERS
                           && events.value == Tail(published, c)
      ensures events.Some? && !accepted ==>
                events.value == [Snapshot(|published|, now)]
    {
      hide HistoryBytes, HandleBytes, SubscriptionsOk, Synced, RunUpTo, Numbered, CaptureLog, PendingBytes, Spent, Firm;
      ghost var books := Account();
      var expired := Expired(c);
      if !expired {
        AfterRun(published, retained, c);
        var copies := After(retained, c);
        var ok := capacity.TryReserveEventBytes(Total(copies, sizing.event));
        if ok {
          return Some(copies), true;
        }
      }
      var snapshot := ReserveSnapshot(now);
      SnapshotLoses(books, sizing.event(Snapshot(|published|, now)));
      return snapshot, false;
    }

    lemma SnapshotLoses(books: Books, bytes: nat)
      requires Spent(books, Account(), bytes, false) && books.live == |subscribers| && books.events == |published|
      requires books.records <= FAILURE_CAPACITY && books.limit == capacity.limit
      ensures books.lost <= lost && (lost != books.lost ==> retained == [] && capacity.limit < books.firm + bytes)
    {
      hide Firm;
    }

    /** The one event that demands a snapshot, with its bytes reserved. */
    method ReserveSnapshot(now: Time) returns (events: Option<seq<Event>>)
      requires Steady(0, |published|)
      modifies `retained, `failures, `lost, `replayOverflowed, capacity`events
      ensures Steady(if events.Some? then Total(events.value, sizing.event) else 0, |published|)
      ensures Spent(old(Account()), Account(), sizing.event(Snapshot(|published|, now)), false)
      ensures replayOverflowed <==>
                || old(replayOverflowed)
                || (old(retained) != [] && !old(Roomy(Snapshot(|published|, now), 0)))
      ensures events.None? ==> NoRoom(Snapshot(|published|, now))
      ensures events.None? <==> old(Exhausted(Snapshot(|published|, now)))
      ensures events.Some? ==> events.value == [Snapshot(|published|, now)]
    {
      hide HistoryBytes, HandleBytes, SubscriptionsOk, Synced, RunUpTo, Numbered, CaptureLog, PendingBytes, Spent, Firm;
      var snapshot := Snapshot(nextId - 1, now);
      var ok := ReserveOptional(sizing.event(snapshot));
      HistoryEmpty();
      if !ok {
        return None;
      }
      assert Total([snapshot], sizing.event) == sizing.event(snapshot);
      return Some([snapshot]);
    }

    /** A new subscription `ack` after cursor `c`, as `Subscribe` says. */
    twostate predicate Enrolled(ack: Ack, c: nat, queueCapacity: nat)
      reads `retained, `failures, `subscribers, `receivers, `replays, `history, `published, `nextSubscriptionId,
      capacity
    {
      var id, accepted := ack.subscriptionId, !ack.snapshotRequired;
      && id == old(nextSubscriptionId) && nextSubscriptionId == id + 1
      && ack == Ack(id, c, |published|, !accepted)
      && id !in old(history) && id in history
      && history == old(history)[id := Started(c, |published|, accepted, history[id].replay)]
      && subscribers == old(subscribers) + (if accepted then {id} else {})
      && receivers == old(receivers)[id := Receiver([], QueueBound(queueCapacity), 0, false, false, |published|)]
      && replays == old(replays)[id := Replay(history[id].replay, Total(history[id].replay, sizing.event))]
      && (accepted <==> c >= |published| - old(|retained|) && old(CopiesFit(c)))
      && (accepted ==> history[id].replay == Tail(published, c))
      && (accepted ==> retained == old(retained) && failures == old(failures))
    }

    ghost predicate EnrolledAs(ack: Ack, c: nat, now: Time)
      reads `history, `published
    {
      && ack.subscriptionId in history
      && var replay := history[ack.subscriptionId].replay;
         && history[ack.subscriptionId] == Started(c, |published|, !ack.snapshotRequired, replay)
         && (if ack.snapshotRequired then replay == [Snapshot(|published|, now)] else replay == Tail(published, c))
    }

    lemma EnrolledFields(ack: Ack, c: nat, now: Time)
      requires EnrolledAs(ack, c, now)
      ensures ack.subscriptionId in history
      ensures var h := history[ack.subscriptionId];
              && h.base == (if c <= |published| then c else |published|) && h.accepted == !ack.snapshotRequired
              && h.consumed == [] && h.received == [] && h.notices == []
              && h.replay == if ack.snapshotRequired
                             then [Event(|published|, None, now, None, None, SnapshotRequired(CURSOR_EXPIRED))]
                             else if c <= |published| then published[c..] else []
    {
    }

    /**
     * Fixes the boundary between replay and live delivery in one step. An accepted subscription
     * starts after cursor `c` (or after the newest event, if `c` lies in the future); any other
     * successful one receives a single demand for a snapshot and no live events.
     */
    method Subscribe(c: nat, queueCapacity: nat, now: Time) returns (r: Result<Ack, SubscribeError>)
      requires Valid() && !dropped
      modifies `retained, `failures, `lost, `replayOverflowed, `subscribers, `subscriptionBytes, `receivers, `replays,
               `nextSubscriptionId, `history, capacity`events
      ensures Valid() && !dropped
      ensures r.Err? ==> history == old(history) && receivers == old(receivers) && replays == old(replays)
      ensures r == Err(TooManySubscribers) <==>
                old(|subscribers|) >= 16 && c >= |published| - old(|retained|)
      ensures r == Err(CapacityExhausted) ==>
                NoRoom(Snapshot(|published|, now))
      ensures r == Err(CapacityExhausted) <==>
                && (old(|subscribers|) >= 16 ==> c < |published| - old(|retained|))
                && (c >= |published| - old(|retained|) ==> !old(CopiesFit(c)))
                && old(Exhausted(Snapshot(|published|, now)))
      ensures old(lost) <= lost && (lost != old(lost) ==>
                retained == [] && capacity.limit < old(Firm()) + sizing.event(Snapshot(|published|, now)))
      ensures replayOverflowed <==>
                || old(replayOverflowed)
                || (r != Err(TooManySubscribers) && (c >= |published| - old(|retained|) ==> !old(CopiesFit(c)))
                 && old(retained) != [] && !old(Roomy(Snapshot(|published|, now), 0)))
      ensures r.Ok? ==> Enrolled(r.value, c, queueCapacity)
      ensures r.Ok? ==>
                var ack, h := r.value, history[r.value.subscriptionId];
                && h.base == (if c <= |published| then c else |published|) && h.accepted == !ack.snapshotRequired
                && h.consumed == [] && h.received == [] && h.notices == []
                && h.replay == if ack.snapshotRequired
                               then [Event(|published|, None, now, None, None, SnapshotRequired(CURSOR_EXPIRED))]
                               else if c <= |published| then published[c..] else []
    {
      hide *;
      SubscriberLimit();
      SteadyIsValid();
      SteadyLog();
      if !Expired(c) && |subscribers| >= MAX_SUBSCRIBERS {
        return Err(TooManySubscribers);
      }
      r := Enroll(c, queueCapacity, now);
      if r.Ok? {
        EnrolledFields(r.value, c, now);
      }
      SteadyIsValid();
    }

    method Enroll(c: nat, queueCapacity: nat, now: Time) returns (r: Result<Ack, SubscribeError>)
      requires Steady(0, |published|) && (c < |published| - |retained| || |subscribers| < MAX_SUBSCRIBERS)
      modifies `retained, `failures, `lost, `replayOverflowed, `subscribers, `subscriptionBytes, `receivers, `replays,
               `nextSubscriptionId, `history, capacity`events
      ensures Steady(0, |published|)
      ensures r.Err? ==> r == Err(CapacityExhausted) && NoRoom(Snapshot(|published|, now))
                         && history == old(history) && receivers == old(receivers) && replays == old(replays)
      ensures r.Err? <==> old(Exhausted(Snapshot(|published|, now)))
                          && (c >= |published| - old(|retained|) ==> !old(CopiesFit(c)))
      ensures old(lost) <= lost && (lost != old(lost) ==>
                retained == [] && capacity.limit < old(Firm()) + sizing.event(Snapshot(|published|, now)))
      ensures replayOverflowed <==>
                || old(replayOverflowed)
                || ((c >= |published| - old(|retained|) ==> !old(CopiesFit(c)))
                 && old(retained) != [] && !old(Roomy(Snapshot(|published|, now), 0)))
      ensures r.Ok? ==> Enrolled(r.value, c, queueCapacity)
      ensures r.Ok? ==> EnrolledAs(r.value, c, now)
    {
      hide Steady, Core, LogOk, HistoryBytes, HandleBytes, Exhausted, NoRoom, CopiesFit, Tail, Started, Total, Snapshot,
           QueueBound, Firm, Fixed, Roomy, Account;
      var events, accepted := ReserveReplay(c, now);
      SteadyNext(if events.Some? then Total(events.value, sizing.event) else 0, |published|);
      if events.None? {
        return Err(CapacityExhausted);
      }
      var id := Register(c, events.value, accepted, queueCapacity);
      r := Ok(Ack(id, c, nextId - 1, !accepted));
    }

    lemma SteadyLog()
      ensures forall extra: nat :: Steady(extra, |published|) ==> LogOk()
    {
      hide Core, LogOk, OriginsOk, WarnedOnce;
    }

    lemma SteadyCursor()
      requires LogOk()
      ensures nextId == |published| + 1 && |retained| <= |published|
    {
    }

    function QueueBound(queueCapacity: nat): (bound: nat)
      ensures 1 <= queueCapacity <= 512 ==> bound == queueCapacity
      ensures queueCapacity == 0 ==> bound == 1
      ensures queueCapacity > 512 ==> bound == 512
    {
      if queueCapacity < 1 then 1 else if queueCapacity > SUBSCRIBER_CAPACITY then SUBSCRIBER_CAPACITY
        else queueCapacity
    }

    method Register(c: nat, events: seq<Event>, accepted: bool, queueCapacity: nat) returns (id: nat)
      requires Steady(Total(events, sizing.event), |published|)
      requires accepted ==> events == Tail(published, c) && |subscribers| < MAX_SUBSCRIBERS
      requires !accepted ==> |events| == 1 && events[0].payload.SnapshotRequired?
      modifies `subscribers, `subscriptionBytes, `receivers, `replays, `nextSubscriptionId, `history
      ensures Steady(0, |published|)
      ensures id == old(nextSubscriptionId) && nextSubscriptionId == id + 1 && id !in old(history)
      ensures history == old(history)[id := Started(c, |published|, accepted, events)] && history[id].replay == events
      ensures subscribers == old(subscribers) + if accepted then {id} else {}
      ensures receivers == old(receivers)[id := Receiver([], QueueBound(queueCapacity), 0, false, false, |published|)]
      ensures replays == old(replays)[id := Replay(events, Total(events, sizing.event))]
    {
      hide Core, LogOk, Total, SubscriptionOk, Tail, Started, End, OriginsOk, WarnedOnce;
      SteadyCursor();
      var receiver := Receiver([], QueueBound(queueCapacity), 0, false, false, nextId - 1);
      var replay := Replay(events, Total(events, sizing.event));
      StartedOk(c, accepted, events, receiver, replay, published, sizing);
      id := nextSubscriptionId;
      EnterCharged(id, accepted, Started(c, |published|, accepted, events), receiver, replay);
    }

    method EnterCharged(id: nat, accepted: bool, ghost h: Subscription, receiver: Receiver, replay: Replay)
      requires accepted == h.accepted && (accepted ==> |subscribers| < MAX_SUBSCRIBERS)
      requires Core(replay.reserved, |published|) && id == nextSubscriptionId
      requires SubscriptionOk(h, h.accepted, Some(receiver), Some(replay), published, sizing)
      requires receiver.queuedBytes == 0 && receiver.queue == []
      requires h.accepted ==> End(h, Some(receiver)) == |published|
      modifies `subscribers, `subscriptionBytes, `receivers, `replays, `nextSubscriptionId, `history
      ensures Core(0, |published|)
      ensures nextSubscriptionId == id + 1
      ensures id !in old(history) && history == old(history)[id := h] && receivers == old(receivers)[id := receiver]
      ensures replays == old(replays)[id := replay]
      ensures subscribers == old(subscribers) + if h.accepted then {id} else {}
    {
      hide HistoryBytes, HandleBytes, SubscriptionsOk, Synced, SubscriptionOk, PendingBytes;
      Enter(id, accepted, h, receiver, replay);
    }

    /** Enters a new subscription into all tables of the hub. */
    method Enter(id: nat, accepted: bool, ghost h: Subscription, receiver: Receiver, replay: Replay)
      requires accepted == h.accepted
      requires SubscriptionsOk() && Synced(subscribers, |published|) && id == nextSubscriptionId
      requires SubscriptionOk(h, h.accepted, Some(receiver), Some(replay), published, sizing)
      requires receiver.queuedBytes == 0 && receiver.queue == []
      requires h.accepted ==> End(h, Some(receiver)) == |published|
      modifies `subscribers, `subscriptionBytes, `receivers, `replays, `nextSubscriptionId, `history
      ensures SubscriptionsOk() && Synced(subscribers, |published|)
      ensures nextSubscriptionId == id + 1 && id !in old(history)
      ensures history == old(history)[id := h] && receivers == old(receivers)[id := receiver]
      ensures replays == old(replays)[id := replay]
      ensures subscribers == old(subscribers) + if h.accepted then {id} else {}
      ensures HandleBytes() == old(HandleBytes()) + replay.reserved
    {
      hide TableOk, FailuresOk, FatesOk, LostOk, SubscriptionOk, End, AllAt, TableTotal, QueuedBytes, ReservedBytes;
      EnterBytes(receivers, replays, receiver, replay, id);
      ghost var wasHistory, wasLive, wasReceivers, wasReplays := history, subscribers, receivers, replays;
      TableKeys(history, subscribers, receivers, replays, published, sizing);
      nextSubscriptionId := nextSubscriptionId + 1;
      receivers, replays := receivers[id := receiver], replays[id := replay];
      if accepted {
        subscribers, subscriptionBytes := subscribers + {id}, subscriptionBytes + {id};
      }
      assert subscribers == subscriptionBytes == wasLive + if accepted then {id} else {};
      assert wasLive + {} == wasLive;
      history := history[id := h];
      NewTableOk(wasHistory, wasLive, wasReceivers, wasReplays, failures, published, sizing, id, h, receiver, replay);
      FatesKnown(fates, wasHistory, wasLive, wasReceivers, failures);
      LostKept(lost, fates, wasHistory, wasReceivers, failures, history, receivers);
      FatesEnter(fates, wasHistory, wasLive, wasReceivers, failures, id, h, receiver);
      AllAtEnter(wasLive, |published|, wasHistory, wasReceivers, id, h, receiver);
    }

    method Unsubscribe(k: nat)
      requires Valid() && !dropped
      modifies `subscribers, `subscriptionBytes, `fates, `receivers
      ensures Valid() && !dropped && subscribers == old(subscribers) - {k}
      ensures receivers == if k in old(subscribers)
                           then old(receivers)[k := old(receivers)[k].(cancelled := true)] else old(receivers)
      ensures fates == (if k in old(subscribers) then old(fates)[k := Fate.Unsubscribed] else old(fates))
      ensures k in old(subscribers) ==> k !in old(fates)
    {
      hide Valid, Steady, SubscriptionsOk, Core;
      SteadyIsValid();
      Cancel(k, Fate.Unsubscribed, 0, |published|);
      SteadyIsValid();
    }

    /** Ends live delivery to `k` without a notice, for the reason `fate`. */
    method Cancel(k: nat, ghost fate: Fate, ghost extra: nat, ghost n: nat)
      requires Steady(extra, n) && !fate.Told()
      modifies `subscribers, `subscriptionBytes, `fates, `receivers
      ensures Steady(extra, n) && subscribers == old(subscribers) - {k}
      ensures receivers == if k in old(subscribers)
                           then old(receivers)[k := old(receivers)[k].(cancelled := true)] else old(receivers)
      ensures fates == (if k in old(subscribers) then old(fates)[k := fate] else old(fates))
      ensures k in old(subscribers) ==> k !in old(fates)
    {
      hide HistoryBytes, HandleBytes, SubscriptionsOk, LogOk, PendingBytes;
      ghost var live, before := subscribers, receivers;
      if k in subscribers {
        CancelLive(k, fate);
        AllAtExcept(subscribers, n, history, before, receivers, k);
        SubsetSize(subscribers, live);
      } else {
        assert subscribers == live - {k};
      }
    }

    method CancelLive(k: nat, ghost fate: Fate)
      requires SubscriptionsOk() && k in subscribers && !fate.Told()
      modifies `subscribers, `subscriptionBytes, `fates, `receivers
      ensures SubscriptionsOk() && subscribers == old(subscribers) - {k} && k in old(receivers)
      ensures receivers == old(receivers)[k := old(receivers)[k].(cancelled := true)]
      ensures fates == old(fates)[k := fate] && k !in old(fates)
      ensures HandleBytes() == old(HandleBytes())
    {
      hide TableOk, FailuresOk, FatesOk, LostOk, TableTotal;
      ghost var live, before := subscribers, receivers;
      TableKeys(history, subscribers, receivers, replays, published, sizing);
      OpenLane(k);
      FatesEnd(fates, history, live, before, replays, failures, published, sizing, k, fate,
               before[k].(cancelled := true));
      LostEnd(lost, fates, history, before, failures, k, fate, before[k].(cancelled := true));
      RemoveSubscriber(k);
      fates := fates[k := fate];
      CancelKeepsTable(history, live, before, replays, failures, published, sizing, k, 0, false);
      TableTotalChange(before, receivers, QueuedBytes, nextSubscriptionId, k);
    }

    lemma OpenLane(k: nat)
      requires SubscriptionsOk() && k in subscribers
      ensures k in receivers && k in history && !receivers[k].snapshotOnCancel && history[k].notices == []
      ensures k !in fates
    {
      hide TableOk, FailuresOk, SubscriptionOk;
      TableKeys(history, subscribers, receivers, replays, published, sizing);
      TableOne(k, history, subscribers, receivers, replays, published, sizing);
      LiveIsOpen(history[k], Lookup(receivers, k), Lookup(replays, k), published, sizing);
    }

    // ---- the handles: live receiver and replay copies ----

    /**
     * One poll of the receiver. An open subscription yields its queue in order; a cancelled one
     * yields its armed notice once, destroying what was queued, and then nothing ever again.
     */
    method Recv(k: nat, now: Time) returns (r: Received)
      requires Valid() && k in receivers && k in history
      modifies `receivers, `history, capacity`events
      ensures Valid()
      ensures k in receivers && receivers.Keys == old(receivers).Keys
      ensures history == old(history)[k := history[k]]
      ensures r.Ended? ==> receivers == old(receivers) && history == old(history)
                           && ((old(receivers)[k].cancelled && !old(receivers)[k].snapshotOnCancel)
                               || (old(receivers)[k].queue == [] && k !in subscribers))
      ensures r.Waiting? ==> receivers == old(receivers) && history == old(history)
                             && k in subscribers && receivers[k].queue == [] && !receivers[k].cancelled
      ensures r.Delivered? && old(receivers)[k].cancelled ==>
                && old(receivers)[k].snapshotOnCancel && r.event.payload.SnapshotRequired?
                && r.event.id == old(receivers)[k].terminalId && r.event.occurredAt == now
                && r.event.runtimeEpoch == None && r.event.entityId == None && r.event.entityRevision == None
                && history[k] == old(history)[k].(notices := old(history)[k].notices + [r.event])
                && receivers[k].queue == [] && receivers[k].cancelled && !receivers[k].snapshotOnCancel
      ensures r.Delivered? && !old(receivers)[k].cancelled ==>
                && old(receivers)[k].queue == [r.event] + receivers[k].queue
                && history[k] == old(history)[k].(received := old(history)[k].received + [r.event])
      ensures Grown(old(history), history) && Settled(fates, old(history), fates, history)
    {
      hide HistoryBytes, HandleBytes, Held, SubscriptionsOk, BoundsOk, Synced, LogOk, CaptureOk, Grown, Settled;
      GrownSelf(history);
      ServedSelf(fates, false);
      SettledServed(fates, history, fates, false);
      ghost var was := history;
      if receivers[k].cancelled {
        if !receivers[k].snapshotOnCancel {
          return Ended;
        }
        var notice := Event(receivers[k].terminalId, None, now, None, None, SnapshotRequired(LIVE_CAPACITY));
        DeliverNotice(k, notice);
        GrownAt(was, k, history[k]);
        SettledAt(fates, was, k, history[k]);
        return Delivered(notice);
      }
      if receivers[k].queue == [] {
        return if k in subscribers then Waiting else Ended;
      }
      var event := TakeHead(k);
      GrownAt(was, k, history[k]);
      SettledAt(fates, was, k, history[k]);
      return Delivered(event);
    }

    method TakeHead(k: nat) returns (event: Event)
      requires Core(0, |published|) && k in receivers && k in history
      requires !receivers[k].cancelled && receivers[k].queue != []
      modifies `receivers, `history, capacity`events
      ensures Core(0, |published|) && k in receivers && receivers.Keys == old(receivers).Keys
      ensures old(receivers)[k].queue == [event] + receivers[k].queue
      ensures history == old(history)[k := old(history)[k].(received := old(history)[k].received + [event])]
      ensures k in subscribers && k !in fates && old(history)[k].notices == []
    {
      hide SubscriptionsOk, Synced, HandleBytes, HistoryBytes, PendingBytes, BoundsOk;
      event := PopHead(k);
      capacity.ReleaseEventBytes(sizing.event(event));
    }

    /** The oldest queued event leaves the queue. */
    method PopHead(k: nat) returns (event: Event)
      requires SubscriptionsOk() && Synced(subscribers, |published|) && k in receivers && k in history
      requires !receivers[k].cancelled && receivers[k].queue != []
      modifies `receivers, `history
      ensures SubscriptionsOk() && Synced(subscribers, |published|)
      ensures k in receivers && receivers.Keys == old(receivers).Keys
      ensures old(receivers)[k].queue == [event] + receivers[k].queue
      ensures history == old(history)[k := old(history)[k].(received := old(history)[k].received + [event])]
      ensures k in subscribers && k !in fates && old(history)[k].notices == []
      ensures old(HandleBytes()) == HandleBytes() + sizing.event(event)
    {
      hide TableOk, FailuresOk, FatesOk, LostOk, TableTotal, Total, AllAt, End, Lane;
      ghost var before, wasHistory := receivers, history;
      ReceiveKeepsTable(k, failures, history, subscribers, receivers, replays, published, sizing);
      OpenLane(k);
      ReceiverFacts(k);
      var receiver := receivers[k];
      event := receiver.queue[0];
      var bytes := sizing.event(event);
      var released := if receiver.queuedBytes < bytes then receiver.queuedBytes else bytes;
      receivers := receivers[k := receiver.(queue := receiver.queue[1..],
                                            queuedBytes := receiver.queuedBytes - released)];
      history := history[k := history[k].(received := history[k].received + [event])];
      AllAtReceived(subscribers, |published|, wasHistory, before, k, history[k], receivers[k]);
      SameLane(receiver, receivers[k]);
      FatesKept(fates, wasHistory, subscribers, before, failures, history, receivers, k);
      FatesKnown(fates, wasHistory, subscribers, before, failures);
      LostKept(lost, fates, wasHistory, before, failures, history, receivers);
      TableTotalChange(before, receivers, QueuedBytes, nextSubscriptionId, k);
    }

    /** The control lane: destroys the queue, gives its bytes back and records the notice. */
    method DeliverNotice(k: nat, notice: Event)
      requires Core(0, |published|) && k in receivers && k in history && receivers[k].snapshotOnCancel
      requires notice.id == receivers[k].terminalId && notice.payload.SnapshotRequired?
      modifies `receivers, `history, capacity`events
      ensures Core(0, |published|)
      ensures receivers == old(receivers)[k := old(receivers)[k].(snapshotOnCancel := false, queue := [],
                                                                  queuedBytes := 0)]
      ensures history == old(history)[k := old(history)[k].(notices := old(history)[k].notices + [notice])]
      ensures old(history)[k].notices == []
    {
      hide TableOk, FailuresOk, FatesOk, LostOk, HandleBytes, HistoryBytes, PendingBytes, BoundsOk, Total, AllAt;
      ghost var before, wasHistory := receivers, history;
      ControlKeepsTable(k, notice, failures, history, subscribers, receivers, replays, published, sizing);
      EmptyLane(k);
      AllAtEnter(subscribers, |published|, history, before, k,
                 history[k].(notices := history[k].notices + [notice]), receivers[k]);
      FatesNotice(fates, history, subscribers, before, failures, k, notice, receivers[k]);
      ArmedFate(fates, history, subscribers, before, failures, k);
      history := history[k := history[k].(notices := history[k].notices + [notice])];
      LostKept(lost, fates, wasHistory, before, failures, history, receivers);
    }

    method EmptyLane(k: nat)
      requires capacity.Valid() && capacity.events == Held() && SubscriptionsOk() && k in receivers
      modifies `receivers, capacity`events
      ensures capacity.Valid() && capacity.events == Held()
      ensures receivers == old(receivers)[k := old(receivers)[k].(snapshotOnCancel := false, queue := [],
                                                                  queuedBytes := 0)]
    {
      hide SubscriptionsOk, HandleBytes, HistoryBytes, PendingBytes, Total;
      ReceiverFacts(k);
      Disarm(k);
      DiscardQueue(k);
    }

    /** The flag of the control lane is taken once. */
    method Disarm(k: nat)
      requires k in receivers
      modifies `receivers
      ensures receivers == old(receivers)[k := old(receivers)[k].(snapshotOnCancel := false)]
      ensures HandleBytes() == old(HandleBytes())
    {
      hide TableTotal;
      ghost var before := receivers;
      receivers := receivers[k := receivers[k].(snapshotOnCancel := false)];
      TableTotalChange(before, receivers, QueuedBytes, nextSubscriptionId, k);
    }

    /** Destroys the oldest queued event of a receiver and releases it. */
    method DiscardHead(k: nat)
      requires capacity.Valid() && Held() <= capacity.events && k in receivers && k < nextSubscriptionId
      requires receivers[k].queuedBytes == Total(receivers[k].queue, sizing.event) && receivers[k].queue != []
      modifies `receivers, capacity`events
      ensures capacity.Valid() && capacity.events - Held() == old(capacity.events - Held())
      ensures k in receivers && receivers[k].queuedBytes == Total(receivers[k].queue, sizing.event)
      ensures |receivers[k].queue| < |old(receivers)[k].queue|
      ensures receivers == old(receivers)[k := old(receivers)[k].(queue := receivers[k].queue,
                                                                  queuedBytes := receivers[k].queuedBytes)]
    {
      hide TableTotal, HistoryBytes, PendingBytes;
      ghost var before := receivers;
      var receiver := receivers[k];
      var bytes := sizing.event(receiver.queue[0]);
      var released := if receiver.queuedBytes < bytes then receiver.queuedBytes else bytes;
      receivers := receivers[k := receiver.(queue := receiver.queue[1..],
                                            queuedBytes := receiver.queuedBytes - released)];
      TableTotalChange(before, receivers, QueuedBytes, nextSubscriptionId, k);
      TableTotalCovers(before, QueuedBytes, nextSubscriptionId, k);
      capacity.ReleaseEventBytes(released);
    }

    /** Destroys the queued events of a receiver, releasing each, and then any residual count. */
    method DiscardQueue(k: nat)
      requires capacity.Valid() && Held() <= capacity.events && k in receivers && k < nextSubscriptionId
      requires receivers[k].queuedBytes == Total(receivers[k].queue, sizing.event)
      modifies `receivers, capacity`events
      ensures capacity.Valid() && capacity.events - Held() == old(capacity.events - Held())
      ensures receivers == old(receivers)[k := old(receivers)[k].(queue := [], queuedBytes := 0)]
    {
      hide HandleBytes, HistoryBytes, PendingBytes, Total;
      while receivers[k].queue != []
        invariant k in receivers && receivers[k].queuedBytes == Total(receivers[k].queue, sizing.event)
        invariant receivers == old(receivers)[k := old(receivers)[k].(queue := receivers[k].queue,
                                                                      queuedBytes := receivers[k].queuedBytes)]
        invariant capacity.Valid() && capacity.events - Held() == old(capacity.events - Held())
        decreases |receivers[k].queue|
      {
        DiscardHead(k);
      }
      ReleaseResidual(k);
    }

    /** Whatever the byte counter still says is released with it. */
    method ReleaseResidual(k: nat)
      requires capacity.Valid() && Held() <= capacity.events && k in receivers && k < nextSubscriptionId
      modifies `receivers, capacity`events
      ensures capacity.Valid() && capacity.events - Held() == old(capacity.events - Held())
      ensures receivers == old(receivers)[k := old(receivers)[k].(queuedBytes := 0)]
    {
      hide TableTotal, HistoryBytes, PendingBytes;
      ghost var before := receivers;
      var residual := receivers[k].queuedBytes;
      receivers := receivers[k := receivers[k].(queuedBytes := 0)];
      TableTotalChange(before, receivers, QueuedBytes, nextSubscriptionId, k);
      TableTotalCovers(before, QueuedBytes, nextSubscriptionId, k);
      capacity.ReleaseEventBytes(residual);
    }

    /** The subscription leaves the live set, and its failure records are released. */
    method Withdraw(k: nat)
      requires Steady(0, |published|)
      modifies `receivers, `subscribers, `subscriptionBytes, `fates, `failures, `lost, capacity`events
      ensures Core(0, |published|) && k !in subscribers && subscribers == old(subscribers) - {k}
      ensures receivers == if k in old(subscribers)
                           then old(receivers)[k := old(receivers)[k].(cancelled := true)] else old(receivers)
      ensures fates == (if k in old(subscribers) then old(fates)[k := HandleDropped] else old(fates))
      ensures k in old(subscribers) ==> k !in old(fates)
      ensures forall f :: f in failures <==> f in old(failures) && f.subscription != k
      ensures forall i :: 0 <= i < |failures| ==> failures[i].subscription != k
      ensures lost == old(lost) + Unread(old(failures)) * {k}
    {
      hide Steady, Core;
      Cancel(k, HandleDropped, 0, |published|);
      SteadyCore(|published|);
      RemoveFailures(k);
    }

    /** The adapter gives its live handle back, at any time, even after the hub is gone. */
    method DropReceiver(k: nat)
      requires Valid() && k in receivers
      modifies `receivers, `subscribers, `subscriptionBytes, `fates, `failures, `lost, capacity`events
      ensures Valid() && k !in receivers && receivers.Keys == old(receivers).Keys - {k}
      ensures forall j :: j in receivers ==> receivers[j] == old(receivers)[j]
      ensures subscribers == old(subscribers) - {k}
      ensures forall f :: f in failures <==> f in old(failures) && f.subscription != k
      ensures fates == (if k in old(subscribers) then old(fates)[k := HandleDropped] else old(fates))
      ensures k in old(subscribers) ==> k !in old(fates)
      ensures lost == old(lost) + Unread(old(failures)) * {k}
    {
      hide *;
      ValidParts();
      if !dropped {
        Withdraw(k);
      } else {
        NobodyUnread();
      }
      Forget(k);
      ValidParts();
    }

    lemma ValidIsSteady()
      requires Valid() && !dropped
      ensures Steady(0, |published|)
    {
    }

    lemma SteadyCore(n: nat)
      requires Steady(0, n)
      ensures Core(0, n)
    {
      hide Core;
    }

    lemma ValidParts()
      ensures Valid() ==> Core(0, |published|) && Numbered(published) && OriginsOk()
      ensures Valid() && !dropped ==> Steady(0, |published|) && LogOk() && WarnedOnce(origins, replayOverflowed)
                                      && CaptureOk(CAPTURE_BATCH_SIZE - 1)
      ensures Valid() && dropped ==> retained == [] && failures == [] && pendingCapture == [] && subscribers == {}
      ensures Core(0, |published|) && Numbered(published) && OriginsOk() && (dropped ==>
                retained == [] && failures == [] && pendingCapture == [] && subscribers == {})
              && (!dropped ==> LogOk() && WarnedOnce(origins, replayOverflowed) && CaptureOk(CAPTURE_BATCH_SIZE - 1))
              ==> Valid()
    {
      hide Core, LogOk, WarnedOnce, Numbered, OriginsOk;
    }

    lemma NobodyUnread()
      requires failures == []
      ensures forall k :: Unread(failures) * {k} == {}
    {
    }

    method RemoveFailures(k: nat)
      requires Core(0, |published|)
      modifies `failures, `lost, capacity`events
      ensures Core(0, |published|)
      ensures failures == Without(old(failures), k)
      ensures lost == old(lost) + Unread(old(failures)) * {k}
      ensures forall f :: f in failures <==> f in old(failures) && f.subscription != k
      ensures forall i :: 0 <= i < |failures| ==> failures[i].subscription != k
    {
      hide Total, TableOk, FailuresOk, FatesOk, LostOk, Unread, Synced, HandleBytes, PendingBytes;
      ghost var was := failures;
      SplitFailures(k);
      WithoutOk(was, k, history, receivers, subscribers);
      forall f ensures f in failures <==> f in was && f.subscription != k {
        WithoutMembers(was, k, f);
      }
      lost := lost + Unread(was) * {k};
      UnreadWithout(was, k);
      LostReleased(old(lost), fates, history, subscribers, receivers, was, failures, k);
      FatesFewer(fates, history, subscribers, receivers, was, failures);
    }

    /** Releases the failure records of `k` and keeps the others, in order. */
    method SplitFailures(k: nat)
      requires capacity.Valid() && HistoryBytes() <= capacity.events
      modifies `failures, capacity`events
      ensures capacity.Valid() && failures == Without(old(failures), k)
      ensures capacity.events - HistoryBytes() == old(capacity.events - HistoryBytes())
    {
      hide Total, Without, HistoryBytes;
      var kept: seq<Failure> := [];
      TotalNil(FailureSize(sizing));
      while failures != []
        invariant capacity.Valid() && HistoryBytes() <= capacity.events
        invariant capacity.events - HistoryBytes() - Total(kept, FailureSize(sizing)) ==
                    old(capacity.events - HistoryBytes())
        invariant kept + Without(failures, k) == Without(old(failures), k)
        decreases |failures|
      {
        var failure := failures[0];
        WithoutHead(failures, k, kept);
        PopFailure();
        if failure.subscription == k {
          capacity.ReleaseEventBytes(FailureSize(sizing)(failure));
        } else {
          TotalPush(kept, failure, FailureSize(sizing));
          kept := kept + [failure];
        }
      }
      WithoutNone(k, kept);
      HistoryIs();
      failures := kept;
      HistoryIs();
    }

    method PopFailure()
      requires failures != []
      modifies `failures
      ensures failures == old(failures)[1..]
      ensures HistoryBytes() + FailureSize(sizing)(old(failures)[0]) == old(HistoryBytes())
    {
      failures := failures[1..];
    }

    /** Removes the handle of a subscription that is not live any more and releases its queue. */
    method Forget(k: nat)
      requires Core(0, |published|) && k in receivers && k !in subscribers
      requires forall i :: 0 <= i < |failures| ==> failures[i].subscription != k
      modifies `receivers, capacity`events
      ensures Core(0, |published|) && receivers == old(receivers) - {k}
    {
      hide TableOk, FailuresOk, FatesOk, LostOk, TableTotal, HistoryBytes, PendingBytes, BoundsOk;
      ghost var before := receivers;
      ReceiverFacts(k);
      DropKeepsTable(k, failures, history, subscribers, receivers, replays, published, sizing);
      var released := receivers[k].queuedBytes;
      receivers := receivers - {k};
      FatesKnown(fates, history, subscribers, before, failures);
      LostKept(lost, fates, history, before, failures, history, receivers);
      FatesKept(fates, history, subscribers, before, failures, history, receivers, k);
      TableTotalChange(before, receivers, QueuedBytes, nextSubscriptionId, k);
      TableTotalCovers(before, QueuedBytes, nextSubscriptionId, k);
      AllAtExcept(subscribers, |published|, history, before, receivers, k);
      capacity.ReleaseEventBytes(released);
    }

    /**
     * Hands the replay copies to `accept` one by one, releasing each after the call, and stops
     * behind the first one it refuses.
     */
    method DrainReplay(k: nat, accept: Event -> bool) returns (consumed: seq<Event>, ok: bool)
      requires Valid() && k in replays && k in history
      modifies `replays, `history, capacity`events
      ensures Valid() && k in replays
      ensures consumed + replays[k].events == old(replays)[k].events
      ensures history == old(history)[k := old(history)[k].(consumed := old(history)[k].consumed + consumed)]
      ensures ok ==> replays[k].events == [] && forall i :: 0 <= i < |consumed| ==> accept(consumed[i])
      ensures !ok ==> consumed != [] && !accept(consumed[|consumed| - 1])
                      && forall i :: 0 <= i < |consumed| - 1 ==> accept(consumed[i])
    {
      hide HistoryBytes, HandleBytes, Held, SubscriptionsOk, BoundsOk, Synced, LogOk, CaptureOk, Core;
      consumed := [];
      assert old(history)[k].consumed + consumed == old(history)[k].consumed;
      while replays[k].events != []
        invariant Valid() && k in replays && k in history
        invariant consumed + replays[k].events == old(replays)[k].events
        invariant history == old(history)[k := old(history)[k].(consumed := old(history)[k].consumed + consumed)]
        invariant forall i :: 0 <= i < |consumed| ==> accept(consumed[i])
        decreases |replays[k].events|
      {
        var event := ConsumeOne(k);
        ghost var start := old(history)[k].consumed;
        assert start + (consumed + [event]) == start + consumed + [event];
        consumed := consumed + [event];
        if !accept(event) {
          return consumed, false;
        }
      }
      ok := true;
    }

    method ConsumeOne(k: nat) returns (event: Event)
      requires Core(0, |published|) && k in replays && k in history && replays[k].events != []
      modifies `replays, `history, capacity`events
      ensures Core(0, |published|) && k in replays
      ensures old(replays)[k].events == [event] + replays[k].events
      ensures history == old(history)[k := old(history)[k].(consumed := old(history)[k].consumed + [event])]
    {
      hide SubscriptionsOk, Synced, HandleBytes, HistoryBytes, PendingBytes, BoundsOk;
      event := TakeCopy(k);
      capacity.ReleaseEventBytes(sizing.event(event));
    }

    /** The first replay copy leaves the handle. */
    method TakeCopy(k: nat) returns (event: Event)
      requires SubscriptionsOk() && Synced(subscribers, |published|)
      requires k in replays && k in history && replays[k].events != []
      modifies `replays, `history
      ensures SubscriptionsOk() && Synced(subscribers, |published|) && k in replays
      ensures old(replays)[k].events == [event] + replays[k].events
      ensures history == old(history)[k := old(history)[k].(consumed := old(history)[k].consumed + [event])]
      ensures old(HandleBytes()) == HandleBytes() + sizing.event(event)
    {
      hide TableOk, FailuresOk, FatesOk, LostOk, TableTotal, AllAt;
      ghost var before := replays;
      ReplayFacts(k);
      AllAtConsumed(subscribers, |published|, history, receivers, k, history[k].consumed + [replays[k].events[0]]);
      var replay := replays[k];
      event := replay.events[0];
      replays := replays[k := Replay(replay.events[1..], SatSub(replay.reserved, sizing.event(event)))];
      ReplayKeepsTable(k, history[k].consumed + [event], Some(replays[k]), failures, history, subscribers, receivers,
                       before, replays, published, sizing);
      ghost var was := history;
      history := history[k := history[k].(consumed := history[k].consumed + [event])];
      FatesKept(fates, was, subscribers, receivers, failures, history, receivers, k);
      FatesKnown(fates, was, subscribers, receivers, failures);
      LostKept(lost, fates, was, receivers, failures, history, receivers);
      TableTotalChange(before, replays, ReservedBytes, nextSubscriptionId, k);
      TableTotalCovers(before, ReservedBytes, nextSubscriptionId, k);
    }

    lemma ReplayFacts(k: nat)
      requires SubscriptionsOk() && k in replays
      ensures k in history && 1 <= k < nextSubscriptionId
      ensures replays[k].reserved == Total(replays[k].events, sizing.event)
      ensures history[k].consumed + replays[k].events == history[k].replay && history[k].consumed <= history[k].replay
    {
      TableKeys(history, subscribers, receivers, replays, published, sizing);
      TableOne(k, history, subscribers, receivers, replays, published, sizing);
    }

    /** The adapter gives its replay handle back; what it did not consume is released. */
    method DropReplay(k: nat)
      requires Valid() && k in replays
      modifies `replays, capacity`events
      ensures Valid() && replays == old(replays) - {k}
    {
      hide TableOk, FailuresOk, FatesOk, LostOk, TableTotal, HistoryBytes, PendingBytes, BoundsOk, LogOk, CaptureOk;
      ghost var before := replays;
      ReplayFacts(k);
      var reserved := replays[k].reserved;
      replays := replays - {k};
      ReplayKeepsTable(k, history[k].consumed, None, failures, history, subscribers, receivers, before, replays,
                       published, sizing);
      assert history[k := history[k].(consumed := history[k].consumed)] == history;
      TableTotalChange(before, replays, ReservedBytes, nextSubscriptionId, k);
      TableTotalCovers(before, ReservedBytes, nextSubscriptionId, k);
      capacity.ReleaseEventBytes(reserved);
    }

    // ---- failure records ----

    /** Hands out all stored records; each becomes the one notice of its subscription. */
    method TakeFailures() returns (r: seq<Failure>)
      requires Valid() && !dropped
      modifies `failures, `history, capacity`events
      ensures Valid() && !dropped && failures == [] && r == old(failures)
      ensures history.Keys == old(history).Keys
      ensures forall i :: 0 <= i < |r| ==>
                (r[i].subscription in history && history[r[i].subscription].notices == [r[i].event])
      ensures Grown(old(history), history) && Settled(fates, old(history), fates, history)
    {
      hide HistoryBytes, HandleBytes, Held, SubscriptionsOk, BoundsOk, Synced, LogOk, CaptureOk, Core, WarnedOnce,
           Grown, Settled;
      r := [];
      GrownSelf(history);
      ServedSelf(fates, false);
      SettledServed(fates, history, fates, false);
      while failures != []
        invariant Grown(old(history), history) && Settled(fates, old(history), fates, history)
        invariant Valid() && !dropped && r + failures == old(failures) && history.Keys == old(history).Keys
        invariant forall i :: 0 <= i < |r| ==>
                    (r[i].subscription in history && history[r[i].subscription].notices == [r[i].event])
        invariant forall i, j :: 0 <= i < |r| && 0 <= j < |failures| ==> r[i].subscription != failures[j].subscription
        decreases |failures|
      {
        ghost var was := history;
        var failure := TakeAt(0);
        SettledOn(fates, old(history), fates, was, fates, history);
        GrownOn(old(history), was, history);
        r := r + [failure];
      }
    }

    method TakeFailure(k: nat) returns (r: Option<Event>)
      requires Valid() && !dropped
      modifies `failures, `history, capacity`events
      ensures Valid() && !dropped && history.Keys == old(history).Keys
      ensures r.None? ==> failures == old(failures) && history == old(history)
                          && forall i :: 0 <= i < |failures| ==> failures[i].subscription != k
      ensures r.Some? ==> Failure(k, r.value) in old(failures) && k in history && history[k].notices == [r.value]
                          && |failures| == |old(failures)| - 1
      ensures forall f :: f in failures <==> f in old(failures) && f.subscription != k
      ensures Grown(old(history), history) && Settled(fates, old(history), fates, history)
    {
      hide HistoryBytes, HandleBytes, Held, SubscriptionsOk, BoundsOk, Synced, LogOk, CaptureOk, Core, WarnedOnce,
           Grown, Settled;
      GrownSelf(history);
      ServedSelf(fates, false);
      SettledServed(fates, history, fates, false);
      var i := 0;
      while i < |failures|
        invariant i <= |failures| && forall j :: 0 <= j < i ==> failures[j].subscription != k
        invariant Valid() && !dropped && failures == old(failures) && history == old(history)
      {
        if failures[i].subscription == k {
          var failure := TakeAt(i);
          OmitMembers(old(failures), i, k);
          return Some(failure.event);
        }
        i := i + 1;
      }
      r := None;
    }

    method TakeAt(i: nat) returns (failure: Failure)
      requires Core(0, |published|) && i < |failures|
      modifies `failures, `history, capacity`events
      ensures Core(0, |published|) && failure == old(failures)[i]
      ensures failures == Omit(old(failures), i)
      ensures history.Keys == old(history).Keys && failure.subscription in history
      ensures history == old(history)[failure.subscription :=
                old(history)[failure.subscription].(notices := [failure.event])]
      ensures forall j :: 0 <= j < |old(failures)| && j != i ==> old(failures)[j].subscription != failure.subscription
      ensures Grown(old(history), history) && Settled(fates, old(history), fates, history)
    {
      hide TableOk, LostOk, FatesOk, Unread, PendingBytes, HandleBytes, Total, Grown, Settled;
      failure := failures[i];
      FailureFacts(i);
      FatesTaken(fates, history, subscribers, receivers, failures, failure);
      ghost var records := failures;
      RemoveAt(i);
      NoticeKeepsTable(failure, failures, history, subscribers, receivers, replays, published, sizing);
      ghost var was := history;
      history := history[failure.subscription := history[failure.subscription].(notices := [failure.event])];
      UnreadOmit(records, i);
      LostTaken(lost, fates, was, receivers, records, failures, failure.subscription, failure.event);
      FatesFewer(fates, history, subscribers, receivers, records, failures);
      GrownAt(was, failure.subscription, history[failure.subscription]);
      SettledAt(fates, was, failure.subscription, history[failure.subscription]);
      AllAtNotice(subscribers, |published|, was, receivers, failure.subscription, [failure.event]);
      capacity.ReleaseEventBytes(FailureSize(sizing)(failure));
    }

    lemma FailureFacts(i: nat)
      requires SubscriptionsOk() && i < |failures|
      ensures FailureOk(failures[i], history, receivers, subscribers)
      ensures FailuresOk(Omit(failures, i), history, receivers, subscribers)
      ensures forall j :: 0 <= j < |failures| - 1 ==> Omit(failures, i)[j].subscription != failures[i].subscription
      ensures forall j :: 0 <= j < |failures| && j != i ==> failures[j].subscription != failures[i].subscription
    {
      hide FailureOk, TableOk;
      var rest := Omit(failures, i);
      assert forall j :: 0 <= j < |rest| ==> rest[j] == failures[if j < i then j else j + 1];
    }

    method RemoveAt(i: nat)
      requires i < |failures|
      modifies `failures
      ensures failures == Omit(old(failures), i)
      ensures HistoryBytes() + FailureSize(sizing)(old(failures)[i]) == old(HistoryBytes())
    {
      ghost var size := FailureSize(sizing);
      assert failures == failures[..i] + ([failures[i]] + failures[i + 1..]);
      TotalConcat(failures[..i], [failures[i]] + failures[i + 1..], size);
      TotalConcat(failures[..i], failures[i + 1..], size);
      failures := Omit(failures, i);
    }

    // ---- limits and shutdown ----

    /**
     * Gives up optional event storage until the ledger holds at most `maxBytes`: history first,
     * then records, then live delivery. Pending capture rows stay. Cancelling subscribers frees
     * nothing, so once it starts it ends with none of them left and without success.
     */
    method ReclaimForLimit(maxBytes: nat) returns (ok: bool)
      requires Valid() && !dropped
      modifies `retained, `failures, `lost, `replayOverflowed, `subscribers, `subscriptionBytes, `fates, `receivers,
               capacity`events
      ensures Valid() && !dropped
      ensures ok <==> capacity.sessions + capacity.events <= maxBytes
      ensures !ok ==> retained == [] && failures == [] && subscribers == {}
      ensures IsSuffix(retained, old(retained)) && IsSuffix(failures, old(failures))
      ensures |failures| < |old(failures)| ==> retained == []
      ensures replayOverflowed <==>
                || old(replayOverflowed)
                || (old(retained) != [] && maxBytes < capacity.sessions + old(capacity.events))
      ensures Discards(old(failures), old(lost), failures, lost)
      ensures subscribers != old(subscribers) ==> !ok
      ensures ok ==> GivenUpFor(maxBytes, old(retained), old(failures))
      ensures EndedAs(old(fates), fates, CutForLimit)
    {
      hide Core, LogOk, CaptureOk, WarnedOnce, Numbered, GivenUpFor, IsSuffix, Discards, EndedAs;
      EndedAsSelf(fates, CutForLimit);
      ok := ReclaimHistory(maxBytes);
      while !ok && subscribers != {}
        invariant Valid() && !dropped
        invariant ok <==> capacity.sessions + capacity.events <= maxBytes
        invariant !ok ==> retained == [] && failures == []
        invariant IsSuffix(retained, old(retained)) && IsSuffix(failures, old(failures))
        invariant |failures| < |old(failures)| ==> retained == []
        invariant replayOverflowed <==>
                    || old(replayOverflowed)
                    || (old(retained) != [] && maxBytes < capacity.sessions + old(capacity.events))
        invariant Discards(old(failures), old(lost), failures, lost)
        invariant subscribers != old(subscribers) ==> !ok
        invariant ok ==> GivenUpFor(maxBytes, old(retained), old(failures))
        invariant EndedAs(old(fates), fates, CutForLimit)
        decreases subscribers
      {
        ghost var live := subscribers;
        var k :| k in subscribers;
        EndedAsMore(old(fates), fates, k, CutForLimit);
        ValidIsSteady();
        Cancel(k, CutForLimit, 0, |published|);
      }
    }

    method ReclaimHistory(maxBytes: nat) returns (ok: bool)
      requires Valid() && !dropped
      modifies `retained, `failures, `lost, `replayOverflowed, capacity`events
      ensures Valid() && !dropped
      ensures ok <==> capacity.sessions + capacity.events <= maxBytes
      ensures !ok ==> retained == [] && failures == []
      ensures IsSuffix(retained, old(retained)) && IsSuffix(failures, old(failures))
      ensures |failures| < |old(failures)| ==> retained == []
      ensures replayOverflowed <==>
                || old(replayOverflowed)
                || (old(retained) != [] && maxBytes < capacity.sessions + old(capacity.events))
      ensures Discards(old(failures), old(lost), failures, lost)
      ensures ok ==> GivenUpFor(maxBytes, old(retained), old(failures))
    {
      hide HistoryBytes, TableOk, FailuresOk, FatesOk, LostOk, Discards, HandleBytes, PendingBytes, Synced, RunUpTo,
           Numbered, CaptureOk, IsSuffix, GivenUpFor, OriginsOk, TableTotal;
      ghost var before, beforeFailures, unread := retained, failures, lost;
      ok := GiveUp(maxBytes);
      RunSuffix(published, before, retained, |published|);
      SuffixLengths(failures, beforeFailures);
      FailuresOkSuffix(beforeFailures, failures, history, receivers, subscribers);
      FatesSuffix(fates, history, subscribers, receivers, beforeFailures, failures);
      LostDiscards(unread, fates, history, subscribers, receivers, beforeFailures, failures, lost);
    }

    /** History first, then failure records. */
    method GiveUp(maxBytes: nat) returns (ok: bool)
      requires capacity.Valid() && HistoryBytes() <= capacity.events
      modifies `retained, `failures, `lost, `replayOverflowed, capacity`events
      ensures capacity.Valid() && capacity.events - HistoryBytes() == old(capacity.events - HistoryBytes())
      ensures ok <==> capacity.sessions + capacity.events <= maxBytes
      ensures !ok ==> retained == [] && failures == []
      ensures IsSuffix(retained, old(retained)) && IsSuffix(failures, old(failures))
      ensures replayOverflowed <==> old(replayOverflowed) || |retained| < |old(retained)|
      ensures replayOverflowed <==>
                || old(replayOverflowed)
                || (old(retained) != [] && maxBytes < capacity.sessions + old(capacity.events))
      ensures |failures| < |old(failures)| ==> retained == []
      ensures Discards(old(failures), old(lost), failures, lost)
      ensures ok ==> GivenUpFor(maxBytes, old(retained), old(failures))
    {
      hide HistoryBytes, IsSuffix, Discards;
      GiveUpRetained(maxBytes);
      ok := GiveUpFailures(maxBytes);
    }

    method GiveUpRetained(maxBytes: nat)
      requires capacity.Valid() && HistoryBytes() <= capacity.events
      modifies `retained, `replayOverflowed, capacity`events
      ensures capacity.Valid() && capacity.events - HistoryBytes() == old(capacity.events - HistoryBytes())
      ensures IsSuffix(retained, old(retained))
      ensures replayOverflowed <==> old(replayOverflowed) || |retained| < |old(retained)|
      ensures replayOverflowed <==>
                || old(replayOverflowed)
                || (old(retained) != [] && maxBytes < capacity.sessions + old(capacity.events))
      ensures capacity.sessions + capacity.events <= maxBytes || retained == []
      ensures |retained| <= |old(retained)|
      ensures |retained| < |old(retained)| ==>
                maxBytes < capacity.sessions + capacity.events
                           + sizing.event(old(retained)[|old(retained)| - |retained| - 1])
    {
      hide HistoryBytes, IsSuffix;
      assert IsSuffix(retained, retained) by {
        SuffixSelf(retained);
      }
      ghost var before := retained;
      var bytes := capacity.LogicalBytes();
      while bytes > maxBytes && retained != []
        invariant capacity.Valid() && capacity.events - HistoryBytes() == old(capacity.events - HistoryBytes())
        invariant bytes == capacity.sessions + capacity.events && IsSuffix(retained, before)
        invariant |retained| <= |before| && retained == before[|before| - |retained|..]
        invariant |retained| < |before| ==>
                    maxBytes < capacity.sessions + capacity.events + sizing.event(before[|before| - |retained| - 1])
        invariant replayOverflowed <==> old(replayOverflowed) || |retained| < |before|
        invariant |retained| == |before| ==> capacity.events == old(capacity.events)
        invariant |retained| < |before| ==> maxBytes < capacity.sessions + old(capacity.events)
        decreases |retained|
      {
        SuffixPop(retained, before);
        var _ := ReleaseOldestRetained();
        replayOverflowed := true;
        bytes := capacity.LogicalBytes();
      }
    }

    method GiveUpFailures(maxBytes: nat) returns (ok: bool)
      requires capacity.Valid() && HistoryBytes() <= capacity.events
      requires capacity.sessions + capacity.events <= maxBytes || retained == []
      modifies `failures, `lost, capacity`events
      ensures capacity.Valid() && capacity.events - HistoryBytes() == old(capacity.events - HistoryBytes())
      ensures IsSuffix(failures, old(failures)) && (|failures| < |old(failures)| ==> retained == [])
      ensures Discards(old(failures), old(lost), failures, lost)
      ensures ok <==> capacity.sessions + capacity.events <= maxBytes
      ensures !ok ==> failures == [] && retained == []
      ensures |failures| <= |old(failures)|
              && (|failures| == |old(failures)| ==> capacity.events == old(capacity.events))
      ensures |failures| < |old(failures)| ==>
                maxBytes < capacity.sessions + capacity.events
                  + FailureSize(sizing)(old(failures)[|old(failures)| - |failures| - 1])
    {
      hide HistoryBytes, IsSuffix, Discards;
      DiscardsNone(failures, lost);
      assert IsSuffix(failures, failures) by {
        SuffixSelf(failures);
      }
      ghost var before := failures;
      var bytes := capacity.LogicalBytes();
      while bytes > maxBytes && failures != []
        invariant capacity.Valid() && capacity.events - HistoryBytes() == old(capacity.events - HistoryBytes())
        invariant bytes == capacity.sessions + capacity.events && IsSuffix(failures, before)
        invariant |failures| <= |before| && failures == before[|before| - |failures|..]
        invariant |failures| == |before| ==> capacity.events == old(capacity.events)
        invariant |failures| < |before| ==>
                    maxBytes < capacity.sessions + capacity.events
                      + FailureSize(sizing)(before[|before| - |failures| - 1])
        invariant |failures| < |before| || bytes > maxBytes ==> retained == []
        invariant Discards(before, old(lost), failures, lost)
        decreases |failures|
      {
        DiscardsOne(before, old(lost), failures, lost);
        SuffixPop(failures, before);
        var _ := ReleaseOldestFailure();
        bytes := capacity.LogicalBytes();
      }
      ok := bytes <= maxBytes;
    }

    /** Shutting the hub down releases everything the hub itself owns; handles stay charged. */
    method Drop()
      requires Valid() && !dropped
      modifies `retained, `failures, `lost, `subscribers, `subscriptionBytes, `fates, `receivers, `pendingCapture,
               `dropped, `replayOverflowed, capacity`events
      ensures Valid() && dropped && capacity.events == HandleBytes()
      ensures EndedAs(old(fates), fates, HubDropped) && lost == old(lost) + Unread(old(failures))
    {
      hide Core, LogOk, CaptureOk, WarnedOnce, HandleBytes, Unread, EndedAs;
      EndedAsSelf(fates, HubDropped);
      while subscribers != {}
        invariant Valid() && !dropped && EndedAs(old(fates), fates, HubDropped)
        invariant failures == old(failures) && lost == old(lost)
        decreases subscribers
      {
        var k :| k in subscribers;
        EndedAsMore(old(fates), fates, k, HubDropped);
        ValidIsSteady();
        Cancel(k, HubDropped, 0, |published|);
      }
      ReleaseAll();
    }

    method ReleaseAll()
      requires Valid() && !dropped && subscribers == {}
      modifies `retained, `failures, `lost, `subscriptionBytes, `pendingCapture, `dropped, capacity`events
      ensures Valid() && dropped && capacity.events == HandleBytes()
      ensures lost == old(lost) + Unread(old(failures))
    {
      hide HistoryBytes, HandleBytes, TableOk, FailuresOk, FatesOk, LostOk, Unread, Synced, OriginsOk, RunUpTo,
           Numbered, WarnedOnce;
      ghost var records, unread := failures, lost;
      subscriptionBytes := {};
      ReleaseStores();
      dropped := true;
      NoFailures(history, receivers, subscribers);
      LostDiscards(unread, fates, history, subscribers, receivers, records, [], lost);
      FatesFewer(fates, history, subscribers, receivers, records, []);
    }

    /** The log, the records and the batch go; the bytes of the handles stay. */
    method ReleaseStores()
      requires capacity.Valid() && capacity.events == Held()
      modifies `retained, `failures, `lost, `pendingCapture, capacity`events
      ensures capacity.Valid() && retained == [] && failures == [] && pendingCapture == []
      ensures capacity.events == Held() == HandleBytes()
      ensures lost == old(lost) + Unread(old(failures)) && Discards(old(failures), old(lost), [], lost)
    {
      hide HistoryBytes, HandleBytes, PendingBytes, Unread, Discards;
      ReleaseHistory();
      HistoryEmpty();
      capacity.ReleaseEventBytes(PendingBytes(pendingCapture, sizing));
      PendingNone();
      pendingCapture := [];
    }

    lemma PendingNone()
      ensures PendingBytes([], sizing) == 0
    {
    }

    method ReleaseHistory()
      requires capacity.Valid() && HistoryBytes() <= capacity.events
      modifies `retained, `failures, `lost, capacity`events
      ensures capacity.Valid() && retained == [] && failures == []
      ensures capacity.events - HistoryBytes() == old(capacity.events - HistoryBytes())
      ensures lost == old(lost) + Unread(old(failures)) && Discards(old(failures), old(lost), [], lost)
    {
      hide HistoryBytes, Unread, Discards;
      DiscardsNone(failures, lost);
      while retained != []
        invariant capacity.Valid() && capacity.events - HistoryBytes() == old(capacity.events - HistoryBytes())
        invariant failures == old(failures) && lost == old(lost)
        decreases |retained|
      {
        var _ := ReleaseOldestRetained();
      }
      while failures != []
        invariant capacity.Valid() && capacity.events - HistoryBytes() == old(capacity.events - HistoryBytes())
        invariant retained == [] && Discards(old(failures), old(lost), failures, lost)
        decreases |failures|
      {
        DiscardsOne(old(failures), old(lost), failures, lost);
        var _ := ReleaseOldestFailure();
      }
      DiscardsAll(old(failures), old(lost), lost);
    }
  }
}
