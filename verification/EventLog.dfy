/** Events, subscriptions and the histories that the event hub is specified against. */
module EventLog {
  import opened Wrappers
  import opened Sums

  type Epoch = nat
  type Time = int

  datatype CaptureRow = CaptureRow(sessionId: nat, text: string)

  datatype Payload =
    | CaptureRowsAdded(rows: seq<CaptureRow>)
    | ResourceWarning(message: string)
    | SnapshotRequired(reason: string)
    | DomainChange(text: string)

  datatype Event = Event(id: nat, runtimeEpoch: Option<Epoch>, occurredAt: Time,
                         entityId: Option<string>, entityRevision: Option<nat>, payload: Payload)

  /** Serialized sizes; the serializer itself is not part of this model. */
  datatype Sizing = Sizing(event: Event -> nat, row: CaptureRow -> nat)

  /** The live half of a subscription: its bounded channel and the cells it shares with the hub. */
  datatype Receiver = Receiver(queue: seq<Event>, capacity: nat, queuedBytes: nat,
                               cancelled: bool, snapshotOnCancel: bool, terminalId: nat)

  /** The replay copies of a subscription that the adapter has not consumed yet. */
  datatype Replay = Replay(events: seq<Event>, reserved: nat)

  datatype Failure = Failure(subscription: nat, event: Event)

  datatype EventReplay = EventReplay(events: seq<Event>, currentCursor: nat, snapshotRequired: bool)

  datatype Ack = Ack(subscriptionId: nat, acceptedAfter: nat, currentEvent: nat, snapshotRequired: bool)

  datatype SubscribeError = TooManySubscribers | CapacityExhausted

  /** One poll of the receiver; `Waiting` is an open channel with nothing in it. */
  datatype Received = Delivered(event: Event) | Ended | Waiting

  /** Who caused a published event: a caller, the capture batcher, or the overflow transition. */
  datatype Origin = Caller | Batch | Overflow

  datatype Pushed = Pushed(epoch: Epoch, row: CaptureRow)

  /**
   * Everything one subscription was ever given. `base` is the cursor it starts after,
   * `consumed` the part of `replay` drained so far, `notices` the termination notices
   * handed out through the control lane or through the stored failure records.
   */
  datatype Subscription = Subscription(base: nat, accepted: bool, replay: seq<Event>, consumed: seq<Event>,
                                       received: seq<Event>, notices: seq<Event>)

  function QueuedBytes(r: Receiver): nat { r.queuedBytes }

  function ReservedBytes(r: Replay): nat { r.reserved }

  function FailureSize(sizing: Sizing): Failure -> nat {
    (f: Failure) => var bytes: nat := 8 + sizing.event(f.event); bytes
  }

  /** Length of the JSON array of the rows: brackets, rows and commas; nothing for no rows. */
  function PendingBytes(rows: seq<CaptureRow>, sizing: Sizing): nat {
    if rows == [] then 0 else 2 + Total(rows, sizing.row) + |rows| - 1
  }

  /** The texts of the rows with commas between them. */
  function Listed(rows: seq<CaptureRow>, show: CaptureRow -> string): string {
    if rows == [] then ""
    else if |rows| == 1 then show(rows[0])
    else show(rows[0]) + "," + Listed(rows[1..], show)
  }

  /** The JSON array of the rows, a character for each byte. */
  function ArrayText(rows: seq<CaptureRow>, show: CaptureRow -> string): string {
    "[" + Listed(rows, show) + "]"
  }

  /** The size of a row is the length of this text of it. */
  ghost predicate Renders(show: CaptureRow -> string, sizing: Sizing) {
    forall row :: sizing.row(row) == |show(row)|
  }

  lemma {:induction false} ListedLength(rows: seq<CaptureRow>, show: CaptureRow -> string, sizing: Sizing)
    requires Renders(show, sizing) && rows != []
    ensures |Listed(rows, show)| == Total(rows, sizing.row) + |rows| - 1
  {
    if |rows| == 1 {
      TotalNil(sizing.row);
    } else {
      ListedLength(rows[1..], show, sizing);
    }
  }

  /** A batch is charged with exactly the length of its JSON array, and with nothing when it is empty. */
  lemma PendingBytesText(rows: seq<CaptureRow>, show: CaptureRow -> string, sizing: Sizing)
    requires Renders(show, sizing)
    ensures PendingBytes(rows, sizing) == if rows == [] then 0 else |ArrayText(rows, show)|
  {
    hide Listed, Total;
    if rows != [] {
      ListedLength(rows, show, sizing);
    }
  }

  lemma PendingBytesPush(rows: seq<CaptureRow>, row: CaptureRow, sizing: Sizing)
    ensures PendingBytes(rows, sizing) <= PendingBytes(rows + [row], sizing)
  {
    TotalPush(rows, row, sizing.row);
  }

  /** `part` is the run of `log` that starts after the first `from` events. */
  ghost predicate Segment(log: seq<Event>, from: nat, part: seq<Event>) {
    from + |part| <= |log| && part == log[from..from + |part|]
  }

  /** `warning` is the resource warning about `cause`: same epoch and time, about no entity. */
  ghost predicate Announces(warning: Event, cause: Event) {
    && warning.payload.ResourceWarning?
    && warning.runtimeEpoch == cause.runtimeEpoch && warning.occurredAt == cause.occurredAt
    && warning.entityId == None && warning.entityRevision == None
  }

  lemma AnnouncesMeans(warning: Event, cause: Event)
    requires Announces(warning, cause)
    ensures warning.payload.ResourceWarning?
    ensures warning.runtimeEpoch == cause.runtimeEpoch && warning.occurredAt == cause.occurredAt
    ensures warning.entityId == None && warning.entityRevision == None
  {
  }

  ghost predicate Numbered(log: seq<Event>) {
    forall i :: 0 <= i < |log| ==> log[i].id == i + 1
  }

  ghost predicate IsSuffix<T>(part: seq<T>, whole: seq<T>) {
    |part| <= |whole| && part == whole[|whole| - |part|..]
  }

  /** `part` is the run of `log` that ends after the first `upTo` events. */
  ghost predicate RunUpTo(log: seq<Event>, part: seq<Event>, upTo: nat) {
    |part| <= upTo <= |log| && part == log[upTo - |part|..upTo]
  }

  lemma RunSuffix(log: seq<Event>, part: seq<Event>, suffix: seq<Event>, upTo: nat)
    requires RunUpTo(log, part, upTo) && IsSuffix(suffix, part)
    ensures RunUpTo(log, suffix, upTo) && |suffix| <= |part| <= upTo <= |log|
  {
  }

  lemma RunExtend(log: seq<Event>, part: seq<Event>, upTo: nat, event: Event)
    requires RunUpTo(log, part, upTo)
    ensures RunUpTo(log + [event], part, upTo)
  {
  }

  lemma RunEmpty(log: seq<Event>)
    ensures RunUpTo(log, [], |log|)
  {
  }

  lemma RunPush(log: seq<Event>, part: seq<Event>, upTo: nat)
    requires RunUpTo(log, part, upTo) && upTo < |log|
    ensures RunUpTo(log, part + [log[upTo]], upTo + 1)
  {
  }

  lemma SuffixLengths<T>(part: seq<T>, whole: seq<T>)
    requires IsSuffix(part, whole)
    ensures |part| <= |whole| && (|part| == |whole| ==> part == whole)
  {
  }

  lemma SuffixSelf<T>(whole: seq<T>)
    ensures IsSuffix(whole, whole)
  {
  }

  lemma SuffixPop<T>(part: seq<T>, whole: seq<T>)
    requires IsSuffix(part, whole) && part != []
    ensures IsSuffix(part[1..], whole)
  {
  }

  lemma SuffixEnds<T>(part: seq<T>, whole: seq<T>)
    requires IsSuffix(part, whole) && part != []
    ensures part[|part| - 1] == whole[|whole| - 1]
  {
  }

  lemma SegmentPush(log: seq<Event>, from: nat, part: seq<Event>)
    requires Segment(log, from, part) && from + |part| < |log|
    ensures Segment(log, from, part + [log[from + |part|]])
  {
    var next := from + |part|;
    assert log[from..next + 1] == log[from..next] + [log[next]];
  }

  lemma SegmentPop(log: seq<Event>, from: nat, part: seq<Event>)
    requires Segment(log, from, part) && part != []
    ensures part[0] == log[from] && Segment(log, from + 1, part[1..])
  {
    assert part[0] == log[from..from + |part|][0];
  }

  lemma SegmentAt(log: seq<Event>, from: nat, part: seq<Event>, i: nat)
    requires Segment(log, from, part) && i < |part|
    ensures from + i < |log| && part[i] == log[from + i]
  {
  }

  /** A segment of a numbered log lists consecutive ids: no gap, no duplicate, in order. */
  lemma SegmentIds(log: seq<Event>, from: nat, part: seq<Event>)
    requires Numbered(log) && Segment(log, from, part)
    ensures forall i :: 0 <= i < |part| ==> part[i].id == from + 1 + i
  {
    forall i | 0 <= i < |part|
      ensures part[i].id == from + 1 + i
    {
      assert part[i] == log[from + i];
    }
  }

  function Tag(rows: seq<CaptureRow>, epoch: Option<Epoch>): (tagged: seq<Pushed>)
    ensures |tagged| == if epoch.Some? then |rows| else 0
  {
    if epoch.Some? then seq(|rows|, i requires 0 <= i < |rows| => Pushed(epoch.value, rows[i])) else []
  }

  lemma TagPush(rows: seq<CaptureRow>, row: CaptureRow, epoch: Epoch)
    ensures Tag(rows + [row], Some(epoch)) == Tag(rows, Some(epoch)) + [Pushed(epoch, row)]
  {
  }

  /** The rows of all batched capture events in id order, each with the epoch of its event. */
  function CaptureLog(log: seq<Event>, origins: seq<Origin>): seq<Pushed>
    requires |origins| == |log|
  {
    if log == [] then []
    else
      var last := |log| - 1;
      CaptureLog(log[..last], origins[..last]) +
      if origins[last].Batch? && log[last].payload.CaptureRowsAdded?
      then Tag(log[last].payload.rows, log[last].runtimeEpoch) else []
  }

  lemma CaptureLogPush(log: seq<Event>, origins: seq<Origin>, event: Event, origin: Origin)
    requires |origins| == |log|
    ensures CaptureLog(log + [event], origins + [origin]) ==
            CaptureLog(log, origins) +
            if origin.Batch? && event.payload.CaptureRowsAdded?
            then Tag(event.payload.rows, event.runtimeEpoch) else []
  {
    assert (log + [event])[..|log|] == log && (origins + [origin])[..|log|] == origins;
  }

  function Lookup<T>(m: map<nat, T>, k: nat): Option<T> {
    if k in m then Some(m[k]) else None
  }

  function QueueOf(r: Option<Receiver>): seq<Event> {
    if r.Some? then r.value.queue else []
  }

  /** The id of the last event that was handed to the subscription or waits in its queue. */
  function End(h: Subscription, r: Option<Receiver>): nat {
    h.base + |h.replay| + |h.received| + |QueueOf(r)|
  }

  /**
   * The stream of one subscription against the full log: replay, received events and queue
   * are adjacent runs of the log, a termination notice is unique and not older than
   * anything delivered, and the byte counters describe what the handles really hold.
   */
  ghost predicate SubscriptionOk(h: Subscription, live: bool, r: Option<Receiver>, p: Option<Replay>,
                                 log: seq<Event>, sizing: Sizing)
  {
    && (h.accepted ==>
          && Segment(log, h.base, h.replay)
          && Segment(log, h.base + |h.replay|, h.received)
          && Segment(log, h.base + |h.replay| + |h.received|, QueueOf(r)))
    && (!h.accepted ==>
          && |h.replay| == 1 && h.replay[0].payload.SnapshotRequired?
          && h.received == [] && QueueOf(r) == [] && h.notices == [])
    && |h.notices| <= 1
    && (forall i :: 0 <= i < |h.notices| ==>
          h.notices[i].payload.SnapshotRequired? && h.base + |h.replay| + |h.received| <= h.notices[i].id)
    && (live ==> h.accepted && r.Some? && h.notices == [])
    && h.consumed <= h.replay
    && (p.Some? ==> h.consumed + p.value.events == h.replay && p.value.reserved == Total(p.value.events, sizing.event))
    && (r.Some? ==> ReceiverOk(h, live, r.value, sizing))
  }

  ghost predicate ReceiverOk(h: Subscription, live: bool, r: Receiver, sizing: Sizing) {
    && r.queuedBytes == Total(r.queue, sizing.event)
    && |r.queue| <= r.capacity && 1 <= r.capacity <= 512
    && (r.cancelled <==> h.accepted && !live)
    && (r.snapshotOnCancel ==> r.cancelled && h.notices == [] && End(h, Some(r)) <= r.terminalId)
  }

  /** Stored failure records: one per subscription, never beside an armed or delivered notice. */
  ghost predicate FailuresOk(failures: seq<Failure>, history: map<nat, Subscription>,
                             receivers: map<nat, Receiver>, subscribers: set<nat>)
  {
    && (forall i, j :: 0 <= i < j < |failures| ==> failures[i].subscription != failures[j].subscription)
    && (forall i :: 0 <= i < |failures| ==> FailureOk(failures[i], history, receivers, subscribers))
  }

  ghost predicate FailureOk(f: Failure, history: map<nat, Subscription>,
                            receivers: map<nat, Receiver>, subscribers: set<nat>)
  {
    && f.subscription in history && f.subscription in receivers && f.subscription !in subscribers
    && history[f.subscription].accepted && history[f.subscription].notices == []
    && !receivers[f.subscription].snapshotOnCancel
    && f.event.payload.SnapshotRequired?
    && End(history[f.subscription], Some(receivers[f.subscription])) <= f.event.id
  }

  lemma SubscriptionOkExtend(h: Subscription, live: bool, r: Option<Receiver>, p: Option<Replay>,
                             log: seq<Event>, longer: seq<Event>, sizing: Sizing)
    requires SubscriptionOk(h, live, r, p, log, sizing) && log <= longer
    ensures SubscriptionOk(h, live, r, p, longer, sizing)
  {
    assert forall from: nat, part :: Segment(log, from, part) ==> Segment(longer, from, part);
  }

  /** All subscriptions of the hub at once. */
  ghost predicate TableOk(history: map<nat, Subscription>, subscribers: set<nat>, receivers: map<nat, Receiver>,
                          replays: map<nat, Replay>, log: seq<Event>, sizing: Sizing)
  {
    && receivers.Keys <= history.Keys && replays.Keys <= history.Keys && subscribers <= receivers.Keys
    && forall k :: k in history ==>
         SubscriptionOk(history[k], k in subscribers, Lookup(receivers, k), Lookup(replays, k), log, sizing)
  }

  /** A change confined to subscription `k` only has to be justified for `k`. */
  lemma TableOkChange(history: map<nat, Subscription>, subscribers: set<nat>, receivers: map<nat, Receiver>,
                      replays: map<nat, Replay>, history': map<nat, Subscription>, subscribers': set<nat>,
                      receivers': map<nat, Receiver>, replays': map<nat, Replay>,
                      log: seq<Event>, sizing: Sizing, k: nat)
    requires TableOk(history, subscribers, receivers, replays, log, sizing)
    requires forall j | j != k ::
               && (j in subscribers <==> j in subscribers')
               && Lookup(history, j) == Lookup(history', j) && Lookup(receivers, j) == Lookup(receivers', j)
               && Lookup(replays, j) == Lookup(replays', j)
    requires k in history' && (k in subscribers' ==> k in receivers')
    requires SubscriptionOk(history'[k], k in subscribers', Lookup(receivers', k), Lookup(replays', k), log, sizing)
    ensures TableOk(history', subscribers', receivers', replays', log, sizing)
  {
    hide SubscriptionOk;
    forall j | j in history'
      ensures SubscriptionOk(history'[j], j in subscribers', Lookup(receivers', j), Lookup(replays', j), log, sizing)
    {
      if j != k {
        assert Lookup(history, j) == Lookup(history', j);
      }
    }
    forall j | j in receivers' ensures j in history' {
      if j != k {
        assert Lookup(history, j) == Lookup(history', j) && Lookup(receivers, j) == Lookup(receivers', j);
      }
    }
    forall j | j in replays' ensures j in history' {
      if j != k {
        assert Lookup(history, j) == Lookup(history', j) && Lookup(replays, j) == Lookup(replays', j);
      }
    }
    forall j | j in subscribers' ensures j in receivers' {
      if j != k {
        assert Lookup(receivers, j) == Lookup(receivers', j);
      }
    }
  }

  /** The same for the failure records, when `k` itself has none. */
  lemma FailuresOkChange(failures: seq<Failure>, history: map<nat, Subscription>, receivers: map<nat, Receiver>,
                         subscribers: set<nat>, history': map<nat, Subscription>, receivers': map<nat, Receiver>,
                         subscribers': set<nat>, k: nat)
    requires FailuresOk(failures, history, receivers, subscribers)
    requires forall i :: 0 <= i < |failures| ==> failures[i].subscription != k
    requires forall j | j != k ::
               && (j in subscribers <==> j in subscribers')
               && Lookup(history, j) == Lookup(history', j) && Lookup(receivers, j) == Lookup(receivers', j)
    ensures FailuresOk(failures, history', receivers', subscribers')
  {
    forall i | 0 <= i < |failures|
      ensures FailureOk(failures[i], history', receivers', subscribers')
    {
      var j := failures[i].subscription;
      assert FailureOk(failures[i], history, receivers, subscribers);
      assert Lookup(history, j) == Lookup(history', j) && Lookup(receivers, j) == Lookup(receivers', j);
    }
  }

  lemma TableOkExtend(history: map<nat, Subscription>, subscribers: set<nat>, receivers: map<nat, Receiver>,
                      replays: map<nat, Replay>, log: seq<Event>, longer: seq<Event>, sizing: Sizing)
    requires TableOk(history, subscribers, receivers, replays, log, sizing) && log <= longer
    ensures TableOk(history, subscribers, receivers, replays, longer, sizing)
  {
    forall k | k in history
      ensures SubscriptionOk(history[k], k in subscribers, Lookup(receivers, k), Lookup(replays, k), longer, sizing)
    {
      SubscriptionOkExtend(history[k], k in subscribers, Lookup(receivers, k), Lookup(replays, k), log, longer, sizing);
    }
  }

  lemma TableKeys(history: map<nat, Subscription>, subscribers: set<nat>, receivers: map<nat, Receiver>,
                  replays: map<nat, Replay>, log: seq<Event>, sizing: Sizing)
    requires TableOk(history, subscribers, receivers, replays, log, sizing)
    ensures subscribers <= receivers.Keys <= history.Keys && replays.Keys <= history.Keys
  {
  }

  /** A receiver after cancellation with its control lane armed at `id`. */
  function Armed(r: Receiver, id: nat): Receiver {
    r.(cancelled := true, snapshotOnCancel := true, terminalId := id)
  }

  /** Cancelling a live subscription, with the control lane armed or not, keeps every stream. */
  lemma CancelKeepsTable(history: map<nat, Subscription>, subscribers: set<nat>, receivers: map<nat, Receiver>,
                         replays: map<nat, Replay>, failures: seq<Failure>, log: seq<Event>, sizing: Sizing,
                         k: nat, id: nat, arm: bool)
    requires TableOk(history, subscribers, receivers, replays, log, sizing) && k in subscribers
    requires FailuresOk(failures, history, receivers, subscribers)
    requires arm ==> End(history[k], Some(receivers[k])) <= id
    ensures k in receivers
    ensures var r := if arm then Armed(receivers[k], id) else receivers[k].(cancelled := true);
            && TableOk(history, subscribers - {k}, receivers[k := r], replays, log, sizing)
            && FailuresOk(failures, history, receivers[k := r], subscribers - {k})
  {
    hide TableOk, FailuresOk, SubscriptionOk, End;
    TableKeys(history, subscribers, receivers, replays, log, sizing);
    TableOne(k, history, subscribers, receivers, replays, log, sizing);
    var r := if arm then Armed(receivers[k], id) else receivers[k].(cancelled := true);
    CancelKeepsOne(history[k], receivers[k], Lookup(replays, k), log, sizing, id, arm);
    TableOkChange(history, subscribers, receivers, replays, history, subscribers - {k}, receivers[k := r], replays,
                  log, sizing, k);
    NoFailureOf(k, failures, history, receivers, subscribers);
    FailuresOkChange(failures, history, receivers, subscribers, history, receivers[k := r], subscribers - {k}, k);
  }

  lemma CancelKeepsOne(h: Subscription, r: Receiver, p: Option<Replay>, log: seq<Event>, sizing: Sizing, id: nat,
                       arm: bool)
    requires SubscriptionOk(h, true, Some(r), p, log, sizing) && (arm ==> End(h, Some(r)) <= id)
    ensures SubscriptionOk(h, false, Some(if arm then Armed(r, id) else r.(cancelled := true)), p, log, sizing)
  {
    hide Segment, Total;
  }

  lemma FailuresOkSuffix(failures: seq<Failure>, suffix: seq<Failure>, history: map<nat, Subscription>,
                         receivers: map<nat, Receiver>, subscribers: set<nat>)
    requires FailuresOk(failures, history, receivers, subscribers) && IsSuffix(suffix, failures)
    ensures FailuresOk(suffix, history, receivers, subscribers)
  {
    hide FailureOk;
    var cut := |failures| - |suffix|;
    forall i | 0 <= i < |suffix|
      ensures suffix[i] == failures[cut + i] && FailureOk(suffix[i], history, receivers, subscribers)
    {
    }
  }

  /** A failure record may be stored for a subscription exactly when it stops being live. */
  lemma FailureStored(failures: seq<Failure>, f: Failure, history: map<nat, Subscription>, subscribers: set<nat>,
                      receivers: map<nat, Receiver>, replays: map<nat, Replay>, log: seq<Event>, sizing: Sizing)
    requires TableOk(history, subscribers, receivers, replays, log, sizing)
    requires FailuresOk(failures, history, receivers, subscribers) && f.subscription in subscribers
    requires f.event.payload.SnapshotRequired?
    requires f.subscription in receivers && f.subscription in history
    requires End(history[f.subscription], Some(receivers[f.subscription])) <= f.event.id
    ensures var k := f.subscription;
            FailuresOk(failures + [f], history, receivers[k := receivers[k].(cancelled := true)], subscribers - {k})
  {
    hide TableOk, FailureOk, SubscriptionOk;
    var k := f.subscription;
    var receivers' := receivers[k := receivers[k].(cancelled := true)];
    TableOne(k, history, subscribers, receivers, replays, log, sizing);
    LiveIsOpen(history[k], Lookup(receivers, k), Lookup(replays, k), log, sizing);
    CancelKeepsTable(history, subscribers, receivers, replays, failures, log, sizing, k, 0, false);
    NewRecordOk(f, history, receivers', subscribers - {k});
    NoFailureOf(k, failures, history, receivers, subscribers);
    forall i | 0 <= i < |failures + [f]|
      ensures FailureOk((failures + [f])[i], history, receivers', subscribers - {k})
    {
      assert i < |failures| ==> (failures + [f])[i] == failures[i];
    }
  }

  lemma NewRecordOk(f: Failure, history: map<nat, Subscription>, receivers: map<nat, Receiver>, subscribers: set<nat>)
    requires f.subscription in history && f.subscription in receivers && f.subscription !in subscribers
    requires history[f.subscription].accepted && history[f.subscription].notices == []
    requires !receivers[f.subscription].snapshotOnCancel && f.event.payload.SnapshotRequired?
    requires End(history[f.subscription], Some(receivers[f.subscription])) <= f.event.id
    ensures FailureOk(f, history, receivers, subscribers)
  {
  }

  lemma SubsetSize<T>(part: set<T>, whole: set<T>)
    requires part <= whole
    ensures |part| <= |whole|
  {
    assert whole == part + (whole - part);
  }

  /** The receiver of a live subscription after one more event was queued for it. */
  function Queued(r: Receiver, event: Event, sizing: Sizing): Receiver {
    r.(queue := r.queue + [event], queuedBytes := r.queuedBytes + sizing.event(event))
  }

  lemma QueueKeepsTable(history: map<nat, Subscription>, subscribers: set<nat>, receivers: map<nat, Receiver>,
                        replays: map<nat, Replay>, failures: seq<Failure>, log: seq<Event>, sizing: Sizing,
                        k: nat, event: Event)
    requires TableOk(history, subscribers, receivers, replays, log, sizing) && k in subscribers
    requires FailuresOk(failures, history, receivers, subscribers)
    requires k in receivers && k in history && |receivers[k].queue| < receivers[k].capacity
    requires End(history[k], Some(receivers[k])) < |log| && log[End(history[k], Some(receivers[k]))] == event
    ensures TableOk(history, subscribers, receivers[k := Queued(receivers[k], event, sizing)], replays, log, sizing)
    ensures FailuresOk(failures, history, receivers[k := Queued(receivers[k], event, sizing)], subscribers)
  {
    hide SubscriptionOk, FailureOk, TableOk;
    var r' := Queued(receivers[k], event, sizing);
    TableOne(k, history, subscribers, receivers, replays, log, sizing);
    QueueKeepsOne(history[k], receivers[k], Lookup(replays, k), log, sizing, event);
    TableOkChange(history, subscribers, receivers, replays, history, subscribers, receivers[k := r'], replays,
                  log, sizing, k);
    NoFailureOf(k, failures, history, receivers, subscribers);
    FailuresOkChange(failures, history, receivers, subscribers, history, receivers[k := r'], subscribers, k);
  }

  /** The events newer than cursor `c`. */
  function After(events: seq<Event>, c: nat): seq<Event> {
    if events == [] then []
    else (if events[0].id > c then [events[0]] else []) + After(events[1..], c)
  }

  /** The part of the log after cursor `c`. */
  function Tail(log: seq<Event>, c: nat): seq<Event> {
    if c <= |log| then log[c..] else []
  }

  /** A subscription at the moment it is entered, when the newest event is `newest`. */
  function Started(c: nat, newest: nat, accepted: bool, replay: seq<Event>): Subscription {
    Subscription(if c <= newest then c else newest, accepted, replay, [], [], [])
  }

  /** Filtering a run of the log by cursor yields exactly the tail of the log after that cursor. */
  lemma {:induction false} AfterRun(log: seq<Event>, part: seq<Event>, c: nat)
    requires Numbered(log) && RunUpTo(log, part, |log|) && |log| - |part| <= c
    ensures After(part, c) == Tail(log, c)
  {
    hide RunUpTo, Numbered;
    if part == [] {
      RunWhole(log, part);
    } else {
      RunPop(log, part);
      if c == |log| - |part| {
        AfterAll(log, part[1..], c);
        RunWhole(log, part);
      } else {
        AfterRun(log, part[1..], c);
      }
    }
  }

  lemma {:induction false} AfterAll(log: seq<Event>, part: seq<Event>, c: nat)
    requires Numbered(log) && RunUpTo(log, part, |log|) && c < |log| - |part| + 1
    ensures After(part, c) == part
  {
    hide RunUpTo, Numbered;
    if part != [] {
      RunPop(log, part);
      AfterAll(log, part[1..], c);
    }
  }

  lemma RunPop(log: seq<Event>, part: seq<Event>)
    requires Numbered(log) && RunUpTo(log, part, |log|) && part != []
    ensures |part| <= |log| && part[0].id == |log| - |part| + 1
    ensures part == [part[0]] + part[1..] && RunUpTo(log, part[1..], |log|)
  {
    var first := |log| - |part|;
    assert part[0] == log[first] && part[1..] == log[first + 1..];
  }

  lemma RunWhole(log: seq<Event>, part: seq<Event>)
    requires RunUpTo(log, part, |log|)
    ensures |part| <= |log| && part == Tail(log, |log| - |part|)
    ensures part == [] ==> forall c: nat :: c >= |log| ==> Tail(log, c) == []
  {
  }

  /** What a run that ends with the newest event no longer holds. */
  lemma RunMisses(log: seq<Event>, part: seq<Event>, c: nat)
    requires Numbered(log) && RunUpTo(log, part, |log|)
    ensures c < |log| - |part| <==> exists i :: c <= i < |log| && log[i] !in part
  {
    var first := |log| - |part|;
    forall i | 0 <= i < |log|
      ensures log[i] in part <==> first <= i
    {
      if first <= i {
        assert part[i - first] == log[i];
      } else {
        assert forall j :: 0 <= j < |part| ==> part[j] == log[first + j];
      }
    }
    if c < first {
      assert log[c] !in part;
    }
  }

  function Without(failures: seq<Failure>, k: nat): seq<Failure> {
    if failures == [] then []
    else (if failures[0].subscription == k then [] else [failures[0]]) + Without(failures[1..], k)
  }

  lemma WithoutHead(failures: seq<Failure>, k: nat, kept: seq<Failure>)
    requires failures != []
    ensures kept + Without(failures, k) ==
              (if failures[0].subscription == k then kept else kept + [failures[0]]) + Without(failures[1..], k)
  {
  }

  lemma WithoutNone(k: nat, kept: seq<Failure>)
    ensures kept + Without([], k) == kept
  {
  }

  lemma {:induction false} WithoutMembers(failures: seq<Failure>, k: nat, f: Failure)
    ensures f in Without(failures, k) <==> f in failures && f.subscription != k
  {
    if failures != [] {
      assert failures == [failures[0]] + failures[1..];
      WithoutMembers(failures[1..], k, f);
    }
  }

  lemma {:induction false} WithoutOk(failures: seq<Failure>, k: nat, history: map<nat, Subscription>,
                                     receivers: map<nat, Receiver>, subscribers: set<nat>)
    requires FailuresOk(failures, history, receivers, subscribers)
    ensures FailuresOk(Without(failures, k), history, receivers, subscribers)
    ensures |Without(failures, k)| <= |failures|
    ensures forall i :: 0 <= i < |Without(failures, k)| ==> Without(failures, k)[i].subscription != k
  {
    hide FailuresOk;
    if failures == [] {
      NoFailures(history, receivers, subscribers);
    } else {
      var head, tail := failures[0], failures[1..];
      FailuresOkTail(failures, history, receivers, subscribers);
      WithoutOk(tail, k, history, receivers, subscribers);
      forall f | f in Without(tail, k)
        ensures f.subscription != head.subscription
      {
        WithoutMembers(tail, k, f);
      }
      FailuresOkCons(head, Without(tail, k), history, receivers, subscribers);
      assert [] + Without(tail, k) == Without(tail, k);
    }
  }

  lemma FailuresOkTail(failures: seq<Failure>, history: map<nat, Subscription>, receivers: map<nat, Receiver>,
                       subscribers: set<nat>)
    requires FailuresOk(failures, history, receivers, subscribers) && failures != []
    ensures FailureOk(failures[0], history, receivers, subscribers)
    ensures FailuresOk(failures[1..], history, receivers, subscribers)
    ensures forall f :: f in failures[1..] ==> f.subscription != failures[0].subscription
  {
    hide FailureOk;
    FailuresOkSuffix(failures, failures[1..], history, receivers, subscribers);
    assert forall i :: 0 <= i < |failures| - 1 ==> failures[1..][i] == failures[i + 1];
  }

  lemma FailuresOkCons(head: Failure, rest: seq<Failure>, history: map<nat, Subscription>,
                       receivers: map<nat, Receiver>, subscribers: set<nat>)
    requires FailureOk(head, history, receivers, subscribers) && FailuresOk(rest, history, receivers, subscribers)
    requires forall f :: f in rest ==> f.subscription != head.subscription
    ensures FailuresOk([head] + rest, history, receivers, subscribers)
  {
    hide FailureOk;
  }

  /** Handing out a stored failure record turns it into the one notice of its subscription. */
  lemma NoticeKeepsTable(f: Failure, rest: seq<Failure>, history: map<nat, Subscription>, subscribers: set<nat>,
                         receivers: map<nat, Receiver>, replays: map<nat, Replay>, log: seq<Event>, sizing: Sizing)
    requires TableOk(history, subscribers, receivers, replays, log, sizing)
    requires FailureOk(f, history, receivers, subscribers) && FailuresOk(rest, history, receivers, subscribers)
    requires forall i :: 0 <= i < |rest| ==> rest[i].subscription != f.subscription
    ensures var k := f.subscription;
            && TableOk(history[k := history[k].(notices := [f.event])], subscribers, receivers, replays, log, sizing)
            && FailuresOk(rest, history[k := history[k].(notices := [f.event])], receivers, subscribers)
  {
    var k := f.subscription;
    var history' := history[k := history[k].(notices := [f.event])];
    hide TableOk, SubscriptionOk;
    TableOne(k, history, subscribers, receivers, replays, log, sizing);
    NoticeKeepsOne(history[k], receivers[k], Lookup(replays, k), log, sizing, f.event);
    TableOkChange(history, subscribers, receivers, replays, history', subscribers, receivers, replays, log, sizing, k);
    FailuresOkChange(rest, history, receivers, subscribers, history', receivers, subscribers, k);
  }

  lemma NoticeKeepsOne(h: Subscription, r: Receiver, p: Option<Replay>, log: seq<Event>, sizing: Sizing, notice: Event)
    requires SubscriptionOk(h, false, Some(r), p, log, sizing) && h.accepted && !r.snapshotOnCancel
    requires notice.payload.SnapshotRequired? && End(h, Some(r)) <= notice.id
    ensures SubscriptionOk(h.(notices := [notice]), false, Some(r), p, log, sizing)
  {
    hide Segment;
  }

  lemma TableOne(k: nat, history: map<nat, Subscription>, subscribers: set<nat>, receivers: map<nat, Receiver>,
                 replays: map<nat, Replay>, log: seq<Event>, sizing: Sizing)
    requires TableOk(history, subscribers, receivers, replays, log, sizing) && k in history
    ensures SubscriptionOk(history[k], k in subscribers, Lookup(receivers, k), Lookup(replays, k), log, sizing)
  {
  }

  lemma NoFailureOf(k: nat, failures: seq<Failure>, history: map<nat, Subscription>, receivers: map<nat, Receiver>,
                    subscribers: set<nat>)
    requires FailuresOk(failures, history, receivers, subscribers)
    requires k in subscribers || k !in receivers || (k in receivers && receivers[k].snapshotOnCancel)
    ensures forall i :: 0 <= i < |failures| ==> failures[i].subscription != k
  {
    assert forall i :: 0 <= i < |failures| ==> FailureOk(failures[i], history, receivers, subscribers);
  }

  lemma ReceiveKeepsOne(h: Subscription, live: bool, r: Receiver, p: Option<Replay>, log: seq<Event>, sizing: Sizing)
    requires SubscriptionOk(h, live, Some(r), p, log, sizing) && !r.cancelled && r.queue != []
    ensures live && sizing.event(r.queue[0]) <= r.queuedBytes
    ensures var h' := h.(received := h.received + [r.queue[0]]);
            var r' := r.(queue := r.queue[1..], queuedBytes := r.queuedBytes - sizing.event(r.queue[0]));
            SubscriptionOk(h', live, Some(r'), p, log, sizing) && End(h', Some(r')) == End(h, Some(r))
  {
    hide Segment;
    SegmentFits(log, h.base + |h.replay| + |h.received|, r.queue);
    SegmentPop(log, h.base + |h.replay| + |h.received|, r.queue);
    SegmentPush(log, h.base + |h.replay|, h.received);
  }

  lemma SegmentFits(log: seq<Event>, from: nat, part: seq<Event>)
    requires Segment(log, from, part)
    ensures from + |part| <= |log|
  {
  }

  lemma QueueKeepsOne(h: Subscription, r: Receiver, p: Option<Replay>, log: seq<Event>, sizing: Sizing, event: Event)
    requires SubscriptionOk(h, true, Some(r), p, log, sizing) && |r.queue| < r.capacity
    requires End(h, Some(r)) < |log| && log[End(h, Some(r))] == event
    ensures SubscriptionOk(h, true, Some(Queued(r, event, sizing)), p, log, sizing)
  {
    hide Segment, Total;
    SegmentPush(log, h.base + |h.replay| + |h.received|, r.queue);
    TotalPush(r.queue, event, sizing.event);
  }

  /** Receiving the head of the queue moves it from the queue to the received events. */
  lemma ReceiveKeepsTable(k: nat, failures: seq<Failure>, history: map<nat, Subscription>, subscribers: set<nat>,
                          receivers: map<nat, Receiver>, replays: map<nat, Replay>, log: seq<Event>, sizing: Sizing)
    requires TableOk(history, subscribers, receivers, replays, log, sizing)
    requires FailuresOk(failures, history, receivers, subscribers)
    requires k in receivers && k in history && !receivers[k].cancelled && receivers[k].queue != []
    ensures var h, r := history[k], receivers[k];
            var h' := h.(received := h.received + [r.queue[0]]);
            var r' := r.(queue := r.queue[1..], queuedBytes := r.queuedBytes - sizing.event(r.queue[0]));
            && sizing.event(r.queue[0]) <= r.queuedBytes && k in subscribers
            && TableOk(history[k := h'], subscribers, receivers[k := r'], replays, log, sizing)
            && FailuresOk(failures, history[k := h'], receivers[k := r'], subscribers)
            && End(h', Some(r')) == End(h, Some(r))
  {
    hide SubscriptionOk, FailureOk, TableOk, Segment, Total;
    var h, r := history[k], receivers[k];
    TableKeys(history, subscribers, receivers, replays, log, sizing);
    TableOne(k, history, subscribers, receivers, replays, log, sizing);
    ReceiveKeepsOne(h, k in subscribers, r, Lookup(replays, k), log, sizing);
    var h' := h.(received := h.received + [r.queue[0]]);
    var r' := r.(queue := r.queue[1..], queuedBytes := r.queuedBytes - sizing.event(r.queue[0]));
    TableOkChange(history, subscribers, receivers, replays, history[k := h'], subscribers, receivers[k := r'], replays,
                  log, sizing, k);
    NoFailureOf(k, failures, history, receivers, subscribers);
    FailuresOkChange(failures, history, receivers, subscribers, history[k := h'], receivers[k := r'], subscribers, k);
  }

  /** Delivering the armed control notice empties the queue and ends the stream. */
  lemma ControlKeepsTable(k: nat, notice: Event, failures: seq<Failure>, history: map<nat, Subscription>,
                          subscribers: set<nat>, receivers: map<nat, Receiver>, replays: map<nat, Replay>,
                          log: seq<Event>, sizing: Sizing)
    requires TableOk(history, subscribers, receivers, replays, log, sizing)
    requires FailuresOk(failures, history, receivers, subscribers)
    requires k in receivers && k in history && receivers[k].snapshotOnCancel
    requires notice.id == receivers[k].terminalId && notice.payload.SnapshotRequired?
    ensures var h' := history[k].(notices := history[k].notices + [notice]);
            var r' := receivers[k].(snapshotOnCancel := false, queue := [], queuedBytes := 0);
            && k !in subscribers && history[k].notices == [] && history[k].accepted
            && TableOk(history[k := h'], subscribers, receivers[k := r'], replays, log, sizing)
            && FailuresOk(failures, history[k := h'], receivers[k := r'], subscribers)
  {
    hide TableOk, FailureOk;
    var h, r := history[k], receivers[k];
    TableOne(k, history, subscribers, receivers, replays, log, sizing);
    ControlKeepsOne(h, k in subscribers, r, Lookup(replays, k), log, sizing, notice);
    var h' := h.(notices := h.notices + [notice]);
    var r' := r.(snapshotOnCancel := false, queue := [], queuedBytes := 0);
    TableOkChange(history, subscribers, receivers, replays, history[k := h'], subscribers, receivers[k := r'], replays,
                  log, sizing, k);
    NoFailureOf(k, failures, history, receivers, subscribers);
    FailuresOkChange(failures, history, receivers, subscribers, history[k := h'], receivers[k := r'], subscribers, k);
  }

  lemma ControlKeepsOne(h: Subscription, live: bool, r: Receiver, p: Option<Replay>, log: seq<Event>, sizing: Sizing,
                        notice: Event)
    requires SubscriptionOk(h, live, Some(r), p, log, sizing) && r.snapshotOnCancel
    requires notice.id == r.terminalId && notice.payload.SnapshotRequired?
    ensures !live && h.notices == [] && h.accepted
    ensures SubscriptionOk(h.(notices := h.notices + [notice]), live,
                           Some(r.(snapshotOnCancel := false, queue := [], queuedBytes := 0)), p, log, sizing)
  {
    hide Segment;
    SegmentNone(log, h.base + |h.replay| + |h.received|, r.queue);
    assert r.snapshotOnCancel ==> r.cancelled;
  }

  lemma SegmentNone(log: seq<Event>, from: nat, part: seq<Event>)
    requires Segment(log, from, part)
    ensures Segment(log, from, [])
  {
  }

  lemma NewSubscriptionOk(h: Subscription, r: Receiver, p: Replay, log: seq<Event>, sizing: Sizing)
    requires h.base <= |log| && h.consumed == [] && h.received == [] && h.notices == []
    requires h.accepted ==> h.replay == log[h.base..]
    requires !h.accepted ==> |h.replay| == 1 && h.replay[0].payload.SnapshotRequired?
    requires r.queue == [] && r.queuedBytes == 0 && 1 <= r.capacity <= 512 && !r.cancelled && !r.snapshotOnCancel
    requires p.events == h.replay && p.reserved == Total(p.events, sizing.event)
    ensures SubscriptionOk(h, h.accepted, Some(r), Some(p), log, sizing)
  {
  }

  lemma StartedOk(c: nat, accepted: bool, events: seq<Event>, r: Receiver, p: Replay, log: seq<Event>, sizing: Sizing)
    requires accepted ==> events == Tail(log, c)
    requires !accepted ==> |events| == 1 && events[0].payload.SnapshotRequired?
    requires r.queue == [] && r.queuedBytes == 0 && 1 <= r.capacity <= 512 && !r.cancelled && !r.snapshotOnCancel
    requires p.events == events && p.reserved == Total(p.events, sizing.event)
    ensures var h := Started(c, |log|, accepted, events);
            && h.accepted == accepted && h.replay == events
            && SubscriptionOk(h, accepted, Some(r), Some(p), log, sizing)
            && (accepted ==> End(h, Some(r)) == |log|)
  {
    hide Total;
    NewSubscriptionOk(Started(c, |log|, accepted, events), r, p, log, sizing);
  }

  lemma NewTableOk(history: map<nat, Subscription>, subscribers: set<nat>, receivers: map<nat, Receiver>,
                   replays: map<nat, Replay>, failures: seq<Failure>, log: seq<Event>, sizing: Sizing,
                   k: nat, h: Subscription, r: Receiver, p: Replay)
    requires TableOk(history, subscribers, receivers, replays, log, sizing) && k !in history
    requires FailuresOk(failures, history, receivers, subscribers)
    requires SubscriptionOk(h, h.accepted, Some(r), Some(p), log, sizing)
    ensures var live := if h.accepted then subscribers + {k} else subscribers;
            && TableOk(history[k := h], live, receivers[k := r], replays[k := p], log, sizing)
            && FailuresOk(failures, history[k := h], receivers[k := r], live)
  {
    hide SubscriptionOk, FailureOk;
    var live := if h.accepted then subscribers + {k} else subscribers;
    TableOkChange(history, subscribers, receivers, replays, history[k := h], live, receivers[k := r], replays[k := p],
                  log, sizing, k);
    NoFailureOf(k, failures, history, receivers, subscribers);
    FailuresOkChange(failures, history, receivers, subscribers, history[k := h], receivers[k := r], live, k);
  }

  /** Every subscription in `s` has been given the log up to event `n`. */
  ghost predicate AllAt(s: set<nat>, n: nat, history: map<nat, Subscription>, receivers: map<nat, Receiver>) {
    forall k :: k in s ==> k in history && End(history[k], Lookup(receivers, k)) == n
  }

  lemma AllAtQueued(s: set<nat>, n: nat, history: map<nat, Subscription>, receivers: map<nat, Receiver>, k: nat,
                    event: Event, sizing: Sizing)
    requires AllAt(s, n, history, receivers) && k in history && k in receivers
    ensures AllAt(s - {k}, n, history, receivers[k := Queued(receivers[k], event, sizing)])
    ensures k in s ==> End(history[k], Some(Queued(receivers[k], event, sizing))) == n + 1
  {
  }

  lemma AllAtReceived(s: set<nat>, n: nat, history: map<nat, Subscription>, receivers: map<nat, Receiver>, k: nat,
                      h: Subscription, r: Receiver)
    requires AllAt(s, n, history, receivers) && k in history && k in receivers
    requires End(h, Some(r)) == End(history[k], Some(receivers[k]))
    ensures AllAt(s, n, history[k := h], receivers[k := r])
  {
  }

  lemma AllAtExcept(s: set<nat>, n: nat, history: map<nat, Subscription>, receivers: map<nat, Receiver>,
                    receivers': map<nat, Receiver>, k: nat)
    requires AllAt(s, n, history, receivers) && k !in s
    requires forall j :: j != k ==> Lookup(receivers', j) == Lookup(receivers, j)
    ensures AllAt(s, n, history, receivers')
  {
  }

  lemma AllAtEnter(s: set<nat>, n: nat, history: map<nat, Subscription>, receivers: map<nat, Receiver>, k: nat,
                   h: Subscription, r: Receiver)
    requires AllAt(s, n, history, receivers) && k !in s
    ensures AllAt(s, n, history[k := h], receivers[k := r])
    ensures End(h, Some(r)) == n ==> AllAt(s + {k}, n, history[k := h], receivers[k := r])
  {
  }

  /** A handle may go away once its subscription is neither live nor named by a failure record. */
  lemma DropKeepsTable(k: nat, failures: seq<Failure>, history: map<nat, Subscription>, subscribers: set<nat>,
                       receivers: map<nat, Receiver>, replays: map<nat, Replay>, log: seq<Event>, sizing: Sizing)
    requires TableOk(history, subscribers, receivers, replays, log, sizing) && k in history && k !in subscribers
    requires FailuresOk(failures, history, receivers, subscribers)
    requires forall i :: 0 <= i < |failures| ==> failures[i].subscription != k
    ensures TableOk(history, subscribers, receivers - {k}, replays, log, sizing)
    ensures FailuresOk(failures, history, receivers - {k}, subscribers)
  {
    hide TableOk, Total;
    TableOne(k, history, subscribers, receivers, replays, log, sizing);
    assert SubscriptionOk(history[k], false, None, Lookup(replays, k), log, sizing);
    TableOkChange(history, subscribers, receivers, replays, history, subscribers, receivers - {k}, replays, log, sizing,
                  k);
    FailuresOkChange(failures, history, receivers, subscribers, history, receivers - {k}, subscribers, k);
  }

  /** Consuming the first replay copy, or giving the copies up, keeps the replay bookkeeping. */
  lemma ReplayKeepsTable(k: nat, consumed: seq<Event>, rest: Option<Replay>, failures: seq<Failure>,
                         history: map<nat, Subscription>, subscribers: set<nat>, receivers: map<nat, Receiver>,
                         replays: map<nat, Replay>, replays': map<nat, Replay>, log: seq<Event>, sizing: Sizing)
    requires TableOk(history, subscribers, receivers, replays, log, sizing) && k in history
    requires FailuresOk(failures, history, receivers, subscribers)
    requires consumed <= history[k].replay
    requires rest.Some? ==> consumed + rest.value.events == history[k].replay
                            && rest.value.reserved == Total(rest.value.events, sizing.event)
    requires Lookup(replays', k) == rest && forall j | j != k :: Lookup(replays', j) == Lookup(replays, j)
    ensures TableOk(history[k := history[k].(consumed := consumed)], subscribers, receivers, replays', log, sizing)
    ensures FailuresOk(failures, history[k := history[k].(consumed := consumed)], receivers, subscribers)
  {
    hide TableOk, Segment, Total;
    var history' := history[k := history[k].(consumed := consumed)];
    TableOne(k, history, subscribers, receivers, replays, log, sizing);
    assert SubscriptionOk(history'[k], k in subscribers, Lookup(receivers, k), rest, log, sizing);
    TableOkChange(history, subscribers, receivers, replays, history', subscribers, receivers, replays', log, sizing, k);
    forall i | 0 <= i < |failures|
      ensures FailureOk(failures[i], history', receivers, subscribers)
    {
      assert FailureOk(failures[i], history, receivers, subscribers);
    }
  }

  /** The overflow warning is published at most once, and never while the replay log is complete. */
  ghost predicate WarnedOnce(origins: seq<Origin>, overflowed: bool) {
    && (forall i, j :: 0 <= i < j < |origins| ==> !(origins[i].Overflow? && origins[j].Overflow?))
    && (!overflowed ==> Unwarned(origins))
  }

  lemma StillOnce(origins: seq<Origin>, overflowed: bool, later: bool)
    requires WarnedOnce(origins, overflowed) && (overflowed ==> later)
    ensures WarnedOnce(origins, later)
  {
  }

  lemma OnceMore(origins: seq<Origin>)
    requires Unwarned(origins)
    ensures WarnedOnce(origins + [Overflow], true)
  {
  }

  lemma StillUnwarned(origins: seq<Origin>, origin: Origin)
    requires Unwarned(origins) && !origin.Overflow?
    ensures Unwarned(origins + [origin])
  {
  }

  /** Only events other than the overflow warning were added. */
  ghost predicate Quiet(before: seq<Origin>, after: seq<Origin>) {
    before <= after && forall i :: |before| <= i < |after| ==> !after[i].Overflow?
  }

  lemma QuietOn(a: seq<Origin>, b: seq<Origin>, c: seq<Origin>)
    requires Quiet(a, b) && Quiet(b, c)
    ensures Quiet(a, c)
  {
  }

  lemma QuietNone(a: seq<Origin>)
    ensures Quiet(a, a)
  {
  }

  ghost predicate Unwarned(origins: seq<Origin>) {
    forall i :: 0 <= i < |origins| ==> !origins[i].Overflow?
  }

  lemma AllAtConsumed(s: set<nat>, n: nat, history: map<nat, Subscription>, receivers: map<nat, Receiver>, k: nat,
                      consumed: seq<Event>)
    requires AllAt(s, n, history, receivers) && k in history
    ensures AllAt(s, n, history[k := history[k].(consumed := consumed)], receivers)
  {
  }

  lemma AllAtNotice(s: set<nat>, n: nat, history: map<nat, Subscription>, receivers: map<nat, Receiver>, k: nat,
                    notices: seq<Event>)
    requires AllAt(s, n, history, receivers) && k in history
    ensures AllAt(s, n, history[k := history[k].(notices := notices)], receivers)
  {
  }

  /** The same handles with the same queue bounds. */
  ghost predicate SameBounds(before: map<nat, Receiver>, after: map<nat, Receiver>) {
    before.Keys == after.Keys && forall k :: k in after ==> after[k].capacity == before[k].capacity
  }

  lemma SameBoundsSelf(a: map<nat, Receiver>)
    ensures SameBounds(a, a)
  {
  }

  lemma SameBoundsBut(a: map<nat, Receiver>, b: map<nat, Receiver>, k: nat)
    requires k in a && k in b && b[k].capacity == a[k].capacity && b == a[k := b[k]]
    ensures SameBounds(a, b)
  {
  }

  lemma SameBoundsOn(a: map<nat, Receiver>, b: map<nat, Receiver>, c: map<nat, Receiver>)
    requires SameBounds(a, b) && SameBounds(b, c)
    ensures SameBounds(a, c)
  {
  }

  /** The same handles with the same queues. */
  ghost predicate SameQueues(before: map<nat, Receiver>, after: map<nat, Receiver>) {
    SameBounds(before, after) && forall k :: k in after ==> after[k].queue == before[k].queue
  }

  lemma SameQueuesSelf(a: map<nat, Receiver>)
    ensures SameQueues(a, a)
  {
  }

  lemma SameQueuesArmed(a: map<nat, Receiver>, k: nat, id: nat)
    requires k in a
    ensures SameQueues(a, a[k := Armed(a[k], id)])
  {
  }

  lemma SameQueuesOn(a: map<nat, Receiver>, b: map<nat, Receiver>, c: map<nat, Receiver>)
    requires SameQueues(a, b) && SameQueues(b, c)
    ensures SameQueues(a, c)
  {
  }

  /** The queue has no room for `n` more events. */
  ghost predicate Overrun(receivers: map<nat, Receiver>, k: nat, n: int) {
    k in receivers && |receivers[k].queue| + n > receivers[k].capacity
  }

  /** Whoever is in `live` but not in `left` had a full queue, unless there was no room at all. */
  ghost predicate Forced(live: set<nat>, left: set<nat>, receivers: map<nat, Receiver>, exhausted: bool) {
    forall k :: k in live && k !in left ==>
      exhausted || (k in receivers && |receivers[k].queue| == receivers[k].capacity)
  }

  lemma OverrunSame(start: map<nat, Receiver>, logged: map<nat, Receiver>, n: int)
    requires SameQueues(start, logged)
    ensures forall k :: Overrun(logged, k, n) ==> Overrun(start, k, n)
  {
  }

  lemma ForcedNone(live: set<nat>, receivers: map<nat, Receiver>, exhausted: bool)
    ensures Forced(live, live, receivers, exhausted)
  {
  }

  lemma ForcedMore(live: set<nat>, left: set<nat>, receivers: map<nat, Receiver>, exhausted: bool, more: bool)
    requires Forced(live, left, receivers, exhausted) && (exhausted ==> more)
    ensures Forced(live, left, receivers, more)
  {
  }

  /**
   * Nobody joins, the handles and their bounds stay, and whoever stops being live had a queue without room
   * for `n` more events, unless there is an excuse.
   */
  ghost predicate Cuts(live: set<nat>, receivers: map<nat, Receiver>, live': set<nat>, receivers': map<nat, Receiver>,
                       n: int, excused: bool)
  {
    && live' <= live && SameBounds(receivers, receivers')
    && forall k :: k in live && k !in live' ==> Overrun(receivers, k, n) || excused
  }

  /**
   * The cuts of two deliveries, the second one only if `n` is 2: a queue that took one event and was full
   * for the next had room for one only.
   */
  lemma AllForced(live: set<nat>, left: set<nat>, now: set<nat>, history: map<nat, Subscription>, cursor: nat,
                  start: map<nat, Receiver>, offered: map<nat, Receiver>, receivers: map<nat, Receiver>, n: int,
                  exhausted: bool)
    requires Forced(live, left, start, exhausted) && (n == 1 ==> left == now) && 1 <= n <= 2
    requires Forced(left, now, offered, exhausted) && now <= left <= live
    requires AllAt(live, cursor, history, start) && AllAt(left, cursor + 1, history, offered)
    requires SameBounds(start, offered) && SameBounds(offered, receivers)
    ensures Cuts(live, start, now, receivers, n, exhausted)
  {
    SameBoundsOn(start, offered, receivers);
  }

  lemma ForcedTwice(live: set<nat>, left: set<nat>, now: set<nat>, history: map<nat, Subscription>, cursor: nat,
                    start: map<nat, Receiver>, offered: map<nat, Receiver>, receivers: map<nat, Receiver>, n: int,
                    early: bool, exhausted: bool)
    requires Forced(live, left, start, early) && (early ==> exhausted) && (n == 1 ==> left == now) && 1 <= n <= 2
    requires Forced(left, now, offered, exhausted) && now <= left <= live
    requires AllAt(live, cursor, history, start) && AllAt(left, cursor + 1, history, offered)
    requires SameBounds(start, offered) && SameBounds(offered, receivers)
    ensures Cuts(live, start, now, receivers, n, exhausted)
  {
    hide *;
    ForcedMore(live, left, start, early, exhausted);
    AllForced(live, left, now, history, cursor, start, offered, receivers, n, exhausted);
  }

  lemma CutsNone(live: set<nat>, receivers: map<nat, Receiver>, n: int, excused: bool)
    ensures Cuts(live, receivers, live, receivers, n, excused)
  {
  }

  /** A reservation that leaves the queues alone. */
  lemma CutsQueues(live: set<nat>, receivers: map<nat, Receiver>, live': set<nat>, receivers': map<nat, Receiver>,
                   excused: bool)
    requires live' <= live && (!excused ==> live' == live) && SameQueues(receivers, receivers')
    ensures Cuts(live, receivers, live', receivers', 0, excused)
  {
  }

  lemma CutsExcused(live: set<nat>, receivers: map<nat, Receiver>, live': set<nat>, receivers': map<nat, Receiver>,
                    n: int, excused: bool, more: bool)
    requires Cuts(live, receivers, live', receivers', n, excused) && (excused ==> more)
    ensures Cuts(live, receivers, live', receivers', n, more)
  {
  }

  /**
   * The cuts of two stages that publish `n` and then `m` events: a queue that took the events of the first
   * and had no room for those of the second had no room for all of them.
   */
  lemma CutsOn(live0: set<nat>, receivers0: map<nat, Receiver>, live1: set<nat>, receivers1: map<nat, Receiver>,
               live2: set<nat>, receivers2: map<nat, Receiver>, history: map<nat, Subscription>, cursor: nat, n: nat,
               m: nat,
               excused: bool)
    requires Cuts(live0, receivers0, live1, receivers1, n, excused)
             && Cuts(live1, receivers1, live2, receivers2, m, excused)
    requires AllAt(live0, cursor, history, receivers0) && AllAt(live1, cursor + n, history, receivers1)
    ensures Cuts(live0, receivers0, live2, receivers2, n + m, excused)
  {
    SameBoundsOn(receivers0, receivers1, receivers2);
    forall k | k in live0 && k !in live2
      ensures Overrun(receivers0, k, n + m) || excused
    {
      if k !in live1 {
        assert Overrun(receivers0, k, n) || excused;
      } else {
        assert Overrun(receivers1, k, m) || excused;
      }
    }
  }

  /** The cuts of a delivery after a stage that left the queues alone and cut nobody without excuse. */
  lemma CutsAfter(live: set<nat>, start: map<nat, Receiver>, kept: set<nat>, between: map<nat, Receiver>, now: set<nat>,
                  receivers: map<nat, Receiver>, n: int, excused: bool)
    requires SameQueues(start, between) && kept <= live && (kept != live ==> excused)
    requires Cuts(kept, between, now, receivers, n, excused)
    ensures Cuts(live, start, now, receivers, n, excused)
  {
    OverrunSame(start, between, n);
    SameBoundsOn(start, between, receivers);
  }

  /** Some event published after the first `from` needs more than `room`. */
  ghost predicate SomeTight(log: seq<Event>, from: nat, room: int, sizing: Sizing) {
    exists i :: from <= i < |log| && room < sizing.event(log[i])
  }

  lemma StillTight(log: seq<Event>, longer: seq<Event>, from: nat, later: nat, room: int, less: int, sizing: Sizing)
    requires log <= longer && from <= later && less <= room
    ensures SomeTight(log, later, room, sizing) ==> SomeTight(longer, from, less, sizing)
  {
    if SomeTight(log, later, room, sizing) {
      var i :| later <= i < |log| && room < sizing.event(log[i]);
      assert longer[i] == log[i];
    }
  }

  /** What subscriptions were given is never taken back, replaced or reordered; a notice is the last thing given. */
  ghost predicate Grown(before: map<nat, Subscription>, after: map<nat, Subscription>) {
    forall k :: k in before ==> k in after && GrownOne(before[k], after[k])
  }

  ghost predicate GrownOne(before: Subscription, after: Subscription) {
    && after.base == before.base && after.accepted == before.accepted && after.replay == before.replay
    && before.consumed <= after.consumed && before.received <= after.received && before.notices <= after.notices
    && (before.notices != [] ==> after.received == before.received && after.notices == before.notices)
  }

  lemma GrownSelf(a: map<nat, Subscription>)
    ensures Grown(a, a)
  {
  }

  lemma GrownOn(a: map<nat, Subscription>, b: map<nat, Subscription>, c: map<nat, Subscription>)
    requires Grown(a, b) && Grown(b, c)
    ensures Grown(a, c)
  {
  }

  lemma GrownAt(a: map<nat, Subscription>, k: nat, h: Subscription)
    requires k in a ==> GrownOne(a[k], h)
    ensures Grown(a, a[k := h])
  {
  }

  lemma FullSame(a: map<nat, Receiver>, b: map<nat, Receiver>, k: nat)
    requires Lookup(a, k) == Lookup(b, k)
    ensures Full(a, k) <==> Full(b, k)
  {
  }

  ghost predicate Full(receivers: map<nat, Receiver>, k: nat) {
    k in receivers && |receivers[k].queue| == receivers[k].capacity
  }

  lemma FullIs(receivers: map<nat, Receiver>, k: nat)
    ensures Full(receivers, k) <==> k in receivers && |receivers[k].queue| == receivers[k].capacity
  {
  }

  /** The bytes of `n` copies. */
  function Copies(n: nat, bytes: nat): nat {
    if n == 0 then 0 else Copies(n - 1, bytes) + bytes
  }

  lemma NoCopies(bytes: nat)
    ensures Copies(0, bytes) == 0
  {
  }

  lemma CopiesMore(n: nat, bytes: nat)
    ensures Copies(n + 1, bytes) == Copies(n, bytes) + bytes
  {
  }

  /** None of these queues is full. */
  ghost predicate Open(s: set<nat>, receivers: map<nat, Receiver>) {
    forall k :: k in s ==> !Full(receivers, k)
  }

  lemma NotFullSame(a: map<nat, Receiver>, b: map<nat, Receiver>, s: set<nat>)
    requires SameQueues(a, b) && Open(s, a)
    ensures Open(s, b)
  {
  }

  // ---- what is at stake ----

  const QUEUE_FULL := "live queue full"

  /** The record of a delivery of `envelope` that failed. */
  function FailureOf(k: nat, envelope: Event): Failure {
    Failure(k, Event(envelope.id, envelope.runtimeEpoch, envelope.occurredAt, None, None, SnapshotRequired(QUEUE_FULL)))
  }

  function RecordBytes(envelope: Event, sizing: Sizing): nat {
    FailureSize(sizing)(FailureOf(0, envelope))
  }

  /** What delivering the event to `n` subscribers may add: a copy or a record for each of them. */
  function DispatchCost(n: nat, event: Event, sizing: Sizing): nat {
    Copies(n, sizing.event(event)) + Copies(n, RecordBytes(event, sizing))
  }

  /** What publishing the events to `n` subscribers may ask of the ledger, beside the history that can be given up. */
  function Costs(n: nat, events: seq<Event>, sizing: Sizing): nat {
    if events == [] then 0
    else Costs(n, events[..|events| - 1], sizing)
         + sizing.event(events[|events| - 1]) + DispatchCost(n, events[|events| - 1], sizing)
  }

  lemma CostsOfOne(n: nat, event: Event, sizing: Sizing)
    ensures Costs(n, [event], sizing) == sizing.event(event) + DispatchCost(n, event, sizing)
  {
    hide DispatchCost;
    CostsPush(n, [], event, sizing);
    assert [] + [event] == [event];
  }

  lemma CostsOfTwo(n: nat, first: Event, second: Event, sizing: Sizing)
    ensures Costs(n, [first, second], sizing) ==
            sizing.event(first) + DispatchCost(n, first, sizing)
            + sizing.event(second) + DispatchCost(n, second, sizing)
  {
    hide DispatchCost, Costs;
    CostsOfOne(n, first, sizing);
    CostsPush(n, [first], second, sizing);
    assert [first] + [second] == [first, second];
  }

  lemma CostsPush(n: nat, events: seq<Event>, event: Event, sizing: Sizing)
    ensures Costs(n, events + [event], sizing) ==
            Costs(n, events, sizing) + sizing.event(event) + DispatchCost(n, event, sizing)
  {
    assert (events + [event])[..|events|] == events;
  }

  lemma {:induction false} CopiesUpTo(m: nat, n: nat, bytes: nat)
    requires m <= n
    ensures Copies(m, bytes) <= Copies(n, bytes)
  {
    if m < n {
      CopiesUpTo(m, n - 1, bytes);
    }
  }

  lemma DispatchUpTo(m: nat, n: nat, event: Event, sizing: Sizing)
    requires m <= n
    ensures DispatchCost(m, event, sizing) <= DispatchCost(n, event, sizing)
  {
    CopiesUpTo(m, n, sizing.event(event));
    CopiesUpTo(m, n, RecordBytes(event, sizing));
  }

  /** Later events go to the subscribers that are left. */
  lemma {:induction false} CostsOn(n: nat, m: nat, first: seq<Event>, second: seq<Event>, sizing: Sizing)
    requires m <= n
    ensures Costs(n, first, sizing) + Costs(m, second, sizing) <= Costs(n, first + second, sizing)
  {
    if second == [] {
      assert first + second == first;
    } else {
      var last := |second| - 1;
      CostsOn(n, m, first, second[..last], sizing);
      DispatchUpTo(m, n, second[last], sizing);
      assert first + second == first + second[..last] + [second[last]];
      assert second == second[..last] + [second[last]];
      CostsPush(n, first + second[..last], second[last], sizing);
    }
  }

  /**
   * The hub between two stages of one call, as far as failure records are concerned. `firm` is all that
   * replay history could not make room for by going away: the records, what cannot be reclaimed, the sessions.
   */
  datatype Books = Books(limit: nat, events: nat, kept: nat, records: nat, live: nat, lost: set<nat>,
                         fates: map<nat, Fate>, firm: int)

  /**
   * From one stage to another, at a cost of `need`: a record is given up unread only if all the replay
   * history of the start is gone and the limit has no room for the need beside the firm part, or if the
   * records beside those of the subscriptions that ended are more than their count ceiling.
   */
  ghost predicate Loses(a: Books, b: Books, need: int) {
    && 0 <= need && a.limit == b.limit && a.events <= b.events && b.kept <= a.kept + b.events - a.events
    && b.live <= a.live && b.records + b.live <= a.records + a.live
    && b.firm <= a.firm + need && a.lost <= b.lost
    && (b.lost != a.lost ==>
          || (b.kept <= b.events - a.events && a.limit < a.firm + need)
          || a.records + a.live - b.live > 512)
  }

  /** Room for the need and for all records: nobody's record is given up. */
  lemma LosesNothing(a: Books, b: Books, need: int)
    requires Loses(a, b, need) && a.firm + need <= a.limit && a.records + a.live <= 512
    ensures b.lost == a.lost
  {
  }

  // ---- why a subscription ended ----

  /**
   * Why a subscription stopped being live: it was told through the control lane or through a failure
   * record (both carry the id of the notice), or somebody asked for the end.
   */
  datatype Fate =
    | NoticeArmed(id: nat) | RecordStored(id: nat)
    | Unsubscribed | HandleDropped | CutForLimit | HubDropped
  {
    predicate Told() { NoticeArmed? || RecordStored? }
  }

  /**
   * What the fate means for the stream: an armed notice is still armed as long as the handle exists and
   * it was not handed out, a notice handed out is the one of the fate, and all other fates give none.
   */
  ghost predicate FateOk(fate: Fate, h: Subscription, r: Option<Receiver>) {
    && (fate.Told() ==> forall i :: 0 <= i < |h.notices| ==> h.notices[i].id == fate.id)
    && (!fate.Told() ==> h.notices == [])
    && (r.Some? ==> (r.value.snapshotOnCancel <==> fate.NoticeArmed? && h.notices == []))
    && (r.Some? && r.value.snapshotOnCancel ==> r.value.terminalId == fate.id)
  }

  /** Exactly the accepted subscriptions that are not live have a fate, and the records belong to it. */
  ghost predicate FatesOk(fates: map<nat, Fate>, history: map<nat, Subscription>, subscribers: set<nat>,
                          receivers: map<nat, Receiver>, failures: seq<Failure>)
  {
    && (forall k :: k in fates <==> k in history && history[k].accepted && k !in subscribers)
    && (forall k :: k in fates ==> FateOk(fates[k], history[k], Lookup(receivers, k)))
    && (forall f :: f in failures ==>
          f.subscription in fates && fates[f.subscription] == RecordStored(f.event.id))
  }

  lemma FatesFewer(fates: map<nat, Fate>, history: map<nat, Subscription>, subscribers: set<nat>,
                   receivers: map<nat, Receiver>, failures: seq<Failure>, fewer: seq<Failure>)
    requires FatesOk(fates, history, subscribers, receivers, failures) && forall f :: f in fewer ==> f in failures
    ensures FatesOk(fates, history, subscribers, receivers, fewer)
  {
    hide FateOk;
  }

  lemma FatesSuffix(fates: map<nat, Fate>, history: map<nat, Subscription>, subscribers: set<nat>,
                    receivers: map<nat, Receiver>, failures: seq<Failure>, suffix: seq<Failure>)
    requires FatesOk(fates, history, subscribers, receivers, failures) && IsSuffix(suffix, failures)
    ensures FatesOk(fates, history, subscribers, receivers, suffix)
  {
    hide FateOk;
    FatesFewer(fates, history, subscribers, receivers, failures, suffix);
  }

  /** A live subscription ends: its fate is fixed. */
  lemma FatesEnd(fates: map<nat, Fate>, history: map<nat, Subscription>, subscribers: set<nat>,
                 receivers: map<nat, Receiver>, replays: map<nat, Replay>, failures: seq<Failure>, log: seq<Event>,
                 sizing: Sizing, k: nat, fate: Fate, r: Receiver)
    requires FatesOk(fates, history, subscribers, receivers, failures)
    requires TableOk(history, subscribers, receivers, replays, log, sizing) && k in subscribers
    requires r.snapshotOnCancel <==> fate.NoticeArmed?
    requires fate.NoticeArmed? ==> r.terminalId == fate.id
    ensures k !in fates
    ensures FatesOk(fates[k := fate], history, subscribers - {k}, receivers[k := r], failures)
    ensures forall f: Failure :: f.subscription == k && fate == RecordStored(f.event.id) ==>
              FatesOk(fates[k := fate], history, subscribers - {k}, receivers[k := r], failures + [f])
  {
    hide SubscriptionOk, TableOk;
    TableKeys(history, subscribers, receivers, replays, log, sizing);
    TableOne(k, history, subscribers, receivers, replays, log, sizing);
    LiveIsOpen(history[k], Lookup(receivers, k), Lookup(replays, k), log, sizing);
    forall j | j in fates
      ensures FateOk(fates[k := fate][j], history[j], Lookup(receivers[k := r], j))
    {
      assert FateOk(fates[j], history[j], Lookup(receivers, j));
    }
  }

  lemma LiveIsOpen(h: Subscription, r: Option<Receiver>, p: Option<Replay>, log: seq<Event>, sizing: Sizing)
    requires SubscriptionOk(h, true, r, p, log, sizing)
    ensures h.accepted && h.notices == [] && r.Some? && !r.value.cancelled && !r.value.snapshotOnCancel
  {
  }

  /** The parts of a receiver that the fate speaks about. */
  function Lane(r: Receiver): (bool, nat) {
    (r.snapshotOnCancel, r.terminalId)
  }

  lemma SameLane(a: Receiver, b: Receiver)
    requires a.snapshotOnCancel == b.snapshotOnCancel && a.terminalId == b.terminalId
    ensures Lane(a) == Lane(b)
  {
  }

  /** Steps that touch neither notices nor control lanes keep the fates; a handle may go away. */
  lemma FatesKept(fates: map<nat, Fate>, history: map<nat, Subscription>, subscribers: set<nat>,
                  receivers: map<nat, Receiver>, failures: seq<Failure>, history': map<nat, Subscription>,
                  receivers': map<nat, Receiver>, k: nat)
    requires FatesOk(fates, history, subscribers, receivers, failures)
    requires k in history && k in history' && history' == history[k := history'[k]]
    requires history'[k].accepted == history[k].accepted && history'[k].notices == history[k].notices
    requires forall j :: j != k ==> Lookup(receivers', j) == Lookup(receivers, j)
    requires k in receivers' ==> k in receivers && Lane(receivers'[k]) == Lane(receivers[k])
    ensures FatesOk(fates, history', subscribers, receivers', failures)
  {
    forall j | j in fates
      ensures FateOk(fates[j], history'[j], Lookup(receivers', j))
    {
      assert FateOk(fates[j], history[j], Lookup(receivers, j));
      assert j != k ==> Lookup(receivers', j) == Lookup(receivers, j);
    }
  }

  lemma FatesEnter(fates: map<nat, Fate>, history: map<nat, Subscription>, subscribers: set<nat>,
                   receivers: map<nat, Receiver>, failures: seq<Failure>, k: nat, h: Subscription, r: Receiver)
    requires FatesOk(fates, history, subscribers, receivers, failures) && k !in history
    ensures FatesOk(fates, history[k := h], if h.accepted then subscribers + {k} else subscribers, receivers[k := r],
                    failures)
  {
    hide FateOk;
    forall j | j in fates
      ensures Lookup(receivers[k := r], j) == Lookup(receivers, j) && history[k := h][j] == history[j]
    {
    }
  }

  /** The armed notice is handed out. */
  lemma FatesNotice(fates: map<nat, Fate>, history: map<nat, Subscription>, subscribers: set<nat>,
                    receivers: map<nat, Receiver>, failures: seq<Failure>, k: nat, notice: Event, r: Receiver)
    requires FatesOk(fates, history, subscribers, receivers, failures) && k in history && k in receivers
    requires history[k].accepted && k !in subscribers && history[k].notices == []
    requires receivers[k].snapshotOnCancel && notice.id == receivers[k].terminalId && !r.snapshotOnCancel
    ensures FatesOk(fates, history[k := history[k].(notices := history[k].notices + [notice])], subscribers,
                    receivers[k := r], failures)
  {
    assert k in fates && FateOk(fates[k], history[k], Lookup(receivers, k));
    var history' := history[k := history[k].(notices := history[k].notices + [notice])];
    forall j | j in fates
      ensures FateOk(fates[j], history'[j], Lookup(receivers[k := r], j))
    {
      assert FateOk(fates[j], history[j], Lookup(receivers, j));
    }
  }

  /** A stored record is handed out as the notice. */
  lemma FatesTaken(fates: map<nat, Fate>, history: map<nat, Subscription>, subscribers: set<nat>,
                   receivers: map<nat, Receiver>, failures: seq<Failure>, f: Failure)
    requires FatesOk(fates, history, subscribers, receivers, failures) && f in failures
    ensures f.subscription in history
    ensures FatesOk(fates, history[f.subscription := history[f.subscription].(notices := [f.event])], subscribers,
                    receivers, failures)
  {
    var k := f.subscription;
    assert k in fates;
    var history' := history[k := history[k].(notices := [f.event])];
    forall j | j in fates
      ensures FateOk(fates[j], history'[j], Lookup(receivers, j))
    {
      assert FateOk(fates[j], history[j], Lookup(receivers, j));
    }
  }

  lemma FateOf(fates: map<nat, Fate>, history: map<nat, Subscription>, subscribers: set<nat>,
               receivers: map<nat, Receiver>, failures: seq<Failure>, k: nat)
    requires FatesOk(fates, history, subscribers, receivers, failures)
    ensures k in fates <==> k in history && history[k].accepted && k !in subscribers
    ensures k in fates ==> FateOk(fates[k], history[k], Lookup(receivers, k))
    ensures forall f :: f in failures && f.subscription == k ==> k in fates && fates[k] == RecordStored(f.event.id)
  {
  }

  // ---- failure records that nobody read ----

  /** The subscriptions that have a stored failure record. */
  ghost function Unread(failures: seq<Failure>): set<nat> {
    set f | f in failures :: f.subscription
  }

  /**
   * Where the failure record of a subscription is, as long as its handle exists and it was not handed out:
   * it is stored, or it is lost because it was given up, and never both.
   */
  ghost predicate LostOk(lost: set<nat>, fates: map<nat, Fate>, history: map<nat, Subscription>,
                         receivers: map<nat, Receiver>, failures: seq<Failure>)
  {
    && lost !! Unread(failures)
    && (forall k :: k in lost ==> k in fates && fates[k].RecordStored? && k in history && history[k].notices == [])
    && (forall k ::
          k in fates && fates[k].RecordStored? && k in receivers && k in history && history[k].notices == [] ==>
            k in lost || k in Unread(failures))
  }

  /** Steps that hand out no record and bring no handle back. */
  lemma LostKept(lost: set<nat>, fates: map<nat, Fate>, history: map<nat, Subscription>, receivers: map<nat, Receiver>,
                 failures: seq<Failure>, history': map<nat, Subscription>, receivers': map<nat, Receiver>)
    requires LostOk(lost, fates, history, receivers, failures)
    requires forall k :: k in fates ==> k in history && k in history'
    requires forall k :: k in fates && fates[k].RecordStored? ==> history'[k].notices == history[k].notices
    requires forall k :: k in fates && k in receivers' ==> k in receivers
    ensures LostOk(lost, fates, history', receivers', failures)
  {
  }

  /** A subscription ends without a record. */
  lemma LostEnd(lost: set<nat>, fates: map<nat, Fate>, history: map<nat, Subscription>, receivers: map<nat, Receiver>,
                failures: seq<Failure>, k: nat, fate: Fate, r: Receiver)
    requires LostOk(lost, fates, history, receivers, failures) && k !in fates && !fate.RecordStored? && k in receivers
    ensures LostOk(lost, fates[k := fate], history, receivers[k := r], failures)
  {
  }

  /** A subscription ends with a record. */
  lemma LostStored(lost: set<nat>, fates: map<nat, Fate>, history: map<nat, Subscription>,
                   receivers: map<nat, Receiver>, failures: seq<Failure>, f: Failure, r: Receiver)
    requires LostOk(lost, fates, history, receivers, failures) && f.subscription !in fates
             && f.subscription in receivers
    ensures LostOk(lost, fates[f.subscription := RecordStored(f.event.id)], history, receivers[f.subscription := r],
                   failures + [f])
  {
    assert Unread(failures + [f]) == Unread(failures) + {f.subscription};
  }

  /** The oldest records are given up unread. */
  ghost predicate Discards(failures: seq<Failure>, lost: set<nat>, failures': seq<Failure>, lost': set<nat>) {
    IsSuffix(failures', failures) && lost' == lost + Unread(failures[..|failures| - |failures'|])
  }

  lemma DiscardsNone(failures: seq<Failure>, lost: set<nat>)
    ensures Discards(failures, lost, failures, lost)
  {
    assert Unread([]) == {};
  }

  lemma DiscardsOne(failures: seq<Failure>, lost: set<nat>, failures': seq<Failure>, lost': set<nat>)
    requires Discards(failures, lost, failures', lost') && failures' != []
    ensures Discards(failures, lost, failures'[1..], lost' + {failures'[0].subscription})
  {
    var cut := |failures| - |failures'|;
    assert failures[..cut + 1] == failures[..cut] + [failures'[0]];
    assert Unread(failures[..cut + 1]) == Unread(failures[..cut]) + {failures'[0].subscription};
  }

  lemma DiscardsMean(failures: seq<Failure>, lost: set<nat>, failures': seq<Failure>, lost': set<nat>, sizing: Sizing)
    requires Discards(failures, lost, failures', lost')
    ensures IsSuffix(failures', failures) && |failures'| <= |failures| && lost <= lost'
    ensures |failures'| == |failures| ==> failures' == failures && lost' == lost
    ensures Total(failures', FailureSize(sizing)) <= Total(failures, FailureSize(sizing))
  {
    var cut := |failures| - |failures'|;
    assert failures == failures[..cut] + failures';
    TotalConcat(failures[..cut], failures', FailureSize(sizing));
    if |failures'| == |failures| {
      assert failures[..0] == [];
    }
  }

  lemma LostDiscards(lost: set<nat>, fates: map<nat, Fate>, history: map<nat, Subscription>, subscribers: set<nat>,
                     receivers: map<nat, Receiver>, failures: seq<Failure>, failures': seq<Failure>, lost': set<nat>)
    requires LostOk(lost, fates, history, receivers, failures) && Discards(failures, lost, failures', lost')
    requires FailuresOk(failures, history, receivers, subscribers)
    requires FatesOk(fates, history, subscribers, receivers, failures)
    ensures LostOk(lost', fates, history, receivers, failures')
  {
    hide FateOk;
    var cut := |failures| - |failures'|;
    assert failures == failures[..cut] + failures';
    forall k | k in Unread(failures[..cut])
      ensures k !in Unread(failures') && k in fates && fates[k].RecordStored? && k in history
              && history[k].notices == []
    {
      var i :| 0 <= i < cut && failures[..cut][i].subscription == k;
      assert FailureOk(failures[i], history, receivers, subscribers) && failures[i] in failures;
      forall j | 0 <= j < |failures'| ensures failures'[j].subscription != k {
        assert failures'[j] == failures[cut + j];
      }
    }
    assert Unread(failures) == Unread(failures[..cut]) + Unread(failures');
  }

  lemma DiscardsAll(failures: seq<Failure>, lost: set<nat>, lost': set<nat>)
    requires Discards(failures, lost, [], lost')
    ensures lost' == lost + Unread(failures)
  {
    assert failures[..|failures|] == failures;
  }

  lemma UnreadWithout(failures: seq<Failure>, k: nat)
    ensures Unread(Without(failures, k)) == Unread(failures) - {k}
  {
    forall f ensures f in Without(failures, k) <==> f in failures && f.subscription != k {
      WithoutMembers(failures, k, f);
    }
    forall j ensures j in Unread(Without(failures, k)) <==> j in Unread(failures) - {k} {
      if j in Unread(failures) - {k} {
        var f :| f in failures && f.subscription == j;
        assert f in Without(failures, k);
      }
    }
  }

  lemma FatesKnown(fates: map<nat, Fate>, history: map<nat, Subscription>, subscribers: set<nat>,
                   receivers: map<nat, Receiver>, failures: seq<Failure>)
    requires FatesOk(fates, history, subscribers, receivers, failures)
    ensures forall k :: k in fates ==> k in history
    ensures forall f :: f in failures ==> f.subscription in fates && fates[f.subscription] == RecordStored(f.event.id)
  {
    hide FateOk;
  }

  lemma ArmedFate(fates: map<nat, Fate>, history: map<nat, Subscription>, subscribers: set<nat>,
                  receivers: map<nat, Receiver>, failures: seq<Failure>, k: nat)
    requires FatesOk(fates, history, subscribers, receivers, failures) && k in receivers
             && receivers[k].snapshotOnCancel
    ensures k in fates ==> fates[k].NoticeArmed?
    ensures forall j :: j in fates ==> j in history
  {
    if k in fates {
      assert FateOk(fates[k], history[k], Lookup(receivers, k));
    }
  }

  /** One record leaves, wherever it stood, and is handed out. */
  lemma LostTaken(lost: set<nat>, fates: map<nat, Fate>, history: map<nat, Subscription>, receivers: map<nat, Receiver>,
                  failures: seq<Failure>, rest: seq<Failure>, k: nat, notice: Event)
    requires LostOk(lost, fates, history, receivers, failures) && k in Unread(failures)
    requires Unread(rest) == Unread(failures) - {k}
    ensures LostOk(lost, fates, if k in history then history[k := history[k].(notices := [notice])] else history,
                   receivers, rest)
  {
  }

  lemma LostOf(lost: set<nat>, fates: map<nat, Fate>, history: map<nat, Subscription>, receivers: map<nat, Receiver>,
               failures: seq<Failure>, k: nat)
    requires LostOk(lost, fates, history, receivers, failures)
    ensures k in lost ==> k in fates && fates[k].RecordStored? && k in history && history[k].notices == []
    ensures k in lost ==> forall f :: f in failures ==> f.subscription != k
    ensures k in fates && fates[k].RecordStored? && k in receivers && k in history && history[k].notices == []
            && k !in lost
            ==> exists f :: f in failures && f.subscription == k
  {
    if k in lost {
      forall f | f in failures ensures f.subscription != k {
        assert f.subscription in Unread(failures);
      }
    }
  }

  /** One record is released unread. */
  lemma LostReleased(lost: set<nat>, fates: map<nat, Fate>, history: map<nat, Subscription>, subscribers: set<nat>,
                     receivers: map<nat, Receiver>, failures: seq<Failure>, rest: seq<Failure>, k: nat)
    requires LostOk(lost, fates, history, receivers, failures) && Unread(rest) == Unread(failures) - {k}
    requires FailuresOk(failures, history, receivers, subscribers)
    requires FatesOk(fates, history, subscribers, receivers, failures)
    ensures LostOk(lost + (Unread(failures) * {k}), fates, history, receivers, rest)
  {
    hide FateOk;
    if k in Unread(failures) {
      var f :| f in failures && f.subscription == k;
      var i :| 0 <= i < |failures| && failures[i] == f;
      assert FailureOk(failures[i], history, receivers, subscribers);
    }
  }

  /** Fates are never rewritten, the new ones come with a notice, and it is armed only if there is `tight` room. */
  ghost predicate Served(before: map<nat, Fate>, after: map<nat, Fate>, tight: bool) {
    && (forall k :: k in before ==> k in after && after[k] == before[k])
    && (forall k :: k in after && k !in before ==> after[k].RecordStored? || (after[k].NoticeArmed? && tight))
  }

  lemma ServedSelf(a: map<nat, Fate>, tight: bool)
    ensures Served(a, a, tight)
  {
  }

  lemma ServedOne(a: map<nat, Fate>, k: nat, fate: Fate, tight: bool)
    requires k !in a && (fate.RecordStored? || (fate.NoticeArmed? && tight))
    ensures Served(a, a[k := fate], tight)
  {
  }

  lemma ServedOn(a: map<nat, Fate>, b: map<nat, Fate>, c: map<nat, Fate>, first: bool, second: bool, tight: bool)
    requires Served(a, b, first) && Served(b, c, second) && (first || second ==> tight)
    ensures Served(a, c, tight)
  {
  }

  /** Records are given up, oldest first, only with no replay history kept and with `tight` room. */
  ghost predicate Yields(failures: seq<Failure>, lost: set<nat>, failures': seq<Failure>, lost': set<nat>, kept: nat,
                         tight: bool)
  {
    Discards(failures, lost, failures', lost') && (|failures'| < |failures| ==> kept == 0 && tight)
  }

  lemma YieldsMean(failures: seq<Failure>, lost: set<nat>, failures': seq<Failure>, lost': set<nat>, kept: nat,
                   tight: bool, sizing: Sizing)
    requires Yields(failures, lost, failures', lost', kept, tight)
    ensures Discards(failures, lost, failures', lost') && IsSuffix(failures', failures)
    ensures |failures'| <= |failures| && lost <= lost' && (lost' != lost ==> kept == 0 && tight)
    ensures Total(failures', FailureSize(sizing)) <= Total(failures, FailureSize(sizing))
  {
    DiscardsMean(failures, lost, failures', lost', sizing);
  }

  lemma YieldsMore(failures: seq<Failure>, lost: set<nat>, failures': seq<Failure>, lost': set<nat>, kept: nat,
                   tight: bool, more: bool)
    requires Yields(failures, lost, failures', lost', kept, tight) && (tight ==> more)
    ensures Yields(failures, lost, failures', lost', kept, more)
  {
  }

  /** A reservation, as the books see it. */
  lemma YieldsSpent(failures: seq<Failure>, failures': seq<Failure>, a: Books, b: Books, tight: bool, need: int,
                    armed: bool, sizing: Sizing)
    requires Yields(failures, a.lost, failures', b.lost, b.kept, tight) && (tight ==> a.limit < a.firm + need)
    requires a.records == |failures| && b.records == |failures'| && b.kept <= a.kept && b.live <= a.live
    requires b.limit == a.limit && b.events == a.events && b.firm <= a.firm && 0 <= need
    requires Served(a.fates, b.fates, armed)
    ensures Spent(a, b, need, armed)
  {
    hide Discards, Served;
    YieldsMean(failures, a.lost, failures', b.lost, b.kept, tight, sizing);
  }

  /** One stage of publishing: who is told how, and whose record is given up. */
  ghost predicate Spent(a: Books, b: Books, need: int, tight: bool) {
    Loses(a, b, need) && Served(a.fates, b.fates, tight)
  }

  lemma SpentNone(a: Books, need: nat, tight: bool)
    ensures Spent(a, a, need, tight)
  {
  }

  lemma SpentMore(a: Books, b: Books, need: int, more: int, first: bool, tight: bool)
    requires Spent(a, b, need, first) && need <= more && (first ==> tight)
    ensures Spent(a, b, more, tight)
  {
  }

  lemma SpentOn(a: Books, b: Books, c: Books, need: int, more: int, first: bool, second: bool, tight: bool)
    requires Spent(a, b, need, first) && Spent(b, c, more, second) && (first || second ==> tight)
    ensures Spent(a, c, need + more, tight)
  {
    ServedOn(a.fates, b.fates, c.fates, first, second, tight);
  }

  /** The stage in which the newest event is published and may be kept. */
  lemma SpentPublished(a: Books, b: Books, kept: nat, need: int, tight: bool)
    requires Spent(a, b, need, tight) && 1 <= a.events == b.events && kept <= b.kept + 1
    ensures Spent(a.(events := a.events - 1), b.(kept := kept), need, tight)
  {
  }

  /** A stage that begins with fewer firm bytes. */
  lemma SpentLighter(a: Books, b: Books, c: Books, need: int, tight: bool)
    requires b == a.(firm := b.firm) && b.firm <= a.firm && Spent(b, c, need, tight)
    ensures Spent(a, c, need, tight)
  {
  }

  /** The warning is published after its reservation. */
  lemma SpentLogged(a: Books, b: Books, c: Books, need: int)
    requires Spent(a, b, need, false) && c == b.(events := b.events + 1, kept := c.kept) && c.kept <= b.kept + 1
    ensures Spent(a, c, need, false)
  {
  }

  lemma SpentTrimmed(a: Books, b: Books, kept: nat, need: int, tight: bool)
    requires Spent(a, b, need, tight) && kept <= b.kept
    ensures Spent(a, b.(kept := kept), need, tight)
  {
  }

  /** What was reserved is now owed for. */
  lemma SpentGrown(a: Books, b: Books, firm: int, need: int, tight: bool)
    requires Spent(a, b, need, tight) && firm <= a.firm + need
    ensures Spent(a, b.(firm := firm), need, tight)
  {
  }

  /** A subscription ends with its notice: by a record, or, if there is tight room only, by an armed lane. */
  lemma SpentEnd(a: Books, b: Books, c: Books, k: nat, fate: Fate, need: int, tight: bool)
    requires Spent(a, b, need, tight) && 1 <= b.live && k !in b.fates
    requires c == b.(live := b.live - 1, records := c.records, fates := b.fates[k := fate], firm := c.firm)
    requires c.records <= b.records + 1 && c.firm <= a.firm + need
    requires fate.RecordStored? || (fate.NoticeArmed? && tight)
    ensures Spent(a, c, need, tight)
  {
  }

  /** The count ceiling of the records. */
  lemma SpentCeiling(a: Books, b: Books, c: Books, need: int, tight: bool)
    requires Spent(a, b, need, tight) && c == b.(records := c.records, lost := c.lost, firm := c.firm)
    requires c.records <= b.records && c.firm <= b.firm && b.lost <= c.lost
    requires c.lost != b.lost ==> b.records > 512
    ensures Spent(a, c, need, tight)
  {
  }

  lemma SpentAny(a: Books, b: Books)
    ensures forall need, tight :: Spent(a, b, need, tight) ==> a.lost <= b.lost && Served(a.fates, b.fates, true)
  {
  }

  /** Some event published after the first `from`, or the record of its failed delivery, needs more than `room`. */
  ghost predicate SomeBare(log: seq<Event>, from: nat, room: int, sizing: Sizing) {
    exists i :: from <= i < |log| && (room < sizing.event(log[i]) || room < RecordBytes(log[i], sizing))
  }

  lemma StillBare(log: seq<Event>, longer: seq<Event>, from: nat, later: nat, room: int, less: int, sizing: Sizing)
    requires log <= longer && from <= later && less <= room
    ensures SomeBare(log, later, room, sizing) ==> SomeBare(longer, from, less, sizing)
  {
    hide RecordBytes;
    if SomeBare(log, later, room, sizing) {
      var i :| later <= i < |log| && (room < sizing.event(log[i]) || room < RecordBytes(log[i], sizing));
      assert longer[i] == log[i];
    }
  }

  /** The hub between two stages of one call; `room` is what one event may need when no row is pending. */
  datatype Stage = Stage(log: seq<Event>, live: set<nat>, receivers: map<nat, Receiver>, room: int, books: Books)

  /** What the events published from one stage to the other may ask for. */
  function StageCost(a: Stage, b: Stage, sizing: Sizing): nat {
    if |a.log| <= |b.log| then Costs(|a.live|, b.log[|a.log|..], sizing) else 0
  }

  /**
   * From one stage to another: events are only added, room is only lost, and whoever is cut off had no room
   * in the queue for the added events, unless one of them is too large or `full` excuses it. The events,
   * their copies and records, and `extra` bytes are all that is asked for.
   */
  ghost predicate Trims(a: Stage, b: Stage, sizing: Sizing, full: bool, extra: int) {
    && a.log <= b.log && b.room <= a.room
    && Cuts(a.live, a.receivers, b.live, b.receivers, |b.log| - |a.log|, SomeTight(b.log, |a.log|, b.room, sizing)
            || full)
    && Spent(a.books, b.books, StageCost(a, b, sizing) + extra, SomeBare(b.log, |a.log|, b.room, sizing) || full)
  }

  ghost predicate Level(a: Stage, history: map<nat, Subscription>) {
    AllAt(a.live, |a.log|, history, a.receivers)
  }

  lemma TrimsNone(a: Stage, sizing: Sizing, full: bool)
    ensures Trims(a, a, sizing, full, 0)
  {
  }

  lemma TrimsOn(a: Stage, b: Stage, c: Stage, history: map<nat, Subscription>, sizing: Sizing, first: bool,
                second: bool, extra: int, more: int)
    requires Trims(a, b, sizing, first, extra) && Trims(b, c, sizing, second, more)
    requires Level(a, history) && Level(b, history)
    ensures Trims(a, c, sizing, first || second, extra + more)
  {
    hide Cuts, SomeTight, AllAt, Spent, SomeBare, Costs;
    CutsStages(a, b, c, history, sizing, first, second);
    var bare := SomeBare(c.log, |a.log|, c.room, sizing) || first || second;
    StillBare(b.log, c.log, |a.log|, |a.log|, b.room, c.room, sizing);
    StillBare(c.log, c.log, |a.log|, |b.log|, c.room, c.room, sizing);
    SpentOn(a.books, b.books, c.books, StageCost(a, b, sizing) + extra, StageCost(b, c, sizing) + more,
            SomeBare(b.log, |a.log|, b.room, sizing) || first, SomeBare(c.log, |b.log|, c.room, sizing) || second,
            bare);
    LiveLess(a, b, sizing, first, extra);
    CostsOn(|a.live|, |b.live|, b.log[|a.log|..], c.log[|b.log|..], sizing);
    assert c.log[|a.log|..] == b.log[|a.log|..] + c.log[|b.log|..];
    SpentMore(a.books, c.books, StageCost(a, b, sizing) + extra + (StageCost(b, c, sizing) + more),
              StageCost(a, c, sizing) + (extra + more), bare, bare);
  }

  lemma TrimsMore(a: Stage, b: Stage, sizing: Sizing, full: bool, more: bool, extra: int)
    requires Trims(a, b, sizing, full, extra) && (full ==> more)
    ensures Trims(a, b, sizing, more, extra)
  {
    hide Cuts, SomeTight, SomeBare, Spent, StageCost;
    CutsExcused(a.live, a.receivers, b.live, b.receivers, |b.log| - |a.log|,
                SomeTight(b.log, |a.log|, b.room, sizing) || full, SomeTight(b.log, |a.log|, b.room, sizing) || more);
    SpentMore(a.books, b.books, StageCost(a, b, sizing) + extra, StageCost(a, b, sizing) + extra,
              SomeBare(b.log, |a.log|, b.room, sizing) || full, SomeBare(b.log, |a.log|, b.room, sizing) || more);
  }

  lemma LiveLess(a: Stage, b: Stage, sizing: Sizing, full: bool, extra: int)
    requires Trims(a, b, sizing, full, extra)
    ensures |b.live| <= |a.live|
  {
    hide SomeTight, SomeBare, Spent;
    assert a.live == b.live + (a.live - b.live);
  }

  lemma CutsStages(a: Stage, b: Stage, c: Stage, history: map<nat, Subscription>, sizing: Sizing, first: bool,
                   second: bool)
    requires a.log <= b.log <= c.log && c.room <= b.room && Level(a, history) && Level(b, history)
    requires Cuts(a.live, a.receivers, b.live, b.receivers, |b.log| - |a.log|,
                  SomeTight(b.log, |a.log|, b.room, sizing) || first)
    requires Cuts(b.live, b.receivers, c.live, c.receivers, |c.log| - |b.log|,
                  SomeTight(c.log, |b.log|, c.room, sizing) || second)
    ensures Cuts(a.live, a.receivers, c.live, c.receivers, |c.log| - |a.log|,
                 SomeTight(c.log, |a.log|, c.room, sizing) || first || second)
  {
    hide Cuts, SomeTight, AllAt;
    var excused := SomeTight(c.log, |a.log|, c.room, sizing) || first || second;
    StillTight(b.log, c.log, |a.log|, |a.log|, b.room, c.room, sizing);
    StillTight(c.log, c.log, |a.log|, |b.log|, c.room, c.room, sizing);
    CutsExcused(a.live, a.receivers, b.live, b.receivers, |b.log| - |a.log|,
                SomeTight(b.log, |a.log|, b.room, sizing) || first, excused);
    CutsExcused(b.live, b.receivers, c.live, c.receivers, |c.log| - |b.log|,
                SomeTight(c.log, |b.log|, c.room, sizing) || second, excused);
    CutsOn(a.live, a.receivers, b.live, b.receivers, c.live, c.receivers, history, |a.log|, |b.log| - |a.log|,
           |c.log| - |b.log|, excused);
  }

  // ---- what the cut subscribers learn ----

  /** Every live subscription has a handle. */
  ghost predicate Endable(fates: map<nat, Fate>, history: map<nat, Subscription>, receivers: map<nat, Receiver>) {
    forall k :: k in history && history[k].accepted && k !in fates ==> k in receivers
  }

  /** Whoever got a fate can learn it from the armed lane or from the stored record, unless the record is lost. */
  ghost predicate Informed(before: map<nat, Fate>, fates: map<nat, Fate>, receivers: map<nat, Receiver>,
                           failures: seq<Failure>, lost: set<nat>)
  {
    forall k :: k in fates && k !in before ==>
      && k in receivers
      && (fates[k].NoticeArmed? ==> receivers[k].snapshotOnCancel && receivers[k].terminalId == fates[k].id)
      && (fates[k].RecordStored? ==>
            k in lost || exists f :: f in failures && f.subscription == k && f.event.id == fates[k].id)
  }

  lemma InformedAfter(before: map<nat, Fate>, fates: map<nat, Fate>, history: map<nat, Subscription>,
                      subscribers: set<nat>, receivers: map<nat, Receiver>, was: map<nat, Receiver>,
                      failures: seq<Failure>, lost: set<nat>)
    requires FatesOk(fates, history, subscribers, receivers, failures)
             && LostOk(lost, fates, history, receivers, failures)
    requires Endable(before, history, was) && receivers.Keys == was.Keys
    requires forall k :: k in history && history[k].accepted && k !in before ==> history[k].notices == []
    ensures Informed(before, fates, receivers, failures, lost)
  {
    forall k | k in fates && k !in before
      ensures k in receivers
      ensures fates[k].NoticeArmed? ==> receivers[k].snapshotOnCancel && receivers[k].terminalId == fates[k].id
      ensures fates[k].RecordStored? ==>
                k in lost || exists f :: f in failures && f.subscription == k && f.event.id == fates[k].id
    {
      assert FateOk(fates[k], history[k], Lookup(receivers, k));
      if fates[k].RecordStored? && k !in lost {
        assert k in Unread(failures);
        var f :| f in failures && f.subscription == k;
        assert f.event.id == fates[k].id;
      }
    }
  }

  /** Fates are never rewritten, and the new ones are all `fate`. */
  ghost predicate EndedAs(before: map<nat, Fate>, after: map<nat, Fate>, fate: Fate) {
    && (forall k :: k in before ==> k in after && after[k] == before[k])
    && (forall k :: k in after && k !in before ==> after[k] == fate)
  }

  /** A fate is final, and a subscription that has one receives no further event. */
  ghost predicate Settled(fates: map<nat, Fate>, history: map<nat, Subscription>, fates': map<nat, Fate>,
                          history': map<nat, Subscription>)
  {
    forall k :: k in fates ==>
      && k in fates' && fates'[k] == fates[k]
      && (k in history && k in history' ==> history'[k].received == history[k].received)
  }

  lemma SettledServed(fates: map<nat, Fate>, history: map<nat, Subscription>, fates': map<nat, Fate>, tight: bool)
    requires Served(fates, fates', tight)
    ensures Settled(fates, history, fates', history)
  {
  }

  /** A step that gives nothing to an ended subscription. */
  lemma SettledAt(fates: map<nat, Fate>, history: map<nat, Subscription>, k: nat, h: Subscription)
    requires k in fates && k in history ==> h.received == history[k].received
    ensures Settled(fates, history, fates, history[k := h])
  {
  }

  lemma SettledOn(f0: map<nat, Fate>, h0: map<nat, Subscription>, f1: map<nat, Fate>, h1: map<nat, Subscription>,
                  f2: map<nat, Fate>, h2: map<nat, Subscription>)
    requires Settled(f0, h0, f1, h1) && Settled(f1, h1, f2, h2) && Grown(h0, h1)
    ensures Settled(f0, h0, f2, h2)
  {
  }

  lemma EndedAsSelf(fates: map<nat, Fate>, fate: Fate)
    ensures EndedAs(fates, fates, fate)
  {
  }

  lemma EndedAsMore(before: map<nat, Fate>, after: map<nat, Fate>, k: nat, fate: Fate)
    requires EndedAs(before, after, fate)
    ensures k !in after ==> EndedAs(before, after[k := fate], fate)
  {
  }

  lemma NoFailures(history: map<nat, Subscription>, receivers: map<nat, Receiver>, subscribers: set<nat>)
    ensures FailuresOk([], history, receivers, subscribers)
  {
  }

  lemma AllAtArmed(s: set<nat>, n: nat, history: map<nat, Subscription>, receivers: map<nat, Receiver>, k: nat, id: nat)
    requires AllAt(s, n, history, receivers) && k in receivers
    ensures AllAt(s - {k}, n, history, receivers[k := Armed(receivers[k], id)])
  {
    AllAtExcept(s - {k}, n, history, receivers, receivers[k := Armed(receivers[k], id)], k);
  }

  /** A fresh receiver owes nothing, a fresh replay owes what was reserved for it. */
  lemma EnterBytes(receivers: map<nat, Receiver>, replays: map<nat, Replay>, r: Receiver, p: Replay, k: nat)
    requires r.queuedBytes == 0
    ensures k !in receivers && k !in replays ==>
              TableTotal(receivers[k := r], QueuedBytes, k + 1) + TableTotal(replays[k := p], ReservedBytes, k + 1) ==
              TableTotal(receivers, QueuedBytes, k) + TableTotal(replays, ReservedBytes, k) + p.reserved
  {
    if k !in receivers && k !in replays {
      TableTotalNew(receivers, r, QueuedBytes, k);
      TableTotalNew(replays, p, ReservedBytes, k);
    }
  }

  ghost predicate SlowestOf(k: nat, s: set<nat>, receivers: map<nat, Receiver>) {
    && k in s && k in receivers
    && forall j :: j in s && j in receivers ==> receivers[j].queuedBytes <= receivers[k].queuedBytes
  }
}
