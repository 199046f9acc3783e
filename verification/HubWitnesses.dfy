/** Concrete inputs on which the event hub does less than its comments suggest. */
module HubWitnesses {
  import opened Wrappers
  import opened Sums
  import opened Capacity
  import opened EventLog
  import opened EventHub
  import opened HubTheorems
  import opened HubRuns

  // ---- the flush clock ----

  /**
   * The clock of the flush is not the age of the batch. A row that is refused while nothing is pending starts
   * the clock at 0; the row that joins at 99 finds it running and is flushed at 100, one millisecond old.
   */
  method EarlyFlush(epoch: Epoch, early: CaptureRow, late: CaptureRow)
    returns (direct: Option<Event>, joined: Option<Event>, flushed: Option<Event>, ghost age: int)
    ensures direct.Some? && direct.value.payload == CaptureRowsAdded([early])
    ensures joined.None? && flushed.Some? && flushed.value.payload == CaptureRowsAdded([late])
    ensures flushed.value.occurredAt == 100 && age == 1
  {
    var ledger := new CapacityLedger(10);
    var hub := new EventHub(8, ledger, Sizing((_: Event) => 1, (_: CaptureRow) => 1));
    hide *;
    direct := RefusedFirst(hub, epoch, early);
    joined, flushed, age := JoinedLate(hub, epoch, late);
  }

  method JoinedLate(hub: EventHub, epoch: Epoch, row: CaptureRow)
    returns (joined: Option<Event>, flushed: Option<Event>, ghost age: int)
    requires hub.Valid() && !hub.dropped && hub.pendingCapture == [] && hub.captureStartedAt == Some(0)
    requires hub.capacity.sessions + hub.HandleBytes() + 2 + hub.sizing.row(row) <= hub.capacity.limit
    modifies hub, hub.capacity
    ensures joined.None? && flushed.Some? && flushed.value.payload == CaptureRowsAdded([row])
    ensures flushed.value.occurredAt == 100 && age == 1
  {
    hide hub.Valid, hub.HandleBytes, hub.Refused, hub.Flushes, hub.Kept, hub.BatchFull, Cuts, Served, CaptureLog;
    RefusedIs(hub, row);
    joined := hub.PushCapture(epoch, 99, row);
    flushed := hub.FlushDue(100);
    age := 100 - hub.joinedAt;
  }

  /** The sessions fill the ledger while the row is pushed, and make room again. */
  method RefusedFirst(hub: EventHub, epoch: Epoch, row: CaptureRow) returns (direct: Option<Event>)
    requires hub.Valid() && !hub.dropped && hub.pendingCapture == [] && hub.captureStartedAt == None
    requires hub.capacity.events == 0
    modifies hub, hub.capacity
    ensures hub.Valid() && !hub.dropped && hub.pendingCapture == [] && hub.captureStartedAt == Some(0)
    ensures hub.capacity.limit == old(hub.capacity.limit) && hub.capacity.sessions == 0 && hub.HandleBytes() == 0
    ensures direct.Some? && direct.value.payload == CaptureRowsAdded([row])
  {
    hide hub.Valid, hub.HandleBytes, hub.Refused, hub.Flushes, hub.Kept, hub.BatchFull, hub.Held, Cuts, Served,
         CaptureLog;
    LedgerIsExact(hub);
    MoveSessions(hub, hub.capacity.limit);
    RefusedIs(hub, row);
    direct := hub.PushCapture(epoch, 0, row);
    LedgerIsExact(hub);
    MoveSessions(hub, 0);
  }

  /** The store moves its share; with nothing in the share of the events, no handle owns a byte. */
  method MoveSessions(hub: EventHub, bytes: nat)
    requires hub.Valid() && bytes <= hub.capacity.limit
    modifies hub.capacity`sessions
    ensures hub.Valid() && hub.capacity.Valid()
    ensures hub.capacity.sessions == bytes || bytes + hub.capacity.events > hub.capacity.limit
    ensures hub.capacity.events == 0 ==> hub.HandleBytes() == 0
  {
    hide hub.Valid, hub.HandleBytes;
    LedgerIsExact(hub);
    var _ := hub.capacity.TrySetSessionBytes(bytes);
    HubStable(hub);
  }

  lemma RefusedIs(hub: EventHub, row: CaptureRow)
    requires hub.pendingCapture == []
    ensures hub.Refused(row) <==>
              hub.capacity.limit < hub.capacity.sessions + hub.HandleBytes() + 2 + hub.sizing.row(row)
    ensures forall epoch :: !hub.Flushes(epoch) && hub.Kept(epoch) == []
  {
    hide hub.HandleBytes;
    assert [] + [row] == [row];
    assert Total([row], hub.sizing.row) == hub.sizing.row(row);
  }

  // ---- a subscriber that is cut off and never learns it ----

  /** Two subscribers, the first of the hub, with room for one event each and nothing to replay. */
  ghost predicate Pair(hub: EventHub)
    reads hub, hub.capacity
  {
    && hub.Valid() && !hub.dropped && hub.pendingCapture == [] && hub.capacity.limit == 50 && hub.capacity.sessions == 0
    && (forall e :: hub.sizing.event(e) == 10) && hub.history.Keys == {1, 2} && hub.nextSubscriptionId == 3
    && hub.receivers.Keys == {1, 2} && hub.replays == map[1 := Replay([], 0), 2 := Replay([], 0)]
    && (forall k :: k in hub.receivers ==> hub.receivers[k].capacity == 1)
    && (forall k :: k in hub.history ==> Unread(hub.history[k]))
  }

  /** Nothing was replayed or received yet. */
  ghost predicate Unread(h: Subscription) {
    h.accepted && h.base == 0 && h.replay == [] && h.received == [] && h.notices == []
  }

  ghost predicate BothFull(hub: EventHub)
    reads hub, hub.capacity
  {
    && Pair(hub) && hub.subscribers == {1, 2} && |hub.published| == 1 && hub.HandleBytes() == 20
    && 1 !in hub.fates && 2 !in hub.fates
  }

  /** Both are cut off with a record, and at least one of the records is not there. */
  ghost predicate BothCut(hub: EventHub)
    reads hub, hub.capacity
  {
    && Pair(hub) && hub.subscribers == {}
    && (forall k :: k in hub.receivers ==>
          && hub.receivers[k].cancelled && !hub.receivers[k].snapshotOnCancel
          && (k in hub.lost || exists f :: f in hub.failures && f.subscription == k))
    && (1 in hub.lost || 2 in hub.lost)
  }

  /**
   * It really happens. The ledger has room for 50 bytes, an event takes 10, a failure record 18. Two
   * subscribers with room for one event each do not read. The second event finds both queues full: the
   * record of the one subscriber is given up for that of the other, and the first one ends without a word.
   */
  method SilentEnd() returns (hub: EventHub, k: nat, record: Option<Event>, polled: Received)
    ensures hub.Valid() && k in hub.receivers && k in hub.lost && k !in hub.subscribers
    ensures record.None? && polled.Ended?
  {
    hub := FullQueues();
    hide *;
    CutBoth(hub);
    k, record, polled := AskBoth(hub);
  }

  /** Whoever has no record gets nothing from the receiver either. */
  method AskBoth(hub: EventHub) returns (k: nat, record: Option<Event>, polled: Received)
    requires BothCut(hub)
    modifies hub, hub.capacity
    ensures hub.Valid() && k in hub.receivers && k in hub.lost && k !in hub.subscribers
    ensures record.None? && polled.Ended?
  {
    hide hub.Valid, Grown, Settled;
    LostUnrecorded(hub);
    k := 1;
    record := hub.TakeFailure(1);
    if record.Some? {
      k := 2;
      record := hub.TakeFailure(2);
    }
    polled := hub.Recv(k, 0);
  }

  lemma LostUnrecorded(hub: EventHub)
    requires hub.Valid()
    ensures forall f :: f in hub.failures ==> f.subscription !in hub.lost
  {
    hide TableOk, FailuresOk, FatesOk;
    forall f | f in hub.failures ensures f.subscription !in hub.lost {
      LostOf(hub.lost, hub.fates, hub.history, hub.receivers, hub.failures, f.subscription);
    }
  }

  method CutBoth(hub: EventHub)
    requires BothFull(hub)
    modifies hub, hub.capacity
    ensures BothCut(hub)
  {
    hide hub.Valid, hub.HandleBytes, hub.SomeStarved, hub.Comfortable, Pair, Learns, Informed;
    ghost var fates := hub.fates;
    PublishPair(hub, "second", Event(2, None, 0, None, None, DomainChange("second")));
    PairBytes(hub);
    NoneLeft(hub);
    NotStarved(hub, 1);
    RecordOnly(hub, fates, 1);
    RecordOnly(hub, fates, 2);
    OneRecord(hub);
    PairOpen(hub);
  }

  /** One publication to a pair. */
  method PublishPair(hub: EventHub, text: string, ghost event: Event)
    requires Pair(hub) && event == Event(|hub.published| + 1, None, 0, None, None, DomainChange(text))
    modifies hub, hub.capacity
    ensures Pair(hub) && hub.history == old(hub.history) && hub.subscribers <= old(hub.subscribers)
    ensures |hub.published| > |old(hub.published)| && hub.HandleBytes() >= old(hub.HandleBytes())
    ensures Served(old(hub.fates), hub.fates, hub.SomeStarved(|old(hub.published)|))
    ensures Informed(old(hub.fates), hub.fates, hub.receivers, hub.failures, hub.lost)
    ensures old(hub.Comfortable(event, 0)) ==>
              |hub.published| == |old(hub.published)| + 1 && hub.subscribers == old(hub.subscribers)
  {
    hide hub.Valid, hub.HandleBytes, hub.Comfortable, hub.SomeStarved, hub.SomeExhausted, hub.Secure, hub.Firm, Costs,
         Loses, Informed, Overrun, Served, hub.Extended;
    var _ := hub.Publish(None, 0, None, None, DomainChange(text));
  }

  lemma PairOpen(hub: EventHub)
    requires Pair(hub)
    ensures hub.Valid() && hub.receivers.Keys == {1, 2} == hub.history.Keys
    ensures forall k :: k in hub.history ==> Unread(hub.history[k])
  {
  }

  /** What the queues of a pair are charged with. */
  lemma PairBytes(hub: EventHub)
    requires Pair(hub)
    ensures hub.receivers.Keys == {1, 2}
    ensures forall k :: k in hub.receivers ==>
              |hub.receivers[k].queue| <= 1 && hub.receivers[k].queuedBytes == 10 * |hub.receivers[k].queue|
    ensures hub.HandleBytes() == hub.receivers[1].queuedBytes + hub.receivers[2].queuedBytes
    ensures hub.HandleBytes() <= 20
  {
    hide hub.LogOk, hub.CaptureOk, hub.BoundsOk, hub.Synced, TableOk, FailuresOk, FatesOk, LostOk, TableTotal;
    forall k | k in hub.receivers
      ensures |hub.receivers[k].queue| <= 1 && hub.receivers[k].queuedBytes == 10 * |hub.receivers[k].queue|
    {
      hub.ReceiverFacts(k);
      var queue := hub.receivers[k].queue;
      assert queue != [] ==> queue[1..] == [];
    }
    TwoEntries(hub.receivers, QueuedBytes);
    TwoEntries(hub.replays, ReservedBytes);
  }

  lemma TwoEntries<T>(m: map<nat, T>, size: T -> nat)
    requires m.Keys == {1, 2}
    ensures TableTotal(m, size, 3) == size(m[1]) + size(m[2])
  {
    assert TableTotal(m, size, 1) == 0;
    assert TableTotal(m, size, 2) == size(m[1]);
  }

  /** A live subscriber would have to queue more events than it has room for. */
  lemma NoneLeft(hub: EventHub)
    requires Pair(hub) && |hub.published| >= 2 && hub.subscribers <= {1, 2}
    ensures hub.subscribers == {}
  {
    hide hub.Valid, hub.HandleBytes;
    PairBytes(hub);
    forall k | k in hub.subscribers ensures false {
      LiveHasNoGap(hub, k);
    }
  }

  lemma NotStarved(hub: EventHub, from: nat)
    requires Pair(hub)
    ensures !hub.SomeStarved(from)
  {
    hide hub.Valid, hub.HandleBytes;
    PairBytes(hub);
  }

  /** Whoever was cut off while the ledger had room for a record was given one. */
  lemma RecordOnly(hub: EventHub, before: map<nat, Fate>, k: nat)
    requires Pair(hub) && hub.subscribers == {} && k in hub.receivers && k !in before
    requires Served(before, hub.fates, false) && Informed(before, hub.fates, hub.receivers, hub.failures, hub.lost)
    ensures hub.receivers[k].cancelled && !hub.receivers[k].snapshotOnCancel
    ensures k in hub.lost || exists f :: f in hub.failures && f.subscription == k
  {
    hide hub.LogOk, hub.CaptureOk, hub.BoundsOk, hub.Synced, hub.HandleBytes, TableOk, FailuresOk, FatesOk, LostOk,
         Learns, Segment;
    EndedHasCause(hub, k);
    TableOne(k, hub.history, hub.subscribers, hub.receivers, hub.replays, hub.published, hub.sizing);
  }

  /** Two records beside two full queues would exceed the limit. */
  lemma OneRecord(hub: EventHub)
    requires Pair(hub) && hub.HandleBytes() == 20
    requires forall k :: k in {1, 2} ==> k in hub.lost || exists f :: f in hub.failures && f.subscription == k
    ensures 1 in hub.lost || 2 in hub.lost
  {
    hide hub.SubscriptionsOk, hub.LogOk, hub.CaptureOk, hub.BoundsOk, hub.Synced, hub.HandleBytes, Total;
    if 1 !in hub.lost && 2 !in hub.lost {
      var f :| f in hub.failures && f.subscription == 1;
      var g :| g in hub.failures && g.subscription == 2;
      var i :| 0 <= i < |hub.failures| && hub.failures[i] == f;
      var j :| 0 <= j < |hub.failures| && hub.failures[j] == g;
      if i < j {
        TotalCoversTwo(hub.failures, i, j, FailureSize(hub.sizing));
      } else {
        TotalCoversTwo(hub.failures, j, i, FailureSize(hub.sizing));
      }
      assert false;
    }
  }

  method FullQueues() returns (hub: EventHub)
    ensures fresh(hub) && fresh(hub.capacity) && BothFull(hub)
  {
    var ledger := new CapacityLedger(50);
    hub := new EventHub(8, ledger, Sizing((_: Event) => 10, (_: CaptureRow) => 1));
    hide *;
    FillTwo(hub);
  }

  method FillTwo(hub: EventHub)
    requires hub.Valid() && !hub.dropped && hub.published == [] && hub.retained == [] && hub.failures == []
    requires hub.subscribers == {} && hub.nextSubscriptionId == 1 && hub.pendingCapture == []
    requires hub.history == map[] && hub.receivers == map[] && hub.replays == map[]
    requires hub.capacity.limit == 50 && hub.capacity.sessions == 0 && hub.replayCapacity == 8
    requires forall e :: hub.sizing.event(e) == 10
    modifies hub, hub.capacity
    ensures BothFull(hub)
  {
    hide hub.Valid;
    Join(hub, 1);
    Join(hub, 2);
    Fill(hub);
  }

  /** A subscription from the start of an empty log. */
  method Join(hub: EventHub, k: nat)
    requires hub.Valid() && !hub.dropped && hub.published == [] && hub.retained == [] && hub.failures == []
    requires |hub.subscribers| < MAX_SUBSCRIBERS && hub.nextSubscriptionId == k
    modifies hub, hub.capacity`events
    ensures hub.Valid() && !hub.dropped && hub.published == [] && hub.retained == [] && hub.failures == []
    ensures hub.nextSubscriptionId == k + 1 && hub.subscribers == old(hub.subscribers) + {k}
    ensures hub.pendingCapture == old(hub.pendingCapture)
    ensures hub.history == old(hub.history)[k := hub.history[k]] && k in hub.history && Unread(hub.history[k])
    ensures hub.receivers == old(hub.receivers)[k := Receiver([], 1, 0, false, false, 0)]
    ensures hub.replays == old(hub.replays)[k := Replay([], 0)]
  {
    hide hub.Valid;
    NothingToCopy(hub);
    var r := hub.Subscribe(0, 1, 0);
    match r {
      case Ok(_) =>
      case Err(TooManySubscribers) => assert false;
      case Err(CapacityExhausted) => assert false;
    }
  }

  lemma NothingToCopy(hub: EventHub)
    requires hub.Valid() && hub.published == []
    ensures hub.CopiesFit(0) && Tail(hub.published, 0) == []
  {
    hide hub.SubscriptionsOk, hub.LogOk, hub.CaptureOk, hub.BoundsOk, hub.Synced;
  }

  method Fill(hub: EventHub)
    requires Pair(hub) && hub.published == [] && hub.retained == [] && hub.failures == [] && hub.subscribers == {1, 2}
    requires hub.replayCapacity == 8 && forall k :: k in hub.receivers ==> hub.receivers[k].queue == []
    modifies hub, hub.capacity
    ensures BothFull(hub)
  {
    hide hub.Valid, hub.HandleBytes, hub.SomeStarved, hub.Comfortable, Pair, Informed, Served;
    ghost var event := Event(1, None, 0, None, None, DomainChange("first"));
    RoomForThree(hub, event);
    PublishPair(hub, "first", event);
    QueueOfLive(hub, 1);
    QueueOfLive(hub, 2);
    PairBytes(hub);
  }

  lemma QueueOfLive(hub: EventHub, k: nat)
    requires Pair(hub) && k in hub.subscribers
    ensures k in hub.receivers && |hub.receivers[k].queue| == |hub.published| && k !in hub.fates
  {
    hide hub.Valid, hub.HandleBytes, Learns;
    LiveHasNoGap(hub, k);
    EndedHasCause(hub, k);
    assert Given(hub.history[k]) == [];
  }

  lemma RoomForThree(hub: EventHub, event: Event)
    requires Pair(hub) && hub.retained == [] && hub.failures == [] && hub.subscribers == {1, 2}
    requires hub.replayCapacity == 8 && forall k :: k in hub.receivers ==> hub.receivers[k].queue == []
    ensures hub.Comfortable(event, 0)
  {
    hide hub.SubscriptionsOk, hub.LogOk, hub.CaptureOk, hub.BoundsOk, hub.Synced, hub.HandleBytes;
    PairBytes(hub);
    CopiesMore(0, 10);
    CopiesMore(1, 10);
    CopiesMore(2, 10);
  }

  // ---- replay history that is cut without a word ----

  /**
   * The replay log is cut, and no warning says so. One event fills the ledger. A subscriber that asks for it
   * cannot be given a copy, and the demand for a snapshot takes the place of the event.
   */
  method SilentCut() returns (hub: EventHub)
    ensures hub.Valid() && !hub.dropped && |hub.published| == 1 && hub.retained == []
    ensures hub.replayOverflowed && Unwarned(hub.origins)
  {
    var ledger := new CapacityLedger(10);
    hub := new EventHub(8, ledger, Sizing((_: Event) => 10, (_: CaptureRow) => 1));
    hide *;
    FillLedger(hub);
    CutForSnapshot(hub);
  }

  method FillLedger(hub: EventHub)
    requires hub.Valid() && !hub.dropped && hub.published == [] && hub.retained == [] && hub.failures == []
    requires hub.subscribers == {} && hub.receivers == map[] && hub.replays == map[] && hub.pendingCapture == []
    requires hub.origins == [] && !hub.replayOverflowed && hub.replayCapacity == 8
    requires hub.capacity.limit == 10 && hub.capacity.sessions == 0 && forall e :: hub.sizing.event(e) == 10
    modifies hub, hub.capacity
    ensures hub.Valid() && !hub.dropped && !hub.replayOverflowed && Unwarned(hub.origins)
    ensures |hub.published| == 1 && |hub.retained| == 1 && hub.subscribers == {}
    ensures hub.capacity.limit == 10 && hub.capacity.sessions == 0 && forall e :: hub.sizing.event(e) == 10
  {
    hide hub.Valid, hub.CutsForced, hub.SomeStarved, hub.Secure, Spent, Costs, Informed;
    ghost var event := Event(1, None, 0, None, None, DomainChange("only"));
    RoomForOne(hub, event);
    var _ := hub.Publish(None, 0, None, None, DomainChange("only"));
  }

  lemma RoomForOne(hub: EventHub, event: Event)
    requires hub.Valid() && hub.retained == [] && hub.failures == [] && hub.pendingCapture == []
             && hub.subscribers == {}
    requires hub.receivers == map[] && hub.replays == map[] && hub.replayCapacity == 8
    requires hub.capacity.limit == 10 && hub.capacity.sessions == 0 && forall e :: hub.sizing.event(e) == 10
    ensures hub.Comfortable(event, 0)
  {
    hide hub.SubscriptionsOk, hub.LogOk, hub.CaptureOk, hub.BoundsOk, hub.Synced;
    TableTotalEmpty(hub.receivers, QueuedBytes, hub.nextSubscriptionId);
    TableTotalEmpty(hub.replays, ReservedBytes, hub.nextSubscriptionId);
    CopiesMore(0, 10);
  }

  method CutForSnapshot(hub: EventHub)
    requires hub.Valid() && !hub.dropped && !hub.replayOverflowed && Unwarned(hub.origins)
    requires |hub.published| == 1 && |hub.retained| == 1 && hub.subscribers == {}
    requires hub.capacity.limit == 10 && hub.capacity.sessions == 0 && forall e :: hub.sizing.event(e) == 10
    modifies hub, hub.capacity
    ensures hub.Valid() && !hub.dropped && |hub.published| == 1 && hub.retained == []
    ensures hub.replayOverflowed && Unwarned(hub.origins)
  {
    hide hub.Valid, hub.Enrolled;
    OneEvent(hub);
    var _ := hub.Subscribe(0, 1, 0);
    OverflowMeans(hub);
  }

  lemma OneEvent(hub: EventHub)
    requires hub.Valid() && !hub.dropped && |hub.published| == 1 && |hub.retained| == 1
    requires hub.capacity.limit == 10 && hub.capacity.sessions == 0 && forall e :: hub.sizing.event(e) == 10
    ensures hub.capacity.events == 10 && !hub.CopiesFit(0)
  {
    hide hub.SubscriptionsOk, hub.CaptureOk, hub.Synced, hub.HandleBytes;
    assert hub.retained[1..] == [] && hub.published[1..] == [] && Tail(hub.published, 0) == hub.published;
  }

  lemma OverflowMeans(hub: EventHub)
    requires hub.Valid() && !hub.dropped && hub.replayOverflowed && |hub.published| == 1
    ensures hub.retained == []
  {
    hide hub.SubscriptionsOk, hub.CaptureOk, hub.BoundsOk, hub.Synced, hub.HandleBytes;
  }
}
