/** What the invariant of the event hub means for subscribers, for capture rows and for the ledger. */
module HubTheorems {
  import opened Wrappers
  import opened Sums
  import opened EventLog
  import opened EventHub

  /** All that a subscription was ever handed from its replay and its queue, in order. */
  ghost function Given(h: Subscription): seq<Event> {
    h.replay + h.received
  }

  /** Only callers publish demands for a snapshot: batches hold rows, and the overflow transition warns. */
  lemma DemandsAreCallers(hub: EventHub, i: nat)
    requires hub.Valid() && i < |hub.published|
    ensures |hub.origins| == |hub.published|
    ensures hub.published[i].payload.SnapshotRequired? ==> hub.origins[i] == Caller
  {
    hide hub.Core, hub.LogOk, hub.CaptureOk, WarnedOnce, Numbered;
    assert hub.OriginsOk();
    if hub.origins[i].Overflow? {
      AnnouncesMeans(hub.published[i], hub.published[i - 1]);
    }
  }

  /**
   * The overflow transition warns, right behind the event that brought it about: under the same epoch and time,
   * about no entity, and never with a demand for a snapshot.
   */
  lemma OverflowIsAnnounced(hub: EventHub, i: nat)
    requires hub.Valid() && i < |hub.published|
    ensures |hub.origins| == |hub.published|
    ensures hub.origins[i] == Overflow ==>
              && 0 < i && hub.published[i].payload.ResourceWarning?
              && hub.published[i].runtimeEpoch == hub.published[i - 1].runtimeEpoch
              && hub.published[i].occurredAt == hub.published[i - 1].occurredAt
              && hub.published[i].entityId == None && hub.published[i].entityRevision == None
  {
    hide hub.Core, hub.LogOk, hub.CaptureOk, WarnedOnce, Numbered;
    assert hub.OriginsOk();
    if hub.origins[i].Overflow? {
      AnnouncesMeans(hub.published[i], hub.published[i - 1]);
    }
  }

  /**
   * The stream of an accepted subscription, in every reachable state: replay and received events are the
   * published events after its cursor, each once and in id order, and no demand for a snapshot is among them
   * that no caller published. At most one notice demands a snapshot, it is not older than anything given,
   * and it leaves a cancelled receiver without an armed notice; that nothing is received from then on is part
   * of every run, see `HubRuns.RunHub`. A stored failure record and an armed notice exclude each other and
   * each of them excludes a notice already handed out.
   */
  /** Only a caller publishes the demands for a snapshot among a segment of the published events. */
  lemma GivenDemands(hub: EventHub, base: nat, given: seq<Event>)
    requires hub.Valid() && Segment(hub.published, base, given)
    ensures base + |given| <= |hub.published| == |hub.origins|
    ensures forall i :: 0 <= i < |given| && given[i].payload.SnapshotRequired? ==> hub.origins[base + i] == Caller
  {
    hide hub.Core, hub.LogOk, hub.CaptureOk, WarnedOnce, Numbered;
    assert hub.OriginsOk();
    forall i | 0 <= i < |given|
      ensures given[i].payload.SnapshotRequired? ==> hub.origins[base + i] == Caller
    {
      SegmentAt(hub.published, base, given, i);
      DemandsAreCallers(hub, base + i);
    }
  }

  lemma SubscriptionStream(hub: EventHub, k: nat)
    requires hub.Valid() && k in hub.history && hub.history[k].accepted
    ensures var h := hub.history[k];
            && Segment(hub.published, h.base, Given(h))
            && (forall i :: 0 <= i < |Given(h)| ==> Given(h)[i].id == h.base + 1 + i)
            && h.consumed <= h.replay
            && |hub.origins| == |hub.published|
            && (forall i :: 0 <= i < |Given(h)| && Given(h)[i].payload.SnapshotRequired? ==>
                  hub.origins[h.base + i] == Caller)
    ensures var h := hub.history[k];
            && |h.notices| <= 1
            && (forall i, j :: 0 <= i < |h.notices| && 0 <= j < |Given(h)| ==>
                  h.notices[i].payload.SnapshotRequired? && Given(h)[j].id <= h.notices[i].id)
            && (h.notices != [] && k in hub.receivers ==>
                  k !in hub.subscribers && hub.receivers[k].cancelled && !hub.receivers[k].snapshotOnCancel)
    ensures forall i :: 0 <= i < |hub.failures| && hub.failures[i].subscription == k ==>
              && hub.history[k].notices == [] && k !in hub.subscribers
              && k in hub.receivers && !hub.receivers[k].snapshotOnCancel
  {
    hide TableOk, Total, FailureOk, Segment, Numbered, ReceiverOk;
    var h, r, p := hub.history[k], Lookup(hub.receivers, k), Lookup(hub.replays, k);
    TableOne(k, hub.history, hub.subscribers, hub.receivers, hub.replays, hub.published, hub.sizing);
    SegmentJoin(hub.published, h.base, h.replay, h.received);
    SegmentIds(hub.published, h.base, Given(h));
    GivenDemands(hub, h.base, Given(h));
    if r.Some? {
      NoticeEnds(h, k in hub.subscribers, r.value, hub.sizing);
    }
    forall i | 0 <= i < |hub.failures| && hub.failures[i].subscription == k
      ensures hub.history[k].notices == [] && k !in hub.subscribers
      ensures k in hub.receivers && !hub.receivers[k].snapshotOnCancel
    {
      FailureMeans(hub.failures[i], hub.history, hub.receivers, hub.subscribers);
    }
  }

  /** The subscriber has been told, or will be told by the next poll or by asking for its failure record. */
  ghost predicate Learns(hub: EventHub, k: nat)
    reads hub
  {
    && k in hub.receivers && k in hub.history
    && (hub.history[k].notices != [] || hub.receivers[k].snapshotOnCancel
        || exists f :: f in hub.failures && f.subscription == k)
  }

  /**
   * What an ended subscriber can learn, in every reachable state. An accepted subscription is live or has a
   * fate. As long as its handle exists, it can learn its end exactly if the hub gave it up and its record is
   * not lost: by the notice handed out, by the armed lane or by the stored record, each under the id of the
   * fate. Lost are only records that were stored, with nothing handed out for them. When records may be
   * lost is part of the contracts of the calls, see `Loses`.
   */
  lemma EndedHasCause(hub: EventHub, k: nat)
    requires hub.Valid() && k in hub.history && hub.history[k].accepted
    ensures k in hub.subscribers <==> k !in hub.fates
    ensures k in hub.fates && k in hub.receivers ==> (Learns(hub, k) <==> hub.fates[k].Told() && k !in hub.lost)
    ensures k in hub.lost ==> k in hub.fates && hub.fates[k].RecordStored? && hub.history[k].notices == []
    ensures k in hub.fates ==>
              var fate, notices := hub.fates[k], hub.history[k].notices;
              && (fate.Told() ==> forall i :: 0 <= i < |notices| ==> notices[i].id == fate.id)
              && (fate.NoticeArmed? && notices == [] && k in hub.receivers ==>
                    hub.receivers[k].snapshotOnCancel && hub.receivers[k].terminalId == fate.id)
              && (fate.RecordStored? && notices == [] && k in hub.receivers && k !in hub.lost ==>
                    exists f :: f in hub.failures && f.subscription == k && f.event.id == fate.id)
              && (!fate.NoticeArmed? && k in hub.receivers ==> !hub.receivers[k].snapshotOnCancel)
              && (forall f :: f in hub.failures && f.subscription == k ==> fate == RecordStored(f.event.id))
              && (!fate.Told() ==> notices == [])
  {
    hide TableOk, FailuresOk, FatesOk, LostOk;
    FateOf(hub.fates, hub.history, hub.subscribers, hub.receivers, hub.failures, k);
    LostOf(hub.lost, hub.fates, hub.history, hub.receivers, hub.failures, k);
  }

  /** A live subscription has no gap: given and queued events reach to the newest published event. */
  lemma LiveHasNoGap(hub: EventHub, k: nat)
    requires hub.Valid() && k in hub.subscribers
    ensures k in hub.history && k in hub.receivers
    ensures Given(hub.history[k]) + hub.receivers[k].queue == Tail(hub.published, hub.history[k].base)
  {
    hide TableOk, FailuresOk, FatesOk, LostOk, SubscriptionOk, End;
    TableKeys(hub.history, hub.subscribers, hub.receivers, hub.replays, hub.published, hub.sizing);
    TableOne(k, hub.history, hub.subscribers, hub.receivers, hub.replays, hub.published, hub.sizing);
    GivenToEnd(hub.history[k], hub.receivers[k], Lookup(hub.replays, k), hub.published, hub.sizing);
  }

  lemma GivenToEnd(h: Subscription, r: Receiver, p: Option<Replay>, log: seq<Event>, sizing: Sizing)
    requires SubscriptionOk(h, true, Some(r), p, log, sizing) && End(h, Some(r)) == |log|
    ensures Given(h) + r.queue == Tail(log, h.base)
  {
    hide Total, ReceiverOk;
    SegmentJoin(log, h.base, h.replay, h.received);
    SegmentJoin(log, h.base, Given(h), r.queue);
  }

  lemma SegmentJoin(log: seq<Event>, from: nat, a: seq<Event>, b: seq<Event>)
    requires Segment(log, from, a) && Segment(log, from + |a|, b)
    ensures Segment(log, from, a + b)
  {
  }

  lemma NoticeEnds(h: Subscription, live: bool, r: Receiver, sizing: Sizing)
    requires ReceiverOk(h, live, r, sizing) && h.accepted
    ensures h.notices != [] && !live ==> r.cancelled && !r.snapshotOnCancel
  {
  }

  lemma FailureMeans(f: Failure, history: map<nat, Subscription>, receivers: map<nat, Receiver>, subscribers: set<nat>)
    requires FailureOk(f, history, receivers, subscribers)
    ensures f.subscription in history && f.subscription in receivers && f.subscription !in subscribers
    ensures history[f.subscription].notices == [] && !receivers[f.subscription].snapshotOnCancel
  {
  }

  /**
   * Capture batching loses, invents and reorders nothing: the batches in id order, followed by the rows
   * still pending, are the rows pushed, each with the epoch it was pushed under. Fewer rows than a full
   * batch are pending, and every batch holds at least one row and at most a full batch.
   */
  lemma CaptureComplete(hub: EventHub)
    requires hub.Valid() && !hub.dropped
    ensures |hub.origins| == |hub.published|
    ensures CaptureLog(hub.published, hub.origins) + Tag(hub.pendingCapture, hub.captureEpoch) == hub.pushed
    ensures |hub.pendingCapture| < 200 && (hub.pendingCapture != [] ==> hub.captureEpoch.Some?)
    ensures forall i :: 0 <= i < |hub.origins| && hub.origins[i].Batch? ==> BatchPlaced(hub, i)
  {
    hide hub.Core, hub.LogOk, WarnedOnce, CaptureLog, BatchPlaced;
    forall i | 0 <= i < |hub.origins| && hub.origins[i].Batch?
      ensures BatchPlaced(hub, i)
    {
      BatchIsPlaced(hub, i);
    }
  }

  /** Batch event `i` holds the pushed rows behind those of the batches before it, under its own epoch. */
  ghost predicate BatchPlaced(hub: EventHub, i: nat)
    requires i < |hub.origins| == |hub.published|
    reads hub
  {
    var e := hub.published[i];
    var from := |CaptureLog(hub.published[..i], hub.origins[..i])|;
    && e.payload.CaptureRowsAdded? && e.runtimeEpoch.Some? && 1 <= |e.payload.rows| <= 200
    && from + |e.payload.rows| <= |hub.pushed|
    && forall j :: 0 <= j < |e.payload.rows| ==> hub.pushed[from + j] == Pushed(e.runtimeEpoch.value, e.payload.rows[j])
  }

  lemma BatchIsPlaced(hub: EventHub, i: nat)
    requires hub.Valid() && !hub.dropped && i < |hub.origins| == |hub.published| && hub.origins[i].Batch?
    ensures BatchPlaced(hub, i)
  {
    hide hub.Core, hub.LogOk, WarnedOnce, CaptureLog;
    var e := hub.published[i];
    CaptureLogCut(hub.published, hub.origins, i + 1);
    var before := CaptureLog(hub.published[..i], hub.origins[..i]);
    var upTo := CaptureLog(hub.published[..i + 1], hub.origins[..i + 1]);
    assert hub.published[..i + 1] == hub.published[..i] + [e];
    assert hub.origins[..i + 1] == hub.origins[..i] + [hub.origins[i]];
    CaptureLogPush(hub.published[..i], hub.origins[..i], e, hub.origins[i]);
    assert upTo == before + Tag(e.payload.rows, e.runtimeEpoch);
    assert upTo <= hub.pushed;
    forall j | 0 <= j < |e.payload.rows|
      ensures hub.pushed[|before| + j] == Pushed(e.runtimeEpoch.value, e.payload.rows[j])
    {
      assert hub.pushed[|before| + j] == upTo[|before| + j] == Tag(e.payload.rows, e.runtimeEpoch)[j];
    }
  }

  /** What was batched first stays in front. */
  lemma {:induction false} CaptureLogCut(log: seq<Event>, origins: seq<Origin>, n: nat)
    requires |origins| == |log| && n <= |log|
    ensures CaptureLog(log[..n], origins[..n]) <= CaptureLog(log, origins)
    decreases |log|
  {
    if n == |log| {
      assert log[..n] == log && origins[..n] == origins;
    } else {
      var last := |log| - 1;
      CaptureLogCut(log[..last], origins[..last], n);
      assert log[..last][..n] == log[..n] && origins[..last][..n] == origins[..n];
    }
  }

  /** After the hub and every handle are gone, the ledger carries no event bytes. */
  lemma AllReleased(hub: EventHub)
    requires hub.Valid() && hub.dropped && hub.receivers == map[] && hub.replays == map[]
    ensures hub.capacity.events == 0
  {
    hide TableOk, FailuresOk;
    TableTotalEmpty(hub.receivers, QueuedBytes, hub.nextSubscriptionId);
    TableTotalEmpty(hub.replays, ReservedBytes, hub.nextSubscriptionId);
  }
}
