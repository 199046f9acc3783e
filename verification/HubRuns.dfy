/** Runs of the event hub: any calls of any parties, on the hub and on the handles, in any order. */
module HubRuns {
  import opened Wrappers
  import opened Sums
  import opened Capacity
  import opened EventLog
  import opened EventHub

  datatype HubStep =
    | Publish(epoch: Option<Epoch>, at: Time, entityId: Option<string>, entityRevision: Option<nat>, payload: Payload)
    | PushCapture(runtimeEpoch: Epoch, at: Time, row: CaptureRow)
    | FlushCapture(at: Time)
    | FlushDue(at: Time)
    | Subscribe(cursor: nat, queueCapacity: nat, at: Time)
    | Unsubscribe(k: nat)
    | Recv(k: nat, at: Time)
    | DropReceiver(k: nat)
    | Drain(k: nat, accept: Event -> bool)
    | DropReplay(k: nat)
    | TakeFailures
    | TakeFailure(k: nat)
    | ReclaimForLimit(maxBytes: nat)
    | DropHub

  /** Steps of a handle are possible even after the hub is dropped. */
  predicate OfHandle(step: HubStep) {
    step.Recv? || step.DropReceiver? || step.Drain? || step.DropReplay?
  }

  /** All that happened at the hub so far. */
  datatype Story = Story(published: seq<Event>, pushed: seq<Pushed>, history: map<nat, Subscription>,
                         fates: map<nat, Fate>, lost: set<nat>)

  ghost function StoryOf(hub: EventHub): Story
    reads hub
  {
    Story(hub.published, hub.pushed, hub.history, hub.fates, hub.lost)
  }

  /**
   * Nothing published, pushed or delivered is ever undone; a subscription that got its notice or its fate
   * gets nothing further except, once, the notice of that fate; a lost record does not come back.
   */
  ghost predicate Continues(a: Story, b: Story) {
    && a.published <= b.published && a.pushed <= b.pushed && a.lost <= b.lost
    && Grown(a.history, b.history) && Settled(a.fates, a.history, b.fates, b.history)
  }

  lemma ContinuesSelf(a: Story)
    ensures Continues(a, a)
  {
  }

  lemma ContinuesOn(a: Story, b: Story, c: Story)
    requires Continues(a, b) && Continues(b, c)
    ensures Continues(a, c)
  {
    hide Grown, Settled;
    GrownOn(a.history, b.history, c.history);
    SettledOn(a.fates, a.history, b.fates, b.history, c.fates, c.history);
  }

  twostate predicate Advances(hub: EventHub)
    reads hub
  {
    Continues(old(StoryOf(hub)), StoryOf(hub))
  }

  /** The fates a step may bring about, and to whom. */
  predicate MayEnd(step: HubStep, k: nat, fate: Fate) {
    match step
    case Publish(_, _, _, _, _) => fate.Told()
    case PushCapture(_, _, _) => fate.Told()
    case FlushCapture(_) => fate.Told()
    case FlushDue(_) => fate.Told()
    case Unsubscribe(j) => k == j && fate == Fate.Unsubscribed
    case DropReceiver(j) => k == j && fate == HandleDropped
    case ReclaimForLimit(_) => fate == CutForLimit
    case DropHub => fate == HubDropped
    case _ => false
  }

  /** Whose unread failure record a step may give up: anybody's, to make room, or that of a dropped handle. */
  predicate MayLose(step: HubStep, k: nat) {
    match step
    case Publish(_, _, _, _, _) => true
    case PushCapture(_, _, _) => true
    case FlushCapture(_) => true
    case FlushDue(_) => true
    case Subscribe(_, _, _) => true
    case ReclaimForLimit(_) => true
    case DropHub => true
    case DropReceiver(j) => k == j
    case _ => false
  }

  /** Every end and every loss between the two stories is the effect of a step that may have it. */
  ghost predicate Caused(before: Story, after: Story, steps: seq<HubStep>) {
    && (forall k :: k in after.fates && k !in before.fates ==>
          exists i :: 0 <= i < |steps| && MayEnd(steps[i], k, after.fates[k]))
    && (forall k :: k in after.lost && k !in before.lost ==> exists i :: 0 <= i < |steps| && MayLose(steps[i], k))
  }

  lemma CausedNothing(story: Story)
    ensures Caused(story, story, [])
  {
  }

  lemma CausedMore(before: Story, middle: Story, after: Story, steps: seq<HubStep>, step: HubStep)
    requires Caused(before, middle, steps) && Moved(middle.fates, after.fates, step)
             && Lost(middle.lost, after.lost, step)
    ensures Caused(before, after, steps + [step])
  {
    hide MayEnd, MayLose;
    var all := steps + [step];
    assert forall i :: 0 <= i < |steps| ==> all[i] == steps[i];
    assert all[|steps|] == step;
    forall k | k in after.fates && k !in before.fates
      ensures exists i :: 0 <= i < |all| && MayEnd(all[i], k, after.fates[k])
    {
      if k in middle.fates {
        var i :| 0 <= i < |steps| && MayEnd(steps[i], k, middle.fates[k]);
        assert MayEnd(all[i], k, after.fates[k]);
      }
    }
    forall k | k in after.lost && k !in before.lost
      ensures exists i :: 0 <= i < |all| && MayLose(all[i], k)
    {
      if k in middle.lost {
        var i :| 0 <= i < |steps| && MayLose(steps[i], k);
        assert MayLose(all[i], k);
      }
    }
  }

  /** One step moved the fates to `after`, and only as it may. */
  ghost predicate Moved(before: map<nat, Fate>, after: map<nat, Fate>, step: HubStep) {
    && (forall k :: k in before ==> k in after && after[k] == before[k])
    && (forall k :: k in after && k !in before ==> MayEnd(step, k, after[k]))
  }

  /** One step lost records only as it may. */
  ghost predicate Lost(before: set<nat>, after: set<nat>, step: HubStep) {
    before <= after && forall k :: k in after && k !in before ==> MayLose(step, k)
  }

  lemma LostNothing(lost: set<nat>, step: HubStep)
    ensures Lost(lost, lost, step)
  {
  }

  lemma LostForRoom(before: set<nat>, after: set<nat>, step: HubStep)
    requires before <= after
    requires step.Publish? || step.PushCapture? || step.FlushCapture? || step.FlushDue? || step.Subscribe?
             || step.ReclaimForLimit? || step.DropHub?
    ensures Lost(before, after, step)
  {
  }

  lemma LostOwn(lost: set<nat>, unread: set<nat>, k: nat, step: HubStep)
    requires step.DropReceiver? && step.k == k
    ensures Lost(lost, lost + unread * {k}, step)
  {
  }

  lemma MovedNothing(fates: map<nat, Fate>, step: HubStep)
    ensures Moved(fates, fates, step)
  {
  }

  lemma MovedOne(fates: map<nat, Fate>, k: nat, fate: Fate, step: HubStep)
    requires k !in fates && MayEnd(step, k, fate)
    ensures Moved(fates, fates[k := fate], step)
  {
  }

  lemma MovedServed(before: map<nat, Fate>, after: map<nat, Fate>, step: HubStep)
    requires Served(before, after, true) && (step.Publish? || step.PushCapture? || step.FlushCapture? || step.FlushDue?)
    ensures Moved(before, after, step)
  {
  }

  lemma MovedSettles(fates: map<nat, Fate>, history: map<nat, Subscription>, fates': map<nat, Fate>, step: HubStep)
    requires Moved(fates, fates', step)
    ensures Settled(fates, history, fates', history)
  {
  }

  /** Publication in all its forms. */
  method DoPublish(hub: EventHub, step: HubStep)
    requires hub.Valid() && !hub.dropped && (step.Publish? || step.PushCapture? || step.FlushCapture? || step.FlushDue?)
    modifies hub, hub.capacity`events
    ensures hub.Valid() && Advances(hub) && Moved(old(hub.fates), hub.fates, step)
    ensures Lost(old(hub.lost), hub.lost, step)
    ensures Informed(old(hub.fates), hub.fates, hub.receivers, hub.failures, hub.lost)
  {
    hide hub.Valid, hub.Extended, hub.CutsForced, hub.Kept, hub.Clock, hub.Flushes, hub.BatchFull, hub.Due,
         hub.DueMeansOld, hub.SomeStarved, Cuts, hub.Firm, CaptureLog, Costs, Spent, Informed, Lost, Grown, Settled,
         Served, Moved;
    GrownSelf(hub.history);
    match step {
      case Publish(epoch, at, entityId, entityRevision, payload) =>
        var _ := hub.Publish(epoch, at, entityId, entityRevision, payload);
      case PushCapture(runtimeEpoch, at, row) => var _ := hub.PushCapture(runtimeEpoch, at, row);
      case FlushCapture(at) => var _ := hub.FlushCapture(at);
      case FlushDue(at) => var _ := hub.FlushDue(at);
    }
    SpentAny(old(hub.Account()), hub.Account());
    LostForRoom(old(hub.lost), hub.lost, step);
    SettledServed(old(hub.fates), old(hub.history), hub.fates, true);
    MovedServed(old(hub.fates), hub.fates, step);
  }

  /** Subscribing and the ways in which the adapter or the owner ends subscriptions. */
  method DoSubscribe(hub: EventHub, step: HubStep)
    requires hub.Valid() && !hub.dropped
    requires step.Subscribe? || step.Unsubscribe? || step.ReclaimForLimit? || step.DropHub?
    modifies hub, hub.capacity`events
    ensures hub.Valid() && Advances(hub) && Moved(old(hub.fates), hub.fates, step)
    ensures Lost(old(hub.lost), hub.lost, step)
  {
    hide hub.Valid, Continues, Moved, Lost;
    match step {
      case Subscribe(_, _, _) => DoEnroll(hub, step);
      case Unsubscribe(_) => DoUnsubscribe(hub, step);
      case ReclaimForLimit(_) => DoReclaim(hub, step);
      case DropHub => DoDrop(hub, step);
    }
  }

  method DoUnsubscribe(hub: EventHub, step: HubStep)
    requires hub.Valid() && !hub.dropped && step.Unsubscribe?
    modifies hub, hub.capacity`events
    ensures hub.Valid() && Advances(hub) && Moved(old(hub.fates), hub.fates, step)
    ensures Lost(old(hub.lost), hub.lost, step)
  {
    hide hub.Valid, Grown, Settled, Moved, Lost;
    ghost var fates, live := hub.fates, step.k in hub.subscribers;
    GrownSelf(hub.history);
    MovedNothing(fates, step);
    LostNothing(hub.lost, step);
    hub.Unsubscribe(step.k);
    if live {
      MovedOne(fates, step.k, Fate.Unsubscribed, step);
    }
    MovedSettles(fates, hub.history, hub.fates, step);
  }

  method DoReclaim(hub: EventHub, step: HubStep)
    requires hub.Valid() && !hub.dropped && step.ReclaimForLimit?
    modifies hub, hub.capacity`events
    ensures hub.Valid() && Advances(hub) && Moved(old(hub.fates), hub.fates, step)
    ensures Lost(old(hub.lost), hub.lost, step)
  {
    hide hub.Valid, hub.GivenUpFor, IsSuffix, Grown, Settled, Moved, Lost, Discards, EndedAs;
    ghost var fates, failures, lost := hub.fates, hub.failures, hub.lost;
    GrownSelf(hub.history);
    var _ := hub.ReclaimForLimit(step.maxBytes);
    DiscardsMean(failures, lost, hub.failures, hub.lost, hub.sizing);
    LostForRoom(lost, hub.lost, step);
    MovedEnded(fates, hub.fates, CutForLimit, step);
    MovedSettles(fates, hub.history, hub.fates, step);
  }

  method DoDrop(hub: EventHub, step: HubStep)
    requires hub.Valid() && !hub.dropped && step.DropHub?
    modifies hub, hub.capacity`events
    ensures hub.Valid() && Advances(hub) && Moved(old(hub.fates), hub.fates, step)
    ensures Lost(old(hub.lost), hub.lost, step)
  {
    hide hub.Valid, Grown, Settled, Moved, Lost, Unread, EndedAs;
    ghost var fates, lost := hub.fates, hub.lost;
    GrownSelf(hub.history);
    hub.Drop();
    LostForRoom(lost, hub.lost, step);
    MovedEnded(fates, hub.fates, HubDropped, step);
    MovedSettles(fates, hub.history, hub.fates, step);
  }

  method DoEnroll(hub: EventHub, step: HubStep)
    requires hub.Valid() && !hub.dropped && step.Subscribe?
    modifies hub, hub.capacity`events
    ensures hub.Valid() && Advances(hub) && Moved(old(hub.fates), hub.fates, step)
    ensures Lost(old(hub.lost), hub.lost, step)
  {
    hide hub.Valid, Grown, Settled, Moved, Lost, Tail, Started, hub.NoRoom, hub.Exhausted, hub.CopiesFit, hub.Firm,
         hub.Roomy;
    ghost var fates, history, lost := hub.fates, hub.history, hub.lost;
    MovedNothing(fates, step);
    GrownSelf(history);
    MovedSettles(fates, history, fates, step);
    var r := hub.Subscribe(step.cursor, step.queueCapacity, step.at);
    LostForRoom(lost, hub.lost, step);
    if r.Ok? {
      var k := r.value.subscriptionId;
      GrownAt(history, k, hub.history[k]);
      SettledAt(fates, history, k, hub.history[k]);
    }
  }

  lemma MovedEnded(before: map<nat, Fate>, after: map<nat, Fate>, fate: Fate, step: HubStep)
    requires EndedAs(before, after, fate)
    requires (step.ReclaimForLimit? && fate == CutForLimit) || (step.DropHub? && fate == HubDropped)
    ensures Moved(before, after, step)
  {
  }

  /** Any call on the hub itself. */
  method DoHub(hub: EventHub, step: HubStep)
    requires hub.Valid() && !hub.dropped && !OfHandle(step)
    modifies hub, hub.capacity`events
    ensures hub.Valid() && Advances(hub) && Moved(old(hub.fates), hub.fates, step)
    ensures Lost(old(hub.lost), hub.lost, step)
  {
    hide hub.Valid, Grown, Settled, Moved, Lost, Informed;
    MovedNothing(hub.fates, step);
    LostNothing(hub.lost, step);
    match step {
      case TakeFailures => var _ := hub.TakeFailures();
      case TakeFailure(k) => var _ := hub.TakeFailure(k);
      case Publish(_, _, _, _, _) => DoPublish(hub, step);
      case PushCapture(_, _, _) => DoPublish(hub, step);
      case FlushCapture(_) => DoPublish(hub, step);
      case FlushDue(_) => DoPublish(hub, step);
      case Subscribe(_, _, _) => DoSubscribe(hub, step);
      case Unsubscribe(_) => DoSubscribe(hub, step);
      case ReclaimForLimit(_) => DoSubscribe(hub, step);
      case DropHub => DoSubscribe(hub, step);
    }
  }

  lemma HandlesKnown(hub: EventHub)
    requires hub.Valid()
    ensures hub.receivers.Keys <= hub.history.Keys && hub.replays.Keys <= hub.history.Keys
  {
    TableKeys(hub.history, hub.subscribers, hub.receivers, hub.replays, hub.published, hub.sizing);
  }

  /** Any call on a handle, before and after the hub is dropped. */
  method DoHandle(hub: EventHub, step: HubStep)
    requires hub.Valid() && OfHandle(step)
    modifies hub, hub.capacity`events
    ensures hub.Valid() && Advances(hub) && Moved(old(hub.fates), hub.fates, step)
    ensures Lost(old(hub.lost), hub.lost, step)
  {
    hide hub.Valid, Grown, Settled, Moved, Lost, Unread;
    ghost var fates, history := hub.fates, hub.history;
    GrownSelf(history);
    MovedNothing(fates, step);
    LostNothing(hub.lost, step);
    ghost var lost, unread := hub.lost, Unread(hub.failures);
    MovedSettles(fates, history, fates, step);
    match step {
      case Recv(k, at) =>
        if k in hub.receivers {
          HandlesKnown(hub);
          var _ := hub.Recv(k, at);
        }
      case DropReceiver(k) =>
        if k in hub.receivers {
          ghost var live := k in hub.subscribers;
          hub.DropReceiver(k);
          LostOwn(lost, unread, k, step);
          if live {
            MovedOne(fates, k, HandleDropped, step);
          }
          MovedSettles(fates, history, hub.fates, step);
        }
      case Drain(k, accept) =>
        if k in hub.replays {
          HandlesKnown(hub);
          var _, _ := hub.DrainReplay(k, accept);
          GrownAt(history, k, hub.history[k]);
          SettledAt(fates, history, k, hub.history[k]);
        }
      case DropReplay(k) =>
        if k in hub.replays {
          hub.DropReplay(k);
        }
    }
  }

  /**
   * Every run of the hub keeps its invariant, hence exact accounting within the limit; it undoes nothing;
   * and whoever stopped being live during the run, or whose record was lost, owes it to a step that may
   * have that effect.
   */
  method RunHub(hub: EventHub, steps: seq<HubStep>)
    requires hub.Valid()
    modifies hub, hub.capacity`events
    ensures hub.Valid() && hub.capacity.Valid() && Advances(hub)
    ensures Caused(old(StoryOf(hub)), StoryOf(hub), steps)
    ensures steps == [] ==> hub.capacity.events == old(hub.capacity.events)
  {
    hide hub.Valid, Continues, Moved, Lost, Caused;
    ghost var start := StoryOf(hub);
    ContinuesSelf(start);
    CausedNothing(start);
    assert steps[..0] == [];
    for i := 0 to |steps|
      invariant hub.Valid() && Continues(start, StoryOf(hub)) && Caused(start, StoryOf(hub), steps[..i])
      invariant i == 0 ==> hub.capacity.events == old(hub.capacity.events)
    {
      ghost var was := StoryOf(hub);
      ContinuesSelf(was);
      MovedNothing(hub.fates, steps[i]);
      LostNothing(hub.lost, steps[i]);
      if OfHandle(steps[i]) {
        DoHandle(hub, steps[i]);
      } else if !hub.dropped {
        DoHub(hub, steps[i]);
      }
      ContinuesOn(start, was, StoryOf(hub));
      CausedMore(start, was, StoryOf(hub), steps[..i], steps[i]);
      assert steps[..i + 1] == steps[..i] + [steps[i]];
    }
    assert steps[..|steps|] == steps;
    LedgerIsExact(hub);
  }

  lemma LedgerIsExact(hub: EventHub)
    requires hub.Valid()
    ensures hub.capacity.Valid() && hub.capacity.events == hub.Held()
  {
  }

  /** The store moves its own share of the ledger and the limit; the hub does not notice. */
  twostate lemma HubStable(hub: EventHub)
    requires old(hub.Valid()) && unchanged(hub)
    requires hub.capacity.Valid() && hub.capacity.events == old(hub.capacity.events)
    ensures hub.Valid()
  {
    hide hub.SubscriptionsOk, hub.LogOk, hub.CaptureOk, hub.BoundsOk, hub.Synced, WarnedOnce, Numbered;
  }
}
