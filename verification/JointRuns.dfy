/**
 * Runs of the event hub and the session store on one ledger. Before each admission probe of a store call any
 * event steps may run; a hub call is one step, within which the session share does not move.
 */
module JointRuns {
  import opened Wrappers
  import opened Sums
  import opened Capacity
  import opened EventLog
  import opened EventHub
  import opened HubRuns
  import opened SessionModel
  import opened SessionStore

  /** A call; `others` are the event steps that run while a call of the store is under way. */
  datatype Step =
    | Hub(step: HubStep)
    | Upsert(record: SessionRecord, others: seq<seq<HubStep>>)
    | SetLimits(max: nat, maxBytes: nat, others: seq<seq<HubStep>>)
    | ClearCompleted(meanwhile: seq<HubStep>)

  /** Both containers are in order and share the ledger. */
  ghost predicate Joint(hub: EventHub, store: InMemorySessionStore)
    reads hub, hub.capacity, store, store.capacity
  {
    hub.Valid() && store.Valid() && hub.capacity == store.capacity
  }

  /** The ledger is exactly what both containers hold, and that is within the limit. */
  lemma JointSafety(hub: EventHub, store: InMemorySessionStore)
    requires Joint(hub, store)
    ensures hub.capacity.sessions == RecordTotal(store.records) && hub.capacity.events == hub.Held()
    ensures RecordTotal(store.records) + hub.Held() <= hub.capacity.limit
  {
    hide hub.Valid, RecordTotal;
    LedgerIsExact(hub);
  }

  method Do(hub: EventHub, store: InMemorySessionStore, step: Step)
    requires Joint(hub, store)
    modifies hub, store, hub.capacity
    ensures Joint(hub, store) && Advances(hub)
  {
    hide hub.Valid, RecordTotal, Total, Keyed, IsCandidates, Fits, Ids, IdSet, Continues, Caused;
    ContinuesSelf(StoryOf(hub));
    match step {
      case Hub(step) => RunHub(hub, [step]);
      case Upsert(record, others) => var _, _, _ := store.Upsert(record, hub, others);
      case SetLimits(max, maxBytes, others) =>
        if maxBytes < U64_MAX {
          var _, _, _ := store.SetLimits(max, maxBytes, hub, others);
        }
      case ClearCompleted(meanwhile) => var _ := store.ClearCompleted(hub, meanwhile);
    }
  }

  /**
   * Joint capacity safety: after every call of every run, with event steps between the admission probes
   * of an eviction, both containers account exactly for what they hold and stay within the limit
   * together, and no published event, pushed row or delivery is undone.
   */
  method Run(hub: EventHub, store: InMemorySessionStore, steps: seq<Step>)
    requires Joint(hub, store)
    modifies hub, store, hub.capacity
    ensures Joint(hub, store) && Advances(hub)
  {
    hide Joint, Continues;
    ghost var start := StoryOf(hub);
    ContinuesSelf(start);
    for i := 0 to |steps|
      invariant Joint(hub, store) && Advances(hub)
    {
      ghost var was := StoryOf(hub);
      Do(hub, store, steps[i]);
      ContinuesOn(start, was, StoryOf(hub));
    }
  }

  /** Every state a fresh system can reach is in order: the invariants are not assumptions. */
  method FromStart(maxBytes: nat, maxEvents: nat, maxSessions: nat, sizes: Sizing, steps: seq<Step>)
    returns (hub: EventHub, store: InMemorySessionStore)
    requires maxBytes < U64_MAX
    ensures fresh(hub) && fresh(store) && fresh(hub.capacity) && Joint(hub, store)
  {
    hide hub.Core, hub.LogOk, hub.CaptureOk, RecordTotal, Keyed, WarnedOnce, Numbered;
    var ledger := new CapacityLedger(maxBytes);
    hub := new EventHub(maxEvents, ledger, sizes);
    store := new InMemorySessionStore(maxSessions, ledger);
    Run(hub, store, steps);
  }
}
