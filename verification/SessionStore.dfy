/** The in-memory session store: bounded by count and by the shared byte ledger. */
module SessionStore {
  import opened Wrappers
  import opened Sums
  import opened Capacity
  import opened SessionModel
  import opened Ordering
  import opened EventHub
  import opened HubRuns

  datatype StoreError = ResourceExhausted

  class InMemorySessionStore {
    const capacity: CapacityLedger
    var maxSessions: nat
    var records: Records
    var recordBytes: nat

    /** The byte counter, the records and the session share of the ledger agree; both limits hold. */
    ghost predicate Valid()
      reads this, capacity
    {
      && capacity.Valid() && Keyed(records)
      && recordBytes == RecordTotal(records) == capacity.sessions
      && 1 <= maxSessions && |records| <= maxSessions
    }

    constructor (maxRecords: nat, ledger: CapacityLedger)
      requires ledger.Valid() && ledger.sessions == 0
      ensures Valid() && capacity == ledger && records == map[]
      ensures maxSessions == if maxRecords == 0 then 1 else maxRecords
    {
      maxSessions := if maxRecords == 0 then 1 else maxRecords;
      capacity := ledger;
      records, recordBytes := map[], 0;
    }

    // ---- eviction ----

    /** Enumerates the records in no particular order, then sorts the evictable ones. */
    method SortedCandidates(shielded: Option<SessionId>) returns (candidates: seq<SessionRecord>)
      requires Keyed(records)
      ensures IsCandidates(candidates, records, shielded)
      ensures forall n: nat :: n <= |candidates| ==> OldestFirst(records, Ids(candidates[..n]), shielded)
    {
      var ids := records.Keys;
      var found: seq<SessionRecord> := [];
      while ids != {}
        invariant ids <= records.Keys && Unique(found)
        invariant forall r :: r in found <==>
                    (r.Id() in records && records[r.Id()] == r && r.Id() !in ids
                     && r.Evictable() && Some(r.Id()) != shielded)
        decreases ids
      {
        var id :| id in ids;
        ids := ids - {id};
        if records[id].Evictable() && Some(id) != shielded {
          found := found + [records[id]];
        }
      }
      SortGivesCandidates(found, records, shielded);
      candidates := Sort(found, EvictsBefore);
      forall n: nat | n <= |candidates|
        ensures OldestFirst(records, Ids(candidates[..n]), shielded)
      {
        PrefixIsOldest(records, candidates, n, shielded);
      }
    }

    /** The limit in force if the pending change of limits is admitted. */
    ghost function LimitOf(newLimit: Option<nat>): nat
      reads capacity`limit
    {
      if newLimit.None? then capacity.limit else if newLimit.value == 0 then 1 else newLimit.value
    }

    /** What other threads do before the next probe. */
    method Meanwhile(hub: EventHub, others: seq<seq<HubStep>>, index: nat, ghost start: Story)
      requires hub.Valid() && hub.capacity == capacity && capacity.Valid() && Continues(start, StoryOf(hub))
      modifies hub, capacity`events
      ensures hub.Valid() && capacity.Valid() && Continues(start, StoryOf(hub))
      ensures Undisturbed(others, index) ==> capacity.events == old(capacity.events)
    {
      hide hub.Valid, Continues, Caused;
      if !Undisturbed(others, index) {
        ghost var was := StoryOf(hub);
        RunHub(hub, others[index]);
        ContinuesOn(start, was, StoryOf(hub));
      }
    }

    /** One probe of the ledger. */
    method Admit(bytes: nat, newLimit: Option<nat>, hub: EventHub) returns (ok: bool)
      requires capacity.Valid() && (newLimit.Some? ==> newLimit.value < U64_MAX)
      requires hub.Valid() && hub.capacity == capacity
      modifies capacity`sessions, capacity`limit
      ensures capacity.Valid() && hub.Valid()
      ensures ok <==> bytes + capacity.events <= old(LimitOf(newLimit))
      ensures ok ==> capacity.sessions == bytes && capacity.limit == old(LimitOf(newLimit))
      ensures !ok ==> capacity.sessions == old(capacity.sessions) && capacity.limit == old(capacity.limit)
    {
      hide hub.Valid;
      if newLimit.None? {
        ok := capacity.TrySetSessionBytes(bytes);
      } else {
        ok := capacity.TrySetSessionBytesAndLimit(bytes, newLimit.value);
      }
      HubStable(hub);
    }

    /**
     * Finds the shortest prefix of the candidates whose eviction satisfies both limits.
     * `others[i]` is what event threads do to the hub on the same ledger before probe `i`, and `seen[i]` the
     * event bytes this probe finds: every earlier probe failed at its own moment, the last one decides.
     */
    method EvictionPlan(max: nat, shielded: Option<SessionId>, newLimit: Option<nat>, hub: EventHub,
                        others: seq<seq<HubStep>>)
      returns (r: Result<seq<SessionId>, StoreError>, ghost candidates: seq<SessionRecord>, ghost seen: seq<nat>)
      requires capacity.Valid() && Keyed(records) && recordBytes == RecordTotal(records)
      requires newLimit.Some? ==> newLimit.value < U64_MAX
      requires hub.Valid() && hub.capacity == capacity
      modifies hub, capacity
      ensures hub.Valid() && Advances(hub)
      ensures capacity.Valid() && IsCandidates(candidates, records, shielded)
      ensures Seen(seen, others, old(capacity.events), capacity.events) && |seen| <= |candidates| + 1
      ensures NoneFits(records, candidates, |seen| - 1, max, seen, old(LimitOf(newLimit)))
      ensures r.Ok? ==>
                && |r.value| == |seen| - 1 && r.value == Ids(candidates[..|r.value|])
                && Fits(records, candidates, |r.value|, max, capacity.events, capacity.limit)
                && capacity.sessions + Total(candidates[..|r.value|], RecordBytes) == recordBytes
                && capacity.limit == old(LimitOf(newLimit))
      ensures r.Err? ==> capacity.sessions == old(capacity.sessions) && capacity.limit == old(capacity.limit)
      ensures r.Err? ==> |seen| == |candidates| + 1
                         && !Fits(records, candidates, |candidates|, max, capacity.events, old(LimitOf(newLimit)))
    {
      hide RecordTotal, Total, Keyed, IsCandidates, Fits, Ids, OldestFirst, hub.Valid, Continues, Seen, NoneFits,
           Undisturbed;
      ContinuesSelf(StoryOf(hub));
      var sorted := SortedCandidates(shielded);
      TotalNil(RecordBytes);
      candidates := sorted;
      var count: nat, bytes: nat, index: nat := |records|, recordBytes, 0;
      var evicted: seq<SessionId> := [];
      NoIds(sorted);
      ghost var limit := LimitOf(newLimit);
      seen := [];
      NoneFitsYet(records, sorted, max, limit);
      while true
        invariant hub.Valid() && Advances(hub)
        invariant capacity.Valid() && capacity.sessions == old(capacity.sessions)
                  && capacity.limit == old(capacity.limit)
        invariant index <= |sorted| && evicted == Ids(sorted[..index])
        invariant count + index == |records| && bytes + Total(sorted[..index], RecordBytes) == recordBytes
        invariant |seen| == index && NoneFits(records, sorted, index, max, seen, limit)
        invariant if index == 0 then capacity.events == old(capacity.events)
                  else Seen(seen, others, old(capacity.events), capacity.events)
        decreases |sorted| - index
      {
        ghost var held := capacity.events;
        Meanwhile(hub, others, index, old(StoryOf(hub)));
        SeenMore(seen, others, old(capacity.events), held, capacity.events);
        NoneFitsSame(records, sorted, index, max, seen, capacity.events, limit);
        seen := seen + [capacity.events];
        FitsMeaning(records, sorted, index, max, capacity.events, limit, count, bytes);
        if count <= max {
          var ok := Admit(bytes, newLimit, hub);
          if ok {
            return Ok(evicted), candidates, seen;
          }
        }
        if index == |sorted| {
          return Err(ResourceExhausted), candidates, seen;
        }
        NoneFitsMore(records, sorted, index, max, seen, limit);
        var candidate := sorted[index];
        PrefixPush(sorted, index);
        CandidateTotals(records, sorted, index + 1, shielded);
        index := index + 1;
        count := SatSub(count, 1);
        bytes := SatSub(bytes, candidate.bytes);
        evicted := evicted + [candidate.Id()];
      }
    }

    method ApplyEvictions(evicted: seq<SessionId>)
      requires Keyed(records) && recordBytes == RecordTotal(records)
      modifies `records, `recordBytes
      ensures records == old(records) - IdSet(evicted)
      ensures Keyed(records) && recordBytes == RecordTotal(records)
    {
      var i := 0;
      assert old(records) - IdSet(evicted[..0]) == old(records);
      while i < |evicted|
        invariant i <= |evicted| && records == old(records) - IdSet(evicted[..i])
        invariant Keyed(records) && recordBytes == RecordTotal(records)
      {
        var id := evicted[i];
        assert IdSet(evicted[..i + 1]) == IdSet(evicted[..i]) + {id};
        if id in records {
          RecordTotalRemove(records, id);
          recordBytes := SatSub(recordBytes, records[id].bytes);
          records := records - {id};
        }
        i := i + 1;
      }
      assert evicted[..i] == evicted;
    }

    // ---- public operations ----

    /**
     * Inserts or replaces a record, evicting the shortest sufficient prefix of the other
     * evictable records, or fails and leaves records and ledger as they were.
     */
    method Upsert(record: SessionRecord, hub: EventHub, others: seq<seq<HubStep>>)
      returns (r: Result<seq<SessionId>, StoreError>, ghost candidates: seq<SessionRecord>, ghost seen: seq<nat>)
      requires Valid() && hub.Valid() && hub.capacity == capacity
      modifies this`records, this`recordBytes, hub, capacity
      ensures Valid() && capacity.limit == old(capacity.limit)
      ensures hub.Valid() && Advances(hub)
      ensures Seen(seen, others, old(capacity.events), capacity.events) && |seen| <= |candidates| + 1
      ensures var merged := old(records)[record.Id() := record];
              && IsCandidates(candidates, merged, Some(record.Id()))
              && NoneFits(merged, candidates, |seen| - 1, maxSessions, seen, capacity.limit)
              && (r.Ok? ==>
                    && |r.value| == |seen| - 1 && r.value == Ids(candidates[..|r.value|])
                    && records == merged - IdSet(r.value)
                    && Fits(merged, candidates, |r.value|, maxSessions, capacity.events, capacity.limit))
              && (r.Ok? <==> Fits(merged, candidates, |candidates|, maxSessions, capacity.events, capacity.limit))
      ensures r.Ok? ==> OldestFirst(old(records)[record.Id() := record], r.value, Some(record.Id()))
      ensures r.Err? ==> records == old(records) && recordBytes == old(recordBytes)
                         && capacity.sessions == old(capacity.sessions) && |seen| == |candidates| + 1
    {
      hide RecordTotal, Total, IsCandidates, Ids, IdSet, Fits, OldestFirst, hub.Valid, Continues;
      var id := record.Id();
      ghost var before := records;
      var previous := Replace(record);
      r, candidates, seen := EvictionPlan(maxSessions, Some(id), None, hub, others);
      if r.Err? {
        Restore(record, previous, before);
        return;
      }
      PrefixIsOldest(records, candidates, |r.value|, Some(id));
      FitsMore(records, candidates, |r.value|, |candidates|, maxSessions, capacity.events, capacity.limit);
      Evict(r.value, candidates, Some(id), maxSessions);
    }

    /** Carries an admitted plan out. */
    method Evict(evicted: seq<SessionId>, ghost candidates: seq<SessionRecord>, ghost shielded: Option<SessionId>,
                 ghost max: nat)
      requires Keyed(records) && recordBytes == RecordTotal(records) && IsCandidates(candidates, records, shielded)
      requires |evicted| <= |candidates| && evicted == Ids(candidates[..|evicted|])
      requires Fits(records, candidates, |evicted|, max, capacity.events, capacity.limit)
      requires capacity.sessions + Total(candidates[..|evicted|], RecordBytes) == recordBytes
      modifies `records, `recordBytes
      ensures records == old(records) - IdSet(evicted) && Keyed(records)
      ensures recordBytes == RecordTotal(records) == capacity.sessions && |records| <= max
    {
      hide RecordTotal, Total, IsCandidates, IdSet;
      CandidateTotals(records, candidates, |evicted|, shielded);
      ApplyEvictions(evicted);
    }

    /** Puts a record in and returns the one it replaces. */
    method Replace(record: SessionRecord) returns (previous: Option<SessionRecord>)
      requires Keyed(records) && recordBytes == RecordTotal(records)
      modifies `records, `recordBytes
      ensures Keyed(records) && recordBytes == RecordTotal(records)
      ensures records == old(records)[record.Id() := record]
      ensures previous == if record.Id() in old(records) then Some(old(records)[record.Id()]) else None
    {
      hide RecordTotal;
      var id := record.Id();
      ghost var before := records;
      previous := if id in records then Some(records[id]) else None;
      if previous.Some? {
        RecordTotalRemove(records, id);
        records := records - {id};
        recordBytes := SatSub(recordBytes, previous.value.bytes);
      }
      RecordTotalAdd(records, id, record);
      recordBytes := recordBytes + record.bytes;
      records := records[id := record];
      assert records == before[id := record];
    }

    /** Undoes `Replace`. */
    method Restore(record: SessionRecord, previous: Option<SessionRecord>, ghost before: Records)
      requires Keyed(before) && Keyed(records) && recordBytes == RecordTotal(records)
      requires records == before[record.Id() := record]
      requires previous == if record.Id() in before then Some(before[record.Id()]) else None
      modifies `records, `recordBytes
      ensures records == before && recordBytes == RecordTotal(before)
    {
      hide RecordTotal;
      var id := record.Id();
      if id in records {
        RecordTotalRemove(records, id);
        recordBytes := SatSub(recordBytes, records[id].bytes);
        records := records - {id};
      }
      if previous.Some? {
        RecordTotalAdd(records, id, previous.value);
        recordBytes := recordBytes + previous.value.bytes;
        records := records[id := previous.value];
      }
      assert records == before;
    }

    /** Changes both limits together, by the same plan; on failure nothing changes. */
    method SetLimits(max: nat, maxBytes: nat, hub: EventHub, others: seq<seq<HubStep>>)
      returns (r: Result<seq<SessionId>, StoreError>, ghost candidates: seq<SessionRecord>, ghost seen: seq<nat>)
      requires Valid() && maxBytes < U64_MAX && hub.Valid() && hub.capacity == capacity
      modifies this, hub, capacity
      ensures Valid() && hub.Valid() && Advances(hub)
      ensures Seen(seen, others, old(capacity.events), capacity.events) && |seen| <= |candidates| + 1
      ensures IsCandidates(candidates, old(records), None)
      ensures NoneFits(old(records), candidates, |seen| - 1, if max == 0 then 1 else max, seen,
                       if maxBytes == 0 then 1 else maxBytes)
      ensures r.Ok? ==>
                && maxSessions == (if max == 0 then 1 else max)
                && capacity.limit == (if maxBytes == 0 then 1 else maxBytes)
                && |r.value| == |seen| - 1 && r.value == Ids(candidates[..|r.value|])
                && records == old(records) - IdSet(r.value)
                && Fits(old(records), candidates, |r.value|, maxSessions, capacity.events, capacity.limit)
      ensures r.Ok? ==> OldestFirst(old(records), r.value, None)
      ensures r.Err? ==> maxSessions == old(maxSessions) && records == old(records) && recordBytes == old(recordBytes)
                         && capacity.limit == old(capacity.limit) && capacity.sessions == old(capacity.sessions)
                         && |seen| == |candidates| + 1
      ensures r.Ok? <==> Fits(old(records), candidates, |candidates|, if max == 0 then 1 else max, capacity.events,
                              if maxBytes == 0 then 1 else maxBytes)
    {
      hide RecordTotal, Total, IsCandidates, Ids, IdSet, Fits, OldestFirst, hub.Valid, Continues;
      var candidateMax := if max == 0 then 1 else max;
      r, candidates, seen := EvictionPlan(candidateMax, None, Some(maxBytes), hub, others);
      if r.Err? {
        return;
      }
      PrefixIsOldest(records, candidates, |r.value|, None);
      FitsMore(records, candidates, |r.value|, |candidates|, candidateMax, capacity.events, capacity.limit);
      Evict(r.value, candidates, None, candidateMax);
      maxSessions := candidateMax;
    }

    /** Drops every evictable record; giving bytes back is always admitted. */
    method ClearCompleted(hub: EventHub, others: seq<HubStep>) returns (removed: nat)
      requires Valid() && hub.Valid() && hub.capacity == capacity
      modifies this`records, this`recordBytes, hub, capacity`sessions, capacity`events
      ensures Valid() && hub.Valid() && Advances(hub)
      ensures records == map id | id in old(records) && !old(records)[id].Evictable() :: old(records)[id]
      ensures removed == |old(records)| - |records|
    {
      hide RecordTotal, hub.Valid, Continues, Caused;
      var before := |records|;
      var was := records;
      records := map id | id in was && !was[id].Evictable() :: was[id];
      RecordTotalSubmap(records, was);
      recordBytes := SumRecords();
      ShrinkShare(recordBytes, hub, others);
      SubmapSize(records, was);
      removed := before - |records|;
    }

    /** Handing a part of the session share back is always admitted, whatever the events do meanwhile. */
    method ShrinkShare(bytes: nat, hub: EventHub, others: seq<HubStep>)
      requires capacity.Valid() && bytes <= capacity.sessions && hub.Valid() && hub.capacity == capacity
      modifies hub, capacity`sessions, capacity`events
      ensures capacity.Valid() && capacity.sessions == bytes && hub.Valid() && Advances(hub)
    {
      hide hub.Valid, Continues, Caused;
      RunHub(hub, others);
      label probe:
      var admitted := capacity.TrySetSessionBytes(bytes);
      HubStable@probe(hub);
      assert admitted;
    }

    method SumRecords() returns (total: nat)
      ensures total == RecordTotal(records)
    {
      hide RecordTotal;
      total := 0;
      var left := records;
      while left != map[]
        invariant total + RecordTotal(left) == RecordTotal(records)
        decreases |left|
      {
        var id :| id in left;
        RecordTotalRemove(left, id);
        total := total + left[id].bytes;
        left := left - {id};
      }
      RecordTotalNone();
    }

    /** Dropping the store gives the whole session share back; this is always admitted. */
    method Drop(hub: EventHub, others: seq<HubStep>)
      requires Valid() && hub.Valid() && hub.capacity == capacity
      modifies hub, capacity`sessions, capacity`events
      ensures capacity.Valid() && capacity.sessions == 0 && hub.Valid()
    {
      ShrinkShare(0, hub, others);
    }
  }

  /** Nobody else is at the ledger before probe `index`. */
  predicate Undisturbed(others: seq<seq<HubStep>>, index: nat) {
    index < |others| ==> others[index] == []
  }

  /** The event bytes in force when probe `i` is due. */
  function Found(seen: seq<nat>, i: nat, before: nat): nat
    requires i <= |seen|
  {
    if i == 0 then before else seen[i - 1]
  }

  /**
   * The event bytes the probes of one call find, from `before` the call to `now`, the last of them: they move
   * only where event threads were at work.
   */
  ghost predicate Seen(seen: seq<nat>, others: seq<seq<HubStep>>, before: nat, now: nat) {
    && seen != [] && seen[|seen| - 1] == now
    && forall i: nat :: i < |seen| && Undisturbed(others, i) ==> seen[i] == Found(seen, i, before)
  }

  /** Each of the first `n` probes fails with the event bytes it finds. */
  ghost predicate NoneFits(records: Records, candidates: seq<SessionRecord>, n: nat, max: nat, seen: seq<nat>,
                           limit: nat)
    requires n <= |seen| && n <= |candidates| + 1
  {
    forall i :: 0 <= i < n ==> !Fits(records, candidates, i, max, seen[i], limit)
  }

  lemma SeenMore(seen: seq<nat>, others: seq<seq<HubStep>>, before: nat, now: nat, next: nat)
    requires if seen == [] then now == before else Seen(seen, others, before, now)
    requires Undisturbed(others, |seen|) ==> next == now
    ensures Seen(seen + [next], others, before, next)
  {
    var all := seen + [next];
    assert forall i :: 0 <= i < |seen| ==> all[i] == seen[i];
    assert forall i: nat :: i <= |seen| ==> Found(all, i, before) == Found(seen, i, before);
  }

  lemma NoneFitsYet(records: Records, candidates: seq<SessionRecord>, max: nat, limit: nat)
    ensures NoneFits(records, candidates, 0, max, [], limit)
  {
  }

  lemma NoneFitsSame(records: Records, candidates: seq<SessionRecord>, n: nat, max: nat, seen: seq<nat>, next: nat,
                     limit: nat)
    requires n == |seen| <= |candidates| && NoneFits(records, candidates, n, max, seen, limit)
    ensures NoneFits(records, candidates, n, max, seen + [next], limit)
  {
    hide Fits;
  }

  lemma NoneFitsMore(records: Records, candidates: seq<SessionRecord>, n: nat, max: nat, seen: seq<nat>, limit: nat)
    requires n < |seen| && n <= |candidates| && NoneFits(records, candidates, n, max, seen, limit)
    requires !Fits(records, candidates, n, max, seen[n], limit)
    ensures NoneFits(records, candidates, n + 1, max, seen, limit)
  {
    hide Fits;
  }

  lemma {:induction false} SeenAlone(seen: seq<nat>, others: seq<seq<HubStep>>, before: nat, now: nat, n: nat)
    requires Seen(seen, others, before, now) && n < |seen| && forall i :: 0 <= i < |others| ==> others[i] == []
    ensures seen[n] == before
  {
    assert Undisturbed(others, n);
    if n > 0 {
      SeenAlone(seen, others, before, now, n - 1);
    }
  }

  /** Without other threads the event bytes do not move, and no shorter plan fits them. */
  lemma ShortestAlone(records: Records, candidates: seq<SessionRecord>, max: nat, seen: seq<nat>, limit: nat,
                      others: seq<seq<HubStep>>, before: nat, now: nat)
    requires Seen(seen, others, before, now) && forall i :: 0 <= i < |others| ==> others[i] == []
    requires |seen| <= |candidates| + 1 && NoneFits(records, candidates, |seen| - 1, max, seen, limit)
    ensures now == before && forall i :: 0 <= i < |seen| - 1 ==> !Fits(records, candidates, i, max, before, limit)
  {
    SeenAlone(seen, others, before, now, |seen| - 1);
    forall i | 0 <= i < |seen| - 1
      ensures !Fits(records, candidates, i, max, before, limit)
    {
      SeenAlone(seen, others, before, now, i);
      assert !Fits(records, candidates, i, max, seen[i], limit);
    }
  }

  lemma NoIds(candidates: seq<SessionRecord>)
    ensures Ids(candidates[..0]) == [] && Total(candidates[..0], RecordBytes) == 0
  {
  }

  lemma PrefixPush(candidates: seq<SessionRecord>, n: nat)
    requires n < |candidates|
    ensures Total(candidates[..n + 1], RecordBytes) == Total(candidates[..n], RecordBytes) + candidates[n].bytes
    ensures Ids(candidates[..n + 1]) == Ids(candidates[..n]) + [candidates[n].Id()]
  {
    assert candidates[..n + 1] == candidates[..n] + [candidates[n]];
    TotalPush(candidates[..n], candidates[n], RecordBytes);
  }
}
