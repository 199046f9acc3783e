/** Session records, their eviction order and their byte totals. */
module SessionModel {
  import opened Wrappers
  import opened Sums
  import opened Ordering

  type SessionId = nat

  datatype SessionSummary = SessionSummary(
    sessionId: SessionId, requestId: string, startedAt: int, completedAt: Option<int>, terminalIp: string,
    channel: string, target: string, result: string, durationMs: Option<nat>, matchedRuleIds: seq<nat>,
    requestSize: nat, responseSize: nat, pendingBreakpoint: bool)

  /** A stored session; `bytes` is its logical size. */
  datatype SessionRecord = SessionRecord(summary: SessionSummary, bytes: nat) {
    function Id(): SessionId { summary.sessionId }

    /** Completed, and not held by a breakpoint. */
    predicate Evictable() { summary.completedAt.Some? && !summary.pendingBreakpoint }
  }

  type Records = map<SessionId, SessionRecord>

  function RecordBytes(r: SessionRecord): nat { r.bytes }

  ghost predicate Keyed(records: Records) {
    forall id :: id in records ==> records[id].Id() == id
  }

  /** The sum of the sizes of all records. */
  ghost function RecordTotal(records: Records): nat {
    if records == map[] then 0
    else
      var id :| id in records;
      records[id].bytes + RecordTotal(records - {id})
  }

  /** The sum may be taken apart at any record. */
  lemma {:induction false} RecordTotalRemove(records: Records, id: SessionId)
    requires id in records
    ensures RecordTotal(records) == records[id].bytes + RecordTotal(records - {id})
    decreases |records|
  {
    var first :| first in records && RecordTotal(records) == records[first].bytes + RecordTotal(records - {first});
    if first != id {
      RecordTotalRemove(records - {first}, id);
      RecordTotalRemove(records - {id}, first);
      assert records - {first} - {id} == records - {id} - {first};
    }
  }

  lemma RecordTotalAdd(records: Records, id: SessionId, r: SessionRecord)
    requires id !in records
    ensures RecordTotal(records[id := r]) == r.bytes + RecordTotal(records)
  {
    RecordTotalRemove(records[id := r], id);
    assert records[id := r] - {id} == records;
  }

  lemma RecordTotalNone()
    ensures RecordTotal(map[]) == 0
  {
  }

  /** Fewer records never weigh more. */
  lemma {:induction false} RecordTotalSubmap(part: Records, whole: Records)
    requires part.Keys <= whole.Keys && forall id :: id in part ==> part[id] == whole[id]
    ensures RecordTotal(part) <= RecordTotal(whole)
    decreases |whole|
  {
    if part != map[] {
      var id :| id in part;
      RecordTotalRemove(part, id);
      RecordTotalRemove(whole, id);
      RecordTotalSubmap(part - {id}, whole - {id});
    }
  }

  lemma SubmapSize(part: Records, whole: Records)
    requires part.Keys <= whole.Keys
    ensures |part| <= |whole|
  {
    assert whole.Keys == part.Keys + (whole.Keys - part.Keys);
    assert |part.Keys| <= |whole.Keys|;
  }

  /** Oldest completion first, ties by id. */
  predicate EvictsBefore(a: SessionRecord, b: SessionRecord) {
    match (a.summary.completedAt, b.summary.completedAt)
    case (None, None) => a.Id() <= b.Id()
    case (None, Some(_)) => true
    case (Some(_), None) => false
    case (Some(x), Some(y)) => x < y || (x == y && a.Id() <= b.Id())
  }

  ghost predicate Unique<T>(s: seq<T>) {
    forall i, j :: 0 <= i < j < |s| ==> s[i] != s[j]
  }

  /** `candidates` lists exactly the evictable records other than `shielded`, in eviction order. */
  ghost predicate IsCandidates(candidates: seq<SessionRecord>, records: Records, shielded: Option<SessionId>) {
    && Sorted(candidates, EvictsBefore) && Unique(candidates)
    && (forall r :: r in candidates <==>
          r.Id() in records && records[r.Id()] == r && r.Evictable() && Some(r.Id()) != shielded)
  }

  function Ids(rs: seq<SessionRecord>): (ids: seq<SessionId>)
    ensures |ids| == |rs|
  {
    seq(|rs|, i requires 0 <= i < |rs| => rs[i].Id())
  }

  function IdSet(ids: seq<SessionId>): set<SessionId> {
    set id | id in ids
  }

  /**
   * Only completed sessions without a pending breakpoint are evicted, never the shielded one, and none of
   * them stays that was completed before an evicted one, or at the same time under a smaller id.
   */
  ghost predicate OldestFirst(before: Records, evicted: seq<SessionId>, shielded: Option<SessionId>) {
    && (forall e :: e in evicted ==>
          && e in before && Some(e) != shielded
          && before[e].summary.completedAt.Some? && !before[e].summary.pendingBreakpoint)
    && (forall e, k ::
          e in evicted && k in before && k !in evicted && Some(k) != shielded
          && before[k].summary.completedAt.Some? && !before[k].summary.pendingBreakpoint ==>
            var gone, stays := before[e].summary.completedAt.value, before[k].summary.completedAt.value;
            gone < stays || (gone == stays && e < k))
  }

  lemma InPrefix(candidates: seq<SessionRecord>, n: nat)
    requires n <= |candidates|
    ensures forall j :: 0 <= j < n ==> candidates[j].Id() in Ids(candidates[..n])
  {
    assert forall j :: 0 <= j < n ==> Ids(candidates[..n])[j] == candidates[j].Id();
  }

  /** A prefix of the candidates is the oldest part of what may be evicted. */
  lemma PrefixIsOldest(records: Records, candidates: seq<SessionRecord>, n: nat, shielded: Option<SessionId>)
    requires Keyed(records) && IsCandidates(candidates, records, shielded) && n <= |candidates|
    ensures OldestFirst(records, Ids(candidates[..n]), shielded)
  {
    var evicted := Ids(candidates[..n]);
    forall e | e in evicted
      ensures e in records && records[e] in candidates[..n] && records[e] in candidates
    {
      var i :| 0 <= i < n && evicted[i] == e;
      assert candidates[i] in candidates && candidates[..n][i] == candidates[i];
    }
    InPrefix(candidates, n);
    forall e, k | e in evicted && k in records && k !in evicted && Some(k) != shielded && records[k].Evictable()
      ensures EvictsBefore(records[e], records[k])
    {
      var i :| 0 <= i < n && candidates[i] == records[e];
      assert records[k].Id() == k && records[k] in candidates;
      var j :| 0 <= j < |candidates| && candidates[j] == records[k];
    }
  }

  lemma UniqueMultiset<T>(s: seq<T>)
    requires Unique(s)
    ensures forall x :: multiset(s)[x] == if x in s then 1 else 0
  {
    if s != [] {
      assert s == [s[0]] + s[1..];
      UniqueMultiset(s[1..]);
    }
  }

  lemma MultisetUnique<T>(s: seq<T>)
    requires forall x :: multiset(s)[x] <= 1
    ensures Unique(s)
  {
    forall i, j | 0 <= i < j < |s|
      ensures s[i] != s[j]
    {
      assert s == s[..j] + [s[j]] + s[j + 1..];
      assert s[..j][i] == s[i] && s[i] in multiset(s[..j]);
      assert multiset(s)[s[j]] >= multiset(s[..j])[s[j]] + 1;
    }
  }

  /** Any enumeration of the candidates, once sorted, is the candidate list. */
  lemma SortGivesCandidates(found: seq<SessionRecord>, records: Records, shielded: Option<SessionId>)
    requires Unique(found)
    requires forall r :: r in found <==>
               r.Id() in records && records[r.Id()] == r && r.Evictable() && Some(r.Id()) != shielded
    ensures IsCandidates(Sort(found, EvictsBefore), records, shielded)
  {
    var sorted := Sort(found, EvictsBefore);
    SortCorrect(found, EvictsBefore);
    SameMembers(sorted, found);
    UniqueMultiset(found);
    MultisetUnique(sorted);
  }

  /** The candidate list is determined by the records alone, not by how they were enumerated. */
  lemma CandidatesUnique(a: seq<SessionRecord>, b: seq<SessionRecord>, records: Records, shielded: Option<SessionId>)
    requires Keyed(records) && IsCandidates(a, records, shielded) && IsCandidates(b, records, shielded)
    ensures a == b
  {
    UniqueMultiset(a);
    UniqueMultiset(b);
    assert multiset(a) == multiset(b);
    SortedUnique(a, b, EvictsBefore);
  }

  /** Every candidate is a record, stored under its own id. */
  ghost predicate Listed(records: Records, candidates: seq<SessionRecord>) {
    forall i :: 0 <= i < |candidates| ==>
      (candidates[i].Id() in records && records[candidates[i].Id()] == candidates[i])
  }

  lemma EvictNone(records: Records, candidates: seq<SessionRecord>)
    ensures records - IdSet(Ids(candidates[..0])) == records && candidates[..0] == []
  {
  }

  lemma NotYetEvicted(records: Records, candidates: seq<SessionRecord>, n: nat)
    requires Unique(candidates) && n < |candidates| && Listed(records, candidates)
    ensures var before := records - IdSet(Ids(candidates[..n]));
            candidates[n].Id() in before && before[candidates[n].Id()] == candidates[n]
  {
    assert forall j :: 0 <= j < n ==> candidates[j].Id() != candidates[n].Id();
    assert forall j :: 0 <= j < n ==> Ids(candidates[..n])[j] == candidates[j].Id();
  }

  lemma EvictOneMore(records: Records, candidates: seq<SessionRecord>, n: nat)
    requires 0 < n <= |candidates|
    ensures records - IdSet(Ids(candidates[..n])) ==
            records - IdSet(Ids(candidates[..n - 1])) - {candidates[n - 1].Id()}
  {
    assert Ids(candidates[..n]) == Ids(candidates[..n - 1]) + [candidates[n - 1].Id()];
    assert IdSet(Ids(candidates[..n])) == IdSet(Ids(candidates[..n - 1])) + {candidates[n - 1].Id()};
  }

  /** Removing the first `n` candidates removes that many records and exactly their bytes. */
  lemma {:induction false} EvictionTotals(records: Records, candidates: seq<SessionRecord>, n: nat)
    requires Unique(candidates) && n <= |candidates| && Listed(records, candidates)
    ensures var left := records - IdSet(Ids(candidates[..n]));
            && |left| == |records| - n
            && RecordTotal(left) + Total(candidates[..n], RecordBytes) == RecordTotal(records)
  {
    hide RecordTotal, Total, Unique, IdSet, Ids;
    if n == 0 {
      TotalNil(RecordBytes);
      EvictNone(records, candidates);
    } else {
      EvictionTotals(records, candidates, n - 1);
      var before := records - IdSet(Ids(candidates[..n - 1]));
      var last := candidates[n - 1];
      assert candidates[..n] == candidates[..n - 1] + [last];
      NotYetEvicted(records, candidates, n - 1);
      EvictOneMore(records, candidates, n);
      RecordTotalRemove(before, last.Id());
      TotalPush(candidates[..n - 1], last, RecordBytes);
    }
  }

  lemma CandidateTotals(records: Records, candidates: seq<SessionRecord>, n: nat, shielded: Option<SessionId>)
    requires Keyed(records) && IsCandidates(candidates, records, shielded) && n <= |candidates|
    ensures n <= |records| && Total(candidates[..n], RecordBytes) <= RecordTotal(records)
    ensures var left := records - IdSet(Ids(candidates[..n]));
            |left| == |records| - n && RecordTotal(left) + Total(candidates[..n], RecordBytes) == RecordTotal(records)
  {
    assert Listed(records, candidates) by {
      forall i | 0 <= i < |candidates|
        ensures candidates[i].Id() in records && records[candidates[i].Id()] == candidates[i]
      {
        assert candidates[i] in candidates;
      }
    }
    EvictionTotals(records, candidates, n);
  }

  /** Whether evicting the first `n` candidates satisfies both limits. */
  ghost predicate Fits(records: Records, candidates: seq<SessionRecord>, n: nat, maxSessions: nat, events: nat,
                       limit: nat)
    requires n <= |candidates|
  {
    |records| - n <= maxSessions && RecordTotal(records) - Total(candidates[..n], RecordBytes) + events <= limit
  }

  lemma FitsMeaning(records: Records, candidates: seq<SessionRecord>, n: nat, maxSessions: nat, events: nat, limit: nat,
                    count: nat, bytes: nat)
    requires n <= |candidates| && count + n == |records|
             && bytes + Total(candidates[..n], RecordBytes) == RecordTotal(records)
    ensures Fits(records, candidates, n, maxSessions, events, limit) <==>
              count <= maxSessions && bytes + events <= limit
  {
  }

  lemma {:induction false} FitsMore(records: Records, candidates: seq<SessionRecord>, n: nat, more: nat,
                                    maxSessions: nat, events: nat, limit: nat)
    requires n <= more <= |candidates| && Fits(records, candidates, n, maxSessions, events, limit)
    ensures Fits(records, candidates, more, maxSessions, events, limit)
  {
    if n < more {
      FitsMore(records, candidates, n, more - 1, maxSessions, events, limit);
      assert candidates[..more] == candidates[..more - 1] + [candidates[more - 1]];
      TotalPush(candidates[..more - 1], candidates[more - 1], RecordBytes);
    }
  }
}
