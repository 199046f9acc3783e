/** The byte ledger shared by the session store and the event hub. */
module Capacity {
  const U64_MAX: nat := 0xFFFF_FFFF_FFFF_FFFF

  function SatAdd(a: nat, b: nat): nat {
    if a + b > U64_MAX then U64_MAX else a + b
  }

  function SatSub(a: nat, b: nat): nat {
    if a < b then 0 else a - b
  }

  /** The admission test of the ledger, on saturating 64-bit arithmetic. */
  predicate Admits(limit: nat, held: nat, kept: nat, added: nat) {
    SatAdd(SatAdd(held, kept), added) <= limit
  }

  /**
   * Saturation makes the test wrong for one limit only: below `U64_MAX` the test is the
   * exact one for every request, at `U64_MAX` it admits everything.
   */
  lemma SaturationExactness(limit: nat)
    requires limit <= U64_MAX
    ensures (forall a: nat, b: nat, c: nat ::
               Admits(limit, a, b, c) <==> a + b + c <= limit) <==> limit < U64_MAX
  {
    if limit < U64_MAX {
      forall a: nat, b: nat, c: nat
        ensures Admits(limit, a, b, c) <==> a + b + c <= limit
      {
      }
    } else {
      assert Admits(limit, U64_MAX, 0, 1);
    }
  }

  class CapacityLedger {
    var limit: nat
    var sessions: nat
    var events: nat

    /** Joint safety: both containers together stay within the limit. */
    ghost predicate Valid()
      reads this
    {
      1 <= limit < U64_MAX && sessions + events <= limit
    }

    constructor (maxBytes: nat)
      requires maxBytes < U64_MAX
      ensures Valid()
      ensures limit == (if maxBytes == 0 then 1 else maxBytes) && sessions == 0 && events == 0
    {
      limit := if maxBytes == 0 then 1 else maxBytes;
      sessions, events := 0, 0;
    }

    method LogicalBytes() returns (bytes: nat)
      requires Valid()
      ensures bytes == sessions + events
    {
      bytes := SatAdd(sessions, events);
    }

    method TrySetSessionBytes(bytes: nat) returns (ok: bool)
      requires Valid()
      modifies `sessions
      ensures Valid()
      ensures ok <==> bytes + events <= limit
      ensures sessions == if ok then bytes else old(sessions)
    {
      if SatAdd(bytes, events) > limit {
        return false;
      }
      sessions := bytes;
      return true;
    }

    method TrySetSessionBytesAndLimit(bytes: nat, maxBytes: nat) returns (ok: bool)
      requires Valid() && maxBytes < U64_MAX
      modifies `sessions, `limit
      ensures Valid()
      ensures ok <==> bytes + events <= (if maxBytes == 0 then 1 else maxBytes)
      ensures ok ==> sessions == bytes && limit == if maxBytes == 0 then 1 else maxBytes
      ensures !ok ==> sessions == old(sessions) && limit == old(limit)
    {
      var newLimit := if maxBytes == 0 then 1 else maxBytes;
      if SatAdd(bytes, events) > newLimit {
        return false;
      }
      sessions := bytes;
      limit := newLimit;
      return true;
    }

    method TryReserveEventBytes(bytes: nat) returns (ok: bool)
      requires Valid()
      modifies `events
      ensures Valid()
      ensures ok <==> sessions + old(events) + bytes <= limit
      ensures events == old(events) + if ok then bytes else 0
    {
      var next := SatAdd(SatAdd(sessions, events), bytes);
      if next > limit {
        return false;
      }
      events := SatAdd(events, bytes);
      return true;
    }

    method TryReplaceEventBytes(current: nat, replacement: nat) returns (ok: bool)
      requires Valid()
      modifies `events
      ensures Valid()
      ensures ok <==> current <= old(events) && sessions + old(events) - current + replacement <= limit
      ensures events == if ok then old(events) - current + replacement else old(events)
    {
      if current > events {
        return false;
      }
      var retainedEvents := SatSub(events, current);
      var next := SatAdd(SatAdd(sessions, retainedEvents), replacement);
      if next > limit {
        return false;
      }
      events := SatAdd(retainedEvents, replacement);
      return true;
    }

    method ReleaseEventBytes(bytes: nat)
      requires Valid()
      modifies `events
      ensures Valid()
      ensures events == SatSub(old(events), bytes)
    {
      events := SatSub(events, bytes);
    }
  }
}
