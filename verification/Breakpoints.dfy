/**
 * The breakpoint coordinator: waiting network tasks on one side, several racing finishers on the other.
 * Every method up to `Run` is one section under the lock, so an interleaving of calls is a list of steps.
 */
module Breakpoints {
  import opened Wrappers
  import opened Capacity
  import opened BreakpointValidation

  const MAX_TERMINAL_TOMBSTONES: nat := 4_096

  datatype Outcome = Decided(decision: Decision) | Disconnected | Stopped

  /** The waiting side of a one-shot channel: what the task was shown, whether it still waits, what it was told. */
  datatype Ticket = Ticket(detail: Detail, listening: bool, outcome: Option<Outcome>)

  /** The finishing side: the sender is the number of the ticket. */
  datatype Waiting = Waiting(detail: Detail, sender: Option<nat>)

  datatype Error =
    | Invalid | AlreadyExists | NotFound | RevisionConflict | ConfigInvalid(fields: seq<Field>)
    | AlreadyResolved | ClientGone | ProxyGone

  /** One breakpoint came to its end. */
  datatype Ending = Ending(ticket: nat, id: BreakpointId, cause: State)

  // ---- invariants, on values ----

  /** Every pending breakpoint owns the unused sender of the ticket it was registered with. */
  ghost predicate PendingOk(pending: map<BreakpointId, Waiting>, tickets: seq<Ticket>) {
    forall id :: id in pending ==>
      var item := pending[id];
      && item.sender.Some? && item.sender.value < |tickets|
      && tickets[item.sender.value].detail == item.detail && tickets[item.sender.value].outcome.None?
      && item.detail.summary.id == id && item.detail.summary.state.Pending?
  }

  ghost predicate Awaits(pending: map<BreakpointId, Waiting>, tickets: seq<Ticket>, t: nat)
    requires t < |tickets|
  {
    var id := tickets[t].detail.summary.id;
    id in pending && pending[id].sender == Some(t)
  }

  ghost predicate Ended(log: seq<Ending>, t: nat) {
    exists k :: 0 <= k < |log| && log[k].ticket == t
  }

  /** What a ticket was told agrees with the recorded cause; it was told nothing only if nobody listened. */
  ghost predicate Agrees(e: Ending, ticket: Ticket) {
    && e.id == ticket.detail.summary.id
    && match ticket.outcome
       case None => !ticket.listening && (e.cause.ClientDisconnected? || e.cause.ProxyStopped?)
       case Some(Decided(d)) => e.cause.Resolved? && DecisionOk(ticket.detail, d)
       case Some(Disconnected) => e.cause.ClientDisconnected?
       case Some(Stopped) => e.cause.ProxyStopped?
  }

  /** Every ticket is either awaited or has ended, never both, and it ends once. */
  ghost predicate LogOk(pending: map<BreakpointId, Waiting>, tickets: seq<Ticket>, log: seq<Ending>) {
    && (forall k :: 0 <= k < |log| ==> log[k].ticket < |tickets| && Agrees(log[k], tickets[log[k].ticket]))
    && (forall j, k :: 0 <= j < k < |log| ==> log[j].ticket != log[k].ticket)
    && (forall t :: 0 <= t < |tickets| ==> (Ended(log, t) <==> !Awaits(pending, tickets, t)))
  }

  /** A ticket keeps its detail and its outcome; endings are never forgotten or rewritten. */
  ghost predicate Grows(tickets: seq<Ticket>, log: seq<Ending>, nextTickets: seq<Ticket>, nextLog: seq<Ending>) {
    && log <= nextLog && |tickets| <= |nextTickets|
    && forall t :: 0 <= t < |tickets| ==>
         && nextTickets[t].detail == tickets[t].detail
         && (nextTickets[t].listening ==> tickets[t].listening)
         && (tickets[t].outcome.Some? ==> nextTickets[t].outcome == tickets[t].outcome)
  }

  function Recent(log: seq<Ending>): seq<Ending> {
    if |log| <= MAX_TERMINAL_TOMBSTONES then log else log[|log| - MAX_TERMINAL_TOMBSTONES..]
  }

  /** Table and queue hold exactly these endings, one per id. */
  ghost predicate Lists(terminal: map<BreakpointId, State>, order: seq<BreakpointId>, recent: seq<Ending>) {
    && |order| == |recent|
    && (forall i :: 0 <= i < |order| ==>
          order[i] == recent[i].id && order[i] in terminal && terminal[order[i]] == recent[i].cause)
    && (forall i, j :: 0 <= i < j < |order| ==> order[i] != order[j])
    && (forall id :: id in terminal ==> id in order)
  }

  /** The tombstones are exactly the most recent endings, one per id, and none of a pending id. */
  ghost predicate TombstonesOk(pending: map<BreakpointId, Waiting>, terminal: map<BreakpointId, State>,
                               order: seq<BreakpointId>, log: seq<Ending>) {
    Lists(terminal, order, Recent(log)) && forall id :: id in pending ==> id !in terminal
  }

  /** The cause of the most recent ending of `id`, if it is among the remembered ones. */
  function Remembered(recent: seq<Ending>, id: BreakpointId): Option<State> {
    if recent == [] then None
    else
      var last := recent[|recent| - 1];
      if last.id == id then Some(last.cause) else Remembered(recent[..|recent| - 1], id)
  }

  /** What an operation on a breakpoint that is not pending answers. */
  function LateError(cause: Option<State>): Error {
    match cause
    case Some(Resolved) => AlreadyResolved
    case Some(ClientDisconnected) => ClientGone
    case Some(ProxyStopped) => ProxyGone
    case _ => NotFound
  }

  lemma {:induction false} RememberedFound(recent: seq<Ending>, i: nat)
    requires i < |recent| && forall j, k :: 0 <= j < k < |recent| ==> recent[j].id != recent[k].id
    ensures Remembered(recent, recent[i].id) == Some(recent[i].cause)
  {
    if i < |recent| - 1 {
      RememberedFound(recent[..|recent| - 1], i);
    }
  }

  lemma {:induction false} RememberedAbsent(recent: seq<Ending>, id: BreakpointId)
    requires forall i :: 0 <= i < |recent| ==> recent[i].id != id
    ensures Remembered(recent, id) == None
  {
    if recent != [] {
      RememberedAbsent(recent[..|recent| - 1], id);
    }
  }

  /** The tombstone table answers like the history of endings. */
  lemma TombstonesAnswer(pending: map<BreakpointId, Waiting>, terminal: map<BreakpointId, State>,
                         order: seq<BreakpointId>, log: seq<Ending>, id: BreakpointId)
    requires TombstonesOk(pending, terminal, order, log)
    ensures Remembered(Recent(log), id) == if id in terminal then Some(terminal[id]) else None
  {
    var recent := Recent(log);
    if id in terminal {
      var i :| 0 <= i < |order| && order[i] == id;
      RememberedFound(recent, i);
    } else {
      RememberedAbsent(recent, id);
    }
  }

  /** The next revision; revisions stop at 2^64-1. */
  ghost predicate Follows(next: nat, revision: nat) {
    if revision < 0xFFFF_FFFF_FFFF_FFFF then next == revision + 1 else next == 0xFFFF_FFFF_FFFF_FFFF
  }

  function EndedSummary(s: Summary, state: State): Summary {
    s.(state := state, revision := SatAdd(s.revision, 1))
  }

  // ---- how the parts change ----

  lemma RecentPush(log: seq<Ending>, e: Ending)
    ensures |Recent(log)| <= MAX_TERMINAL_TOMBSTONES
    ensures Recent(log + [e]) ==
            if |Recent(log)| < MAX_TERMINAL_TOMBSTONES then Recent(log) + [e] else Recent(log)[1..] + [e]
  {
  }

  /** A new tombstone; the oldest one has to go if there were as many as allowed. */
  lemma PushTombstone(pending: map<BreakpointId, Waiting>, terminal: map<BreakpointId, State>,
                      order: seq<BreakpointId>, log: seq<Ending>, e: Ending)
    requires TombstonesOk(pending, terminal, order, log) && e.id !in pending && e.id !in terminal
    ensures |order| <= MAX_TERMINAL_TOMBSTONES
    ensures var table, ids, next := terminal[e.id := e.cause], order + [e.id], log + [e];
            if |ids| <= MAX_TERMINAL_TOMBSTONES then TombstonesOk(pending, table, ids, next)
            else TombstonesOk(pending, table - {ids[0]}, ids[1..], next)
  {
    hide Recent, Lists;
    RecentPush(log, e);
    var table, ids, recent := terminal[e.id := e.cause], order + [e.id], Recent(log);
    ListsLength(terminal, order, recent);
    ListsPush(terminal, order, recent, e);
    if |ids| > MAX_TERMINAL_TOMBSTONES {
      ListsPop(table, ids, recent + [e]);
      assert (recent + [e])[1..] == recent[1..] + [e];
    }
  }

  lemma ListsLength(terminal: map<BreakpointId, State>, order: seq<BreakpointId>, recent: seq<Ending>)
    requires Lists(terminal, order, recent)
    ensures |order| == |recent|
  {
  }

  lemma ListsPush(terminal: map<BreakpointId, State>, order: seq<BreakpointId>, recent: seq<Ending>, e: Ending)
    requires Lists(terminal, order, recent) && e.id !in terminal
    ensures Lists(terminal[e.id := e.cause], order + [e.id], recent + [e])
  {
    var table, ids := terminal[e.id := e.cause], order + [e.id];
    forall id | id in table
      ensures id in ids
    {
      assert id == e.id || id in order;
    }
  }

  lemma ListsPop(terminal: map<BreakpointId, State>, order: seq<BreakpointId>, recent: seq<Ending>)
    requires Lists(terminal, order, recent) && order != []
    ensures Lists(terminal - {order[0]}, order[1..], recent[1..])
  {
    assert order == [order[0]] + order[1..];
  }

  /** Taking a breakpoint out of the pending ones and telling its ticket keeps everything else in order. */
  lemma EndKeepsLog(pending: map<BreakpointId, Waiting>, tickets: seq<Ticket>, log: seq<Ending>,
                    id: BreakpointId, told: Ticket, cause: State)
    requires PendingOk(pending, tickets) && LogOk(pending, tickets, log) && id in pending
    requires told.detail == pending[id].detail
    requires Agrees(Ending(pending[id].sender.value, id, cause), told)
    ensures var t := pending[id].sender.value;
            var after := tickets[t := told];
            && PendingOk(pending - {id}, after)
            && LogOk(pending - {id}, after, log + [Ending(t, id, cause)])
  {
    hide Agrees;
    var t := pending[id].sender.value;
    var after, next, left := tickets[t := told], log + [Ending(t, id, cause)], pending - {id};
    assert Awaits(pending, tickets, t);
    assert forall k :: 0 <= k < |log| ==> log[k].ticket != t;
    forall other | other in left
      ensures left[other].sender != Some(t)
    {
      assert tickets[t].detail == pending[other].detail || pending[other].sender != Some(t);
    }
    forall u | 0 <= u < |after|
      ensures Ended(next, u) <==> !Awaits(left, after, u)
    {
      assert Awaits(left, after, u) <==> (Awaits(pending, tickets, u) && u != t);
      if Ended(log, u) {
        var k :| 0 <= k < |log| && log[k].ticket == u;
        assert next[k].ticket == u;
      }
      if u == t {
        assert next[|log|].ticket == t;
      }
      if Ended(next, u) {
        var k :| 0 <= k < |next| && next[k].ticket == u;
        assert k < |log| ==> log[k].ticket == u;
      }
    }
  }

  lemma RegisterKeeps(pending: map<BreakpointId, Waiting>, tickets: seq<Ticket>, log: seq<Ending>, detail: Detail)
    requires PendingOk(pending, tickets) && LogOk(pending, tickets, log)
    requires detail.summary.id !in pending && detail.summary.state.Pending?
    ensures var next := pending[detail.summary.id := Waiting(detail, Some(|tickets|))];
            var after := tickets + [Ticket(detail, true, None)];
            PendingOk(next, after) && LogOk(next, after, log)
  {
    hide Agrees;
    var next, after := pending[detail.summary.id := Waiting(detail, Some(|tickets|))],
                       tickets + [Ticket(detail, true, None)];
    forall u | 0 <= u < |after|
      ensures Ended(log, u) <==> !Awaits(next, after, u)
    {
      if u < |tickets| {
        assert Awaits(next, after, u) <==> Awaits(pending, tickets, u);
      } else {
        assert Awaits(next, after, u) && !Ended(log, u);
      }
    }
  }

  lemma AbandonKeeps(pending: map<BreakpointId, Waiting>, tickets: seq<Ticket>, log: seq<Ending>, t: nat)
    requires PendingOk(pending, tickets) && LogOk(pending, tickets, log) && t < |tickets|
    ensures var after := tickets[t := tickets[t].(listening := false)];
            PendingOk(pending, after) && LogOk(pending, after, log)
  {
    hide DecisionOk;
    var after := tickets[t := tickets[t].(listening := false)];
    forall u | 0 <= u < |after|
      ensures Ended(log, u) <==> !Awaits(pending, after, u)
    {
      assert Awaits(pending, after, u) <==> Awaits(pending, tickets, u);
    }
  }

  // ---- the coordinator ----

  /** One call, or one locked part of a call, of any of the parties. */
  datatype Step =
    | Register(detail: Detail)
    | Resolve(epoch: Epoch, decision: Decision)
    | Disconnect(id: BreakpointId)
    | Stop(id: BreakpointId)
    | Abandon(ticket: nat)

  class BreakpointCoordinator {
    var pending: map<BreakpointId, Waiting>
    var terminal: map<BreakpointId, State>
    var terminalOrder: seq<BreakpointId>

    /** The channels handed out, held by the waiting tasks. */
    var tickets: seq<Ticket>

    /** All endings there ever were. */
    ghost var log: seq<Ending>

    ghost predicate Valid()
      reads this
    {
      PendingOk(pending, tickets) && LogOk(pending, tickets, log)
      && TombstonesOk(pending, terminal, terminalOrder, log)
    }

    twostate predicate Evolves()
      reads this
    {
      Grows(old(tickets), old(log), tickets, log)
    }

    constructor ()
      ensures Valid() && pending == map[] && tickets == [] && log == []
    {
      pending, terminal, terminalOrder, tickets, log := map[], map[], [], [], [];
    }

    /** The error for a breakpoint that is not pending: its remembered cause, read off the history. */
    function NotFoundOrTerminal(id: BreakpointId): (e: Error)
      requires Valid()
      reads this
      ensures e == LateError(Remembered(Recent(log), id))
    {
      TombstonesAnswer(pending, terminal, terminalOrder, log, id);
      if id in terminal then
        match terminal[id]
        case Resolved => AlreadyResolved
        case ClientDisconnected => ClientGone
        case ProxyStopped => ProxyGone
        case Pending => NotFound
      else NotFound
    }

    /** Uses up a sender: the message arrives iff the task still waits. */
    method Send(t: nat, outcome: Outcome) returns (delivered: bool)
      requires t < |tickets|
      modifies `tickets
      ensures delivered == old(tickets[t].listening)
      ensures tickets == if delivered then old(tickets)[t := old(tickets)[t].(outcome := Some(outcome))]
              else old(tickets)
    {
      delivered := tickets[t].listening;
      if delivered {
        tickets := tickets[t := tickets[t].(outcome := Some(outcome))];
      }
    }

    /** Records an ending and forgets the oldest one beyond the bound. */
    method RememberTerminal(id: BreakpointId, cause: State, ghost t: nat)
      requires TombstonesOk(pending, terminal, terminalOrder, log)
      requires id !in pending && id !in terminal
      modifies `terminal, `terminalOrder, `log
      ensures log == old(log) + [Ending(t, id, cause)]
      ensures TombstonesOk(pending, terminal, terminalOrder, log)
    {
      hide TombstonesOk;
      PushTombstone(pending, terminal, terminalOrder, log, Ending(t, id, cause));
      log := log + [Ending(t, id, cause)];
      terminal := terminal[id := cause];
      terminalOrder := terminalOrder + [id];
      while |terminalOrder| > MAX_TERMINAL_TOMBSTONES
        invariant log == old(log) + [Ending(t, id, cause)]
        invariant |terminalOrder| > MAX_TERMINAL_TOMBSTONES ==>
                    terminalOrder == old(terminalOrder) + [id] && terminal == old(terminal)[id := cause]
        invariant |terminalOrder| <= MAX_TERMINAL_TOMBSTONES ==> TombstonesOk(pending, terminal, terminalOrder, log)
      {
        var expired := terminalOrder[0];
        terminalOrder := terminalOrder[1..];
        terminal := terminal - {expired};
      }
    }

    /** The breakpoint of ticket `t` leaves the pending ones for `cause`; a listening task is told. */
    twostate predicate Finishes(id: BreakpointId, cause: State, told: Outcome)
      reads this
    {
      && id in old(pending) && old(pending)[id].sender.Some?
      && var t := old(pending)[id].sender.value;
      && t < |old(tickets)| && pending == old(pending) - {id} && log == old(log) + [Ending(t, id, cause)]
      && tickets == if old(tickets)[t].listening then old(tickets)[t := old(tickets)[t].(outcome := Some(told))]
                    else old(tickets)
    }

    method Register(detail: Detail) returns (r: Result<nat, Error>)
      requires Valid()
      modifies this
      ensures Valid() && Evolves() && log == old(log)
      ensures var id := detail.summary.id;
              if !detail.summary.state.Pending? then r == Err(Invalid) && unchanged(this)
              else if id in old(pending) || Remembered(Recent(old(log)), id).Some? then
                r == Err(AlreadyExists) && unchanged(this)
              else
                && Shown(detail, Displayed(detail))
                && r == Ok(|old(tickets)|) && tickets == old(tickets) + [Ticket(Displayed(detail), true, None)]
                && pending == old(pending)[id := Waiting(Displayed(detail), Some(|old(tickets)|))]
    {
      hide LogOk, PendingOk, Supported, Shown;
      if !detail.summary.state.Pending? {
        return Err(Invalid);
      }
      var id := detail.summary.id;
      TombstonesAnswer(pending, terminal, terminalOrder, log, id);
      if id in pending || id in terminal {
        return Err(AlreadyExists);
      }
      DisplayedShown(detail);
      var shown := Displayed(detail);
      RegisterKeeps(pending, tickets, log, shown);
      r := Ok(|tickets|);
      pending := pending[id := Waiting(shown, Some(|tickets|))];
      tickets := tickets + [Ticket(shown, true, None)];
    }

    /** Reading never changes anything; it finds a breakpoint only in its own epoch. */
    method Get(id: BreakpointId, epoch: Epoch) returns (r: Result<Detail, Error>)
      requires Valid()
      ensures r == if id !in pending then Err(LateError(Remembered(Recent(log), id)))
                   else if pending[id].detail.summary.epoch != epoch then Err(NotFound)
                   else Ok(pending[id].detail)
    {
      if id !in pending {
        var late := NotFoundOrTerminal(id);
        return Err(late);
      }
      if pending[id].detail.summary.epoch != epoch {
        return Err(NotFound);
      }
      r := Ok(pending[id].detail);
    }

    /** Submits a decision: it succeeds iff the decision was delivered to the waiting task. */
    method Resolve(epoch: Epoch, decision: Decision) returns (r: Result<Summary, Error>)
      requires Valid()
      modifies this
      ensures Valid() && Evolves()
      ensures var id := decision.id;
              if id !in old(pending) then
                r == Err(LateError(Remembered(Recent(old(log)), id))) && unchanged(this)
              else
                var detail := old(pending)[id].detail;
                if detail.summary.epoch != epoch then r == Err(NotFound) && unchanged(this)
                else if detail.summary.revision != decision.expectedRevision then
                  r == Err(RevisionConflict) && unchanged(this)
                else if !Deliverable(detail, decision) then
                  && r.Err? && r.error.ConfigInvalid? && unchanged(this)
                  && forall f :: f in r.error.fields <==> !FieldOk(f, detail, decision)
                else if r.Ok? then
                  && r == Ok(detail.summary.(state := Resolved, revision := r.value.revision))
                  && Follows(r.value.revision, detail.summary.revision)
                  && Finishes(id, Resolved, Decided(decision))
                else r == Err(ClientGone) && Finishes(id, State.ClientDisconnected, Decided(decision))
      ensures r.Ok? <==> tickets != old(tickets)
    {
      hide LogOk, TombstonesOk, FieldOk, Deliverable;
      var id := decision.id;
      if id !in pending {
        var late := NotFoundOrTerminal(id);
        return Err(late);
      }
      var item := pending[id];
      if item.detail.summary.epoch != epoch {
        return Err(NotFound);
      }
      if item.detail.summary.revision != decision.expectedRevision {
        return Err(RevisionConflict);
      }
      GateExactly(item.detail, decision);
      var errors := ValidateStructure(item.detail, decision);
      if errors != [] {
        return Err(ConfigInvalid(errors));
      }
      assert item.sender.Some?;
      var t := item.sender.value;
      var cause := if tickets[t].listening then State.Resolved else State.ClientDisconnected;
      ghost var told := if tickets[t].listening then tickets[t].(outcome := Some(Decided(decision))) else tickets[t];
      EndKeepsLog(pending, tickets, log, id, told, cause);
      assert tickets[t := tickets[t]] == tickets;
      var delivered := Send(t, Decided(decision));
      assert id !in terminal by {
        PendingNotTerminal(old(pending), terminal, terminalOrder, log, id);
      }
      FewerPending(pending, terminal, terminalOrder, log, id);
      pending := pending - {id};
      RememberTerminal(id, cause, t);
      if !delivered {
        return Err(ClientGone);
      }
      r := Ok(EndedSummary(item.detail.summary, Resolved));
    }

    /** Ends a pending breakpoint from outside; whether the task still listens makes no difference to the caller. */
    method Terminate(id: BreakpointId, cause: State) returns (r: Result<Summary, Error>)
      requires Valid() && (cause.ClientDisconnected? || cause.ProxyStopped?)
      modifies this
      ensures Valid() && Evolves()
      ensures if id !in old(pending) then r == Err(LateError(Remembered(Recent(old(log)), id))) && unchanged(this)
              else
                var was := old(pending)[id].detail.summary;
                && r.Ok? && r.value == was.(state := cause, revision := r.value.revision)
                && Follows(r.value.revision, was.revision)
                && Finishes(id, cause, if cause.ProxyStopped? then Stopped else Disconnected)
    {
      hide LogOk, TombstonesOk;
      if id !in pending {
        var late := NotFoundOrTerminal(id);
        return Err(late);
      }
      var item := pending[id];
      var outcome := if cause.ProxyStopped? then Stopped else Disconnected;
      assert item.sender.Some?;
      var t := item.sender.value;
      ghost var told := if tickets[t].listening then tickets[t].(outcome := Some(outcome)) else tickets[t];
      EndKeepsLog(pending, tickets, log, id, told, cause);
      assert tickets[t := tickets[t]] == tickets;
      assert id !in terminal by {
        PendingNotTerminal(pending, terminal, terminalOrder, log, id);
      }
      FewerPending(pending, terminal, terminalOrder, log, id);
      pending := pending - {id};
      var _ := Send(t, outcome);
      RememberTerminal(id, cause, t);
      r := Ok(EndedSummary(item.detail.summary, cause));
    }

    method ClientDisconnected(id: BreakpointId) returns (r: Result<Summary, Error>)
      requires Valid()
      modifies this
      ensures Valid() && Evolves()
      ensures if id !in old(pending) then r == Err(LateError(Remembered(Recent(old(log)), id))) && unchanged(this)
              else
                var was := old(pending)[id].detail.summary;
                && r.Ok? && r.value == was.(state := State.ClientDisconnected, revision := r.value.revision)
                && Follows(r.value.revision, was.revision)
                && Finishes(id, State.ClientDisconnected, Disconnected)
    {
      r := Terminate(id, State.ClientDisconnected);
    }

    /** The waiting task goes away without having been told anything, or after it was told. */
    method Abandon(t: nat)
      requires Valid() && t < |tickets|
      modifies `tickets
      ensures Valid() && Evolves()
      ensures tickets == old(tickets)[t := old(tickets)[t].(listening := false)]
    {
      hide LogOk, PendingOk, TombstonesOk;
      AbandonKeeps(pending, tickets, log, t);
      tickets := tickets[t := tickets[t].(listening := false)];
    }

    // ---- interleavings ----

    method Do(step: Step)
      requires Valid()
      modifies this
      ensures Valid() && Evolves()
    {
      hide PendingOk, LogOk, TombstonesOk;
      match step {
        case Register(detail) => var _ := Register(detail);
        case Resolve(epoch, decision) => var _ := Resolve(epoch, decision);
        case Disconnect(id) => var _ := ClientDisconnected(id);
        case Stop(id) => var _ := Terminate(id, State.ProxyStopped);
        case Abandon(t) =>
          if t < |tickets| {
            Abandon(t);
          }
      }
    }

    /** Any interleaving of any calls keeps the invariant, and no ticket is ever told a second thing. */
    method Run(steps: seq<Step>)
      requires Valid()
      modifies this
      ensures Valid() && Evolves()
      ensures steps == [] ==> unchanged(this)
    {
      hide PendingOk, LogOk, TombstonesOk;
      var i := 0;
      while i < |steps|
        invariant i <= |steps| && Valid() && Evolves()
        invariant i == 0 ==> unchanged(this)
      {
        Do(steps[i]);
        i := i + 1;
      }
    }

    /** The first phase of stopping: which breakpoints of the epoch are pending now. */
    method PendingOf(epoch: Epoch) returns (ids: seq<BreakpointId>)
      requires Valid()
      ensures forall id :: id in ids <==> id in pending && pending[id].detail.summary.epoch == epoch
      ensures forall i, j :: 0 <= i < j < |ids| ==> ids[i] != ids[j]
    {
      ids := [];
      var rest := pending.Keys;
      while rest != {}
        invariant rest <= pending.Keys
        invariant forall id :: id in ids <==> id in pending && id !in rest && pending[id].detail.summary.epoch == epoch
        invariant forall i, j :: 0 <= i < j < |ids| ==> ids[i] != ids[j]
        decreases rest
      {
        var id :| id in rest;
        rest := rest - {id};
        if pending[id].detail.summary.epoch == epoch {
          ids := ids + [pending[id].detail.summary.id];
        }
      }
    }

    /**
     * Stops the breakpoints of an epoch: collects their ids, lets go of the lock, and ends them one by one,
     * while before each of them the steps `others[i]` of other parties run. Every breakpoint of the epoch
     * that was pending at the start has ended afterwards. What the call itself ends (`stopped` names the
     * tickets) is of that epoch, unless the id was reused in between for a new breakpoint, which takes
     * more endings than there are tombstones.
     */
    method ProxyStopped(epoch: Epoch, others: seq<seq<Step>>) returns (summaries: seq<Summary>, ghost stopped: seq<nat>)
      requires Valid()
      modifies this
      ensures Valid() && Evolves()
      ensures forall id :: (id in old(pending) && old(pending)[id].detail.summary.epoch == epoch) ==>
                Ended(log, old(pending)[id].sender.value)
      ensures StopsOk(stopped, summaries, epoch, |old(tickets)|, |old(log)|, tickets, log)
      ensures others == [] ==>
                && |summaries| == |log| - |old(log)|
                && forall id :: id in pending <==> id in old(pending) && old(pending)[id].detail.summary.epoch != epoch
    {
      hide LogOk, TombstonesOk, PendingOk, Ended, StopsOk, Grows;
      var ids := PendingOf(epoch);
      OwnSenders(pending, tickets);
      GrowsNothing(tickets, log);
      summaries, stopped := [], [];
      StopsNothing(epoch, |tickets|, |log|, tickets, log);
      var i := 0;
      while i < |ids|
        invariant i <= |ids| && Valid() && Evolves()
        invariant forall k :: 0 <= k < i ==> Ended(log, old(pending)[ids[k]].sender.value)
        invariant StopsOk(stopped, summaries, epoch, |old(tickets)|, |old(log)|, tickets, log)
        invariant others == [] ==>
                    && pending == old(pending) - (set id | id in ids[..i])
                    && |log| - |old(log)| == |summaries| == i
      {
        ghost var was, soFar := tickets, log;
        GrowsNothing(was, soFar);
        if i < |others| {
          Run(others[i]);
        }
        GrowsOn(old(tickets), old(log), was, soFar, tickets, log);
        StopsStay(stopped, summaries, epoch, |old(tickets)|, |old(log)|, was, soFar, tickets, log);
        forall k | 0 <= k < i
          ensures Ended(log, old(pending)[ids[k]].sender.value)
        {
          EndedStays(was, soFar, tickets, log, old(pending)[ids[k]].sender.value);
        }
        var r, t := StopOne(ids[i], epoch, old(pending), old(tickets), old(log), stopped, summaries);
        if r.Ok? {
          summaries, stopped := summaries + [r.value], stopped + [t];
        }
        assert ids[..i + 1] == ids[..i] + [ids[i]];
        i := i + 1;
      }
    }

    /** One termination of the second phase. */
    method StopOne(id: BreakpointId, epoch: Epoch, ghost p0: map<BreakpointId, Waiting>, ghost t0: seq<Ticket>,
                   ghost l0: seq<Ending>, ghost stopped: seq<nat>, ghost summaries: seq<Summary>)
      returns (r: Result<Summary, Error>, ghost t: nat)
      requires Valid() && Grows(t0, l0, tickets, log)
      requires PendingOk(p0, t0) && LogOk(p0, t0, l0) && id in p0 && p0[id].detail.summary.epoch == epoch
      requires StopsOk(stopped, summaries, epoch, |t0|, |l0|, tickets, log)
      modifies this
      ensures Valid() && Evolves() && Grows(t0, l0, tickets, log)
      ensures p0[id].sender.Some? && Ended(log, p0[id].sender.value)
      ensures pending == old(pending) - {id}
      ensures forall u: nat :: Ended(old(log), u) ==> Ended(log, u)
      ensures r.Ok? <==> id in old(pending)
      ensures |log| == |old(log)| + if r.Ok? then 1 else 0
      ensures r.Ok? ==> StopsOk(stopped + [t], summaries + [r.value], epoch, |t0|, |l0|, tickets, log)
      ensures r.Err? ==> StopsOk(stopped, summaries, epoch, |t0|, |l0|, tickets, log)
    {
      hide LogOk, TombstonesOk, PendingOk, Ended, StopsOk, Grows;
      OwnSenders(p0, t0);
      OwnSenders(pending, tickets);
      SameOrReused(p0, t0, l0, pending, tickets, terminal, terminalOrder, log, id);
      r := Terminate(id, State.ProxyStopped);
      GrowsOn(t0, l0, old(tickets), old(log), tickets, log);
      StopsStay(stopped, summaries, epoch, |t0|, |l0|, old(tickets), old(log), tickets, log);
      forall u: nat | Ended(old(log), u)
        ensures Ended(log, u)
      {
        EndedStays(old(tickets), old(log), tickets, log, u);
      }
      if r.Ok? {
        t := old(pending)[id].sender.value;
        EndedNow(old(log), log, t, id, State.ProxyStopped);
        SameDetails(t0, l0, old(tickets), old(log), tickets, log);
        StopsMore(stopped, summaries, epoch, |t0|, |l0|, tickets, log, t, r.value);
      } else {
        t := 0;
        assert pending - {id} == pending;
      }
    }
  }

  /**
   * The tickets ended by one call and the summaries it reports for them. A ticket is of the epoch, or its
   * id was reused during the call, after the tombstone of the breakpoint that was meant had expired.
   */
  ghost predicate StopsOk(stopped: seq<nat>, summaries: seq<Summary>, epoch: Epoch, ticketsBefore: nat,
                          endingsBefore: nat, tickets: seq<Ticket>, log: seq<Ending>) {
    && |stopped| == |summaries|
    && forall k :: 0 <= k < |stopped| ==>
         var t := stopped[k];
         && t < |tickets| && Ended(log, t)
         && summaries[k] == EndedSummary(tickets[t].detail.summary, State.ProxyStopped)
         && (summaries[k].epoch == epoch || (ticketsBefore <= t && |log| - endingsBefore > MAX_TERMINAL_TOMBSTONES))
  }

  lemma OwnSenders(pending: map<BreakpointId, Waiting>, tickets: seq<Ticket>)
    requires PendingOk(pending, tickets)
    ensures forall id :: id in pending ==>
              && pending[id].sender.Some? && pending[id].sender.value < |tickets|
              && tickets[pending[id].sender.value].detail == pending[id].detail
  {
  }

  lemma GrowsNothing(tickets: seq<Ticket>, log: seq<Ending>)
    ensures Grows(tickets, log, tickets, log)
  {
  }

  lemma GrowsOn(t0: seq<Ticket>, l0: seq<Ending>, t1: seq<Ticket>, l1: seq<Ending>, t2: seq<Ticket>, l2: seq<Ending>)
    requires Grows(t0, l0, t1, l1) && Grows(t1, l1, t2, l2)
    ensures Grows(t0, l0, t2, l2)
  {
  }

  lemma EndedStays(t0: seq<Ticket>, l0: seq<Ending>, t1: seq<Ticket>, l1: seq<Ending>, t: nat)
    requires Grows(t0, l0, t1, l1)
    ensures Ended(l0, t) ==> Ended(l1, t)
  {
    if Ended(l0, t) {
      var k :| 0 <= k < |l0| && l0[k].ticket == t;
      assert l1[k].ticket == t;
    }
  }

  lemma StopsNothing(epoch: Epoch, ticketsBefore: nat, endingsBefore: nat, tickets: seq<Ticket>, log: seq<Ending>)
    ensures StopsOk([], [], epoch, ticketsBefore, endingsBefore, tickets, log)
  {
  }

  lemma StopsStay(stopped: seq<nat>, summaries: seq<Summary>, epoch: Epoch, ticketsBefore: nat, endingsBefore: nat,
                  t0: seq<Ticket>, l0: seq<Ending>, t1: seq<Ticket>, l1: seq<Ending>)
    requires Grows(t0, l0, t1, l1) && StopsOk(stopped, summaries, epoch, ticketsBefore, endingsBefore, t0, l0)
    ensures StopsOk(stopped, summaries, epoch, ticketsBefore, endingsBefore, t1, l1)
  {
    hide Ended;
    forall k | 0 <= k < |stopped|
      ensures Ended(l1, stopped[k])
    {
      EndedStays(t0, l0, t1, l1, stopped[k]);
    }
  }

  lemma StopsMore(stopped: seq<nat>, summaries: seq<Summary>, epoch: Epoch, ticketsBefore: nat, endingsBefore: nat,
                  tickets: seq<Ticket>, log: seq<Ending>, t: nat, s: Summary)
    requires StopsOk(stopped, summaries, epoch, ticketsBefore, endingsBefore, tickets, log)
    requires t < |tickets| && Ended(log, t) && s == EndedSummary(tickets[t].detail.summary, State.ProxyStopped)
    requires s.epoch == epoch || (ticketsBefore <= t && |log| - endingsBefore > MAX_TERMINAL_TOMBSTONES)
    ensures StopsOk(stopped + [t], summaries + [s], epoch, ticketsBefore, endingsBefore, tickets, log)
  {
  }

  lemma SameDetails(t0: seq<Ticket>, l0: seq<Ending>, t1: seq<Ticket>, l1: seq<Ending>, t2: seq<Ticket>,
                    l2: seq<Ending>)
    requires Grows(t0, l0, t1, l1) && Grows(t1, l1, t2, l2)
    ensures |t0| <= |t1| <= |t2|
    ensures forall t :: 0 <= t < |t0| ==> t1[t].detail == t0[t].detail
    ensures forall t :: 0 <= t < |t1| ==> t2[t].detail == t1[t].detail
  {
  }

  lemma EndedNow(log: seq<Ending>, next: seq<Ending>, t: nat, id: BreakpointId, cause: State)
    requires next == log + [Ending(t, id, cause)]
    ensures Ended(next, t)
  {
    assert next[|log|].ticket == t;
  }

  /**
   * A breakpoint that was pending either still is, with the same ticket, or that ticket has ended; if the
   * id is pending again, its tombstone has expired in between.
   */
  lemma SameOrReused(p0: map<BreakpointId, Waiting>, t0: seq<Ticket>, l0: seq<Ending>,
                     p: map<BreakpointId, Waiting>, t: seq<Ticket>, terminal: map<BreakpointId, State>,
                     order: seq<BreakpointId>, l: seq<Ending>, id: BreakpointId)
    requires PendingOk(p0, t0) && LogOk(p0, t0, l0) && id in p0
    requires PendingOk(p, t) && LogOk(p, t, l) && TombstonesOk(p, terminal, order, l) && Grows(t0, l0, t, l)
    ensures (id in p && p[id].sender == p0[id].sender) || Ended(l, p0[id].sender.value)
    ensures id in p && p[id].sender != p0[id].sender ==>
              |t0| <= p[id].sender.value && |l| - |l0| > MAX_TERMINAL_TOMBSTONES
  {
    hide Agrees, TombstonesOk;
    var u := p0[id].sender.value;
    assert Awaits(p0, t0, u) && !Ended(l0, u);
    if id in p && p[id].sender != p0[id].sender {
      var now := p[id].sender.value;
      assert Awaits(p, t, now) && !Awaits(p, t, u);
      if now < |t0| {
        assert !Awaits(p0, t0, now) && Ended(l0, now);
        EndedStays(t0, l0, t, l, now);
        assert false;
      }
      var k :| 0 <= k < |l| && l[k].ticket == u;
      assert Agrees(l[k], t[u]);
      AgreesId(l[k], t[u]);
      NotRecent(p, terminal, order, l, id, k);
      NotBefore(l0, l, u, k);
    }
  }

  lemma NotBefore(l0: seq<Ending>, l: seq<Ending>, u: nat, k: nat)
    requires l0 <= l && !Ended(l0, u) && k < |l| && l[k].ticket == u
    ensures |l0| <= k
  {
    forall j | 0 <= j < |l0|
      ensures l[j].ticket != u
    {
      assert l0[j] == l[j];
    }
  }

  lemma AgreesId(e: Ending, ticket: Ticket)
    requires Agrees(e, ticket)
    ensures e.id == ticket.detail.summary.id
  {
  }

  /** The endings of an id that is pending again are no longer remembered. */
  lemma NotRecent(pending: map<BreakpointId, Waiting>, terminal: map<BreakpointId, State>, order: seq<BreakpointId>,
                  log: seq<Ending>, id: BreakpointId, k: nat)
    requires TombstonesOk(pending, terminal, order, log) && id in pending && k < |log| && log[k].id == id
    ensures k < |log| - MAX_TERMINAL_TOMBSTONES
  {
    var start := |log| - |Recent(log)|;
    forall j | start <= j < |log|
      ensures log[j].id in terminal
    {
      assert Recent(log)[j - start] == log[j];
    }
  }

  lemma PendingNotTerminal(pending: map<BreakpointId, Waiting>, terminal: map<BreakpointId, State>,
                           order: seq<BreakpointId>, log: seq<Ending>, id: BreakpointId)
    requires TombstonesOk(pending, terminal, order, log) && id in pending
    ensures id !in terminal
  {
  }

  lemma FewerPending(pending: map<BreakpointId, Waiting>, terminal: map<BreakpointId, State>,
                     order: seq<BreakpointId>, log: seq<Ending>, id: BreakpointId)
    requires TombstonesOk(pending, terminal, order, log)
    ensures TombstonesOk(pending - {id}, terminal, order, log)
  {
  }

  /** Every state a fresh coordinator can reach is in order. */
  method FromStart(steps: seq<Step>) returns (c: BreakpointCoordinator)
    ensures fresh(c) && c.Valid()
  {
    c := new BreakpointCoordinator();
    c.Run(steps);
  }

  // ---- what every run guarantees ----

  /**
   * What a ticket was told is final and matches its one recorded ending; a delivered decision passed the
   * gate for that ticket; and a task that still waits untold is still pending, so that every finisher
   * reaches it.
   */
  lemma ExactlyOnce(c: BreakpointCoordinator, t: nat)
    requires c.Valid() && t < |c.tickets|
    ensures c.tickets[t].outcome.Some? ==> Ended(c.log, t) && !Awaits(c.pending, c.tickets, t)
    ensures forall k :: 0 <= k < |c.log| && c.log[k].ticket == t ==> Agrees(c.log[k], c.tickets[t])
    ensures forall d :: c.tickets[t].outcome == Some(Decided(d)) ==> Deliverable(c.tickets[t].detail, d)
    ensures c.tickets[t].listening && c.tickets[t].outcome.None? ==> Awaits(c.pending, c.tickets, t)
    ensures forall j, k :: 0 <= j < |c.log| && 0 <= k < |c.log| && c.log[j].ticket == t && c.log[k].ticket == t ==>
              j == k
  {
    hide DecisionOk, Deliverable, TombstonesOk;
    forall d {
      GateExactly(c.tickets[t].detail, d);
    }
    if Ended(c.log, t) {
      var k :| 0 <= k < |c.log| && c.log[k].ticket == t;
      assert Agrees(c.log[k], c.tickets[t]);
    }
  }

  /** A late operation learns the cause iff the ending is among the last 4096. */
  lemma LateAnswers(c: BreakpointCoordinator, id: BreakpointId, k: nat)
    requires c.Valid() && id !in c.pending && k < |c.log| && c.log[k].id == id
    requires forall j :: k < j < |c.log| ==> c.log[j].id != id
    ensures |c.log| - k <= 4096 ==>
              && (c.NotFoundOrTerminal(id) == AlreadyResolved <==> c.log[k].cause == Resolved)
              && (c.NotFoundOrTerminal(id) == ClientGone <==> c.log[k].cause == State.ClientDisconnected)
              && (c.NotFoundOrTerminal(id) == ProxyGone <==> c.log[k].cause == State.ProxyStopped)
    ensures |c.log| - k > 4096 ==> c.NotFoundOrTerminal(id) == NotFound
  {
    hide LogOk, PendingOk;
    RecentDistinct(c.pending, c.terminal, c.terminalOrder, c.log);
    LastEnding(c.log, id, k);
  }

  lemma RecentDistinct(pending: map<BreakpointId, Waiting>, terminal: map<BreakpointId, State>,
                       order: seq<BreakpointId>, log: seq<Ending>)
    requires TombstonesOk(pending, terminal, order, log)
    ensures forall i, j :: 0 <= i < j < |Recent(log)| ==> Recent(log)[i].id != Recent(log)[j].id
  {
    forall i, j | 0 <= i < j < |Recent(log)|
      ensures Recent(log)[i].id != Recent(log)[j].id
    {
      assert order[i] != order[j];
    }
  }

  lemma RecentIs(log: seq<Ending>, i: nat)
    requires i < |Recent(log)|
    ensures Recent(log)[i] == log[|log| - |Recent(log)| + i]
  {
  }

  lemma LastEnding(log: seq<Ending>, id: BreakpointId, k: nat)
    requires k < |log| && log[k].id == id && forall j :: k < j < |log| ==> log[j].id != id
    requires forall i, j :: 0 <= i < j < |Recent(log)| ==> Recent(log)[i].id != Recent(log)[j].id
    ensures Remembered(Recent(log), id) == if |log| - k <= MAX_TERMINAL_TOMBSTONES then Some(log[k].cause) else None
  {
    hide Remembered;
    var recent := Recent(log);
    var start := |log| - |recent|;
    if |log| - k <= MAX_TERMINAL_TOMBSTONES {
      RecentIs(log, k - start);
      RememberedFound(recent, k - start);
    } else {
      forall i | 0 <= i < |recent|
        ensures recent[i].id != id
      {
        RecentIs(log, i);
      }
      RememberedAbsent(recent, id);
    }
  }

  ghost function EndedTickets(log: seq<Ending>): set<nat> {
    set k | 0 <= k < |log| :: log[k].ticket
  }

  lemma {:induction false} EndedCount(log: seq<Ending>)
    requires forall j, k :: 0 <= j < k < |log| ==> log[j].ticket != log[k].ticket
    ensures |EndedTickets(log)| == |log|
  {
    if log != [] {
      var last := |log| - 1;
      EndedCount(log[..last]);
      assert EndedTickets(log[..last]) == set k | 0 <= k < last :: log[k].ticket;
      assert EndedTickets(log) == EndedTickets(log[..last]) + {log[last].ticket};
    }
  }

  ghost function Senders(pending: map<BreakpointId, Waiting>): set<nat>
    requires forall id :: id in pending ==> pending[id].sender.Some?
  {
    set id | id in pending :: pending[id].sender.value
  }

  lemma SendersWithout(pending: map<BreakpointId, Waiting>, one: BreakpointId)
    requires forall id :: id in pending ==> pending[id].sender.Some?
    requires forall a, b :: a in pending && b in pending && a != b ==> pending[a].sender != pending[b].sender
    requires one in pending
    ensures Senders(pending) == Senders(pending - {one}) + {pending[one].sender.value}
    ensures pending[one].sender.value !in Senders(pending - {one})
  {
    forall t | t in Senders(pending)
      ensures t in Senders(pending - {one}) + {pending[one].sender.value}
    {
      var id :| id in pending && pending[id].sender.value == t;
      assert id == one || id in pending - {one};
    }
  }

  lemma {:induction false} AwaitedCount(pending: map<BreakpointId, Waiting>)
    requires forall id :: id in pending ==> pending[id].sender.Some?
    requires forall a, b :: a in pending && b in pending && a != b ==> pending[a].sender != pending[b].sender
    ensures |Senders(pending)| == |pending|
    decreases |pending|
  {
    hide Senders;
    if pending == map[] {
      NoSenders();
    } else {
      var one :| one in pending;
      var rest := pending - {one};
      assert pending.Keys == rest.Keys + {one};
      assert |pending| == |pending.Keys| && |rest| == |rest.Keys|;
      AwaitedCount(rest);
      SendersWithout(pending, one);
    }
  }

  lemma NoSenders()
    ensures Senders(map[]) == {}
  {
  }

  ghost function FirstNats(n: nat): (r: set<nat>)
    ensures |r| == n && forall t :: t in r <==> 0 <= t < n
  {
    if n == 0 then {} else FirstNats(n - 1) + {n - 1}
  }

  /** Nothing is lost and nothing ends twice: registrations are endings plus pending breakpoints. */
  lemma RegistrationsBalance(c: BreakpointCoordinator)
    requires c.Valid()
    ensures |c.tickets| == |c.log| + |c.pending|
  {
    hide Agrees, TombstonesOk, FirstNats, Awaits, Ended, Senders, EndedTickets;
    EndedCount(c.log);
    AwaitedCount(c.pending);
    forall t: nat
      ensures t < |c.tickets| <==> t in EndedTickets(c.log) || t in Senders(c.pending)
      ensures t !in EndedTickets(c.log) || t !in Senders(c.pending)
    {
      EndedOrAwaited(c, t);
    }
    assert FirstNats(|c.tickets|) == EndedTickets(c.log) + Senders(c.pending);
  }

  lemma EndedOrAwaited(c: BreakpointCoordinator, t: nat)
    requires c.Valid()
    ensures t in EndedTickets(c.log) ==> t < |c.tickets| && Ended(c.log, t)
    ensures t in Senders(c.pending) ==> t < |c.tickets| && Awaits(c.pending, c.tickets, t)
    ensures t < |c.tickets| ==> (t in EndedTickets(c.log) <==> t !in Senders(c.pending))
  {
    hide Agrees, TombstonesOk;
    if t < |c.tickets| {
      assert Ended(c.log, t) <==> t in EndedTickets(c.log);
    }
  }

  // ---- the epoch is not checked again ----

  function Plain(id: BreakpointId, epoch: Epoch): Detail {
    var message := Message([], [], []);
    Detail(Summary(id, epoch, Stage.Request, State.Pending, 1), message, message, true, [])
  }

  /**
   * Between the two phases of `ProxyStopped` an id can be reused: stopping epoch 1 collects breakpoint 0,
   * which then disconnects; after as many other endings as there are tombstones it is registered anew
   * under epoch 2, and the second phase stops that one.
   */
  method ReusedIdIsStopped() returns (ids: seq<BreakpointId>, stopped: Summary)
    ensures 0 in ids && stopped == EndedSummary(Plain(0, 2).summary, State.ProxyStopped)
  {
    hide PendingOk, LogOk, TombstonesOk, Grows, Supported, Recent, Remembered;
    var c := new BreakpointCoordinator();
    NothingRecent(c.log, 0);
    var first := c.Register(Plain(0, 1));
    ids := c.PendingOf(1);
    var gone := c.ClientDisconnected(0);
    var i := 1;
    while i <= MAX_TERMINAL_TOMBSTONES
      invariant 1 <= i <= MAX_TERMINAL_TOMBSTONES + 1 && c.Valid() && fresh(c) && c.pending == map[]
      invariant |c.log| == i && forall k :: 0 <= k < |c.log| ==> c.log[k].id == k
    {
      NothingRecent(c.log, i);
      var next := c.Register(Plain(i, 1));
      gone := c.ClientDisconnected(i);
      i := i + 1;
    }
    NothingRecent(c.log, 0);
    var again := c.Register(Plain(0, 2));
    var r := c.Terminate(0, State.ProxyStopped);
    stopped := r.value;
  }

  lemma NothingRecent(log: seq<Ending>, id: BreakpointId)
    requires forall k :: |log| - MAX_TERMINAL_TOMBSTONES <= k < |log| && 0 <= k ==> log[k].id != id
    ensures Remembered(Recent(log), id) == None
  {
    hide Remembered;
    forall i | 0 <= i < |Recent(log)|
      ensures Recent(log)[i].id != id
    {
      RecentIs(log, i);
    }
    RememberedAbsent(Recent(log), id);
  }
}
