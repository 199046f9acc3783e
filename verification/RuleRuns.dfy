/** Properties of whole runs of the rule engine: messages, edits, snapshots and restarts in any order. */
module RuleRuns {
  import opened Wrappers
  import opened Ordering
  import opened RuleModel
  import opened RuleValidation
  import opened RuleEvaluations

  datatype Op =
    | Message(ctx: MatchContext, now: int)
    | Save(id: RuleId, draft: RuleDraft)
    | Toggle(id: RuleId, expected: nat, enabled: bool)
    | Reconcile(rules: seq<Rule>)
    | RestartAt(epoch: Epoch)

  function Apply(s: EngineState, op: Op, host: Host): EngineState {
    match op
    case Message(ctx, now) => AfterEvaluate(s, ctx, now, host)
    case Save(id, draft) =>
      (match AfterSave(s, id, draft, DraftOk(draft, host))
       case Ok(next) => next
       case Err(_) => s)
    case Toggle(id, expected, enabled) =>
      (match AfterToggle(s, id, expected, enabled)
       case Ok(next) => next
       case Err(_) => s)
    case Reconcile(rules) => AfterReconcile(s, rules)
    case RestartAt(epoch) => Restart(s, epoch)
  }

  /** The state after the first `n` operations. */
  function At(s: EngineState, ops: seq<Op>, n: nat, host: Host): EngineState
    requires n <= |ops|
  {
    if n == 0 then s else Apply(At(s, ops, n - 1, host), ops[n - 1], host)
  }

  /** The persisted snapshots hold every rule once. */
  ghost predicate Proper(ops: seq<Op>) {
    forall i :: 0 <= i < |ops| && ops[i].Reconcile? ==> DistinctIds(ops[i].rules)
  }

  // ---- invariants ----

  /** Rules are distinct, and every counter belongs to one of them. */
  ghost predicate Sound(s: EngineState) {
    DistinctIds(s.rules) && forall key :: key in s.counters ==> Has(s.rules, key.ruleId)
  }

  lemma HasMember(rules: seq<Rule>, id: RuleId)
    ensures Has(rules, id) <==> exists r :: r in rules && r.id == id
  {
    if Has(rules, id) {
      assert rules[IndexOf(rules, id)] in rules;
    }
  }

  lemma {:induction false} ScanKeys(rules: seq<Rule>, counters: Counters, ctx: MatchContext, host: Host)
    ensures forall key :: key in Scan(rules, counters, ctx, host).counters ==>
              key in counters || exists r :: r in rules && r.id == key.ruleId
  {
    hide Executed, FirstTerminal, FieldsVerdict, NthValues, AllEqual, Applicable;
    if rules != [] {
      assert rules == [rules[0]] + rules[1..];
      var counted := if Applicable(rules[0], ctx) then MatchRule(rules[0], counters, ctx, host).1 else counters;
      ScanKeys(rules[1..], counted, ctx, host);
      assert rules[0] in rules;
      assert forall r :: r in rules[1..] ==> r in rules;
    }
  }

  lemma SameIdsSame(a: seq<Rule>, b: seq<Rule>)
    requires |a| == |b| && forall i :: 0 <= i < |a| ==> a[i].id == b[i].id
    ensures DistinctIds(a) ==> DistinctIds(b)
    ensures forall id :: IndexOf(a, id) == IndexOf(b, id)
  {
    forall id
      ensures IndexOf(a, id) == IndexOf(b, id)
    {
      var i, j := IndexOf(a, id), IndexOf(b, id);
      if i < |a| {
        assert a[i].id == b[i].id;
      }
      if j < |b| {
        assert a[j].id == b[j].id;
      }
    }
  }

  lemma MarkedEach(rules: seq<Rule>, hits: seq<RuleId>, now: int)
    ensures |MarkHits(rules, hits, now)| == |rules|
    ensures forall i :: 0 <= i < |rules| ==>
              MarkHits(rules, hits, now)[i] == if rules[i].id in hits then Struck(rules[i], now) else rules[i]
  {
  }

  lemma PrepareSound(s: EngineState, epoch: Epoch)
    requires Sound(s)
    ensures Sound(Prepare(s, epoch))
    ensures forall id :: IndexOf(Prepare(s, epoch).rules, id) == IndexOf(s.rules, id)
  {
    UnhitEach(s.rules);
    SameIdsSame(s.rules, Prepare(s, epoch).rules);
  }

  lemma EvaluateSound(s: EngineState, ctx: MatchContext, now: int, host: Host)
    requires Sound(s)
    ensures Sound(AfterEvaluate(s, ctx, now, host))
  {
    hide Scan, EvaluationOrder, MarkHits, Prepare, IndexOf;
    var p := Prepare(s, ctx.runtimeEpoch);
    PrepareSound(s, ctx.runtimeEpoch);
    OrderedDistinct(p.rules);
    ScanKeys(EvaluationOrder(p.rules), p.counters, ctx, host);
    var o := OutcomeOf(s, ctx, host);
    var after := MarkHits(p.rules, o.hits, now);
    MarkedEach(p.rules, o.hits, now);
    SameIdsSame(p.rules, after);
    forall key | key in o.counters
      ensures Has(after, key.ruleId)
    {
      HasMember(p.rules, key.ruleId);
    }
  }

  lemma InstallSound(s: EngineState, i: nat, rule: Rule, reset: bool)
    requires Sound(s) && i < |s.rules| && rule.id == s.rules[i].id
    ensures Sound(Install(s, i, rule, reset))
  {
    SameIdsSame(s.rules, Install(s, i, rule, reset).rules);
  }

  /** Every operation keeps the rules distinct and the counters attached to existing rules. */
  lemma ApplySound(s: EngineState, op: Op, host: Host)
    requires Sound(s) && (op.Reconcile? ==> DistinctIds(op.rules))
    ensures Sound(Apply(s, op, host))
  {
    hide DraftOk, Install, DistinctIds, AfterEvaluate;
    match op
    case Message(ctx, now) => EvaluateSound(s, ctx, now, host);
    case Save(id, draft) =>
      var i := IndexOf(s.rules, id);
      if i < |s.rules| {
        var rule := s.rules[i];
        InstallSound(s, i, Edited(rule, draft), rule.conditions != draft.conditions
                     || (!rule.enabled && draft.enabled));
      }
    case Toggle(id, expected, enabled) =>
      var i := IndexOf(s.rules, id);
      if i < |s.rules| {
        var rule := s.rules[i];
        InstallSound(s, i, rule.(enabled := enabled, revision := rule.revision + 1), !rule.enabled && enabled);
      }
    case Reconcile(rules) =>
    case RestartAt(epoch) =>
      UnhitEach(s.rules);
      SameIdsSame(s.rules, UnhitAll(s.rules));
  }

  lemma {:induction false} RunSound(s: EngineState, ops: seq<Op>, n: nat, host: Host)
    requires Sound(s) && Proper(ops) && n <= |ops|
    ensures Sound(At(s, ops, n, host))
  {
    if n > 0 {
      RunSound(s, ops, n - 1, host);
      ApplySound(At(s, ops, n - 1, host), ops[n - 1], host);
    }
  }

  // ---- the edit paths agree ----

  /** Reconciling with the rules already loaded keeps every counter. */
  lemma ReconcileIdentity(s: EngineState)
    requires Sound(s)
    ensures AfterReconcile(s, s.rules) == s
  {
    forall key | key in s.counters
      ensures forall i :: 0 <= i < |s.rules| && s.rules[i].id == key.ruleId ==> KeepsCounters(s.rules, s.rules[i])
    {
      assert Has(s.rules, key.ruleId);
    }
    assert AfterReconcile(s, s.rules).counters == s.counters;
  }

  /** Editing one rule in place and reconciling with the edited list leave the same counters. */
  lemma InstallIsReconcile(s: EngineState, i: nat, rule: Rule, reset: bool)
    requires Sound(s) && i < |s.rules| && rule.id == s.rules[i].id
    requires reset <==> s.rules[i].conditions != rule.conditions || (!s.rules[i].enabled && rule.enabled)
    ensures var edited := Install(s, i, rule, reset);
            edited.counters == AfterReconcile(s, edited.rules).counters
  {
    var edited := Install(s, i, rule, reset);
    SameIdsSame(s.rules, edited.rules);
    forall key | key in s.counters
      ensures key in edited.counters <==> key in AfterReconcile(s, edited.rules).counters
    {
      InstallKeepsKey(s, i, rule, reset, key.ruleId);
    }
  }

  lemma InstallKeepsKey(s: EngineState, i: nat, rule: Rule, reset: bool, id: RuleId)
    requires Sound(s) && i < |s.rules| && rule.id == s.rules[i].id && Has(s.rules, id)
    requires reset <==> s.rules[i].conditions != rule.conditions || (!s.rules[i].enabled && rule.enabled)
    ensures var edited := Install(s, i, rule, reset).rules;
            && Has(edited, id)
            && ((forall j :: 0 <= j < |edited| && edited[j].id == id ==> KeepsCounters(s.rules, edited[j]))
                <==> !(reset && s.rules[i].id == id))
  {
    var edited := Install(s, i, rule, reset).rules;
    SameIdsSame(s.rules, edited);
    var k := IndexOf(s.rules, id);
    assert edited[k].id == id;
    assert forall j :: 0 <= j < |edited| && edited[j].id == id ==> j == k;
  }

  /** A successful save or toggle leaves exactly the counters a reconcile with the edited list leaves. */
  lemma EditsAgree(s: EngineState, op: Op, host: Host)
    requires Sound(s) && (op.Save? || op.Toggle?)
    ensures Apply(s, op, host).counters == AfterReconcile(s, Apply(s, op, host).rules).counters
  {
    hide DraftOk, Install, AfterReconcile, Sound;
    var i := IndexOf(s.rules, op.id);
    ReconcileIdentity(s);
    if i < |s.rules| {
      var rule := s.rules[i];
      if op.Save? {
        var edited := Edited(rule, op.draft);
        InstallIsReconcile(s, i, edited, rule.conditions != op.draft.conditions || (!rule.enabled && op.draft.enabled));
      } else {
        var edited := rule.(enabled := op.enabled, revision := rule.revision + 1);
        InstallIsReconcile(s, i, edited, !rule.enabled && op.enabled);
      }
    }
  }

  // ---- terminals do not influence each other ----

  predicate Own(op: Op, t: TerminalIdentity) {
    op.Message? && op.ctx.terminal == t
  }

  predicate Foreign(op: Op, t: TerminalIdentity) {
    op.Message? && op.ctx.terminal != t
  }

  /** Runs all operations and collects the evaluations of the messages of `t`. */
  function EvaluationsFor(s: EngineState, ops: seq<Op>, t: TerminalIdentity, host: Host): seq<RuleEvaluation>
    decreases |ops|
  {
    if ops == [] then []
    else
      (if Own(ops[0], t) then [Evaluation(s, ops[0].ctx, host)] else [])
      + EvaluationsFor(Apply(s, ops[0], host), ops[1..], t, host)
  }

  /** The run without the messages of the other terminals; edits, snapshots and restarts stay. */
  function Only(ops: seq<Op>, t: TerminalIdentity): seq<Op> {
    if ops == [] then [] else (if Foreign(ops[0], t) then [] else [ops[0]]) + Only(ops[1..], t)
  }

  ghost predicate NoOneShot(rules: seq<Rule>) {
    forall i :: 0 <= i < |rules| ==> !rules[i].oneShot
  }

  /** The operation brings in no one-shot rule. */
  ghost predicate Plain(op: Op) {
    match op
    case Save(_, draft) => !draft.oneShot
    case Reconcile(rules) => NoOneShot(rules)
    case _ => true
  }

  function NextEpoch(epoch: Option<Epoch>, op: Op): Option<Epoch> {
    match op
    case Message(ctx, _) => Some(ctx.runtimeEpoch)
    case RestartAt(next) => Some(next)
    case _ => epoch
  }

  /** No message of another terminal restarts the engine: each carries the epoch in force. */
  predicate OwnRestarts(epoch: Option<Epoch>, ops: seq<Op>, t: TerminalIdentity)
    decreases |ops|
  {
    ops != [] ==>
      && (Foreign(ops[0], t) ==> epoch == Some(ops[0].ctx.runtimeEpoch))
      && OwnRestarts(NextEpoch(epoch, ops[0]), ops[1..], t)
  }

  /** The two states cannot be told apart by edits and by messages of `t`. */
  ghost predicate Similar(a: EngineState, b: EngineState, t: TerminalIdentity) {
    a.epoch == b.epoch && UnhitAll(a.rules) == UnhitAll(b.rules) && AgreeOn(a.counters, b.counters, t)
  }

  lemma MarkedUnhit(rules: seq<Rule>, hits: seq<RuleId>, now: int)
    requires NoOneShot(rules)
    ensures UnhitAll(MarkHits(rules, hits, now)) == UnhitAll(rules) && NoOneShot(MarkHits(rules, hits, now))
  {
    MarkedEach(rules, hits, now);
    UnhitEach(rules);
    UnhitEach(MarkHits(rules, hits, now));
  }

  lemma RestartSimilar(a: EngineState, b: EngineState, epoch: Epoch, t: TerminalIdentity)
    requires NoOneShot(a.rules) && UnhitAll(a.rules) == UnhitAll(b.rules)
    ensures NoOneShot(Restart(a, epoch).rules) && Similar(Restart(a, epoch), Restart(b, epoch), t)
  {
    UnhitEach(a.rules);
  }

  /** A message of another terminal that restarts nothing leaves a similar state. */
  lemma OtherMessage(s: EngineState, ctx: MatchContext, now: int, host: Host, t: TerminalIdentity)
    requires NoOneShot(s.rules) && ctx.terminal != t && s.epoch == Some(ctx.runtimeEpoch)
    ensures NoOneShot(AfterEvaluate(s, ctx, now, host).rules)
    ensures Similar(AfterEvaluate(s, ctx, now, host), s, t)
  {
    hide Scan, EvaluationOrder, MarkHits, UnhitAll;
    MarkedUnhit(s.rules, OutcomeOf(s, ctx, host).hits, now);
    ScanLocal(EvaluationOrder(s.rules), s.counters, s.counters, ctx, host);
  }

  /** A message of `t` gets the same evaluation in similar states and leaves them similar. */
  lemma OwnMessage(a: EngineState, b: EngineState, ctx: MatchContext, now: int, host: Host)
    requires NoOneShot(a.rules) && NoOneShot(b.rules) && Similar(a, b, ctx.terminal)
    ensures Evaluation(a, ctx, host) == Evaluation(b, ctx, host)
    ensures var a', b' := AfterEvaluate(a, ctx, now, host), AfterEvaluate(b, ctx, now, host);
            NoOneShot(a'.rules) && NoOneShot(b'.rules) && Similar(a', b', ctx.terminal)
  {
    hide Scan, EvaluationOrder, MarkHits, UnhitAll, Restart;
    var p, q := Prepare(a, ctx.runtimeEpoch), Prepare(b, ctx.runtimeEpoch);
    RestartSimilar(a, b, ctx.runtimeEpoch, ctx.terminal);
    RestartSimilar(b, a, ctx.runtimeEpoch, ctx.terminal);
    SameOutcome(p.rules, q.rules, p.counters, q.counters, ctx, host);
    MarkedUnhit(p.rules, OutcomeOf(a, ctx, host).hits, now);
    MarkedUnhit(q.rules, OutcomeOf(b, ctx, host).hits, now);
  }

  lemma SameOutcome(a: seq<Rule>, b: seq<Rule>, ca: Counters, cb: Counters, ctx: MatchContext, host: Host)
    requires UnhitAll(a) == UnhitAll(b) && AgreeOn(ca, cb, ctx.terminal)
    ensures var x, y := Scan(EvaluationOrder(a), ca, ctx, host), Scan(EvaluationOrder(b), cb, ctx, host);
            x.evaluation == y.evaluation && x.hits == y.hits && AgreeOn(x.counters, y.counters, ctx.terminal)
  {
    hide Scan, EvaluationOrder, UnhitAll;
    OrderUnhit(a);
    OrderUnhit(b);
    ScanUnhit(EvaluationOrder(a), ca, ctx, host);
    ScanUnhit(EvaluationOrder(b), cb, ctx, host);
    ScanLocal(UnhitAll(EvaluationOrder(a)), ca, cb, ctx, host);
  }

  /** What edits look at is the same in lists that differ in their hits only. */
  lemma UnhitSame(a: seq<Rule>, b: seq<Rule>)
    requires UnhitAll(a) == UnhitAll(b)
    ensures |a| == |b| && forall i :: 0 <= i < |a| ==> Unhit(a[i]) == Unhit(b[i])
    ensures forall id :: IndexOf(a, id) == IndexOf(b, id)
    ensures forall r :: KeepsCounters(a, r) <==> KeepsCounters(b, r)
  {
    UnhitEach(a);
    UnhitEach(b);
    forall i | 0 <= i < |a|
      ensures Unhit(a[i]) == Unhit(b[i]) && a[i].id == b[i].id
    {
      assert UnhitAll(a)[i] == UnhitAll(b)[i];
    }
    SameIdsSame(a, b);
  }

  lemma InstallSimilar(a: EngineState, b: EngineState, i: nat, x: Rule, y: Rule, reset: bool, t: TerminalIdentity)
    requires Similar(a, b, t) && i < |a.rules| && |a.rules| == |b.rules| && Unhit(x) == Unhit(y)
    requires a.rules[i].id == b.rules[i].id
    ensures Similar(Install(a, i, x, reset), Install(b, i, y, reset), t)
  {
    hide MapRules;
    var a', b' := Install(a, i, x, reset), Install(b, i, y, reset);
    UnhitEach(a.rules);
    UnhitEach(b.rules);
    UnhitEach(a'.rules);
    UnhitEach(b'.rules);
    assert UnhitAll(a'.rules) == UnhitAll(a.rules)[i := Unhit(x)];
    assert UnhitAll(b'.rules) == UnhitAll(b.rules)[i := Unhit(y)];
  }

  lemma SaveSimilar(a: EngineState, b: EngineState, id: RuleId, draft: RuleDraft, ok: bool, t: TerminalIdentity)
    requires Similar(a, b, t) && NoOneShot(a.rules) && !draft.oneShot
    ensures var x, y := AfterSave(a, id, draft, ok), AfterSave(b, id, draft, ok);
            && (x.Ok? <==> y.Ok?)
            && (x.Ok? ==> Similar(x.value, y.value, t) && NoOneShot(x.value.rules))
  {
    hide UnhitAll, Install, AgreeOn, KeepsCounters, NoOneShot;
    UnhitSame(a.rules, b.rules);
    var i := IndexOf(a.rules, id);
    if i < |a.rules| {
      var x, y := a.rules[i], b.rules[i];
      assert Unhit(x) == Unhit(y);
      var reset := x.conditions != draft.conditions || (!x.enabled && draft.enabled);
      InstallSimilar(a, b, i, Edited(x, draft), Edited(y, draft), reset, t);
      InstallPlain(a, i, Edited(x, draft), reset);
    }
  }

  lemma ToggleSimilar(a: EngineState, b: EngineState, id: RuleId, expected: nat, enabled: bool, t: TerminalIdentity)
    requires Similar(a, b, t) && NoOneShot(a.rules)
    ensures var x, y := AfterToggle(a, id, expected, enabled), AfterToggle(b, id, expected, enabled);
            && (x.Ok? <==> y.Ok?)
            && (x.Ok? ==> Similar(x.value, y.value, t) && NoOneShot(x.value.rules))
  {
    hide UnhitAll, Install, AgreeOn, KeepsCounters;
    UnhitSame(a.rules, b.rules);
    var i := IndexOf(a.rules, id);
    if i < |a.rules| {
      var x, y := a.rules[i], b.rules[i];
      assert Unhit(x) == Unhit(y);
      var x' := x.(enabled := enabled, revision := x.revision + 1);
      var y' := y.(enabled := enabled, revision := y.revision + 1);
      InstallSimilar(a, b, i, x', y', !x.enabled && enabled, t);
      InstallPlain(a, i, x', !x.enabled && enabled);
    }
  }

  lemma EditSimilar(a: EngineState, b: EngineState, op: Op, host: Host, t: TerminalIdentity)
    requires Similar(a, b, t) && NoOneShot(a.rules) && !op.Message? && Plain(op)
    ensures Similar(Apply(a, op, host), Apply(b, op, host), t) && NoOneShot(Apply(a, op, host).rules)
  {
    hide DraftOk, UnhitAll, AfterSave, AfterToggle, AgreeOn, KeepsCounters, Restart, NoOneShot;
    match op
    case Save(id, draft) => SaveSimilar(a, b, id, draft, DraftOk(draft, host), t);
    case Toggle(id, expected, enabled) => ToggleSimilar(a, b, id, expected, enabled, t);
    case Reconcile(rules) =>
      UnhitSame(a.rules, b.rules);
      ReconcileSimilar(a, b, rules, t);
    case RestartAt(epoch) => RestartSimilar(a, b, epoch, t);
  }

  lemma InstallPlain(s: EngineState, i: nat, rule: Rule, reset: bool)
    requires NoOneShot(s.rules) && i < |s.rules| && !rule.oneShot
    ensures NoOneShot(Install(s, i, rule, reset).rules)
  {
  }

  lemma ReconcileSimilar(a: EngineState, b: EngineState, rules: seq<Rule>, t: TerminalIdentity)
    requires Similar(a, b, t) && forall r :: KeepsCounters(a.rules, r) <==> KeepsCounters(b.rules, r)
    ensures Similar(AfterReconcile(a, rules), AfterReconcile(b, rules), t)
  {
    hide KeepsCounters, UnhitAll;
    var a', b' := AfterReconcile(a, rules), AfterReconcile(b, rules);
    forall id
      ensures Count(a'.counters, CounterKey(id, t)) == Count(b'.counters, CounterKey(id, t))
    {
      var kept := Has(rules, id) && forall i :: 0 <= i < |rules| && rules[i].id == id ==>
                  KeepsCounters(a.rules, rules[i]);
      assert Count(a'.counters, CounterKey(id, t)) == if kept then Count(a.counters, CounterKey(id, t)) else 0;
      assert Count(b'.counters, CounterKey(id, t)) == if kept then Count(b.counters, CounterKey(id, t)) else 0;
    }
  }

  lemma SimilarTransitive(a: EngineState, b: EngineState, c: EngineState, t: TerminalIdentity)
    requires Similar(a, b, t) && Similar(b, c, t)
    ensures Similar(a, c, t)
  {
  }

  lemma {:induction false} NonInterferenceFrom(a: EngineState, b: EngineState, ops: seq<Op>, t: TerminalIdentity,
                                               host: Host)
    requires NoOneShot(a.rules) && NoOneShot(b.rules) && forall i :: 0 <= i < |ops| ==> Plain(ops[i])
    requires Similar(a, b, t) && OwnRestarts(a.epoch, ops, t)
    ensures EvaluationsFor(a, ops, t, host) == EvaluationsFor(b, Only(ops, t), t, host)
    decreases |ops|
  {
    hide Evaluation, AfterEvaluate, AfterSave, AfterToggle, AfterReconcile, Restart, Similar, Plain, NoOneShot;
    if ops != [] {
      var op := ops[0];
      var a', b' := Apply(a, op, host), Apply(b, op, host);
      EpochNext(a, op, host);
      if Own(op, t) {
        OwnMessage(a, b, op.ctx, op.now, host);
      } else if Foreign(op, t) {
        OtherMessage(a, op.ctx, op.now, host, t);
        SimilarTransitive(a', a, b, t);
        b' := b;
      } else {
        EditSimilar(a, b, op, host, t);
        SimilarSymmetric(a, b, t);
        EditSimilar(b, a, op, host, t);
      }
      NonInterferenceFrom(a', b', ops[1..], t, host);
      if Foreign(op, t) {
        assert Only(ops, t) == Only(ops[1..], t);
      } else {
        assert Only(ops, t)[0] == op && Only(ops, t)[1..] == Only(ops[1..], t);
      }
    }
  }

  lemma SimilarSymmetric(a: EngineState, b: EngineState, t: TerminalIdentity)
    requires Similar(a, b, t)
    ensures Similar(b, a, t)
  {
  }

  lemma EpochNext(s: EngineState, op: Op, host: Host)
    ensures Apply(s, op, host).epoch == NextEpoch(s.epoch, op)
  {
    hide DraftOk, Scan, MapRules;
  }

  /**
   * Without one-shot rules and as long as only edits, snapshots, restarts and the own messages restart the engine,
   * a terminal gets the evaluations it would get without the messages of the others.
   */
  lemma NonInterference(s: EngineState, ops: seq<Op>, t: TerminalIdentity, host: Host)
    requires NoOneShot(s.rules) && forall i :: 0 <= i < |ops| ==> Plain(ops[i])
    requires OwnRestarts(s.epoch, ops, t)
    ensures EvaluationsFor(s, ops, t, host) == EvaluationsFor(s, Only(ops, t), t, host)
  {
    NonInterferenceFrom(s, s, ops, t, host);
  }

  /** From any state, messages of one epoch alone do not influence each other across terminals. */
  lemma NonInterferenceInEpoch(s: EngineState, ops: seq<Op>, epoch: Epoch, t: TerminalIdentity, host: Host)
    requires NoOneShot(s.rules)
    requires forall i :: 0 <= i < |ops| ==> ops[i].Message? && ops[i].ctx.runtimeEpoch == epoch
    ensures EvaluationsFor(s, ops, t, host) == EvaluationsFor(s, Only(ops, t), t, host)
  {
    hide Evaluation, AfterEvaluate, NoOneShot;
    var p := Prepare(s, epoch);
    assert NoOneShot(p.rules) by {
      RestartSimilar(s, s, epoch, t);
    }
    OneEpoch(ops, epoch, t);
    NonInterference(p, ops, t, host);
    PreparedFirst(s, ops, epoch, t, host);
    PreparedFirst(s, Only(ops, t), epoch, t, host);
  }

  lemma {:induction false} OneEpoch(ops: seq<Op>, epoch: Epoch, t: TerminalIdentity)
    requires forall i :: 0 <= i < |ops| ==> ops[i].Message? && ops[i].ctx.runtimeEpoch == epoch
    ensures OwnRestarts(Some(epoch), ops, t)
    ensures forall i :: 0 <= i < |Only(ops, t)| ==>
              Only(ops, t)[i].Message? && Only(ops, t)[i].ctx.runtimeEpoch == epoch
  {
    if ops != [] {
      OneEpoch(ops[1..], epoch, t);
    }
  }

  lemma PreparedFirst(s: EngineState, ops: seq<Op>, epoch: Epoch, t: TerminalIdentity, host: Host)
    requires ops != [] ==> ops[0].Message? && ops[0].ctx.runtimeEpoch == epoch
    ensures EvaluationsFor(Prepare(s, epoch), ops, t, host) == EvaluationsFor(s, ops, t, host)
  {
    hide Scan, MarkHits, EvaluationOrder, UnhitAll;
    if ops != [] {
      assert Apply(Prepare(s, epoch), ops[0], host) == Apply(s, ops[0], host);
    }
  }

  // ---- the meaning of the counters ----

  /** The operation starts the counters of rule `id` over. */
  ghost predicate Resets(s: EngineState, op: Op, id: RuleId, host: Host) {
    match op
    case Message(ctx, _) => s.epoch != Some(ctx.runtimeEpoch)
    case RestartAt(_) => true
    case Save(rule, draft) =>
      rule == id && AfterSave(s, rule, draft, DraftOk(draft, host)).Ok?
      && var i := IndexOf(s.rules, id);
         i < |s.rules| && (s.rules[i].conditions != draft.conditions || (!s.rules[i].enabled && draft.enabled))
    case Toggle(rule, expected, enabled) =>
      rule == id && AfterToggle(s, rule, expected, enabled).Ok?
      && var i := IndexOf(s.rules, id);
         i < |s.rules| && !s.rules[i].enabled && enabled
    case Reconcile(rules) =>
      !Has(rules, id) || exists i :: 0 <= i < |rules| && rules[i].id == id && !KeepsCounters(s.rules, rules[i])
  }

  /** The operation is a message of this terminal that reached the rule with all field conditions satisfied. */
  ghost predicate Reaches(s: EngineState, op: Op, key: CounterKey, host: Host) {
    op.Message? && op.ctx.terminal == key.terminal
    && Traced(Evaluation(s, op.ctx, host).traces, key.ruleId)
    && Candidate(s.rules, key.ruleId, op.ctx, host)
  }

  /**
   * How often the key was reached since its last reset, counted from the traces of the run and not read from
   * the counter.
   */
  ghost function Reached(s: EngineState, ops: seq<Op>, n: nat, key: CounterKey, host: Host): nat
    requires n <= |ops|
  {
    if n == 0 then Count(s.counters, key)
    else
      var before := At(s, ops, n - 1, host);
      (if Resets(before, ops[n - 1], key.ruleId, host) then 0 else Reached(s, ops, n - 1, key, host))
      + (if Reaches(before, ops[n - 1], key, host) then 1 else 0)
  }

  lemma UnhitMembers(rules: seq<Rule>)
    ensures forall r :: r in rules ==> Unhit(r) in UnhitAll(rules)
    ensures forall u :: u in UnhitAll(rules) ==> exists r :: r in rules && Unhit(r) == u
  {
    hide MapRules;
    UnhitEach(rules);
    forall r | r in rules
      ensures Unhit(r) in UnhitAll(rules)
    {
      var i :| 0 <= i < |rules| && rules[i] == r;
      assert UnhitAll(rules)[i] == Unhit(r);
    }
    forall u | u in UnhitAll(rules)
      ensures exists r :: r in rules && Unhit(r) == u
    {
      var i :| 0 <= i < |rules| && UnhitAll(rules)[i] == u;
      assert rules[i] in rules && Unhit(rules[i]) == u;
    }
  }

  lemma CandidateUnhit(rules: seq<Rule>, id: RuleId, ctx: MatchContext, host: Host)
    ensures Candidate(UnhitAll(rules), id, ctx, host) <==> Candidate(rules, id, ctx, host)
  {
    hide FieldsVerdict, NthValues, UnhitAll;
    UnhitMembers(rules);
    if Candidate(rules, id, ctx, host) {
      var r :| r in rules && r.id == id && Counted(r) && FieldsVerdict(r.conditions, ctx, host).Yes?;
      assert Unhit(r) in UnhitAll(rules);
    }
  }

  lemma CandidateSame(a: seq<Rule>, b: seq<Rule>, id: RuleId, ctx: MatchContext, host: Host)
    requires forall r :: r in a <==> r in b
    ensures Candidate(a, id, ctx, host) <==> Candidate(b, id, ctx, host)
  {
  }

  lemma MessageCounts(s: EngineState, ctx: MatchContext, now: int, key: CounterKey, host: Host)
    requires Sound(s)
    ensures Count(AfterEvaluate(s, ctx, now, host).counters, key) ==
            (if s.epoch != Some(ctx.runtimeEpoch) then 0 else Count(s.counters, key))
            + if Reaches(s, Message(ctx, now), key, host) then 1 else 0
  {
    hide Scan, EvaluationOrder, MarkHits, Candidate;
    var p := Prepare(s, ctx.runtimeEpoch);
    PrepareSound(s, ctx.runtimeEpoch);
    OrderedDistinct(p.rules);
    ScanCounts(EvaluationOrder(p.rules), p.counters, ctx, host, key);
    CandidateUnhit(s.rules, key.ruleId, ctx, host);
    CandidateSame(EvaluationOrder(p.rules), p.rules, key.ruleId, ctx, host);
  }

  lemma EditCounts(s: EngineState, op: Op, key: CounterKey, host: Host)
    requires !op.Message?
    ensures Count(Apply(s, op, host).counters, key) ==
            if Resets(s, op, key.ruleId, host) then 0 else Count(s.counters, key)
  {
    hide DraftOk, KeepsCounters;
  }

  lemma StepCounts(s: EngineState, op: Op, key: CounterKey, host: Host)
    requires Sound(s)
    ensures Count(Apply(s, op, host).counters, key) ==
            (if Resets(s, op, key.ruleId, host) then 0 else Count(s.counters, key))
            + if Reaches(s, op, key, host) then 1 else 0
  {
    hide AfterEvaluate, AfterSave, AfterToggle, AfterReconcile;
    if op.Message? {
      MessageCounts(s, op.ctx, op.now, key, host);
    } else {
      EditCounts(s, op, key, host);
    }
  }

  /** The counter of a rule and terminal is the number of times they were reached since the last reset. */
  lemma {:induction false} CounterMeaning(s: EngineState, ops: seq<Op>, n: nat, key: CounterKey, host: Host)
    requires Sound(s) && Proper(ops) && n <= |ops|
    ensures Count(At(s, ops, n, host).counters, key) == Reached(s, ops, n, key, host)
  {
    hide Apply, Resets, Reaches;
    if n > 0 {
      RunSound(s, ops, n - 1, host);
      CounterMeaning(s, ops, n - 1, key, host);
      StepCounts(At(s, ops, n - 1, host), ops[n - 1], key, host);
    }
  }

  // ---- at most once ----

  /** The rule of this id is present and enabled. */
  ghost predicate Enabled(s: EngineState, id: RuleId) {
    exists r :: r in s.rules && r.id == id && r.enabled
  }

  /** The rule as the evaluation sees it. */
  function Seen(s: EngineState, r: Rule, epoch: Epoch): Rule {
    if s.epoch != Some(epoch) then Unhit(r) else r
  }

  lemma MatchedMeans(s: EngineState, ctx: MatchContext, now: int, host: Host, r: Rule)
    requires Sound(s) && r in s.rules && MatchedIn(Evaluation(s, ctx, host), r.id)
    ensures Applicable(r, ctx) && FieldsVerdict(r.conditions, ctx, host).Yes?
    ensures CountsFit(r, AfterEvaluate(s, ctx, now, host).counters, ctx.terminal)
  {
    hide Scan, EvaluationOrder, MarkHits, FieldsVerdict, UnhitAll;
    var p := Prepare(s, ctx.runtimeEpoch);
    PrepareSound(s, ctx.runtimeEpoch);
    OrderedDistinct(p.rules);
    UnhitMembers(s.rules);
    var e := Evaluation(s, ctx, host);
    var i :| 0 <= i < |e.traces| && e.traces[i].ruleId == r.id && e.traces[i].Matched();
    ScanMatched(EvaluationOrder(p.rules), p.counters, ctx, host, i, Seen(s, r, ctx.runtimeEpoch));
  }

  lemma MeansMatched(s: EngineState, ctx: MatchContext, now: int, host: Host, r: Rule)
    requires Sound(s) && r in s.rules && Traced(Evaluation(s, ctx, host).traces, r.id)
    requires FieldsVerdict(r.conditions, ctx, host).Yes?
    requires CountsFit(r, AfterEvaluate(s, ctx, now, host).counters, ctx.terminal)
    ensures MatchedIn(Evaluation(s, ctx, host), r.id)
  {
    hide Scan, EvaluationOrder, MarkHits, FieldsVerdict, UnhitAll, MatchedIn, Traced, Count;
    var p := Prepare(s, ctx.runtimeEpoch);
    PrepareSound(s, ctx.runtimeEpoch);
    OrderedDistinct(p.rules);
    UnhitMembers(s.rules);
    ScanMatches(EvaluationOrder(p.rules), p.counters, ctx, host, Seen(s, r, ctx.runtimeEpoch));
  }

  /**
   * A rule is reported as matched exactly if it was reached, its field conditions held, and its counter
   * for the terminal has just become each of its n; and then it was enabled, for this channel and stage.
   */
  lemma MatchMeaning(s: EngineState, ctx: MatchContext, now: int, host: Host, r: Rule)
    requires Sound(s) && r in s.rules
    ensures MatchedIn(Evaluation(s, ctx, host), r.id) <==>
              Traced(Evaluation(s, ctx, host).traces, r.id) && FieldsVerdict(r.conditions, ctx, host).Yes?
              && CountsFit(r, AfterEvaluate(s, ctx, now, host).counters, ctx.terminal)
    ensures MatchedIn(Evaluation(s, ctx, host), r.id) ==> Applicable(r, ctx)
  {
    hide Evaluation, AfterEvaluate, FieldsVerdict, Applicable, CountsFit, Traced, MatchedIn;
    if MatchedIn(Evaluation(s, ctx, host), r.id) {
      MatchedMeans(s, ctx, now, host, r);
      MatchedTraced(Evaluation(s, ctx, host), r.id);
    } else if Traced(Evaluation(s, ctx, host).traces, r.id) && FieldsVerdict(r.conditions, ctx, host).Yes?
              && CountsFit(r, AfterEvaluate(s, ctx, now, host).counters, ctx.terminal) {
      MeansMatched(s, ctx, now, host, r);
    }
  }

  /** Two different n on one rule can never both be the current count: such a rule never matches. */
  lemma TwoCountsNeverMatch(s: EngineState, ctx: MatchContext, host: Host, r: Rule, m: nat, n: nat)
    requires Sound(s) && r in s.rules && NthHit(m) in r.conditions && NthHit(n) in r.conditions && m != n
    ensures !MatchedIn(Evaluation(s, ctx, host), r.id)
  {
    hide MatchedIn, Evaluation, AfterEvaluate;
    if MatchedIn(Evaluation(s, ctx, host), r.id) {
      MatchedMeans(s, ctx, 0, host, r);
      assert false;
    }
  }

  lemma MatchReaches(s: EngineState, ctx: MatchContext, now: int, host: Host, r: Rule, n: nat)
    requires Sound(s) && r in s.rules && MatchedIn(Evaluation(s, ctx, host), r.id) && NthHit(n) in r.conditions
    ensures Reaches(s, Message(ctx, now), CounterKey(r.id, ctx.terminal), host)
  {
    hide Evaluation, FieldsVerdict;
    MatchedMeans(s, ctx, now, host, r);
    NthValuesMembers(r.conditions, n);
  }

  /** Without a reset a counter never goes back. */
  lemma {:induction false} CountersGrow(s: EngineState, ops: seq<Op>, i: nat, j: nat, key: CounterKey, host: Host)
    requires Sound(s) && Proper(ops) && i <= j <= |ops|
    requires forall m :: i <= m < j ==> !Resets(At(s, ops, m, host), ops[m], key.ruleId, host)
    ensures Count(At(s, ops, i, host).counters, key) <= Count(At(s, ops, j, host).counters, key)
    decreases j - i
  {
    hide Apply, Resets, Reaches, Count;
    if i < j {
      CountersGrow(s, ops, i, j - 1, key, host);
      RunSound(s, ops, j - 1, host);
      StepCounts(At(s, ops, j - 1, host), ops[j - 1], key, host);
    }
  }

  /**
   * A rule with NthHit(n) matches at most once per terminal and reset period: between two matches
   * for the same terminal there is a reset.
   */
  lemma NthHitOncePerPeriod(s: EngineState, ops: seq<Op>, i: nat, j: nat, id: RuleId, n: nat, ri: Rule, rj: Rule,
                            host: Host)
    requires Sound(s) && Proper(ops) && i < j < |ops| && ops[i].Message? && ops[j].Message?
    requires ops[i].ctx.terminal == ops[j].ctx.terminal
    requires ri in At(s, ops, i, host).rules && rj in At(s, ops, j, host).rules && ri.id == rj.id == id
    requires NthHit(n) in ri.conditions && NthHit(n) in rj.conditions
    requires MatchedIn(Evaluation(At(s, ops, i, host), ops[i].ctx, host), id)
    requires MatchedIn(Evaluation(At(s, ops, j, host), ops[j].ctx, host), id)
    ensures exists m :: i < m <= j && Resets(At(s, ops, m, host), ops[m], id, host)
  {
    hide MatchedIn, Evaluation, AfterEvaluate, Resets, Reaches, Count, Sound, Proper, FieldsVerdict, Applicable;
    var t := ops[i].ctx.terminal;
    var key := CounterKey(id, t);
    var si, sj := At(s, ops, i, host), At(s, ops, j, host);
    RunSound(s, ops, i, host);
    RunSound(s, ops, j, host);
    MatchedMeans(si, ops[i].ctx, ops[i].now, host, ri);
    MatchedMeans(sj, ops[j].ctx, ops[j].now, host, rj);
    assert At(s, ops, i + 1, host) == AfterEvaluate(si, ops[i].ctx, ops[i].now, host);
    if forall m :: i < m <= j ==> !Resets(At(s, ops, m, host), ops[m], id, host) {
      CountersGrow(s, ops, i + 1, j, key, host);
      MatchReaches(sj, ops[j].ctx, ops[j].now, host, rj, n);
      StepCounts(sj, ops[j], key, host);
      assert false;
    }
  }

  // ---- one-shot rules ----

  /** A matched one-shot rule is switched off by the very message it matched. */
  lemma OneShotSwitchesOff(s: EngineState, ctx: MatchContext, now: int, host: Host, r: Rule)
    requires Sound(s) && r in s.rules && r.oneShot && MatchedIn(Evaluation(s, ctx, host), r.id)
    ensures !Enabled(AfterEvaluate(s, ctx, now, host), r.id)
  {
    hide Scan, EvaluationOrder, MarkHits, MatchedIn, UnhitAll;
    var p := Prepare(s, ctx.runtimeEpoch);
    var o := OutcomeOf(s, ctx, host);
    PrepareSound(s, ctx.runtimeEpoch);
    ScanHits(EvaluationOrder(p.rules), p.counters, ctx, host, r.id);
    UnhitMembers(s.rules);
    var seen := Seen(s, r, ctx.runtimeEpoch);
    assert seen in p.rules && seen.oneShot;
    MarkedEach(p.rules, o.hits, now);
    forall q | q in MarkHits(p.rules, o.hits, now) && q.id == r.id
      ensures !q.enabled
    {
      var i :| 0 <= i < |p.rules| && MarkHits(p.rules, o.hits, now)[i] == q;
      var k :| 0 <= k < |p.rules| && p.rules[k] == seen;
      assert i == k;
    }
  }

  /** Only an enabled rule matches. */
  lemma MatchedIsEnabled(s: EngineState, ctx: MatchContext, host: Host, id: RuleId)
    requires Sound(s) && MatchedIn(Evaluation(s, ctx, host), id)
    ensures Enabled(s, id)
  {
    hide Scan, EvaluationOrder, MatchedIn, UnhitAll, Applicable;
    var p := Prepare(s, ctx.runtimeEpoch);
    OrderedDistinct(p.rules) by {
      PrepareSound(s, ctx.runtimeEpoch);
    }
    ScanHits(EvaluationOrder(p.rules), p.counters, ctx, host, id);
    MatchedTraced(Evaluation(s, ctx, host), id);
    var seen :| seen in EvaluationOrder(p.rules) && seen.id == id;
    var r := Source(s, ctx.runtimeEpoch, seen);
    MatchedMeans(s, ctx, 0, host, r);
    ApplicableEnabled(r, ctx);
  }

  lemma Source(s: EngineState, epoch: Epoch, seen: Rule) returns (r: Rule)
    requires seen in Prepare(s, epoch).rules
    ensures r in s.rules && r.id == seen.id && Seen(s, r, epoch) == seen
  {
    UnhitMembers(s.rules);
    if s.epoch != Some(epoch) {
      r :| r in s.rules && Unhit(r) == seen;
    } else {
      r := seen;
    }
  }

  lemma MatchedTraced(e: RuleEvaluation, id: RuleId)
    requires MatchedIn(e, id)
    ensures Traced(e.traces, id)
  {
  }

  lemma ApplicableEnabled(r: Rule, ctx: MatchContext)
    requires Applicable(r, ctx)
    ensures r.enabled
  {
  }

  /** Messages and restarts never switch a rule on. */
  lemma OnlyEditsEnable(s: EngineState, op: Op, id: RuleId, host: Host)
    requires op.Message? || op.RestartAt?
    requires Enabled(Apply(s, op, host), id)
    ensures Enabled(s, id)
  {
    hide Scan, EvaluationOrder, MarkHits, UnhitAll;
    UnhitMembers(s.rules);
    var next := Apply(s, op, host);
    var q :| q in next.rules && q.id == id && q.enabled;
    if op.Message? {
      var p := Prepare(s, op.ctx.runtimeEpoch);
      var hits := OutcomeOf(s, op.ctx, host).hits;
      MarkedEach(p.rules, hits, op.now);
      var i :| 0 <= i < |p.rules| && MarkHits(p.rules, hits, op.now)[i] == q;
      assert p.rules[i] in p.rules && p.rules[i].id == id && p.rules[i].enabled;
    }
  }

  lemma {:induction false} FirstEnabling(s: EngineState, ops: seq<Op>, i: nat, j: nat, id: RuleId, host: Host)
    requires i <= j <= |ops| && !Enabled(At(s, ops, i, host), id) && Enabled(At(s, ops, j, host), id)
    ensures exists m :: i <= m < j && !ops[m].Message? && !ops[m].RestartAt?
                        && !Enabled(At(s, ops, m, host), id) && Enabled(At(s, ops, m + 1, host), id)
    decreases j - i
  {
    hide Apply, Enabled;
    var before := At(s, ops, j - 1, host);
    if Enabled(before, id) {
      FirstEnabling(s, ops, i, j - 1, id, host);
    } else {
      if ops[j - 1].Message? || ops[j - 1].RestartAt? {
        OnlyEditsEnable(before, ops[j - 1], id, host);
      }
      assert Enabled(At(s, ops, (j - 1) + 1, host), id);
    }
  }

  /** A one-shot rule matches at most once until an edit or a snapshot switches it on again. */
  lemma OneShotOnce(s: EngineState, ops: seq<Op>, i: nat, j: nat, r: Rule, host: Host)
    requires Sound(s) && Proper(ops) && i < j < |ops| && ops[i].Message? && ops[j].Message?
    requires r in At(s, ops, i, host).rules && r.oneShot
    requires MatchedIn(Evaluation(At(s, ops, i, host), ops[i].ctx, host), r.id)
    requires MatchedIn(Evaluation(At(s, ops, j, host), ops[j].ctx, host), r.id)
    ensures exists m :: i < m < j && !ops[m].Message? && !ops[m].RestartAt?
                        && !Enabled(At(s, ops, m, host), r.id) && Enabled(At(s, ops, m + 1, host), r.id)
  {
    hide MatchedIn, Evaluation, AfterEvaluate, Enabled;
    RunSound(s, ops, i, host);
    RunSound(s, ops, j, host);
    OneShotSwitchesOff(At(s, ops, i, host), ops[i].ctx, ops[i].now, host, r);
    assert At(s, ops, i + 1, host) == AfterEvaluate(At(s, ops, i, host), ops[i].ctx, ops[i].now, host);
    MatchedIsEnabled(At(s, ops, j, host), ops[j].ctx, host, r.id);
    FirstEnabling(s, ops, i + 1, j, r.id, host);
  }
}
