/** The rule engine object: every operation is the corresponding function of the engine state. */
module RuleEngine {
  import opened Wrappers
  import opened Ordering
  import opened RuleModel
  import opened RuleValidation
  import opened RuleEvaluations
  import opened RuleRuns
  import opened RuleShadowing
  import opened RuleMeaning

  datatype Warning = Warning(shadowing: RuleId, shadowed: RuleId)

  class RuleEngine {
    const host: Host
    var runtimeEpoch: Option<Epoch>
    var rules: seq<Rule>
    var counters: Counters

    ghost function View(): EngineState
      reads this
    {
      EngineState(runtimeEpoch, rules, counters)
    }

    ghost predicate Valid()
      reads this
    {
      Sound(View())
    }

    constructor (epoch: Epoch, initial: seq<Rule>, hostLibrary: Host)
      requires DistinctIds(initial)
      ensures Valid() && View() == EngineState(Some(epoch), initial, map[]) && host == hostLibrary
    {
      runtimeEpoch, rules, counters := Some(epoch), initial, map[];
      host := hostLibrary;
    }

    method Restart(epoch: Epoch)
      requires Valid()
      modifies this
      ensures Valid() && View() == RuleModel.Restart(old(View()), epoch)
    {
      hide Sound, UnhitAll;
      ApplySound(View(), RestartAt(epoch), host);
      ghost var next := Apply(View(), RestartAt(epoch), host);
      runtimeEpoch := Some(epoch);
      counters := map[];
      var i := 0;
      UnhitStart(rules);
      while i < |rules|
        invariant i <= |rules| == |old(rules)| && rules == UnhitAll(old(rules)[..i]) + old(rules)[i..]
        invariant runtimeEpoch == Some(epoch) && counters == map[]
      {
        UnhitPush(old(rules), i);
        rules := rules[i := rules[i].(hitCount := 0, lastHitAt := None)];
        i := i + 1;
      }
      assert old(rules)[..i] == old(rules) && old(rules)[i..] == [];
      assert View() == next;
    }

    /** Replaces the rules by a snapshot and keeps the counters whose meaning did not change. */
    method ReconcileWith(next: seq<Rule>)
      requires Valid() && DistinctIds(next)
      modifies this
      ensures Valid() && View() == AfterReconcile(old(View()), next)
      ensures Reconciled(old(View()), View(), next)
    {
      hide Sound, KeepsCounters, DistinctIds, AfterEvaluate, AfterSave, AfterToggle, DraftOk, Reconciled;
      ReconciledExactly(View(), next);
      ApplySound(View(), Reconcile(next), host);
      ghost var after := Apply(View(), Reconcile(next), host);
      var resetIds: seq<RuleId> := [];
      for i := 0 to |next|
        invariant rules == old(rules) && counters == old(counters) && runtimeEpoch == old(runtimeEpoch)
        invariant forall id :: id in resetIds <==>
                    exists k :: 0 <= k < i && next[k].id == id && !KeepsCounters(rules, next[k])
      {
        KeepsMeaning(rules, next[i]);
        var at := IndexOf(rules, next[i].id);
        if !(at < |rules| && rules[at].conditions == next[i].conditions && (rules[at].enabled || !next[i].enabled)) {
          resetIds := resetIds + [next[i].id];
        }
      }
      counters := map key | key in counters && Has(next, key.ruleId) && key.ruleId !in resetIds :: counters[key];
      rules := next;
      assert View() == after;
    }

    /** Edits one rule under its revision; a refused edit changes nothing. */
    method SaveRule(id: RuleId, draft: RuleDraft) returns (r: Result<nat, EditError>)
      requires Valid()
      modifies this
      ensures Valid()
      ensures match AfterSave(old(View()), id, draft, DraftOk(draft, host))
              case Ok(next) => View() == next && r == Ok(draft.expectedRevision.value + 1)
              case Err(e) => View() == old(View()) && r == Err(e)
      ensures r.Ok? <==> Acceptable(draft, host)
                         && exists was ::
                              was in old(rules) && was.id == id && draft.expectedRevision == Some(was.revision)
      ensures r.Ok? ==> Saved(old(View()), View(), id, draft)
    {
      hide Sound, DraftOk, Acceptable, Edited, DistinctIds, Saved;
      AcceptedExactly(draft, host);
      SavedExactly(View(), id, draft, DraftOk(draft, host));
      ApplySound(View(), Save(id, draft), host);
      ghost var next := Apply(View(), Save(id, draft), host);
      var problems := ValidateRuleDraft(draft, host);
      if problems != [] {
        return Err(DraftInvalid);
      }
      var i := IndexOf(rules, id);
      if i == |rules| {
        return Err(RuleMissing);
      }
      if draft.expectedRevision.None? {
        return Err(RevisionMissing);
      }
      if rules[i].revision != draft.expectedRevision.value {
        return Err(RevisionConflict);
      }
      var mustReset := rules[i].conditions != draft.conditions || (!rules[i].enabled && draft.enabled);
      var edited := Edited(rules[i], draft);
      EditedKeeps(rules[i], draft);
      rules := rules[i := edited];
      EditedIndex(old(rules), i, edited);
      if mustReset {
        ResetRuleHits(id);
      }
      assert View() == next;
      r := Ok(edited.revision);
    }

    method ToggleRule(id: RuleId, expected: nat, enabled: bool) returns (r: Result<nat, EditError>)
      requires Valid()
      modifies this
      ensures Valid()
      ensures match AfterToggle(old(View()), id, expected, enabled)
              case Ok(next) => View() == next && r == Ok(expected + 1)
              case Err(e) => View() == old(View()) && r == Err(e)
      ensures r.Ok? <==> exists was :: was in old(rules) && was.id == id && was.revision == expected
      ensures r.Ok? ==> Toggled(old(View()), View(), id, enabled)
    {
      hide Sound, DistinctIds, Toggled;
      ToggledExactly(View(), id, expected, enabled);
      ApplySound(View(), Toggle(id, expected, enabled), host);
      ghost var next := Apply(View(), Toggle(id, expected, enabled), host);
      var i := IndexOf(rules, id);
      if i == |rules| {
        return Err(RuleMissing);
      }
      if rules[i].revision != expected {
        return Err(RevisionConflict);
      }
      var reset := !rules[i].enabled && enabled;
      var toggled := rules[i].(enabled := enabled, revision := rules[i].revision + 1);
      rules := rules[i := toggled];
      EditedIndex(old(rules), i, toggled);
      if reset {
        ResetRuleHits(id);
      }
      assert View() == next;
      r := Ok(toggled.revision);
    }

    method ResetRuleHits(id: RuleId)
      modifies `rules, `counters
      ensures counters == WithoutRule(old(counters), id)
      ensures rules == var i := IndexOf(old(rules), id);
                       if i < |old(rules)| then old(rules)[i := Unhit(old(rules)[i])] else old(rules)
    {
      counters := map key | key in counters && key.ruleId != id :: counters[key];
      var i := IndexOf(rules, id);
      if i < |rules| {
        rules := rules[i := rules[i].(hitCount := 0, lastHitAt := None)];
      }
    }

    /** Evaluates one message against a sorted snapshot and records the hits afterwards. */
    method Evaluate(ctx: MatchContext, now: int) returns (evaluation: RuleEvaluation)
      requires Valid()
      modifies this
      ensures Valid()
      ensures evaluation == Evaluation(old(View()), ctx, host)
      ensures View() == AfterEvaluate(old(View()), ctx, now, host)
    {
      hide Scan, Sound, MatchRule, UnhitAll, MarkHits, EvaluationOrder;
      ApplySound(View(), Message(ctx, now), host);
      assert Apply(View(), Message(ctx, now), host) == AfterEvaluate(View(), ctx, now, host);
      assert Sound(Prepare(View(), ctx.runtimeEpoch)) by {
        PrepareSound(View(), ctx.runtimeEpoch);
      }
      if runtimeEpoch != Some(ctx.runtimeEpoch) {
        Restart(ctx.runtimeEpoch);
      }
      ghost var p := Prepare(old(View()), ctx.runtimeEpoch);
      assert View() == p;
      var snapshot := EvaluationOrder(rules);
      OrderedDistinct(rules) by {
        SoundDistinct(p);
      }
      HitsDistinct(snapshot, counters, ctx, host);
      var hits: seq<RuleId>;
      evaluation, hits := ScanSnapshot(snapshot, ctx);
      SoundDistinct(p);
      RecordHits(hits, now);
    }

    lemma SoundDistinct(s: EngineState)
      requires Sound(s)
      ensures DistinctIds(s.rules)
    {
    }

    /** The loop over the snapshot; it stops behind the first rule that runs a terminal action. */
    method ScanSnapshot(snapshot: seq<Rule>, ctx: MatchContext) returns (evaluation: RuleEvaluation, hits: seq<RuleId>)
      modifies `counters
      ensures Outcome(evaluation, hits, counters) == Scan(snapshot, old(counters), ctx, host)
    {
      hide MatchRule, Executed, FirstTerminal, Applicable;
      evaluation, hits := RuleEvaluation([], [], None), [];
      var i := 0;
      assert snapshot[0..] == snapshot;
      while i < |snapshot|
        invariant i <= |snapshot| && evaluation.terminal.None?
        invariant Scan(snapshot, old(counters), ctx, host) ==
                  Joined(evaluation, hits, Scan(snapshot[i..], counters, ctx, host))
      {
        var rule := snapshot[i];
        assert snapshot[i..][0] == rule && snapshot[i..][1..] == snapshot[i + 1..];
        ghost var rest := Scan(snapshot[i + 1..], MatchRule(rule, counters, ctx, host).1, ctx, host);
        if Applicable(rule, ctx) {
          var verdict := MatchesRule(rule, ctx);
          if verdict.Yes? {
            var executed, terminal := RunActions(rule.actions);
            var trace := RuleTrace(rule.id, Yes, executed);
            if terminal.Some? {
              JoinedLast(evaluation, hits, trace, terminal, counters);
              evaluation := RuleEvaluation(evaluation.traces + [trace], evaluation.composed + executed, terminal);
              hits := hits + [rule.id];
              return;
            }
            JoinedBefore(evaluation, hits, trace, [rule.id], rest);
            evaluation := evaluation.(traces := evaluation.traces + [trace],
                                      composed := evaluation.composed + executed);
            hits := hits + [rule.id];
          } else {
            JoinedBefore(evaluation, hits, RuleTrace(rule.id, verdict, []), [], rest);
            evaluation := evaluation.(traces := evaluation.traces + [RuleTrace(rule.id, verdict, [])]);
            assert evaluation.composed + [] == evaluation.composed && hits + [] == hits;
          }
        }
        i := i + 1;
      }
      assert snapshot[i..] == [];
      JoinedNothing(evaluation, hits, counters);
    }

    /** All field conditions first, in order; then the counter, if the rule counts. */
    method MatchesRule(rule: Rule, ctx: MatchContext) returns (verdict: Verdict)
      modifies `counters
      ensures (verdict, counters) == MatchRule(rule, old(counters), ctx, host)
      ensures forall fault :: verdict == Fault(fault) <==> FirstBreak(rule.conditions, ctx, host, fault)
      ensures verdict.Yes? ==> forall c :: c in rule.conditions ==> Holds(c, ctx, host)
    {
      hide ConditionVerdict, AllEqual, Holds, FirstBreak;
      FieldsMeaning(rule.conditions, ctx, host);
      var i := 0;
      assert rule.conditions[0..] == rule.conditions;
      while i < |rule.conditions|
        invariant i <= |rule.conditions| && counters == old(counters)
        invariant FieldsVerdict(rule.conditions, ctx, host) == FieldsVerdict(rule.conditions[i..], ctx, host)
      {
        assert rule.conditions[i..][0] == rule.conditions[i] && rule.conditions[i..][1..] == rule.conditions[i + 1..];
        verdict := ConditionVerdict(rule.conditions[i], ctx, host);
        if !verdict.Yes? {
          return;
        }
        i := i + 1;
      }
      var values := NthValues(rule.conditions);
      if values == [] {
        return Yes;
      }
      var key := CounterKey(rule.id, ctx.terminal);
      var count := Count(counters, key) + 1;
      counters := counters[key := count];
      verdict := if AllEqual(values, count) then Yes else No;
    }

    /** The actions of a matched rule, up to and including a terminal one. */
    method RunActions(actions: seq<RuleAction>) returns (executed: seq<RuleAction>, terminal: Option<TerminalAction>)
      ensures executed == Executed(actions) && terminal == FirstTerminal(actions)
    {
      executed, terminal := [], None;
      var i := 0;
      assert actions[0..] == actions && executed + Executed(actions) == Executed(actions);
      while i < |actions|
        invariant i <= |actions| && terminal == None
        invariant Executed(actions) == executed + Executed(actions[i..])
        invariant FirstTerminal(actions) == FirstTerminal(actions[i..])
      {
        assert actions[i..][0] == actions[i] && actions[i..][1..] == actions[i + 1..];
        executed := executed + [actions[i]];
        if actions[i].Terminal? {
          terminal := Some(actions[i].action);
          return;
        }
        i := i + 1;
      }
      assert actions[i..] == [] && executed + [] == executed;
    }

    /** Updates the hit data of every matched rule and switches matched one-shot rules off. */
    method RecordHits(hits: seq<RuleId>, now: int)
      requires DistinctIds(rules) && forall i, j :: 0 <= i < j < |hits| ==> hits[i] != hits[j]
      modifies `rules
      ensures rules == MarkHits(old(rules), hits, now)
    {
      hide MarkHits, MapRules;
      MarkNone(rules, now);
      var i := 0;
      while i < |hits|
        invariant i <= |hits| && rules == MarkHits(old(rules), hits[..i], now)
      {
        MarkNext(old(rules), hits, i, now);
        var at := IndexOf(rules, hits[i]);
        if at < |rules| {
          var rule := rules[at].(hitCount := rules[at].hitCount + 1, lastHitAt := Some(now));
          if rule.oneShot {
            rule := rule.(enabled := false, revision := rule.revision + 1);
          }
          rules := rules[at := rule];
        }
        i := i + 1;
      }
      assert hits[..i] == hits;
    }

    /** The warnings of one rule about the rules behind it. */
    method WarnBehind(sorted: seq<Rule>, h: nat) returns (warnings: seq<Warning>)
      requires h < |sorted|
      ensures forall w :: w in warnings <==> exists j :: h < j < |sorted| && Reports(w, sorted[h], sorted[j])
      ensures DistinctIds(sorted) ==> NoneTwice(warnings)
    {
      hide Shadows, Covers;
      warnings := [];
      if HasTerminal(sorted[h]) {
        for l := h + 1 to |sorted|
          invariant forall w :: w in warnings <==> exists j :: h < j < l && Reports(w, sorted[h], sorted[j])
          invariant DistinctIds(sorted) ==> NoneTwice(warnings)
        {
          ShadowsExactly(sorted[h], sorted[l]);
          if Shadows(sorted[h], sorted[l]) {
            ghost var next := Warning(sorted[h].id, sorted[l].id);
            assert Reports(next, sorted[h], sorted[l]);
            assert DistinctIds(sorted) ==> next !in warnings;
            warnings := warnings + [Warning(sorted[h].id, sorted[l].id)];
          }
        }
      } else {
        NoTerminalNoCover(sorted[h]);
      }
    }

    /** Reports every enabled pair in which the earlier rule shadows the later one. */
    method ConflictWarnings() returns (warnings: seq<Warning>)
      requires Valid()
      ensures forall higher, lower :: higher in rules && lower in rules ==>
                (Warning(higher.id, lower.id) in warnings <==> Overshadows(higher, lower))
      ensures NoneTwice(warnings)
      ensures forall w :: w in warnings ==> Has(rules, w.shadowing) && Has(rules, w.shadowed)
    {
      hide Covers, Reports, RuleLeq, DistinctIds, EnabledRules, Warned, Overshadows;
      warnings := [];
      var sorted := Sort(EnabledRules(rules), RuleLeq);
      EnabledSorted(rules);
      for h := 0 to |sorted|
        invariant forall w :: w in warnings <==>
                    exists i, j :: 0 <= i < h && i < j < |sorted| && Reports(w, sorted[i], sorted[j])
        invariant NoneTwice(warnings)
      {
        var behind := WarnBehind(sorted, h);
        OtherFirst(sorted, h, warnings, behind);
        warnings := warnings + behind;
      }
      forall higher, lower | higher in rules && lower in rules
        ensures Warning(higher.id, lower.id) in warnings <==> Overshadows(higher, lower)
      {
        WarnedExactly(higher, lower);
        WarnedPosition(rules, sorted, higher, lower);
      }
      forall w | w in warnings
        ensures Has(rules, w.shadowing) && Has(rules, w.shadowed)
      {
        var i, j :| 0 <= i < |sorted| && i < j < |sorted| && Reports(w, sorted[i], sorted[j]);
        ReportsNames(w, sorted[i], sorted[j]);
        HasMember(rules, w.shadowing);
        HasMember(rules, w.shadowed);
      }
    }
  }

  // ---- joining the scanned part with the rest ----

  function Joined(done: RuleEvaluation, hits: seq<RuleId>, rest: Outcome): Outcome {
    var e := rest.evaluation;
    Outcome(RuleEvaluation(done.traces + e.traces, done.composed + e.composed, e.terminal), hits + rest.hits,
            rest.counters)
  }

  lemma JoinedBefore(done: RuleEvaluation, hits: seq<RuleId>, trace: RuleTrace, hit: seq<RuleId>, rest: Outcome)
    ensures Joined(done, hits, Before(trace, hit, rest)) ==
            Joined(RuleEvaluation(done.traces + [trace], done.composed + trace.actions, None), hits + hit, rest)
  {
    Assoc(done.traces, [trace], rest.evaluation.traces);
    Assoc(done.composed, trace.actions, rest.evaluation.composed);
    Assoc(hits, hit, rest.hits);
  }

  lemma Assoc<T>(a: seq<T>, b: seq<T>, c: seq<T>)
    ensures a + (b + c) == (a + b) + c
  {
  }

  lemma JoinedLast(done: RuleEvaluation, hits: seq<RuleId>, trace: RuleTrace, terminal: Option<TerminalAction>,
                   counters: Counters)
    ensures Joined(done, hits, Outcome(RuleEvaluation([trace], trace.actions, terminal), [trace.ruleId], counters)) ==
            Outcome(RuleEvaluation(done.traces + [trace], done.composed + trace.actions, terminal),
                    hits + [trace.ruleId], counters)
  {
  }

  lemma JoinedNothing(done: RuleEvaluation, hits: seq<RuleId>, counters: Counters)
    ensures Joined(done, hits, Outcome(RuleEvaluation([], [], None), [], counters)) ==
            Outcome(RuleEvaluation(done.traces, done.composed, None), hits, counters)
  {
    assert done.traces + [] == done.traces && done.composed + [] == done.composed && hits + [] == hits;
  }

  /** Replacing a rule by one of the same id does not move it. */
  lemma EditedIndex(rules: seq<Rule>, i: nat, rule: Rule)
    requires i < |rules| && IndexOf(rules, rules[i].id) == i && rule.id == rules[i].id
    ensures IndexOf(rules[i := rule], rule.id) == i && rules[i := rule][i := Unhit(rule)] == rules[i := Unhit(rule)]
  {
    SameIdsSame(rules, rules[i := rule]);
  }

  lemma EditedKeeps(rule: Rule, draft: RuleDraft)
    ensures Edited(rule, draft).id == rule.id && Edited(rule, draft).revision == rule.revision + 1
  {
  }

  lemma KeepsMeaning(rules: seq<Rule>, next: Rule)
    ensures var at := IndexOf(rules, next.id);
            KeepsCounters(rules, next) <==>
            at < |rules| && rules[at].conditions == next.conditions && (rules[at].enabled || !next.enabled)
  {
  }

  lemma UnhitStart(rules: seq<Rule>)
    ensures rules == UnhitAll(rules[..0]) + rules[0..]
  {
  }

  lemma UnhitPush(rules: seq<Rule>, i: nat)
    requires i < |rules|
    ensures UnhitAll(rules[..i + 1]) + rules[i + 1..] == (UnhitAll(rules[..i]) + rules[i..])[i := Unhit(rules[i])]
    ensures (UnhitAll(rules[..i]) + rules[i..])[i] == rules[i]
  {
    UnhitEach(rules[..i]);
    UnhitEach(rules[..i + 1]);
  }

  /** A rule is hit at most once by one message. */
  lemma {:induction false} HitsDistinct(sorted: seq<Rule>, counters: Counters, ctx: MatchContext, host: Host)
    requires DistinctIds(sorted)
    ensures var hits := Scan(sorted, counters, ctx, host).hits;
            forall i, j :: 0 <= i < j < |hits| ==> hits[i] != hits[j]
  {
    hide MatchRule, Applicable, Executed, FirstTerminal;
    if sorted != [] {
      var (verdict, counted) := MatchRule(sorted[0], counters, ctx, host);
      HitsDistinct(sorted[1..], if Applicable(sorted[0], ctx) then counted else counters, ctx, host);
      ScanWithout(sorted[1..], counted, ctx, host, sorted[0].id);
    }
  }

  lemma MarkNone(rules: seq<Rule>, now: int)
    ensures MarkHits(rules, [], now) == rules
  {
    MarkedEach(rules, [], now);
  }

  /** One more hit changes the one rule of that id, which earlier hits left alone. */
  lemma MarkNext(rules: seq<Rule>, hits: seq<RuleId>, i: nat, now: int)
    requires DistinctIds(rules) && i < |hits| && forall a, b :: 0 <= a < b < |hits| ==> hits[a] != hits[b]
    ensures var before := MarkHits(rules, hits[..i], now);
            var at := IndexOf(before, hits[i]);
            && |before| == |rules|
            && MarkHits(rules, hits[..i + 1], now) ==
                 (if at < |rules| then before[at := Struck(before[at], now)] else before)
  {
    hide MarkHits, MapRules;
    var before, after := MarkHits(rules, hits[..i], now), MarkHits(rules, hits[..i + 1], now);
    MarkedEach(rules, hits[..i], now);
    MarkedEach(rules, hits[..i + 1], now);
    assert hits[..i + 1] == hits[..i] + [hits[i]];
    assert hits[i] !in hits[..i];
    var at := IndexOf(before, hits[i]);
    forall k | 0 <= k < |rules|
      ensures after[k] == if k == at then Struck(before[k], now) else before[k]
    {
      assert rules[k].id == before[k].id;
      if at < |rules| {
        assert rules[at].id == hits[i];
      }
    }
  }

  // ---- warnings ----

  function EnabledRules(rules: seq<Rule>): seq<Rule> {
    if rules == [] then [] else (if rules[0].enabled then [rules[0]] else []) + EnabledRules(rules[1..])
  }

  ghost predicate Reports(w: Warning, higher: Rule, lower: Rule) {
    w == Warning(higher.id, lower.id) && Covers(higher, lower)
  }

  ghost predicate NoneTwice(warnings: seq<Warning>) {
    forall i, j :: 0 <= i < j < |warnings| ==> warnings[i] != warnings[j]
  }

  /** The warnings of the next rule name another rule than all the warnings before. */
  lemma OtherFirst(sorted: seq<Rule>, h: nat, warnings: seq<Warning>, behind: seq<Warning>)
    requires DistinctIds(sorted) && h < |sorted| && NoneTwice(warnings) && NoneTwice(behind)
    requires forall w :: w in warnings ==>
               exists i, j :: 0 <= i < h && i < j < |sorted| && Reports(w, sorted[i], sorted[j])
    requires forall w :: w in behind ==> exists j :: h < j < |sorted| && Reports(w, sorted[h], sorted[j])
    ensures NoneTwice(warnings + behind)
  {
    hide Covers;
    forall a, b | 0 <= a < |warnings| && 0 <= b < |behind|
      ensures warnings[a].shadowing != behind[b].shadowing
    {
      assert warnings[a] in warnings && behind[b] in behind;
    }
  }

  lemma ReportsNames(w: Warning, higher: Rule, lower: Rule)
    requires Reports(w, higher, lower)
    ensures w.shadowing == higher.id && w.shadowed == lower.id
  {
  }

  lemma NoTerminalNoCover(higher: Rule)
    requires !HasTerminal(higher)
    ensures forall lower :: !Covers(higher, lower)
  {
    assert forall action :: action in higher.actions ==> !action.Terminal?;
  }

  lemma {:induction false} EnabledMembers(rules: seq<Rule>)
    requires DistinctIds(rules)
    ensures DistinctIds(EnabledRules(rules))
    ensures forall r :: r in EnabledRules(rules) <==> r in rules && r.enabled
  {
    if rules != [] {
      EnabledMembers(rules[1..]);
      assert rules == [rules[0]] + rules[1..];
      var rest := EnabledRules(rules[1..]);
      forall i | 0 <= i < |rest|
        ensures rest[i].id != rules[0].id
      {
        assert rest[i] in rules[1..];
      }
    }
  }

  lemma EnabledSorted(rules: seq<Rule>)
    requires DistinctIds(rules)
    ensures var sorted := Sort(EnabledRules(rules), RuleLeq);
            && DistinctIds(sorted) && Sorted(sorted, RuleLeq)
            && forall r :: r in sorted <==> r in rules && r.enabled
  {
    EnabledMembers(rules);
    OrderedDistinct(EnabledRules(rules));
  }

  lemma WarnedPosition(rules: seq<Rule>, sorted: seq<Rule>, higher: Rule, lower: Rule)
    requires DistinctIds(rules) && higher in rules && lower in rules
    requires DistinctIds(sorted) && Sorted(sorted, RuleLeq) && forall r :: r in sorted <==> r in rules && r.enabled
    ensures Warned(higher, lower) <==>
              exists i, j :: 0 <= i && i < j < |sorted| && Reports(Warning(higher.id, lower.id), sorted[i], sorted[j])
  {
    hide Shadows, Covers, RuleLeq;
    ShadowsExactly(higher, lower);
    if Warned(higher, lower) {
      var i :| 0 <= i < |sorted| && sorted[i] == higher;
      var j :| 0 <= j < |sorted| && sorted[j] == lower;
      EarlierFirst(sorted, i, j);
      assert Reports(Warning(higher.id, lower.id), sorted[i], sorted[j]);
    }
    if i, j :| 0 <= i && i < j < |sorted| && Reports(Warning(higher.id, lower.id), sorted[i], sorted[j]) {
      assert sorted[i] in rules && sorted[j] in rules;
      assert sorted[i] == higher && sorted[j] == lower;
      assert RuleLeq(sorted[i], sorted[j]);
    }
  }
}
