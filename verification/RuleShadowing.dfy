/** What a shadow warning promises, and what validated rules guarantee about an evaluation. */
module RuleShadowing {
  import opened Wrappers
  import opened Ordering
  import opened RuleModel
  import opened RuleValidation
  import opened RuleEvaluations
  import opened RuleRuns

  predicate HasTerminal(rule: Rule) {
    exists i :: 0 <= i < |rule.actions| && rule.actions[i].Terminal?
  }

  predicate ConditionsWithin(higher: Rule, lower: Rule) {
    forall i :: 0 <= i < |higher.conditions| ==> higher.conditions[i] in lower.conditions
  }

  /** A terminal rule that applies whenever the lower one does. */
  predicate Shadows(higher: Rule, lower: Rule) {
    HasTerminal(higher) && higher.stage == lower.stage
    && (higher.channel.None? || higher.channel == lower.channel) && ConditionsWithin(higher, lower)
  }

  lemma {:induction false} TerminalFound(actions: seq<RuleAction>, i: nat)
    requires i < |actions| && actions[i].Terminal?
    ensures FirstTerminal(actions).Some?
  {
    if !actions[0].Terminal? {
      TerminalFound(actions[1..], i - 1);
    }
  }

  /** If the lower rule's fields hold, an uncounted shadowing rule matches. */
  lemma ShadowingMatches(higher: Rule, lower: Rule, counters: Counters, ctx: MatchContext, host: Host)
    requires Shadows(higher, lower) && higher.enabled && !Counted(higher)
    requires Applicable(lower, ctx) && FieldsVerdict(lower.conditions, ctx, host).Yes?
    ensures Applicable(higher, ctx) && MatchRule(higher, counters, ctx, host).0.Yes?
    ensures FirstTerminal(higher.actions).Some?
  {
    hide ConditionVerdict, NthValues;
    FieldsVerdictYes(lower.conditions, ctx, host);
    FieldsVerdictYes(higher.conditions, ctx, host);
    var i :| 0 <= i < |higher.actions| && higher.actions[i].Terminal?;
    TerminalFound(higher.actions, i);
  }

  lemma {:induction false} ScanShadow(rules: seq<Rule>, counters: Counters, ctx: MatchContext, host: Host,
                                      h: nat, l: nat)
    requires DistinctIds(rules) && h < l < |rules| && Shadows(rules[h], rules[l])
    requires rules[h].enabled && !Counted(rules[h])
    ensures !MatchedIn(Scan(rules, counters, ctx, host).evaluation, rules[l].id)
  {
    hide FieldsVerdict, NthValues, Applicable, MatchedIn, Executed, FirstTerminal, Before, Shadows;
    var lower := rules[l];
    if MatchedIn(Scan(rules, counters, ctx, host).evaluation, lower.id) {
      var i := MatchedAt(Scan(rules, counters, ctx, host).evaluation, lower.id);
      ScanMatched(rules, counters, ctx, host, i, lower);
      ShadowingMatches(rules[h], lower, counters, ctx, host);
      if h == 0 {
        var trace := RuleTrace(rules[0].id, Yes, Executed(rules[0].actions));
        OneTrace(trace, lower.id);
        assert false;
      } else {
        var first := rules[0];
        var (verdict, counted) := MatchRule(first, counters, ctx, host);
        ScanShadow(rules[1..], if Applicable(first, ctx) then counted else counters, ctx, host, h - 1, l - 1);
        var below := Scan(rules[1..], counted, ctx, host);
        BeforeTraces(RuleTrace(first.id, verdict, []), [], below, lower.id);
        BeforeTraces(RuleTrace(first.id, Yes, Executed(first.actions)), [first.id], below, lower.id);
        OneTrace(RuleTrace(first.id, Yes, Executed(first.actions)), lower.id);
        assert false;
      }
    }
  }

  lemma MatchedAt(e: RuleEvaluation, id: RuleId) returns (i: nat)
    requires MatchedIn(e, id)
    ensures i < |e.traces| && e.traces[i].ruleId == id && e.traces[i].Matched()
  {
    i :| 0 <= i < |e.traces| && e.traces[i].ruleId == id && e.traces[i].Matched();
  }

  /** The pair is reported by the shadow check. */
  predicate Warned(higher: Rule, lower: Rule) {
    higher.enabled && lower.enabled && higher.id != lower.id && RuleLeq(higher, lower) && Shadows(higher, lower)
  }

  /**
   * What a warning is about, in the fields of the rules: both are enabled, the first comes earlier by
   * priority, then age, then id, runs a terminal action, asks for nothing the second does not ask for, and
   * applies to every message the second applies to.
   */
  ghost predicate Overshadows(higher: Rule, lower: Rule) {
    && higher.enabled && lower.enabled && higher.id != lower.id && Ahead(higher, lower)
    && (exists action :: action in higher.actions && action.Terminal?)
    && (forall c :: c in higher.conditions ==> c in lower.conditions)
    && (forall ctx: MatchContext :: Applicable(lower, ctx) ==> Applicable(higher, ctx))
  }

  /** The comparison of stage and channel decides exactly whether one rule applies wherever the other does. */
  lemma CoversExactly(higher: Rule, lower: Rule)
    requires higher.enabled && lower.enabled
    ensures (forall ctx: MatchContext :: Applicable(lower, ctx) ==> Applicable(higher, ctx)) <==>
              higher.stage == lower.stage && (higher.channel.None? || higher.channel == lower.channel)
  {
    var channel :=
      if lower.channel.Some? then lower.channel.value
      else if higher.channel.Some? then higher.channel.value + "*" else "";
    var ctx := MatchContext(0, channel, lower.stage, TerminalIdentity("", ""), None, None);
    assert Applicable(lower, ctx);
    if higher.channel.Some? && lower.channel.None? {
      assert |channel| != |higher.channel.value|;
    }
  }

  /** A switched-on `higher` runs a terminal action on every message on which a switched-on `lower` could run. */
  ghost predicate Covers(higher: Rule, lower: Rule) {
    && (exists action :: action in higher.actions && action.Terminal?)
    && (forall c :: c in higher.conditions ==> c in lower.conditions)
    && (forall ctx: MatchContext ::
          Applicable(lower.(enabled := true), ctx) ==> Applicable(higher.(enabled := true), ctx))
  }

  lemma ShadowsExactly(higher: Rule, lower: Rule)
    ensures Shadows(higher, lower) <==> Covers(higher, lower)
  {
    hide Applicable;
    CoversExactly(higher.(enabled := true), lower.(enabled := true));
    assert HasTerminal(higher) <==> exists action :: action in higher.actions && action.Terminal?;
  }

  /** The pairs the check reports are exactly these. */
  lemma WarnedExactly(higher: Rule, lower: Rule)
    ensures Warned(higher, lower) <==> Overshadows(higher, lower)
  {
    hide Applicable;
    if higher.enabled && lower.enabled {
      CoversExactly(higher, lower);
    }
    assert HasTerminal(higher) <==> exists action :: action in higher.actions && action.Terminal?;
  }

  /**
   * A warning about a higher rule without counting conditions is sound: while both rules stand as
   * they are, no message whatsoever is reported as matching the lower one.
   */
  lemma WarningSound(s: EngineState, ctx: MatchContext, host: Host, higher: Rule, lower: Rule)
    requires Sound(s) && higher in s.rules && lower in s.rules && Warned(higher, lower) && !Counted(higher)
    ensures !MatchedIn(Evaluation(s, ctx, host), lower.id)
  {
    hide Scan, UnhitAll, MatchedIn, Sorted, RuleLeq, ConditionsWithin;
    var p := Prepare(s, ctx.runtimeEpoch);
    PrepareSound(s, ctx.runtimeEpoch);
    OrderedDistinct(p.rules);
    UnhitMembers(s.rules);
    var sorted := EvaluationOrder(p.rules);
    var h, l := Seen(s, higher, ctx.runtimeEpoch), Seen(s, lower, ctx.runtimeEpoch);
    assert h in sorted && l in sorted;
    var i :| 0 <= i < |sorted| && sorted[i] == h;
    var j :| 0 <= j < |sorted| && sorted[j] == l;
    SeenWarned(s, higher, lower, ctx.runtimeEpoch);
    EarlierFirst(sorted, i, j);
    ScanShadow(sorted, p.counters, ctx, host, i, j);
  }

  lemma SeenWarned(s: EngineState, higher: Rule, lower: Rule, epoch: Epoch)
    requires Warned(higher, lower)
    ensures Warned(Seen(s, higher, epoch), Seen(s, lower, epoch))
    ensures Counted(Seen(s, higher, epoch)) <==> Counted(higher)
  {
  }

  lemma EarlierFirst(sorted: seq<Rule>, i: nat, j: nat)
    requires Sorted(sorted, RuleLeq) && i < |sorted| && j < |sorted|
    requires Warned(sorted[i], sorted[j])
    ensures i < j
  {
  }

  /** The engine with just the two rules of a warning, at any point of a run of the message's epoch. */
  function Pair(higher: Rule, lower: Rule, epoch: Epoch, counters: Counters): EngineState {
    EngineState(Some(epoch), [higher, lower], counters)
  }

  lemma PairOrder(a: Rule, b: Rule)
    requires RuleLeq(a, b)
    ensures EvaluationOrder([a, b]) == [a, b]
  {
    assert [a, b][1..] == [b] && [b][1..] == [];
    assert Sort([b], RuleLeq) == Insert(b, Sort([], RuleLeq), RuleLeq);
  }

  lemma ScanPair(a: Rule, b: Rule, counters: Counters, ctx: MatchContext, host: Host)
    requires Applicable(a, ctx) && !MatchRule(a, counters, ctx, host).0.Yes?
    ensures var (verdict, counted) := MatchRule(a, counters, ctx, host);
            Scan([a, b], counters, ctx, host) == Before(RuleTrace(a.id, verdict, []), [], Scan([b], counted, ctx, host))
  {
    hide Before, MatchRule, Applicable;
    assert [a, b][1..] == [b];
  }

  lemma ScanOne(b: Rule, counters: Counters, ctx: MatchContext, host: Host)
    requires Applicable(b, ctx) && MatchRule(b, counters, ctx, host).0.Yes?
    ensures MatchedIn(Scan([b], counters, ctx, host).evaluation, b.id)
  {
    hide MatchRule, Applicable, Executed, FirstTerminal;
    assert Scan([b], counters, ctx, host).evaluation.traces[0].Matched();
  }

  /** The higher rule has a count that misses its n, the lower one is about to reach its own: it is let through. */
  lemma LetThrough(higher: Rule, lower: Rule, counters: Counters, ctx: MatchContext, host: Host, n: nat)
    requires Warned(higher, lower) && Applicable(lower, ctx) && FieldsVerdict(lower.conditions, ctx, host).Yes?
    requires Counted(higher) && AllEqual(NthValues(lower.conditions), n)
    requires Count(counters, CounterKey(higher.id, ctx.terminal)) + 1 != n
    requires Count(counters, CounterKey(lower.id, ctx.terminal)) + 1 == n
    ensures MatchedIn(Evaluation(Pair(higher, lower, ctx.runtimeEpoch, counters), ctx, host), lower.id)
  {
    hide ConditionVerdict, FieldsVerdict, NthValues, Scan, EvaluationOrder, MatchedIn, Traced;
    FieldsVerdictYes(lower.conditions, ctx, host);
    FieldsVerdictYes(higher.conditions, ctx, host);
    SharedCounts(higher, lower, n);
    PairOrder(higher, lower);
    var counted := MatchRule(higher, counters, ctx, host).1;
    assert !MatchRule(higher, counters, ctx, host).0.Yes?;
    ScanPair(higher, lower, counters, ctx, host);
    ScanOne(lower, counted, ctx, host);
    BeforeTraces(RuleTrace(higher.id, No, []), [], Scan([lower], counted, ctx, host), lower.id);
  }

  /** The counting conditions of a shadowing rule are among those of the shadowed one. */
  lemma SharedCounts(higher: Rule, lower: Rule, n: nat)
    requires ConditionsWithin(higher, lower) && Counted(higher) && AllEqual(NthValues(lower.conditions), n)
    ensures NthValues(higher.conditions) != [] && NthValues(higher.conditions)[0] == n && Counted(lower)
  {
    hide NthValues;
    var m := NthValues(higher.conditions)[0];
    assert m in NthValues(higher.conditions);
    NthValuesMembers(higher.conditions, m);
    var i :| 0 <= i < |higher.conditions| && higher.conditions[i] == NthHit(m);
    NthValuesMembers(lower.conditions, m);
    assert NthHit(m) in lower.conditions;
    var j :| 0 <= j < |NthValues(lower.conditions)| && NthValues(lower.conditions)[j] == m;
  }

  /** A rule that can match at all: its counting conditions name one positive count. */
  predicate CanMatch(rule: Rule) {
    var values := NthValues(rule.conditions);
    values == [] || (values[0] >= 1 && AllEqual(values, values[0]))
  }

  // ---- runs that defeat a warning ----

  /** A run from a fresh engine with the two rules that ends with both of them loaded and the lower one matching. */
  ghost predicate Defeats(ops: seq<Op>, higher: Rule, lower: Rule, ctx: MatchContext, host: Host) {
    var end := At(Pair(higher, lower, ctx.runtimeEpoch, map[]), ops, |ops|, host);
    Proper(ops) && end.rules == [higher, lower] && MatchedIn(Evaluation(end, ctx, host), lower.id)
  }

  /**
   * Exactly when a warning promises too much: for a message that satisfies the lower rule, there is a run
   * after which it matches in spite of the warning iff the higher rule counts and the lower rule can match
   * at all.
   */
  lemma WarningExact(higher: Rule, lower: Rule, ctx: MatchContext, host: Host)
    requires Warned(higher, lower) && Applicable(lower, ctx) && FieldsVerdict(lower.conditions, ctx, host).Yes?
    ensures (exists ops :: Defeats(ops, higher, lower, ctx, host)) <==> Counted(higher) && CanMatch(lower)
  {
    hide FieldsVerdict, Defeats, Applicable, NthValues, Shadows;
    if Counted(higher) && CanMatch(lower) {
      PassingDefeats(higher, lower, ctx, host);
    }
    if ops :| Defeats(ops, higher, lower, ctx, host) {
      DefeatNeeds(ops, higher, lower, ctx, host);
    }
  }

  lemma DefeatNeeds(ops: seq<Op>, higher: Rule, lower: Rule, ctx: MatchContext, host: Host)
    requires Warned(higher, lower) && Defeats(ops, higher, lower, ctx, host)
    ensures Counted(higher) && CanMatch(lower)
  {
    hide FieldsVerdict, MatchedIn, Evaluation, AfterEvaluate, Applicable, NthValues, Shadows, RuleLeq, At, Proper;
    var start := Pair(higher, lower, ctx.runtimeEpoch, map[]);
    var end := At(start, ops, |ops|, host);
    assert start.rules[0] == higher && start.rules[1] == lower;
    RunSound(start, ops, |ops|, host);
    assert end.rules[0] == higher && end.rules[1] == lower && higher in end.rules && lower in end.rules;
    if !Counted(higher) {
      WarningSound(end, ctx, host, higher, lower);
    }
    MatchedCanMatch(end, ctx, host, lower);
  }

  function Repeating(rule: Rule): Rule {
    rule.(oneShot := false)
  }

  /**
   * The rules are loaded so that a hit switches nothing off, `n` messages count, and the rules are loaded as
   * they were.
   */
  function Passing(higher: Rule, lower: Rule, ctx: MatchContext, n: nat): seq<Op> {
    [Reconcile([Repeating(higher), lower])] + seq(n, _ => Message(ctx, 0)) + [Reconcile([higher, lower])]
  }

  /** One count behind the warning: the higher rule has had its turn, the lower one is still to have it. */
  ghost predicate CountsAre(counters: Counters, higher: Rule, lower: Rule, ctx: MatchContext, h: nat, l: nat) {
    && Count(counters, CounterKey(higher.id, ctx.terminal)) == h
    && Count(counters, CounterKey(lower.id, ctx.terminal)) == l
  }

  /** Both rules of a warning ask for the count `n`, and nothing but the count decides whether they match. */
  ghost predicate AskFor(higher: Rule, lower: Rule, ctx: MatchContext, host: Host, n: nat) {
    && Applicable(higher, ctx) && FieldsVerdict(higher.conditions, ctx, host).Yes?
    && Applicable(lower, ctx) && FieldsVerdict(lower.conditions, ctx, host).Yes?
    && Counted(higher) && AllEqual(NthValues(higher.conditions), n)
    && Counted(lower) && AllEqual(NthValues(lower.conditions), n)
    && higher.id != lower.id && RuleLeq(higher, lower) && FirstTerminal(higher.actions).Some?
  }

  lemma WarnedAskFor(higher: Rule, lower: Rule, ctx: MatchContext, host: Host) returns (n: nat)
    requires Warned(higher, lower) && Applicable(lower, ctx) && FieldsVerdict(lower.conditions, ctx, host).Yes?
    requires Counted(higher) && CanMatch(lower)
    ensures 1 <= n && AskFor(higher, lower, ctx, host, n)
  {
    hide ConditionVerdict, FieldsVerdict, NthValues, RuleLeq;
    CountsBelow(higher, lower);
    n := NthValues(lower.conditions)[0];
    FieldsVerdictYes(lower.conditions, ctx, host);
    FieldsVerdictYes(higher.conditions, ctx, host);
    forall i | 0 <= i < |NthValues(higher.conditions)|
      ensures NthValues(higher.conditions)[i] == n
    {
      var m := NthValues(higher.conditions)[i];
      assert m in NthValues(higher.conditions);
      NthValuesMembers(higher.conditions, m);
      NthValuesMembers(lower.conditions, m);
      assert NthHit(m) in lower.conditions;
    }
    var i :| 0 <= i < |higher.actions| && higher.actions[i].Terminal?;
    TerminalFound(higher.actions, i);
  }

  /** A message that misses both counts moves both of them. */
  lemma PairMisses(a: Rule, b: Rule, counters: Counters, ctx: MatchContext, host: Host, n: nat, k: nat)
    requires AskFor(a, b, ctx, host, n) && CountsAre(counters, a, b, ctx, k, k) && k + 1 != n
    ensures var after := AfterEvaluate(Pair(a, b, ctx.runtimeEpoch, counters), ctx, 0, host);
            after == Pair(a, b, ctx.runtimeEpoch, after.counters) && CountsAre(after.counters, a, b, ctx, k + 1, k + 1)
  {
    hide FieldsVerdict, NthValues, EvaluationOrder, Applicable, RuleLeq, FirstTerminal, MarkHits;
    PairOrder(a, b);
    assert NthValues(a.conditions)[0] == n && NthValues(b.conditions)[0] == n;
    ScanPair(a, b, counters, ctx, host);
    var counted := MatchRule(a, counters, ctx, host).1;
    assert Scan([b], counted, ctx, host) ==
           Before(RuleTrace(b.id, No, []), [], Scan([], MatchRule(b, counted, ctx, host).1, ctx, host)) by {
      assert [b][1..] == [];
    }
    MarkedEach([a, b], [], 0);
    assert MarkHits([a, b], [], 0) == [a, b];
  }

  /** The message that meets the count is taken by the higher rule. */
  lemma PairStrikes(a: Rule, b: Rule, counters: Counters, ctx: MatchContext, host: Host, n: nat, k: nat)
    requires AskFor(a, b, ctx, host, n) && CountsAre(counters, a, b, ctx, k, k) && k + 1 == n
    ensures var after := AfterEvaluate(Pair(a, b, ctx.runtimeEpoch, counters), ctx, 0, host);
            after == Pair(Struck(a, 0), b, ctx.runtimeEpoch, after.counters)
            && CountsAre(after.counters, a, b, ctx, n, k)
  {
    hide FieldsVerdict, NthValues, EvaluationOrder, Applicable, RuleLeq, FirstTerminal, Executed, MarkHits;
    PairOrder(a, b);
    MarkedEach([a, b], [a.id], 0);
    assert MarkHits([a, b], [a.id], 0) == [Struck(a, 0), b];
  }

  /** Loading the two rules again, the higher one with another record of hits, keeps their counters. */
  lemma PairReloaded(a: Rule, b: Rule, counters: Counters, higher: Rule, ctx: MatchContext, h: nat, l: nat)
    requires CountsAre(counters, a, b, ctx, h, l) && a.id == higher.id && a.id != b.id
    requires a.conditions == higher.conditions && a.enabled
    ensures var after := AfterReconcile(Pair(a, b, ctx.runtimeEpoch, counters), [higher, b]);
            after == Pair(higher, b, ctx.runtimeEpoch, after.counters)
            && CountsAre(after.counters, higher, b, ctx, h, l)
  {
    var rules, next := [a, b], [higher, b];
    assert rules[0].id == a.id && rules[1].id == b.id && next[0].id == a.id && next[1].id == b.id;
    assert IndexOf(rules, a.id) == 0 && IndexOf(rules, b.id) == 1;
    assert IndexOf(next, a.id) == 0 && IndexOf(next, b.id) == 1;
    assert KeepsCounters(rules, higher);
  }

  /** The run up to `k` messages, none of which meets the count. */
  lemma {:induction false} PassingSoFar(higher: Rule, lower: Rule, ctx: MatchContext, host: Host, n: nat, k: nat)
    returns (counters: Counters)
    requires AskFor(higher, lower, ctx, host, n) && k < n
    ensures At(Pair(higher, lower, ctx.runtimeEpoch, map[]), Passing(higher, lower, ctx, n), k + 1, host) ==
            Pair(Repeating(higher), lower, ctx.runtimeEpoch, counters)
    ensures CountsAre(counters, higher, lower, ctx, k, k)
  {
    hide AskFor, AfterEvaluate, AfterReconcile, FieldsVerdict, NthValues, FirstTerminal;
    var start, ops := Pair(higher, lower, ctx.runtimeEpoch, map[]), Passing(higher, lower, ctx, n);
    if k == 0 {
      HigherEnabled(higher, lower, ctx, host, n);
      PairReloaded(higher, lower, map[], Repeating(higher), ctx, 0, 0);
      assert ops[0] == Reconcile([Repeating(higher), lower]);
      counters := AfterReconcile(start, [Repeating(higher), lower]).counters;
      assert At(start, ops, 0, host) == start;
    } else {
      var before := PassingSoFar(higher, lower, ctx, host, n, k - 1);
      RepeatingAsksFor(higher, lower, ctx, host, n);
      PairMisses(Repeating(higher), lower, before, ctx, host, n, k - 1);
      assert ops[k] == Message(ctx, 0);
      counters := AfterEvaluate(Pair(Repeating(higher), lower, ctx.runtimeEpoch, before), ctx, 0, host).counters;
    }
  }

  lemma HigherEnabled(higher: Rule, lower: Rule, ctx: MatchContext, host: Host, n: nat)
    requires AskFor(higher, lower, ctx, host, n)
    ensures higher.enabled && higher.id != lower.id
  {
  }

  lemma RepeatingAsksFor(higher: Rule, lower: Rule, ctx: MatchContext, host: Host, n: nat)
    requires AskFor(higher, lower, ctx, host, n)
    ensures AskFor(Repeating(higher), lower, ctx, host, n)
  {
  }

  lemma PassingDefeats(higher: Rule, lower: Rule, ctx: MatchContext, host: Host)
    requires Warned(higher, lower) && Applicable(lower, ctx) && FieldsVerdict(lower.conditions, ctx, host).Yes?
    requires Counted(higher) && CanMatch(lower)
    ensures exists ops :: Defeats(ops, higher, lower, ctx, host)
  {
    hide AskFor, AfterEvaluate, AfterReconcile, Evaluation, MatchedIn, FieldsVerdict, NthValues, FirstTerminal,
         Applicable, Shadows, RuleLeq;
    var n := WarnedAskFor(higher, lower, ctx, host);
    var start, ops := Pair(higher, lower, ctx.runtimeEpoch, map[]), Passing(higher, lower, ctx, n);
    var before := PassingSoFar(higher, lower, ctx, host, n, n - 1);
    RepeatingAsksFor(higher, lower, ctx, host, n);
    PairStrikes(Repeating(higher), lower, before, ctx, host, n, n - 1);
    assert ops[n] == Message(ctx, 0) && ops[n + 1] == Reconcile([higher, lower]);
    var struck := At(start, ops, n + 1, host);
    PairReloaded(Struck(Repeating(higher), 0), lower, struck.counters, higher, ctx, n, n - 1);
    var end := At(start, ops, n + 2, host);
    PassingProper(higher, lower, ctx, n);
    LetThroughAt(higher, lower, end.counters, ctx, host, n);
    assert Defeats(ops, higher, lower, ctx, host);
  }

  lemma PassingProper(higher: Rule, lower: Rule, ctx: MatchContext, n: nat)
    requires higher.id != lower.id
    ensures Proper(Passing(higher, lower, ctx, n)) && |Passing(higher, lower, ctx, n)| == n + 2
  {
  }

  lemma LetThroughAt(higher: Rule, lower: Rule, counters: Counters, ctx: MatchContext, host: Host, n: nat)
    requires Warned(higher, lower) && AskFor(higher, lower, ctx, host, n) && 1 <= n
    requires CountsAre(counters, higher, lower, ctx, n, n - 1)
    ensures MatchedIn(Evaluation(Pair(higher, lower, ctx.runtimeEpoch, counters), ctx, host), lower.id)
  {
    hide Evaluation, MatchedIn, FieldsVerdict, NthValues, FirstTerminal, Applicable, Shadows;
    LetThrough(higher, lower, counters, ctx, host, n);
  }

  lemma CountsBelow(higher: Rule, lower: Rule)
    requires Shadows(higher, lower) && Counted(higher)
    ensures Counted(lower)
  {
    hide NthValues;
    var m := NthValues(higher.conditions)[0];
    assert m in NthValues(higher.conditions);
    NthValuesMembers(higher.conditions, m);
    var i :| 0 <= i < |higher.conditions| && higher.conditions[i] == NthHit(m);
    NthValuesMembers(lower.conditions, m);
    assert NthHit(m) in lower.conditions;
  }

  lemma MatchedCanMatch(s: EngineState, ctx: MatchContext, host: Host, r: Rule)
    requires Sound(s) && r in s.rules && MatchedIn(Evaluation(s, ctx, host), r.id)
    ensures CanMatch(r)
  {
    hide FieldsVerdict, MatchedIn, Evaluation, AfterEvaluate, NthValues, Candidate;
    MatchedMeans(s, ctx, 0, host, r);
    var count := Count(AfterEvaluate(s, ctx, 0, host).counters, CounterKey(r.id, ctx.terminal));
    var values := NthValues(r.conditions);
    forall i | 0 <= i < |values|
      ensures values[i] == count
    {
      assert values[i] in values;
      NthValuesMembers(r.conditions, values[i]);
    }
    if values != [] {
      assert values[0] in values;
      NthValuesMembers(r.conditions, values[0]);
      MatchReaches(s, ctx, 0, host, r, values[0]);
      MessageCounts(s, ctx, 0, CounterKey(r.id, ctx.terminal), host);
    }
  }

  /** Two rules on the same NthHit(1), the first of them terminal. */
  function CountingPair(): seq<Rule> {
    [Rule(0, 1, "a", "", true, 0, 0, None, Request, [NthHit(1)], [Terminal(DisconnectBeforeUpstream)], false, 0, None),
     Rule(1, 1, "b", "", true, 0, 1, None, Request, [NthHit(1)], [Pause], false, 0, None)]
  }

  /**
   * It really happens, from the start of an epoch: the second message of a terminal passes the first of
   * two such rules and matches the second.
   */
  lemma CountingWarningIsOnlyPossible(terminal: TerminalIdentity, host: Host)
    ensures var rules := CountingPair();
            var ctx := MatchContext(0, "", Request, terminal, None, None);
            var s := EngineState(Some(0), rules, map[]);
            && Sound(s) && Warned(rules[0], rules[1])
            && MatchedIn(Evaluation(AfterEvaluate(s, ctx, 0, host), ctx, host), rules[1].id)
  {
    hide Evaluation, AfterEvaluate, MatchedIn;
    var a, b := CountingPair()[0], CountingPair()[1];
    var ctx := MatchContext(0, "", Request, terminal, None, None);
    assert a.actions[0].Terminal?;
    FirstOfPair(a, b, ctx, host);
    OnlyFirst(b, ctx, host);
    LetThrough(Struck(a, 0), b, map[CounterKey(0, terminal) := 1], ctx, host, 1);
  }

  lemma OnlyFirst(rule: Rule, ctx: MatchContext, host: Host)
    requires rule.conditions == [NthHit(1)]
    ensures NthValues(rule.conditions) == [1] && FieldsVerdict(rule.conditions, ctx, host) == Yes && Counted(rule)
  {
    assert rule.conditions[1..] == [];
    assert FieldsVerdict([], ctx, host) == Yes && NthValues([]) == [];
  }

  /** The first message matches the first rule, which ends the evaluation. */
  lemma FirstOfPair(a: Rule, b: Rule, ctx: MatchContext, host: Host)
    requires a.conditions == [NthHit(1)] && a.actions == [Terminal(DisconnectBeforeUpstream)] && !a.oneShot
    requires Applicable(a, ctx) && RuleLeq(a, b) && a.id != b.id
    ensures AfterEvaluate(EngineState(Some(ctx.runtimeEpoch), [a, b], map[]), ctx, 0, host) ==
            Pair(Struck(a, 0), b, ctx.runtimeEpoch, map[CounterKey(a.id, ctx.terminal) := 1])
  {
    hide FieldsVerdict, NthValues, EvaluationOrder, Applicable, MarkHits;
    OnlyFirst(a, ctx, host);
    PairOrder(a, b);
    assert a.actions[0].Terminal?;
    MarkedEach([a, b], [a.id], 0);
    assert MarkHits([a, b], [a.id], 0) == [Struck(a, 0), b];
  }

  // ---- validated rules ----

  /** The part of validation that evaluation relies on. */
  predicate RuleOk(r: Rule, host: Host) {
    TerminalLast(r.actions) && forall i :: 0 <= i < |r.actions| ==> ActionOk(r.stage, r.actions[i], host)
  }

  lemma AcceptedDraftRuleOk(d: RuleDraft, r: Rule, host: Host)
    requires DraftOk(d, host)
    ensures RuleOk(Edited(r, d), host)
  {
  }

  lemma {:induction false} ExecutedAll(actions: seq<RuleAction>)
    requires TerminalLast(actions)
    ensures Executed(actions) == actions
  {
    if |actions| > 1 {
      assert forall i :: 0 <= i < |actions| - 2 ==> actions[1..][i] == actions[i + 1];
      ExecutedAll(actions[1..]);
      assert actions == [actions[0]] + actions[1..];
    } else if |actions| == 1 {
      assert Executed(actions[1..]) == [];
    }
  }

  lemma {:induction false} ApplicablesMembers(rules: seq<Rule>, ctx: MatchContext)
    ensures forall r :: r in Applicables(rules, ctx) <==> r in rules && Applicable(r, ctx)
  {
    if rules != [] {
      assert rules == [rules[0]] + rules[1..];
      ApplicablesMembers(rules[1..], ctx);
    }
  }

  lemma {:induction false} AllActionsFrom(traces: seq<RuleTrace>, a: RuleAction)
    requires a in AllActions(traces)
    ensures exists i :: 0 <= i < |traces| && a in traces[i].actions
  {
    if a in traces[0].actions {
    } else {
      AllActionsFrom(traces[1..], a);
      var i :| 0 <= i < |traces[1..]| && a in traces[1..][i].actions;
      assert traces[i + 1] == traces[1..][i];
    }
  }

  /**
   * The shape of one evaluation in any state: a prefix of the applicable rules in evaluation
   * order, cut by a terminal action and by nothing else: the scan ends with the rule of that
   * action, which is the last composed action and the only terminal one.
   */
  lemma EvaluationShape(s: EngineState, ctx: MatchContext, host: Host)
    ensures var e := Evaluation(s, ctx, host);
            var applicable := Applicables(EvaluationOrder(Prepare(s, ctx.runtimeEpoch).rules), ctx);
            && |e.traces| <= |applicable|
            && (forall i :: 0 <= i < |e.traces| ==> TraceFits(e.traces[i], applicable[i]))
            && (e.terminal.None? ==> |e.traces| == |applicable|)
            && (e.terminal.Some? ==> e.traces != [] && EndsWith(e.traces[|e.traces| - 1], e.terminal.value))
            && e.composed == AllActions(e.traces) && OnlyLastTerminal(e.composed, e.terminal)
  {
    hide Scan, Applicables, EvaluationOrder;
    var p := Prepare(s, ctx.runtimeEpoch);
    ScanShape(EvaluationOrder(p.rules), p.counters, ctx, host);
  }

  ghost predicate AllOk(rules: seq<Rule>, host: Host) {
    forall r :: r in rules ==> RuleOk(r, host)
  }

  /** Saving validates, and nothing else touches stage or actions: rules that passed validation stay so. */
  lemma ApplyAllOk(s: EngineState, op: Op, host: Host)
    requires AllOk(s.rules, host) && (op.Reconcile? ==> AllOk(op.rules, host))
    ensures AllOk(Apply(s, op, host).rules, host)
  {
    hide Scan, EvaluationOrder, MarkHits, UnhitAll, DraftOk, ActionOk, TerminalLast;
    UnhitMembers(s.rules);
    match op
    case Message(ctx, now) =>
      var p := Prepare(s, ctx.runtimeEpoch);
      var hits := OutcomeOf(s, ctx, host).hits;
      MarkedEach(p.rules, hits, now);
      forall r | r in MarkHits(p.rules, hits, now)
        ensures RuleOk(r, host)
      {
        var i :| 0 <= i < |p.rules| && MarkHits(p.rules, hits, now)[i] == r;
        var q := Source(s, ctx.runtimeEpoch, p.rules[i]);
      }
    case Save(id, draft) =>
      if DraftOk(draft, host) {
        forall r: Rule
          ensures RuleOk(Edited(r, draft), host)
        {
          AcceptedDraftRuleOk(draft, r, host);
        }
      }
    case Toggle(id, expected, enabled) =>
      var i := IndexOf(s.rules, id);
      if i < |s.rules| {
        assert RuleOk(s.rules[i], host);
      }
    case Reconcile(rules) =>
    case RestartAt(epoch) =>
  }

  lemma {:induction false} RunAllOk(s: EngineState, ops: seq<Op>, n: nat, host: Host)
    requires AllOk(s.rules, host) && n <= |ops|
    requires forall i :: 0 <= i < |ops| && ops[i].Reconcile? ==> AllOk(ops[i].rules, host)
    ensures AllOk(At(s, ops, n, host).rules, host)
  {
    hide Apply, AllOk;
    if n > 0 {
      RunAllOk(s, ops, n - 1, host);
      ApplyAllOk(At(s, ops, n - 1, host), ops[n - 1], host);
    }
  }

  /** Over validated rules every matched rule runs all its actions, and every action fits the stage of the message. */
  lemma ValidatedEvaluation(s: EngineState, ctx: MatchContext, host: Host)
    requires Sound(s) && AllOk(s.rules, host)
    ensures var e := Evaluation(s, ctx, host);
            var applicable := Applicables(EvaluationOrder(Prepare(s, ctx.runtimeEpoch).rules), ctx);
            && |e.traces| <= |applicable|
            && (forall i :: 0 <= i < |e.traces| && e.traces[i].Matched() ==>
                e.traces[i].actions == applicable[i].actions)
            && (forall a :: a in e.composed ==> ActionCompatible(ctx.stage, a))
  {
    hide Scan, EvaluationOrder, UnhitAll, Applicables, OnlyLastTerminal, ActionCompatible, ParametersOk, ContentOk,
         Executed, TerminalLast;
    var p := Prepare(s, ctx.runtimeEpoch);
    var e := Evaluation(s, ctx, host);
    var sorted := EvaluationOrder(p.rules);
    var applicable := Applicables(sorted, ctx);
    EvaluationShape(s, ctx, host);
    PrepareSound(s, ctx.runtimeEpoch);
    OrderedDistinct(p.rules);
    ApplicablesMembers(sorted, ctx);
    forall i | 0 <= i < |e.traces|
      ensures RuleOk(applicable[i], host) && applicable[i].stage == ctx.stage
      ensures e.traces[i].Matched() ==> e.traces[i].actions == applicable[i].actions
    {
      assert applicable[i] in applicable;
      var r := Source(s, ctx.runtimeEpoch, applicable[i]);
      assert TraceFits(e.traces[i], applicable[i]);
      ExecutedAll(applicable[i].actions);
    }
    forall a | a in e.composed
      ensures ActionCompatible(ctx.stage, a)
    {
      AllActionsFrom(e.traces, a);
      var i :| 0 <= i < |e.traces| && a in e.traces[i].actions;
      assert TraceFits(e.traces[i], applicable[i]);
      var k :| 0 <= k < |applicable[i].actions| && applicable[i].actions[k] == a;
      assert ActionOk(applicable[i].stage, applicable[i].actions[k], host);
    }
  }

  /** At any point of any run over validated snapshots, a message only gets actions that fit its stage. */
  lemma RunFitsStage(s: EngineState, ops: seq<Op>, n: nat, ctx: MatchContext, host: Host)
    requires Sound(s) && AllOk(s.rules, host) && Proper(ops) && n <= |ops|
    requires forall i :: 0 <= i < |ops| && ops[i].Reconcile? ==> AllOk(ops[i].rules, host)
    ensures forall a :: a in Evaluation(At(s, ops, n, host), ctx, host).composed ==> ActionCompatible(ctx.stage, a)
  {
    hide Apply, AllOk, Evaluation, ActionCompatible;
    RunSound(s, ops, n, host);
    RunAllOk(s, ops, n, host);
    ValidatedEvaluation(At(s, ops, n, host), ctx, host);
  }
}
