/** Properties of one evaluation: order, stopping, counters, and what they do not depend on. */
module RuleEvaluations {
  import opened Wrappers
  import opened Ordering
  import opened RuleModel

  // ---- evaluation order ----

  lemma DistinctUntied(rules: seq<Rule>)
    requires DistinctIds(rules)
    ensures Untied(rules, RuleLeq) && TotalPreorder(RuleLeq)
  {
  }

  lemma RemoveCommon(a: seq<Rule>, b: seq<Rule>, k: nat)
    requires multiset(a) == multiset(b) && a != [] && k < |b| && b[k] == a[0]
    ensures multiset(a[1..]) == multiset(b[..k] + b[k + 1..])
  {
    assert a == [a[0]] + a[1..];
    assert b == b[..k] + ([b[k]] + b[k + 1..]);
    assert multiset(a) == multiset{a[0]} + multiset(a[1..]);
    assert multiset(b) == multiset(b[..k]) + (multiset{b[k]} + multiset(b[k + 1..]));
    assert multiset(b[..k] + b[k + 1..]) == multiset(b[..k]) + multiset(b[k + 1..]);
    assert multiset(a[1..]) == multiset(a) - multiset{a[0]};
  }

  lemma {:induction false} MapPermutation(a: seq<Rule>, b: seq<Rule>, f: Rule -> Rule)
    requires multiset(a) == multiset(b)
    ensures multiset(MapRules(a, f)) == multiset(MapRules(b, f))
    decreases |a|
  {
    hide MapRules;
    SameSize(a, b);
    if a == [] {
      assert b == [];
    } else {
      var k := Locate(b, a[0], a);
      RemoveCommon(a, b, k);
      MapPermutation(a[1..], b[..k] + b[k + 1..], f);
      MapWithout(a, 0, f);
      MapWithout(b, k, f);
      assert a[..0] + a[1..] == a[1..];
    }
  }

  lemma Locate(b: seq<Rule>, x: Rule, a: seq<Rule>) returns (k: nat)
    requires multiset(a) == multiset(b) && x in a
    ensures k < |b| && b[k] == x
  {
    assert x in multiset(a);
    k :| 0 <= k < |b| && b[k] == x;
  }

  lemma MapWithout(s: seq<Rule>, k: nat, f: Rule -> Rule)
    requires k < |s|
    ensures multiset(MapRules(s, f)) == multiset(MapRules(s[..k] + s[k + 1..], f)) + multiset{f(s[k])}
  {
    var front, back := s[..k], s[k + 1..];
    MapConcat(front, back, f);
    MapConcat(front, [s[k]] + back, f);
    MapConcat([s[k]], back, f);
    assert s == front + ([s[k]] + back);
    assert MapRules([s[k]], f) == [f(s[k])];
  }

  lemma MapConcat(a: seq<Rule>, b: seq<Rule>, f: Rule -> Rule)
    ensures MapRules(a + b, f) == MapRules(a, f) + MapRules(b, f)
  {
  }

  lemma PermutedDistinct(a: seq<Rule>, b: seq<Rule>)
    requires DistinctIds(a) && multiset(a) == multiset(b)
    ensures DistinctIds(b)
  {
    SameMembers(a, b);
    forall i, j | 0 <= i < j < |b|
      ensures b[i].id != b[j].id
    {
      if b[i].id == b[j].id {
        assert b[i] in a && b[j] in a;
        assert b == b[..j] + [b[j]] + b[j + 1..];
        assert b[..j][i] == b[i];
        assert b[i] in multiset(b[..j]);
        assert multiset(b)[b[i]] >= 2;
        OnceOnly(a, b[i]);
        assert false;
      }
    }
  }

  lemma {:induction false} OnceOnly(a: seq<Rule>, r: Rule)
    requires DistinctIds(a)
    ensures multiset(a)[r] <= 1
  {
    if a != [] {
      assert a == [a[0]] + a[1..];
      OnceOnly(a[1..], r);
      if a[0] == r {
        assert r !in a[1..];
      }
    }
  }

  /**
   * The order in which rules are stored is not observable: the evaluation and the counters are
   * the same, and the rules afterwards are the same up to that order.
   */
  lemma StorageOrderIrrelevant(a: EngineState, b: EngineState, ctx: MatchContext, now: int, host: Host)
    requires DistinctIds(a.rules) && multiset(a.rules) == multiset(b.rules)
    requires a.epoch == b.epoch && a.counters == b.counters
    ensures Evaluation(a, ctx, host) == Evaluation(b, ctx, host)
    ensures AfterEvaluate(a, ctx, now, host).counters == AfterEvaluate(b, ctx, now, host).counters
    ensures multiset(AfterEvaluate(a, ctx, now, host).rules) == multiset(AfterEvaluate(b, ctx, now, host).rules)
  {
    hide Scan, Unhit, Marker, MapRules;
    var p, q := Prepare(a, ctx.runtimeEpoch), Prepare(b, ctx.runtimeEpoch);
    MapPermutation(a.rules, b.rules, Unhit);
    UnhitDistinct(a.rules);
    assert DistinctIds(p.rules) && multiset(p.rules) == multiset(q.rules) && p.counters == q.counters;
    DistinctUntied(p.rules);
    SortStable(p.rules, q.rules, RuleLeq);
    MapPermutation(p.rules, q.rules, Marker(OutcomeOf(a, ctx, host).hits, now));
  }

  lemma UnhitEach(rules: seq<Rule>)
    ensures forall i :: 0 <= i < |rules| ==> UnhitAll(rules)[i] == Unhit(rules[i])
  {
  }

  lemma UnhitDistinct(rules: seq<Rule>)
    requires DistinctIds(rules)
    ensures DistinctIds(UnhitAll(rules))
  {
    UnhitEach(rules);
  }

  lemma OrderedDistinct(rules: seq<Rule>)
    requires DistinctIds(rules)
    ensures DistinctIds(EvaluationOrder(rules)) && Sorted(EvaluationOrder(rules), RuleLeq)
    ensures multiset(EvaluationOrder(rules)) == multiset(rules)
    ensures forall r :: r in EvaluationOrder(rules) <==> r in rules
  {
    DistinctUntied(rules);
    SortCorrect(rules, RuleLeq);
    PermutedDistinct(rules, EvaluationOrder(rules));
    SameMembers(EvaluationOrder(rules), rules);
  }

  // ---- the shape of an evaluation ----

  /** Priority first, then age, then id. */
  ghost predicate Ahead(a: Rule, b: Rule) {
    || a.priority < b.priority
    || (a.priority == b.priority && a.createdOrder < b.createdOrder)
    || (a.priority == b.priority && a.createdOrder == b.createdOrder && a.id < b.id)
  }

  function Applicables(rules: seq<Rule>, ctx: MatchContext): seq<Rule> {
    if rules == [] then []
    else (if Applicable(rules[0], ctx) then [rules[0]] else []) + Applicables(rules[1..], ctx)
  }

  function AllActions(traces: seq<RuleTrace>): seq<RuleAction> {
    if traces == [] then [] else traces[0].actions + AllActions(traces[1..])
  }

  /** Trace `i` is about applicable rule `i` and shows the actions it ran. */
  ghost predicate TraceFits(trace: RuleTrace, rule: Rule) {
    trace.ruleId == rule.id && trace.actions == if trace.Matched() then Executed(rule.actions) else []
  }

  ghost predicate OnlyLastTerminal(actions: seq<RuleAction>, terminal: Option<TerminalAction>) {
    match terminal
    case None => forall i :: 0 <= i < |actions| ==> !actions[i].Terminal?
    case Some(t) =>
      && actions != [] && actions[|actions| - 1] == Terminal(t)
      && forall i :: 0 <= i < |actions| - 1 ==> !actions[i].Terminal?
  }

  lemma {:induction false} ExecutedShape(actions: seq<RuleAction>)
    ensures OnlyLastTerminal(Executed(actions), FirstTerminal(actions))
    ensures Executed(actions) <= actions
  {
    if actions != [] && !actions[0].Terminal? {
      ExecutedShape(actions[1..]);
    }
  }

  /**
   * The traces are a prefix of the applicable rules, all of them unless a terminal action
   * stopped the scan, and then the rule of that action is the last one traced; the composed
   * actions are the traced ones; a terminal action is the only one and the last.
   */
  ghost predicate Shaped(e: RuleEvaluation, applicable: seq<Rule>) {
    && |e.traces| <= |applicable|
    && (forall i :: 0 <= i < |e.traces| ==> TraceFits(e.traces[i], applicable[i]))
    && (e.terminal.None? ==> |e.traces| == |applicable|)
    && e.composed == AllActions(e.traces)
    && OnlyLastTerminal(e.composed, e.terminal)
    && (e.terminal.Some? ==> e.traces != [] && EndsWith(e.traces[|e.traces| - 1], e.terminal.value))
  }

  /** The trace of a matched rule whose last action is the terminal one. */
  predicate EndsWith(trace: RuleTrace, action: TerminalAction) {
    trace.Matched() && trace.actions != [] && trace.actions[|trace.actions| - 1] == Terminal(action)
  }

  lemma {:induction false} ScanShape(rules: seq<Rule>, counters: Counters, ctx: MatchContext, host: Host)
    ensures Shaped(Scan(rules, counters, ctx, host).evaluation, Applicables(rules, ctx))
  {
    hide Executed, FirstTerminal, MatchRule, Shaped, Before, Applicable;
    if rules == [] {
      ShapedEmpty();
    } else {
      var rule, rest := rules[0], rules[1..];
      if Applicable(rule, ctx) {
        var (verdict, counted) := MatchRule(rule, counters, ctx, host);
        ScanShape(rest, counted, ctx, host);
        ShapedLast(rule, Applicables(rest, ctx));
        ShapedBefore(RuleTrace(rule.id, verdict, []), [], rule, Scan(rest, counted, ctx, host), Applicables(rest, ctx));
        ShapedBefore(RuleTrace(rule.id, Yes, Executed(rule.actions)), [rule.id], rule, Scan(rest, counted, ctx, host),
                     Applicables(rest, ctx));
      } else {
        ScanShape(rest, counters, ctx, host);
        assert [] + Applicables(rest, ctx) == Applicables(rest, ctx);
      }
    }
  }

  lemma ShapedEmpty()
    ensures Shaped(RuleEvaluation([], [], None), [])
  {
  }

  lemma ShapedLast(rule: Rule, applicable: seq<Rule>)
    ensures var executed := Executed(rule.actions);
            FirstTerminal(rule.actions).Some? ==>
              Shaped(RuleEvaluation([RuleTrace(rule.id, Yes, executed)], executed, FirstTerminal(rule.actions)),
                     [rule] + applicable)
  {
    hide Executed, FirstTerminal;
    ExecutedShape(rule.actions);
    var trace := RuleTrace(rule.id, Yes, Executed(rule.actions));
    assert AllActions([trace]) == trace.actions + AllActions([]);
    assert TraceFits(trace, ([rule] + applicable)[0]);
  }

  lemma ShapedBefore(trace: RuleTrace, hits: seq<RuleId>, rule: Rule, rest: Outcome, applicable: seq<Rule>)
    requires Shaped(rest.evaluation, applicable)
    ensures TraceFits(trace, rule) && (trace.Matched() ==> FirstTerminal(rule.actions).None?) ==>
              Shaped(Before(trace, hits, rest).evaluation, [rule] + applicable)
  {
    hide Executed, FirstTerminal;
    ExecutedShape(rule.actions);
  }

  // ---- counters ----

  ghost predicate Traced(traces: seq<RuleTrace>, id: RuleId) {
    exists i :: 0 <= i < |traces| && traces[i].ruleId == id
  }

  /** A counting rule of this id whose field conditions all hold for the message. */
  ghost predicate Candidate(rules: seq<Rule>, id: RuleId, ctx: MatchContext, host: Host) {
    exists r :: r in rules && r.id == id && Counted(r) && FieldsVerdict(r.conditions, ctx, host).Yes?
  }

  lemma {:induction false} ScanWithout(rules: seq<Rule>, counters: Counters, ctx: MatchContext, host: Host, id: RuleId)
    requires forall i :: 0 <= i < |rules| ==> rules[i].id != id
    ensures var o := Scan(rules, counters, ctx, host);
            && !Traced(o.evaluation.traces, id) && id !in o.hits
            && forall t :: Count(o.counters, CounterKey(id, t)) == Count(counters, CounterKey(id, t))
  {
    hide Executed, FirstTerminal, FieldsVerdict, AllEqual;
    if rules != [] {
      var counted := if Applicable(rules[0], ctx) then MatchRule(rules[0], counters, ctx, host).1 else counters;
      ScanWithout(rules[1..], counted, ctx, host, id);
    }
  }

  /**
   * An evaluation advances the counter of a rule for the terminal of the message by one exactly
   * if the rule was reached, counts, and had all its field conditions satisfied. No other counter moves.
   */
  lemma {:induction false} ScanCounts(rules: seq<Rule>, counters: Counters, ctx: MatchContext, host: Host,
                                      key: CounterKey)
    requires DistinctIds(rules)
    ensures var o := Scan(rules, counters, ctx, host);
            Count(o.counters, key) == Count(counters, key) +
              if key.terminal == ctx.terminal && Traced(o.evaluation.traces, key.ruleId)
                 && Candidate(rules, key.ruleId, ctx, host) then 1 else 0
  {
    hide Executed, FirstTerminal, MatchRule, Applicable, Traced, Before, Candidate, Count;
    if rules == [] {
      NoTraces(key.ruleId);
      assert !Candidate(rules, key.ruleId, ctx, host) by {
        NoCandidate(key.ruleId, ctx, host);
      }
    } else {
      var rule, rest := rules[0], rules[1..];
      CandidateHead(rules, key.ruleId, ctx, host);
      if Applicable(rule, ctx) {
        var (verdict, counted) := MatchRule(rule, counters, ctx, host);
        var below := Scan(rest, counted, ctx, host);
        MatchCounts(rule, counters, ctx, host, key);
        ScanCounts(rest, counted, ctx, host, key);
        BeforeTraces(RuleTrace(rule.id, verdict, []), [], below, key.ruleId);
        BeforeTraces(RuleTrace(rule.id, Yes, Executed(rule.actions)), [rule.id], below, key.ruleId);
        OneTrace(RuleTrace(rule.id, Yes, Executed(rule.actions)), key.ruleId);
        BeforeHits(RuleTrace(rule.id, verdict, []), [], below);
        BeforeHits(RuleTrace(rule.id, Yes, Executed(rule.actions)), [rule.id], below);
      } else {
        ScanCounts(rest, counters, ctx, host, key);
      }
      if rule.id == key.ruleId {
        ScanWithout(rest, if Applicable(rule, ctx) then MatchRule(rule, counters, ctx, host).1 else counters, ctx, host,
                    key.ruleId);
      }
    }
  }

  lemma MatchCounts(rule: Rule, counters: Counters, ctx: MatchContext, host: Host, key: CounterKey)
    ensures var (verdict, counted) := MatchRule(rule, counters, ctx, host);
            Count(counted, key) == Count(counters, key) +
              if key == CounterKey(rule.id, ctx.terminal) && Counted(rule)
                && FieldsVerdict(rule.conditions, ctx, host).Yes?
              then 1 else 0
  {
  }

  lemma NoCandidate(id: RuleId, ctx: MatchContext, host: Host)
    ensures !Candidate([], id, ctx, host)
  {
  }

  lemma CandidateHead(rules: seq<Rule>, id: RuleId, ctx: MatchContext, host: Host)
    requires DistinctIds(rules) && rules != []
    ensures Candidate(rules, id, ctx, host) <==>
            if rules[0].id == id then Counted(rules[0]) && FieldsVerdict(rules[0].conditions, ctx, host).Yes?
            else Candidate(rules[1..], id, ctx, host)
    ensures DistinctIds(rules[1..]) && (rules[0].id == id ==> !Candidate(rules[1..], id, ctx, host))
  {
    hide FieldsVerdict, Counted;
    assert rules == [rules[0]] + rules[1..];
    assert rules[0] in rules;
  }

  // ---- what a match says about the counter ----

  /** Every counting condition of the rule names the current count. */
  ghost predicate CountsFit(r: Rule, counters: Counters, t: TerminalIdentity) {
    forall n :: NthHit(n) in r.conditions ==> n == Count(counters, CounterKey(r.id, t))
  }

  /** A matched counting rule has just been reached for the n-th time, for each of its n. */
  lemma {:induction false} ScanMatched(rules: seq<Rule>, counters: Counters, ctx: MatchContext, host: Host, i: nat,
                                       r: Rule)
    requires DistinctIds(rules)
    requires var e := Scan(rules, counters, ctx, host).evaluation;
             i < |e.traces| && e.traces[i].Matched() && e.traces[i].ruleId == r.id
    requires r in rules
    ensures FieldsVerdict(r.conditions, ctx, host).Yes? && Applicable(r, ctx)
    ensures CountsFit(r, Scan(rules, counters, ctx, host).counters, ctx.terminal)
  {
    hide Executed, FirstTerminal, FieldsVerdict, Applicable, MatchRule, Count;
    var rule, rest := rules[0], rules[1..];
    assert rules == [rule] + rest;
    var counted := if Applicable(rule, ctx) then MatchRule(rule, counters, ctx, host).1 else counters;
    if rule.id == r.id {
      assert rule == r by {
        assert forall q :: q in rest ==> q.id != rule.id;
      }
      ScanWithout(rest, counted, ctx, host, r.id);
      var below := Scan(rest, counted, ctx, host).evaluation.traces;
      var traces := Scan(rules, counters, ctx, host).evaluation.traces;
      assert forall j :: 0 <= j < |below| ==> below[j].ruleId != r.id;
      MatchedCount(r, counters, ctx, host);
    } else {
      assert r in rest;
      ScanMatched(rest, counted, ctx, host, if Applicable(rule, ctx) then i - 1 else i, r);
    }
  }

  lemma MatchedCount(r: Rule, counters: Counters, ctx: MatchContext, host: Host)
    requires MatchRule(r, counters, ctx, host).0.Yes?
    ensures FieldsVerdict(r.conditions, ctx, host).Yes?
    ensures CountsFit(r, MatchRule(r, counters, ctx, host).1, ctx.terminal)
  {
    var values := NthValues(r.conditions);
    forall n | NthHit(n) in r.conditions
      ensures n == Count(MatchRule(r, counters, ctx, host).1, CounterKey(r.id, ctx.terminal))
    {
      NthValuesMembers(r.conditions, n);
      assert n in values;
    }
  }

  lemma FittingCount(r: Rule, counters: Counters, ctx: MatchContext, host: Host)
    requires FieldsVerdict(r.conditions, ctx, host).Yes?
    requires CountsFit(r, MatchRule(r, counters, ctx, host).1, ctx.terminal)
    ensures MatchRule(r, counters, ctx, host).0.Yes?
  {
    hide FieldsVerdict;
    var values := NthValues(r.conditions);
    forall i | 0 <= i < |values|
      ensures NthHit(values[i]) in r.conditions
    {
      NthValuesMembers(r.conditions, values[i]);
    }
  }

  /** Conversely, a rule that was reached with its field conditions satisfied and a fitting counter is matched. */
  lemma {:induction false} ScanMatches(rules: seq<Rule>, counters: Counters, ctx: MatchContext, host: Host, r: Rule)
    requires DistinctIds(rules) && r in rules
    requires Traced(Scan(rules, counters, ctx, host).evaluation.traces, r.id)
    requires FieldsVerdict(r.conditions, ctx, host).Yes?
    requires CountsFit(r, Scan(rules, counters, ctx, host).counters, ctx.terminal)
    ensures MatchedIn(Scan(rules, counters, ctx, host).evaluation, r.id)
  {
    hide Executed, FirstTerminal, FieldsVerdict, MatchRule, Applicable, Traced, MatchedIn, Before, Count;
    var rule, rest := rules[0], rules[1..];
    assert rules == [rule] + rest;
    var (verdict, counted) := MatchRule(rule, counters, ctx, host);
    var next := if Applicable(rule, ctx) then counted else counters;
    var below := Scan(rest, next, ctx, host);
    var missed, hit := RuleTrace(rule.id, verdict, []), RuleTrace(rule.id, Yes, Executed(rule.actions));
    BeforeTraces(missed, [], below, r.id);
    BeforeTraces(hit, [rule.id], below, r.id);
    BeforeHits(missed, [], below);
    BeforeHits(hit, [rule.id], below);
    OneTrace(hit, r.id);
    if rule.id == r.id {
      assert rule == r by {
        assert forall q :: q in rest ==> q.id != rule.id;
      }
      ScanWithout(rest, next, ctx, host, r.id);
      assert Applicable(rule, ctx);
      assert CountsFit(r, counted, ctx.terminal);
      FittingCount(r, counters, ctx, host);
    } else if Traced(below.evaluation.traces, r.id) {
      ScanMatches(rest, next, ctx, host, r);
    }
  }

  // ---- independence of other terminals ----

  /** The counters of one terminal, whatever the rule. */
  ghost predicate AgreeOn(a: Counters, b: Counters, t: TerminalIdentity) {
    forall id :: Count(a, CounterKey(id, t)) == Count(b, CounterKey(id, t))
  }

  /** An evaluation reads and writes only the counters of the terminal of its message. */
  lemma {:induction false} ScanLocal(rules: seq<Rule>, a: Counters, b: Counters, ctx: MatchContext, host: Host)
    requires AgreeOn(a, b, ctx.terminal)
    ensures Scan(rules, a, ctx, host).evaluation == Scan(rules, b, ctx, host).evaluation
    ensures Scan(rules, a, ctx, host).hits == Scan(rules, b, ctx, host).hits
    ensures AgreeOn(Scan(rules, a, ctx, host).counters, Scan(rules, b, ctx, host).counters, ctx.terminal)
    ensures forall t :: t != ctx.terminal ==> AgreeOn(Scan(rules, a, ctx, host).counters, a, t)
  {
    hide Executed, FirstTerminal, FieldsVerdict, NthValues, Applicable, AllEqual;
    if rules != [] {
      if Applicable(rules[0], ctx) {
        var counted := MatchRule(rules[0], a, ctx, host).1;
        ScanLocal(rules[1..], counted, MatchRule(rules[0], b, ctx, host).1, ctx, host);
        assert forall t :: t != ctx.terminal ==> AgreeOn(counted, a, t);
        forall t | t != ctx.terminal
          ensures AgreeOn(Scan(rules, a, ctx, host).counters, a, t)
        {
          assert AgreeOn(Scan(rules[1..], counted, ctx, host).counters, counted, t) && AgreeOn(counted, a, t);
        }
      } else {
        ScanLocal(rules[1..], a, b, ctx, host);
      }
    }
  }

  /** Hit counts and hit times never influence an evaluation. */
  lemma {:induction false} ScanUnhit(rules: seq<Rule>, counters: Counters, ctx: MatchContext, host: Host)
    ensures Scan(UnhitAll(rules), counters, ctx, host) == Scan(rules, counters, ctx, host)
  {
    hide Executed, FirstTerminal, FieldsVerdict, NthValues, AllEqual;
    UnhitEach(rules);
    if rules != [] {
      assert UnhitAll(rules)[1..] == UnhitAll(rules[1..]);
      var counted := if Applicable(rules[0], ctx) then MatchRule(rules[0], counters, ctx, host).1 else counters;
      ScanUnhit(rules[1..], counted, ctx, host);
    }
  }

  lemma {:induction false} InsertUnhit(r: Rule, rules: seq<Rule>)
    ensures Insert(Unhit(r), UnhitAll(rules), RuleLeq) == UnhitAll(Insert(r, rules, RuleLeq))
  {
    UnhitEach(rules);
    if rules == [] || RuleLeq(r, rules[0]) {
      UnhitEach([r] + rules);
      assert UnhitAll([r] + rules) == [Unhit(r)] + UnhitAll(rules);
    } else {
      assert UnhitAll(rules)[1..] == UnhitAll(rules[1..]);
      InsertUnhit(r, rules[1..]);
      UnhitEach([rules[0]] + Insert(r, rules[1..], RuleLeq));
      UnhitEach(Insert(r, rules[1..], RuleLeq));
      assert UnhitAll([rules[0]] + Insert(r, rules[1..], RuleLeq)) ==
               [Unhit(rules[0])] + UnhitAll(Insert(r, rules[1..], RuleLeq));
    }
  }

  lemma {:induction false} OrderUnhit(rules: seq<Rule>)
    ensures EvaluationOrder(UnhitAll(rules)) == UnhitAll(EvaluationOrder(rules))
  {
    UnhitEach(rules);
    if rules != [] {
      assert UnhitAll(rules)[1..] == UnhitAll(rules[1..]);
      OrderUnhit(rules[1..]);
      InsertUnhit(rules[0], EvaluationOrder(rules[1..]));
    }
  }

  // ---- hits ----

  ghost predicate MatchedIn(e: RuleEvaluation, id: RuleId) {
    exists i :: 0 <= i < |e.traces| && e.traces[i].ruleId == id && e.traces[i].Matched()
  }

  lemma BeforeTraces(trace: RuleTrace, hits: seq<RuleId>, rest: Outcome, id: RuleId)
    ensures var e := Before(trace, hits, rest).evaluation;
            && (MatchedIn(e, id) <==> (trace.ruleId == id && trace.Matched()) || MatchedIn(rest.evaluation, id))
            && (Traced(e.traces, id) <==> trace.ruleId == id || Traced(rest.evaluation.traces, id))
  {
    var e := Before(trace, hits, rest).evaluation;
    assert e.traces[0] == trace;
    assert forall i :: 0 <= i < |rest.evaluation.traces| ==> e.traces[i + 1] == rest.evaluation.traces[i];
  }

  /** The rules marked as hit are the matched ones. */
  lemma {:induction false} ScanHits(rules: seq<Rule>, counters: Counters, ctx: MatchContext, host: Host, id: RuleId)
    ensures var o := Scan(rules, counters, ctx, host);
            && (id in o.hits <==> MatchedIn(o.evaluation, id))
            && (Traced(o.evaluation.traces, id) ==> exists r :: r in rules && r.id == id)
  {
    hide Executed, FirstTerminal, MatchRule, Applicable, MatchedIn, Traced, Before;
    if rules == [] {
      NoTraces(id);
    } else {
      var rule, rest := rules[0], rules[1..];
      assert rules == [rule] + rest && rule in rules;
      var (verdict, counted) := MatchRule(rule, counters, ctx, host);
      if Applicable(rule, ctx) {
        ScanHits(rest, counted, ctx, host, id);
        var below := Scan(rest, counted, ctx, host);
        BeforeTraces(RuleTrace(rule.id, verdict, []), [], below, id);
        BeforeTraces(RuleTrace(rule.id, Yes, Executed(rule.actions)), [rule.id], below, id);
        OneTrace(RuleTrace(rule.id, Yes, Executed(rule.actions)), id);
        BeforeHits(RuleTrace(rule.id, verdict, []), [], below);
        BeforeHits(RuleTrace(rule.id, Yes, Executed(rule.actions)), [rule.id], below);
      } else {
        ScanHits(rest, counters, ctx, host, id);
      }
    }
  }

  lemma BeforeHits(trace: RuleTrace, hits: seq<RuleId>, rest: Outcome)
    ensures Before(trace, hits, rest).hits == hits + rest.hits && Before(trace, hits, rest).counters == rest.counters
  {
  }

  lemma NoTraces(id: RuleId)
    ensures !Traced([], id) && forall e: RuleEvaluation :: e.traces == [] ==> !MatchedIn(e, id)
  {
  }

  lemma OneTrace(trace: RuleTrace, id: RuleId)
    ensures Traced([trace], id) <==> trace.ruleId == id
    ensures forall e: RuleEvaluation :: e.traces == [trace] ==>
              (MatchedIn(e, id) <==> trace.ruleId == id && trace.Matched())
  {
    assert [trace][0] == trace;
  }
}
