/** What one evaluation means, in the fields of rules and messages: who is reached, who matches, and what runs. */
module RuleMeaning {
  import opened Wrappers
  import opened Ordering
  import opened Strings
  import opened JsonPaths
  import opened JsonPathText
  import opened RuleModel
  import opened RuleEvaluations
  import opened RuleRuns
  import opened RuleShadowing

  // ---- conditions ----

  /** The field of the message has this text. */
  ghost predicate Shows(field: MatchField, ctx: MatchContext, host: Host, text: string) {
    && (field.TerminalIp? ==> text == ctx.terminal.sourceIp)
    && (field.CertificateFingerprint? ==> text == ctx.terminal.certificate)
    && (field.PathOrRequestType? ==> if ctx.target == None then text == "" else Some(text) == ctx.target)
    && (field.JsonField? ==>
          && ctx.json.Some?
          && exists path, value ::
               && Parse(field.path, host.alnum) == Ok(path)
               && Lookup(ctx.json.value, Steps(path.segments)) == Some(value)
               && (if value.Text? then text == value.text else text == host.show(value)))
  }

  ghost predicate Passes(operator: MatchOperator, text: string, host: Host) {
    && (operator.Equals? ==> text == operator.value)
    && (operator.Contains? ==> exists before, after :: text == before + operator.fragment + after)
    && (operator.Regex? ==> host.compiles(operator.pattern) && host.isMatch(operator.pattern, text))
  }

  /** A field condition holds for the message; counting conditions are not about its fields. */
  ghost predicate Holds(c: MatchCondition, ctx: MatchContext, host: Host) {
    c.FieldIs? ==> exists text :: Shows(c.field, ctx, host, text) && Passes(c.operator, text, host)
  }

  /** A field condition cannot be decided: no JSON body, a bad path, a path that leads nowhere, or a bad pattern. */
  ghost predicate Breaks(c: MatchCondition, ctx: MatchContext, host: Host, fault: MatchFault) {
    && c.FieldIs?
    && (!fault.InvalidRegex? ==> c.field.JsonField?)
    && (fault.BodyNotJson? ==> ctx.json.None?)
    && (fault.InvalidPath? ==> ctx.json.Some? && Parse(c.field.path, host.alnum).Err?)
    && (fault.PathMissing? ==>
          && fault.path == c.field.path && ctx.json.Some?
          && exists path ::
               Parse(c.field.path, host.alnum) == Ok(path) && Lookup(ctx.json.value, Steps(path.segments)) == None)
    && (fault.InvalidRegex? ==>
          && c.operator.Regex? && !host.compiles(c.operator.pattern)
          && exists text :: Shows(c.field, ctx, host, text))
  }

  lemma SubstringMeaning(fragment: string, text: string)
    ensures Substring(fragment, text) <==> exists before, after :: text == before + fragment + after
  {
    if Substring(fragment, text) {
      var i :| 0 <= i <= |text| && fragment <= text[i..];
      assert text == text[..i] + fragment + text[i + |fragment|..];
    }
    if before, after :| text == before + fragment + after {
      assert fragment <= text[|before|..];
    }
  }

  lemma FieldShows(field: MatchField, ctx: MatchContext, host: Host, text: string)
    ensures Shows(field, ctx, host, text) <==> FieldValue(field, ctx, host) == Ok(text)
  {
    hide Lookup, Steps, Parse;
  }

  lemma OperatorPasses(c: MatchCondition, ctx: MatchContext, host: Host, text: string)
    requires c.FieldIs? && FieldValue(c.field, ctx, host) == Ok(text)
    ensures ConditionVerdict(c, ctx, host).Yes? <==> Passes(c.operator, text, host)
    ensures ConditionVerdict(c, ctx, host).Fault? <==> c.operator.Regex? && !host.compiles(c.operator.pattern)
    ensures ConditionVerdict(c, ctx, host).Fault? ==> ConditionVerdict(c, ctx, host).fault == InvalidRegex
  {
    hide FieldValue, Substring;
    if c.operator.Contains? {
      SubstringMeaning(c.operator.fragment, text);
    }
  }

  /** The verdict on one condition is the one its field and operator ask for. */
  lemma ConditionMeaning(c: MatchCondition, ctx: MatchContext, host: Host)
    ensures ConditionVerdict(c, ctx, host).Yes? <==> Holds(c, ctx, host)
    ensures forall fault :: ConditionVerdict(c, ctx, host) == Fault(fault) <==> Breaks(c, ctx, host, fault)
  {
    hide Shows, Passes, Lookup, Steps, Parse, Substring;
    if c.FieldIs? {
      forall text {
        FieldShows(c.field, ctx, host, text);
      }
      var value := FieldValue(c.field, ctx, host);
      if value.Ok? {
        OperatorPasses(c, ctx, host, value.value);
      }
    }
  }

  /** The first field condition that does not hold decides. */
  lemma {:induction false} FieldsMeaning(conditions: seq<MatchCondition>, ctx: MatchContext, host: Host)
    ensures FieldsVerdict(conditions, ctx, host).Yes? <==> forall c :: c in conditions ==> Holds(c, ctx, host)
    ensures forall fault :: FieldsVerdict(conditions, ctx, host) == Fault(fault) <==>
              FirstBreak(conditions, ctx, host, fault)
  {
    hide Holds, Breaks, ConditionVerdict;
    if conditions != [] {
      assert conditions == [conditions[0]] + conditions[1..];
      ConditionMeaning(conditions[0], ctx, host);
      FieldsMeaning(conditions[1..], ctx, host);
      FirstBreakStep(conditions, ctx, host);
    }
  }

  /** All conditions before some condition hold, and that one cannot be decided. */
  ghost predicate FirstBreak(conditions: seq<MatchCondition>, ctx: MatchContext, host: Host, fault: MatchFault) {
    exists k :: 0 <= k < |conditions| && (forall i :: 0 <= i < k ==> Holds(conditions[i], ctx, host))
                && Breaks(conditions[k], ctx, host, fault)
  }

  lemma FirstBreakStep(conditions: seq<MatchCondition>, ctx: MatchContext, host: Host)
    requires conditions != []
    ensures forall fault :: FirstBreak(conditions, ctx, host, fault) <==>
              || Breaks(conditions[0], ctx, host, fault)
              || (Holds(conditions[0], ctx, host) && FirstBreak(conditions[1..], ctx, host, fault))
  {
    hide Holds, Breaks;
    var rest := conditions[1..];
    assert forall i :: 0 <= i < |rest| ==> rest[i] == conditions[i + 1];
    forall fault
      ensures FirstBreak(conditions, ctx, host, fault) <==>
                || Breaks(conditions[0], ctx, host, fault)
                || (Holds(conditions[0], ctx, host) && FirstBreak(rest, ctx, host, fault))
    {
      if k :| 0 <= k < |conditions| && (forall i :: 0 <= i < k ==> Holds(conditions[i], ctx, host))
              && Breaks(conditions[k], ctx, host, fault) {
        if k > 0 {
          assert Holds(conditions[0], ctx, host) && Breaks(rest[k - 1], ctx, host, fault);
          assert forall i :: 0 <= i < k - 1 ==> Holds(rest[i], ctx, host);
        }
      }
      if k :| 0 <= k < |rest| && (forall i :: 0 <= i < k ==> Holds(rest[i], ctx, host))
              && Breaks(rest[k], ctx, host, fault) && Holds(conditions[0], ctx, host) {
        assert forall i :: 0 <= i < k + 1 ==> Holds(conditions[i], ctx, host) by {
          forall i | 0 <= i < k + 1
            ensures Holds(conditions[i], ctx, host)
          {
            if i > 0 {
              assert conditions[i] == rest[i - 1];
            }
          }
        }
        assert Breaks(conditions[k + 1], ctx, host, fault);
      }
    }
  }

  // ---- actions ----

  lemma {:induction false} ExecutedMeaning(actions: seq<RuleAction>)
    ensures var run := Executed(actions);
            && run <= actions
            && (forall i :: 0 <= i < |run| - 1 ==> !run[i].Terminal?)
            && (run == actions || (run != [] && run[|run| - 1].Terminal?))
    ensures FirstTerminal(actions).Some? <==> exists action :: action in actions && action.Terminal?
  {
    if actions != [] {
      assert actions == [actions[0]] + actions[1..];
      ExecutedMeaning(actions[1..]);
    }
  }

  // ---- one scan ----

  lemma RuleVerdict(r: Rule, counters: Counters, ctx: MatchContext, host: Host)
    ensures var verdict, fields := MatchRule(r, counters, ctx, host).0, FieldsVerdict(r.conditions, ctx, host);
            if fields.Yes? then !verdict.Fault? else verdict == fields
  {
  }

  /** The verdict of a trace is the one on the fields of its rule, except that its counter may say no. */
  lemma {:induction false} ScanVerdict(rules: seq<Rule>, counters: Counters, ctx: MatchContext, host: Host, i: nat,
                                       r: Rule)
    requires DistinctIds(rules) && r in rules
    requires var e := Scan(rules, counters, ctx, host).evaluation; i < |e.traces| && e.traces[i].ruleId == r.id
    ensures var verdict := Scan(rules, counters, ctx, host).evaluation.traces[i].verdict;
            var fields := FieldsVerdict(r.conditions, ctx, host);
            if fields.Yes? then !verdict.Fault? else verdict == fields
  {
    hide Executed, FirstTerminal, FieldsVerdict, Applicable, MatchRule;
    var rule, rest := rules[0], rules[1..];
    assert rules == [rule] + rest;
    var counted := if Applicable(rule, ctx) then MatchRule(rule, counters, ctx, host).1 else counters;
    if rule.id == r.id {
      assert rule == r by {
        assert forall q :: q in rest ==> q.id != rule.id;
      }
      ScanWithout(rest, counted, ctx, host, r.id);
      RuleVerdict(r, counters, ctx, host);
      var below := Scan(rest, counted, ctx, host).evaluation.traces;
      assert forall j :: 0 <= j < |below| ==> below[j].ruleId != r.id;
    } else {
      assert r in rest;
      ScanVerdict(rest, counted, ctx, host, if Applicable(rule, ctx) then i - 1 else i, r);
    }
  }

  /** A rule is reached iff it applies and no matched rule before it ran a terminal action. */
  lemma {:induction false} ScanReaches(rules: seq<Rule>, counters: Counters, ctx: MatchContext, host: Host, k: nat)
    requires DistinctIds(rules) && k < |rules|
    ensures var e := Scan(rules, counters, ctx, host).evaluation;
            Traced(e.traces, rules[k].id) <==>
              && Applicable(rules[k], ctx)
              && forall j :: 0 <= j < k && MatchedIn(e, rules[j].id) ==> FirstTerminal(rules[j].actions).None?
  {
    hide Executed, FirstTerminal, MatchRule, Applicable, Traced, MatchedIn, Before;
    var first, rest := rules[0], rules[1..];
    var (verdict, counted) := MatchRule(first, counters, ctx, host);
    var next := if Applicable(first, ctx) then counted else counters;
    var e, below := Scan(rules, counters, ctx, host).evaluation, Scan(rest, next, ctx, host);
    var missed, hit := RuleTrace(first.id, verdict, []), RuleTrace(first.id, Yes, Executed(first.actions));
    ScanWithout(rest, next, ctx, host, first.id);
    UntracedUnmatched(below.evaluation, first.id);
    OneTrace(hit, first.id);
    BeforeTraces(missed, [], below, first.id);
    BeforeTraces(hit, [first.id], below, first.id);
    if k > 0 {
      ScanReaches(rest, next, ctx, host, k - 1);
      OneTrace(hit, rules[k].id);
      forall j | 0 < j <= k
        ensures rest[j - 1] == rules[j] && rules[j].id != first.id
        ensures Applicable(first, ctx) && verdict.Yes? && FirstTerminal(first.actions).Some? ==>
                  !Traced(e.traces, rules[j].id)
        ensures !(Applicable(first, ctx) && verdict.Yes? && FirstTerminal(first.actions).Some?) ==>
                  && (Traced(e.traces, rules[j].id) <==> Traced(below.evaluation.traces, rules[j].id))
                  && (MatchedIn(e, rules[j].id) <==> MatchedIn(below.evaluation, rules[j].id))
      {
        OneTrace(hit, rules[j].id);
        BeforeTraces(missed, [], below, rules[j].id);
        BeforeTraces(hit, [first.id], below, rules[j].id);
      }
      StepReaches(rules, e, below.evaluation, k, MatchedIn(e, first.id) && FirstTerminal(first.actions).Some?);
    }
  }

  lemma UntracedUnmatched(e: RuleEvaluation, id: RuleId)
    ensures !Traced(e.traces, id) ==> !MatchedIn(e, id)
  {
  }

  /** The condition on the rules before the k-th, one rule further on. */
  lemma StepReaches(rules: seq<Rule>, e: RuleEvaluation, below: RuleEvaluation, k: nat, stopped: bool)
    requires 0 < k < |rules| && (stopped <==> MatchedIn(e, rules[0].id) && FirstTerminal(rules[0].actions).Some?)
    requires !stopped ==> forall j :: 0 < j <= k ==> (MatchedIn(e, rules[j].id) <==> MatchedIn(below, rules[j].id))
    ensures !stopped ==>
              ((forall j :: 0 <= j < k && MatchedIn(e, rules[j].id) ==> FirstTerminal(rules[j].actions).None?) <==>
               (forall j :: 0 <= j < k - 1 && MatchedIn(below, rules[1..][j].id) ==>
                  FirstTerminal(rules[1..][j].actions).None?))
  {
    hide MatchedIn, FirstTerminal;
    var rest := rules[1..];
    assert forall j :: 0 <= j < |rest| ==> rest[j] == rules[j + 1];
    if !stopped {
      if forall j :: 0 <= j < k - 1 && MatchedIn(below, rest[j].id) ==> FirstTerminal(rest[j].actions).None? {
        forall j | 0 <= j < k && MatchedIn(e, rules[j].id)
          ensures FirstTerminal(rules[j].actions).None?
        {
          if j > 0 {
            assert rest[j - 1] == rules[j];
          }
        }
      }
    }
  }

  // ---- one message in any state ----

  /** The rule is switched on and made for the stage and channel of the message. */
  ghost predicate Concerns(r: Rule, ctx: MatchContext) {
    r.enabled && r.stage == ctx.stage && (r.channel == None || r.channel == Some(ctx.channel))
  }

  /** The rules as the evaluation sees them, in order. */
  function Ordered(s: EngineState, epoch: Epoch): seq<Rule> {
    EvaluationOrder(Prepare(s, epoch).rules)
  }

  lemma OrderedPlace(s: EngineState, epoch: Epoch, r: Rule) returns (k: nat)
    requires Sound(s) && r in s.rules
    ensures DistinctIds(Ordered(s, epoch)) && k < |Ordered(s, epoch)| && Ordered(s, epoch)[k] == Seen(s, r, epoch)
  {
    hide UnhitAll, EvaluationOrder;
    PrepareSound(s, epoch);
    OrderedDistinct(Prepare(s, epoch).rules);
    UnhitMembers(s.rules);
    k :| 0 <= k < |Ordered(s, epoch)| && Ordered(s, epoch)[k] == Seen(s, r, epoch);
  }

  /** The evaluation order is the order of priority, age and id, on exactly the rules of the engine. */
  lemma OrderedAhead(s: EngineState, epoch: Epoch, i: nat, j: nat)
    requires Sound(s) && i < |Ordered(s, epoch)| && j < |Ordered(s, epoch)|
    ensures i < j <==> Ahead(Ordered(s, epoch)[i], Ordered(s, epoch)[j])
  {
    hide UnhitAll, EvaluationOrder;
    PrepareSound(s, epoch);
    OrderedDistinct(Prepare(s, epoch).rules);
    var sorted := Ordered(s, epoch);
    if i < j {
      assert RuleLeq(sorted[i], sorted[j]) && sorted[i].id != sorted[j].id;
    } else if j < i {
      assert RuleLeq(sorted[j], sorted[i]) && sorted[i].id != sorted[j].id;
    }
  }

  /**
   * Who is reached: a rule is traced iff it is enabled, made for the stage and channel of the message, and no
   * rule ahead of it that matched runs a terminal action.
   */
  lemma ReachedExactly(s: EngineState, ctx: MatchContext, host: Host, r: Rule)
    requires Sound(s) && r in s.rules
    ensures Traced(Evaluation(s, ctx, host).traces, r.id) <==>
              && Concerns(r, ctx)
              && forall q :: q in s.rules && Ahead(q, r) && MatchedIn(Evaluation(s, ctx, host), q.id) ==>
                   forall action :: action in q.actions ==> !action.Terminal?
  {
    hide Scan, EvaluationOrder, UnhitAll, MatchedIn, Traced, FirstTerminal, Ahead, Applicable, Concerns, Prepare;
    var sorted := Ordered(s, ctx.runtimeEpoch);
    var e := Evaluation(s, ctx, host);
    var k := OrderedPlace(s, ctx.runtimeEpoch, r);
    ScanReaches(sorted, Prepare(s, ctx.runtimeEpoch).counters, ctx, host, k);
    SeenSame(s, r, ctx);
    forall q | q in s.rules
      ensures Ahead(q, r) && MatchedIn(e, q.id) && FirstTerminal(q.actions).Some? ==>
                exists j :: 0 <= j < k && MatchedIn(e, sorted[j].id) && FirstTerminal(sorted[j].actions).Some?
      ensures FirstTerminal(q.actions).None? <==> forall action :: action in q.actions ==> !action.Terminal?
    {
      var j := OrderedPlace(s, ctx.runtimeEpoch, q);
      OrderedAhead(s, ctx.runtimeEpoch, j, k);
      SeenSame(s, q, ctx);
      SeenAhead(s, q, r, ctx.runtimeEpoch);
      ExecutedMeaning(q.actions);
    }
    forall j | 0 <= j < k && MatchedIn(e, sorted[j].id)
      ensures exists q :: q in s.rules && Ahead(q, r) && MatchedIn(e, q.id) && q.actions == sorted[j].actions
    {
      var q := OrderedSource(s, ctx.runtimeEpoch, j);
      OrderedAhead(s, ctx.runtimeEpoch, j, k);
      SeenSame(s, q, ctx);
      SeenAhead(s, q, r, ctx.runtimeEpoch);
    }
  }

  lemma SeenSame(s: EngineState, r: Rule, ctx: MatchContext)
    ensures var seen := Seen(s, r, ctx.runtimeEpoch);
            && seen.id == r.id && seen.actions == r.actions && seen.conditions == r.conditions
            && (Applicable(seen, ctx) <==> Concerns(r, ctx))
  {
  }

  lemma SeenAhead(s: EngineState, q: Rule, r: Rule, epoch: Epoch)
    ensures Ahead(Seen(s, q, epoch), Seen(s, r, epoch)) <==> Ahead(q, r)
  {
  }

  lemma OrderedSource(s: EngineState, epoch: Epoch, j: nat) returns (q: Rule)
    requires Sound(s) && j < |Ordered(s, epoch)|
    ensures q in s.rules && Seen(s, q, epoch) == Ordered(s, epoch)[j]
  {
    hide UnhitAll, EvaluationOrder, Prepare;
    PrepareSound(s, epoch);
    OrderedDistinct(Prepare(s, epoch).rules);
    q := Source(s, epoch, Ordered(s, epoch)[j]);
  }

  /**
   * Who matches: a rule is reported as matched iff it was reached, each of its field conditions holds in the
   * fields of the message, and each of its n is the count its counter has just become.
   */
  lemma MatchedExactly(s: EngineState, ctx: MatchContext, now: int, host: Host, r: Rule)
    requires Sound(s) && r in s.rules
    ensures MatchedIn(Evaluation(s, ctx, host), r.id) <==>
              && Traced(Evaluation(s, ctx, host).traces, r.id)
              && (forall c :: c in r.conditions ==> Holds(c, ctx, host))
              && (forall n :: NthHit(n) in r.conditions ==>
                    n == Count(AfterEvaluate(s, ctx, now, host).counters, CounterKey(r.id, ctx.terminal)))
  {
    hide Evaluation, AfterEvaluate, FieldsVerdict, Holds, Traced, MatchedIn, Count;
    MatchMeaning(s, ctx, now, host, r);
    FieldsMeaning(r.conditions, ctx, host);
  }

  /**
   * What a trace says: matched, undecidable with the fault of the first field condition that does not hold, or
   * not matched.
   */
  lemma VerdictExactly(s: EngineState, ctx: MatchContext, host: Host, r: Rule, i: nat)
    requires Sound(s) && r in s.rules
    requires i < |Evaluation(s, ctx, host).traces| && Evaluation(s, ctx, host).traces[i].ruleId == r.id
    ensures forall fault :: Evaluation(s, ctx, host).traces[i].verdict == Fault(fault) <==>
              FirstBreak(r.conditions, ctx, host, fault)
    ensures Evaluation(s, ctx, host).traces[i].verdict.Yes? ==> forall c :: c in r.conditions ==> Holds(c, ctx, host)
  {
    hide Scan, EvaluationOrder, FieldsVerdict, Holds, FirstBreak, Prepare, Applicable, Concerns;
    var sorted := Ordered(s, ctx.runtimeEpoch);
    var k := OrderedPlace(s, ctx.runtimeEpoch, r);
    SeenSame(s, r, ctx);
    ScanVerdict(sorted, Prepare(s, ctx.runtimeEpoch).counters, ctx, host, i, sorted[k]);
    FieldsMeaning(r.conditions, ctx, host);
  }

  /**
   * What runs: the traces are in the order of priority, age and id; a matched rule runs its actions up to and
   * including the first terminal one, any other rule none; the composed actions are those of the traces in
   * order, and the terminal action is the last of them.
   */
  lemma ActionsExactly(s: EngineState, ctx: MatchContext, host: Host, i: nat) returns (r: Rule)
    requires Sound(s) && i < |Evaluation(s, ctx, host).traces|
    ensures var e := Evaluation(s, ctx, host);
            var trace := e.traces[i];
            && r in s.rules && r.id == trace.ruleId
            && (!trace.Matched() ==> trace.actions == [])
            && (trace.Matched() ==>
                  && trace.actions <= r.actions
                  && (forall j :: 0 <= j < |trace.actions| - 1 ==> !trace.actions[j].Terminal?)
                  && (trace.actions == r.actions
                      || (trace.actions != [] && trace.actions[|trace.actions| - 1].Terminal?)))
            && (forall q, j :: q in s.rules && i < j < |e.traces| && e.traces[j].ruleId == q.id ==> Ahead(r, q))
            && e.composed == AllActions(e.traces)
            && (forall t :: e.terminal == Some(t) <==>
                  e.composed != [] && e.composed[|e.composed| - 1] == Terminal(t))
  {
    hide Scan, EvaluationOrder, Executed, Ahead, Prepare, AllActions, Applicable, Concerns;
    var e, sorted := Evaluation(s, ctx, host), Ordered(s, ctx.runtimeEpoch);
    EvaluationShape(s, ctx, host);
    var at := ApplicablePlaces(sorted, ctx);
    r := OrderedSource(s, ctx.runtimeEpoch, at[i]);
    SeenSame(s, r, ctx);
    ExecutedMeaning(r.actions);
    forall q, j | q in s.rules && i < j < |e.traces| && e.traces[j].ruleId == q.id
      ensures Ahead(r, q)
    {
      var k := OrderedPlace(s, ctx.runtimeEpoch, q);
      SeenSame(s, q, ctx);
      assert TraceFits(e.traces[j], sorted[at[j]]);
      assert sorted[k].id == sorted[at[j]].id;
      OrderedAhead(s, ctx.runtimeEpoch, at[i], at[j]);
      SeenAhead(s, r, q, ctx.runtimeEpoch);
    }
  }

  /** Where the applicable rules stand among all of them. */
  lemma {:induction false} ApplicablePlaces(rules: seq<Rule>, ctx: MatchContext) returns (at: seq<nat>)
    ensures |at| == |Applicables(rules, ctx)|
    ensures forall i :: 0 <= i < |at| ==> at[i] < |rules| && rules[at[i]] == Applicables(rules, ctx)[i]
    ensures forall i, j :: 0 <= i < j < |at| ==> at[i] < at[j]
  {
    hide Applicable;
    if rules == [] {
      at := [];
    } else {
      var rest := ApplicablePlaces(rules[1..], ctx);
      var moved := seq(|rest|, i requires 0 <= i < |rest| => rest[i] + 1);
      at := if Applicable(rules[0], ctx) then [0] + moved else moved;
    }
  }

  /**
   * What a message leaves behind: a matched rule is hit once more, now, and a matched one-shot rule is switched
   * off under its next revision; no other field of any rule changes. A message of another epoch starts the hit
   * data over first.
   */
  lemma HitsExactly(s: EngineState, ctx: MatchContext, now: int, host: Host, k: nat)
    requires Sound(s) && k < |s.rules|
    ensures var after := AfterEvaluate(s, ctx, now, host);
            var r, matched := s.rules[k], MatchedIn(Evaluation(s, ctx, host), s.rules[k].id);
            var restarted := s.epoch != Some(ctx.runtimeEpoch);
            var (hits, last) := if restarted then (0, None) else (r.hitCount, r.lastHitAt);
            && after.epoch == Some(ctx.runtimeEpoch) && |after.rules| == |s.rules|
            && after.rules[k] == r.(hitCount := if matched then hits + 1 else hits,
                                    lastHitAt := if matched then Some(now) else last,
                                    enabled := r.enabled && !(matched && r.oneShot),
                                    revision := if matched && r.oneShot then r.revision + 1 else r.revision)
  {
    hide Scan, EvaluationOrder, MarkHits, MatchedIn, MapRules;
    var p := Prepare(s, ctx.runtimeEpoch);
    var o := OutcomeOf(s, ctx, host);
    UnhitEach(s.rules);
    ScanHits(EvaluationOrder(p.rules), p.counters, ctx, host, s.rules[k].id);
    MarkedEach(p.rules, o.hits, now);
    assert p.rules[k] == Seen(s, s.rules[k], ctx.runtimeEpoch);
    assert AfterEvaluate(s, ctx, now, host).rules[k] ==
             if s.rules[k].id in o.hits then Struck(p.rules[k], now) else p.rules[k];
  }

  // ---- edits ----

  /** An edit that changes the conditions of a rule, or enables it, starts its hits over. */
  ghost predicate StartsOver(r: Rule, conditions: seq<MatchCondition>, enabled: bool) {
    r.conditions != conditions || (!r.enabled && enabled)
  }

  /** Between the two states the counters of `id` are gone if `over`, and no other counter moved. */
  ghost predicate CountersLeft(before: Counters, after: Counters, id: RuleId, over: bool) {
    && (forall key :: key in after <==> key in before && !(over && key.ruleId == id))
    && (forall key :: key in after ==> after[key] == before[key])
  }

  /** The one rule of this id has the fields of the draft under its next revision; nothing else moved. */
  ghost predicate Saved(s: EngineState, next: EngineState, id: RuleId, d: RuleDraft) {
    && next.epoch == s.epoch && |next.rules| == |s.rules|
    && (forall k :: 0 <= k < |s.rules| && s.rules[k].id != id ==> next.rules[k] == s.rules[k])
    && (forall k :: 0 <= k < |s.rules| && s.rules[k].id == id ==>
          var was, over := s.rules[k], StartsOver(s.rules[k], d.conditions, d.enabled);
          && next.rules[k] == Rule(id, was.revision + 1, d.name, d.description, d.enabled, d.priority, d.createdOrder,
                                   d.channel, d.stage, d.conditions, d.actions, d.oneShot,
                                   if over then 0 else was.hitCount, if over then None else was.lastHitAt)
          && CountersLeft(s.counters, next.counters, id, over))
  }

  /** The one rule of this id is switched under its next revision; nothing else moved. */
  ghost predicate Toggled(s: EngineState, next: EngineState, id: RuleId, enabled: bool) {
    && next.epoch == s.epoch && |next.rules| == |s.rules|
    && (forall k :: 0 <= k < |s.rules| && s.rules[k].id != id ==> next.rules[k] == s.rules[k])
    && (forall k :: 0 <= k < |s.rules| && s.rules[k].id == id ==>
          var was, over := s.rules[k], !s.rules[k].enabled && enabled;
          && next.rules[k] == was.(enabled := enabled, revision := was.revision + 1,
                                   hitCount := if over then 0 else was.hitCount,
                                   lastHitAt := if over then None else was.lastHitAt)
          && CountersLeft(s.counters, next.counters, id, over))
  }

  /**
   * The rules are those of the snapshot. A counter stays iff its rule is in both lists, with the same
   * conditions, and was not just enabled.
   */
  ghost predicate Reconciled(s: EngineState, next: EngineState, rules: seq<Rule>) {
    && next.epoch == s.epoch && next.rules == rules
    && (forall key :: key in next.counters <==>
          && key in s.counters
          && exists was, r :: was in s.rules && r in rules && was.id == key.ruleId && r.id == key.ruleId
                              && !StartsOver(was, r.conditions, r.enabled))
    && (forall key :: key in next.counters ==> next.counters[key] == s.counters[key])
  }

  /** With distinct ids the search finds the one rule of the id. */
  lemma OnlyOne(rules: seq<Rule>, id: RuleId)
    requires DistinctIds(rules)
    ensures var i := IndexOf(rules, id);
            && (i == |rules| <==> forall r :: r in rules ==> r.id != id)
            && (i < |rules| ==>
                  && rules[i] in rules && rules[i].id == id && (forall r :: r in rules && r.id == id ==> r == rules[i])
                  && (forall k :: 0 <= k < |rules| && rules[k].id == id ==> k == i))
  {
    var i := IndexOf(rules, id);
    forall r | r in rules && r.id == id
      ensures i < |rules| && r == rules[i]
    {
      var k :| 0 <= k < |rules| && rules[k] == r;
    }
  }

  /** When a save is refused, and what it changes otherwise. */
  lemma SavedExactly(s: EngineState, id: RuleId, d: RuleDraft, draftOk: bool)
    requires Sound(s)
    ensures AfterSave(s, id, d, draftOk).Ok? <==>
              draftOk && exists r :: r in s.rules && r.id == id && d.expectedRevision == Some(r.revision)
    ensures AfterSave(s, id, d, draftOk) == Err(DraftInvalid) <==> !draftOk
    ensures AfterSave(s, id, d, draftOk) == Err(RuleMissing) <==> draftOk && forall r :: r in s.rules ==> r.id != id
    ensures AfterSave(s, id, d, draftOk) == Err(RevisionMissing) <==>
              draftOk && d.expectedRevision == None && exists r :: r in s.rules && r.id == id
    ensures AfterSave(s, id, d, draftOk).Ok? ==> Saved(s, AfterSave(s, id, d, draftOk).value, id, d)
  {
    hide Saved, Edited, Install, DistinctIds;
    OnlyOne(s.rules, id);
    var i := IndexOf(s.rules, id);
    if i < |s.rules| {
      SavedFields(s, i, d);
    }
  }

  lemma SavedFields(s: EngineState, i: nat, d: RuleDraft)
    requires DistinctIds(s.rules) && i < |s.rules|
    ensures var was := s.rules[i];
            Saved(s, Install(s, i, Edited(was, d), was.conditions != d.conditions || (!was.enabled && d.enabled)),
                  was.id, d)
  {
    assert forall k :: 0 <= k < |s.rules| && s.rules[k].id == s.rules[i].id ==> k == i;
  }

  lemma ToggledExactly(s: EngineState, id: RuleId, expected: nat, enabled: bool)
    requires Sound(s)
    ensures AfterToggle(s, id, expected, enabled).Ok? <==>
              exists r :: r in s.rules && r.id == id && r.revision == expected
    ensures AfterToggle(s, id, expected, enabled) == Err(RuleMissing) <==> forall r :: r in s.rules ==> r.id != id
    ensures AfterToggle(s, id, expected, enabled).Ok? ==>
              Toggled(s, AfterToggle(s, id, expected, enabled).value, id, enabled)
  {
    hide DistinctIds, Toggled, Install;
    OnlyOne(s.rules, id);
    var i := IndexOf(s.rules, id);
    if i < |s.rules| {
      ToggledFields(s, i, enabled);
    }
  }

  lemma ToggledFields(s: EngineState, i: nat, enabled: bool)
    requires DistinctIds(s.rules) && i < |s.rules|
    ensures var was := s.rules[i];
            Toggled(s, Install(s, i, was.(enabled := enabled, revision := was.revision + 1), !was.enabled && enabled),
                    was.id, enabled)
  {
    assert forall k :: 0 <= k < |s.rules| && s.rules[k].id == s.rules[i].id ==> k == i;
  }

  lemma KeptExactly(s: EngineState, rules: seq<Rule>, key: CounterKey)
    requires Sound(s) && DistinctIds(rules) && key in s.counters
    ensures key in AfterReconcile(s, rules).counters <==>
              exists was, r :: was in s.rules && r in rules && was.id == key.ruleId && r.id == key.ruleId
                               && !StartsOver(was, r.conditions, r.enabled)
  {
    hide DistinctIds;
    OnlyOne(s.rules, key.ruleId);
    OnlyOne(rules, key.ruleId);
    var i, k := IndexOf(s.rules, key.ruleId), IndexOf(rules, key.ruleId);
    if k < |rules| {
      assert !StartsOver(s.rules[i], rules[k].conditions, rules[k].enabled) <==> KeepsCounters(s.rules, rules[k]);
    }
  }

    lemma ReconciledExactly(s: EngineState, rules: seq<Rule>)
    requires Sound(s) && DistinctIds(rules)
    ensures Reconciled(s, AfterReconcile(s, rules), rules)
  {
    hide KeepsCounters, StartsOver, Sound, DistinctIds, Has;
    forall key | key in s.counters
      ensures key in AfterReconcile(s, rules).counters <==>
                exists was, r :: was in s.rules && r in rules && was.id == key.ruleId && r.id == key.ruleId
                                 && !StartsOver(was, r.conditions, r.enabled)
    {
      KeptExactly(s, rules, key);
    }
  }

  /** A new runtime epoch: all counters are gone, all hit data is zero, and the rules are otherwise as before. */
  lemma RestartedExactly(s: EngineState, epoch: Epoch)
    ensures var next := Restart(s, epoch);
            && next.epoch == Some(epoch) && next.counters == map[] && |next.rules| == |s.rules|
            && forall k :: 0 <= k < |s.rules| ==> next.rules[k] == s.rules[k].(hitCount := 0, lastHitAt := None)
  {
    UnhitEach(s.rules);
  }
}
