/** Rules, conditions and actions, and the meaning of one evaluation as a function of the engine state. */
module RuleModel {
  import opened Wrappers
  import opened Ordering
  import opened Strings
  import opened JsonPaths
  import opened JsonPathText

  type Epoch = nat
  type RuleId = nat

  datatype Stage = TlsHandshake | Request | Response

  datatype Traffic = Upstream | Downstream

  datatype MatchField = TerminalIp | CertificateFingerprint | PathOrRequestType | JsonField(path: string)

  datatype MatchOperator = Equals(value: string) | Contains(fragment: string) | Regex(pattern: string)

  datatype MatchCondition = FieldIs(field: MatchField, operator: MatchOperator) | NthHit(n: nat)

  datatype TerminalAction =
    | RejectTlsHandshake
    | DisconnectBeforeUpstream
    | UpstreamConnectTimeout(milliseconds: nat)
    | UpstreamWriteTimeout(milliseconds: nat)
    | UpstreamReadTimeout(milliseconds: nat)
    | DropUpstreamResponse(readComplete: bool)
    | MockResponse(status: nat, headers: seq<(string, string)>, body: seq<nat>)
    | InvalidJson(body: seq<nat>)
    | IncorrectContentLength(delta: int)
    | TruncateResponse(bytes: nat)
    | DisconnectDuringUpstreamWrite(afterBytes: nat)
    | DisconnectDuringDownstreamWrite(afterBytes: nat)

  datatype RuleAction =
    | SetJsonField(path: string, json: Json)
    | ReplaceBodyText(text: string)
    | SetHeader(name: string, value: string)
    | Delay(milliseconds: nat)
    | Jitter(minimum: nat, maximum: nat, perChunk: bool)
    | Throttle(bytesPerSecond: nat, chunkBytes: nat, direction: Traffic)
    | Intermittent(available: nat, blocked: nat, direction: Traffic)
    | Pause
    | CustomHttpStatus(status: nat)
    | Terminal(action: TerminalAction)

  datatype Rule = Rule(id: RuleId, revision: nat, name: string, description: string, enabled: bool, priority: nat,
                       createdOrder: nat, channel: Option<string>, stage: Stage, conditions: seq<MatchCondition>,
                       actions: seq<RuleAction>, oneShot: bool, hitCount: nat, lastHitAt: Option<int>)

  datatype TerminalIdentity = TerminalIdentity(sourceIp: string, certificate: string)

  datatype MatchContext = MatchContext(runtimeEpoch: Epoch, channel: string, stage: Stage, terminal: TerminalIdentity,
                                       target: Option<string>, json: Option<Json>)

  /** Operations of the host libraries: character classes, regular expressions, JSON text, trimming. */
  datatype Host = Host(alnum: CharClass, compiles: string -> bool, isMatch: (string, string) -> bool,
                       show: Json -> string, trim: string -> string)

  datatype MatchFault = BodyNotJson | InvalidPath | PathMissing(path: string) | InvalidRegex

  datatype Verdict = Yes | No | Fault(fault: MatchFault)

  datatype RuleTrace = RuleTrace(ruleId: RuleId, verdict: Verdict, actions: seq<RuleAction>) {
    predicate Matched() { verdict.Yes? }
  }

  datatype RuleEvaluation = RuleEvaluation(traces: seq<RuleTrace>, composed: seq<RuleAction>,
                                           terminal: Option<TerminalAction>)

  datatype CounterKey = CounterKey(ruleId: RuleId, terminal: TerminalIdentity)

  type Counters = map<CounterKey, nat>

  datatype EngineState = EngineState(epoch: Option<Epoch>, rules: seq<Rule>, counters: Counters)

  ghost predicate DistinctIds(rules: seq<Rule>) {
    forall i, j :: 0 <= i < j < |rules| ==> rules[i].id != rules[j].id
  }

  // ---- conditions ----

  /** The text a condition looks at. */
  function FieldValue(field: MatchField, ctx: MatchContext, host: Host): Result<string, MatchFault> {
    match field
    case TerminalIp => Ok(ctx.terminal.sourceIp)
    case CertificateFingerprint => Ok(ctx.terminal.certificate)
    case PathOrRequestType => Ok(if ctx.target.Some? then ctx.target.value else "")
    case JsonField(path) =>
      if ctx.json.None? then Err(BodyNotJson)
      else
        match Parse(path, host.alnum)
        case Err(_) => Err(InvalidPath)
        case Ok(parsed) =>
          match Lookup(ctx.json.value, Steps(parsed.segments))
          case None => Err(PathMissing(path))
          case Some(value) => Ok(if value.Text? then value.text else host.show(value))
  }

  function ConditionVerdict(c: MatchCondition, ctx: MatchContext, host: Host): Verdict {
    match c
    case NthHit(_) => Yes
    case FieldIs(field, operator) =>
      match FieldValue(field, ctx, host)
      case Err(fault) => Fault(fault)
      case Ok(value) =>
        match operator
        case Equals(expected) => if value == expected then Yes else No
        case Contains(fragment) => if Substring(fragment, value) then Yes else No
        case Regex(pattern) =>
          if !host.compiles(pattern) then Fault(InvalidRegex)
          else if host.isMatch(pattern, value) then Yes else No
  }

  /** The first field condition that does not hold decides; counting conditions are skipped. */
  function FieldsVerdict(conditions: seq<MatchCondition>, ctx: MatchContext, host: Host): Verdict {
    if conditions == [] then Yes
    else
      var first := ConditionVerdict(conditions[0], ctx, host);
      if first.Yes? then FieldsVerdict(conditions[1..], ctx, host) else first
  }

  lemma {:induction false} FieldsVerdictYes(conditions: seq<MatchCondition>, ctx: MatchContext, host: Host)
    ensures FieldsVerdict(conditions, ctx, host).Yes? <==>
              forall c :: c in conditions ==> ConditionVerdict(c, ctx, host).Yes?
  {
    if conditions != [] {
      assert conditions == [conditions[0]] + conditions[1..];
      FieldsVerdictYes(conditions[1..], ctx, host);
    }
  }

  function NthValues(conditions: seq<MatchCondition>): seq<nat> {
    if conditions == [] then []
    else (if conditions[0].NthHit? then [conditions[0].n] else []) + NthValues(conditions[1..])
  }

  lemma {:induction false} NthValuesMembers(conditions: seq<MatchCondition>, n: nat)
    ensures n in NthValues(conditions) <==> NthHit(n) in conditions
  {
    if conditions != [] {
      assert conditions == [conditions[0]] + conditions[1..];
      NthValuesMembers(conditions[1..], n);
    }
  }

  // ---- one rule ----

  predicate Counted(rule: Rule) {
    NthValues(rule.conditions) != []
  }

  function Count(counters: Counters, key: CounterKey): nat {
    if key in counters then counters[key] else 0
  }

  predicate AllEqual(values: seq<nat>, n: nat) {
    forall i :: 0 <= i < |values| ==> values[i] == n
  }

  /** Field conditions first; only a request that passes them all advances the counter. */
  function MatchRule(rule: Rule, counters: Counters, ctx: MatchContext, host: Host): (Verdict, Counters) {
    var fields := FieldsVerdict(rule.conditions, ctx, host);
    if !fields.Yes? then (fields, counters)
    else if !Counted(rule) then (Yes, counters)
    else
      var key := CounterKey(rule.id, ctx.terminal);
      var count := Count(counters, key) + 1;
      (if AllEqual(NthValues(rule.conditions), count) then Yes else No, counters[key := count])
  }

  predicate Applicable(rule: Rule, ctx: MatchContext) {
    rule.enabled && (rule.channel.Some? ==> rule.channel.value == ctx.channel) && rule.stage == ctx.stage
  }

  /** The actions up to and including the first terminal one. */
  function Executed(actions: seq<RuleAction>): seq<RuleAction> {
    if actions == [] then []
    else if actions[0].Terminal? then [actions[0]]
    else [actions[0]] + Executed(actions[1..])
  }

  function FirstTerminal(actions: seq<RuleAction>): Option<TerminalAction> {
    if actions == [] then None
    else if actions[0].Terminal? then Some(actions[0].action)
    else FirstTerminal(actions[1..])
  }

  // ---- one message ----

  /** What a scan of the rules in evaluation order produces. */
  datatype Outcome = Outcome(evaluation: RuleEvaluation, hits: seq<RuleId>, counters: Counters)

  function Before(trace: RuleTrace, hits: seq<RuleId>, rest: Outcome): Outcome {
    var e := rest.evaluation;
    Outcome(RuleEvaluation([trace] + e.traces, trace.actions + e.composed, e.terminal), hits + rest.hits, rest.counters)
  }

  function Scan(rules: seq<Rule>, counters: Counters, ctx: MatchContext, host: Host): Outcome {
    if rules == [] then Outcome(RuleEvaluation([], [], None), [], counters)
    else if !Applicable(rules[0], ctx) then Scan(rules[1..], counters, ctx, host)
    else
      var rule := rules[0];
      var (verdict, counted) := MatchRule(rule, counters, ctx, host);
      if !verdict.Yes? then Before(RuleTrace(rule.id, verdict, []), [], Scan(rules[1..], counted, ctx, host))
      else
        var executed := Executed(rule.actions);
        var trace := RuleTrace(rule.id, Yes, executed);
        var terminal := FirstTerminal(rule.actions);
        if terminal.Some? then Outcome(RuleEvaluation([trace], executed, terminal), [rule.id], counted)
        else Before(trace, [rule.id], Scan(rules[1..], counted, ctx, host))
  }

  /** Priority first, then age, then id. */
  predicate RuleLeq(a: Rule, b: Rule) {
    a.priority < b.priority
    || (a.priority == b.priority
        && (a.createdOrder < b.createdOrder || (a.createdOrder == b.createdOrder && a.id <= b.id)))
  }

  function EvaluationOrder(rules: seq<Rule>): seq<Rule> {
    Sort(rules, RuleLeq)
  }

  function Struck(rule: Rule, now: int): Rule {
    var hit := rule.(hitCount := rule.hitCount + 1, lastHitAt := Some(now));
    if rule.oneShot then hit.(enabled := false, revision := rule.revision + 1) else hit
  }

  function MapRules(rules: seq<Rule>, f: Rule -> Rule): (r: seq<Rule>)
    ensures |r| == |rules|
  {
    seq(|rules|, i requires 0 <= i < |rules| => f(rules[i]))
  }

  function Marker(hits: seq<RuleId>, now: int): Rule -> Rule {
    (rule: Rule) => if rule.id in hits then Struck(rule, now) else rule
  }

  /** Counts the hits of one evaluation and switches one-shot rules off. */
  function MarkHits(rules: seq<Rule>, hits: seq<RuleId>, now: int): seq<Rule> {
    MapRules(rules, Marker(hits, now))
  }

  function Unhit(rule: Rule): Rule {
    rule.(hitCount := 0, lastHitAt := None)
  }

  function UnhitAll(rules: seq<Rule>): seq<Rule> {
    MapRules(rules, Unhit)
  }

  function Restart(s: EngineState, epoch: Epoch): EngineState {
    EngineState(Some(epoch), UnhitAll(s.rules), map[])
  }

  /** A message of another epoch restarts the engine first. */
  function Prepare(s: EngineState, epoch: Epoch): EngineState {
    if s.epoch != Some(epoch) then Restart(s, epoch) else s
  }

  function OutcomeOf(s: EngineState, ctx: MatchContext, host: Host): Outcome {
    var p := Prepare(s, ctx.runtimeEpoch);
    Scan(EvaluationOrder(p.rules), p.counters, ctx, host)
  }

  function Evaluation(s: EngineState, ctx: MatchContext, host: Host): RuleEvaluation {
    OutcomeOf(s, ctx, host).evaluation
  }

  function AfterEvaluate(s: EngineState, ctx: MatchContext, now: int, host: Host): EngineState {
    var p := Prepare(s, ctx.runtimeEpoch);
    var o := OutcomeOf(s, ctx, host);
    EngineState(p.epoch, MarkHits(p.rules, o.hits, now), o.counters)
  }

  // ---- edits ----

  datatype RuleDraft = RuleDraft(expectedRevision: Option<nat>, name: string, description: string, enabled: bool,
                                 priority: nat, createdOrder: nat, channel: Option<string>, stage: Stage,
                                 conditions: seq<MatchCondition>, actions: seq<RuleAction>, oneShot: bool)

  datatype EditError = DraftInvalid | RuleMissing | RevisionMissing | RevisionConflict

  function Edited(rule: Rule, d: RuleDraft): Rule {
    rule.(name := d.name, description := d.description, enabled := d.enabled, priority := d.priority,
          createdOrder := d.createdOrder, channel := d.channel, stage := d.stage, conditions := d.conditions,
          actions := d.actions, oneShot := d.oneShot, revision := rule.revision + 1)
  }

  function IndexOf(rules: seq<Rule>, id: RuleId): (i: nat)
    ensures i <= |rules| && (i < |rules| ==> rules[i].id == id)
    ensures forall j :: 0 <= j < i ==> rules[j].id != id
  {
    if rules == [] || rules[0].id == id then 0 else IndexOf(rules[1..], id) + 1
  }

  predicate Has(rules: seq<Rule>, id: RuleId) {
    IndexOf(rules, id) < |rules|
  }

  function WithoutRule(counters: Counters, id: RuleId): Counters {
    map key | key in counters && key.ruleId != id :: counters[key]
  }

  /** Replaces the rule at `i`; its hits start over if `reset`. */
  function Install(s: EngineState, i: nat, rule: Rule, reset: bool): EngineState
    requires i < |s.rules|
  {
    if reset then s.(rules := s.rules[i := Unhit(rule)], counters := WithoutRule(s.counters, s.rules[i].id))
    else s.(rules := s.rules[i := rule])
  }

  function AfterSave(s: EngineState, id: RuleId, d: RuleDraft, draftOk: bool): Result<EngineState, EditError> {
    if !draftOk then Err(DraftInvalid)
    else
      var i := IndexOf(s.rules, id);
      if i == |s.rules| then Err(RuleMissing)
      else if d.expectedRevision.None? then Err(RevisionMissing)
      else if s.rules[i].revision != d.expectedRevision.value then Err(RevisionConflict)
      else
        var rule := s.rules[i];
        Ok(Install(s, i, Edited(rule, d), rule.conditions != d.conditions || (!rule.enabled && d.enabled)))
  }

  function AfterToggle(s: EngineState, id: RuleId, expected: nat, enabled: bool): Result<EngineState, EditError> {
    var i := IndexOf(s.rules, id);
    if i == |s.rules| then Err(RuleMissing)
    else if s.rules[i].revision != expected then Err(RevisionConflict)
    else
      var rule := s.rules[i];
      Ok(Install(s, i, rule.(enabled := enabled, revision := rule.revision + 1), !rule.enabled && enabled))
  }

  /**
   * A rule of the next snapshot keeps its counters if it was there with the same conditions and was not just
   * enabled.
   */
  predicate KeepsCounters(rules: seq<Rule>, next: Rule) {
    var i := IndexOf(rules, next.id);
    i < |rules| && rules[i].conditions == next.conditions && (rules[i].enabled || !next.enabled)
  }

  function AfterReconcile(s: EngineState, rules: seq<Rule>): EngineState {
    s.(rules := rules,
       counters := map key | key in s.counters && Has(rules, key.ruleId)
                             && (forall i :: 0 <= i < |rules| && rules[i].id == key.ruleId ==>
                                 KeepsCounters(s.rules, rules[i]))
                   :: s.counters[key])
  }
}
