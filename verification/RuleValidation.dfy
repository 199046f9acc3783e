/** Validation of rule drafts: the error-collecting check against what it accepts. */
module RuleValidation {
  import opened Wrappers
  import opened JsonPathText
  import opened RuleModel

  const MAX_TOTAL_DELAY_MS: nat := 600_000
  const MAX_THROTTLE_BYTES_PER_SECOND: nat := 104_857_600
  const MAX_TRAFFIC_CHUNK_BYTES: nat := 1_048_576

  datatype Problem =
    | NameEmpty | NoActions | TotalDelay | TerminalPlacement | TlsConditions
    | ConditionPath(i: nat) | ConditionRegex(i: nat) | ConditionNth(i: nat)
    | StageMismatch(i: nat) | StatusRange(i: nat) | JitterOrder(i: nat) | JitterRange(i: nat)
    | RateRange(i: nat) | ChunkRange(i: nat) | AvailableRange(i: nat) | BlockedRange(i: nat)
    | ZeroDelta(i: nat) | ZeroTimeout(i: nat) | ActionPath(i: nat)
    | HeaderName(i: nat) | HeaderValue(i: nat) | ManagedHeader(i: nat)

  // ---- what is accepted ----

  predicate ActionCompatible(stage: Stage, action: RuleAction) {
    match action
    case SetJsonField(_, _) => !stage.TlsHandshake?
    case ReplaceBodyText(_) => !stage.TlsHandshake?
    case SetHeader(_, _) => !stage.TlsHandshake?
    case Delay(_) => !stage.TlsHandshake?
    case Jitter(_, _, _) => !stage.TlsHandshake?
    case Pause => !stage.TlsHandshake?
    case Throttle(_, _, direction) => FlowsWith(stage, direction)
    case Intermittent(_, _, direction) => FlowsWith(stage, direction)
    case CustomHttpStatus(_) => stage.Response?
    case Terminal(terminal) =>
      match terminal
      case RejectTlsHandshake => stage.TlsHandshake?
      case InvalidJson(_) => stage.Response?
      case IncorrectContentLength(_) => stage.Response?
      case TruncateResponse(_) => stage.Response?
      case DisconnectDuringDownstreamWrite(_) => stage.Response?
      case _ => stage.Request?
  }

  predicate FlowsWith(stage: Stage, direction: Traffic) {
    (stage.Request? && direction.Upstream?) || (stage.Response? && direction.Downstream?)
  }

  predicate TokenChar(c: char) {
    ('0' <= c <= '9') || ('a' <= c <= 'z') || ('A' <= c <= 'Z') || c in "!#$%&'*+-.^_`|~"
  }

  predicate HeaderNameOk(name: string) {
    name != [] && forall i :: 0 <= i < |name| ==> TokenChar(name[i])
  }

  predicate HeaderValueOk(value: string) {
    forall i :: 0 <= i < |value| ==> value[i] == '\t' || (' ' <= value[i] && value[i] as int != 0x7f)
  }

  function AsciiLower(s: string): string {
    seq(|s|, i requires 0 <= i < |s| => if 'A' <= s[i] <= 'Z' then (s[i] as int + 32) as char else s[i])
  }

  predicate Managed(name: string, host: Host) {
    AsciiLower(host.trim(name)) in ["content-length", "transfer-encoding", "connection", "proxy-connection",
                                    "keep-alive", "upgrade", "te", "trailer"]
  }

  predicate HeaderOk(name: string, value: string, host: Host) {
    HeaderNameOk(name) && HeaderValueOk(value) && !Managed(name, host)
  }

  predicate StatusOk(status: nat) { 100 <= status <= 599 }

  predicate ParametersOk(action: RuleAction) {
    match action
    case CustomHttpStatus(status) => StatusOk(status)
    case Jitter(minimum, maximum, _) => minimum <= maximum <= MAX_TOTAL_DELAY_MS
    case Throttle(rate, chunk, _) => 1 <= rate <= MAX_THROTTLE_BYTES_PER_SECOND && 1 <= chunk <= MAX_TRAFFIC_CHUNK_BYTES
    case Intermittent(available, blocked, _) =>
      1 <= available <= MAX_TOTAL_DELAY_MS && 1 <= blocked <= MAX_TOTAL_DELAY_MS
    case Terminal(IncorrectContentLength(delta)) => delta != 0
    case Terminal(UpstreamConnectTimeout(ms)) => ms != 0
    case Terminal(UpstreamWriteTimeout(ms)) => ms != 0
    case Terminal(UpstreamReadTimeout(ms)) => ms != 0
    case Terminal(MockResponse(status, _, _)) => StatusOk(status)
    case _ => true
  }

  function HeadersOf(action: RuleAction): seq<(string, string)> {
    match action
    case SetHeader(name, value) => [(name, value)]
    case Terminal(MockResponse(_, headers, _)) => headers
    case _ => []
  }

  predicate ContentOk(action: RuleAction, host: Host) {
    && (action.SetJsonField? ==> Parse(action.path, host.alnum).Ok?)
    && forall h :: 0 <= h < |HeadersOf(action)| ==> HeaderOk(HeadersOf(action)[h].0, HeadersOf(action)[h].1, host)
  }

  predicate ActionOk(stage: Stage, action: RuleAction, host: Host) {
    ActionCompatible(stage, action) && ParametersOk(action) && ContentOk(action, host)
  }

  predicate ConditionOk(c: MatchCondition, host: Host) {
    match c
    case NthHit(n) => n != 0
    case FieldIs(field, operator) =>
      (field.JsonField? ==> Parse(field.path, host.alnum).Ok?) && (operator.Regex? ==> host.compiles(operator.pattern))
  }

  /** A handshake has no message yet: only the certificate and the counter can be asked for. */
  predicate TlsConditionOk(c: MatchCondition) {
    c.NthHit? || c.field.CertificateFingerprint?
  }

  function DelayOf(action: RuleAction): nat {
    match action
    case Delay(ms) => ms
    case Jitter(_, maximum, _) => maximum
    case _ => 0
  }

  function DelayTotal(actions: seq<RuleAction>): nat {
    if actions == [] then 0 else DelayTotal(actions[..|actions| - 1]) + DelayOf(actions[|actions| - 1])
  }

  /** At most one terminal action, and only at the end. */
  predicate TerminalLast(actions: seq<RuleAction>) {
    forall i :: 0 <= i < |actions| - 1 ==> !actions[i].Terminal?
  }

  predicate DraftOk(d: RuleDraft, host: Host) {
    && host.trim(d.name) != [] && d.actions != []
    && (forall i :: 0 <= i < |d.conditions| ==> ConditionOk(d.conditions[i], host))
    && DelayTotal(d.actions) <= MAX_TOTAL_DELAY_MS
    && TerminalLast(d.actions)
    && (forall i :: 0 <= i < |d.actions| ==> ActionOk(d.stage, d.actions[i], host))
    && (d.stage.TlsHandshake? ==> forall i :: 0 <= i < |d.conditions| ==> TlsConditionOk(d.conditions[i]))
  }

  // ---- what is accepted, in the fields of the draft ----

  /** The actions each stage takes. */
  ghost predicate Runs(stage: Stage, action: RuleAction) {
    match stage
    case TlsHandshake => action == Terminal(RejectTlsHandshake)
    case Request =>
      || action.SetJsonField? || action.ReplaceBodyText? || action.SetHeader? || action.Delay? || action.Jitter?
      || action.Pause?
      || (action.Throttle? && action.direction == Upstream) || (action.Intermittent? && action.direction == Upstream)
      || (action.Terminal?
          && (action.action.DisconnectBeforeUpstream? || action.action.UpstreamConnectTimeout?
              || action.action.UpstreamWriteTimeout? || action.action.UpstreamReadTimeout?
              || action.action.DropUpstreamResponse? || action.action.MockResponse?
              || action.action.DisconnectDuringUpstreamWrite?))
    case Response =>
      || action.SetJsonField? || action.ReplaceBodyText? || action.SetHeader? || action.Delay? || action.Jitter?
      || action.Pause? || action.CustomHttpStatus?
      || (action.Throttle? && action.direction == Downstream)
      || (action.Intermittent? && action.direction == Downstream)
      || (action.Terminal?
          && (action.action.InvalidJson? || action.action.IncorrectContentLength? || action.action.TruncateResponse?
              || action.action.DisconnectDuringDownstreamWrite?))
  }

  /** The parameters of the action are in range. */
  ghost predicate InRange(action: RuleAction) {
    && (action.CustomHttpStatus? ==> 100 <= action.status <= 599)
    && (action.Jitter? ==> action.minimum <= action.maximum <= 600_000)
    && (action.Throttle? ==> 1 <= action.bytesPerSecond <= 104_857_600 && 1 <= action.chunkBytes <= 1_048_576)
    && (action.Intermittent? ==> 1 <= action.available <= 600_000 && 1 <= action.blocked <= 600_000)
    && (action.Terminal? && action.action.MockResponse? ==> 100 <= action.action.status <= 599)
    && (action.Terminal? && action.action.IncorrectContentLength? ==> action.action.delta != 0)
    && (action.Terminal? && action.action.UpstreamConnectTimeout? ==> action.action.milliseconds > 0)
    && (action.Terminal? && action.action.UpstreamWriteTimeout? ==> action.action.milliseconds > 0)
    && (action.Terminal? && action.action.UpstreamReadTimeout? ==> action.action.milliseconds > 0)
  }

  /** The texts are equal but for the case of ASCII letters. */
  ghost predicate SameButCase(a: string, lower: string) {
    && |a| == |lower|
    && forall i :: 0 <= i < |a| ==>
         a[i] == lower[i] || ('A' <= a[i] <= 'Z' && a[i] as int + ('a' as int - 'A' as int) == lower[i] as int)
  }

  /**
   * A rule may set this header: the name is a token, the value has no control characters, the proxy does not
   * own it.
   */
  ghost predicate Settable(name: string, value: string, host: Host) {
    && name != ""
    && (forall c :: c in name ==>
          48 <= c as int <= 57 || 65 <= c as int <= 90 || 97 <= c as int <= 122 || c in "!#$%&'*+-.^_`|~")
    && (forall c :: c in value ==> c == '\t' || (c as int >= 0x20 && c as int != 0x7f))
    && !SameButCase(host.trim(name), "content-length") && !SameButCase(host.trim(name), "transfer-encoding")
    && !SameButCase(host.trim(name), "connection") && !SameButCase(host.trim(name), "proxy-connection")
    && !SameButCase(host.trim(name), "keep-alive") && !SameButCase(host.trim(name), "upgrade")
    && !SameButCase(host.trim(name), "te") && !SameButCase(host.trim(name), "trailer")
  }

  ghost predicate ContentGood(action: RuleAction, host: Host) {
    && (action.SetJsonField? ==> Parse(action.path, host.alnum).Ok?)
    && (action.SetHeader? ==> Settable(action.name, action.value, host))
    && (action.Terminal? && action.action.MockResponse? ==>
          forall header :: header in action.action.headers ==> Settable(header.0, header.1, host))
  }

  /** The condition can be asked at this stage, of every message. */
  ghost predicate Askable(c: MatchCondition, stage: Stage, host: Host) {
    && (c.NthHit? ==> c.n > 0)
    && (c.FieldIs? && stage == TlsHandshake ==> c.field == CertificateFingerprint)
    && (c.FieldIs? && c.field.JsonField? ==> Parse(c.field.path, host.alnum).Ok?)
    && (c.FieldIs? && c.operator.Regex? ==> host.compiles(c.operator.pattern))
  }

  /** All delays of the actions, jitter at its largest. */
  ghost function Delays(actions: seq<RuleAction>): nat {
    if actions == [] then 0
    else
      (if actions[0].Delay? then actions[0].milliseconds else if actions[0].Jitter? then actions[0].maximum else 0)
      + Delays(actions[1..])
  }

  /** What a rule must be to be saved, in the fields of its draft. */
  ghost predicate Acceptable(d: RuleDraft, host: Host) {
    && host.trim(d.name) != "" && d.actions != [] && Delays(d.actions) <= 600_000
    && (forall c :: c in d.conditions ==> Askable(c, d.stage, host))
    && (forall action :: action in d.actions ==>
          Runs(d.stage, action) && InRange(action) && ContentGood(action, host))
    && (forall i :: 0 <= i < |d.actions| && d.actions[i].Terminal? ==> i + 1 == |d.actions|)
  }

  lemma CompatibleExactly(stage: Stage, action: RuleAction)
    ensures ActionCompatible(stage, action) <==> Runs(stage, action)
  {
  }

  lemma ParametersExactly(action: RuleAction)
    ensures ParametersOk(action) <==> InRange(action)
  {
  }

  lemma LowerExactly(a: string, lower: string)
    requires forall i :: 0 <= i < |lower| ==> !('A' <= lower[i] <= 'Z')
    ensures AsciiLower(a) == lower <==> SameButCase(a, lower)
  {
    if SameButCase(a, lower) {
      assert forall i :: 0 <= i < |a| ==> AsciiLower(a)[i] == lower[i];
    }
  }

  lemma ManagedExactly(name: string, host: Host)
    ensures var text := host.trim(name);
            Managed(name, host) <==>
              || SameButCase(text, "content-length") || SameButCase(text, "transfer-encoding")
              || SameButCase(text, "connection") || SameButCase(text, "proxy-connection")
              || SameButCase(text, "keep-alive") || SameButCase(text, "upgrade") || SameButCase(text, "te")
              || SameButCase(text, "trailer")
  {
    hide AsciiLower, SameButCase;
    var text := host.trim(name);
    LowerExactly(text, "content-length");
    LowerExactly(text, "transfer-encoding");
    LowerExactly(text, "connection");
    LowerExactly(text, "proxy-connection");
    LowerExactly(text, "keep-alive");
    LowerExactly(text, "upgrade");
    LowerExactly(text, "te");
    LowerExactly(text, "trailer");
  }

  lemma HeaderExactly(name: string, value: string, host: Host)
    ensures HeaderOk(name, value, host) <==> Settable(name, value, host)
  {
    hide Managed, SameButCase;
    ManagedExactly(name, host);
    assert forall i :: 0 <= i < |name| ==> name[i] in name;
    assert forall i :: 0 <= i < |value| ==> value[i] in value;
  }

  lemma ContentExactly(action: RuleAction, host: Host)
    ensures ContentOk(action, host) <==> ContentGood(action, host)
  {
    hide HeaderOk, Settable, Parse;
    var headers := HeadersOf(action);
    forall h | 0 <= h < |headers|
      ensures headers[h] in headers
      ensures HeaderOk(headers[h].0, headers[h].1, host) <==> Settable(headers[h].0, headers[h].1, host)
    {
      HeaderExactly(headers[h].0, headers[h].1, host);
    }
    if action.SetHeader? {
      assert headers[0] == (action.name, action.value);
    }
  }

  lemma {:induction false} DelaysPush(actions: seq<RuleAction>, last: RuleAction)
    ensures Delays(actions + [last]) == Delays(actions) + DelayOf(last)
  {
    if actions == [] {
      assert [last][1..] == [];
    } else {
      assert (actions + [last])[1..] == actions[1..] + [last];
      DelaysPush(actions[1..], last);
    }
  }

  lemma {:induction false} DelaysExactly(actions: seq<RuleAction>)
    ensures DelayTotal(actions) == Delays(actions)
  {
    if actions != [] {
      var front := actions[..|actions| - 1];
      DelaysExactly(front);
      DelaysPush(front, actions[|actions| - 1]);
      assert actions == front + [actions[|actions| - 1]];
    }
  }

  lemma ConditionExactly(c: MatchCondition, stage: Stage, host: Host)
    ensures Askable(c, stage, host) <==> ConditionOk(c, host) && (stage.TlsHandshake? ==> TlsConditionOk(c))
  {
    hide Parse;
  }

  /** The drafts without a problem are exactly these. */
  lemma AcceptedExactly(d: RuleDraft, host: Host)
    ensures DraftOk(d, host) <==> Acceptable(d, host)
  {
    hide ConditionOk, TlsConditionOk, Askable, ActionCompatible, ParametersOk, ContentOk, Runs, InRange, ContentGood,
         DelayTotal, Delays;
    DelaysExactly(d.actions);
    forall i | 0 <= i < |d.conditions|
      ensures d.conditions[i] in d.conditions
      ensures Askable(d.conditions[i], d.stage, host) <==>
              ConditionOk(d.conditions[i], host) && (d.stage.TlsHandshake? ==> TlsConditionOk(d.conditions[i]))
    {
      ConditionExactly(d.conditions[i], d.stage, host);
    }
    forall i | 0 <= i < |d.actions|
      ensures d.actions[i] in d.actions
      ensures ActionOk(d.stage, d.actions[i], host) <==>
              Runs(d.stage, d.actions[i]) && InRange(d.actions[i]) && ContentGood(d.actions[i], host)
    {
      CompatibleExactly(d.stage, d.actions[i]);
      ParametersExactly(d.actions[i]);
      ContentExactly(d.actions[i], host);
    }
  }
  // ---- which problem is reported where ----

  predicate ConditionProblem(p: Problem, i: nat, c: MatchCondition, host: Host) {
    var badPath := c.FieldIs? && c.field.JsonField? && Parse(c.field.path, host.alnum).Err?;
    match p
    case ConditionPath(k) => k == i && badPath
    case ConditionRegex(k) => k == i && !badPath && c.FieldIs? && c.operator.Regex?
      && !host.compiles(c.operator.pattern)
    case ConditionNth(k) => k == i && c == NthHit(0)
    case _ => false
  }

  function StatusOf(action: RuleAction): Option<nat> {
    match action
    case CustomHttpStatus(status) => Some(status)
    case Terminal(MockResponse(status, _, _)) => Some(status)
    case _ => None
  }

  predicate ZeroTimeoutOf(action: RuleAction) {
    action == Terminal(UpstreamConnectTimeout(0)) || action == Terminal(UpstreamWriteTimeout(0))
    || action == Terminal(UpstreamReadTimeout(0))
  }

  predicate ParameterProblem(p: Problem, i: nat, action: RuleAction) {
    match p
    case StatusRange(k) => k == i && StatusOf(action).Some? && !StatusOk(StatusOf(action).value)
    case JitterOrder(k) => k == i && action.Jitter? && action.minimum > action.maximum
    case JitterRange(k) => k == i && action.Jitter? && action.maximum > MAX_TOTAL_DELAY_MS
    case RateRange(k) => k == i && action.Throttle? && !(1 <= action.bytesPerSecond <= MAX_THROTTLE_BYTES_PER_SECOND)
    case ChunkRange(k) => k == i && action.Throttle? && !(1 <= action.chunkBytes <= MAX_TRAFFIC_CHUNK_BYTES)
    case AvailableRange(k) => k == i && action.Intermittent? && !(1 <= action.available <= MAX_TOTAL_DELAY_MS)
    case BlockedRange(k) => k == i && action.Intermittent? && !(1 <= action.blocked <= MAX_TOTAL_DELAY_MS)
    case ZeroDelta(k) => k == i && action == Terminal(IncorrectContentLength(0))
    case ZeroTimeout(k) => k == i && ZeroTimeoutOf(action)
    case _ => false
  }

  predicate HeaderProblem(p: Problem, i: nat, header: (string, string), host: Host) {
    match p
    case HeaderName(k) => k == i && !HeaderNameOk(header.0)
    case HeaderValue(k) => k == i && !HeaderValueOk(header.1)
    case ManagedHeader(k) => k == i && Managed(header.0, host)
    case _ => false
  }

  predicate ContentProblem(p: Problem, i: nat, action: RuleAction, host: Host) {
    (p == ActionPath(i) && action.SetJsonField? && Parse(action.path, host.alnum).Err?)
    || exists h :: 0 <= h < |HeadersOf(action)| && HeaderProblem(p, i, HeadersOf(action)[h], host)
  }

  predicate ActionProblem(p: Problem, i: nat, stage: Stage, action: RuleAction, host: Host) {
    (p == StageMismatch(i) && !ActionCompatible(stage, action))
    || ParameterProblem(p, i, action) || ContentProblem(p, i, action, host)
  }

  /** Everything that can be wrong with a draft, with its place. */
  predicate DraftProblem(p: Problem, d: RuleDraft, host: Host) {
    || (p == NameEmpty && host.trim(d.name) == []) || (p == NoActions && d.actions == [])
    || (p == TotalDelay && DelayTotal(d.actions) > MAX_TOTAL_DELAY_MS)
    || (p == TlsConditions && d.stage.TlsHandshake?
        && exists i :: 0 <= i < |d.conditions| && !TlsConditionOk(d.conditions[i]))
    || (p == TerminalPlacement && !TerminalLast(d.actions))
    || (exists i :: 0 <= i < |d.conditions| && ConditionProblem(p, i, d.conditions[i], host))
    || (exists i :: 0 <= i < |d.actions| && ActionProblem(p, i, d.stage, d.actions[i], host))
  }

  lemma ConditionProblems(i: nat, c: MatchCondition, host: Host)
    ensures ConditionOk(c, host) <==> forall p :: !ConditionProblem(p, i, c, host)
  {
    hide Parse;
    assert ConditionProblem(ConditionPath(i), i, c, host) || ConditionProblem(ConditionRegex(i), i, c, host)
           || ConditionProblem(ConditionNth(i), i, c, host) || ConditionOk(c, host);
  }

  lemma ParameterProblems(i: nat, action: RuleAction)
    ensures ParametersOk(action) <==> forall p :: !ParameterProblem(p, i, action)
  {
    hide ParametersOk, ParameterProblem;
    if ParametersOk(action) {
      forall p ensures !ParameterProblem(p, i, action) {
        NoParameterProblem(p, i, action);
      }
    } else {
      SomeParameterProblem(i, action);
    }
  }

  lemma NoParameterProblem(p: Problem, i: nat, action: RuleAction)
    requires ParametersOk(action)
    ensures !ParameterProblem(p, i, action)
  {
  }

  lemma SomeParameterProblem(i: nat, action: RuleAction)
    requires !ParametersOk(action)
    ensures exists p :: ParameterProblem(p, i, action)
  {
    assert ParameterProblem(StatusRange(i), i, action) || ParameterProblem(JitterOrder(i), i, action)
           || ParameterProblem(JitterRange(i), i, action) || ParameterProblem(RateRange(i), i, action)
           || ParameterProblem(ChunkRange(i), i, action) || ParameterProblem(AvailableRange(i), i, action)
           || ParameterProblem(BlockedRange(i), i, action) || ParameterProblem(ZeroDelta(i), i, action)
           || ParameterProblem(ZeroTimeout(i), i, action);
  }

  lemma HeaderProblems(i: nat, header: (string, string), host: Host)
    ensures HeaderOk(header.0, header.1, host) <==> forall p :: !HeaderProblem(p, i, header, host)
  {
    hide HeaderNameOk, HeaderValueOk, Managed;
    assert HeaderProblem(HeaderName(i), i, header, host) || HeaderProblem(HeaderValue(i), i, header, host)
           || HeaderProblem(ManagedHeader(i), i, header, host) || HeaderOk(header.0, header.1, host);
  }

  lemma ContentProblems(i: nat, action: RuleAction, host: Host)
    ensures ContentOk(action, host) <==> forall p :: !ContentProblem(p, i, action, host)
  {
    hide HeaderOk, HeaderProblem, Parse;
    forall h | 0 <= h < |HeadersOf(action)|
      ensures HeaderOk(HeadersOf(action)[h].0, HeadersOf(action)[h].1, host) <==>
              forall p :: !HeaderProblem(p, i, HeadersOf(action)[h], host)
    {
      HeaderProblems(i, HeadersOf(action)[h], host);
    }
    if forall p :: !ContentProblem(p, i, action, host) {
      assert !ContentProblem(ActionPath(i), i, action, host);
      forall h | 0 <= h < |HeadersOf(action)|
        ensures HeaderOk(HeadersOf(action)[h].0, HeadersOf(action)[h].1, host)
      {
        forall p
          ensures !HeaderProblem(p, i, HeadersOf(action)[h], host)
        {
          assert !ContentProblem(p, i, action, host);
        }
      }
    }
  }

  lemma ActionProblems(i: nat, stage: Stage, action: RuleAction, host: Host)
    ensures ActionOk(stage, action, host) <==> forall p :: !ActionProblem(p, i, stage, action, host)
  {
    hide ActionCompatible, ParametersOk, ContentOk, ParameterProblem, ContentProblem;
    ParameterProblems(i, action);
    ContentProblems(i, action, host);
    if forall p :: !ActionProblem(p, i, stage, action, host) {
      assert !ActionProblem(StageMismatch(i), i, stage, action, host);
      forall p
        ensures !ParameterProblem(p, i, action) && !ContentProblem(p, i, action, host)
      {
        assert !ActionProblem(p, i, stage, action, host);
      }
    }
  }

  /** A draft is acceptable iff nothing is wrong with it. */
  lemma DraftProblems(d: RuleDraft, host: Host)
    ensures DraftOk(d, host) <==> forall p :: !DraftProblem(p, d, host)
  {
    hide ActionOk, ConditionOk, TlsConditionOk, TerminalLast, ActionProblem, ConditionProblem;
    forall i | 0 <= i < |d.conditions|
      ensures ConditionOk(d.conditions[i], host) <==> forall p :: !ConditionProblem(p, i, d.conditions[i], host)
    {
      ConditionProblems(i, d.conditions[i], host);
    }
    forall i | 0 <= i < |d.actions|
      ensures ActionOk(d.stage, d.actions[i], host) <==> forall p :: !ActionProblem(p, i, d.stage, d.actions[i], host)
    {
      ActionProblems(i, d.stage, d.actions[i], host);
    }
    if forall p :: !DraftProblem(p, d, host) {
      assert !DraftProblem(NameEmpty, d, host) && !DraftProblem(NoActions, d, host);
      assert !DraftProblem(TotalDelay, d, host) && !DraftProblem(TlsConditions, d, host);
      assert !DraftProblem(TerminalPlacement, d, host);
      forall i | 0 <= i < |d.conditions|
        ensures ConditionOk(d.conditions[i], host)
      {
        forall p
          ensures !ConditionProblem(p, i, d.conditions[i], host)
        {
          assert !DraftProblem(p, d, host);
        }
      }
      forall i | 0 <= i < |d.actions|
        ensures ActionOk(d.stage, d.actions[i], host)
      {
        forall p
          ensures !ActionProblem(p, i, d.stage, d.actions[i], host)
        {
          assert !DraftProblem(p, d, host);
        }
      }
    }
  }

  // ---- the check ----

  /** Collects exactly the problems of a draft; there is none iff the draft is acceptable. */
  method ValidateRuleDraft(d: RuleDraft, host: Host) returns (problems: seq<Problem>)
    ensures forall p :: p in problems <==> DraftProblem(p, d, host)
    ensures problems == [] <==> DraftOk(d, host)
    ensures problems == [] <==> Acceptable(d, host)
  {
    hide Acceptable, DraftOk, TlsConditionOk, TerminalLast, ActionProblem, ConditionProblem;
    problems := [];
    if host.trim(d.name) == [] {
      problems := problems + [NameEmpty];
    }
    if d.actions == [] {
      problems := problems + [NoActions];
    }
    var conditionProblems := CheckConditions(d.conditions, host);
    var totalDelay := 0;
    for i := 0 to |d.actions|
      invariant totalDelay == DelayTotal(d.actions[..i])
    {
      assert d.actions[..i + 1][..i] == d.actions[..i];
      totalDelay := totalDelay + DelayOf(d.actions[i]);
    }
    assert d.actions[..|d.actions|] == d.actions;
    problems := problems + conditionProblems;
    if totalDelay > MAX_TOTAL_DELAY_MS {
      problems := problems + [TotalDelay];
    }
    var actionProblems := ValidateActions(d, host);
    problems := problems + actionProblems;
    if d.stage.TlsHandshake? && exists i :: 0 <= i < |d.conditions| && !TlsConditionOk(d.conditions[i]) {
      problems := problems + [TlsConditions];
    }
    DraftProblems(d, host);
    AcceptedExactly(d, host);
    NothingIn(problems);
  }

  lemma NothingIn(problems: seq<Problem>)
    ensures problems == [] <==> forall p :: p !in problems
  {
    if problems != [] {
      assert problems[0] in problems;
    }
  }

  method CheckConditions(conditions: seq<MatchCondition>, host: Host) returns (problems: seq<Problem>)
    ensures forall p :: p in problems <==>
              exists i :: 0 <= i < |conditions| && ConditionProblem(p, i, conditions[i], host)
  {
    hide Parse;
    problems := [];
    for i := 0 to |conditions|
      invariant forall p :: p in problems <==> exists j :: 0 <= j < i && ConditionProblem(p, j, conditions[j], host)
    {
      var found := CheckCondition(i, conditions[i], host);
      problems := problems + found;
    }
  }

  method CheckCondition(i: nat, c: MatchCondition, host: Host) returns (problems: seq<Problem>)
    ensures forall p :: p in problems <==> ConditionProblem(p, i, c, host)
  {
    problems := [];
    if c.FieldIs? && c.field.JsonField? && Parse(c.field.path, host.alnum).Err? {
      problems := [ConditionPath(i)];
    } else if c.FieldIs? && c.operator.Regex? && !host.compiles(c.operator.pattern) {
      problems := [ConditionRegex(i)];
    } else if c == NthHit(0) {
      problems := [ConditionNth(i)];
    }
  }

  method ValidateActions(d: RuleDraft, host: Host) returns (problems: seq<Problem>)
    ensures forall p :: p in problems <==>
              (p == TerminalPlacement && !TerminalLast(d.actions))
              || exists i :: 0 <= i < |d.actions| && ActionProblem(p, i, d.stage, d.actions[i], host)
  {
    hide ActionProblem, TerminalLast;
    problems := [];
    var positions := TerminalPositions(d.actions);
    PositionsMeaning(d.actions, positions);
    if |positions| > 1 || (|positions| == 1 && positions[0] + 1 != |d.actions|) {
      problems := [TerminalPlacement];
    }
    for i := 0 to |d.actions|
      invariant forall p :: p in problems <==>
                  (p == TerminalPlacement && !TerminalLast(d.actions))
                  || exists j :: 0 <= j < i && ActionProblem(p, j, d.stage, d.actions[j], host)
    {
      var found := CheckAction(i, d.stage, d.actions[i], host);
      problems := problems + found;
    }
  }

  method TerminalPositions(actions: seq<RuleAction>) returns (positions: seq<nat>)
    ensures forall p :: p in positions <==> 0 <= p < |actions| && actions[p].Terminal?
    ensures forall a, b :: 0 <= a < b < |positions| ==> positions[a] < positions[b]
  {
    positions := [];
    for i := 0 to |actions|
      invariant forall p :: p in positions <==> 0 <= p < i && actions[p].Terminal?
      invariant forall a, b :: 0 <= a < b < |positions| ==> positions[a] < positions[b]
    {
      assert forall a :: 0 <= a < |positions| ==> positions[a] in positions;
      if actions[i].Terminal? {
        positions := positions + [i];
      }
    }
  }

  lemma PositionsMeaning(actions: seq<RuleAction>, positions: seq<nat>)
    requires forall p :: p in positions <==> 0 <= p < |actions| && actions[p].Terminal?
    requires forall a, b :: 0 <= a < b < |positions| ==> positions[a] < positions[b]
    ensures TerminalLast(actions) <==> !(|positions| > 1 || (|positions| == 1 && positions[0] + 1 != |actions|))
  {
    if |positions| > 1 {
      assert positions[0] in positions && positions[1] in positions;
    } else if |positions| == 1 {
      assert positions[0] in positions;
    }
  }

  method CheckAction(i: nat, stage: Stage, action: RuleAction, host: Host) returns (problems: seq<Problem>)
    ensures forall p :: p in problems <==> ActionProblem(p, i, stage, action, host)
  {
    hide ParameterProblem, ContentProblem;
    problems := [];
    if !ActionCompatible(stage, action) {
      problems := [StageMismatch(i)];
    }
    var parameterProblems := CheckParameters(i, action);
    var contentProblems := CheckContent(i, action, host);
    problems := problems + parameterProblems + contentProblems;
  }

  method CheckParameters(i: nat, action: RuleAction) returns (problems: seq<Problem>)
    ensures forall p :: p in problems <==> ParameterProblem(p, i, action)
  {
    problems := [];
    match action {
      case CustomHttpStatus(status) =>
        if !StatusOk(status) { problems := [StatusRange(i)]; }
      case Jitter(minimum, maximum, _) =>
        if minimum > maximum { problems := [JitterOrder(i)]; }
        if maximum > MAX_TOTAL_DELAY_MS { problems := problems + [JitterRange(i)]; }
      case Throttle(rate, chunk, _) =>
        if !(1 <= rate <= MAX_THROTTLE_BYTES_PER_SECOND) { problems := [RateRange(i)]; }
        if !(1 <= chunk <= MAX_TRAFFIC_CHUNK_BYTES) { problems := problems + [ChunkRange(i)]; }
      case Intermittent(available, blocked, _) =>
        if !(1 <= available <= MAX_TOTAL_DELAY_MS) { problems := [AvailableRange(i)]; }
        if !(1 <= blocked <= MAX_TOTAL_DELAY_MS) { problems := problems + [BlockedRange(i)]; }
      case Terminal(IncorrectContentLength(delta)) =>
        if delta == 0 { problems := [ZeroDelta(i)]; }
      case Terminal(UpstreamConnectTimeout(ms)) =>
        if ms == 0 { problems := [ZeroTimeout(i)]; }
      case Terminal(UpstreamWriteTimeout(ms)) =>
        if ms == 0 { problems := [ZeroTimeout(i)]; }
      case Terminal(UpstreamReadTimeout(ms)) =>
        if ms == 0 { problems := [ZeroTimeout(i)]; }
      case Terminal(MockResponse(status, _, _)) =>
        if !StatusOk(status) { problems := [StatusRange(i)]; }
      case _ =>
    }
  }

  method CheckContent(i: nat, action: RuleAction, host: Host) returns (problems: seq<Problem>)
    ensures forall p :: p in problems <==> ContentProblem(p, i, action, host)
  {
    hide HeaderProblem, Parse;
    problems := [];
    match action {
      case SetJsonField(path, _) =>
        if Parse(path, host.alnum).Err? {
          problems := [ActionPath(i)];
        }
      case SetHeader(name, value) =>
        assert HeadersOf(action) == [(name, value)] && HeadersOf(action)[0] == (name, value);
        problems := CheckHeader(i, (name, value), host);
      case Terminal(MockResponse(_, headers, _)) =>
        for h := 0 to |headers|
          invariant forall p :: p in problems <==> exists j :: 0 <= j < h && HeaderProblem(p, i, headers[j], host)
        {
          var found := CheckHeader(i, headers[h], host);
          problems := problems + found;
        }
        assert HeadersOf(action) == headers;
      case _ =>
    }
  }

  method CheckHeader(i: nat, header: (string, string), host: Host) returns (problems: seq<Problem>)
    ensures forall p :: p in problems <==> HeaderProblem(p, i, header, host)
  {
    hide HeaderNameOk, HeaderValueOk, Managed;
    problems := [];
    if !HeaderNameOk(header.0) {
      problems := problems + [HeaderName(i)];
    }
    if !HeaderValueOk(header.1) {
      problems := problems + [HeaderValue(i)];
    }
    if Managed(header.0, host) {
      problems := problems + [ManagedHeader(i)];
    }
  }
}
