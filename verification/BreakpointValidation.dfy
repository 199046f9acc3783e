/** Breakpoint details and decisions, and the gate every decision passes before it is delivered. */
module BreakpointValidation {
  import opened Wrappers

  type BreakpointId = nat
  type Epoch = nat

  datatype Stage = TlsHandshake | Request | Response | Terminal

  datatype Kind =
    | ForwardOriginal | ForwardModified | MockResponse | Delay | DisconnectBeforeUpstream
    | CustomHttpStatus | InvalidJson | WrongContentLength | Truncate | DropResponse

  datatype Message = Message(startLine: seq<nat>, headers: seq<(string, seq<string>)>, body: seq<nat>)

  datatype State = Pending | Resolved | ClientDisconnected | ProxyStopped

  datatype Summary = Summary(id: BreakpointId, epoch: Epoch, stage: Stage, state: State, revision: nat)

  datatype Detail = Detail(summary: Summary, original: Message, effective: Message,
                           canResolve: bool, offered: seq<Kind>)

  datatype Decision = Decision(id: BreakpointId, expectedRevision: nat, kind: Kind, message: Option<Message>,
                               delayMs: Option<nat>, httpStatus: Option<nat>,
                               contentLengthDelta: Option<int>, truncateAt: Option<nat>)

  const MAX_DELAY_MS: nat := 600_000

  /** The kinds in the order in which they are offered. */
  const KINDS: seq<Kind> := [ForwardModified, ForwardOriginal, MockResponse, Delay, DisconnectBeforeUpstream,
                             CustomHttpStatus, InvalidJson, WrongContentLength, Truncate, DropResponse]

  predicate StageSupports(stage: Stage, kind: Kind) {
    match stage
    case Request =>
      kind.ForwardOriginal? || kind.ForwardModified? || kind.MockResponse? || kind.Delay?
      || kind.DisconnectBeforeUpstream?
    case Response => !kind.MockResponse? && !kind.DisconnectBeforeUpstream?
    case _ => false
  }

  predicate ValidHttpStatus(status: nat) {
    100 <= status <= 599
  }

  // ---- what may be delivered ----

  datatype Field =
    | IdField | RevisionField | KindField | MessageField | DelayField | StatusField | DeltaField | TruncateField

  /** What a decision must satisfy, field by field. */
  predicate FieldOk(f: Field, detail: Detail, d: Decision) {
    match f
    case IdField => d.id == detail.summary.id
    case RevisionField => d.expectedRevision == detail.summary.revision
    case KindField => StageSupports(detail.summary.stage, d.kind)
    case MessageField => d.kind.ForwardModified? || d.kind.MockResponse? ==> d.message.Some?
    case DelayField => d.kind.Delay? ==> d.delayMs.Some? && 1 <= d.delayMs.value <= MAX_DELAY_MS
    case StatusField => d.kind.CustomHttpStatus? ==> d.httpStatus.Some? && ValidHttpStatus(d.httpStatus.value)
    case DeltaField => d.kind.WrongContentLength? ==> d.contentLengthDelta.Some? && d.contentLengthDelta.value != 0
    case TruncateField =>
      d.kind.Truncate? ==> d.truncateAt.Some? && d.truncateAt.value < |detail.effective.body|
  }

  ghost predicate DecisionOk(detail: Detail, d: Decision) {
    forall f :: FieldOk(f, detail, d)
  }

  /**
   * What the gate lets through, in the fields of the decision: it names this breakpoint and revision, its kind
   * is one the stage takes, and the values of that kind are there and in range.
   */
  ghost predicate Deliverable(detail: Detail, d: Decision) {
    && d.id == detail.summary.id && d.expectedRevision == detail.summary.revision
    && (detail.summary.stage == Request || detail.summary.stage == Response)
    && (detail.summary.stage == Request ==>
          d.kind in {ForwardOriginal, ForwardModified, Kind.MockResponse, Delay, DisconnectBeforeUpstream})
    && (detail.summary.stage == Response ==>
          d.kind in {ForwardOriginal, ForwardModified, Delay, CustomHttpStatus, InvalidJson, WrongContentLength,
                     Truncate, DropResponse})
    && (d.kind in {ForwardModified, Kind.MockResponse} ==> d.message != None)
    && (d.kind == Delay ==> exists ms :: d.delayMs == Some(ms) && 1 <= ms <= 600_000)
    && (d.kind == CustomHttpStatus ==> exists status :: d.httpStatus == Some(status) && 100 <= status <= 599)
    && (d.kind == WrongContentLength ==> exists delta :: d.contentLengthDelta == Some(delta) && delta != 0)
    && (d.kind == Truncate ==> exists at :: d.truncateAt == Some(at) && at < |detail.effective.body|)
  }

  /** The gate opens for exactly these decisions. */
  lemma GateExactly(detail: Detail, d: Decision)
    ensures DecisionOk(detail, d) <==> Deliverable(detail, d)
  {
    if DecisionOk(detail, d) {
      assert FieldOk(IdField, detail, d) && FieldOk(RevisionField, detail, d) && FieldOk(KindField, detail, d);
      assert FieldOk(MessageField, detail, d) && FieldOk(DelayField, detail, d) && FieldOk(StatusField, detail, d);
      assert FieldOk(DeltaField, detail, d) && FieldOk(TruncateField, detail, d);
    }
  }

  /** Collects the fields at fault: exactly the ones that are not in order. */
  method ValidateStructure(detail: Detail, d: Decision) returns (errors: seq<Field>)
    ensures forall f :: f in errors <==> !FieldOk(f, detail, d)
    ensures errors == [] <==> DecisionOk(detail, d)
  {
    hide StageSupports;
    errors := [];
    if d.id != detail.summary.id {
      errors := errors + [IdField];
    }
    if d.expectedRevision != detail.summary.revision {
      errors := errors + [RevisionField];
    }
    if !StageSupports(detail.summary.stage, d.kind) {
      errors := errors + [KindField];
    }
    var more := ValidateValues(detail, d);
    errors := errors + more;
    if errors != [] {
      assert errors[0] in errors;
    }
  }

  /** The values the kind needs. */
  method ValidateValues(detail: Detail, d: Decision) returns (errors: seq<Field>)
    ensures forall f :: f in errors <==> !f.IdField? && !f.RevisionField? && !f.KindField? && !FieldOk(f, detail, d)
  {
    errors := [];
    match d.kind {
      case ForwardModified | MockResponse =>
        if d.message.None? {
          errors := errors + [MessageField];
        }
      case Delay =>
        if d.delayMs.None? || d.delayMs.value == 0 || d.delayMs.value > MAX_DELAY_MS {
          errors := errors + [DelayField];
        }
      case CustomHttpStatus =>
        if d.httpStatus.None? || !ValidHttpStatus(d.httpStatus.value) {
          errors := errors + [StatusField];
        }
      case WrongContentLength =>
        if d.contentLengthDelta.None? || d.contentLengthDelta.value == 0 {
          errors := errors + [DeltaField];
        }
      case Truncate =>
        var available := |detail.effective.body|;
        if d.truncateAt.None? || available == 0 || d.truncateAt.value >= available {
          errors := errors + [TruncateField];
        }
      case _ =>
    }
  }

  // ---- what is offered ----

  /** The kinds offered with a breakpoint: the supported ones, in the fixed order. */
  function Supported(kinds: seq<Kind>, stage: Stage): seq<Kind> {
    if kinds == [] then []
    else (if StageSupports(stage, kinds[0]) then [kinds[0]] else []) + Supported(kinds[1..], stage)
  }

  /** The detail as it is shown while the breakpoint waits. */
  function Displayed(detail: Detail): Detail {
    detail.(canResolve := detail.summary.state.Pending?, offered := Supported(KINDS, detail.summary.stage))
  }

  lemma {:induction false} SupportedMembers(kinds: seq<Kind>, stage: Stage, kind: Kind)
    ensures kind in Supported(kinds, stage) <==> kind in kinds && StageSupports(stage, kind)
  {
    if kinds != [] {
      assert kinds == [kinds[0]] + kinds[1..];
      SupportedMembers(kinds[1..], stage, kind);
    }
  }

  /** What a waiting breakpoint shows: it can be resolved, by the kinds its stage takes; all else is as given. */
  ghost predicate Shown(detail: Detail, shown: Detail) {
    && shown == detail.(canResolve := true, offered := shown.offered)
    && (forall kind :: kind in shown.offered ==>
          || (detail.summary.stage == Request && kind !in {CustomHttpStatus, InvalidJson, WrongContentLength, Truncate,
                                                           DropResponse})
          || (detail.summary.stage == Response && kind !in {Kind.MockResponse, DisconnectBeforeUpstream}))
    && (detail.summary.stage == Request ==>
          forall kind :: kind !in {CustomHttpStatus, InvalidJson, WrongContentLength, Truncate, DropResponse} ==>
            kind in shown.offered)
    && (detail.summary.stage == Response ==>
          forall kind :: kind !in {Kind.MockResponse, DisconnectBeforeUpstream} ==> kind in shown.offered)
  }

  lemma DisplayedShown(detail: Detail)
    requires detail.summary.state.Pending?
    ensures Shown(detail, Displayed(detail))
  {
    hide Supported;
    forall kind: Kind
      ensures kind in Displayed(detail).offered <==> StageSupports(detail.summary.stage, kind)
    {
      SupportedMembers(KINDS, detail.summary.stage, kind);
      EveryKind(kind);
    }
  }

  /** The decision a client that keeps every preset submits. */
  function Preset(detail: Detail, kind: Kind, message: Option<Message>): Decision {
    var length := |detail.effective.body|;
    Decision(detail.summary.id, detail.summary.revision, kind, message, Some(1_000), Some(503), Some(1),
             Some(if length >= 2 then 1 else 0))
  }

  ghost predicate Decidable(detail: Detail, kind: Kind) {
    exists d: Decision :: d.kind == kind && DecisionOk(detail, d)
  }

  lemma PresetOk(detail: Detail, kind: Kind, message: Message)
    requires StageSupports(detail.summary.stage, kind) && (kind.Truncate? ==> detail.effective.body != [])
    ensures DecisionOk(detail, Preset(detail, kind, Some(message)))
  {
  }

  lemma DecidableOnly(detail: Detail, d: Decision)
    requires DecisionOk(detail, d)
    ensures StageSupports(detail.summary.stage, d.kind) && (d.kind.Truncate? ==> detail.effective.body != [])
  {
    assert FieldOk(KindField, detail, d) && FieldOk(TruncateField, detail, d);
  }

  /**
   * What is offered can be decided: a kind passes the gate for some decision iff it was offered and, for
   * truncation, there is something to truncate; then the preset passes too. Truncation of an empty body
   * is offered although no decision of that kind passes.
   */
  lemma OfferedMeansDecidable(detail: Detail, kind: Kind, message: Message)
    ensures Decidable(detail, kind) <==>
            kind in Displayed(detail).offered && (kind.Truncate? ==> detail.effective.body != [])
    ensures Decidable(detail, kind) ==> DecisionOk(detail, Preset(detail, kind, Some(message)))
  {
    hide Supported, DecisionOk, StageSupports;
    SupportedMembers(KINDS, detail.summary.stage, kind);
    EveryKind(kind);
    if Decidable(detail, kind) {
      var d: Decision :| d.kind == kind && DecisionOk(detail, d);
      DecidableOnly(detail, d);
      PresetOk(detail, kind, message);
    } else if StageSupports(detail.summary.stage, kind) && (kind.Truncate? ==> detail.effective.body != []) {
      PresetOk(detail, kind, message);
    }
  }

  lemma EveryKind(kind: Kind)
    ensures kind in KINDS
  {
    assert KINDS[0] in KINDS && KINDS[1] in KINDS && KINDS[2] in KINDS && KINDS[3] in KINDS && KINDS[4] in KINDS;
    assert KINDS[5] in KINDS && KINDS[6] in KINDS && KINDS[7] in KINDS && KINDS[8] in KINDS && KINDS[9] in KINDS;
  }
}
