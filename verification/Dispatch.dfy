/**
 The vocabulary of fenced dispatch: logical tasks, their numbered physical
 attempts, the commit predicate a result carries, and the pure decision that
 says what a result may do.

 A time is the number of nanoseconds since the zero instant, so 0 is the "unset"
 time. A derived SHA-256 identity is a constructor, which is injective.
 */
module Dispatch {
  import opened Wrappers

  type Time = int

  datatype Scope = Scope(workspace: string, project: string)
  {
    predicate Valid() { workspace != "" && project != "" }
  }

  datatype Key = Key(scope: Scope, id: string)

  datatype State = Accepted | Running | Succeeded | Failed | Expired | Canceled | Superseded
  {
    predicate Terminal() { !Open() }
    predicate Open() { this == Accepted || this == Running }
  }

  /** The identity derived from a task and an attempt number, or any other text. */
  datatype AttemptId = Derived(taskId: string, number: nat) | Foreign(raw: string)

  /** What is persisted of a fence token. */
  datatype FenceDigest = DigestOf(token: string)

  datatype RuntimeBinding = RuntimeBinding(
    unitId: string, manifestDigest: string, imageDigest: string, protocolDigest: string, audience: string)

  datatype Task = Task(
    scope: Scope, taskId: string, runId: string, rootRunId: string, generation: nat,
    definitionDigest: string, runtime: RuntimeBinding, capability: string, requestDigest: string,
    status: State, attempts: nat, leaseEpoch: nat,
    expiresAt: Time, createdAt: Time, updatedAt: Time)
  {
    function Identity(): Key { Key(scope, taskId) }
  }

  datatype Attempt = Attempt(
    scope: Scope, id: AttemptId, taskId: string, number: nat, leaseEpoch: nat,
    fence: FenceDigest, unitId: string, status: State,
    statementDigest: string, signatureKey: string, failureReason: string,
    dispatchedAt: Time, startedAt: Time, finishedAt: Time,
    expiresAt: Time, createdAt: Time, updatedAt: Time)

  datatype Predicate = Predicate(
    runId: string, taskId: string, generation: nat, attemptId: AttemptId,
    number: nat, leaseEpoch: nat, fenceToken: string,
    unitId: string, manifestDigest: string, imageDigest: string, protocolDigest: string)

  datatype Outcome = Outcome(
    statement: string, status: string, reasonCode: string,
    statementDigest: string, signatureKey: string, failed: bool, observedAt: Time)

  datatype Settle = Settle(scope: Scope, runId: string, facts: Predicate, outcome: Outcome)
  {
    function Identity(): Key { Key(scope, facts.taskId) }
  }

  datatype Open = Open(
    scope: Scope, taskId: string, fence: FenceDigest, unitId: string,
    supersededReason: string, expiresAt: Time, at: Time)
  {
    function Identity(): Key { Key(scope, taskId) }
  }

  datatype Registration = Registration(
    taskId: string, attemptId: AttemptId, number: nat, leaseEpoch: nat, generation: nat,
    statementDigest: string, signatureKey: string, status: string, reasonCode: string,
    statement: string, committedAt: Time)

  /** `Committed` is the empty disposition: the only one under which state changes. */
  datatype Disposition =
    Committed | Duplicate | StaleFence | SupersededResult | TerminalResult | ExpiredResult | CanceledResult | Unbound

  /** The fields a settlement or a repeated creation is compared on. */
  datatype Field =
    | RunField | TaskField | AttemptField | FenceField | UnitField | ManifestField | ImageField | ProtocolField
    | GenerationField | NumberField | EpochField | DefinitionField | RequestField | CapabilityField

  /** The bounded explanation recorded with a verdict. */
  datatype Reason =
    | NoReason | SameStatementCommitted | OtherStatementCommitted
    | TaskCanceled | TaskExpired | TaskTerminal
    | AttemptSuperseded | AttemptCanceled | AttemptExpired | AttemptTerminal
    | Mismatch(field: Field) | TaskDeadlinePassed | AttemptDeadlinePassed | NoSuchAttempt

  datatype Verdict = Verdict(disposition: Disposition, reason: Reason)

  datatype Evidence = Evidence(
    scope: Scope, taskId: string, runId: string, attemptId: AttemptId, number: nat, leaseEpoch: nat,
    statementDigest: string, signatureKey: string, disposition: Disposition, reason: Reason, recordedAt: Time)

  const REASON_REPLACED := "ATTEMPT_REPLACED"
  const REASON_DEADLINE_EXCEEDED := "ATTEMPT_DEADLINE_EXCEEDED"
  const MINIMUM_FENCE_TOKEN_LENGTH := 16
  const MAXIMUM_STATEMENT_BYTES := 0x10_0000

  predicate HexDigit(c: char) { '0' <= c <= '9' || 'a' <= c <= 'f' || 'A' <= c <= 'F' }

  predicate ValidDigest(value: string) {
    |value| == 71 && value[..7] == "sha256:" && forall i | 7 <= i < 71 :: HexDigit(value[i])
  }

  predicate ValidReasonCode(value: string) {
    && 3 <= |value| <= 64
    && 'A' <= value[0] <= 'Z'
    && forall i | 1 <= i < |value| :: 'A' <= value[i] <= 'Z' || '0' <= value[i] <= '9' || value[i] == '_'
  }

  predicate ValidTask(t: Task) {
    && t.scope.Valid()
    && t.taskId != "" && t.runId != "" && t.rootRunId != ""
    && t.generation != 0
    && ValidDigest(t.definitionDigest) && ValidDigest(t.requestDigest)
    && t.capability != ""
    && t.expiresAt != 0
    && t.status != Superseded
    && t.runtime.unitId != ""
    && ValidDigest(t.runtime.manifestDigest) && ValidDigest(t.runtime.imageDigest)
    && ValidDigest(t.runtime.protocolDigest)
    && t.runtime.audience != ""
  }

  predicate ValidPredicate(p: Predicate) {
    && p.runId != "" && p.taskId != "" && p.attemptId != Foreign("")
    && p.generation != 0 && p.number != 0 && p.leaseEpoch != 0
    && |p.fenceToken| >= MINIMUM_FENCE_TOKEN_LENGTH
    && p.unitId != ""
    && ValidDigest(p.manifestDigest) && ValidDigest(p.imageDigest) && ValidDigest(p.protocolDigest)
  }

  predicate ValidOutcome(o: Outcome) {
    && o.status != "" && o.reasonCode != "" && ValidDigest(o.statementDigest)
    && o.signatureKey != "" && o.observedAt != 0
    && (!o.failed ==> o.statement != "")
    && |o.statement| <= MAXIMUM_STATEMENT_BYTES
  }

  /** One line of a comparison table: the field's name and whether both sides agree on it. */
  datatype Comparison = Comparison(field: Field, agrees: bool)

  /** The first field of a comparison table that disagrees. */
  function FirstMismatch(table: seq<Comparison>): (r: Option<Field>)
    ensures r.None? <==> forall i | 0 <= i < |table| :: table[i].agrees
    ensures r.Some? ==> exists i ::
      0 <= i < |table| && !table[i].agrees && table[i].field == r.value && forall j | 0 <= j < i :: table[j].agrees
  {
    if table == [] then None
    else if !table[0].agrees then Some(table[0].field)
    else
      var rest := FirstMismatch(table[1..]);
      assert forall i | 1 <= i < |table| :: table[i] == table[1..][i - 1];
      rest
  }

  /** The order in which the eleven predicate fields are compared. */
  function Comparisons(task: Task, attempt: Attempt, p: Predicate): seq<Comparison> {
    [ Comparison(RunField, task.runId == p.runId),
      Comparison(TaskField, task.taskId == p.taskId),
      Comparison(AttemptField, attempt.id == p.attemptId),
      Comparison(FenceField, attempt.fence == DigestOf(p.fenceToken)),
      Comparison(UnitField, task.runtime.unitId == p.unitId),
      Comparison(ManifestField, task.runtime.manifestDigest == p.manifestDigest),
      Comparison(ImageField, task.runtime.imageDigest == p.imageDigest),
      Comparison(ProtocolField, task.runtime.protocolDigest == p.protocolDigest),
      Comparison(GenerationField, task.generation == p.generation),
      Comparison(NumberField, attempt.number == p.number),
      Comparison(EpochField, attempt.leaseEpoch == p.leaseEpoch) ]
  }

  /** Every field of the commit predicate agrees with the authoritative records. */
  predicate Agrees(task: Task, attempt: Attempt, p: Predicate) {
    && task.runId == p.runId
    && task.taskId == p.taskId
    && attempt.id == p.attemptId
    && attempt.fence.token == p.fenceToken
    && task.runtime.unitId == p.unitId
    && task.runtime.manifestDigest == p.manifestDigest
    && task.runtime.imageDigest == p.imageDigest
    && task.runtime.protocolDigest == p.protocolDigest
    && task.generation == p.generation
    && attempt.number == p.number
    && attempt.leaseEpoch == p.leaseEpoch
  }

  /** The table misses no field: it has no mismatch exactly when every field agrees. */
  lemma TableAgreesExactly(task: Task, attempt: Attempt, p: Predicate)
    ensures FirstMismatch(Comparisons(task, attempt, p)).None? <==> Agrees(task, attempt, p)
  {
    var table := Comparisons(task, attempt, p);
    if FirstMismatch(table).None? {
      assert table[0].agrees && table[1].agrees && table[2].agrees && table[3].agrees;
      assert table[4].agrees && table[5].agrees && table[6].agrees && table[7].agrees;
      assert table[8].agrees && table[9].agrees && table[10].agrees;
    }
  }

  /** The flat condition under which a result may change state. */
  predicate Committable(task: Task, attempt: Attempt, committed: Option<Registration>, p: Predicate, now: Time) {
    && committed.None?
    && task.status !in {Succeeded, Failed, Expired, Canceled}
    && attempt.status.Open()
    && Agrees(task, attempt, p)
    && now <= task.expiresAt
    && now <= attempt.expiresAt
  }

  function Evaluate(task: Task, attempt: Attempt, committed: Option<Registration>, request: Settle, now: Time): (v: Verdict)
    // A result commits exactly when nothing is registered, task and attempt are current,
    // all eleven fields agree and neither deadline has passed.
    ensures v.disposition.Committed? <==> Committable(task, attempt, committed, request.facts, now)
    ensures v.disposition.Duplicate? <==>
      committed.Some? && committed.value.statementDigest == request.outcome.statementDigest
    ensures v.disposition.ExpiredResult? && attempt.status.Open() && task.status != Expired ==>
      now > task.expiresAt || now > attempt.expiresAt
    ensures !v.disposition.Unbound?
    ensures v.reason.NoReason? <==> v.disposition.Committed?
  {
    if committed.Some? then
      if committed.value.statementDigest == request.outcome.statementDigest
      then Verdict(Duplicate, SameStatementCommitted)
      else Verdict(TerminalResult, OtherStatementCommitted)
    else
      match task.status
      case Canceled => Verdict(CanceledResult, TaskCanceled)
      case Expired => Verdict(ExpiredResult, TaskExpired)
      case Succeeded | Failed => Verdict(TerminalResult, TaskTerminal)
      case Accepted | Running | Superseded =>
        match attempt.status
        case Superseded => Verdict(SupersededResult, AttemptSuperseded)
        case Canceled => Verdict(CanceledResult, AttemptCanceled)
        case Expired => Verdict(ExpiredResult, AttemptExpired)
        case Succeeded | Failed => Verdict(TerminalResult, AttemptTerminal)
        case Accepted | Running =>
          TableAgreesExactly(task, attempt, request.facts);
          match FirstMismatch(Comparisons(task, attempt, request.facts))
          case Some(field) => Verdict(StaleFence, Mismatch(field))
          case None =>
            if now > task.expiresAt then Verdict(ExpiredResult, TaskDeadlinePassed)
            else if now > attempt.expiresAt then Verdict(ExpiredResult, AttemptDeadlinePassed)
            else Verdict(Committed, NoReason)
  }

  // ---- What a verdict says ---------------------------------------------------------------

  /** The result and the authoritative records disagree on this field. */
  predicate Differs(field: Field, task: Task, attempt: Attempt, p: Predicate) {
    match field
    case RunField => task.runId != p.runId
    case TaskField => task.taskId != p.taskId
    case AttemptField => attempt.id != p.attemptId
    case FenceField => attempt.fence.token != p.fenceToken
    case UnitField => task.runtime.unitId != p.unitId
    case ManifestField => task.runtime.manifestDigest != p.manifestDigest
    case ImageField => task.runtime.imageDigest != p.imageDigest
    case ProtocolField => task.runtime.protocolDigest != p.protocolDigest
    case GenerationField => task.generation != p.generation
    case NumberField => attempt.number != p.number
    case EpochField => attempt.leaseEpoch != p.leaseEpoch
    case _ => false
  }

  lemma MismatchDiffers(task: Task, attempt: Attempt, p: Predicate)
    ensures var m := FirstMismatch(Comparisons(task, attempt, p)); m.Some? ==> Differs(m.value, task, attempt, p)
  {}

  /** Nothing is registered for the task, and no final state of it decides. */
  predicate Undecided(task: Task, committed: Option<Registration>) {
    committed.None? && task.status in {Accepted, Running, State.Superseded}
  }

  /** Why a result may not change state: its disposition, exactly, and a reason that is the case. */
  lemma VerdictSaysWhy(task: Task, attempt: Attempt, committed: Option<Registration>, request: Settle, now: Time)
    ensures var v := Evaluate(task, attempt, committed, request, now);
            var current := Undecided(task, committed);
            && (v.disposition == CanceledResult <==> committed.None? && (task.status == Canceled || (current && attempt.status == Canceled)))
            && (v.disposition == SupersededResult <==> current && attempt.status == State.Superseded)
            && (v.disposition == StaleFence <==> current && attempt.status.Open() && !Agrees(task, attempt, request.facts))
            && (v.disposition == ExpiredResult <==>
                  committed.None? && (task.status == Expired || (current && (attempt.status == Expired ||
                    (attempt.status.Open() && Agrees(task, attempt, request.facts) && (now > task.expiresAt || now > attempt.expiresAt))))))
            && (v.disposition == TerminalResult <==>
                  || (committed.Some? && committed.value.statementDigest != request.outcome.statementDigest)
                  || (committed.None? && task.status in {Succeeded, Failed}) || (current && attempt.status in {Succeeded, Failed}))
            && ReasonHolds(v.reason, task, attempt, committed, request, now)
  {
    TableAgreesExactly(task, attempt, request.facts);
    MismatchDiffers(task, attempt, request.facts);
    hide FirstMismatch, Comparisons, Agrees, Differs, Committable;
  }

  /** The reason given is the case. */
  predicate ReasonHolds(reason: Reason, task: Task, attempt: Attempt, committed: Option<Registration>, request: Settle, now: Time) {
    match reason
    case NoReason => Committable(task, attempt, committed, request.facts, now)
    case SameStatementCommitted => committed.Some? && committed.value.statementDigest == request.outcome.statementDigest
    case OtherStatementCommitted => committed.Some? && committed.value.statementDigest != request.outcome.statementDigest
    case TaskCanceled => task.status == Canceled
    case TaskExpired => task.status == Expired
    case TaskTerminal => task.status in {Succeeded, Failed}
    case AttemptSuperseded => attempt.status == State.Superseded
    case AttemptCanceled => attempt.status == Canceled
    case AttemptExpired => attempt.status == Expired
    case AttemptTerminal => attempt.status in {Succeeded, Failed}
    case Mismatch(field) => Differs(field, task, attempt, request.facts)
    case TaskDeadlinePassed => now > task.expiresAt
    case AttemptDeadlinePassed => now > attempt.expiresAt
    case NoSuchAttempt => false
  }
}
