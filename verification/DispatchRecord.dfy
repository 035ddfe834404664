/**
 The durable dispatch record as a value: what each repository operation makes of
 it, and the invariant that holds between operations.
 */
module DispatchRecord {
  import opened Wrappers
  import opened Dispatch

  datatype Record = Record(
    tasks: map<Key, Task>,
    attempts: map<Key, seq<Attempt>>,
    results: map<Key, Registration>,
    evidence: seq<Evidence>)
  {
    /** The attempts of one task, oldest first; a task never current has none. */
    function AttemptsOf(k: Key): seq<Attempt> { if k in attempts then attempts[k] else [] }

    function RegistrationOf(k: Key): Option<Registration> { if k in results then Some(results[k]) else None }
  }

  const EMPTY := Record(map[], map[], map[], [])

  datatype Problem =
    | InvalidTask | InvalidReason | InvalidSettlement
    | NoTask | NoAttempt
    | TaskRefused | DispatchRefused
    | IdentityReused(field: Field)
    | NoToken

  /** What a settlement reports: the verdict, and the records after it. */
  datatype Settled = Settled(verdict: Verdict, task: Task, attempt: Option<Attempt>)

  // ---- Creating a task -------------------------------------------------------------------

  function SameWork(existing: Task, offered: Task): seq<Comparison> {
    [ Comparison(RunField, existing.runId == offered.runId),
      Comparison(DefinitionField, existing.definitionDigest == offered.definitionDigest),
      Comparison(RequestField, existing.requestDigest == offered.requestDigest),
      Comparison(UnitField, existing.runtime.unitId == offered.runtime.unitId),
      Comparison(ManifestField, existing.runtime.manifestDigest == offered.runtime.manifestDigest),
      Comparison(ImageField, existing.runtime.imageDigest == offered.runtime.imageDigest),
      Comparison(CapabilityField, existing.capability == offered.capability),
      Comparison(GenerationField, existing.generation == offered.generation) ]
  }

  /** A repeated creation is the same work, field by field. */
  predicate IsSameWork(existing: Task, offered: Task) {
    && existing.runId == offered.runId && existing.definitionDigest == offered.definitionDigest && existing.requestDigest == offered.requestDigest
    && existing.runtime.unitId == offered.runtime.unitId && existing.runtime.manifestDigest == offered.runtime.manifestDigest
    && existing.runtime.imageDigest == offered.runtime.imageDigest && existing.capability == offered.capability
    && existing.generation == offered.generation
  }

  predicate WorkDiffers(field: Field, existing: Task, offered: Task) {
    match field
    case RunField => existing.runId != offered.runId
    case DefinitionField => existing.definitionDigest != offered.definitionDigest
    case RequestField => existing.requestDigest != offered.requestDigest
    case UnitField => existing.runtime.unitId != offered.runtime.unitId
    case ManifestField => existing.runtime.manifestDigest != offered.runtime.manifestDigest
    case ImageField => existing.runtime.imageDigest != offered.runtime.imageDigest
    case CapabilityField => existing.capability != offered.capability
    case GenerationField => existing.generation != offered.generation
    case _ => false
  }

  /** The comparison of two creations misses no field, and names one that differs. */
  lemma SameWorkExactly(existing: Task, offered: Task)
    ensures var m := FirstMismatch(SameWork(existing, offered));
            (m.None? <==> IsSameWork(existing, offered)) && (m.Some? ==> WorkDiffers(m.value, existing, offered))
  {
    var table := SameWork(existing, offered);
    if FirstMismatch(table).None? {
      assert table[0].agrees && table[1].agrees && table[2].agrees && table[3].agrees;
      assert table[4].agrees && table[5].agrees && table[6].agrees && table[7].agrees;
    }
  }

  function EnsureTask(r: Record, task: Task): (Record, Result<Task, Problem>) {
    var k := task.Identity();
    if !ValidTask(task) then (r, Err(InvalidTask))
    else if k !in r.tasks then (r.(tasks := r.tasks[k := task]), Ok(task))
    else
      match FirstMismatch(SameWork(r.tasks[k], task))
      case Some(field) => (r, Err(IdentityReused(field)))
      case None => (r, Ok(r.tasks[k]))
  }

  // ---- Opening an attempt ----------------------------------------------------------------

  /** How an open attempt ends when a replacement takes the task over. */
  function Replaced(a: Attempt, open: Open): Attempt {
    if !a.status.Open() then a
    else if open.at > a.expiresAt then
      a.(status := Expired, failureReason := REASON_DEADLINE_EXCEEDED, finishedAt := open.at, updatedAt := open.at)
    else
      a.(status := Superseded, failureReason := open.supersededReason, finishedAt := open.at, updatedAt := open.at)
  }

  function ReplaceOpen(atts: seq<Attempt>, open: Open): seq<Attempt> {
    seq(|atts|, i requires 0 <= i < |atts| => Replaced(atts[i], open))
  }

  function NewAttempt(task: Task, open: Open): Attempt {
    Attempt(open.scope, Derived(task.taskId, task.attempts), task.taskId, task.attempts, task.leaseEpoch,
            open.fence, open.unitId, Accepted, "", "", "", 0, 0, 0, open.expiresAt, open.at, open.at)
  }

  function OpenAttempt(r: Record, open: Open): (Record, Result<(Task, Attempt), Problem>) {
    var k := open.Identity();
    if !ValidReasonCode(open.supersededReason) then (r, Err(InvalidReason))
    else if k !in r.tasks then (r, Err(NoTask))
    else if r.tasks[k].status.Terminal() then
      (r, Err(TaskRefused))
    else
      var prior := r.tasks[k];
      var task := prior.(attempts := prior.attempts + 1, leaseEpoch := prior.leaseEpoch + 1,
                       updatedAt := open.at, expiresAt := open.expiresAt);
      var current := NewAttempt(task, open);
      (r.(tasks := r.tasks[k := task],
          attempts := r.attempts[k := ReplaceOpen(r.AttemptsOf(k), open) + [current]]),
       Ok((task, current)))
  }

  // ---- Addressing one attempt ------------------------------------------------------------

  /** Where a derived attempt identity lives: the task it was derived from, at its own number. */
  function Locate(r: Record, scope: Scope, id: AttemptId): Option<(Key, nat)> {
    if id.Foreign? then None
    else
      var k := Key(scope, id.taskId);
      if 1 <= id.number <= |r.AttemptsOf(k)| then Some((k, id.number - 1)) else None
  }

  function SetAttempt(r: Record, k: Key, i: nat, a: Attempt): (r': Record)
    requires k in r.attempts && i < |r.attempts[k]|
  {
    r.(attempts := r.attempts[k := r.attempts[k][i := a]])
  }

  function MarkAt(r: Record, k: Key, i: nat, at: Time): (Record, Result<(), Problem>)
    requires k in r.attempts && i < |r.attempts[k]|
  {
    var a := r.attempts[k][i];
    if a.status != Accepted then (r, Err(DispatchRefused))
    else
      var r1 := SetAttempt(r, k, i, a.(status := Running, dispatchedAt := at, startedAt := at, updatedAt := at));
      if k in r.tasks && r.tasks[k].status == Accepted
      then (r1.(tasks := r.tasks[k := r.tasks[k].(status := Running, updatedAt := at)]), Ok(()))
      else (r1, Ok(()))
  }

  function MarkDispatched(r: Record, scope: Scope, id: AttemptId, at: Time): (Record, Result<(), Problem>) {
    match Locate(r, scope, id)
    case None => (r, Err(NoAttempt))
    case Some((k, i)) => MarkAt(r, k, i, at)
  }

  function CloseAt(r: Record, k: Key, i: nat, reason: string, at: Time): (Record, Result<(), Problem>)
    requires k in r.attempts && i < |r.attempts[k]|
  {
    var a := r.attempts[k][i];
    if a.status.Terminal() then (r, Ok(()))
    else (SetAttempt(r, k, i, a.(status := Failed, failureReason := reason, finishedAt := at, updatedAt := at)), Ok(()))
  }

  function CloseAttempt(r: Record, scope: Scope, id: AttemptId, reason: string, at: Time): (Record, Result<(), Problem>) {
    if !ValidReasonCode(reason) then (r, Err(InvalidReason))
    else
      match Locate(r, scope, id)
      case None => (r, Err(NoAttempt))
      case Some((k, i)) => CloseAt(r, k, i, reason, at)
  }

  // ---- The fenced conditional commit -----------------------------------------------------

  function EvidenceOf(request: Settle, v: Verdict): Evidence {
    Evidence(request.scope, request.facts.taskId, request.runId, request.facts.attemptId,
             request.facts.number, request.facts.leaseEpoch, request.outcome.statementDigest,
             request.outcome.signatureKey, v.disposition, v.reason, request.outcome.observedAt)
  }

  function ExpireAttempt(a: Attempt, at: Time): Attempt {
    if a.status.Terminal() then a
    else a.(status := Expired, failureReason := REASON_DEADLINE_EXCEEDED, finishedAt := at, updatedAt := at)
  }

  function ExpireTask(t: Task, at: Time): Task {
    if at > t.expiresAt && !t.status.Terminal() then t.(status := Expired, updatedAt := at) else t
  }

  /** What an offered result makes of the record when it may not commit. */
  function Decline(r: Record, k: Key, i: nat, request: Settle, v: Verdict): Record
    requires k in r.tasks && k in r.attempts && i < |r.attempts[k]|
  {
    var noted := r.(evidence := r.evidence + [EvidenceOf(request, v)]);
    if !v.disposition.ExpiredResult? then noted
    else
      var at := request.outcome.observedAt;
      SetAttempt(noted, k, i, ExpireAttempt(r.attempts[k][i], at)).(tasks := r.tasks[k := ExpireTask(r.tasks[k], at)])
  }

  function RegistrationFor(task: Task, a: Attempt, o: Outcome): Registration {
    Registration(task.taskId, a.id, a.number, a.leaseEpoch, task.generation,
                 o.statementDigest, o.signatureKey, o.status, o.reasonCode, o.statement, o.observedAt)
  }

  function SettleAttempt(a: Attempt, o: Outcome): Attempt {
    a.(status := if o.failed then Failed else Succeeded,
       statementDigest := o.statementDigest, signatureKey := o.signatureKey,
       failureReason := if o.failed then o.reasonCode else a.failureReason,
       finishedAt := o.observedAt, updatedAt := o.observedAt)
  }

  /** A committed result closes its attempt; a successful one also settles the task and registers. */
  function Accept(r: Record, k: Key, i: nat, o: Outcome): Record
    requires k in r.tasks && k in r.attempts && i < |r.attempts[k]|
  {
    var a := SettleAttempt(r.attempts[k][i], o);
    var task := r.tasks[k].(updatedAt := o.observedAt);
    var r1 := SetAttempt(r, k, i, a);
    if o.failed then r1.(tasks := r.tasks[k := task])
    else r1.(tasks := r.tasks[k := task.(status := Succeeded)],
             results := r.results[k := RegistrationFor(task, a, o)])
  }

  function IndexOf(atts: seq<Attempt>, id: AttemptId): (i: Option<nat>)
    ensures i.None? <==> forall j | 0 <= j < |atts| :: atts[j].id != id
    ensures i.Some? ==> i.value < |atts| && atts[i.value].id == id && forall j | 0 <= j < i.value :: atts[j].id != id
  {
    if atts == [] then None
    else if atts[0].id == id then Some(0)
    else
      assert forall j | 1 <= j < |atts| :: atts[j] == atts[1..][j - 1];
      match IndexOf(atts[1..], id)
      case None => None
      case Some(i) => Some(i + 1)
  }

  const UNBOUND := Verdict(Unbound, NoSuchAttempt)

  function Commit(r: Record, request: Settle): (Record, Result<Settled, Problem>) {
    var k := request.Identity();
    if k !in r.tasks then (r, Err(NoTask))
    else
      match IndexOf(r.AttemptsOf(k), request.facts.attemptId)
      case None =>
        (r.(evidence := r.evidence + [EvidenceOf(request, UNBOUND)]), Ok(Settled(UNBOUND, r.tasks[k], None)))
      case Some(i) =>
        var v := Evaluate(r.tasks[k], r.attempts[k][i], r.RegistrationOf(k), request, request.outcome.observedAt);
        var r' := if v.disposition.Committed? then Accept(r, k, i, request.outcome) else Decline(r, k, i, request, v);
        (r', Ok(Settled(v, r'.tasks[k], Some(r'.attempts[k][i]))))
  }

  // ---- Cancelling a run ------------------------------------------------------------------

  function CancelAttempt(a: Attempt, reason: string, at: Time): Attempt {
    if a.status.Open() then a.(status := Canceled, failureReason := reason, finishedAt := at, updatedAt := at) else a
  }

  function CancelAttempts(atts: seq<Attempt>, reason: string, at: Time): seq<Attempt> {
    seq(|atts|, i requires 0 <= i < |atts| => CancelAttempt(atts[i], reason, at))
  }

  /** An open task of the run: the ones a cancellation reaches. */
  predicate Reached(r: Record, scope: Scope, runId: string, k: Key) {
    k in r.tasks && r.tasks[k].scope == scope && r.tasks[k].runId == runId && !r.tasks[k].status.Terminal()
  }

  predicate HasOpen(atts: seq<Attempt>) { exists i :: 0 <= i < |atts| && atts[i].status.Open() }

  /** The reached tasks that still have an open attempt. */
  function OpenWork(r: Record, scope: Scope, runId: string): set<Key> {
    set k | k in r.tasks && Reached(r, scope, runId, k) && HasOpen(r.AttemptsOf(k))
  }

  function AfterCancellation(r: Record, scope: Scope, runId: string, reason: string, at: Time): Record {
    r.(tasks := map k | k in r.tasks ::
         if Reached(r, scope, runId, k) then r.tasks[k].(status := Canceled, updatedAt := at) else r.tasks[k],
       attempts := map k | k in r.attempts ::
         if Reached(r, scope, runId, k) then CancelAttempts(r.attempts[k], reason, at) else r.attempts[k])
  }

  function CancelRun(r: Record, scope: Scope, runId: string, reason: string, at: Time): (Record, Result<nat, Problem>) {
    if !ValidReasonCode(reason) then (r, Err(InvalidReason))
    else (AfterCancellation(r, scope, runId, reason, at), Ok(|OpenWork(r, scope, runId)|))
  }

  // ---- The invariant ---------------------------------------------------------------------

  /** An attempt carries its position: number, lease epoch and identity all say the same thing. */
  predicate Numbered(k: Key, a: Attempt, n: nat) {
    a.number == n && a.leaseEpoch == n && a.id == Derived(k.id, n) && a.scope == k.scope && a.taskId == k.id
  }

  predicate Registers(g: Registration, task: Task, a: Attempt) {
    && g.taskId == task.taskId && g.attemptId == a.id && g.number == a.number && g.leaseEpoch == a.leaseEpoch
    && g.generation == task.generation
    && g.statementDigest == a.statementDigest && g.signatureKey == a.signatureKey
    && a.status == Succeeded
  }

  predicate TaskInv(k: Key, task: Task, atts: seq<Attempt>, g: Option<Registration>) {
    && task.Identity() == k
    && task.status != Superseded && task.status != Failed
    && task.attempts == task.leaseEpoch == |atts|
    && (forall i | 0 <= i < |atts| :: Numbered(k, atts[i], i + 1))
    && (forall i | 0 <= i < |atts| - 1 :: atts[i].status.Terminal())
    && (forall i | 0 <= i < |atts| :: atts[i].status == Succeeded ==> g.Some? && i == |atts| - 1)
    && (g.Some? <==> task.status == Succeeded)
    && (g.Some? ==> |atts| > 0 && Registers(g.value, task, atts[|atts| - 1]))
    && (task.status in {Succeeded, Canceled} ==> forall i | 0 <= i < |atts| :: atts[i].status.Terminal())
  }

  ghost predicate Inv(r: Record) {
    && r.attempts.Keys <= r.tasks.Keys
    && r.results.Keys <= r.tasks.Keys
    && forall k | k in r.tasks :: TaskInv(k, r.tasks[k], r.AttemptsOf(k), r.RegistrationOf(k))
  }

  /** The task a coordinator offers: accepted, and never current. */
  predicate Offered(t: Task) { t.status == Accepted && t.attempts == 0 && t.leaseEpoch == 0 }
}
