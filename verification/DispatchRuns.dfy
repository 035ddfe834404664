/**
 Every run of the dispatch record. A run is any sequence of repository
 operations; because each operation is one critical section, runs cover every
 interleaving of the coordinators that share the record, and every crash between
 two of their steps.
 */
module DispatchRuns {
  import opened Wrappers
  import opened Dispatch
  import opened DispatchRecord

  datatype Op =
    | Ensure(task: Task)
    | Start(open: Open)
    | Dispatched(scope: Scope, id: AttemptId, at: Time)
    | Close(scope: Scope, id: AttemptId, reason: string, at: Time)
    | Offer(request: Settle)
    | Cancel(scope: Scope, runId: string, reason: string, at: Time)
    | Note(evidence: Evidence)

  /** The coordinator only ever offers accepted, never-opened tasks. */
  predicate Coordinated(op: Op) { op.Ensure? ==> Offered(op.task) }

  function Apply(r: Record, op: Op): Record {
    match op
    case Ensure(task) => EnsureTask(r, task).0
    case Start(open) => OpenAttempt(r, open).0
    case Dispatched(scope, id, at) => MarkDispatched(r, scope, id, at).0
    case Close(scope, id, reason, at) => CloseAttempt(r, scope, id, reason, at).0
    case Offer(request) => Commit(r, request).0
    case Cancel(scope, runId, reason, at) => CancelRun(r, scope, runId, reason, at).0
    case Note(e) => r.(evidence := r.evidence + [e])
  }

  predicate AllCoordinated(ops: seq<Op>) { forall i | 0 <= i < |ops| :: Coordinated(ops[i]) }

  function Exec(r: Record, ops: seq<Op>): Record
    decreases |ops|
  {
    if ops == [] then r else Exec(Apply(r, ops[0]), ops[1..])
  }

  // ---- The invariant holds in every reachable record -------------------------------------

  predicate Untouched(r: Record, r': Record, j: Key) {
    && (j in r.tasks <==> j in r'.tasks) && (j in r.tasks ==> r'.tasks[j] == r.tasks[j])
    && r'.AttemptsOf(j) == r.AttemptsOf(j) && r'.RegistrationOf(j) == r.RegistrationOf(j)
  }

  /** A change to one task keeps the invariant when that task's own part of it is kept. */
  lemma OneTaskKeepsInv(r: Record, r': Record, k: Key)
    requires Inv(r) && k in r'.tasks && r'.attempts.Keys <= r'.tasks.Keys && r'.results.Keys <= r'.tasks.Keys
    requires forall j | j != k :: Untouched(r, r', j)
    requires TaskInv(k, r'.tasks[k], r'.AttemptsOf(k), r'.RegistrationOf(k))
    ensures Inv(r')
  {
    forall j | j in r'.tasks ensures TaskInv(j, r'.tasks[j], r'.AttemptsOf(j), r'.RegistrationOf(j)) {
      if j != k {
        assert Untouched(r, r', j);
        assert TaskInv(j, r.tasks[j], r.AttemptsOf(j), r.RegistrationOf(j));
      }
    }
  }

  lemma EnsureTouchesOneTask(r: Record, task: Task)
    ensures var r' := EnsureTask(r, task).0; var k := task.Identity();
            && (forall j | j != k :: Untouched(r, r', j))
            && (r' == r || (k !in r.tasks && k in r'.tasks && r'.tasks[k] == task && r'.attempts == r.attempts && r'.results == r.results
                            && r'.tasks.Keys == r.tasks.Keys + {k}))
  {
    hide SameWork, ValidTask;
  }

  lemma UnknownTasksHaveNothing(r: Record, k: Key)
    requires Inv(r) && k !in r.tasks
    ensures r.AttemptsOf(k) == [] && r.RegistrationOf(k) == None && r.attempts.Keys <= r.tasks.Keys && r.results.Keys <= r.tasks.Keys
  {}

  lemma OfferedKeepsTaskInv(task: Task)
    requires Offered(task)
    ensures TaskInv(task.Identity(), task, [], None)
  {}

  lemma EnsureKeepsInv(r: Record, task: Task)
    requires Inv(r) && Offered(task)
    ensures Inv(EnsureTask(r, task).0)
  {
    hide Inv, TaskInv, EnsureTask, Offered, Untouched;
    EnsureTouchesOneTask(r, task);
    var r', k := EnsureTask(r, task).0, task.Identity();
    if r' != r {
      UnknownTasksHaveNothing(r, k);
      OfferedKeepsTaskInv(task);
      OneTaskKeepsInv(r, r', k);
    }
  }

  lemma TaskOf(r: Record, k: Key)
    requires Inv(r) && k in r.tasks
    ensures TaskInv(k, r.tasks[k], r.AttemptsOf(k), r.RegistrationOf(k))
  {}

  /** Opening the next attempt of an open task keeps the task's part of the invariant. */
  lemma OpenedTaskKeepsTaskInv(k: Key, task: Task, atts: seq<Attempt>, g: Option<Registration>, open: Open)
    requires TaskInv(k, task, atts, g) && !task.status.Terminal() && open.Identity() == k
    ensures var next := task.(attempts := task.attempts + 1, leaseEpoch := task.leaseEpoch + 1, updatedAt := open.at, expiresAt := open.expiresAt);
            TaskInv(k, next, ReplaceOpen(atts, open) + [NewAttempt(next, open)], g)
  {
    var next := task.(attempts := task.attempts + 1, leaseEpoch := task.leaseEpoch + 1, updatedAt := open.at, expiresAt := open.expiresAt);
    var atts' := ReplaceOpen(atts, open) + [NewAttempt(next, open)];
    forall i | 0 <= i < |atts| ensures atts'[i] == Replaced(atts[i], open) {}
    assert atts'[|atts|] == NewAttempt(next, open);
  }

  lemma OpeningTouchesOneTask(r: Record, open: Open)
    requires OpenAttempt(r, open).1.Ok?
    ensures var r' := OpenAttempt(r, open).0;
            && (forall j | j != open.Identity() :: Untouched(r, r', j))
            && r'.tasks.Keys == r.tasks.Keys && r'.attempts.Keys == r.attempts.Keys + {open.Identity()} && r'.results == r.results
  {}

  lemma OpenKeepsInv(r: Record, open: Open)
    requires Inv(r)
    ensures Inv(OpenAttempt(r, open).0)
  {
    if OpenAttempt(r, open).1.Ok? {
      var k := open.Identity();
      TaskOf(r, k);
      OpenedTaskKeepsTaskInv(k, r.tasks[k], r.AttemptsOf(k), r.RegistrationOf(k), open);
      hide TaskInv, Untouched;
      OpeningTouchesOneTask(r, open);
      OneTaskKeepsInv(r, OpenAttempt(r, open).0, k);
    }
  }

  /** Rewriting one attempt, and the status of its task, keeps the invariant when the rewrite is a legal one. */
  lemma RewriteKeepsInv(r: Record, r': Record, k: Key, i: nat, a: Attempt)
    requires Inv(r) && k in r.tasks && k in r.attempts && i < |r.attempts[k]|
    requires r'.attempts == SetAttempt(r, k, i, a).attempts && r'.results == r.results
    requires r'.tasks.Keys == r.tasks.Keys && forall j | j in r.tasks && j != k :: r'.tasks[j] == r.tasks[j]
    requires TaskInv(k, r'.tasks[k], r.attempts[k][i := a], r'.RegistrationOf(k))
    ensures Inv(r')
  {
    hide TaskInv;
    forall j | j in r'.tasks ensures TaskInv(j, r'.tasks[j], r'.AttemptsOf(j), r'.RegistrationOf(j)) {
      if j != k { assert TaskInv(j, r.tasks[j], r.AttemptsOf(j), r.RegistrationOf(j)); }
    }
  }

  /** An open attempt may move to any other state but success, keeping everything that identifies it. */
  lemma MovedAttemptKeepsTaskInv(k: Key, task: Task, atts: seq<Attempt>, g: Option<Registration>, i: nat, a: Attempt)
    requires TaskInv(k, task, atts, g) && i < |atts| && atts[i].status.Open()
    requires Numbered(k, a, i + 1) && a.status != Succeeded
    ensures TaskInv(k, task, atts[i := a], g)
    ensures task.status.Open() || task.status == Expired
  {}

  /** A task in no final state may start running or expire. */
  lemma MovedTaskKeepsTaskInv(k: Key, task: Task, atts: seq<Attempt>, g: Option<Registration>, task': Task)
    requires TaskInv(k, task, atts, g) && task.status != Succeeded && task.status != Canceled
    requires task' == task.(status := task'.status, updatedAt := task'.updatedAt)
    requires task'.status in {Accepted, Running, Expired}
    ensures TaskInv(k, task', atts, g)
  {}

  lemma LocatedTask(r: Record, scope: Scope, id: AttemptId)
    requires Inv(r) && Locate(r, scope, id).Some?
    ensures var (k, i) := Locate(r, scope, id).value;
            k in r.tasks && k in r.attempts && i < |r.attempts[k]| && TaskInv(k, r.tasks[k], r.AttemptsOf(k), r.RegistrationOf(k))
  {
    TaskOf(r, Locate(r, scope, id).value.0);
  }

  lemma MarkKeepsInv(r: Record, scope: Scope, id: AttemptId, at: Time)
    requires Inv(r)
    ensures Inv(MarkDispatched(r, scope, id, at).0)
  {
    hide Inv, TaskInv;
    if Locate(r, scope, id).Some? {
      LocatedTask(r, scope, id);
      var (k, i) := Locate(r, scope, id).value;
      if r.attempts[k][i].status == Accepted {
        MarkedAttemptKeepsInv(r, MarkDispatched(r, scope, id, at).0, k, i, at);
      }
    }
  }

  function Started(a: Attempt, at: Time): Attempt { a.(status := Running, dispatchedAt := at, startedAt := at, updatedAt := at) }

  lemma StartedKeepsTaskInv(k: Key, task: Task, atts: seq<Attempt>, g: Option<Registration>, i: nat, at: Time)
    requires TaskInv(k, task, atts, g) && i < |atts| && atts[i].status == Accepted
    ensures TaskInv(k, if task.status == Accepted then task.(status := Running, updatedAt := at) else task, atts[i := Started(atts[i], at)], g)
  {
    var a := Started(atts[i], at);
    assert Numbered(k, a, i + 1);
    MovedAttemptKeepsTaskInv(k, task, atts, g, i, a);
    hide TaskInv, Numbered;
    if task.status == Accepted { MovedTaskKeepsTaskInv(k, task, atts[i := a], g, task.(status := Running, updatedAt := at)); }
  }

  lemma MarkedAttemptKeepsInv(r: Record, r': Record, k: Key, i: nat, at: Time)
    requires Inv(r) && k in r.tasks && k in r.attempts && i < |r.attempts[k]| && r.attempts[k][i].status == Accepted
    requires TaskInv(k, r.tasks[k], r.AttemptsOf(k), r.RegistrationOf(k))
    requires r'.attempts == SetAttempt(r, k, i, Started(r.attempts[k][i], at)).attempts && r'.results == r.results
    requires r'.tasks == r.tasks[k := if r.tasks[k].status == Accepted then r.tasks[k].(status := Running, updatedAt := at) else r.tasks[k]]
    ensures Inv(r')
  {
    hide TaskInv, Inv, Started;
    StartedKeepsTaskInv(k, r.tasks[k], r.AttemptsOf(k), r.RegistrationOf(k), i, at);
    RewriteKeepsInv(r, r', k, i, Started(r.attempts[k][i], at));
  }

  lemma CloseKeepsInv(r: Record, scope: Scope, id: AttemptId, reason: string, at: Time)
    requires Inv(r)
    ensures Inv(CloseAttempt(r, scope, id, reason, at).0)
  {
    hide Inv, TaskInv, ValidReasonCode;
    match Locate(r, scope, id)
    case None =>
    case Some((k, i)) =>
      LocatedTask(r, scope, id);
      NumberedAttempts(r, k);
      var a := r.attempts[k][i];
      assert Numbered(k, a, i + 1);
      var failed := a.(status := Failed, failureReason := reason, finishedAt := at, updatedAt := at);
      if CloseAttempt(r, scope, id, reason, at).0 != r {
        MovedAttemptKeepsTaskInv(k, r.tasks[k], r.AttemptsOf(k), r.RegistrationOf(k), i, failed);
        RewriteKeepsInv(r, CloseAttempt(r, scope, id, reason, at).0, k, i, failed);
      }
  }

  /** What the invariant says of the attempts of one task, without the rest. */
  lemma NumberedAttempts(r: Record, k: Key)
    requires Inv(r) && k in r.tasks
    ensures forall i | 0 <= i < |r.AttemptsOf(k)| :: Numbered(k, r.AttemptsOf(k)[i], i + 1)
  {
    TaskOf(r, k);
  }

  /** The attempt a result names is the one numbered by its identity. */
  lemma NamedAttempt(r: Record, k: Key, id: AttemptId)
    requires Inv(r) && k in r.tasks
    ensures match IndexOf(r.AttemptsOf(k), id)
            case Some(i) => id == Derived(k.id, i + 1)
            case None => forall n | 1 <= n <= |r.AttemptsOf(k)| :: id != Derived(k.id, n)
  {
    hide Inv, TaskInv;
    var atts := r.AttemptsOf(k);
    NumberedAttempts(r, k);
    match IndexOf(atts, id)
    case Some(i) => assert Numbered(k, atts[i], i + 1);
    case None =>
      forall n | 1 <= n <= |atts| ensures id != Derived(k.id, n) { assert Numbered(k, atts[n - 1], n); }
  }

  /** A result commits only through the last attempt of an open task. */
  lemma OnlyTheCurrentAttemptCommits(r: Record, request: Settle)
    requires Inv(r)
    requires var v := Commit(r, request).1; v.Ok? && v.value.verdict.disposition.Committed?
    ensures var k := request.Identity(); var n := |r.AttemptsOf(k)|;
            && k in r.tasks && n > 0
            && request.facts.attemptId == Derived(k.id, n)
            && request.facts.number == n && request.facts.leaseEpoch == n
            && DigestOf(request.facts.fenceToken) == r.AttemptsOf(k)[n - 1].fence
            && r.tasks[k].status.Open() && r.AttemptsOf(k)[n - 1].status.Open()
            && IndexOf(r.AttemptsOf(k), request.facts.attemptId) == Some(n - 1)
  {
    hide Inv, Decline, Accept, FirstMismatch, Comparisons;
    var k := request.Identity();
    NamedAttempt(r, k, request.facts.attemptId);
    TaskOf(r, k);
  }

  /** Committing the current attempt of an open task keeps the task's invariant, registering a success. */
  lemma AcceptedAttemptKeepsTaskInv(k: Key, task: Task, atts: seq<Attempt>, o: Outcome)
    requires TaskInv(k, task, atts, None) && |atts| > 0 && task.status.Open()
    ensures var n := |atts|; var a := SettleAttempt(atts[n - 1], o); var task' := task.(updatedAt := o.observedAt);
            if o.failed then TaskInv(k, task', atts[n - 1 := a], None)
            else TaskInv(k, task'.(status := Succeeded), atts[n - 1 := a], Some(RegistrationFor(task', a, o)))
  {}

  /** The accepted task, its attempts, and what is registered for it. */
  lemma AcceptedTask(r: Record, k: Key, i: nat, o: Outcome)
    requires k in r.tasks && k in r.attempts && i < |r.attempts[k]|
    ensures var r', a, task := Accept(r, k, i, o), SettleAttempt(r.attempts[k][i], o), r.tasks[k].(updatedAt := o.observedAt);
            && k in r'.tasks && r'.AttemptsOf(k) == r.AttemptsOf(k)[i := a]
            && r'.tasks[k] == (if o.failed then task else task.(status := Succeeded))
            && r'.RegistrationOf(k) == if o.failed then r.RegistrationOf(k) else Some(RegistrationFor(task, a, o))
  {}

  lemma AcceptingTouchesOneTask(r: Record, k: Key, i: nat, o: Outcome)
    requires k in r.tasks && k in r.attempts && i < |r.attempts[k]|
    ensures var r' := Accept(r, k, i, o);
            && (forall j | j != k :: Untouched(r, r', j))
            && r'.tasks.Keys == r.tasks.Keys && r'.attempts.Keys == r.attempts.Keys && r'.results.Keys <= r.results.Keys + {k}
  {}

  lemma OpenTasksRegisterNothing(k: Key, task: Task, atts: seq<Attempt>, g: Option<Registration>)
    requires TaskInv(k, task, atts, g) && task.status.Open()
    ensures g == None
  {}

  lemma AcceptedTaskInv(r: Record, k: Key, o: Outcome)
    requires Inv(r) && k in r.tasks && k in r.attempts && |r.attempts[k]| > 0 && r.tasks[k].status.Open()
    ensures var r' := Accept(r, k, |r.attempts[k]| - 1, o);
            k in r'.tasks && TaskInv(k, r'.tasks[k], r'.AttemptsOf(k), r'.RegistrationOf(k))
  {
    assert r.AttemptsOf(k) == r.attempts[k];
    hide *;
    TaskOf(r, k);
    OpenTasksRegisterNothing(k, r.tasks[k], r.AttemptsOf(k), r.RegistrationOf(k));
    AcceptedAttemptKeepsTaskInv(k, r.tasks[k], r.AttemptsOf(k), o);
    AcceptedTask(r, k, |r.attempts[k]| - 1, o);
  }

  lemma AcceptKeepsInv(r: Record, k: Key, o: Outcome)
    requires Inv(r) && k in r.tasks && |r.AttemptsOf(k)| > 0 && r.tasks[k].status.Open()
    ensures Inv(Accept(r, k, |r.AttemptsOf(k)| - 1, o))
  {
    assert k in r.attempts && r.AttemptsOf(k) == r.attempts[k] && r.attempts.Keys <= r.tasks.Keys && r.results.Keys <= r.tasks.Keys;
    hide *;
    AcceptedTaskInv(r, k, o);
    AcceptingTouchesOneTask(r, k, |r.attempts[k]| - 1, o);
    OneTaskKeepsInv(r, Accept(r, k, |r.attempts[k]| - 1, o), k);
  }

  /** A task and one of its attempts, both of which may expire, keep the task's part of the invariant. */
  lemma ExpiredKeepsTaskInv(k: Key, task: Task, atts: seq<Attempt>, g: Option<Registration>, i: nat, at: Time)
    requires TaskInv(k, task, atts, g) && i < |atts| && g.None? && task.status != Canceled
    ensures TaskInv(k, ExpireTask(task, at), atts[i := ExpireAttempt(atts[i], at)], g)
  {
    var a := ExpireAttempt(atts[i], at);
    if atts[i].status.Open() {
      assert Numbered(k, a, i + 1);
      MovedAttemptKeepsTaskInv(k, task, atts, g, i, a);
    } else {
      assert atts[i := a] == atts;
    }
    assert task.status != Succeeded;
    hide TaskInv;
    if ExpireTask(task, at) != task { MovedTaskKeepsTaskInv(k, task, atts[i := a], g, ExpireTask(task, at)); }
  }

  lemma DeclineKeepsInv(r: Record, k: Key, i: nat, request: Settle, v: Verdict)
    requires Inv(r) && k in r.tasks && k in r.attempts && i < |r.attempts[k]|
    requires v.disposition.ExpiredResult? ==> r.RegistrationOf(k).None? && r.tasks[k].status != Canceled
    ensures Inv(Decline(r, k, i, request, v))
  {
    hide TaskInv, Inv, ExpireTask, ExpireAttempt, EvidenceOf;
    if v.disposition.ExpiredResult? {
      TaskOf(r, k);
      ExpiredKeepsTaskInv(k, r.tasks[k], r.AttemptsOf(k), r.RegistrationOf(k), i, request.outcome.observedAt);
      RewriteKeepsInv(r, Decline(r, k, i, request, v), k, i, ExpireAttempt(r.attempts[k][i], request.outcome.observedAt));
    } else {
      NotingKeepsInv(r, EvidenceOf(request, v));
    }
  }

  lemma CommitKeepsInv(r: Record, request: Settle)
    requires Inv(r)
    ensures Inv(Commit(r, request).0)
  {
    hide Inv, Decline, Accept, EvidenceOf, Comparisons, FirstMismatch;
    var k := request.Identity();
    if k in r.tasks {
      match IndexOf(r.AttemptsOf(k), request.facts.attemptId)
      case None => NotingKeepsInv(r, EvidenceOf(request, UNBOUND));
      case Some(i) =>
        var v := Evaluate(r.tasks[k], r.attempts[k][i], r.RegistrationOf(k), request, request.outcome.observedAt);
        if v.disposition.Committed? {
          OnlyTheCurrentAttemptCommits(r, request);
          AcceptKeepsInv(r, k, request.outcome);
        } else {
          DeclineKeepsInv(r, k, i, request, v);
        }
    }
  }

  lemma NotingKeepsInv(r: Record, e: Evidence)
    requires Inv(r)
    ensures Inv(r.(evidence := r.evidence + [e]))
  {
    var r' := r.(evidence := r.evidence + [e]);
    forall k | k in r.tasks ensures TaskInv(k, r.tasks[k], r'.AttemptsOf(k), r'.RegistrationOf(k)) {
      assert TaskInv(k, r.tasks[k], r.AttemptsOf(k), r.RegistrationOf(k));
    }
  }

  lemma CanceledTaskKeepsTaskInv(k: Key, task: Task, atts: seq<Attempt>, g: Option<Registration>, reason: string, at: Time)
    requires TaskInv(k, task, atts, g) && task.status.Open()
    ensures TaskInv(k, task.(status := Canceled, updatedAt := at), CancelAttempts(atts, reason, at), g)
  {}

  lemma CancelKeepsInv(r: Record, scope: Scope, runId: string, reason: string, at: Time)
    requires Inv(r)
    ensures Inv(AfterCancellation(r, scope, runId, reason, at))
  {
    var r' := AfterCancellation(r, scope, runId, reason, at);
    forall j | j in r'.tasks ensures TaskInv(j, r'.tasks[j], r'.AttemptsOf(j), r'.RegistrationOf(j)) {
      assert TaskInv(j, r.tasks[j], r.AttemptsOf(j), r.RegistrationOf(j));
      if Reached(r, scope, runId, j) {
        CanceledTaskKeepsTaskInv(j, r.tasks[j], r.AttemptsOf(j), r.RegistrationOf(j), reason, at);
        assert r'.AttemptsOf(j) == CancelAttempts(r.AttemptsOf(j), reason, at);
      }
    }
  }

  lemma StepKeepsInv(r: Record, op: Op)
    requires Inv(r) && Coordinated(op)
    ensures Inv(Apply(r, op))
  {
    match op
    case Ensure(task) => EnsureKeepsInv(r, task);
    case Start(open) => OpenKeepsInv(r, open);
    case Dispatched(scope, id, at) => MarkKeepsInv(r, scope, id, at);
    case Close(scope, id, reason, at) => CloseKeepsInv(r, scope, id, reason, at);
    case Offer(request) => CommitKeepsInv(r, request);
    case Cancel(scope, runId, reason, at) => CancelKeepsInv(r, scope, runId, reason, at);
    case Note(e) => NotingKeepsInv(r, e);
  }

  lemma {:induction false} EveryRunKeepsInv(r: Record, ops: seq<Op>)
    requires Inv(r) && AllCoordinated(ops)
    ensures Inv(Exec(r, ops))
    decreases |ops|
  {
    if ops != [] {
      StepKeepsInv(r, ops[0]);
      EveryRunKeepsInv(Apply(r, ops[0]), ops[1..]);
    }
  }

  // ---- What no operation ever takes back -------------------------------------------------

  /** One attempt after another: identity and fence never change, and an ended attempt never changes at all. */
  predicate AttemptEvolves(a: Attempt, b: Attempt) {
    && b.id == a.id && b.number == a.number && b.leaseEpoch == a.leaseEpoch && b.fence == a.fence
    && (a.status.Terminal() ==> b == a)
  }

  predicate TaskEvolves(a: Task, b: Task) {
    && b.Identity() == a.Identity() && b.runId == a.runId && b.generation == a.generation && b.runtime == a.runtime
    && b.rootRunId == a.rootRunId && b.definitionDigest == a.definitionDigest && b.capability == a.capability && b.createdAt == a.createdAt
    && b.requestDigest == a.requestDigest && b.attempts >= a.attempts && b.leaseEpoch >= a.leaseEpoch
    && (a.status.Terminal() ==> b.status == a.status && b.attempts == a.attempts)
  }

  predicate Evolves(r: Record, r': Record, k: Key) {
    && (k in r.tasks ==> k in r'.tasks && TaskEvolves(r.tasks[k], r'.tasks[k]))
    && |r'.AttemptsOf(k)| >= |r.AttemptsOf(k)|
    && (forall i | 0 <= i < |r.AttemptsOf(k)| :: AttemptEvolves(r.AttemptsOf(k)[i], r'.AttemptsOf(k)[i]))
    && (k in r.results ==> k in r'.results && r'.results[k] == r.results[k])
    && r.evidence <= r'.evidence
  }

  lemma EvolvesToItself(r: Record, r': Record, k: Key)
    requires r'.tasks == r.tasks && r'.attempts == r.attempts && r'.results == r.results && r.evidence <= r'.evidence
    ensures Evolves(r, r', k)
  {}

  lemma AcceptEvolves(r: Record, j: Key, i: nat, o: Outcome, k: Key)
    requires j in r.tasks && j in r.attempts && i < |r.attempts[j]| && j !in r.results
    requires r.attempts[j][i].status.Open() && r.tasks[j].status.Open()
    ensures Evolves(r, Accept(r, j, i, o), k)
  {}

  lemma DeclineEvolves(r: Record, j: Key, i: nat, request: Settle, v: Verdict, k: Key)
    requires j in r.tasks && j in r.attempts && i < |r.attempts[j]|
    ensures Evolves(r, Decline(r, j, i, request, v), k)
  {}

  lemma CommitEvolves(r: Record, request: Settle, k: Key)
    requires Inv(r)
    ensures Evolves(r, Commit(r, request).0, k)
  {
    hide Inv, Decline, Accept, TaskEvolves, AttemptEvolves, EvidenceOf;
    var j := request.Identity();
    if j in r.tasks {
      match IndexOf(r.AttemptsOf(j), request.facts.attemptId)
      case None => EvolvesToItself(r, Commit(r, request).0, k);
      case Some(i) =>
        var v := Evaluate(r.tasks[j], r.attempts[j][i], r.RegistrationOf(j), request, request.outcome.observedAt);
        if v.disposition.Committed? {
          OnlyTheCurrentAttemptCommits(r, request);
          AcceptEvolves(r, j, i, request.outcome, k);
        } else {
          DeclineEvolves(r, j, i, request, v, k);
        }
    } else {
      EvolvesToItself(r, r, k);
    }
  }

  lemma ReplacedEvolves(atts: seq<Attempt>, open: Open, more: seq<Attempt>, i: nat)
    requires i < |atts|
    ensures AttemptEvolves(atts[i], (ReplaceOpen(atts, open) + more)[i])
  {
    assert (ReplaceOpen(atts, open) + more)[i] == Replaced(atts[i], open);
  }

  lemma OpenEvolves(r: Record, open: Open, k: Key)
    ensures Evolves(r, OpenAttempt(r, open).0, k)
  {
    var r' := OpenAttempt(r, open).0;
    if OpenAttempt(r, open).1.Ok? && k == open.Identity() {
      var last := [NewAttempt(r'.tasks[k], open)];
      assert r'.AttemptsOf(k) == ReplaceOpen(r.AttemptsOf(k), open) + last;
      hide ReplaceOpen, NewAttempt, AttemptEvolves;
      forall i | 0 <= i < |r.AttemptsOf(k)| ensures AttemptEvolves(r.AttemptsOf(k)[i], r'.AttemptsOf(k)[i]) {
        ReplacedEvolves(r.AttemptsOf(k), open, last, i);
      }
      assert |r'.AttemptsOf(k)| >= |r.AttemptsOf(k)| by { ReplaceOpenLength(r.AttemptsOf(k), open); }
    }
  }

  lemma ReplaceOpenLength(atts: seq<Attempt>, open: Open)
    ensures |ReplaceOpen(atts, open)| == |atts|
  {}

  lemma MarkEvolves(r: Record, scope: Scope, id: AttemptId, at: Time, k: Key)
    ensures Evolves(r, MarkDispatched(r, scope, id, at).0, k)
  {}

  lemma CloseEvolves(r: Record, scope: Scope, id: AttemptId, reason: string, at: Time, k: Key)
    ensures Evolves(r, CloseAttempt(r, scope, id, reason, at).0, k)
  {}

  lemma CancelEvolves(r: Record, scope: Scope, runId: string, reason: string, at: Time, k: Key)
    ensures Evolves(r, AfterCancellation(r, scope, runId, reason, at), k)
  {}

  lemma EnsureEvolves(r: Record, task: Task, k: Key)
    ensures Evolves(r, EnsureTask(r, task).0, k)
  {}

  lemma StepEvolves(r: Record, op: Op, k: Key)
    requires Inv(r) && Coordinated(op)
    ensures Evolves(r, Apply(r, op), k)
  {
    hide Inv, Commit, EnsureTask, OpenAttempt, MarkDispatched, CloseAttempt, AfterCancellation, TaskEvolves, AttemptEvolves;
    match op
    case Ensure(task) => EnsureEvolves(r, task, k);
    case Start(open) => OpenEvolves(r, open, k);
    case Dispatched(scope, id, at) => MarkEvolves(r, scope, id, at, k);
    case Close(scope, id, reason, at) => CloseEvolves(r, scope, id, reason, at, k);
    case Offer(request) => CommitEvolves(r, request, k);
    case Cancel(scope, runId, reason, at) =>
      CancelEvolves(r, scope, runId, reason, at, k);
      EvolvesToItself(r, r, k);
    case Note(e) => EvolvesToItself(r, r.(evidence := r.evidence + [e]), k);
  }

  lemma {:induction false} EveryRunEvolves(r: Record, ops: seq<Op>, k: Key)
    requires Inv(r) && AllCoordinated(ops)
    ensures Evolves(r, Exec(r, ops), k)
    decreases |ops|
  {
    if ops != [] {
      var r1, r' := Apply(r, ops[0]), Exec(r, ops);
      StepEvolves(r, ops[0], k);
      StepKeepsInv(r, ops[0]);
      EveryRunEvolves(r1, ops[1..], k);
      forall i | 0 <= i < |r.AttemptsOf(k)| ensures AttemptEvolves(r.AttemptsOf(k)[i], r'.AttemptsOf(k)[i]) {
        assert AttemptEvolves(r.AttemptsOf(k)[i], r1.AttemptsOf(k)[i]);
        assert AttemptEvolves(r1.AttemptsOf(k)[i], r'.AttemptsOf(k)[i]);
      }
    }
  }

  // ---- Settlement accounting -------------------------------------------------------------

  /** A committed settlement: one open attempt settled, no evidence, and a registration only for a success. */
  predicate CommittedOnce(r: Record, r': Record, request: Settle) {
    var k, n := request.Identity(), |r.AttemptsOf(request.Identity())|;
    && n > 0 && k in r.tasks && k in r'.tasks
    && r.AttemptsOf(k)[n - 1].status.Open()
    && r'.AttemptsOf(k) == r.AttemptsOf(k)[n - 1 := SettleAttempt(r.AttemptsOf(k)[n - 1], request.outcome)]
    && r'.evidence == r.evidence
    && (if request.outcome.failed then r'.results == r.results && r'.tasks[k].status == r.tasks[k].status
        else k !in r.results && k in r'.results && r'.tasks[k].status == Succeeded)
  }

  /** A declined settlement: one line of evidence, and nothing moved but an open attempt or task to expired. */
  predicate DeclinedOnce(r: Record, r': Record, request: Settle, v: Verdict) {
    var k := request.Identity();
    && k in r.tasks && k in r'.tasks
    && r'.evidence == r.evidence + [EvidenceOf(request, v)]
    && r'.results == r.results
    && |r'.AttemptsOf(k)| == |r.AttemptsOf(k)|
    && (r'.tasks[k] != r.tasks[k] ==>
          r.tasks[k].status.Open() && r'.tasks[k].status == Expired && request.outcome.observedAt > r.tasks[k].expiresAt)
    && (forall i | 0 <= i < |r.AttemptsOf(k)| && r'.AttemptsOf(k)[i] != r.AttemptsOf(k)[i] ::
          r.AttemptsOf(k)[i].status.Open() && r'.AttemptsOf(k)[i].status == Expired
          && r.AttemptsOf(k)[i].id == request.facts.attemptId)
  }

  lemma DeclineAccounting(r: Record, k: Key, i: nat, request: Settle, v: Verdict)
    requires k in r.tasks && k in r.attempts && i < |r.attempts[k]| && k == request.Identity()
    requires r.attempts[k][i].id == request.facts.attemptId
    ensures DeclinedOnce(r, Decline(r, k, i, request, v), request, v)
  {}

  /**
   Every settlement of a known task is accounted for: it either commits exactly one open attempt and
   adds no evidence, or adds exactly one line of evidence and moves nothing except the named
   attempt, and its task, from open to expired. No other task is touched.
   */
  lemma SettlementAccounting(r: Record, request: Settle)
    requires Inv(r) && request.Identity() in r.tasks
    ensures var (r', answer) := Commit(r, request);
            && answer.Ok?
            && (answer.value.verdict.disposition.Committed? ==> CommittedOnce(r, r', request))
            && (!answer.value.verdict.disposition.Committed? ==> DeclinedOnce(r, r', request, answer.value.verdict))
  {
    var k := request.Identity();
    match IndexOf(r.AttemptsOf(k), request.facts.attemptId)
    case None =>
    case Some(i) =>
      var v := Evaluate(r.tasks[k], r.attempts[k][i], r.RegistrationOf(k), request, request.outcome.observedAt);
      if v.disposition.Committed? { OnlyTheCurrentAttemptCommits(r, request); }
      else { DeclineAccounting(r, k, i, request, v); }
  }

  lemma SettlementTouchesOneTask(r: Record, request: Settle, j: Key)
    requires j != request.Identity()
    ensures Untouched(r, Commit(r, request).0, j)
  {
    hide Evaluate, IndexOf, RegistrationFor, SettleAttempt, EvidenceOf, ExpireAttempt, ExpireTask;
  }

  // ---- Fencing ---------------------------------------------------------------------------

  /** The operation commits attempt n of task k, successfully or as failed. */
  predicate CommitsAttempt(r: Record, op: Op, k: Key, n: nat) {
    && op.Offer? && op.request.Identity() == k && op.request.facts.attemptId == Derived(k.id, n)
    && var v := Commit(r, op.request).1; v.Ok? && v.value.verdict.disposition.Committed?
  }

  function Commits(r: Record, ops: seq<Op>, k: Key, n: nat): nat
    decreases |ops|
  {
    if ops == [] then 0
    else (if CommitsAttempt(r, ops[0], k, n) then 1 else 0) + Commits(Apply(r, ops[0]), ops[1..], k, n)
  }

  /** The commit of an attempt ends it. */
  lemma CommittedAttemptEnds(r: Record, op: Op, k: Key, n: nat)
    requires Inv(r) && CommitsAttempt(r, op, k, n)
    ensures 1 <= n == |r.AttemptsOf(k)| == |Apply(r, op).AttemptsOf(k)|
    ensures r.AttemptsOf(k)[n - 1].status.Open() && Apply(r, op).AttemptsOf(k)[n - 1].status.Terminal()
  {
    hide Inv, Commit, EvidenceOf;
    OnlyTheCurrentAttemptCommits(r, op.request);
    SettlementAccounting(r, op.request);
  }

  lemma EndedAttemptStays(r: Record, op: Op, k: Key, n: nat)
    requires Inv(r) && Coordinated(op) && 1 <= n <= |r.AttemptsOf(k)| && r.AttemptsOf(k)[n - 1].status.Terminal()
    ensures n <= |Apply(r, op).AttemptsOf(k)| && Apply(r, op).AttemptsOf(k)[n - 1] == r.AttemptsOf(k)[n - 1]
  {
    hide Inv, Apply, Coordinated, TaskEvolves;
    StepEvolves(r, op, k);
    assert AttemptEvolves(r.AttemptsOf(k)[n - 1], Apply(r, op).AttemptsOf(k)[n - 1]);
  }

  /** An attempt that ended, by whatever means, is never committed again. */
  lemma {:induction false} EndedAttemptsStayUncommitted(r: Record, ops: seq<Op>, k: Key, n: nat)
    requires Inv(r) && AllCoordinated(ops)
    requires 1 <= n <= |r.AttemptsOf(k)| && r.AttemptsOf(k)[n - 1].status.Terminal()
    ensures Commits(r, ops, k, n) == 0
    decreases |ops|
  {
    hide Inv, Apply, CommitsAttempt, Coordinated;
    if ops != [] {
      if CommitsAttempt(r, ops[0], k, n) { CommittedAttemptEnds(r, ops[0], k, n); }
      EndedAttemptStays(r, ops[0], k, n);
      StepKeepsInv(r, ops[0]);
      EndedAttemptsStayUncommitted(Apply(r, ops[0]), ops[1..], k, n);
    }
  }

  lemma EarlierHasEnded(r: Record, k: Key, m: nat)
    requires Inv(r) && 1 <= m < |r.AttemptsOf(k)|
    ensures k in r.tasks && r.AttemptsOf(k)[m - 1].status.Terminal()
  {
    if k in r.tasks { TaskOf(r, k); }
  }

  /** A result naming an earlier attempt, or carrying its number or epoch, does not commit. */
  lemma LateResultIsDeclined(r: Record, late: Settle, m: nat)
    requires Inv(r) && late.Identity() in r.tasks && m < |r.AttemptsOf(late.Identity())|
    requires late.facts.attemptId == Derived(late.Identity().id, m) || late.facts.number == m || late.facts.leaseEpoch == m
    ensures var v := Commit(r, late).1; v.Ok? && !v.value.verdict.disposition.Committed?
  {
    hide Inv, Evaluate, Accept, Decline;
    if Commit(r, late).1.value.verdict.disposition.Committed? { OnlyTheCurrentAttemptCommits(r, late); }
  }

  /**
   Fencing, over all runs: once attempt m has been followed by another, no interleaving of
   operations lets a result naming m commit, nor a result carrying m's number or lease epoch,
   and m's own row never changes again.
   */
  lemma Fencing(r: Record, ops: seq<Op>, k: Key, m: nat, late: Settle)
    requires Inv(r) && AllCoordinated(ops)
    requires 1 <= m < |r.AttemptsOf(k)|
    requires late.Identity() == k
    requires late.facts.attemptId == Derived(k.id, m) || late.facts.number == m || late.facts.leaseEpoch == m
    ensures Commits(r, ops, k, m) == 0
    ensures |Exec(r, ops).AttemptsOf(k)| >= |r.AttemptsOf(k)|
    ensures Exec(r, ops).AttemptsOf(k)[m - 1] == r.AttemptsOf(k)[m - 1]
    ensures var v := Commit(Exec(r, ops), late).1; v.Ok? && !v.value.verdict.disposition.Committed?
  {
    var r' := Exec(r, ops);
    EarlierHasEnded(r, k, m);
    hide Inv, Exec, TaskEvolves, Commit;
    EveryRunKeepsInv(r, ops);
    EveryRunEvolves(r, ops, k);
    assert AttemptEvolves(r.AttemptsOf(k)[m - 1], r'.AttemptsOf(k)[m - 1]);
    EndedAttemptsStayUncommitted(r, ops, k, m);
    LateResultIsDeclined(r', late, m);
  }

  /** No attempt is ever committed twice. */
  lemma {:induction false} AtMostOneCommitPerAttempt(r: Record, ops: seq<Op>, k: Key, n: nat)
    requires Inv(r) && AllCoordinated(ops)
    ensures Commits(r, ops, k, n) <= 1
    decreases |ops|
  {
    if ops != [] {
      hide Inv, Apply, CommitsAttempt;
      StepKeepsInv(r, ops[0]);
      if CommitsAttempt(r, ops[0], k, n) {
        CommittedAttemptEnds(r, ops[0], k, n);
        EndedAttemptsStayUncommitted(Apply(r, ops[0]), ops[1..], k, n);
      } else {
        AtMostOneCommitPerAttempt(Apply(r, ops[0]), ops[1..], k, n);
      }
    }
  }

  /**
   Opening makes the new attempt, and only it, current: it carries the next number and epoch and the
   offered fence, and every earlier attempt of the task has ended.
   */
  lemma OpeningSupersedes(r: Record, open: Open)
    requires Inv(r) && OpenAttempt(r, open).1.Ok?
    ensures var (r', current) := OpenAttempt(r, open); var (task, attempt) := current.value;
            var k := open.Identity(); var n := |r.AttemptsOf(k)| + 1;
            && |r'.AttemptsOf(k)| == n && r'.AttemptsOf(k)[n - 1] == attempt && k in r'.tasks && r'.tasks[k] == task && task.updatedAt == open.at
            && attempt.number == attempt.leaseEpoch == task.attempts == task.leaseEpoch == n
            && attempt.id == Derived(k.id, n) && attempt.fence == open.fence && attempt.status == Accepted
            && attempt.expiresAt == task.expiresAt == open.expiresAt
            && forall i | 0 <= i < n - 1 :: r'.AttemptsOf(k)[i].status.Terminal()
  {
    var k := open.Identity();
    OpenKeepsInv(r, open);
    assert TaskInv(k, r.tasks[k], r.AttemptsOf(k), r.RegistrationOf(k));
    var r' := OpenAttempt(r, open).0;
    assert TaskInv(k, r'.tasks[k], r'.AttemptsOf(k), r'.RegistrationOf(k));
  }

  // ---- One registered result -------------------------------------------------------------

  /** The operation commits a successful outcome of task k. */
  predicate RegistersResult(r: Record, op: Op, k: Key) {
    && op.Offer? && op.request.Identity() == k && !op.request.outcome.failed
    && var v := Commit(r, op.request).1; v.Ok? && v.value.verdict.disposition.Committed?
  }

  function Successes(r: Record, ops: seq<Op>, k: Key): nat
    decreases |ops|
  {
    if ops == [] then 0
    else (if RegistersResult(r, ops[0], k) then 1 else 0) + Successes(Apply(r, ops[0]), ops[1..], k)
  }

  lemma OfferRegisters(r: Record, request: Settle, k: Key)
    requires Inv(r)
    ensures k in Commit(r, request).0.results <==> k in r.results || RegistersResult(r, Offer(request), k)
    ensures k in r.results ==> !RegistersResult(r, Offer(request), k)
  {
    if k != request.Identity() {
      SettlementTouchesOneTask(r, request, k);
      hide Commit;
    } else if k in r.tasks {
      TaskOf(r, k);
      SettlementAccounting(r, request);
      hide TaskInv, Commit, EvidenceOf, SettleAttempt;
    }
  }

  lemma RegistersExactlyThere(r: Record, op: Op, k: Key)
    requires Inv(r) && Coordinated(op)
    ensures k in Apply(r, op).results <==> k in r.results || RegistersResult(r, op, k)
    ensures k in r.results ==> !RegistersResult(r, op, k)
  {
    hide Inv, Commit, RegistersResult;
    if op.Offer? { OfferRegisters(r, op.request, k); } else { OthersRegisterNothing(r, op, k); }
  }

  lemma OthersRegisterNothing(r: Record, op: Op, k: Key)
    requires !op.Offer?
    ensures Apply(r, op).results == r.results && !RegistersResult(r, op, k)
  {
    hide Commit, SameWork, Locate, ValidReasonCode;
  }

  /**
   A task has at most one registered result, ever; a run registers one exactly when it commits
   a success, and it never changes afterwards.
   */
  lemma {:induction false} SingleRegisteredResult(r: Record, ops: seq<Op>, k: Key)
    requires Inv(r) && AllCoordinated(ops)
    ensures Successes(r, ops, k) == (if k in Exec(r, ops).results && k !in r.results then 1 else 0)
    ensures k in r.results ==> Exec(r, ops).RegistrationOf(k) == r.RegistrationOf(k)
    ensures k in Exec(r, ops).tasks ==> (k in Exec(r, ops).results <==> Exec(r, ops).tasks[k].status == Succeeded)
    decreases |ops|
  {
    EveryRunKeepsInv(r, ops);
    EveryRunEvolves(r, ops, k);
    var r' := Exec(r, ops);
    if k in r'.tasks { assert TaskInv(k, r'.tasks[k], r'.AttemptsOf(k), r'.RegistrationOf(k)); }
    if ops != [] {
      StepKeepsInv(r, ops[0]);
      RegistersExactlyThere(r, ops[0], k);
      SingleRegisteredResult(Apply(r, ops[0]), ops[1..], k);
    }
  }

  /** What is registered is what the last attempt of the succeeded task committed. */
  lemma RegistrationMatchesLastAttempt(r: Record, ops: seq<Op>, k: Key)
    requires Inv(r) && AllCoordinated(ops)
    requires k in Exec(r, ops).results
    ensures var r' := Exec(r, ops); var n := |r'.AttemptsOf(k)|; var g := r'.results[k];
            && k in r'.tasks && n > 0 && g.number == g.leaseEpoch == n && g.attemptId == Derived(k.id, n)
            && r'.tasks[k].status == Succeeded && r'.tasks[k].attempts == n
            && r'.AttemptsOf(k)[n - 1].status == Succeeded
            && r'.AttemptsOf(k)[n - 1].statementDigest == g.statementDigest
            && g.generation == r'.tasks[k].generation
  {
    EveryRunKeepsInv(r, ops);
    var r' := Exec(r, ops);
    assert TaskInv(k, r'.tasks[k], r'.AttemptsOf(k), r'.RegistrationOf(k));
    assert Numbered(k, r'.AttemptsOf(k)[|r'.AttemptsOf(k)| - 1], |r'.AttemptsOf(k)|);
  }

  /** The record stays as it was but for one more line of evidence. */
  predicate OnlyEvidenceAdded(r: Record, r': Record, request: Settle, v: Verdict) {
    && r'.tasks == r.tasks && r'.attempts == r.attempts && r'.results == r.results
    && r'.evidence == r.evidence + [EvidenceOf(request, v)]
  }

  /** A result offered for the attempt whose statement is registered is a duplicate of it. */
  lemma RegisteredIsDuplicate(r: Record, again: Settle)
    requires var k := again.Identity();
             && k in r.tasks && k in r.attempts && k in r.results && IndexOf(r.AttemptsOf(k), again.facts.attemptId).Some?
             && r.results[k].attemptId == again.facts.attemptId && r.results[k].statementDigest == again.outcome.statementDigest
    ensures var answer := Commit(r, again);
            && answer.1.Ok? && answer.1.value.verdict.disposition == Duplicate
            && OnlyEvidenceAdded(r, answer.0, again, answer.1.value.verdict)
  {}

  /** What a successful commit registers, and under which attempt. */
  lemma CommitRegisters(r: Record, first: Settle)
    requires Inv(r) && !first.outcome.failed
    requires var v := Commit(r, first).1; v.Ok? && v.value.verdict.disposition.Committed?
    ensures var k, r1 := first.Identity(), Commit(r, first).0;
            && k in r1.tasks && k in r1.results && |r1.AttemptsOf(k)| > 0 && first.facts.attemptId == Derived(k.id, |r1.AttemptsOf(k)|)
            && r1.results[k].attemptId == first.facts.attemptId && r1.results[k].statementDigest == first.outcome.statementDigest
  {
    OnlyTheCurrentAttemptCommits(r, first);
    TaskOf(r, first.Identity());
    var k := first.Identity();
    assert Numbered(k, r.AttemptsOf(k)[|r.AttemptsOf(k)| - 1], |r.AttemptsOf(k)|);
    hide TaskInv, Inv;
  }

  /** Redelivering the committed statement is a duplicate and changes no task, attempt or result. */
  lemma RedeliveryIsIdempotent(r: Record, first: Settle, again: Settle, ops: seq<Op>)
    requires Inv(r) && AllCoordinated(ops)
    requires var v := Commit(r, first).1; v.Ok? && v.value.verdict.disposition.Committed?
    requires !first.outcome.failed
    requires again.Identity() == first.Identity() && again.facts.attemptId == first.facts.attemptId
    requires again.outcome.statementDigest == first.outcome.statementDigest
    ensures var r' := Exec(Commit(r, first).0, ops); var answer := Commit(r', again);
            && answer.1.Ok? && answer.1.value.verdict.disposition == Duplicate
            && OnlyEvidenceAdded(r', answer.0, again, answer.1.value.verdict)
  {
    var k := first.Identity();
    var r1 := Commit(r, first).0;
    var r' := Exec(r1, ops);
    CommitRegisters(r, first);
    CommitKeepsInv(r, first);
    EveryRunKeepsInv(r1, ops);
    EveryRunEvolves(r1, ops, k);
    NamedAttempt(r', k, again.facts.attemptId);
    hide Commit, Exec, Inv, OnlyEvidenceAdded;
    RegisteredIsDuplicate(r', again);
  }

  // ---- An expired task may keep an open attempt ------------------------------------------

  predicate HasOpenAttempt(r: Record, k: Key) {
    |r.AttemptsOf(k)| > 0 && r.AttemptsOf(k)[|r.AttemptsOf(k)| - 1].status.Open()
  }

  lemma ExpiryTouchesOneAttempt(r: Record, k: Key, i: nat, request: Settle, v: Verdict)
    requires k in r.tasks && k in r.attempts && i < |r.attempts[k]| && v.disposition.ExpiredResult?
    ensures HasOpenAttempt(Decline(r, k, i, request, v), k) <==> HasOpenAttempt(r, k) && i != |r.attempts[k]| - 1
  {}

  /**
   A settlement that expires an open task leaves an execution open exactly when the task had one
   and the result names an earlier attempt than the current one.
   */
  lemma ExpiryLeavesAnOpenAttempt(r: Record, request: Settle)
    requires Inv(r) && request.Identity() in r.tasks && r.tasks[request.Identity()].status.Open()
    requires Commit(r, request).0.tasks[request.Identity()].status == Expired
    ensures var k := request.Identity();
            HasOpenAttempt(Commit(r, request).0, k) <==>
            HasOpenAttempt(r, k) && request.facts.attemptId != Derived(k.id, |r.AttemptsOf(k)|)
  {
    hide Inv, EvidenceOf, SettleAttempt, RegistrationFor;
    var k := request.Identity();
    NamedAttempt(r, k, request.facts.attemptId);
    match IndexOf(r.AttemptsOf(k), request.facts.attemptId)
    case None =>
    case Some(i) =>
      var v := Evaluate(r.tasks[k], r.attempts[k][i], r.RegistrationOf(k), request, request.outcome.observedAt);
      if v.disposition.Committed? { OnlyTheCurrentAttemptCommits(r, request); }
      else { ExpiryTouchesOneAttempt(r, k, i, request, v); }
  }

  /** The result names an attempt of the task before its current one, and that attempt's lease ran out. */
  predicate NamesLapsedEarlier(r: Record, k: Key, id: AttemptId) {
    exists m | 1 <= m < |r.AttemptsOf(k)| :: id == Derived(k.id, m) && r.AttemptsOf(k)[m - 1].status == Expired
  }

  /** A result for an attempt that ended is late, unless the attempt had lapsed: then it is for an expired one. */
  lemma EndedAttemptVerdict(task: Task, attempt: Attempt, request: Settle, now: Time)
    requires task.status.Open() && attempt.status.Terminal()
    ensures var v := Evaluate(task, attempt, None, request, now);
            !v.disposition.Committed? && (v.disposition.ExpiredResult? <==> attempt.status == Expired)
  {
    hide FirstMismatch, Comparisons, Committable;
  }

  lemma EarlierAttemptsEnded(r: Record, k: Key)
    requires Inv(r) && k in r.tasks && r.tasks[k].status.Open()
    ensures k !in r.results && forall i | 0 <= i < |r.AttemptsOf(k)| - 1 :: r.AttemptsOf(k)[i].status.Terminal()
  {
    TaskOf(r, k);
  }

  /** An earlier attempt has ended, so a result for it expires its open task exactly when it had lapsed and the deadline is past. */
  lemma EarlierAttemptExpiresTaskIff(r: Record, request: Settle)
    requires Inv(r) && request.Identity() in r.tasks && r.tasks[request.Identity()].status.Open()
    requires request.facts.attemptId != Derived(request.Identity().id, |r.AttemptsOf(request.Identity())|)
    ensures var k := request.Identity();
            && k in Commit(r, request).0.tasks
            && (Commit(r, request).0.tasks[k].status == Expired <==>
                NamesLapsedEarlier(r, k, request.facts.attemptId) && request.outcome.observedAt > r.tasks[k].expiresAt)
  {
    hide Inv, Evaluate;
    var k := request.Identity();
    NamedAttempt(r, k, request.facts.attemptId);
    EarlierAttemptsEnded(r, k);
    match IndexOf(r.AttemptsOf(k), request.facts.attemptId)
    case None =>
    case Some(i) =>
      assert i < |r.AttemptsOf(k)| - 1;
      EndedAttemptVerdict(r.tasks[k], r.attempts[k][i], request, request.outcome.observedAt);
      assert NamesLapsedEarlier(r, k, request.facts.attemptId) <==> r.attempts[k][i].status == Expired;
  }

  /** A terminal task with an open attempt is an expired one. */
  lemma OpenAttemptMeansExpired(r: Record, k: Key)
    requires Inv(r) && k in r.tasks && r.tasks[k].status.Terminal() && HasOpenAttempt(r, k)
    ensures r.tasks[k].status == Expired
  {
    assert TaskInv(k, r.tasks[k], r.AttemptsOf(k), r.RegistrationOf(k));
  }

  lemma CommitKeepsTask(r: Record, request: Settle)
    requires request.Identity() in r.tasks
    ensures request.Identity() in Commit(r, request).0.tasks
  {}

  /**
   Exactly when a settlement leaves a terminal task with an open attempt: the open task has one, and
   the result, observed after the task's deadline, is for an earlier attempt that had lapsed.
   */
  lemma OpenAttemptOutlivesTaskIff(r: Record, request: Settle)
    requires Inv(r) && request.Identity() in r.tasks && r.tasks[request.Identity()].status.Open()
    ensures var k := request.Identity(); var r' := Commit(r, request).0;
            && k in r'.tasks
            && (r'.tasks[k].status.Terminal() && HasOpenAttempt(r', k) <==>
                && HasOpenAttempt(r, k) && NamesLapsedEarlier(r, k, request.facts.attemptId)
                && request.outcome.observedAt > r.tasks[k].expiresAt)
  {
    var k, r' := request.Identity(), Commit(r, request).0;
    CommitKeepsInv(r, request);
    CommitKeepsTask(r, request);
    hide Inv, Commit, HasOpenAttempt;
    if r'.tasks[k].status.Terminal() && HasOpenAttempt(r', k) { OpenAttemptMeansExpired(r', k); }
    if r'.tasks[k].status == Expired { ExpiryLeavesAnOpenAttempt(r, request); }
    if request.facts.attemptId != Derived(k.id, |r.AttemptsOf(k)|) { EarlierAttemptExpiresTaskIff(r, request); }
    else { assert !NamesLapsedEarlier(r, k, request.facts.attemptId); }
  }

  /** In every reachable record a terminal task with an open attempt is an expired one. */
  lemma TerminalTasksWithOpenAttemptsExpired(r: Record, ops: seq<Op>, k: Key)
    requires Inv(r) && AllCoordinated(ops)
    requires k in Exec(r, ops).tasks && Exec(r, ops).tasks[k].status.Terminal()
    ensures HasOpenAttempt(Exec(r, ops), k) ==> Exec(r, ops).tasks[k].status == Expired
  {
    EveryRunKeepsInv(r, ops);
    if HasOpenAttempt(Exec(r, ops), k) { OpenAttemptMeansExpired(Exec(r, ops), k); }
  }

  lemma DeclinedTask(r: Record, k: Key, i: nat, request: Settle, v: Verdict)
    requires k in r.tasks && k in r.attempts && i < |r.attempts[k]| && v.disposition.ExpiredResult?
    ensures var r' := Decline(r, k, i, request, v); k in r'.tasks && r'.tasks[k] == ExpireTask(r.tasks[k], request.outcome.observedAt)
  {}

  /** A result for a lapsed earlier attempt, later than the task's deadline, expires the task and nothing else. */
  lemma LateResultExpiresTheTask(r: Record, late: Settle, m: nat)
    requires Inv(r) && late.Identity() in r.tasks && r.tasks[late.Identity()].status.Open()
    requires 1 <= m < |r.AttemptsOf(late.Identity())| && late.facts.attemptId == Derived(late.Identity().id, m)
    requires r.AttemptsOf(late.Identity())[m - 1].status == Expired
    requires late.outcome.observedAt > r.tasks[late.Identity()].expiresAt
    ensures var k := late.Identity(); var r' := Commit(r, late).0;
            k in r'.tasks && r'.tasks[k].status == Expired && (HasOpenAttempt(r', k) <==> HasOpenAttempt(r, k))
  {
    hide Inv, Evaluate, Decline;
    var k := late.Identity();
    NamedAttempt(r, k, late.facts.attemptId);
    EarlierAttemptsEnded(r, k);
    EndedAttemptVerdict(r.tasks[k], r.attempts[k][m - 1], late, late.outcome.observedAt);
    DeclinedTask(r, k, m - 1, late, Evaluate(r.tasks[k], r.attempts[k][m - 1], None, late, late.outcome.observedAt));
    var v := Evaluate(r.tasks[k], r.attempts[k][m - 1], None, late, late.outcome.observedAt);
    ExpiryTouchesOneAttempt(r, k, m - 1, late, v);
  }

  lemma NothingKeepsInv()
    ensures Inv(EMPTY)
  {}

  /**
   So "a terminal task has no open attempt" is false of the record: for any task a coordinator may
   offer and any one lease, a late result for its lapsed first attempt expires it under its open second one.
   */
  lemma ExpiredTaskWithAnOpenAttempt(t: Task, lease: nat, first: Open, second: Open, late: Settle)
    requires ValidTask(t) && Offered(t)
    requires first.Identity() == second.Identity() == late.Identity() == t.Identity()
    requires ValidReasonCode(first.supersededReason) && ValidReasonCode(second.supersededReason)
    requires first.expiresAt == first.at + lease && second.expiresAt == second.at + lease
    requires first.expiresAt < second.at && second.expiresAt < late.outcome.observedAt && late.facts.attemptId == Derived(t.taskId, 1)
    ensures var r := Commit(OpenAttempt(OpenAttempt(EnsureTask(EMPTY, t).0, first).0, second).0, late).0;
            && t.Identity() in r.tasks && r.tasks[t.Identity()].status == Expired && HasOpenAttempt(r, t.Identity())
  {
    hide Inv, Commit;
    NothingKeepsInv();
    var k := t.Identity();
    var r0 := EnsureTask(EMPTY, t).0;
    EnsureKeepsInv(EMPTY, t);
    var r1 := OpenAttempt(r0, first).0;
    OpenKeepsInv(r0, first);
    OpenAppends(r0, first);
    var r2 := OpenAttempt(r1, second).0;
    OpenKeepsInv(r1, second);
    OpenAppends(r1, second);
    LateResultExpiresTheTask(r2, late, 1);
  }

  /** An accepted opening appends one attempt, ending every earlier one. */
  lemma OpenAppends(r: Record, open: Open)
    requires OpenAttempt(r, open).1.Ok?
    ensures var k := open.Identity(); var r' := OpenAttempt(r, open).0; var n := |r.AttemptsOf(k)|;
            && k in r'.tasks && r'.tasks[k].expiresAt == open.expiresAt && r'.tasks[k].status == r.tasks[k].status
            && |r'.AttemptsOf(k)| == n + 1
            && r'.AttemptsOf(k)[n] == OpenAttempt(r, open).1.value.1 && r'.AttemptsOf(k)[n].status == Accepted
            && r'.AttemptsOf(k)[n].expiresAt == open.expiresAt
            && forall i | 0 <= i < n :: r'.AttemptsOf(k)[i] == Replaced(r.AttemptsOf(k)[i], open)
  {}
}
