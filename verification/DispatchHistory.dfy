/**
 Where everything on the dispatch record comes from: whatever operations a run
 was made of, each row says what some of them wrote there, and nothing else.
 */
module DispatchHistory {
  import opened Wrappers
  import opened Dispatch
  import opened DispatchRecord
  import opened DispatchRuns

  // ---- What the operations of a run tell of one attempt ----------------------------------

  /** The n-th attempt of the task, as this operation opened it. */
  predicate OpenedBy(a: Attempt, k: Key, n: nat, o: Open) {
    && o.Identity() == k && a.scope == k.scope && a.taskId == k.id && a.id == Derived(k.id, n) && a.number == a.leaseEpoch == n
    && a.fence == o.fence && a.unitId == o.unitId && a.expiresAt == o.expiresAt && a.createdAt == o.at
  }

  predicate EndedAt(a: Attempt, reason: string, at: Time) { a.failureReason == reason && a.finishedAt == a.updatedAt == at }

  predicate NothingOffered(a: Attempt) { a.statementDigest == "" && a.signatureKey == "" }

  predicate Unfinished(a: Attempt) { NothingOffered(a) && a.failureReason == "" && a.finishedAt == 0 }

  /** The attempt carries the result that was offered for it, observed within its lease. */
  predicate OfferedBy(a: Attempt, k: Key, s: Settle) {
    && s.Identity() == k && s.facts.attemptId == a.id && s.outcome.observedAt <= a.expiresAt
    && a.statementDigest == s.outcome.statementDigest && a.signatureKey == s.outcome.signatureKey
    && a.finishedAt == a.updatedAt == s.outcome.observedAt
  }

  /** Some result for the task was observed after the attempt's lease. */
  ghost predicate SeenLate(done: seq<Op>, k: Key, a: Attempt) {
    exists s :: Offer(s) in done && s.Identity() == k && s.outcome.observedAt > a.expiresAt
  }

  /** An attempt expires when a replacement or a result finds it past its lease, or its task expired. */
  ghost predicate ExpiryTold(done: seq<Op>, k: Key, a: Attempt) {
    || (exists o :: Start(o) in done && o.Identity() == k && EndedAt(a, REASON_DEADLINE_EXCEEDED, o.at) && o.at > a.expiresAt)
    || (SeenLate(done, k, a)
        && exists s :: Offer(s) in done && s.Identity() == k && s.facts.attemptId == a.id && EndedAt(a, REASON_DEADLINE_EXCEEDED, s.outcome.observedAt))
  }

  /** Why the attempt stands where it does. */
  ghost predicate StandingTold(done: seq<Op>, k: Key, runId: string, a: Attempt) {
    match a.status
    case Accepted => Unfinished(a) && a.dispatchedAt == 0 && a.updatedAt == a.createdAt
    case Running => Unfinished(a) && a.updatedAt == a.dispatchedAt && Dispatched(k.scope, a.id, a.dispatchedAt) in done
    case Superseded =>
      NothingOffered(a) && exists o :: Start(o) in done && o.Identity() == k && EndedAt(a, o.supersededReason, o.at) && o.at <= a.expiresAt
    case Expired => NothingOffered(a) && ExpiryTold(done, k, a)
    case Canceled => NothingOffered(a) && Cancel(k.scope, runId, a.failureReason, a.finishedAt) in done && a.updatedAt == a.finishedAt
    case Failed =>
      || (NothingOffered(a) && Close(k.scope, a.id, a.failureReason, a.finishedAt) in done && a.updatedAt == a.finishedAt)
      || (exists s :: Offer(s) in done && s.outcome.failed && a.failureReason == s.outcome.reasonCode && OfferedBy(a, k, s))
    case Succeeded => a.failureReason == "" && exists s :: Offer(s) in done && !s.outcome.failed && OfferedBy(a, k, s)
  }

  predicate DispatchTold(done: seq<Op>, k: Key, a: Attempt) {
    a.startedAt == a.dispatchedAt && (a.dispatchedAt == 0 || Dispatched(k.scope, a.id, a.dispatchedAt) in done)
  }

  ghost predicate AttemptTold(done: seq<Op>, k: Key, runId: string, n: nat, a: Attempt) {
    (exists o :: Start(o) in done && OpenedBy(a, k, n, o)) && DispatchTold(done, k, a) && StandingTold(done, k, runId, a)
  }

  // ---- What they tell of a task, a registration and a line of evidence -------------------

  /** The task is the one that was ensured, but for what happens to it. */
  predicate EnsuredBy(t: Task, e: Task) {
    && t.scope == e.scope && t.taskId == e.taskId && t.runId == e.runId && t.rootRunId == e.rootRunId && t.generation == e.generation
    && t.definitionDigest == e.definitionDigest && t.runtime == e.runtime && t.capability == e.capability
    && t.requestDigest == e.requestDigest && t.createdAt == e.createdAt
  }

  /** Why the task stands where it does. */
  ghost predicate TaskStandingTold(done: seq<Op>, k: Key, t: Task) {
    match t.status
    case Running => exists id, at :: Dispatched(k.scope, id, at) in done && id.Derived? && id.taskId == k.id
    case Canceled => exists reason :: Cancel(k.scope, t.runId, reason, t.updatedAt) in done
    case Expired => exists s :: Offer(s) in done && s.Identity() == k && t.updatedAt == s.outcome.observedAt > t.expiresAt
    case _ => true
  }

  /** The task's deadline is that of its current attempt, or the one it was ensured with. */
  ghost predicate TaskTold(done: seq<Op>, k: Key, t: Task, atts: seq<Attempt>) {
    && (exists e :: Ensure(e) in done && EnsuredBy(t, e) && t.expiresAt == if atts == [] then e.expiresAt else atts[|atts| - 1].expiresAt)
    && TaskStandingTold(done, k, t)
  }

  /** Everything registered is what the result said, and says of which attempt. */
  predicate RegisteredBy(g: Registration, s: Settle) {
    && g.taskId == s.facts.taskId && g.attemptId == s.facts.attemptId && g.number == s.facts.number
    && g.leaseEpoch == s.facts.leaseEpoch && g.generation == s.facts.generation
    && g.statement == s.outcome.statement && g.status == s.outcome.status && g.reasonCode == s.outcome.reasonCode
    && g.statementDigest == s.outcome.statementDigest && g.signatureKey == s.outcome.signatureKey && g.committedAt == s.outcome.observedAt
  }

  ghost predicate RegistrationTold(done: seq<Op>, k: Key, g: Registration) {
    exists s :: Offer(s) in done && s.Identity() == k && !s.outcome.failed && RegisteredBy(g, s)
  }

  /** A line of evidence names the result that changed nothing, and what was made of it. */
  predicate WrittenFor(e: Evidence, s: Settle) {
    && e.scope == s.scope && e.taskId == s.facts.taskId && e.runId == s.runId && e.attemptId == s.facts.attemptId
    && e.number == s.facts.number && e.leaseEpoch == s.facts.leaseEpoch && e.statementDigest == s.outcome.statementDigest
    && e.signatureKey == s.outcome.signatureKey && e.recordedAt == s.outcome.observedAt && !e.disposition.Committed?
  }

  ghost predicate EvidenceTold(done: seq<Op>, e: Evidence) { Note(e) in done || exists s :: Offer(s) in done && WrittenFor(e, s) }

  ghost predicate RowsTold(r: Record, done: seq<Op>, k: Key) {
    k in r.tasks ==>
      && TaskTold(done, k, r.tasks[k], r.AttemptsOf(k))
      && (forall i | 0 <= i < |r.AttemptsOf(k)| :: AttemptTold(done, k, r.tasks[k].runId, i + 1, r.AttemptsOf(k)[i]))
      && (k in r.results ==> RegistrationTold(done, k, r.results[k]))
  }

  ghost predicate Told(r: Record, done: seq<Op>) {
    (forall k | k in r.tasks :: RowsTold(r, done, k)) && (forall i | 0 <= i < |r.evidence| :: EvidenceTold(done, r.evidence[i]))
  }

  // ---- One operation more ----------------------------------------------------------------

  lemma InMore(done: seq<Op>, op: Op)
    ensures forall x :: x in done + [op] <==> x in done || x == op
  {}

  lemma AttemptStaysTold(done: seq<Op>, op: Op, k: Key, runId: string, n: nat, a: Attempt)
    requires AttemptTold(done, k, runId, n, a)
    ensures AttemptTold(done + [op], k, runId, n, a)
  {
    InMore(done, op);
  }

  lemma TaskStaysTold(done: seq<Op>, op: Op, k: Key, t: Task, atts: seq<Attempt>)
    requires TaskTold(done, k, t, atts)
    ensures TaskTold(done + [op], k, t, atts)
  {
    InMore(done, op);
  }

  lemma RegistrationStaysTold(done: seq<Op>, op: Op, k: Key, g: Registration)
    requires RegistrationTold(done, k, g)
    ensures RegistrationTold(done + [op], k, g)
  {
    InMore(done, op);
  }

  /** A task an operation does not touch. */
  lemma UntouchedStaysTold(r: Record, r': Record, done: seq<Op>, op: Op, k: Key)
    requires RowsTold(r, done, k) && Untouched(r, r', k)
    ensures RowsTold(r', done + [op], k)
  {
    if k in r'.tasks {
      var atts := r.AttemptsOf(k);
      hide AttemptTold, TaskTold, RegistrationTold;
      TaskStaysTold(done, op, k, r.tasks[k], atts);
      forall i | 0 <= i < |atts| ensures AttemptTold(done + [op], k, r.tasks[k].runId, i + 1, atts[i]) {
        AttemptStaysTold(done, op, k, r.tasks[k].runId, i + 1, atts[i]);
      }
      if k in r.results { RegistrationStaysTold(done, op, k, r.results[k]); }
      assert k in r'.results ==> r'.RegistrationOf(k) == r.RegistrationOf(k);
    }
  }

  // ---- What each operation writes on an attempt ------------------------------------------

  lemma NewIsTold(done: seq<Op>, k: Key, runId: string, task: Task, o: Open)
    requires Start(o) in done && o.Identity() == k && task.taskId == k.id && task.attempts == task.leaseEpoch
    ensures AttemptTold(done, k, runId, task.attempts, NewAttempt(task, o))
  {
    assert OpenedBy(NewAttempt(task, o), k, task.attempts, o);
  }

  /** Only what happens to an attempt has changed. */
  predicate SameOpening(a: Attempt, b: Attempt) {
    && b.scope == a.scope && b.id == a.id && b.taskId == a.taskId && b.number == a.number && b.leaseEpoch == a.leaseEpoch
    && b.fence == a.fence && b.unitId == a.unitId && b.expiresAt == a.expiresAt && b.createdAt == a.createdAt
  }

  lemma StillOpenedBy(done: seq<Op>, k: Key, n: nat, a: Attempt, b: Attempt)
    requires (exists o :: Start(o) in done && OpenedBy(a, k, n, o)) && SameOpening(a, b)
    ensures exists o :: Start(o) in done && OpenedBy(b, k, n, o)
  {
    var o :| Start(o) in done && OpenedBy(a, k, n, o);
    assert OpenedBy(b, k, n, o);
  }

  /** An open attempt that has ended, without another dispatch mark. */
  lemma EndedIsTold(done: seq<Op>, k: Key, runId: string, n: nat, a: Attempt, b: Attempt)
    requires AttemptTold(done, k, runId, n, a) && SameOpening(a, b) && b.dispatchedAt == a.dispatchedAt && b.startedAt == a.startedAt
    requires StandingTold(done, k, runId, b)
    ensures AttemptTold(done, k, runId, n, b)
  {
    hide OpenedBy, SameOpening, StandingTold;
    StillOpenedBy(done, k, n, a, b);
    assert DispatchTold(done, k, b) by { hide SameOpening; assert b.id == a.id by { SameIds(a, b); } }
  }

  lemma SameIds(a: Attempt, b: Attempt)
    requires SameOpening(a, b)
    ensures b.id == a.id
  {}

  lemma OpenIsUnfinished(done: seq<Op>, k: Key, runId: string, n: nat, a: Attempt)
    requires AttemptTold(done, k, runId, n, a) && a.status.Open()
    ensures Unfinished(a) && a.id == Derived(k.id, n) && a.scope == k.scope
  {}

  lemma ReplacedIsTold(done: seq<Op>, k: Key, runId: string, n: nat, a: Attempt, o: Open)
    requires AttemptTold(done, k, runId, n, a) && Start(o) in done && o.Identity() == k
    ensures AttemptTold(done, k, runId, n, Replaced(a, o))
  {
    if a.status.Open() {
      OpenIsUnfinished(done, k, runId, n, a);
      var b := Replaced(a, o);
      hide AttemptTold;
      assert StandingTold(done, k, runId, b) by {
        if o.at > a.expiresAt { assert EndedAt(b, REASON_DEADLINE_EXCEEDED, o.at); } else { assert EndedAt(b, o.supersededReason, o.at); }
      }
      EndedIsTold(done, k, runId, n, a, b);
    }
  }

  lemma StartedIsTold(done: seq<Op>, k: Key, runId: string, n: nat, a: Attempt, at: Time)
    requires AttemptTold(done, k, runId, n, a) && a.status == Accepted && Dispatched(k.scope, Derived(k.id, n), at) in done
    ensures AttemptTold(done, k, runId, n, Started(a, at))
  {
    OpenIsUnfinished(done, k, runId, n, a);
    hide OpenedBy;
    assert exists o :: Start(o) in done && OpenedBy(Started(a, at), k, n, o) by { StillOpenedBy(done, k, n, a, Started(a, at)); }
  }

  lemma ClosedIsTold(done: seq<Op>, k: Key, runId: string, n: nat, a: Attempt, reason: string, at: Time)
    requires AttemptTold(done, k, runId, n, a) && a.status.Open() && Close(k.scope, Derived(k.id, n), reason, at) in done
    ensures AttemptTold(done, k, runId, n, a.(status := Failed, failureReason := reason, finishedAt := at, updatedAt := at))
  {
    OpenIsUnfinished(done, k, runId, n, a);
    hide AttemptTold;
    EndedIsTold(done, k, runId, n, a, a.(status := Failed, failureReason := reason, finishedAt := at, updatedAt := at));
  }

  lemma CanceledIsTold(done: seq<Op>, k: Key, runId: string, n: nat, a: Attempt, reason: string, at: Time)
    requires AttemptTold(done, k, runId, n, a) && Cancel(k.scope, runId, reason, at) in done
    ensures AttemptTold(done, k, runId, n, CancelAttempt(a, reason, at))
  {
    if a.status.Open() {
      OpenIsUnfinished(done, k, runId, n, a);
      hide AttemptTold;
      EndedIsTold(done, k, runId, n, a, CancelAttempt(a, reason, at));
    }
  }

  lemma ExpiredIsTold(done: seq<Op>, k: Key, runId: string, n: nat, a: Attempt, s: Settle)
    requires AttemptTold(done, k, runId, n, a) && Offer(s) in done && s.Identity() == k && s.facts.attemptId == a.id
    requires a.status.Open() ==> SeenLate(done, k, a)
    ensures AttemptTold(done, k, runId, n, ExpireAttempt(a, s.outcome.observedAt))
  {
    if a.status.Open() {
      OpenIsUnfinished(done, k, runId, n, a);
      var b := ExpireAttempt(a, s.outcome.observedAt);
      hide AttemptTold;
      assert ExpiryTold(done, k, b) by {
        assert SeenLate(done, k, b);
        assert EndedAt(b, REASON_DEADLINE_EXCEEDED, s.outcome.observedAt);
      }
      EndedIsTold(done, k, runId, n, a, b);
    }
  }

  lemma SettledIsTold(done: seq<Op>, k: Key, runId: string, n: nat, a: Attempt, s: Settle)
    requires AttemptTold(done, k, runId, n, a) && a.status.Open() && Offer(s) in done && s.Identity() == k && s.facts.attemptId == a.id
    requires s.outcome.observedAt <= a.expiresAt
    ensures AttemptTold(done, k, runId, n, SettleAttempt(a, s.outcome))
  {
    OpenIsUnfinished(done, k, runId, n, a);
    var b := SettleAttempt(a, s.outcome);
    hide AttemptTold;
    assert OfferedBy(b, k, s);
    EndedIsTold(done, k, runId, n, a, b);
  }

  // ---- What each operation writes on the rows of its task --------------------------------

  lemma RowsByParts(r: Record, done: seq<Op>, k: Key)
    requires k in r.tasks && TaskTold(done, k, r.tasks[k], r.AttemptsOf(k))
    requires forall i | 0 <= i < |r.AttemptsOf(k)| :: AttemptTold(done, k, r.tasks[k].runId, i + 1, r.AttemptsOf(k)[i])
    requires k in r.results ==> RegistrationTold(done, k, r.results[k])
    ensures RowsTold(r, done, k)
  {}

  lemma TaskOfRows(r: Record, done: seq<Op>, k: Key)
    requires RowsTold(r, done, k) && k in r.tasks
    ensures TaskTold(done, k, r.tasks[k], r.AttemptsOf(k)) && (k in r.results ==> RegistrationTold(done, k, r.results[k]))
  {}

  lemma AttemptOfRows(r: Record, done: seq<Op>, k: Key, i: nat)
    requires RowsTold(r, done, k) && k in r.tasks && i < |r.AttemptsOf(k)|
    ensures AttemptTold(done, k, r.tasks[k].runId, i + 1, r.AttemptsOf(k)[i])
  {}

  /** The same rows, with one more operation to tell of them. */
  lemma RowsStayTold(r: Record, done: seq<Op>, op: Op, k: Key)
    requires RowsTold(r, done, k)
    ensures RowsTold(r, done + [op], k)
  {
    hide RowsTold;
    UntouchedStaysTold(r, r, done, op, k);
  }

  lemma EnsuredIsTold(r: Record, done: seq<Op>, task: Task)
    requires Inv(r) && Offered(task) && task.Identity() !in r.tasks && Ensure(task) in done
    ensures RowsTold(r.(tasks := r.tasks[task.Identity() := task]), done, task.Identity())
  {
    UnknownTasksHaveNothing(r, task.Identity());
    var r' := r.(tasks := r.tasks[task.Identity() := task]);
    assert r'.AttemptsOf(task.Identity()) == [];
    assert EnsuredBy(task, task);
  }

  lemma NextTaskIsTold(done: seq<Op>, k: Key, t: Task, t': Task, atts: seq<Attempt>, atts': seq<Attempt>)
    requires TaskTold(done, k, t, atts) && TaskStandingTold(done, k, t') && EnsuredBy(t', t)
    requires atts' != [] && t'.expiresAt == atts'[|atts'| - 1].expiresAt
    ensures TaskTold(done, k, t', atts')
  {
    var e :| Ensure(e) in done && EnsuredBy(t, e);
    assert EnsuredBy(t', e);
  }

  /** An open task's standing says nothing that a change of its times could contradict. */
  lemma OpenStandingIsTold(done: seq<Op>, k: Key, t: Task, t': Task)
    requires TaskStandingTold(done, k, t) && t.status.Open() && t'.status == t.status
    ensures TaskStandingTold(done, k, t')
  {}

  /** What an accepted opening makes of its task and its attempts. */
  lemma StartEffect(r: Record, o: Open)
    requires Inv(r) && OpenAttempt(r, o).1.Ok?
    ensures var k, r' := o.Identity(), OpenAttempt(r, o).0; var n := |r.AttemptsOf(k)|;
            && k in r.tasks && k in r'.tasks && r.tasks[k].status.Open() && r'.tasks[k].status == r.tasks[k].status && EnsuredBy(r'.tasks[k], r.tasks[k])
            && r'.tasks[k].runId == r.tasks[k].runId && r'.tasks[k].taskId == k.id && r'.tasks[k].expiresAt == o.expiresAt
            && r'.tasks[k].attempts == r'.tasks[k].leaseEpoch == n + 1 && |r'.AttemptsOf(k)| == n + 1
            && r'.AttemptsOf(k)[n] == NewAttempt(r'.tasks[k], o) && r'.RegistrationOf(k) == r.RegistrationOf(k)
            && forall i | 0 <= i < n :: r'.AttemptsOf(k)[i] == Replaced(r.AttemptsOf(k)[i], o)
  {
    hide Inv, TaskInv, Replaced, NewAttempt, ValidReasonCode;
    var k := o.Identity();
    TaskCounts(r, k);
    var r' := OpenAttempt(r, o).0;
    assert r'.AttemptsOf(k) == ReplaceOpen(r.AttemptsOf(k), o) + [NewAttempt(r'.tasks[k], o)];
  }

  lemma TaskCounts(r: Record, k: Key)
    requires Inv(r) && k in r.tasks
    ensures r.tasks[k].Identity() == k && r.tasks[k].attempts == r.tasks[k].leaseEpoch == |r.AttemptsOf(k)|
  {
    TaskOf(r, k);
  }

  lemma NewLease(t: Task, o: Open)
    ensures NewAttempt(t, o).expiresAt == o.expiresAt
  {}

  lemma StartIsTold(r: Record, done: seq<Op>, o: Open)
    requires Inv(r) && RowsTold(r, done, o.Identity()) && OpenAttempt(r, o).1.Ok? && Start(o) in done
    ensures RowsTold(OpenAttempt(r, o).0, done, o.Identity())
  {
    hide Inv, RowsTold, AttemptTold, TaskTold, RegistrationTold, NewAttempt, Replaced, EnsuredBy, OpenAttempt;
    var k, r' := o.Identity(), OpenAttempt(r, o).0;
    StartEffect(r, o);
    var atts, atts', t, t' := r.AttemptsOf(k), r'.AttemptsOf(k), r.tasks[k], r'.tasks[k];
    TaskOfRows(r, done, k);
    NewIsTold(done, k, t.runId, t', o);
    NewLease(t', o);
    forall i | 0 <= i < |atts'| ensures AttemptTold(done, k, t.runId, i + 1, atts'[i]) {
      if i < |atts| {
        AttemptOfRows(r, done, k, i);
        ReplacedIsTold(done, k, t.runId, i + 1, atts[i], o);
      }
    }
    OpenTaskAt(done, k, t, t', atts, atts');
    assert r'.RegistrationOf(k) == r.RegistrationOf(k);
    RowsByParts(r', done, k);
  }

  /** The task of an attempt that has just been opened. */
  lemma OpenTaskAt(done: seq<Op>, k: Key, t: Task, t': Task, atts: seq<Attempt>, atts': seq<Attempt>)
    requires TaskTold(done, k, t, atts) && t.status.Open() && t'.status == t.status && EnsuredBy(t', t)
    requires atts' != [] && t'.expiresAt == atts'[|atts'| - 1].expiresAt
    ensures TaskTold(done, k, t', atts')
  {
    OpenStandingIsTold(done, k, t, t');
    hide TaskStandingTold;
    NextTaskIsTold(done, k, t, t', atts, atts');
  }

  /** One attempt rewritten, and its task moved with the deadline it had. */
  lemma RewriteIsTold(r: Record, r': Record, done: seq<Op>, k: Key, i: nat, a: Attempt, t': Task)
    requires RowsTold(r, done, k) && k in r.tasks && k in r.attempts && i < |r.attempts[k]|
    requires r'.attempts == r.attempts[k := r.attempts[k][i := a]] && k in r'.tasks && r'.tasks[k] == t' && r'.RegistrationOf(k) == r.RegistrationOf(k)
    requires AttemptTold(done, k, r.tasks[k].runId, i + 1, a) && a.expiresAt == r.attempts[k][i].expiresAt
    requires EnsuredBy(t', r.tasks[k]) && t'.expiresAt == r.tasks[k].expiresAt && TaskStandingTold(done, k, t')
    ensures RowsTold(r', done, k)
  {
    hide AttemptTold, TaskStandingTold, EnsuredBy, RegistrationTold;
    var atts, t := r.attempts[k], r.tasks[k];
    assert r'.AttemptsOf(k) == atts[i := a] && r.AttemptsOf(k) == atts;
    var atts' := atts[i := a];
    forall j | 0 <= j < |atts| ensures AttemptTold(done, k, t.runId, j + 1, atts'[j]) { AttemptOfRows(r, done, k, j); }
    TaskOfRows(r, done, k);
    assert TaskTold(done, k, t', atts[i := a]) by { MovedTaskIsTold(done, k, t, t', atts, atts[i := a]); }
    assert t'.runId == t.runId by { SameRun(t', t); }
    assert k in r'.results <==> k in r.results;
    hide RowsTold, TaskTold;
    RowsByParts(r', done, k);
  }

  lemma SameRun(t': Task, t: Task)
    requires EnsuredBy(t', t)
    ensures t'.runId == t.runId
  {}

  lemma MovedTaskIsTold(done: seq<Op>, k: Key, t: Task, t': Task, atts: seq<Attempt>, atts': seq<Attempt>)
    requires TaskTold(done, k, t, atts) && EnsuredBy(t', t) && t'.expiresAt == t.expiresAt && TaskStandingTold(done, k, t')
    requires |atts'| == |atts| && (atts != [] ==> atts'[|atts| - 1].expiresAt == atts[|atts| - 1].expiresAt)
    ensures TaskTold(done, k, t', atts')
  {
    var e :| Ensure(e) in done && EnsuredBy(t, e) && t.expiresAt == if atts == [] then e.expiresAt else atts[|atts| - 1].expiresAt;
    assert EnsuredBy(t', e);
  }

  lemma EnsuredByItself(t: Task, t': Task)
    requires t' == t.(status := t'.status, updatedAt := t'.updatedAt)
    ensures EnsuredBy(t', t) && t'.expiresAt == t.expiresAt
  {}

  lemma LocatedKey(r: Record, scope: Scope, id: AttemptId)
    requires Inv(r) && Locate(r, scope, id).Some?
    ensures var (k, i) := Locate(r, scope, id).value;
            k in r.tasks && k in r.attempts && i < |r.attempts[k]| && k.scope == scope && id == Derived(k.id, i + 1) && r.AttemptsOf(k) == r.attempts[k]
  {
    hide TaskInv;
  }

  /** What a dispatch mark leaves of the task it reaches. */
  function MarkedTask(t: Task, at: Time): Task { if t.status == Accepted then t.(status := Running, updatedAt := at) else t }

  lemma MarkEffect(r: Record, scope: Scope, id: AttemptId, at: Time)
    requires Inv(r) && Locate(r, scope, id).Some?
    ensures var (k, i) := Locate(r, scope, id).value; var r' := MarkDispatched(r, scope, id, at).0;
            && k in r.attempts && i < |r.attempts[k]| && k in r.tasks
            && (r.attempts[k][i].status != Accepted ==> r' == r)
            && (r.attempts[k][i].status == Accepted ==>
                  && r'.attempts == r.attempts[k := r.attempts[k][i := Started(r.attempts[k][i], at)]]
                  && k in r'.tasks && r'.tasks[k] == MarkedTask(r.tasks[k], at) && r'.RegistrationOf(k) == r.RegistrationOf(k))
  {
    LocatedKey(r, scope, id);
    hide Inv, Locate;
  }

  lemma MarkedTaskStands(done: seq<Op>, k: Key, t: Task, id: AttemptId, at: Time)
    requires TaskStandingTold(done, k, t) && Dispatched(k.scope, id, at) in done && id.Derived? && id.taskId == k.id
    ensures TaskStandingTold(done, k, MarkedTask(t, at)) && EnsuredBy(MarkedTask(t, at), t) && MarkedTask(t, at).expiresAt == t.expiresAt
  {}

  lemma TaskStands(r: Record, done: seq<Op>, k: Key)
    requires RowsTold(r, done, k) && k in r.tasks
    ensures TaskStandingTold(done, k, r.tasks[k])
  {
    hide TaskStandingTold, AttemptTold, RegistrationTold;
  }

  lemma MarkIsTold(r: Record, done: seq<Op>, scope: Scope, id: AttemptId, at: Time)
    requires Inv(r) && Locate(r, scope, id).Some? && RowsTold(r, done, Locate(r, scope, id).value.0) && Dispatched(scope, id, at) in done
    ensures RowsTold(MarkDispatched(r, scope, id, at).0, done, Locate(r, scope, id).value.0)
  {
    hide Inv, Locate, RowsTold, AttemptTold, TaskTold, TaskStandingTold, MarkDispatched, EnsuredBy, MarkedTask, Started;
    var (k, i) := Locate(r, scope, id).value;
    var r' := MarkDispatched(r, scope, id, at).0;
    LocatedKey(r, scope, id);
    MarkEffect(r, scope, id, at);
    var a, t := r.attempts[k][i], r.tasks[k];
    if a.status == Accepted {
      TaskStands(r, done, k);
      MarkedTaskStands(done, k, t, id, at);
      AttemptOfRows(r, done, k, i);
      StartedIsTold(done, k, t.runId, i + 1, a, at);
      assert Started(a, at).expiresAt == a.expiresAt by { StartedLease(a, at); }
      RewriteIsTold(r, r', done, k, i, Started(a, at), MarkedTask(t, at));
    }
  }

  lemma StartedLease(a: Attempt, at: Time)
    ensures Started(a, at).expiresAt == a.expiresAt
  {}

  lemma CloseEffect(r: Record, scope: Scope, id: AttemptId, reason: string, at: Time)
    requires Inv(r) && Locate(r, scope, id).Some?
    ensures var (k, i) := Locate(r, scope, id).value; var r' := CloseAttempt(r, scope, id, reason, at).0;
            && k in r.attempts && i < |r.attempts[k]| && k in r.tasks
            && var a := r.attempts[k][i];
               r' == r || (a.status.Open() && r' == SetAttempt(r, k, i, a.(status := Failed, failureReason := reason, finishedAt := at, updatedAt := at)))
  {
    LocatedKey(r, scope, id);
    hide Inv, Locate, ValidReasonCode;
  }

  lemma CloseIsTold(r: Record, done: seq<Op>, scope: Scope, id: AttemptId, reason: string, at: Time)
    requires Inv(r) && Locate(r, scope, id).Some? && RowsTold(r, done, Locate(r, scope, id).value.0) && Close(scope, id, reason, at) in done
    ensures RowsTold(CloseAttempt(r, scope, id, reason, at).0, done, Locate(r, scope, id).value.0)
  {
    hide Inv, Locate, RowsTold, AttemptTold, TaskTold, TaskStandingTold, CloseAttempt;
    var (k, i) := Locate(r, scope, id).value;
    var r' := CloseAttempt(r, scope, id, reason, at).0;
    LocatedKey(r, scope, id);
    CloseEffect(r, scope, id, reason, at);
    var a, t := r.attempts[k][i], r.tasks[k];
    if r' != r {
      TaskStands(r, done, k);
      AttemptOfRows(r, done, k, i);
      EnsuredByItself(t, t);
      ClosedIsTold(done, k, t.runId, i + 1, a, reason, at);
      RewriteIsTold(r, r', done, k, i, a.(status := Failed, failureReason := reason, finishedAt := at, updatedAt := at), t);
    }
  }

  /** The current attempt's lease is the task's deadline. */
  lemma DeadlineIsTheLease(r: Record, done: seq<Op>, k: Key)
    requires RowsTold(r, done, k) && k in r.tasks && r.AttemptsOf(k) != []
    ensures r.tasks[k].expiresAt == r.AttemptsOf(k)[|r.AttemptsOf(k)| - 1].expiresAt
  {}

  lemma OpenIsCurrent(r: Record, k: Key, i: nat)
    requires Inv(r) && k in r.tasks && i < |r.AttemptsOf(k)| && r.AttemptsOf(k)[i].status.Open()
    ensures i == |r.AttemptsOf(k)| - 1
  {
    TaskOf(r, k);
  }

  /** A result found late has been observed after the lease of the attempt it expires. */
  lemma LateIsSeen(r: Record, done: seq<Op>, k: Key, i: nat, s: Settle)
    requires Inv(r) && RowsTold(r, done, k) && k in r.tasks && k in r.attempts && i < |r.attempts[k]| && r.attempts[k][i].status.Open()
    requires s.Identity() == k && Offer(s) in done
    requires Evaluate(r.tasks[k], r.attempts[k][i], r.RegistrationOf(k), s, s.outcome.observedAt).disposition.ExpiredResult?
    ensures SeenLate(done, k, r.attempts[k][i])
  {
    hide Evaluate, RowsTold, Inv, TaskTold;
    var t, a := r.tasks[k], r.attempts[k][i];
    OpenIsCurrent(r, k, i);
    DeadlineIsTheLease(r, done, k);
    if t.status == Expired {
      TaskStands(r, done, k);
      var s0 :| Offer(s0) in done && s0.Identity() == k && s0.outcome.observedAt > t.expiresAt;
      assert SeenLate(done, k, a);
    } else {
      assert s.outcome.observedAt > a.expiresAt;
    }
  }

  lemma ExpiredTaskStands(done: seq<Op>, k: Key, t: Task, s: Settle)
    requires TaskStandingTold(done, k, t) && Offer(s) in done && s.Identity() == k
    ensures TaskStandingTold(done, k, ExpireTask(t, s.outcome.observedAt))
  {}

  lemma DeclineEffect(r: Record, k: Key, i: nat, s: Settle, v: Verdict)
    requires k in r.tasks && k in r.attempts && i < |r.attempts[k]|
    ensures var r', at := Decline(r, k, i, s, v), s.outcome.observedAt;
            && r'.results == r.results && k in r'.tasks
            && (!v.disposition.ExpiredResult? ==> r'.tasks == r.tasks && r'.attempts == r.attempts)
            && (v.disposition.ExpiredResult? ==>
                  r'.attempts == r.attempts[k := r.attempts[k][i := ExpireAttempt(r.attempts[k][i], at)]] && r'.tasks[k] == ExpireTask(r.tasks[k], at))
  {
    hide ExpireAttempt, ExpireTask, EvidenceOf;
  }

  lemma ExpiredKeepsLease(t: Task, a: Attempt, at: Time)
    ensures EnsuredBy(ExpireTask(t, at), t) && ExpireTask(t, at).expiresAt == t.expiresAt && ExpireAttempt(a, at).expiresAt == a.expiresAt
  {}

  lemma DeclineIsTold(r: Record, done: seq<Op>, k: Key, i: nat, s: Settle, v: Verdict)
    requires Inv(r) && RowsTold(r, done, k) && k in r.tasks && IndexOf(r.AttemptsOf(k), s.facts.attemptId) == Some(i)
    requires s.Identity() == k && Offer(s) in done && v == Evaluate(r.tasks[k], r.attempts[k][i], r.RegistrationOf(k), s, s.outcome.observedAt)
    ensures RowsTold(Decline(r, k, i, s, v), done, k)
  {
    hide RowsTold, AttemptTold, TaskTold, Inv, Evaluate, Decline, SeenLate, TaskStandingTold, ExpireAttempt, ExpireTask, EnsuredBy;
    var r', at := Decline(r, k, i, s, v), s.outcome.observedAt;
    DeclineEffect(r, k, i, s, v);
    if v.disposition.ExpiredResult? {
      var a, t := r.attempts[k][i], r.tasks[k];
      TaskStands(r, done, k);
      AttemptOfRows(r, done, k, i);
      if a.status.Open() { LateIsSeen(r, done, k, i, s); }
      ExpiredIsTold(done, k, t.runId, i + 1, a, s);
      ExpiredTaskStands(done, k, t, s);
      ExpiredKeepsLease(t, a, at);
      RewriteIsTold(r, r', done, k, i, ExpireAttempt(a, at), ExpireTask(t, at));
    } else {
      SameRowsAreTold(r, r', done, k);
    }
  }

  lemma SameRowsAreTold(r: Record, r': Record, done: seq<Op>, k: Key)
    requires RowsTold(r, done, k) && r'.tasks == r.tasks && r'.attempts == r.attempts && r'.results == r.results
    ensures RowsTold(r', done, k)
  {
    hide TaskTold, AttemptTold, RegistrationTold;
    assert r'.AttemptsOf(k) == r.AttemptsOf(k);
  }

  /** What a committed success registers, and which of the result's own words it is made of. */
  lemma RegisteredWords(t: Task, a: Attempt, s: Settle)
    requires Committable(t, a, None, s.facts, s.outcome.observedAt)
    ensures RegisteredBy(RegistrationFor(t.(updatedAt := s.outcome.observedAt), SettleAttempt(a, s.outcome), s.outcome), s)
    ensures s.outcome.observedAt <= a.expiresAt && a.id == s.facts.attemptId
  {}

  lemma AcceptIsTold(r: Record, done: seq<Op>, k: Key, i: nat, s: Settle)
    requires RowsTold(r, done, k) && k in r.tasks && k in r.attempts && i < |r.attempts[k]| && s.Identity() == k && Offer(s) in done
    requires Committable(r.tasks[k], r.attempts[k][i], r.RegistrationOf(k), s.facts, s.outcome.observedAt) && r.tasks[k].status.Open()
    ensures RowsTold(Accept(r, k, i, s.outcome), done, k)
  {
    var r' := Accept(r, k, i, s.outcome);
    var a, t := r.attempts[k][i], r.tasks[k];
    var b, t' := SettleAttempt(a, s.outcome), r'.tasks[k];
    RegisteredWords(t, a, s);
    AttemptOfRows(r, done, k, i);
    TaskOfRows(r, done, k);
    assert a.status.Open() && r'.attempts == r.attempts[k := r.attempts[k][i := b]] && b.expiresAt == a.expiresAt;
    assert TaskStandingTold(done, k, t');
    EnsuredByItself(t, t');
    var middle := Record(r.tasks[k := t'], r'.attempts, r.results, r.evidence);
    hide RowsTold, AttemptTold, TaskTold, Committable, EnsuredBy, TaskStandingTold;
    SettledIsTold(done, k, t.runId, i + 1, a, s);
    RewriteIsTold(r, middle, done, k, i, b, t');
    if !s.outcome.failed { RegisteringIsTold(middle, r', done, k, s); } else { assert r' == middle; }
  }

  lemma RegisteringIsTold(r: Record, r': Record, done: seq<Op>, k: Key, s: Settle)
    requires RowsTold(r, done, k) && k in r.tasks && r'.tasks == r.tasks && r'.attempts == r.attempts && k in r'.results
    requires Offer(s) in done && s.Identity() == k && !s.outcome.failed && RegisteredBy(r'.results[k], s)
    ensures RowsTold(r', done, k)
  {
    hide TaskTold, AttemptTold, RegisteredBy;
    assert r'.AttemptsOf(k) == r.AttemptsOf(k);
  }

  lemma OfferIsTold(r: Record, done: seq<Op>, s: Settle)
    requires Inv(r) && RowsTold(r, done, s.Identity()) && Offer(s) in done
    ensures RowsTold(Commit(r, s).0, done, s.Identity())
  {
    var k := s.Identity();
    hide RowsTold, Inv, Accept, Decline;
    if k in r.tasks {
      match IndexOf(r.AttemptsOf(k), s.facts.attemptId)
      case None => NoteIsTold(r, done, EvidenceOf(s, UNBOUND), k);
      case Some(i) =>
        var v := Evaluate(r.tasks[k], r.attempts[k][i], r.RegistrationOf(k), s, s.outcome.observedAt);
        if v.disposition.Committed? {
          OnlyTheCurrentAttemptCommits(r, s);
          AcceptIsTold(r, done, k, i, s);
        } else {
          DeclineIsTold(r, done, k, i, s, v);
        }
    }
  }

  lemma NoteIsTold(r: Record, done: seq<Op>, e: Evidence, k: Key)
    requires RowsTold(r, done, k)
    ensures RowsTold(r.(evidence := r.evidence + [e]), done, k)
  {
    SameRowsAreTold(r, r.(evidence := r.evidence + [e]), done, k);
  }

  lemma CancelIsTold(r: Record, done: seq<Op>, scope: Scope, runId: string, reason: string, at: Time, k: Key)
    requires Inv(r) && RowsTold(r, done, k) && Reached(r, scope, runId, k) && Cancel(scope, runId, reason, at) in done
    ensures RowsTold(AfterCancellation(r, scope, runId, reason, at), done, k)
  {
    hide RowsTold, AttemptTold, Inv, AfterCancellation, TaskStandingTold, TaskTold, RegistrationTold, EnsuredBy;
    var r' := AfterCancellation(r, scope, runId, reason, at);
    CancellationAt(r, scope, runId, reason, at, k);
    var atts, t := r.AttemptsOf(k), r.tasks[k];
    var t', atts' := r'.tasks[k], r'.AttemptsOf(k);
    TaskOfRows(r, done, k);
    CanceledTaskStands(done, k, t', runId, reason);
    EnsuredByItself(t, t');
    assert t'.runId == t.runId;
    forall i | 0 <= i < |atts'| ensures AttemptTold(done, k, t'.runId, i + 1, atts'[i]) {
      AttemptOfRows(r, done, k, i);
      CanceledIsTold(done, k, runId, i + 1, atts[i], reason, at);
    }
    MovedTaskIsTold(done, k, t, t', atts, atts');
    RowsByParts(r', done, k);
  }

  lemma CancellationAt(r: Record, scope: Scope, runId: string, reason: string, at: Time, k: Key)
    requires Inv(r) && Reached(r, scope, runId, k)
    ensures var r', t := AfterCancellation(r, scope, runId, reason, at), r.tasks[k];
            && k.scope == scope && t.runId == runId && k in r'.tasks && r'.tasks[k] == t.(status := Canceled, updatedAt := at)
            && r'.AttemptsOf(k) == CancelAttempts(r.AttemptsOf(k), reason, at) && r'.results == r.results
            && |r'.AttemptsOf(k)| == |r.AttemptsOf(k)|
            && forall i | 0 <= i < |r.AttemptsOf(k)| ::
                 r'.AttemptsOf(k)[i] == CancelAttempt(r.AttemptsOf(k)[i], reason, at) && r'.AttemptsOf(k)[i].expiresAt == r.AttemptsOf(k)[i].expiresAt
  {
    hide Inv, CancelAttempt, Reached;
    ReachedIsOfRun(r, scope, runId, k);
    CancellationEffect(r, scope, runId, reason, at, k);
    assert forall i | 0 <= i < |r.AttemptsOf(k)| :: CancelAttempt(r.AttemptsOf(k)[i], reason, at).expiresAt == r.AttemptsOf(k)[i].expiresAt by {
      CanceledLease(reason, at);
    }
  }

  lemma CancellationEffect(r: Record, scope: Scope, runId: string, reason: string, at: Time, k: Key)
    requires Reached(r, scope, runId, k)
    ensures var r' := AfterCancellation(r, scope, runId, reason, at);
            && k in r.tasks && k in r'.tasks && r'.tasks[k] == r.tasks[k].(status := Canceled, updatedAt := at) && r'.results == r.results
            && r'.AttemptsOf(k) == CancelAttempts(r.AttemptsOf(k), reason, at)
  {
    hide CancelAttempt;
  }

  lemma ReachedIsOfRun(r: Record, scope: Scope, runId: string, k: Key)
    requires Inv(r) && Reached(r, scope, runId, k)
    ensures k.scope == scope && r.tasks[k].runId == runId && r.attempts.Keys <= r.tasks.Keys
  {
    TaskOf(r, k);
  }

  lemma CanceledLease(reason: string, at: Time)
    ensures forall a :: CancelAttempt(a, reason, at).expiresAt == a.expiresAt
  {}

  lemma CanceledTaskStands(done: seq<Op>, k: Key, t: Task, runId: string, reason: string)
    requires t.status == Canceled && t.runId == runId && Cancel(k.scope, runId, reason, t.updatedAt) in done
    ensures TaskStandingTold(done, k, t)
  {}

  // ---- Every run -------------------------------------------------------------------------

  /** The task an operation writes on. */
  function Touches(r: Record, op: Op): set<Key> {
    match op
    case Ensure(t) => {t.Identity()}
    case Start(o) => {o.Identity()}
    case Dispatched(scope, id, _) => if Locate(r, scope, id).Some? then {Locate(r, scope, id).value.0} else {}
    case Close(scope, id, _, _) => if Locate(r, scope, id).Some? then {Locate(r, scope, id).value.0} else {}
    case Offer(s) => {s.Identity()}
    case Cancel(scope, runId, _, _) => set k | k in r.tasks && Reached(r, scope, runId, k)
    case Note(_) => {}
  }

  lemma OthersAreUntouched(r: Record, op: Op, k: Key)
    requires k !in Touches(r, op)
    ensures Untouched(r, Apply(r, op), k)
  {
    hide Commit, SameWork, ValidTask, ValidReasonCode, ReplaceOpen, NewAttempt, AfterCancellation, Reached;
    if op.Offer? { SettlementTouchesOneTask(r, op.request, k); }
    if op.Cancel? { CancelLeavesOthers(r, op.scope, op.runId, op.reason, op.at, k); }
  }

  lemma CancelLeavesOthers(r: Record, scope: Scope, runId: string, reason: string, at: Time, k: Key)
    requires k in r.tasks ==> !Reached(r, scope, runId, k)
    ensures Untouched(r, AfterCancellation(r, scope, runId, reason, at), k)
  {
    hide CancelAttempts;
  }

  lemma TouchedIsTold(r: Record, done: seq<Op>, op: Op, k: Key)
    requires Inv(r) && Coordinated(op) && RowsTold(r, done, k) && op in done && k in Touches(r, op)
    ensures RowsTold(Apply(r, op), done, k)
  {
    hide Inv, RowsTold, Commit, AfterCancellation, MarkDispatched, CloseAttempt;
    match op
    case Ensure(t) =>
      EnsureTouchesOneTask(r, t);
      if t.Identity() !in r.tasks && Apply(r, op) != r {
        EnsuredIsTold(r, done, t);
        assert Apply(r, op) == r.(tasks := r.tasks[t.Identity() := t]);
      }
    case Start(o) => if OpenAttempt(r, o).1.Ok? { StartIsTold(r, done, o); }
    case Dispatched(scope, id, at) => MarkIsTold(r, done, scope, id, at);
    case Close(scope, id, reason, at) => CloseIsTold(r, done, scope, id, reason, at);
    case Offer(s) => OfferIsTold(r, done, s);
    case Cancel(scope, runId, reason, at) => if ValidReasonCode(reason) { CancelIsTold(r, done, scope, runId, reason, at, k); }
    case Note(_) =>
  }

  /** What an operation adds to the evidence, if it adds anything. */
  predicate OneLine(r: Record, r': Record, e: Evidence) { r'.evidence == r.evidence + [e] }

  lemma DeclinedLine(r: Record, s: Settle)
    ensures var r' := Commit(r, s).0;
            r'.evidence == r.evidence || (exists v: Verdict :: !v.disposition.Committed? && OneLine(r, r', EvidenceOf(s, v)))
  {
    var k := s.Identity();
    hide EvidenceOf, Evaluate;
    if k in r.tasks {
      match IndexOf(r.AttemptsOf(k), s.facts.attemptId)
      case None => assert OneLine(r, Commit(r, s).0, EvidenceOf(s, UNBOUND));
      case Some(i) =>
        var v := Evaluate(r.tasks[k], r.attempts[k][i], r.RegistrationOf(k), s, s.outcome.observedAt);
        if !v.disposition.Committed? { assert OneLine(r, Commit(r, s).0, EvidenceOf(s, v)); }
    }
  }

  lemma EvidenceIsTold(done: seq<Op>, s: Settle, v: Verdict)
    requires Offer(s) in done && !v.disposition.Committed?
    ensures EvidenceTold(done, EvidenceOf(s, v))
  {
    assert WrittenFor(EvidenceOf(s, v), s);
  }

  lemma LinesStayTold(done: seq<Op>, op: Op, e: Evidence)
    requires EvidenceTold(done, e)
    ensures EvidenceTold(done + [op], e)
  {
    InMore(done, op);
  }

  lemma NewLineIsTold(r: Record, done: seq<Op>, op: Op)
    requires op in done
    ensures var r' := Apply(r, op);
            r'.evidence == r.evidence || (exists e :: EvidenceTold(done, e) && OneLine(r, r', e))
  {
    hide EvidenceTold, EvidenceOf;
    match op
    case Offer(s) =>
      DeclinedLine(r, s);
      if Apply(r, op).evidence != r.evidence {
        var v: Verdict :| !v.disposition.Committed? && OneLine(r, Apply(r, op), EvidenceOf(s, v));
        EvidenceIsTold(done, s, v);
      }
    case Note(e) =>
      NotedIsTold(done, e);
      assert OneLine(r, Apply(r, op), e);
    case _ => OthersWriteNoLine(r, op);
  }

  lemma NotedIsTold(done: seq<Op>, e: Evidence)
    requires Note(e) in done
    ensures EvidenceTold(done, e)
  {}

  lemma OthersWriteNoLine(r: Record, op: Op)
    requires !op.Offer? && !op.Note?
    ensures Apply(r, op).evidence == r.evidence
  {
    hide SameWork, ValidTask, ValidReasonCode, Locate;
  }

  lemma EvidenceStepIsTold(r: Record, done: seq<Op>, op: Op)
    requires forall i | 0 <= i < |r.evidence| :: EvidenceTold(done, r.evidence[i])
    ensures var r' := Apply(r, op); forall i | 0 <= i < |r'.evidence| :: EvidenceTold(done + [op], r'.evidence[i])
  {
    hide EvidenceTold, Apply;
    var r' := Apply(r, op);
    assert op in done + [op] by { InMore(done, op); }
    NewLineIsTold(r, done + [op], op);
    forall i | 0 <= i < |r'.evidence| ensures EvidenceTold(done + [op], r'.evidence[i]) {
      if i < |r.evidence| {
        assert r'.evidence[i] == r.evidence[i];
        LinesStayTold(done, op, r.evidence[i]);
      }
    }
  }

  lemma RowsStepIsTold(r: Record, done: seq<Op>, op: Op, k: Key)
    requires Inv(r) && Coordinated(op) && RowsTold(r, done, k)
    ensures RowsTold(Apply(r, op), done + [op], k)
  {
    hide Inv, RowsTold, Apply, Touches, Coordinated;
    if k in Touches(r, op) {
      RowsStayTold(r, done, op, k);
      assert op in done + [op];
      TouchedIsTold(r, done + [op], op, k);
    } else {
      OthersAreUntouched(r, op, k);
      UntouchedStaysTold(r, Apply(r, op), done, op, k);
    }
  }

  lemma RowsOf(r: Record, done: seq<Op>, k: Key)
    requires Told(r, done)
    ensures RowsTold(r, done, k)
  {
    hide TaskTold, AttemptTold, RegistrationTold;
    if k in r.tasks { assert RowsTold(r, done, k); }
  }

  lemma StepIsTold(r: Record, done: seq<Op>, op: Op)
    requires Inv(r) && Coordinated(op) && Told(r, done)
    ensures Told(Apply(r, op), done + [op])
  {
    hide Inv, RowsTold, Apply, Coordinated, EvidenceTold;
    EvidenceStepIsTold(r, done, op);
    var r' := Apply(r, op);
    forall k | k in r'.tasks ensures RowsTold(r', done + [op], k) {
      RowsOf(r, done, k);
      RowsStepIsTold(r, done, op, k);
    }
  }

  lemma {:induction false} RunIsTold(r: Record, done: seq<Op>, ops: seq<Op>)
    requires Inv(r) && AllCoordinated(ops) && Told(r, done)
    ensures Told(Exec(r, ops), done + ops)
    decreases |ops|
  {
    hide Inv, Told, Apply, Coordinated;
    if ops == [] {
      assert done + ops == done;
    } else {
      StepIsTold(r, done, ops[0]);
      StepKeepsInv(r, ops[0]);
      RunIsTold(Apply(r, ops[0]), done + [ops[0]], ops[1..]);
      assert done + [ops[0]] + ops[1..] == done + ops;
    }
  }

  /**
   The whole record is told by the run that made it. Every attempt is what one opening asked for, and
   stands where it does for the reason an operation gave: superseded within its lease or expired
   after it, closed, canceled or settled, with the words, digests and times of just that operation.
   Every task is what was ensured, every registration is a result's own statement, and every line of
   evidence is a result that changed nothing.
   */
  lemma EveryRowIsTold(ops: seq<Op>)
    requires AllCoordinated(ops)
    ensures Told(Exec(EMPTY, ops), ops)
  {
    NothingKeepsInv();
    assert Told(EMPTY, []);
    hide Told, Inv, Exec;
    RunIsTold(EMPTY, [], ops);
    assert [] + ops == ops;
  }

  // ---- Which result a registration is of -------------------------------------------------

  /** The result that is registered when the i-th operation of the run has been performed, and never again. */
  predicate Registers(r: Record, ops: seq<Op>, k: Key, i: nat) {
    i < |ops| && RegistersResult(Exec(r, ops[..i]), ops[i], k)
  }

  lemma CommitWords(r: Record, op: Op, k: Key)
    requires Inv(r) && RegistersResult(r, op, k)
    ensures k in Apply(r, op).results && RegisteredBy(Apply(r, op).results[k], op.request)
  {
    OnlyTheCurrentAttemptCommits(r, op.request);
    hide Inv;
    var a := r.attempts[k][|r.attempts[k]| - 1];
    RegisteredWords(r.tasks[k], a, op.request);
  }

  lemma ShiftedPrefix(r: Record, ops: seq<Op>, k: Key, j: nat)
    requires ops != []
    ensures Registers(r, ops, k, j + 1) <==> Registers(Apply(r, ops[0]), ops[1..], k, j)
  {
    hide RegistersResult, Apply;
    if j < |ops[1..]| {
      assert ops[..j + 1][0] == ops[0] && ops[..j + 1][1..] == ops[1..][..j];
      assert ops[j + 1] == ops[1..][j];
    }
  }

  /** Once something is registered for the task, no later operation registers for it. */
  lemma NothingMoreIsRegistered(r: Record, ops: seq<Op>, k: Key, j: nat)
    requires Inv(r) && AllCoordinated(ops) && k in r.results
    ensures !Registers(r, ops, k, j)
  {
    if j < |ops| {
      hide Inv, RegistersResult, Exec, Apply, TaskEvolves, AttemptEvolves, Coordinated;
      assert AllCoordinated(ops[..j]);
      EveryRunKeepsInv(r, ops[..j]);
      EveryRunEvolves(r, ops[..j], k);
      RegistersExactlyThere(Exec(r, ops[..j]), ops[j], k);
    }
  }

  lemma RegistrationStands(r: Record, ops: seq<Op>, k: Key)
    requires Inv(r) && AllCoordinated(ops) && k in r.results
    ensures k in Exec(r, ops).results && Exec(r, ops).results[k] == r.results[k]
  {
    hide Inv, Exec, TaskEvolves, AttemptEvolves, Coordinated;
    EveryRunEvolves(r, ops, k);
  }

  /** The i-th operation is the one result registered for the task, and these are its words. */
  predicate OnlyOne(r: Record, ops: seq<Op>, k: Key, i: nat, g: Registration) {
    Registers(r, ops, k, i) && ops[i].Offer? && ops[i].request.Identity() == k && !ops[i].request.outcome.failed && RegisteredBy(g, ops[i].request)
  }

  /**
   A registration that stands at the end of a run is of exactly one result offered in it, the one that
   committed the task, and carries that result's statement, status, reason, digest, key and time.
   */
  lemma {:induction false} RegistrationIsOfOneResult(r: Record, ops: seq<Op>, k: Key)
    requires Inv(r) && AllCoordinated(ops) && k in Exec(r, ops).results && k !in r.results
    ensures exists i: nat | i < |ops| :: OnlyOne(r, ops, k, i, Exec(r, ops).results[k])
    ensures forall i: nat, j: nat | Registers(r, ops, k, i) && Registers(r, ops, k, j) :: i == j
    decreases |ops|
  {
    hide Inv, Apply, RegistersResult, RegisteredBy, Coordinated;
    var r1, rest := Apply(r, ops[0]), ops[1..];
    StepKeepsInv(r, ops[0]);
    RegistersExactlyThere(r, ops[0], k);
    if k in r1.results {
      FirstRegisters(r, ops, k);
      RegistrationStands(r1, rest, k);
      forall j: nat | j > 0 ensures !Registers(r, ops, k, j) {
        ShiftedPrefix(r, ops, k, j - 1);
        NothingMoreIsRegistered(r1, rest, k, j - 1);
      }
    } else {
      RegistrationIsOfOneResult(r1, rest, k);
      var i: nat :| i < |rest| && OnlyOne(r1, rest, k, i, Exec(r, ops).results[k]);
      ShiftedPrefix(r, ops, k, i);
      assert OnlyOne(r, ops, k, i + 1, Exec(r, ops).results[k]);
      forall m: nat, n: nat | Registers(r, ops, k, m) && Registers(r, ops, k, n) ensures m == n {
        NotTheFirst(r, ops, k);
        ShiftedPrefix(r, ops, k, m - 1);
        ShiftedPrefix(r, ops, k, n - 1);
      }
    }
  }

  lemma NotTheFirst(r: Record, ops: seq<Op>, k: Key)
    requires ops != [] && !RegistersResult(r, ops[0], k)
    ensures !Registers(r, ops, k, 0)
  {
    hide RegistersResult;
    assert ops[..0] == [] && Exec(r, []) == r;
  }

  lemma FirstRegisters(r: Record, ops: seq<Op>, k: Key)
    requires Inv(r) && ops != [] && RegistersResult(r, ops[0], k)
    ensures k in Apply(r, ops[0]).results && OnlyOne(r, ops, k, 0, Apply(r, ops[0]).results[k])
  {
    CommitWords(r, ops[0], k);
    hide Inv, Apply, RegisteredBy;
    assert ops[..0] == [] && Exec(r, []) == r;
  }
}
