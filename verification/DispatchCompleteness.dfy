/**
 Nothing incomplete is ever on the dispatch record, so no result with a missing
 field is ever committed: a fence that is not presented never equals one.
 */
module DispatchCompleteness {
  import opened Wrappers
  import opened Dispatch
  import opened DispatchRecord
  import opened DispatchRuns

  /** The name of the algorithm and sixty-four hexadecimal digits. */
  predicate Sha256(value: string) {
    |value| == 71 && value[..7] == "sha256:" && forall i | 7 <= i < 71 :: '0' <= value[i] <= '9' || 'A' <= value[i] <= 'F' || 'a' <= value[i] <= 'f'
  }

  /** Everything that identifies a task, its work and the unit it is for is there. */
  predicate Whole(t: Task) {
    && t.scope.workspace != "" && t.scope.project != "" && t.taskId != "" && t.runId != "" && t.rootRunId != "" && t.generation >= 1
    && Sha256(t.definitionDigest) && Sha256(t.requestDigest) && t.capability != ""
    && t.runtime.unitId != "" && t.runtime.audience != ""
    && Sha256(t.runtime.manifestDigest) && Sha256(t.runtime.imageDigest) && Sha256(t.runtime.protocolDigest)
  }

  lemma DigestIsSha256(value: string)
    ensures ValidDigest(value) <==> Sha256(value)
  {
    assert Sha256(value) ==> forall i | 7 <= i < 71 :: HexDigit(value[i]);
    assert ValidDigest(value) ==> forall i | 7 <= i < 71 :: HexDigit(value[i]);
  }

  /** A task is taken exactly when it is whole, has a deadline, and is not offered as superseded. */
  lemma TakenIsWhole(t: Task)
    ensures ValidTask(t) <==> Whole(t) && t.expiresAt != 0 && t.status in {Accepted, Running, Succeeded, Failed, Expired, Canceled}
  {
    DigestIsSha256(t.definitionDigest);
    DigestIsSha256(t.requestDigest);
    DigestIsSha256(t.runtime.manifestDigest);
    DigestIsSha256(t.runtime.imageDigest);
    DigestIsSha256(t.runtime.protocolDigest);
    hide ValidDigest, Sha256;
  }

  ghost predicate AllWhole(r: Record) { forall k | k in r.tasks :: r.tasks[k].Identity() == k && Whole(r.tasks[k]) }

  /** Only a creation adds a task. */
  lemma OnlyCreationAdds(r: Record, op: Op)
    requires Inv(r)
    ensures forall k | k in Apply(r, op).tasks && k !in r.tasks :: op.Ensure? && ValidTask(op.task) && k == op.task.Identity() && Apply(r, op).tasks[k] == op.task
  {
    hide ValidTask, Inv, TaskInv, ValidReasonCode, Evaluate, NewAttempt, EvidenceOf, RegistrationFor, CancelAttempts, SameWork, FirstMismatch;
    match op
    case Ensure(task) =>
    case Start(open) => hide Replaced;
    case Dispatched(scope, id, at) => LocatedIsTask(r, scope, id);
    case Close(scope, id, reason, at) => hide Locate;
    case Offer(request) => hide Decline, Accept; OffersAddNone(r, request);
    case Cancel(scope, runId, reason, at) =>
    case Note(e) =>
  }

  lemma LocatedIsTask(r: Record, scope: Scope, id: AttemptId)
    requires Inv(r)
    ensures Locate(r, scope, id).Some? ==> Locate(r, scope, id).value.0 in r.tasks
  {}

  lemma OffersAddNone(r: Record, request: Settle)
    ensures Commit(r, request).0.tasks.Keys == r.tasks.Keys
  {
    hide Evaluate, EvidenceOf, RegistrationFor, ExpireTask, ExpireAttempt;
  }

  lemma StepKeepsWhole(r: Record, op: Op)
    requires Inv(r) && Coordinated(op) && AllWhole(r)
    ensures AllWhole(Apply(r, op))
  {
    hide Inv, Apply, Whole, ValidTask;
    OnlyCreationAdds(r, op);
    forall k | k in Apply(r, op).tasks ensures Apply(r, op).tasks[k].Identity() == k && Whole(Apply(r, op).tasks[k]) {
      if k in r.tasks {
        StepEvolves(r, op, k);
        StaysWhole(r.tasks[k], Apply(r, op).tasks[k]);
      } else {
        TakenIsWhole(op.task);
      }
    }
  }

  lemma StaysWhole(a: Task, b: Task)
    requires Whole(a) && TaskEvolves(a, b)
    ensures Whole(b) && b.Identity() == a.Identity()
  {}

  lemma {:induction false} EveryRunKeepsWhole(r: Record, ops: seq<Op>)
    requires Inv(r) && AllCoordinated(ops) && AllWhole(r)
    ensures Inv(Exec(r, ops)) && AllWhole(Exec(r, ops))
    decreases |ops|
  {
    if ops != [] {
      hide Inv, AllWhole, Apply;
      StepKeepsInv(r, ops[0]);
      StepKeepsWhole(r, ops[0]);
      EveryRunKeepsWhole(Apply(r, ops[0]), ops[1..]);
    }
  }

  /** Every task of every reachable record is whole. */
  lemma EveryTaskIsWhole(ops: seq<Op>, k: Key)
    requires AllCoordinated(ops) && k in Exec(EMPTY, ops).tasks
    ensures Exec(EMPTY, ops).tasks[k].Identity() == k && Whole(Exec(EMPTY, ops).tasks[k])
  {
    assert Inv(EMPTY) && AllWhole(EMPTY);
    hide Inv, Exec, Whole;
    EveryRunKeepsWhole(EMPTY, ops);
  }

  /** A result presents everything it is fenced by. */
  predicate Presented(request: Settle) {
    var p := request.facts;
    && request.scope.workspace != "" && request.scope.project != "" && p.runId != "" && p.taskId != "" && p.attemptId != Foreign("")
    && p.generation >= 1 && p.number >= 1 && p.leaseEpoch >= 1 && p.unitId != ""
    && Sha256(p.manifestDigest) && Sha256(p.imageDigest) && Sha256(p.protocolDigest)
  }

  /**
   After any run, only a result that presents every field of its fence is committed, whether or not
   the coordinator looked: a missing field never equals one on the record.
   */
  lemma OnlyPresentedResultsCommit(ops: seq<Op>, request: Settle)
    requires AllCoordinated(ops)
    requires var v := Commit(Exec(EMPTY, ops), request).1; v.Ok? && v.value.verdict.disposition.Committed?
    ensures Presented(request)
  {
    assert Inv(EMPTY);
    EveryRunKeepsInv(EMPTY, ops);
    var r, k := Exec(EMPTY, ops), request.Identity();
    hide Inv, Exec, Whole, Commit;
    OnlyTheCurrentAttemptCommits(r, request);
    CommittedAgrees(r, request);
    EveryTaskIsWhole(ops, k);
    PresentsWhatAgrees(r.tasks[k], request);
  }

  lemma CommittedAgrees(r: Record, request: Settle)
    requires var v := Commit(r, request).1; v.Ok? && v.value.verdict.disposition.Committed?
    ensures var k := request.Identity(); k in r.tasks && exists a :: Agrees(r.tasks[k], a, request.facts)
  {
    var k := request.Identity();
    var i := IndexOf(r.AttemptsOf(k), request.facts.attemptId).value;
    hide Accept, Decline, Agrees;
    assert Agrees(r.tasks[k], r.attempts[k][i], request.facts);
  }

  lemma PresentsWhatAgrees(t: Task, request: Settle)
    requires Whole(t) && t.Identity() == request.Identity() && exists a :: Agrees(t, a, request.facts)
    requires exists n: nat :: n > 0 && request.facts.attemptId == Derived(request.facts.taskId, n) && request.facts.number == n && request.facts.leaseEpoch == n
    ensures Presented(request)
  {
    hide Sha256;
  }

  /** What the coordinator asks of a result before it looks at the record. */
  lemma OfferedIsPresented(request: Settle)
    ensures request.scope.Valid() && ValidPredicate(request.facts) && ValidOutcome(request.outcome)
            <==> && Presented(request) && |request.facts.fenceToken| >= 16
                 && var o := request.outcome;
                    && o.status != "" && o.reasonCode != "" && Sha256(o.statementDigest) && o.signatureKey != "" && o.observedAt != 0
                    && (o.failed || o.statement != "") && |o.statement| <= 1_048_576
  {
    DigestIsSha256(request.facts.manifestDigest);
    DigestIsSha256(request.facts.imageDigest);
    DigestIsSha256(request.facts.protocolDigest);
    DigestIsSha256(request.outcome.statementDigest);
    hide ValidDigest, Sha256;
  }
}
