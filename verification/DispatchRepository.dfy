/**
 The in-memory repository and the coordinator over it. Every method is one
 critical section, proved against the operation of DispatchRecord it performs.
 */
module DispatchRepository {
  import opened Wrappers
  import opened Dispatch
  import opened DispatchRecord
  import Runs = DispatchRuns

  predicate OnlyLastOpen(atts: seq<Attempt>) { forall i | 0 <= i < |atts| - 1 :: atts[i].status.Terminal() }

  predicate Counted(r: Record, scope: Scope, runId: string, k: Key) {
    Reached(r, scope, runId, k) && HasOpen(r.AttemptsOf(k))
  }

  /** One task after a cancellation has visited it. */
  predicate VisitedTask(r: Record, s: Record, k: Key, scope: Scope, runId: string, reason: string, at: Time)
    requires k in r.tasks
  {
    if Reached(r, scope, runId, k) then
      && k in s.tasks && s.tasks[k] == r.tasks[k].(status := Canceled, updatedAt := at)
      && (k in s.attempts <==> k in r.attempts)
      && (k in r.attempts ==> s.attempts[k] == CancelAttempts(r.attempts[k], reason, at))
    else SameTask(r, s, k)
  }

  predicate SameTask(r: Record, s: Record, k: Key)
    requires k in r.tasks
  {
    && k in s.tasks && s.tasks[k] == r.tasks[k]
    && (k in s.attempts <==> k in r.attempts)
    && (k in r.attempts ==> s.attempts[k] == r.attempts[k])
  }

  /** A walk in progress: the remaining tasks are as they were, the others visited. */
  ghost predicate Walk(r: Record, s: Record, remaining: set<Key>, scope: Scope, runId: string, reason: string, at: Time) {
    && r.attempts.Keys == s.attempts.Keys <= r.tasks.Keys == s.tasks.Keys && remaining <= r.tasks.Keys
    && s.results == r.results && s.evidence == r.evidence
    && (forall k {:trigger VisitedTask(r, s, k, scope, runId, reason, at)} | k in r.tasks && k !in remaining :: VisitedTask(r, s, k, scope, runId, reason, at))
    && (forall k {:trigger SameTask(r, s, k)} | k in remaining :: SameTask(r, s, k))
  }

  lemma WalkBegins(r: Record, scope: Scope, runId: string, reason: string, at: Time)
    requires r.attempts.Keys <= r.tasks.Keys
    ensures Walk(r, r, r.tasks.Keys, scope, runId, reason, at)
  {}

  lemma NotYetVisited(r: Record, s: Record, remaining: set<Key>, k: Key, scope: Scope, runId: string, reason: string, at: Time)
    requires Walk(r, s, remaining, scope, runId, reason, at) && k in remaining
    requires k in r.attempts ==> OnlyLastOpen(r.attempts[k])
    ensures k in s.tasks && (k in s.attempts ==> OnlyLastOpen(s.attempts[k]))
    ensures Counted(s, scope, runId, k) <==> Counted(r, scope, runId, k)
  {
    assert SameTask(r, s, k);
  }

  lemma WalkOn(r: Record, s: Record, s': Record, remaining: set<Key>, k: Key,
               scope: Scope, runId: string, reason: string, at: Time)
    requires Walk(r, s, remaining, scope, runId, reason, at) && k in remaining
    requires VisitedTask(s, s', k, scope, runId, reason, at)
    requires s'.tasks.Keys == s.tasks.Keys && s'.attempts.Keys == s.attempts.Keys && s'.results == s.results && s'.evidence == s.evidence
    requires forall j | j in s.tasks && j != k :: s'.tasks[j] == s.tasks[j]
    requires forall j | j in s.attempts && j != k :: s'.attempts[j] == s.attempts[j]
    ensures Walk(r, s', remaining - {k}, scope, runId, reason, at)
  {
    assert SameTask(r, s, k);
    forall j | j in r.tasks && j !in remaining ensures VisitedTask(r, s', j, scope, runId, reason, at) {
      assert VisitedTask(r, s, j, scope, runId, reason, at);
    }
    forall j | j in remaining - {k} ensures SameTask(r, s', j) { assert SameTask(r, s, j); }
  }

  lemma AllVisited(r: Record, s: Record, scope: Scope, runId: string, reason: string, at: Time)
    requires Walk(r, s, {}, scope, runId, reason, at)
    ensures s == AfterCancellation(r, scope, runId, reason, at)
  {
    var c := AfterCancellation(r, scope, runId, reason, at);
    forall k | k in r.tasks ensures s.tasks[k] == c.tasks[k] && (k in s.attempts <==> k in c.attempts) && (k in c.attempts ==> s.attempts[k] == c.attempts[k]) {
      assert VisitedTask(r, s, k, scope, runId, reason, at);
    }
    assert s.tasks == c.tasks && s.attempts == c.attempts;
  }

  lemma CountEnds(work: set<Key>, all: set<Key>)
    requires work <= all
    ensures |work - all| == 0 && |work - {}| == |work|
  {
    assert work - all == {} && work - {} == work;
  }

  lemma CountOneMore(work: set<Key>, remaining: set<Key>, k: Key)
    requires k in remaining
    ensures |work - (remaining - {k})| == |work - remaining| + if k in work then 1 else 0
  {
    if k in work {
      assert work - (remaining - {k}) == (work - remaining) + {k};
    } else {
      assert work - (remaining - {k}) == work - remaining;
    }
  }

  /** The place an identity is located at holds that attempt, of a known task. */
  lemma LocatedMatches(r: Record, scope: Scope, id: AttemptId)
    requires Inv(r)
    ensures Locate(r, scope, id).Some? ==>
              var (k, i) := Locate(r, scope, id).value;
              k in r.tasks && k in r.attempts && i < |r.attempts[k]| && r.attempts[k][i].id == id && r.attempts[k][i].scope == scope
  {
    if Locate(r, scope, id).Some? {
      var (k, i) := Locate(r, scope, id).value;
      assert TaskInv(k, r.tasks[k], r.AttemptsOf(k), r.RegistrationOf(k));
      assert Numbered(k, r.attempts[k][i], i + 1);
    }
  }

  /** The attempt that matches an identity is where the identity is located. */
  lemma MatchIsLocated(r: Record, k: Key, i: nat, scope: Scope, id: AttemptId)
    requires Inv(r) && k in r.attempts && i < |r.attempts[k]| && r.attempts[k][i].id == id && r.attempts[k][i].scope == scope
    ensures Locate(r, scope, id) == Some((k, i))
  {
    assert TaskInv(k, r.tasks[k], r.AttemptsOf(k), r.RegistrationOf(k));
    assert Numbered(k, r.attempts[k][i], i + 1);
  }

  predicate NoneMatches(atts: seq<Attempt>, n: nat, scope: Scope, id: AttemptId) {
    n <= |atts| && forall i | 0 <= i < n :: atts[i].id != id || atts[i].scope != scope
  }

  lemma UnmatchedIsUnlocated(r: Record, scope: Scope, id: AttemptId)
    requires Inv(r) && forall k | k in r.attempts :: NoneMatches(r.attempts[k], |r.attempts[k]|, scope, id)
    ensures Locate(r, scope, id) == None
  {
    LocatedMatches(r, scope, id);
  }

  /** No attempt in this scope has the identity. */
  predicate NoneAnywhere(attempts: map<Key, seq<Attempt>>, scope: Scope, id: AttemptId) {
    forall k, i | k in attempts && 0 <= i < |attempts[k]| :: attempts[k][i].id != id || attempts[k][i].scope != scope
  }

  /** The attempt of this identity stands so. */
  predicate Stands(attempts: map<Key, seq<Attempt>>, scope: Scope, id: AttemptId, status: State) {
    exists k, i | k in attempts && 0 <= i < |attempts[k]| :: attempts[k][i].id == id && attempts[k][i].scope == scope && attempts[k][i].status == status
  }

  /** Only one attempt has a derived identity, and it is where that says. */
  lemma LocateSays(r: Record, scope: Scope, id: AttemptId)
    requires Inv(r)
    ensures Locate(r, scope, id).None? <==> NoneAnywhere(r.attempts, scope, id)
    ensures Locate(r, scope, id).None? ==> forall status :: !Stands(r.attempts, scope, id, status)
    ensures Locate(r, scope, id).Some? ==>
              var (k, i) := Locate(r, scope, id).value;
              && k in r.tasks && k in r.attempts && i < |r.attempts[k]|
              && forall status :: Stands(r.attempts, scope, id, status) <==> r.attempts[k][i].status == status
  {
    LocatedMatches(r, scope, id);
    forall k, i | k in r.attempts && 0 <= i < |r.attempts[k]| && r.attempts[k][i].id == id && r.attempts[k][i].scope == scope
      ensures Locate(r, scope, id) == Some((k, i))
    {
      MatchIsLocated(r, k, i, scope, id);
    }
    hide Inv, Locate;
  }

  /** The answer of a dispatch mark, and where the attempt stands after it. */
  predicate MarkAnswered(before: Record, after: Record, answer: Result<(), Problem>, scope: Scope, id: AttemptId) {
    && (answer == Err(NoAttempt) <==> NoneAnywhere(before.attempts, scope, id))
    && (answer.Ok? <==> Stands(before.attempts, scope, id, Accepted))
    && (answer.Err? ==> answer.error in {NoAttempt, DispatchRefused} && after == before)
    && (answer.Ok? ==> Stands(after.attempts, scope, id, Running))
  }

  /** The answer of a close, and where the attempt stands after it. */
  predicate CloseAnswered(before: Record, after: Record, answer: Result<(), Problem>, scope: Scope, id: AttemptId, reason: string) {
    && (answer == Err(InvalidReason) <==> !ValidReasonCode(reason))
    && (answer == Err(NoAttempt) <==> ValidReasonCode(reason) && NoneAnywhere(before.attempts, scope, id))
    && (answer.Err? ==> answer.error in {InvalidReason, NoAttempt} && after == before)
    && (answer.Ok? && (Stands(before.attempts, scope, id, Accepted) || Stands(before.attempts, scope, id, Running)) ==> Stands(after.attempts, scope, id, Failed))
  }

  lemma MarkIsAnswered(r: Record, scope: Scope, id: AttemptId, at: Time)
    requires Inv(r)
    ensures var (r', answer) := DispatchRecord.MarkDispatched(r, scope, id, at); MarkAnswered(r, r', answer, scope, id)
  {
    hide Inv, Locate, NoneAnywhere, Stands;
    LocateSays(r, scope, id);
    var (r', answer) := DispatchRecord.MarkDispatched(r, scope, id, at);
    if answer.Ok? {
      Runs.MarkKeepsInv(r, scope, id, at);
      MarkedInPlace(r, scope, id, at);
      LocateSays(r', scope, id);
    }
  }

  lemma MarkedInPlace(r: Record, scope: Scope, id: AttemptId, at: Time)
    requires DispatchRecord.MarkDispatched(r, scope, id, at).1.Ok?
    ensures var r' := DispatchRecord.MarkDispatched(r, scope, id, at).0;
            && Locate(r', scope, id) == Locate(r, scope, id) && Locate(r, scope, id).Some?
            && var (k, i) := Locate(r, scope, id).value;
               k in r'.attempts && i < |r'.attempts[k]| && r'.attempts[k][i].status == Running
  {}

  lemma CloseIsAnswered(r: Record, scope: Scope, id: AttemptId, reason: string, at: Time)
    requires Inv(r)
    ensures var (r', answer) := DispatchRecord.CloseAttempt(r, scope, id, reason, at); CloseAnswered(r, r', answer, scope, id, reason)
  {
    hide Inv, Locate, NoneAnywhere, Stands, ValidReasonCode;
    LocateSays(r, scope, id);
    var (r', answer) := DispatchRecord.CloseAttempt(r, scope, id, reason, at);
    if answer.Ok? {
      Runs.CloseKeepsInv(r, scope, id, reason, at);
      ClosedInPlace(r, scope, id, reason, at);
      LocateSays(r', scope, id);
    }
  }

  lemma ClosedInPlace(r: Record, scope: Scope, id: AttemptId, reason: string, at: Time)
    requires DispatchRecord.CloseAttempt(r, scope, id, reason, at).1.Ok?
    ensures var r' := DispatchRecord.CloseAttempt(r, scope, id, reason, at).0;
            && Locate(r', scope, id) == Locate(r, scope, id) && Locate(r, scope, id).Some?
            && var (k, i) := Locate(r, scope, id).value;
               && k in r'.attempts && i < |r'.attempts[k]| && k in r.attempts && i < |r.attempts[k]|
               && (r.attempts[k][i].status.Open() ==> r'.attempts[k][i].status == Failed)
  {
    hide ValidReasonCode;
  }

  /** A cancellation reaches exactly the run's open tasks, and leaves no execution of them open. */
  lemma CancellationReachesExactly(r: Record, scope: Scope, runId: string, reason: string, at: Time)
    ensures var r' := AfterCancellation(r, scope, runId, reason, at);
            forall k | k in r.tasks ::
              && k in r'.tasks && (r'.tasks[k].status == Canceled <==> r.tasks[k].status == Canceled || Reached(r, scope, runId, k))
              && (!Reached(r, scope, runId, k) ==> r'.tasks[k] == r.tasks[k] && r'.AttemptsOf(k) == r.AttemptsOf(k))
              && (Reached(r, scope, runId, k) ==> !HasOpen(r'.AttemptsOf(k)))
  {}

  lemma CommitIsAnswered(r: Record, request: Settle)
    ensures var (r', answer) := DispatchRecord.Commit(r, request); var k, id := request.Identity(), request.facts.attemptId;
            && (answer == Err(NoTask) <==> k !in r.tasks) && (answer.Err? ==> answer.error == NoTask && r' == r)
            && (answer.Ok? ==> k in r'.tasks && answer.value.task == r'.tasks[k])
            && (answer.Ok? ==> (answer.value.attempt.None? <==> answer.value.verdict.disposition == Unbound))
            && (answer.Ok? ==> (answer.value.verdict.disposition == Unbound <==> forall i | 0 <= i < |r.AttemptsOf(k)| :: r.AttemptsOf(k)[i].id != id))
            && (answer.Ok? && answer.value.attempt.Some? ==> answer.value.attempt.value.id == id && answer.value.attempt.value in r'.AttemptsOf(k))
  {
    var k, id := request.Identity(), request.facts.attemptId;
    hide Evaluate;
    if k in r.tasks {
      match IndexOf(r.AttemptsOf(k), id)
      case None =>
      case Some(i) => AttemptInPlace(r, request, i);
    }
  }

  lemma AttemptInPlace(r: Record, request: Settle, i: nat)
    requires request.Identity() in r.tasks && IndexOf(r.AttemptsOf(request.Identity()), request.facts.attemptId) == Some(i)
    ensures var k, r' := request.Identity(), DispatchRecord.Commit(r, request).0;
            k in r'.tasks && k in r'.attempts && i < |r'.attempts[k]| && r'.attempts[k][i].id == request.facts.attemptId && r'.AttemptsOf(k) == r'.attempts[k]
  {
    hide Evaluate, RegistrationFor, EvidenceOf, ExpireTask;
  }

  /** Whether a reason is shaped like a reason code: one pass over its characters. */
  method IsReasonCode(value: string) returns (ok: bool)
    ensures ok <==> && 3 <= |value| <= 64 && 'A' <= value[0] <= 'Z'
                    && forall i | 0 <= i < |value| :: 'A' <= value[i] <= 'Z' || '0' <= value[i] <= '9' || value[i] == '_'
    ensures ok == ValidReasonCode(value)
  {
    if |value| < 3 || |value| > 64 {
      return false;
    }
    if value[0] < 'A' || value[0] > 'Z' {
      return false;
    }
    for i := 1 to |value|
      invariant forall j | 1 <= j < i :: 'A' <= value[j] <= 'Z' || '0' <= value[j] <= '9' || value[j] == '_'
    {
      if !('A' <= value[i] <= 'Z') && !('0' <= value[i] <= '9') && value[i] != '_' {
        return false;
      }
    }
    return true;
  }

  class MemoryRepository {
    var tasks: map<Key, Task>
    var attempts: map<Key, seq<Attempt>>
    var results: map<Key, Registration>
    var evidence: seq<Evidence>

    ghost function State(): Record
      reads this
    {
      Record(tasks, attempts, results, evidence)
    }

    ghost predicate Valid()
      reads this
    {
      Inv(State())
    }

    constructor ()
      ensures Valid() && State() == EMPTY
    {
      tasks, attempts, results, evidence := map[], map[], map[], [];
    }

    method EnsureTask(task: Task) returns (answer: Result<Task, Problem>)
      requires Valid() && Offered(task)
      modifies this`tasks
      ensures Valid()
      ensures (State(), answer) == DispatchRecord.EnsureTask(old(State()), task)
      // It is refused exactly for an invalid task, or an identity reused for other work, under a field that differs.
      ensures answer == Err(InvalidTask) <==> !ValidTask(task)
      ensures answer.Ok? <==> ValidTask(task) && (task.Identity() in old(tasks) ==> IsSameWork(old(tasks)[task.Identity()], task))
      ensures answer.Ok? ==> answer.value == if task.Identity() in old(tasks) then old(tasks)[task.Identity()] else task
      ensures answer.Err? && answer.error != InvalidTask ==>
                answer.error.IdentityReused? && task.Identity() in old(tasks) && WorkDiffers(answer.error.field, old(tasks)[task.Identity()], task)
      // A replay converges on the stored task; a reused identity changes nothing.
      ensures answer.Ok? ==> answer.value.Identity() in tasks && tasks[answer.value.Identity()] == answer.value
      ensures task.Identity() in old(tasks) || answer.Err? ==> tasks == old(tasks)
    {
      ghost var before := State();
      Runs.EnsureKeepsInv(before, task);
      if task.Identity() in tasks { SameWorkExactly(tasks[task.Identity()], task); }
      hide SameWork, FirstMismatch, IsSameWork, WorkDiffers, Inv;
      if !ValidTask(task) {
        return Err(InvalidTask);
      }
      var k := task.Identity();
      if k !in tasks {
        tasks := tasks[k := task];
        return Ok(task);
      }
      var mismatch := FirstMismatch(SameWork(tasks[k], task));
      if mismatch.Some? {
        return Err(IdentityReused(mismatch.value));
      }
      return Ok(tasks[k]);
    }

    /** Ends every open slot of one task's attempts, in place. */
    method ReplaceOpenSlots(k: Key, open: Open)
      requires k in attempts
      modifies this`attempts
      ensures attempts == old(attempts)[k := ReplaceOpen(old(attempts[k]), open)]
    {
      ghost var before := attempts;
      var index := 0;
      while index < |attempts[k]|
        invariant attempts.Keys == before.Keys && |attempts[k]| == |before[k]| && 0 <= index <= |before[k]|
        invariant forall j | j in before && j != k :: attempts[j] == before[j]
        invariant forall i | 0 <= i < |before[k]| ::
          attempts[k][i] == if i < index then Replaced(before[k][i], open) else before[k][i]
      {
        var attempt := attempts[k][index];
        if attempt.status == Accepted || attempt.status == Running {
          var ended := attempt.(status := Superseded, failureReason := open.supersededReason);
          if open.at > attempt.expiresAt {
            ended := ended.(status := Expired, failureReason := REASON_DEADLINE_EXCEEDED);
          }
          attempts := attempts[k := attempts[k][index := ended.(finishedAt := open.at, updatedAt := open.at)]];
        }
        index := index + 1;
      }
      assert attempts[k] == ReplaceOpen(before[k], open);
    }

    /** Replaces whatever is open and appends the next attempt of a task that exists. */
    method Replace(k: Key, open: Open) returns (task: Task, attempt: Attempt)
      requires k == open.Identity() && k in tasks && ValidReasonCode(open.supersededReason) && tasks[k].status.Open()
      modifies this`tasks, this`attempts
      ensures (State(), Ok((task, attempt))) == DispatchRecord.OpenAttempt(old(State()), open)
    {
      ghost var before := State();
      if k in attempts {
        ReplaceOpenSlots(k, open);
      } else {
        attempts := attempts[k := []];
        assert ReplaceOpen([], open) == [];
      }
      assert attempts == before.attempts[k := ReplaceOpen(before.AttemptsOf(k), open)];
      task := tasks[k];
      task := task.(attempts := task.attempts + 1, leaseEpoch := task.leaseEpoch + 1, updatedAt := open.at, expiresAt := open.expiresAt);
      attempt := Attempt(
        open.scope, Derived(task.taskId, task.attempts), task.taskId, task.attempts, task.leaseEpoch, open.fence, open.unitId, Accepted,
        "", "", "", 0, 0, 0, open.expiresAt, open.at, open.at);
      tasks := tasks[k := task];
      attempts := attempts[k := attempts[k] + [attempt]];
      assert attempts == before.attempts[k := ReplaceOpen(before.AttemptsOf(k), open) + [attempt]];
    }

    method OpenAttempt(open: Open) returns (answer: Result<(Task, Attempt), Problem>)
      requires Valid()
      modifies this`tasks, this`attempts
      ensures Valid()
      ensures (State(), answer) == DispatchRecord.OpenAttempt(old(State()), open)
      // It is refused exactly without a reason code, for an unknown task, and for one that has ended.
      ensures answer == Err(InvalidReason) <==> !ValidReasonCode(open.supersededReason)
      ensures answer == Err(NoTask) <==> ValidReasonCode(open.supersededReason) && open.Identity() !in old(tasks)
      ensures answer == Err(TaskRefused) <==>
                ValidReasonCode(open.supersededReason) && open.Identity() in old(tasks) && old(tasks)[open.Identity()].status.Terminal()
      ensures answer.Ok? <==> ValidReasonCode(open.supersededReason) && open.Identity() in old(tasks) && old(tasks)[open.Identity()].status.Open()
    {
      ghost var before := State();
      var k := open.Identity();
      var coded := IsReasonCode(open.supersededReason);
      if !coded {
        answer := Err(InvalidReason);
      } else if k !in tasks {
        answer := Err(NoTask);
      } else if tasks[k].status.Terminal() {
        answer := Err(TaskRefused);
      } else {
        var task, attempt := Replace(k, open);
        answer := Ok((task, attempt));
      }
      assert Valid() by { Runs.OpenKeepsInv(before, open); }
    }

    method FindAmong(atts: seq<Attempt>, scope: Scope, id: AttemptId) returns (place: Option<nat>)
      ensures place.None? ==> NoneMatches(atts, |atts|, scope, id)
      ensures place.Some? ==> place.value < |atts| && atts[place.value].id == id && atts[place.value].scope == scope
    {
      for index := 0 to |atts|
        invariant NoneMatches(atts, index, scope, id)
      {
        if atts[index].id == id && atts[index].scope == scope {
          return Some(index);
        }
      }
      return None;
    }

    /** The scan every attempt-addressed operation makes over all tasks and all their attempts. */
    method Find(scope: Scope, id: AttemptId) returns (place: Option<(Key, nat)>)
      requires Valid()
      ensures place == Locate(State(), scope, id)
    {
      hide Inv, Locate, NoneMatches;
      var remaining := attempts.Keys;
      while remaining != {}
        invariant remaining <= attempts.Keys
        invariant forall k | k in attempts && k !in remaining :: NoneMatches(attempts[k], |attempts[k]|, scope, id)
        decreases |remaining|
      {
        var k :| k in remaining;
        var index := FindAmong(attempts[k], scope, id);
        if index.Some? {
          MatchIsLocated(State(), k, index.value, scope, id);
          return Some((k, index.value));
        }
        remaining := remaining - {k};
      }
      UnmatchedIsUnlocated(State(), scope, id);
      return None;
    }

    method MarkDispatched(scope: Scope, id: AttemptId, at: Time) returns (answer: Result<(), Problem>)
      requires Valid()
      modifies this`tasks, this`attempts
      ensures Valid()
      ensures (State(), answer) == DispatchRecord.MarkDispatched(old(State()), scope, id, at)
      // It is refused exactly when there is no such attempt, or that one no longer waits for its dispatch.
      ensures MarkAnswered(old(State()), State(), answer, scope, id)
    {
      hide Inv, MarkAt, Locate, MarkAnswered;
      Runs.MarkKeepsInv(State(), scope, id, at);
      MarkIsAnswered(State(), scope, id, at);
      LocatedMatches(State(), scope, id);
      var place := Find(scope, id);
      if place.None? {
        return Err(NoAttempt);
      }
      answer := StartAt(place.value.0, place.value.1, at);
    }

    method StartAt(k: Key, index: nat, at: Time) returns (answer: Result<(), Problem>)
      requires k in tasks && k in attempts && index < |attempts[k]|
      modifies this`tasks, this`attempts
      ensures (State(), answer) == MarkAt(old(State()), k, index, at)
    {
      var attempt := attempts[k][index];
      if attempt.status != Accepted {
        return Err(DispatchRefused);
      }
      attempts := attempts[k := attempts[k][index := attempt.(status := Running, dispatchedAt := at, startedAt := at, updatedAt := at)]];
      if tasks[k].status == Accepted {
        tasks := tasks[k := tasks[k].(status := Running, updatedAt := at)];
      }
      return Ok(());
    }

    method CloseAttempt(scope: Scope, id: AttemptId, reason: string, at: Time) returns (answer: Result<(), Problem>)
      requires Valid()
      modifies this`attempts
      ensures Valid()
      ensures (State(), answer) == DispatchRecord.CloseAttempt(old(State()), scope, id, reason, at)
      // It is refused exactly without a reason code or such an attempt; an attempt that was open has failed.
      ensures CloseAnswered(old(State()), State(), answer, scope, id, reason)
    {
      hide Inv, CloseAt, Locate, CloseAnswered, ValidReasonCode;
      Runs.CloseKeepsInv(State(), scope, id, reason, at);
      CloseIsAnswered(State(), scope, id, reason, at);
      LocatedMatches(State(), scope, id);
      var coded := IsReasonCode(reason);
      if !coded {
        return Err(InvalidReason);
      }
      var place := Find(scope, id);
      if place.None? {
        return Err(NoAttempt);
      }
      answer := EndAt(place.value.0, place.value.1, reason, at);
    }

    method EndAt(k: Key, index: nat, reason: string, at: Time) returns (answer: Result<(), Problem>)
      requires k in attempts && index < |attempts[k]|
      modifies this`attempts
      ensures (State(), answer) == CloseAt(old(State()), k, index, reason, at)
    {
      var attempt := attempts[k][index];
      if attempt.status.Terminal() {
        return Ok(());
      }
      attempts := attempts[k := attempts[k][index := attempt.(status := Failed, failureReason := reason, finishedAt := at, updatedAt := at)]];
      return Ok(());
    }

    /** Records a result that may not commit, expiring what its lateness reveals to be over. */
    method RecordDeclined(k: Key, index: nat, request: Settle, verdict: Verdict)
      requires k in tasks && k in attempts && index < |attempts[k]|
      modifies this`tasks, this`attempts, this`evidence
      ensures State() == Decline(old(State()), k, index, request, verdict)
    {
      var facts := request.facts;
      evidence := evidence + [Evidence(
        request.scope, facts.taskId, request.runId, facts.attemptId, facts.number, facts.leaseEpoch, request.outcome.statementDigest,
        request.outcome.signatureKey, verdict.disposition, verdict.reason, request.outcome.observedAt)];
      if verdict.disposition.ExpiredResult? {
        var at := request.outcome.observedAt;
        var attempt := attempts[k][index];
        if !attempt.status.Terminal() {
          attempt := attempt.(status := Expired, failureReason := REASON_DEADLINE_EXCEEDED);
          attempt := attempt.(finishedAt := at, updatedAt := at);
        }
        attempts := attempts[k := attempts[k][index := attempt]];
        var task := tasks[k];
        if at > task.expiresAt && !task.status.Terminal() {
          task := task.(status := Expired, updatedAt := at);
        }
        tasks := tasks[k := task];
      }
    }

    /** Settles the attempt and, on success, the task and its registration. */
    method RecordAccepted(k: Key, index: nat, outcome: Outcome)
      requires k in tasks && k in attempts && index < |attempts[k]|
      modifies this`tasks, this`attempts, this`results
      ensures State() == Accept(old(State()), k, index, outcome)
    {
      var attempt := attempts[k][index];
      attempt := attempt.(status := if outcome.failed then Failed else Succeeded);
      attempt := attempt.(statementDigest := outcome.statementDigest, signatureKey := outcome.signatureKey);
      if outcome.failed {
        attempt := attempt.(failureReason := outcome.reasonCode);
      }
      attempt := attempt.(finishedAt := outcome.observedAt, updatedAt := outcome.observedAt);
      attempts := attempts[k := attempts[k][index := attempt]];
      var task := tasks[k].(updatedAt := outcome.observedAt);
      if outcome.failed {
        tasks := tasks[k := task];
        return;
      }
      tasks := tasks[k := task.(status := Succeeded)];
      results := results[k := Registration(
        task.taskId, attempt.id, attempt.number, attempt.leaseEpoch, task.generation, outcome.statementDigest, outcome.signatureKey,
        outcome.status, outcome.reasonCode, outcome.statement, outcome.observedAt)];
    }

    /** The position of the first slot with the given identity. */
    method FindSlot(slots: seq<Attempt>, id: AttemptId) returns (place: Option<nat>)
      ensures place == IndexOf(slots, id)
    {
      var index := 0;
      while index < |slots| && slots[index].id != id
        invariant 0 <= index <= |slots|
        invariant forall i | 0 <= i < index :: slots[i].id != id
      {
        index := index + 1;
      }
      place := if index < |slots| then Some(index) else None;
    }

    /** Decides the named slot's result and records the decision. */
    method Decide(k: Key, index: nat, request: Settle) returns (settled: Settled)
      requires k == request.Identity() && k in tasks && k in attempts
      requires IndexOf(attempts[k], request.facts.attemptId) == Some(index)
      modifies this
      ensures (State(), Ok(settled)) == DispatchRecord.Commit(old(State()), request)
    {
      var committed := if k in results then Some(results[k]) else None;
      var verdict := Evaluate(tasks[k], attempts[k][index], committed, request, request.outcome.observedAt);
      if verdict.disposition.Committed? {
        RecordAccepted(k, index, request.outcome);
      } else {
        RecordDeclined(k, index, request, verdict);
      }
      settled := Settled(verdict, tasks[k], Some(attempts[k][index]));
    }

    method Commit(request: Settle) returns (answer: Result<Settled, Problem>)
      requires Valid()
      modifies this
      ensures Valid()
      ensures (State(), answer) == DispatchRecord.Commit(old(State()), request)
      // An unknown task is refused, an unknown attempt is unbound, and any other answer shows task and attempt as they now are.
      ensures answer == Err(NoTask) <==> request.Identity() !in old(tasks)
      ensures answer.Err? ==> answer.error == NoTask && State() == old(State())
      ensures answer.Ok? ==> request.Identity() in tasks && answer.value.task == tasks[request.Identity()]
      ensures answer.Ok? ==> (answer.value.attempt.None? <==> answer.value.verdict.disposition == Unbound)
      ensures answer.Ok? ==> (answer.value.verdict.disposition == Unbound <==>
                forall i | 0 <= i < |old(State()).AttemptsOf(request.Identity())| :: old(State()).AttemptsOf(request.Identity())[i].id != request.facts.attemptId)
      ensures answer.Ok? && answer.value.attempt.Some? ==>
                answer.value.attempt.value.id == request.facts.attemptId && answer.value.attempt.value in State().AttemptsOf(request.Identity())
    {
      CommitIsAnswered(State(), request);
      hide Inv, Accept, Decline, Evaluate;
      ghost var before := State();
      var k := request.Identity();
      if k !in tasks {
        answer := Err(NoTask);
      } else {
        var slots := if k in attempts then attempts[k] else [];
        var place := FindSlot(slots, request.facts.attemptId);
        if place.None? {
          evidence := evidence + [EvidenceOf(request, UNBOUND)];
          answer := Ok(Settled(UNBOUND, tasks[k], None));
        } else {
          var settled := Decide(k, place.value, request);
          answer := Ok(settled);
        }
      }
      assert Valid() by { Runs.CommitKeepsInv(before, request); }
    }

    method RecordEvidence(e: Evidence)
      requires Valid()
      modifies this`evidence
      ensures Valid() && State() == old(State()).(evidence := old(evidence) + [e])
    {
      Runs.NotingKeepsInv(State(), e);
      evidence := evidence + [e];
    }

    /** Cancels the open slots of one task, in place, counting them. */
    method CancelSlots(k: Key, reason: string, at: Time) returns (open: nat)
      requires k in attempts
      requires OnlyLastOpen(attempts[k])
      modifies this`attempts
      ensures attempts == old(attempts)[k := CancelAttempts(old(attempts[k]), reason, at)]
      ensures open == if HasOpen(old(attempts[k])) then 1 else 0
    {
      ghost var before := attempts;
      open := 0;
      var index := 0;
      while index < |attempts[k]|
        invariant attempts.Keys == before.Keys && |attempts[k]| == |before[k]| && 0 <= index <= |before[k]|
        invariant forall j | j in before && j != k :: attempts[j] == before[j]
        invariant forall i | 0 <= i < |before[k]| ::
          attempts[k][i] == if i < index then CancelAttempt(before[k][i], reason, at) else before[k][i]
        invariant open == if HasOpen(before[k][..index]) then 1 else 0
      {
        var attempt := attempts[k][index];
        if attempt.status == Accepted || attempt.status == Running {
          open := open + 1;
          attempts := attempts[k := attempts[k][index :=
            attempt.(status := Canceled, failureReason := reason, finishedAt := at, updatedAt := at)]];
        }
        assert before[k][..index + 1] == before[k][..index] + [before[k][index]];
        index := index + 1;
      }
      assert before[k][..index] == before[k];
      assert attempts[k] == CancelAttempts(before[k], reason, at);
    }

    /** Cancels one task, in place, if the cancellation reaches it; says whether it still had an open attempt. */
    method CancelTask(k: Key, scope: Scope, runId: string, reason: string, at: Time) returns (open: nat)
      requires k in tasks
      requires k in attempts ==> OnlyLastOpen(attempts[k])
      modifies this`tasks, this`attempts
      ensures VisitedTask(old(State()), State(), k, scope, runId, reason, at)
      ensures tasks.Keys == old(tasks).Keys && attempts.Keys == old(attempts).Keys
      ensures forall j | j in tasks && j != k :: tasks[j] == old(tasks[j])
      ensures forall j | j in attempts && j != k :: attempts[j] == old(attempts[j])
      ensures open == if Counted(old(State()), scope, runId, k) then 1 else 0
    {
      open := 0;
      var task := tasks[k];
      if task.scope == scope && task.runId == runId && !task.status.Terminal() {
        if k in attempts {
          open := CancelSlots(k, reason, at);
        }
        tasks := tasks[k := task.(status := Canceled, updatedAt := at)];
      }
    }

    /** One step of the walk over all tasks. */
    method CancelNext(k: Key, scope: Scope, runId: string, reason: string, at: Time, ghost before: Record, ghost remaining: set<Key>)
      returns (open: nat)
      requires Walk(before, State(), remaining, scope, runId, reason, at) && k in remaining
      requires k in before.attempts ==> OnlyLastOpen(before.attempts[k])
      modifies this`tasks, this`attempts
      ensures Walk(before, State(), remaining - {k}, scope, runId, reason, at)
      ensures open == if Counted(before, scope, runId, k) then 1 else 0
    {
      ghost var mid := State();
      NotYetVisited(before, mid, remaining, k, scope, runId, reason, at);
      open := CancelTask(k, scope, runId, reason, at);
      WalkOn(before, mid, State(), remaining, k, scope, runId, reason, at);
    }

    /** The walk over all tasks that a cancellation makes; `work` are the tasks that had an open attempt. */
    method CancelTasks(scope: Scope, runId: string, reason: string, at: Time, ghost work: set<Key>) returns (open: nat)
      requires attempts.Keys <= tasks.Keys
      requires forall k | k in attempts :: OnlyLastOpen(attempts[k])
      requires work <= tasks.Keys
      requires forall k | k in tasks :: k in work <==> Counted(State(), scope, runId, k)
      modifies this`tasks, this`attempts
      ensures State() == AfterCancellation(old(State()), scope, runId, reason, at)
      ensures open == |work|
    {
      hide Walk, VisitedTask, SameTask, OnlyLastOpen, AfterCancellation;
      ghost var before := State();
      open := 0;
      var remaining := tasks.Keys;
      CountEnds(work, remaining);
      WalkBegins(before, scope, runId, reason, at);
      while remaining != {}
        invariant Walk(before, State(), remaining, scope, runId, reason, at)
        invariant open == |work - remaining|
        decreases |remaining|
      {
        var k :| k in remaining;
        CountOneMore(work, remaining, k);
        var found := CancelNext(k, scope, runId, reason, at, before, remaining);
        open := open + found;
        remaining := remaining - {k};
      }
      AllVisited(before, State(), scope, runId, reason, at);
    }

    method CancelRun(scope: Scope, runId: string, reason: string, at: Time) returns (answer: Result<nat, Problem>)
      requires Valid()
      modifies this`tasks, this`attempts
      ensures Valid()
      ensures (State(), answer) == DispatchRecord.CancelRun(old(State()), scope, runId, reason, at)
      // It is refused exactly without a reason code, and reports the open work it ended.
      ensures answer == Err(InvalidReason) <==> !ValidReasonCode(reason)
      ensures answer.Err? ==> answer.error == InvalidReason && State() == old(State())
      ensures answer.Ok? ==> forall k | k in old(tasks) ::
                k in tasks && (tasks[k].status == Canceled <==> old(tasks)[k].status == Canceled || Reached(old(State()), scope, runId, k))
                && (!Reached(old(State()), scope, runId, k) ==> tasks[k] == old(tasks)[k] && State().AttemptsOf(k) == old(State()).AttemptsOf(k))
                && (Reached(old(State()), scope, runId, k) ==> !HasOpen(State().AttemptsOf(k)))
    {
      var coded := IsReasonCode(reason);
      if !coded {
        return Err(InvalidReason);
      }
      Runs.CancelKeepsInv(State(), scope, runId, reason, at);
      CancellationReachesExactly(State(), scope, runId, reason, at);
      forall k | k in attempts ensures OnlyLastOpen(attempts[k]) {
        assert TaskInv(k, State().tasks[k], State().AttemptsOf(k), State().RegistrationOf(k));
      }
      var open := CancelTasks(scope, runId, reason, at, OpenWork(State(), scope, runId));
      return Ok(open);
    }
  }

  /** The raw capability travels with the execution and is never stored. */
  datatype Execution = Execution(task: Task, attempt: Attempt, fenceToken: string)

  /** What one turn asks to make executable. */
  datatype Request = Request(
    scope: Scope, taskId: string, runId: string, rootRunId: string, generation: nat, definitionDigest: string,
    runtime: RuntimeBinding, capability: string, requestDigest: string, replacing: string)
  {
    /** The task this request names, as it is before anything opened it. */
    function Task(now: Time, lease: nat): Task {
      Dispatch.Task.Task(scope, taskId, runId, rootRunId, generation, definitionDigest, runtime, capability,
                         requestDigest, Accepted, 0, 0, now + lease, now, now)
    }

    /** The opening this request asks for, against the runtime unit the stored task pinned. */
    function Opening(stored: Task, token: string, now: Time, lease: nat): Open {
      Dispatch.Open.Open(scope, taskId, DigestOf(token), stored.runtime.unitId,
                         if replacing == "" then REASON_REPLACED else replacing, now + lease, now)
    }
  }

  class Coordinator {
    const repository: MemoryRepository
    const lease: nat

    constructor (repository: MemoryRepository, lease: nat)
      requires lease > 0
      ensures this.repository == repository && this.lease == lease
    {
      this.repository := repository;
      this.lease := lease;
    }

    /** Opens the next attempt, creating the task if needed; `token` is what the token source answered. */
    method Open(request: Request, token: Option<string>, now: Time) returns (answer: Result<Execution, Problem>)
      requires repository.Valid()
      modifies repository
      ensures repository.Valid()
      ensures answer.Ok? ==>
        var (ensured, stored) := DispatchRecord.EnsureTask(old(repository.State()), request.Task(now, lease));
        && token.Some? && stored.Ok?
        && var (after, current) := DispatchRecord.OpenAttempt(ensured, request.Opening(stored.value, token.value, now, lease));
        && repository.State() == after && current.Ok?
        && answer.value == Execution(current.value.0, current.value.1, token.value)
      // It is refused exactly for an invalid task, a conflicting one, a missing token or a refused opening; only the task stays.
      ensures answer.Ok? <==>
        var (ensured, stored) := DispatchRecord.EnsureTask(old(repository.State()), request.Task(now, lease));
        && ValidTask(request.Task(now, lease)) && stored.Ok? && token.Some?
        && DispatchRecord.OpenAttempt(ensured, request.Opening(stored.value, token.value, now, lease)).1.Ok?
      ensures answer.Err? ==> repository.State() == if ValidTask(request.Task(now, lease))
                                                    then DispatchRecord.EnsureTask(old(repository.State()), request.Task(now, lease)).0
                                                    else old(repository.State())
      ensures answer.Err? ==> repository.attempts == old(repository.attempts)
      ensures repository.results == old(repository.results) && repository.evidence == old(repository.evidence)
    {
      var task := request.Task(now, lease);
      if !ValidTask(task) {
        return Err(InvalidTask);
      }
      var stored := repository.EnsureTask(task);
      if stored.Err? {
        return Err(stored.error);
      }
      if token.None? {
        return Err(NoToken);
      }
      var opening := repository.OpenAttempt(request.Opening(stored.value, token.value, now, lease));
      if opening.Err? {
        return Err(opening.error);
      }
      return Ok(Execution(opening.value.0, opening.value.1, token.value));
    }

    method Settle(request: Settle) returns (answer: Result<Settled, Problem>)
      requires repository.Valid()
      modifies repository
      ensures repository.Valid()
      ensures !(request.scope.Valid() && ValidPredicate(request.facts) && ValidOutcome(request.outcome)) ==>
        answer == Err(InvalidSettlement) && repository.State() == old(repository.State())
      ensures request.scope.Valid() && ValidPredicate(request.facts) && ValidOutcome(request.outcome) ==>
        (repository.State(), answer) == DispatchRecord.Commit(old(repository.State()), request)
    {
      if !request.scope.Valid() || !ValidPredicate(request.facts) || !ValidOutcome(request.outcome) {
        return Err(InvalidSettlement);
      }
      answer := repository.Commit(request);
    }
  }
}
