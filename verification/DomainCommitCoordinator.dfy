/**
 The coordinator with nobody in between: from every state a crash can leave,
 calling it again either finishes the work or refuses and changes nothing.
 */
module DomainCommitCoordinator {
  import opened Wrappers
  import opened DomainCommit
  import opened DomainCommitRuns

  class MemoryStore {
    var values: map<OperationKey, Operation>

    constructor ()
      ensures values == map[]
    {
      values := map[];
    }

    /** The one active operation of a run. */
    method ActiveForRun(r: RunKey, ghost runs: map<RunKey, Run>) returns (found: Option<Operation>)
      ensures found.None? <==> !HasActive(World(values, runs), r)
      ensures found.Some? ==> exists k :: k in values && ActiveFor(World(values, runs), r, k) && values[k] == found.value
    {
      ghost var w := World(values, runs);
      var remaining := values.Keys;
      while remaining != {}
        invariant remaining <= values.Keys
        invariant forall k | k in values && k !in remaining :: !ActiveFor(w, r, k)
        decreases |remaining|
      {
        var k :| k in remaining;
        var value := values[k];
        assert value.status.Active() <==> value.status == Recorded || value.status == Issued || value.status == Awaiting || value.status == Escalated;
        if value.binding.run == r && (value.status == Recorded || value.status == Issued || value.status == Awaiting || value.status == Escalated) {
          assert ActiveFor(w, r, k);
          return Some(value);
        }
        remaining := remaining - {k};
      }
      return None;
    }

    method Create(o: Operation, ghost runs: map<RunKey, Run>) returns (answer: Result<(), Problem>)
      requires forall j, k | j in values && k in values && values[j].binding.run == values[k].binding.run :: j == k
      modifies this
      ensures (World(values, runs), answer) == DomainCommit.Create(World(old(values), runs), o)
      ensures answer.Err? ==> answer.error == IdempotencyConflict && values == old(values)
    {
      var prior := ActiveForRun(o.binding.run, runs);
      if prior.Some? {
        return if prior.value == o then Ok(()) else Err(IdempotencyConflict);
      }
      if o.key in values {
        return if values[o.key] == o then Ok(()) else Err(IdempotencyConflict);
      }
      values := values[o.key := o];
      return Ok(());
    }

    method Mark(k: OperationKey, status: Status, now: Time, ghost runs: map<RunKey, Run>) returns (answer: Result<(), Problem>)
      modifies this
      ensures (World(values, runs), answer) == DomainCommit.Mark(World(old(values), runs), k, status, now)
      ensures answer == Err(NotFound) <==> k !in old(values)
      ensures answer == Err(InvalidTransition) <==> k in old(values) && (now < old(values)[k].updatedAt || !StatusTransition(old(values)[k].status, status))
      ensures answer.Err? ==> values == old(values)
      ensures answer.Ok? ==> k in values && values[k].status == status && values[k].updatedAt == now && values[k].binding == old(values)[k].binding
    {
      if k !in values {
        return Err(NotFound);
      }
      var value := values[k];
      if now < value.updatedAt || !StatusTransition(value.status, status) {
        return Err(InvalidTransition);
      }
      values := values[k := value.(status := status, updatedAt := now, consumed := value.consumed || status.Terminal())];
      return Ok(());
    }
  }

  class RunStore {
    var runs: map<RunKey, Run>

    constructor (runs: map<RunKey, Run>)
      ensures this.runs == runs
    {
      this.runs := runs;
    }

    method Transition(r: RunKey, version: nat, command: Command, ghost values: map<OperationKey, Operation>) returns (answer: Result<Run, Problem>)
      modifies this
      ensures (World(values, runs), answer) == DomainCommit.Transition(World(values, old(runs)), r, version, command)
      ensures answer == Err(NotFound) <==> r !in old(runs)
      ensures answer == Err(VersionConflict) <==> r in old(runs) && old(runs)[r].version != version
      ensures answer == Err(InvalidTransition) <==> r in old(runs) && old(runs)[r].version == version && Target(old(runs)[r].state, command).None?
      ensures answer.Err? ==> runs == old(runs)
    {
      if r !in runs {
        return Err(NotFound);
      }
      if runs[r].version != version {
        return Err(VersionConflict);
      }
      var target := Target(runs[r].state, command);
      if target.None? {
        return Err(InvalidTransition);
      }
      var next := Run(target.value, version + 1);
      runs := runs[r := next];
      return Ok(next);
    }
  }

  predicate Succeeded(problem: Option<Problem>) { problem == None || problem == Some(OutcomeUncertain) }

  /** Where a replay can still take an active operation to the domain owner's answer. */
  predicate Resumable(w: World, o: Operation, expectedVersion: nat, agreed: bool)
    requires o.binding.run in w.runs
  {
    match o.status
    case Recorded => w.runs[o.binding.run].state == AwaitingApproval ==> w.runs[o.binding.run].version == expectedVersion
    case Issued => agreed && w.runs[o.binding.run].state.Phase() < 3
    case Awaiting => true
    case _ => false
  }

  /** The run's one active operation is for this same request and can still be resumed. */
  predicate Replayable(w: World, input: Input, agreed: bool) {
    exists k | k in w.operations :: ActiveFor(w, input.run, k) && SameRequest(w.operations[k], input) && input.run in w.runs
                                    && Resumable(w, w.operations[k], input.expectedVersion, agreed)
  }

  /** Nothing is recorded for the run, and it stands at approval exactly as the caller saw it. */
  predicate Untouched(w: World, input: Input, issued: Issuance) {
    && !HasActive(w, input.run) && input.run in w.runs && w.runs[input.run] == Run(AwaitingApproval, input.expectedVersion)
    && issued.baseRevision == input.expectedRevision && OperationKey(input.run.scope, issued.operation) !in w.operations
  }

  /** The run is past approval without an outcome yet, or has already this one. */
  predicate Undecided(w: World, r: RunKey, outcome: Outcome) {
    r in w.runs && (1 <= w.runs[r].state.Phase() < 3 || TerminalMatches(w.runs[r].state, StatusOf(outcome)))
  }

  /** The owner's event names an operation whose issuance is not marked yet, although its run is committing. */
  predicate Early(w: World, k: OperationKey, authorization: string) {
    && k in w.operations && w.operations[k].status == Recorded && w.operations[k].binding.authorization == authorization
    && w.operations[k].binding.run in w.runs && w.runs[w.operations[k].binding.run].state == Committing
  }

  lemma OneActive(w: World, input: Input, k: OperationKey, agreed: bool)
    requires Inv(w, false) && k in w.operations && ActiveFor(w, input.run, k)
    ensures input.run in w.runs && OperationInv(w, k, w.operations[k], false) && HasActive(w, input.run)
    ensures Replayable(w, input, agreed) <==> SameRequest(w.operations[k], input) && Resumable(w, w.operations[k], input.expectedVersion, agreed)
  {
    assert OperationInv(w, k, w.operations[k], false);
  }

  lemma StoredOperation(w: World, o: Operation)
    requires Inv(w, false) && o.key in w.operations && w.operations[o.key] == o
    ensures o.binding.run in w.runs && Coupled(o.status, w.runs[o.binding.run].state)
  {
    assert OperationInv(w, o.key, o, false);
  }

  lemma ConfirmationSuits(status: Status)
    ensures Coupled(status, Committing) && status != Recorded ==> Coupled(status, AwaitingDomainConfirmation)
  {}

  lemma OutcomeSuits(status: Status, outcome: Outcome)
    requires Coupled(status, AwaitingDomainConfirmation)
    ensures var target := Target(AwaitingDomainConfirmation, CommandOf(outcome));
            target.Some? && Coupled(status, target.value) && TerminalMatches(target.value, StatusOf(outcome))
  {}

  /** An outcome can be recorded on any issued operation whose run has it. */
  lemma OutcomeIsRecordable(status: Status, state: RunState, outcome: Outcome)
    requires Coupled(status, state) && status != Recorded && TerminalMatches(state, StatusOf(outcome))
    ensures StatusTransition(status, StatusOf(outcome)) && Coupled(StatusOf(outcome), state)
  {}

  /** A legal mark, made in time, is applied to that operation alone. */
  lemma MarkIsApplied(w: World, o: Operation, status: Status, now: Time)
    requires o.key in w.operations && w.operations[o.key] == o && now >= o.updatedAt && StatusTransition(o.status, status)
    ensures Mark(w, o.key, status, now)
            == (w.(operations := w.operations[o.key := o.(status := status, updatedAt := now, consumed := o.consumed || status.Terminal())]), Ok(()))
  {}

  /** An operation that was never issued has a run past approval exactly when that is committing. */
  lemma EarlyIsUndecided(w: World, k: OperationKey, outcome: Outcome)
    requires Inv(w, false) && k in w.operations
    ensures var o := w.operations[k];
            o.key == k && o.binding.run in w.runs
            && (o.status == Recorded ==> (Undecided(w, o.binding.run, outcome) <==> w.runs[o.binding.run].state == Committing))
  {
    assert OperationInv(w, k, w.operations[k], false);
  }

  /** Each outcome has a state and a status of its own. */
  lemma OutcomesAreDistinct(outcome: Outcome, state: RunState)
    requires TerminalMatches(state, StatusOf(outcome))
    ensures (outcome == OwnerApplied <==> state == Completed) && (outcome == OwnerApplied <==> StatusOf(outcome) == Applied)
    ensures (outcome == OwnerConflict <==> state == Conflict) && (outcome == OwnerConflict <==> StatusOf(outcome) == Conflicted)
    ensures (outcome == OwnerRejected <==> state == Failed) && (outcome == OwnerRejected <==> StatusOf(outcome) == Rejected)
  {}

  /** The last mark of an event decides an issued operation, and is refused on one that never was. */
  lemma LastMark(w: World, o: Operation, outcome: Outcome, now: Time)
    requires o.key in w.operations && w.operations[o.key] == o && now >= o.updatedAt && o.binding.run in w.runs
    requires TerminalMatches(w.runs[o.binding.run].state, StatusOf(outcome)) && (o.status != Recorded ==> Inv(w, false))
    ensures var (v, answer) := Mark(w, o.key, StatusOf(outcome), now);
            && Moves(w, v) && (o.status == Recorded <==> answer.Err?) && (Inv(v, false) <==> answer.Ok?)
            && v == if answer.Err? then w
                    else w.(operations := w.operations[o.key := o.(status := StatusOf(outcome), updatedAt := now, consumed := true)])
  {
    MarkMoves(w, o.key, StatusOf(outcome), now);
    if o.status != Recorded {
      assert OperationInv(w, o.key, o, false);
      hide Inv;
      OutcomeIsRecordable(o.status, w.runs[o.binding.run].state, outcome);
      MarkIsApplied(w, o, StatusOf(outcome), now);
      MarkKeepsInv(w, o.key, StatusOf(outcome), now, false);
    } else {
      PartedRecords(w, o.key);
    }
  }

  class Coordinator {
    const store: MemoryStore
    const runStore: RunStore

    constructor (runs: map<RunKey, Run>)
      requires forall r | r in runs :: runs[r].state == AwaitingApproval
      ensures fresh(store) && fresh(runStore) && Valid() && State() == World(map[], runs)
    {
      store := new MemoryStore();
      runStore := new RunStore(runs);
    }

    ghost function State(): World
      reads store, runStore
    {
      World(store.values, runStore.runs)
    }

    ghost predicate Valid()
      reads store, runStore
    {
      Inv(State(), false)
    }

    /** Moves the run of a stored operation. */
    method Move(o: Operation, version: nat, command: Command) returns (answer: Result<Run, Problem>)
      requires Valid() && o.key in store.values && store.values[o.key].binding == o.binding
      requires var r := o.binding.run;
               r in runStore.runs && runStore.runs[r].version == version && Target(runStore.runs[r].state, command).Some?
               ==> Coupled(store.values[o.key].status, Target(runStore.runs[r].state, command).value)
      modifies runStore
      ensures Valid() && Moves(old(State()), State())
      ensures (State(), answer) == Transition(old(State()), o.binding.run, version, command)
    {
      TransitionKeepsInv(State(), o.key, version, command, false);
      answer := runStore.Transition(o.binding.run, version, command, store.values);
    }

    /** Moves the status of a stored operation. */
    method MarkStatus(k: OperationKey, status: Status, now: Time) returns (answer: Result<(), Problem>)
      requires Valid() && k in store.values
      requires StatusTransition(store.values[k].status, status) ==> Coupled(status, runStore.runs[store.values[k].binding.run].state)
      modifies store
      ensures Valid() && Moves(old(State()), State())
      ensures (State(), answer) == Mark(old(State()), k, status, now)
    {
      MarkKeepsInv(State(), k, status, now, false);
      answer := store.Mark(k, status, now, runStore.runs);
    }

    /** Takes the run of an operation out of committing, if that is where it is. */
    method BeginConfirmation(o: Operation) returns (current: Run)
      requires Valid() && o.key in store.values && store.values[o.key] == o
      modifies runStore
      ensures Moves(old(State()), State()) && (o.status != Recorded ==> Valid())
      ensures o.binding.run in old(runStore.runs) && o.binding.run in runStore.runs && runStore.runs[o.binding.run] == current
      ensures old(runStore.runs)[o.binding.run].state == Committing ==> current.state == AwaitingDomainConfirmation
      ensures old(runStore.runs)[o.binding.run].state != Committing ==> runStore.runs == old(runStore.runs)
    {
      hide Inv, Moves, OperationInv, Coupled;
      MovesToItself(State());
      StoredOperation(State(), o);
      current := runStore.runs[o.binding.run];
      if current.state == Committing {
        ConfirmationSuits(o.status);
        TransitionMoves(State(), o.binding.run, current.version, BeginDomainConfirmation);
        if o.status != Recorded { TransitionKeepsInv(State(), o.key, current.version, BeginDomainConfirmation, false); }
        var moved := runStore.Transition(o.binding.run, current.version, BeginDomainConfirmation, store.values);
        current := moved.value;
      }
    }

    /** Carries an issued operation and its run to the point where only the owner decides. */
    method AwaitConfirmation(o: Operation, now: Time) returns (answer: Operation, problem: Option<Problem>)
      requires Valid() && o.key in store.values && store.values[o.key] == o && o.status == Issued && now >= o.updatedAt
      modifies store, runStore
      ensures Valid() && Moves(old(State()), State())
      ensures problem == None <==> old(runStore.runs)[o.binding.run].state.Phase() < 3
      ensures problem == None ==> store.values == old(store.values)[o.key := answer] && answer == o.(status := Awaiting, updatedAt := now)
      ensures problem == None ==> o.binding.run in runStore.runs && runStore.runs[o.binding.run].state == AwaitingDomainConfirmation
      ensures problem != None ==> State() == old(State()) && problem == Some(InvalidTransition)
    {
      ghost var before := State();
      assert OperationInv(before, o.key, o, false);
      var current := BeginConfirmation(o);
      if current.state != AwaitingDomainConfirmation {
        return o, Some(InvalidTransition);
      }
      ghost var middle := State();
      assert OperationInv(middle, o.key, o, false);
      MarkIsApplied(middle, o, Awaiting, now);
      hide Moves, Inv, OperationInv, Mark;
      var marked := MarkStatus(o.key, Awaiting, now);
      MovesTransitively(before, middle, State());
      return o.(status := Awaiting, updatedAt := now), None;
    }

    /** Approves the run if it still is at approval, and marks the operation issued. */
    method Issue(expectedVersion: nat, o: Operation, now: Time) returns (answer: Operation, problem: Option<Problem>)
      requires Valid() && o.key in store.values && store.values[o.key] == o && o.status == Recorded && now >= o.updatedAt
      modifies store, runStore
      ensures Valid() && Moves(old(State()), State())
      ensures problem == None <==> Resumable(old(State()), o, expectedVersion, true)
      ensures problem == None ==> answer == o.(status := Issued, updatedAt := now) && store.values == old(store.values)[o.key := answer]
      ensures problem == None ==> o.binding.run in runStore.runs && runStore.runs[o.binding.run].state == Committing
      ensures problem != None ==> State() == old(State()) && problem == Some(VersionConflict)
    {
      MovesToItself(State());
      assert OperationInv(State(), o.key, o, false);
      ghost var before := State();
      var current := runStore.runs[o.binding.run];
      if current.state == AwaitingApproval {
        if current.version != expectedVersion {
          return o, Some(VersionConflict);
        }
        var moved := Move(o, current.version, Approve);
        current := moved.value;
      }
      ghost var middle := State();
      MarkIsApplied(middle, o, Issued, now);
      hide Moves, Inv, Mark;
      var marked := MarkStatus(o.key, Issued, now);
      MovesTransitively(before, middle, State());
      return o.(status := Issued, updatedAt := now), None;
    }

    /**
     Continues an active operation from wherever an earlier call was cut short. `agreed` says that
     whatever the owner already recorded under the operation carries its own authorization.
     */
    method Resume(expectedVersion: nat, o: Operation, agreed: bool, now: Time) returns (answer: Operation, problem: Option<Problem>)
      requires Valid() && o.key in store.values && store.values[o.key] == o && o.status.Active() && now >= o.updatedAt
      modifies store, runStore
      ensures Valid() && Moves(old(State()), State())
      ensures o.binding.run in old(runStore.runs) && (Succeeded(problem) <==> Resumable(old(State()), o, expectedVersion, agreed))
      ensures Succeeded(problem) ==> o.key in store.values && store.values[o.key] == answer && answer.status == Awaiting && answer.binding == o.binding
      ensures Succeeded(problem) && o.status != Awaiting ==> runStore.runs[o.binding.run].state == AwaitingDomainConfirmation
      ensures problem == Some(OutcomeUncertain) ==> o.status == Issued
      ensures !Succeeded(problem) || o.status == Awaiting ==> State() == old(State())
      // Why it fails, or that the owner's answer may already be out.
      ensures problem == match o.status
                         case Awaiting => None
                         case Recorded => if Resumable(old(State()), o, expectedVersion, agreed) then None else Some(VersionConflict)
                         case Issued =>
                           if !agreed then Some(IdempotencyConflict)
                           else if Resumable(old(State()), o, expectedVersion, agreed) then Some(OutcomeUncertain) else Some(InvalidTransition)
                         case _ => Some(InvalidTransition)
    {
      MovesToItself(State());
      assert OperationInv(State(), o.key, o, false);
      ghost var before := State();
      if o.status == Awaiting {
        return o, None;
      }
      if o.status == Recorded {
        answer, problem := Issue(expectedVersion, o, now);
        if problem != None {
          return;
        }
        ghost var middle := State();
        answer, problem := AwaitConfirmation(answer, now);
        MovesTransitively(before, middle, State());
        return;
      }
      if o.status == Issued {
        if !agreed {
          return o, Some(IdempotencyConflict);
        }
        answer, problem := AwaitConfirmation(o, now);
        problem := if problem == None then Some(OutcomeUncertain) else problem;
        return;
      }
      return o, Some(InvalidTransition);
    }

    /** Records and drives a governed effect nothing has been recorded for. */
    method StartUntouched(input: Input, issued: Issuance, now: Time) returns (answer: Option<Operation>, problem: Option<Problem>)
      requires Valid() && !HasActive(State(), input.run)
      modifies store, runStore
      ensures Valid() && Moves(old(State()), State())
      ensures Succeeded(problem) <==> Untouched(old(State()), input, issued)
      ensures Succeeded(problem) ==> answer.Some? && answer.value.key in store.values && store.values[answer.value.key] == answer.value
      ensures Succeeded(problem) ==> answer.value.status == Awaiting && answer.value.binding.run == input.run && SameRequest(answer.value, input)
      ensures Succeeded(problem) ==>
                var b := answer.value.binding;
                b.expectedRevision == input.expectedRevision && b.idempotencyKey == input.idempotencyKey && b.requestDigest == input.requestDigest
      ensures Succeeded(problem) ==> input.run in runStore.runs && runStore.runs[input.run].state.Phase() >= 2
      ensures !Succeeded(problem) ==> State() == old(State())
      ensures problem == Some(NotFound) <==> input.run !in old(runStore.runs)
      ensures problem == Some(VersionConflict) <==>
                input.run in old(runStore.runs) && old(runStore.runs)[input.run] != Run(AwaitingApproval, input.expectedVersion)
      ensures problem == Some(ProofMissing) <==>
                input.run in old(runStore.runs) && old(runStore.runs)[input.run] == Run(AwaitingApproval, input.expectedVersion)
                && issued.baseRevision != input.expectedRevision
      ensures problem in {None, Some(NotFound), Some(VersionConflict), Some(ProofMissing), Some(IdempotencyConflict)}
    {
      MovesToItself(State());
      ghost var before := State();
      if input.run !in runStore.runs {
        return None, Some(NotFound);
      }
      var current := runStore.runs[input.run];
      if current.state != AwaitingApproval || current.version != input.expectedVersion {
        return None, Some(VersionConflict);
      }
      if issued.baseRevision != input.expectedRevision {
        return None, Some(ProofMissing);
      }
      var o := NewOperation(input, issued, now);
      NoneRecordedAtApproval(before, input.run, false);
      CreateKeepsInv(before, o, false);
      var created := store.Create(o, runStore.runs);
      if created.Err? {
        return None, Some(created.error);
      }
      ghost var middle := State();
      var resumed, trouble := Resume(input.expectedVersion, o, true, now);
      MovesTransitively(before, middle, State());
      return Some(resumed), trouble;
    }

    /** Starts, or replays, the governed effect of a run. */
    method Start(input: Input, issued: Issuance, agreed: bool, now: Time) returns (answer: Option<Operation>, problem: Option<Problem>)
      requires Valid() && forall k | k in store.values :: now >= store.values[k].updatedAt
      modifies store, runStore
      ensures Valid() && Moves(old(State()), State())
      // It succeeds exactly from a resumable operation of the same request, or from an untouched run at approval.
      ensures Succeeded(problem) <==> Replayable(old(State()), input, agreed) || Untouched(old(State()), input, issued)
      ensures Succeeded(problem) ==> answer.Some? && answer.value.key in store.values && store.values[answer.value.key] == answer.value
      ensures Succeeded(problem) ==> answer.value.status == Awaiting && answer.value.binding.run == input.run && SameRequest(answer.value, input)
      ensures Succeeded(problem) ==>
                var b := answer.value.binding;
                b.expectedRevision == input.expectedRevision && b.idempotencyKey == input.idempotencyKey && b.requestDigest == input.requestDigest
      ensures Succeeded(problem) ==> input.run in runStore.runs && runStore.runs[input.run].state.Phase() >= 2
      ensures !Succeeded(problem) ==> State() == old(State())
      // An active operation of another request is a conflict; of this one it is resumed; with none it is what the run allows.
      ensures (exists k | k in old(store.values) :: ActiveFor(old(State()), input.run, k) && !SameRequest(old(store.values)[k], input)) ==>
                problem == Some(IdempotencyConflict)
      ensures !HasActive(old(State()), input.run) ==>
                && (problem == Some(NotFound) <==> input.run !in old(runStore.runs))
                && (problem == Some(VersionConflict) <==>
                      input.run in old(runStore.runs) && old(runStore.runs)[input.run] != Run(AwaitingApproval, input.expectedVersion))
    {
      MovesToItself(State());
      ghost var before := State();
      var prior := store.ActiveForRun(input.run, runStore.runs);
      if prior.None? {
        answer, problem := StartUntouched(input, issued, now);
        return;
      }
      ghost var k :| k in store.values && ActiveFor(before, input.run, k) && store.values[k] == prior.value;
      OneActive(before, input, k, agreed);
      if !SameRequest(prior.value, input) {
        return None, Some(IdempotencyConflict);
      }
      var resumed, trouble := Resume(input.expectedVersion, prior.value, agreed, now);
      assert Succeeded(trouble) ==> OperationInv(State(), k, resumed, false);
      return Some(resumed), trouble;
    }

    /** Projects the owner's outcome onto the run, and then onto the operation. */
    method HandleEvent(k: OperationKey, authorization: string, outcome: Outcome, now: Time) returns (answer: Result<Run, Problem>)
      requires Valid() && (k in store.values ==> now >= store.values[k].updatedAt)
      modifies store, runStore
      ensures Moves(old(State()), State())
      // The two records stay coupled exactly when the event is not an early one; an early one moves the run alone and is refused.
      ensures Valid() <==> !Early(old(State()), k, authorization)
      ensures Early(old(State()), k, authorization) ==>
                && answer.Err? && store.values == old(store.values)
                && var r := store.values[k].binding.run; r in runStore.runs && TerminalMatches(runStore.runs[r].state, StatusOf(outcome))
      // Any other is refused only for another authorization, an operation never issued, or an outcome that contradicts the
      // run's own; a redelivery finishes what was cut short.
      ensures answer.Ok? <==> k in old(store.values) && old(store.values)[k].binding.authorization == authorization
                              && old(store.values)[k].status != Recorded && Undecided(old(State()), old(store.values)[k].binding.run, outcome)
      ensures answer.Ok? ==> k in store.values && store.values[k].status == StatusOf(outcome) && store.values[k].consumed
      ensures answer.Ok? ==> TerminalMatches(answer.value.state, StatusOf(outcome)) && runStore.runs[store.values[k].binding.run] == answer.value
      // The outcome is the owner's own: completed and applied, in conflict and conflicted, or failed and rejected.
      ensures answer.Ok? ==> (outcome == OwnerApplied <==> answer.value.state == Completed) && (outcome == OwnerApplied <==> store.values[k].status == Applied)
      ensures answer.Ok? ==> (outcome == OwnerConflict <==> answer.value.state == Conflict) && (outcome == OwnerConflict <==> store.values[k].status == Conflicted)
      ensures answer.Ok? ==> (outcome == OwnerRejected <==> answer.value.state == Failed) && (outcome == OwnerRejected <==> store.values[k].status == Rejected)
      // The reasons it is refused for.
      ensures answer == Err(NotFound) <==> k !in old(store.values)
      ensures answer == Err(IdempotencyConflict) <==> k in old(store.values) && old(store.values)[k].binding.authorization != authorization
      ensures answer.Err? ==> answer.error in {NotFound, IdempotencyConflict, InvalidTransition}
      ensures answer.Err? && !Early(old(State()), k, authorization) ==> State() == old(State())
    {
      hide Moves, Inv, OperationInv, Mark;
      MovesToItself(State());
      ghost var before := State();
      if k !in store.values {
        return Err(NotFound);
      }
      var o := store.values[k];
      if o.binding.authorization != authorization {
        return Err(IdempotencyConflict);
      }
      EarlyIsUndecided(before, k, outcome);
      answer := Project(o, outcome);
      if answer.Err? {
        return;
      }
      OutcomesAreDistinct(outcome, answer.value.state);
      ghost var middle := State();
      LastMark(middle, o, outcome, now);
      MovesTransitively(before, middle, Mark(middle, k, StatusOf(outcome), now).0);
      var finalized := store.Mark(k, StatusOf(outcome), now, runStore.runs);
      if finalized.Err? {
        return Err(finalized.error);
      }
    }

    /** The owner's outcome, on a run that awaits it. */
    method Confirm(o: Operation, outcome: Outcome) returns (updated: Run)
      requires o.key in store.values && store.values[o.key] == o && (o.status != Recorded ==> Valid())
      requires o.binding.run in runStore.runs && runStore.runs[o.binding.run].state == AwaitingDomainConfirmation
      modifies runStore
      ensures Moves(old(State()), State()) && (o.status != Recorded ==> Valid())
      ensures o.binding.run in runStore.runs && runStore.runs[o.binding.run] == updated && TerminalMatches(updated.state, StatusOf(outcome))
    {
      var version := runStore.runs[o.binding.run].version;
      TransitionMoves(State(), o.binding.run, version, CommandOf(outcome));
      if o.status != Recorded {
        assert OperationInv(State(), o.key, o, false);
        OutcomeSuits(o.status, outcome);
        TransitionKeepsInv(State(), o.key, version, CommandOf(outcome), false);
      }
      var moved := runStore.Transition(o.binding.run, version, CommandOf(outcome), store.values);
      updated := moved.value;
    }

    /** Carries the run of an operation to the owner's outcome, unless it is there already. */
    method Project(o: Operation, outcome: Outcome) returns (answer: Result<Run, Problem>)
      requires Valid() && o.key in store.values && store.values[o.key] == o
      modifies runStore
      ensures Moves(old(State()), State()) && (o.status != Recorded ==> Valid()) && o.binding.run in old(runStore.runs)
      ensures answer.Ok? <==> Undecided(old(State()), o.binding.run, outcome)
      ensures answer.Ok? ==> o.binding.run in runStore.runs && runStore.runs[o.binding.run] == answer.value && TerminalMatches(answer.value.state, StatusOf(outcome))
      ensures answer.Err? ==> State() == old(State()) && answer.error == InvalidTransition
    {
      ghost var before := State();
      assert OperationInv(before, o.key, o, false);
      var current := BeginConfirmation(o);
      ghost var middle := State();
      if current.state == AwaitingDomainConfirmation {
        var updated := Confirm(o, outcome);
        MovesTransitively(before, middle, State());
        return Ok(updated);
      }
      if !TerminalMatches(current.state, StatusOf(outcome)) {
        return Err(InvalidTransition);
      }
      return Ok(current);
    }
  }
}
