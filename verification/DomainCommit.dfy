/**
 The last local boundary before a domain owner commits an effect: one durable
 operation record and one run record, written one at a time and never together.
 */
module DomainCommit {
  import opened Wrappers

  type Time = int

  datatype Scope = Scope(workspace: string, project: string)

  datatype RunKey = RunKey(scope: Scope, id: string)
  datatype OperationKey = OperationKey(scope: Scope, id: string)

  datatype RunState = AwaitingApproval | Committing | AwaitingDomainConfirmation | Completed | Conflict | Failed
  {
    /** How far the run is through the commit boundary. */
    function Phase(): nat {
      match this
      case AwaitingApproval => 0
      case Committing => 1
      case AwaitingDomainConfirmation => 2
      case _ => 3
    }
  }

  datatype Run = Run(state: RunState, version: nat)

  datatype Command = Approve | BeginDomainConfirmation | ConfirmDomain | RecordDomainConflict | RecordDomainRejection

  datatype Status = Recorded | Issued | Awaiting | Escalated | Applied | Conflicted | Rejected
  {
    predicate Terminal() { this in {Applied, Conflicted, Rejected} }
    predicate Active() { !Terminal() }
  }

  /** What the operation is about; fixed when it is recorded. */
  datatype Binding = Binding(
    run: RunKey, authorization: string, compact: string, actionDigest: string, artifactDigest: string, expectedRevision: string,
    idempotencyKey: string, requestDigest: string, createdAt: Time)

  datatype Operation = Operation(key: OperationKey, binding: Binding, status: Status, consumed: bool, updatedAt: Time)

  datatype Outcome = OwnerApplied | OwnerConflict | OwnerRejected

  datatype Problem =
    | ProofMissing | IdempotencyConflict | VersionConflict | NotFound | InvalidTransition | OutcomeUncertain

  /** Both durable records. */
  datatype World = World(operations: map<OperationKey, Operation>, runs: map<RunKey, Run>)

  // ---- The run record --------------------------------------------------------------------

  function Target(state: RunState, command: Command): Option<RunState> {
    match command
    case Approve => if state == AwaitingApproval then Some(Committing) else None
    case BeginDomainConfirmation => if state == Committing then Some(AwaitingDomainConfirmation) else None
    case ConfirmDomain => if state == AwaitingDomainConfirmation then Some(Completed) else None
    case RecordDomainConflict => if state == AwaitingDomainConfirmation then Some(Conflict) else None
    case RecordDomainRejection => if state == AwaitingDomainConfirmation then Some(Failed) else None
  }

  /** A run transition, compare-and-set on the version. */
  function Transition(w: World, r: RunKey, version: nat, command: Command): (World, Result<Run, Problem>) {
    if r !in w.runs then (w, Err(NotFound))
    else if w.runs[r].version != version then (w, Err(VersionConflict))
    else if Target(w.runs[r].state, command).None? then (w, Err(InvalidTransition))
    else
      var next := Run(Target(w.runs[r].state, command).value, version + 1);
      (w.(runs := w.runs[r := next]), Ok(next))
  }

  // ---- The operation record --------------------------------------------------------------

  predicate StatusTransition(current: Status, next: Status) {
    || current == next
    || match current
       case Recorded => next == Issued
       case Issued => next in {Awaiting, Escalated} || next.Terminal()
       case Awaiting => next == Escalated || next.Terminal()
       case Escalated => next.Terminal()
       case _ => false
  }

  predicate ActiveFor(w: World, r: RunKey, k: OperationKey) {
    k in w.operations && w.operations[k].binding.run == r && w.operations[k].status.Active()
  }

  predicate HasActive(w: World, r: RunKey) { exists k | k in w.operations :: ActiveFor(w, r, k) }

  function Create(w: World, o: Operation): (World, Result<(), Problem>) {
    if HasActive(w, o.binding.run) then
      (w, if exists k | k in w.operations :: ActiveFor(w, o.binding.run, k) && w.operations[k] == o then Ok(()) else Err(IdempotencyConflict))
    else if o.key in w.operations then (w, if w.operations[o.key] == o then Ok(()) else Err(IdempotencyConflict))
    else (w.(operations := w.operations[o.key := o]), Ok(()))
  }

  function Mark(w: World, k: OperationKey, status: Status, now: Time): (World, Result<(), Problem>) {
    if k !in w.operations then (w, Err(NotFound))
    else if now < w.operations[k].updatedAt || !StatusTransition(w.operations[k].status, status) then (w, Err(InvalidTransition))
    else
      var o := w.operations[k];
      (w.(operations := w.operations[k := o.(status := status, updatedAt := now, consumed := o.consumed || status.Terminal())]), Ok(()))
  }

  function StatusOf(outcome: Outcome): Status {
    match outcome
    case OwnerApplied => Applied
    case OwnerConflict => Conflicted
    case OwnerRejected => Rejected
  }

  function CommandOf(outcome: Outcome): Command {
    match outcome
    case OwnerApplied => ConfirmDomain
    case OwnerConflict => RecordDomainConflict
    case OwnerRejected => RecordDomainRejection
  }

  predicate TerminalMatches(state: RunState, status: Status) {
    || (status == Applied && state == Completed)
    || (status == Conflicted && state == Conflict)
    || (status == Rejected && state == Failed)
  }

  // ---- How the two records stay coupled --------------------------------------------------

  /** The run states each operation status allows. */
  predicate Coupled(status: Status, state: RunState) {
    match status
    case Recorded => state in {AwaitingApproval, Committing}
    case Issued => state != AwaitingApproval
    case Awaiting => state.Phase() >= 2
    case Escalated => state.Phase() >= 2
    case _ => TerminalMatches(state, status)
  }

  /** An owner who may speak early can move the run of an operation whose issuance nobody has marked yet. */
  predicate Allowed(status: Status, state: RunState, early: bool) { Coupled(status, state) || (early && status == Recorded) }

  predicate OperationInv(w: World, k: OperationKey, o: Operation, early: bool) {
    && o.key == k && o.binding.run.scope == k.scope && o.binding.run in w.runs
    && Allowed(o.status, w.runs[o.binding.run].state, early)
    && (o.consumed <==> o.status.Terminal())
  }

  predicate HasOperation(w: World, r: RunKey) { exists k | k in w.operations :: w.operations[k].binding.run == r }

  ghost predicate Inv(w: World, early: bool) {
    && (forall k | k in w.operations :: OperationInv(w, k, w.operations[k], early))
    && (forall j, k | j in w.operations && k in w.operations && w.operations[j].binding.run == w.operations[k].binding.run :: j == k)
    && (forall r | r in w.runs && w.runs[r].state != AwaitingApproval :: HasOperation(w, r))
  }

  // ---- How each record may change --------------------------------------------------------

  predicate RunEvolves(a: Run, b: Run) {
    && b.version >= a.version && (b.version == a.version ==> b == a)
    && b.state.Phase() >= a.state.Phase() && (a.state.Phase() == 3 ==> b == a)
  }

  /** How far an operation is through its statuses. */
  function Standing(status: Status): nat {
    match status
    case Recorded => 0
    case Issued => 1
    case Awaiting => 2
    case Escalated => 3
    case _ => 4
  }

  /** An operation keeps its identity and authorization, never goes back, and never leaves a decided outcome. */
  predicate OperationEvolves(a: Operation, b: Operation) {
    && b.key == a.key && b.binding == a.binding && b.updatedAt >= a.updatedAt
    && Standing(b.status) >= Standing(a.status) && (a.status.Terminal() ==> b.status == a.status)
    && (a.consumed ==> b.consumed)
  }

  ghost predicate Moves(w: World, v: World) {
    && (forall k | k in w.operations :: k in v.operations && OperationEvolves(w.operations[k], v.operations[k]))
    && (forall r | r in w.runs :: r in v.runs && RunEvolves(w.runs[r], v.runs[r]))
  }

  lemma MovesTransitively(u: World, v: World, w: World)
    requires Moves(u, v) && Moves(v, w)
    ensures Moves(u, w)
  {
    forall k | k in u.operations ensures k in w.operations && OperationEvolves(u.operations[k], w.operations[k]) {
      assert OperationEvolves(u.operations[k], v.operations[k]) && OperationEvolves(v.operations[k], w.operations[k]);
    }
    forall r | r in u.runs ensures r in w.runs && RunEvolves(u.runs[r], w.runs[r]) {
      assert RunEvolves(u.runs[r], v.runs[r]) && RunEvolves(v.runs[r], w.runs[r]);
    }
  }

  // ---- Every single write, whatever was read before it -----------------------------------

  lemma StatusesOnlyAdvance(current: Status, next: Status)
    requires StatusTransition(current, next)
    ensures Standing(next) >= Standing(current) && (current.Terminal() ==> next == current)
  {}

  /** Which statuses each status may follow: an operation is issued once recorded, and decided only once issued. */
  lemma StatusesFollow(current: Status, next: Status)
    requires next != current
    ensures StatusTransition(current, next) <==>
              match next
              case Recorded => false
              case Issued => current == Recorded
              case Awaiting => current == Issued
              case Escalated => current == Issued || current == Awaiting
              case Applied => current == Issued || current == Awaiting || current == Escalated
              case Conflicted => current == Issued || current == Awaiting || current == Escalated
              case Rejected => current == Issued || current == Awaiting || current == Escalated
  {}

  lemma MarkMoves(w: World, k: OperationKey, status: Status, now: Time)
    ensures Moves(w, Mark(w, k, status, now).0)
  {
    if k in w.operations && StatusTransition(w.operations[k].status, status) { StatusesOnlyAdvance(w.operations[k].status, status); }
  }

  /** Changing one operation's status keeps everything when the new status suits the run. */
  lemma MarkKeepsInv(w: World, k: OperationKey, status: Status, now: Time, early: bool)
    requires Inv(w, early)
    requires k in w.operations && StatusTransition(w.operations[k].status, status) ==> Coupled(status, w.runs[w.operations[k].binding.run].state)
    ensures Inv(Mark(w, k, status, now).0, early) && Moves(w, Mark(w, k, status, now).0)
  {
    var v := Mark(w, k, status, now).0;
    MarkMoves(w, k, status, now);
    if v != w {
      forall j | j in v.operations ensures OperationInv(v, j, v.operations[j], early) {
        assert OperationInv(w, j, w.operations[j], early);
        if j == k { StatusesOnlyAdvance(w.operations[k].status, status); }
      }
      RunsKeepTheirOperations(w, v);
    }
  }

  lemma RunsKeepTheirOperations(w: World, v: World)
    requires forall k | k in w.operations :: k in v.operations && v.operations[k].binding == w.operations[k].binding
    ensures forall r | HasOperation(w, r) :: HasOperation(v, r)
  {
    forall r | HasOperation(w, r) ensures HasOperation(v, r) {
      var k :| k in w.operations && w.operations[k].binding.run == r;
      assert v.operations[k].binding.run == r;
    }
  }

  lemma TransitionMoves(w: World, r: RunKey, version: nat, command: Command)
    ensures Moves(w, Transition(w, r, version, command).0)
  {}

  /** Moving a run keeps everything when its operation suits the new state. */
  lemma TransitionKeepsInv(w: World, k: OperationKey, version: nat, command: Command, early: bool)
    requires Inv(w, early) && k in w.operations
    requires var r := w.operations[k].binding.run;
             r in w.runs && w.runs[r].version == version && Target(w.runs[r].state, command).Some?
             ==> Allowed(w.operations[k].status, Target(w.runs[r].state, command).value, early)
    ensures var v := Transition(w, w.operations[k].binding.run, version, command).0; Inv(v, early) && Moves(w, v)
  {
    var r := w.operations[k].binding.run;
    var v := Transition(w, r, version, command).0;
    TransitionMoves(w, r, version, command);
    if v != w {
      forall j | j in v.operations ensures OperationInv(v, j, v.operations[j], early) { assert OperationInv(w, j, w.operations[j], early); }
      RunsKeepTheirOperations(w, v);
      assert HasOperation(v, r);
    }
  }

  /** The run has not left approval since it was read. */
  predicate StillAwaitingApproval(w: World, r: RunKey) { r in w.runs && w.runs[r].state == AwaitingApproval }

  predicate FreshOperation(o: Operation) { o.status == Recorded && !o.consumed && o.binding.run.scope == o.key.scope }

  lemma AwaitingRunsAreRecorded(w: World, r: RunKey, k: OperationKey, early: bool)
    requires Inv(w, early) && StillAwaitingApproval(w, r) && k in w.operations && w.operations[k].binding.run == r
    ensures w.operations[k].status == Recorded
  {
    assert OperationInv(w, k, w.operations[k], early);
  }

  /** With nothing active for a run at approval, nothing at all is recorded for it. */
  lemma NoneRecordedAtApproval(w: World, r: RunKey, early: bool)
    requires Inv(w, early) && StillAwaitingApproval(w, r) && !HasActive(w, r)
    ensures forall k | k in w.operations :: w.operations[k].binding.run != r
  {
    forall k | k in w.operations ensures w.operations[k].binding.run != r {
      if w.operations[k].binding.run == r {
        AwaitingRunsAreRecorded(w, r, k, early);
        assert ActiveFor(w, r, k);
      }
    }
  }

  lemma CreateKeepsInv(w: World, o: Operation, early: bool)
    requires Inv(w, early) && FreshOperation(o) && StillAwaitingApproval(w, o.binding.run)
    ensures Inv(Create(w, o).0, early) && Moves(w, Create(w, o).0)
  {
    hide Inv, Moves;
    if Create(w, o).0 != w {
      NoneRecordedAtApproval(w, o.binding.run, early);
      InsertKeepsInv(w, o, early);
    } else {
      MovesToItself(w);
    }
  }

  lemma MovesToItself(w: World)
    ensures Moves(w, w)
  {}

  lemma CreateMoves(w: World, o: Operation)
    ensures Moves(w, Create(w, o).0)
  {
    if Create(w, o).0 == w { MovesToItself(w); } else { InsertMoves(w, o); }
    hide Moves, HasActive;
  }

  /** The first operation of a run at approval. */
  lemma InsertKeepsInv(w: World, o: Operation, early: bool)
    requires Inv(w, early) && FreshOperation(o) && StillAwaitingApproval(w, o.binding.run) && o.key !in w.operations
    requires forall k | k in w.operations :: w.operations[k].binding.run != o.binding.run
    ensures var v := w.(operations := w.operations[o.key := o]); Inv(v, early) && Moves(w, v)
  {
    hide Inv, OperationInv;
    var v := w.(operations := w.operations[o.key := o]);
    InsertMoves(w, o);
    InsertKeepsOperations(w, o, early);
    InsertKeepsRuns(w, o, early);
    InvByParts(v, early);
  }

  lemma InvByParts(w: World, early: bool)
    requires forall k | k in w.operations :: OperationInv(w, k, w.operations[k], early)
    requires forall j, k | j in w.operations && k in w.operations && w.operations[j].binding.run == w.operations[k].binding.run :: j == k
    requires forall r | r in w.runs && w.runs[r].state != AwaitingApproval :: HasOperation(w, r)
    ensures Inv(w, early)
  {
    hide OperationInv, HasOperation;
  }

  lemma InsertMoves(w: World, o: Operation)
    requires o.key !in w.operations
    ensures Moves(w, w.(operations := w.operations[o.key := o]))
  {}

  lemma InsertKeepsOperations(w: World, o: Operation, early: bool)
    requires Inv(w, early) && FreshOperation(o) && StillAwaitingApproval(w, o.binding.run)
    ensures var v := w.(operations := w.operations[o.key := o]); forall k | k in v.operations :: OperationInv(v, k, v.operations[k], early)
  {
    var v := w.(operations := w.operations[o.key := o]);
    forall k | k in v.operations ensures OperationInv(v, k, v.operations[k], early) {
      if k != o.key { assert OperationInv(w, k, w.operations[k], early); }
    }
  }

  lemma InsertKeepsRuns(w: World, o: Operation, early: bool)
    requires Inv(w, early) && o.key !in w.operations && forall k | k in w.operations :: w.operations[k].binding.run != o.binding.run
    ensures var v := w.(operations := w.operations[o.key := o]);
            && (forall j, k | j in v.operations && k in v.operations && v.operations[j].binding.run == v.operations[k].binding.run :: j == k)
            && (forall r | r in v.runs && v.runs[r].state != AwaitingApproval :: HasOperation(v, r))
  {
    hide OperationInv;
    RunsKeepTheirOperations(w, w.(operations := w.operations[o.key := o]));
  }

  /**
   Recording an operation that is really new keeps the records coupled exactly when its run is still
   at approval: read earlier, the run may since have been carried to its outcome by somebody else.
   */
  lemma CreationIsSafeIff(w: World, o: Operation, early: bool)
    requires Inv(w, early) && FreshOperation(o) && o.binding.run in w.runs && Create(w, o).0 != w
    ensures Inv(Create(w, o).0, early) <==> w.runs[o.binding.run].state == AwaitingApproval
  {
    var v := Create(w, o).0;
    var r := o.binding.run;
    if w.runs[r].state == AwaitingApproval {
      CreateKeepsInv(w, o, early);
    } else {
      assert HasOperation(w, r);
      var k :| k in w.operations && w.operations[k].binding.run == r;
      assert v.operations[k].binding.run == v.operations[o.key].binding.run && k != o.key;
    }
  }

  lemma PartedRecords(w: World, k: OperationKey)
    requires k in w.operations && w.operations[k].binding.run in w.runs
    requires !Coupled(w.operations[k].status, w.runs[w.operations[k].binding.run].state)
    ensures !Inv(w, false)
  {
    assert !OperationInv(w, k, w.operations[k], false);
  }
}
