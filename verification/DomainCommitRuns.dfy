/**
 The commit protocol under crashes, replays and concurrent callers. A process
 reads one record or writes one record in a step; it may stop after any of them.
 */
module DomainCommitRuns {
  import opened Wrappers
  import opened DomainCommit

  datatype Input = Input(run: RunKey, expectedVersion: nat, expectedRevision: string, idempotencyKey: string, requestDigest: string)

  /** What the issuer and the identity source hand out. */
  datatype Issuance = Issuance(
    operation: string, authorization: string, compact: string, actionDigest: string, artifactDigest: string, baseRevision: string)

  datatype Process =
    | Starting(input: Input)                                       // no active operation was found
    | Creating(input: Input, op: Operation)
    | Resuming(input: Input, op: Operation)
    | Approving(input: Input, op: Operation, seen: Run)
    | MarkingIssued(op: Operation)
    | Confirming(op: Operation)
    | Beginning(op: Operation, seen: Run)
    | MarkingAwaiting(op: Operation)
    | Deciding(op: Operation, outcome: Outcome)                    // an owner's event, from here down
    | EventBeginning(op: Operation, outcome: Outcome, seen: Run)
    | Settling(op: Operation, outcome: Outcome, seen: Run)
    | Finalizing(op: Operation, outcome: Outcome)
    | Finished(op: Operation)

  datatype Config = Config(world: World, processes: map<nat, Process>)

  datatype Step =
    | Arrive(run: RunKey, version: nat)                            // a run reaches approval
    | BeginStart(p: nat, input: Input, found: Option<OperationKey>)
    | BeginEvent(p: nat, key: OperationKey, authorization: string, outcome: Outcome)
    | Advance(p: nat, now: Time, issued: Issuance)
    | Crash(p: nat)

  function Goto(c: Config, p: nat, process: Process): Config { c.(processes := c.processes[p := process]) }
  function Stop(c: Config, p: nat): Config { c.(processes := c.processes - {p}) }

  function NewOperation(input: Input, issued: Issuance, now: Time): Operation {
    Operation(
      OperationKey(input.run.scope, issued.operation),
      Binding(input.run, issued.authorization, issued.compact, issued.actionDigest, issued.artifactDigest, issued.baseRevision,
              input.idempotencyKey, input.requestDigest, now),
      Recorded, false, now)
  }

  predicate SameRequest(o: Operation, input: Input) {
    && o.binding.expectedRevision == input.expectedRevision && o.binding.idempotencyKey == input.idempotencyKey
    && o.binding.requestDigest == input.requestDigest
  }

  predicate Reads(process: Process) { process.Starting? || process.Resuming? || process.Confirming? || process.Deciding? }
  predicate WritesRun(process: Process) { process.Approving? || process.Beginning? || process.EventBeginning? || process.Settling? }
  predicate Marks(process: Process) { process.MarkingIssued? || process.MarkingAwaiting? || process.Finalizing? }

  /** Where a process goes once it has read the run; None when it gives up. */
  function AfterRead(w: World, process: Process, now: Time, issued: Issuance): Option<Process>
    requires Reads(process)
  {
    var r := if process.Starting? then process.input.run else process.op.binding.run;
    if r !in w.runs then None
    else
      var run := w.runs[r];
      match process
      case Starting(input) =>
        if run.state == AwaitingApproval && run.version == input.expectedVersion && issued.baseRevision == input.expectedRevision
        then Some(Creating(input, NewOperation(input, issued, now))) else None
      case Resuming(input, op) =>
        if op.status == Awaiting then Some(Finished(op))
        else if op.status == Issued then Some(Confirming(op))
        else if op.status == Recorded && run.state == AwaitingApproval && run.version == input.expectedVersion then Some(Approving(input, op, run))
        else if op.status == Recorded && run.state == Committing then Some(MarkingIssued(op))
        else None
      case Confirming(op) =>
        if run.state == Committing then Some(Beginning(op, run))
        else if run.state == AwaitingDomainConfirmation then Some(MarkingAwaiting(op))
        else None
      case Deciding(op, outcome) =>
        if run.state == Committing then Some(EventBeginning(op, outcome, run))
        else if run.state == AwaitingDomainConfirmation then Some(Settling(op, outcome, run))
        else if TerminalMatches(run.state, StatusOf(outcome)) then Some(Finalizing(op, outcome))
        else None
  }

  function RunCommand(process: Process): Command
    requires WritesRun(process)
  {
    match process
    case Approving(_, _, _) => Approve
    case Settling(_, outcome, _) => CommandOf(outcome)
    case _ => BeginDomainConfirmation
  }

  function AfterRunWrite(process: Process, run: Run): Process
    requires WritesRun(process)
  {
    match process
    case Approving(_, op, _) => MarkingIssued(op)
    case Beginning(op, _) => MarkingAwaiting(op)
    case EventBeginning(op, outcome, _) => Settling(op, outcome, run)
    case Settling(op, outcome, _) => Finalizing(op, outcome)
  }

  function MarkStatus(process: Process): Status
    requires Marks(process)
  {
    match process
    case MarkingIssued(_) => Issued
    case MarkingAwaiting(_) => Awaiting
    case Finalizing(_, outcome) => StatusOf(outcome)
  }

  function AfterMark(process: Process): Process
    requires Marks(process)
  {
    if process.MarkingIssued? then Confirming(process.op) else Finished(process.op)
  }

  /** One step of one process: one read, or one write. */
  function AdvanceProcess(c: Config, p: nat, now: Time, issued: Issuance): Config
    requires p in c.processes
  {
    var process := c.processes[p];
    if Reads(process) then
      var next := AfterRead(c.world, process, now, issued);
      if next.Some? then Goto(c, p, next.value) else Stop(c, p)
    else if WritesRun(process) then
      var (w, answer) := Transition(c.world, process.op.binding.run, process.seen.version, RunCommand(process));
      if answer.Ok? then Goto(c.(world := w), p, AfterRunWrite(process, answer.value)) else Stop(c, p)
    else if Marks(process) then
      var (w, answer) := Mark(c.world, process.op.key, MarkStatus(process), now);
      if answer.Ok? then Goto(c.(world := w), p, AfterMark(process)) else Stop(c, p)
    else if process.Creating? then
      var (w, answer) := Create(c.world, process.op);
      if answer.Ok? then Goto(c.(world := w), p, Resuming(process.input, process.op)) else Stop(c, p)
    else c
  }

  function Apply(c: Config, s: Step): Config {
    match s
    case Arrive(r, version) => if r in c.world.runs then c else c.(world := c.world.(runs := c.world.runs[r := Run(AwaitingApproval, version)]))
    case BeginStart(p, input, found) =>
      (match found
       case None => if HasActive(c.world, input.run) then c else Goto(c, p, Starting(input))
       case Some(k) =>
         if !ActiveFor(c.world, input.run, k) || !SameRequest(c.world.operations[k], input) then c
         else Goto(c, p, Resuming(input, c.world.operations[k])))
    case BeginEvent(p, k, authorization, outcome) =>
      if k !in c.world.operations || c.world.operations[k].binding.authorization != authorization then c
      else Goto(c, p, Deciding(c.world.operations[k], outcome))
    case Advance(p, now, issued) => if p in c.processes then AdvanceProcess(c, p, now, issued) else c
    case Crash(p) => Stop(c, p)
  }

  /** The owner speaks only of operations that were issued. */
  predicate OwnerSpeaksOfIssued(c: Config, s: Step) {
    s.BeginEvent? && s.key in c.world.operations ==> c.world.operations[s.key].status != Recorded
  }

  /** The step records a really new operation. */
  predicate Records(c: Config, s: Step) {
    && s.Advance? && s.p in c.processes && c.processes[s.p].Creating? && Create(c.world, c.processes[s.p].op).0 != c.world
  }

  /** A really new operation is recorded only for a run that is still at approval. */
  predicate MeetsApproval(c: Config, s: Step) {
    Records(c, s) ==> StillAwaitingApproval(c.world, c.processes[s.p].op.binding.run)
  }

  function Exec(c: Config, steps: seq<Step>): Config
    decreases |steps|
  {
    if steps == [] then c else Exec(Apply(c, steps[0]), steps[1..])
  }

  predicate OwnerAlwaysSpeaksOfIssued(c: Config, steps: seq<Step>)
    decreases |steps|
  {
    steps != [] ==> OwnerSpeaksOfIssued(c, steps[0]) && OwnerAlwaysSpeaksOfIssued(Apply(c, steps[0]), steps[1..])
  }

  predicate EveryRecordingMeetsApproval(c: Config, steps: seq<Step>)
    decreases |steps|
  {
    steps != [] ==> MeetsApproval(c, steps[0]) && EveryRecordingMeetsApproval(Apply(c, steps[0]), steps[1..])
  }

  // ---- The invariant ---------------------------------------------------------------------

  /** The operation a process holds is on the record, perhaps further on. */
  predicate Seen(w: World, op: Operation) { op.key in w.operations && OperationEvolves(op, w.operations[op.key]) && op.binding.run in w.runs }

  predicate RunSeen(w: World, op: Operation, seen: Run) { Seen(w, op) && RunEvolves(seen, w.runs[op.binding.run]) }

  predicate IsIssued(w: World, op: Operation) { Seen(w, op) && w.operations[op.key].status != Recorded }

  /** What an owner's event is about: any operation on the record, or only one that was issued. */
  predicate Spoken(w: World, op: Operation, early: bool) { Seen(w, op) && (early || IsIssued(w, op)) }

  predicate PhaseAtLeast(w: World, op: Operation, phase: nat) { Seen(w, op) && w.runs[op.binding.run].state.Phase() >= phase }

  predicate ProcessInv(w: World, process: Process, early: bool) {
    match process
    case Starting(_) => true
    case Creating(input, op) => FreshOperation(op) && op.binding.run == input.run && input.run in w.runs
    case Resuming(_, op) => Seen(w, op)
    case Approving(_, op, seen) => RunSeen(w, op, seen) && seen.state == AwaitingApproval
    case MarkingIssued(op) => PhaseAtLeast(w, op, 1)
    case Confirming(op) => IsIssued(w, op)
    case Beginning(op, seen) => IsIssued(w, op) && RunSeen(w, op, seen) && seen.state == Committing
    case MarkingAwaiting(op) => IsIssued(w, op) && PhaseAtLeast(w, op, 2)
    case Deciding(op, _) => Spoken(w, op, early)
    case EventBeginning(op, _, seen) => Spoken(w, op, early) && RunSeen(w, op, seen) && seen.state == Committing
    case Settling(op, _, seen) => Spoken(w, op, early) && RunSeen(w, op, seen) && seen.state == AwaitingDomainConfirmation
    case Finalizing(op, outcome) => Spoken(w, op, early) && TerminalMatches(w.runs[op.binding.run].state, StatusOf(outcome))
    case Finished(op) => Seen(w, op)
  }

  ghost predicate ConfigInv(c: Config, early: bool) {
    Inv(c.world, early) && forall p | p in c.processes :: ProcessInv(c.world, c.processes[p], early)
  }

  lemma SeenStays(w: World, v: World, op: Operation)
    requires Moves(w, v) && Seen(w, op)
    ensures Seen(v, op) && (IsIssued(w, op) ==> IsIssued(v, op))
    ensures v.runs[op.binding.run].state.Phase() >= w.runs[op.binding.run].state.Phase()
    ensures w.runs[op.binding.run].state.Phase() == 3 ==> v.runs[op.binding.run] == w.runs[op.binding.run]
  {
    assert OperationEvolves(w.operations[op.key], v.operations[op.key]) && RunEvolves(w.runs[op.binding.run], v.runs[op.binding.run]);
  }

  lemma RunSeenStays(w: World, v: World, op: Operation, seen: Run)
    requires Moves(w, v) && RunSeen(w, op, seen)
    ensures RunSeen(v, op, seen)
  {
    SeenStays(w, v, op);
    assert RunEvolves(w.runs[op.binding.run], v.runs[op.binding.run]);
  }

  lemma ProcessInvStays(w: World, v: World, process: Process, early: bool)
    requires Moves(w, v) && ProcessInv(w, process, early)
    ensures ProcessInv(v, process, early)
  {
    if !process.Starting? && !process.Creating? { SeenStays(w, v, process.op); }
    if WritesRun(process) { RunSeenStays(w, v, process.op, process.seen); }
  }

  /** One process has moved, and the world has moved legally. */
  lemma StepByParts(c: Config, d: Config, p: nat, early: bool)
    requires ConfigInv(c, early) && Inv(d.world, early) && Moves(c.world, d.world)
    requires forall q | q in d.processes && q != p :: q in c.processes && d.processes[q] == c.processes[q]
    requires p in d.processes ==> ProcessInv(d.world, d.processes[p], early)
    ensures ConfigInv(d, early)
  {
    forall q | q in d.processes ensures ProcessInv(d.world, d.processes[q], early) {
      if q != p { ProcessInvStays(c.world, d.world, c.processes[q], early); }
    }
  }

  /** An operation held by a process, and the run it is for, as the world has them. */
  lemma HeldOperation(w: World, op: Operation, early: bool)
    requires Inv(w, early) && Seen(w, op)
    ensures var o := w.operations[op.key];
            o.binding == op.binding && OperationInv(w, op.key, o, early) && Allowed(o.status, w.runs[op.binding.run].state, early)
  {}

  lemma ProcessOf(c: Config, p: nat, early: bool)
    requires ConfigInv(c, early) && p in c.processes
    ensures ProcessInv(c.world, c.processes[p], early)
  {}

  lemma ReadingIsSound(w: World, process: Process, now: Time, issued: Issuance, early: bool)
    requires Inv(w, early) && ProcessInv(w, process, early) && Reads(process)
    ensures AfterRead(w, process, now, issued).Some? ==> ProcessInv(w, AfterRead(w, process, now, issued).value, early)
  {
    hide Inv;
    if !process.Starting? { HeldOperation(w, process.op, early); }
  }

  lemma RunWriteKeepsWorld(w: World, process: Process, early: bool)
    requires Inv(w, early) && ProcessInv(w, process, early) && WritesRun(process)
    ensures var v := Transition(w, process.op.binding.run, process.seen.version, RunCommand(process)).0; Inv(v, early) && Moves(w, v)
  {
    hide Inv, Moves, Transition;
    HeldOperation(w, process.op, early);
    if process.Approving? && w.runs[process.op.binding.run].state == AwaitingApproval {
      AwaitingRunsAreRecorded(w, process.op.binding.run, process.op.key, early);
    }
    TransitionKeepsInv(w, process.op.key, process.seen.version, RunCommand(process), early);
  }

  lemma RunWriteResult(w: World, process: Process, early: bool)
    requires Inv(w, early) && ProcessInv(w, process, early) && WritesRun(process)
    requires Transition(w, process.op.binding.run, process.seen.version, RunCommand(process)).1.Ok?
    ensures var (v, answer) := Transition(w, process.op.binding.run, process.seen.version, RunCommand(process));
            && Moves(w, v) && Seen(v, process.op) && (IsIssued(w, process.op) ==> IsIssued(v, process.op))
            && v.runs[process.op.binding.run] == answer.value && Target(process.seen.state, RunCommand(process)) == Some(answer.value.state)
  {
    var v := Transition(w, process.op.binding.run, process.seen.version, RunCommand(process)).0;
    RunWriteKeepsWorld(w, process, early);
    SeenStays(w, v, process.op);
  }

  lemma NextIsSound(v: World, process: Process, run: Run, early: bool)
    requires WritesRun(process) && Seen(v, process.op) && v.runs[process.op.binding.run] == run
    requires Target(process.seen.state, RunCommand(process)) == Some(run.state)
    requires process.Beginning? || (!process.Approving? && !early) ==> IsIssued(v, process.op)
    ensures ProcessInv(v, AfterRunWrite(process, run), early)
  {}

  lemma RunWriteIsSound(w: World, process: Process, early: bool)
    requires Inv(w, early) && ProcessInv(w, process, early) && WritesRun(process)
    ensures var (v, answer) := Transition(w, process.op.binding.run, process.seen.version, RunCommand(process));
            answer.Ok? ==> ProcessInv(v, AfterRunWrite(process, answer.value), early)
  {
    var (v, answer) := Transition(w, process.op.binding.run, process.seen.version, RunCommand(process));
    if answer.Ok? {
      RunWriteResult(w, process, early);
      NextIsSound(v, process, answer.value, early);
    }
  }

  lemma MarkingKeepsWorld(w: World, process: Process, now: Time, early: bool)
    requires Inv(w, early) && ProcessInv(w, process, early) && Marks(process)
    ensures var v := Mark(w, process.op.key, MarkStatus(process), now).0; Inv(v, early) && Moves(w, v)
  {
    HeldOperation(w, process.op, early);
    MarkKeepsInv(w, process.op.key, MarkStatus(process), now, early);
  }

  lemma MarkingIsSound(w: World, process: Process, now: Time, early: bool)
    requires Inv(w, early) && ProcessInv(w, process, early) && Marks(process)
    ensures var (v, answer) := Mark(w, process.op.key, MarkStatus(process), now);
            answer.Ok? ==> ProcessInv(v, AfterMark(process), early)
  {
    hide Inv, Moves, TerminalMatches, OperationEvolves;
    MarkingKeepsWorld(w, process, now, early);
    SeenStays(w, Mark(w, process.op.key, MarkStatus(process), now).0, process.op);
  }

  lemma CreationIsSound(w: World, process: Process, early: bool)
    requires Inv(w, early) && ProcessInv(w, process, early) && process.Creating?
    requires Create(w, process.op).0 != w ==> StillAwaitingApproval(w, process.op.binding.run)
    ensures var (v, answer) := Create(w, process.op);
            Inv(v, early) && Moves(w, v) && (answer.Ok? ==> ProcessInv(v, Resuming(process.input, process.op), early))
  {
    MovesToItself(w);
    if Create(w, process.op).0 != w { CreateKeepsInv(w, process.op, early); }
    if Create(w, process.op).1.Ok? { CreatedIsSeen(w, process.op, early); }
  }

  lemma CreatedIsSeen(w: World, op: Operation, early: bool)
    requires Inv(w, early) && Create(w, op).1.Ok? && op.binding.run in w.runs
    ensures Seen(Create(w, op).0, op)
  {
    if HasActive(w, op.binding.run) {
      var k :| k in w.operations && ActiveFor(w, op.binding.run, k) && w.operations[k] == op;
      assert OperationInv(w, k, w.operations[k], early);
    }
  }

  lemma AdvanceKeepsInv(c: Config, p: nat, now: Time, issued: Issuance, early: bool)
    requires ConfigInv(c, early) && p in c.processes && MeetsApproval(c, Advance(p, now, issued))
    ensures ConfigInv(AdvanceProcess(c, p, now, issued), early) && Moves(c.world, AdvanceProcess(c, p, now, issued).world)
  {
    var process := c.processes[p];
    assert ProcessInv(c.world, process, early);
    MovesToItself(c.world);
    if Reads(process) {
      ReadingIsSound(c.world, process, now, issued, early);
    } else if WritesRun(process) {
      RunWriteKeepsWorld(c.world, process, early);
      RunWriteIsSound(c.world, process, early);
    } else if Marks(process) {
      MarkingKeepsWorld(c.world, process, now, early);
      MarkingIsSound(c.world, process, now, early);
    } else if process.Creating? {
      CreationIsSound(c.world, process, early);
    }
    hide Inv, Moves, ProcessInv, ConfigInv, AfterRead, Transition, Mark, Create, AfterRunWrite, AfterMark;
    StepByParts(c, AdvanceProcess(c, p, now, issued), p, early);
  }

  lemma ArrivalKeepsWorld(w: World, r: RunKey, version: nat, early: bool)
    requires Inv(w, early) && r !in w.runs
    ensures var v := w.(runs := w.runs[r := Run(AwaitingApproval, version)]); Inv(v, early) && Moves(w, v)
  {
    var v := w.(runs := w.runs[r := Run(AwaitingApproval, version)]);
    forall k | k in v.operations ensures OperationInv(v, k, v.operations[k], early) { assert OperationInv(w, k, w.operations[k], early); }
    assert forall q | HasOperation(w, q) :: HasOperation(v, q) by { RunsKeepTheirOperations(w, v); }
  }

  lemma ArrivalKeepsInv(c: Config, r: RunKey, version: nat, early: bool)
    requires ConfigInv(c, early)
    ensures ConfigInv(Apply(c, Arrive(r, version)), early) && Moves(c.world, Apply(c, Arrive(r, version)).world)
  {
    var d := Apply(c, Arrive(r, version));
    MovesToItself(c.world);
    if r !in c.world.runs {
      ArrivalKeepsWorld(c.world, r, version, early);
      hide Inv, Moves, ProcessInv;
      forall q | q in d.processes ensures ProcessInv(d.world, d.processes[q], early) { ProcessInvStays(c.world, d.world, d.processes[q], early); }
    }
  }

  lemma StoredIsSeen(c: Config, k: OperationKey, early: bool)
    requires ConfigInv(c, early) && k in c.world.operations
    ensures Seen(c.world, c.world.operations[k])
  {
    assert OperationInv(c.world, k, c.world.operations[k], early);
  }

  lemma ConfigWorld(c: Config, early: bool)
    requires ConfigInv(c, early)
    ensures Inv(c.world, early)
  {}

  lemma StartKeepsInv(c: Config, p: nat, input: Input, found: Option<OperationKey>, early: bool)
    requires ConfigInv(c, early)
    ensures ConfigInv(Apply(c, BeginStart(p, input, found)), early) && Apply(c, BeginStart(p, input, found)).world == c.world
  {
    hide ConfigInv, Inv, Moves, HasActive, OperationEvolves, SameRequest;
    if found.Some? && found.value in c.world.operations { StoredIsSeen(c, found.value, early); }
    if p in c.processes { ProcessOf(c, p, early); }
    ConfigWorld(c, early);
    MovesToItself(c.world);
    StepByParts(c, Apply(c, BeginStart(p, input, found)), p, early);
  }

  lemma EventKeepsInv(c: Config, p: nat, k: OperationKey, authorization: string, outcome: Outcome, early: bool)
    requires ConfigInv(c, early) && (early || OwnerSpeaksOfIssued(c, BeginEvent(p, k, authorization, outcome)))
    ensures ConfigInv(Apply(c, BeginEvent(p, k, authorization, outcome)), early) && Apply(c, BeginEvent(p, k, authorization, outcome)).world == c.world
  {
    if k in c.world.operations { assert OperationInv(c.world, k, c.world.operations[k], early); }
    hide Inv, Moves;
    MovesToItself(c.world);
    StepByParts(c, Apply(c, BeginEvent(p, k, authorization, outcome)), p, early);
  }

  lemma StepKeepsInv(c: Config, s: Step, early: bool)
    requires ConfigInv(c, early) && (early || OwnerSpeaksOfIssued(c, s)) && MeetsApproval(c, s)
    ensures ConfigInv(Apply(c, s), early) && Moves(c.world, Apply(c, s).world)
  {
    MovesToItself(c.world);
    match s
    case Arrive(r, version) => ArrivalKeepsInv(c, r, version, early);
    case BeginStart(p, input, found) => StartKeepsInv(c, p, input, found, early);
    case BeginEvent(p, k, authorization, outcome) => EventKeepsInv(c, p, k, authorization, outcome, early);
    case Advance(p, now, issued) => if p in c.processes { AdvanceKeepsInv(c, p, now, issued, early); }
    case Crash(p) => StepByParts(c, Apply(c, s), p, early);
  }

  // ---- What stays as it is ---------------------------------------------------------------

  lemma DecidedStays(w: World, v: World, k: OperationKey, early: bool)
    requires Inv(w, early) && Moves(w, v) && k in w.operations && w.operations[k].status.Terminal()
    ensures var o := w.operations[k];
            && k in v.operations && v.operations[k].status == o.status && v.operations[k].consumed
            && o.binding.run in w.runs && o.binding.run in v.runs && TerminalMatches(v.runs[o.binding.run].state, o.status)
            && v.runs[o.binding.run] == w.runs[o.binding.run]
  {
    hide Inv, Moves;
    WorldOperation(w, k, early);
    MovesAt(w, v, k);
  }

  lemma WorldOperation(w: World, k: OperationKey, early: bool)
    requires Inv(w, early) && k in w.operations
    ensures OperationInv(w, k, w.operations[k], early)
  {}

  lemma MovesAt(w: World, v: World, k: OperationKey)
    requires Moves(w, v) && k in w.operations && w.operations[k].binding.run in w.runs
    ensures k in v.operations && OperationEvolves(w.operations[k], v.operations[k])
    ensures w.operations[k].binding.run in v.runs && RunEvolves(w.runs[w.operations[k].binding.run], v.runs[w.operations[k].binding.run])
  {}
}
