/**
 Where everything in the commit protocol's records comes from: whatever a run was
 made of, an outcome is the one its domain owner reported, and an operation is
 what one start asked for and the issuer answered.
 */
module DomainCommitHistory {
  import opened Wrappers
  import opened DomainCommit
  import opened DomainCommitRuns
  import opened DomainCommitStarts

  // ---- What the steps of a run tell ------------------------------------------------------

  /** The owner reported this outcome for the operation, under its own authorization. */
  ghost predicate Heard(done: seq<Step>, k: OperationKey, authorization: string, outcome: Outcome) {
    exists p :: BeginEvent(p, k, authorization, outcome) in done
  }

  /** The operation is about what was asked, and carries what was issued. */
  predicate MadeOf(k: OperationKey, b: Binding, input: Input, issued: Issuance, at: Time) {
    && k == OperationKey(input.run.scope, issued.operation) && b.run == input.run && b.authorization == issued.authorization
    && b.compact == issued.compact && b.actionDigest == issued.actionDigest && b.artifactDigest == issued.artifactDigest
    && b.expectedRevision == issued.baseRevision == input.expectedRevision
    && b.idempotencyKey == input.idempotencyKey && b.requestDigest == input.requestDigest && b.createdAt == at
  }

  ghost predicate Asked(done: seq<Step>, input: Input) { exists p :: BeginStart(p, input, None) in done }

  /** One start asked for the operation, and one step of it drew what was issued. */
  ghost predicate Started(done: seq<Step>, k: OperationKey, b: Binding) {
    exists p, now, issued :: Advance(p, now, issued) in done && exists input :: Asked(done, input) && MadeOf(k, b, input, issued, now)
  }

  /** A decided operation was decided by the owner's own report. */
  ghost predicate StatusTold(done: seq<Step>, k: OperationKey, o: Operation) {
    && (o.status == Applied ==> Heard(done, k, o.binding.authorization, OwnerApplied))
    && (o.status == Conflicted ==> Heard(done, k, o.binding.authorization, OwnerConflict))
    && (o.status == Rejected ==> Heard(done, k, o.binding.authorization, OwnerRejected))
  }

  ghost predicate OperationTold(done: seq<Step>, k: OperationKey, o: Operation) {
    o.key == k && Started(done, k, o.binding) && StatusTold(done, k, o)
  }

  /** The owner reported this outcome for an operation of the run. */
  ghost predicate Reported(w: World, done: seq<Step>, r: RunKey, outcome: Outcome) {
    exists k | k in w.operations :: w.operations[k].binding.run == r && Heard(done, k, w.operations[k].binding.authorization, outcome)
  }

  /** A run with an outcome has the one reported, and each step along the boundary was one version. */
  ghost predicate RunTold(w: World, done: seq<Step>, r: RunKey, run: Run) {
    && (run.state == Completed ==> Reported(w, done, r, OwnerApplied))
    && (run.state == Conflict ==> Reported(w, done, r, OwnerConflict))
    && (run.state == Failed ==> Reported(w, done, r, OwnerRejected))
    && (exists version: nat :: Arrive(r, version) in done && run.version == version + run.state.Phase())
  }

  predicate Held(w: World, op: Operation) { op.key in w.operations && w.operations[op.key].binding == op.binding }

  ghost predicate ProcessTold(w: World, done: seq<Step>, process: Process) {
    match process
    case Starting(input) => Asked(done, input)
    case Creating(_, op) => op.status == Recorded && Started(done, op.key, op.binding)
    case Deciding(op, outcome) => Held(w, op) && Heard(done, op.key, op.binding.authorization, outcome)
    case EventBeginning(op, outcome, _) => Held(w, op) && Heard(done, op.key, op.binding.authorization, outcome)
    case Settling(op, outcome, _) => Held(w, op) && Heard(done, op.key, op.binding.authorization, outcome)
    case Finalizing(op, outcome) => Held(w, op) && Heard(done, op.key, op.binding.authorization, outcome)
    case _ => true
  }

  ghost predicate WorldTold(w: World, done: seq<Step>) {
    && (forall k | k in w.operations :: OperationTold(done, k, w.operations[k]))
    && (forall r | r in w.runs :: RunTold(w, done, r, w.runs[r]))
  }

  ghost predicate Told(c: Config, done: seq<Step>) {
    WorldTold(c.world, done) && forall p | p in c.processes :: ProcessTold(c.world, done, c.processes[p])
  }

  // ---- What is told stays told -----------------------------------------------------------

  lemma InMore(done: seq<Step>, s: Step)
    ensures forall x :: x in done + [s] <==> x in done || x == s
  {}

  lemma HeardStays(done: seq<Step>, s: Step, k: OperationKey, authorization: string, outcome: Outcome)
    ensures Heard(done, k, authorization, outcome) ==> Heard(done + [s], k, authorization, outcome)
  {
    InMore(done, s);
  }

  lemma AskedStays(done: seq<Step>, s: Step, input: Input)
    ensures Asked(done, input) ==> Asked(done + [s], input)
  {
    InMore(done, s);
  }

  lemma StartedStays(done: seq<Step>, s: Step, k: OperationKey, b: Binding)
    requires Started(done, k, b)
    ensures Started(done + [s], k, b)
  {
    InMore(done, s);
    var p, now, issued :| Advance(p, now, issued) in done && exists input :: Asked(done, input) && MadeOf(k, b, input, issued, now);
    var input :| Asked(done, input) && MadeOf(k, b, input, issued, now);
    AskedStays(done, s, input);
    assert Advance(p, now, issued) in done + [s];
  }

  lemma OperationStays(done: seq<Step>, s: Step, k: OperationKey, o: Operation)
    requires OperationTold(done, k, o)
    ensures OperationTold(done + [s], k, o)
  {
    hide Heard, Started;
    StartedStays(done, s, k, o.binding);
    HeardStays(done, s, k, o.binding.authorization, OwnerApplied);
    HeardStays(done, s, k, o.binding.authorization, OwnerConflict);
    HeardStays(done, s, k, o.binding.authorization, OwnerRejected);
  }

  lemma ReportedStays(w: World, v: World, done: seq<Step>, s: Step, r: RunKey, outcome: Outcome)
    requires Moves(w, v) && Reported(w, done, r, outcome)
    ensures Reported(v, done + [s], r, outcome)
  {
    hide Heard;
    var k :| k in w.operations && w.operations[k].binding.run == r && Heard(done, k, w.operations[k].binding.authorization, outcome);
    assert OperationEvolves(w.operations[k], v.operations[k]);
    HeardStays(done, s, k, w.operations[k].binding.authorization, outcome);
  }

  lemma RunStays(w: World, v: World, done: seq<Step>, s: Step, r: RunKey, run: Run)
    requires Moves(w, v) && RunTold(w, done, r, run)
    ensures RunTold(v, done + [s], r, run)
  {
    hide Reported, Moves;
    InMore(done, s);
    if run.state == Completed { ReportedStays(w, v, done, s, r, OwnerApplied); }
    if run.state == Conflict { ReportedStays(w, v, done, s, r, OwnerConflict); }
    if run.state == Failed { ReportedStays(w, v, done, s, r, OwnerRejected); }
  }

  lemma ProcessStays(w: World, v: World, done: seq<Step>, s: Step, process: Process)
    requires Moves(w, v) && ProcessTold(w, done, process)
    ensures ProcessTold(v, done + [s], process)
  {
    hide Heard, Started, Asked;
    match process
    case Starting(input) => AskedStays(done, s, input);
    case Creating(_, op) => StartedStays(done, s, op.key, op.binding);
    case Deciding(op, outcome) => EventStays(w, v, done, s, op, outcome);
    case EventBeginning(op, outcome, _) => EventStays(w, v, done, s, op, outcome);
    case Settling(op, outcome, _) => EventStays(w, v, done, s, op, outcome);
    case Finalizing(op, outcome) => EventStays(w, v, done, s, op, outcome);
    case _ =>
  }

  lemma EventStays(w: World, v: World, done: seq<Step>, s: Step, op: Operation, outcome: Outcome)
    requires Moves(w, v) && Held(w, op)
    ensures Held(v, op) && (Heard(done, op.key, op.binding.authorization, outcome) ==> Heard(done + [s], op.key, op.binding.authorization, outcome))
  {
    hide Heard;
    assert OperationEvolves(w.operations[op.key], v.operations[op.key]);
    HeardStays(done, s, op.key, op.binding.authorization, outcome);
  }

  /** Everything untouched by a step is told as before, and what it touched is told on its own. */
  lemma ByParts(c: Config, d: Config, done: seq<Step>, s: Step, p: nat, k: OperationKey, r: RunKey)
    requires Told(c, done) && Moves(c.world, d.world)
    requires forall j | j in d.world.operations && j != k :: j in c.world.operations && d.world.operations[j] == c.world.operations[j]
    requires forall q | q in d.world.runs && q != r :: q in c.world.runs && d.world.runs[q] == c.world.runs[q]
    requires forall q | q in d.processes && q != p :: q in c.processes && d.processes[q] == c.processes[q]
    requires k in d.world.operations ==>
               (k in c.world.operations && d.world.operations[k] == c.world.operations[k]) || OperationTold(done + [s], k, d.world.operations[k])
    requires r in d.world.runs ==> (r in c.world.runs && d.world.runs[r] == c.world.runs[r]) || RunTold(d.world, done + [s], r, d.world.runs[r])
    requires p in d.processes ==> (p in c.processes && d.processes[p] == c.processes[p]) || ProcessTold(d.world, done + [s], d.processes[p])
    ensures Told(d, done + [s])
  {
    hide OperationTold, RunTold, ProcessTold, Moves;
    forall j | j in d.world.operations ensures OperationTold(done + [s], j, d.world.operations[j]) {
      if j in c.world.operations && d.world.operations[j] == c.world.operations[j] { OperationStays(done, s, j, c.world.operations[j]); }
    }
    forall q | q in d.world.runs ensures RunTold(d.world, done + [s], q, d.world.runs[q]) {
      if q in c.world.runs && d.world.runs[q] == c.world.runs[q] { RunStays(c.world, d.world, done, s, q, c.world.runs[q]); }
    }
    forall q | q in d.processes ensures ProcessTold(d.world, done + [s], d.processes[q]) {
      if q in c.processes && d.processes[q] == c.processes[q] { ProcessStays(c.world, d.world, done, s, c.processes[q]); }
    }
  }

  // ---- One step more ---------------------------------------------------------------------

  lemma MadeByIssue(done: seq<Step>, input: Input, issued: Issuance, p: nat, now: Time)
    requires Asked(done, input) && Advance(p, now, issued) in done && issued.baseRevision == input.expectedRevision
    ensures var o := NewOperation(input, issued, now); o.status == Recorded && Started(done, o.key, o.binding)
  {
    hide Asked;
    var o := NewOperation(input, issued, now);
    assert MadeOf(o.key, o.binding, input, issued, now);
  }

  lemma ReadIsTold(w: World, done: seq<Step>, process: Process, p: nat, now: Time, issued: Issuance)
    requires ProcessTold(w, done, process) && Reads(process) && Advance(p, now, issued) in done
    ensures var next := AfterRead(w, process, now, issued); next.Some? ==> ProcessTold(w, done, next.value)
  {
    hide Asked, Heard, Started;
    if process.Starting? && issued.baseRevision == process.input.expectedRevision { MadeByIssue(done, process.input, issued, p, now); }
    hide NewOperation;
  }

  /** Each command along the boundary is one step of it, and only an outcome's own command ends there. */
  lemma TargetSteps(state: RunState, command: Command)
    requires Target(state, command).Some?
    ensures var next := Target(state, command).value;
            && next.Phase() == state.Phase() + 1
            && (next == Completed ==> command == ConfirmDomain) && (next == Conflict ==> command == RecordDomainConflict)
            && (next == Failed ==> command == RecordDomainRejection)
  {}

  /** The command a process gives its run is an outcome's only when its owner reported that outcome. */
  lemma CommandIsReported(w: World, done: seq<Step>, process: Process)
    requires ProcessTold(w, done, process) && WritesRun(process)
    ensures var r, command := process.op.binding.run, RunCommand(process);
            && (command == ConfirmDomain ==> Reported(w, done, r, OwnerApplied))
            && (command == RecordDomainConflict ==> Reported(w, done, r, OwnerConflict))
            && (command == RecordDomainRejection ==> Reported(w, done, r, OwnerRejected))
  {
    hide Heard;
    if process.Settling? { assert w.operations[process.op.key].binding.run == process.op.binding.run; }
  }

  lemma MovedRunIsTold(w: World, done: seq<Step>, s: Step, process: Process)
    requires ProcessTold(w, done, process) && WritesRun(process) && process.op.binding.run in w.runs
    requires RunTold(w, done, process.op.binding.run, w.runs[process.op.binding.run])
    requires Transition(w, process.op.binding.run, process.seen.version, RunCommand(process)).1.Ok?
    ensures var (v, answer) := Transition(w, process.op.binding.run, process.seen.version, RunCommand(process));
            RunTold(v, done + [s], process.op.binding.run, answer.value)
  {
    hide Heard, ProcessTold, Reported, Moves;
    var r := process.op.binding.run;
    var (v, answer) := Transition(w, r, process.seen.version, RunCommand(process));
    InMore(done, s);
    TargetSteps(w.runs[r].state, RunCommand(process));
    CommandIsReported(w, done, process);
    TransitionMoves(w, r, process.seen.version, RunCommand(process));
    if answer.value.state == Completed { ReportedStays(w, v, done, s, r, OwnerApplied); }
    if answer.value.state == Conflict { ReportedStays(w, v, done, s, r, OwnerConflict); }
    if answer.value.state == Failed { ReportedStays(w, v, done, s, r, OwnerRejected); }
  }

  lemma NextIsTold(w: World, v: World, done: seq<Step>, s: Step, process: Process, run: Run)
    requires ProcessTold(w, done, process) && WritesRun(process) && Moves(w, v)
    ensures ProcessTold(v, done + [s], AfterRunWrite(process, run))
  {
    ProcessStays(w, v, done, s, process);
    hide Heard, Moves;
  }

  lemma MarkedIsTold(w: World, done: seq<Step>, s: Step, process: Process, now: Time)
    requires ProcessTold(w, done, process) && Marks(process) && process.op.key in w.operations
    requires OperationTold(done, process.op.key, w.operations[process.op.key])
    requires Mark(w, process.op.key, MarkStatus(process), now).1.Ok?
    ensures var k, v := process.op.key, Mark(w, process.op.key, MarkStatus(process), now).0;
            k in v.operations && OperationTold(done + [s], k, v.operations[k])
  {
    hide Heard, Started;
    var k := process.op.key;
    OperationStays(done, s, k, w.operations[k]);
    if process.Finalizing? { HeardStays(done, s, k, process.op.binding.authorization, process.outcome); }
  }

  /** A recording, if it is a new one. */
  lemma CreatedIsTold(w: World, done: seq<Step>, s: Step, process: Process)
    requires ProcessTold(w, done, process) && process.Creating? && Create(w, process.op).0 != w
    ensures OperationTold(done + [s], process.op.key, process.op)
  {
    hide Heard;
    StartedStays(done, s, process.op.key, process.op.binding);
    hide Started;
  }

  /** A step that leaves the records alone and moves at most one process. */
  lemma ProcessOnly(c: Config, d: Config, done: seq<Step>, s: Step, p: nat)
    requires Told(c, done) && d.world == c.world
    requires forall q | q in d.processes && q != p :: q in c.processes && d.processes[q] == c.processes[q]
    requires p in d.processes ==> (p in c.processes && d.processes[p] == c.processes[p]) || ProcessTold(d.world, done + [s], d.processes[p])
    ensures Told(d, done + [s])
  {
    hide Told, ProcessTold;
    MovesToItself(c.world);
    ByParts(c, d, done, s, p, OperationKey(Scope("", ""), ""), RunKey(Scope("", ""), ""));
  }

  lemma OperationOf(c: Config, done: seq<Step>, k: OperationKey)
    requires Told(c, done) && k in c.world.operations
    ensures OperationTold(done, k, c.world.operations[k])
  {}

  lemma RunOf(c: Config, done: seq<Step>, r: RunKey)
    requires Told(c, done) && r in c.world.runs
    ensures RunTold(c.world, done, r, c.world.runs[r])
  {}

  lemma ProcessOfTold(c: Config, done: seq<Step>, p: nat)
    requires Told(c, done) && p in c.processes
    ensures ProcessTold(c.world, done, c.processes[p])
  {}

  lemma ReadStepIsTold(c: Config, done: seq<Step>, p: nat, now: Time, issued: Issuance)
    requires Told(c, done) && p in c.processes && Reads(c.processes[p])
    ensures Told(AdvanceProcess(c, p, now, issued), done + [Advance(p, now, issued)])
  {
    hide Told, ProcessTold, AfterRead;
    var s := Advance(p, now, issued);
    ProcessOfTold(c, done, p);
    MovesToItself(c.world);
    ProcessStays(c.world, c.world, done, s, c.processes[p]);
    assert s in done + [s];
    ReadIsTold(c.world, done + [s], c.processes[p], p, now, issued);
    ProcessOnly(c, AdvanceProcess(c, p, now, issued), done, s, p);
  }

  lemma WriteStepIsTold(c: Config, done: seq<Step>, p: nat, now: Time, issued: Issuance)
    requires Told(c, done) && p in c.processes && WritesRun(c.processes[p])
    ensures Told(AdvanceProcess(c, p, now, issued), done + [Advance(p, now, issued)])
  {
    hide Told, ProcessTold, RunTold, OperationTold, Moves, RunCommand, AfterRunWrite;
    var s, process, d := Advance(p, now, issued), c.processes[p], AdvanceProcess(c, p, now, issued);
    var r := process.op.binding.run;
    ProcessOfTold(c, done, p);
    AdvanceMoves(c, p, now, issued);
    var (v, answer) := Transition(c.world, r, process.seen.version, RunCommand(process));
    if answer.Ok? {
      RunOf(c, done, r);
      MovedRunIsTold(c.world, done, s, process);
      NextIsTold(c.world, v, done, s, process, answer.value);
    }
    ByParts(c, d, done, s, p, OperationKey(Scope("", ""), ""), r);
  }

  lemma MarkStepIsTold(c: Config, done: seq<Step>, p: nat, now: Time, issued: Issuance)
    requires Told(c, done) && p in c.processes && Marks(c.processes[p])
    ensures Told(AdvanceProcess(c, p, now, issued), done + [Advance(p, now, issued)])
  {
    hide Told, RunTold, OperationTold, Moves, MarkStatus, StatusTransition;
    var s, process, d := Advance(p, now, issued), c.processes[p], AdvanceProcess(c, p, now, issued);
    var k := process.op.key;
    ProcessOfTold(c, done, p);
    AdvanceMoves(c, p, now, issued);
    if Mark(c.world, k, MarkStatus(process), now).1.Ok? {
      OperationOf(c, done, k);
      MarkedIsTold(c.world, done, s, process, now);
    }
    ByParts(c, d, done, s, p, k, RunKey(Scope("", ""), ""));
  }

  lemma CreateStepIsTold(c: Config, done: seq<Step>, p: nat, now: Time, issued: Issuance)
    requires Told(c, done) && p in c.processes && c.processes[p].Creating?
    ensures Told(AdvanceProcess(c, p, now, issued), done + [Advance(p, now, issued)])
  {
    hide Told, RunTold, OperationTold, Moves, HasActive;
    var s, process, d := Advance(p, now, issued), c.processes[p], AdvanceProcess(c, p, now, issued);
    ProcessOfTold(c, done, p);
    AdvanceMoves(c, p, now, issued);
    if Create(c.world, process.op).0 != c.world { CreatedIsTold(c.world, done, s, process); }
    ByParts(c, d, done, s, p, process.op.key, RunKey(Scope("", ""), ""));
  }

  lemma AdvanceIsTold(c: Config, done: seq<Step>, p: nat, now: Time, issued: Issuance)
    requires Told(c, done) && p in c.processes
    ensures Told(AdvanceProcess(c, p, now, issued), done + [Advance(p, now, issued)])
  {
    hide Told;
    var process := c.processes[p];
    if Reads(process) { ReadStepIsTold(c, done, p, now, issued); }
    else if WritesRun(process) { WriteStepIsTold(c, done, p, now, issued); }
    else if Marks(process) { MarkStepIsTold(c, done, p, now, issued); }
    else if process.Creating? { CreateStepIsTold(c, done, p, now, issued); }
    else { ProcessOnly(c, AdvanceProcess(c, p, now, issued), done, Advance(p, now, issued), p); }
  }

  lemma ArrivalIsTold(c: Config, done: seq<Step>, r: RunKey, version: nat)
    requires Told(c, done)
    ensures Told(Apply(c, Arrive(r, version)), done + [Arrive(r, version)])
  {
    hide Told, Moves, ProcessTold, OperationTold;
    var s, d := Arrive(r, version), Apply(c, Arrive(r, version));
    StepMoves(c, s);
    if r !in c.world.runs {
      assert s in done + [s] && d.world.runs[r] == Run(AwaitingApproval, version);
      assert RunTold(d.world, done + [s], r, d.world.runs[r]) by { hide Reported; }
    }
    hide RunTold;
    ByParts(c, d, done, s, 0, OperationKey(Scope("", ""), ""), r);
  }

  lemma StepIsTold(c: Config, done: seq<Step>, s: Step)
    requires Told(c, done)
    ensures Told(Apply(c, s), done + [s])
  {
    hide Told, AdvanceProcess, HasActive, ActiveFor, SameRequest;
    var d := Apply(c, s);
    assert s in done + [s];
    match s
    case Arrive(r, version) => ArrivalIsTold(c, done, r, version);
    case BeginStart(p, input, found) => ProcessOnly(c, d, done, s, p);
    case BeginEvent(p, k, authorization, outcome) =>
      if k in c.world.operations { OperationOf(c, done, k); }
      hide Started, StatusTold;
      ProcessOnly(c, d, done, s, p);
    case Advance(p, now, issued) => if p in c.processes { AdvanceIsTold(c, done, p, now, issued); } else { ProcessOnly(c, d, done, s, p); }
    case Crash(p) => ProcessOnly(c, d, done, s, p);
  }

  lemma {:induction false} RunIsTold(c: Config, done: seq<Step>, steps: seq<Step>)
    requires Told(c, done)
    ensures Told(Exec(c, steps), done + steps)
    decreases |steps|
  {
    hide Told, Apply;
    if steps == [] {
      assert done + steps == done;
    } else {
      StepIsTold(c, done, steps[0]);
      RunIsTold(Apply(c, steps[0]), done + [steps[0]], steps[1..]);
      assert done + [steps[0]] + steps[1..] == done + steps;
    }
  }

  // ---- Every run -------------------------------------------------------------------------

  lemma EveryRecordIsTold(steps: seq<Step>)
    ensures WorldTold(Exec(NOTHING, steps).world, steps)
  {
    assert Told(NOTHING, []);
    hide WorldTold, ProcessTold, Exec;
    RunIsTold(NOTHING, [], steps);
    assert [] + steps == steps;
  }

  /** The owner reported this outcome for an operation recorded for the run, under that operation's authorization. */
  ghost predicate OwnerSaid(steps: seq<Step>, w: World, r: RunKey, outcome: Outcome) {
    exists k, p | k in w.operations :: w.operations[k].binding.run == r && BeginEvent(p, k, w.operations[k].binding.authorization, outcome) in steps
  }

  /**
   Nobody but the domain owner decides a run: in any run from the empty records, however starts, replays
   and events interleave, a run is completed only if the owner reported its operation applied, in conflict
   only if it reported a conflict, and failed only if it reported a rejection.
   */
  lemma RunsEndAsTheOwnerSaid(steps: seq<Step>, r: RunKey)
    requires r in Exec(NOTHING, steps).world.runs
    ensures var w := Exec(NOTHING, steps).world;
            && (w.runs[r].state == Completed ==> OwnerSaid(steps, w, r, OwnerApplied))
            && (w.runs[r].state == Conflict ==> OwnerSaid(steps, w, r, OwnerConflict))
            && (w.runs[r].state == Failed ==> OwnerSaid(steps, w, r, OwnerRejected))
  {
    EveryRecordIsTold(steps);
    var w := Exec(NOTHING, steps).world;
    hide Exec, OperationTold;
    assert RunTold(w, steps, r, w.runs[r]);
    ReportedIsSaid(w, steps, r, OwnerApplied);
    ReportedIsSaid(w, steps, r, OwnerConflict);
    ReportedIsSaid(w, steps, r, OwnerRejected);
    hide Reported, OwnerSaid;
  }

  lemma ReportedIsSaid(w: World, steps: seq<Step>, r: RunKey, outcome: Outcome)
    ensures Reported(w, steps, r, outcome) ==> OwnerSaid(steps, w, r, outcome)
  {}

  /** And so for operations: each is what one start asked and the issuer answered, and decided as the owner said. */
  lemma OperationsEndAsTheOwnerSaid(steps: seq<Step>, k: OperationKey)
    requires k in Exec(NOTHING, steps).world.operations
    ensures var o := Exec(NOTHING, steps).world.operations[k];
            && (o.status == Applied ==> exists p :: BeginEvent(p, k, o.binding.authorization, OwnerApplied) in steps)
            && (o.status == Conflicted ==> exists p :: BeginEvent(p, k, o.binding.authorization, OwnerConflict) in steps)
            && (o.status == Rejected ==> exists p :: BeginEvent(p, k, o.binding.authorization, OwnerRejected) in steps)
            && exists p, now, issued :: Advance(p, now, issued) in steps && exists q, input :: BeginStart(q, input, None) in steps && MadeOf(k, o.binding, input, issued, now)
  {
    EveryRecordIsTold(steps);
    var o := Exec(NOTHING, steps).world.operations[k];
    assert OperationTold(steps, k, o);
    hide Exec, WorldTold, MadeOf;
    var p, now, issued :| Advance(p, now, issued) in steps && exists input :: Asked(steps, input) && MadeOf(k, o.binding, input, issued, now);
    var input :| Asked(steps, input) && MadeOf(k, o.binding, input, issued, now);
    var q :| BeginStart(q, input, None) in steps;
  }

  /** Each step along the boundary is one version of the run. */
  lemma VersionsCountPhases(steps: seq<Step>, r: RunKey)
    requires r in Exec(NOTHING, steps).world.runs
    ensures var run := Exec(NOTHING, steps).world.runs[r]; exists version: nat :: Arrive(r, version) in steps && run.version == version + run.state.Phase()
  {
    EveryRecordIsTold(steps);
    var w := Exec(NOTHING, steps).world;
    hide Exec, OperationTold, Reported;
    assert RunTold(w, steps, r, w.runs[r]);
  }

  /** A start takes up an active operation of its run exactly when that is for the same revision, key and request. */
  lemma ResumesItsOwnRequest(c: Config, p: nat, input: Input, k: OperationKey)
    requires p !in c.processes && k in c.world.operations
    ensures var o, d := c.world.operations[k], Apply(c, BeginStart(p, input, Some(k)));
            && d.world == c.world
            && (p in d.processes <==>
                  && o.binding.run == input.run && o.status !in {Applied, Conflicted, Rejected}
                  && o.binding.expectedRevision == input.expectedRevision && o.binding.idempotencyKey == input.idempotencyKey
                  && o.binding.requestDigest == input.requestDigest)
            && (p in d.processes ==> d.processes[p] == Resuming(input, o))
  {}

  /** Coupled records agree on every outcome, by name. */
  lemma DecidedAgrees(w: World, early: bool, k: OperationKey)
    requires Inv(w, early) && k in w.operations
    ensures var o := w.operations[k];
            && o.binding.run in w.runs
            && var state := w.runs[o.binding.run].state;
               && (o.status == Applied ==> state == Completed) && (o.status == Conflicted ==> state == Conflict) && (o.status == Rejected ==> state == Failed)
               && (state == Completed ==> o.status !in {Conflicted, Rejected} && (o.status == Recorded ==> early))
  {
    assert OperationInv(w, k, w.operations[k], early);
  }
}
