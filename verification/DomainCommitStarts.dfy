/**
 What every run of the commit protocol keeps. Operation and run stay coupled
 exactly when every new operation is recorded for a run still at approval, as one
 starter at a time sees to and two at once need not. An owner who speaks early
 parts them too, until the operation is marked if anybody still can.
 */
module DomainCommitStarts {
  import opened Wrappers
  import opened DomainCommit
  import opened DomainCommitRuns

  // ---- One starter at a time -------------------------------------------------------------

  /** The run a process is about to record an operation for. */
  function StartsFor(process: Process): Option<RunKey> {
    if process.Starting? || process.Creating? then Some(process.input.run) else None
  }

  predicate NobodyElseStarts(c: Config, p: nat, r: RunKey) {
    forall q | q in c.processes && q != p :: StartsFor(c.processes[q]) != Some(r)
  }

  /** A fresh start of a run waits until no other process is starting it; a crashed one no longer is. */
  predicate OneStarterAtATime(c: Config, s: Step) {
    s.BeginStart? && s.found.None? ==> NobodyElseStarts(c, s.p, s.input.run)
  }

  predicate AlwaysOneStarter(c: Config, steps: seq<Step>)
    decreases |steps|
  {
    steps != [] ==> OneStarterAtATime(c, steps[0]) && AlwaysOneStarter(Apply(c, steps[0]), steps[1..])
  }

  /** What was read when starting still holds: the run is at approval and nothing is recorded for it. */
  predicate StartSound(w: World, process: Process) {
    match process
    case Starting(input) => StillAwaitingApproval(w, input.run) ==> !HasOperation(w, input.run)
    case Creating(input, _) => StillAwaitingApproval(w, input.run) && !HasOperation(w, input.run)
    case _ => true
  }

  ghost predicate StartsInv(c: Config) {
    && (forall p, q | p in c.processes && q in c.processes && StartsFor(c.processes[p]).Some?
                      && StartsFor(c.processes[p]) == StartsFor(c.processes[q]) :: p == q)
    && (forall p | p in c.processes :: StartSound(c.world, c.processes[p]))
  }

  /** The write has not touched a run nothing was recorded for. */
  predicate LeavesAlone(w: World, v: World, r: RunKey) {
    !HasOperation(w, r) ==> !HasOperation(v, r) && (r in w.runs ==> r in v.runs && v.runs[r] == w.runs[r])
  }

  lemma StartSoundStays(w: World, v: World, process: Process, early: bool)
    requires Inv(w, early) && Moves(w, v) && StartSound(w, process)
    requires StartsFor(process).Some? ==> LeavesAlone(w, v, StartsFor(process).value)
    ensures StartSound(v, process)
  {
    if process.Starting? {
      var r := process.input.run;
      if HasOperation(w, r) {
        var k :| k in w.operations && w.operations[k].binding.run == r;
        assert OperationInv(w, k, w.operations[k], early);
        assert RunEvolves(w.runs[r], v.runs[r]);
      }
    }
  }

  lemma SameOperationsLeaveAlone(w: World, v: World, r: RunKey)
    requires forall k | k in v.operations :: k in w.operations && w.operations[k].binding == v.operations[k].binding
    requires r in w.runs ==> r in v.runs && v.runs[r] == w.runs[r]
    ensures LeavesAlone(w, v, r)
  {}

  /** A process of another run, or one that holds an operation, leaves a run without operations alone. */
  lemma AdvanceLeavesAlone(c: Config, p: nat, now: Time, issued: Issuance, r: RunKey, early: bool)
    requires p in c.processes && ProcessInv(c.world, c.processes[p], early) && StartsFor(c.processes[p]) != Some(r)
    ensures LeavesAlone(c.world, AdvanceProcess(c, p, now, issued).world, r)
  {
    var w, v, process := c.world, AdvanceProcess(c, p, now, issued).world, c.processes[p];
    hide ConfigInv, AfterRead, AfterRunWrite, AfterMark, MarkStatus, RunCommand, Inv, Moves;
    if WritesRun(process) {
      assert Seen(w, process.op);
      assert HasOperation(w, process.op.binding.run);
      OneRunMoved(w, v, r, process.op.binding.run);
    } else if Marks(process) {
      assert v.runs == w.runs;
      SameOperationsLeaveAlone(w, v, r);
    } else if process.Creating? {
      assert process.op.binding.run != r;
      CreateLeavesAlone(w, process.op, r);
    }
  }

  lemma OneRunMoved(w: World, v: World, r: RunKey, moved: RunKey)
    requires v.operations == w.operations && HasOperation(w, moved)
    requires forall q | q in w.runs && q != moved :: q in v.runs && v.runs[q] == w.runs[q]
    ensures LeavesAlone(w, v, r)
  {}

  lemma CreateLeavesAlone(w: World, o: Operation, r: RunKey)
    requires o.binding.run != r
    ensures LeavesAlone(w, Create(w, o).0, r)
  {}

  /** Every other starter is as sound as before, and there is still only one for each run. */
  lemma OthersStaySound(c: Config, d: Config, p: nat, early: bool)
    requires ConfigInv(c, early) && StartsInv(c) && Moves(c.world, d.world)
    requires forall q | q in d.processes && q != p :: q in c.processes && d.processes[q] == c.processes[q]
    requires forall r | p !in c.processes || StartsFor(c.processes[p]) != Some(r) :: LeavesAlone(c.world, d.world, r)
    requires p in d.processes ==> StartSound(d.world, d.processes[p])
    requires p in d.processes && StartsFor(d.processes[p]).Some? ==> NobodyElseStarts(c, p, StartsFor(d.processes[p]).value)
    ensures StartsInv(d)
  {
    hide Moves, StartSound, LeavesAlone, Inv;
    forall q | q in d.processes ensures StartSound(d.world, d.processes[q]) {
      if q != p {
        if StartsFor(c.processes[q]).Some? && p in c.processes { assert StartsFor(c.processes[p]) != StartsFor(c.processes[q]); }
        StartSoundStays(c.world, d.world, c.processes[q], early);
      }
    }
  }

  lemma SoleStarter(c: Config, p: nat)
    requires StartsInv(c) && p in c.processes && StartsFor(c.processes[p]).Some?
    ensures NobodyElseStarts(c, p, StartsFor(c.processes[p]).value)
  {}

  /** A starter's next read, and everybody else's next step, leaves a sound starter or none. */
  lemma AdvancedIsSound(c: Config, p: nat, now: Time, issued: Issuance)
    requires p in c.processes && StartSound(c.world, c.processes[p])
    ensures var d := AdvanceProcess(c, p, now, issued);
            && (p in d.processes ==> StartSound(d.world, d.processes[p]))
            && (p in d.processes && StartsFor(d.processes[p]).Some? ==> StartsFor(d.processes[p]) == StartsFor(c.processes[p]))
            && (forall q | q in d.processes && q != p :: q in c.processes && d.processes[q] == c.processes[q])
  {
    hide Transition, Mark, Create, HasOperation;
  }

  lemma AdvanceKeepsStarts(c: Config, p: nat, now: Time, issued: Issuance, early: bool)
    requires ConfigInv(c, early) && StartsInv(c) && p in c.processes && Moves(c.world, AdvanceProcess(c, p, now, issued).world)
    ensures StartsInv(AdvanceProcess(c, p, now, issued))
  {
    var d := AdvanceProcess(c, p, now, issued);
    assert StartSound(c.world, c.processes[p]) && ProcessInv(c.world, c.processes[p], early);
    if StartsFor(c.processes[p]).Some? { SoleStarter(c, p); }
    hide ProcessInv, AdvanceProcess, ConfigInv, StartsInv, Moves, StartSound, LeavesAlone, NobodyElseStarts, StartsFor;
    AdvancedIsSound(c, p, now, issued);
    forall r | StartsFor(c.processes[p]) != Some(r) ensures LeavesAlone(c.world, d.world, r) { AdvanceLeavesAlone(c, p, now, issued, r, early); }
    OthersStaySound(c, d, p, early);
  }

  /** A step that leaves the world alone and at most begins one process. */
  lemma BeginningKeepsStarts(c: Config, d: Config, p: nat, early: bool)
    requires ConfigInv(c, early) && StartsInv(c) && d.world == c.world
    requires forall q | q in d.processes && q != p :: q in c.processes && d.processes[q] == c.processes[q]
    requires p in d.processes ==> d == c || StartsFor(d.processes[p]).None? || (d.processes[p].Starting? && StartSound(c.world, d.processes[p]) && NobodyElseStarts(c, p, d.processes[p].input.run))
    ensures StartsInv(d)
  {
    if d != c {
      hide ConfigInv, StartsInv;
      MovesToItself(c.world);
      OthersStaySound(c, d, p, early);
    }
  }

  lemma ArrivalKeepsStarts(c: Config, r: RunKey, version: nat, early: bool)
    requires ConfigInv(c, early) && StartsInv(c)
    ensures StartsInv(Apply(c, Arrive(r, version)))
  {
    var d := Apply(c, Arrive(r, version));
    assert d.processes == c.processes && d.world.operations == c.world.operations;
    forall p | p in d.processes ensures StartSound(d.world, d.processes[p]) {
      assert StartSound(c.world, c.processes[p]);
      if r !in c.world.runs { NothingForUnknownRun(c.world, r, early); }
    }
  }

  lemma NothingForUnknownRun(w: World, r: RunKey, early: bool)
    requires Inv(w, early) && r !in w.runs
    ensures !HasOperation(w, r)
  {
    forall k | k in w.operations ensures w.operations[k].binding.run != r { assert OperationInv(w, k, w.operations[k], early); }
  }

  lemma StepKeepsStarts(c: Config, s: Step, early: bool)
    requires ConfigInv(c, early) && StartsInv(c) && OneStarterAtATime(c, s) && Moves(c.world, Apply(c, s).world)
    ensures StartsInv(Apply(c, s))
  {
    match s
    case Arrive(r, version) => ArrivalKeepsStarts(c, r, version, early);
    case BeginStart(p, input, found) =>
      if found.None? && !HasActive(c.world, input.run) && StillAwaitingApproval(c.world, input.run) {
        NoneRecordedAtApproval(c.world, input.run, early);
      }
      hide ConfigInv, StartsInv, Moves, HasActive, HasOperation, NobodyElseStarts, ActiveFor, SameRequest;
      BeginningKeepsStarts(c, Apply(c, s), p, early);
    case BeginEvent(p, k, authorization, outcome) =>
      hide ConfigInv, StartsInv, Moves;
      BeginningKeepsStarts(c, Apply(c, s), p, early);
    case Advance(p, now, issued) => if p in c.processes { AdvanceKeepsStarts(c, p, now, issued, early); }
    case Crash(p) =>
      hide ConfigInv, StartsInv, Moves;
      BeginningKeepsStarts(c, Apply(c, s), p, early);
  }

  /** A sole starter still finds its run at approval when it records. */
  lemma SoleStarterMeetsApproval(c: Config, s: Step, early: bool)
    requires ConfigInv(c, early) && StartsInv(c)
    ensures MeetsApproval(c, s)
  {
    if s.Advance? && s.p in c.processes {
      assert ProcessInv(c.world, c.processes[s.p], early) && StartSound(c.world, c.processes[s.p]);
    }
  }

  // ---- What every run keeps --------------------------------------------------------------

  const NOTHING := Config(World(map[], map[]), map[])

  lemma NothingSatisfiesInv(early: bool)
    ensures ConfigInv(NOTHING, early) && StartsInv(NOTHING)
  {}

  /** What starts one at a time come to: every new operation is recorded for a run still at approval. */
  lemma {:induction false} OneStarterMeetsApproval(c: Config, steps: seq<Step>, early: bool)
    requires ConfigInv(c, early) && StartsInv(c) && (early || OwnerAlwaysSpeaksOfIssued(c, steps)) && AlwaysOneStarter(c, steps)
    ensures EveryRecordingMeetsApproval(c, steps) && StartsInv(Exec(c, steps))
    decreases |steps|
  {
    hide ConfigInv, StartsInv, Moves, Apply, OneStarterAtATime, OwnerSpeaksOfIssued, MeetsApproval;
    if steps != [] {
      SoleStarterMeetsApproval(c, steps[0], early);
      StepKeepsInv(c, steps[0], early);
      StepKeepsStarts(c, steps[0], early);
      OneStarterMeetsApproval(Apply(c, steps[0]), steps[1..], early);
    }
  }

  lemma AdvanceMoves(c: Config, p: nat, now: Time, issued: Issuance)
    requires p in c.processes
    ensures Moves(c.world, AdvanceProcess(c, p, now, issued).world)
  {
    var process := c.processes[p];
    MovesToItself(c.world);
    if WritesRun(process) { TransitionMoves(c.world, process.op.binding.run, process.seen.version, RunCommand(process)); }
    else if Marks(process) { MarkMoves(c.world, process.op.key, MarkStatus(process), now); }
    else if process.Creating? { CreateMoves(c.world, process.op); }
    hide Moves, AfterRead, AfterRunWrite, AfterMark, MarkStatus, RunCommand, Transition, Mark, Create;
  }

  lemma StepMoves(c: Config, s: Step)
    ensures Moves(c.world, Apply(c, s).world)
  {
    if s.Arrive? { ArrivalMoves(c.world, s.run, s.version); }
    else if s.Advance? && s.p in c.processes { AdvanceMoves(c, s.p, s.now, s.issued); }
    else { MovesToItself(c.world); }
    hide Moves, AdvanceProcess, HasActive, ActiveFor, SameRequest;
  }

  lemma ArrivalMoves(w: World, r: RunKey, version: nat)
    ensures Moves(w, w) && (r !in w.runs ==> Moves(w, w.(runs := w.runs[r := Run(AwaitingApproval, version)])))
  {}

  /** Over any run at all, statuses and run states only advance, and nothing recorded is lost or bound anew. */
  lemma {:induction false} EveryRunMoves(c: Config, steps: seq<Step>)
    ensures Moves(c.world, Exec(c, steps).world)
    decreases |steps|
  {
    hide Moves, Apply;
    if steps == [] {
      MovesToItself(c.world);
    } else {
      StepMoves(c, steps[0]);
      EveryRunMoves(Apply(c, steps[0]), steps[1..]);
      MovesTransitively(c.world, Apply(c, steps[0]).world, Exec(c, steps).world);
    }
  }

  /**
   Whatever is cut short, replayed or run side by side, and as long as every new operation is recorded
   for a run still at approval, operation status and run state stay coupled, a run has at most one
   operation, and a run past approval has exactly one. With `early` the owner may speak of an operation
   nobody has marked yet, and the coupling lets that one stand as recorded while its run goes on.
   */
  lemma {:induction false} EveryRunKeepsInv(c: Config, steps: seq<Step>, early: bool)
    requires ConfigInv(c, early) && (early || OwnerAlwaysSpeaksOfIssued(c, steps)) && EveryRecordingMeetsApproval(c, steps)
    ensures ConfigInv(Exec(c, steps), early)
    decreases |steps|
  {
    hide ConfigInv, Moves, Apply, OwnerSpeaksOfIssued, MeetsApproval;
    if steps != [] {
      StepKeepsInv(c, steps[0], early);
      EveryRunKeepsInv(Apply(c, steps[0]), steps[1..], early);
    }
  }

  /** Once an operation is stored for a run, every later operation of that run is that one, under the same authorization. */
  lemma ReplayKeepsTheOperation(c: Config, steps: seq<Step>, k: OperationKey, j: OperationKey)
    requires ConfigInv(c, true) && EveryRecordingMeetsApproval(c, steps)
    requires k in c.world.operations && j in Exec(c, steps).world.operations
    requires Exec(c, steps).world.operations[j].binding.run == c.world.operations[k].binding.run
    ensures j == k && Exec(c, steps).world.operations[j].binding == c.world.operations[k].binding
  {
    EveryRunKeepsInv(c, steps, true);
    EveryRunMoves(c, steps);
    assert OperationEvolves(c.world.operations[k], Exec(c, steps).world.operations[k]);
  }

  /**
   An operation decided in agreement with its run stays so for ever, and neither is decided again:
   over any run, however starts interleave and whenever the owner speaks.
   */
  lemma DecidedForEver(c: Config, steps: seq<Step>, k: OperationKey, early: bool)
    requires Inv(c.world, early) && k in c.world.operations && c.world.operations[k].status.Terminal()
    ensures var o, d := c.world.operations[k], Exec(c, steps).world;
            && k in d.operations && d.operations[k].status == o.status && d.operations[k].consumed
            && o.binding.run in d.runs && TerminalMatches(d.runs[o.binding.run].state, o.status)
            && d.runs[o.binding.run] == c.world.runs[o.binding.run]
  {
    hide Inv, Moves, Exec;
    EveryRunMoves(c, steps);
    DecidedStays(c.world, Exec(c, steps).world, k, early);
  }

  /** A run that reached an outcome has exactly one operation, which can only be decided the same way. */
  lemma OutcomeHasItsOperation(c: Config, r: RunKey, early: bool)
    requires ConfigInv(c, early) && r in c.world.runs && c.world.runs[r].state.Phase() == 3
    ensures exists k :: k in c.world.operations && c.world.operations[k].binding.run == r && (early || c.world.operations[k].status != Recorded)
                        && (c.world.operations[k].status.Terminal() ==> TerminalMatches(c.world.runs[r].state, c.world.operations[k].status))
  {
    assert HasOperation(c.world, r);
    var k :| k in c.world.operations && c.world.operations[k].binding.run == r;
    assert OperationInv(c.world, k, c.world.operations[k], early);
  }

  // ---- Exactly when concurrent starts are safe -------------------------------------------

  /** Two operations stand on the record for one run. */
  predicate TwoForOneRun(w: World, j: OperationKey, k: OperationKey) {
    j != k && j in w.operations && k in w.operations && w.operations[j].binding.run == w.operations[k].binding.run
  }

  lemma StepKeepsBindings(c: Config, s: Step, k: OperationKey)
    requires k in c.world.operations
    ensures k in Apply(c, s).world.operations && Apply(c, s).world.operations[k].binding == c.world.operations[k].binding
  {
    hide AfterRead, AfterRunWrite, AfterMark, MarkStatus, RunCommand, HasActive, Target;
  }

  lemma {:induction false} TwoForOneRunStays(c: Config, steps: seq<Step>, j: OperationKey, k: OperationKey)
    requires TwoForOneRun(c.world, j, k)
    ensures TwoForOneRun(Exec(c, steps).world, j, k)
    decreases |steps|
  {
    hide Apply;
    if steps != [] {
      StepKeepsBindings(c, steps[0], j);
      StepKeepsBindings(c, steps[0], k);
      TwoForOneRunStays(Apply(c, steps[0]), steps[1..], j, k);
    }
  }

  lemma RecordsForKnownRun(c: Config, s: Step, early: bool)
    requires ConfigInv(c, early) && !MeetsApproval(c, s)
    ensures FreshOperation(c.processes[s.p].op) && HasOperation(c.world, c.processes[s.p].op.binding.run)
  {
    assert ProcessInv(c.world, c.processes[s.p], early);
  }

  /** Recorded after its run left approval, an operation is the second one of that run. */
  lemma LateRecordingIsSecond(c: Config, s: Step, early: bool) returns (j: OperationKey, k: OperationKey)
    requires ConfigInv(c, early) && !MeetsApproval(c, s)
    ensures TwoForOneRun(Apply(c, s).world, j, k)
  {
    hide ConfigInv, Inv;
    var o := c.processes[s.p].op;
    var r := o.binding.run;
    RecordsForKnownRun(c, s, early);
    k :| k in c.world.operations && c.world.operations[k].binding.run == r;
    j := o.key;
    assert Apply(c, s).world == Create(c.world, o).0;
  }

  /**
   Whatever starts interleave, the records are coupled at the end of a run if and only if every new
   operation of it met its run still at approval; one that did not stays beside the other for good.
   */
  lemma {:induction false} CoupledIffRecordingsMeetApproval(c: Config, steps: seq<Step>, early: bool)
    requires ConfigInv(c, early) && (early || OwnerAlwaysSpeaksOfIssued(c, steps))
    ensures Inv(Exec(c, steps).world, early) <==> EveryRecordingMeetsApproval(c, steps)
    decreases |steps|
  {
    hide Apply, MeetsApproval, OwnerSpeaksOfIssued;
    if steps != [] {
      if MeetsApproval(c, steps[0]) {
        StepKeepsInv(c, steps[0], early);
        CoupledIffRecordingsMeetApproval(Apply(c, steps[0]), steps[1..], early);
      } else {
        var j, k := LateRecordingIsSecond(c, steps[0], early);
        TwoForOneRunStays(Apply(c, steps[0]), steps[1..], j, k);
      }
    }
  }

  // ---- Turns of one process --------------------------------------------------------------

  /** So many turns of one process, each at the same moment. */
  function Turns(p: nat, now: Time, issued: Issuance, n: nat): seq<Step> { seq(n, i => Advance(p, now, issued)) }

  lemma ExecFirst(c: Config, s: Step, rest: seq<Step>)
    ensures Exec(c, [s] + rest) == Exec(Apply(c, s), rest)
    ensures OwnerAlwaysSpeaksOfIssued(c, [s] + rest) <==> OwnerSpeaksOfIssued(c, s) && OwnerAlwaysSpeaksOfIssued(Apply(c, s), rest)
  {
    hide Apply, OwnerSpeaksOfIssued;
    assert ([s] + rest)[0] == s && ([s] + rest)[1..] == rest;
  }

  lemma {:induction false} ExecConcat(c: Config, x: seq<Step>, y: seq<Step>)
    ensures Exec(c, x + y) == Exec(Exec(c, x), y)
    ensures OwnerAlwaysSpeaksOfIssued(c, x + y) <==> OwnerAlwaysSpeaksOfIssued(c, x) && OwnerAlwaysSpeaksOfIssued(Exec(c, x), y)
    decreases |x|
  {
    hide Apply, OwnerSpeaksOfIssued;
    if x == [] { assert x + y == y; }
    else {
      assert (x + y)[0] == x[0] && (x + y)[1..] == x[1..] + y;
      ExecConcat(Apply(c, x[0]), x[1..], y);
    }
  }

  lemma OneTurn(c: Config, p: nat, now: Time, issued: Issuance, n: nat)
    requires n > 0
    ensures Exec(c, Turns(p, now, issued, n)) == Exec(Apply(c, Advance(p, now, issued)), Turns(p, now, issued, n - 1))
  {
    hide Apply;
    assert Turns(p, now, issued, n) == [Advance(p, now, issued)] + Turns(p, now, issued, n - 1);
    ExecFirst(c, Advance(p, now, issued), Turns(p, now, issued, n - 1));
  }

  lemma NoTurn(c: Config, p: nat, now: Time, issued: Issuance)
    ensures Exec(c, Turns(p, now, issued, 0)) == c
  {}

  lemma FourTurns(c: Config, p: nat, now: Time, issued: Issuance)
    ensures var turn := Advance(p, now, issued);
            Exec(c, Turns(p, now, issued, 4)) == Apply(Apply(Apply(Apply(c, turn), turn), turn), turn)
  {
    hide Apply, Exec, Turns;
    var turn := Advance(p, now, issued);
    OneTurn(c, p, now, issued, 4);
    OneTurn(Apply(c, turn), p, now, issued, 3);
    OneTurn(Apply(Apply(c, turn), turn), p, now, issued, 2);
    OneTurn(Apply(Apply(Apply(c, turn), turn), turn), p, now, issued, 1);
    NoTurn(Apply(Apply(Apply(Apply(c, turn), turn), turn), turn), p, now, issued);
  }

  lemma {:induction false} TurnsAreNoEvents(c: Config, p: nat, now: Time, issued: Issuance, n: nat)
    ensures OwnerAlwaysSpeaksOfIssued(c, Turns(p, now, issued, n))
    decreases n
  {
    hide Apply;
    if n > 0 {
      assert Turns(p, now, issued, n) == [Advance(p, now, issued)] + Turns(p, now, issued, n - 1);
      ExecFirst(c, Advance(p, now, issued), Turns(p, now, issued, n - 1));
      TurnsAreNoEvents(Apply(c, Advance(p, now, issued)), p, now, issued, n - 1);
    }
  }

  /** What a start finds when its run is at approval, as expected, and nothing is recorded. */
  predicate Startable(w: World, input: Input, issued: Issuance) {
    && input.run in w.runs && w.runs[input.run] == Run(AwaitingApproval, input.expectedVersion)
    && issued.baseRevision == input.expectedRevision && w.operations == map[]
  }

  /** Two turns read the run and record the operation. */
  lemma StartRecords(c: Config, p: nat, input: Input, issued: Issuance, now: Time)
    requires p in c.processes && c.processes[p] == Starting(input) && Startable(c.world, input, issued)
    ensures var o, turn := NewOperation(input, issued, now), Advance(p, now, issued);
            Apply(Apply(c, turn), turn) == Config(World(map[o.key := o], c.world.runs), c.processes[p := Resuming(input, o)])
  {
    var o := NewOperation(input, issued, now);
    var c1 := Config(c.world, c.processes[p := Creating(input, o)]);
    assert Apply(c, Advance(p, now, issued)) == c1;
    hide NewOperation;
    assert Apply(c1, Advance(p, now, issued)) == Config(World(map[o.key := o], c.world.runs), c.processes[p := Resuming(input, o)]);
  }

  /** Two more read it again and approve. */
  lemma ResumeApproves(c: Config, p: nat, input: Input, o: Operation, issued: Issuance, now: Time)
    requires p in c.processes && c.processes[p] == Resuming(input, o) && o.status == Recorded && o.binding.run == input.run
    requires input.run in c.world.runs && c.world.runs[input.run] == Run(AwaitingApproval, input.expectedVersion)
    ensures var turn := Advance(p, now, issued);
            Apply(Apply(c, turn), turn)
            == Config(World(c.world.operations, c.world.runs[input.run := Run(Committing, input.expectedVersion + 1)]), c.processes[p := MarkingIssued(o)])
  {
    var c1 := Config(c.world, c.processes[p := Approving(input, o, c.world.runs[input.run])]);
    assert Apply(c, Advance(p, now, issued)) == c1;
    assert Apply(c1, Advance(p, now, issued))
           == Config(World(c.world.operations, c.world.runs[input.run := Run(Committing, input.expectedVersion + 1)]), c.processes[p := MarkingIssued(o)]);
  }

  /** Four turns read the run, record the operation, read again and approve: the run is committing. */
  lemma StartApproves(c: Config, p: nat, input: Input, issued: Issuance, now: Time)
    requires p in c.processes && c.processes[p] == Starting(input) && Startable(c.world, input, issued)
    ensures var o := NewOperation(input, issued, now);
            Exec(c, Turns(p, now, issued, 4))
            == Config(World(map[o.key := o], c.world.runs[input.run := Run(Committing, input.expectedVersion + 1)]),
                      c.processes[p := MarkingIssued(o)])
  {
    hide Apply, Exec, Turns;
    var o := NewOperation(input, issued, now);
    FourTurns(c, p, now, issued);
    StartRecords(c, p, input, issued, now);
    ResumeApproves(Config(World(map[o.key := o], c.world.runs), c.processes[p := Resuming(input, o)]), p, input, o, issued, now);
    assert c.processes[p := Resuming(input, o)][p := MarkingIssued(o)] == c.processes[p := MarkingIssued(o)];
  }

  /** The owner's event reads a committing run and takes it to where it awaits the owner. */
  lemma EventBegins(c: Config, p: nat, o: Operation, outcome: Outcome, version: nat, now: Time, issued: Issuance)
    requires p in c.processes && c.processes[p] == Deciding(o, outcome)
    requires o.binding.run in c.world.runs && c.world.runs[o.binding.run] == Run(Committing, version)
    ensures var run := Run(AwaitingDomainConfirmation, version + 1);
            Apply(Apply(c, Advance(p, now, issued)), Advance(p, now, issued))
            == Config(World(c.world.operations, c.world.runs[o.binding.run := run]), c.processes[p := Settling(o, outcome, run)])
  {
    var run := Run(AwaitingDomainConfirmation, version + 1);
    var c1 := Config(c.world, c.processes[p := EventBeginning(o, outcome, c.world.runs[o.binding.run])]);
    var c2 := Config(World(c.world.operations, c.world.runs[o.binding.run := run]), c.processes[p := Settling(o, outcome, run)]);
    assert Apply(c, Advance(p, now, issued)) == c1;
    assert Apply(c1, Advance(p, now, issued)) == c2;
  }

  /** Then it takes the run to the outcome. */
  lemma EventSettles(c: Config, p: nat, o: Operation, outcome: Outcome, run: Run, now: Time, issued: Issuance)
    requires p in c.processes && c.processes[p] == Settling(o, outcome, run) && run.state == AwaitingDomainConfirmation
    requires o.binding.run in c.world.runs && c.world.runs[o.binding.run] == run
    ensures var d := Apply(c, Advance(p, now, issued));
            && d.processes == c.processes[p := Finalizing(o, outcome)] && d.world.operations == c.world.operations
            && o.binding.run in d.world.runs && TerminalMatches(d.world.runs[o.binding.run].state, StatusOf(outcome))
  {}

  /** Last it decides the operation, if that was issued; if not, this is refused and the process gives up. */
  lemma EventFinalizes(c: Config, p: nat, o: Operation, outcome: Outcome, now: Time, issued: Issuance)
    requires p in c.processes && c.processes[p] == Finalizing(o, outcome) && o.key in c.world.operations && c.world.operations[o.key] == o
    requires o.status in {Recorded, Issued} && now >= o.updatedAt
    ensures var d := Apply(c, Advance(p, now, issued));
            && d.world.runs == c.world.runs
            && d.world.operations == (if o.status == Recorded then c.world.operations
                                      else c.world.operations[o.key := o.(status := StatusOf(outcome), updatedAt := now, consumed := true)])
            && forall q | q != p :: (q in d.processes <==> q in c.processes) && (q in d.processes ==> d.processes[q] == c.processes[q])
  {}

  /** Four turns of the owner's event carry a committing run to its outcome, and an issued operation with it. */
  lemma EventDecides(c: Config, p: nat, o: Operation, outcome: Outcome, version: nat, now: Time, issued: Issuance)
    requires p in c.processes && c.processes[p] == Deciding(o, outcome) && o.key in c.world.operations && c.world.operations[o.key] == o
    requires o.status in {Recorded, Issued} && now >= o.updatedAt
    requires o.binding.run in c.world.runs && c.world.runs[o.binding.run] == Run(Committing, version)
    ensures var d := Exec(c, Turns(p, now, issued, 4));
            && d.world.operations == (if o.status == Recorded then c.world.operations
                                      else c.world.operations[o.key := o.(status := StatusOf(outcome), updatedAt := now, consumed := true)])
            && o.binding.run in d.world.runs && TerminalMatches(d.world.runs[o.binding.run].state, StatusOf(outcome))
            && forall q | q != p :: (q in d.processes <==> q in c.processes) && (q in d.processes ==> d.processes[q] == c.processes[q])
  {
    hide Apply, Exec, Turns;
    var run := Run(AwaitingDomainConfirmation, version + 1);
    var turn := Advance(p, now, issued);
    var c2 := Apply(Apply(c, turn), turn);
    FourTurns(c, p, now, issued);
    EventBegins(c, p, o, outcome, version, now, issued);
    EventSettles(c2, p, o, outcome, run, now, issued);
    hide TerminalMatches, StatusOf;
    EventFinalizes(Apply(c2, turn), p, o, outcome, now, issued);
  }

  // ---- Two starts at once ----------------------------------------------------------------

  predicate Expects(input: Input, r: RunKey, version: nat, issued: Issuance) {
    input.run == r && input.expectedVersion == version && issued.baseRevision == input.expectedRevision
  }

  /** Two processes find nothing active for a run at approval, and the second has read that it is there. */
  function BothRead(r: RunKey, version: nat, first: Input, second: Input, issued: Issuance, now: Time): seq<Step> {
    [Arrive(r, version), BeginStart(1, first, None), BeginStart(2, second, None), Advance(2, now, issued)]
  }

  /** The first records, approves and marks issued; the owner's event decides; the second then records. */
  function TwoStarts(r: RunKey, version: nat, first: Input, second: Input, one: Issuance, other: Issuance, outcome: Outcome, now: Time): seq<Step> {
    var o := NewOperation(first, one, now);
    BothRead(r, version, first, second, other, now)
    + (Turns(1, now, one, 4)
       + ([Advance(1, now, one)]
          + ([BeginEvent(3, o.key, o.binding.authorization, outcome)]
             + (Turns(3, now, one, 4) + [Advance(2, now, other)]))))
  }

  lemma BothReadResult(r: RunKey, version: nat, first: Input, second: Input, issued: Issuance, now: Time)
    requires first.run == r && Expects(second, r, version, issued)
    ensures Exec(NOTHING, BothRead(r, version, first, second, issued, now))
            == Config(World(map[], map[r := Run(AwaitingApproval, version)]),
                      map[1 := Starting(first), 2 := Creating(second, NewOperation(second, issued, now))])
    ensures OwnerAlwaysSpeaksOfIssued(NOTHING, BothRead(r, version, first, second, issued, now))
  {
    var w := World(map[], map[r := Run(AwaitingApproval, version)]);
    var a, b, d, e := Arrive(r, version), BeginStart(1, first, None), BeginStart(2, second, None), Advance(2, now, issued);
    var c1 := Config(w, map[]);
    var c2 := Config(w, map[1 := Starting(first)]);
    var c3 := Config(w, map[1 := Starting(first), 2 := Starting(second)]);
    var c4 := Config(w, map[1 := Starting(first), 2 := Creating(second, NewOperation(second, issued, now))]);
    assert !HasActive(w, r);
    assert Apply(NOTHING, a) == c1 && Apply(c1, b) == c2 && Apply(c2, d) == c3 && Apply(c3, e) == c4;
    hide Apply, Exec, OwnerAlwaysSpeaksOfIssued;
    assert [a, b, d, e] == [a] + [b, d, e] && [b, d, e] == [b] + [d, e] && [d, e] == [d] + [e] && [e] == [e] + [];
    ExecFirst(NOTHING, a, [b, d, e]);
    ExecFirst(c1, b, [d, e]);
    ExecFirst(c2, d, [e]);
    ExecFirst(c3, e, []);
    ExecNothing(c4);
  }

  lemma ExecNothing(c: Config)
    ensures Exec(c, []) == c && OwnerAlwaysSpeaksOfIssued(c, [])
  {}

  lemma IssueIsMarked(c: Config, p: nat, o: Operation, now: Time, issued: Issuance)
    requires p in c.processes && c.processes[p] == MarkingIssued(o) && c.world.operations == map[o.key := o] && o.status == Recorded
    requires now == o.updatedAt && !o.consumed
    ensures Apply(c, Advance(p, now, issued)) == Config(World(map[o.key := o.(status := Issued)], c.world.runs), c.processes[p := Confirming(o)])
  {
    assert map[o.key := o][o.key := o.(status := Issued)] == map[o.key := o.(status := Issued)];
  }

  lemma LateCreation(c: Config, p: nat, input: Input, o: Operation, now: Time, issued: Issuance)
    requires p in c.processes && c.processes[p] == Creating(input, o)
    requires o.key !in c.world.operations && forall k | k in c.world.operations :: c.world.operations[k].status.Terminal()
    ensures Apply(c, Advance(p, now, issued)).world == c.world.(operations := c.world.operations[o.key := o])
  {}

  /**
   Two starts of one run, from the empty record on: both read that nothing is active, one goes all the
   way to the owner's outcome, and the other then records a second operation beside the decided run.
   Every event in it is of an issued operation, so only the interleaving of the starts is to blame.
   */
  lemma TwoStartsPart(r: RunKey, version: nat, first: Input, second: Input, one: Issuance, other: Issuance, outcome: Outcome, now: Time)
    requires Expects(first, r, version, one) && Expects(second, r, version, other) && one.operation != other.operation
    ensures var steps := TwoStarts(r, version, first, second, one, other, outcome, now);
            var w := Exec(NOTHING, steps).world;
            && OwnerAlwaysSpeaksOfIssued(NOTHING, steps) && !Inv(w, true)
            && r in w.runs && TerminalMatches(w.runs[r].state, StatusOf(outcome))
            && var k := OperationKey(r.scope, other.operation);
               k in w.operations && w.operations[k].binding.run == r && w.operations[k].status == Recorded
  {
    var o, late := NewOperation(first, one, now), NewOperation(second, other, now);
    var begun := Exec(NOTHING, BothRead(r, version, first, second, other, now));
    BothReadResult(r, version, first, second, other, now);
    var approved := Exec(begun, Turns(1, now, one, 4));
    var marked := Apply(approved, Advance(1, now, one));
    var event := BeginEvent(3, o.key, o.binding.authorization, outcome);
    var deciding := Apply(marked, event);
    var decided := Exec(deciding, Turns(3, now, one, 4));
    var parted := Apply(decided, Advance(2, now, other));
    hide Apply, Exec, Turns, BothRead, OwnerAlwaysSpeaksOfIssued, OwnerSpeaksOfIssued, Inv;
    FirstDecides(begun, r, version, first, one, outcome, now);
    assert decided.processes[2] == Creating(second, late);
    LateCreation(decided, 2, second, late, now, other);
    TwoAreTooMany(parted.world, o.key, late.key);
    TwoStartsInSteps(r, version, first, second, one, other, outcome, now);
  }

  lemma TwoAreTooMany(w: World, j: OperationKey, k: OperationKey)
    requires TwoForOneRun(w, j, k)
    ensures !Inv(w, true)
  {}

  /** The first of two starts, from where both have read, up to the owner's outcome. */
  lemma FirstDecides(begun: Config, r: RunKey, version: nat, first: Input, one: Issuance, outcome: Outcome, now: Time)
    requires begun.world == World(map[], map[r := Run(AwaitingApproval, version)]) && Expects(first, r, version, one)
    requires 1 in begun.processes && begun.processes[1] == Starting(first)
    ensures var o := NewOperation(first, one, now);
            var marked := Apply(Exec(begun, Turns(1, now, one, 4)), Advance(1, now, one));
            var event := BeginEvent(3, o.key, o.binding.authorization, outcome);
            var d := Exec(Apply(marked, event), Turns(3, now, one, 4));
            && OwnerSpeaksOfIssued(marked, event)
            && d.world.operations == map[o.key := o.(status := StatusOf(outcome), updatedAt := now, consumed := true)]
            && r in d.world.runs && TerminalMatches(d.world.runs[r].state, StatusOf(outcome))
            && forall q | q != 1 && q != 3 :: (q in d.processes <==> q in begun.processes) && (q in d.processes ==> d.processes[q] == begun.processes[q])
  {
    var o := NewOperation(first, one, now);
    var approved := Exec(begun, Turns(1, now, one, 4));
    var marked := Apply(approved, Advance(1, now, one));
    var event := BeginEvent(3, o.key, o.binding.authorization, outcome);
    var issuedOp := o.(status := Issued);
    assert Apply(marked, event) == Config(marked.world, marked.processes[3 := Deciding(issuedOp, outcome)]) by {
      hide Exec, Turns, AdvanceProcess;
      StartApproves(begun, 1, first, one, now);
      IssueIsMarked(approved, 1, o, now, one);
    }
    hide Apply, Exec, Turns;
    StartApproves(begun, 1, first, one, now);
    IssueIsMarked(approved, 1, o, now, one);
    EventDecides(Apply(marked, event), 3, issuedOp, outcome, version + 1, now, one);
    assert map[o.key := issuedOp][o.key := issuedOp.(status := StatusOf(outcome), updatedAt := now, consumed := true)]
           == map[o.key := o.(status := StatusOf(outcome), updatedAt := now, consumed := true)];
  }

  /** The whole run, stage by stage. */
  lemma TwoStartsInSteps(r: RunKey, version: nat, first: Input, second: Input, one: Issuance, other: Issuance, outcome: Outcome, now: Time)
    requires OwnerAlwaysSpeaksOfIssued(NOTHING, BothRead(r, version, first, second, other, now))
    requires var o := NewOperation(first, one, now);
             var begun := Exec(NOTHING, BothRead(r, version, first, second, other, now));
             OwnerSpeaksOfIssued(Apply(Exec(begun, Turns(1, now, one, 4)), Advance(1, now, one)), BeginEvent(3, o.key, o.binding.authorization, outcome))
    ensures var o, steps := NewOperation(first, one, now), TwoStarts(r, version, first, second, one, other, outcome, now);
            var begun := Exec(NOTHING, BothRead(r, version, first, second, other, now));
            var marked := Apply(Exec(begun, Turns(1, now, one, 4)), Advance(1, now, one));
            var decided := Exec(Apply(marked, BeginEvent(3, o.key, o.binding.authorization, outcome)), Turns(3, now, one, 4));
            && OwnerAlwaysSpeaksOfIssued(NOTHING, steps) && Exec(NOTHING, steps) == Apply(decided, Advance(2, now, other))
  {
    hide Apply, Exec, Turns, BothRead, OwnerAlwaysSpeaksOfIssued, OwnerSpeaksOfIssued, NewOperation;
    var o := NewOperation(first, one, now);
    var begun := Exec(NOTHING, BothRead(r, version, first, second, other, now));
    var approved := Exec(begun, Turns(1, now, one, 4));
    var marked := Apply(approved, Advance(1, now, one));
    var event := BeginEvent(3, o.key, o.binding.authorization, outcome);
    var deciding := Apply(marked, event);
    var decided := Exec(deciding, Turns(3, now, one, 4));
    var e1 := Turns(3, now, one, 4) + [Advance(2, now, other)];
    var e2 := [event] + e1;
    var e3 := [Advance(1, now, one)] + e2;
    ExecConcat(NOTHING, BothRead(r, version, first, second, other, now), Turns(1, now, one, 4) + e3);
    ExecConcat(begun, Turns(1, now, one, 4), e3);
    TurnsAreNoEvents(begun, 1, now, one, 4);
    ExecFirst(approved, Advance(1, now, one), e2);
    NoEvent(approved, 1, now, one);
    ExecFirst(marked, event, e1);
    ExecConcat(deciding, Turns(3, now, one, 4), [Advance(2, now, other)]);
    TurnsAreNoEvents(deciding, 3, now, one, 4);
    assert [Advance(2, now, other)] == [Advance(2, now, other)] + [];
    ExecFirst(decided, Advance(2, now, other), []);
    NoEvent(decided, 2, now, other);
    ExecNothing(Apply(decided, Advance(2, now, other)));
  }

  lemma NoEvent(c: Config, p: nat, now: Time, issued: Issuance)
    ensures OwnerSpeaksOfIssued(c, Advance(p, now, issued))
  {}

  // ---- Why the owner may speak only of issued operations ---------------------------------

  lemma {:induction false} StoppedStays(c: Config, p: nat, now: Time, issued: Issuance, n: nat)
    requires p !in c.processes
    ensures Exec(c, Turns(p, now, issued, n)) == c
    decreases n
  {
    if n == 0 { NoTurn(c, p, now, issued); }
    else {
      OneTurn(c, p, now, issued, n);
      StoppedStays(c, p, now, issued, n - 1);
    }
  }

  lemma DecidedTooEarly(c: Config, p: nat, o: Operation, outcome: Outcome, now: Time, issued: Issuance)
    requires p in c.processes && c.processes[p] == Deciding(o, outcome) && o.status == Recorded && o.binding.run in c.world.runs
    requires c.world.runs[o.binding.run].state == AwaitingApproval
    ensures Exec(c, Turns(p, now, issued, 4)).world == c.world
  {
    var stopped := Apply(c, Advance(p, now, issued));
    assert stopped == Stop(c, p);
    hide Apply, Exec, Turns;
    OneTurn(c, p, now, issued, 4);
    StoppedStays(stopped, p, now, issued, 3);
  }

  lemma RecordedOperation(c: Config, k: OperationKey)
    requires ConfigInv(c, false) && k in c.world.operations
    ensures OperationInv(c.world, k, c.world.operations[k], false)
  {
    WorldOperation(c.world, k, false);
  }

  /**
   An event for an operation whose issuance was never marked carries a committing run to its outcome
   and then cannot be recorded on the operation: the records part exactly when the run was committing.
   */
  lemma EarlyEventBreaksCoupling(c: Config, p: nat, k: OperationKey, outcome: Outcome, now: Time, issued: Issuance)
    requires ConfigInv(c, false) && k in c.world.operations && c.world.operations[k].status == Recorded && now >= c.world.operations[k].updatedAt
    ensures var o := c.world.operations[k];
            var d := Exec(Apply(c, BeginEvent(p, k, o.binding.authorization, outcome)), Turns(p, now, issued, 4)).world;
            && k in d.operations && o.binding.run in d.runs
            && (Coupled(d.operations[k].status, d.runs[o.binding.run].state) <==> c.world.runs[o.binding.run].state != Committing)
  {
    hide ConfigInv, Exec, Turns, Inv;
    var o := c.world.operations[k];
    assert OperationInv(c.world, k, o, false) by { RecordedOperation(c, k); }
    var c1 := Apply(c, BeginEvent(p, k, o.binding.authorization, outcome));
    assert c1 == Config(c.world, c.processes[p := Deciding(o, outcome)]);
    hide Apply;
    if c.world.runs[o.binding.run].state == Committing {
      EventDecides(c1, p, o, outcome, c.world.runs[o.binding.run].version, now, issued);
    } else {
      DecidedTooEarly(c1, p, o, outcome, now, issued);
    }
  }

  /** One start from the empty record, up to where it has approved the run and not yet marked the issuance. */
  lemma StartFromNothing(input: Input, one: Issuance, now: Time)
    requires one.baseRevision == input.expectedRevision
    ensures var o := NewOperation(input, one, now);
            Exec(NOTHING, [Arrive(input.run, input.expectedVersion), BeginStart(1, input, None)] + Turns(1, now, one, 4))
            == Config(World(map[o.key := o], map[input.run := Run(Committing, input.expectedVersion + 1)]), map[1 := MarkingIssued(o)])
  {
    var o, w := NewOperation(input, one, now), World(map[], map[input.run := Run(AwaitingApproval, input.expectedVersion)]);
    var a, b := Arrive(input.run, input.expectedVersion), BeginStart(1, input, None);
    var begun := Config(w, map[1 := Starting(input)]);
    assert !HasActive(w, input.run);
    assert Apply(NOTHING, a) == Config(w, map[]) && Apply(Config(w, map[]), b) == begun;
    hide Apply, Exec, Turns;
    StartApproves(begun, 1, input, one, now);
    assert w.runs[input.run := Run(Committing, input.expectedVersion + 1)] == map[input.run := Run(Committing, input.expectedVersion + 1)];
    assert map[1 := Starting(input)][1 := MarkingIssued(o)] == map[1 := MarkingIssued(o)];
    assert [a, b] == [a] + [b] && [b] == [b] + [];
    ExecConcat(NOTHING, [a, b], Turns(1, now, one, 4));
    ExecFirst(NOTHING, a, [b]);
    ExecFirst(Config(w, map[]), b, []);
    ExecNothing(begun);
  }

  /** Such a moment is reached from the empty record: the owner's event that comes then leaves the records apart. */
  lemma EarlyEventRun(input: Input, one: Issuance, outcome: Outcome, now: Time)
    requires one.baseRevision == input.expectedRevision
    ensures var o := NewOperation(input, one, now);
            var c := Exec(NOTHING, [Arrive(input.run, input.expectedVersion), BeginStart(1, input, None)] + Turns(1, now, one, 4));
            var d := Exec(Apply(c, BeginEvent(2, o.key, o.binding.authorization, outcome)), Turns(2, now, one, 4)).world;
            && c.world.operations == map[o.key := o] && d.operations == c.world.operations && !Inv(d, false)
            && input.run in d.runs && TerminalMatches(d.runs[input.run].state, StatusOf(outcome))
  {
    var o := NewOperation(input, one, now);
    var c := Exec(NOTHING, [Arrive(input.run, input.expectedVersion), BeginStart(1, input, None)] + Turns(1, now, one, 4));
    assert c == Config(World(map[o.key := o], map[input.run := Run(Committing, input.expectedVersion + 1)]), map[1 := MarkingIssued(o)]) by {
      hide Exec, Turns, Apply;
      StartFromNothing(input, one, now);
    }
    var c1 := Apply(c, BeginEvent(2, o.key, o.binding.authorization, outcome));
    EventIsTaken(c, 2, o, outcome);
    hide Exec, Turns, Apply, Inv;
    EventDecides(c1, 2, o, outcome, input.expectedVersion + 1, now, one);
    PartedRecords(Exec(c1, Turns(2, now, one, 4)).world, o.key);
  }

  lemma EventIsTaken(c: Config, p: nat, o: Operation, outcome: Outcome)
    requires o.key in c.world.operations && c.world.operations[o.key] == o
    ensures Apply(c, BeginEvent(p, o.key, o.binding.authorization, outcome)) == Config(c.world, c.processes[p := Deciding(o, outcome)])
  {}

  /**
   Whatever runs before and beside it, an event that takes its last turn leaves its records apart
   exactly when nobody has marked the operation by then.
   */
  lemma LastTurnPartsIff(c: Config, steps: seq<Step>, p: nat, now: Time, issued: Issuance)
    requires ConfigInv(c, true) && EveryRecordingMeetsApproval(c, steps)
    requires p in Exec(c, steps).processes && Exec(c, steps).processes[p].Finalizing?
    ensures var e := Exec(c, steps); var op, d := e.processes[p].op, Apply(e, Advance(p, now, issued)).world;
            && op.key in e.world.operations && op.key in d.operations && op.binding.run in d.runs
            && TerminalMatches(d.runs[op.binding.run].state, StatusOf(e.processes[p].outcome))
            && (Coupled(d.operations[op.key].status, d.runs[op.binding.run].state) <==> e.world.operations[op.key].status != Recorded)
  {
    hide ConfigInv, Inv, Exec, AdvanceProcess, Coupled, TerminalMatches;
    EveryRunKeepsInv(c, steps, true);
    var e := Exec(c, steps);
    ProcessOf(e, p, true);
    LastTurn(e, p, now, issued);
  }

  lemma LastTurn(e: Config, p: nat, now: Time, issued: Issuance)
    requires ConfigInv(e, true) && p in e.processes && ProcessInv(e.world, e.processes[p], true) && e.processes[p].Finalizing?
    ensures var op, d := e.processes[p].op, AdvanceProcess(e, p, now, issued).world;
            && op.key in e.world.operations && op.key in d.operations && op.binding.run in d.runs
            && TerminalMatches(d.runs[op.binding.run].state, StatusOf(e.processes[p].outcome))
            && (Coupled(d.operations[op.key].status, d.runs[op.binding.run].state) <==> e.world.operations[op.key].status != Recorded)
  {
    HeldOperation(e.world, e.processes[p].op, true);
    hide ConfigInv, Inv;
  }

  /** An operation nobody has marked stands beside a run that is past committing. */
  predicate Parted(w: World, k: OperationKey) {
    && k in w.operations && w.operations[k].status == Recorded && w.operations[k].binding.run in w.runs
    && w.runs[w.operations[k].binding.run].state.Phase() >= 2
  }

  predicate AboutToMark(process: Process, k: OperationKey) { process.MarkingIssued? && process.op.key == k }

  /** The start that approved the run has not crashed: its next turn marks the operation. */
  predicate CanStillMark(c: Config, k: OperationKey) { exists p | p in c.processes :: AboutToMark(c.processes[p], k) }

  lemma AdvanceLeavesOperation(c: Config, p: nat, now: Time, issued: Issuance, k: OperationKey)
    requires p in c.processes && ProcessInv(c.world, c.processes[p], true) && Parted(c.world, k) && !AboutToMark(c.processes[p], k)
    ensures k in AdvanceProcess(c, p, now, issued).world.operations
    ensures AdvanceProcess(c, p, now, issued).world.operations[k] == c.world.operations[k]
  {
    hide AfterRead, AfterRunWrite, AfterMark, RunCommand, HasActive, Target, TerminalMatches, RunSeen;
  }

  /** Nobody gets to mark it who was not about to: approving again is refused, and so is resuming. */
  lemma NobodyNewMarks(c: Config, p: nat, now: Time, issued: Issuance, k: OperationKey)
    requires p in c.processes && ProcessInv(c.world, c.processes[p], true) && Parted(c.world, k) && !AboutToMark(c.processes[p], k)
    ensures var d := AdvanceProcess(c, p, now, issued); p in d.processes ==> !AboutToMark(d.processes[p], k)
  {
    hide Mark, Create, TerminalMatches, NewOperation;
  }

  lemma StepKeepsParted(c: Config, s: Step, k: OperationKey)
    requires ConfigInv(c, true) && Parted(c.world, k) && !CanStillMark(c, k) && Moves(c.world, Apply(c, s).world)
    ensures Parted(Apply(c, s).world, k) && !CanStillMark(Apply(c, s), k)
  {
    hide ConfigInv, Apply, AdvanceProcess, Moves, AboutToMark;
    if s.Advance? && s.p in c.processes {
      assert Apply(c, s) == AdvanceProcess(c, s.p, s.now, s.issued) by { AdvanceIsApplied(c, s); }
      ProcessOf(c, s.p, true);
      assert !AboutToMark(c.processes[s.p], k);
      AdvanceLeavesOperation(c, s.p, s.now, s.issued, k);
      NobodyNewMarks(c, s.p, s.now, s.issued, k);
      OthersStay(c, s.p, s.now, s.issued);
    } else {
      OtherStepsMarkNothing(c, s, k);
    }
    PartedStays(c.world, Apply(c, s).world, k);
  }

  lemma AdvanceIsApplied(c: Config, s: Step)
    requires s.Advance? && s.p in c.processes
    ensures Apply(c, s) == AdvanceProcess(c, s.p, s.now, s.issued)
  {}

  /** A step that is no process's turn leaves the operations alone and brings nobody to a mark. */
  lemma OtherStepsMarkNothing(c: Config, s: Step, k: OperationKey)
    requires !s.Advance? || s.p !in c.processes
    ensures Apply(c, s).world.operations == c.world.operations
    ensures CanStillMark(Apply(c, s), k) ==> CanStillMark(c, k)
  {
    hide AdvanceProcess, HasActive, ActiveFor, SameRequest;
    forall p | p in Apply(c, s).processes && AboutToMark(Apply(c, s).processes[p], k) ensures p in c.processes && AboutToMark(c.processes[p], k) {}
  }

  lemma PartedStays(w: World, v: World, k: OperationKey)
    requires Moves(w, v) && Parted(w, k) && k in v.operations && v.operations[k] == w.operations[k]
    ensures Parted(v, k)
  {
    assert RunEvolves(w.runs[w.operations[k].binding.run], v.runs[w.operations[k].binding.run]);
  }

  lemma OthersStay(c: Config, p: nat, now: Time, issued: Issuance)
    requires p in c.processes
    ensures forall q | q in AdvanceProcess(c, p, now, issued).processes && q != p ::
              q in c.processes && AdvanceProcess(c, p, now, issued).processes[q] == c.processes[q]
  {
    hide AfterRead, AfterRunWrite, AfterMark, RunCommand, MarkStatus, Transition, Mark, Create;
  }

  lemma {:induction false} PartedForEver(c: Config, steps: seq<Step>, k: OperationKey)
    requires ConfigInv(c, true) && EveryRecordingMeetsApproval(c, steps) && Parted(c.world, k) && !CanStillMark(c, k)
    ensures Parted(Exec(c, steps).world, k)
    decreases |steps|
  {
    hide ConfigInv, Apply, MeetsApproval, Moves, Parted, CanStillMark;
    if steps != [] {
      StepKeepsInv(c, steps[0], true);
      StepKeepsParted(c, steps[0], k);
      PartedForEver(Apply(c, steps[0]), steps[1..], k);
    }
  }

  predicate Mends(c: Config, steps: seq<Step>, k: OperationKey) { EveryRecordingMeetsApproval(c, steps) && !Parted(Exec(c, steps).world, k) }

  lemma OneMarkMends(c: Config, p: nat, k: OperationKey)
    requires Parted(c.world, k) && p in c.processes && AboutToMark(c.processes[p], k)
    ensures exists steps :: Mends(c, steps, k)
  {
    var s := Advance(p, c.world.operations[k].updatedAt, Issuance("", "", "", "", "", ""));
    assert !Parted(Apply(c, s).world, k) && MeetsApproval(c, s);
    hide Apply, Parted, MeetsApproval;
    assert [s][0] == s && [s][1..] == [];
    assert EveryRecordingMeetsApproval(Apply(c, s), []) && Exec(Apply(c, s), []) == Apply(c, s);
    assert Mends(c, [s], k);
  }

  /** Records that an early event has parted are ever mended exactly when the start that approved is still at its mark. */
  lemma MendableIff(c: Config, k: OperationKey)
    requires ConfigInv(c, true) && Parted(c.world, k)
    ensures (exists steps :: Mends(c, steps, k)) <==> CanStillMark(c, k)
  {
    hide ConfigInv, Apply, Parted, Exec, EveryRecordingMeetsApproval;
    if CanStillMark(c, k) {
      var p :| p in c.processes && AboutToMark(c.processes[p], k);
      OneMarkMends(c, p, k);
    } else {
      forall steps ensures !Mends(c, steps, k) { if EveryRecordingMeetsApproval(c, steps) { PartedForEver(c, steps, k); } }
    }
  }
}
