/**
 The lifecycle of an artifact over every run of the protocol, state by state: how it
 gets to where it may be read, finalized or committed, and who may see it there.
 */
module ArtifactLifecycles {
  import opened Wrappers
  import opened Artifacts
  import opened ArtifactCustody
  import opened ArtifactRuns

  /** What each state may follow: one stage at a time, or out of the lifecycle; a tombstone only from outside it. */
  predicate MayFollow(current: State, next: State) {
    match next
    case Pending => false
    case Scanning => current == Pending
    case Valid => current == Scanning
    case Finalized => current == Valid
    case Committed => current == Finalized
    case Quarantined => current in {Pending, Scanning, Valid, Finalized, Committed}
    case Expired => current in {Pending, Scanning, Valid, Finalized, Committed}
    case Deleted => current in {Quarantined, Expired}
  }

  lemma LifecycleSteps(current: State, next: State)
    ensures Allowed(current, next) <==> MayFollow(current, next)
  {}

  /** The operations under which an artifact of each kind may become final. */
  function FinalizedUnder(kind: Kind): set<Operation> {
    match kind
    case CompiledContext => {PageChange, ComponentDesigning, ArtifactValidation, ImageOperation, ComponentPackage, Unrecognized}
    case TargetSnapshot => {PageChange, ComponentDesigning, ArtifactValidation, ImageOperation, ComponentPackage, Unrecognized}
    case AgentPlan => {PageChange, ComponentDesigning, ArtifactValidation, ImageOperation, ComponentPackage, Unrecognized}
    case WorkerResult => {PageChange, ComponentDesigning, ArtifactValidation, ImageOperation, ComponentPackage, Unrecognized}
    case ValidationReport => {PageChange, ComponentDesigning, ArtifactValidation, ImageOperation, ComponentPackage, Unrecognized}
    case PageCandidate => {PageChange}
    case ComponentDesign => {ComponentDesigning}
    case _ => {}
  }

  lemma FinalizableIsFinalizedUnder(operation: Operation, kind: Kind)
    ensures FinalizableBy(operation, kind) <==> operation in FinalizedUnder(kind)
  {}

  /** The purposes an artifact may be seen for in each state. */
  function PurposesIn(state: State): set<Purpose> {
    match state
    case Pending => {Producer, Scanner}
    case Scanning => {Producer, Scanner}
    case Valid => {Read, Review, Approval, Finalization}
    case Finalized => {Read, Review, Approval, Purpose.Commit}
    case Committed => {Read, Review, Approval}
    case _ => {}
  }

  lemma EligibleIsPurposesIn(state: State, purpose: Purpose)
    ensures Eligible(state, purpose) <==> purpose in PurposesIn(state)
  {}

  // ---- One stage at a time ---------------------------------------------------------------

  predicate In(c: Config, k: Key, states: set<State>) { k in c.records && c.records[k].state in states }

  /** At some step of the run the artifact went from one state to the other. */
  predicate Went(c: Config, steps: seq<Step>, k: Key, from: State, to: State)
    decreases |steps|
  {
    steps != [] && ((In(c, k, {from}) && In(Apply(c, steps[0]), k, {to})) || Went(Apply(c, steps[0]), steps[1..], k, from, to))
  }

  /** A process writes the state it read, the next stage, or one outside the lifecycle. */
  predicate WritesForward(process: Process) {
    process.Writing? ==>
      var from, to := process.base.state, process.next.state;
      || to == from || to == Quarantined || to == Expired || (from == Pending && to == Scanning) || (from == Scanning && to == Valid)
      || (from == Valid && to == Finalized) || (from == Finalized && to == Committed)
  }

  ghost predicate AllForward(c: Config) { forall p | p in c.processes :: WritesForward(c.processes[p]) }

  lemma TransitionWritesForward(value: Record, expected: nat, next: State, now: Time, revoke: bool)
    requires next != Deleted
    ensures var n := TransitionFrom(value, expected, next, now); n.Ok? ==> WritesForward(Writing(value, n.value, revoke))
  {
    LifecycleSteps(value.state, next);
    hide Allowed;
  }

  lemma StepKeepsForward(c: Config, s: Step)
    requires AllForward(c) && Lawful(c, s)
    ensures AllForward(Apply(c, s))
  {
    hide ClaimDeletion, Update, Grantable, Tombstone, TransitionFrom, FreshRecord, OwnObject;
    if s.BeginTransition? && s.key in c.records {
      TransitionWritesForward(c.records[s.key], s.expected, s.next, s.now, Withdraws(c.records[s.key], s.next));
    }
    hide Withdraws;
  }

  /** The stage of the lifecycle that an artifact enters by one transition only. */
  predicate Stage(from: State, to: State, states: set<State>) {
    || (from == Pending && to == Scanning && states == {Scanning, Valid, Finalized, Committed})
    || (from == Scanning && to == Valid && states == {Valid, Finalized, Committed})
    || (from == Valid && to == Finalized && states == {Finalized, Committed})
    || (from == Finalized && to == Committed && states == {Committed})
  }

  lemma WriteEnters(c: Config, p: nat, k: Key, from: State, to: State, states: set<State>)
    requires Inv(c) && p in c.processes && c.processes[p].Writing? && WritesForward(c.processes[p]) && Stage(from, to, states)
    requires !In(c, k, states) && In(AdvanceProcess(c, p), k, states)
    ensures In(c, k, {from}) && In(AdvanceProcess(c, p), k, {to})
  {
    ProcessOf(c, p);
    hide Inv;
  }

  /** The other processes write no live state. */
  lemma AdvanceEntersNothing(c: Config, p: nat, k: Key, states: set<State>)
    requires p in c.processes && ProcessInv(c, c.processes[p]) && !c.processes[p].Writing? && states <= {Scanning, Valid, Finalized, Committed}
    requires !In(c, k, states)
    ensures !In(AdvanceProcess(c, p), k, states)
  {
    hide Evolves, ReadFrom;
  }

  lemma OthersEnterNothing(c: Config, s: Step, k: Key, from: State, to: State, states: set<State>)
    requires Inv(c) && Lawful(c, s) && Stage(from, to, states) && !In(c, k, states)
    requires !(s.Advance? && s.p in c.processes && c.processes[s.p].Writing?)
    ensures !In(Apply(c, s), k, states)
  {
    hide Inv, TransitionFrom, HoldFrom, Grantable, OwnObject, AdvanceProcess, ProcessInv;
    if s.Advance? && s.p in c.processes {
      ProcessOf(c, s.p);
      AdvanceEntersNothing(c, s.p, k, states);
    }
  }

  lemma StageIsEntered(c: Config, s: Step, k: Key, from: State, to: State, states: set<State>)
    requires Inv(c) && AllForward(c) && Lawful(c, s) && Stage(from, to, states) && !In(c, k, states) && In(Apply(c, s), k, states)
    ensures In(c, k, {from}) && In(Apply(c, s), k, {to})
  {
    hide Inv, In, AdvanceProcess, Lawful, Stage, WritesForward;
    if s.Advance? && s.p in c.processes && c.processes[s.p].Writing? {
      WriteEnters(c, s.p, k, from, to, states);
    } else {
      OthersEnterNothing(c, s, k, from, to, states);
    }
  }

  lemma {:induction false} StageWasEntered(c: Config, steps: seq<Step>, k: Key, from: State, to: State, states: set<State>)
    requires Inv(c) && AllForward(c) && AllLawful(c, steps) && Stage(from, to, states) && !In(c, k, states) && In(Exec(c, steps), k, states)
    ensures Went(c, steps, k, from, to)
    decreases |steps|
  {
    hide Inv, AllForward, Lawful, Apply, In, Stage;
    if steps != [] {
      StepKeepsInv(c, steps[0]);
      StepKeepsForward(c, steps[0]);
      if In(Apply(c, steps[0]), k, states) { StageIsEntered(c, steps[0], k, from, to, states); }
      else { StageWasEntered(Apply(c, steps[0]), steps[1..], k, from, to, states); }
    }
  }

  lemma StageFromNothing(steps: seq<Step>, k: Key, from: State, to: State, states: set<State>)
    requires AllLawful(NOTHING, steps) && Stage(from, to, states) && In(Exec(NOTHING, steps), k, states)
    ensures Went(NOTHING, steps, k, from, to)
  {
    assert Inv(NOTHING) && AllForward(NOTHING) && !In(NOTHING, k, states);
    hide Inv, AllForward, Exec, In, Stage, AllLawful;
    StageWasEntered(NOTHING, steps, k, from, to, states);
  }

  /**
   No artifact skips a stage: in every run from the empty store, one that is valid, finalized or
   committed went from pending to scanning and from scanning to valid in that run, one that is
   finalized or committed went on from valid, and one that is committed went on from finalized.
   */
  lemma NoStageIsSkipped(steps: seq<Step>, k: Key)
    requires AllLawful(NOTHING, steps) && k in Exec(NOTHING, steps).records
    ensures var state := Exec(NOTHING, steps).records[k].state;
            && (state in {Scanning, Valid, Finalized, Committed} ==> Went(NOTHING, steps, k, Pending, Scanning))
            && (state in {Valid, Finalized, Committed} ==> Went(NOTHING, steps, k, Scanning, Valid))
            && (state in {Finalized, Committed} ==> Went(NOTHING, steps, k, Valid, Finalized))
            && (state == Committed ==> Went(NOTHING, steps, k, Finalized, Committed))
  {
    hide Exec, AllLawful, Went;
    var state := Exec(NOTHING, steps).records[k].state;
    if state in {Scanning, Valid, Finalized, Committed} { StageFromNothing(steps, k, Pending, Scanning, {Scanning, Valid, Finalized, Committed}); }
    if state in {Valid, Finalized, Committed} { StageFromNothing(steps, k, Scanning, Valid, {Valid, Finalized, Committed}); }
    if state in {Finalized, Committed} { StageFromNothing(steps, k, Valid, Finalized, {Finalized, Committed}); }
    if state == Committed { StageFromNothing(steps, k, Finalized, Committed, {Committed}); }
  }

  /**
   So nobody is shown what was not scanned: in every run from the empty store, a grant to read, review
   or approve is admitted only for an artifact that went through scanning to valid in that run, one to
   finalize only for one that is valid, and one to commit only for one that was finalized.
   */
  lemma AdmittedContentWasScanned(steps: seq<Step>, g: Grant, actor: string, permitted: bool, verified: bool, now: Time)
    requires AllLawful(NOTHING, steps) && Admits(Exec(NOTHING, steps).records, g, actor, permitted, verified, now)
    ensures g.purpose in {Read, Review, Approval, Finalization, Purpose.Commit} ==>
              Went(NOTHING, steps, g.key, Pending, Scanning) && Went(NOTHING, steps, g.key, Scanning, Valid)
    ensures g.purpose == Purpose.Commit ==> Went(NOTHING, steps, g.key, Valid, Finalized)
    ensures g.purpose in {Producer, Scanner} ==> Exec(NOTHING, steps).records[g.key].state in {Pending, Scanning}
  {
    hide Exec, AllLawful, Went;
    EligibleIsPurposesIn(Exec(NOTHING, steps).records[g.key].state, g.purpose);
    NoStageIsSkipped(steps, g.key);
  }
}
