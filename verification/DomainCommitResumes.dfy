/**
 What a start comes to when it is left alone: from wherever an earlier one was cut
 short, its turns take the operation to where only the owner decides, or give up.
 */
module DomainCommitResumes {
  import opened Wrappers
  import opened DomainCommit
  import opened DomainCommitRuns
  import opened DomainCommitStarts

  /** So many turns of one process. */
  function After(c: Config, p: nat, now: Time, issued: Issuance, n: nat): Config { Exec(c, Turns(p, now, issued, n)) }

  lemma OneMoreTurn(c: Config, p: nat, now: Time, issued: Issuance, n: nat)
    requires n > 0
    ensures After(c, p, now, issued, n) == After(Apply(c, Advance(p, now, issued)), p, now, issued, n - 1)
  {
    OneTurn(c, p, now, issued, n);
  }

  /** The operation awaits its owner and its run says so; nothing else has changed. */
  ghost predicate Awaits(c: Config, d: Config, p: nat, o: Operation, now: Time) {
    && d.world.operations == c.world.operations[o.key := o.(status := Awaiting, updatedAt := now)]
    && o.binding.run in d.world.runs && d.world.runs[o.binding.run].state == AwaitingDomainConfirmation
    && (forall r | r != o.binding.run :: (r in d.world.runs <==> r in c.world.runs) && (r in c.world.runs ==> d.world.runs[r] == c.world.runs[r]))
    && p in d.processes && d.processes[p].Finished?
  }

  /** The operation as the records have it, apart from what marks have made of its status. */
  predicate Stored(c: Config, o: Operation, status: Status, now: Time) {
    && o.key in c.world.operations && c.world.operations[o.key] == o && o.status == status && now >= o.updatedAt
    && !o.consumed && o.binding.run in c.world.runs
  }

  lemma {:induction false} FinishedStays(c: Config, p: nat, now: Time, issued: Issuance, n: nat)
    requires p in c.processes && c.processes[p].Finished?
    ensures After(c, p, now, issued, n) == c
    decreases n
  {
    if n == 0 {
      NoTurn(c, p, now, issued);
    } else {
      OneMoreTurn(c, p, now, issued, n);
      FinishedStays(c, p, now, issued, n - 1);
    }
  }

  lemma GivenUpStays(c: Config, p: nat, now: Time, issued: Issuance, n: nat)
    requires p !in c.processes
    ensures After(c, p, now, issued, n) == c
  {
    StoppedStays(c, p, now, issued, n);
  }

  lemma MarkingAwaits(c: Config, p: nat, op: Operation, o: Operation, now: Time, issued: Issuance, n: nat)
    requires p in c.processes && c.processes[p] == MarkingAwaiting(op) && op.key == o.key && Stored(c, o, Issued, now) && n >= 1
    requires c.world.runs[o.binding.run].state == AwaitingDomainConfirmation
    ensures Awaits(c, After(c, p, now, issued, n), p, o, now)
  {
    var c1 := Apply(c, Advance(p, now, issued));
    assert Awaits(c, c1, p, o, now);
    hide After, Apply, Awaits;
    OneMoreTurn(c, p, now, issued, n);
    assert p in c1.processes && c1.processes[p].Finished? by { FinishedOf(c, c1, p, o, now); }
    FinishedStays(c1, p, now, issued, n - 1);
  }

  lemma FinishedOf(c: Config, d: Config, p: nat, o: Operation, now: Time)
    requires Awaits(c, d, p, o, now)
    ensures p in d.processes && d.processes[p].Finished?
  {}

  /** What happens to the run on the way does not matter to where it ends. */
  lemma AwaitsFrom(c: Config, c1: Config, d: Config, p: nat, o: Operation, o1: Operation, now: Time)
    requires Awaits(c1, d, p, o1, now) && o1.key == o.key && o1.binding == o.binding && o1.consumed == o.consumed
    requires c1.world.operations == c.world.operations || c1.world.operations == c.world.operations[o.key := o1]
    requires forall r | r != o.binding.run :: (r in c1.world.runs <==> r in c.world.runs) && (r in c.world.runs ==> c1.world.runs[r] == c.world.runs[r])
    ensures Awaits(c, d, p, o, now)
  {}

  lemma BeginningAwaits(c: Config, p: nat, op: Operation, o: Operation, seen: Run, now: Time, issued: Issuance, n: nat)
    requires p in c.processes && c.processes[p] == Beginning(op, seen) && op.key == o.key && op.binding == o.binding && Stored(c, o, Issued, now) && n >= 2
    requires c.world.runs[o.binding.run] == seen && seen.state == Committing
    ensures Awaits(c, After(c, p, now, issued, n), p, o, now)
  {
    var c1 := Apply(c, Advance(p, now, issued));
    assert c1.processes[p] == MarkingAwaiting(op) && c1.world.operations == c.world.operations;
    assert c1.world.runs == c.world.runs[o.binding.run := Run(AwaitingDomainConfirmation, seen.version + 1)];
    hide After, Apply, Awaits;
    OneMoreTurn(c, p, now, issued, n);
    MarkingAwaits(c1, p, op, o, now, issued, n - 1);
    AwaitsFrom(c, c1, After(c, p, now, issued, n), p, o, o, now);
  }

  /** A start that has its operation issued goes on exactly while the run has no outcome. */
  lemma ConfirmingAwaits(c: Config, p: nat, op: Operation, o: Operation, now: Time, issued: Issuance, n: nat)
    requires p in c.processes && c.processes[p] == Confirming(op) && op.key == o.key && op.binding == o.binding && Stored(c, o, Issued, now) && n >= 3
    ensures c.world.runs[o.binding.run].state in {Committing, AwaitingDomainConfirmation} ==> Awaits(c, After(c, p, now, issued, n), p, o, now)
    ensures c.world.runs[o.binding.run].state !in {Committing, AwaitingDomainConfirmation} ==> After(c, p, now, issued, n) == Stop(c, p)
  {
    var c1, run := Apply(c, Advance(p, now, issued)), c.world.runs[o.binding.run];
    assert c1.world == c.world;
    assert run.state == Committing ==> c1.processes[p] == Beginning(op, run);
    assert run.state == AwaitingDomainConfirmation ==> c1.processes[p] == MarkingAwaiting(op);
    assert run.state !in {Committing, AwaitingDomainConfirmation} ==> c1 == Stop(c, p);
    hide After, Apply, Awaits;
    OneMoreTurn(c, p, now, issued, n);
    if run.state == Committing {
      BeginningAwaits(c1, p, op, o, run, now, issued, n - 1);
      AwaitsFrom(c, c1, After(c, p, now, issued, n), p, o, o, now);
    } else if run.state == AwaitingDomainConfirmation {
      MarkingAwaits(c1, p, op, o, now, issued, n - 1);
      AwaitsFrom(c, c1, After(c, p, now, issued, n), p, o, o, now);
    } else {
      GivenUpStays(c1, p, now, issued, n - 1);
    }
  }

  lemma IssuingAwaits(c: Config, p: nat, op: Operation, o: Operation, now: Time, issued: Issuance, n: nat)
    requires p in c.processes && c.processes[p] == MarkingIssued(op) && op.key == o.key && op.binding == o.binding && Stored(c, o, Recorded, now) && n >= 4
    requires c.world.runs[o.binding.run].state == Committing
    ensures Awaits(c, After(c, p, now, issued, n), p, o, now)
  {
    var c1, o1 := Apply(c, Advance(p, now, issued)), o.(status := Issued, updatedAt := now);
    assert c1.processes[p] == Confirming(op) && c1.world == World(c.world.operations[o.key := o1], c.world.runs);
    hide After, Apply, Awaits;
    OneMoreTurn(c, p, now, issued, n);
    ConfirmingAwaits(c1, p, op, o1, now, issued, n - 1);
    AwaitsFrom(c, c1, After(c, p, now, issued, n), p, o, o1, now);
  }

  lemma ApprovingAwaits(c: Config, p: nat, input: Input, o: Operation, seen: Run, now: Time, issued: Issuance, n: nat)
    requires p in c.processes && c.processes[p] == Approving(input, o, seen) && Stored(c, o, Recorded, now) && n >= 5
    requires c.world.runs[o.binding.run] == seen && seen.state == AwaitingApproval
    ensures Awaits(c, After(c, p, now, issued, n), p, o, now)
  {
    var c1 := Apply(c, Advance(p, now, issued));
    assert c1.processes[p] == MarkingIssued(o) && c1.world.operations == c.world.operations;
    assert c1.world.runs == c.world.runs[o.binding.run := Run(Committing, seen.version + 1)];
    hide After, Apply, Awaits;
    OneMoreTurn(c, p, now, issued, n);
    IssuingAwaits(c1, p, o, o, now, issued, n - 1);
    AwaitsFrom(c, c1, After(c, p, now, issued, n), p, o, o, now);
  }

  /** Where an operation that was recorded or issued can still be carried on from. */
  predicate CarriesOn(o: Operation, run: Run, expectedVersion: nat) {
    match o.status
    case Recorded => run.state == Committing || (run.state == AwaitingApproval && run.version == expectedVersion)
    case Issued => run.state == Committing || run.state == AwaitingDomainConfirmation
    case _ => false
  }

  /**
   A start that resumes, left alone for six turns, finishes with the operation awaiting its owner exactly
   when it can be carried on; one that awaits already is finished as it is; and from anywhere else the
   start gives up and has changed nothing.
   */
  lemma ResumingFinishes(c: Config, p: nat, input: Input, o: Operation, now: Time, issued: Issuance)
    requires p in c.processes && c.processes[p] == Resuming(input, o) && Stored(c, o, o.status, now)
    ensures var d, run := After(c, p, now, issued, 6), c.world.runs[o.binding.run];
            && (CarriesOn(o, run, input.expectedVersion) ==> Awaits(c, d, p, o, now))
            && (o.status == Awaiting ==> d.world == c.world && p in d.processes && d.processes[p] == Finished(o))
            && (!CarriesOn(o, run, input.expectedVersion) && o.status != Awaiting ==> d.world == c.world && p !in d.processes)
  {
    var c1, run := Apply(c, Advance(p, now, issued)), c.world.runs[o.binding.run];
    OneMoreTurn(c, p, now, issued, 6);
    ResumingTurn(c, p, input, o, now, issued);
    hide After, Apply, Awaits;
    if o.status == Awaiting {
      FinishedStays(c1, p, now, issued, 5);
    } else if !CarriesOn(o, run, input.expectedVersion) {
      if o.status == Issued { ConfirmingAwaits(c1, p, o, o, now, issued, 5); } else { GivenUpStays(c1, p, now, issued, 5); }
    } else {
      if o.status == Issued { ConfirmingAwaits(c1, p, o, o, now, issued, 5); }
      else if run.state == Committing { IssuingAwaits(c1, p, o, o, now, issued, 5); }
      else { ApprovingAwaits(c1, p, input, o, run, now, issued, 5); }
      AwaitsFrom(c, c1, After(c, p, now, issued, 6), p, o, o, now);
    }
  }

  lemma ResumingTurn(c: Config, p: nat, input: Input, o: Operation, now: Time, issued: Issuance)
    requires p in c.processes && c.processes[p] == Resuming(input, o) && Stored(c, o, o.status, now)
    ensures var c1, run := Apply(c, Advance(p, now, issued)), c.world.runs[o.binding.run];
            && c1.world == c.world
            && (o.status == Awaiting ==> c1.processes == c.processes[p := Finished(o)])
            && (o.status == Issued ==> c1.processes == c.processes[p := Confirming(o)])
            && (o.status == Recorded && run.state == Committing ==> c1.processes == c.processes[p := MarkingIssued(o)])
            && (o.status == Recorded && run.state == AwaitingApproval && run.version == input.expectedVersion ==>
                  c1.processes == c.processes[p := Approving(input, o, run)])
            && (o.status !in {Awaiting, Issued} && !CarriesOn(o, run, input.expectedVersion) ==> p !in c1.processes)
  {}

  /** A first start, left alone, records, approves and begins what was issued for it. */
  lemma StartingTurns(c: Config, p: nat, input: Input, now: Time, issued: Issuance)
    requires p in c.processes && c.processes[p] == Starting(input) && input.run in c.world.runs
    requires !HasActive(c.world, input.run) && OperationKey(input.run.scope, issued.operation) !in c.world.operations
    ensures var run, op := c.world.runs[input.run], NewOperation(input, issued, now);
            var c1 := Apply(c, Advance(p, now, issued));
            && c1.world == c.world
            && (run == Run(AwaitingApproval, input.expectedVersion) && issued.baseRevision == input.expectedRevision ==>
                  var c2 := Apply(c1, Advance(p, now, issued));
                  c2.world == World(c.world.operations[op.key := op], c.world.runs) && c2.processes == c1.processes[p := Resuming(input, op)])
            && (!(run == Run(AwaitingApproval, input.expectedVersion) && issued.baseRevision == input.expectedRevision) ==> p !in c1.processes)
  {}

  /**
   A first start, left alone for eight turns, ends with a new operation awaiting its owner exactly when the
   run is at approval at the version it expects and the issuer saw the revision it expects; otherwise it
   gives up and has changed nothing.
   */
  lemma StartingFinishes(c: Config, p: nat, input: Input, now: Time, issued: Issuance)
    requires p in c.processes && c.processes[p] == Starting(input) && input.run in c.world.runs
    requires !HasActive(c.world, input.run) && OperationKey(input.run.scope, issued.operation) !in c.world.operations
    ensures var d, op := After(c, p, now, issued, 8), NewOperation(input, issued, now);
            if c.world.runs[input.run] == Run(AwaitingApproval, input.expectedVersion) && issued.baseRevision == input.expectedRevision
            then Awaits(c, d, p, op, now)
            else d.world == c.world && p !in d.processes
  {
    var op := NewOperation(input, issued, now);
    var c1 := Apply(c, Advance(p, now, issued));
    var c2 := Apply(c1, Advance(p, now, issued));
    StartingTurns(c, p, input, now, issued);
    OneMoreTurn(c, p, now, issued, 8);
    hide After, Apply, Awaits;
    if c.world.runs[input.run] == Run(AwaitingApproval, input.expectedVersion) && issued.baseRevision == input.expectedRevision {
      OneMoreTurn(c1, p, now, issued, 7);
      ResumingFinishes(c2, p, input, op, now, issued);
      AwaitsFrom(c, c2, After(c, p, now, issued, 8), p, op, op, now);
    } else {
      GivenUpStays(c1, p, now, issued, 7);
    }
  }
}
