/**
 What a caller may conclude from an answer: one that is not a rejection stands on
 the book for ever, under a token that was signed for just what the command says,
 and signed because somebody asked for it.
 */
module ExactlyOnceAnswers {
  import opened Wrappers
  import opened ExactlyOnce
  import opened ExactlyOnceRuns

  // ---- One commit ------------------------------------------------------------------------

  /** The token binds what the command asserts, on every axis. */
  predicate Binds(p: Payload, command: Command) {
    && p.scope == command.operation.scope && p.authorization == command.authorization && p.run == command.run
    && p.artifact == command.artifact && p.material == command.material
  }

  /** The command's effect is on the book, with this outcome, and its authorization leads back to it. */
  predicate Stands(b: Book, command: Command, outcome: Outcome) {
    && command.operation in b.byOperation
    && var r := b.byOperation[command.operation];
    && r.authorization == command.authorization && r.token == command.token && r.run == command.run && r.artifact == command.artifact
    && r.outcome == outcome
    && var a := Key(command.operation.scope, command.authorization);
       a in b.byAuthorization && b.byAuthorization[a] == command.operation.id
  }

  /** Nothing on the book has this operation or this authorization. */
  predicate Free(b: Book, command: Command) {
    command.operation !in b.byOperation && Key(command.operation.scope, command.authorization) !in b.byAuthorization
  }

  /**
   What each answer means. A command is refused exactly when it is incomplete or has no time. Whatever
   does not verify, or binds something else, or repeats an operation or an authorization with another
   effect, is rejected and leaves no trace; the first of its kind gets the owner's decision, and a
   repetition the one on the book.
   */
  lemma AnswersMean(b: Book, command: Command, verified: Option<Payload>, outcome: Outcome, now: Time)
    requires Inverse(b)
    ensures var (after, answer) := Commit(b, command, verified, outcome, now);
            var complete := command.operation.id != "" && command.operation.scope.workspace != "" && command.operation.scope.project != ""
                            && command.run != "" && command.authorization != "" && command.token != "" && now != 0;
            var genuine := complete && verified.Some? && Binds(verified.value, command);
            && (answer == Err(Invalid) <==> !complete) && (answer.Err? ==> answer.error == Invalid && after == b)
            && (answer.Ok? && answer.value != Rejected ==> genuine && Stands(after, command, answer.value))
            && (genuine && Free(b, command) ==> answer == Ok(outcome) && Stands(after, command, outcome))
            && (forall x | genuine && Stands(b, command, x) :: answer == Ok(x) && after == b)
            && (answer.Ok? && !(genuine && (Free(b, command) || exists x :: Stands(b, command, x))) ==> answer.value == Rejected && after == b)
  {
    if command.operation in b.byOperation { assert Backed(b, command.operation); }
    var after := Commit(b, command, verified, outcome, now).0;
    var r := command.AsRedemption(outcome, now);
    RedeemKeepsInverse(b, r);
    if SameOnBook(b, command) { assert Stands(b, command, b.byOperation[command.operation].outcome); }
  }

  predicate SameOnBook(b: Book, command: Command) {
    && command.operation in b.byOperation
    && var r := b.byOperation[command.operation];
       r.authorization == command.authorization && r.token == command.token && r.run == command.run && r.artifact == command.artifact
  }

  // ---- Every answer of a run -------------------------------------------------------------

  datatype Answer = Answer(command: Command, outcome: Outcome)

  /** The answer a step gives, if it is not a rejection. */
  function Given(c: Config, s: Step): seq<Answer> {
    if !s.Committing? then []
    else
      var answer := Commit(c.book, s.command, s.verified, s.outcome, s.now).1;
      if answer.Ok? && answer.value != Rejected then [Answer(s.command, answer.value)] else []
  }

  function Answers(c: Config, steps: seq<Step>): seq<Answer>
    decreases |steps|
  {
    if steps == [] then [] else Given(c, steps[0]) + Answers(Apply(c, steps[0]), steps[1..])
  }

  /** The answer holds: its effect is on the book, and its token was signed for just what the command says. */
  predicate Holds(c: Config, a: Answer) {
    Stands(c.book, a.command, a.outcome) && a.command.token in c.signed && Binds(c.signed[a.command.token], a.command)
  }

  lemma GivenHolds(c: Config, s: Step)
    requires Inv(c) && Lawful(c, s)
    ensures forall i | 0 <= i < |Given(c, s)| :: Holds(Apply(c, s), Given(c, s)[i])
  {
    if s.Committing? { AnswersMean(c.book, s.command, s.verified, s.outcome, s.now); }
    hide Inverse, IssuancesInv, ProcessesInv, Commit, Stands, Binds;
  }

  lemma HoldsStays(c: Config, d: Config, a: Answer)
    requires Holds(c, a) && Grows(c, d)
    ensures Holds(d, a)
  {}

  /** Every answer other than a rejection, ever given in a run, holds at its end. */
  lemma {:induction false} EveryAnswerHolds(c: Config, steps: seq<Step>)
    requires Inv(c) && AllLawful(c, steps)
    ensures forall i | 0 <= i < |Answers(c, steps)| :: Holds(Exec(c, steps), Answers(c, steps)[i])
    decreases |steps|
  {
    hide Inv, Apply, Lawful, Holds, Given, Grows;
    if steps != [] {
      var c1 := Apply(c, steps[0]);
      var d := Exec(c, steps);
      StepKeepsInv(c, steps[0]);
      EveryRunKeepsInv(c1, steps[1..]);
      GivenHolds(c, steps[0]);
      EveryAnswerHolds(c1, steps[1..]);
      forall i | 0 <= i < |Answers(c, steps)| ensures Holds(d, Answers(c, steps)[i]) {
        if i < |Given(c, steps[0])| { HoldsStays(c1, d, Given(c, steps[0])[i]); }
        else { assert Answers(c, steps)[i] == Answers(c1, steps[1..])[i - |Given(c, steps[0])|]; }
      }
    }
  }

  /** So two answers about one operation are the same answer, about the same authorization, run and artifact. */
  lemma AnswersAgree(c: Config, steps: seq<Step>, i: nat, j: nat)
    requires Inv(c) && AllLawful(c, steps) && i < |Answers(c, steps)| && j < |Answers(c, steps)|
    requires Answers(c, steps)[i].command.operation == Answers(c, steps)[j].command.operation
    ensures var a, b := Answers(c, steps)[i], Answers(c, steps)[j];
            && a.outcome == b.outcome && a.command.authorization == b.command.authorization && a.command.token == b.command.token
            && a.command.run == b.command.run && a.command.artifact == b.command.artifact && a.command.material == b.command.material
  {
    hide Inv, Answers, Exec;
    EveryAnswerHolds(c, steps);
    assert Holds(Exec(c, steps), Answers(c, steps)[i]) && Holds(Exec(c, steps), Answers(c, steps)[j]);
  }

  // ---- Where tokens come from ------------------------------------------------------------

  ghost predicate Requested(done: seq<Step>, request: Request) { exists p :: BeginIssue(p, request) in done }

  /** The token was minted for a request, and signs all that was asked and the identity that was drawn. */
  predicate SignedFor(token: string, payload: Payload, request: Request, id: string) {
    && payload.authorization == id && payload.scope == request.operation.scope && payload.run == request.run
    && payload.artifact == request.artifact && payload.material == request.material
  }

  ghost predicate TokenTold(done: seq<Step>, token: string, payload: Payload) {
    exists p, id, expiresAt, request :: Advance(p, id, token, expiresAt) in done && Requested(done, request) && SignedFor(token, payload, request, id)
  }

  /** The authorization issued for an operation was drawn and signed for a request of just that operation. */
  ghost predicate IssuanceTold(done: seq<Step>, i: Issuance) {
    exists p, request :: Advance(p, i.authorization, i.token, i.expiresAt) in done && Requested(done, request)
                         && request.operation == i.operation && request.run == i.run
  }

  ghost predicate ProcessTold(done: seq<Step>, process: Process) {
    match process
    case Looking(request) => Requested(done, request)
    case Minting(request) => Requested(done, request)
    case Recording(mine) => IssuanceTold(done, mine)
    case _ => true
  }

  ghost predicate Told(c: Config, done: seq<Step>) {
    && (forall t | t in c.signed :: TokenTold(done, t, c.signed[t]))
    && (forall k | k in c.issuances :: IssuanceTold(done, c.issuances[k]))
    && (forall p | p in c.processes :: ProcessTold(done, c.processes[p]))
  }

  lemma InMore(done: seq<Step>, s: Step)
    ensures forall x :: x in done + [s] <==> x in done || x == s
  {}

  lemma RequestedStays(done: seq<Step>, s: Step, request: Request)
    requires Requested(done, request)
    ensures Requested(done + [s], request)
  {
    InMore(done, s);
  }

  lemma TokenStays(done: seq<Step>, s: Step, token: string, payload: Payload)
    requires TokenTold(done, token, payload)
    ensures TokenTold(done + [s], token, payload)
  {
    InMore(done, s);
    var p, id, e, request :| Advance(p, id, token, e) in done && Requested(done, request) && SignedFor(token, payload, request, id);
    RequestedStays(done, s, request);
    assert Advance(p, id, token, e) in done + [s];
  }

  lemma IssuanceStays(done: seq<Step>, s: Step, i: Issuance)
    requires IssuanceTold(done, i)
    ensures IssuanceTold(done + [s], i)
  {
    InMore(done, s);
    var p, request :| Advance(p, i.authorization, i.token, i.expiresAt) in done && Requested(done, request) && request.operation == i.operation && request.run == i.run;
    RequestedStays(done, s, request);
    assert Advance(p, i.authorization, i.token, i.expiresAt) in done + [s];
  }

  lemma ProcessStays(done: seq<Step>, s: Step, process: Process)
    requires ProcessTold(done, process)
    ensures ProcessTold(done + [s], process)
  {
    hide Requested, IssuanceTold;
    match process
    case Looking(request) => RequestedStays(done, s, request);
    case Minting(request) => RequestedStays(done, s, request);
    case Recording(mine) => IssuanceStays(done, s, mine);
    case _ =>
  }

  /** Whatever a step leaves as it was is told as before, and what it adds is told on its own. */
  lemma ByParts(c: Config, d: Config, done: seq<Step>, s: Step)
    requires Told(c, done)
    requires forall t | t in d.signed :: (t in c.signed && d.signed[t] == c.signed[t]) || TokenTold(done + [s], t, d.signed[t])
    requires forall k | k in d.issuances :: (k in c.issuances && d.issuances[k] == c.issuances[k]) || IssuanceTold(done + [s], d.issuances[k])
    requires forall p | p in d.processes :: (p in c.processes && d.processes[p] == c.processes[p]) || ProcessTold(done + [s], d.processes[p])
    ensures Told(d, done + [s])
  {
    hide TokenTold, IssuanceTold, ProcessTold;
    forall t | t in d.signed ensures TokenTold(done + [s], t, d.signed[t]) { if t in c.signed && d.signed[t] == c.signed[t] { TokenStays(done, s, t, c.signed[t]); } }
    forall k | k in d.issuances ensures IssuanceTold(done + [s], d.issuances[k]) {
      if k in c.issuances && d.issuances[k] == c.issuances[k] { IssuanceStays(done, s, c.issuances[k]); }
    }
    forall p | p in d.processes ensures ProcessTold(done + [s], d.processes[p]) {
      if p in c.processes && d.processes[p] == c.processes[p] { ProcessStays(done, s, c.processes[p]); }
    }
  }

  lemma MintingIsTold(done: seq<Step>, p: nat, request: Request, id: string, token: string, expiresAt: Time)
    requires Requested(done, request) && Advance(p, id, token, expiresAt) in done
    ensures TokenTold(done, token, Payload(request.operation.scope, id, request.run, request.artifact, request.material))
    ensures IssuanceTold(done, Issuance(request.operation, request.run, id, token, expiresAt))
  {
    var payload := Payload(request.operation.scope, id, request.run, request.artifact, request.material);
    hide Requested;
    assert SignedFor(token, payload, request, id);
    var i := Issuance(request.operation, request.run, id, token, expiresAt);
    assert Advance(p, i.authorization, i.token, i.expiresAt) in done;
  }

  lemma ProcessIsTold(c: Config, done: seq<Step>, p: nat)
    requires Told(c, done) && p in c.processes
    ensures ProcessTold(done, c.processes[p])
  {}

  lemma OnlyMineIsRecorded(m: Issuances, mine: Issuance)
    ensures forall k | k in Record(m, mine).0 :: (k in m && Record(m, mine).0[k] == m[k]) || Record(m, mine).0[k] == mine
  {}

  lemma AdvanceIsTold(c: Config, done: seq<Step>, p: nat, id: string, token: string, expiresAt: Time)
    requires Told(c, done) && p in c.processes
    ensures Told(AdvanceProcess(c, p, id, token, expiresAt), done + [Advance(p, id, token, expiresAt)])
  {
    hide Told, TokenTold, IssuanceTold, Requested, Record;
    var s, d := Advance(p, id, token, expiresAt), AdvanceProcess(c, p, id, token, expiresAt);
    ProcessIsTold(c, done, p);
    assert s in done + [s];
    match c.processes[p]
    case Looking(request) => RequestedStays(done, s, request); ByParts(c, d, done, s);
    case Minting(request) =>
      RequestedStays(done, s, request);
      MintingIsTold(done + [s], p, request, id, token, expiresAt);
      ByParts(c, d, done, s);
    case Recording(mine) =>
      IssuanceStays(done, s, mine);
      OnlyMineIsRecorded(c.issuances, mine);
      ByParts(c, d, done, s);
    case _ => ByParts(c, d, done, s);
  }

  lemma StepIsTold(c: Config, done: seq<Step>, s: Step)
    requires Told(c, done)
    ensures Told(Apply(c, s), done + [s])
  {
    hide Told, AdvanceProcess, Commit, TokenTold, IssuanceTold;
    assert s in done + [s];
    if s.Advance? && s.p in c.processes { AdvanceIsTold(c, done, s.p, s.id, s.token, s.expiresAt); } else { ByParts(c, Apply(c, s), done, s); }
  }

  lemma {:induction false} RunIsTold(c: Config, done: seq<Step>, steps: seq<Step>)
    requires Told(c, done)
    ensures Told(Exec(c, steps), done + steps)
    decreases |steps|
  {
    hide Told, Apply;
    if steps == [] {
      assert done + steps == done;
    } else {
      StepIsTold(c, done, steps[0]);
      RunIsTold(Apply(c, steps[0]), done + [steps[0]], steps[1..]);
      assert done + [steps[0]] + steps[1..] == done + steps;
    }
  }

  /**
   From the empty records on, nobody is told that an effect stands unless somebody asked for it: the
   run, the artifact and all other material of every answer but a rejection are those of one request,
   and the authorization is the identity drawn when it was signed.
   */
  lemma EveryAnswerWasAskedFor(steps: seq<Step>, i: nat)
    requires AllLawful(NOTHING, steps) && i < |Answers(NOTHING, steps)|
    ensures var command := Answers(NOTHING, steps)[i].command;
            exists p, expiresAt, request :: Advance(p, command.authorization, command.token, expiresAt) in steps && Requested(steps, request)
                && request.operation.scope == command.operation.scope && request.run == command.run
                && request.artifact == command.artifact && request.material == command.material
  {
    var d, a := Exec(NOTHING, steps), Answers(NOTHING, steps)[i];
    assert Inv(NOTHING) && Told(NOTHING, []);
    hide Exec, Answers, Inv, Requested;
    EveryAnswerHolds(NOTHING, steps);
    assert Holds(d, a);
    RunIsTold(NOTHING, [], steps);
    assert [] + steps == steps;
    assert TokenTold(steps, a.command.token, d.signed[a.command.token]);
  }

  /** And every authorization on record was drawn for a request of the operation it is recorded under. */
  lemma EveryIssuanceWasAskedFor(steps: seq<Step>, k: Key)
    requires AllLawful(NOTHING, steps) && k in Exec(NOTHING, steps).issuances
    ensures var i := Exec(NOTHING, steps).issuances[k];
            exists p, request :: Advance(p, i.authorization, i.token, i.expiresAt) in steps && Requested(steps, request)
                                 && request.operation == i.operation == k && request.run == i.run
  {
    var d := Exec(NOTHING, steps);
    assert Inv(NOTHING) && Told(NOTHING, []);
    hide Exec, Requested, ProcessesInv, EffectsInv;
    EveryRunKeepsInv(NOTHING, steps);
    RunIsTold(NOTHING, [], steps);
    assert [] + steps == steps;
    assert IssuanceTold(steps, d.issuances[k]);
  }

  // ---- What issuing comes to when it is left alone ---------------------------------------

  /** The next turn of a process, whatever it would draw. */
  function Turn(c: Config, p: nat, id: string, token: string, expiresAt: Time): Config { Apply(c, Advance(p, id, token, expiresAt)) }

  /** A caller that lost the race to record goes on to the authorization that won, and changes nothing. */
  lemma LostRaceIsAnswered(c: Config, p: nat, mine: Issuance, id: string, token: string, expiresAt: Time)
    requires p in c.processes && c.processes[p] == Recording(mine) && mine.operation.id != "" && mine.token != ""
    requires mine.operation in c.issuances && c.issuances[mine.operation].authorization != mine.authorization
    ensures var d := Turn(Turn(c, p, id, token, expiresAt), p, id, token, expiresAt);
            d == c.(processes := c.processes[p := Answered(c.issuances[mine.operation])])
  {
    var d := Turn(c, p, id, token, expiresAt);
    assert d.processes[p] == Rereading(mine.operation) && d.issuances == c.issuances;
    assert d.processes[p := Answered(c.issuances[mine.operation])] == c.processes[p := Answered(c.issuances[mine.operation])];
  }

  /** A caller left alone for three turns is answered: with what is on record, or with what it drew, which is on record then. */
  lemma IssuingIsAnswered(c: Config, p: nat, request: Request, id: string, token: string, expiresAt: Time)
    requires p in c.processes && c.processes[p] == Looking(request) && request.operation.id != "" && token != ""
    ensures var k, d := request.operation, Turn(Turn(Turn(c, p, id, token, expiresAt), p, id, token, expiresAt), p, id, token, expiresAt);
            && k in d.issuances && p in d.processes && d.processes[p] == Answered(d.issuances[k])
            && d.issuances == (if k in c.issuances then c.issuances else c.issuances[k := Issuance(k, request.run, id, token, expiresAt)])
            && d.book == c.book && (forall q | q != p :: q in d.processes <==> q in c.processes)
  {
    var c1 := Turn(c, p, id, token, expiresAt);
    if request.operation in c.issuances { assert c1.processes[p] == Answered(c.issuances[request.operation]); }
    else { assert c1.processes[p] == Minting(request); }
  }
}
