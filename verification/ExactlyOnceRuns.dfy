/** Exactly-once effect over every interleaving of issuing and committing, with crashes, lost races and replays. */
module ExactlyOnceRuns {
  import opened Wrappers
  import opened ExactlyOnce

  // ---- Issuance --------------------------------------------------------------------------

  /** Minting: a fresh identity, signed into a fresh token. */
  lemma MintingKeepsInv(c: Config, p: nat, id: string, token: string, expiresAt: Time)
    requires IssuancesInv(c) && ProcessesInv(c) && p in c.processes && c.processes[p].Minting?
    requires id !in c.minted && token !in c.signed
    ensures var d := AdvanceProcess(c, p, id, token, expiresAt); IssuancesInv(d) && ProcessesInv(d) && Grows(c, d)
  {
    var d := AdvanceProcess(c, p, id, token, expiresAt);
    forall k | k in d.issuances ensures d.issuances[k].operation == k && Genuine(d, d.issuances[k]) { assert Genuine(c, c.issuances[k]); }
    forall q | q in d.processes ensures ProcessInv(d, d.processes[q]) {
      if q != p { assert ProcessInv(c, c.processes[q]); }
      if q == p { forall k | k in d.issuances ensures d.issuances[k].authorization != id { assert Genuine(c, c.issuances[k]); } }
    }
    forall q | q in c.processes && q != p && c.processes[q].Recording? ensures c.processes[q].mine.authorization != id {
      assert ProcessInv(c, c.processes[q]);
    }
  }

  /** One more genuine issuance, of an authorization nobody else has. */
  lemma InsertionKeepsIssuances(c: Config, d: Config, mine: Issuance)
    requires IssuancesInv(c) && Genuine(c, mine) && Unrecorded(c, mine)
    requires d.issuances == c.issuances[mine.operation := mine] && d.signed == c.signed && d.minted == c.minted
    ensures IssuancesInv(d)
  {
    forall k | k in d.issuances ensures d.issuances[k].operation == k && Genuine(d, d.issuances[k]) {
      if k != mine.operation { assert Genuine(c, c.issuances[k]); }
    }
  }

  lemma SameIssuances(c: Config, d: Config)
    requires IssuancesInv(c) && d.issuances == c.issuances && d.signed == c.signed && d.minted == c.minted
    ensures IssuancesInv(d)
  {
    forall k | k in d.issuances ensures d.issuances[k].operation == k && Genuine(d, d.issuances[k]) { assert Genuine(c, c.issuances[k]); }
  }

  lemma RecordingKeepsIssuances(c: Config, p: nat, id: string, token: string, expiresAt: Time)
    requires IssuancesInv(c) && ProcessesInv(c) && p in c.processes && c.processes[p].Recording?
    ensures var d := AdvanceProcess(c, p, id, token, expiresAt); IssuancesInv(d) && Grows(c, d)
  {
    var d := AdvanceProcess(c, p, id, token, expiresAt);
    assert ProcessInv(c, c.processes[p]);
    if d.issuances == c.issuances {
      SameIssuances(c, d);
    } else {
      InsertionKeepsIssuances(c, d, c.processes[p].mine);
    }
  }

  /** What a recording process writes, and where it goes. */
  lemma RecordingEffect(c: Config, p: nat, id: string, token: string, expiresAt: Time)
    requires ProcessesInv(c) && p in c.processes && c.processes[p].Recording?
    ensures var d, mine := AdvanceProcess(c, p, id, token, expiresAt), c.processes[p].mine;
            && (d.issuances == c.issuances || (mine.operation !in c.issuances && d.issuances == c.issuances[mine.operation := mine]))
            && d.signed == c.signed && d.minted == c.minted
            && (p in d.processes ==> !d.processes[p].Recording? && ProcessInv(d, d.processes[p]))
            && (forall q | q in d.processes && q != p :: q in c.processes && d.processes[q] == c.processes[q])
  {
    assert ProcessInv(c, c.processes[p]);
    if AdvanceProcess(c, p, id, token, expiresAt).issuances != c.issuances { RecordedIsMine(c, c.processes[p].mine); }
  }

  /** Another process is unaffected when an authorization that is not its own is recorded under a free operation. */
  lemma OthersUnaffected(c: Config, d: Config, mine: Issuance, process: Process)
    requires ProcessInv(c, process) && d.signed == c.signed && d.minted == c.minted
    requires d.issuances == c.issuances || (mine.operation !in c.issuances && d.issuances == c.issuances[mine.operation := mine])
    requires process.Recording? ==> process.mine.authorization != mine.authorization
    ensures ProcessInv(d, process)
  {}

  lemma RecordingKeepsProcesses(c: Config, p: nat, id: string, token: string, expiresAt: Time)
    requires IssuancesInv(c) && ProcessesInv(c) && p in c.processes && c.processes[p].Recording?
    ensures ProcessesInv(AdvanceProcess(c, p, id, token, expiresAt))
  {
    hide AdvanceProcess, ProcessInv, IssuancesInv;
    var d := AdvanceProcess(c, p, id, token, expiresAt);
    RecordingEffect(c, p, id, token, expiresAt);
    forall q | q in d.processes ensures ProcessInv(d, d.processes[q]) {
      if q != p { OthersUnaffected(c, d, c.processes[p].mine, c.processes[q]); }
    }
  }

  /** What nobody else has recorded is recorded by its own write, or not at all. */
  lemma RecordedIsMine(c: Config, mine: Issuance)
    requires Unrecorded(c, mine) && Record(c.issuances, mine).1.Ok?
    ensures Record(c.issuances, mine).0 == c.issuances[mine.operation := mine]
  {}

  lemma LookingKeepsInv(c: Config, p: nat, id: string, token: string, expiresAt: Time)
    requires IssuancesInv(c) && ProcessesInv(c) && p in c.processes && !c.processes[p].Recording? && !c.processes[p].Minting?
    ensures var d := AdvanceProcess(c, p, id, token, expiresAt); IssuancesInv(d) && ProcessesInv(d) && Grows(c, d)
  {
    hide IssuancesInv, ProcessesInv;
    var d := AdvanceProcess(c, p, id, token, expiresAt);
    IssuedUnderItsOperation(c);
    AnswersAreOnRecord(c, p);
    SameIssuances(c, d);
    OneProcessMoved(c, d, p);
  }

  lemma IssuedUnderItsOperation(c: Config)
    requires IssuancesInv(c)
    ensures forall k | k in c.issuances :: c.issuances[k].operation == k
  {}

  lemma AnswersAreOnRecord(c: Config, p: nat)
    requires ProcessesInv(c) && p in c.processes
    ensures ProcessInv(c, c.processes[p])
  {}

  /** One process moved, to where it records nothing; issuing is as it was. */
  lemma OneProcessMoved(c: Config, d: Config, p: nat)
    requires ProcessesInv(c) && d.issuances == c.issuances && d.signed == c.signed && d.minted == c.minted
    requires forall q | q in d.processes && q != p :: q in c.processes && d.processes[q] == c.processes[q]
    requires p in d.processes ==> !d.processes[p].Recording? && ProcessInv(d, d.processes[p])
    ensures ProcessesInv(d)
  {
    forall q | q in d.processes ensures ProcessInv(d, d.processes[q]) {
      if q != p { assert ProcessInv(c, c.processes[q]); }
    }
  }

  lemma SameEffects(c: Config, d: Config)
    requires EffectsInv(c) && d.book == c.book && d.effects == c.effects
    ensures EffectsInv(d)
  {}

  lemma AdvanceKeepsInv(c: Config, p: nat, id: string, token: string, expiresAt: Time)
    requires Inv(c) && p in c.processes && Lawful(c, Advance(p, id, token, expiresAt))
    ensures var d := AdvanceProcess(c, p, id, token, expiresAt); Inv(d) && Grows(c, d)
  {
    SameEffects(c, AdvanceProcess(c, p, id, token, expiresAt));
    match c.processes[p]
    case Minting(_) => MintingKeepsInv(c, p, id, token, expiresAt);
    case Recording(_) => RecordingKeepsIssuances(c, p, id, token, expiresAt); RecordingKeepsProcesses(c, p, id, token, expiresAt);
    case _ => LookingKeepsInv(c, p, id, token, expiresAt);
  }

  // ---- Redemption ------------------------------------------------------------------------

  lemma StillOnce(effects: seq<Redemption>, r: Redemption)
    requires OncePerOperation(effects) && forall i | 0 <= i < |effects| :: effects[i].operation != r.operation
    ensures OncePerOperation(effects + [r])
  {}

  lemma AllInEffects(b: Book, d: Book, effects: seq<Redemption>, r: Redemption)
    requires (forall k | k in b.byOperation :: b.byOperation[k] in effects) && d.byOperation == b.byOperation[r.operation := r]
    ensures forall k | k in d.byOperation :: d.byOperation[k] in effects + [r]
  {
    assert (effects + [r])[|effects|] == r;
    forall k | k in d.byOperation ensures d.byOperation[k] in effects + [r] {
      if k != r.operation { assert b.byOperation[k] in effects; }
    }
  }

  /** One more effect, of an operation that had none. */
  lemma EffectAdded(c: Config, d: Config, r: Redemption)
    requires EffectsInv(c) && r.operation !in c.book.byOperation
    requires d.book.byOperation == c.book.byOperation[r.operation := r] && d.effects == c.effects + [r] && Inverse(d.book)
    ensures EffectsInv(d)
  {
    forall i | 0 <= i < |d.effects| ensures OnBook(d.book, d.effects[i]) {
      if i < |c.effects| { assert OnBook(c.book, c.effects[i]); }
    }
    assert forall i | 0 <= i < |c.effects| :: OnBook(c.book, c.effects[i]);
    hide OncePerOperation, Inverse;
    StillOnce(c.effects, r);
    AllInEffects(c.book, d.book, c.effects, r);
  }

  lemma CommitKeepsEffects(c: Config, command: Command, verified: Option<Payload>, outcome: Outcome, now: Time)
    requires EffectsInv(c)
    ensures var d := Apply(c, Committing(command, verified, outcome, now)); EffectsInv(d) && BookGrows(c.book, d.book) && c.effects <= d.effects
  {
    var r := command.AsRedemption(outcome, now);
    var d := Apply(c, Committing(command, verified, outcome, now));
    RedeemKeepsInverse(c.book, r);
    if d.book == c.book {
      SameEffects(c, d);
    } else {
      assert r.operation !in c.book.byOperation && d.book.byOperation == c.book.byOperation[r.operation := r];
      hide EffectsInv;
      EffectAdded(c, d, r);
    }
  }

  lemma OthersKeepIssuances(c: Config, d: Config)
    requires IssuancesInv(c) && ProcessesInv(c) && d.issuances == c.issuances && d.signed == c.signed && d.minted == c.minted
    requires forall q | q in d.processes :: d.processes[q].Looking? || (q in c.processes && d.processes[q] == c.processes[q])
    ensures IssuancesInv(d) && ProcessesInv(d)
  {
    forall k | k in d.issuances ensures d.issuances[k].operation == k && Genuine(d, d.issuances[k]) { assert Genuine(c, c.issuances[k]); }
    forall q | q in d.processes ensures ProcessInv(d, d.processes[q]) {
      if !d.processes[q].Looking? { assert ProcessInv(c, c.processes[q]); }
    }
  }

  lemma StepKeepsInv(c: Config, s: Step)
    requires Inv(c) && Lawful(c, s)
    ensures Inv(Apply(c, s)) && Grows(c, Apply(c, s))
  {
    match s
    case BeginIssue(_, _) => OthersKeepIssuances(c, Apply(c, s));
    case Crash(_) => OthersKeepIssuances(c, Apply(c, s));
    case Advance(p, id, token, expiresAt) => if p in c.processes { AdvanceKeepsInv(c, p, id, token, expiresAt); }
    case Committing(command, verified, outcome, now) =>
      CommitKeepsEffects(c, command, verified, outcome, now);
      OthersKeepIssuances(c, Apply(c, s));
  }

  // ---- What every run keeps --------------------------------------------------------------

  /** Nothing recorded ever changes: issuances, redemptions and effects are only added. */
  lemma {:induction false} EveryRunKeepsInv(c: Config, steps: seq<Step>)
    requires Inv(c) && AllLawful(c, steps)
    ensures Inv(Exec(c, steps)) && Grows(c, Exec(c, steps))
    decreases |steps|
  {
    if steps != [] {
      StepKeepsInv(c, steps[0]);
      EveryRunKeepsInv(Apply(c, steps[0]), steps[1..]);
    }
  }

  /**
   One durable operation has one authorization: whoever asked, whenever, whether it won the race, lost
   it or replayed, every answer for an operation is the one persisted record.
   */
  lemma EveryCallerGetsTheOriginal(c: Config, steps: seq<Step>, p: nat, q: nat)
    requires Inv(c) && AllLawful(c, steps) && p in c.processes && c.processes[p].Answered?
    requires q in Exec(c, steps).processes && Exec(c, steps).processes[q].Answered?
    requires Exec(c, steps).processes[q].issuance.operation == c.processes[p].issuance.operation
    ensures Exec(c, steps).processes[q].issuance == c.processes[p].issuance
    ensures var k := c.processes[p].issuance.operation; k in Exec(c, steps).issuances && Exec(c, steps).issuances[k] == c.processes[p].issuance
  {
    var d := Exec(c, steps);
    EveryRunKeepsInv(c, steps);
    assert ProcessInv(c, c.processes[p]) && ProcessInv(d, d.processes[q]);
  }

  /** No two effects share an operation, and no two share an authorization. */
  lemma EffectsAreDistinct(c: Config, i: nat, j: nat)
    requires Inv(c) && i < |c.effects| && j < |c.effects|
    requires c.effects[i].operation == c.effects[j].operation || c.effects[i].Authority() == c.effects[j].Authority()
    ensures i == j
  {
    assert OnBook(c.book, c.effects[i]) && OnBook(c.book, c.effects[j]);
    if c.effects[i].operation != c.effects[j].operation {
      OneOperationPerAuthorization(c.book, c.effects[i].operation, c.effects[j].operation);
    }
  }

  /** A recorded outcome never changes, and every later commit of that effect is answered with it. */
  lemma OutcomeIsFinal(c: Config, steps: seq<Step>, command: Command, verified: Option<Payload>, outcome: Outcome, now: Time)
    requires Inv(c) && AllLawful(c, steps) && command.operation in c.book.byOperation
    requires command.Complete() && now != 0 && verified == Some(command.Asserted())
    requires SameEffect(c.book.byOperation[command.operation], command.AsRedemption(outcome, now))
    ensures Commit(Exec(c, steps).book, command, verified, outcome, now) == (Exec(c, steps).book, Ok(c.book.byOperation[command.operation].outcome))
  {
    EveryRunKeepsInv(c, steps);
  }

  // ---- When everybody commits what was issued to them ------------------------------------

  /** Every redemption on the book is of the authorization issued for its operation. */
  ghost predicate AsIssued(c: Config) {
    forall k | k in c.book.byOperation ::
      k in c.issuances && c.book.byOperation[k].authorization == c.issuances[k].authorization
      && c.book.byOperation[k].token == c.issuances[k].token && c.book.byOperation[k].run == c.issuances[k].run
      && c.issuances[k].token in c.signed && c.signed[c.issuances[k].token].artifact == c.book.byOperation[k].artifact
  }

  lemma StepKeepsAsIssued(c: Config, s: Step)
    requires Inv(c) && AsIssued(c) && Lawful(c, s) && Faithful(c, s)
    ensures AsIssued(Apply(c, s))
  {
    hide Inv, Lawful, Faithful, Commit, AdvanceProcess;
    StepKeepsInv(c, s);
    if s.Committing? { CommitKeepsAsIssued(c, s.command, s.verified, s.outcome, s.now); }
    else { BookStays(c, s); }
  }

  lemma BookStays(c: Config, s: Step)
    requires !s.Committing?
    ensures Apply(c, s).book == c.book
  {
    hide Record;
  }

  lemma CommitKeepsAsIssued(c: Config, command: Command, verified: Option<Payload>, outcome: Outcome, now: Time)
    requires Inv(c) && AsIssued(c)
    requires var s := Committing(command, verified, outcome, now); Lawful(c, s) && Faithful(c, s)
    ensures AsIssued(Apply(c, Committing(command, verified, outcome, now)))
  {
    hide EffectsInv, ProcessesInv;
    assert Genuine(c, c.issuances[command.operation]);
  }

  lemma {:induction false} EveryRunKeepsAsIssued(c: Config, steps: seq<Step>)
    requires Inv(c) && AsIssued(c) && AllLawful(c, steps) && AllFaithful(c, steps)
    ensures AsIssued(Exec(c, steps))
    decreases |steps|
  {
    if steps != [] {
      StepKeepsInv(c, steps[0]);
      StepKeepsAsIssued(c, steps[0]);
      EveryRunKeepsAsIssued(Apply(c, steps[0]), steps[1..]);
    }
  }

  /**
   Exactly once: presenting the authorization issued for an operation always commits it — the first
   time with the owner's decision, every later time with that same decision, never a second effect.
   */
  lemma IssuedAlwaysRedeems(c: Config, command: Command, outcome: Outcome, now: Time)
    requires Inv(c) && AsIssued(c) && command.Complete() && now != 0
    requires command.operation in c.issuances && Presents(c.issuances[command.operation], command)
    requires command.token in c.signed && c.signed[command.token] == command.Asserted()
    ensures var (after, answer) := Commit(c.book, command, Some(command.Asserted()), outcome, now);
            && command.operation in after.byOperation && answer == Ok(after.byOperation[command.operation].outcome)
            && (command.operation in c.book.byOperation ==> after == c.book)
            && (command.operation !in c.book.byOperation ==> answer == Ok(outcome))
  {
    AuthorityIsItsOwn(c, command);
  }

  /** What was issued for an operation has been redeemed by that operation, or by nobody. */
  lemma AuthorityIsItsOwn(c: Config, command: Command)
    requires Inv(c) && AsIssued(c) && command.operation in c.issuances && Presents(c.issuances[command.operation], command)
    ensures Key(command.operation.scope, command.authorization) in c.book.byAuthorization ==> command.operation in c.book.byOperation
  {
    var a := Key(command.operation.scope, command.authorization);
    if a in c.book.byAuthorization {
      var k := Key(a.scope, c.book.byAuthorization[a]);
      assert Traced(c.book, a);
      assert c.issuances[k].authorization == c.issuances[command.operation].authorization;
    }
  }

  // ---- Where every effect came from ------------------------------------------------------

  /** The redemption's token was signed, for this very authorization, scope, run and artifact. */
  predicate Signed(c: Config, r: Redemption) {
    && r.token in c.signed && r.authorization in c.minted
    && var payload := c.signed[r.token];
       payload.authorization == r.authorization && payload.scope == r.operation.scope && payload.run == r.run && payload.artifact == r.artifact
  }

  ghost predicate AllSigned(c: Config) { forall i | 0 <= i < |c.effects| :: Signed(c, c.effects[i]) }

  lemma SignedStays(c: Config, d: Config, r: Redemption)
    requires Signed(c, r) && Grows(c, d) && c.minted <= d.minted
    ensures Signed(d, r)
  {}

  lemma CommittedWasSigned(c: Config, command: Command, verified: Option<Payload>, outcome: Outcome, now: Time)
    requires IssuancesInv(c) && Lawful(c, Committing(command, verified, outcome, now))
    ensures var d := Apply(c, Committing(command, verified, outcome, now));
            d.effects != c.effects ==> d.effects == c.effects + [command.AsRedemption(outcome, now)] && Signed(c, command.AsRedemption(outcome, now))
  {}

  lemma StepKeepsSigned(c: Config, s: Step)
    requires Inv(c) && AllSigned(c) && Lawful(c, s)
    ensures AllSigned(Apply(c, s))
  {
    var d := Apply(c, s);
    assert Grows(c, d) by { StepKeepsInv(c, s); }
    assert c.minted <= d.minted;
    if s.Committing? { CommittedWasSigned(c, s.command, s.verified, s.outcome, s.now); }
    hide Inv, Grows, Signed, Apply;
    forall i | 0 <= i < |d.effects| ensures Signed(d, d.effects[i]) { SignedStays(c, d, d.effects[i]); }
  }

  lemma {:induction false} EveryRunKeepsSigned(c: Config, steps: seq<Step>)
    requires Inv(c) && AllSigned(c) && AllLawful(c, steps)
    ensures Inv(Exec(c, steps)) && AllSigned(Exec(c, steps))
    decreases |steps|
  {
    hide Inv, Grows, Apply, AllSigned, Lawful;
    if steps != [] {
      StepKeepsInv(c, steps[0]);
      StepKeepsSigned(c, steps[0]);
      EveryRunKeepsSigned(Apply(c, steps[0]), steps[1..]);
    }
  }

  const NOTHING := Config(map[], Book(map[], map[]), map[], {}, [], map[])

  /**
   Drift is never recorded: in any run from the empty records, every redemption that stands on the
   book is of a token that was really signed, and signed for exactly the authorization, scope, run and
   artifact the redemption names; whatever a commit asserted beyond that left no trace.
   */
  lemma EveryRedemptionWasSigned(steps: seq<Step>, k: Key)
    requires AllLawful(NOTHING, steps) && k in Exec(NOTHING, steps).book.byOperation
    ensures var d := Exec(NOTHING, steps);
            var r := d.book.byOperation[k];
            && r.operation == k && r.authorization in d.minted && r.token in d.signed
            && d.signed[r.token].scope == k.scope && d.signed[r.token].authorization == r.authorization
            && d.signed[r.token].run == r.run && d.signed[r.token].artifact == r.artifact
  {
    var d := Exec(NOTHING, steps);
    assert Inv(NOTHING) && AllSigned(NOTHING);
    hide Exec, AllLawful, IssuancesInv, ProcessesInv;
    EveryRunKeepsSigned(NOTHING, steps);
    var r := d.book.byOperation[k];
    assert r in d.effects && Backed(d.book, k);
    var i :| 0 <= i < |d.effects| && d.effects[i] == r;
    assert Signed(d, d.effects[i]);
  }
}
