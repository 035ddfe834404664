/**
 Issuing one authorization for one durable operation, and redeeming it once.
 Signatures are not interpreted: what matters is that a token carries one
 payload, and that nothing verifies which was not signed.
 */
module ExactlyOnce {
  import opened Wrappers

  type Time = int

  datatype Scope = Scope(workspace: string, project: string)
  datatype Key = Key(scope: Scope, id: string)

  datatype Outcome = Confirmed | Conflicting | Rejected

  datatype Problem = Invalid | IdempotencyConflict

  // ---- Issuance --------------------------------------------------------------------------

  /** Which authorization one durable operation issued: its identity and the complete signed token. */
  datatype Issuance = Issuance(operation: Key, run: string, authorization: string, token: string, expiresAt: Time)

  type Issuances = map<Key, Issuance>

  /** Insert-once by operation. */
  function Record(m: Issuances, i: Issuance): (Issuances, Result<(), Problem>) {
    if i.operation.id == "" || i.token == "" then (m, Err(Invalid))
    else if i.operation in m then (m, if m[i.operation].authorization != i.authorization then Err(IdempotencyConflict) else Ok(()))
    else (m[i.operation := i], Ok(()))
  }

  // ---- Redemption ------------------------------------------------------------------------

  datatype Redemption = Redemption(
    operation: Key, authorization: string, token: string, run: string, artifact: string, outcome: Outcome, at: Time)
  {
    function Authority(): Key { Key(operation.scope, authorization) }
  }

  datatype Book = Book(byOperation: map<Key, Redemption>, byAuthorization: map<Key, string>)

  predicate SameEffect(a: Redemption, b: Redemption) {
    a.authorization == b.authorization && a.token == b.token && a.run == b.run && a.artifact == b.artifact
  }

  datatype Redeemed = Redeemed(outcome: Outcome, replayed: bool)

  function Redeem(b: Book, r: Redemption): (Book, Result<Redeemed, Problem>) {
    if r.operation in b.byOperation then
      var prior := b.byOperation[r.operation];
      (b, if SameEffect(prior, r) then Ok(Redeemed(prior.outcome, true)) else Err(IdempotencyConflict))
    else if r.Authority() in b.byAuthorization then (b, Err(IdempotencyConflict))
    else (Book(b.byOperation[r.operation := r], b.byAuthorization[r.Authority() := r.operation.id]), Ok(Redeemed(r.outcome, false)))
  }

  /** The redemption of an operation is found again from its authorization. */
  predicate Backed(b: Book, k: Key) {
    && k in b.byOperation && b.byOperation[k].operation == k
    && b.byOperation[k].Authority() in b.byAuthorization && b.byAuthorization[b.byOperation[k].Authority()] == k.id
  }

  /** An authorization names the operation that redeemed it. */
  predicate Traced(b: Book, a: Key) {
    && a in b.byAuthorization && Key(a.scope, b.byAuthorization[a]) in b.byOperation
    && b.byOperation[Key(a.scope, b.byAuthorization[a])].authorization == a.id
  }

  /** The two maps are inverses of each other. */
  ghost predicate Inverse(b: Book) { (forall k | k in b.byOperation :: Backed(b, k)) && (forall a | a in b.byAuthorization :: Traced(b, a)) }

  ghost predicate BookGrows(a: Book, b: Book) {
    && (forall k | k in a.byOperation :: k in b.byOperation && b.byOperation[k] == a.byOperation[k])
    && (forall k | k in a.byAuthorization :: k in b.byAuthorization && b.byAuthorization[k] == a.byAuthorization[k])
  }

  lemma RedeemKeepsInverse(b: Book, r: Redemption)
    requires Inverse(b)
    ensures Inverse(Redeem(b, r).0) && BookGrows(b, Redeem(b, r).0)
  {
    var d := Redeem(b, r).0;
    if d != b {
      forall k | k in d.byOperation ensures Backed(d, k) {
        if k != r.operation { assert Backed(b, k); }
      }
      forall a | a in d.byAuthorization ensures Traced(d, a) {
        if a != r.Authority() { assert Traced(b, a); }
      }
    }
  }

  /** With the maps inverse to each other, no authorization ever backs two operations. */
  lemma OneOperationPerAuthorization(b: Book, j: Key, k: Key)
    requires Inverse(b) && j in b.byOperation && k in b.byOperation
    requires b.byOperation[j].Authority() == b.byOperation[k].Authority()
    ensures j == k
  {
    assert Backed(b, j) && Backed(b, k);
  }

  // ---- The domain owner ------------------------------------------------------------------

  /** What a token signs: the authorization, the scope, the run, the artifact, and all the other bound material. */
  datatype Payload = Payload(scope: Scope, authorization: string, run: string, artifact: string, material: string)

  datatype Command = Command(operation: Key, run: string, authorization: string, token: string, artifact: string, material: string)
  {
    predicate Complete() {
      operation.id != "" && operation.scope.workspace != "" && operation.scope.project != "" && run != "" && authorization != "" && token != ""
    }
    function Asserted(): Payload { Payload(operation.scope, authorization, run, artifact, material) }
    function AsRedemption(outcome: Outcome, now: Time): Redemption {
      Redemption(operation, authorization, token, run, artifact, outcome, now)
    }
  }

  /** One commit: `verified` is what verification of the token answers now, `outcome` what the owner decides if this is the first. */
  function Commit(b: Book, command: Command, verified: Option<Payload>, outcome: Outcome, now: Time): (Book, Result<Outcome, Problem>) {
    if !command.Complete() || now == 0 then (b, Err(Invalid))
    else if verified != Some(command.Asserted()) then (b, Ok(Rejected))
    else
      var (after, answer) := Redeem(b, command.AsRedemption(outcome, now));
      (after, Ok(if answer.Ok? then answer.value.outcome else Rejected))
  }

  // ---- The protocol ----------------------------------------------------------------------

  datatype Request = Request(operation: Key, run: string, artifact: string, material: string)

  datatype Process =
    | Looking(request: Request)
    | Minting(request: Request)
    | Recording(mine: Issuance)
    | Rereading(operation: Key)
    | Answered(issuance: Issuance)

  /** `signed` and `effects` are history: every token ever signed with its payload, and every redemption that was not a replay. */
  datatype Config = Config(
    issuances: Issuances, book: Book, signed: map<string, Payload>, minted: set<string>, effects: seq<Redemption>, processes: map<nat, Process>)

  datatype Step =
    | BeginIssue(p: nat, request: Request)
    | Advance(p: nat, id: string, token: string, expiresAt: Time)  // id, token, expiry: what minting draws, if this step mints
    | Crash(p: nat)
    | Committing(command: Command, verified: Option<Payload>, outcome: Outcome, now: Time)

  function Goto(c: Config, p: nat, process: Process): Config { c.(processes := c.processes[p := process]) }
  function Stop(c: Config, p: nat): Config { c.(processes := c.processes - {p}) }

  function AdvanceProcess(c: Config, p: nat, id: string, token: string, expiresAt: Time): Config
    requires p in c.processes
  {
    match c.processes[p]
    case Looking(request) => Goto(c, p, if request.operation in c.issuances then Answered(c.issuances[request.operation]) else Minting(request))
    case Minting(request) =>
      var payload := Payload(request.operation.scope, id, request.run, request.artifact, request.material);
      Goto(c.(signed := c.signed[token := payload], minted := c.minted + {id}), p, Recording(Issuance(request.operation, request.run, id, token, expiresAt)))
    case Recording(mine) =>
      var (m, answer) := Record(c.issuances, mine);
      if answer.Ok? then Goto(c.(issuances := m), p, Answered(mine))
      else if answer.error == IdempotencyConflict then Goto(c, p, Rereading(mine.operation))
      else Stop(c, p)
    case Rereading(operation) => if operation in c.issuances then Goto(c, p, Answered(c.issuances[operation])) else Stop(c, p)
    case Answered(_) => c
  }

  function Apply(c: Config, s: Step): Config {
    match s
    case BeginIssue(p, request) => Goto(c, p, Looking(request))
    case Advance(p, id, token, expiresAt) => if p in c.processes then AdvanceProcess(c, p, id, token, expiresAt) else c
    case Crash(p) => Stop(c, p)
    case Committing(command, verified, outcome, now) =>
      var after := Commit(c.book, command, verified, outcome, now).0;
      c.(book := after, effects := if after == c.book then c.effects else c.effects + [command.AsRedemption(outcome, now)])
  }

  /** Identities and tokens are drawn fresh, and only what was signed verifies, as what was signed. */
  predicate Lawful(c: Config, s: Step) {
    match s
    case Advance(p, id, token, _) => p in c.processes && c.processes[p].Minting? ==> id !in c.minted && token !in c.signed && token != ""
    case Committing(command, verified, _, _) => verified.Some? ==> command.token in c.signed && c.signed[command.token] == verified.value
    case _ => true
  }

  /** Moreover, whoever commits an operation presents what was issued for it. */
  predicate Faithful(c: Config, s: Step) {
    s.Committing? ==>
      s.command.operation in c.issuances && Presents(c.issuances[s.command.operation], s.command)
  }

  predicate Presents(i: Issuance, command: Command) {
    command.authorization == i.authorization && command.token == i.token && command.run == i.run
  }

  function Exec(c: Config, steps: seq<Step>): Config
    decreases |steps|
  {
    if steps == [] then c else Exec(Apply(c, steps[0]), steps[1..])
  }

  predicate AllLawful(c: Config, steps: seq<Step>)
    decreases |steps|
  {
    steps != [] ==> Lawful(c, steps[0]) && AllLawful(Apply(c, steps[0]), steps[1..])
  }

  predicate AllFaithful(c: Config, steps: seq<Step>)
    decreases |steps|
  {
    steps != [] ==> Faithful(c, steps[0]) && AllFaithful(Apply(c, steps[0]), steps[1..])
  }

  // ---- Invariants ------------------------------------------------------------------------

  /** An authorization that was really minted, and signed into its token for its run. */
  predicate Genuine(c: Config, i: Issuance) {
    && i.authorization in c.minted && i.token in c.signed
    && c.signed[i.token].authorization == i.authorization && c.signed[i.token].scope == i.operation.scope && c.signed[i.token].run == i.run
  }

  ghost predicate IssuancesInv(c: Config) {
    && (forall t | t in c.signed :: c.signed[t].authorization in c.minted)
    && (forall k | k in c.issuances :: c.issuances[k].operation == k && Genuine(c, c.issuances[k]))
    && (forall j, k | j in c.issuances && k in c.issuances && c.issuances[j].authorization == c.issuances[k].authorization :: j == k)
  }

  /** What is about to be recorded is nobody else's. */
  predicate Unrecorded(c: Config, i: Issuance) { forall k | k in c.issuances :: c.issuances[k].authorization != i.authorization }

  predicate ProcessInv(c: Config, process: Process) {
    match process
    case Recording(mine) => Genuine(c, mine) && Unrecorded(c, mine)
    case Answered(i) => i.operation in c.issuances && c.issuances[i.operation] == i
    case _ => true
  }

  ghost predicate ProcessesInv(c: Config) {
    && (forall p | p in c.processes :: ProcessInv(c, c.processes[p]))
    && (forall p, q | p in c.processes && q in c.processes && p != q && c.processes[p].Recording? && c.processes[q].Recording? ::
          c.processes[p].mine.authorization != c.processes[q].mine.authorization)
  }

  predicate OnBook(b: Book, r: Redemption) { r.operation in b.byOperation && b.byOperation[r.operation] == r }

  ghost predicate OncePerOperation(effects: seq<Redemption>) {
    forall i, j | 0 <= i < |effects| && 0 <= j < |effects| && effects[i].operation == effects[j].operation :: i == j
  }

  /** The effects so far are exactly the redemptions on the book, one each. */
  ghost predicate EffectsInv(c: Config) {
    && Inverse(c.book) && OncePerOperation(c.effects)
    && (forall i | 0 <= i < |c.effects| :: OnBook(c.book, c.effects[i]))
    && (forall k | k in c.book.byOperation :: c.book.byOperation[k] in c.effects)
  }

  ghost predicate Inv(c: Config) { IssuancesInv(c) && ProcessesInv(c) && EffectsInv(c) }

  ghost predicate Grows(c: Config, d: Config) {
    && (forall k | k in c.issuances :: k in d.issuances && d.issuances[k] == c.issuances[k])
    && BookGrows(c.book, d.book) && c.effects <= d.effects
    && (forall t | t in c.signed :: t in d.signed && d.signed[t] == c.signed[t])
  }
}
