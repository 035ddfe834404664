/**
 Custody as a concurrent protocol. A process reads a record, computes from what
 it read, and later writes by compare-and-set; between any two of its steps every
 other process may act, and at any point it may crash.
 */
module ArtifactCustody {
  import opened Wrappers
  import opened Artifacts

  datatype Process =
    | Writing(base: Record, next: Record, revoke: bool)           // read `base`; about to write `next`
    | Claiming(decision: Decision, base: Record, reason: string, now: Time)
    | Revoking(claimed: Record, reason: string, now: Time)
    | Removing(claimed: Record, reason: string, now: Time)
    | Burying(claimed: Record, reason: string, now: Time)
    | Signing(grant: Grant)
    | Done(record: Record)

  datatype Config = Config(
    records: Records, objects: set<Reference>, issued: set<Grant>, revoked: set<Grant>, processes: map<nat, Process>)

  datatype Step =
    | Create(record: Record)                                      // atomic per identity
    | BeginTransition(p: nat, key: Key, expected: nat, next: State, now: Time)
    | BeginHold(p: nat, key: Key, expected: nat, hold: bool, now: Time)
    | BeginExpiry(p: nat, key: Key, orphaned: bool, now: Time)
    | BeginDelete(p: nat, key: Key, expected: nat, reason: string, now: Time)
    | BeginConverge(p: nat, key: Key, reason: string, now: Time)
    | BeginOrphan(p: nat, key: Key, now: Time)
    | BeginGrant(p: nat, key: Key, purpose: Purpose, actor: string, now: Time, expiresAt: Time)
    | Advance(p: nat)                                             // the process takes its next step
    | Crash(p: nat)
    | Vanish(reference: Reference)                                // an object lost by the object store

  const ORPHANED := "orphaned-object"

  function Begin(c: Config, p: nat, process: Process): Config { c.(processes := c.processes[p := process]) }

  function Revoke(c: Config, k: Key): Config { c.(revoked := c.revoked + (set g | g in c.issued && g.key == k)) }

  /** The next step of one process. */
  function AdvanceProcess(c: Config, p: nat): Config
    requires p in c.processes
  {
    match c.processes[p]
    case Writing(base, next, revoke) =>
      if revoke then Begin(Revoke(c, base.key), p, Writing(base, next, false))
      else c.(records := Update(c.records, next, base.version).0, processes := c.processes - {p})
    case Claiming(decision, base, reason, now) =>
      var (rs, answer) := ClaimDeletion(c.records, base.key, base.version, Claim(decision, TerminalFor(base), now));
      if answer.Err? then c.(processes := c.processes - {p})
      else if answer.value.state == Deleted then Begin(c, p, Done(answer.value))
      else Begin(c.(records := rs), p, Revoking(answer.value, reason, now))
    case Revoking(claimed, reason, now) => Begin(Revoke(c, claimed.key), p, Removing(claimed, reason, now))
    case Removing(claimed, reason, now) =>
      Begin(c.(objects := c.objects - {claimed.content.reference}), p, Burying(claimed, reason, now))
    case Burying(claimed, reason, now) =>
      var (rs, answer) := Update(c.records, Tombstone(claimed, reason, now), claimed.version);
      if answer.Ok? then Begin(c.(records := rs), p, Done(answer.value))
      else if claimed.key in c.records && c.records[claimed.key].state == Deleted && c.records[claimed.key].claim == claimed.claim
      then Begin(c, p, Done(c.records[claimed.key]))
      else c.(processes := c.processes - {p})
    case Signing(grant) => c.(issued := c.issued + {grant}, processes := c.processes - {p})
    case Done(_) => c
  }

  function Apply(c: Config, s: Step): Config {
    match s
    case Create(record) =>
      if record.key in c.records then c
      else c.(records := c.records[record.key := record], objects := c.objects + {record.content.reference})
    case BeginTransition(p, k, expected, next, now) =>
      if k !in c.records then c
      else
        (match TransitionFrom(c.records[k], expected, next, now)
         case Err(_) => c
         case Ok(n) => Begin(c, p, Writing(c.records[k], n, Withdraws(c.records[k], next))))
    case BeginHold(p, k, expected, hold, now) =>
      if k !in c.records then c
      else
        (match HoldFrom(c.records[k], expected, hold, now)
         case Ok(Some(n)) => Begin(c, p, Writing(c.records[k], n, false))
         case _ => c)
    case BeginExpiry(p, k, orphaned, now) =>
      if k !in c.records then c
      else
        var value := c.records[k];
        if orphaned && value.state.Live() then Begin(c, p, Writing(value, ExpiryFrom(value, now), true))
        else if !orphaned && value.state == Pending && !value.hold then Begin(c, p, Writing(value, ExpiryFrom(value, now), true))
        else c
    case BeginDelete(p, k, expected, reason, now) =>
      if k !in c.records then c
      else
        var value := c.records[k];
        if value.state == Deleted || value.claim.Some? || value.hold || expected == 0 || value.version != expected then c
        else Begin(c, p, Claiming(Decision(Deletion, k, expected), value, reason, now))
    case BeginConverge(p, k, reason, now) =>
      if k !in c.records || c.records[k].claim.None? || c.records[k].state == Deleted then c
      else Begin(c, p, Claiming(c.records[k].claim.value, c.records[k], reason, now))
    case BeginOrphan(p, k, now) =>
      if k !in c.records || c.records[k].state !in {Quarantined, Expired} then c
      else
        var value := c.records[k];
        var decision := if value.claim.Some? then value.claim.value else Decision(Deletion, k, value.version);
        Begin(c, p, Claiming(decision, value, ORPHANED, now))
    case BeginGrant(p, k, purpose, actor, now, expiresAt) =>
      if k !in c.records || !Grantable(c.records[k], purpose, now) then c
      else Begin(c, p, Signing(GrantFrom(c.records[k], purpose, actor, expiresAt)))
    case Advance(p) => if p in c.processes then AdvanceProcess(c, p) else c
    case Crash(p) => c.(processes := c.processes - {p})
    case Vanish(reference) => c.(objects := c.objects - {reference})
  }

  /** How the service records an artifact first. */
  predicate FreshRecord(r: Record) {
    && r.state in {Pending, Quarantined} && r.version == 1 && r.generation == 1 && !r.hold
    && r.claim.None? && r.claimedAt.None? && r.deletedAt.None?
  }

  /** No other record has the object of this one. */
  predicate OwnObject(c: Config, r: Record) {
    forall k | k in c.records && k != r.key :: c.records[k].content.reference != r.content.reference
  }

  /**
   What callers of the service keep to: a record is created fresh, with an object of its own, and a
   transition never asks for the tombstone, which only destruction writes.
   */
  predicate Lawful(c: Config, s: Step) {
    match s
    case Create(r) => FreshRecord(r) && OwnObject(c, r)
    case BeginTransition(_, _, _, next, _) => next != Deleted
    case _ => true
  }

  function Exec(c: Config, steps: seq<Step>): Config
    decreases |steps|
  {
    if steps == [] then c else Exec(Apply(c, steps[0]), steps[1..])
  }

  predicate AllLawful(c: Config, steps: seq<Step>)
    decreases |steps|
  {
    steps != [] ==> Lawful(c, steps[0]) && AllLawful(Apply(c, steps[0]), steps[1..])
  }

  // ---- How a record may change -----------------------------------------------------------

  /**
   One record after another: content is fixed, version and security generation only rise, a claim is
   for ever, a tombstone is final, and access withdrawn is never restored. Whenever access is
   withdrawn, a claim taken or a tombstone written, the generation rises.
   */
  predicate Evolves(a: Record, b: Record) {
    && b.key == a.key && b.content == a.content
    && b.version >= a.version && b.generation >= a.generation
    && (b.version == a.version ==> b == a)
    && (a.claim.Some? ==> b.claim == a.claim && b.claimedAt == a.claimedAt)
    && (a.state == Deleted ==> b == a)
    && (!a.state.Live() ==> !b.state.Live())
    && (b.generation == a.generation ==>
          (a.state.Live() <==> b.state.Live()) && b.claim == a.claim && (a.state == Deleted <==> b.state == Deleted))
  }

  lemma EvolvesTransitively(a: Record, b: Record, d: Record)
    requires Evolves(a, b) && Evolves(b, d)
    ensures Evolves(a, d)
  {}

  // ---- The invariant ---------------------------------------------------------------------

  predicate RecordInv(r: Record, k: Key, objects: set<Reference>) {
    && r.key == k && r.version >= 1
    && (r.claim.Some? ==> !r.hold && !r.state.Live())
    && (r.state == Deleted ==> r.claim.Some? && r.content.reference !in objects)
  }

  /** What a process read is still current, or has moved on. */
  predicate ReadFrom(c: Config, base: Record) { base.key in c.records && Evolves(base, c.records[base.key]) }

  /** A claimed record stands as claimed until its tombstone is written. */
  predicate ClaimStands(c: Config, claimed: Record) {
    && claimed.claim.Some? && claimed.state in {Quarantined, Expired} && ReadFrom(c, claimed)
    && (c.records[claimed.key] == claimed || c.records[claimed.key].state == Deleted)
  }

  predicate ProcessInv(c: Config, process: Process) {
    match process
    case Writing(base, next, _) =>
      && ReadFrom(c, base) && base.claim.None? && base.state != Deleted && Evolves(base, next)
      && next.version == base.version + 1 && next.claim.None? && next.state != Deleted
    case Claiming(decision, base, _, _) => ReadFrom(c, base) && base.state != Deleted
    case Revoking(claimed, _, _) => ClaimStands(c, claimed)
    case Removing(claimed, _, _) => ClaimStands(c, claimed)
    case Burying(claimed, _, _) => ClaimStands(c, claimed) && claimed.content.reference !in c.objects
    case Signing(grant) => true
    case Done(record) => record.state == Deleted && record.key in c.records && c.records[record.key] == record
  }

  ghost predicate Inv(c: Config) {
    && (forall k | k in c.records :: RecordInv(c.records[k], k, c.objects))
    && (forall j, k | j in c.records && k in c.records && j != k ::
          c.records[j].content.reference != c.records[k].content.reference)
    && (forall p | p in c.processes :: ProcessInv(c, c.processes[p]))
  }

  /** How a whole configuration may change: records evolve, and a destroyed record's object stays gone. */
  ghost predicate Moves(c: Config, d: Config) {
    && (forall k | k in c.records :: k in d.records && Evolves(c.records[k], d.records[k]))
    && (forall k | k in c.records && c.records[k].content.reference in d.objects :: c.records[k].content.reference in c.objects)
  }

  lemma MovesToItself(c: Config)
    ensures Moves(c, c)
  {}

  lemma MovesTransitively(c: Config, d: Config, e: Config)
    requires Moves(c, d) && Moves(d, e)
    ensures Moves(c, e)
  {
    forall k | k in c.records ensures k in e.records && Evolves(c.records[k], e.records[k]) {
      EvolvesTransitively(c.records[k], d.records[k], e.records[k]);
    }
  }

  /** A claimed record changes only into its tombstone. */
  ghost predicate ClaimsStand(c: Config, d: Config) {
    forall k | k in c.records && c.records[k].claim.Some? :: k in d.records && (d.records[k] == c.records[k] || d.records[k].state == Deleted)
  }

  /** A process that is not the one acting keeps its invariant across any legal change. */
  lemma OthersUnaffected(c: Config, d: Config, process: Process)
    requires Moves(c, d) && ClaimsStand(c, d) && ProcessInv(c, process)
    ensures ProcessInv(d, process)
  {
    match process
    case Writing(base, _, _) => EvolvesTransitively(base, c.records[base.key], d.records[base.key]);
    case Claiming(_, base, _, _) => EvolvesTransitively(base, c.records[base.key], d.records[base.key]);
    case Revoking(claimed, _, _) => EvolvesTransitively(claimed, c.records[claimed.key], d.records[claimed.key]);
    case Removing(claimed, _, _) => EvolvesTransitively(claimed, c.records[claimed.key], d.records[claimed.key]);
    case Burying(claimed, _, _) => EvolvesTransitively(claimed, c.records[claimed.key], d.records[claimed.key]);
    case _ =>
  }

  /** What has to be shown of a step: records and objects move legally, and the acting process keeps its invariant. */
  lemma StepKeepsInvByParts(c: Config, d: Config, p: nat)
    requires Inv(c) && Moves(c, d) && ClaimsStand(c, d)
    requires forall k | k in d.records :: RecordInv(d.records[k], k, d.objects)
    requires forall j, k | j in d.records && k in d.records && j != k :: d.records[j].content.reference != d.records[k].content.reference
    requires forall q | q in d.processes && q != p :: q in c.processes && d.processes[q] == c.processes[q]
    requires p in d.processes ==> ProcessInv(d, d.processes[p])
    ensures Inv(d)
  {
    forall q | q in d.processes ensures ProcessInv(d, d.processes[q]) {
      if q != p { OthersUnaffected(c, d, c.processes[q]); }
    }
  }

  /** A step that leaves records and objects alone. */
  lemma QuietStep(c: Config, d: Config, p: nat)
    requires Inv(c) && d.records == c.records && d.objects == c.objects
    requires forall q | q in d.processes && q != p :: q in c.processes && d.processes[q] == c.processes[q]
    requires p in d.processes && (p !in c.processes || d.processes[p] != c.processes[p]) ==> ProcessInv(c, d.processes[p])
    ensures Inv(d) && Moves(c, d) && ClaimsStand(c, d)
  {
    if p in d.processes { OthersUnaffected(c, d, d.processes[p]); }
    StepKeepsInvByParts(c, d, p);
  }

  /** A step that rewrites one record legally. */
  lemma RewriteStep(c: Config, d: Config, p: nat, k: Key, r: Record)
    requires Inv(c) && k in c.records && d.records == c.records[k := r] && d.objects == c.objects
    requires Evolves(c.records[k], r) && RecordInv(r, k, d.objects)
    requires c.records[k].claim.Some? ==> r == c.records[k] || r.state == Deleted
    requires forall q | q in d.processes && q != p :: q in c.processes && d.processes[q] == c.processes[q]
    requires p in d.processes ==> ProcessInv(d, d.processes[p])
    ensures Inv(d) && Moves(c, d) && ClaimsStand(c, d)
  {
    hide Inv, Moves, ClaimsStand, Evolves, RecordInv, ProcessInv;
    RewriteIsLegal(c, d, k, r);
    RewriteKeepsRecords(c, d, k, r);
    StepKeepsInvByParts(c, d, p);
  }

  lemma RewriteIsLegal(c: Config, d: Config, k: Key, r: Record)
    requires k in c.records && d.records == c.records[k := r] && d.objects == c.objects
    requires Evolves(c.records[k], r) && (c.records[k].claim.Some? ==> r == c.records[k] || r.state == Deleted)
    ensures Moves(c, d) && ClaimsStand(c, d)
  {}

  lemma RewriteKeepsRecords(c: Config, d: Config, k: Key, r: Record)
    requires Inv(c) && k in c.records && d.records == c.records[k := r] && d.objects == c.objects
    requires Evolves(c.records[k], r) && RecordInv(r, k, d.objects)
    ensures forall j | j in d.records :: RecordInv(d.records[j], j, d.objects)
    ensures forall i, j | i in d.records && j in d.records && i != j :: d.records[i].content.reference != d.records[j].content.reference
  {
    hide RecordInv, ProcessInv;
  }

  lemma RecordOf(c: Config, k: Key)
    requires Inv(c) && k in c.records
    ensures RecordInv(c.records[k], k, c.objects)
  {}

  lemma ProcessOf(c: Config, p: nat)
    requires Inv(c) && p in c.processes
    ensures ProcessInv(c, c.processes[p])
  {}

  lemma WriteKeepsInv(c: Config, p: nat)
    requires Inv(c) && p in c.processes && c.processes[p].Writing?
    ensures var d := AdvanceProcess(c, p); Inv(d) && Moves(c, d) && ClaimsStand(c, d)
  {
    hide Inv, Moves, ClaimsStand;
    var Writing(base, next, revoke) := c.processes[p];
    ProcessOf(c, p);
    var d := AdvanceProcess(c, p);
    if revoke || c.records[base.key].version != base.version {
      QuietStep(c, d, p);
    } else {
      assert c.records[base.key] == base;
      RewriteStep(c, d, p, base.key, next);
    }
  }

  lemma ClaimKeepsInv(c: Config, p: nat)
    requires Inv(c) && p in c.processes && c.processes[p].Claiming?
    ensures var d := AdvanceProcess(c, p); Inv(d) && Moves(c, d) && ClaimsStand(c, d)
  {
    hide Inv, Moves, ClaimsStand;
    var Claiming(decision, base, reason, now) := c.processes[p];
    ProcessOf(c, p);
    var d := AdvanceProcess(c, p);
    var k := base.key;
    var claim := Claim(decision, TerminalFor(base), now);
    RecordOf(c, k);
    if c.records[k].claim.Some? || ClaimDeletion(c.records, k, base.version, claim).1.Err? {
      QuietStep(c, d, p);
    } else {
      RewriteStep(c, d, p, k, Claimed(c.records[k], claim));
    }
  }

  lemma RemovalKeepsInv(c: Config, p: nat)
    requires Inv(c) && p in c.processes && c.processes[p].Removing?
    ensures var d := AdvanceProcess(c, p); Inv(d) && Moves(c, d) && ClaimsStand(c, d)
  {
    hide Inv, Moves, ClaimsStand, RecordInv, Evolves;
    ProcessOf(c, p);
    var d := AdvanceProcess(c, p);
    FewerObjects(c, d);
    StepKeepsInvByParts(c, d, p);
  }

  lemma FewerObjects(c: Config, d: Config)
    requires Inv(c) && d.records == c.records && d.objects <= c.objects
    ensures Moves(c, d) && ClaimsStand(c, d)
    ensures forall k | k in d.records :: RecordInv(d.records[k], k, d.objects)
    ensures forall j, k | j in d.records && k in d.records && j != k :: d.records[j].content.reference != d.records[k].content.reference
  {
    hide ProcessInv;
    forall k | k in c.records ensures RecordInv(d.records[k], k, d.objects) { assert RecordInv(c.records[k], k, c.objects); }
  }

  lemma BurialKeepsInv(c: Config, p: nat)
    requires Inv(c) && p in c.processes && c.processes[p].Burying?
    ensures var d := AdvanceProcess(c, p); Inv(d) && Moves(c, d) && ClaimsStand(c, d)
  {
    hide Inv, Moves, ClaimsStand;
    var Burying(claimed, reason, now) := c.processes[p];
    ProcessOf(c, p);
    var d := AdvanceProcess(c, p);
    var k := claimed.key;
    RecordOf(c, k);
    if c.records[k] == claimed {
      RewriteStep(c, d, p, k, Tombstone(claimed, reason, now));
    } else {
      QuietStep(c, d, p);
    }
  }

  lemma AdvanceKeepsInv(c: Config, p: nat)
    requires Inv(c) && p in c.processes
    ensures var d := AdvanceProcess(c, p); Inv(d) && Moves(c, d) && ClaimsStand(c, d)
  {
    assert ProcessInv(c, c.processes[p]);
    match c.processes[p]
    case Writing(_, _, _) => WriteKeepsInv(c, p);
    case Claiming(_, _, _, _) => ClaimKeepsInv(c, p);
    case Revoking(claimed, reason, now) => QuietStep(c, AdvanceProcess(c, p), p);
    case Removing(_, _, _) => RemovalKeepsInv(c, p);
    case Burying(_, _, _) => BurialKeepsInv(c, p);
    case Signing(_) => QuietStep(c, AdvanceProcess(c, p), p);
    case Done(_) => QuietStep(c, AdvanceProcess(c, p), p);
  }

  /** What a process computes from a record it just read satisfies the process invariant. */
  lemma TransitionIsLegal(c: Config, k: Key, expected: nat, next: State, now: Time)
    requires Inv(c) && k in c.records && next != Deleted
    ensures var n := TransitionFrom(c.records[k], expected, next, now);
            n.Ok? ==> ProcessInv(c, Writing(c.records[k], n.value, Withdraws(c.records[k], next)))
  {
    assert RecordInv(c.records[k], k, c.objects);
  }

  lemma HoldIsLegal(c: Config, k: Key, expected: nat, hold: bool, now: Time)
    requires Inv(c) && k in c.records
    ensures var n := HoldFrom(c.records[k], expected, hold, now);
            n.Ok? && n.value.Some? ==> ProcessInv(c, Writing(c.records[k], n.value.value, false))
  {
    assert RecordInv(c.records[k], k, c.objects);
  }

  lemma ExpiryIsLegal(c: Config, k: Key, now: Time)
    requires Inv(c) && k in c.records && c.records[k].state.Live()
    ensures ProcessInv(c, Writing(c.records[k], ExpiryFrom(c.records[k], now), true))
  {
    assert RecordInv(c.records[k], k, c.objects);
  }

  lemma CreateAddsRecord(c: Config, record: Record)
    requires Inv(c) && Lawful(c, Create(record)) && record.key !in c.records
    ensures var d := Apply(c, Create(record));
            && Moves(c, d) && ClaimsStand(c, d)
            && (forall k | k in d.records :: RecordInv(d.records[k], k, d.objects))
  {
    hide ProcessInv;
    var d := Apply(c, Create(record));
    forall k | k in d.records ensures RecordInv(d.records[k], k, d.objects) {
      if k != record.key { assert RecordInv(c.records[k], k, c.objects); }
    }
    forall k | k in c.records ensures k in d.records && Evolves(c.records[k], d.records[k]) {}
  }

  lemma CreateKeepsInv(c: Config, record: Record)
    requires Inv(c) && Lawful(c, Create(record))
    ensures var d := Apply(c, Create(record)); Inv(d) && Moves(c, d) && ClaimsStand(c, d)
  {
    var d := Apply(c, Create(record));
    if record.key !in c.records {
      CreateAddsRecord(c, record);
      forall q | q in d.processes ensures ProcessInv(d, d.processes[q]) { OthersUnaffected(c, d, c.processes[q]); }
    } else {
      QuietStep(c, d, 0);
    }
  }

  /** A step in which a process reads and computes; nothing stored changes. */
  lemma BeginningKeepsInv(c: Config, s: Step)
    requires Inv(c) && Lawful(c, s) && (s.BeginTransition? || s.BeginHold? || s.BeginExpiry?)
    ensures var d := Apply(c, s); Inv(d) && Moves(c, d) && ClaimsStand(c, d)
  {
    hide Inv, Moves, ClaimsStand, RecordInv, Evolves, TransitionFrom, HoldFrom, ProcessInv;
    var d := Apply(c, s);
    if s.key in c.records {
      match s
      case BeginTransition(p, k, expected, next, now) => TransitionIsLegal(c, k, expected, next, now);
      case BeginHold(p, k, expected, hold, now) => HoldIsLegal(c, k, expected, hold, now);
      case BeginExpiry(p, k, orphaned, now) => if c.records[k].state.Live() { ExpiryIsLegal(c, k, now); }
    }
    QuietStep(c, d, s.p);
  }

  lemma StepKeepsInv(c: Config, s: Step)
    requires Inv(c) && Lawful(c, s)
    ensures var d := Apply(c, s); Inv(d) && Moves(c, d) && ClaimsStand(c, d)
  {
    hide Inv, Moves, ClaimsStand, RecordInv, Evolves, AdvanceProcess, FreshRecord, OwnObject, TransitionFrom, HoldFrom;
    var d := Apply(c, s);
    match s
    case Create(record) => CreateKeepsInv(c, record);
    case BeginTransition(_, _, _, _, _) => BeginningKeepsInv(c, s);
    case BeginHold(_, _, _, _, _) => BeginningKeepsInv(c, s);
    case BeginExpiry(_, _, _, _) => BeginningKeepsInv(c, s);
    case BeginDelete(p, k, expected, reason, now) => DeletionIsLegal(c, k); QuietStep(c, d, p);
    case BeginConverge(p, k, reason, now) => DeletionIsLegal(c, k); QuietStep(c, d, p);
    case BeginOrphan(p, k, now) => DeletionIsLegal(c, k); QuietStep(c, d, p);
    case BeginGrant(p, k, purpose, actor, now, expiresAt) => QuietStep(c, d, p);
    case Advance(p) => if p in c.processes { AdvanceKeepsInv(c, p); } else { QuietStep(c, d, p); }
    case Crash(p) => QuietStep(c, d, p);
    case Vanish(reference) => VanishKeepsInv(c, reference);
  }

  lemma DeletionIsLegal(c: Config, k: Key)
    requires Inv(c)
    ensures k in c.records ==> ReadFrom(c, c.records[k])
  {
    if k in c.records { assert RecordInv(c.records[k], k, c.objects); }
  }

  lemma VanishKeepsInv(c: Config, reference: Reference)
    requires Inv(c)
    ensures var d := Apply(c, Vanish(reference)); Inv(d) && Moves(c, d) && ClaimsStand(c, d)
  {
    var d := Apply(c, Vanish(reference));
    forall k | k in d.records ensures RecordInv(d.records[k], k, d.objects) { assert RecordInv(c.records[k], k, c.objects); }
    forall q | q in d.processes ensures ProcessInv(d, d.processes[q]) { OthersUnaffected(c, d, c.processes[q]); }
  }

  lemma {:induction false} EveryRunKeepsInv(c: Config, steps: seq<Step>)
    requires Inv(c) && AllLawful(c, steps)
    ensures Inv(Exec(c, steps)) && Moves(c, Exec(c, steps))
    decreases |steps|
  {
    if steps != [] {
      var c1, d := Apply(c, steps[0]), Exec(c, steps);
      StepKeepsInv(c, steps[0]);
      EveryRunKeepsInv(c1, steps[1..]);
      forall k | k in c.records ensures k in d.records && Evolves(c.records[k], d.records[k]) {
        EvolvesTransitively(c.records[k], c1.records[k], d.records[k]);
      }
    }
  }
}
