/** What custody promises over every run of the concurrent protocol. */
module ArtifactRuns {
  import opened Wrappers
  import opened Artifacts
  import opened ArtifactCustody

  // ---- Legal hold against destruction ----------------------------------------------------

  /**
   A claim is for ever and excludes a hold: once a record is claimed, every later configuration has
   it claimed by the same decision, unheld, and in quarantine, expiry or the tombstone.
   */
  lemma ClaimedIsNeverHeld(c: Config, steps: seq<Step>, k: Key)
    requires Inv(c) && AllLawful(c, steps) && k in c.records && c.records[k].claim.Some?
    ensures var r := Exec(c, steps).records;
            && k in r && r[k].claim == c.records[k].claim && r[k].claimedAt == c.records[k].claimedAt
            && !r[k].hold && r[k].state in {Quarantined, Expired, Deleted}
  {
    EveryRunKeepsInv(c, steps);
    assert Evolves(c.records[k], Exec(c, steps).records[k]);
    assert RecordInv(Exec(c, steps).records[k], k, Exec(c, steps).objects);
  }

  /** The object about to be removed belongs to a claimed record, and to no other. */
  lemma RemovalIsOwned(c: Config, p: nat)
    requires Inv(c) && p in c.processes && c.processes[p].Removing?
    ensures var claimed := c.processes[p].claimed;
            && claimed.key in c.records && c.records[claimed.key].claim == claimed.claim && claimed.claim.Some?
            && c.records[claimed.key].content.reference == claimed.content.reference
            && forall j | j in c.records && j != claimed.key :: c.records[j].content.reference != claimed.content.reference
  {
    assert ProcessInv(c, c.processes[p]);
  }

  /** Whatever runs before and after, an object this service removes is of a record that is not held and never will be. */
  lemma RemovedIsNeverHeld(c: Config, p: nat, steps: seq<Step>)
    requires Inv(c) && p in c.processes && c.processes[p].Removing? && AllLawful(Apply(c, Advance(p)), steps)
    ensures var k := c.processes[p].claimed.key; var r := Exec(Apply(c, Advance(p)), steps).records;
            k in c.records && !c.records[k].hold && k in r && !r[k].hold
  {
    RemovalIsOwned(c, p);
    var k := c.processes[p].claimed.key;
    assert RecordInv(c.records[k], k, c.objects);
    StepKeepsInv(c, Advance(p));
    ClaimedIsNeverHeld(Apply(c, Advance(p)), steps, k);
  }

  lemma StepSparesUnclaimed(c: Config, s: Step, k: Key)
    requires Inv(c) && Lawful(c, s) && k in c.records && c.records[k].claim.None?
    requires s != Vanish(c.records[k].content.reference) && c.records[k].content.reference in c.objects
    ensures c.records[k].content.reference in Apply(c, s).objects
  {
    hide Inv, Lawful, TransitionFrom, HoldFrom, Grantable, ClaimDeletion;
    if s.Advance? && s.p in c.processes && c.processes[s.p].Removing? { RemovalIsOwned(c, s.p); }
  }

  predicate NeverVanishes(steps: seq<Step>, reference: Reference) {
    forall i | 0 <= i < |steps| :: steps[i] != Vanish(reference)
  }

  /** The content of an artifact that ends a run unclaimed — held, in particular — was never removed by this service. */
  lemma {:induction false} UnclaimedContentSurvives(c: Config, steps: seq<Step>, k: Key)
    requires Inv(c) && AllLawful(c, steps) && k in c.records && c.records[k].content.reference in c.objects
    requires NeverVanishes(steps, c.records[k].content.reference)
    requires k in Exec(c, steps).records && (Exec(c, steps).records[k].hold || Exec(c, steps).records[k].claim.None?)
    ensures c.records[k].content.reference in Exec(c, steps).objects
    decreases |steps|
  {
    if steps != [] {
      var c1 := Apply(c, steps[0]);
      if c.records[k].claim.Some? { ClaimedIsNeverHeld(c, steps, k); }
      StepKeepsInv(c, steps[0]);
      StepSparesUnclaimed(c, steps[0], k);
      assert NeverVanishes(steps[1..], c.records[k].content.reference);
      UnclaimedContentSurvives(c1, steps[1..], k);
    }
  }

  // ---- Destruction is resumable and exclusive --------------------------------------------

  /** How far a destruction has come. */
  function Stage(process: Process): nat {
    match process
    case Revoking(_, _, _) => 1
    case Removing(_, _, _) => 2
    case Burying(_, _, _) => 3
    case Done(_) => 4
    case _ => 0
  }

  /** The process carries a destruction of k under the decision that owns it. */
  predicate Owns(c: Config, p: nat, k: Key) {
    && p in c.processes && k in c.records && c.records[k].claim.Some?
    && match c.processes[p]
       case Claiming(decision, base, _, now) => base.key == k && c.records[k].claim == Some(decision) && now != 0
       case Revoking(claimed, _, _) => claimed.key == k
       case Removing(claimed, _, _) => claimed.key == k
       case Burying(claimed, _, _) => claimed.key == k
       case Done(record) => record.key == k
       case _ => false
  }

  /** The owner's next step always succeeds, whatever happened since its last one. */
  lemma OwnerAdvances(c: Config, p: nat, k: Key)
    requires Inv(c) && Owns(c, p, k)
    ensures var d := AdvanceProcess(c, p);
            Owns(d, p, k) && (Stage(d.processes[p]) > Stage(c.processes[p]) || d.processes[p].Done?)
  {
    assert ProcessInv(c, c.processes[p]);
    assert RecordInv(c.records[k], k, c.objects);
  }

  predicate Names(s: Step, p: nat) {
    match s
    case Create(_) => false
    case Vanish(_) => false
    case BeginTransition(q, _, _, _, _) => q == p
    case BeginHold(q, _, _, _, _) => q == p
    case BeginExpiry(q, _, _, _) => q == p
    case BeginDelete(q, _, _, _, _) => q == p
    case BeginConverge(q, _, _, _) => q == p
    case BeginOrphan(q, _, _) => q == p
    case BeginGrant(q, _, _, _, _, _) => q == p
    case Advance(q) => q == p
    case Crash(q) => q == p
  }

  /** A step leaves alone every process it does not name. */
  lemma OthersAreSpared(c: Config, s: Step, p: nat)
    requires p in c.processes && !Names(s, p)
    ensures p in Apply(c, s).processes && Apply(c, s).processes[p] == c.processes[p]
  {}

  lemma OwnershipStays(c: Config, d: Config, p: nat, k: Key)
    requires Owns(c, p, k) && Moves(c, d) && p in d.processes && d.processes[p] == c.processes[p]
    ensures Owns(d, p, k)
  {
    assert k in d.records && Evolves(c.records[k], d.records[k]);
  }

  /** A step of anybody else leaves the owner where it is. */
  lemma OthersLeaveTheOwner(c: Config, s: Step, p: nat, k: Key)
    requires Inv(c) && Lawful(c, s) && Owns(c, p, k) && !Names(s, p)
    ensures Owns(Apply(c, s), p, k) && Apply(c, s).processes[p] == c.processes[p]
  {
    assert Moves(c, Apply(c, s)) by { StepKeepsInv(c, s); }
    OthersAreSpared(c, s, p);
    OwnershipStays(c, Apply(c, s), p, k);
  }

  /** Nobody restarts or crashes the process; it only takes its own steps. */
  predicate OnlyAdvances(steps: seq<Step>, p: nat) {
    forall i | 0 <= i < |steps| && Names(steps[i], p) :: steps[i] == Advance(p)
  }

  function Turns(steps: seq<Step>, p: nat): nat {
    if steps == [] then 0 else (if steps[0] == Advance(p) then 1 else 0) + Turns(steps[1..], p)
  }

  /** Four turns, however interleaved with everything else, complete a destruction its decision owns. */
  lemma {:induction false} OwnedDestructionCompletes(c: Config, steps: seq<Step>, p: nat, k: Key)
    requires Inv(c) && AllLawful(c, steps) && Owns(c, p, k) && OnlyAdvances(steps, p)
    ensures Owns(Exec(c, steps), p, k)
    ensures Stage(c.processes[p]) + Turns(steps, p) >= 4 ==> Exec(c, steps).processes[p].Done?
    decreases |steps|
  {
    if steps != [] {
      var s := steps[0];
      StepKeepsInv(c, s);
      assert OnlyAdvances(steps[1..], p);
      if Names(s, p) { OwnerAdvances(c, p, k); } else { OthersLeaveTheOwner(c, s, p, k); }
      OwnedDestructionCompletes(Apply(c, s), steps[1..], p, k);
    }
  }

  /** A finished destruction left a tombstone, no content, and no grant that could still be admitted. */
  lemma DoneMeansDestroyed(c: Config, p: nat)
    requires Inv(c) && GrantsInv(c) && p in c.processes && c.processes[p].Done?
    ensures var r := c.processes[p].record;
            && r.key in c.records && c.records[r.key] == r && r.state == Deleted && r.claim.Some?
            && r.content.reference !in c.objects
            && forall g | g in c.issued && g.key == r.key :: g.generation < r.generation
  {
    assert ProcessInv(c, c.processes[p]);
    assert RecordInv(c.processes[p].record, c.processes[p].record.key, c.objects);
  }

  /**
   Destruction resumes from every crash point: wherever an earlier process left a claimed artifact,
   a successor that adopts the owning decision and takes its turns, in any company, ends with the
   tombstone written under that decision, the content gone and every grant dead.
   */
  lemma DestructionResumes(c: Config, k: Key, p: nat, reason: string, now: Time, steps: seq<Step>)
    requires Inv(c) && GrantsInv(c) && k in c.records && c.records[k].claim.Some? && c.records[k].state != Deleted && now != 0
    requires var c1 := Apply(c, BeginConverge(p, k, reason, now));
             AllLawful(c1, steps) && OnlyAdvances(steps, p) && Turns(steps, p) >= 4
    ensures var d := Exec(Apply(c, BeginConverge(p, k, reason, now)), steps);
            && k in d.records && d.records[k].state == Deleted && d.records[k].claim == c.records[k].claim
            && c.records[k].content.reference !in d.objects
            && (forall g | g in d.issued && g.key == k :: g.generation < d.records[k].generation)
            && p in d.processes && d.processes[p] == Done(d.records[k])
  {
    hide Inv, GrantsInv, Exec, RecordInv, Owns, Apply, Moves;
    var c1 := Apply(c, BeginConverge(p, k, reason, now));
    AdoptionBegins(c, k, p, reason, now);
    StepKeepsInv(c, BeginConverge(p, k, reason, now));
    StepKeepsGrants(c, BeginConverge(p, k, reason, now));
    var d := Exec(c1, steps);
    OwnedDestructionCompletes(c1, steps, p, k);
    EveryRunKeepsInv(c1, steps);
    EveryRunKeepsGrants(c1, steps);
    DoneMeansDestroyed(d, p);
    OwnedRecord(c1, d, p, k);
  }

  /** A process that adopts the destruction of a claimed artifact owns it, before its first turn. */
  lemma AdoptionBegins(c: Config, k: Key, p: nat, reason: string, now: Time)
    requires Inv(c) && k in c.records && c.records[k].claim.Some? && c.records[k].state != Deleted && now != 0
    ensures var c1 := Apply(c, BeginConverge(p, k, reason, now));
            c1.records == c.records && Owns(c1, p, k) && Stage(c1.processes[p]) == 0
  {
    RecordOf(c, k);
    hide Inv;
  }

  lemma OwnedRecord(c: Config, d: Config, p: nat, k: Key)
    requires Moves(c, d) && k in c.records && c.records[k].claim.Some? && Owns(d, p, k) && d.processes[p].Done?
    ensures k in d.records && d.processes[p].record.key == k
    ensures d.records[k].claim == c.records[k].claim && d.records[k].content == c.records[k].content
  {
    assert Evolves(c.records[k], d.records[k]);
  }

  /** Two processes that finish destroying the same artifact, at any two moments, report the same tombstone. */
  lemma OneTombstone(c: Config, p: nat, steps: seq<Step>, q: nat)
    requires Inv(c) && p in c.processes && c.processes[p].Done? && AllLawful(c, steps)
    requires q in Exec(c, steps).processes && Exec(c, steps).processes[q].Done?
    requires Exec(c, steps).processes[q].record.key == c.processes[p].record.key
    ensures Exec(c, steps).processes[q].record == c.processes[p].record
  {
    var d := Exec(c, steps);
    EveryRunKeepsInv(c, steps);
    assert ProcessInv(c, c.processes[p]) && ProcessInv(d, d.processes[q]);
    var k := c.processes[p].record.key;
    assert Evolves(c.records[k], d.records[k]);
  }

  /** The process carries a destruction that has taken its claim. */
  predicate Carries(process: Process, k: Key) {
    match process
    case Revoking(claimed, _, _) => claimed.key == k
    case Removing(claimed, _, _) => claimed.key == k
    case Burying(claimed, _, _) => claimed.key == k
    case Done(record) => record.key == k
    case _ => false
  }

  /** The record as the process last wrote it. */
  function Carried(process: Process): Record
    requires process.Revoking? || process.Removing? || process.Burying? || process.Done?
  {
    match process
    case Revoking(claimed, _, _) => claimed
    case Removing(claimed, _, _) => claimed
    case Burying(claimed, _, _) => claimed
    case Done(record) => record
  }

  /**
   Destruction is exclusive: once a decision owns an artifact, every process that carries its
   destruction at any later moment carries it under that decision, and so does the tombstone.
   */
  lemma OnlyTheOwnerDestroys(c: Config, steps: seq<Step>, k: Key, q: nat)
    requires Inv(c) && AllLawful(c, steps) && k in c.records && c.records[k].claim.Some?
    ensures var d := Exec(c, steps);
            && k in d.records && d.records[k].claim == c.records[k].claim
            && (q in d.processes && Carries(d.processes[q], k) ==> Carried(d.processes[q]).claim == c.records[k].claim)
  {
    var d := Exec(c, steps);
    EveryRunKeepsInv(c, steps);
    assert Evolves(c.records[k], d.records[k]);
    if q in d.processes { assert ProcessInv(d, d.processes[q]); }
  }

  /** A process is about to claim the artifact for another decision than the one that owns it. */
  predicate Rivals(c: Config, p: nat, k: Key) {
    && p in c.processes && c.processes[p].Claiming? && c.processes[p].base.key == k
    && k in c.records && c.records[k].claim.Some? && c.records[k].claim != Some(c.processes[p].decision)
  }

  lemma RivalStays(c: Config, s: Step, p: nat, k: Key)
    requires Inv(c) && Lawful(c, s) && Rivals(c, p, k) && !Names(s, p)
    ensures Rivals(Apply(c, s), p, k)
  {
    assert Moves(c, Apply(c, s)) by { StepKeepsInv(c, s); }
    OthersAreSpared(c, s, p);
    assert Evolves(c.records[k], Apply(c, s).records[k]);
  }

  lemma {:induction false} StoppedStays(c: Config, steps: seq<Step>, p: nat)
    requires p !in c.processes && OnlyAdvances(steps, p)
    ensures p !in Exec(c, steps).processes
    decreases |steps|
  {
    if steps != [] {
      assert steps[0] == Advance(p) || !Names(steps[0], p);
      assert p !in Apply(c, steps[0]).processes;
      assert OnlyAdvances(steps[1..], p);
      StoppedStays(Apply(c, steps[0]), steps[1..], p);
    }
  }

  /**
   And a rival decision never gets anywhere: in any company, its process still stands before the claim
   until it takes a turn, and is gone from then on.
   */
  lemma {:induction false} RivalsNeverDestroy(c: Config, steps: seq<Step>, p: nat, k: Key)
    requires Inv(c) && AllLawful(c, steps) && Rivals(c, p, k) && OnlyAdvances(steps, p)
    ensures p in Exec(c, steps).processes <==> Turns(steps, p) == 0
    ensures Turns(steps, p) == 0 ==> Rivals(Exec(c, steps), p, k)
    decreases |steps|
  {
    if steps != [] {
      var s := steps[0];
      assert OnlyAdvances(steps[1..], p);
      if Names(s, p) {
        assert s == Advance(p) && p !in Apply(c, s).processes;
        StoppedStays(Apply(c, s), steps[1..], p);
      } else {
        StepKeepsInv(c, s);
        RivalStays(c, s, p, k);
        RivalsNeverDestroy(Apply(c, s), steps[1..], p, k);
      }
    }
  }

  // ---- Grants ----------------------------------------------------------------------------

  /** A grant is never ahead of its record, and strictly behind once access was withdrawn. */
  predicate GrantInv(rs: Records, g: Grant) {
    g.key in rs && g.generation <= rs[g.key].generation && (!rs[g.key].state.Live() ==> g.generation < rs[g.key].generation)
  }

  ghost predicate GrantsInv(c: Config) {
    && (forall g | g in c.issued :: GrantInv(c.records, g))
    && (forall p | p in c.processes && c.processes[p].Signing? :: GrantInv(c.records, c.processes[p].grant))
  }

  /** A grant is issued only by the process that was signing it. */
  lemma IssuedBySigning(c: Config, s: Step, g: Grant)
    requires g in Apply(c, s).issued && g !in c.issued
    ensures s.Advance? && s.p in c.processes && c.processes[s.p] == Signing(g)
  {}

  /** A process is signing only what it was already signing, or what it has just read as grantable. */
  lemma SigningWasRead(c: Config, s: Step, p: nat)
    requires p in Apply(c, s).processes && Apply(c, s).processes[p].Signing?
    ensures (p in c.processes && Apply(c, s).processes[p] == c.processes[p])
         || (s.BeginGrant? && s.key in c.records && Grantable(c.records[s.key], s.purpose, s.now)
             && Apply(c, s).processes[p].grant == GrantFrom(c.records[s.key], s.purpose, s.actor, s.expiresAt))
  {}

  lemma ReadIsCurrent(c: Config, k: Key, purpose: Purpose, actor: string, now: Time, expiresAt: Time)
    requires Inv(c) && k in c.records && Grantable(c.records[k], purpose, now)
    ensures GrantInv(c.records, GrantFrom(c.records[k], purpose, actor, expiresAt))
  {
    assert RecordInv(c.records[k], k, c.objects);
  }

  /** Whatever is granted after a step was granted, or about to be, before it. */
  ghost predicate GrantsFromBefore(c: Config, d: Config) {
    && (forall g | g in d.issued :: GrantInv(c.records, g))
    && (forall p | p in d.processes && d.processes[p].Signing? :: GrantInv(c.records, d.processes[p].grant))
  }

  lemma StepGrantsFromBefore(c: Config, s: Step)
    requires Inv(c) && GrantsInv(c)
    ensures GrantsFromBefore(c, Apply(c, s))
  {
    var d := Apply(c, s);
    forall g | g in d.issued ensures GrantInv(c.records, g) {
      if g !in c.issued { IssuedBySigning(c, s, g); }
    }
    forall p | p in d.processes && d.processes[p].Signing? ensures GrantInv(c.records, d.processes[p].grant) {
      SigningWasRead(c, s, p);
      if !(p in c.processes && d.processes[p] == c.processes[p]) {
        ReadIsCurrent(c, s.key, s.purpose, s.actor, s.now, s.expiresAt);
      }
    }
  }

  lemma GrantsStay(c: Config, d: Config)
    requires GrantsFromBefore(c, d) && Moves(c, d)
    ensures GrantsInv(d)
  {}

  lemma StepKeepsGrants(c: Config, s: Step)
    requires Inv(c) && GrantsInv(c) && Lawful(c, s)
    ensures GrantsInv(Apply(c, s))
  {
    assert Moves(c, Apply(c, s)) by { StepKeepsInv(c, s); }
    StepGrantsFromBefore(c, s);
    GrantsStay(c, Apply(c, s));
  }

  lemma {:induction false} EveryRunKeepsGrants(c: Config, steps: seq<Step>)
    requires Inv(c) && GrantsInv(c) && AllLawful(c, steps)
    ensures GrantsInv(Exec(c, steps))
    decreases |steps|
  {
    if steps != [] {
      StepKeepsInv(c, steps[0]);
      StepKeepsGrants(c, steps[0]);
      EveryRunKeepsGrants(Apply(c, steps[0]), steps[1..]);
    }
  }

  /**
   Stale grants die: a grant computed from a record read at one moment is never admitted at any
   moment after that record was quarantined, expired, claimed or destroyed, whatever the audit of
   issued grants says and whenever the grant itself was signed.
   */
  lemma StaleGrantsDie(c: Config, before: seq<Step>, after: seq<Step>, k: Key, purpose: Purpose, actor: string, expiresAt: Time,
                       readAt: Time, permitted: bool, verified: bool, now: Time)
    requires Inv(c) && AllLawful(c, before) && AllLawful(Exec(c, before), after)
    requires k in c.records && Grantable(c.records[k], purpose, readAt)
    requires k in Exec(c, before).records && !Exec(c, before).records[k].state.Live()
    ensures !Admits(Exec(Exec(c, before), after).records, GrantFrom(c.records[k], purpose, actor, expiresAt), actor, permitted, verified, now)
  {
    var mid := Exec(c, before);
    var end := Exec(mid, after);
    EveryRunKeepsInv(c, before);
    EveryRunKeepsInv(mid, after);
    assert c.records[k].key == k by { assert RecordInv(c.records[k], k, c.objects); }
    assert Evolves(c.records[k], mid.records[k]) && Evolves(mid.records[k], end.records[k]);
    hide Inv, Moves, Exec, AllLawful;
    WithdrawnIsBehind(c.records[k], mid.records[k], end.records[k], purpose, readAt);
  }

  /** Once access is withdrawn from a live record, its generation has passed the one it had, for good. */
  lemma WithdrawnIsBehind(a: Record, b: Record, d: Record, purpose: Purpose, at: Time)
    requires Grantable(a, purpose, at) && Evolves(a, b) && Evolves(b, d) && !b.state.Live()
    ensures a.generation < d.generation
  {}

  /** An admitted grant speaks of a live record whose access was never withdrawn since the grant was computed. */
  lemma AdmittedGrantIsCurrent(c: Config, steps: seq<Step>, g: Grant, actor: string, permitted: bool, verified: bool, now: Time)
    requires Inv(c) && AllLawful(c, steps) && g.key in c.records && g.generation == c.records[g.key].generation
    requires Admits(Exec(c, steps).records, g, actor, permitted, verified, now)
    ensures c.records[g.key].state.Live() && Exec(c, steps).records[g.key].state.Live()
    ensures Exec(c, steps).records[g.key].generation == c.records[g.key].generation && c.records[g.key].claim.None?
  {
    var d := Exec(c, steps);
    EveryRunKeepsInv(c, steps);
    assert Evolves(c.records[g.key], d.records[g.key]);
    assert RecordInv(d.records[g.key], g.key, d.objects);
  }

  // ---- Why callers may not ask for the tombstone -----------------------------------------

  const NOTHING := Config(map[], {}, {}, {}, map[])

  ghost predicate RecordsInv(c: Config) { forall k | k in c.records :: RecordInv(c.records[k], k, c.objects) }

  /** The transition itself and the write that follows it. */
  function TombstonedDirectly(c: Config, k: Key, p: nat, now: Time): Config
    requires k in c.records
  {
    Apply(Apply(c, BeginTransition(p, k, c.records[k].version, Deleted, now)), Advance(p))
  }

  lemma DirectTombstone(c: Config, k: Key, p: nat, now: Time)
    requires k in c.records && c.records[k].key == k && c.records[k].version > 0 && c.records[k].state in {Quarantined, Expired}
    ensures var r := c.records[k];
            TombstonedDirectly(c, k, p, now)
            == c.(records := c.records[k := r.(state := Deleted, version := r.version + 1, updatedAt := now)], processes := c.processes - {p})
  {
    var r := c.records[k];
    var n := r.(state := Deleted, version := r.version + 1, updatedAt := now);
    assert Apply(c, BeginTransition(p, k, r.version, Deleted, now)) == Begin(c, p, Writing(r, n, false));
  }

  /**
   A transition straight to the tombstone removes nothing and takes no claim: the records are sound
   after it if and only if the artifact was claimed before and its object already gone, and so is
   everything else when nobody is in the middle of something.
   */
  lemma DirectTombstoneIsSoundIff(c: Config, k: Key, p: nat, now: Time)
    requires Inv(c) && k in c.records && c.records[k].state in {Quarantined, Expired}
    ensures var r, d := c.records[k], TombstonedDirectly(c, k, p, now);
            && k in d.records && d.records[k].state == Deleted && d.records[k].hold == r.hold
            && (RecordsInv(d) <==> r.claim.Some? && r.content.reference !in c.objects)
            && (c.processes == map[] ==> (Inv(d) <==> r.claim.Some? && r.content.reference !in c.objects))
  {
    assert RecordInv(c.records[k], k, c.objects);
    DirectTombstone(c, k, p, now);
    var d := TombstonedDirectly(c, k, p, now);
    hide TombstonedDirectly, Apply;
    if RecordsInv(d) { assert RecordInv(d.records[k], k, d.objects); }
    forall j | j in d.records && j != k ensures RecordInv(d.records[j], j, d.objects) { assert RecordInv(c.records[j], j, c.objects); }
  }

  lemma HoldPlacedFirst(record: Record, p: nat, now: Time)
    requires FreshRecord(record) && now != 0
    ensures Exec(NOTHING, [Create(record), BeginHold(p, record.key, 1, true, now), Advance(p)])
            == Config(map[record.key := record.(hold := true, version := 2, updatedAt := now)], {record.content.reference}, {}, {}, map[])
  {
    var held := record.(hold := true, version := 2, updatedAt := now);
    var a, b, e := Create(record), BeginHold(p, record.key, 1, true, now), Advance(p);
    var c1 := Config(map[record.key := record], {record.content.reference}, {}, {}, map[]);
    assert Apply(NOTHING, a) == c1;
    var c2 := Begin(c1, p, Writing(record, held, false));
    assert Apply(c1, b) == c2;
    assert map[record.key := record][record.key := held] == map[record.key := held];
    var c3 := Config(map[record.key := held], {record.content.reference}, {}, {}, map[]);
    assert Apply(c2, e) == c3;
    hide Apply;
    assert [a, b, e][1..] == [b, e] && [b, e][1..] == [e] && [e][1..] == [];
    assert Exec(NOTHING, [a, b, e]) == Exec(c1, [b, e]) == Exec(c2, [e]) == Exec(c3, []);
  }

  /** So, from the empty store, a quarantined artifact under legal hold can be buried with its content in place. */
  lemma HeldTombstoneRun(record: Record, p: nat, now: Time)
    requires FreshRecord(record) && record.state == Quarantined && now != 0
    ensures var c := Exec(NOTHING, [Create(record), BeginHold(p, record.key, 1, true, now), Advance(p)]);
            && record.key in c.records
            && var d := TombstonedDirectly(c, record.key, p, now);
               && record.key in d.records && d.records[record.key].state == Deleted && d.records[record.key].hold
               && d.records[record.key].claim.None? && record.content.reference in d.objects && !Inv(d)
  {
    HoldPlacedFirst(record, p, now);
    var c := Exec(NOTHING, [Create(record), BeginHold(p, record.key, 1, true, now), Advance(p)]);
    DirectTombstone(c, record.key, p, now);
    var d := TombstonedDirectly(c, record.key, p, now);
    assert !RecordInv(d.records[record.key], record.key, d.objects);
  }
}
