/**
 Where holds, claims and tombstones come from: whatever operations interleave, each
 is one that somebody asked for, and carries that request's reason and time.
 */
module ArtifactHistory {
  import opened Wrappers
  import opened Artifacts
  import opened ArtifactCustody
  import opened ArtifactRuns

  // ---- What the steps of a run tell ------------------------------------------------------

  ghost predicate HoldTold(done: seq<Step>, k: Key) { exists p, expected, now :: BeginHold(p, k, expected, true, now) in done }

  /** The decision to destroy: a deletion asked for at that version, or the sweep of an orphan. */
  ghost predicate DecisionTold(done: seq<Step>, k: Key, d: Decision, at: Time) {
    && d.action == Deletion && d.key == k
    && ((exists p, reason :: BeginDelete(p, k, d.version, reason, at) in done) || (exists p :: BeginOrphan(p, k, at) in done))
  }

  /** The end of an artifact: who asked for its destruction, or took it up, gave this reason at this time. */
  ghost predicate EndTold(done: seq<Step>, k: Key, reason: string, at: Time) {
    || (exists p, expected :: BeginDelete(p, k, expected, reason, at) in done)
    || (exists p :: BeginConverge(p, k, reason, at) in done)
    || (reason == ORPHANED && exists p :: BeginOrphan(p, k, at) in done)
  }

  ghost predicate RecordTold(done: seq<Step>, k: Key, r: Record) {
    && r.key == k && (exists record :: Create(record) in done && record.key == k && record.content == r.content)
    && (r.hold ==> HoldTold(done, k))
    && (r.claim.Some? ==> r.claimedAt.Some? && DecisionTold(done, k, r.claim.value, r.claimedAt.value))
    && (r.claim.None? ==> r.claimedAt.None?)
    && (r.state == Deleted ==> r.deletedAt.Some? && r.updatedAt == r.deletedAt.value && EndTold(done, k, r.deletionReason, r.deletedAt.value))
    && (r.state != Deleted ==> r.deletedAt.None?)
  }

  ghost predicate ProcessTold(done: seq<Step>, process: Process) {
    match process
    case Writing(base, next, _) => (next.hold ==> base.hold || HoldTold(done, base.key)) && next.claimedAt == base.claimedAt && next.deletedAt == base.deletedAt
    case Claiming(decision, base, reason, now) =>
      EndTold(done, base.key, reason, now) && (base.claim == Some(decision) || DecisionTold(done, base.key, decision, now))
    case Revoking(claimed, reason, now) => EndTold(done, claimed.key, reason, now)
    case Removing(claimed, reason, now) => EndTold(done, claimed.key, reason, now)
    case Burying(claimed, reason, now) => EndTold(done, claimed.key, reason, now)
    case _ => true
  }

  ghost predicate Told(c: Config, done: seq<Step>) {
    (forall k | k in c.records :: RecordTold(done, k, c.records[k])) && (forall p | p in c.processes :: ProcessTold(done, c.processes[p]))
  }

  // ---- What is told stays told -----------------------------------------------------------

  lemma InMore(done: seq<Step>, s: Step)
    ensures forall x :: x in done + [s] <==> x in done || x == s
  {}

  lemma HoldStays(done: seq<Step>, s: Step, k: Key)
    ensures HoldTold(done, k) ==> HoldTold(done + [s], k)
  {
    InMore(done, s);
  }

  lemma DecisionStays(done: seq<Step>, s: Step, k: Key, d: Decision, at: Time)
    ensures DecisionTold(done, k, d, at) ==> DecisionTold(done + [s], k, d, at)
  {
    InMore(done, s);
  }

  lemma EndStays(done: seq<Step>, s: Step, k: Key, reason: string, at: Time)
    ensures EndTold(done, k, reason, at) ==> EndTold(done + [s], k, reason, at)
  {
    InMore(done, s);
  }

  lemma RecordStays(done: seq<Step>, s: Step, k: Key, r: Record)
    requires RecordTold(done, k, r)
    ensures RecordTold(done + [s], k, r)
  {
    InMore(done, s);
    hide HoldTold, DecisionTold, EndTold;
    HoldStays(done, s, k);
    if r.claim.Some? { DecisionStays(done, s, k, r.claim.value, r.claimedAt.value); }
    if r.state == Deleted { EndStays(done, s, k, r.deletionReason, r.deletedAt.value); }
  }

  lemma ProcessStays(done: seq<Step>, s: Step, process: Process)
    requires ProcessTold(done, process)
    ensures ProcessTold(done + [s], process)
  {
    hide HoldTold, DecisionTold, EndTold;
    match process
    case Writing(base, _, _) => HoldStays(done, s, base.key);
    case Claiming(decision, base, reason, now) => EndStays(done, s, base.key, reason, now); DecisionStays(done, s, base.key, decision, now);
    case Revoking(claimed, reason, now) => EndStays(done, s, claimed.key, reason, now);
    case Removing(claimed, reason, now) => EndStays(done, s, claimed.key, reason, now);
    case Burying(claimed, reason, now) => EndStays(done, s, claimed.key, reason, now);
    case _ =>
  }

  /** Whatever a step leaves as it was is told as before, and what it writes is told on its own. */
  lemma ByParts(c: Config, d: Config, done: seq<Step>, s: Step)
    requires Told(c, done)
    requires forall k | k in d.records :: (k in c.records && d.records[k] == c.records[k]) || RecordTold(done + [s], k, d.records[k])
    requires forall p | p in d.processes :: (p in c.processes && d.processes[p] == c.processes[p]) || ProcessTold(done + [s], d.processes[p])
    ensures Told(d, done + [s])
  {
    hide RecordTold, ProcessTold;
    forall k | k in d.records ensures RecordTold(done + [s], k, d.records[k]) {
      if k in c.records && d.records[k] == c.records[k] { RecordStays(done, s, k, c.records[k]); }
    }
    forall p | p in d.processes ensures ProcessTold(done + [s], d.processes[p]) {
      if p in c.processes && d.processes[p] == c.processes[p] { ProcessStays(done, s, c.processes[p]); }
    }
  }

  lemma RecordIsTold(c: Config, done: seq<Step>, k: Key)
    requires Told(c, done) && k in c.records
    ensures RecordTold(done, k, c.records[k])
  {}

  lemma ProcessIsTold(c: Config, done: seq<Step>, p: nat)
    requires Told(c, done) && p in c.processes
    ensures ProcessTold(done, c.processes[p])
  {}

  // ---- One step more ---------------------------------------------------------------------

  lemma WrittenIsTold(done: seq<Step>, k: Key, base: Record, next: Record, revoke: bool)
    requires RecordTold(done, k, base) && ProcessTold(done, Writing(base, next, revoke)) && Evolves(base, next)
    requires base.claim.None? && next.claim.None? && base.state != Deleted && next.state != Deleted
    ensures RecordTold(done, k, next)
  {
    hide HoldTold, DecisionTold, EndTold;
  }

  lemma ClaimIsTold(done: seq<Step>, k: Key, r: Record, d: Decision, terminal: State, now: Time)
    requires RecordTold(done, k, r) && DecisionTold(done, k, d, now) && r.state != Deleted && terminal != Deleted && !r.hold
    ensures RecordTold(done, k, Claimed(r, Claim(d, terminal, now)))
  {
    hide HoldTold, DecisionTold, EndTold;
  }

  lemma TombstoneIsTold(done: seq<Step>, k: Key, claimed: Record, reason: string, now: Time)
    requires RecordTold(done, k, claimed) && EndTold(done, k, reason, now)
    ensures RecordTold(done, k, Tombstone(claimed, reason, now))
  {
    hide HoldTold, DecisionTold, EndTold;
  }

  lemma WriteIsTold(c: Config, done: seq<Step>, p: nat)
    requires Inv(c) && Told(c, done) && p in c.processes && c.processes[p].Writing?
    ensures Told(AdvanceProcess(c, p), done + [Advance(p)])
  {
    var s, d := Advance(p), AdvanceProcess(c, p);
    var Writing(base, next, revoke) := c.processes[p];
    ProcessOf(c, p);
    ProcessIsTold(c, done, p);
    RecordIsTold(c, done, base.key);
    hide Inv, Told, RecordTold, HoldTold;
    ProcessStays(done, s, c.processes[p]);
    if !revoke && c.records[base.key].version == base.version {
      RecordStays(done, s, base.key, base);
      WrittenIsTold(done + [s], base.key, base, next, revoke);
    }
    ByParts(c, d, done, s);
  }

  /** What a claiming process writes, and where it goes. */
  lemma ClaimEffect(c: Config, p: nat)
    requires Inv(c) && p in c.processes && c.processes[p].Claiming?
    ensures var d := AdvanceProcess(c, p); var Claiming(decision, base, reason, now) := c.processes[p]; var k := base.key;
            && k in c.records
            && (d.records == c.records || (c.records[k].claim.None? && base.claim.None? && !c.records[k].hold && c.records[k].state != Deleted
                                           && d.records == c.records[k := Claimed(c.records[k], Claim(decision, TerminalFor(base), now))]))
            && (forall q | q in d.processes && q != p :: q in c.processes && d.processes[q] == c.processes[q])
            && (p in d.processes ==> match d.processes[p]
                                     case Revoking(claimed, r, n) => claimed.key == k && r == reason && n == now
                                     case Done(_) => true
                                     case _ => false)
  {
    hide Inv, ProcessInv, RecordInv, Evolves;
    ClaimerReads(c, p);
  }

  lemma ClaimerReads(c: Config, p: nat)
    requires Inv(c) && p in c.processes && c.processes[p].Claiming?
    ensures var k := c.processes[p].base.key;
            k in c.records && c.records[k].key == k && (c.records[k].claim.None? ==> c.processes[p].base.claim.None? && c.records[k].state != Deleted)
  {
    ProcessOf(c, p);
    RecordOf(c, c.processes[p].base.key);
    hide Inv;
  }

  lemma ClaimStepIsTold(c: Config, done: seq<Step>, p: nat)
    requires Inv(c) && Told(c, done) && p in c.processes && c.processes[p].Claiming?
    ensures Told(AdvanceProcess(c, p), done + [Advance(p)])
  {
    hide Inv, Told, RecordTold, DecisionTold, EndTold, AdvanceProcess, Claimed;
    var s, d := Advance(p), AdvanceProcess(c, p);
    var Claiming(decision, base, reason, now) := c.processes[p];
    var k := base.key;
    ClaimEffect(c, p);
    ProcessIsTold(c, done, p);
    RecordIsTold(c, done, k);
    ProcessStays(done, s, c.processes[p]);
    RecordStays(done, s, k, c.records[k]);
    if d.records != c.records { ClaimIsTold(done + [s], k, c.records[k], decision, TerminalFor(base), now); }
    ByParts(c, d, done, s);
  }

  /** What a burying process writes, and where it goes. */
  lemma BurialEffect(c: Config, p: nat)
    requires Inv(c) && p in c.processes && c.processes[p].Burying?
    ensures var d := AdvanceProcess(c, p); var Burying(claimed, reason, now) := c.processes[p]; var k := claimed.key;
            && k in c.records
            && (d.records == c.records || (c.records[k] == claimed && d.records == c.records[k := Tombstone(claimed, reason, now)]))
            && (forall q | q in d.processes && q != p :: q in c.processes && d.processes[q] == c.processes[q])
            && (p in d.processes ==> d.processes[p].Done?)
  {
    ProcessOf(c, p);
    hide Inv;
  }

  lemma BurialStepIsTold(c: Config, done: seq<Step>, p: nat)
    requires Inv(c) && Told(c, done) && p in c.processes && c.processes[p].Burying?
    ensures Told(AdvanceProcess(c, p), done + [Advance(p)])
  {
    hide Inv, Told, RecordTold, EndTold, AdvanceProcess, Tombstone;
    var s, d := Advance(p), AdvanceProcess(c, p);
    var Burying(claimed, reason, now) := c.processes[p];
    var k := claimed.key;
    BurialEffect(c, p);
    ProcessIsTold(c, done, p);
    RecordIsTold(c, done, k);
    ProcessStays(done, s, c.processes[p]);
    RecordStays(done, s, k, c.records[k]);
    if d.records != c.records { TombstoneIsTold(done + [s], k, claimed, reason, now); }
    ByParts(c, d, done, s);
  }

  lemma AdvanceIsTold(c: Config, done: seq<Step>, p: nat)
    requires Inv(c) && Told(c, done) && p in c.processes
    ensures Told(AdvanceProcess(c, p), done + [Advance(p)])
  {
    hide Inv, Told;
    match c.processes[p]
    case Writing(_, _, _) => WriteIsTold(c, done, p);
    case Claiming(_, _, _, _) => ClaimStepIsTold(c, done, p);
    case Burying(_, _, _) => BurialStepIsTold(c, done, p);
    case _ => OtherAdvanceIsTold(c, done, p);
  }

  lemma OtherAdvanceIsTold(c: Config, done: seq<Step>, p: nat)
    requires Told(c, done) && p in c.processes && !c.processes[p].Writing? && !c.processes[p].Claiming? && !c.processes[p].Burying?
    ensures Told(AdvanceProcess(c, p), done + [Advance(p)])
  {
    hide Told, RecordTold, EndTold;
    ProcessIsTold(c, done, p);
    ProcessStays(done, Advance(p), c.processes[p]);
    ByParts(c, AdvanceProcess(c, p), done, Advance(p));
  }

  lemma CreatedIsTold(done: seq<Step>, record: Record)
    requires FreshRecord(record) && Create(record) in done
    ensures RecordTold(done, record.key, record)
  {}

  lemma HoldProcessIsTold(done: seq<Step>, value: Record, p: nat, expected: nat, hold: bool, now: Time)
    requires BeginHold(p, value.key, expected, hold, now) in done
    ensures match HoldFrom(value, expected, hold, now)
            case Ok(Some(n)) => ProcessTold(done, Writing(value, n, false))
            case _ => true
  {}

  lemma TransitionProcessIsTold(done: seq<Step>, value: Record, expected: nat, next: State, now: Time, revoke: bool)
    ensures var n := TransitionFrom(value, expected, next, now); n.Ok? ==> ProcessTold(done, Writing(value, n.value, revoke))
  {}

  /** A step that only begins a process. */
  lemma BeginIsTold(c: Config, done: seq<Step>, s: Step)
    requires Told(c, done) && !s.Create? && !s.Advance? && (forall k | k in c.records :: c.records[k].key == k)
    ensures Told(Apply(c, s), done + [s])
  {
    hide Told, RecordTold, HoldFrom, TransitionFrom, Grantable;
    var d := Apply(c, s);
    InMore(done, s);
    match s
    case BeginHold(p, k, expected, hold, now) =>
      hide ProcessTold;
      if k in c.records { HoldProcessIsTold(done + [s], c.records[k], p, expected, hold, now); }
      ByParts(c, d, done, s);
    case BeginTransition(_, k, expected, next, now) =>
      hide ProcessTold;
      if k in c.records { TransitionProcessIsTold(done + [s], c.records[k], expected, next, now, Withdraws(c.records[k], next)); }
      ByParts(c, d, done, s);
    case _ =>
      hide HoldTold, Withdraws;
      ByParts(c, d, done, s);
  }

  lemma KeyedByThemselves(c: Config)
    requires Inv(c)
    ensures forall k | k in c.records :: c.records[k].key == k
  {
    forall k | k in c.records ensures c.records[k].key == k { RecordOf(c, k); }
  }

  lemma StepIsTold(c: Config, done: seq<Step>, s: Step)
    requires Inv(c) && Told(c, done) && Lawful(c, s)
    ensures Told(Apply(c, s), done + [s])
  {
    hide Inv, Told, AdvanceProcess, RecordTold, FreshRecord, OwnObject;
    KeyedByThemselves(c);
    match s
    case Create(record) =>
      assert s in done + [s];
      CreatedIsTold(done + [s], record);
      ByParts(c, Apply(c, s), done, s);
    case Advance(p) => if p in c.processes { AdvanceIsTold(c, done, p); } else { ByParts(c, Apply(c, s), done, s); }
    case _ => BeginIsTold(c, done, s);
  }

  lemma {:induction false} RunIsTold(c: Config, done: seq<Step>, steps: seq<Step>)
    requires Inv(c) && Told(c, done) && AllLawful(c, steps)
    ensures Told(Exec(c, steps), done + steps)
    decreases |steps|
  {
    hide Inv, Told, Apply, Lawful;
    if steps == [] {
      assert done + steps == done;
    } else {
      StepIsTold(c, done, steps[0]);
      StepKeepsInv(c, steps[0]);
      RunIsTold(Apply(c, steps[0]), done + [steps[0]], steps[1..]);
      assert done + [steps[0]] + steps[1..] == done + steps;
    }
  }

  /**
   From the empty store on, nothing is held, claimed or destroyed that nobody asked for: a hold was
   placed by a request, a claim is the decision of one deletion or orphan sweep and of its time, and a
   tombstone carries the reason and time of the request that destroyed the artifact or took that over.
   */
  lemma EveryRecordIsTold(steps: seq<Step>, k: Key)
    requires AllLawful(NOTHING, steps) && k in Exec(NOTHING, steps).records
    ensures RecordTold(steps, k, Exec(NOTHING, steps).records[k])
  {
    assert Inv(NOTHING) && Told(NOTHING, []);
    hide Inv, Exec, RecordTold, AllLawful, ProcessTold;
    RunIsTold(NOTHING, [], steps);
    assert [] + steps == steps;
  }

  // ---- What a process left alone comes to ------------------------------------------------

  /** A sweep of an elapsed or orphaned live artifact, left alone, ends its access and expires it. */
  lemma ExpiryExpires(c: Config, k: Key, p: nat, orphaned: bool, now: Time)
    requires k in c.records && c.records[k].key == k && c.records[k].state.Live() && (orphaned || (c.records[k].state == Pending && !c.records[k].hold))
    ensures var r := c.records[k];
            var d := Apply(Apply(Apply(c, BeginExpiry(p, k, orphaned, now)), Advance(p)), Advance(p));
            && k in d.records && d.records[k].state == Expired && d.records[k].generation == r.generation + 1 && d.records[k].version == r.version + 1
            && d.records[k].updatedAt == now && d.records[k].hold == r.hold && p !in d.processes
            && forall g | g in c.issued && g.key == k :: g in d.revoked
  {
    var n := ExpiryFrom(c.records[k], now);
    assert Apply(c, BeginExpiry(p, k, orphaned, now)) == Begin(c, p, Writing(c.records[k], n, true));
  }

  /** A sweep expires a record exactly when its object is gone while it is live, or it has been pending for too long and is not held. */
  lemma ExpiryBegins(c: Config, k: Key, p: nat, orphaned: bool, now: Time)
    requires k in c.records && p !in c.processes
    ensures var r, d := c.records[k], Apply(c, BeginExpiry(p, k, orphaned, now));
            && d.records == c.records
            && (p in d.processes <==>
                  if orphaned then r.state in {Pending, Scanning, Valid, Finalized, Committed} else r.state == Pending && !r.hold)
  {}

  /** A deletion begins exactly for what is not destroyed, claimed or held, at the version it expects. */
  lemma DeletionBegins(c: Config, k: Key, p: nat, expected: nat, reason: string, now: Time)
    requires k in c.records && p !in c.processes
    ensures var r, d := c.records[k], Apply(c, BeginDelete(p, k, expected, reason, now));
            && d.records == c.records
            && (p in d.processes <==> r.state != Deleted && r.claim == None && !r.hold && r.version == expected && expected >= 1)
            && (p in d.processes ==> d.processes[p] == Claiming(Decision(Deletion, k, expected), r, reason, now))
  {}

  /** A record as the claim of its destruction leaves it: what was quarantined stays so, anything else expires. */
  predicate TakenFor(r: Record, n: Record, d: Decision, now: Time) {
    && n.key == r.key && n.content == r.content && n.hold == r.hold && n.deletedAt == r.deletedAt && n.deletionReason == r.deletionReason
    && (r.state == Quarantined ==> n.state == Quarantined) && (r.state != Quarantined ==> n.state == Expired)
    && n.version == r.version + 1 && n.generation == r.generation + 1 && n.claim == Some(d) && n.claimedAt == Some(now) && n.updatedAt == now
  }

  /** A deletion, left alone, claims the artifact it read under the decision about that version. */
  lemma DeletionClaims(c: Config, k: Key, p: nat, expected: nat, reason: string, now: Time)
    requires k in c.records && c.records[k].key == k && c.records[k].state != Deleted && c.records[k].claim.None? && !c.records[k].hold
    requires expected == c.records[k].version && expected != 0 && now != 0
    ensures var d := Apply(Apply(c, BeginDelete(p, k, expected, reason, now)), Advance(p));
            && d.records.Keys == c.records.Keys && TakenFor(c.records[k], d.records[k], Decision(Deletion, k, expected), now)
            && p in d.processes && d.processes[p] == Revoking(d.records[k], reason, now)
  {}

  /** The sweep of an orphan takes up exactly what is quarantined or expired, under the decision that owns it already if one does. */
  lemma OrphanIsTaken(c: Config, k: Key, p: nat, now: Time)
    requires k in c.records && c.records[k].key == k && !c.records[k].hold && c.records[k].version != 0 && now != 0
    ensures var r, d := c.records[k], Apply(Apply(c, BeginOrphan(p, k, now)), Advance(p));
            && (r.state != Quarantined && r.state != Expired && p !in c.processes ==> d == c)
            && (r.state == Quarantined || r.state == Expired ==>
                  && p in d.processes && d.processes[p] == Revoking(d.records[k], ORPHANED, now)
                  && if r.claim.Some? then d.records == c.records else TakenFor(r, d.records[k], Decision(Deletion, k, r.version), now))
  {}

  /** A grant whose process is left alone is issued, with just what was read. */
  lemma GrantIsIssued(c: Config, k: Key, p: nat, purpose: Purpose, actor: string, now: Time, expiresAt: Time)
    requires k in c.records && Grantable(c.records[k], purpose, now)
    ensures var d := Apply(Apply(c, BeginGrant(p, k, purpose, actor, now, expiresAt)), Advance(p));
            d.issued == c.issued + {GrantFrom(c.records[k], purpose, actor, expiresAt)} && d.records == c.records && p !in d.processes
  {}
}
