/**
 Artifact custody records: the lifecycle, the compare-and-set store, and what
 each custody operation computes from the record it read.
 */
module Artifacts {
  import opened Wrappers

  type Time = int

  datatype Key = Key(workspace: string, project: string, id: string)
  datatype Reference = Reference(bucket: string, objectKey: string)

  datatype State = Pending | Scanning | Valid | Finalized | Committed | Quarantined | Expired | Deleted
  {
    /** The states in which an artifact may still be used. */
    predicate Live() { this in {Pending, Scanning, Valid, Finalized, Committed} }
  }

  datatype Purpose = Producer | Scanner | Review | Approval | Finalization | Commit | Read

  datatype Action = HoldPlaced | HoldLifted | Deletion | Expiry

  /** The identity of one decision: the action, the artifact, and the exact version it is about. */
  datatype Decision = Decision(action: Action, key: Key, version: nat)

  datatype Kind =
    | CompiledContext | TargetSnapshot | AgentPlan | WorkerResult | ValidationReport | CatalogSnapshot | PageCandidate
    | PagePreviewTask | PagePreviewResult | ComponentDesign | ComponentIntent | ComponentIR

  datatype Operation = PageChange | ComponentDesigning | ArtifactValidation | ImageOperation | ComponentPackage | Unrecognized

  /** What is fixed when the artifact is recorded and never changes. */
  datatype Content = Content(digest: string, actualDigest: string, kind: Kind, reference: Reference, createdAt: Time)

  datatype Record = Record(
    key: Key, content: Content, state: State, version: nat, generation: nat, hold: bool, updatedAt: Time,
    deletedAt: Option<Time>, deletionReason: string, claim: Option<Decision>, claimedAt: Option<Time>)

  datatype Claim = Claim(decision: Decision, terminal: State, at: Time)
  {
    predicate Valid() { (terminal == Quarantined || terminal == Expired) && at != 0 }
  }

  datatype Problem =
    | RequestInvalid | NotFound | VersionConflict | AccessDenied | InvalidTransition | IdempotencyConflict | NotFinalizable

  // ---- The store -------------------------------------------------------------------------

  type Records = map<Key, Record>

  function Update(rs: Records, next: Record, expected: nat): (Records, Result<Record, Problem>) {
    if next.key !in rs then (rs, Err(NotFound))
    else if rs[next.key].version != expected then (rs, Err(VersionConflict))
    else (rs[next.key := next], Ok(next))
  }

  function Claimed(value: Record, claim: Claim): Record {
    value.(state := claim.terminal, version := value.version + 1, generation := value.generation + 1,
           updatedAt := claim.at, claim := Some(claim.decision), claimedAt := Some(claim.at))
  }

  function ClaimDeletion(rs: Records, k: Key, expected: nat, claim: Claim): (Records, Result<Record, Problem>) {
    if !claim.Valid() then (rs, Err(RequestInvalid))
    else if k !in rs then (rs, Err(NotFound))
    else if rs[k].claim == Some(claim.decision) then (rs, Ok(rs[k]))
    else if rs[k].claim.Some? then (rs, Err(VersionConflict))
    else if rs[k].hold then (rs, Err(AccessDenied))
    else if expected == 0 || rs[k].version != expected then (rs, Err(VersionConflict))
    else (rs[k := Claimed(rs[k], claim)], Ok(Claimed(rs[k], claim)))
  }

  // ---- The lifecycle ---------------------------------------------------------------------

  predicate Allowed(current: State, next: State) {
    match current
    case Pending => next in {Scanning, Quarantined, Expired}
    case Scanning => next in {Valid, Quarantined, Expired}
    case Valid => next in {Finalized, Quarantined, Expired}
    case Finalized => next in {Committed, Quarantined, Expired}
    case Committed => next in {Quarantined, Expired}
    case Quarantined => next == Deleted
    case Expired => next == Deleted
    case Deleted => false
  }

  predicate Eligible(state: State, purpose: Purpose) {
    match purpose
    case Producer | Scanner => state == Pending || state == Scanning
    case Review | Approval | Read => state == Valid || state == Finalized || state == Committed
    case Finalization => state == Valid
    case Commit => state == Finalized
  }

  /** Where a state stands on the forward lifecycle, if it is on it. */
  function Rank(state: State): Option<nat> {
    match state
    case Pending => Some(0)
    case Scanning => Some(1)
    case Valid => Some(2)
    case Finalized => Some(3)
    case Committed => Some(4)
    case _ => None
  }

  /** Whether a run of this operation may finalize an artifact of this kind. */
  predicate FinalizableBy(operation: Operation, kind: Kind) {
    || kind in {CompiledContext, TargetSnapshot, WorkerResult, ValidationReport, AgentPlan}
    || (operation == PageChange && kind == PageCandidate)
    || (operation == ComponentDesigning && kind == ComponentDesign)
  }

  /** A transition withdraws access when it leaves for quarantine or expiry. */
  predicate Withdraws(value: Record, next: State) {
    (next == Quarantined && value.state != Quarantined) || next == Expired
  }

  function TransitionFrom(value: Record, expected: nat, next: State, now: Time): Result<Record, Problem> {
    if expected == 0 || value.version != expected then Err(VersionConflict)
    else if !Allowed(value.state, next) then Err(InvalidTransition)
    else if next == Expired && value.hold then Err(AccessDenied)
    else Ok(value.(state := next, version := value.version + 1, updatedAt := now,
                   generation := value.generation + if Withdraws(value, next) then 1 else 0))
  }

  /** None when an earlier attempt at this same decision already applied it. */
  function HoldFrom(value: Record, expected: nat, hold: bool, now: Time): Result<Option<Record>, Problem> {
    if now == 0 || expected == 0 then Err(RequestInvalid)
    else if value.claim.Some? then Err(AccessDenied)
    else if value.version != expected then
      if value.version != expected + 1 || value.hold != hold then Err(VersionConflict) else Ok(None)
    else Ok(Some(value.(hold := hold, version := value.version + 1, updatedAt := now)))
  }

  function ExpiryFrom(value: Record, now: Time): Record {
    value.(state := Expired, version := value.version + 1, generation := value.generation + 1, updatedAt := now)
  }

  function TerminalFor(value: Record): State { if value.state == Quarantined then Quarantined else Expired }

  function Tombstone(claimed: Record, reason: string, now: Time): Record {
    claimed.(state := Deleted, version := claimed.version + 1, generation := claimed.generation + 1,
             updatedAt := now, deletedAt := Some(now), deletionReason := reason)
  }

  // ---- Grants ----------------------------------------------------------------------------

  datatype Grant = Grant(key: Key, digest: string, generation: nat, purpose: Purpose, actor: string, expiresAt: Time)

  function GrantFrom(value: Record, purpose: Purpose, actor: string, expiresAt: Time): Grant {
    Grant(value.key, value.content.digest, value.generation, purpose, actor, expiresAt)
  }

  predicate Grantable(value: Record, purpose: Purpose, now: Time) {
    Eligible(value.state, purpose) && now >= value.content.createdAt
  }

  /** Whether a presented grant is admitted; `permitted` is current authority and `verified` the capability check. */
  predicate Admits(rs: Records, grant: Grant, actor: string, permitted: bool, verified: bool, now: Time) {
    && actor != "" && actor == grant.actor && now != 0 && now < grant.expiresAt && permitted
    && grant.key in rs
    && var value := rs[grant.key];
    && now >= value.content.createdAt && value.content.digest == grant.digest
    && value.generation == grant.generation && Eligible(value.state, grant.purpose)
    && verified
  }
}
