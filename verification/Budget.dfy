/**
 The budget ledger: reservations held against a root run's headroom, additive
 deduplicated usage, fences, and compare-and-set settlement. Amounts are 64-bit
 signed micros, so every sum below is also a proof that it does not overflow.
 */
module Budget {
  import opened Wrappers
  import opened MapSums

  type Time = int

  const MAX_MICROS: int := 0x7fff_ffff_ffff_ffff

  newtype Micros = x: int | -0x8000_0000_0000_0000 <= x <= 0x7fff_ffff_ffff_ffff

  datatype Scope = Scope(workspace: string, project: string)
  {
    predicate Valid() { workspace != "" && project != "" }
  }

  /** Two tenants may use one reservation identity: it names a different hold under each scope. */
  datatype Key = Key(scope: Scope, id: string)

  datatype ObservationId = Usage(raw: string) | Expiry(reservation: string) | Cancellation(reservation: string) | Conclusion(reservation: string)

  datatype ObservationKey = ObservationKey(scope: Scope, id: ObservationId)

  datatype TaskName = Task(name: string) | ExpiryFence | CancellationFence

  datatype AttemptName = Attempt(name: string) | Recorded(id: ObservationId)

  datatype Estimate = Estimate(
    id: string, root: string, run: string, scope: Scope, policyVersion: string, budgetVersion: string, maximumCost: Micros, expiresAt: Time)
  {
    function Identity(): Key { Key(scope, id) }
  }

  datatype Reservation = Reservation(
    key: Key, root: string, run: string, policyVersion: string, budgetVersion: string, upper: Micros, observed: Micros,
    generation: nat, attemptFinal: bool, released: bool, expired: bool, cancelled: bool, expiresAt: Time)
  {
    predicate In(scope: Scope, root: string) { key.scope == scope && this.root == root }

    /** The hold may no longer authorize a dispatch. */
    predicate Fenced() { expired || cancelled || released }
  }

  datatype Observation = Observation(
    id: ObservationId, scope: Scope, reservation: string, root: string, run: string, task: TaskName, attempt: AttemptName,
    recoveryEpoch: nat, executionGeneration: nat, sequence: nat, cost: Micros, final: bool)
  {
    function Identity(): ObservationKey { ObservationKey(scope, id) }
    function For(): Key { Key(scope, reservation) }
  }

  datatype Settlement = Settlement(
    key: Key, generation: nat, finalCost: Micros, expectedObserved: Micros, expectedFinal: bool, release: bool)

  datatype Problem =
    | Invalid | IdempotencyConflict | FencedHold | NoHeadroom | TotalInvalid | NotFound | Mismatch | Exceeds | SettlementFence
    | Immutable | Conflict(observed: Micros, attemptFinal: bool) | Inconsistent | Unauthorized | NotFinal | SupersededCost | Overflowed

  datatype Ledger = Ledger(values: map<Key, Reservation>, observations: map<ObservationKey, Observation>)

  const EMPTY := Ledger(map[], map[])

  function AddMicros(left: Micros, right: Micros): (sum: Option<Micros>)
    ensures left >= 0 && right >= 0 ==> (sum.Some? <==> left as int + right as int <= MAX_MICROS)
    ensures sum.Some? ==> sum.value as int == left as int + right as int
  {
    if left < 0 || right < 0 || right > 0x7fff_ffff_ffff_ffff - left then None else Some(left + right)
  }

  // ---- Sums ------------------------------------------------------------------------------

  function HeldWeight(scope: Scope, root: string): Reservation -> int {
    (r: Reservation) => if r.In(scope, root) && !r.released then r.upper as int else 0
  }

  /** The worst-case cost one tenant's root run still holds. */
  ghost function Held(s: Ledger, scope: Scope, root: string): int { Total(s.values, HeldWeight(scope, root)) }

  /** What a reservation counts for in the root total: actual cost once final, worst case until then. */
  function Charge(r: Reservation): Micros { if r.attemptFinal then r.observed else r.upper }

  function ChargeWeight(scope: Scope, root: string): Reservation -> int {
    (r: Reservation) => if r.In(scope, root) then Charge(r) as int else 0
  }

  ghost function RootTotal(s: Ledger, scope: Scope, root: string): int { Total(s.values, ChargeWeight(scope, root)) }

  function CostWeight(k: Key): Observation -> int { (o: Observation) => if o.For() == k then o.cost as int else 0 }

  /** The cost of every usage observation recorded for one reservation. */
  ghost function RecordedCost(s: Ledger, k: Key): int { Total(s.observations, CostWeight(k)) }

  // ---- Fences ----------------------------------------------------------------------------

  predicate Elapsed(r: Reservation, scope: Scope, root: string, now: Time) {
    now != 0 && r.In(scope, root) && !r.released && !r.expired && now >= r.expiresAt
  }

  function FenceRecord(r: Reservation, id: ObservationId, task: TaskName): Observation {
    Observation(id, r.key.scope, r.key.id, r.root, r.run, task, Recorded(id), 0, r.generation, 0, 0, false)
  }

  /** A fence's record is written once; whatever already stands under its identity stays. */
  function Note(observations: map<ObservationKey, Observation>, o: Observation): map<ObservationKey, Observation> {
    if o.Identity() in observations then observations else observations[o.Identity() := o]
  }

  function ExpiryOf(r: Reservation): Observation { FenceRecord(r, Expiry(r.key.id), ExpiryFence) }

  predicate NewlyFenced(s: Ledger, k: Key, scope: Scope, root: string, now: Time) {
    k in s.values && Elapsed(s.values[k], scope, root, now) && ObservationKey(k.scope, Expiry(k.id)) !in s.observations
  }

  function ExpiryRecords(s: Ledger, visited: set<Key>, scope: Scope, root: string, now: Time): map<ObservationKey, Observation> {
    map k | k in visited && NewlyFenced(s, k, scope, root, now) :: ObservationKey(k.scope, Expiry(k.id)) := ExpiryOf(s.values[k])
  }

  /** The ledger once a fencing pass has visited some of its holds. */
  function FencedAmong(s: Ledger, visited: set<Key>, scope: Scope, root: string, now: Time): Ledger {
    Ledger(
      map k | k in s.values :: if k in visited && Elapsed(s.values[k], scope, root, now) then s.values[k].(expired := true) else s.values[k],
      s.observations + ExpiryRecords(s, visited, scope, root, now))
  }

  /** Every elapsed, unreleased hold of one root aggregate is fenced. */
  function FenceExpired(s: Ledger, scope: Scope, root: string, now: Time): Ledger { FencedAmong(s, s.values.Keys, scope, root, now) }

  function FenceCancelled(s: Ledger, k: Key, now: Time): (Ledger, Result<Reservation, Problem>) {
    if !k.scope.Valid() || k.id == "" || now == 0 then (s, Err(Invalid))
    else if k !in s.values then (s, Err(NotFound))
    else if s.values[k].cancelled || s.values[k].released then (s, Ok(s.values[k]))
    else
      var r := s.values[k].(cancelled := true);
      (Ledger(s.values[k := r], Note(s.observations, FenceRecord(r, Cancellation(k.id), CancellationFence))), Ok(r))
  }

  // ---- Reservation -----------------------------------------------------------------------

  predicate SameBinding(r: Reservation, e: Estimate, generation: nat) {
    && r.root == e.root && r.run == e.run && r.policyVersion == e.policyVersion && r.budgetVersion == e.budgetVersion
    && r.generation == generation && r.upper == e.maximumCost
  }

  function NewHold(e: Estimate, generation: nat): Reservation {
    Reservation(e.Identity(), e.root, e.run, e.policyVersion, e.budgetVersion, e.maximumCost, 0, generation, false, false, false, false, e.expiresAt)
  }

  /** What a reservation decides over a ledger whose elapsed holds are already fenced. */
  ghost function Decided(f: Ledger, e: Estimate, generation: nat, maximum: Micros): (Ledger, Result<Reservation, Problem>) {
    if e.Identity() in f.values then
      var prior := f.values[e.Identity()];
      (f, if !SameBinding(prior, e, generation) then Err(IdempotencyConflict) else if prior.Fenced() then Err(FencedHold) else Ok(prior))
    else if Held(f, e.scope, e.root) > MAX_MICROS then (f, Err(TotalInvalid))
    else if Held(f, e.scope, e.root) + e.maximumCost as int > maximum as int then (f, Err(NoHeadroom))
    else (f.(values := f.values[e.Identity() := NewHold(e, generation)]), Ok(NewHold(e, generation)))
  }

  ghost function Reserve(s: Ledger, e: Estimate, generation: nat, maximum: Micros, now: Time): (Ledger, Result<Reservation, Problem>) {
    if e.id == "" || !e.scope.Valid() || e.maximumCost < 1 || maximum < 1 then (s, Err(Invalid))
    else Decided(FenceExpired(s, e.scope, e.root, now), e, generation, maximum)
  }

  // ---- Usage and settlement --------------------------------------------------------------

  function Observe(s: Ledger, o: Observation): (Ledger, Result<(), Problem>) {
    if !o.scope.Valid() || o.cost < 0 then (s, Err(Invalid))
    else if o.Identity() in s.observations then (s, if s.observations[o.Identity()] != o then Err(IdempotencyConflict) else Ok(()))
    else if o.For() !in s.values || s.values[o.For()].root != o.root then (s, Err(Mismatch))
    else
      var r := s.values[o.For()];
      if r.released || o.cost as int > r.upper as int - r.observed as int || r.observed as int + o.cost as int > MAX_MICROS then (s, Err(Exceeds))
      else
        var next := r.(observed := r.observed + o.cost, attemptFinal := r.attemptFinal || o.final);
        (Ledger(s.values[o.For() := next], s.observations[o.Identity() := o]), Ok(()))
  }

  predicate Converged(r: Reservation, v: Settlement) { r.observed == v.finalCost && r.upper == v.finalCost && r.released == v.release }

  function Settle(s: Ledger, v: Settlement): (Ledger, Result<Reservation, Problem>) {
    if !v.key.scope.Valid() then (s, Err(Invalid))
    else if v.key !in s.values then (s, Err(NotFound))
    else
      var r := s.values[v.key];
      if r.generation != v.generation || !r.attemptFinal then (s, Err(SettlementFence))
      else if Converged(r, v) then (s, Ok(r))
      else if r.released then (s, Err(Immutable))
      else if r.observed != v.expectedObserved || r.attemptFinal != v.expectedFinal then (s, Err(Conflict(r.observed, r.attemptFinal)))
      else if v.finalCost < r.observed || v.finalCost > r.upper then (s, Err(Inconsistent))
      else
        var next := r.(observed := v.finalCost, upper := v.finalCost, released := v.release);
        (s.(values := s.values[v.key := next]), Ok(next))
  }

  /** Whether a dispatch under this reservation is admitted; `current` is the active generation of its root run. */
  predicate Dispatches(s: Ledger, k: Key, generation: nat, current: Option<nat>, now: Time) {
    && k.scope.Valid() && k in s.values && !s.values[k].Fenced() && s.values[k].generation == generation
    && now != 0 && now < s.values[k].expiresAt && current == Some(generation)
  }

  // ---- The invariant ---------------------------------------------------------------------

  predicate HoldInv(k: Key, r: Reservation) {
    && r.key == k && 0 <= r.observed <= r.upper
    && (r.released ==> r.attemptFinal && r.upper == r.observed)
  }

  /** The fences a hold carries are on the record. */
  predicate FencesRecorded(s: Ledger, k: Key)
    requires k in s.values
  {
    && (s.values[k].expired ==> ObservationKey(k.scope, Expiry(k.id)) in s.observations)
    && (s.values[k].cancelled ==> ObservationKey(k.scope, Cancellation(k.id)) in s.observations)
  }

  predicate ObservationInv(s: Ledger, i: ObservationKey, o: Observation) {
    && o.Identity() == i && o.cost >= 0
    && o.For() in s.values && (o.final ==> s.values[o.For()].attemptFinal)
  }

  ghost predicate Inv(s: Ledger) {
    && (forall k | k in s.values :: HoldInv(k, s.values[k]))
    && (forall k | k in s.values :: FencesRecorded(s, k))
    && (forall i | i in s.observations :: ObservationInv(s, i, s.observations[i]))
    && (forall k | k in s.values :: RecordedCost(s, k) <= s.values[k].observed as int)
  }

  /** No tenant's root run holds more than the bound. */
  ghost predicate Headroom(s: Ledger, bound: int) { forall scope, root :: Held(s, scope, root) <= bound }
}
