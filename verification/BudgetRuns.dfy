/** What the ledger promises over every sequence of its operations. */
module BudgetRuns {
  import opened Wrappers
  import opened MapSums
  import opened Budget

  datatype Op =
    | Reserving(estimate: Estimate, generation: nat, maximum: Micros, now: Time)
    | FencingExpired(scope: Scope, root: string, now: Time)
    | FencingCancelled(key: Key, now: Time)
    | Observing(observation: Observation)
    | Settling(settlement: Settlement)

  ghost function Apply(s: Ledger, op: Op): Ledger {
    match op
    case Reserving(e, generation, maximum, now) => Reserve(s, e, generation, maximum, now).0
    case FencingExpired(scope, root, now) => FenceExpired(s, scope, root, now)
    case FencingCancelled(k, now) => FenceCancelled(s, k, now).0
    case Observing(o) => Observe(s, o).0
    case Settling(v) => Settle(s, v).0
  }

  ghost function Exec(s: Ledger, ops: seq<Op>): Ledger
    decreases |ops|
  {
    if ops == [] then s else Exec(Apply(s, ops[0]), ops[1..])
  }

  lemma {:induction false} ExecJoins(s: Ledger, a: seq<Op>, b: seq<Op>)
    ensures Exec(s, a + b) == Exec(Exec(s, a), b)
    decreases |a|
  {
    if a == [] {
      assert a + b == b;
    } else {
      assert (a + b)[1..] == a[1..] + b;
      ExecJoins(Apply(s, a[0]), a[1..], b);
    }
  }

  // ---- Every operation keeps the invariant -----------------------------------------------

  lemma FencingRecordsNoCost(s: Ledger, scope: Scope, root: string, now: Time, k: Key)
    ensures RecordedCost(FenceExpired(s, scope, root, now), k) == RecordedCost(s, k)
  {
    Weightless(s.observations, FenceExpired(s, scope, root, now).observations, CostWeight(k));
  }

  lemma FenceExpiredKeepsInv(s: Ledger, scope: Scope, root: string, now: Time)
    requires Inv(s)
    ensures Inv(FenceExpired(s, scope, root, now))
  {
    hide Inv, FenceExpired, HoldInv, FencesRecorded, RecordedCost, ObservationInv;
    var f := FenceExpired(s, scope, root, now);
    forall k | k in f.values ensures HoldInv(k, f.values[k]) && FencesRecorded(f, k) && RecordedCost(f, k) <= f.values[k].observed as int {
      FencedHold(s, scope, root, now, k);
    }
    forall i | i in f.observations ensures ObservationInv(f, i, f.observations[i]) { FencedObservation(s, scope, root, now, i); }
    InvByParts(f);
  }

  /** What the invariant says of one hold. */
  lemma InvAt(s: Ledger, k: Key)
    requires Inv(s) && k in s.values
    ensures HoldInv(k, s.values[k]) && FencesRecorded(s, k) && RecordedCost(s, k) <= s.values[k].observed as int
  {}

  lemma InvByParts(s: Ledger)
    requires forall k | k in s.values :: HoldInv(k, s.values[k]) && FencesRecorded(s, k) && RecordedCost(s, k) <= s.values[k].observed as int
    requires forall i | i in s.observations :: ObservationInv(s, i, s.observations[i])
    ensures Inv(s)
  {
    hide HoldInv, FencesRecorded, RecordedCost, ObservationInv;
  }

  lemma FencedHold(s: Ledger, scope: Scope, root: string, now: Time, k: Key)
    requires Inv(s) && k in FenceExpired(s, scope, root, now).values
    ensures var f := FenceExpired(s, scope, root, now);
            HoldInv(k, f.values[k]) && FencesRecorded(f, k) && RecordedCost(f, k) <= f.values[k].observed as int
  {
    FencingRecordsNoCost(s, scope, root, now, k);
    InvAt(s, k);
    hide Inv, RecordedCost, FenceRecord;
  }

  lemma FencedObservation(s: Ledger, scope: Scope, root: string, now: Time, i: ObservationKey)
    requires Inv(s) && i in FenceExpired(s, scope, root, now).observations
    ensures var f := FenceExpired(s, scope, root, now); ObservationInv(f, i, f.observations[i])
  {
    if i in s.observations { assert ObservationInv(s, i, s.observations[i]); }
  }

  lemma NotingKeepsRecord(s: Ledger, o: Observation, k: Key)
    requires o.cost == 0
    ensures Total(Note(s.observations, o), CostWeight(k)) == RecordedCost(s, k)
  {
    if o.Identity() !in s.observations { Update(s.observations, CostWeight(k), o.Identity(), o); }
  }

  lemma FenceCancelledKeepsInv(s: Ledger, k: Key, now: Time)
    requires Inv(s)
    ensures Inv(FenceCancelled(s, k, now).0)
  {
    var f := FenceCancelled(s, k, now).0;
    if f != s {
      forall j | j in f.values ensures HoldInv(j, f.values[j]) && FencesRecorded(f, j) && RecordedCost(f, j) <= f.values[j].observed as int {
        assert HoldInv(j, s.values[j]) && FencesRecorded(s, j);
        NotingKeepsRecord(s, FenceRecord(f.values[k], Cancellation(k.id), CancellationFence), j);
      }
      forall i | i in f.observations ensures ObservationInv(f, i, f.observations[i]) {
        assert HoldInv(k, s.values[k]);
        if i in s.observations { assert ObservationInv(s, i, s.observations[i]); }
      }
    }
  }

  lemma NothingRecordedYet(s: Ledger, k: Key)
    requires Inv(s) && k !in s.values
    ensures RecordedCost(s, k) == 0
  {
    forall i | i in s.observations ensures CostWeight(k)(s.observations[i]) == 0 { assert ObservationInv(s, i, s.observations[i]); }
    Weightless(map[], s.observations, CostWeight(k));
  }

  lemma InsertKeepsInv(f: Ledger, e: Estimate, generation: nat)
    requires Inv(f) && e.Identity() !in f.values && e.maximumCost >= 1
    ensures Inv(f.(values := f.values[e.Identity() := NewHold(e, generation)]))
  {
    var n := f.(values := f.values[e.Identity() := NewHold(e, generation)]);
    NothingRecordedYet(f, e.Identity());
    forall k | k in n.values ensures HoldInv(k, n.values[k]) && FencesRecorded(n, k) && RecordedCost(n, k) <= n.values[k].observed as int {
      if k != e.Identity() { assert HoldInv(k, f.values[k]) && FencesRecorded(f, k); }
    }
    forall i | i in n.observations ensures ObservationInv(n, i, n.observations[i]) { assert ObservationInv(f, i, f.observations[i]); }
  }

  lemma ReserveKeepsInv(s: Ledger, e: Estimate, generation: nat, maximum: Micros, now: Time)
    requires Inv(s)
    ensures Inv(Reserve(s, e, generation, maximum, now).0)
  {
    hide Inv, FenceExpired, Held, SameBinding;
    var f := FenceExpired(s, e.scope, e.root, now);
    FenceExpiredKeepsInv(s, e.scope, e.root, now);
    if e.Identity() !in f.values && e.maximumCost >= 1 { InsertKeepsInv(f, e, generation); }
  }

  lemma ObserveKeepsInv(s: Ledger, o: Observation)
    requires Inv(s)
    ensures Inv(Observe(s, o).0)
  {
    var n := Observe(s, o).0;
    if n != s {
      forall k | k in n.values ensures HoldInv(k, n.values[k]) && FencesRecorded(n, k) && RecordedCost(n, k) <= n.values[k].observed as int {
        assert HoldInv(k, s.values[k]) && FencesRecorded(s, k);
        Update(s.observations, CostWeight(k), o.Identity(), o);
      }
      forall i | i in n.observations ensures ObservationInv(n, i, n.observations[i]) {
        if i in s.observations { assert ObservationInv(s, i, s.observations[i]); }
      }
    }
  }

  lemma SettleKeepsInv(s: Ledger, v: Settlement)
    requires Inv(s)
    ensures Inv(Settle(s, v).0)
  {
    var n := Settle(s, v).0;
    if n != s {
      forall k | k in n.values ensures HoldInv(k, n.values[k]) && FencesRecorded(n, k) && RecordedCost(n, k) <= n.values[k].observed as int {
        assert HoldInv(k, s.values[k]) && FencesRecorded(s, k);
      }
      forall i | i in n.observations ensures ObservationInv(n, i, n.observations[i]) { assert ObservationInv(s, i, s.observations[i]); }
    }
  }

  lemma ApplyKeepsInv(s: Ledger, op: Op)
    requires Inv(s)
    ensures Inv(Apply(s, op))
  {
    match op
    case Reserving(e, generation, maximum, now) => ReserveKeepsInv(s, e, generation, maximum, now);
    case FencingExpired(scope, root, now) => FenceExpiredKeepsInv(s, scope, root, now);
    case FencingCancelled(k, now) => FenceCancelledKeepsInv(s, k, now);
    case Observing(o) => ObserveKeepsInv(s, o);
    case Settling(v) => SettleKeepsInv(s, v);
  }

  /** In every reachable ledger recorded cost ≤ observed usage ≤ upper bound, hold by hold, and every fence is on the record. */
  lemma {:induction false} EveryRunKeepsInv(s: Ledger, ops: seq<Op>)
    requires Inv(s)
    ensures Inv(Exec(s, ops))
    decreases |ops|
  {
    if ops != [] {
      ApplyKeepsInv(s, ops[0]);
      EveryRunKeepsInv(Apply(s, ops[0]), ops[1..]);
    }
  }

  // ---- Headroom --------------------------------------------------------------------------

  lemma FencingKeepsHeld(s: Ledger, scope: Scope, root: string, now: Time, inScope: Scope, inRoot: string)
    ensures Held(FenceExpired(s, scope, root, now), inScope, inRoot) == Held(s, inScope, inRoot)
  {
    Same(s.values, FenceExpired(s, scope, root, now).values, HeldWeight(inScope, inRoot));
  }

  /** Every operation but a reservation leaves each root's held total where it was or lower. */
  lemma OthersNeverRaiseHeld(s: Ledger, op: Op, scope: Scope, root: string)
    requires Inv(s) && !op.Reserving?
    ensures Held(Apply(s, op), scope, root) <= Held(s, scope, root)
  {
    match op
    case FencingExpired(inScope, inRoot, now) => FencingKeepsHeld(s, inScope, inRoot, now, scope, root);
    case FencingCancelled(k, now) => CancellingKeepsHeld(s, k, now, scope, root);
    case Observing(o) => ObservingKeepsHeld(s, o, scope, root);
    case Settling(v) => SettlingNeverRaisesHeld(s, v, scope, root);
  }

  lemma CancellingKeepsHeld(s: Ledger, k: Key, now: Time, scope: Scope, root: string)
    ensures Held(FenceCancelled(s, k, now).0, scope, root) == Held(s, scope, root)
  {
    var n := FenceCancelled(s, k, now).0;
    if n.values != s.values { Update(s.values, HeldWeight(scope, root), k, n.values[k]); }
  }

  lemma ObservingKeepsHeld(s: Ledger, o: Observation, scope: Scope, root: string)
    ensures Held(Observe(s, o).0, scope, root) == Held(s, scope, root)
  {
    var n := Observe(s, o).0;
    if n.values != s.values { Update(s.values, HeldWeight(scope, root), o.For(), n.values[o.For()]); }
  }

  lemma SettlingNeverRaisesHeld(s: Ledger, v: Settlement, scope: Scope, root: string)
    requires Inv(s)
    ensures Held(Settle(s, v).0, scope, root) <= Held(s, scope, root)
  {
    var n := Settle(s, v).0;
    if n.values != s.values {
      assert HoldInv(v.key, s.values[v.key]);
      Update(s.values, HeldWeight(scope, root), v.key, n.values[v.key]);
    }
  }

  /** A reservation raises only its own root's total, by its worst case, and only within the bound it was made under. */
  lemma ReservingStaysWithin(s: Ledger, e: Estimate, generation: nat, maximum: Micros, now: Time, scope: Scope, root: string)
    ensures var n := Reserve(s, e, generation, maximum, now).0;
            Held(n, scope, root) == Held(s, scope, root) || ((scope, root) == (e.scope, e.root) && Held(n, scope, root) <= maximum as int)
  {
    hide FenceExpired, SameBinding;
    var f := FenceExpired(s, e.scope, e.root, now);
    FencingKeepsHeld(s, e.scope, e.root, now, scope, root);
    if e.Identity() !in f.values {
      Update(f.values, HeldWeight(scope, root), e.Identity(), NewHold(e, generation));
    }
  }

  predicate ReservesWithin(ops: seq<Op>, bound: int) {
    forall i | 0 <= i < |ops| && ops[i].Reserving? :: ops[i].maximum as int <= bound
  }

  lemma ApplyKeepsHeadroom(s: Ledger, op: Op, bound: int)
    requires Inv(s) && Headroom(s, bound) && (op.Reserving? ==> op.maximum as int <= bound)
    ensures Headroom(Apply(s, op), bound)
  {
    forall scope, root ensures Held(Apply(s, op), scope, root) <= bound {
      if op.Reserving? {
        ReservingStaysWithin(s, op.estimate, op.generation, op.maximum, op.now, scope, root);
      } else {
        OthersNeverRaiseHeld(s, op, scope, root);
      }
    }
  }

  lemma {:induction false} EveryRunKeepsHeadroom(s: Ledger, ops: seq<Op>, bound: int)
    requires Inv(s) && Headroom(s, bound) && ReservesWithin(ops, bound)
    ensures Headroom(Exec(s, ops), bound)
    decreases |ops|
  {
    if ops != [] {
      ApplyKeepsInv(s, ops[0]);
      ApplyKeepsHeadroom(s, ops[0], bound);
      EveryRunKeepsHeadroom(Apply(s, ops[0]), ops[1..], bound);
    }
  }

  /** However reservations, replays, usage, fences and settlements interleave, no root run ever holds more than the bound. */
  lemma HeadroomSafety(ops: seq<Op>, bound: Micros, scope: Scope, root: string)
    requires bound >= 1 && ReservesWithin(ops, bound as int)
    ensures Held(Exec(EMPTY, ops), scope, root) <= bound as int
  {
    EveryRunKeepsHeadroom(EMPTY, ops, bound as int);
  }

  /** The held total fits a 64-bit amount in every reachable ledger, whatever bounds were used: the summation never overflows. */
  lemma HeldNeverOverflows(ops: seq<Op>, scope: Scope, root: string)
    ensures 0 <= Held(Exec(EMPTY, ops), scope, root) <= MAX_MICROS
  {
    EveryRunKeepsHeadroom(EMPTY, ops, MAX_MICROS);
    EveryRunKeepsInv(EMPTY, ops);
    var s := Exec(EMPTY, ops);
    forall k | k in s.values ensures HeldWeight(scope, root)(s.values[k]) >= 0 { assert HoldInv(k, s.values[k]); }
    Bounds(s.values, HeldWeight(scope, root));
  }

  /** So a reservation is never refused because the held total could not be summed. */
  lemma TotalIsAlwaysValid(ops: seq<Op>, e: Estimate, generation: nat, maximum: Micros, now: Time)
    ensures Reserve(Exec(EMPTY, ops), e, generation, maximum, now).1 != Err(TotalInvalid)
  {
    HeldNeverOverflows(ops, e.scope, e.root);
    FencingKeepsHeld(Exec(EMPTY, ops), e.scope, e.root, now, e.scope, e.root);
  }

  // ---- Fences are permanent --------------------------------------------------------------

  /**
   How a hold may change: who it is for and the generation that made it never do, fences and finality
   are only ever added, the bound only falls and usage only rises, and a released hold never changes.
   */
  predicate Evolves(a: Reservation, b: Reservation) {
    && b.key == a.key && b.root == a.root && b.run == a.run && b.policyVersion == a.policyVersion
    && b.budgetVersion == a.budgetVersion && b.generation == a.generation && b.expiresAt == a.expiresAt
    && b.upper <= a.upper && b.observed >= a.observed
    && (a.attemptFinal ==> b.attemptFinal) && (a.expired ==> b.expired) && (a.cancelled ==> b.cancelled)
    && (a.released ==> b == a)
  }

  ghost predicate Later(s: Ledger, t: Ledger) {
    && (forall k | k in s.values :: k in t.values && Evolves(s.values[k], t.values[k]))
    && (forall i | i in s.observations :: i in t.observations && t.observations[i] == s.observations[i])
  }

  lemma FencingIsLater(s: Ledger, scope: Scope, root: string, now: Time)
    ensures Later(s, FenceExpired(s, scope, root, now))
  {}

  lemma ReservingIsLater(s: Ledger, e: Estimate, generation: nat, maximum: Micros, now: Time)
    ensures Later(s, Reserve(s, e, generation, maximum, now).0)
  {
    hide FenceExpired, Held, SameBinding, Later;
    var f := FenceExpired(s, e.scope, e.root, now);
    LaterThanItself(s);
    FencingIsLater(s, e.scope, e.root, now);
    if e.Identity() !in f.values { InsertIsLater(s, f, e, generation); }
  }

  lemma LaterThanItself(s: Ledger)
    ensures Later(s, s)
  {}

  lemma InsertIsLater(s: Ledger, f: Ledger, e: Estimate, generation: nat)
    requires Later(s, f) && e.Identity() !in f.values
    ensures Later(s, f.(values := f.values[e.Identity() := NewHold(e, generation)]))
  {
    hide Evolves;
  }

  lemma CancellingIsLater(s: Ledger, k: Key, now: Time)
    ensures Later(s, FenceCancelled(s, k, now).0)
  {}

  lemma ObservingIsLater(s: Ledger, o: Observation)
    ensures Later(s, Observe(s, o).0)
  {}

  lemma SettlingIsLater(s: Ledger, v: Settlement)
    ensures Later(s, Settle(s, v).0)
  {
    if Settle(s, v).0 == s {
      LaterThanItself(s);
      hide Later;
    }
  }

  lemma ApplyIsLater(s: Ledger, op: Op)
    ensures Later(s, Apply(s, op))
  {
    match op
    case Reserving(e, generation, maximum, now) => ReservingIsLater(s, e, generation, maximum, now);
    case FencingExpired(scope, root, now) => FencingIsLater(s, scope, root, now);
    case FencingCancelled(k, now) => CancellingIsLater(s, k, now);
    case Observing(o) => ObservingIsLater(s, o);
    case Settling(v) => SettlingIsLater(s, v);
  }

  lemma {:induction false} EveryRunIsLater(s: Ledger, ops: seq<Op>)
    requires Inv(s)
    ensures Later(s, Exec(s, ops))
    decreases |ops|
  {
    if ops != [] {
      var t, u := Apply(s, ops[0]), Exec(s, ops);
      ApplyKeepsInv(s, ops[0]);
      ApplyIsLater(s, ops[0]);
      EveryRunIsLater(t, ops[1..]);
      forall k | k in s.values ensures k in u.values && Evolves(s.values[k], u.values[k]) {
        assert Evolves(s.values[k], t.values[k]) && Evolves(t.values[k], u.values[k]);
      }
    }
  }

  /**
   A fence is for ever: once a hold is expired, cancelled or released, no later sequence of ledger
   operations lets it dispatch — whatever generation is asked for, whatever the active generation
   has become, whatever the clock says — and no replay of its reservation is answered with it.
   */
  lemma FencesArePermanent(s: Ledger, ops: seq<Op>, k: Key, generation: nat, current: Option<nat>, now: Time, e: Estimate, maximum: Micros)
    requires Inv(s) && k in s.values && s.values[k].Fenced() && e.Identity() == k
    ensures !Dispatches(Exec(s, ops), k, generation, current, now)
    ensures Reserve(Exec(s, ops), e, generation, maximum, now).1.Err?
  {
    EveryRunIsLater(s, ops);
    assert Evolves(s.values[k], Exec(s, ops).values[k]);
    assert Exec(s, ops).values[k].Fenced();
    hide Exec, Evolves, Held, Later;
    FencedIsRefused(Exec(s, ops), k, generation, current, now, e, maximum);
  }

  lemma FencedIsRefused(t: Ledger, k: Key, generation: nat, current: Option<nat>, now: Time, e: Estimate, maximum: Micros)
    requires k in t.values && t.values[k].Fenced() && e.Identity() == k
    ensures !Dispatches(t, k, generation, current, now)
    ensures Reserve(t, e, generation, maximum, now).1.Err?
  {
    assert FenceExpired(t, e.scope, e.root, now).values[k].Fenced();
  }

  /** A replay is answered with the hold exactly when it is the same reservation, at its full bound, and nothing has fenced it. */
  lemma ReplayAnswer(s: Ledger, e: Estimate, generation: nat, maximum: Micros, now: Time)
    requires Inv(s) && e.Identity() in s.values && e.id != "" && e.scope.Valid() && e.maximumCost >= 1 && maximum >= 1
    ensures var r := s.values[e.Identity()];
            Reserve(s, e, generation, maximum, now).1.Ok?
            <==> SameBinding(r, e, generation) && !r.Fenced() && !Elapsed(r, e.scope, e.root, now)
    ensures Reserve(s, e, generation, maximum, now).1.Ok? ==> Reserve(s, e, generation, maximum, now).1 == Ok(s.values[e.Identity()])
    ensures Held(Reserve(s, e, generation, maximum, now).0, e.scope, e.root) == Held(s, e.scope, e.root)
  {
    assert HoldInv(e.Identity(), s.values[e.Identity()]);
    FencingKeepsHeld(s, e.scope, e.root, now, e.scope, e.root);
  }

  // ---- Usage is additive and counted once ------------------------------------------------

  /** An accepted observation, delivered again at any later moment, is accepted and changes nothing. */
  lemma RedeliveryIsIdempotent(s: Ledger, o: Observation, ops: seq<Op>)
    requires Inv(s) && Observe(s, o).1.Ok?
    ensures var t := Exec(Observe(s, o).0, ops); Observe(t, o) == (t, Ok(()))
  {
    hide Inv, Observe, Exec, Evolves;
    ApplyKeepsInv(s, Observing(o));
    AcceptedIsRecorded(s, o);
    EveryRunIsLater(Observe(s, o).0, ops);
    RecordedIsAccepted(Exec(Observe(s, o).0, ops), o);
  }

  lemma AcceptedIsRecorded(s: Ledger, o: Observation)
    requires Observe(s, o).1.Ok?
    ensures var n := Observe(s, o).0; o.scope.Valid() && o.cost >= 0 && o.Identity() in n.observations && n.observations[o.Identity()] == o
  {}

  lemma RecordedIsAccepted(t: Ledger, o: Observation)
    requires o.scope.Valid() && o.cost >= 0 && o.Identity() in t.observations && t.observations[o.Identity()] == o
    ensures Observe(t, o) == (t, Ok(()))
  {}

  /** The identity of an observation, once used, never takes another content. */
  lemma IdentitiesAreNeverReused(s: Ledger, i: ObservationKey, ops: seq<Op>, o: Observation)
    requires Inv(s) && i in s.observations && o.Identity() == i && o != s.observations[i]
    ensures var t := Exec(s, ops); Observe(t, o).0 == t && Observe(t, o).1.Err?
  {
    EveryRunIsLater(s, ops);
  }

  /** Observed usage is exactly what was recorded. */
  ghost predicate Exact(s: Ledger) { forall k | k in s.values :: RecordedCost(s, k) == s.values[k].observed as int }

  /** The settlement takes the usage it read as the final cost. */
  predicate AtObserved(op: Op) { op.Settling? ==> op.settlement.finalCost == op.settlement.expectedObserved }

  lemma SettlementKeepsExact(s: Ledger, v: Settlement)
    requires Inv(s) && Exact(s) && v.finalCost == v.expectedObserved
    ensures Exact(Settle(s, v).0)
  {}

  lemma ObservationKeepsExact(s: Ledger, o: Observation)
    requires Inv(s) && Exact(s)
    ensures Exact(Observe(s, o).0)
  {
    var n := Observe(s, o).0;
    if n != s {
      forall k | k in n.values ensures RecordedCost(n, k) == n.values[k].observed as int {
        Update(s.observations, CostWeight(k), o.Identity(), o);
      }
    }
  }

  lemma CancellationKeepsExact(s: Ledger, j: Key, now: Time)
    requires Exact(s)
    ensures Exact(FenceCancelled(s, j, now).0)
  {
    var n := FenceCancelled(s, j, now).0;
    if n != s {
      forall k | k in n.values ensures RecordedCost(n, k) == n.values[k].observed as int {
        NotingKeepsRecord(s, FenceRecord(n.values[j], Cancellation(j.id), CancellationFence), k);
      }
    }
  }

  lemma ExpiryKeepsExact(s: Ledger, scope: Scope, root: string, now: Time)
    requires Exact(s)
    ensures Exact(FenceExpired(s, scope, root, now))
  {
    var n := FenceExpired(s, scope, root, now);
    forall k | k in n.values ensures RecordedCost(n, k) == n.values[k].observed as int {
      FencingRecordsNoCost(s, scope, root, now, k);
    }
  }

  lemma ReservingKeepsExact(s: Ledger, e: Estimate, generation: nat, maximum: Micros, now: Time)
    requires Inv(s) && Exact(s)
    ensures Exact(Reserve(s, e, generation, maximum, now).0)
  {
    hide Inv, FenceExpired, Held, Exact;
    var f := FenceExpired(s, e.scope, e.root, now);
    ExpiryKeepsExact(s, e.scope, e.root, now);
    FenceExpiredKeepsInv(s, e.scope, e.root, now);
    if e.Identity() !in f.values { InsertKeepsExact(f, e, generation); }
  }

  lemma InsertKeepsExact(f: Ledger, e: Estimate, generation: nat)
    requires Inv(f) && Exact(f) && e.Identity() !in f.values
    ensures Exact(f.(values := f.values[e.Identity() := NewHold(e, generation)]))
  {
    NothingRecordedYet(f, e.Identity());
    hide Inv;
  }

  lemma ApplyKeepsExact(s: Ledger, op: Op)
    requires Inv(s) && Exact(s) && AtObserved(op)
    ensures Exact(Apply(s, op))
  {
    match op
    case Reserving(e, generation, maximum, now) => ReservingKeepsExact(s, e, generation, maximum, now);
    case FencingExpired(scope, root, now) => ExpiryKeepsExact(s, scope, root, now);
    case FencingCancelled(j, now) => CancellationKeepsExact(s, j, now);
    case Observing(o) => ObservationKeepsExact(s, o);
    case Settling(v) => SettlementKeepsExact(s, v);
  }

  /** No cost is lost or invented while every settlement takes the usage it read: observed usage stays the recorded sum. */
  lemma {:induction false} EveryRunIsExact(s: Ledger, ops: seq<Op>)
    requires Inv(s) && Exact(s) && forall i | 0 <= i < |ops| :: AtObserved(ops[i])
    ensures Exact(Exec(s, ops))
    decreases |ops|
  {
    if ops != [] {
      ApplyKeepsInv(s, ops[0]);
      ApplyKeepsExact(s, ops[0]);
      EveryRunIsExact(Apply(s, ops[0]), ops[1..]);
    }
  }

  /** A settlement that takes effect keeps exactness exactly when its final cost is the usage it read. */
  lemma EffectiveSettlementIsExactIff(s: Ledger, v: Settlement)
    requires Inv(s) && Exact(s) && Settle(s, v).0 != s
    ensures Exact(Settle(s, v).0) <==> v.finalCost == v.expectedObserved
  {
    var n := Settle(s, v).0;
    assert RecordedCost(n, v.key) == RecordedCost(s, v.key) == v.expectedObserved as int;
    assert n.values[v.key].observed == v.finalCost;
    if v.finalCost == v.expectedObserved { SettlementKeepsExact(s, v); }
  }

  /**
   The hold is there under this generation, final, unreleased and with the usage that was read, and
   the final cost lies above that usage within the hold's bound.
   */
  predicate RaisesUsage(s: Ledger, v: Settlement) {
    && v.key.scope.Valid() && v.key in s.values
    && var r := s.values[v.key];
       && r.generation == v.generation && r.attemptFinal && v.expectedFinal && !r.released
       && r.observed == v.expectedObserved < v.finalCost <= r.upper
  }

  /** One settlement keeps usage the recorded sum exactly unless it is in a position to raise it. */
  lemma SettlementIsExactIff(s: Ledger, v: Settlement)
    requires Inv(s) && Exact(s)
    ensures Exact(Settle(s, v).0) <==> !RaisesUsage(s, v)
  {
    if Settle(s, v).0 != s { EffectiveSettlementIsExactIff(s, v); }
  }

  /** The first reservation of an empty ledger. */
  lemma FirstReservation(e: Estimate, generation: nat, maximum: Micros, now: Time)
    requires e.id != "" && e.scope.Valid() && 1 <= e.maximumCost <= maximum
    ensures Apply(EMPTY, Reserving(e, generation, maximum, now)) == Ledger(map[e.Identity() := NewHold(e, generation)], map[])
  {
    assert FenceExpired(EMPTY, e.scope, e.root, now) == EMPTY;
    assert Held(EMPTY, e.scope, e.root) == 0;
  }

  lemma FirstUsage(r: Reservation, o: Observation)
    requires o.scope.Valid() && o.For() == r.key && o.root == r.root && !r.released && r.observed == 0 && 0 <= o.cost <= r.upper
    ensures Apply(Ledger(map[r.key := r], map[]), Observing(o))
            == Ledger(map[r.key := r.(observed := o.cost, attemptFinal := r.attemptFinal || o.final)], map[o.Identity() := o])
  {
    var s := Ledger(map[r.key := r], map[]);
    assert s.values[r.key := r.(observed := o.cost, attemptFinal := r.attemptFinal || o.final)]
           == map[r.key := r.(observed := o.cost, attemptFinal := r.attemptFinal || o.final)];
    assert s.observations[o.Identity() := o] == map[o.Identity() := o];
  }

  lemma ExecThree(s: Ledger, a: Op, b: Op, c: Op)
    ensures Exec(s, [a, b, c]) == Apply(Apply(Apply(s, a), b), c)
  {
    hide Apply;
    var s1 := Apply(s, a);
    var s2 := Apply(s1, b);
    assert [a, b, c][1..] == [b, c] && [b, c][1..] == [c] && [c][1..] == [];
    assert Exec(s, [a, b, c]) == Exec(s1, [b, c]) == Exec(s2, [c]);
  }

  /** Whatever was reserved and used first, a reconciliation above that usage counts cost nobody recorded. */
  lemma SettledAboveUsageRun(e: Estimate, generation: nat, maximum: Micros, now: Time, o: Observation, finalCost: Micros, release: bool)
    requires e.id != "" && e.scope.Valid() && 1 <= e.maximumCost <= maximum
    requires o.For() == e.Identity() && o.root == e.root && o.final && 0 <= o.cost < finalCost <= e.maximumCost
    ensures var s := Exec(EMPTY, [Reserving(e, generation, maximum, now), Observing(o),
                                  Settling(Settlement(e.Identity(), generation, finalCost, o.cost, true, release))]);
            && e.Identity() in s.values && s.values[e.Identity()].observed == finalCost
            && RecordedCost(s, e.Identity()) == o.cost as int && !Exact(s)
  {
    hide Apply, Exec, RecordedCost;
    var k, r := e.Identity(), NewHold(e, generation);
    var v := Settlement(k, generation, finalCost, o.cost, true, release);
    ExecThree(EMPTY, Reserving(e, generation, maximum, now), Observing(o), Settling(v));
    FirstReservation(e, generation, maximum, now);
    FirstUsage(r, o);
    FirstSettlement(r.(observed := o.cost, attemptFinal := true), map[o.Identity() := o], v);
    OnlyCost(Apply(Ledger(map[k := r.(observed := o.cost, attemptFinal := true)], map[o.Identity() := o]), Settling(v)), o);
  }

  lemma FirstSettlement(r: Reservation, observations: map<ObservationKey, Observation>, v: Settlement)
    requires v.key == r.key && v.key.scope.Valid() && v.generation == r.generation && r.attemptFinal && !r.released
    requires v.expectedObserved == r.observed < v.finalCost <= r.upper && v.expectedFinal
    ensures Apply(Ledger(map[r.key := r], observations), Settling(v))
            == Ledger(map[r.key := r.(observed := v.finalCost, upper := v.finalCost, released := v.release)], observations)
  {
    assert map[r.key := r][r.key := r.(observed := v.finalCost, upper := v.finalCost, released := v.release)]
           == map[r.key := r.(observed := v.finalCost, upper := v.finalCost, released := v.release)];
  }

  lemma OnlyCost(s: Ledger, o: Observation)
    requires s.observations == map[o.Identity() := o]
    ensures RecordedCost(s, o.For()) == o.cost as int
  {
    assert s.observations == map[][o.Identity() := o];
    Update(map[], CostWeight(o.For()), o.Identity(), o);
  }

  /** A settled hold's amounts are final: bound and usage have met, and neither ever moves again. */
  lemma SettledForEver(s: Ledger, ops: seq<Op>, k: Key)
    requires Inv(s) && k in s.values && s.values[k].upper == s.values[k].observed
    ensures k in Exec(s, ops).values
    ensures Exec(s, ops).values[k].upper == Exec(s, ops).values[k].observed == s.values[k].observed
  {
    EveryRunKeepsInv(s, ops);
    EveryRunIsLater(s, ops);
    var t := Exec(s, ops);
    assert Evolves(s.values[k], t.values[k]) && HoldInv(k, t.values[k]);
  }
}
