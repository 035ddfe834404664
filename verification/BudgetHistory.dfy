/**
 Where holds, fences and records come from: whatever operations interleave, each is
 one that somebody asked for, with that request's own terms; and what each answer
 of the ledger says about the ledger it was given over.
 */
module BudgetHistory {
  import opened Wrappers
  import opened MapSums
  import opened Budget
  import opened BudgetRuns
  import opened BudgetSettlement

  // ---- What the operations of a run tell -------------------------------------------------

  /** A reservation asked for with these terms and this worst case. */
  ghost predicate AskedFor(done: seq<Op>, r: Reservation, cost: Micros) {
    exists e, maximum, now ::
      && Reserving(e, r.generation, maximum, now) in done && e.scope == r.key.scope && e.id == r.key.id && e.root == r.root && e.run == r.run
      && e.policyVersion == r.policyVersion && e.budgetVersion == r.budgetVersion && e.expiresAt == r.expiresAt && e.maximumCost == cost
  }

  /** A settlement of the hold at this cost was asked for. */
  ghost predicate SettledAt(done: seq<Op>, r: Reservation, cost: Micros) {
    exists v :: Settling(v) in done && v.key == r.key && v.generation == r.generation && v.finalCost == cost
  }

  ghost predicate ReleasedAt(done: seq<Op>, r: Reservation, cost: Micros) {
    exists v :: Settling(v) in done && v.key == r.key && v.generation == r.generation && v.finalCost == cost && v.release
  }

  /** An operation on the root read this time off the clock. */
  ghost predicate ClockRead(done: seq<Op>, scope: Scope, root: string, now: Time) {
    FencingExpired(scope, root, now) in done || exists e, generation, maximum :: Reserving(e, generation, maximum, now) in done && e.scope == scope && e.root == root
  }

  ghost predicate Lapsed(done: seq<Op>, r: Reservation) { exists now :: ClockRead(done, r.key.scope, r.root, now) && now != 0 && r.expiresAt <= now }

  ghost predicate CancelledFor(done: seq<Op>, r: Reservation) { exists now :: FencingCancelled(r.key, now) in done && now != 0 }

  ghost predicate ReportedFinal(done: seq<Op>, r: Reservation) {
    exists o :: Observing(o) in done && o.scope == r.key.scope && o.reservation == r.key.id && o.root == r.root && o.final
  }

  ghost predicate HoldTold(done: seq<Op>, k: Key, r: Reservation) {
    && r.key == k && (AskedFor(done, r, r.upper) || (SettledAt(done, r, r.upper) && exists cost :: AskedFor(done, r, cost) && cost >= r.upper))
    && (r.expired ==> Lapsed(done, r))
    && (r.cancelled ==> CancelledFor(done, r))
    && (r.attemptFinal ==> ReportedFinal(done, r))
    && (r.released ==> r.upper == r.observed && ReleasedAt(done, r, r.upper))
  }

  /** The record a fence leaves of itself: no cost, no finality, and the hold's own lineage. */
  ghost predicate FenceTold(s: Ledger, o: Observation) {
    && Key(o.scope, o.reservation) in s.values
    && var r := s.values[Key(o.scope, o.reservation)];
       && o.root == r.root && o.run == r.run && o.executionGeneration == r.generation && o.attempt == Recorded(o.id)
       && o.cost == 0 && !o.final && o.recoveryEpoch == 0 && o.sequence == 0
       && if o.task == ExpiryFence then o.id == Expiry(o.reservation) && r.expired
          else o.task == CancellationFence && o.id == Cancellation(o.reservation) && r.cancelled
  }

  ghost predicate RecordTold(s: Ledger, done: seq<Op>, i: ObservationKey, o: Observation) {
    i == ObservationKey(o.scope, o.id) && (Observing(o) in done || FenceTold(s, o))
  }

  ghost predicate Told(s: Ledger, done: seq<Op>) {
    && (forall k | k in s.values :: HoldTold(done, k, s.values[k]))
    && (forall i | i in s.observations :: RecordTold(s, done, i, s.observations[i]))
  }

  lemma HoldIsTold(s: Ledger, done: seq<Op>, k: Key)
    requires Told(s, done) && k in s.values
    ensures HoldTold(done, k, s.values[k])
  {}

  lemma RecordIsTold(s: Ledger, done: seq<Op>, i: ObservationKey)
    requires Told(s, done) && i in s.observations
    ensures RecordTold(s, done, i, s.observations[i])
  {}

  // ---- What is told stays told -----------------------------------------------------------

  lemma InMore(done: seq<Op>, op: Op)
    ensures forall x :: x in done + [op] <==> x in done || x == op
  {}

  lemma AskedStays(done: seq<Op>, op: Op, r: Reservation, cost: Micros)
    ensures AskedFor(done, r, cost) ==> AskedFor(done + [op], r, cost)
  {
    InMore(done, op);
  }

  lemma SettledStays(done: seq<Op>, op: Op, r: Reservation, cost: Micros)
    ensures SettledAt(done, r, cost) ==> SettledAt(done + [op], r, cost)
    ensures ReleasedAt(done, r, cost) ==> ReleasedAt(done + [op], r, cost)
  {
    InMore(done, op);
  }

  lemma ClockStays(done: seq<Op>, op: Op, scope: Scope, root: string, now: Time)
    ensures ClockRead(done, scope, root, now) ==> ClockRead(done + [op], scope, root, now)
  {
    InMore(done, op);
  }

  lemma LapsedStays(done: seq<Op>, op: Op, r: Reservation)
    ensures Lapsed(done, r) ==> Lapsed(done + [op], r)
  {
    hide ClockRead;
    forall now ensures ClockRead(done, r.key.scope, r.root, now) ==> ClockRead(done + [op], r.key.scope, r.root, now) { ClockStays(done, op, r.key.scope, r.root, now); }
  }

  lemma FlagsStay(done: seq<Op>, op: Op, r: Reservation)
    ensures CancelledFor(done, r) ==> CancelledFor(done + [op], r)
    ensures ReportedFinal(done, r) ==> ReportedFinal(done + [op], r)
  {
    InMore(done, op);
  }

  lemma HoldStays(done: seq<Op>, op: Op, k: Key, r: Reservation)
    requires HoldTold(done, k, r)
    ensures HoldTold(done + [op], k, r)
  {
    forall cost: Micros { AskedStays(done, op, r, cost); }
    SettledStays(done, op, r, r.upper);
    LapsedStays(done, op, r);
    FlagsStay(done, op, r);
    hide AskedFor, SettledAt, ReleasedAt, Lapsed, CancelledFor, ReportedFinal;
  }

  lemma ToldStays(s: Ledger, done: seq<Op>, op: Op)
    requires Told(s, done)
    ensures Told(s, done + [op])
  {
    hide HoldTold, FenceTold;
    InMore(done, op);
    forall k | k in s.values ensures HoldTold(done + [op], k, s.values[k]) { HoldStays(done, op, k, s.values[k]); }
  }

  // ---- One operation more ----------------------------------------------------------------

  /** Whatever an operation leaves as it was is told as before, and what it writes is told on its own. */
  lemma ByParts(s: Ledger, t: Ledger, done: seq<Op>)
    requires Told(s, done) && Later(s, t)
    requires forall k | k in t.values :: (k in s.values && t.values[k] == s.values[k]) || HoldTold(done, k, t.values[k])
    requires forall i | i in t.observations && i !in s.observations :: RecordTold(t, done, i, t.observations[i])
    ensures Told(t, done)
  {
    hide Told, Later, HoldTold;
    forall k | k in t.values ensures HoldTold(done, k, t.values[k]) {
      if k in s.values && t.values[k] == s.values[k] { HoldIsTold(s, done, k); }
    }
    forall i | i in t.observations ensures RecordTold(t, done, i, t.observations[i]) {
      if i in s.observations { LaterRecord(s, t, done, i); }
    }
    Assembled(t, done);
  }

  lemma Assembled(t: Ledger, done: seq<Op>)
    requires forall k | k in t.values :: HoldTold(done, k, t.values[k])
    requires forall i | i in t.observations :: RecordTold(t, done, i, t.observations[i])
    ensures Told(t, done)
  {
    hide HoldTold, RecordTold;
  }

  lemma LaterRecord(s: Ledger, t: Ledger, done: seq<Op>, i: ObservationKey)
    requires Told(s, done) && Later(s, t) && i in s.observations
    ensures i in t.observations && RecordTold(t, done, i, t.observations[i])
  {
    RecordIsTold(s, done, i);
    var k := Key(s.observations[i].scope, s.observations[i].reservation);
    if k in s.values { assert Evolves(s.values[k], t.values[k]); }
    hide Told, HoldTold;
  }

  lemma ExpiredIsTold(done: seq<Op>, k: Key, r: Reservation, scope: Scope, root: string, now: Time)
    requires HoldTold(done, k, r) && Elapsed(r, scope, root, now) && ClockRead(done, scope, root, now)
    ensures HoldTold(done, k, r.(expired := true))
  {
    hide ClockRead;
    var e := r.(expired := true);
    assert Lapsed(done, e);
    SameTerms(done, r, e);
    hide AskedFor, SettledAt, ReleasedAt, Lapsed, CancelledFor, ReportedFinal;
  }

  /** A hold's terms are told whatever its fences and amounts. */
  lemma SameTerms(done: seq<Op>, r: Reservation, e: Reservation)
    requires e == r.(expired := e.expired, cancelled := e.cancelled, attemptFinal := e.attemptFinal, observed := e.observed, upper := e.upper, released := e.released)
    ensures forall cost :: AskedFor(done, e, cost) <==> AskedFor(done, r, cost)
    ensures forall cost :: SettledAt(done, e, cost) <==> SettledAt(done, r, cost)
    ensures forall cost :: ReleasedAt(done, e, cost) <==> ReleasedAt(done, r, cost)
    ensures Lapsed(done, e) <==> Lapsed(done, r)
    ensures CancelledFor(done, e) <==> CancelledFor(done, r)
    ensures ReportedFinal(done, e) <==> ReportedFinal(done, r)
  {}

  lemma FencingIsTold(s: Ledger, done: seq<Op>, scope: Scope, root: string, now: Time)
    requires Told(s, done) && ClockRead(done, scope, root, now) && Inv(s)
    ensures Told(FenceExpired(s, scope, root, now), done)
  {
    hide Told, ClockRead, HoldTold, Later, FenceExpired, RecordTold, Inv;
    var t := FenceExpired(s, scope, root, now);
    FencingIsLater(s, scope, root, now);
    forall k | k in t.values ensures (k in s.values && t.values[k] == s.values[k]) || HoldTold(done, k, t.values[k]) {
      FencedAt(s, scope, root, now, k);
      HoldIsTold(s, done, k);
      if Elapsed(s.values[k], scope, root, now) { ExpiredIsTold(done, k, s.values[k], scope, root, now); }
    }
    forall i | i in t.observations && i !in s.observations ensures RecordTold(t, done, i, t.observations[i]) { ExpiryIsTold(s, done, scope, root, now, i); }
    ByParts(s, t, done);
  }

  lemma FencedAt(s: Ledger, scope: Scope, root: string, now: Time, k: Key)
    requires k in FenceExpired(s, scope, root, now).values
    ensures k in s.values
    ensures FenceExpired(s, scope, root, now).values[k] == if Elapsed(s.values[k], scope, root, now) then s.values[k].(expired := true) else s.values[k]
  {}

  lemma ExpiryIsTold(s: Ledger, done: seq<Op>, scope: Scope, root: string, now: Time, i: ObservationKey)
    requires Inv(s) && i in FenceExpired(s, scope, root, now).observations && i !in s.observations
    ensures var t := FenceExpired(s, scope, root, now); RecordTold(t, done, i, t.observations[i])
  {
    var t := FenceExpired(s, scope, root, now);
    var k := Key(i.scope, i.id.reservation);
    assert i in ExpiryRecords(s, s.values.Keys, scope, root, now);
    assert k in s.values && NewlyFenced(s, k, scope, root, now) && t.observations[i] == ExpiryOf(s.values[k]);
    assert HoldInv(k, s.values[k]);
    hide Inv;
    assert t.values[k] == s.values[k].(expired := true);
  }

  lemma InsertionIsTold(f: Ledger, done: seq<Op>, e: Estimate, generation: nat, maximum: Micros, now: Time)
    requires Told(f, done) && e.Identity() !in f.values && Reserving(e, generation, maximum, now) in done
    ensures Told(f.(values := f.values[e.Identity() := NewHold(e, generation)]), done)
  {
    var r := NewHold(e, generation);
    var t := f.(values := f.values[e.Identity() := r]);
    assert HoldTold(done, e.Identity(), r) by { assert AskedFor(done, r, r.upper); }
    LaterThanItself(f);
    InsertIsLater(f, f, e, generation);
    hide Told, HoldTold, Later, RecordTold;
    ByParts(f, t, done);
  }

  lemma ReservingIsTold(s: Ledger, done: seq<Op>, e: Estimate, generation: nat, maximum: Micros, now: Time)
    requires Told(s, done) && Inv(s) && Reserving(e, generation, maximum, now) in done
    ensures Told(Reserve(s, e, generation, maximum, now).0, done)
  {
    assert ClockRead(done, e.scope, e.root, now);
    hide Told, ClockRead, FenceExpired, Inv, SameBinding, Held, NewHold;
    var f := FenceExpired(s, e.scope, e.root, now);
    FencingIsTold(s, done, e.scope, e.root, now);
    if e.Identity() !in f.values { InsertionIsTold(f, done, e, generation, maximum, now); }
  }

  lemma CancellingIsTold(s: Ledger, done: seq<Op>, k: Key, now: Time)
    requires Told(s, done) && FencingCancelled(k, now) in done
    ensures Told(FenceCancelled(s, k, now).0, done)
  {
    var t := FenceCancelled(s, k, now).0;
    if t != s {
      var r := s.values[k];
      HoldIsTold(s, done, k);
      CancelledIsTold(done, k, r, now);
      CancellingIsLater(s, k, now);
      var o := FenceRecord(r.(cancelled := true), Cancellation(k.id), CancellationFence);
      assert o.Identity() !in s.observations ==> RecordTold(t, done, o.Identity(), o) by { hide Told, HoldTold, Later; }
      hide Told, HoldTold, Later, RecordTold, FenceRecord;
      ByParts(s, t, done);
    }
  }

  lemma CancelledIsTold(done: seq<Op>, k: Key, r: Reservation, now: Time)
    requires HoldTold(done, k, r) && FencingCancelled(k, now) in done && now != 0
    ensures HoldTold(done, k, r.(cancelled := true))
  {
    var e := r.(cancelled := true);
    assert CancelledFor(done, e);
    SameTerms(done, r, e);
    hide AskedFor, SettledAt, ReleasedAt, Lapsed, CancelledFor, ReportedFinal;
  }

  lemma UsageIsTold(done: seq<Op>, k: Key, r: Reservation, o: Observation, observed: Micros)
    requires HoldTold(done, k, r) && Observing(o) in done && o.For() == k && o.root == r.root && !r.released
    ensures HoldTold(done, k, r.(observed := observed, attemptFinal := r.attemptFinal || o.final))
  {
    var e := r.(observed := observed, attemptFinal := r.attemptFinal || o.final);
    assert o.final ==> ReportedFinal(done, e);
    SameTerms(done, r, e);
    hide AskedFor, SettledAt, ReleasedAt, Lapsed, CancelledFor, ReportedFinal;
  }

  lemma ObservingIsTold(s: Ledger, done: seq<Op>, o: Observation)
    requires Told(s, done) && Observing(o) in done
    ensures Told(Observe(s, o).0, done)
  {
    var t := Observe(s, o).0;
    if t != s {
      var r := s.values[o.For()];
      HoldIsTold(s, done, o.For());
      UsageIsTold(done, o.For(), r, o, r.observed + o.cost);
      ObservingIsLater(s, o);
      assert RecordTold(t, done, o.Identity(), o) by { hide Told, HoldTold, Later; }
      hide Told, HoldTold, Later, RecordTold;
      ByParts(s, t, done);
    }
  }

  lemma ClosingIsTold(done: seq<Op>, k: Key, r: Reservation, v: Settlement)
    requires HoldTold(done, k, r) && Settling(v) in done && v.key == k && v.generation == r.generation && v.finalCost <= r.upper && !r.released
    ensures HoldTold(done, k, r.(observed := v.finalCost, upper := v.finalCost, released := v.release))
  {
    var e := r.(observed := v.finalCost, upper := v.finalCost, released := v.release);
    assert SettledAt(done, e, v.finalCost) && (v.release ==> ReleasedAt(done, e, v.finalCost));
    SameTerms(done, r, e);
    hide AskedFor, SettledAt, ReleasedAt, Lapsed, CancelledFor, ReportedFinal;
    if AskedFor(done, r, r.upper) { assert AskedFor(done, e, r.upper); }
    else {
      var cost :| AskedFor(done, r, cost) && cost >= r.upper;
      assert AskedFor(done, e, cost);
    }
  }

  lemma SettlingIsTold(s: Ledger, done: seq<Op>, v: Settlement)
    requires Told(s, done) && Settling(v) in done
    ensures Told(Settle(s, v).0, done)
  {
    var t := Settle(s, v).0;
    if t != s {
      HoldIsTold(s, done, v.key);
      ClosingIsTold(done, v.key, s.values[v.key], v);
      SettlingIsLater(s, v);
      hide Told, HoldTold, Later, RecordTold;
      ByParts(s, t, done);
    }
  }

  lemma OpIsTold(s: Ledger, done: seq<Op>, op: Op)
    requires Told(s, done) && Inv(s)
    ensures Told(Apply(s, op), done + [op])
  {
    hide Told, Inv, ClockRead, FenceExpired, Reserve, FenceCancelled, Observe, Settle;
    ToldStays(s, done, op);
    var more := done + [op];
    assert op in more;
    match op
    case Reserving(e, generation, maximum, now) => ReservingIsTold(s, more, e, generation, maximum, now);
    case FencingExpired(scope, root, now) =>
      assert ClockRead(more, scope, root, now) by { ClockIsRead(more, scope, root, now); }
      FencingIsTold(s, more, scope, root, now);
    case FencingCancelled(k, now) => CancellingIsTold(s, more, k, now);
    case Observing(o) => ObservingIsTold(s, more, o);
    case Settling(v) => SettlingIsTold(s, more, v);
  }

  lemma ClockIsRead(done: seq<Op>, scope: Scope, root: string, now: Time)
    requires FencingExpired(scope, root, now) in done
    ensures ClockRead(done, scope, root, now)
  {}

  lemma {:induction false} RunIsTold(s: Ledger, done: seq<Op>, ops: seq<Op>)
    requires Told(s, done) && Inv(s)
    ensures Told(Exec(s, ops), done + ops)
    decreases |ops|
  {
    hide Inv, Told, Apply;
    if ops == [] {
      assert done + ops == done;
    } else {
      OpIsTold(s, done, ops[0]);
      ApplyKeepsInv(s, ops[0]);
      RunIsTold(Apply(s, ops[0]), done + [ops[0]], ops[1..]);
      assert done + [ops[0]] + ops[1..] == done + ops;
    }
  }

  /**
   From the empty ledger on, every hold is on terms somebody asked for, and comes down only to a cost
   somebody settled it at; it is expired only if an operation on its root saw the clock at or past its
   expiry, cancelled only if asked to be, final only if so reported, released only by a settlement that
   released it at that very cost.
   */
  lemma EveryHoldIsTold(ops: seq<Op>, k: Key)
    requires k in Exec(EMPTY, ops).values
    ensures HoldTold(ops, k, Exec(EMPTY, ops).values[k])
  {
    assert Told(EMPTY, []);
    hide Told, Exec, HoldTold;
    RunIsTold(EMPTY, [], ops);
    assert [] + ops == ops;
    HoldIsTold(Exec(EMPTY, ops), ops, k);
  }

  /** And every record is a report just as it was made, or the record a fence left of itself on a hold so fenced. */
  lemma EveryRecordIsTold(ops: seq<Op>, i: ObservationKey)
    requires i in Exec(EMPTY, ops).observations
    ensures RecordTold(Exec(EMPTY, ops), ops, i, Exec(EMPTY, ops).observations[i])
  {
    assert Told(EMPTY, []);
    hide Told, Exec, RecordTold;
    RunIsTold(EMPTY, [], ops);
    assert [] + ops == ops;
    RecordIsTold(Exec(EMPTY, ops), ops, i);
  }

  // ---- What each answer means ------------------------------------------------------------

  /** The hold stands on exactly the terms asked for. */
  predicate SameTermsAs(r: Reservation, e: Estimate, generation: nat) {
    && r.key.scope == e.scope && r.key.id == e.id && r.root == e.root && r.run == e.run && r.policyVersion == e.policyVersion
    && r.budgetVersion == e.budgetVersion && r.upper == e.maximumCost && r.generation == generation
  }

  /** The hold had been fenced, or the clock fences it now. */
  predicate FencedBy(r: Reservation, root: string, now: Time) {
    r.cancelled || r.expired || r.released || (now != 0 && r.expiresAt <= now && r.root == root)
  }

  predicate CompleteEstimate(e: Estimate, maximum: Micros) {
    e.id != "" && e.scope.workspace != "" && e.scope.project != "" && e.maximumCost >= 1 && maximum >= 1
  }

  /** A reservation already on the ledger: each answer, and exactly when it is given. */
  lemma ReplayAnswers(s: Ledger, e: Estimate, generation: nat, maximum: Micros, now: Time)
    requires Inv(s) && e.Identity() in s.values
    ensures var (t, answer) := Reserve(s, e, generation, maximum, now);
            var r := s.values[Key(e.scope, e.id)];
            && (answer == Err(Invalid) <==> !CompleteEstimate(e, maximum))
            && (answer == Err(IdempotencyConflict) <==> CompleteEstimate(e, maximum) && !SameTermsAs(r, e, generation))
            && (answer == Err(FencedHold) <==> CompleteEstimate(e, maximum) && SameTermsAs(r, e, generation) && FencedBy(r, e.root, now))
            && (answer.Ok? <==> CompleteEstimate(e, maximum) && SameTermsAs(r, e, generation) && !FencedBy(r, e.root, now))
            && (answer.Ok? ==> answer.value == r && t.values[e.Identity()] == r)
            && t.values.Keys == s.values.Keys
  {
    assert HoldInv(e.Identity(), s.values[e.Identity()]);
    FencedReplay(s, e, now);
    FencedKeys(s, e.scope, e.root, now);
    hide Inv, FenceExpired, Held, HoldInv;
  }

  /** A new reservation: each answer, exactly when it is given, and the hold it makes. */
  lemma NewHoldAnswers(s: Ledger, e: Estimate, generation: nat, maximum: Micros, now: Time)
    requires e.Identity() !in s.values
    ensures var (t, answer) := Reserve(s, e, generation, maximum, now);
            var room := maximum as int - e.maximumCost as int;
            && (answer == Err(Invalid) <==> !CompleteEstimate(e, maximum))
            && (answer == Err(TotalInvalid) <==> CompleteEstimate(e, maximum) && Held(s, e.scope, e.root) > MAX_MICROS)
            && (answer == Err(NoHeadroom) <==> CompleteEstimate(e, maximum) && room < Held(s, e.scope, e.root) <= MAX_MICROS)
            && (answer.Ok? <==> CompleteEstimate(e, maximum) && Held(s, e.scope, e.root) <= room)
            && t.values.Keys == s.values.Keys + (if answer.Ok? then {e.Identity()} else {})
            && (answer.Ok? ==> t.values[e.Identity()] == answer.value)
    ensures var (_, answer) := Reserve(s, e, generation, maximum, now);
            answer.Ok? ==> SameTermsAs(answer.value, e, generation) && answer.value.expiresAt == e.expiresAt && answer.value.observed == 0
                           && !answer.value.attemptFinal && !answer.value.Fenced()
  {
    FencingKeepsHeld(s, e.scope, e.root, now, e.scope, e.root);
    FencedKeys(s, e.scope, e.root, now);
    hide FenceExpired, Held;
  }

  lemma FencedKeys(s: Ledger, scope: Scope, root: string, now: Time)
    ensures FenceExpired(s, scope, root, now).values.Keys == s.values.Keys
  {}

  lemma FencedReplay(s: Ledger, e: Estimate, now: Time)
    requires e.Identity() in s.values && s.values[e.Identity()].key == e.Identity()
    ensures var r := s.values[e.Identity()];
            var n := FenceExpired(s, e.scope, e.root, now).values[e.Identity()];
            n == r.(expired := n.expired) && (n.Fenced() <==> FencedBy(r, e.root, now)) && (!n.Fenced() ==> n == r)
  {}

  /** A report over a sound ledger: each answer, exactly when it is given, and what it adds. */
  lemma ReportAnswers(s: Ledger, o: Observation)
    requires Inv(s)
    ensures var (t, answer) := Observe(s, o);
            var k, i := Key(o.scope, o.reservation), ObservationKey(o.scope, o.id);
            var complete := o.scope.workspace != "" && o.scope.project != "" && o.cost >= 0;
            var known := k in s.values && s.values[k].root == o.root;
            && (answer == Err(Invalid) <==> !complete)
            && (answer == Err(IdempotencyConflict) <==> complete && i in s.observations && s.observations[i] != o)
            && (answer == Err(Mismatch) <==> complete && i !in s.observations && !known)
            && (answer == Err(Exceeds) <==> complete && i !in s.observations && known
                                            && (s.values[k].released || s.values[k].observed as int + o.cost as int > s.values[k].upper as int))
            && (answer.Err? ==> t == s)
            && (answer.Ok? ==> i in t.observations && t.observations[i] == o)
            && (answer.Ok? && i in s.observations ==> t == s)
            && (answer.Ok? && i !in s.observations ==>
                  && t.values[k].observed as int == s.values[k].observed as int + o.cost as int
                  && (t.values[k].attemptFinal <==> s.values[k].attemptFinal || o.final))
  {
    if o.For() in s.values { assert HoldInv(o.For(), s.values[o.For()]); }
    hide Inv;
  }

  /** A settlement over a sound ledger: each refusal, and exactly when it is given. */
  lemma SettlementAnswers(s: Ledger, v: Settlement)
    requires Inv(s)
    ensures var (t, answer) := Settle(s, v);
            var complete := v.key.scope.workspace != "" && v.key.scope.project != "";
            && (answer == Err(Invalid) <==> !complete)
            && (answer == Err(NotFound) <==> complete && v.key !in s.values)
            && (complete && v.key in s.values ==>
                  var r := s.values[v.key];
                  var due := r.attemptFinal && r.generation == v.generation;
                  var already := r.observed == r.upper == v.finalCost && (r.released <==> v.release);
                  && (answer == Err(SettlementFence) <==> !due)
                  && (answer == Err(Immutable) <==> due && !already && r.released)
                  && (answer.Err? && answer.error.Conflict? <==> due && !already && !r.released && (r.observed != v.expectedObserved || !v.expectedFinal))
                  && (answer == Err(Inconsistent) <==> due && !already && !r.released && r.observed == v.expectedObserved && v.expectedFinal
                                                       && !(r.observed <= v.finalCost <= r.upper))
                  && (answer.Err? && answer.error.Conflict? ==> answer.error.observed == r.observed && answer.error.attemptFinal)
                  && (answer.Ok? ==> due && answer.value.upper == answer.value.observed == v.finalCost && (answer.value.released <==> v.release)))
  {
    hide Inv;
  }

  /** A settlement that succeeds gives back to its root the whole worst case if it releases the hold, and what exceeds the cost if not. */
  lemma SettlementFreesHeadroom(s: Ledger, v: Settlement, scope: Scope, root: string)
    requires Inv(s) && Settle(s, v).1.Ok?
    ensures var r, t := s.values[v.key], Settle(s, v).0;
            Held(t, scope, root) == Held(s, scope, root)
              - if v.key.scope == scope && r.root == root && !r.released then r.upper as int - (if v.release then 0 else v.finalCost as int) else 0
  {
    assert HoldInv(v.key, s.values[v.key]);
    var n := Settle(s, v).0;
    if n.values != s.values { Update(s.values, HeldWeight(scope, root), v.key, n.values[v.key]); }
  }

  /** A new hold is charged to its own root at its worst case, and to no other. */
  lemma NewHoldIsCharged(s: Ledger, e: Estimate, generation: nat, maximum: Micros, now: Time, scope: Scope, root: string)
    requires e.Identity() !in s.values && Reserve(s, e, generation, maximum, now).1.Ok?
    ensures var t := Reserve(s, e, generation, maximum, now).0;
            RootTotal(t, scope, root) == RootTotal(s, scope, root) + if e.scope == scope && e.root == root then e.maximumCost as int else 0
  {
    hide FenceExpired, Held, SameBinding;
    var f := FenceExpired(s, e.scope, e.root, now);
    FencingKeepsCharges(s, e.scope, e.root, now, scope, root);
    FencedKeys(s, e.scope, e.root, now);
    Update(f.values, ChargeWeight(scope, root), e.Identity(), NewHold(e, generation));
  }

  lemma FencingKeepsCharges(s: Ledger, scope: Scope, root: string, now: Time, inScope: Scope, inRoot: string)
    ensures RootTotal(FenceExpired(s, scope, root, now), inScope, inRoot) == RootTotal(s, inScope, inRoot)
  {
    Same(s.values, FenceExpired(s, scope, root, now).values, ChargeWeight(inScope, inRoot));
  }

  /** Usage is charged once it is final, in place of the worst case; before that, and to any other root, it changes nothing. */
  lemma ReportIsCharged(s: Ledger, o: Observation, scope: Scope, root: string)
    requires Inv(s) && Observe(s, o).1.Ok? && o.Identity() !in s.observations
    ensures var r, t := s.values[o.For()], Observe(s, o).0;
            RootTotal(t, scope, root) == RootTotal(s, scope, root)
              + (if o.scope != scope || o.root != root then 0
                 else if r.attemptFinal then o.cost as int
                 else if o.final then r.observed as int + o.cost as int - r.upper as int else 0)
  {
    assert HoldInv(o.For(), s.values[o.For()]);
    Update(s.values, ChargeWeight(scope, root), o.For(), Observe(s, o).0.values[o.For()]);
  }

  /** A cancellation: each refusal, and the fence and record it leaves otherwise. */
  lemma CancellationAnswers(s: Ledger, k: Key, now: Time)
    requires Inv(s)
    ensures var (t, answer) := FenceCancelled(s, k, now);
            var complete := k.scope.workspace != "" && k.scope.project != "" && k.id != "" && now != 0;
            && (answer == Err(Invalid) <==> !complete)
            && (answer == Err(NotFound) <==> complete && k !in s.values)
            && (answer.Ok? <==> complete && k in s.values)
            && (answer.Ok? ==> answer.value == t.values[k] && (answer.value.cancelled || s.values[k].released))
            && (answer.Ok? && !s.values[k].released ==> ObservationKey(k.scope, Cancellation(k.id)) in t.observations)
  {
    if k in s.values { assert FencesRecorded(s, k); }
    hide Inv;
  }

  /** A dispatch is admitted strictly before the expiry of an unfenced hold of the active generation, and never by a clock that reads nothing. */
  lemma DispatchMeans(s: Ledger, k: Key, generation: nat, current: Option<nat>, now: Time)
    requires Inv(s) && Dispatches(s, k, generation, current, now)
    ensures var r := s.values[k];
            !r.expired && !r.cancelled && !r.released && current == Some(r.generation) && 0 != now < r.expiresAt
    ensures !FencedBy(FenceExpired(s, k.scope, s.values[k].root, now).values[k], s.values[k].root, now)
  {
    hide Inv;
  }

  /** What recording the finality of a cancelled hold puts on the record: no cost, final, under the hold's own lineage. */
  lemma ConclusionIsRecorded(s: Ledger, scope: Scope, root: string, run: string, k: Key)
    requires Inv(s) && k in s.values
    requires var r := s.values[k]; r.key.scope == scope && r.root == root && r.run == run && r.cancelled && !r.released && !r.attemptFinal
    ensures var t, i := Concluded(s, scope, root, run), ObservationKey(k.scope, Conclusion(k.id));
            && i in t.observations
            && var o := t.observations[i];
               && o.scope == scope && o.reservation == k.id && o.root == root && o.run == run && o.task == CancellationFence
               && o.attempt == Recorded(o.id) && o.id == Conclusion(k.id) && o.executionGeneration == s.values[k].generation
               && o.recoveryEpoch == 0 && o.sequence == 0 && o.cost == 0 && o.final
  {
    assert HoldInv(k, s.values[k]);
    hide Inv, SweptAmong;
    assert SweptAmong(ConcludedAmong(s, s.values.Keys, scope, root, run), s.values.Keys, scope, root, CancelledRuns).observations
        == ConcludedAmong(s, s.values.Keys, scope, root, run).observations by { SweptKeys(ConcludedAmong(s, s.values.Keys, scope, root, run), scope, root, CancelledRuns); }
    FinalityAt(s, s.values.Keys, scope, root, run, ObservationKey(k.scope, Conclusion(k.id)));
  }
}
