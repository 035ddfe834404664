/** The in-memory ledger, one critical section a method, and the controller's loops over it. */
module BudgetLedger {
  import opened Wrappers
  import opened MapSums
  import opened Budget
  import opened BudgetRuns
  import opened BudgetSettlement

  /** The holds a fencing pass has fenced so far. */
  function FencedHolds(s: Ledger, visited: set<Key>, scope: Scope, root: string, now: Time): set<Reservation> {
    set k | k in visited && k in s.values && Elapsed(s.values[k], scope, root, now) :: s.values[k].(expired := true)
  }

  /** The step of a fencing pass at one hold. */
  function FenceOne(was: Ledger, k: Key, r: Reservation, scope: Scope, root: string, now: Time): Ledger {
    if Elapsed(r, scope, root, now) then Ledger(was.values[k := r.(expired := true)], Note(was.observations, ExpiryOf(r.(expired := true)))) else was
  }

  lemma OneMoreRecord(s: Ledger, visited: set<Key>, k: Key, scope: Scope, root: string, now: Time)
    requires k in s.values && k !in visited && s.values[k].key == k
    ensures var i := ObservationKey(k.scope, Expiry(k.id));
            var was := ExpiryRecords(s, visited, scope, root, now);
            && i !in was
            && ExpiryRecords(s, visited + {k}, scope, root, now)
               == if NewlyFenced(s, k, scope, root, now) then was[i := ExpiryOf(s.values[k])] else was
  {
    hide NewlyFenced, ExpiryOf, ExpiryRecords;
    var i := ObservationKey(k.scope, Expiry(k.id));
    var was, next := ExpiryRecords(s, visited, scope, root, now), ExpiryRecords(s, visited + {k}, scope, root, now);
    var expected := if NewlyFenced(s, k, scope, root, now) then was[i := ExpiryOf(s.values[k])] else was;
    ExpiryAt(s, visited, scope, root, now, i);
    forall j ensures (j in next <==> j in expected) && (j in next ==> next[j] == expected[j]) {
      ExpiryAt(s, visited, scope, root, now, j);
      ExpiryAt(s, visited + {k}, scope, root, now, j);
    }
    assert next == expected;
  }

  /** Which record of an expiry stands under an identity, and whose it is. */
  lemma ExpiryAt(s: Ledger, visited: set<Key>, scope: Scope, root: string, now: Time, i: ObservationKey)
    ensures var records := ExpiryRecords(s, visited, scope, root, now);
            && (i in records ==> i.id.Expiry?)
            && (i.id.Expiry? ==>
                  var k := Key(i.scope, i.id.reservation);
                  && (i in records <==> k in visited && NewlyFenced(s, k, scope, root, now))
                  && (i in records ==> k in s.values && records[i] == ExpiryOf(s.values[k])))
  {
    hide Elapsed, ExpiryOf;
    if i.id.Expiry? {
      var k := Key(i.scope, i.id.reservation);
      assert ObservationKey(k.scope, Expiry(k.id)) == i;
    }
  }

  lemma OneMoreHold(s: Ledger, visited: set<Key>, k: Key, scope: Scope, root: string, now: Time)
    requires k in s.values && k !in visited
    ensures var r := s.values[k];
            var was, next := FencedAmong(s, visited, scope, root, now).values, FencedAmong(s, visited + {k}, scope, root, now).values;
            was[k] == r && next == if Elapsed(r, scope, root, now) then was[k := r.(expired := true)] else was
  {
    hide Elapsed, ExpiryRecords;
    var was, next := FencedAmong(s, visited, scope, root, now).values, FencedAmong(s, visited + {k}, scope, root, now).values;
    UpdatedAt(was, next, k);
    assert was[k := was[k]] == was;
  }

  lemma AddLast<K, V>(m: map<K, V>, n: map<K, V>, k: K, v: V)
    ensures m + n[k := v] == (m + n)[k := v]
  {}

  /** Visiting one more hold of a fencing pass. */
  lemma FenceOneMore(s: Ledger, visited: set<Key>, k: Key, scope: Scope, root: string, now: Time)
    requires k in s.values && k !in visited && s.values[k].key == k
    ensures FencedAmong(s, visited, scope, root, now).values[k] == s.values[k]
    ensures FencedAmong(s, visited + {k}, scope, root, now) == FenceOne(FencedAmong(s, visited, scope, root, now), k, s.values[k], scope, root, now)
  {
    OneMoreHold(s, visited, k, scope, root, now);
    OneMoreRecord(s, visited, k, scope, root, now);
    var was := ExpiryRecords(s, visited, scope, root, now);
    var i := ObservationKey(k.scope, Expiry(k.id));
    AddLast(s.observations, was, i, ExpiryOf(s.values[k]));
    assert ExpiryOf(s.values[k].(expired := true)) == ExpiryOf(s.values[k]);
  }

  lemma OneMoreFenced(s: Ledger, visited: set<Key>, k: Key, scope: Scope, root: string, now: Time)
    requires k in s.values
    ensures FencedHolds(s, visited + {k}, scope, root, now)
            == FencedHolds(s, visited, scope, root, now) + if Elapsed(s.values[k], scope, root, now) then {s.values[k].(expired := true)} else {}
  {}

  lemma FencingNothing(s: Ledger, scope: Scope, root: string, now: Time)
    ensures FencedAmong(s, {}, scope, root, now) == s
    ensures now == 0 ==> FenceExpired(s, scope, root, now) == s && FencedHolds(s, s.values.Keys, scope, root, now) == {}
  {
    assert FencedAmong(s, {}, scope, root, now).values == s.values;
    assert FencedAmong(s, {}, scope, root, now).observations == s.observations;
    if now == 0 {
      assert FenceExpired(s, scope, root, now).values == s.values;
      assert FenceExpired(s, scope, root, now).observations == s.observations;
    }
  }

  class MemoryLedger {
    var values: map<Key, Reservation>
    var observations: map<ObservationKey, Observation>

    ghost function State(): Ledger
      reads this
    {
      Ledger(values, observations)
    }

    ghost predicate Valid()
      reads this
    {
      Inv(State())
    }

    constructor ()
      ensures Valid() && State() == EMPTY
    {
      values, observations := map[], map[];
    }

    /** Fences one hold if it has elapsed, and leaves the record of the fence. */
    method FenceIfElapsed(k: Key, scope: Scope, root: string, now: Time) returns (fenced: set<Reservation>)
      requires k in values && now != 0
      modifies this
      ensures State() == FenceOne(old(State()), k, old(values)[k], scope, root, now)
      ensures fenced == if Elapsed(old(values)[k], scope, root, now) then {old(values)[k].(expired := true)} else {}
    {
      var value := values[k];
      if value.key.scope != scope || value.root != root || value.released || value.expired || now < value.expiresAt {
        return {};
      }
      value := value.(expired := true);
      values := values[k := value];
      observations := Note(observations, ExpiryOf(value));
      return {value};
    }

    /** Fences every elapsed hold of one root aggregate, each with its immutable record. */
    method FenceExpiredLocked(scope: Scope, root: string, now: Time) returns (fenced: set<Reservation>)
      requires Valid()
      modifies this
      ensures State() == Budget.FenceExpired(old(State()), scope, root, now)
      ensures fenced == FencedHolds(old(State()), old(values.Keys), scope, root, now)
    {
      if now == 0 {
        FencingNothing(State(), scope, root, now);
        return {};
      }
      assert forall k | k in values :: values[k].key == k by {
        forall k | k in values ensures values[k].key == k { assert HoldInv(k, values[k]); }
      }
      fenced := FenceAll(scope, root, now);
    }

    method FenceAll(scope: Scope, root: string, now: Time) returns (fenced: set<Reservation>)
      requires now != 0 && forall k | k in values :: values[k].key == k
      modifies this
      ensures State() == Budget.FenceExpired(old(State()), scope, root, now)
      ensures fenced == FencedHolds(old(State()), old(values.Keys), scope, root, now)
    {
      ghost var before := State();
      FencingNothing(before, scope, root, now);
      fenced := {};
      var remaining := values.Keys;
      ghost var visited: set<Key> := {};
      while remaining != {}
        invariant visited + remaining == before.values.Keys && visited !! remaining
        invariant State() == FencedAmong(before, visited, scope, root, now)
        invariant fenced == FencedHolds(before, visited, scope, root, now)
        decreases |remaining|
      {
        var k :| k in remaining;
        FenceOneMore(before, visited, k, scope, root, now);
        OneMoreFenced(before, visited, k, scope, root, now);
        VisitOne(before.values.Keys, visited, remaining, k);
        var more := FenceIfElapsed(k, scope, root, now);
        remaining, visited, fenced := remaining - {k}, visited + {k}, fenced + more;
      }
      assert visited == before.values.Keys;
    }

    /** Adds one hold to a running total, unless the sum does not fit. */
    method AddHeld(held: Micros, value: Reservation, scope: Scope, root: string) returns (total: Option<Micros>)
      requires held >= 0 && HeldWeight(scope, root)(value) >= 0
      ensures total.Some? <==> held as int + HeldWeight(scope, root)(value) <= MAX_MICROS
      ensures total.Some? ==> total.value as int == held as int + HeldWeight(scope, root)(value)
    {
      if value.key.scope != scope || value.root != root || value.released {
        return Some(held);
      }
      return AddMicros(held, value.upper);
    }

    /** The held total of one root aggregate, summed in 64 bits; None when it does not fit. */
    method HeldTotal(scope: Scope, root: string) returns (total: Option<Micros>)
      requires forall k | k in values :: HeldWeight(scope, root)(values[k]) >= 0
      ensures total.Some? <==> Held(State(), scope, root) <= MAX_MICROS
      ensures total.Some? ==> total.value as int == Held(State(), scope, root)
    {
      ghost var w := HeldWeight(scope, root);
      var remaining := values.Keys;
      ghost var seen: map<Key, Reservation> := map[];
      var held: Micros := 0;
      while remaining != {}
        invariant Summing(values, seen, remaining)
        invariant held >= 0 && held as int == Total(seen, w)
        decreases |remaining|
      {
        var k :| k in remaining;
        SumOneMore(values, seen, remaining, w, k);
        var sum := AddHeld(held, values[k], scope, root);
        if sum.None? {
          return None;
        }
        held, remaining, seen := sum.value, remaining - {k}, seen[k := values[k]];
      }
      Summed(values, seen);
      return Some(held);
    }

    /** Fences, then answers a replay or admits a new hold within the bound: one critical section. */
    method Reserve(e: Estimate, generation: nat, maximum: Micros, now: Time) returns (answer: Result<Reservation, Problem>)
      requires Valid()
      modifies this
      ensures Valid()
      ensures (State(), answer) == Budget.Reserve(old(State()), e, generation, maximum, now)
    {
      if e.id == "" || !e.scope.Valid() || e.maximumCost < 1 || maximum < 1 {
        return Err(Invalid);
      }
      ReserveKeepsInv(State(), e, generation, maximum, now);
      FenceExpiredKeepsInv(State(), e.scope, e.root, now);
      var _ := FenceExpiredLocked(e.scope, e.root, now);
      answer := Decide(e, generation, maximum);
    }

    /** The decision over a freshly fenced ledger. */
    method Decide(e: Estimate, generation: nat, maximum: Micros) returns (answer: Result<Reservation, Problem>)
      requires Valid() && maximum >= 1 && e.maximumCost >= 1
      modifies this`values
      ensures (State(), answer) == Decided(old(State()), e, generation, maximum)
    {
      var k := e.Identity();
      if k in values {
        var prior := values[k];
        if !SameBinding(prior, e, generation) {
          return Err(IdempotencyConflict);
        }
        if prior.expired || prior.cancelled || prior.released {
          return Err(FencedHold);
        }
        return Ok(prior);
      }
      forall j | j in values ensures HeldWeight(e.scope, e.root)(values[j]) >= 0 { assert HoldInv(j, values[j]); }
      var held := HeldTotal(e.scope, e.root);
      if held.None? {
        return Err(TotalInvalid);
      }
      if held.value > maximum - e.maximumCost {
        return Err(NoHeadroom);
      }
      var value := NewHold(e, generation);
      values := values[k := value];
      return Ok(value);
    }

    method FenceExpired(scope: Scope, root: string, now: Time) returns (answer: Result<set<Reservation>, Problem>)
      requires Valid()
      modifies this
      ensures Valid()
      ensures answer.Ok? <==> scope.Valid() && root != "" && now != 0
      ensures State() == if answer.Ok? then Budget.FenceExpired(old(State()), scope, root, now) else old(State())
      ensures answer.Ok? ==> answer.value == FencedHolds(old(State()), old(values.Keys), scope, root, now)
    {
      if !scope.Valid() || root == "" || now == 0 {
        return Err(Invalid);
      }
      FenceExpiredKeepsInv(State(), scope, root, now);
      var fenced := FenceExpiredLocked(scope, root, now);
      return Ok(fenced);
    }

    method FenceCancelled(k: Key, now: Time) returns (answer: Result<Reservation, Problem>)
      requires Valid()
      modifies this
      ensures Valid()
      ensures (State(), answer) == Budget.FenceCancelled(old(State()), k, now)
    {
      FenceCancelledKeepsInv(State(), k, now);
      if !k.scope.Valid() || k.id == "" || now == 0 {
        return Err(Invalid);
      }
      if k !in values {
        return Err(NotFound);
      }
      var value := values[k];
      if value.cancelled || value.released {
        return Ok(value);
      }
      value := value.(cancelled := true);
      values := values[k := value];
      observations := Note(observations, FenceRecord(value, Cancellation(k.id), CancellationFence));
      return Ok(value);
    }

    method Observe(o: Observation) returns (answer: Result<(), Problem>)
      requires Valid()
      modifies this
      ensures Valid()
      ensures (State(), answer) == Budget.Observe(old(State()), o)
    {
      ghost var before := State();
      assert o.For() in values ==> HoldInv(o.For(), values[o.For()]);
      answer := Record(o);
      ObserveKeepsInv(before, o);
    }

    method Record(o: Observation) returns (answer: Result<(), Problem>)
      requires o.For() in values ==> 0 <= values[o.For()].observed <= values[o.For()].upper
      modifies this
      ensures (State(), answer) == Budget.Observe(old(State()), o)
    {
      if !o.scope.Valid() || o.cost < 0 {
        return Err(Invalid);
      }
      if o.Identity() in observations {
        if observations[o.Identity()] != o {
          return Err(IdempotencyConflict);
        }
        return Ok(());
      }
      var k := o.For();
      if k !in values || values[k].root != o.root {
        return Err(Mismatch);
      }
      var value := values[k];
      if value.released || o.cost > value.upper - value.observed {
        return Err(Exceeds);
      }
      value := value.(observed := value.observed + o.cost, attemptFinal := value.attemptFinal || o.final);
      values := values[k := value];
      observations := observations[o.Identity() := o];
      return Ok(());
    }

    method Settle(v: Settlement) returns (answer: Result<Reservation, Problem>)
      requires Valid()
      modifies this`values
      ensures Valid()
      ensures (State(), answer) == Budget.Settle(old(State()), v)
    {
      SettleKeepsInv(State(), v);
      if !v.key.scope.Valid() {
        return Err(Invalid);
      }
      if v.key !in values {
        return Err(NotFound);
      }
      var value := values[v.key];
      if value.generation != v.generation || !value.attemptFinal {
        return Err(SettlementFence);
      }
      if value.observed == v.finalCost && value.upper == v.finalCost && value.released == v.release {
        return Ok(value);
      }
      if value.released {
        return Err(Immutable);
      }
      if value.observed != v.expectedObserved || value.attemptFinal != v.expectedFinal {
        return Err(Conflict(value.observed, value.attemptFinal));
      }
      if v.finalCost < value.observed || v.finalCost > value.upper {
        return Err(Inconsistent);
      }
      value := value.(observed := v.finalCost, upper := v.finalCost, released := v.release);
      values := values[v.key := value];
      return Ok(value);
    }

    method Find(k: Key) returns (answer: Result<Reservation, Problem>)
      ensures answer == if !k.scope.Valid() then Err(Invalid) else if k !in values then Err(NotFound) else Ok(values[k])
    {
      if !k.scope.Valid() {
        return Err(Invalid);
      }
      if k !in values {
        return Err(NotFound);
      }
      return Ok(values[k]);
    }

    /** Every hold of one root aggregate. */
    method RootReservations(scope: Scope, root: string) returns (held: map<Key, Reservation>)
      ensures held == map k | k in values && values[k].In(scope, root) :: values[k]
    {
      held := map k | k in values && values[k].In(scope, root) :: values[k];
    }

    /** What other callers do, one operation at a time. */
    method Perform(ops: seq<Op>)
      requires Valid()
      modifies this
      ensures Valid() && State() == Exec(old(State()), ops)
    {
      var i := 0;
      while i < |ops|
        invariant 0 <= i <= |ops| && Valid()
        invariant Exec(State(), ops[i..]) == Exec(old(State()), ops)
      {
        match ops[i] {
          case Reserving(e, generation, maximum, now) => var _ := Reserve(e, generation, maximum, now);
          case FencingExpired(scope, root, now) =>
            FenceExpiredKeepsInv(State(), scope, root, now);
            var _ := FenceExpiredLocked(scope, root, now);
          case FencingCancelled(k, now) => var _ := FenceCancelled(k, now);
          case Observing(o) => var _ := Observe(o);
          case Settling(v) => var _ := Settle(v);
        }
        i := i + 1;
      }
    }
  }
}
