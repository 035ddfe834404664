/**
 Settlement at observed usage, racing with everything else that reaches the
 ledger, and the recovery sweeps built on it.
 */
module BudgetSettlement {
  import opened Wrappers
  import opened MapSums
  import opened Budget
  import opened BudgetRuns

  const ROUNDS: nat := 8

  // ---- The re-read-and-settle loop -------------------------------------------------------

  /** What others do before the next ledger call, and after it. */
  function First(others: seq<seq<Op>>): seq<Op> { if others == [] then [] else others[0] }
  function Rest(others: seq<seq<Op>>): seq<seq<Op>> { if others == [] then [] else others[1..] }

  /** The settlement a caller computes from the reservation it read. */
  function AtRead(r: Reservation, release: bool): Settlement {
    Settlement(r.key, r.generation, r.observed, r.observed, r.attemptFinal, release)
  }

  function Closed(r: Reservation, release: bool): Reservation { r.(upper := r.observed, released := release) }

  /** The hold is not released, or is closed in just this way already. */
  predicate Closable(r: Reservation, release: bool) { r.released ==> release && r.upper == r.observed }

  datatype Outcome = Outcome(ledger: Ledger, answer: Result<Reservation, Problem>, performed: seq<Op>)

  /** The loop against `others`, the operations that land before each of its ledger calls; `performed` lists those that did. */
  ghost function SettleObserved(s: Ledger, read: Reservation, release: bool, others: seq<seq<Op>>, rounds: nat): Outcome
    decreases rounds
  {
    if rounds == 0 then Outcome(s, Err(Conflict(read.observed, read.attemptFinal)), [])
    else
      var (t, answer) := Settle(Exec(s, First(others)), AtRead(read, release));
      if answer.Ok? || !answer.error.Conflict? then Outcome(t, answer, First(others))
      else
        var u := Exec(t, First(Rest(others)));
        if read.key !in u.values then Outcome(u, Err(NotFound), First(others) + First(Rest(others)))
        else
          var o := SettleObserved(u, u.values[read.key], release, Rest(Rest(others)), rounds - 1);
          o.(performed := First(others) + First(Rest(others)) + o.performed)
  }

  /** One settlement of a hold somebody read earlier: it closes the hold as it now stands, or changes nothing. */
  lemma SettleFromRead(s: Ledger, read: Reservation, release: bool)
    requires Inv(s) && read.attemptFinal && read.key.scope.Valid() && read.key in s.values && Evolves(read, s.values[read.key])
    ensures var (t, answer) := Settle(s, AtRead(read, release));
            var r := s.values[read.key];
            && (answer.Ok? ==> answer.value == Closed(r, release) && t == s.(values := s.values[read.key := Closed(r, release)]))
            && (answer.Ok? ==> Closable(r, release))
            && (answer.Err? ==> t == s && (answer.error.Conflict? || answer.error == Immutable))
            && (answer.Err? && answer.error.Conflict? ==> r.observed > read.observed)
            && (answer.Err? && answer.error == Immutable ==> r.released)
  {
    assert HoldInv(read.key, s.values[read.key]);
    assert s.values == s.values[read.key := s.values[read.key]];
  }

  /** What one whole settlement did, told against the ledger the others alone would have left. */
  ghost predicate LossFree(s: Ledger, read: Reservation, release: bool, o: Outcome, rounds: nat) {
    var t := Exec(s, o.performed);
    && read.key in t.values && Evolves(read, t.values[read.key])
    && var r := t.values[read.key];
    && (o.answer.Ok? ==> Closable(r, release) && o.answer.value == Closed(r, release) && o.ledger == t.(values := t.values[read.key := o.answer.value]))
    && (o.answer.Err? ==> o.ledger == t)
    && (o.answer.Err? && !o.answer.error.Conflict? ==> o.answer.error == Immutable && r.released)
    && (o.answer.Err? && o.answer.error.Conflict? ==> r.observed as int >= read.observed as int + rounds)
  }

  lemma AnotherRound(s: Ledger, read: Reservation, release: bool, a: seq<Op>, b: seq<Op>, o: Outcome, rounds: nat)
    requires var s1 := Exec(s, a);
             && read.key in s1.values && Evolves(read, s1.values[read.key]) && s1.values[read.key].observed > read.observed
             && var u := Exec(s1, b);
             && read.key in u.values && Evolves(s1.values[read.key], u.values[read.key])
             && LossFree(u, u.values[read.key], release, o, rounds) && u.values[read.key].key == read.key
    ensures LossFree(s, read, release, o.(performed := a + b + o.performed), rounds + 1)
  {
    Joined(s, a, b, o.performed);
  }

  /** The first settlement either ends the loop without loss, or loses to usage that has landed since the read. */
  lemma FirstRound(s: Ledger, read: Reservation, release: bool, a: seq<Op>, rounds: nat)
    requires Inv(s) && read.attemptFinal && read.key.scope.Valid() && read.key in s.values && Evolves(read, s.values[read.key])
    ensures var s1 := Exec(s, a);
            var (t, answer) := Settle(s1, AtRead(read, release));
            && Inv(s1) && read.key in s1.values && Evolves(read, s1.values[read.key]) && s1.values[read.key].key == read.key
            && (answer.Ok? || !answer.error.Conflict? ==> LossFree(s, read, release, Outcome(t, answer, a), rounds))
            && (answer.Err? && answer.error.Conflict? ==> t == s1 && s1.values[read.key].observed > read.observed)
  {
    AfterOthers(s, read, a);
    SettleFromRead(Exec(s, a), read, release);
  }

  /** After a lost round the caller reads the hold again, as the others have left it by then. */
  lemma ReadAgain(s1: Ledger, read: Reservation, b: seq<Op>)
    requires Inv(s1) && read.attemptFinal && read.key in s1.values && Evolves(read, s1.values[read.key]) && s1.values[read.key].key == read.key
    ensures var u := Exec(s1, b);
            && Inv(u) && read.key in u.values
            && var again := u.values[read.key];
            again.key == read.key && again.attemptFinal && Evolves(again, again) && Evolves(s1.values[read.key], again)
  {
    AfterOthers(s1, s1.values[read.key], b);
  }

  /**
   No cost is lost by settlement. Whatever others do in between, a settlement that succeeds closes
   the hold exactly as the others left it — bound brought down to the usage then durable, that usage
   untouched — and one that fails leaves exactly what the others did. It fails only if somebody else
   released the hold, or if usage rose in every single round.
   */
  lemma {:induction false} NoCostIsLost(s: Ledger, read: Reservation, release: bool, others: seq<seq<Op>>, rounds: nat)
    requires Inv(s) && read.attemptFinal && read.key.scope.Valid() && read.key in s.values && Evolves(read, s.values[read.key])
    ensures LossFree(s, read, release, SettleObserved(s, read, release, others, rounds), rounds)
    decreases rounds, 1
  {
    if rounds == 0 { assert Exec(s, []) == s; }
    else {
      assert AtRead(read, release).key == read.key;
      hide LossFree, Exec, Settle, Inv, Evolves, First, Rest, SettleObserved;
      FirstRound(s, read, release, First(others), rounds);
      OneRound(s, read, release, others, rounds);
      var (t, answer) := Settle(Exec(s, First(others)), AtRead(read, release));
      if answer.Err? && answer.error.Conflict? { LostRound(s, read, release, others, rounds); }
    }
  }

  /** A settlement that is not refused for a conflict ends the loop. */
  lemma OneRound(s: Ledger, read: Reservation, release: bool, others: seq<seq<Op>>, rounds: nat)
    requires rounds > 0
    ensures var (t, answer) := Settle(Exec(s, First(others)), AtRead(read, release));
            answer.Ok? || !answer.error.Conflict? ==> SettleObserved(s, read, release, others, rounds) == Outcome(t, answer, First(others))
  {
    hide Exec, Settle;
  }

  /** After a conflict the loop goes on from what the hold has become. */
  lemma NextRound(s: Ledger, read: Reservation, release: bool, others: seq<seq<Op>>, rounds: nat)
    requires rounds > 0
    requires var (t, answer) := Settle(Exec(s, First(others)), AtRead(read, release));
             answer.Err? && answer.error.Conflict? && read.key in Exec(t, First(Rest(others))).values
    ensures var u := Exec(Settle(Exec(s, First(others)), AtRead(read, release)).0, First(Rest(others)));
            var o := SettleObserved(u, u.values[read.key], release, Rest(Rest(others)), rounds - 1);
            SettleObserved(s, read, release, others, rounds) == o.(performed := First(others) + First(Rest(others)) + o.performed)
  {
    hide Exec, Settle;
  }

  /** A round that lost to usage that had landed loses nothing, and the rest of the rounds follow it. */
  lemma {:induction false} LostRound(s: Ledger, read: Reservation, release: bool, others: seq<seq<Op>>, rounds: nat)
    requires Inv(s) && read.attemptFinal && read.key.scope.Valid() && read.key in s.values && Evolves(read, s.values[read.key])
    requires rounds > 0
    requires var (t, answer) := Settle(Exec(s, First(others)), AtRead(read, release)); answer.Err? && answer.error.Conflict?
    ensures LossFree(s, read, release, SettleObserved(s, read, release, others, rounds), rounds)
    decreases rounds, 0
  {
    hide LossFree, Exec, Settle, Inv, Evolves, First, Rest, SettleObserved;
    var a, b := First(others), First(Rest(others));
    var s1 := Exec(s, a);
    FirstRound(s, read, release, a, rounds);
    ReadAgain(s1, read, b);
    var u := Exec(s1, b);
    var again := u.values[read.key];
    NoCostIsLost(u, again, release, Rest(Rest(others)), rounds - 1);
    AnotherRound(s, read, release, a, b, SettleObserved(u, again, release, Rest(Rest(others)), rounds - 1), rounds - 1);
    NextRound(s, read, release, others, rounds);
  }

  lemma AfterOthers(s: Ledger, read: Reservation, ops: seq<Op>)
    requires Inv(s) && read.key in s.values && Evolves(read, s.values[read.key])
    ensures Inv(Exec(s, ops)) && read.key in Exec(s, ops).values
    ensures Evolves(read, Exec(s, ops).values[read.key]) && Evolves(s.values[read.key], Exec(s, ops).values[read.key])
  {
    EveryRunKeepsInv(s, ops);
    EveryRunIsLater(s, ops);
    assert Evolves(s.values[read.key], Exec(s, ops).values[read.key]);
  }

  lemma Joined(s: Ledger, a: seq<Op>, b: seq<Op>, c: seq<Op>)
    ensures Exec(s, a + b + c) == Exec(Exec(Exec(s, a), b), c)
  {
    ExecJoins(s, a + b, c);
    ExecJoins(s, a, b);
  }

  /** While every settlement takes the usage it read, the settled amount is every cost anybody recorded for the hold. */
  lemma EveryAcceptedCostIsIncluded(s: Ledger, read: Reservation, release: bool, others: seq<seq<Op>>, rounds: nat)
    requires Inv(s) && Exact(s) && read.attemptFinal && read.key.scope.Valid() && read.key in s.values && Evolves(read, s.values[read.key])
    requires forall i, j | 0 <= i < |others| && 0 <= j < |others[i]| :: AtObserved(others[i][j])
    ensures var o := SettleObserved(s, read, release, others, rounds);
            o.answer.Ok? ==> o.answer.value.upper == o.answer.value.observed && o.answer.value.upper as int == RecordedCost(o.ledger, read.key)
  {
    var o := SettleObserved(s, read, release, others, rounds);
    NoCostIsLost(s, read, release, others, rounds);
    PerformedAreOthers(s, read, release, others, rounds);
    EveryRunIsExact(s, o.performed);
  }

  lemma {:induction false} PerformedAreOthers(s: Ledger, read: Reservation, release: bool, others: seq<seq<Op>>, rounds: nat)
    requires forall i, j | 0 <= i < |others| && 0 <= j < |others[i]| :: AtObserved(others[i][j])
    ensures forall i | 0 <= i < |SettleObserved(s, read, release, others, rounds).performed| :: AtObserved(SettleObserved(s, read, release, others, rounds).performed[i])
    decreases rounds
  {
    hide Exec, Settle, AtRead;
    if rounds > 0 {
      var (t, answer) := Settle(Exec(s, First(others)), AtRead(read, release));
      var u := Exec(t, First(Rest(others)));
      if answer.Err? && answer.error.Conflict? && read.key in u.values {
        PerformedAreOthers(u, u.values[read.key], release, Rest(Rest(others)), rounds - 1);
      }
    }
  }

  predicate AllAtObserved(ops: seq<Op>) { forall i | 0 <= i < |ops| :: AtObserved(ops[i]) }

  predicate OthersAtObserved(others: seq<seq<Op>>) { forall i | 0 <= i < |others| :: AllAtObserved(others[i]) }

  /** Everything that reached the ledger during one settlement: what the others did, and the settlement that won. */
  ghost function Performed(s: Ledger, read: Reservation, release: bool, others: seq<seq<Op>>): seq<Op>
    requires Inv(s) && read.attemptFinal && read.key.scope.Valid() && read.key in s.values && Evolves(read, s.values[read.key])
  {
    var o := SettleObserved(s, read, release, others, ROUNDS);
    NoCostIsLost(s, read, release, others, ROUNDS);
    o.performed + if o.answer.Ok? then [Settling(AtRead(Exec(s, o.performed).values[read.key], release))] else []
  }

  lemma ExecOne(s: Ledger, op: Op)
    ensures Exec(s, [op]) == Apply(s, op) && Exec(s, []) == s
  {
    assert [op][1..] == [];
  }

  /** So a settlement, with all that interfered, is one run of ledger operations, and closes the hold if it succeeds. */
  lemma SettlementIsARun(s: Ledger, read: Reservation, release: bool, others: seq<seq<Op>>)
    requires Inv(s) && read.attemptFinal && read.key.scope.Valid() && read.key in s.values && Evolves(read, s.values[read.key])
    ensures var o := SettleObserved(s, read, release, others, ROUNDS);
            var done := Performed(s, read, release, others);
            && o.ledger == Exec(s, done) && (OthersAtObserved(others) ==> AllAtObserved(done))
            && (o.answer.Ok? ==> read.key in o.ledger.values && o.ledger.values[read.key] == o.answer.value
                                 && o.answer.value.upper == o.answer.value.observed && o.answer.value.released == release)
  {
    hide Exec, SettleObserved, Inv, Evolves, LossFree, AllAtObserved, OthersAtObserved, ROUNDS;
    var o := SettleObserved(s, read, release, others, ROUNDS);
    var done := Performed(s, read, release, others);
    PerformedAreLawful(s, read, release, others);
    WhatWon(s, read, release, others);
    if o.answer.Ok? {
      var t := Exec(s, o.performed);
      var won := Settling(AtRead(t.values[read.key], release));
      ExecOne(t, won);
      ExecJoins(s, o.performed, [won]);
    } else {
      assert o.performed + [] == o.performed;
    }
  }

  lemma PerformedAreLawful(s: Ledger, read: Reservation, release: bool, others: seq<seq<Op>>)
    requires Inv(s) && read.attemptFinal && read.key.scope.Valid() && read.key in s.values && Evolves(read, s.values[read.key])
    ensures OthersAtObserved(others) ==> AllAtObserved(Performed(s, read, release, others))
  {
    hide Exec, SettleObserved, Inv, Evolves, LossFree, ROUNDS;
    if OthersAtObserved(others) { PerformedAreOthers(s, read, release, others, ROUNDS); }
  }

  /** The settlement that won, against the ledger the others had left by then. */
  lemma WhatWon(s: Ledger, read: Reservation, release: bool, others: seq<seq<Op>>)
    requires Inv(s) && read.attemptFinal && read.key.scope.Valid() && read.key in s.values && Evolves(read, s.values[read.key])
    ensures var o := SettleObserved(s, read, release, others, ROUNDS);
            var t := Exec(s, o.performed);
            && read.key in t.values
            && (o.answer.Ok? ==> o.ledger == Apply(t, Settling(AtRead(t.values[read.key], release))))
            && (o.answer.Ok? ==> o.ledger == t.(values := t.values[read.key := Closed(t.values[read.key], release)]))
            && (o.answer.Ok? ==> o.answer.value == Closed(t.values[read.key], release))
            && (o.answer.Err? ==> o.ledger == t)
  {
    hide Exec, SettleObserved, Inv, ROUNDS, Apply;
    var o := SettleObserved(s, read, release, others, ROUNDS);
    NoCostIsLost(s, read, release, others, ROUNDS);
    AfterOthers(s, read, o.performed);
    if o.answer.Ok? { WinsAgain(Exec(s, o.performed), read.key, release); }
  }

  lemma WinsAgain(t: Ledger, k: Key, release: bool)
    requires Inv(t) && k in t.values && k.scope.Valid() && t.values[k].attemptFinal && Closable(t.values[k], release)
    ensures Apply(t, Settling(AtRead(t.values[k], release))) == t.(values := t.values[k := Closed(t.values[k], release)])
  {
    assert HoldInv(k, t.values[k]);
    assert t.values[k := t.values[k]] == t.values;
  }

  // ---- Recovery sweeps -------------------------------------------------------------------

  datatype Sweep = Superseded(active: nat) | CancelledRuns

  /** A hold this sweep is for: final, unreleased, and not yet closed the way the sweep closes it. */
  predicate Outstanding(r: Reservation, scope: Scope, root: string, sweep: Sweep) {
    && r.In(scope, root) && !r.released && r.attemptFinal
    && match sweep
       case Superseded(active) => r.generation < active && r.upper != r.observed
       case CancelledRuns => r.cancelled
  }

  function SweptAmong(s: Ledger, visited: set<Key>, scope: Scope, root: string, sweep: Sweep): Ledger {
    s.(values := map k | k in s.values ::
         if k in visited && Outstanding(s.values[k], scope, root, sweep) then Closed(s.values[k], sweep.CancelledRuns?) else s.values[k])
  }

  function Swept(s: Ledger, scope: Scope, root: string, sweep: Sweep): Ledger { SweptAmong(s, s.values.Keys, scope, root, sweep) }

  /** A sweep reaches exactly the outstanding holds, leaves none, and takes nothing from a hold but its excess bound. */
  lemma SweepReachesExactly(s: Ledger, scope: Scope, root: string, sweep: Sweep, k: Key)
    requires Inv(s) && k in s.values
    ensures var r, t := s.values[k], Swept(s, scope, root, sweep).values;
            && t.Keys == s.values.Keys && !Outstanding(t[k], scope, root, sweep)
            && (t[k] != r <==> Outstanding(r, scope, root, sweep))
            && (t[k] != r <==> && r.key.scope == scope && r.root == root && r.attemptFinal && !r.released
                               && match sweep case Superseded(active) => r.generation + 1 <= active && r.observed < r.upper case CancelledRuns => r.cancelled)
            && (t[k] != r ==> t[k].upper == t[k].observed == r.observed && (t[k].released <==> sweep.CancelledRuns?))
            && Evolves(r, t[k]) && t[k].expired == r.expired && t[k].cancelled == r.cancelled && t[k].attemptFinal == r.attemptFinal
  {
    assert HoldInv(k, s.values[k]);
  }

  lemma SweepingNothing(t: Ledger, scope: Scope, root: string, sweep: Sweep)
    requires forall k | k in t.values :: !Outstanding(t.values[k], scope, root, sweep)
    ensures Swept(t, scope, root, sweep) == t
  {
    assert Swept(t, scope, root, sweep).values == t.values;
  }

  /** Sweeping twice is sweeping once. */
  lemma SweepConverges(s: Ledger, scope: Scope, root: string, sweep: Sweep)
    requires Inv(s)
    ensures Swept(Swept(s, scope, root, sweep), scope, root, sweep) == Swept(s, scope, root, sweep)
  {
    var t := Swept(s, scope, root, sweep);
    forall k | k in t.values ensures !Outstanding(t.values[k], scope, root, sweep) { SweepReachesExactly(s, scope, root, sweep, k); }
    SweepingNothing(t, scope, root, sweep);
  }

  lemma ClosedIsNotOutstanding(r: Reservation, scope: Scope, root: string, sweep: Sweep)
    requires Outstanding(r, scope, root, sweep)
    ensures !Outstanding(Closed(r, sweep.CancelledRuns?), scope, root, sweep)
  {}

  /** A sweep cut short after any of its holds and run again reaches what one uninterrupted sweep would have. */
  lemma SweepResumes(s: Ledger, visited: set<Key>, scope: Scope, root: string, sweep: Sweep)
    requires Inv(s)
    ensures Swept(SweptAmong(s, visited, scope, root, sweep), scope, root, sweep) == Swept(s, scope, root, sweep)
  {
    hide Inv, Outstanding, Closed;
    var t := SweptAmong(s, visited, scope, root, sweep);
    forall k | k in s.values ensures Swept(t, scope, root, sweep).values[k] == Swept(s, scope, root, sweep).values[k] {
      if Outstanding(s.values[k], scope, root, sweep) { ClosedIsNotOutstanding(s.values[k], scope, root, sweep); }
    }
    assert Swept(t, scope, root, sweep).values == Swept(s, scope, root, sweep).values;
  }

  /** A hold closed the way a sweep closes it. */
  predicate ClosedBy(r: Reservation, sweep: Sweep) { r.upper == r.observed && (sweep.CancelledRuns? ==> r.released) }

  lemma ClosedStays(s: Ledger, ops: seq<Op>, k: Key, sweep: Sweep)
    requires Inv(s) && k in s.values && ClosedBy(s.values[k], sweep)
    ensures k in Exec(s, ops).values && ClosedBy(Exec(s, ops).values[k], sweep)
  {
    SettledForEver(s, ops, k);
    EveryRunIsLater(s, ops);
    assert Evolves(s.values[k], Exec(s, ops).values[k]);
  }

  lemma SweptKeys(s: Ledger, scope: Scope, root: string, sweep: Sweep)
    ensures Swept(s, scope, root, sweep).values.Keys == s.values.Keys && Swept(s, scope, root, sweep).observations == s.observations
  {}

  lemma SweptHoldWeighs(s: Ledger, scope: Scope, root: string, sweep: Sweep, k: Key, inScope: Scope, inRoot: string)
    requires Inv(s) && k in s.values
    ensures var t := Swept(s, scope, root, sweep);
            && k in t.values && HeldWeight(inScope, inRoot)(t.values[k]) <= HeldWeight(inScope, inRoot)(s.values[k])
            && ChargeWeight(inScope, inRoot)(t.values[k]) == ChargeWeight(inScope, inRoot)(s.values[k])
  {
    SweepReachesExactly(s, scope, root, sweep, k);
    hide Inv, Swept, Outstanding;
  }

  /** A sweep never raises what any root holds, and never changes what any root is charged in total. */
  lemma SweepKeepsCharges(s: Ledger, scope: Scope, root: string, sweep: Sweep, inScope: Scope, inRoot: string)
    requires Inv(s)
    ensures Held(Swept(s, scope, root, sweep), inScope, inRoot) <= Held(s, inScope, inRoot)
    ensures RootTotal(Swept(s, scope, root, sweep), inScope, inRoot) == RootTotal(s, inScope, inRoot)
  {
    hide Inv, Swept, HeldWeight, ChargeWeight;
    var t := Swept(s, scope, root, sweep);
    forall k | k in s.values
      ensures k in t.values && HeldWeight(inScope, inRoot)(t.values[k]) <= HeldWeight(inScope, inRoot)(s.values[k])
      ensures ChargeWeight(inScope, inRoot)(t.values[k]) == ChargeWeight(inScope, inRoot)(s.values[k])
    {
      SweptHoldWeighs(s, scope, root, sweep, k, inScope, inRoot);
    }
    assert t.values.Keys == s.values.Keys by { SweptKeys(s, scope, root, sweep); }
    NoMore(t.values, s.values, HeldWeight(inScope, inRoot));
    Same(t.values, s.values, ChargeWeight(inScope, inRoot));
  }

  lemma SweepKeepsInv(s: Ledger, scope: Scope, root: string, sweep: Sweep)
    requires Inv(s)
    ensures Inv(Swept(s, scope, root, sweep))
  {
    var t := Swept(s, scope, root, sweep);
    forall k | k in t.values ensures HoldInv(k, t.values[k]) && FencesRecorded(t, k) && RecordedCost(t, k) <= t.values[k].observed as int {
      assert HoldInv(k, s.values[k]) && FencesRecorded(s, k);
    }
    forall i | i in t.observations ensures ObservationInv(t, i, t.observations[i]) { assert ObservationInv(s, i, s.observations[i]); }
  }

  // ---- Concluding a cancelled run --------------------------------------------------------

  /** A cancelled hold of the run whose attempt's finality is not on the record yet. */
  predicate Unconcluded(r: Reservation, scope: Scope, root: string, run: string) {
    r.In(scope, root) && r.run == run && !r.released && r.cancelled && !r.attemptFinal
  }

  function Finality(r: Reservation): Observation { FenceRecord(r, Conclusion(r.key.id), CancellationFence).(final := true) }

  function FinalityRecords(s: Ledger, visited: set<Key>, scope: Scope, root: string, run: string): map<ObservationKey, Observation> {
    map k | k in visited && k in s.values && Unconcluded(s.values[k], scope, root, run) :: ObservationKey(k.scope, Conclusion(k.id)) := Finality(s.values[k])
  }

  function ConcludedAmong(s: Ledger, visited: set<Key>, scope: Scope, root: string, run: string): Ledger {
    Ledger(
      map k | k in s.values :: if k in visited && Unconcluded(s.values[k], scope, root, run) then s.values[k].(attemptFinal := true) else s.values[k],
      s.observations + FinalityRecords(s, visited, scope, root, run))
  }

  function Concluded(s: Ledger, scope: Scope, root: string, run: string): Ledger {
    Swept(ConcludedAmong(s, s.values.Keys, scope, root, run), scope, root, CancelledRuns)
  }

  /** Nobody has used the identities under which the run's finality is about to be recorded. */
  predicate ConclusionsFree(s: Ledger, scope: Scope, root: string, run: string) {
    forall k | k in s.values && Unconcluded(s.values[k], scope, root, run) :: ObservationKey(k.scope, Conclusion(k.id)) !in s.observations
  }

  lemma FinalityKeepsRecord(s: Ledger, scope: Scope, root: string, run: string, k: Key)
    requires ConclusionsFree(s, scope, root, run)
    ensures RecordedCost(ConcludedAmong(s, s.values.Keys, scope, root, run), k) == RecordedCost(s, k)
  {
    Weightless(s.observations, ConcludedAmong(s, s.values.Keys, scope, root, run).observations, CostWeight(k));
  }

  lemma ConclusionKeepsInv(s: Ledger, scope: Scope, root: string, run: string)
    requires Inv(s) && ConclusionsFree(s, scope, root, run)
    ensures Inv(ConcludedAmong(s, s.values.Keys, scope, root, run)) && Inv(Concluded(s, scope, root, run))
  {
    hide Inv, ConcludedAmong, HoldInv, FencesRecorded, RecordedCost, ObservationInv;
    var t := ConcludedAmong(s, s.values.Keys, scope, root, run);
    forall k | k in t.values ensures HoldInv(k, t.values[k]) && FencesRecorded(t, k) && RecordedCost(t, k) <= t.values[k].observed as int {
      ConcludedHold(s, scope, root, run, k);
    }
    forall i | i in t.observations ensures ObservationInv(t, i, t.observations[i]) { ConcludedObservation(s, scope, root, run, i); }
    InvByParts(t);
    SweepKeepsInv(t, scope, root, CancelledRuns);
    assert Concluded(s, scope, root, run) == Swept(t, scope, root, CancelledRuns);
  }

  lemma ConcludedHold(s: Ledger, scope: Scope, root: string, run: string, k: Key)
    requires Inv(s) && ConclusionsFree(s, scope, root, run)
    requires k in ConcludedAmong(s, s.values.Keys, scope, root, run).values
    ensures var t := ConcludedAmong(s, s.values.Keys, scope, root, run);
            HoldInv(k, t.values[k]) && FencesRecorded(t, k) && RecordedCost(t, k) <= t.values[k].observed as int
  {
    FinalityKeepsRecord(s, scope, root, run, k);
    InvAt(s, k);
    hide Inv, RecordedCost, Finality;
  }

  lemma ConcludedObservation(s: Ledger, scope: Scope, root: string, run: string, i: ObservationKey)
    requires Inv(s) && i in ConcludedAmong(s, s.values.Keys, scope, root, run).observations
    ensures var t := ConcludedAmong(s, s.values.Keys, scope, root, run); ObservationInv(t, i, t.observations[i])
  {
    hide FinalityRecords;
    ConcludedParts(s, s.values.Keys, scope, root, run);
    FinalityAt(s, s.values.Keys, scope, root, run, i);
    hide ConcludedAmong, FencesRecorded, RecordedCost;
    if i in FinalityRecords(s, s.values.Keys, scope, root, run) { assert HoldInv(Key(i.scope, i.id.reservation), s.values[Key(i.scope, i.id.reservation)]); }
    else { assert ObservationInv(s, i, s.observations[i]); }
  }

  /** Concluding a cancelled run releases every cancelled hold of it at its observed usage, and leaves none outstanding. */
  lemma ConclusionReachesTheRun(s: Ledger, scope: Scope, root: string, run: string, k: Key)
    requires Inv(s) && ConclusionsFree(s, scope, root, run) && k in s.values
    ensures var r, t := s.values[k], Concluded(s, scope, root, run).values;
            && k in t && !Outstanding(t[k], scope, root, CancelledRuns) && Evolves(r, t[k]) && t[k].observed == r.observed
            && (r.In(scope, root) && r.run == run && r.cancelled ==> t[k].released)
            && (t[k] != r <==> r.In(scope, root) && r.cancelled && !r.released && (r.run == run || r.attemptFinal))
            && (r.attemptFinal ==> Charge(t[k]) == Charge(r))
  {
    assert HoldInv(k, s.values[k]);
    var m := ConcludedAmong(s, s.values.Keys, scope, root, run);
    ConclusionKeepsInv(s, scope, root, run);
    SweepReachesExactly(m, scope, root, CancelledRuns, k);
  }

  /**
   The identity may be taken: a usage report under it, before the run is cancelled, is what refuses the
   conclusion, from the empty ledger on.
   */
  lemma TakenConclusionRun(e: Estimate, generation: nat, maximum: Micros, now: Time, o: Observation, cancelledAt: Time)
    requires e.id != "" && e.scope.Valid() && 1 <= e.maximumCost <= maximum && cancelledAt != 0
    requires o.Identity() == ObservationKey(e.scope, Conclusion(e.id)) && o.For() == e.Identity() && o.root == e.root
    requires !o.final && 0 <= o.cost <= e.maximumCost
    ensures !ConclusionsFree(Exec(EMPTY, [Reserving(e, generation, maximum, now), Observing(o), FencingCancelled(e.Identity(), cancelledAt)]),
                             e.scope, e.root, e.run)
  {
    hide Exec, Apply;
    var k, r := e.Identity(), NewHold(e, generation);
    ExecThree(EMPTY, Reserving(e, generation, maximum, now), Observing(o), FencingCancelled(k, cancelledAt));
    FirstReservation(e, generation, maximum, now);
    FirstUsage(r, o);
    var s := Ledger(map[k := r.(observed := o.cost)], map[o.Identity() := o]);
    CancelledIsMarked(s, k, cancelledAt);
    var t := Apply(s, FencingCancelled(k, cancelledAt));
    assert k in t.values && Unconcluded(t.values[k], e.scope, e.root, e.run);
  }

  lemma CancelledIsMarked(s: Ledger, k: Key, now: Time)
    requires k in s.values && k.scope.Valid() && k.id != "" && now != 0 && !s.values[k].cancelled && !s.values[k].released
    ensures var t := Apply(s, FencingCancelled(k, now));
            t.values == s.values[k := s.values[k].(cancelled := true)] && forall i | i in s.observations :: i in t.observations
  {}

  ghost predicate NothingLeft(s: Ledger, scope: Scope, root: string, run: string) {
    forall k | k in s.values :: !Unconcluded(s.values[k], scope, root, run) && !Outstanding(s.values[k], scope, root, CancelledRuns)
  }

  lemma ConclusionLeavesNothing(s: Ledger, scope: Scope, root: string, run: string)
    requires Inv(s) && ConclusionsFree(s, scope, root, run)
    ensures NothingLeft(Concluded(s, scope, root, run), scope, root, run)
  {
    var t := Concluded(s, scope, root, run);
    forall k | k in t.values ensures !Unconcluded(t.values[k], scope, root, run) && !Outstanding(t.values[k], scope, root, CancelledRuns) {
      ConclusionReachesTheRun(s, scope, root, run, k);
    }
  }

  lemma ConcludingNothing(t: Ledger, scope: Scope, root: string, run: string)
    requires forall k | k in t.values :: !Unconcluded(t.values[k], scope, root, run)
    ensures ConcludedAmong(t, t.values.Keys, scope, root, run) == t
  {
    assert FinalityRecords(t, t.values.Keys, scope, root, run) == map[];
    assert ConcludedAmong(t, t.values.Keys, scope, root, run).values == t.values;
    assert t.observations + map[] == t.observations;
  }

  lemma NothingLeftToConclude(t: Ledger, scope: Scope, root: string, run: string)
    requires NothingLeft(t, scope, root, run)
    ensures ConclusionsFree(t, scope, root, run) && Concluded(t, scope, root, run) == t
  {
    ConcludingNothing(t, scope, root, run);
    SweepingNothing(t, scope, root, CancelledRuns);
  }

  /** Concluding twice is concluding once, and the second time is never refused. */
  lemma ConclusionConverges(s: Ledger, scope: Scope, root: string, run: string)
    requires Inv(s) && ConclusionsFree(s, scope, root, run)
    ensures var t := Concluded(s, scope, root, run);
            ConclusionsFree(t, scope, root, run) && Concluded(t, scope, root, run) == t
  {
    ConclusionLeavesNothing(s, scope, root, run);
    NothingLeftToConclude(Concluded(s, scope, root, run), scope, root, run);
  }

  lemma ConcludedParts(s: Ledger, visited: set<Key>, scope: Scope, root: string, run: string)
    ensures var m := ConcludedAmong(s, visited, scope, root, run);
            && m.values.Keys == s.values.Keys && m.observations == s.observations + FinalityRecords(s, visited, scope, root, run)
            && forall k | k in s.values ::
                 m.values[k] == if k in visited && Unconcluded(s.values[k], scope, root, run) then s.values[k].(attemptFinal := true) else s.values[k]
  {}

  /** Which record of finality stands under an identity, and whose it is. */
  lemma FinalityAt(s: Ledger, visited: set<Key>, scope: Scope, root: string, run: string, i: ObservationKey)
    ensures var records := FinalityRecords(s, visited, scope, root, run);
            && (i in records ==> i.id.Conclusion?)
            && (i.id.Conclusion? ==>
                  var k := Key(i.scope, i.id.reservation);
                  && (i in records <==> k in visited && k in s.values && Unconcluded(s.values[k], scope, root, run))
                  && (i in records ==> records[i] == Finality(s.values[k])))
  {
    hide Unconcluded, Finality;
    if i.id.Conclusion? {
      var k := Key(i.scope, i.id.reservation);
      assert ObservationKey(k.scope, Conclusion(k.id)) == i;
    }
  }

  lemma FinalityInParts(s: Ledger, visited: set<Key>, scope: Scope, root: string, run: string)
    ensures var m, all := ConcludedAmong(s, visited, scope, root, run), s.values.Keys;
            FinalityRecords(s, visited, scope, root, run) + FinalityRecords(m, all, scope, root, run) == FinalityRecords(s, all, scope, root, run)
  {
    hide FinalityRecords, ConcludedAmong, Finality;
    var m, all := ConcludedAmong(s, visited, scope, root, run), s.values.Keys;
    ConcludedParts(s, visited, scope, root, run);
    var a, b, c := FinalityRecords(s, visited, scope, root, run), FinalityRecords(m, all, scope, root, run), FinalityRecords(s, all, scope, root, run);
    forall i ensures (i in a + b <==> i in c) && (i in c ==> (a + b)[i] == c[i]) {
      FinalityAt(s, visited, scope, root, run, i);
      FinalityAt(m, all, scope, root, run, i);
      FinalityAt(s, all, scope, root, run, i);
    }
  }

  lemma PartlyConcluded(s: Ledger, visited: set<Key>, scope: Scope, root: string, run: string)
    ensures var m := ConcludedAmong(s, visited, scope, root, run);
            ConcludedAmong(m, m.values.Keys, scope, root, run) == ConcludedAmong(s, s.values.Keys, scope, root, run)
  {
    hide FinalityRecords, ConcludedAmong;
    var m, all := ConcludedAmong(s, visited, scope, root, run), s.values.Keys;
    ConcludedParts(s, visited, scope, root, run);
    ConcludedParts(m, all, scope, root, run);
    ConcludedParts(s, all, scope, root, run);
    assert ConcludedAmong(m, all, scope, root, run).values == ConcludedAmong(s, all, scope, root, run).values;
    hide Unconcluded;
    FinalityInParts(s, visited, scope, root, run);
    MergedInTurn(s.observations, FinalityRecords(s, visited, scope, root, run), FinalityRecords(m, all, scope, root, run));
  }

  lemma StillFree(s: Ledger, visited: set<Key>, scope: Scope, root: string, run: string)
    requires ConclusionsFree(s, scope, root, run)
    ensures ConclusionsFree(ConcludedAmong(s, visited, scope, root, run), scope, root, run)
  {
    hide FinalityRecords, ConcludedAmong;
    var m := ConcludedAmong(s, visited, scope, root, run);
    ConcludedParts(s, visited, scope, root, run);
    forall k | k in m.values && Unconcluded(m.values[k], scope, root, run) ensures ObservationKey(k.scope, Conclusion(k.id)) !in m.observations {
      FinalityAt(s, visited, scope, root, run, ObservationKey(k.scope, Conclusion(k.id)));
    }
  }

  /** A conclusion cut short among its records of finality, and run again, is not refused and reaches the same ledger. */
  lemma ConclusionResumes(s: Ledger, visited: set<Key>, scope: Scope, root: string, run: string)
    requires ConclusionsFree(s, scope, root, run)
    ensures var m := ConcludedAmong(s, visited, scope, root, run);
            ConclusionsFree(m, scope, root, run) && Concluded(m, scope, root, run) == Concluded(s, scope, root, run)
  {
    hide ConclusionsFree, ConcludedAmong;
    PartlyConcluded(s, visited, scope, root, run);
    StillFree(s, visited, scope, root, run);
  }

  lemma NothingUnconcluded(s: Ledger, visited: set<Key>, scope: Scope, root: string, run: string, inScope: Scope, inRoot: string)
    ensures var m := SweptAmong(ConcludedAmong(s, s.values.Keys, scope, root, run), visited, inScope, inRoot, CancelledRuns);
            forall k | k in m.values :: !Unconcluded(m.values[k], scope, root, run)
  {
    hide ConcludedAmong, FinalityRecords;
    ConcludedParts(s, s.values.Keys, scope, root, run);
  }

  /** So does one cut short among its settlements. */
  lemma SettlingConclusionResumes(s: Ledger, visited: set<Key>, scope: Scope, root: string, run: string)
    requires Inv(s) && ConclusionsFree(s, scope, root, run)
    ensures var m := SweptAmong(ConcludedAmong(s, s.values.Keys, scope, root, run), visited, scope, root, CancelledRuns);
            ConclusionsFree(m, scope, root, run) && Concluded(m, scope, root, run) == Concluded(s, scope, root, run)
  {
    hide ConcludedAmong, SweptAmong, Inv, Unconcluded;
    var f := ConcludedAmong(s, s.values.Keys, scope, root, run);
    var m := SweptAmong(f, visited, scope, root, CancelledRuns);
    ConclusionKeepsInv(s, scope, root, run);
    NothingUnconcluded(s, visited, scope, root, run, scope, root);
    ConcludingNothing(m, scope, root, run);
    SweepResumes(f, visited, scope, root, CancelledRuns);
  }

  /** Concluding never raises what any root holds. */
  lemma ConclusionNeverRaisesHeld(s: Ledger, scope: Scope, root: string, run: string, inScope: Scope, inRoot: string)
    requires Inv(s) && ConclusionsFree(s, scope, root, run)
    ensures Held(Concluded(s, scope, root, run), inScope, inRoot) <= Held(s, inScope, inRoot)
  {
    hide Inv, ConclusionsFree, ConcludedAmong, Swept, Held;
    ConclusionKeepsInv(s, scope, root, run);
    SweepKeepsCharges(ConcludedAmong(s, s.values.Keys, scope, root, run), scope, root, CancelledRuns, inScope, inRoot);
    FinalityKeepsHeld(s, scope, root, run, inScope, inRoot);
  }

  lemma FinalityKeepsHeld(s: Ledger, scope: Scope, root: string, run: string, inScope: Scope, inRoot: string)
    ensures Held(ConcludedAmong(s, s.values.Keys, scope, root, run), inScope, inRoot) == Held(s, inScope, inRoot)
  {
    hide FinalityRecords, Unconcluded;
    Same(ConcludedAmong(s, s.values.Keys, scope, root, run).values, s.values, HeldWeight(inScope, inRoot));
  }

  // ---- Review ----------------------------------------------------------------------------

  /** The review threshold, computed without forming the product of the bound and the basis points. */
  function ReviewThreshold(maximum: Micros, basisPoints: Micros): Micros
    requires maximum >= 1 && 1 <= basisPoints <= 10_000
    ensures 0 <= ReviewThreshold(maximum, basisPoints) as int
  {
    ThresholdFits(maximum as int, basisPoints as int);
    maximum / 10_000 * basisPoints + (maximum % 10_000 * basisPoints + 9_999) / 10_000
  }

  lemma ThresholdFits(maximum: int, basisPoints: int)
    requires 1 <= maximum <= MAX_MICROS && 1 <= basisPoints <= 10_000
    ensures 0 <= maximum / 10_000 * basisPoints <= maximum
    ensures 0 <= maximum % 10_000 * basisPoints <= 99_990_000
    ensures maximum / 10_000 * basisPoints + (maximum % 10_000 * basisPoints + 9_999) / 10_000 <= maximum
  {
    var whole, remainder := maximum / 10_000, maximum % 10_000;
    Scales(whole, basisPoints);
    Scales(remainder, basisPoints);
  }

  lemma Scales(x: int, basisPoints: int)
    requires x >= 0 && 1 <= basisPoints <= 10_000
    ensures 0 <= x * basisPoints <= x * 10_000
  {}

  /** Review is due exactly when the held total has reached the configured share of the bound, in exact arithmetic. */
  lemma ReviewIsExact(held: int, maximum: Micros, basisPoints: Micros)
    requires maximum >= 1 && 1 <= basisPoints <= 10_000
    ensures held >= ReviewThreshold(maximum, basisPoints) as int <==> held * 10_000 >= maximum as int * basisPoints as int
  {
    var whole, remainder, b := maximum as int / 10_000, maximum as int % 10_000, basisPoints as int;
    assert maximum as int == whole * 10_000 + remainder;
    assert maximum as int * b == whole * b * 10_000 + remainder * b;
    ThresholdFits(maximum as int, b);
  }
}
