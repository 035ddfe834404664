/** The budget controller: admission of dispatches, settlement, and the recovery sweeps, over one ledger. */
module BudgetController {
  import opened Wrappers
  import opened MapSums
  import opened Budget
  import opened BudgetRuns
  import opened BudgetSettlement
  import opened BudgetLedger

  // ---- Others at work between the calls of a sweep ----------------------------------------

  /** What others do during the settlement of the next hold, and during the later ones. */
  function Current(others: seq<seq<seq<Op>>>): seq<seq<Op>> { if others == [] then [] else others[0] }
  function Remaining(others: seq<seq<seq<Op>>>): seq<seq<seq<Op>>> { if others == [] then [] else others[1..] }

  predicate AllOthersAtObserved(others: seq<seq<seq<Op>>>) { forall i | 0 <= i < |others| :: OthersAtObserved(others[i]) }

  /** The holds of one root as they were listed, at this moment or an earlier one. */
  ghost predicate Listing(s: Ledger, listed: map<Key, Reservation>, scope: Scope, root: string) {
    forall k | k in listed :: listed[k].key == k && listed[k].In(scope, root) && k in s.values && Evolves(listed[k], s.values[k])
  }

  predicate UpToDate(s: Ledger, listed: map<Key, Reservation>) { forall k | k in listed :: k in s.values && s.values[k] == listed[k] }

  function OutstandingListed(listed: map<Key, Reservation>, visited: set<Key>, scope: Scope, root: string, sweep: Sweep): set<Key> {
    set k | k in visited && k in listed && Outstanding(listed[k], scope, root, sweep)
  }

  ghost predicate AllClosed(s: Ledger, holds: set<Key>, sweep: Sweep) { forall k | k in holds :: k in s.values && ClosedBy(s.values[k], sweep) }

  lemma ListingStays(s: Ledger, ops: seq<Op>, listed: map<Key, Reservation>, scope: Scope, root: string)
    requires Inv(s) && Listing(s, listed, scope, root)
    ensures Listing(Exec(s, ops), listed, scope, root)
  {
    EveryRunIsLater(s, ops);
    var t := Exec(s, ops);
    forall k | k in listed ensures k in t.values && Evolves(listed[k], t.values[k]) {
      assert Evolves(listed[k], s.values[k]) && Evolves(s.values[k], t.values[k]);
    }
  }

  lemma AllStayClosed(s: Ledger, ops: seq<Op>, holds: set<Key>, sweep: Sweep)
    requires Inv(s) && AllClosed(s, holds, sweep)
    ensures AllClosed(Exec(s, ops), holds, sweep)
  {
    forall k | k in holds ensures k in Exec(s, ops).values && ClosedBy(Exec(s, ops).values[k], sweep) { ClosedStays(s, ops, k, sweep); }
  }

  lemma JoinedAtObserved(a: seq<Op>, b: seq<Op>)
    requires AllAtObserved(a) && AllAtObserved(b)
    ensures AllAtObserved(a + b)
  {}

  function OutstandingAmong(s: Ledger, visited: set<Key>, scope: Scope, root: string, sweep: Sweep): set<Key> {
    set k | k in visited && k in s.values && Outstanding(s.values[k], scope, root, sweep)
  }

  /** Sweeping one more hold. */
  lemma SweepOneMore(s: Ledger, visited: set<Key>, k: Key, scope: Scope, root: string, sweep: Sweep)
    requires k in s.values && k !in visited
    ensures var was, next := SweptAmong(s, visited, scope, root, sweep).values, SweptAmong(s, visited + {k}, scope, root, sweep).values;
            && was[k] == s.values[k]
            && next == if Outstanding(s.values[k], scope, root, sweep) then was[k := Closed(s.values[k], sweep.CancelledRuns?)] else was
  {
    var was, next := SweptAmong(s, visited, scope, root, sweep).values, SweptAmong(s, visited + {k}, scope, root, sweep).values;
    if Outstanding(s.values[k], scope, root, sweep) {
      assert next == was[k := Closed(s.values[k], sweep.CancelledRuns?)];
    } else {
      assert next == was;
    }
  }

  /** Holds of other roots are never swept, so visiting the root's own is visiting all. */
  lemma SweepingTheRootIsAll(s: Ledger, visited: set<Key>, scope: Scope, root: string, sweep: Sweep)
    requires forall k | k in s.values && s.values[k].In(scope, root) :: k in visited
    ensures SweptAmong(s, visited, scope, root, sweep) == Swept(s, scope, root, sweep)
    ensures OutstandingAmong(s, visited, scope, root, sweep) == OutstandingAmong(s, s.values.Keys, scope, root, sweep)
  {
    assert SweptAmong(s, visited, scope, root, sweep).values == Swept(s, scope, root, sweep).values;
  }

  lemma FinalityAtObserved(others: seq<Op>, value: Reservation)
    ensures AllAtObserved(others) ==> AllAtObserved(others + [Observing(Finality(value))])
  {}

  lemma RootIsListed(s: Ledger, listed: map<Key, Reservation>, scope: Scope, root: string)
    requires Inv(s) && listed == map k | k in s.values && s.values[k].In(scope, root) :: s.values[k]
    ensures Listing(s, listed, scope, root) && UpToDate(s, listed)
    ensures listed.Keys <= s.values.Keys && forall k | k in s.values && s.values[k].In(scope, root) :: k in listed.Keys
  {
    forall k | k in listed ensures listed[k].key == k { assert HoldInv(k, s.values[k]); }
  }

  lemma ListedAreHeld(s: Ledger, listed: map<Key, Reservation>, scope: Scope, root: string, sweep: Sweep)
    requires UpToDate(s, listed)
    ensures OutstandingListed(listed, listed.Keys, scope, root, sweep) == OutstandingAmong(s, listed.Keys, scope, root, sweep)
  {}

  lemma ListedHold(s: Ledger, listed: map<Key, Reservation>, scope: Scope, root: string, k: Key)
    requires Listing(s, listed, scope, root) && k in listed
    ensures listed[k].key == k && listed[k].In(scope, root) && k in s.values && Evolves(listed[k], s.values[k])
  {}

  lemma OneMoreListed(listed: map<Key, Reservation>, visited: set<Key>, k: Key, scope: Scope, root: string, sweep: Sweep)
    requires k in listed
    ensures OutstandingListed(listed, visited + {k}, scope, root, sweep)
            == OutstandingListed(listed, visited, scope, root, sweep) + if Outstanding(listed[k], scope, root, sweep) then {k} else {}
  {}

  lemma OneMoreClosed(s: Ledger, holds: set<Key>, k: Key, changed: bool, sweep: Sweep)
    requires AllClosed(s, holds, sweep) && (changed ==> k in s.values && ClosedBy(s.values[k], sweep))
    ensures AllClosed(s, holds + if changed then {k} else {}, sweep)
  {}

  lemma CurrentAtObserved(waiting: seq<seq<seq<Op>>>)
    requires AllOthersAtObserved(waiting)
    ensures OthersAtObserved(Current(waiting)) && AllOthersAtObserved(Remaining(waiting))
  {}

  lemma NothingSettled(s: Ledger, listed: map<Key, Reservation>, scope: Scope, root: string, sweep: Sweep)
    ensures OutstandingListed(listed, {}, scope, root, sweep) == {} && AllClosed(s, {}, sweep)
  {}

  lemma NobodyWaits()
    ensures Current([]) == [] && Remaining([]) == []
  {}

  /** With nobody about, a listed hold is still as it was listed when its turn comes. */
  lemma QuietTurn(before: Ledger, listed: map<Key, Reservation>, visited: set<Key>, k: Key, scope: Scope, root: string, sweep: Sweep)
    requires UpToDate(before, listed) && k in listed && k !in visited
    ensures var s := SweptAmong(before, visited, scope, root, sweep);
            && k in s.values && s.values[k] == listed[k]
            && SweptAmong(before, visited + {k}, scope, root, sweep)
               == if Outstanding(listed[k], scope, root, sweep) then s.(values := s.values[k := Closed(listed[k], sweep.CancelledRuns?)]) else s
  {
    SweepOneMore(before, visited, k, scope, root, sweep);
  }

  lemma NothingAtObserved()
    ensures AllAtObserved([])
  {}

  lemma SweepingNobody(s: Ledger, scope: Scope, root: string, sweep: Sweep)
    ensures SweptAmong(s, {}, scope, root, sweep) == s
  {
    assert SweptAmong(s, {}, scope, root, sweep).values == s.values;
  }

  /** With nobody else about, a final, unreleased hold settles in the first round. */
  lemma UncontendedSettlement(s: Ledger, k: Key, release: bool)
    requires Inv(s) && k in s.values && k.scope.Valid() && s.values[k].attemptFinal && !s.values[k].released
    ensures var o := SettleObserved(s, s.values[k], release, [], ROUNDS);
            o.answer == Ok(Closed(s.values[k], release)) && o.ledger == s.(values := s.values[k := Closed(s.values[k], release)])
  {
    assert HoldInv(k, s.values[k]);
    assert Exec(s, []) == s;
    SettleFromRead(s, s.values[k], release);
  }

  lemma ReadHold(s: Ledger, k: Key)
    requires Inv(s) && k in s.values
    ensures HoldInv(k, s.values[k]) && Evolves(s.values[k], s.values[k]) && s.values == s.values[k := s.values[k]]
  {}

  /** A settlement computed from an earlier read and a final cost between its usage and its bound, if it wins, does what was asked. */
  lemma AskedSettlement(s: Ledger, read: Reservation, v: Settlement)
    requires Inv(s) && v.key.scope.Valid() && v.key in s.values && Evolves(read, s.values[v.key]) && read.attemptFinal
    requires v.generation == read.generation && v.expectedObserved == read.observed <= v.finalCost <= read.upper && v.expectedFinal
    requires read.released ==> read.upper == read.observed
    ensures var (t, answer) := Settle(s, v);
            && (answer.Ok? ==> v.key in t.values && t.values[v.key] == answer.value && answer.value.observed == answer.value.upper == v.finalCost)
            && (answer.Ok? ==> answer.value.released == v.release && (read.released ==> v.release))
            && (s.values[v.key] == read && (read.released ==> v.release) ==> answer.Ok?)
            && t == if answer.Ok? then s.(values := s.values[v.key := answer.value]) else s
  {
    assert s.values == s.values[v.key := s.values[v.key]];
  }

  /** Over any run a hold's usage only rises and its bound only falls. */
  lemma ClosedHoldKeepsUsage(s: Ledger, k: Key, ops: seq<Op>)
    requires Inv(s) && k in s.values
    ensures k in Exec(s, ops).values
    ensures s.values[k].observed <= Exec(s, ops).values[k].observed <= Exec(s, ops).values[k].upper <= s.values[k].upper
  {
    hide Exec;
    EveryRunKeepsInv(s, ops);
    EveryRunIsLater(s, ops);
    assert Evolves(s.values[k], Exec(s, ops).values[k]) && HoldInv(k, Exec(s, ops).values[k]);
  }

  lemma ReservingKeepsHeadroom(s: Ledger, e: Estimate, generation: nat, maximum: Micros, now: Time)
    requires Inv(s) && Headroom(s, maximum as int)
    ensures Headroom(Budget.Reserve(s, e, generation, maximum, now).0, maximum as int)
  {
    hide *;
    ApplyKeepsHeadroom(s, Reserving(e, generation, maximum, now), maximum as int);
    assert Apply(s, Reserving(e, generation, maximum, now)) == Budget.Reserve(s, e, generation, maximum, now).0 by { ReservingApplies(s, e, generation, maximum, now); }
  }

  lemma ReservingApplies(s: Ledger, e: Estimate, generation: nat, maximum: Micros, now: Time)
    ensures Apply(s, Reserving(e, generation, maximum, now)) == Budget.Reserve(s, e, generation, maximum, now).0
  {}

  /** A reservation is answered with the hold now on the ledger, as asked for and not fenced. */
  lemma ReservationAnswer(s: Ledger, e: Estimate, generation: nat, maximum: Micros, now: Time)
    ensures var (t, answer) := Budget.Reserve(s, e, generation, maximum, now);
            answer.Ok? ==> e.Identity() in t.values && t.values[e.Identity()] == answer.value && SameBinding(answer.value, e, generation) && !answer.value.Fenced()
  {}

  /** One round of the settlement loop. */
  lemma SettleRound(s: Ledger, read: Reservation, release: bool, others: seq<seq<Op>>, rounds: nat)
    requires rounds > 0
    ensures var (t, answer) := Budget.Settle(Exec(s, First(others)), AtRead(read, release));
            var u := Exec(t, First(Rest(others)));
            var o := SettleObserved(s, read, release, others, rounds);
            && (answer.Ok? || !answer.error.Conflict? ==> o.ledger == t && o.answer == answer)
            && (answer.Err? && answer.error.Conflict? && read.key !in u.values ==> o.ledger == u && o.answer == Err(NotFound))
            && (answer.Err? && answer.error.Conflict? && read.key in u.values ==>
                  var p := SettleObserved(u, u.values[read.key], release, Rest(Rest(others)), rounds - 1); o.ledger == p.ledger && o.answer == p.answer)
  {}

  lemma NoRounds(s: Ledger, read: Reservation, release: bool, others: seq<seq<Op>>)
    ensures SettleObserved(s, read, release, others, 0).ledger == s
    ensures SettleObserved(s, read, release, others, 0).answer == Err(Conflict(read.observed, read.attemptFinal))
  {}

  lemma KeyedByItself(s: Ledger, k: Key)
    requires Inv(s) && k in s.values
    ensures s.values[k].key == k
  {
    assert HoldInv(k, s.values[k]);
  }

  /** An estimate the controller takes to the ledger at all. */
  predicate Requestable(e: Estimate, generation: nat, now: Time) {
    && e.id != "" && e.root != "" && e.run != "" && e.scope.Valid() && e.policyVersion != "" && e.budgetVersion != ""
    && e.maximumCost >= 1 && now != 0 && e.expiresAt != 0 && generation != 0
  }

  /** A replay is granted its own open hold; anything new, if the root's held total leaves room for it. */
  ghost predicate Granted(s: Ledger, e: Estimate, generation: nat, maximum: Micros, now: Time) {
    if e.Identity() in s.values
    then SameBinding(s.values[e.Identity()], e, generation) && !s.values[e.Identity()].Fenced() && !Elapsed(s.values[e.Identity()], e.scope, e.root, now)
    else Held(s, e.scope, e.root) + e.maximumCost as int <= maximum as int
  }

  lemma GrantIsExact(s: Ledger, e: Estimate, generation: nat, maximum: Micros, now: Time)
    requires Inv(s) && Headroom(s, maximum as int) && maximum >= 1 && e.id != "" && e.scope.Valid() && e.maximumCost >= 1
    ensures Budget.Reserve(s, e, generation, maximum, now).1.Ok? <==> Granted(s, e, generation, maximum, now)
  {
    if e.Identity() in s.values {
      hide Budget.Reserve, Inv, Headroom, Held;
      ReplayAnswer(s, e, generation, maximum, now);
    } else {
      assert Held(s, e.scope, e.root) <= maximum as int;
      FencingKeepsHeld(s, e.scope, e.root, now, e.scope, e.root);
      hide Inv, Headroom, Held;
    }
  }

  /** Whether reconciling a final hold can succeed, for the active generation or a superseded one. */
  predicate Reconcilable(s: Ledger, k: Key, generation: nat, current: Option<nat>, finalCost: Option<Micros>, release: bool) {
    && k.scope.Valid() && k in s.values && current.Some?
    && var r := s.values[k];
       && 0 < generation == r.generation <= current.value && r.attemptFinal
       && if generation < current.value then finalCost.None? || finalCost.value == r.observed else Settleable(r, finalCost.GetOr(r.upper), release)
  }

  /** Whether reconciling a final hold under the active generation can succeed, with `cost` as its final cost. */
  predicate Settleable(r: Reservation, cost: Micros, release: bool) {
    r.observed <= cost <= r.upper && (r.released ==> release)
  }

  class Controller {
    const ledger: MemoryLedger
    const maximum: Micros

    constructor (maximum: Micros)
      requires maximum >= 1
      ensures fresh(ledger) && this.maximum == maximum && Valid() && ledger.State() == EMPTY
    {
      ledger := new MemoryLedger();
      this.maximum := maximum;
    }

    /** The ledger is sound and within this controller's bound. */
    ghost predicate Valid()
      reads ledger
    {
      maximum >= 1 && ledger.Valid() && Headroom(ledger.State(), maximum as int)
    }

    /** Reserves before dispatch, for the active generation only. */
    method Reserve(e: Estimate, generation: nat, current: Option<nat>, now: Time) returns (answer: Result<Reservation, Problem>)
      requires Valid()
      modifies ledger
      ensures Valid()
      ensures answer.Ok? <==> Requestable(e, generation, now) && current == Some(generation) && Granted(old(ledger.State()), e, generation, maximum, now)
      ensures ledger.State() == if Requestable(e, generation, now) && current == Some(generation)
                                then Budget.Reserve(old(ledger.State()), e, generation, maximum, now).0 else old(ledger.State())
      // Otherwise it is refused before the ledger is asked, or as the ledger refuses it.
      ensures !Requestable(e, generation, now) ==> answer == Err(Invalid)
      ensures Requestable(e, generation, now) && current != Some(generation) ==> answer == Err(Unauthorized)
      ensures Requestable(e, generation, now) && current == Some(generation) ==> answer == Budget.Reserve(old(ledger.State()), e, generation, maximum, now).1
      ensures answer.Ok? ==> e.Identity() in ledger.values && ledger.values[e.Identity()] == answer.value
      ensures answer.Ok? ==> SameBinding(answer.value, e, generation) && !answer.value.Fenced()
      ensures Later(old(ledger.State()), ledger.State())
    {
      ghost var before := ledger.State();
      if e.id == "" || e.root == "" || e.run == "" || !e.scope.Valid() || e.policyVersion == "" || e.budgetVersion == "" || e.maximumCost < 1
         || now == 0 || e.expiresAt == 0 || generation == 0 {
        return Err(Invalid);
      }
      if current != Some(generation) {
        return Err(Unauthorized);
      }
      hide Budget.Reserve, Later, Headroom, Inv, Granted;
      GrantIsExact(before, e, generation, maximum, now);
      answer := ledger.Reserve(e, generation, maximum, now);
      ReservingKeepsHeadroom(before, e, generation, maximum, now);
      ReservationAnswer(before, e, generation, maximum, now);
      ReservingIsLater(before, e, generation, maximum, now);
    }

    /** Proves reservation before dispatch at the moment of dispatch. */
    method Dispatch(k: Key, generation: nat, current: Option<nat>, now: Time) returns (admitted: bool)
      ensures admitted <==> Dispatches(ledger.State(), k, generation, current, now)
    {
      if !k.scope.Valid() {
        return false;
      }
      var found := ledger.Find(k);
      if found.Err? || found.value.released || found.value.expired || found.value.cancelled || found.value.generation != generation {
        return false;
      }
      if now == 0 || now >= found.value.expiresAt {
        return false;
      }
      return current == Some(generation);
    }

    /** Settles at observed usage, re-reading whenever usage has landed since the last read; `others` act before each ledger call. */
    method Settle(read: Reservation, release: bool, others: seq<seq<Op>>) returns (answer: Result<Reservation, Problem>)
      requires ledger.Valid() && read.key.scope.Valid()
      modifies ledger
      ensures ledger.Valid()
      ensures ledger.State() == SettleObserved(old(ledger.State()), read, release, others, ROUNDS).ledger
      ensures answer == SettleObserved(old(ledger.State()), read, release, others, ROUNDS).answer
    {
      hide SettleObserved, Budget.Settle, Exec, Inv, First, Rest;
      ghost var o := SettleObserved(ledger.State(), read, release, others, ROUNDS);
      var current, waiting := read, others;
      var attempt := 0;
      while attempt < ROUNDS
        invariant 0 <= attempt <= ROUNDS && ledger.Valid() && current.key == read.key
        invariant SettleObserved(ledger.State(), current, release, waiting, ROUNDS - attempt).ledger == o.ledger
        invariant SettleObserved(ledger.State(), current, release, waiting, ROUNDS - attempt).answer == o.answer
      {
        SettleRound(ledger.State(), current, release, waiting, ROUNDS - attempt);
        ledger.Perform(First(waiting));
        var settled := ledger.Settle(AtRead(current, release));
        if settled.Ok? || !settled.error.Conflict? {
          return settled;
        }
        ledger.Perform(First(Rest(waiting)));
        var reread := ledger.Find(current.key);
        if reread.Err? {
          return reread;
        }
        KeyedByItself(ledger.State(), current.key);
        current, waiting := reread.value, Rest(Rest(waiting));
        attempt := attempt + 1;
      }
      NoRounds(ledger.State(), current, release, waiting);
      return Err(Conflict(current.observed, current.attemptFinal));
    }

    /** Closes one listed hold the sweep is for, whatever others do meanwhile; leaves any other alone. */
    method SettleOne(value: Reservation, scope: Scope, root: string, sweep: Sweep, others: seq<seq<Op>>)
      returns (answer: Result<bool, Problem>, ghost done: seq<Op>)
      requires ledger.Valid() && scope.Valid() && value.In(scope, root) && value.key in ledger.values && Evolves(value, ledger.values[value.key])
      modifies ledger
      ensures ledger.Valid() && ledger.State() == Exec(old(ledger.State()), done) && (OthersAtObserved(others) ==> AllAtObserved(done))
      ensures answer.Ok? ==> (answer.value <==> Outstanding(value, scope, root, sweep))
      ensures answer.Ok? && answer.value ==> value.key in ledger.values && ClosedBy(ledger.values[value.key], sweep)
      ensures others == [] && value == old(ledger.values)[value.key] ==> answer.Ok?
      ensures others == [] && value == old(ledger.values)[value.key] ==>
                ledger.State() == if answer.value then old(ledger.State()).(values := old(ledger.values)[value.key := Closed(value, sweep.CancelledRuns?)])
                                  else old(ledger.State())
    {
      done := [];
      ExecOne(ledger.State(), Settling(AtRead(value, false)));
      if value.released || !value.attemptFinal {
        return Ok(false), [];
      }
      match sweep {
        case Superseded(active) =>
          if value.generation >= active || value.upper == value.observed {
            return Ok(false), [];
          }
        case CancelledRuns =>
          if !value.cancelled {
            return Ok(false), [];
          }
      }
      ghost var before := ledger.State();
      hide SettleObserved, Exec, Inv, AllAtObserved, OthersAtObserved, Evolves;
      SettlementIsARun(before, value, sweep.CancelledRuns?, others);
      if others == [] && value == ledger.values[value.key] { UncontendedSettlement(before, value.key, sweep.CancelledRuns?); }
      var settled := Settle(value, sweep.CancelledRuns?, others);
      done := Performed(before, value, sweep.CancelledRuns?, others);
      if settled.Err? {
        return Err(settled.error), done;
      }
      return Ok(true), done;
    }

    /**
     Settles every outstanding hold of one root aggregate, and reports which. Whatever others do
     between and during the settlements, the ledger is what a run of its own operations makes of it,
     and a sweep that succeeds has closed every hold that was outstanding when it listed them.
     */
    method SweepHolds(scope: Scope, root: string, sweep: Sweep, others: seq<seq<seq<Op>>>)
      returns (answer: Result<set<Key>, Problem>, ghost done: seq<Op>)
      requires ledger.Valid() && scope.Valid()
      modifies ledger
      ensures ledger.Valid() && ledger.State() == Exec(old(ledger.State()), done) && (AllOthersAtObserved(others) ==> AllAtObserved(done))
      ensures answer.Ok? ==> answer.value == OutstandingAmong(old(ledger.State()), old(ledger.values.Keys), scope, root, sweep)
      ensures answer.Ok? ==> AllClosed(ledger.State(), answer.value, sweep)
      ensures others == [] ==> answer.Ok? && ledger.State() == Swept(old(ledger.State()), scope, root, sweep)
    {
      hide SweptAmong, Swept, OutstandingAmong, OutstandingListed, AllClosed, AllAtObserved, AllOthersAtObserved, Exec, Inv, Listing, UpToDate;
      ghost var before := ledger.State();
      var held := ledger.RootReservations(scope, root);
      RootIsListed(before, held, scope, root);
      SweepingTheRootIsAll(before, held.Keys, scope, root, sweep);
      ListedAreHeld(before, held, scope, root, sweep);
      answer, done := SweepListed(held, scope, root, sweep, others);
    }

    method SweepListed(listed: map<Key, Reservation>, scope: Scope, root: string, sweep: Sweep, others: seq<seq<seq<Op>>>)
      returns (answer: Result<set<Key>, Problem>, ghost done: seq<Op>)
      requires ledger.Valid() && scope.Valid() && Listing(ledger.State(), listed, scope, root)
      modifies ledger
      ensures ledger.Valid() && ledger.State() == Exec(old(ledger.State()), done) && (AllOthersAtObserved(others) ==> AllAtObserved(done))
      ensures answer.Ok? ==> answer.value == OutstandingListed(listed, listed.Keys, scope, root, sweep)
      ensures answer.Ok? ==> AllClosed(ledger.State(), answer.value, sweep)
      ensures others == [] && UpToDate(old(ledger.State()), listed) ==> answer.Ok?
      ensures others == [] && UpToDate(old(ledger.State()), listed) ==> ledger.State() == SweptAmong(old(ledger.State()), listed.Keys, scope, root, sweep)
    {
      hide SettleObserved, Exec, Inv, AllAtObserved, OthersAtObserved, AllOthersAtObserved, Evolves, SweptAmong, Outstanding, ClosedBy;
      hide Listing, AllClosed, UpToDate, OutstandingListed, Current, Remaining;
      ghost var before := ledger.State();
      ghost var quiet := others == [] && UpToDate(before, listed);
      SweepingNobody(before, scope, root, sweep);
      ExecOne(before, FencingExpired(scope, root, 0));
      NothingAtObserved();
      NothingSettled(before, listed, scope, root, sweep);
      NobodyWaits();
      var remaining, settled, waiting := listed.Keys, {}, others;
      ghost var visited: set<Key> := {};
      done := [];
      while remaining != {}
        invariant ledger.Valid() && visited + remaining == listed.Keys && visited !! remaining
        invariant ledger.State() == Exec(before, done) && (AllOthersAtObserved(others) ==> AllAtObserved(done) && AllOthersAtObserved(waiting))
        invariant Listing(ledger.State(), listed, scope, root)
        invariant settled == OutstandingListed(listed, visited, scope, root, sweep) && AllClosed(ledger.State(), settled, sweep)
        invariant others == [] ==> waiting == []
        invariant quiet ==> ledger.State() == SweptAmong(before, visited, scope, root, sweep)
        decreases |remaining|
      {
        var k :| k in remaining;
        VisitOne(listed.Keys, visited, remaining, k);
        ghost var middle := ledger.State();
        if quiet { QuietTurn(before, listed, visited, k, scope, root, sweep); }
        ListedHold(middle, listed, scope, root, k);
        if AllOthersAtObserved(others) { CurrentAtObserved(waiting); }
        OneMoreListed(listed, visited, k, scope, root, sweep);
        var changed, more := SettleOne(listed[k], scope, root, sweep, Current(waiting));
        ExecJoins(before, done, more);
        if AllOthersAtObserved(others) { JoinedAtObserved(done, more); }
        done := done + more;
        if changed.Err? {
          return Err(changed.error), done;
        }
        AllStayClosed(middle, more, settled, sweep);
        OneMoreClosed(ledger.State(), settled, k, changed.value, sweep);
        ListingStays(middle, more, listed, scope, root);
        settled := settled + if changed.value then {k} else {};
        remaining, visited, waiting := remaining - {k}, visited + {k}, Remaining(waiting);
      }
      assert visited == listed.Keys;
      return Ok(settled), done;
    }

    /** Recovers the holds of generations the active one has superseded. */
    method RecoverSuperseded(scope: Scope, root: string, authorized: bool, current: Option<nat>, others: seq<seq<seq<Op>>>)
      returns (answer: Result<set<Key>, Problem>, ghost done: seq<Op>)
      requires ledger.Valid()
      modifies ledger
      ensures ledger.Valid() && ledger.State() == Exec(old(ledger.State()), done) && (AllOthersAtObserved(others) ==> AllAtObserved(done))
      ensures answer.Ok? ==> scope.Valid() && root != "" && authorized && current.Some? && current.value != 0
      ensures answer.Ok? ==> answer.value == OutstandingAmong(old(ledger.State()), old(ledger.values.Keys), scope, root, Superseded(current.value))
      ensures answer.Ok? ==> AllClosed(ledger.State(), answer.value, Superseded(current.value))
      ensures scope.workspace == "" || scope.project == "" || root == "" ==> answer == Err(Invalid)
      ensures scope.Valid() && root != "" && (!authorized || current == None || current == Some(0)) ==> answer == Err(Unauthorized)
      // With nobody else about it succeeds exactly when it may run, and is then the whole sweep.
      ensures others == [] ==> (answer.Ok? <==> scope.Valid() && root != "" && authorized && current.Some? && current.value != 0)
      ensures others == [] ==> ledger.State() == if answer.Ok? then Swept(old(ledger.State()), scope, root, Superseded(current.value)) else old(ledger.State())
    {
      ExecOne(ledger.State(), FencingExpired(scope, root, 0));
      if !scope.Valid() || root == "" {
        return Err(Invalid), [];
      }
      if !authorized || current.None? || current.value == 0 {
        return Err(Unauthorized), [];
      }
      hide Swept, OutstandingAmong, AllClosed, AllAtObserved, AllOthersAtObserved, Exec, Inv;
      answer, done := SweepHolds(scope, root, Superseded(current.value), others);
    }

    /** Recovers the cancelled holds whose attempts have since reported finality. */
    method RecoverCancelled(scope: Scope, root: string, authorized: bool, others: seq<seq<seq<Op>>>)
      returns (answer: Result<set<Key>, Problem>, ghost done: seq<Op>)
      requires ledger.Valid()
      modifies ledger
      ensures ledger.Valid() && ledger.State() == Exec(old(ledger.State()), done) && (AllOthersAtObserved(others) ==> AllAtObserved(done))
      ensures answer.Ok? ==> scope.Valid() && root != "" && authorized
      ensures answer.Ok? ==> answer.value == OutstandingAmong(old(ledger.State()), old(ledger.values.Keys), scope, root, CancelledRuns)
      ensures answer.Ok? ==> AllClosed(ledger.State(), answer.value, CancelledRuns)
      ensures scope.workspace == "" || scope.project == "" || root == "" ==> answer == Err(Invalid)
      ensures scope.Valid() && root != "" && !authorized ==> answer == Err(Unauthorized)
      ensures others == [] ==> (answer.Ok? <==> scope.Valid() && root != "" && authorized)
      ensures others == [] ==> ledger.State() == if answer.Ok? then Swept(old(ledger.State()), scope, root, CancelledRuns) else old(ledger.State())
    {
      ExecOne(ledger.State(), FencingExpired(scope, root, 0));
      if !scope.Valid() || root == "" {
        return Err(Invalid), [];
      }
      if !authorized {
        return Err(Unauthorized), [];
      }
      hide Swept, OutstandingAmong, AllClosed, AllAtObserved, AllOthersAtObserved, Exec, Inv;
      answer, done := SweepHolds(scope, root, CancelledRuns, others);
    }

    /**
     Settles one hold whose attempt is final. The active generation may reduce and release it; a
     superseded one only comes down to its observed usage, and is never released. `others` act
     between the read and the settlement it leads to.
     */
    method Reconcile(k: Key, generation: nat, current: Option<nat>, finalCost: Option<Micros>, release: bool, authorized: bool, others: seq<seq<Op>>)
      returns (answer: Result<Reservation, Problem>, ghost done: seq<Op>)
      requires ledger.Valid()
      modifies ledger
      ensures ledger.Valid() && ledger.State() == Exec(old(ledger.State()), done)
      // Only a hold that could be reconciled when it was read is, and such a one always when nobody acts in between.
      ensures answer.Ok? ==> authorized && Reconcilable(old(ledger.State()), k, generation, current, finalCost, release)
      ensures others == [] ==> (answer.Ok? <==> authorized && Reconcilable(old(ledger.State()), k, generation, current, finalCost, release))
      // Each refusal that needs no more than the read.
      ensures k.scope.workspace == "" || k.scope.project == "" ==> answer == Err(Invalid)
      ensures k.scope.Valid() && k !in old(ledger.values) ==> answer == Err(NotFound)
      ensures k.scope.Valid() && k in old(ledger.values) ==>
                var r := old(ledger.values)[k];
                var mayAsk := authorized && current.Some? && 0 < generation <= current.value && generation == r.generation;
                && (!mayAsk ==> answer == Err(Unauthorized))
                && (mayAsk && !r.attemptFinal ==> answer == Err(NotFinal))
                && (mayAsk && r.attemptFinal && finalCost.Some? ==>
                      var cost := finalCost.value;
                      if generation < current.value then cost != r.observed ==> answer == Err(SupersededCost)
                      else && (cost < 0 || cost > r.upper ==> answer == Err(Inconsistent))
                           && (0 <= cost < r.observed ==> answer == Err(Conflict(r.observed, true))))
      // Whatever others did, a success leaves the hold closed, and no usage that was durable when it was read is lost.
      ensures answer.Ok? ==> k in ledger.values && ledger.values[k] == answer.value && answer.value.upper == answer.value.observed
      ensures answer.Ok? ==> old(ledger.values)[k].observed <= answer.value.observed <= old(ledger.values)[k].upper
      ensures answer.Ok? && current == Some(generation) ==> answer.value.released == release && answer.value.observed == finalCost.GetOr(old(ledger.values)[k].upper)
      ensures answer.Ok? && current != Some(generation) && others == [] ==>
                answer.value.released == old(ledger.values)[k].released && answer.value.observed == old(ledger.values)[k].observed
      ensures others == [] ==>
                ledger.State() == if answer.Ok? then old(ledger.State()).(values := old(ledger.values)[k := answer.value]) else old(ledger.State())
    {
      ghost var before := ledger.State();
      assert Exec(before, []) == before;
      var found := ledger.Find(k);
      if found.Err? {
        return found, [];
      }
      var value := found.value;
      ReadHold(before, k);
      hide Exec, Inv, Later, Evolves;
      if current.None? || !authorized || generation == 0 || generation != value.generation || generation > current.value {
        return Err(Unauthorized), [];
      }
      if !value.attemptFinal {
        return Err(NotFinal), [];
      }
      if generation < current.value {
        answer, done := ReconcileSuperseded(value, finalCost, others);
      } else {
        answer, done := ReconcileActive(value, finalCost, release, First(others));
      }
      ClosedHoldKeepsUsage(before, k, done);
    }

    method ReconcileActive(read: Reservation, finalCost: Option<Micros>, release: bool, others: seq<Op>)
      returns (answer: Result<Reservation, Problem>, ghost done: seq<Op>)
      requires ledger.Valid() && read.key.scope.Valid() && read.key in ledger.values && ledger.values[read.key] == read && read.attemptFinal
      modifies ledger
      ensures ledger.Valid() && ledger.State() == Exec(old(ledger.State()), done)
      ensures answer.Ok? ==> Settleable(read, finalCost.GetOr(read.upper), release)
      ensures finalCost.Some? && (finalCost.value < 0 || finalCost.value > read.upper) ==> answer == Err(Inconsistent)
      ensures finalCost.Some? && 0 <= finalCost.value < read.observed ==> answer == Err(Conflict(read.observed, true))
      ensures others == [] ==> (answer.Ok? <==> Settleable(read, finalCost.GetOr(read.upper), release))
      ensures answer.Ok? ==> read.key in ledger.values && ledger.values[read.key] == answer.value
      ensures answer.Ok? ==> answer.value.observed == answer.value.upper == finalCost.GetOr(read.upper) && answer.value.released == release
      ensures others == [] ==>
                ledger.State() == if answer.Ok? then old(ledger.State()).(values := old(ledger.values)[read.key := answer.value]) else old(ledger.State())
    {
      ghost var before := ledger.State();
      ReadHold(before, read.key);
      assert Exec(before, []) == before;
      var cost := read.upper;
      if finalCost.Some? {
        if finalCost.value < 0 || finalCost.value > read.upper {
          return Err(Inconsistent), [];
        }
        if finalCost.value < read.observed {
          return Err(Conflict(read.observed, read.attemptFinal)), [];
        }
        cost := finalCost.value;
      }
      hide Exec, Inv, Budget.Settle;
      var v := Settlement(read.key, read.generation, cost, read.observed, read.attemptFinal, release);
      ledger.Perform(others);
      AfterOthers(before, read, others);
      AskedSettlement(Exec(before, others), read, v);
      ExecOne(Exec(before, others), Settling(v));
      ExecJoins(before, others, [Settling(v)]);
      answer := ledger.Settle(v);
      done := others + [Settling(v)];
    }

    method ReconcileSuperseded(read: Reservation, finalCost: Option<Micros>, others: seq<seq<Op>>)
      returns (answer: Result<Reservation, Problem>, ghost done: seq<Op>)
      requires ledger.Valid() && read.key.scope.Valid() && read.key in ledger.values && ledger.values[read.key] == read && read.attemptFinal
      modifies ledger
      ensures ledger.Valid() && ledger.State() == Exec(old(ledger.State()), done)
      ensures answer.Ok? ==> finalCost.None? || finalCost.value == read.observed
      ensures finalCost.Some? && finalCost.value != read.observed ==> answer == Err(SupersededCost)
      ensures answer.Ok? ==> read.key in ledger.values && ledger.values[read.key] == answer.value && answer.value.upper == answer.value.observed
      ensures others == [] ==> (answer.Ok? <==> finalCost.None? || finalCost.value == read.observed)
      ensures others == [] && answer.Ok? ==> answer.value == read.(upper := read.observed)
      ensures others == [] ==>
                ledger.State() == if answer.Ok? then old(ledger.State()).(values := old(ledger.values)[read.key := answer.value]) else old(ledger.State())
    {
      ghost var before := ledger.State();
      ReadHold(before, read.key);
      assert Exec(before, []) == before;
      if finalCost.Some? && finalCost.value != read.observed {
        return Err(SupersededCost), [];
      }
      if read.released || read.upper == read.observed {
        return Ok(read), [];
      }
      hide Exec, Inv, SettleObserved, Evolves;
      SettlementIsARun(before, read, false, others);
      if others == [] { UncontendedSettlement(before, read.key, false); }
      answer := Settle(read, false, others);
      done := Performed(before, read, false, others);
    }

    /** Records the finality of one listed hold of the run, under its deterministic identity; `others` act first. */
    method ConcludeOne(value: Reservation, scope: Scope, root: string, run: string, others: seq<Op>)
      returns (answer: Result<(), Problem>, ghost done: seq<Op>)
      requires ledger.Valid() && scope.Valid() && value.In(scope, root) && value.key in ledger.values && Evolves(value, ledger.values[value.key])
      modifies ledger
      ensures ledger.Valid() && ledger.State() == Exec(old(ledger.State()), done) && (AllAtObserved(others) ==> AllAtObserved(done))
      ensures answer.Ok? && Unconcluded(value, scope, root, run) ==> value.key in ledger.values && ledger.values[value.key].attemptFinal
      ensures others == [] && value == old(ledger.values)[value.key] ==>
                var i := ObservationKey(value.key.scope, Conclusion(value.key.id));
                && (answer.Ok? <==> (Unconcluded(value, scope, root, run) ==> i !in old(ledger.observations)))
                && ledger.State() == if answer.Ok? && Unconcluded(value, scope, root, run) then ConcludeStep(old(ledger.State()), value.key) else old(ledger.State())
    {
      hide Exec, Inv, Budget.Observe, Evolves, ConcludeStep, AllAtObserved, Finality;
      ghost var before := ledger.State();
      ExecOne(before, Observing(Finality(value)));
      NothingAtObserved();
      if value.run != run || value.released || !value.cancelled || value.attemptFinal {
        return Ok(()), [];
      }
      ledger.Perform(others);
      ghost var middle := ledger.State();
      AfterOthers(before, value, others);
      FinalityIsRecorded(middle, value);
      ExecOne(middle, Observing(Finality(value)));
      ExecJoins(before, others, [Observing(Finality(value))]);
      done := others + [Observing(Finality(value))];
      FinalityAtObserved(others, value);
      answer := ledger.Observe(Finality(value));
    }

    /**
     Records that a cancelled run's attempts are final, then settles what it left behind; `recording`
     and `settling` are what others do meanwhile. When it succeeds, every hold of the run that was
     cancelled when it began is released at its observed usage.
     */
    method ConcludeCancelledRun(scope: Scope, root: string, run: string, authorized: bool, recording: seq<seq<Op>>, settling: seq<seq<seq<Op>>>)
      returns (answer: Result<set<Key>, Problem>, ghost done: seq<Op>)
      requires ledger.Valid()
      modifies ledger
      ensures ledger.Valid() && ledger.State() == Exec(old(ledger.State()), done)
      ensures OthersAtObserved(recording) && AllOthersAtObserved(settling) ==> AllAtObserved(done)
      ensures answer.Ok? ==> forall k | k in old(ledger.values) && old(ledger.values)[k].In(scope, root) && old(ledger.values)[k].run == run && old(ledger.values)[k].cancelled ::
                               k in ledger.values && ClosedBy(ledger.values[k], CancelledRuns)
      // With nobody else about it is refused exactly when it may not run, or an identity it records under is taken.
      ensures recording == [] && settling == [] ==>
                (answer.Ok? <==> scope.Valid() && root != "" && run != "" && authorized && ConclusionsFree(old(ledger.State()), scope, root, run))
      ensures scope.workspace == "" || scope.project == "" || root == "" || run == "" ==> answer == Err(Invalid)
      ensures scope.Valid() && root != "" && run != "" && !authorized ==> answer == Err(Unauthorized)
      ensures recording == [] && settling == [] && answer.Ok? ==> ledger.State() == Concluded(old(ledger.State()), scope, root, run)
    {
      ghost var before := ledger.State();
      ExecOne(before, FencingExpired(scope, root, 0));
      if !scope.Valid() || root == "" || run == "" {
        return Err(Invalid), [];
      }
      if !authorized {
        return Err(Unauthorized), [];
      }
      hide *;
      var recorded, first := RecordFinality(scope, root, run, recording);
      if recorded.Err? {
        return Err(recorded.error), first;
      }
      ghost var middle := ledger.State();
      ghost var rest: seq<Op>;
      answer, rest := RecoverCancelled(scope, root, authorized, settling);
      done := first + rest;
      ExecJoins(before, first, rest);
      BothAtObserved(first, rest, recording, settling);
      if answer.Ok? { RunIsClosed(before, middle, ledger.State(), first, rest, scope, root, run, answer.value); }
      ConcludedIsBoth(before, scope, root, run);
    }

    method RecordFinality(scope: Scope, root: string, run: string, others: seq<seq<Op>>) returns (answer: Result<(), Problem>, ghost done: seq<Op>)
      requires ledger.Valid() && scope.Valid()
      modifies ledger
      ensures ledger.Valid() && ledger.State() == Exec(old(ledger.State()), done) && (OthersAtObserved(others) ==> AllAtObserved(done))
      ensures answer.Ok? ==> AllFinal(ledger.State(), old(ledger.State()), scope, root, run)
      ensures others == [] ==> (answer.Ok? <==> ConclusionsFree(old(ledger.State()), scope, root, run))
      ensures others == [] && answer.Ok? ==> ledger.State() == ConcludedAmong(old(ledger.State()), old(ledger.values.Keys), scope, root, run)
    {
      hide ConcludedAmong, ConclusionsFree, FreeAmong, AllAtObserved, OthersAtObserved, Exec, Inv, Listing, UpToDate, FinalAmong, AllFinal;
      ghost var before := ledger.State();
      var held := ledger.RootReservations(scope, root);
      RootIsListed(before, held, scope, root);
      ConcludingTheRootIsAll(before, held.Keys, scope, root, run);
      answer, done := RecordListed(held, scope, root, run, others);
      if answer.Ok? { ListedAreFinal(before, ledger.State(), held, scope, root, run); }
    }

    method RecordListed(listed: map<Key, Reservation>, scope: Scope, root: string, run: string, others: seq<seq<Op>>)
      returns (answer: Result<(), Problem>, ghost done: seq<Op>)
      requires ledger.Valid() && scope.Valid() && Listing(ledger.State(), listed, scope, root)
      modifies ledger
      ensures ledger.Valid() && ledger.State() == Exec(old(ledger.State()), done) && (OthersAtObserved(others) ==> AllAtObserved(done))
      ensures answer.Ok? ==> FinalAmong(ledger.State(), listed, listed.Keys, scope, root, run)
      ensures others == [] && UpToDate(old(ledger.State()), listed) ==> (answer.Ok? <==> FreeAmong(old(ledger.State()), listed.Keys, scope, root, run))
      ensures others == [] && UpToDate(old(ledger.State()), listed) && answer.Ok? ==>
                ledger.State() == ConcludedAmong(old(ledger.State()), listed.Keys, scope, root, run)
    {
      hide Exec, Inv, AllAtObserved, Evolves, ConcludedAmong, Unconcluded, ConcludeStep, FinalAmong, FreeAmong, Listing, UpToDate;
      ghost var before := ledger.State();
      ghost var quiet := others == [] && UpToDate(before, listed);
      ConcludingNobody(before, scope, root, run);
      NobodyIsFree(before, listed, scope, root, run);
      ExecOne(before, FencingExpired(scope, root, 0));
      var remaining, waiting := listed.Keys, others;
      ghost var visited: set<Key> := {};
      done := [];
      assert AllAtObserved(done) by { NothingAtObserved(); }
      while remaining != {}
        invariant ledger.Valid() && visited + remaining == listed.Keys && visited !! remaining
        invariant ledger.State() == Exec(before, done) && (OthersAtObserved(others) ==> AllAtObserved(done) && OthersAtObserved(waiting))
        invariant Listing(ledger.State(), listed, scope, root) && FinalAmong(ledger.State(), listed, visited, scope, root, run)
        invariant others == [] ==> waiting == []
        invariant quiet ==> ledger.State() == ConcludedAmong(before, visited, scope, root, run) && FreeAmong(before, visited, scope, root, run)
        decreases |remaining|
      {
        var k :| k in remaining;
        VisitOne(listed.Keys, visited, remaining, k);
        ghost var middle := ledger.State();
        ListedAt(middle, listed, k, scope, root);
        if quiet {
          UpToDateAt(before, listed, k);
          ConcludeOneMore(before, visited, k, scope, root, run);
          OneMoreFree(before, visited, k, scope, root, run);
          if FreeAmong(before, listed.Keys, scope, root, run) && Unconcluded(listed[k], scope, root, run) { FreeForAll(before, listed.Keys, k, scope, root, run); }
        }
        if OthersAtObserved(waiting) { FirstAtObserved(waiting); }
        var one, more := ConcludeOne(listed[k], scope, root, run, First(waiting));
        ExecJoins(before, done, more);
        if OthersAtObserved(others) { JoinedAtObserved(done, more); }
        done := done + more;
        if one.Err? {
          return one, done;
        }
        ListingStays(middle, more, listed, scope, root);
        FinalStays(middle, more, listed, visited, scope, root, run);
        OneMoreFinal(ledger.State(), listed, visited, k, scope, root, run);
        remaining, visited, waiting := remaining - {k}, visited + {k}, Rest(waiting);
      }
      assert visited == listed.Keys;
      return Ok(()), done;
    }

    method AddCharge(sum: Micros, value: Reservation, scope: Scope, root: string) returns (total: Option<Micros>)
      requires sum >= 0 && ChargeWeight(scope, root)(value) >= 0
      ensures total.Some? <==> sum as int + ChargeWeight(scope, root)(value) <= MAX_MICROS
      ensures total.Some? ==> total.value as int == sum as int + ChargeWeight(scope, root)(value)
    {
      if !value.In(scope, root) {
        return Some(sum);
      }
      return AddMicros(sum, if value.attemptFinal then value.observed else value.upper);
    }

    /** The root's charge, summed in 64 bits; refused exactly when it does not fit. */
    method RootTotal(scope: Scope, root: string) returns (total: Result<Micros, Problem>)
      requires ledger.Valid() && scope.Valid()
      ensures total.Ok? <==> Budget.RootTotal(ledger.State(), scope, root) <= MAX_MICROS
      ensures total.Ok? ==> total.value as int == Budget.RootTotal(ledger.State(), scope, root)
    {
      forall k | k in ledger.values ensures ChargeWeight(scope, root)(ledger.values[k]) >= 0 { assert HoldInv(k, ledger.values[k]); }
      var values := ledger.values;
      var sum := SumCharges(values, scope, root);
      return if sum.None? then Err(Overflowed) else Ok(sum.value);
    }

    method SumCharges(values: map<Key, Reservation>, scope: Scope, root: string) returns (total: Option<Micros>)
      requires forall k | k in values :: ChargeWeight(scope, root)(values[k]) >= 0
      ensures total.Some? <==> Total(values, ChargeWeight(scope, root)) <= MAX_MICROS
      ensures total.Some? ==> total.value as int == Total(values, ChargeWeight(scope, root))
    {
      ghost var w := ChargeWeight(scope, root);
      var remaining := values.Keys;
      ghost var seen: map<Key, Reservation> := map[];
      var sum: Micros := 0;
      while remaining != {}
        invariant Summing(values, seen, remaining)
        invariant sum >= 0 && sum as int == Total(seen, w)
        decreases |remaining|
      {
        var k :| k in remaining;
        SumOneMore(values, seen, remaining, w, k);
        var added := AddCharge(sum, values[k], scope, root);
        if added.None? {
          return None;
        }
        sum, remaining, seen := added.value, remaining - {k}, seen[k := values[k]];
      }
      Summed(values, seen);
      return Some(sum);
    }
  }

  // ---- Steps of a conclusion -------------------------------------------------------------

  function ConcludeStep(s: Ledger, k: Key): Ledger
    requires k in s.values
  {
    Ledger(s.values[k := s.values[k].(attemptFinal := true)], s.observations[ObservationKey(k.scope, Conclusion(k.id)) := Finality(s.values[k])])
  }

  /** Each of these listed holds whose finality was not on the record has it now. */
  ghost predicate FinalAmong(s: Ledger, listed: map<Key, Reservation>, visited: set<Key>, scope: Scope, root: string, run: string) {
    forall k | k in visited && k in listed && Unconcluded(listed[k], scope, root, run) :: k in s.values && s.values[k].attemptFinal
  }

  lemma OneMoreFinal(s: Ledger, listed: map<Key, Reservation>, visited: set<Key>, k: Key, scope: Scope, root: string, run: string)
    requires FinalAmong(s, listed, visited, scope, root, run)
    requires k in listed && Unconcluded(listed[k], scope, root, run) ==> k in s.values && s.values[k].attemptFinal
    ensures FinalAmong(s, listed, visited + {k}, scope, root, run)
  {}

  lemma ListedAt(s: Ledger, listed: map<Key, Reservation>, k: Key, scope: Scope, root: string)
    requires Listing(s, listed, scope, root) && k in listed
    ensures listed[k].key == k && listed[k].In(scope, root) && k in s.values && Evolves(listed[k], s.values[k])
  {}

  lemma UpToDateAt(s: Ledger, listed: map<Key, Reservation>, k: Key)
    requires UpToDate(s, listed) && k in listed
    ensures k in s.values && s.values[k] == listed[k]
  {}

  /** Every cancelled, unreleased hold the run had is final now. */
  ghost predicate AllFinal(s: Ledger, before: Ledger, scope: Scope, root: string, run: string) {
    forall k | k in before.values && Unconcluded(before.values[k], scope, root, run) :: k in s.values && s.values[k].attemptFinal
  }

  lemma ListedAreFinal(before: Ledger, s: Ledger, listed: map<Key, Reservation>, scope: Scope, root: string, run: string)
    requires listed == map k | k in before.values && before.values[k].In(scope, root) :: before.values[k]
    requires FinalAmong(s, listed, listed.Keys, scope, root, run)
    ensures AllFinal(s, before, scope, root, run)
  {}

  lemma FinalStays(s: Ledger, ops: seq<Op>, listed: map<Key, Reservation>, visited: set<Key>, scope: Scope, root: string, run: string)
    requires Inv(s) && FinalAmong(s, listed, visited, scope, root, run)
    ensures FinalAmong(Exec(s, ops), listed, visited, scope, root, run)
  {
    EveryRunIsLater(s, ops);
    forall k | k in visited && k in listed && Unconcluded(listed[k], scope, root, run) ensures k in Exec(s, ops).values && Exec(s, ops).values[k].attemptFinal {
      assert Evolves(s.values[k], Exec(s, ops).values[k]);
    }
  }

  lemma FirstAtObserved(others: seq<seq<Op>>)
    requires OthersAtObserved(others)
    ensures AllAtObserved(First(others)) && OthersAtObserved(Rest(others))
  {}

  lemma BothAtObserved(a: seq<Op>, b: seq<Op>, recording: seq<seq<Op>>, settling: seq<seq<seq<Op>>>)
    requires (OthersAtObserved(recording) ==> AllAtObserved(a)) && (AllOthersAtObserved(settling) ==> AllAtObserved(b))
    ensures OthersAtObserved(recording) && AllOthersAtObserved(settling) ==> AllAtObserved(a + b)
  {
    hide AllAtObserved;
    if OthersAtObserved(recording) && AllOthersAtObserved(settling) { JoinedAtObserved(a, b); }
  }

  /** Recording a hold's finality succeeds only if it is final afterwards, and is refused only under a taken identity or on a released hold. */
  lemma FinalityIsRecorded(s: Ledger, value: Reservation)
    requires Inv(s) && value.key in s.values && value.key.scope.Valid() && Evolves(value, s.values[value.key])
    ensures var (t, answer) := Budget.Observe(s, Finality(value));
            var k, i := value.key, ObservationKey(value.key.scope, Conclusion(value.key.id));
            && (answer.Ok? ==> k in t.values && t.values[k].attemptFinal)
            && (s.values[k] == value && !value.released && !value.attemptFinal ==>
                  (answer.Ok? <==> i !in s.observations) && t == if answer.Ok? then ConcludeStep(s, k) else s)
  {
    var k, i := value.key, ObservationKey(value.key.scope, Conclusion(value.key.id));
    assert HoldInv(k, s.values[k]);
    if i in s.observations { assert ObservationInv(s, i, s.observations[i]); }
  }

  /** What was cancelled of the run is closed once its finality is recorded and the cancelled holds are swept. */
  lemma RunIsClosed(before: Ledger, middle: Ledger, after: Ledger, first: seq<Op>, rest: seq<Op>, scope: Scope, root: string, run: string, settled: set<Key>)
    requires Inv(before) && middle == Exec(before, first) && Inv(middle) && after == Exec(middle, rest)
    requires AllFinal(middle, before, scope, root, run)
    requires settled == OutstandingAmong(middle, middle.values.Keys, scope, root, CancelledRuns) && AllClosed(after, settled, CancelledRuns)
    ensures forall k | k in before.values && before.values[k].In(scope, root) && before.values[k].run == run && before.values[k].cancelled ::
              k in after.values && ClosedBy(after.values[k], CancelledRuns)
  {
    hide Exec, AllFinal, OutstandingAmong;
    EveryRunIsLater(before, first);
    forall k | k in before.values && before.values[k].In(scope, root) && before.values[k].run == run && before.values[k].cancelled
      ensures k in after.values && ClosedBy(after.values[k], CancelledRuns)
    {
      HoldIsClosed(before, middle, after, rest, scope, root, run, settled, k);
    }
  }

  lemma HoldIsClosed(before: Ledger, middle: Ledger, after: Ledger, rest: seq<Op>, scope: Scope, root: string, run: string, settled: set<Key>, k: Key)
    requires Inv(middle) && Later(before, middle) && after == Exec(middle, rest) && Inv(before)
    requires AllFinal(middle, before, scope, root, run)
    requires settled == OutstandingAmong(middle, middle.values.Keys, scope, root, CancelledRuns) && AllClosed(after, settled, CancelledRuns)
    requires k in before.values && before.values[k].In(scope, root) && before.values[k].run == run && before.values[k].cancelled
    ensures k in after.values && ClosedBy(after.values[k], CancelledRuns)
  {
    hide Exec;
    var r := before.values[k];
    assert k in middle.values && Evolves(r, middle.values[k]) && HoldInv(k, middle.values[k]) && HoldInv(k, r);
    if middle.values[k].released {
      ClosedStays(middle, rest, k, CancelledRuns);
    } else {
      assert Unconcluded(r, scope, root, run) || r.attemptFinal;
      assert k in settled;
    }
  }

  lemma ConcludedIsBoth(s: Ledger, scope: Scope, root: string, run: string)
    ensures Concluded(s, scope, root, run) == Swept(ConcludedAmong(s, s.values.Keys, scope, root, run), scope, root, CancelledRuns)
  {}

  predicate FreeAmong(s: Ledger, visited: set<Key>, scope: Scope, root: string, run: string) {
    forall k | k in visited && k in s.values && Unconcluded(s.values[k], scope, root, run) :: ObservationKey(k.scope, Conclusion(k.id)) !in s.observations
  }

  lemma OneMoreFree(s: Ledger, visited: set<Key>, k: Key, scope: Scope, root: string, run: string)
    requires k in s.values
    ensures FreeAmong(s, visited + {k}, scope, root, run)
            <==> FreeAmong(s, visited, scope, root, run)
                 && (Unconcluded(s.values[k], scope, root, run) ==> ObservationKey(k.scope, Conclusion(k.id)) !in s.observations)
  {}

  lemma NobodyIsFree(s: Ledger, listed: map<Key, Reservation>, scope: Scope, root: string, run: string)
    ensures FreeAmong(s, {}, scope, root, run) && FinalAmong(s, listed, {}, scope, root, run)
  {}

  lemma FreeForAll(s: Ledger, all: set<Key>, k: Key, scope: Scope, root: string, run: string)
    requires k in all && k in s.values && FreeAmong(s, all, scope, root, run) && Unconcluded(s.values[k], scope, root, run)
    ensures ObservationKey(k.scope, Conclusion(k.id)) !in s.observations
  {}

  lemma ConcludingNobody(s: Ledger, scope: Scope, root: string, run: string)
    ensures ConcludedAmong(s, {}, scope, root, run) == s
  {
    assert ConcludedAmong(s, {}, scope, root, run).values == s.values;
    assert FinalityRecords(s, {}, scope, root, run) == map[];
  }

  lemma OneMoreFinality(s: Ledger, visited: set<Key>, k: Key, scope: Scope, root: string, run: string)
    requires k in s.values && k !in visited
    ensures var i := ObservationKey(k.scope, Conclusion(k.id));
            var was := FinalityRecords(s, visited, scope, root, run);
            && i !in was
            && FinalityRecords(s, visited + {k}, scope, root, run) == if Unconcluded(s.values[k], scope, root, run) then was[i := Finality(s.values[k])] else was
  {
    hide FinalityRecords, Unconcluded, Finality;
    var i := ObservationKey(k.scope, Conclusion(k.id));
    var was, next := FinalityRecords(s, visited, scope, root, run), FinalityRecords(s, visited + {k}, scope, root, run);
    var expected := if Unconcluded(s.values[k], scope, root, run) then was[i := Finality(s.values[k])] else was;
    FinalityAt(s, visited, scope, root, run, i);
    forall j ensures (j in next <==> j in expected) && (j in next ==> next[j] == expected[j]) {
      FinalityAt(s, visited, scope, root, run, j);
      FinalityAt(s, visited + {k}, scope, root, run, j);
    }
    assert next == expected;
  }

  lemma OneMoreConcluded(s: Ledger, visited: set<Key>, k: Key, scope: Scope, root: string, run: string)
    requires k in s.values && k !in visited
    ensures var was, next := ConcludedAmong(s, visited, scope, root, run).values, ConcludedAmong(s, visited + {k}, scope, root, run).values;
            && was[k] == s.values[k]
            && next == if Unconcluded(s.values[k], scope, root, run) then was[k := s.values[k].(attemptFinal := true)] else was
  {
    var was, next := ConcludedAmong(s, visited, scope, root, run).values, ConcludedAmong(s, visited + {k}, scope, root, run).values;
    if Unconcluded(s.values[k], scope, root, run) {
      assert next == was[k := s.values[k].(attemptFinal := true)];
    } else {
      assert next == was;
    }
  }

  lemma ConcludeOneMore(s: Ledger, visited: set<Key>, k: Key, scope: Scope, root: string, run: string)
    requires k in s.values && k !in visited
    ensures var was := ConcludedAmong(s, visited, scope, root, run);
            && was.values[k] == s.values[k]
            && (ObservationKey(k.scope, Conclusion(k.id)) in was.observations <==> ObservationKey(k.scope, Conclusion(k.id)) in s.observations)
            && ConcludedAmong(s, visited + {k}, scope, root, run) == if Unconcluded(s.values[k], scope, root, run) then ConcludeStep(was, k) else was
  {
    OneMoreFinality(s, visited, k, scope, root, run);
    OneMoreConcluded(s, visited, k, scope, root, run);
    AddLast(s.observations, FinalityRecords(s, visited, scope, root, run), ObservationKey(k.scope, Conclusion(k.id)), Finality(s.values[k]));
  }

  lemma UnconcludedAreVisited(s: Ledger, visited: set<Key>, scope: Scope, root: string, run: string)
    requires visited <= s.values.Keys && forall k | k in s.values && s.values[k].In(scope, root) :: k in visited
    ensures FinalityRecords(s, visited, scope, root, run) == FinalityRecords(s, s.values.Keys, scope, root, run)
  {}

  lemma ConcludingTheRootIsAll(s: Ledger, visited: set<Key>, scope: Scope, root: string, run: string)
    requires visited <= s.values.Keys && forall k | k in s.values && s.values[k].In(scope, root) :: k in visited
    ensures ConcludedAmong(s, visited, scope, root, run) == ConcludedAmong(s, s.values.Keys, scope, root, run)
    ensures FreeAmong(s, visited, scope, root, run) <==> ConclusionsFree(s, scope, root, run)
  {
    hide FinalityRecords;
    assert ConcludedAmong(s, visited, scope, root, run).values == ConcludedAmong(s, s.values.Keys, scope, root, run).values;
    UnconcludedAreVisited(s, visited, scope, root, run);
  }
}
