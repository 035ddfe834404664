/**
 How long an eligible workspace waits: the bound over every run, and the run
 from the empty scheduler that shows why arrivals must be in it.
 */
module AdmissionFairness {
  import opened Wrappers
  import opened Admission
  import opened AdmissionRuns

  // ---- Where a workspace stands in the ring ----------------------------------------------

  /** The position of a listed workspace. */
  function IndexOf(order: seq<string>, w: string): (i: nat)
    requires w in order
    ensures i < |order| && order[i] == w
    ensures forall j | 0 <= j < i :: order[j] != w
  {
    if order[0] == w then 0 else 1 + IndexOf(order[1..], w)
  }

  /** How many places the scan passes before it reaches the workspace. */
  function Distance(s: Sched, w: string): nat
    requires s.cursor <= |s.order| && w in s.order
  {
    var i := IndexOf(s.order, w);
    if i >= s.Head() then i - s.Head() else i + |s.order| - s.Head()
  }

  lemma OnlyIndex(order: seq<string>, w: string, i: nat)
    requires NoDuplicates(order) && i < |order| && order[i] == w
    ensures w in order && IndexOf(order, w) == i
  {}

  /** Taking another place out of the ring shifts the later ones down by one. */
  lemma RemovalShifts(order: seq<string>, c: nat, w: string)
    requires NoDuplicates(order) && c < |order| && w in order && order[c] != w
    ensures var rest := order[..c] + order[c + 1..]; var i := IndexOf(order, w);
            w in rest && IndexOf(rest, w) == if i < c then i else i - 1
  {
    var rest, i := order[..c] + order[c + 1..], IndexOf(order, w);
    OnlyIndex(rest, w, if i < c then i else i - 1);
  }

  /** Places before the workspace's own hold other workspaces. */
  lemma NearerPlaceIsAnother(s: Sched, d: nat, w: string)
    requires RingListsQueues(s) && w in s.order && d < Distance(s, w)
    ensures d < |s.order| && s.order[s.Place(d)] != w
  {
    var c, i := s.Place(d), IndexOf(s.order, w);
    ScanVisitsEveryPlace(s, i);
    if s.order[c] == w { OnlyIndex(s.order, w, c); }
  }

  /** The ring after a promotion, and where the workspace then stands in it. */
  lemma PromotionMovesRing(s: Sched, c: nat, w: string)
    requires RingListsQueues(s) && c < |s.order| && w in s.order && s.order[c] != w && s.QueueOf(s.order[c]) != []
    ensures var s', i := Promote(s, c).0, IndexOf(s.order, w);
            || (s'.order == s.order && s'.cursor == c + 1)
            || (|s'.order| == |s.order| - 1 && s'.cursor == c && w in s'.order && IndexOf(s'.order, w) == if i < c then i else i - 1)
  {
    RemovalShifts(s.order, c, w);
    hide RingListsQueues, IndexOf, NoDuplicates;
  }

  /** A promotion of another workspace brings a waiting eligible one strictly nearer. */
  lemma PromotionBringsNearer(s: Sched, d: nat, w: string)
    requires RingListsQueues(s) && w in s.order && d < Distance(s, w) && s.QueueOf(s.order[s.Place(d)]) != []
    ensures s.order[s.Place(d)] != w
    ensures var s' := Promote(s, s.Place(d)).0;
            w in s'.order && s'.cursor <= |s'.order| && Distance(s', w) < Distance(s, w)
  {
    NearerPlaceIsAnother(s, d, w);
    PromotionMovesRing(s, s.Place(d), w);
    hide Promote, IndexOf, RingListsQueues, NoDuplicates;
  }

  /** The scan stops at an eligible workspace or before it. */
  lemma ScanReaches(s: Sched, w: string)
    requires RingListsQueues(s) && s.Eligible(w)
    ensures w in s.order && FirstEligible(s, 0).Some? && FirstEligible(s, 0).value <= Distance(s, w) < |s.order|
    ensures FirstEligible(s, 0).value == Distance(s, w) <==> s.order[s.Place(FirstEligible(s, 0).value)] == w
  {
    var i := IndexOf(s.order, w);
    ScanVisitsEveryPlace(s, i);
    var d := FirstEligible(s, 0);
    if d.Some? && s.order[s.Place(d.value)] == w { OnlyIndex(s.order, w, s.Place(d.value)); }
  }

  // ---- The bound -------------------------------------------------------------------------

  /** The operation gives back a slot. */
  predicate Releases(s: Sched, op: Op) { op.Leave? && Running(s, op.key) }

  /** The operation queues a run of a workspace that had none waiting. */
  predicate Joins(s: Sched, op: Op) {
    op.Arrive? && Admit(s, op.request).1 == Waiting && s.QueueOf(op.request.workspace) == []
  }

  /** The cursor is past the workspace's place. */
  predicate Passed(s: Sched, w: string) { exists i | 0 <= i < |s.order| :: i < s.cursor && s.order[i] == w }

  function Completions(s: Sched, ops: seq<Op>): nat
    decreases |ops|
  {
    if ops == [] then 0 else (if Releases(s, ops[0]) then 1 else 0) + Completions(Apply(s, ops[0]), ops[1..])
  }

  /** How many workspaces join the ring while the cursor is past this one. */
  function JoinsWhilePassed(s: Sched, ops: seq<Op>, w: string): nat
    decreases |ops|
  {
    if ops == [] then 0
    else (if Joins(s, ops[0]) && Passed(s, w) then 1 else 0) + JoinsWhilePassed(Apply(s, ops[0]), ops[1..], w)
  }

  /** All along the run the workspace could be promoted, and is not. */
  predicate Unserved(s: Sched, ops: seq<Op>, w: string)
    decreases |ops|
  {
    ops != [] ==> s.Eligible(w) && Starts(s, ops[0], w) == [] && Unserved(Apply(s, ops[0]), ops[1..], w)
  }

  lemma NextBringsNearer(s: Sched, w: string)
    requires Shape(s) && s.Eligible(w) && s.global < s.limits.globalActive
    requires OfWorkspace(Next(s).1, w) == []
    ensures w in s.order && w in Next(s).0.order && Next(s).0.cursor <= |Next(s).0.order|
    ensures Distance(Next(s).0, w) < Distance(s, w)
  {
    ScanReaches(s, w);
    var d := FirstEligible(s, 0).value;
    PromotionKeepsQueues(s, s.Place(d));
    PromotionBringsNearer(s, d, w);
  }

  lemma FinishBringsNearer(s: Sched, k: Key, w: string)
    requires Inv(s) && s.Eligible(w) && Running(s, k) && OfWorkspace(Finish(s, k).1, w) == []
    ensures w in s.order && w in Finish(s, k).0.order && Finish(s, k).0.cursor <= |Finish(s, k).0.order|
    ensures Distance(Finish(s, k).0, w) < Distance(s, w)
  {
    hide Inv, Shape, Release, Next, Distance, OneSlotFree;
    ReleaseFreesOneSlot(s, k);
    ReleaseMakesRoom(s, k, w);
    NextBringsNearer(Release(s, k), w);
  }

  /** The slot given back leaves every place as it is, and an eligible workspace eligible. */
  lemma ReleaseMakesRoom(s: Sched, k: Key, w: string)
    requires Inv(s) && s.Eligible(w) && Running(s, k)
    ensures var r := Release(s, k); r.Eligible(w) && r.global < r.limits.globalActive && r.order == s.order && Distance(r, w) == Distance(s, w)
  {
    hide QueuesMatchRecords, RingListsQueues, WorkConserving, IndexOf;
    ReleaseEffect(s, k);
    hide CountersAgree, Release;
  }

  /** A workspace that joins the ring delays exactly the ones the cursor has already passed, by one place. */
  lemma JoiningDelaysThePassed(s: Sched, v: Request, w: string)
    requires RingListsQueues(s) && w in s.order && Joins(s, Arrive(v))
    ensures var s' := Admit(s, v).0;
            && w in s'.order && s'.cursor <= |s'.order|
            && Distance(s', w) == Distance(s, w) + if Passed(s, w) then 1 else 0
  {
    var s' := Admit(s, v).0;
    QueueingKeepsRing(s, v);
    OnlyIndex(s'.order, w, IndexOf(s.order, w));
    forall i | 0 <= i < |s.order| && s.order[i] == w ensures i == IndexOf(s.order, w) { OnlyIndex(s.order, w, i); }
  }

  lemma StepBringsNearer(s: Sched, op: Op, w: string)
    requires Inv(s) && s.Eligible(w) && Starts(s, op, w) == []
    ensures w in s.order && w in Apply(s, op).order && Apply(s, op).cursor <= |Apply(s, op).order|
    ensures Distance(Apply(s, op), w) + (if Releases(s, op) then 1 else 0)
            <= Distance(s, w) + if Joins(s, op) && Passed(s, w) then 1 else 0
  {
    EligibleIsListed(s, w);
    hide Inv, Distance, Passed, Admit, Next, Release;
    match op
    case Arrive(v) =>
      if Joins(s, op) { JoiningDelaysThePassed(s, v, w); } else { ArrivalKeepsPlaces(s, v); SamePlaces(s, Admit(s, v).0, w); }
    case Leave(k) => if Running(s, k) { FinishBringsNearer(s, k, w); }
  }

  lemma EligibleIsListed(s: Sched, w: string)
    requires Inv(s) && s.Eligible(w)
    ensures RingListsQueues(s) && w in s.order && s.cursor <= |s.order|
  {}

  lemma ArrivalKeepsPlaces(s: Sched, v: Request)
    requires !Joins(s, Arrive(v))
    ensures Admit(s, v).0.order == s.order && Admit(s, v).0.cursor == s.cursor
  {
    hide ValidIdentity, Exceeds;
  }

  lemma SamePlaces(s: Sched, s': Sched, w: string)
    requires w in s.order && s'.order == s.order && s'.cursor == s.cursor <= |s.order|
    ensures Distance(s', w) == Distance(s, w)
  {}

  /**
   How long an eligible workspace waits, over every run whatever arrives in it: the slots that come
   back without it being started are at most the places between the cursor and it, and one more for
   every workspace that joined the ring while the cursor was past it.
   */
  lemma {:induction false} WaitIsBounded(s: Sched, ops: seq<Op>, w: string)
    requires Inv(s) && s.Eligible(w) && Unserved(s, ops, w)
    ensures w in s.order && Distance(s, w) < |s.order|
    ensures Completions(s, ops) <= Distance(s, w) + JoinsWhilePassed(s, ops, w)
    decreases |ops|
  {
    ScanVisitsEveryPlace(s, IndexOf(s.order, w));
    if ops != [] {
      var s1 := Apply(s, ops[0]);
      StepBringsNearer(s, ops[0], w);
      StepKeepsInv(s, ops[0]);
      if ops[1..] != [] { WaitIsBounded(s1, ops[1..], w); }
    }
  }

  predicate NobodyJoins(s: Sched, ops: seq<Op>)
    decreases |ops|
  {
    ops != [] ==> !Joins(s, ops[0]) && NobodyJoins(Apply(s, ops[0]), ops[1..])
  }

  lemma {:induction false} NoJoinsAtAll(s: Sched, ops: seq<Op>, w: string)
    requires NobodyJoins(s, ops)
    ensures JoinsWhilePassed(s, ops, w) == 0
    decreases |ops|
  {
    if ops != [] { NoJoinsAtAll(Apply(s, ops[0]), ops[1..], w); }
  }

  /** Drain fairness: while no other workspace joins the ring, it is started within one turn of the ring. */
  lemma DrainFairness(s: Sched, ops: seq<Op>, w: string)
    requires Inv(s) && s.Eligible(w) && Unserved(s, ops, w) && NobodyJoins(s, ops)
    ensures w in s.order && Completions(s, ops) <= Distance(s, w) < |s.order|
  {
    WaitIsBounded(s, ops, w);
    NoJoinsAtAll(s, ops, w);
  }

  // ---- Starvation under arrivals ---------------------------------------------------------

  predicate Admissible(limits: Limits, v: Request) {
    ValidIdentity(v.workspace) && ValidIdentity(v.run) && !Exceeds(limits, v)
  }

  /** An admissible run of the workspace that was never seen before. */
  predicate Fresh(s: Sched, b: string, v: Request) {
    Admissible(s.limits, v) && v.workspace == b && v.Identity() !in s.records
  }

  predicate FreshRuns(s: Sched, b: string, vs: seq<Request>) {
    && (forall i | 0 <= i < |vs| :: Fresh(s, b, vs[i]))
    && (forall i, j | 0 <= i < j < |vs| :: vs[i].run != vs[j].run)
  }

  /** One workspace waits alone, the cursor is past it, and every slot is taken, one of them by this run. */
  predicate Cornered(s: Sched, a: string, k: Key) {
    && s.order == [a] && s.cursor == 1 && s.QueueOf(a) != [] && Running(s, k)
    && s.global == s.limits.globalActive && s.queuedTotal < s.limits.globalQueued
  }

  /** It waits so although it could be promoted, beside a run of another workspace. */
  ghost predicate Starving(s: Sched, a: string, b: string, k: Key) {
    Inv(s) && Cornered(s, a, k) && !s.Full(a) && a != b && k.workspace == b
  }

  /** A run arrives, then the run before it completes; and so on. */
  function Rounds(k: Key, vs: seq<Request>): seq<Op>
    decreases |vs|
  {
    if vs == [] then [] else [Arrive(vs[0]), Leave(k)] + Rounds(vs[0].Identity(), vs[1..])
  }

  lemma InvFacts(s: Sched, w: string)
    requires Inv(s)
    ensures CountersAgree(s) && s.limits.Valid() && s.ActiveOf(w) <= s.limits.workspaceActive && (w !in s.order ==> s.QueueOf(w) == [])
  {}

  /** With every slot taken and room in the queues, an unseen run is queued. */
  lemma ArrivalQueues(s: Sched, v: Request)
    requires Admissible(s.limits, v) && v.Identity() !in s.records && s.global >= s.limits.globalActive
    requires s.queuedTotal < s.limits.globalQueued && |s.QueueOf(v.workspace)| < s.limits.workspaceQueued
    ensures Admit(s, v) == (s.(order := if s.QueueOf(v.workspace) == [] then s.order + [v.workspace] else s.order,
                               queued := s.queued[v.workspace := s.QueueOf(v.workspace) + [v]], queuedTotal := s.queuedTotal + 1,
                               durable := s.durable + 1, records := s.records[v.Identity() := Entry(v, Queued)]), Waiting)
  {
    hide ValidIdentity, Exceeds;
  }

  /** The newly queued workspace is appended where the cursor stands, and is the first one scanned. */
  lemma NewestStarts(r: Sched, a: string, v: Request)
    requires r.order == [a, v.workspace] && r.cursor == 1 && a != v.workspace
    requires r.QueueOf(v.workspace) == [v] && !r.Full(v.workspace) && r.global < r.limits.globalActive
    requires v.Identity() in r.records && r.records[v.Identity()].request == v
    ensures Next(r) == (r.(order := [a], queued := r.queued[v.workspace := []], queuedTotal := r.queuedTotal - 1, global := r.global + 1,
                           active := r.active[v.workspace := r.ActiveOf(v.workspace) + 1],
                           records := r.records[v.Identity() := Entry(v, Active)]), Some(v))
  {
    assert r.Place(0) == 1;
    assert FirstEligible(r, 0) == Some(0);
    assert r.order[..1] + r.order[2..] == [a] && [v][1..] == [];
  }

  /** The other workspace's run was queued and then took the slot; the one in the ring waits as before. */
  predicate Overtaken(s: Sched, s': Sched, a: string, k: Key, v: Request) {
    && Cornered(s', a, v.Identity()) && s'.limits == s.limits && s'.QueueOf(a) == s.QueueOf(a)
    && s'.ActiveOf(a) == s.ActiveOf(a) - (if k.workspace == a then 1 else 0)
    && s'.records.Keys == s.records.Keys + {v.Identity()}
  }

  lemma SlotGoesToNewest(s: Sched, s1: Sched, a: string, v: Request, k: Key)
    requires Cornered(s, a, k) && a != v.workspace && v.Identity() !in s.records && CountersAgree(s1)
    requires s.ActiveOf(v.workspace) < s.limits.workspaceActive
             || (k.workspace == v.workspace && s.ActiveOf(v.workspace) <= s.limits.workspaceActive)
    requires s1 == s.(order := [a, v.workspace], queued := s.queued[v.workspace := [v]], queuedTotal := s.queuedTotal + 1,
                      durable := s.durable + 1, records := s.records[v.Identity() := Entry(v, Queued)])
    ensures Running(s1, k) && Finish(s1, k).1 == Some(v) && Overtaken(s, Finish(s1, k).0, a, k, v)
  {
    hide CountersAgree, Next;
    assert Running(s1, k);
    ReleaseEffect(s1, k);
    var r := Release(s1, k);
    hide Release;
    NewestStarts(r, a, v);
  }

  /** A run of another workspace arrives while the cursor is past the waiting one; the next slot is its. */
  lemma ArrivalOvertakes(s: Sched, a: string, v: Request, k: Key)
    requires Inv(s) && Cornered(s, a, k) && v.workspace != a && Fresh(s, v.workspace, v)
    requires s.ActiveOf(v.workspace) < s.limits.workspaceActive || k.workspace == v.workspace
    ensures Joins(s, Arrive(v)) && Admit(s, v).0.QueueOf(a) == s.QueueOf(a) && Admit(s, v).0.ActiveOf(a) == s.ActiveOf(a)
    ensures Admit(s, v).0.limits == s.limits
    ensures var s1 := Admit(s, v).0; Running(s1, k) && Finish(s1, k).1 == Some(v) && Overtaken(s, Finish(s1, k).0, a, k, v) && Inv(Finish(s1, k).0)
  {
    hide Inv, Admissible, Admit, CountersAgree, Finish, Overtaken;
    var s1 := Admit(s, v).0;
    InvFacts(s, v.workspace);
    ArrivalQueues(s, v);
    assert s.order + [v.workspace] == [a, v.workspace] && [] + [v] == [v];
    AdmitKeepsInv(s, v);
    InvFacts(s1, a);
    SlotGoesToNewest(s, s1, a, v, k);
    FinishKeepsInv(s1, k);
  }

  /** One round: the arrival is started by the completion, and the eligible workspace is not. */
  predicate Round(s: Sched, a: string, b: string, k: Key, v: Request) {
    var s1 := Apply(s, Arrive(v));
    && Joins(s, Arrive(v)) && !Joins(s1, Leave(k)) && Passed(s, a) && s.Eligible(a) && s1.Eligible(a)
    && !Releases(s, Arrive(v)) && Releases(s1, Leave(k))
    && Starts(s, Arrive(v), a) == [] && Starts(s1, Leave(k), a) == []
    && Starts(s, Arrive(v), b) == [] && Starts(s1, Leave(k), b) == [v]
  }

  lemma RoundStarves(s: Sched, a: string, b: string, k: Key, v: Request)
    requires Starving(s, a, b, k) && Fresh(s, b, v)
    ensures Round(s, a, b, k, v)
    ensures var s2 := Apply(Apply(s, Arrive(v)), Leave(k));
            Starving(s2, a, b, v.Identity()) && s2.limits == s.limits && s2.records.Keys == s.records.Keys + {v.Identity()}
  {
    hide Inv, Admissible, Admit, Finish;
    ArrivalOvertakes(s, a, v, k);
    assert s.order[0] == a;
  }

  lemma TwoSteps(s: Sched, x: Op, y: Op, rest: seq<Op>, w: string)
    ensures var ops, s1 := [x, y] + rest, Apply(s, x);
            var s2 := Apply(s1, y);
            && Started(s, ops, w) == Starts(s, x, w) + (Starts(s1, y, w) + Started(s2, rest, w))
            && Completions(s, ops) == (if Releases(s, x) then 1 else 0) + (if Releases(s1, y) then 1 else 0) + Completions(s2, rest)
            && JoinsWhilePassed(s, ops, w) == (if Joins(s, x) && Passed(s, w) then 1 else 0)
                                              + (if Joins(s1, y) && Passed(s1, w) then 1 else 0) + JoinsWhilePassed(s2, rest, w)
            && (Unserved(s, ops, w) <==> s.Eligible(w) && Starts(s, x, w) == [] && s1.Eligible(w) && Starts(s1, y, w) == [] && Unserved(s2, rest, w))
  {
    hide Apply, Starts, Releases, Joins, Passed;
    var ops, s1 := [x, y] + rest, Apply(s, x);
    assert ops[0] == x && ops[1..] == [y] + rest && ops[1..][0] == y && ops[1..][1..] == rest;
    OneStep(s, ops, w);
    OneStep(s1, ops[1..], w);
  }

  lemma OneStep(s: Sched, ops: seq<Op>, w: string)
    requires ops != []
    ensures var s1, rest := Apply(s, ops[0]), ops[1..];
            && Started(s, ops, w) == Starts(s, ops[0], w) + Started(s1, rest, w)
            && Completions(s, ops) == (if Releases(s, ops[0]) then 1 else 0) + Completions(s1, rest)
            && JoinsWhilePassed(s, ops, w) == (if Joins(s, ops[0]) && Passed(s, w) then 1 else 0) + JoinsWhilePassed(s1, rest, w)
            && (Unserved(s, ops, w) <==> s.Eligible(w) && Starts(s, ops[0], w) == [] && Unserved(s1, rest, w))
  {
    hide Apply, Starts, Releases, Joins, Passed;
  }

  lemma RestIsFresh(s: Sched, s2: Sched, b: string, vs: seq<Request>)
    requires vs != [] && FreshRuns(s, b, vs) && s2.limits == s.limits && s2.records.Keys <= s.records.Keys + {vs[0].Identity()}
    ensures FreshRuns(s2, b, vs[1..])
  {
    hide Admissible;
    forall i | 0 <= i < |vs| - 1 ensures Fresh(s2, b, vs[1..][i]) {
      assert vs[1..][i] == vs[i + 1] && Fresh(s, b, vs[i + 1]) && vs[0].run != vs[i + 1].run;
    }
  }

  /**
   However many runs of another workspace arrive in this rhythm, all of them are started and none of
   the eligible workspace is: every completion of the run is one it waits through.
   */
  lemma {:induction false} ArrivalsStarve(s: Sched, a: string, b: string, k: Key, vs: seq<Request>)
    requires Starving(s, a, b, k) && FreshRuns(s, b, vs)
    ensures var ops := Rounds(k, vs);
            && Unserved(s, ops, a) && Started(s, ops, a) == [] && Started(s, ops, b) == vs
            && Completions(s, ops) == JoinsWhilePassed(s, ops, a) == |vs|
    decreases |vs|
  {
    hide Starving, Fresh, Apply, Starts, Releases, Joins, Passed;
    if vs != [] {
      var v, s2 := vs[0], Apply(Apply(s, Arrive(vs[0])), Leave(k));
      RoundStarves(s, a, b, k, v);
      RestIsFresh(s, s2, b, vs);
      ArrivalsStarve(s2, a, b, v.Identity(), vs[1..]);
      hide FreshRuns;
      var rest := Rounds(v.Identity(), vs[1..]);
      TwoSteps(s, Arrive(v), Leave(k), rest, a);
      TwoSteps(s, Arrive(v), Leave(k), rest, b);
      assert [] + ([v] + vs[1..]) == vs;
    }
  }

  // ---- The starving position is reached from the empty scheduler -------------------------

  function Arrivals(vs: seq<Request>): seq<Op> { if vs == [] then [] else [Arrive(vs[0])] + Arrivals(vs[1..]) }

  lemma {:induction false} ExecConcat(s: Sched, x: seq<Op>, y: seq<Op>)
    ensures Exec(s, x + y) == Exec(Exec(s, x), y)
    decreases |x|
  {
    hide Apply;
    if x == [] { assert x + y == y; }
    else {
      assert (x + y)[0] == x[0] && (x + y)[1..] == x[1..] + y;
      ExecConcat(Apply(s, x[0]), x[1..], y);
    }
  }

  function Workspaces(vs: seq<Request>): set<string> { set i | 0 <= i < |vs| :: vs[i].workspace }

  /** Nothing waits, exactly so many runs are running, this one among them, and only these workspaces have any. */
  ghost predicate Loaded(s: Sched, limits: Limits, n: nat, used: set<string>, k: Key) {
    && Inv(s) && s.limits == limits && s.order == [] && s.cursor == 0 && s.queuedTotal == 0 && s.global == n
    && (n > 0 ==> Running(s, k))
    && (forall j | j in s.records :: j.workspace in used)
    && (forall w | w !in used :: s.ActiveOf(w) == 0)
  }

  /** How many of these runs are of the workspace. */
  function Share(vs: seq<Request>, w: string): nat {
    if vs == [] then 0 else Share(vs[..|vs| - 1], w) + if vs[|vs| - 1].workspace == w then 1 else 0
  }

  /** Any distinct runs that take every slot, of no workspace more than it may run at once. */
  predicate Filler(limits: Limits, fill: seq<Request>) {
    && |fill| == limits.globalActive >= 1
    && (forall i | 0 <= i < |fill| :: Admissible(limits, fill[i]) && Share(fill, fill[i].workspace) <= limits.workspaceActive)
    && (forall i, j | 0 <= i < j < |fill| :: fill[i].Identity() != fill[j].Identity())
  }

  predicate Among(j: Key, done: seq<Request>) { exists i | 0 <= i < |done| :: done[i].Identity() == j }

  /** These runs are running, nothing else is on the record, and nothing waits. */
  ghost predicate Filling(s: Sched, limits: Limits, done: seq<Request>) {
    && Inv(s) && s.limits == limits && s.order == [] && s.cursor == 0 && s.queuedTotal == 0 && s.global == |done|
    && (done != [] ==> Running(s, done[0].Identity()))
    && (forall j | j in s.records :: Among(j, done))
    && (forall w :: s.ActiveOf(w) == Share(done, w))
  }

  /** With a slot free and the workspace below its bound, an unseen run starts at once. */
  lemma ArrivalStarts(s: Sched, v: Request)
    requires Admissible(s.limits, v) && v.Identity() !in s.records && s.global < s.limits.globalActive && !s.Full(v.workspace)
    ensures Admit(s, v).0 == s.(global := s.global + 1, active := s.active[v.workspace := s.ActiveOf(v.workspace) + 1],
                                durable := s.durable + 1, records := s.records[v.Identity() := Entry(v, Active)])
  {
    hide ValidIdentity, Exceeds;
  }

  lemma ShareAppended(done: seq<Request>, v: Request, w: string)
    ensures Share(done + [v], w) == Share(done, w) + if v.workspace == w then 1 else 0
  {
    assert (done + [v])[..|done|] == done;
  }

  lemma {:induction false} ShareGrows(vs: seq<Request>, n: nat, w: string)
    requires n <= |vs|
    ensures Share(vs[..n], w) <= Share(vs, w)
    decreases |vs|
  {
    if n == |vs| { assert vs[..n] == vs; }
    else {
      var m := |vs| - 1;
      assert vs[..m][..n] == vs[..n];
      ShareGrows(vs[..m], n, w);
    }
  }

  lemma {:induction false} NoShare(vs: seq<Request>, w: string)
    requires forall i | 0 <= i < |vs| :: vs[i].workspace != w
    ensures Share(vs, w) == 0
    decreases |vs|
  {
    if vs != [] { NoShare(vs[..|vs| - 1], w); }
  }

  /** One more run of the filler is unseen and finds its workspace below its bound. */
  lemma NextOfFiller(limits: Limits, fill: seq<Request>, n: nat)
    requires Filler(limits, fill) && n < |fill|
    ensures fill[..n + 1] == fill[..n] + [fill[n]] && Admissible(limits, fill[n]) && !Among(fill[n].Identity(), fill[..n])
    ensures Share(fill[..n], fill[n].workspace) < limits.workspaceActive
  {
    hide Admissible, Share;
    var w := fill[n].workspace;
    assert fill[..n + 1] == fill[..n] + [fill[n]];
    ShareAppended(fill[..n], fill[n], w);
    ShareGrows(fill, n + 1, w);
  }

  lemma OneMoreFills(s: Sched, limits: Limits, done: seq<Request>, v: Request)
    requires Filling(s, limits, done) && |done| < limits.globalActive && Admissible(limits, v)
    requires !Among(v.Identity(), done) && Share(done, v.workspace) < limits.workspaceActive
    ensures Filling(Apply(s, Arrive(v)), limits, done + [v])
  {
    hide Inv, Admissible, Admit, Share, Among;
    ArrivalStarts(s, v);
    AdmitKeepsInv(s, v);
    var s', done' := Apply(s, Arrive(v)), done + [v];
    forall w ensures s'.ActiveOf(w) == Share(done', w) { ShareAppended(done, v, w); }
    forall j | j in s'.records ensures Among(j, done') { StaysAmong(j, done, v); }
  }

  lemma StaysAmong(j: Key, done: seq<Request>, v: Request)
    ensures (Among(j, done) || j == v.Identity()) ==> Among(j, done + [v])
  {
    if j == v.Identity() { assert (done + [v])[|done|] == v; }
    else if i :| 0 <= i < |done| && done[i].Identity() == j { assert (done + [v])[i] == done[i]; }
  }

  lemma {:induction false} FillsUp(s: Sched, limits: Limits, fill: seq<Request>, n: nat)
    requires Filler(limits, fill) && n <= |fill| && Filling(s, limits, fill[..n])
    ensures Filling(Exec(s, Arrivals(fill[n..])), limits, fill)
    decreases |fill| - n
  {
    hide Filler, Filling, Apply, Admissible, Share, Among;
    if n == |fill| {
      assert fill[..n] == fill;
    } else {
      NextOfFiller(limits, fill, n);
      FillerSize(limits, fill);
      OneMoreFills(s, limits, fill[..n], fill[n]);
      var rest := fill[n..];
      assert rest[0] == fill[n] && rest[1..] == fill[n + 1..];
      assert Arrivals(rest)[0] == Arrive(fill[n]) && Arrivals(rest)[1..] == Arrivals(fill[n + 1..]);
      FillsUp(Apply(s, Arrive(fill[n])), limits, fill, n + 1);
    }
  }

  lemma FillerSize(limits: Limits, fill: seq<Request>)
    requires Filler(limits, fill)
    ensures |fill| == limits.globalActive >= 1
  {}

  /** Of a full scheduler only the workspaces that run there matter, and one run that is running. */
  lemma FilledIsLoaded(s: Sched, limits: Limits, fill: seq<Request>)
    requires Filling(s, limits, fill) && fill != []
    ensures Loaded(s, limits, |fill|, Workspaces(fill), fill[0].Identity())
  {
    hide Inv, Share;
    forall w | w !in Workspaces(fill) ensures s.ActiveOf(w) == 0 { NoShare(fill, w); }
  }

  /** Two runs of one workspace queue behind a full scheduler. */
  lemma TwoQueue(s: Sched, a1: Request, a2: Request)
    requires Inv(s) && s.order == [] && s.queuedTotal == 0 && s.global == s.limits.globalActive
    requires s.limits.globalQueued >= 2 && s.limits.workspaceQueued >= 2
    requires Fresh(s, a1.workspace, a1) && Fresh(s, a1.workspace, a2) && a1.run != a2.run
    ensures var s2 := Apply(Apply(s, Arrive(a1)), Arrive(a2));
            && Inv(s2) && s2.QueueOf(a1.workspace) == [a1, a2]
            && s2 == s.(order := [a1.workspace], queued := s2.queued, queuedTotal := 2, durable := s.durable + 2,
                        records := s.records[a1.Identity() := Entry(a1, Queued)][a2.Identity() := Entry(a2, Queued)])
  {
    hide Inv, Admissible, Admit;
    InvFacts(s, a1.workspace);
    var s1 := Apply(s, Arrive(a1));
    ArrivalQueues(s, a1);
    AdmitKeepsInv(s, a1);
    assert s.order + [a1.workspace] == [a1.workspace] && [] + [a1] == [a1];
    ArrivalQueues(s1, a2);
    AdmitKeepsInv(s1, a2);
  }

  lemma OldestStarts(r: Sched, a1: Request, a2: Request)
    requires r.order == [a1.workspace] && r.cursor == 0 && r.QueueOf(a1.workspace) == [a1, a2] && !r.Full(a1.workspace)
    requires r.global < r.limits.globalActive && a1.Identity() in r.records && r.records[a1.Identity()].request == a1
    ensures Next(r).0 == r.(queued := r.queued[a1.workspace := [a2]], queuedTotal := r.queuedTotal - 1, cursor := 1, global := r.global + 1,
                            active := r.active[a1.workspace := r.ActiveOf(a1.workspace) + 1],
                            records := r.records[a1.Identity() := Entry(a1, Active)])
  {
    assert r.Place(0) == 0;
    assert FirstEligible(r, 0) == Some(0);
    assert [a1, a2][1..] == [a2];
  }

  /** The first of them takes the slot a filler gives back, and the cursor moves past its workspace. */
  lemma FirstIsPromoted(s: Sched, k: Key, a1: Request, a2: Request)
    requires Inv(s) && s.order == [a1.workspace] && s.cursor == 0 && s.QueueOf(a1.workspace) == [a1, a2] && s.queuedTotal == 2
    requires a1.Identity() in s.records && s.records[a1.Identity()].request == a1 && s.limits.globalQueued >= 2
    requires Running(s, k) && k.workspace != a1.workspace && s.ActiveOf(a1.workspace) == 0 && s.global == s.limits.globalActive
    ensures var s' := Apply(s, Leave(k));
            && Inv(s') && Cornered(s', a1.workspace, a1.Identity()) && s'.limits == s.limits && s'.records.Keys == s.records.Keys
            && s'.ActiveOf(a1.workspace) == 1 && (forall w | w != a1.workspace :: s'.ActiveOf(w) <= s.ActiveOf(w))
  {
    hide Inv, CountersAgree, Next;
    InvFacts(s, a1.workspace);
    ReleaseEffect(s, k);
    FinishKeepsInv(s, k);
    var r := Release(s, k);
    hide Release;
    OldestStarts(r, a1, a2);
  }

  /** Then a run of another workspace arrives, and that first one completes. */
  lemma StarvingNow(s: Sched, a1: Request, v: Request)
    requires Inv(s) && Cornered(s, a1.workspace, a1.Identity()) && s.ActiveOf(a1.workspace) == 1
    requires v.workspace != a1.workspace && Fresh(s, v.workspace, v) && s.ActiveOf(v.workspace) == 0
    ensures var e := Apply(Apply(s, Arrive(v)), Leave(a1.Identity()));
            && Starving(e, a1.workspace, v.workspace, v.Identity()) && e.limits == s.limits
            && e.records.Keys == s.records.Keys + {v.Identity()}
  {
    hide Inv, Admit, Finish, Fresh, Joins;
    InvFacts(s, v.workspace);
    ArrivalOvertakes(s, a1.workspace, v, a1.Identity());
  }

  /** The operations that lead there: every slot taken, two runs queued, a slot back, an arrival, a slot back. */
  function Closing(k: Key, a1: Request, a2: Request, v: Request): seq<Op> {
    [Arrive(a1), Arrive(a2), Leave(k), Arrive(v), Leave(a1.Identity())]
  }

  function Prelude(fill: seq<Request>, a1: Request, a2: Request, v: Request): seq<Op>
    requires fill != []
  {
    Arrivals(fill) + Closing(fill[0].Identity(), a1, a2, v)
  }

  lemma ExecOne(s: Sched, ops: seq<Op>, x: Op, rest: seq<Op>)
    requires ops == [x] + rest
    ensures Exec(s, ops) == Exec(Apply(s, x), rest)
  {
    hide Apply;
    assert ops[0] == x && ops[1..] == rest;
  }

  lemma FiveSteps(s: Sched, a: Op, b: Op, c: Op, d: Op, e: Op)
    ensures Exec(s, [a, b, c, d, e]) == Apply(Apply(Apply(Apply(Apply(s, a), b), c), d), e)
  {
    hide Apply, Exec;
    var s1 := Apply(s, a);
    var s2 := Apply(s1, b);
    var s3 := Apply(s2, c);
    var s4 := Apply(s3, d);
    ExecOne(s, [a, b, c, d, e], a, [b, c, d, e]);
    ExecOne(s1, [b, c, d, e], b, [c, d, e]);
    ExecOne(s2, [c, d, e], c, [d, e]);
    ExecOne(s3, [d, e], d, [e]);
    ExecOne(s4, [e], e, []);
    ExecNothing(Apply(s4, e));
  }

  lemma ExecNothing(s: Sched)
    ensures Exec(s, []) == s
  {}

  lemma StarvingPosition(s: Sched, limits: Limits, used: set<string>, k: Key, a1: Request, a2: Request, v: Request)
    requires Loaded(s, limits, limits.globalActive, used, k) && limits.globalQueued >= 2 && limits.workspaceQueued >= 2 && limits.Valid()
    requires Admissible(limits, a1) && Admissible(limits, a2) && a1.workspace == a2.workspace && a1.run != a2.run && a1.workspace !in used
    requires Admissible(limits, v) && v.workspace != a1.workspace && v.workspace !in used
    ensures var e := Exec(s, Closing(k, a1, a2, v));
            && Starving(e, a1.workspace, v.workspace, v.Identity()) && e.limits == limits
            && e.records.Keys <= s.records.Keys + {a1.Identity(), a2.Identity(), v.Identity()}
  {
    hide Inv, Admissible, Admit, Finish, Apply, Exec, Starving, Cornered;
    FiveSteps(s, Arrive(a1), Arrive(a2), Leave(k), Arrive(v), Leave(a1.Identity()));
    var s2 := Apply(Apply(s, Arrive(a1)), Arrive(a2));
    TwoQueue(s, a1, a2);
    FirstIsPromoted(s2, k, a1, a2);
    var s3 := Apply(s2, Leave(k));
    InvActive(s3, v.workspace);
    StarvingNow(s3, a1, v);
  }

  lemma InvActive(s: Sched, w: string)
    requires Inv(s)
    ensures s.ActiveOf(w) >= 0
  {}

  lemma EmptyIsFilling(limits: Limits)
    requires limits.Valid()
    ensures Filling(Empty(limits), limits, [])
  {
    EmptySatisfiesInv(limits);
    hide Inv;
  }

  lemma FilledFromEmpty(limits: Limits, fill: seq<Request>)
    requires limits.Valid() && Filler(limits, fill)
    ensures fill != []
    ensures Loaded(Exec(Empty(limits), Arrivals(fill)), limits, limits.globalActive, Workspaces(fill), fill[0].Identity())
  {
    hide Loaded, Filler, Filling, Exec, Arrivals, Workspaces;
    FillerSize(limits, fill);
    EmptyIsFilling(limits);
    assert fill[..0] == [] && fill[0..] == fill;
    FillsUp(Empty(limits), limits, fill, 0);
    FilledIsLoaded(Exec(Empty(limits), Arrivals(fill)), limits, fill);
  }

  lemma LaterRunsAreFresh(s: Sched, limits: Limits, used: set<string>, k: Key, e: Sched, a1: Request, a2: Request, vs: seq<Request>)
    requires Loaded(s, limits, limits.globalActive, used, k) && vs != [] && FreshRuns(Empty(limits), vs[0].workspace, vs)
    requires vs[0].workspace !in used && vs[0].workspace != a1.workspace && vs[0].workspace != a2.workspace && e.limits == limits
    requires e.records.Keys <= s.records.Keys + {a1.Identity(), a2.Identity(), vs[0].Identity()}
    ensures FreshRuns(e, vs[0].workspace, vs[1..])
  {
    hide Inv, Admissible;
    forall i | 0 <= i < |vs| - 1 ensures Fresh(e, vs[0].workspace, vs[1..][i]) {
      assert vs[1..][i] == vs[i + 1] && Fresh(Empty(limits), vs[0].workspace, vs[i + 1]) && vs[0].run != vs[i + 1].run;
    }
  }

  /**
   So round robin starves under arrivals, from the empty scheduler on and under any limits that let
   two runs wait: whichever distinct runs of other workspaces fill the slots, within the bound of each
   workspace, and however many fresh runs of a second workspace arrive in turn with completions, every
   one of them is started, while the first workspace is eligible at every step and not one run of it
   starts. The bound on the wait is met exactly.
   */
  lemma StarvationFromEmpty(limits: Limits, fill: seq<Request>, a1: Request, a2: Request, vs: seq<Request>)
    requires limits.Valid() && limits.globalQueued >= 2 && limits.workspaceQueued >= 2
    requires Filler(limits, fill) && vs != [] && FreshRuns(Empty(limits), vs[0].workspace, vs)
    requires Admissible(limits, a1) && Admissible(limits, a2) && a1.workspace == a2.workspace && a1.run != a2.run
    requires vs[0].workspace != a1.workspace && a1.workspace !in Workspaces(fill) && vs[0].workspace !in Workspaces(fill)
    ensures var s, ops := Exec(Empty(limits), Prelude(fill, a1, a2, vs[0])), Rounds(vs[0].Identity(), vs[1..]);
            && Starving(s, a1.workspace, vs[0].workspace, vs[0].Identity()) && Unserved(s, ops, a1.workspace)
            && Started(s, ops, a1.workspace) == [] && Started(s, ops, vs[0].workspace) == vs[1..]
            && Completions(s, ops) == JoinsWhilePassed(s, ops, a1.workspace) == |vs| - 1
  {
    var k, v := fill[0].Identity(), vs[0];
    hide Loaded, Filler, Exec, Arrivals, Admissible, Closing, Starving, Workspaces;
    assert Admissible(limits, v) by { assert Fresh(Empty(limits), v.workspace, vs[0]); }
    hide FreshRuns;
    FilledFromEmpty(limits, fill);
    var full := Exec(Empty(limits), Arrivals(fill));
    StarvingPosition(full, limits, Workspaces(fill), k, a1, a2, v);
    ExecConcat(Empty(limits), Arrivals(fill), Closing(k, a1, a2, v));
    var s := Exec(Empty(limits), Prelude(fill, a1, a2, v));
    LaterRunsAreFresh(full, limits, Workspaces(fill), k, s, a1, a2, vs);
    ArrivalsStarve(s, a1.workspace, v.workspace, v.Identity(), vs[1..]);
  }
}
