/**
 Every run of the admission scheduler: the invariant, work conservation, and
 per-workspace first-in first-out order.
 */
module AdmissionRuns {
  import opened Wrappers
  import opened MapSums
  import opened Admission

  lemma EmptySatisfiesInv(limits: Limits)
    requires limits.Valid()
    ensures Inv(Empty(limits))
  {
    var s := Empty(limits);
    forall w ensures RunningIn(s, w) == {} {}
  }

  // ---- The parts of the invariant, one kind of change at a time --------------------------

  /** A record that is not waiting, before or after, may change without touching the queues. */
  lemma ActiveRecordKeepsQueues(s: Sched, s': Sched, k: Key, e: Entry)
    requires QueuesMatchRecords(s) && s'.queued == s.queued && s'.records == s.records[k := e]
    requires e.request.Identity() == k && e.phase != Queued && (k in s.records ==> s.records[k].phase != Queued)
    ensures QueuesMatchRecords(s')
  {
    forall x, i | 0 <= i < |s'.QueueOf(x)| ensures QueueEntry(s', x, i) { assert QueueEntry(s, x, i); }
    assert forall x :: s'.QueueOf(x) == s.QueueOf(x);
  }

  lemma ActiveChangeKeepsCounters(s: Sched, s': Sched, w: string, n: int)
    requires CountersAgree(s) && s'.queued == s.queued && s'.queuedTotal == s.queuedTotal
    requires s'.active == s.active[w := n] && s'.global == s.global - s.ActiveOf(w) + n
    requires n == |RunningIn(s', w)|
    requires forall x | x != w :: RunningIn(s', x) == RunningIn(s, x)
    ensures CountersAgree(s')
  {
    Update(s.active, Count, w, n);
    forall x ensures s'.ActiveOf(x) == |RunningIn(s', x)| { assert s.ActiveOf(x) == |RunningIn(s, x)|; }
  }

  lemma QueueChangeKeepsCounters(s: Sched, s': Sched, w: string, q: seq<Request>)
    requires CountersAgree(s) && s'.active == s.active && s'.global == s.global
    requires s'.queued == s.queued[w := q] && s'.queuedTotal == s.queuedTotal - |s.QueueOf(w)| + |q|
    requires forall x :: RunningIn(s', x) == RunningIn(s, x)
    ensures CountersAgree(s')
  {
    Update(s.queued, Length, w, q);
    forall x ensures s'.ActiveOf(x) == |RunningIn(s', x)| { assert s.ActiveOf(x) == |RunningIn(s, x)|; }
  }

  // ---- Admission keeps the invariant -----------------------------------------------------

  lemma DirectAdmissionRunsOneMore(s: Sched, v: Request)
    requires Admit(s, v).1 == Admitted
    ensures var s', w := Admit(s, v).0, v.workspace;
            && RunningIn(s', w) == RunningIn(s, w) + {v.Identity()} && v.Identity() !in RunningIn(s, w)
            && forall x | x != w :: RunningIn(s', x) == RunningIn(s, x)
  {
    var s', w := Admit(s, v).0, v.workspace;
    assert RunningIn(s', w) == RunningIn(s, w) + {v.Identity()};
    forall x | x != w ensures RunningIn(s', x) == RunningIn(s, x) {}
  }

  lemma DirectAdmissionStaysWithin(s: Sched, v: Request)
    requires RingListsQueues(s) && WithinLimits(s) && WorkConserving(s) && Admit(s, v).1 == Admitted
    ensures RingListsQueues(Admit(s, v).0) && WithinLimits(Admit(s, v).0) && WorkConserving(Admit(s, v).0)
  {
    var s', w := Admit(s, v).0, v.workspace;
    assert forall x :: s'.QueueOf(x) == s.QueueOf(x);
    assert forall x | x != w :: s'.ActiveOf(x) == s.ActiveOf(x);
  }

  lemma DirectAdmissionKeepsInv(s: Sched, v: Request)
    requires Inv(s) && Admit(s, v).1 == Admitted
    ensures Inv(Admit(s, v).0)
  {
    var s' := Admit(s, v).0;
    var k, w := v.Identity(), v.workspace;
    assert s'.active == s.active[w := s.ActiveOf(w) + 1] && s'.queued == s.queued && s'.records == s.records[k := Entry(v, Active)];
    assert s'.queuedTotal == s.queuedTotal && s'.global == s.global + 1 && s.ActiveOf(w) == |RunningIn(s, w)|;
    hide Admit, QueuesMatchRecords, RingListsQueues, CountersAgree, WithinLimits, WorkConserving, RunningIn;
    ActiveRecordKeepsQueues(s, s', k, Entry(v, Active));
    DirectAdmissionRunsOneMore(s, v);
    ActiveChangeKeepsCounters(s, s', w, s.ActiveOf(w) + 1);
    DirectAdmissionStaysWithin(s, v);
  }

  /** What queueing changes: one record, one queue and its total, perhaps the ring, and no slot. */
  lemma QueueingEffect(s: Sched, v: Request)
    requires Admit(s, v).1 == Waiting
    ensures var s', k, w := Admit(s, v).0, v.Identity(), v.workspace;
            && k !in s.records && s'.records == s.records[k := Entry(v, Queued)] && s'.durable == s.durable + 1
            && s'.queued == s.queued[w := s.QueueOf(w) + [v]] && s'.queuedTotal == s.queuedTotal + 1
            && s'.active == s.active && s'.global == s.global
  {
    hide ValidIdentity, Exceeds;
  }

  lemma QueueingKeepsQueues(s: Sched, v: Request)
    requires QueuesMatchRecords(s) && Admit(s, v).1 == Waiting
    ensures QueuesMatchRecords(Admit(s, v).0)
  {
    hide Admit;
    QueueingEffect(s, v);
    var s' := Admit(s, v).0;
    var k, w := v.Identity(), v.workspace;
    forall x, i | 0 <= i < |s'.QueueOf(x)| ensures QueueEntry(s', x, i) {
      if i < |s.QueueOf(x)| { assert QueueEntry(s, x, i); }
    }
    forall x, i, j | 0 <= i < j < |s'.QueueOf(x)| ensures s'.QueueOf(x)[i] != s'.QueueOf(x)[j] {
      assert QueueEntry(s, x, i);
    }
    forall j | j in s'.records && s'.records[j].phase == Queued ensures s'.records[j].request in s'.QueueOf(j.workspace) {
      if j == k { assert s'.QueueOf(w)[|s.QueueOf(w)|] == v; }
      else {
        var i :| 0 <= i < |s.QueueOf(j.workspace)| && s.QueueOf(j.workspace)[i] == s.records[j].request;
        assert s'.QueueOf(j.workspace)[i] == s.records[j].request;
      }
    }
  }

  lemma QueueingKeepsRing(s: Sched, v: Request)
    requires RingListsQueues(s) && Admit(s, v).1 == Waiting
    ensures RingListsQueues(Admit(s, v).0)
  {
    var s', w := Admit(s, v).0, v.workspace;
    assert forall x | x != w :: s'.QueueOf(x) == s.QueueOf(x);
    if s.QueueOf(w) == [] { assert s'.order[|s.order|] == w; }
  }

  lemma QueueingStaysWithin(s: Sched, v: Request)
    requires WithinLimits(s) && WorkConserving(s) && Admit(s, v).1 == Waiting
    ensures WithinLimits(Admit(s, v).0) && WorkConserving(Admit(s, v).0)
  {
    var s', w := Admit(s, v).0, v.workspace;
    assert forall x | x != w :: s'.QueueOf(x) == s.QueueOf(x);
    assert forall x :: s'.ActiveOf(x) == s.ActiveOf(x);
  }

  lemma QueueingStartsNobody(s: Sched, v: Request)
    requires Admit(s, v).1 == Waiting
    ensures forall x :: RunningIn(Admit(s, v).0, x) == RunningIn(s, x)
  {
    forall x ensures RunningIn(Admit(s, v).0, x) == RunningIn(s, x) {}
  }

  lemma QueueingKeepsInv(s: Sched, v: Request)
    requires Inv(s) && Admit(s, v).1 == Waiting
    ensures Inv(Admit(s, v).0)
  {
    hide Admit, QueuesMatchRecords, RingListsQueues, CountersAgree, WithinLimits, WorkConserving, RunningIn;
    var s' := Admit(s, v).0;
    var w := v.workspace;
    QueueingEffect(s, v);
    QueueingKeepsQueues(s, v);
    QueueingKeepsRing(s, v);
    QueueingStaysWithin(s, v);
    QueueingStartsNobody(s, v);
    QueueChangeKeepsCounters(s, s', w, s.QueueOf(w) + [v]);
  }

  lemma AdmitKeepsInv(s: Sched, v: Request)
    requires Inv(s)
    ensures Inv(Admit(s, v).0)
  {
    match Admit(s, v).1
    case Admitted => DirectAdmissionKeepsInv(s, v);
    case Waiting => QueueingKeepsInv(s, v);
    case _ =>
  }

  // ---- Completion keeps the invariant ----------------------------------------------------

  /** Everything but work conservation. */
  ghost predicate Shape(s: Sched) {
    QueuesMatchRecords(s) && RingListsQueues(s) && CountersAgree(s) && EveryRecordCounted(s) && WithinLimits(s)
  }

  /** A workspace waits for its own bound, or is the one that just gave a slot back. */
  predicate Blocked(s: Sched, x: string, w: string) {
    s.ActiveOf(w) == s.limits.workspaceActive || (w == x && s.ActiveOf(w) == s.limits.workspaceActive - 1)
  }

  /** One slot was just given back, by workspace x. */
  ghost predicate OneSlotFree(s: Sched, x: string) {
    || s.global == s.limits.globalActive - 1
    || (s.global < s.limits.globalActive && forall w | s.QueueOf(w) != [] :: Blocked(s, x, w))
  }

  /** What a release changes: one record, one count, and nothing else. */
  lemma ReleaseEffect(s: Sched, k: Key)
    requires CountersAgree(s) && Running(s, k)
    ensures var s', w := Release(s, k), k.workspace;
            && s.ActiveOf(w) > 0 && s'.records == s.records[k := s.records[k].(phase := Complete)]
            && s'.active == s.active[w := s.ActiveOf(w) - 1] && s'.global == s.global - 1
            && s'.queued == s.queued && s'.queuedTotal == s.queuedTotal && s'.order == s.order && s'.cursor == s.cursor && s'.limits == s.limits
            && s'.ActiveOf(w) == s.ActiveOf(w) - 1
  {
    assert k in RunningIn(s, k.workspace);
  }

  lemma ReleaseRunsOneFewer(s: Sched, k: Key)
    requires CountersAgree(s) && Running(s, k)
    ensures var s', w := Release(s, k), k.workspace;
            && |RunningIn(s', w)| == s.ActiveOf(w) - 1
            && forall x | x != w :: RunningIn(s', x) == RunningIn(s, x)
  {
    ReleaseEffect(s, k);
    var s', w := Release(s, k), k.workspace;
    assert k in RunningIn(s, w);
    assert RunningIn(s', w) == RunningIn(s, w) - {k};
    forall x | x != w ensures RunningIn(s', x) == RunningIn(s, x) {}
  }

  lemma ReleaseStaysWithin(s: Sched, s': Sched, w: string)
    requires RingListsQueues(s) && WithinLimits(s) && WorkConserving(s)
    requires s'.active == s.active[w := s.ActiveOf(w) - 1] && s.ActiveOf(w) > 0 && s'.global == s.global - 1 && s'.limits == s.limits
    requires s'.queued == s.queued && s'.queuedTotal == s.queuedTotal && s'.order == s.order && s'.cursor == s.cursor
    ensures RingListsQueues(s') && WithinLimits(s') && OneSlotFree(s', w)
    ensures forall x | x != w :: s'.ActiveOf(x) == s.ActiveOf(x)
  {
    assert forall x :: s'.QueueOf(x) == s.QueueOf(x);
    assert forall x :: s'.ActiveOf(x) == if x == w then s.ActiveOf(w) - 1 else s.ActiveOf(x);
  }

  lemma ReleaseFreesOneSlot(s: Sched, k: Key)
    requires Inv(s) && Running(s, k)
    ensures Shape(Release(s, k)) && OneSlotFree(Release(s, k), k.workspace)
    ensures Release(s, k).ActiveOf(k.workspace) == s.ActiveOf(k.workspace) - 1 && Release(s, k).global == s.global - 1
    ensures Release(s, k).queued == s.queued && Release(s, k).order == s.order && Release(s, k).cursor == s.cursor
    ensures Release(s, k).limits == s.limits && forall x | x != k.workspace :: Release(s, k).ActiveOf(x) == s.ActiveOf(x)
  {
    var s', w := Release(s, k), k.workspace;
    var e := s.records[k].(phase := Complete);
    assert e.request.Identity() == k;
    hide QueuesMatchRecords, RingListsQueues, CountersAgree, WithinLimits, WorkConserving, RunningIn, Release, OneSlotFree;
    ReleaseEffect(s, k);
    ReleaseRunsOneFewer(s, k);
    ActiveRecordKeepsQueues(s, s', k, e);
    ActiveChangeKeepsCounters(s, s', w, s.ActiveOf(w) - 1);
    ReleaseStaysWithin(s, s', w);
  }

  lemma PromotionKeepsQueues(s: Sched, c: nat)
    requires QueuesMatchRecords(s) && c < |s.order| && s.QueueOf(s.order[c]) != []
    ensures QueuesMatchRecords(Promote(s, c).0)
    ensures Promote(s, c).1.Identity() in s.records && s.records[Promote(s, c).1.Identity()] == Entry(Promote(s, c).1, Queued)
    ensures Promote(s, c).1.workspace == s.order[c]
  {
    var (s', v) := Promote(s, c);
    var w := s.order[c];
    assert QueueEntry(s, w, 0);
    forall x, i | 0 <= i < |s'.QueueOf(x)| ensures QueueEntry(s', x, i) {
      if x == w { assert QueueEntry(s, w, i + 1); assert s.QueueOf(w)[0] != s.QueueOf(w)[i + 1]; }
      else { assert QueueEntry(s, x, i); }
    }
    forall x, i, j | 0 <= i < j < |s'.QueueOf(x)| ensures s'.QueueOf(x)[i] != s'.QueueOf(x)[j] {
      if x == w { assert s.QueueOf(w)[i + 1] != s.QueueOf(w)[j + 1]; }
      else { assert s'.QueueOf(x) == s.QueueOf(x); }
    }
    forall j | j in s'.records && s'.records[j].phase == Queued ensures s'.records[j].request in s'.QueueOf(j.workspace) {
      var i :| 0 <= i < |s.QueueOf(j.workspace)| && s.QueueOf(j.workspace)[i] == s.records[j].request;
      if j.workspace == w { assert i > 0; assert s'.QueueOf(w)[i - 1] == s.records[j].request; }
    }
  }

  /** A place taken out of a list without repetitions. */
  lemma RemovedPlace(order: seq<string>, c: nat)
    requires NoDuplicates(order) && c < |order|
    ensures var rest := order[..c] + order[c + 1..];
            NoDuplicates(rest) && |rest| == |order| - 1 && forall x :: x in rest <==> x in order && x != order[c]
  {
    var rest := order[..c] + order[c + 1..];
    forall x | x in order && x != order[c] ensures x in rest {
      var i :| 0 <= i < |order| && order[i] == x;
      assert rest[if i < c then i else i - 1] == x;
    }
  }

  lemma PromotionKeepsRing(s: Sched, c: nat)
    requires RingListsQueues(s) && c < |s.order| && s.QueueOf(s.order[c]) != []
    ensures RingListsQueues(Promote(s, c).0)
  {
    var s', w := Promote(s, c).0, s.order[c];
    RemovedPlace(s.order, c);
    assert forall x | x != w :: s'.QueueOf(x) == s.QueueOf(x);
    hide NoDuplicates;
  }

  /** What a promotion changes: the queue and the count of one workspace, one record, and the ring. */
  lemma PromotionEffect(s: Sched, c: nat)
    requires QueuesMatchRecords(s) && c < |s.order| && s.QueueOf(s.order[c]) != []
    ensures var (s', v) := Promote(s, c);
            var w, k := s.order[c], v.Identity();
            && v == s.QueueOf(w)[0] && k in s.records && s.records[k] == Entry(v, Queued) && k.workspace == w
            && s'.queued == s.queued[w := s.QueueOf(w)[1..]] && s'.queuedTotal == s.queuedTotal - 1
            && s'.active == s.active[w := s.ActiveOf(w) + 1] && s'.global == s.global + 1
            && s'.records == s.records[k := Entry(v, Active)]
  {
    assert QueueEntry(s, s.order[c], 0);
  }

  lemma StartedRunsOneMore(s: Sched, s': Sched, k: Key)
    requires k in s.records && s.records[k].phase == Queued && s'.records == s.records[k := s.records[k].(phase := Active)]
    ensures |RunningIn(s', k.workspace)| == |RunningIn(s, k.workspace)| + 1
    ensures forall x | x != k.workspace :: RunningIn(s', x) == RunningIn(s, x)
  {
    assert RunningIn(s', k.workspace) == RunningIn(s, k.workspace) + {k};
    forall x | x != k.workspace ensures RunningIn(s', x) == RunningIn(s, x) {}
  }

  lemma PromotionKeepsCounters(s: Sched, c: nat)
    requires QueuesMatchRecords(s) && CountersAgree(s) && c < |s.order| && s.QueueOf(s.order[c]) != []
    ensures CountersAgree(Promote(s, c).0)
  {
    var (s', v) := Promote(s, c);
    var w, k := s.order[c], v.Identity();
    PromotionEffect(s, c);
    hide Promote, QueuesMatchRecords;
    var mid := s.(queued := s'.queued, queuedTotal := s'.queuedTotal);
    assert forall x :: RunningIn(mid, x) == RunningIn(s, x);
    QueueChangeKeepsCounters(s, mid, w, s.QueueOf(w)[1..]);
    assert mid.ActiveOf(w) == |RunningIn(mid, w)| && mid.ActiveOf(w) == s.ActiveOf(w);
    hide CountersAgree, RunningIn;
    StartedRunsOneMore(mid, s', k);
    ActiveChangeKeepsCounters(mid, s', w, s.ActiveOf(w) + 1);
  }

  lemma PromotionKeepsShape(s: Sched, c: nat)
    requires Shape(s) && c < |s.order| && s.Eligible(s.order[c]) && s.global < s.limits.globalActive
    ensures Shape(Promote(s, c).0)
  {
    PromotionKeepsQueues(s, c);
    PromotionKeepsRing(s, c);
    PromotionKeepsCounters(s, c);
    PromotionStaysWithin(s, c);
    PromotionRecordsNobody(s, c);
    hide QueuesMatchRecords, RingListsQueues, CountersAgree, WithinLimits, Promote;
  }

  lemma PromotionStaysWithin(s: Sched, c: nat)
    requires WithinLimits(s) && c < |s.order| && s.Eligible(s.order[c]) && s.global < s.limits.globalActive
    ensures WithinLimits(Promote(s, c).0)
  {
    var s', w := Promote(s, c).0, s.order[c];
    assert forall x | x != w :: s'.QueueOf(x) == s.QueueOf(x) && s'.ActiveOf(x) == s.ActiveOf(x);
  }

  lemma PromotionRecordsNobody(s: Sched, c: nat)
    requires QueuesMatchRecords(s) && EveryRecordCounted(s) && c < |s.order| && s.QueueOf(s.order[c]) != []
    ensures EveryRecordCounted(Promote(s, c).0)
  {
    PromotionEffect(s, c);
    hide QueuesMatchRecords;
  }

  lemma PromotionConservesWork(s: Sched, c: nat, x: string)
    requires OneSlotFree(s, x) && c < |s.order| && s.Eligible(s.order[c])
    ensures WorkConserving(Promote(s, c).0)
  {
    var s', w := Promote(s, c).0, s.order[c];
    assert s.global < s.limits.globalActive - 1 ==> Blocked(s, x, w);
    forall y | s.global < s.limits.globalActive - 1 && s'.QueueOf(y) != [] ensures s'.ActiveOf(y) == s.limits.workspaceActive {
      if y != w { assert s'.QueueOf(y) == s.QueueOf(y); assert Blocked(s, x, y); }
    }
  }

  /** The scan visits every place of the ring. */
  lemma ScanVisitsEveryPlace(s: Sched, i: nat)
    requires i < |s.order| && s.cursor <= |s.order|
    ensures var d := if i >= s.Head() then i - s.Head() else i + |s.order| - s.Head();
            d < |s.order| && s.Place(d) == i
  {}

  /** A scan that finds nothing proves that nothing anywhere was eligible. */
  lemma FruitlessScan(s: Sched, w: string)
    requires RingListsQueues(s) && FirstEligible(s, 0).None?
    ensures !s.Eligible(w)
  {
    if w in s.order {
      var i :| 0 <= i < |s.order| && s.order[i] == w;
      ScanVisitsEveryPlace(s, i);
    }
  }

  lemma CursorKeepsShape(s: Sched, s': Sched)
    requires Shape(s) && s' == s.(cursor := s'.cursor) && s'.cursor <= |s.order|
    ensures Shape(s')
  {
    forall y ensures RunningIn(s', y) == RunningIn(s, y) && s'.QueueOf(y) == s.QueueOf(y) && s'.ActiveOf(y) == s.ActiveOf(y) {}
    forall y, i | 0 <= i < |s'.QueueOf(y)| ensures QueueEntry(s', y, i) { assert QueueEntry(s, y, i); }
    assert QueuesMatchRecords(s') && CountersAgree(s') && WithinLimits(s');
  }

  lemma NextConservesWork(s: Sched, x: string)
    requires Shape(s) && OneSlotFree(s, x)
    ensures Inv(Next(s).0)
    ensures Next(s).1.None? ==> forall w :: !s.Eligible(w)
  {
    if s.order == [] {
      assert forall w :: s.QueueOf(w) == [];
    } else {
      match FirstEligible(s, 0)
      case None =>
        forall w ensures !s.Eligible(w) { FruitlessScan(s, w); }
        CursorKeepsShape(s, Next(s).0);
        assert WorkConserving(Next(s).0) by {
          forall w | Next(s).0.QueueOf(w) != [] ensures Next(s).0.ActiveOf(w) == s.limits.workspaceActive {
            assert s.QueueOf(w) != [] && !s.Eligible(w);
          }
        }
      case Some(d) =>
        PromotionKeepsShape(s, s.Place(d));
        PromotionConservesWork(s, s.Place(d), x);
    }
  }

  lemma FinishKeepsInv(s: Sched, k: Key)
    requires Inv(s)
    ensures Inv(Finish(s, k).0)
  {
    if Running(s, k) {
      ReleaseFreesOneSlot(s, k);
      NextConservesWork(Release(s, k), k.workspace);
    }
  }

  // ---- Runs ------------------------------------------------------------------------------

  datatype Op = Arrive(request: Request) | Leave(key: Key)

  function Apply(s: Sched, op: Op): Sched {
    match op
    case Arrive(v) => Admit(s, v).0
    case Leave(k) => Finish(s, k).0
  }

  function Exec(s: Sched, ops: seq<Op>): Sched
    decreases |ops|
  {
    if ops == [] then s else Exec(Apply(s, ops[0]), ops[1..])
  }

  lemma StepKeepsInv(s: Sched, op: Op)
    requires Inv(s)
    ensures Inv(Apply(s, op))
  {
    match op
    case Arrive(v) => AdmitKeepsInv(s, v);
    case Leave(k) => FinishKeepsInv(s, k);
  }

  /**
   In every reachable state the counters, the ring, the queues and the records agree, all limits
   hold, and every workspace that still waits is blocked by the global bound or by its own.
   */
  lemma {:induction false} EveryRunKeepsInv(s: Sched, ops: seq<Op>)
    requires Inv(s)
    ensures Inv(Exec(s, ops))
    ensures var e := Exec(s, ops); e.global == e.limits.globalActive || forall w | e.QueueOf(w) != [] :: e.Full(w)
    decreases |ops|
  {
    if ops != [] {
      StepKeepsInv(s, ops[0]);
      EveryRunKeepsInv(Apply(s, ops[0]), ops[1..]);
    }
  }

  // ---- First in, first out ---------------------------------------------------------------

  function OfWorkspace(v: Option<Request>, w: string): seq<Request> {
    if v.Some? && v.value.workspace == w then [v.value] else []
  }

  /** What one operation accepts for a workspace, to run now or to wait. */
  function Accepts(s: Sched, op: Op, w: string): seq<Request> {
    if op.Arrive? && Admit(s, op.request).1 in {Admitted, Waiting} then OfWorkspace(Some(op.request), w) else []
  }

  /** What one operation starts for a workspace, directly or by promotion. */
  function Starts(s: Sched, op: Op, w: string): seq<Request> {
    match op
    case Arrive(v) => if Admit(s, v).1 == Admitted then OfWorkspace(Some(v), w) else []
    case Leave(k) => OfWorkspace(Finish(s, k).1, w)
  }

  function Accepted(s: Sched, ops: seq<Op>, w: string): seq<Request>
    decreases |ops|
  {
    if ops == [] then [] else Accepts(s, ops[0], w) + Accepted(Apply(s, ops[0]), ops[1..], w)
  }

  function Started(s: Sched, ops: seq<Op>, w: string): seq<Request>
    decreases |ops|
  {
    if ops == [] then [] else Starts(s, ops[0], w) + Started(Apply(s, ops[0]), ops[1..], w)
  }

  /** A direct admission finds its own workspace's queue empty. */
  lemma DirectAdmissionOvertakesNobody(s: Sched, v: Request)
    requires Inv(s) && Admit(s, v).1 == Admitted
    ensures s.QueueOf(v.workspace) == []
  {}

  lemma NextIsFifo(s: Sched, w: string)
    requires QueuesMatchRecords(s)
    ensures s.QueueOf(w) == OfWorkspace(Next(s).1, w) + Next(s).0.QueueOf(w)
  {
    if Next(s).1.Some? {
      var c := s.Place(FirstEligible(s, 0).value);
      PromotionKeepsQueues(s, c);
      assert s.QueueOf(s.order[c]) == [Promote(s, c).1] + Promote(s, c).0.QueueOf(s.order[c]);
    }
  }

  lemma ArrivalIsFifo(s: Sched, v: Request, w: string)
    requires Admit(s, v).1 == Admitted ==> s.QueueOf(v.workspace) == []
    ensures s.QueueOf(w) + Accepts(s, Arrive(v), w) == Starts(s, Arrive(v), w) + Admit(s, v).0.QueueOf(w)
  {}

  lemma StepIsFifo(s: Sched, op: Op, w: string)
    requires Inv(s)
    ensures s.QueueOf(w) + Accepts(s, op, w) == Starts(s, op, w) + Apply(s, op).QueueOf(w)
  {
    match op
    case Arrive(v) =>
      if Admit(s, v).1 == Admitted { DirectAdmissionOvertakesNobody(s, v); }
      ArrivalIsFifo(s, v, w);
    case Leave(k) =>
      assert s.QueueOf(w) + [] == s.QueueOf(w);
      if Running(s, k) {
        ReleaseFreesOneSlot(s, k);
        NextIsFifo(Release(s, k), w);
      }
  }

  lemma Regroup<T>(q: seq<T>, a: seq<T>, rest: seq<T>, started: seq<T>, later: seq<T>, mid: seq<T>, end: seq<T>)
    requires q + a == started + mid && mid + rest == later + end
    ensures q + (a + rest) == (started + later) + end
  {
    assert q + (a + rest) == (q + a) + rest == started + (mid + rest) == (started + later) + end;
  }

  /**
   Over every run a workspace's accepted runs start in the order they were accepted: what has
   started, followed by what still waits, is what waited at first followed by what was accepted.
   Nothing is lost, repeated or overtaken.
   */
  lemma {:induction false} FirstInFirstOut(s: Sched, ops: seq<Op>, w: string)
    requires Inv(s)
    ensures s.QueueOf(w) + Accepted(s, ops, w) == Started(s, ops, w) + Exec(s, ops).QueueOf(w)
    decreases |ops|
  {
    if ops == [] {
      assert s.QueueOf(w) + [] == [] + s.QueueOf(w);
    } else {
      var s1 := Apply(s, ops[0]);
      StepIsFifo(s, ops[0], w);
      StepKeepsInv(s, ops[0]);
      FirstInFirstOut(s1, ops[1..], w);
      Regroup(s.QueueOf(w), Accepts(s, ops[0], w), Accepted(s1, ops[1..], w), Starts(s, ops[0], w),
              Started(s1, ops[1..], w), s1.QueueOf(w), Exec(s1, ops[1..]).QueueOf(w));
    }
  }
}
