/**
 The admission scheduler as a value: bounded admission of runs, per-workspace
 queues, and the round robin that promotes queued runs as active ones complete.
 */
module Admission {
  import opened Wrappers
  import opened MapSums

  const AXES := 12

  /** What a run asks for on each bounded axis, and the bound of each axis. */
  type Demands = d: seq<int> | |d| == AXES witness seq(AXES, _ => 0)

  datatype Limits = Limits(globalActive: nat, globalQueued: nat, workspaceActive: nat, workspaceQueued: nat, axes: Demands)
  {
    predicate Valid() {
      globalActive >= 1 && globalQueued >= 1 && workspaceActive >= 1 && workspaceQueued >= 1
      && forall i | 0 <= i < AXES :: axes[i] >= 1
    }
  }

  datatype Key = Key(workspace: string, run: string)

  datatype Request = Request(workspace: string, run: string, demands: Demands)
  {
    function Identity(): Key { Key(workspace, run) }
  }

  datatype Phase = Active | Queued | Complete
  datatype Entry = Entry(request: Request, phase: Phase)

  datatype Decision = LimitExceeded | IdempotencyConflict | Duplicate | Admitted | Overloaded | Waiting

  datatype Sched = Sched(
    limits: Limits,
    active: map<string, int>, queued: map<string, seq<Request>>,
    order: seq<string>, cursor: nat,
    global: int, queuedTotal: int, durable: nat,
    records: map<Key, Entry>)
  {
    function ActiveOf(w: string): int { if w in active then active[w] else 0 }
    function QueueOf(w: string): seq<Request> { if w in queued then queued[w] else [] }

    /** The workspace has reached its own active bound. */
    predicate Full(w: string) { ActiveOf(w) >= limits.workspaceActive }

    /** A promotion may take from this workspace. */
    predicate Eligible(w: string) { !Full(w) && QueueOf(w) != [] }

    /** Where the next scan starts. */
    function Head(): nat { if cursor >= |order| then 0 else cursor }

    /** The place at a cyclic distance from the head. */
    function Place(d: nat): nat { if Head() + d < |order| then Head() + d else Head() + d - |order| }
  }

  function Empty(limits: Limits): Sched { Sched(limits, map[], map[], [], 0, 0, 0, 0, map[]) }

  predicate IdentityChar(c: char) { 'A' <= c <= 'Z' || 'a' <= c <= 'z' || '0' <= c <= '9' }

  predicate ValidIdentity(v: string) {
    && 1 <= |v| <= 128
    && forall i | 0 <= i < |v| :: IdentityChar(v[i]) || (i > 0 && v[i] in {'.', '_', ':', '-'})
  }

  predicate Exceeds(limits: Limits, v: Request) {
    exists i | 0 <= i < AXES :: v.demands[i] < 0 || v.demands[i] > limits.axes[i]
  }

  function Admit(s: Sched, v: Request): (Sched, Decision) {
    var w, k := v.workspace, v.Identity();
    if !ValidIdentity(v.workspace) || !ValidIdentity(v.run) || Exceeds(s.limits, v) then (s, LimitExceeded)
    else if k in s.records then (s, if s.records[k].request != v then IdempotencyConflict else Duplicate)
    else if s.global < s.limits.globalActive && !s.Full(w) then
      (s.(global := s.global + 1, active := s.active[w := s.ActiveOf(w) + 1], durable := s.durable + 1,
          records := s.records[k := Entry(v, Active)]), Admitted)
    else if s.queuedTotal >= s.limits.globalQueued || |s.QueueOf(w)| >= s.limits.workspaceQueued then (s, Overloaded)
    else
      (s.(order := if s.QueueOf(w) == [] then s.order + [w] else s.order,
          queued := s.queued[w := s.QueueOf(w) + [v]], queuedTotal := s.queuedTotal + 1, durable := s.durable + 1,
          records := s.records[k := Entry(v, Queued)]), Waiting)
  }

  /** The least distance, from d on, at which the ring holds an eligible workspace. */
  function FirstEligible(s: Sched, d: nat): (r: Option<nat>)
    requires d <= |s.order|
    ensures r.None? ==> forall e | d <= e < |s.order| :: !s.Eligible(s.order[s.Place(e)])
    ensures r.Some? ==> d <= r.value < |s.order| && s.Eligible(s.order[s.Place(r.value)])
    ensures r.Some? ==> forall e | d <= e < r.value :: !s.Eligible(s.order[s.Place(e)])
    decreases |s.order| - d
  {
    if d == |s.order| then None
    else if s.Eligible(s.order[s.Place(d)]) then Some(d)
    else FirstEligible(s, d + 1)
  }

  /** Promotes the first queued run of the workspace at place c. */
  function Promote(s: Sched, c: nat): (Sched, Request)
    requires c < |s.order| && s.QueueOf(s.order[c]) != []
  {
    var w := s.order[c];
    var value, rest := s.QueueOf(w)[0], s.QueueOf(w)[1..];
    var k := value.Identity();
    var order' := if rest == [] then s.order[..c] + s.order[c + 1..] else s.order;
    var cursor' := if order' == [] then 0 else if rest == [] then c else c + 1;
    (s.(queued := s.queued[w := rest], queuedTotal := s.queuedTotal - 1, order := order', cursor := cursor',
        active := s.active[w := s.ActiveOf(w) + 1], global := s.global + 1,
        records := s.records[k := Entry(if k in s.records then s.records[k].request else value, Active)]), value)
  }

  /** The promotion a completion makes: the first eligible workspace of the ring, if there is room at all. */
  function Next(s: Sched): (Sched, Option<Request>) {
    if s.global >= s.limits.globalActive || s.order == [] then (s, None)
    else
      match FirstEligible(s, 0)
      case None => (s.(cursor := if s.Head() == 0 then |s.order| else s.Head()), None)
      case Some(d) =>
        var (s', value) := Promote(s, s.Place(d));
        (s', Some(value))
  }

  predicate Running(s: Sched, k: Key) { k in s.records && s.records[k].phase == Active }

  /** The slot a completed run gives back, before any promotion. */
  function Release(s: Sched, k: Key): Sched
    requires k in s.records
  {
    var r := s.records[k := s.records[k].(phase := Complete)];
    if s.ActiveOf(k.workspace) > 0
    then s.(records := r, active := s.active[k.workspace := s.ActiveOf(k.workspace) - 1], global := s.global - 1)
    else s.(records := r)
  }

  function Finish(s: Sched, k: Key): (Sched, Option<Request>) {
    if !Running(s, k) then (s, None) else Next(Release(s, k))
  }

  // ---- The invariant ---------------------------------------------------------------------

  function Count(n: int): int { n }
  function Length(q: seq<Request>): int { |q| }

  function RunningIn(s: Sched, w: string): set<Key> {
    set k | k in s.records && s.records[k].phase == Active && k.workspace == w
  }

  predicate NoDuplicates(order: seq<string>) { forall i, j | 0 <= i < j < |order| :: order[i] != order[j] }

  /** The i-th queued run of a workspace is recorded as queued, and queued nowhere else in it. */
  predicate QueueEntry(s: Sched, w: string, i: nat)
    requires i < |s.QueueOf(w)|
  {
    var q := s.QueueOf(w)[i];
    q.workspace == w && q.Identity() in s.records && s.records[q.Identity()] == Entry(q, Queued)
  }

  ghost predicate QueuesMatchRecords(s: Sched) {
    && (forall k | k in s.records :: s.records[k].request.Identity() == k)
    && (forall w, i | 0 <= i < |s.QueueOf(w)| :: QueueEntry(s, w, i))
    && (forall w, i, j | 0 <= i < j < |s.QueueOf(w)| :: s.QueueOf(w)[i] != s.QueueOf(w)[j])
    && (forall k | k in s.records && s.records[k].phase == Queued :: s.records[k].request in s.QueueOf(k.workspace))
  }

  /** Every run ever recorded has been counted once. */
  predicate EveryRecordCounted(s: Sched) { s.durable == |s.records| }

  ghost predicate RingListsQueues(s: Sched) {
    && NoDuplicates(s.order)
    && s.cursor <= |s.order|
    && forall w :: w in s.order <==> s.QueueOf(w) != []
  }

  ghost predicate CountersAgree(s: Sched) {
    && s.global == Total(s.active, Count)
    && s.queuedTotal == Total(s.queued, Length)
    && forall w :: s.ActiveOf(w) == |RunningIn(s, w)|
  }

  ghost predicate WithinLimits(s: Sched) {
    && s.limits.Valid()
    && s.global <= s.limits.globalActive && s.queuedTotal <= s.limits.globalQueued
    && forall w :: s.ActiveOf(w) <= s.limits.workspaceActive && |s.QueueOf(w)| <= s.limits.workspaceQueued
  }

  /** Nothing that could run is left waiting. */
  ghost predicate WorkConserving(s: Sched) {
    s.global == s.limits.globalActive || forall w | s.QueueOf(w) != [] :: s.ActiveOf(w) == s.limits.workspaceActive
  }

  ghost predicate Inv(s: Sched) {
    && QueuesMatchRecords(s) && RingListsQueues(s) && CountersAgree(s) && EveryRecordCounted(s) && WithinLimits(s)
    && WorkConserving(s)
  }
}
