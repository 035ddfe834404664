/** The admission manager: one lock, counters, queues, and a ring scanned in place. */
module AdmissionManager {
  import opened Wrappers
  import opened MapSums
  import opened Admission
  import Runs = AdmissionRuns

  lemma CursorWraps(c: nat, n: nat)
    requires 0 < n && c <= n
    ensures c % n == if c == n then 0 else c
  {}

  /** One past the last place looked at, wrapped, is the next place. */
  lemma NextPlace(s: Sched, c: nat, scanned: nat)
    requires s.cursor <= |s.order| && scanned < |s.order| && c == if scanned == 0 then s.cursor else s.Place(scanned - 1) + 1
    ensures c % |s.order| == s.Place(scanned) < |s.order|
  {
    CursorWraps(c, |s.order|);
  }

  /** Every run at the head of a queue is recorded. */
  ghost predicate HeadsRecorded(s: Sched) {
    forall w | s.QueueOf(w) != [] :: s.QueueOf(w)[0].Identity() in s.records
  }

  lemma ReleasedHeadsRecorded(s: Sched, k: Key)
    requires QueuesMatchRecords(s) && k in s.records
    ensures HeadsRecorded(Release(s, k))
  {
    forall w | s.QueueOf(w) != [] ensures s.QueueOf(w)[0].Identity() in s.records { assert QueueEntry(s, w, 0); }
    assert forall w :: Release(s, k).QueueOf(w) == s.QueueOf(w);
  }

  /** None of the first so many places from the cursor on holds an eligible workspace. */
  predicate Looked(s: Sched, d: nat) {
    d <= |s.order| && s.cursor <= |s.order| && forall e | 0 <= e < d :: !s.Eligible(s.order[s.Place(e)])
  }

  /** The scan's answer is the first place it found eligible, or nothing. */
  lemma FirstIs(s: Sched, d: nat)
    requires Looked(s, d)
    requires d < |s.order| ==> s.Eligible(s.order[s.Place(d)])
    ensures FirstEligible(s, 0) == if d < |s.order| then Some(d) else None
  {}

  /** Having looked everywhere, the cursor is where the scan began. */
  lemma ScanEnds(s: Sched)
    requires s.cursor <= |s.order| && s.order != []
    ensures s.Place(|s.order| - 1) + 1 == if s.Head() == 0 then |s.order| else s.Head()
  {}

  /** With room for a run, the next promotion is what the scan finds. */
  lemma NextScans(s: Sched)
    requires s.global < s.limits.globalActive && s.order != []
    ensures FirstEligible(s, 0).None? ==> Next(s) == (s.(cursor := if s.Head() == 0 then |s.order| else s.Head()), None)
    ensures FirstEligible(s, 0).Some? ==>
              var c := s.Place(FirstEligible(s, 0).value);
              c < |s.order| && s.Eligible(s.order[c]) && Next(s) == (Promote(s, c).0, Some(Promote(s, c).1))
  {}

  /** Where the cursor stands does not matter to what is queued. */
  lemma CursorAside(s: Sched, s': Sched)
    requires s' == s.(cursor := s'.cursor) && HeadsRecorded(s)
    ensures HeadsRecorded(s') && forall w :: s'.QueueOf(w) == s.QueueOf(w)
  {
    forall w ensures s'.QueueOf(w) == s.QueueOf(w) {}
    forall w | s'.QueueOf(w) != [] ensures s'.QueueOf(w)[0].Identity() in s'.records { assert s.QueueOf(w) != []; }
  }

  /** Nor to what a promotion at a place does. */
  lemma PromotionAside(s: Sched, s': Sched, c: nat)
    requires s' == s.(cursor := s'.cursor) && c < |s.order| && s.QueueOf(s.order[c]) != []
    ensures s'.QueueOf(s.order[c]) == s.QueueOf(s.order[c]) && Promote(s', c) == Promote(s, c)
  {
    assert s'.QueueOf(s.order[c]) == s.QueueOf(s.order[c]) && s'.ActiveOf(s.order[c]) == s.ActiveOf(s.order[c]);
  }

  /** Both names are identities, and no demand is negative or above its axis's bound. */
  predicate Fit(limits: Limits, v: Request) {
    && ValidIdentity(v.workspace) && ValidIdentity(v.run)
    && forall i | 0 <= i < AXES :: 0 <= v.demands[i] <= limits.axes[i]
  }

  /** There was a slot, the run took it, and nothing but its record and the counts changed. */
  predicate Starts(s: Sched, s': Sched, v: Request) {
    && s.global < s.limits.globalActive && s.ActiveOf(v.workspace) < s.limits.workspaceActive
    && s'.records == s.records[v.Identity() := Entry(v, Active)] && s'.ActiveOf(v.workspace) == s.ActiveOf(v.workspace) + 1
    && s'.queued == s.queued && s'.order == s.order && s'.cursor == s.cursor
  }

  /** There was no slot but room to wait, and the run waits last of its workspace. */
  predicate Waits(s: Sched, s': Sched, v: Request) {
    && (s.global >= s.limits.globalActive || s.ActiveOf(v.workspace) >= s.limits.workspaceActive)
    && s'.records == s.records[v.Identity() := Entry(v, Queued)] && s'.QueueOf(v.workspace) == s.QueueOf(v.workspace) + [v]
    && s'.active == s.active && s'.global == s.global && s'.cursor == s.cursor
    && s'.order == if v.workspace in s.order then s.order else s.order + [v.workspace]
  }

  lemma DecisionMeans(s: Sched, v: Request)
    requires RingListsQueues(s)
    ensures var (s', decision) := Admission.Admit(s, v);
            && (decision == LimitExceeded <==> !Fit(s.limits, v))
            && (decision == Duplicate <==> Fit(s.limits, v) && v.Identity() in s.records && s.records[v.Identity()].request == v)
            && (decision == IdempotencyConflict <==> Fit(s.limits, v) && v.Identity() in s.records && s.records[v.Identity()].request != v)
            && (decision == Admitted ==> Starts(s, s', v))
            && (decision == Waiting ==> Waits(s, s', v))
            && (decision == Overloaded ==> s.queuedTotal >= s.limits.globalQueued || |s.QueueOf(v.workspace)| >= s.limits.workspaceQueued)
            && (decision != Admitted && decision != Waiting ==> s' == s)
  {
    hide ValidIdentity;
  }

  class Manager {
    const limits: Limits
    var active: map<string, int>
    var queued: map<string, seq<Request>>
    var order: seq<string>
    var cursor: nat
    var global: int
    var queuedTotal: int
    var durable: nat
    var records: map<Key, Entry>

    ghost function State(): Sched
      reads this
    {
      Sched(limits, active, queued, order, cursor, global, queuedTotal, durable, records)
    }

    ghost predicate Valid()
      reads this
    {
      Inv(State())
    }

    constructor (limits: Limits)
      requires limits.Valid()
      ensures Valid() && State() == Empty(limits)
    {
      this.limits := limits;
      active, queued, order, cursor, global, queuedTotal, durable, records := map[], map[], [], 0, 0, 0, 0, map[];
      new;
      Runs.EmptySatisfiesInv(limits);
    }

    method Admit(v: Request) returns (decision: Decision)
      requires Valid()
      modifies this
      ensures Valid()
      ensures (State(), decision) == Admission.Admit(old(State()), v)
      // Refused for what it is: an identity of the wrong form, or a demand outside its axis.
      ensures decision == LimitExceeded <==> !Fit(limits, v)
      // Refused for what is on record already, which stays as it was.
      ensures decision == Duplicate <==> Fit(limits, v) && v.Identity() in old(records) && old(records)[v.Identity()].request == v
      ensures decision == IdempotencyConflict <==>
                Fit(limits, v) && v.Identity() in old(records) && old(records)[v.Identity()].request != v
      // A new run takes a free slot, waits, or is turned away from a full queue.
      ensures decision == Admitted ==> Starts(old(State()), State(), v)
      ensures decision == Waiting ==> Waits(old(State()), State(), v)
      ensures decision == Overloaded ==>
                old(queuedTotal) >= limits.globalQueued || |old(State()).QueueOf(v.workspace)| >= limits.workspaceQueued
      ensures decision != Admitted && decision != Waiting ==> State() == old(State())
      // A run starts directly only when nothing of its own workspace waits.
      ensures decision == Admitted ==> old(State()).QueueOf(v.workspace) == []
    {
      hide Fit, Starts, Waits, Admission.Admit;
      ghost var before := State();
      decision := Decide(v);
      DecisionMeans(before, v);
      Runs.AdmitKeepsInv(before, v);
      if decision == Admitted { Runs.DirectAdmissionOvertakesNobody(before, v); }
    }

    /** The identity check of the source: one pass over the characters. */
    method IsIdentity(value: string) returns (ok: bool)
      ensures ok <==> && 1 <= |value| <= 128
                      && forall i | 0 <= i < |value| ::
                           || 'a' <= value[i] <= 'z' || 'A' <= value[i] <= 'Z' || '0' <= value[i] <= '9'
                           || (i >= 1 && (value[i] == '.' || value[i] == '-' || value[i] == '_' || value[i] == ':'))
      ensures ok == ValidIdentity(value)
    {
      if |value| < 1 || |value| > 128 {
        return false;
      }
      for i := 0 to |value|
        invariant forall j | 0 <= j < i :: IdentityChar(value[j]) || (j > 0 && value[j] in {'.', '_', ':', '-'})
      {
        var c := value[i];
        if !(('A' <= c <= 'Z') || ('a' <= c <= 'z') || ('0' <= c <= '9') || (i > 0 && (c == '.' || c == '_' || c == ':' || c == '-'))) {
          return false;
        }
      }
      return true;
    }

    method Decide(v: Request) returns (decision: Decision)
      modifies this
      ensures (State(), decision) == Admission.Admit(old(State()), v)
    {
      var workspaceNamed := IsIdentity(v.workspace);
      var runNamed := IsIdentity(v.run);
      if !workspaceNamed || !runNamed || Exceeds(limits, v) {
        return LimitExceeded;
      }
      var k := v.Identity();
      if k in records {
        if records[k].request != v {
          return IdempotencyConflict;
        }
        return Duplicate;
      }
      var running := if v.workspace in active then active[v.workspace] else 0;
      if global < limits.globalActive && running < limits.workspaceActive {
        global := global + 1;
        active := active[v.workspace := running + 1];
        durable := durable + 1;
        records := records[k := Entry(v, Active)];
        return Admitted;
      }
      var waiting := if v.workspace in queued then queued[v.workspace] else [];
      if queuedTotal >= limits.globalQueued || |waiting| >= limits.workspaceQueued {
        return Overloaded;
      }
      if |waiting| == 0 {
        order := order + [v.workspace];
      }
      queued := queued[v.workspace := waiting + [v]];
      queuedTotal := queuedTotal + 1;
      durable := durable + 1;
      records := records[k := Entry(v, Queued)];
      return Waiting;
    }

    method Complete(workspace: string, run: string) returns (promoted: Option<Request>)
      requires Valid()
      modifies this
      ensures Valid()
      ensures (State(), promoted) == Finish(old(State()), Key(workspace, run))
    {
      ghost var before := State();
      var k := Key(workspace, run);
      if k !in records || records[k].phase != Active {
        return None;
      }
      ReleasedHeadsRecorded(before, k);
      GiveBack(k);
      promoted := PromoteNext();
      Runs.FinishKeepsInv(before, k);
    }

    method GiveBack(k: Key)
      requires k in records
      modifies this
      ensures State() == Release(old(State()), k)
    {
      records := records[k := records[k].(phase := Phase.Complete)];
      var running := if k.workspace in active then active[k.workspace] else 0;
      if running > 0 {
        active := active[k.workspace := running - 1];
        global := global - 1;
      }
    }

    /** Scans the ring once from the cursor, leaving the cursor at the first eligible workspace. */
    method Scan() returns (found: bool)
      requires cursor <= |order| && order != []
      modifies this`cursor
      ensures cursor <= |order|
      ensures found ==> FirstEligible(old(State()), 0).Some? && cursor == old(State()).Place(FirstEligible(old(State()), 0).value)
      ensures !found ==> FirstEligible(old(State()), 0).None? && cursor == if old(State()).Head() == 0 then |order| else old(State()).Head()
    {
      hide FirstEligible, Sched.Place;
      ghost var before := State();
      ScanEnds(before);
      var scanned := 0;
      while scanned < |order|
        invariant State() == before.(cursor := cursor) && scanned <= |order|
        invariant cursor == if scanned == 0 then before.cursor else before.Place(scanned - 1) + 1
        invariant Looked(before, scanned)
      {
        NextPlace(before, cursor, scanned);
        cursor := cursor % |order|;
        var workspace := order[cursor];
        var running := if workspace in active then active[workspace] else 0;
        if running < limits.workspaceActive && workspace in queued && |queued[workspace]| != 0 {
          FirstIs(before, scanned);
          return true;
        }
        cursor := cursor + 1;
        scanned := scanned + 1;
      }
      FirstIs(before, |before.order|);
      return false;
    }

    /** Promotes the first eligible workspace of the ring, if there is room for one more run. */
    method PromoteNext() returns (promoted: Option<Request>)
      requires cursor <= |order| && HeadsRecorded(State())
      modifies this
      ensures (State(), promoted) == Next(old(State()))
    {
      if global >= limits.globalActive || |order| == 0 {
        return None;
      }
      ghost var before := State();
      NextScans(before);
      var found := Scan();
      if !found {
        return None;
      }
      CursorAside(before, State());
      PromotionAside(before, State(), cursor);
      hide FirstEligible, Promote, HeadsRecorded, Next;
      var value := Take(order[cursor]);
      return Some(value);
    }

    /** Moves the head of the queue at the cursor from waiting to running. */
    method Take(workspace: string) returns (value: Request)
      requires cursor < |order| && workspace == order[cursor] && State().QueueOf(workspace) != []
      requires State().QueueOf(workspace)[0].Identity() in records
      modifies this
      ensures (State(), value) == Promote(old(State()), old(cursor))
    {
      value := queued[workspace][0];
      queued := queued[workspace := queued[workspace][1..]];
      queuedTotal := queuedTotal - 1;
      if |queued[workspace]| == 0 {
        order := order[..cursor] + order[cursor + 1..];
        if |order| == 0 {
          cursor := 0;
        }
      } else {
        cursor := cursor + 1;
      }
      active := active[workspace := (if workspace in active then active[workspace] else 0) + 1];
      global := global + 1;
      records := records[value.Identity() := records[value.Identity()].(phase := Active)];
    }
  }
}
