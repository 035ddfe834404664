/**
 The metadata store, and the service over it when nothing else interferes. Each
 service method is proved to be a run of the custody protocol by one process.
 */
module ArtifactService {
  import opened Wrappers
  import opened Artifacts
  import opened ArtifactCustody
  import opened ArtifactRuns
  import opened ArtifactLifecycles

  // ---- Uninterrupted runs ----------------------------------------------------------------

  /** A configuration once its only process has finished or given up. */
  function Settled(c: Config): Config { c.(processes := map[]) }

  function Written(c: Config, begin: Step): Config { Settled(Apply(Apply(Apply(c, begin), Advance(0)), Advance(0))) }

  /** From wherever process 0 stands, four turns. */
  function FourTurns(c: Config): Config { Apply(Apply(Apply(Apply(c, Advance(0)), Advance(0)), Advance(0)), Advance(0)) }

  function ThreeTurns(c: Config): Config { Apply(Apply(Apply(c, Advance(0)), Advance(0)), Advance(0)) }

  function DestroyedBy(c: Config, decision: Decision, value: Record, reason: string, now: Time): Config {
    FourTurns(Begin(c, 0, Claiming(decision, value, reason, now)))
  }

  /** The first turn of a destruction takes the claim; three more finish it. */
  lemma ClaimTurn(c: Config, decision: Decision, value: Record, reason: string, now: Time)
    requires now != 0 && value.key in c.records && c.records[value.key] == value && value.state != Deleted && value.version > 0
    ensures var (rs, claimed) := Artifacts.ClaimDeletion(c.records, value.key, value.version, Claim(decision, TerminalFor(value), now));
            && (claimed.Ok? <==> value.claim == Some(decision) || (value.claim.None? && !value.hold))
            && (claimed.Ok? ==> claimed.value.key == value.key && claimed.value.claim == Some(decision) && rs == c.records[value.key := claimed.value])
            && (claimed.Ok? ==> DestroyedBy(c, decision, value, reason, now) == ThreeTurns(Begin(c.(records := rs), 0, Revoking(claimed.value, reason, now))))
            && (claimed.Err? ==> rs == c.records)
  {
    var start := Begin(c, 0, Claiming(decision, value, reason, now));
    var (rs, claimed) := Artifacts.ClaimDeletion(c.records, value.key, value.version, Claim(decision, TerminalFor(value), now));
    if claimed.Ok? {
      assert start.processes[0 := Revoking(claimed.value, reason, now)] == c.processes[0 := Revoking(claimed.value, reason, now)];
      assert Apply(start, Advance(0)) == Begin(c.(records := rs), 0, Revoking(claimed.value, reason, now));
      assert c.records[value.key := value] == c.records;
    }
  }

  lemma SettlingKeepsInv(c: Config)
    requires Inv(c) && GrantsInv(c)
    ensures Inv(Settled(c)) && GrantsInv(Settled(c)) && Moves(c, Settled(c))
  {
    MovesToItself(c);
  }

  lemma TurnKeepsInv(c: Config)
    requires Inv(c) && GrantsInv(c)
    ensures Inv(Apply(c, Advance(0))) && GrantsInv(Apply(c, Advance(0))) && Moves(c, Apply(c, Advance(0)))
  {
    StepKeepsInv(c, Advance(0));
    StepKeepsGrants(c, Advance(0));
  }

  lemma WritingKeepsInv(c: Config, begin: Step)
    requires Inv(c) && GrantsInv(c) && Lawful(c, begin)
    ensures Inv(Written(c, begin)) && GrantsInv(Written(c, begin)) && Moves(c, Written(c, begin))
  {
    hide Inv, GrantsInv, Moves, Apply, Lawful, Settled;
    var c1 := Apply(c, begin);
    var c2 := Apply(c1, Advance(0));
    var c3 := Apply(c2, Advance(0));
    StepKeepsInv(c, begin);
    StepKeepsGrants(c, begin);
    TurnKeepsInv(c1);
    TurnKeepsInv(c2);
    SettlingKeepsInv(c3);
    MovesTransitively(c, c1, c2);
    MovesTransitively(c, c2, c3);
    MovesTransitively(c, c3, Settled(c3));
  }

  lemma FourTurnsKeepInv(c: Config)
    requires Inv(c) && GrantsInv(c)
    ensures Inv(FourTurns(c)) && GrantsInv(FourTurns(c)) && Moves(c, FourTurns(c))
  {
    hide Inv, GrantsInv, Moves, Apply;
    var c1 := Apply(c, Advance(0));
    var c2 := Apply(c1, Advance(0));
    var c3 := Apply(c2, Advance(0));
    TurnKeepsInv(c);
    TurnKeepsInv(c1);
    TurnKeepsInv(c2);
    TurnKeepsInv(c3);
    MovesTransitively(c, c1, c2);
    MovesTransitively(c, c2, c3);
    MovesTransitively(c, c3, Apply(c3, Advance(0)));
  }

  lemma DestructionKeepsInv(c: Config, decision: Decision, value: Record, reason: string, now: Time)
    requires Inv(c) && GrantsInv(c) && value.key in c.records && c.records[value.key] == value && value.state != Deleted && c.processes == map[]
    ensures var d := DestroyedBy(c, decision, value, reason, now);
            && Inv(d) && GrantsInv(d) && Inv(Settled(d)) && GrantsInv(Settled(d)) && Moves(c, Settled(d))
            && (0 in d.processes && d.processes[0].Done? ==> Gone(Settled(d), d.processes[0].record.key))
  {
    var c0 := Begin(c, 0, Claiming(decision, value, reason, now));
    assert RecordInv(value, value.key, c.objects);
    QuietStep(c, c0, 0);
    assert GrantsInv(c0);
    FourTurnsKeepInv(c0);
    var d := FourTurns(c0);
    SettlingKeepsInv(d);
    MovesTransitively(c, c0, d);
    MovesTransitively(c, d, Settled(d));
    if 0 in d.processes && d.processes[0].Done? { DoneMeansDestroyed(d, 0); }
  }

  /** What destruction leaves: a tombstone, no content, and no grant that could still be admitted. */
  ghost predicate Gone(c: Config, k: Key) {
    && k in c.records && c.records[k].state == Deleted && c.records[k].content.reference !in c.objects
    && forall g | g in c.issued && g.key == k :: g.generation < c.records[k].generation
  }

  lemma TombstoneIsGone(c: Config, k: Key)
    requires Inv(c) && GrantsInv(c) && k in c.records && c.records[k].state == Deleted
    ensures Gone(c, k)
  {
    assert RecordInv(c.records[k], k, c.objects);
  }

  predicate Deletable(value: Record, expected: nat) {
    || value.state == Deleted || value.claim.Some?
    || (!value.hold && expected != 0 && value.version == expected)
  }

  predicate AtLeast(value: Record, target: Artifacts.State) {
    Rank(value.state).Some? && Rank(target).Some? && Rank(value.state).value >= Rank(target).value
  }

  // ---- The store -------------------------------------------------------------------------

  class MemoryStore {
    var records: Records

    constructor ()
      ensures records == map[]
    {
      records := map[];
    }

    method Create(record: Record) returns (winner: Record, created: bool)
      modifies this
      ensures created <==> record.key !in old(records)
      ensures created ==> winner == record && records == old(records)[record.key := record]
      ensures !created ==> winner == old(records)[record.key] && records == old(records)
    {
      if record.key in records {
        return records[record.key], false;
      }
      records := records[record.key := record];
      return record, true;
    }

    method Get(k: Key) returns (found: Option<Record>)
      ensures found == if k in records then Some(records[k]) else None
    {
      if k !in records {
        return None;
      }
      return Some(records[k]);
    }

    method Update(next: Record, expected: nat) returns (answer: Result<Record, Problem>)
      modifies this
      ensures (records, answer) == Artifacts.Update(old(records), next, expected)
      ensures answer == Err(NotFound) <==> next.key !in old(records)
      ensures answer == Err(VersionConflict) <==> next.key in old(records) && old(records)[next.key].version != expected
      ensures answer.Err? ==> answer.error in {NotFound, VersionConflict} && records == old(records)
      ensures answer.Ok? ==> answer.value == next && records == old(records)[next.key := next]
    {
      if next.key !in records {
        return Err(NotFound);
      }
      if records[next.key].version != expected {
        return Err(VersionConflict);
      }
      records := records[next.key := next];
      return Ok(next);
    }

    method ClaimDeletion(k: Key, expected: nat, claim: Claim) returns (answer: Result<Record, Problem>)
      modifies this
      ensures (records, answer) == Artifacts.ClaimDeletion(old(records), k, expected, claim)
      // The owning decision is answered with the record as it stands; any other claims exactly an unclaimed, unheld record at its version.
      ensures answer == Err(RequestInvalid) <==> claim.terminal !in {Quarantined, Expired} || claim.at == 0
      ensures answer.Ok? <==>
                claim.terminal in {Quarantined, Expired} && claim.at != 0 && k in old(records)
                && (old(records)[k].claim == Some(claim.decision)
                    || (old(records)[k].claim.None? && !old(records)[k].hold && expected != 0 && old(records)[k].version == expected))
      ensures answer.Ok? && old(records)[k].claim.Some? ==> answer.value == old(records)[k] && records == old(records)
      ensures answer.Ok? && old(records)[k].claim.None? ==>
                && records == old(records)[k := answer.value] && answer.value.content == old(records)[k].content && answer.value.key == old(records)[k].key
                && answer.value.state == claim.terminal && answer.value.claim == Some(claim.decision) && answer.value.claimedAt == Some(claim.at)
                && answer.value.version == expected + 1 && answer.value.generation == old(records)[k].generation + 1 && answer.value.updatedAt == claim.at
      ensures answer == Err(NotFound) ==> k !in old(records)
      ensures answer == Err(AccessDenied) ==> k in old(records) && old(records)[k].hold && old(records)[k].claim.None?
      ensures answer == Err(VersionConflict) ==>
                k in old(records) && (old(records)[k].claim.Some? || (!old(records)[k].hold && (expected == 0 || old(records)[k].version != expected)))
      ensures answer.Err? ==> answer.error in {RequestInvalid, NotFound, AccessDenied, VersionConflict} && records == old(records)
    {
      if !claim.Valid() {
        return Err(RequestInvalid);
      }
      if k !in records {
        return Err(NotFound);
      }
      var value := records[k];
      if value.claim == Some(claim.decision) {
        return Ok(value);
      }
      if value.claim.Some? {
        return Err(VersionConflict);
      }
      if value.hold {
        return Err(AccessDenied);
      }
      if expected == 0 || value.version != expected {
        return Err(VersionConflict);
      }
      value := value.(state := claim.terminal, version := value.version + 1, generation := value.generation + 1);
      value := value.(updatedAt := claim.at, claim := Some(claim.decision), claimedAt := Some(claim.at));
      records := records[k := value];
      return Ok(value);
    }
  }

  lemma CreationIsSoundIff(c: Config, record: Record)
    requires Inv(c) && GrantsInv(c) && FreshRecord(record)
    ensures var d := Apply(c, ArtifactCustody.Create(record));
            Inv(d) && GrantsInv(d) <==> record.key in c.records || OwnObject(c, record)
  {
    var d := Apply(c, ArtifactCustody.Create(record));
    if record.key !in c.records {
      if OwnObject(c, record) {
        StepKeepsInv(c, ArtifactCustody.Create(record));
        StepKeepsGrants(c, ArtifactCustody.Create(record));
      } else {
        var k :| k in c.records && k != record.key && c.records[k].content.reference == record.content.reference;
        assert d.records[k].content.reference == d.records[record.key].content.reference;
      }
    }
  }

  /** A transition leaves custody sound, except one that buries what was not claimed or still has its content. */
  predicate Unsound(c: Config, k: Key, next: Artifacts.State) {
    next == Deleted && k in c.records && (c.records[k].claim.None? || c.records[k].content.reference in c.objects)
  }

  lemma TransitionIsSoundIff(c: Config, k: Key, expected: nat, next: Artifacts.State, now: Time)
    requires Inv(c) && GrantsInv(c) && c.processes == map[]
    ensures var d := Written(c, BeginTransition(0, k, expected, next, now));
            && (Inv(d) && GrantsInv(d) <==> !(k in c.records && TransitionFrom(c.records[k], expected, next, now).Ok? && Unsound(c, k, next)))
            && (next != Deleted ==> Moves(c, d))
  {
    if k in c.records && next == Deleted && TransitionFrom(c.records[k], expected, next, now).Ok? {
      DirectTombstoneIsSoundIff(c, k, 0, now);
      BurialIsWritten(c, k, now);
    } else if next == Deleted {
      assert Written(c, BeginTransition(0, k, expected, next, now)) == c;
    } else {
      WritingKeepsInv(c, BeginTransition(0, k, expected, next, now));
    }
  }

  /** What a transition writes: the new record, after withdrawing the grants it ends. */
  lemma TransitionIsWritten(c: Config, k: Key, expected: nat, next: Artifacts.State, now: Time)
    requires c.processes == map[] && (k in c.records ==> c.records[k].key == k)
    ensures var n := if k in c.records then TransitionFrom(c.records[k], expected, next, now) else Err(NotFound);
            Written(c, BeginTransition(0, k, expected, next, now))
            == if n.Err? then c
               else (if Withdraws(c.records[k], next) then Revoke(c, k) else c).(records := c.records[k := n.value])
  {
    var begun := Apply(c, BeginTransition(0, k, expected, next, now));
    if begun != c {
      var r := c.records[k];
      var n := TransitionFrom(r, expected, next, now).value;
      var w := c.(records := c.records[k := n]);
      assert n.key == k && begun == Begin(c, 0, Writing(r, n, Withdraws(r, next)));
      hide TransitionFrom, Withdraws, Revoke;
      WritingTurns(c, r, n);
    }
  }

  /** A process that writes withdraws the grants first, if it must. */
  lemma WritingTurns(c: Config, r: Record, n: Record)
    requires c.processes == map[] && r.key in c.records && c.records[r.key] == r && n.key == r.key
    ensures Settled(Apply(Apply(Begin(c, 0, Writing(r, n, false)), Advance(0)), Advance(0))) == c.(records := c.records[r.key := n])
    ensures Settled(Apply(Apply(Begin(c, 0, Writing(r, n, true)), Advance(0)), Advance(0))) == Revoke(c, r.key).(records := c.records[r.key := n])
  {}

  lemma KeyedByItself(c: Config, k: Key)
    requires Inv(c) && k in c.records
    ensures c.records[k].key == k
  {
    RecordOf(c, k);
  }

  /** Signing a grant for what was read adds it to the issued ones, and keeps custody sound. */
  lemma GrantKeepsInv(c: Config, k: Key, purpose: Purpose, actor: string, now: Time, expiresAt: Time)
    requires Inv(c) && GrantsInv(c) && c.processes == map[] && k in c.records && Grantable(c.records[k], purpose, now)
    ensures var d := c.(issued := c.issued + {GrantFrom(c.records[k], purpose, actor, expiresAt)});
            Written(c, BeginGrant(0, k, purpose, actor, now, expiresAt)) == d && Inv(d) && GrantsInv(d)
  {
    hide Inv, GrantsInv, Written, Eligible;
    WritingKeepsInv(c, BeginGrant(0, k, purpose, actor, now, expiresAt));
    GrantIsWritten(c, k, purpose, actor, now, expiresAt);
  }

  /**
   The answer of a transition: the next state one version on, everything that is fixed as it was, and the
   generation risen exactly if access is withdrawn; or the first of the reasons against it.
   */
  predicate TransitionAnswered(rs: Records, answer: Result<Record, Problem>, k: Key, expected: nat, next: Artifacts.State, now: Time) {
    var current := k in rs && expected != 0 && rs[k].version == expected;
    && (answer == Err(NotFound) <==> k !in rs)
    && (answer == Err(VersionConflict) <==> k in rs && !current)
    && (answer == Err(InvalidTransition) <==> current && !MayFollow(rs[k].state, next))
    && (answer == Err(AccessDenied) <==> current && MayFollow(rs[k].state, next) && next == Expired && rs[k].hold)
    && (answer.Ok? <==> current && MayFollow(rs[k].state, next) && !(next == Expired && rs[k].hold))
    && (answer.Ok? ==>
          var was, value := rs[k], answer.value;
          && value.state == next && value.version == expected + 1 && value.updatedAt == now
          && value.generation == was.generation + (if next == Expired || (next == Quarantined && was.state != Quarantined) then 1 else 0)
          && value.key == was.key && value.content == was.content && value.hold == was.hold && value.claim == was.claim
          && value.claimedAt == was.claimedAt && value.deletedAt == was.deletedAt && value.deletionReason == was.deletionReason)
  }

  lemma TransitionIsAnswered(rs: Records, k: Key, expected: nat, next: Artifacts.State, now: Time)
    ensures TransitionAnswered(rs, if k !in rs then Err(NotFound) else TransitionFrom(rs[k], expected, next, now), k, expected, next, now)
  {
    if k in rs { LifecycleSteps(rs[k].state, next); }
    hide Allowed, MayFollow;
  }

  lemma BurialIsWritten(c: Config, k: Key, now: Time)
    requires Inv(c) && GrantsInv(c) && c.processes == map[] && k in c.records && c.records[k].state in {Quarantined, Expired}
    ensures Written(c, BeginTransition(0, k, c.records[k].version, Deleted, now)) == TombstonedDirectly(c, k, 0, now)
    ensures GrantsInv(TombstonedDirectly(c, k, 0, now))
  {
    assert RecordInv(c.records[k], k, c.objects);
    DirectTombstone(c, k, 0, now);
    var d := TombstonedDirectly(c, k, 0, now);
    assert Apply(d, Advance(0)) == d && Settled(d) == d;
    forall g | g in d.issued ensures GrantInv(d.records, g) { assert GrantInv(c.records, g); }
  }

  lemma GrantIsWritten(c: Config, k: Key, purpose: Purpose, actor: string, now: Time, expiresAt: Time)
    requires k in c.records && Grantable(c.records[k], purpose, now) && c.processes == map[]
    ensures Written(c, BeginGrant(0, k, purpose, actor, now, expiresAt))
            == c.(issued := c.issued + {GrantFrom(c.records[k], purpose, actor, expiresAt)})
  {}

  /** One call of another caller. */
  datatype Act =
    | Moving(key: Key, expected: nat, next: Artifacts.State, now: Time)
    | Holding(key: Key, expected: nat, hold: bool, now: Time)
    | Deleting(key: Key, expected: nat, reason: string, recorded: string, now: Time)

  /** Nobody asks a transition for the tombstone. */
  predicate ForwardOnly(acts: seq<Act>) { forall i | 0 <= i < |acts| && acts[i].Moving? :: acts[i].next != Deleted }

  predicate AllForwardOnly(others: seq<seq<Act>>) { forall i | 0 <= i < |others| :: ForwardOnly(others[i]) }

  // ---- The service -----------------------------------------------------------------------

  class Service {
    const store: MemoryStore
    var objects: set<Reference>
    var issued: set<Grant>
    var revoked: set<Grant>

    ghost function State(): Config
      reads this, store
    {
      Config(store.records, objects, issued, revoked, map[])
    }

    ghost predicate Valid()
      reads this, store
    {
      Inv(State()) && GrantsInv(State())
    }

    constructor ()
      ensures Valid() && fresh(store) && State() == Config(map[], {}, {}, {}, map[])
    {
      store := new MemoryStore();
      objects, issued, revoked := {}, {}, {};
    }

    /** Withdraws every outstanding grant on one artifact. */
    method Revoke(k: Key)
      modifies this`revoked
      ensures State() == ArtifactCustody.Revoke(old(State()), k)
    {
      revoked := revoked + (set g | g in issued && g.key == k);
    }

    method Create(record: Record) returns (answer: Result<Record, Problem>)
      requires Valid() && FreshRecord(record)
      modifies this`objects, store
      ensures State() == Apply(old(State()), ArtifactCustody.Create(record))
      // Nothing here stops a new record from naming another one's object; that is the only way it goes wrong.
      ensures Valid() <==> record.key in old(store.records) || OwnObject(old(State()), record)
      // Recording is once for ever: a replay gets what was recorded first, and a different content is refused.
      ensures answer.Ok? ==> record.key in store.records && store.records[record.key] == answer.value
      ensures answer.Ok? ==> answer.value.content.reference == record.content.reference && answer.value.content.digest == record.content.digest
      ensures answer.Ok? <==> (record.key in old(store.records) ==>
                                 var prior := old(store.records)[record.key].content;
                                 prior.digest == record.content.digest && prior.actualDigest == record.content.actualDigest
                                 && prior.reference == record.content.reference)
      ensures answer.Err? ==> answer.error == IdempotencyConflict && State() == old(State())
      ensures record.key in old(store.records) ==> State() == old(State())
    {
      CreationIsSoundIff(State(), record);
      hide Inv, GrantsInv;
      var prior := store.Get(record.key);
      if prior.Some? {
        var was := prior.value.content;
        if was.digest != record.content.digest || was.actualDigest != record.content.actualDigest || was.reference != record.content.reference {
          return Err(IdempotencyConflict);
        }
        return Ok(prior.value);
      }
      objects := objects + {record.content.reference};
      var winner, _ := store.Create(record);
      return Ok(winner);
    }

    method Transition(k: Key, expected: nat, next: Artifacts.State, now: Time) returns (answer: Result<Record, Problem>)
      requires Valid()
      modifies this`revoked, store
      ensures Valid() <==> !(answer.Ok? && Unsound(old(State()), k, next))
      ensures next != Deleted ==> Moves(old(State()), State())
      ensures State() == Written(old(State()), BeginTransition(0, k, expected, next, now))
      ensures answer == if k !in old(store.records) then Err(NotFound) else TransitionFrom(old(store.records)[k], expected, next, now)
      ensures TransitionAnswered(old(store.records), answer, k, expected, next, now)
      ensures answer.Ok? ==> store.records == old(store.records)[k := answer.value]
      ensures answer.Err? ==> State() == old(State())
    {
      ghost var before := State();
      TransitionIsSoundIff(before, k, expected, next, now);
      assert k in store.records ==> store.records[k].key == k by { assert k in store.records ==> RecordInv(store.records[k], k, objects); }
      hide Inv, GrantsInv, Written, TransitionFrom, Moves, TransitionAnswered;
      answer := DecideTransition(k, expected, next, now);
    }

    method DecideTransition(k: Key, expected: nat, next: Artifacts.State, now: Time) returns (answer: Result<Record, Problem>)
      requires k in store.records ==> store.records[k].key == k
      modifies this`revoked, store
      ensures State() == Written(old(State()), BeginTransition(0, k, expected, next, now))
      ensures answer == if k !in old(store.records) then Err(NotFound) else TransitionFrom(old(store.records)[k], expected, next, now)
      ensures TransitionAnswered(old(store.records), answer, k, expected, next, now)
      ensures answer.Ok? ==> store.records == old(store.records)[k := answer.value]
      ensures answer.Err? ==> State() == old(State())
    {
      TransitionIsWritten(State(), k, expected, next, now);
      TransitionIsAnswered(store.records, k, expected, next, now);
      hide Written, Apply, ArtifactCustody.Revoke, TransitionAnswered;
      var found := store.Get(k);
      if found.None? {
        return Err(NotFound);
      }
      var value := found.value;
      if expected == 0 || value.version != expected {
        return Err(VersionConflict);
      }
      if !Allowed(value.state, next) {
        return Err(InvalidTransition);
      }
      if next == Expired && value.hold {
        return Err(AccessDenied);
      }
      if (next == Quarantined && value.state != Quarantined) || next == Expired {
        value := value.(generation := value.generation + 1);
        Revoke(k);
      }
      value := value.(state := next, version := value.version + 1, updatedAt := now);
      answer := store.Update(value, expected);
    }

    method SetLegalHold(k: Key, expected: nat, hold: bool, now: Time) returns (answer: Result<Record, Problem>)
      requires Valid()
      modifies store
      ensures Valid() && Moves(old(State()), State()) && State() == Written(old(State()), BeginHold(0, k, expected, hold, now))
      ensures answer.Ok? ==> k in store.records && store.records[k] == answer.value && answer.value.hold == hold && answer.value.claim.None?
      ensures answer.Ok? ==> answer.value.version == expected + 1
      ensures answer.Err? ==> State() == old(State())
      ensures k in old(store.records) && old(store.records)[k].claim.Some? ==> answer.Err?
      ensures answer == Err(RequestInvalid) <==> now == 0 || expected == 0
      ensures answer == Err(NotFound) <==> now != 0 && expected != 0 && k !in old(store.records)
      ensures answer == Err(AccessDenied) <==> now != 0 && expected != 0 && k in old(store.records) && old(store.records)[k].claim.Some?
      ensures answer.Ok? <==>
                now != 0 && expected != 0 && k in old(store.records) && old(store.records)[k].claim.None?
                && (old(store.records)[k].version == expected || (old(store.records)[k].version == expected + 1 && old(store.records)[k].hold == hold))
      ensures answer.Ok? && old(store.records)[k].version == expected ==>
                answer.value == old(store.records)[k].(hold := hold, version := expected + 1, updatedAt := now)
      ensures answer.Err? ==> answer.error in {RequestInvalid, NotFound, AccessDenied, VersionConflict}
    {
      WritingKeepsInv(State(), BeginHold(0, k, expected, hold, now));
      assert k in store.records ==> store.records[k].key == k by { if k in store.records { RecordOf(State(), k); } }
      hide Inv, GrantsInv, Written, Moves;
      answer := DecideHold(k, expected, hold, now);
    }

    method DecideHold(k: Key, expected: nat, hold: bool, now: Time) returns (answer: Result<Record, Problem>)
      requires k in store.records ==> store.records[k].key == k
      modifies store
      ensures State() == Written(old(State()), BeginHold(0, k, expected, hold, now))
      ensures answer.Ok? ==> k in store.records && store.records[k] == answer.value && answer.value.hold == hold && answer.value.claim.None?
      ensures answer.Ok? ==> answer.value.version == expected + 1
      ensures answer.Err? ==> State() == old(State())
      ensures k in old(store.records) && old(store.records)[k].claim.Some? ==> answer.Err?
      ensures answer == Err(RequestInvalid) <==> now == 0 || expected == 0
      ensures answer == Err(NotFound) <==> now != 0 && expected != 0 && k !in old(store.records)
      ensures answer == Err(AccessDenied) <==> now != 0 && expected != 0 && k in old(store.records) && old(store.records)[k].claim.Some?
      ensures answer.Ok? <==>
                now != 0 && expected != 0 && k in old(store.records) && old(store.records)[k].claim.None?
                && (old(store.records)[k].version == expected || (old(store.records)[k].version == expected + 1 && old(store.records)[k].hold == hold))
      ensures answer.Ok? && old(store.records)[k].version == expected ==>
                answer.value == old(store.records)[k].(hold := hold, version := expected + 1, updatedAt := now)
      ensures answer.Err? ==> answer.error in {RequestInvalid, NotFound, AccessDenied, VersionConflict}
    {
      if now == 0 || expected == 0 {
        return Err(RequestInvalid);
      }
      var found := store.Get(k);
      if found.None? {
        return Err(NotFound);
      }
      var value := found.value;
      if value.claim.Some? {
        return Err(AccessDenied);
      }
      if value.version != expected {
        if value.version != expected + 1 || value.hold != hold {
          return Err(VersionConflict);
        }
        return Ok(value);
      }
      answer := store.Update(value.(hold := hold, version := value.version + 1, updatedAt := now), expected);
    }

    /** What follows the claim: revoke the grants, remove the content, land the tombstone. */
    method Finish(claimed: Record, reason: string, now: Time) returns (tombstone: Record)
      requires claimed.key in store.records && store.records[claimed.key] == claimed
      modifies this`objects, this`revoked, store
      ensures Begin(State(), 0, Done(tombstone)) == ThreeTurns(Begin(old(State()), 0, Revoking(claimed, reason, now)))
      ensures tombstone == Tombstone(claimed, reason, now)
    {
      Revoke(claimed.key);
      objects := objects - {claimed.content.reference};
      var next := claimed.(state := Deleted, version := claimed.version + 1, generation := claimed.generation + 1);
      next := next.(updatedAt := now, deletedAt := Some(now), deletionReason := reason);
      var answer := store.Update(next, claimed.version);
      tombstone := answer.value;
    }

    /** Takes ownership of the destruction first; only then is anything revoked or removed. */
    method Destroy(decision: Decision, value: Record, reason: string, now: Time) returns (answer: Result<Record, Problem>)
      requires now != 0 && value.key in store.records && store.records[value.key] == value && value.state != Deleted && value.version > 0
      modifies this`objects, this`revoked, store
      ensures answer.Ok? <==> value.claim == Some(decision) || (value.claim.None? && !value.hold)
      ensures answer.Ok? ==> answer.value.key == value.key && answer.value.claim == Some(decision) && answer.value.deletionReason == reason
      ensures answer.Ok? ==> Begin(State(), 0, Done(answer.value)) == DestroyedBy(old(State()), decision, value, reason, now)
      ensures answer.Err? ==> State() == old(State())
    {
      var terminal := Expired;
      if value.state == Quarantined {
        terminal := Quarantined;
      }
      ghost var before := State();
      ClaimTurn(before, decision, value, reason, now);
      var claimed := store.ClaimDeletion(value.key, value.version, Claim(decision, terminal, now));
      if claimed.Err? {
        return claimed;
      }
      hide ThreeTurns, DestroyedBy;
      var tombstone := Finish(claimed.value, reason, now);
      return Ok(tombstone);
    }

    /** Destroys, to the end, under a decision nothing stands against. */
    method Complete(decision: Decision, value: Record, reason: string, now: Time) returns (tombstone: Record)
      requires Valid() && now != 0 && value.key in store.records && store.records[value.key] == value
      requires value.state != Deleted && value.version > 0 && (value.claim == Some(decision) || (value.claim.None? && !value.hold))
      modifies this`objects, this`revoked, store
      ensures Valid() && Moves(old(State()), State())
      ensures value.key in store.records && store.records[value.key] == tombstone && Gone(State(), value.key)
      ensures tombstone.claim == Some(decision) && tombstone.deletionReason == reason
    {
      ghost var before := State();
      DestructionKeepsInv(before, decision, value, reason, now);
      var answer := Destroy(decision, value, reason, now);
      tombstone := answer.value;
      assert Settled(Begin(State(), 0, Done(tombstone))) == State();
    }

    /**
     Destroys an artifact, or finishes a destruction already owned. `recorded` is the reason the
     audit holds for the owning decision, which a successor adopts unchanged.
     */
    method Delete(k: Key, expected: nat, reason: string, recorded: string, now: Time) returns (answer: Result<Record, Problem>)
      requires Valid()
      modifies this`objects, this`revoked, store
      ensures Valid() && Moves(old(State()), State())
      // It succeeds exactly when the artifact is destroyed already, owned already, or unheld at the expected version.
      ensures answer.Ok? <==> now != 0 && k in old(store.records) && Deletable(old(store.records)[k], expected)
      ensures answer.Ok? ==> k in store.records && store.records[k] == answer.value && Gone(State(), k)
      ensures answer.Ok? && old(store.records)[k].claim.Some? ==> answer.value.claim == old(store.records)[k].claim
      ensures answer.Ok? && old(store.records)[k].claim.None? ==>
        answer.value.claim == Some(Decision(Deletion, k, expected)) && answer.value.deletionReason == reason
      ensures answer.Ok? && old(store.records)[k].state == Deleted ==> State() == old(State())
      ensures answer.Err? ==> State() == old(State())
      // Why it is refused.
      ensures answer == Err(RequestInvalid) <==> now == 0
      ensures answer == Err(NotFound) <==> now != 0 && k !in old(store.records)
      ensures answer == Err(AccessDenied) <==>
                now != 0 && k in old(store.records) && old(store.records)[k].state != Deleted && old(store.records)[k].claim.None? && old(store.records)[k].hold
      ensures answer.Err? ==> answer.error in {RequestInvalid, NotFound, AccessDenied, VersionConflict}
    {
      MovesToItself(State());
      if now == 0 {
        return Err(RequestInvalid);
      }
      var found := store.Get(k);
      if found.None? {
        return Err(NotFound);
      }
      var value := found.value;
      assert RecordInv(value, k, objects);
      if value.state == Deleted && value.claim != Some(Decision(Deletion, k, expected)) {
        TombstoneIsGone(State(), k);
        return Ok(value);
      }
      if value.claim.Some? {
        var finished := Converge(value, recorded, now);
        return Ok(finished);
      }
      if value.hold {
        return Err(AccessDenied);
      }
      if expected == 0 || value.version != expected {
        return Err(VersionConflict);
      }
      var tombstone := Complete(Decision(Deletion, k, expected), value, reason, now);
      return Ok(tombstone);
    }

    /** Finishes a destruction some earlier process claimed, under the decision that owns it. */
    method Converge(value: Record, recorded: string, now: Time) returns (finished: Record)
      requires Valid() && now != 0 && value.key in store.records && store.records[value.key] == value && value.claim.Some?
      modifies this`objects, this`revoked, store
      ensures Valid() && Moves(old(State()), State())
      ensures value.key in store.records && store.records[value.key] == finished && Gone(State(), value.key)
      ensures finished.claim == value.claim
      ensures value.state == Deleted ==> State() == old(State())
    {
      MovesToItself(State());
      assert RecordInv(value, value.key, objects);
      if value.state == Deleted {
        TombstoneIsGone(State(), value.key);
        return value;
      }
      finished := Complete(value.claim.value, value, recorded, now);
    }

    /** What other callers do, one call at a time. */
    method Perform(acts: seq<Act>)
      requires Valid() && ForwardOnly(acts)
      modifies this`objects, this`revoked, store
      ensures Valid() && Moves(old(State()), State())
    {
      hide Inv, GrantsInv, Moves;
      ghost var before := State();
      MovesToItself(before);
      for i := 0 to |acts|
        invariant Valid() && Moves(before, State())
      {
        ghost var middle := State();
        match acts[i] {
          case Moving(k, expected, next, now) => var _ := Transition(k, expected, next, now);
          case Holding(k, expected, hold, now) => var _ := SetLegalHold(k, expected, hold, now);
          case Deleting(k, expected, reason, recorded, now) => var _ := Delete(k, expected, reason, recorded, now);
        }
        MovesTransitively(before, middle, State());
      }
    }

    /** Signs a read grant for what the record says now. */
    method Grant(k: Key, purpose: Purpose, actor: string, permitted: bool, now: Time, ttl: nat) returns (answer: Result<Artifacts.Grant, Problem>)
      requires Valid()
      modifies this`issued
      ensures Valid()
      ensures answer.Ok? <==> actor != "" && now != 0 && permitted && k in store.records && Grantable(store.records[k], purpose, now)
      ensures answer.Ok? ==> answer.value == GrantFrom(store.records[k], purpose, actor, now + ttl)
      // Which states may be seen for which purpose, and what the grant says.
      ensures answer.Ok? <==>
                actor != "" && now != 0 && permitted && k in store.records && purpose in PurposesIn(store.records[k].state) && now >= store.records[k].content.createdAt
      ensures answer.Ok? ==>
                && answer.value.key == k && answer.value.digest == store.records[k].content.digest && answer.value.generation == store.records[k].generation
                && answer.value.purpose == purpose && answer.value.actor == actor && answer.value.expiresAt == now + ttl
      ensures answer == Err(NotFound) <==> actor != "" && now != 0 && permitted && k !in store.records
      ensures answer.Err? ==> answer.error in {NotFound, AccessDenied}
      ensures State() == if answer.Ok? then Written(old(State()), BeginGrant(0, k, purpose, actor, now, now + ttl)) else old(State())
    {
      hide Inv, GrantsInv, Moves, Written, Eligible, PurposesIn, Apply, RecordInv;
      if k in store.records {
        EligibleIsPurposesIn(store.records[k].state, purpose);
        KeyedByItself(State(), k);
      }
      if actor == "" || now == 0 || !permitted {
        return Err(AccessDenied);
      }
      var found := store.Get(k);
      if found.None? {
        return Err(NotFound);
      }
      if !Eligible(found.value.state, purpose) || now < found.value.content.createdAt {
        return Err(AccessDenied);
      }
      GrantKeepsInv(State(), k, purpose, actor, now, now + ttl);
      var grant := Artifacts.Grant(found.value.key, found.value.content.digest, found.value.generation, purpose, actor, now + ttl);
      issued := issued + {grant};
      return Ok(grant);
    }

    /** Admits one access, or refuses it. */
    method UseGrant(grant: Artifacts.Grant, actor: string, permitted: bool, verified: bool, now: Time) returns (answer: Result<Record, Problem>)
      ensures answer.Ok? <==> Admits(store.records, grant, actor, permitted, verified, now)
      ensures answer.Ok? ==> answer.value == store.records[grant.key]
      // Every axis agrees, and the state is one the purpose may see.
      ensures answer.Ok? <==>
                && actor != "" && actor == grant.actor && now != 0 && now < grant.expiresAt && permitted && verified && grant.key in store.records
                && now >= store.records[grant.key].content.createdAt && grant.digest == store.records[grant.key].content.digest
                && grant.generation == store.records[grant.key].generation && grant.purpose in PurposesIn(store.records[grant.key].state)
      ensures answer == Err(NotFound) <==>
                actor != "" && actor == grant.actor && now != 0 && now < grant.expiresAt && permitted && grant.key !in store.records
      ensures answer.Err? ==> answer.error in {NotFound, AccessDenied}
    {
      if grant.key in store.records { EligibleIsPurposesIn(store.records[grant.key].state, grant.purpose); }
      hide Eligible, PurposesIn;
      if actor == "" || actor != grant.actor || now == 0 || now >= grant.expiresAt || !permitted {
        return Err(AccessDenied);
      }
      var found := store.Get(grant.key);
      if found.None? {
        return Err(NotFound);
      }
      var value := found.value;
      if now < value.content.createdAt || value.content.digest != grant.digest || value.generation != grant.generation || !Eligible(value.state, grant.purpose) {
        return Err(AccessDenied);
      }
      if !verified {
        return Err(AccessDenied);
      }
      return Ok(value);
    }
  }

  // ---- The executor's port ---------------------------------------------------------------

  const FORWARD: seq<Artifacts.State> := [Pending, Scanning, Valid, Finalized, Committed]

  predicate CrossesFinalization(current: Artifacts.State, target: Artifacts.State) {
    Rank(current).Some? && Rank(target).Some? && Rank(current).value < 3 && Rank(target).value >= 3
  }

  /** The final states, by name. */
  lemma FinalStates(target: Artifacts.State)
    requires target in {Finalized, Committed}
    ensures Rank(target).Some? && forall state :: Rank(state).Some? <==> state in {Pending, Scanning, Valid, Finalized, Committed}
    ensures forall state :: CrossesFinalization(state, target) <==> state in {Pending, Scanning, Valid}
    ensures forall r :: AtLeast(r, target) <==> r.state == Committed || (target == Finalized && r.state == Finalized)
  {}

  lemma EvolvesToItself(r: Record)
    ensures Evolves(r, r)
  {}

  /** What has left the forward lifecycle never comes back to it. */
  lemma LiveIsKept(a: Record, b: Record)
    requires Evolves(a, b)
    ensures Rank(a.state).None? ==> !b.state.Live()
  {}

  /** The next forward state is reached exactly when the record still is what was read. */
  lemma ForwardTurn(read: Record, held: Record, objects: set<Reference>, now: Time)
    requires Rank(read.state).Some? && Rank(read.state).value < 4 && Evolves(read, held) && RecordInv(held, read.key, objects)
    ensures var n := TransitionFrom(held, read.version, FORWARD[Rank(read.state).value + 1], now);
            && (n.Ok? <==> read == held) && (n.Err? ==> n.error == VersionConflict) && held.key == read.key
            && (n.Ok? ==> Evolves(held, n.value) && n.value.key == read.key && n.value.version > read.version
                          && Rank(n.value.state) == Some(Rank(read.state).value + 1))
  {}

  lemma KeptAcross(c: Config, d: Config, record: Record)
    requires Moves(c, d) && record.key in c.records && Evolves(record, c.records[record.key])
    ensures record.key in d.records && Evolves(record, d.records[record.key])
  {
    EvolvesTransitively(record, c.records[record.key], d.records[record.key]);
  }

  class Port {
    const service: Service

    constructor (service: Service)
      ensures this.service == service
    {
      this.service := service;
    }

    /** One turn of the walk: the next forward state, or what somebody else has made of the record. */
    method Turn(record: Record, now: Time) returns (current: Record)
      requires service.Valid() && Rank(record.state).Some? && Rank(record.state).value < 4
      requires record.key in service.store.records && Evolves(record, service.store.records[record.key])
      modifies service, service.store
      ensures service.Valid() && Moves(old(service.State()), service.State())
      ensures service.store.records == old(service.store.records)[record.key := current]
      ensures Evolves(old(service.store.records)[record.key], current) && current.key == record.key
      ensures record != old(service.store.records)[record.key] ==> current == old(service.store.records)[record.key]
      ensures record == old(service.store.records)[record.key] ==> current.version > record.version && Rank(current.state) == Some(Rank(record.state).value + 1)
    {
      hide Inv, GrantsInv, Moves, Evolves, Written, TransitionFrom, RecordInv;
      ghost var held := service.store.records[record.key];
      RecordOf(service.State(), record.key);
      ForwardTurn(record, held, service.objects, now);
      EvolvesToItself(held);
      var advanced := service.Transition(record.key, record.version, FORWARD[Rank(record.state).value + 1], now);
      if advanced.Ok? {
        return advanced.value;
      }
      var found := service.store.Get(record.key);
      return found.value;
    }

    /**
     Walks the record forward one state at a time, re-reading whenever somebody else has moved it;
     `others` are the calls that land before each of its own.
     */
    method Advance(read: Record, target: Artifacts.State, now: Time, others: seq<seq<Act>>) returns (answer: Result<(), Problem>)
      requires service.Valid() && Rank(target).Some? && AllForwardOnly(others)
      requires read.key in service.store.records && Evolves(read, service.store.records[read.key])
      modifies service, service.store
      ensures service.Valid() && Moves(old(service.State()), service.State()) && read.key in service.store.records
      // The record had reached the target when it was read, or has now; or it has left the forward lifecycle.
      ensures AtLeast(read, target) ==> answer.Ok? && service.store.records == old(service.store.records)
      ensures answer.Ok? && !AtLeast(read, target) ==> AtLeast(service.store.records[read.key], target)
      ensures answer.Err? ==> answer.error == AccessDenied && !service.store.records[read.key].state.Live()
      ensures others == [] && read == old(service.store.records)[read.key] ==> (answer.Ok? <==> Rank(read.state).Some?)
      ensures others == [] ==> service.store.records == old(service.store.records)[read.key := service.store.records[read.key]]
    {
      hide Inv, GrantsInv, Moves, Evolves;
      ghost var before := service.State();
      MovesToItself(before);
      LiveIsKept(read, service.store.records[read.key]);
      var record, waiting := read, others;
      while true
        invariant service.Valid() && Moves(before, service.State()) && AllForwardOnly(waiting)
        invariant record.key == read.key && read.key in service.store.records && Evolves(record, service.store.records[read.key])
        invariant (record == read && service.store.records == before.records) || record == service.store.records[read.key]
        invariant AtLeast(read, target) ==> service.store.records == before.records && record == read
        invariant others == [] ==> waiting == [] && service.store.records == before.records[read.key := service.store.records[read.key]]
        invariant others == [] && read == before.records[read.key] ==>
                    record == service.store.records[read.key] && (Rank(record.state).Some? <==> Rank(read.state).Some?)
        decreases |waiting|, if record == service.store.records[read.key] then 0 else 1, if Rank(record.state).Some? then 5 - Rank(record.state).value else 0
      {
        LiveIsKept(record, service.store.records[read.key]);
        var rank := Rank(record.state);
        if rank.None? {
          return Err(AccessDenied);
        }
        if rank.value >= Rank(target).value {
          return Ok(());
        }
        if waiting != [] {
          ghost var middle := service.State();
          service.Perform(waiting[0]);
          MovesTransitively(before, middle, service.State());
          KeptAcross(middle, service.State(), record);
          waiting := waiting[1..];
        }
        ghost var ours := service.State();
        record := Turn(record, now);
        MovesTransitively(before, ours, service.State());
        EvolvesToItself(record);
      }
    }

    /** Carries a candidate to a final state, if its kind is one the operation may finalize; `others` land before each write. */
    method Ensure(k: Key, operation: Operation, target: Artifacts.State, now: Time, others: seq<seq<Act>>) returns (answer: Result<(), Problem>)
      requires service.Valid() && target in {Finalized, Committed} && AllForwardOnly(others)
      modifies service, service.store
      ensures service.Valid() && Moves(old(service.State()), service.State())
      ensures answer.Ok? ==> k in service.store.records && AtLeast(service.store.records[k], target)
      ensures answer.Ok? ==> service.store.records[k].state == Committed || (target == Finalized && service.store.records[k].state == Finalized)
      // A candidate that would enter a final state under an operation that may not finalize its kind is refused as it was read.
      ensures answer == Err(NotFinalizable) <==>
                k in old(service.store.records) && old(service.store.records)[k].state in {Pending, Scanning, Valid}
                && operation !in FinalizedUnder(old(service.store.records)[k].content.kind)
      ensures answer == Err(NotFinalizable) ==> service.State() == old(service.State())
      // Any other refusal is for an unknown artifact, a missing time, or one that is off the forward lifecycle by then.
      ensures answer.Err? && answer != Err(NotFinalizable) ==>
                k !in old(service.store.records) || now == 0 || (k in service.store.records && !service.store.records[k].state.Live())
      // With nobody in between it succeeds otherwise exactly from the forward lifecycle, and touches no other artifact.
      ensures others == [] && k in old(service.store.records) && now != 0 && answer != Err(NotFinalizable) ==>
                (answer.Ok? <==> old(service.store.records)[k].state in {Pending, Scanning, Valid, Finalized, Committed})
      ensures others == [] ==> forall j | j in old(service.store.records) && j != k ::
                j in service.store.records && service.store.records[j] == old(service.store.records)[j]
    {
      MovesToItself(service.State());
      var found := service.store.Get(k);
      if found.None? {
        return Err(NotFound);
      }
      hide Inv, GrantsInv, Moves, FinalizableBy, FinalizedUnder, Evolves, CrossesFinalization, Rank, AtLeast;
      FinalStates(target);
      KeyedByItself(service.State(), k);
      FinalizableIsFinalizedUnder(operation, found.value.content.kind);
      EvolvesToItself(found.value);
      if CrossesFinalization(found.value.state, target) && !FinalizableBy(operation, found.value.content.kind) {
        return Err(NotFinalizable);
      }
      if now == 0 {
        return Err(RequestInvalid);
      }
      answer := Advance(found.value, target, now, others);
    }
  }
}
