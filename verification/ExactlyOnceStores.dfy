/** The two in-memory stores, the commit authority that issues through one, and the domain port that redeems through the other. */
module ExactlyOnceStores {
  import opened Wrappers
  import opened ExactlyOnce
  import opened ExactlyOnceAnswers

  class MemoryIssuanceStore {
    var records: Issuances

    constructor ()
      ensures records == map[]
    {
      records := map[];
    }

    method Recorded(operation: Key) returns (found: Option<Issuance>)
      ensures found == if operation in records then Some(records[operation]) else None
    {
      if operation !in records {
        return None;
      }
      return Some(records[operation]);
    }

    /** One insert-once write. */
    method Record(i: Issuance) returns (answer: Result<(), Problem>)
      modifies this
      ensures (records, answer) == ExactlyOnce.Record(old(records), i)
      ensures answer == Err(Invalid) <==> i.operation.id == "" || i.token == ""
      ensures answer == Err(IdempotencyConflict) <==>
                i.operation.id != "" && i.token != "" && i.operation in old(records) && old(records)[i.operation].authorization != i.authorization
      // Whatever was recorded stays, and success means this authorization is the one on record.
      ensures forall k | k in old(records) :: k in records && records[k] == old(records)[k]
      ensures answer.Ok? ==> i.operation in records && records[i.operation].authorization == i.authorization
    {
      if i.operation.id == "" || i.token == "" {
        return Err(Invalid);
      }
      if i.operation in records {
        if records[i.operation].authorization != i.authorization {
          return Err(IdempotencyConflict);
        }
        return Ok(());
      }
      records := records[i.operation := i];
      return Ok(());
    }

    /** What racing executions record, one after another. */
    method RecordAll(rivals: seq<Issuance>)
      modifies this
      ensures forall k | k in old(records) :: k in records && records[k] == old(records)[k]
      ensures forall k | k in records && k !in old(records) :: records[k] in rivals && records[k].operation == k
    {
      var i := 0;
      while i < |rivals|
        invariant 0 <= i <= |rivals|
        invariant forall k | k in old(records) :: k in records && records[k] == old(records)[k]
        invariant forall k | k in records && k !in old(records) :: records[k] in rivals && records[k].operation == k
      {
        var _ := Record(rivals[i]);
        i := i + 1;
      }
    }
  }

  class CommitAuthority {
    const store: MemoryIssuanceStore

    constructor (store: MemoryIssuanceStore)
      ensures this.store == store
    {
      this.store := store;
    }

    /**
     Issues the authorization of one durable operation. `mine` is what the issuer would mint now;
     `rivals` are recorded by others between this caller's read and its write.
     */
    method Issue(mine: Issuance, rivals: seq<Issuance>) returns (answer: Result<Issuance, Problem>)
      requires forall i | 0 <= i < |rivals| :: rivals[i].authorization != mine.authorization
      requires mine.operation in store.records ==> store.records[mine.operation].operation == mine.operation
      modifies store
      // The answer is the persisted original: what stood, else what a rival recorded, else mine.
      ensures answer.Ok? ==> mine.operation in store.records && store.records[mine.operation] == answer.value && answer.value.operation == mine.operation
      ensures mine.operation in old(store.records) ==> answer == Ok(old(store.records)[mine.operation]) && store.records == old(store.records)
      ensures answer.Ok? && mine.operation !in old(store.records) ==> answer.value == mine || answer.value in rivals
      ensures answer.Err? <==> mine.operation !in old(store.records) && (mine.operation.id == "" || mine.token == "")
      ensures answer.Err? ==> answer.error == Invalid
      ensures forall k | k in old(store.records) :: k in store.records && store.records[k] == old(store.records)[k]
    {
      var recorded := store.Recorded(mine.operation);
      if recorded.Some? {
        return Ok(recorded.value);
      }
      store.RecordAll(rivals);
      var written := store.Record(mine);
      if written.Err? {
        if written.error == IdempotencyConflict {
          var winner := store.Recorded(mine.operation);
          if winner.Some? {
            return Ok(winner.value);
          }
        }
        return Err(written.error);
      }
      return Ok(mine);
    }
  }

  class MemoryRedemptionStore {
    var byOperation: map<Key, Redemption>
    var byAuthorization: map<Key, string>

    ghost function State(): Book
      reads this
    {
      Book(byOperation, byAuthorization)
    }

    ghost predicate Valid()
      reads this
    {
      Inverse(State())
    }

    constructor ()
      ensures Valid() && State() == Book(map[], map[])
    {
      byOperation, byAuthorization := map[], map[];
    }

    /** Writes both maps together, once for an operation and once for an authorization. */
    method Redeem(r: Redemption) returns (answer: Result<Redeemed, Problem>)
      requires Valid()
      modifies this
      ensures Valid() && BookGrows(old(State()), State())
      ensures (State(), answer) == ExactlyOnce.Redeem(old(State()), r)
      // A repetition is answered with the outcome on the book; another effect under either identity conflicts.
      ensures r.operation in old(byOperation) && SameEffect(old(byOperation)[r.operation], r) ==>
                answer == Ok(Redeemed(old(byOperation)[r.operation].outcome, true)) && State() == old(State())
      ensures r.operation !in old(byOperation) && r.Authority() !in old(byAuthorization) ==>
                answer == Ok(Redeemed(r.outcome, false)) && r.operation in byOperation && byOperation[r.operation] == r
      ensures answer.Err? ==> answer.error == IdempotencyConflict && State() == old(State())
    {
      RedeemKeepsInverse(State(), r);
      if r.operation in byOperation {
        var prior := byOperation[r.operation];
        if prior.authorization != r.authorization || prior.token != r.token || prior.run != r.run || prior.artifact != r.artifact {
          return Err(IdempotencyConflict);
        }
        return Ok(Redeemed(prior.outcome, true));
      }
      if r.Authority() in byAuthorization {
        return Err(IdempotencyConflict);
      }
      byOperation := byOperation[r.operation := r];
      byAuthorization := byAuthorization[r.Authority() := r.operation.id];
      return Ok(Redeemed(r.outcome, false));
    }
  }

  class DomainPort {
    const redemptions: MemoryRedemptionStore
    const outcome: Outcome

    constructor (redemptions: MemoryRedemptionStore, outcome: Outcome)
      ensures this.redemptions == redemptions && this.outcome == outcome
    {
      this.redemptions := redemptions;
      this.outcome := outcome;
    }

    /** Verifies every binding the command asserts, and only then redeems. */
    method Commit(command: Command, verified: Option<Payload>, now: Time) returns (answer: Result<Outcome, Problem>)
      requires redemptions.Valid()
      modifies redemptions
      ensures redemptions.Valid() && BookGrows(old(redemptions.State()), redemptions.State())
      ensures (redemptions.State(), answer) == ExactlyOnce.Commit(old(redemptions.State()), command, verified, outcome, now)
      // Only a verified token that binds all the command asserts is answered otherwise than with a rejection, and then the effect stands.
      ensures answer == Err(Invalid) <==> !command.Complete() || now == 0
      ensures answer.Err? ==> answer.error == Invalid && redemptions.State() == old(redemptions.State())
      ensures answer.Ok? && answer.value != Rejected ==>
                verified.Some? && Binds(verified.value, command) && Stands(redemptions.State(), command, answer.value)
      ensures command.Complete() && now != 0 && verified.Some? && Binds(verified.value, command) && Free(old(redemptions.State()), command) ==>
                answer == Ok(outcome) && Stands(redemptions.State(), command, outcome)
      ensures forall x | command.Complete() && now != 0 && verified.Some? && Binds(verified.value, command) && Stands(old(redemptions.State()), command, x) ::
                answer == Ok(x) && redemptions.State() == old(redemptions.State())
    {
      AnswersMean(redemptions.State(), command, verified, outcome, now);
      hide Inverse, Stands, Free;
      if !command.Complete() || now == 0 {
        return Err(Invalid);
      }
      if verified.None? {
        return Ok(Rejected);
      }
      var signed := verified.value;
      if signed.authorization != command.authorization || signed.scope != command.operation.scope || signed.run != command.run
         || signed.artifact != command.artifact || signed.material != command.material
      {
        return Ok(Rejected);
      }
      var redeemed := redemptions.Redeem(command.AsRedemption(outcome, now));
      return Ok(if redeemed.Ok? then redeemed.value.outcome else Rejected);
    }

    /** What became of one submitted effect: nothing on the book proves that nothing landed. */
    method Reconcile(operation: Key, run: string) returns (answer: Result<Option<Outcome>, Problem>)
      requires redemptions.Valid()
      ensures answer == Ok(None) <==> operation.id != "" && operation.scope.workspace != "" && run != "" && operation !in redemptions.byOperation
      ensures answer.Ok? && answer.value.Some? ==> operation in redemptions.byOperation && redemptions.byOperation[operation].run == run
                                                   && answer.value.value == redemptions.byOperation[operation].outcome
      ensures answer == Err(Invalid) <==> operation.id == "" || operation.scope.workspace == "" || run == ""
      ensures answer == Err(IdempotencyConflict) <==>
                operation.id != "" && operation.scope.workspace != "" && run != "" && operation in redemptions.byOperation && redemptions.byOperation[operation].run != run
    {
      if operation.id == "" || operation.scope.workspace == "" || run == "" {
        return Err(Invalid);
      }
      if operation !in redemptions.byOperation {
        return Ok(None);
      }
      var r := redemptions.byOperation[operation];
      if r.run != run {
        return Err(IdempotencyConflict);
      }
      return Ok(Some(r.outcome));
    }
  }
}
