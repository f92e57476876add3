/** The two other writers of an operation: the outbox worker
  * (`services/eventing/se_job_runner.py`) and the administrator's
  * reconciliation actions (`services/discord_admin_service.py`), with the
  * guarded grant both share (`services/economy_reconciliation.py`).
  */
module Reconciliation {
  import opened ProviderClient
  import opened Saga
  import opened Ledger
  import opened Database

  /** `apply_confirmed_buy_mass`. `granted` is `internal_applied_at` as the caller
    * has loaded it; only a caller that has just read the row under its lock
    * knows that it is the committed one.
    */
  method ApplyConfirmedBuyMass(db: Database, i: nat, granted: bool)
    requires db.Shape() && db.Owned(i)
    modifies db`mass, db`world, db`operations
    ensures db.Shape() && db.Owned(i)
    ensures db.View() == Put(old(db.View()), i,
              if old(db.operations[i]).kind == Buy && !granted then Grant(old(db.Row(i))) else old(db.Row(i)))
  {
    if db.operations[i].kind != Buy || granted {
      PutSame(db.View(), i);
      return;
    }
    db.GrantMass(i);
  }

  /** Refund a sale unless `compensated_at`, as the caller has loaded it, is set. */
  method RefundSaleUnless(db: Database, i: nat, refunded: bool)
    requires db.Shape() && db.Owned(i)
    modifies db`mass, db`world, db`operations
    ensures db.Shape() && db.Owned(i)
    ensures db.View() == Put(old(db.View()), i, if refunded then old(db.Row(i)) else Restore(old(db.Row(i))))
  {
    if refunded {
      PutSame(db.View(), i);
      return;
    }
    db.ReturnMass(i);
  }

  class OutboxWorker {
    const db: Database

    constructor (db: Database)
      ensures this.db == db
    {
      this.db := db;
    }

    /** `_recover_expired_lease`: an expired processing event is never retried,
      * it waits for an administrator. A call still in flight is not stopped.
      */
    method RecoverExpiredLease(i: nat)
      requires db.Shape() && db.Owned(i) && db.outbox[i].state == EventProcessing && Unlocked(db.Row(i))
      modifies db
      ensures db.Shape() && db.View() == Step(old(db.View()), At(i, RecoverLease))
    {
      db.Close(i, ReconciliationRequired, EventReconciliation);
    }

    /** `_run_once` up to the commit before the provider call. From here on the
      * worker keeps the timestamps it has loaded.
      */
    method ClaimEvent(i: nat)
      requires db.Shape() && db.Owned(i) && db.outbox[i].state == EventPending && Unlocked(db.Row(i))
      modifies db
      ensures db.Shape() && db.View() == Step(old(db.View()), At(i, Claim))
    {
      var granted, refunded := db.operations[i].internalApplied, db.operations[i].compensated;
      db.Close(i, Processing, EventProcessing);
      ghost var closed := db.Row(i);
      db.EnterCall(i, Worker(granted, refunded));
      PutTwice(old(db.View()), i, closed, db.Row(i));
    }

    /** `_run_once` on an operation whose integration is gone, or bound to
      * another provider channel than the operation's.
      */
    method DeclineEvent(i: nat, mismatch: bool)
      requires db.Shape() && db.Owned(i) && db.outbox[i].state == EventPending && Unlocked(db.Row(i))
      modifies db
      ensures db.Shape() && db.View() == Step(old(db.View()), At(i, Decline(mismatch)))
    {
      if mismatch {
        db.Close(i, ReconciliationRequired, EventReconciliation);
      } else {
        FinalizeFailure(i, db.operations[i].compensated);
      }
    }

    /** The credential cannot be decrypted: finalized at once, by the timestamp
      * loaded with the claim.
      */
    method GiveUpUnreadable(i: nat, k: nat)
      requires db.Shape() && db.Owned(i) && k < |db.calls[i]|
      requires db.calls[i][k].Running? && db.calls[i][k].actor.Worker? && Free(db.Row(i), k)
      modifies db
      ensures db.Shape() && db.View() == Step(old(db.View()), At(i, Unreadable(k)))
    {
      FinalizeFailure(i, db.calls[i][k].actor.refunded);
      ghost var settled := db.Row(i);
      db.SetCall(i, k, NoCall);
      PutTwice(old(db.View()), i, settled, db.Row(i));
    }

    /** The flush before the write, which locks the operation row. */
    method BeginWrite(i: nat, k: nat)
      requires db.Shape() && db.Owned(i) && k < |db.calls[i]|
      requires db.calls[i][k].Running? && db.calls[i][k].actor.Worker? && Free(db.Row(i), k)
      modifies db
      ensures db.Shape() && db.View() == Step(old(db.View()), At(i, Write(k)))
    {
      db.SetCall(i, k, Writing(db.calls[i][k].actor));
    }

    /** `_finalize_failure`. */
    method FinalizeFailure(i: nat, refunded: bool)
      requires db.Shape() && db.Owned(i)
      modifies db`mass, db`world, db`operations, db`outbox
      ensures db.Shape() && db.Owned(i) && db.View() == Put(old(db.View()), i, Finalize(old(db.Row(i)), refunded))
    {
      if db.operations[i].kind != Sell {
        db.Close(i, Failed, EventDeadLetter);
        return;
      }
      RefundSaleUnless(db, i, refunded);
      ghost var restored := db.Row(i);
      db.Close(i, Compensated, EventDeadLetter);
      PutTwice(old(db.View()), i, restored, db.Row(i));
    }

    /** `_schedule_retry`: back to pending, or given up at the eighth attempt. The
      * rollback before it made the session read the rows again.
      */
    method ScheduleRetry(i: nat, ghost granted: bool)
      requires db.Shape() && db.Owned(i)
      modifies db`mass, db`world, db`operations, db`outbox
      ensures db.Shape() && db.Owned(i)
      ensures db.View() == Put(old(db.View()), i, HandleWork(old(db.Row(i)), granted, Retryable))
    {
      db.CountAttempt(i);
      ghost var counted := db.Row(i);
      if db.outbox[i].attempts >= MAX_ATTEMPTS {
        FinalizeFailure(i, db.operations[i].compensated);
        PutTwice(old(db.View()), i, counted, Finalize(counted, counted.op.compensated));
      } else {
        db.Close(i, Pending, EventPending);
        PutTwice(old(db.View()), i, counted, Mark(counted, Pending, EventPending));
      }
    }

    /** `_run_once` after the provider call, by what it makes of the call. */
    method SettleWork(i: nat, granted: bool, seen: Seen)
      requires db.Shape() && db.Owned(i)
      modifies db`mass, db`world, db`operations, db`outbox
      ensures db.Shape() && db.Owned(i)
      ensures db.View() == Put(old(db.View()), i, HandleWork(old(db.Row(i)), granted, seen))
    {
      match seen {
        case Success =>
          ApplyConfirmedBuyMass(db, i, granted);
          ghost var applied := db.Row(i);
          db.Close(i, Completed, EventProcessed);
          PutTwice(old(db.View()), i, applied, db.Row(i));
        case Retryable => ScheduleRetry(i, granted);
        case Ambiguous => db.Close(i, ReconciliationRequired, EventReconciliation);
        case Rejected => FinalizeFailure(i, db.operations[i].compensated);
        case Broken => db.Close(i, ReconciliationRequired, EventReconciliation);
      }
    }

    method FinishEvent(i: nat, k: nat)
      requires db.Shape() && db.Owned(i) && k < |db.calls[i]|
      requires db.calls[i][k].Answered? && db.calls[i][k].actor.Worker? && Free(db.Row(i), k)
      modifies db
      ensures db.Shape() && db.View() == Step(old(db.View()), At(i, Handle(k)))
    {
      SettleWork(i, db.calls[i][k].actor.granted, db.calls[i][k].seen);
      ghost var settled := db.Row(i);
      db.SetCall(i, k, NoCall);
      PutTwice(old(db.View()), i, settled, db.Row(i));
    }
  }

  /** The administrator's side: only an event waiting for reconciliation is
    * found, and only a sale can be compensated; otherwise nothing changes. Both
    * rows are read under their locks, after waiting for whoever holds them.
    */
  class ReconciliationDesk {
    const db: Database

    constructor (db: Database)
      ensures this.db == db
    {
      this.db := db;
    }

    method RetryOperation(i: nat) returns (found: bool)
      requires db.Shape() && db.Owned(i) && Unlocked(db.Row(i))
      modifies db
      ensures db.Shape() && db.View() == Step(old(db.View()), At(i, Retry))
      ensures found <==> Enabled(old(db.Row(i)), Retry)
    {
      found := db.outbox[i].state == EventReconciliation;
      if found {
        db.Close(i, Pending, EventPending);
      }
    }

    method CompleteOperation(i: nat) returns (found: bool)
      requires db.Shape() && db.Owned(i) && Unlocked(db.Row(i))
      modifies db
      ensures db.Shape() && db.View() == Step(old(db.View()), At(i, Complete))
      ensures found <==> Enabled(old(db.Row(i)), Complete)
    {
      found := db.outbox[i].state == EventReconciliation;
      if found {
        ApplyConfirmedBuyMass(db, i, db.operations[i].internalApplied);
        ghost var granted := db.Row(i);
        db.Close(i, Completed, EventProcessed);
        PutTwice(old(db.View()), i, granted, db.Row(i));
      }
    }

    method CompensateOperation(i: nat) returns (found: bool)
      requires db.Shape() && db.Owned(i) && Unlocked(db.Row(i))
      modifies db
      ensures db.Shape() && db.View() == Step(old(db.View()), At(i, Compensate))
      ensures found <==> Enabled(old(db.Row(i)), Compensate)
    {
      found := db.outbox[i].state == EventReconciliation && db.operations[i].kind == Sell;
      if found {
        CompensateSale(i);
      }
    }

    /** `_compensate_reconciliation` of a sale. */
    method CompensateSale(i: nat)
      requires db.Shape() && db.Owned(i)
      modifies db`mass, db`world, db`operations, db`outbox
      ensures db.Shape() && db.Owned(i)
      ensures db.View() == Put(old(db.View()), i,
                Mark(RestoreUnless(old(db.Row(i)), old(db.operations[i]).compensated), Compensated, EventCompensated))
    {
      RefundSaleUnless(db, i, db.operations[i].compensated);
      ghost var refunded := db.Row(i);
      db.Close(i, Compensated, EventCompensated);
      PutTwice(old(db.View()), i, refunded, db.Row(i));
    }

    method DeadLetterOperation(i: nat) returns (found: bool)
      requires db.Shape() && db.Owned(i) && Unlocked(db.Row(i))
      modifies db
      ensures db.Shape() && db.View() == Step(old(db.View()), At(i, DeadLetter))
      ensures found <==> Enabled(old(db.Row(i)), DeadLetter)
    {
      found := db.outbox[i].state == EventReconciliation;
      if found {
        db.Close(i, DeadLettered, EventDeadLetter);
      }
    }
  }
}
