/** `services/economy_service.py`: the request side of the conversions. Every
  * method is one transaction between two provider calls.
  */
module EconomyService {
  import opened Numbers
  import opened Pricing
  import opened ProviderClient
  import opened Saga
  import opened Ledger
  import opened Database

  class EconomyService {
    const db: Database

    constructor (db: Database)
      ensures this.db == db
    {
      this.db := db;
    }

    /** `_ensure_no_active_operation`. */
    method HasActiveOperation(player: PlayerId) returns (busy: bool)
      requires db.Shape()
      ensures busy <==> Busy(db.View(), player)
    {
      busy := false;
      for i := 0 to |db.operations|
        invariant busy <==> exists j :: 0 <= j < i && db.View().sagas[j].op.player == player &&
                                        Active(db.View().sagas[j].op.state)
      {
        var op := db.operations[i];
        assert db.View().sagas[i].op == op;
        if op.player == player && Active(op.state) {
          busy := true;
        }
      }
    }

    /** `_get_operation`, and the unique key the insert would violate. */
    method KeyUsed(key: Key) returns (used: bool)
      requires db.Shape()
      ensures used <==> !FreshKey(db.View(), key)
    {
      used := false;
      for i := 0 to |db.operations|
        invariant used <==> exists j :: 0 <= j < i && db.View().sagas[j].op.key == key
      {
        assert db.View().sagas[i].op == db.operations[i];
        if db.operations[i].key == key {
          used := true;
        }
      }
    }

    /** `_resolve_sell_mass` and the pricing after it. */
    method QuoteSale(want: Argument, current: nat, s: Settings, balance: nat) returns (q: Quote)
      requires balance <= POINTS_MAX
      ensures q == SellQuote(want, current, s, balance)
    {
      if current == 0 {
        return Refused("SELL_MASS_EMPTY");
      }
      var mass: int;
      if want.All? {
        if s.sellRate == 0 {
          return Refused("ECONOMY_INVALID_MASS");
        }
        mass := MaxSellMass(balance, s.sellRate, current);
      } else {
        mass := want.mass;
      }
      mass := Min(Min(mass, current), s.maxMass);
      if mass <= 0 && want.All? {
        return Refused("ECONOMY_NO_SELLABLE_MASS");
      }
      if mass < s.minMass {
        return Refused("ECONOMY_TRANSACTION_TOO_SMALL");
      }
      if mass <= 0 || s.sellRate == 0 {
        return Refused("ECONOMY_INVALID_MASS");
      }
      var points := SellPoints(mass, s.sellRate);
      if points == 0 {
        return Refused("ECONOMY_INVALID_MASS");
      }
      if points > POINTS_MAX - balance {
        if want.All? {
          return Refused("ECONOMY_NO_SELLABLE_MASS");
        }
        return OverCap(mass, points);
      }
      return Priced(mass, points);
    }

    /** `_resolve_buy_mass` and the pricing after it. */
    method QuotePurchase(want: Argument, s: Settings, balance: nat) returns (q: Quote)
      requires balance <= POINTS_MAX
      ensures q == BuyQuote(want, s, balance)
    {
      var mass: int;
      if want.All? {
        if s.buyRate == 0 {
          return Refused("ECONOMY_INVALID_MASS");
        }
        mass := MaxBuyMass(balance, s.buyRate, s.maxMass);
        if mass < s.minMass {
          return Refused("ECONOMY_NO_PURCHASABLE_MASS");
        }
      } else {
        mass := want.mass;
      }
      if mass <= 0 || s.buyRate == 0 {
        return Refused("ECONOMY_INVALID_MASS");
      }
      var cost := BuyPoints(mass, s.buyRate);
      PriceIsPositive(mass, s.buyRate);
      if cost > POINTS_MAX {
        return OverCap(mass, cost);
      }
      if mass < s.minMass {
        return Refused("ECONOMY_TRANSACTION_TOO_SMALL");
      }
      if mass > s.maxMass {
        return Refused("ECONOMY_TRANSACTION_TOO_LARGE");
      }
      if balance < cost {
        return Refused("BUY_FAIL_FUNDS");
      }
      return Priced(mass, cost);
    }

    /** `sell_fish` from the locked re-check on: the mass leaves the player in
      * the transaction that records the operation.
      */
    method SellFish(key: Key, player: PlayerId, want: Argument, s: Settings, read: int) returns (q: Quote)
      requires db.Shape()
      modifies db
      ensures db.Shape() && db.View() == Step(old(db.View()), Event.SellFish(key, player, want, s, read))
      ensures q.Refused? ==> db.View() == old(db.View())
      ensures !q.Refused? ==>
                MayConvert(old(db.View()), key, player, read) && q == SellQuote(want, old(db.mass)[player], s, read)
    {
      var used := KeyUsed(key);
      var busy := HasActiveOperation(player);
      if used || player !in db.mass || !ValidBalance(read) {
        return Refused("ECONOMY_REQUEST_INVALID");
      }
      if busy {
        return Refused("ECONOMY_OPERATION_IN_PROGRESS");
      }
      q := QuoteSale(want, db.mass[player], s, read);
      match q {
        case Refused(_) =>
        case OverCap(mass, points) =>
          RecordFailure(Operation(key, Sell, player, mass, points, s.sellRate, Processing, false, false));
        case Priced(mass, points) =>
          db.ApplyMassMutation(player, 0 - mass);
          var op := Operation(key, Sell, player, mass, points, s.sellRate, Processing, false, false);
          StartCall(op, Processing, 0 - mass);
      }
    }

    /** Record an operation with a leased outbox row and enter its provider call. */
    method StartCall(op: Operation, state: OpState, ghost moved: int)
      requires db.Shape()
      modifies db`operations, db`outbox, db`calls, db`world
      ensures db.Shape()
      ensures db.View() == old(db.View()).(sagas := old(db.View()).sagas +
                [Saga(op.(state := state), OutboxEvent(EventProcessing, true, 0), [Running(Requester)],
                      Effects(0, 0, moved))])
    {
      var i := db.CreateOperation(op);
      db.operations := db.operations[i := op.(state := state)];
      db.world := db.world[i := Effects(0, 0, moved)];
      db.MarkOutbox(i, EventProcessing);
      db.calls := db.calls[i := [Running(Requester)]];
      RowAdded(old(db.Snapshot()), db.Snapshot(), db.Row(i));
    }

    /** A conversion beyond the provider's cap is recorded, but never tried. */
    method RecordFailure(op: Operation)
      requires db.Shape()
      modifies db`operations, db`outbox, db`calls, db`world
      ensures db.Shape()
      ensures db.View() == old(db.View()).(sagas := old(db.View()).sagas +
                [Saga(op.(state := Failed), OutboxEvent(EventDeadLetter, false, 0), [], Effects(0, 0, 0))])
    {
      var i := db.CreateOperation(op);
      db.operations := db.operations[i := op.(state := Failed)];
      db.MarkOutbox(i, EventDeadLetter);
      RowAdded(old(db.Snapshot()), db.Snapshot(), db.Row(i));
    }

    /** `buy_fish` from the locked re-check on. */
    method BuyFish(key: Key, player: PlayerId, want: Argument, s: Settings, read: int) returns (q: Quote)
      requires db.Shape()
      modifies db
      ensures db.Shape() && db.View() == Step(old(db.View()), Event.BuyFish(key, player, want, s, read))
      ensures q.Refused? ==> db.View() == old(db.View())
      ensures !q.Refused? ==> MayConvert(old(db.View()), key, player, read) && q == BuyQuote(want, s, read)
    {
      var used := KeyUsed(key);
      var busy := HasActiveOperation(player);
      if used || player !in db.mass || !ValidBalance(read) {
        return Refused("ECONOMY_REQUEST_INVALID");
      }
      if busy {
        return Refused("ECONOMY_OPERATION_IN_PROGRESS");
      }
      q := QuotePurchase(want, s, read);
      match q {
        case Refused(_) =>
        case OverCap(mass, points) =>
          RecordFailure(Operation(key, Buy, player, mass, 0, s.buyRate, Processing, false, false));
        case Priced(mass, points) =>
          StartCall(Operation(key, Buy, player, mass, points, s.buyRate, Processing, false, false), ExternalPending, 0);
      }
    }

    /** `ExternalActionService.queue`: a reward is only queued for the worker. */
    method QueueReward(key: Key, player: PlayerId, points: nat) returns (queued: bool)
      requires db.Shape()
      modifies db
      ensures db.Shape() && db.View() == Step(old(db.View()), Event.QueueReward(key, player, points))
      ensures queued <==> Possible(old(db.View()), Event.QueueReward(key, player, points))
    {
      var used := KeyUsed(key);
      if used || player !in db.mass {
        return false;
      }
      var i := db.CreateOperation(Operation(key, Reward, player, 0, points, 0, Pending, false, false));
      RowAdded(old(db.Snapshot()), db.Snapshot(), db.Row(i));
      return true;
    }

    /** `_restore_sell`: unconditional, it trusts that nobody else refunded. */
    method RestoreSell(i: nat)
      requires db.Shape() && db.Owned(i)
      modifies db`mass, db`world, db`operations, db`outbox
      ensures db.Shape() && db.Owned(i)
      ensures db.View() == Put(old(db.View()), i, Mark(Restore(old(db.Row(i))), Compensated, EventCompensated))
    {
      db.ReturnMass(i);
      ghost var restored := db.Row(i);
      db.Close(i, Compensated, EventCompensated);
      PutTwice(old(db.View()), i, restored, db.Row(i));
    }

    /** `_queue_retry`. */
    method QueueRetry(i: nat)
      requires db.Shape() && db.Owned(i)
      modifies db`operations, db`outbox
      ensures db.Shape() && db.Owned(i)
      ensures db.View() == Put(old(db.View()), i, Mark(old(db.Row(i)), Queued, EventPending))
    {
      db.Close(i, Queued, EventPending);
    }

    /** `_ambiguous`, `_reconcile_sell_after_failure` and the failed refund. */
    method RequireReconciliation(i: nat)
      requires db.Shape() && db.Owned(i)
      modifies db`operations, db`outbox
      ensures db.Shape() && db.Owned(i) && db.View() == Put(old(db.View()), i, Reconcile(old(db.Row(i))))
    {
      db.Close(i, ReconciliationRequired, EventReconciliation);
    }

    /** The exception handlers of `_execute_sell`, by what they make of the call. */
    method SettleSell(i: nat, seen: Seen)
      requires db.Shape() && db.Owned(i)
      modifies db`mass, db`world, db`operations, db`outbox
      ensures db.Shape() && db.Owned(i) && db.View() == Put(old(db.View()), i, HandleSell(old(db.Row(i)), seen))
    {
      match seen {
        case Success => db.Close(i, Completed, EventProcessed);
        case Ambiguous => RequireReconciliation(i);
        case Retryable => QueueRetry(i);
        case Rejected => RestoreSell(i);
        case Broken => RequireReconciliation(i);
      }
    }

    /** Those of `_execute_buy`; a local failure is rolled back. */
    method SettleBuy(i: nat, seen: Seen)
      requires db.Shape() && db.Owned(i)
      modifies db`mass, db`world, db`operations, db`outbox
      ensures db.Shape() && db.Owned(i) && db.View() == Put(old(db.View()), i, HandleBuy(old(db.Row(i)), seen))
    {
      match seen {
        case Success =>
          db.GrantMass(i);
          ghost var granted := db.Row(i);
          db.Close(i, Completed, EventProcessed);
          PutTwice(old(db.View()), i, granted, db.Row(i));
        case Ambiguous => RequireReconciliation(i);
        case Retryable => QueueRetry(i);
        case Rejected => db.Close(i, Failed, EventDeadLetter);
        case Broken => PutSame(db.View(), i);
      }
    }

    /** `_execute_sell` after the provider call: the branch its outcome selects,
      * up to the commit, whatever the rows have become meanwhile. Whoever writes
      * the operation row waits until nobody else holds its lock.
      */
    method ExecuteSell(i: nat, k: nat)
      requires db.Shape() && db.Owned(i) && db.operations[i].kind != Buy && k < |db.calls[i]|
      requires db.calls[i][k].Answered? && db.calls[i][k].actor == Requester && Free(db.Row(i), k)
      modifies db
      ensures db.Shape() && db.View() == Step(old(db.View()), At(i, Handle(k)))
    {
      SettleSell(i, db.calls[i][k].seen);
      ghost var settled := db.Row(i);
      db.SetCall(i, k, NoCall);
      PutTwice(old(db.View()), i, settled, db.Row(i));
    }

    /** `_execute_buy` after the provider call. After a local failure the process
      * goes on to refund the provider.
      */
    method ExecuteBuy(i: nat, k: nat)
      requires db.Shape() && db.Owned(i) && db.operations[i].kind == Buy && k < |db.calls[i]|
      requires db.calls[i][k].Answered? && db.calls[i][k].actor == Requester && Free(db.Row(i), k)
      modifies db
      ensures db.Shape() && db.View() == Step(old(db.View()), At(i, Handle(k)))
    {
      var seen := db.calls[i][k].seen;
      SettleBuy(i, seen);
      ghost var settled := db.Row(i);
      db.SetCall(i, k, if seen == Broken then Refunding else NoCall);
      PutTwice(old(db.View()), i, settled, db.Row(i));
    }

    /** `_compensate_buy` after the refund call: only a confirmed refund within
      * range closes the operation.
      */
    method CompensateBuy(i: nat, k: nat)
      requires db.Shape() && db.Owned(i) && k < |db.calls[i]| && db.calls[i][k].RefundAnswered? && Free(db.Row(i), k)
      modifies db
      ensures db.Shape() && db.View() == Step(old(db.View()), At(i, HandleRefund(k)))
    {
      if db.calls[i][k].confirmed {
        db.Close(i, Compensated, EventCompensated);
      } else {
        RequireReconciliation(i);
      }
      ghost var settled := db.Row(i);
      db.SetCall(i, k, NoCall);
      PutTwice(old(db.View()), i, settled, db.Row(i));
    }
  }
}
