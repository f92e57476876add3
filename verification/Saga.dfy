/** One StreamElements operation and everything that can happen to it: the
  * request that created it, the outbox worker, the lease recovery and the
  * administrator. An operation row, its outbox row, the processes inside a
  * provider call for it and the provider's own account of it make up a `Saga`.
  *
  * Every transition is one database transaction or one provider call. The
  * handler of an answer writes its rows whatever has become of them meanwhile.
  */
module Saga {
  import opened ProviderClient

  type PlayerId = int   // users_progress.id
  type Key = int        // an idempotency key, only ever compared

  datatype Kind = Sell | Buy | Reward

  datatype OpState =
    | Pending | Queued | Processing | ExternalPending | ExternalApplied
    | Completed | Compensated | Failed | ReconciliationRequired | DeadLettered

  datatype EventState =
    | EventPending | EventProcessing | EventProcessed
    | EventDeadLetter | EventCompensated | EventReconciliation

  /** `economy_operations`; a flag stands for a timestamp column being set. */
  datatype Operation = Operation(
    key: Key, kind: Kind, player: PlayerId, mass: nat, points: nat, rate: nat,
    state: OpState, internalApplied: bool, compensated: bool)

  /** `outbox_events`. */
  datatype OutboxEvent = OutboxEvent(state: EventState, leased: bool, attempts: nat)

  /** A worker goes by the timestamps it loaded when it claimed the event. */
  datatype Actor = Requester | Worker(granted: bool, refunded: bool)

  /** A process that is inside a provider call for the operation, or was. It
    * lives in memory: a crash forgets it and leaves the rows as committed. A
    * worker is `Writing` from the flush before its write on.
    */
  datatype Call =
    | NoCall
    | Running(actor: Actor)
    | Writing(actor: Actor)
    | Answered(actor: Actor, seen: Seen)
    | Refunding
    | RefundAnswered(confirmed: bool)

  /** What really happened for an operation: the writes the provider applied
    * less the refunds it applied, the points and the mass that moved.
    */
  datatype Effects = Effects(net: int, paid: int, moved: int)

  /** `calls` are the processes in the order they entered their calls: the
    * request's own, then one for each time the worker claimed the event. A
    * recovered lease stops none of them.
    */
  datatype Saga = Saga(op: Operation, event: OutboxEvent, calls: seq<Call>, effects: Effects)

  /** The points a carried-out operation moves at the provider. */
  function DuePoints(op: Operation): int
  {
    if op.kind == Buy then 0 - op.points else op.points
  }

  function PointsMoved(sg: Saga, net: int): Saga
  {
    sg.(effects := sg.effects.(net := sg.effects.net + net, paid := sg.effects.paid + net * DuePoints(sg.op)))
  }

  function MassMoved(sg: Saga): Saga
  {
    sg.(effects := sg.effects.(moved := sg.effects.moved + sg.op.mass))
  }

  datatype Local =
    // provider calls
    | Write(k: nat)
    | Answer(k: nat, applied: bool, seen: Seen)
    | RefundAnswer(k: nat, applied: bool, confirmed: bool)
    // the handler of an answer, up to its commit
    | Handle(k: nat)
    | HandleRefund(k: nat)
    | Unreadable(k: nat)     // a worker that cannot decrypt the credential
    | Crash(k: nat)
    // outbox worker
    | RecoverLease
    | Claim
    | Decline(mismatch: bool)
    // administrator
    | Retry | Complete | Compensate | DeadLetter

  const MAX_ATTEMPTS := 8

  // ---- transitions ---------------------------------------------------------

  /** The call with a number, if there ever was one. */
  function CallAt(sg: Saga, k: nat): Call { if k < |sg.calls| then sg.calls[k] else NoCall }

  predicate Live(sg: Saga, k: nat) { CallAt(sg, k) != NoCall }

  /** Whether a process holds the lock on the operation row: a worker from its
    * flush to its commit or rollback, a purchase's request while it refunds.
    */
  predicate Holds(call: Call)
  {
    match call
    case Writing(_) => true
    case Answered(actor, seen) => actor.Worker? && seen == Success
    case Refunding => true
    case RefundAnswered(_) => true
    case _ => false
  }

  /** Nobody but the process with this number holds it. */
  predicate Free(sg: Saga, k: nat)
  {
    forall j :: 0 <= j < |sg.calls| && j != k ==> !Holds(sg.calls[j])
  }

  predicate Unlocked(sg: Saga) { forall j :: 0 <= j < |sg.calls| ==> !Holds(sg.calls[j]) }

  /** What a call can be answered with: a worker whose write has not begun has
    * only failed to read the balance, or to flush.
    */
  predicate Answerable(call: Call, applied: bool, seen: Seen)
  {
    match call
    case Running(Requester) => true
    case Running(Worker(_, _)) => !applied && (seen == Rejected || seen == Retryable || seen == Broken)
    case Writing(_) => true
    case _ => false
  }

  predicate Enabled(sg: Saga, ev: Local)
  {
    match ev
    case Write(k) => CallAt(sg, k).Running? && sg.calls[k].actor.Worker? && Free(sg, k)
    case Answer(k, applied, seen) => Answerable(CallAt(sg, k), applied, seen)
    case RefundAnswer(k, _, _) => CallAt(sg, k).Refunding?
    case Handle(k) => CallAt(sg, k).Answered? && Free(sg, k)
    case HandleRefund(k) => CallAt(sg, k).RefundAnswered? && Free(sg, k)
    case Unreadable(k) => CallAt(sg, k).Running? && sg.calls[k].actor.Worker? && Free(sg, k)
    case Crash(k) => Live(sg, k)
    case RecoverLease => sg.event.state == EventProcessing && Unlocked(sg)
    case Claim => sg.event.state == EventPending && Unlocked(sg)
    case Decline(_) => sg.event.state == EventPending && Unlocked(sg)
    case Compensate => sg.event.state == EventReconciliation && sg.op.kind == Sell && Unlocked(sg)
    case _ => sg.event.state == EventReconciliation && Unlocked(sg)
  }

  /** Both rows written together; only a processing event carries a lease. */
  function Mark(sg: Saga, state: OpState, event: EventState): Saga
  {
    sg.(op := sg.op.(state := state), event := sg.event.(state := event, leased := event == EventProcessing))
  }

  function WithCall(sg: Saga, k: nat, call: Call): Saga
    requires k < |sg.calls|
  {
    sg.(calls := sg.calls[k := call])
  }

  /** Give the mass of a sale back (`_restore_sell`, the worker's and the
    * administrator's refund).
    */
  function Restore(sg: Saga): Saga
  {
    MassMoved(sg).(op := sg.op.(compensated := true))
  }

  function Grant(sg: Saga): Saga
  {
    MassMoved(sg).(op := sg.op.(internalApplied := true))
  }

  /** `apply_confirmed_buy_mass`, with the timestamp its caller has loaded. */
  function GrantUnless(sg: Saga, granted: bool): Saga
  {
    if sg.op.kind != Buy || granted then sg else Grant(sg)
  }

  function RestoreUnless(sg: Saga, refunded: bool): Saga
  {
    if refunded then sg else Restore(sg)
  }

  /** `_finalize_failure` of the worker, likewise. */
  function Finalize(sg: Saga, refunded: bool): Saga
  {
    if sg.op.kind != Sell then Mark(sg, Failed, EventDeadLetter)
    else Mark(RestoreUnless(sg, refunded), Compensated, EventDeadLetter)
  }

  function Reconcile(sg: Saga): Saga { Mark(sg, ReconciliationRequired, EventReconciliation) }

  function HandleSell(sg: Saga, seen: Seen): Saga
  {
    match seen
    case Success => Mark(sg, Completed, EventProcessed)
    case Rejected => Mark(Restore(sg), Compensated, EventCompensated)
    case Retryable => Mark(sg, Queued, EventPending)
    case _ => Reconcile(sg)
  }

  function HandleBuy(sg: Saga, seen: Seen): Saga
  {
    match seen
    case Success => Mark(Grant(sg), Completed, EventProcessed)
    case Rejected => Mark(sg, Failed, EventDeadLetter)
    case Retryable => Mark(sg, Queued, EventPending)
    case Ambiguous => Reconcile(sg)
    case Broken => sg   // rolled back, nothing committed
  }

  /** A worker that failed has rolled back and reads the row again. */
  function HandleWork(sg: Saga, granted: bool, seen: Seen): Saga
  {
    match seen
    case Success => Mark(GrantUnless(sg, granted), Completed, EventProcessed)
    case Rejected => Finalize(sg, sg.op.compensated)
    case Retryable =>
      var counted := sg.(event := sg.event.(attempts := sg.event.attempts + 1));
      if counted.event.attempts >= MAX_ATTEMPTS then Finalize(counted, counted.op.compensated)
      else Mark(counted, Pending, EventPending)
    case _ => Reconcile(sg)
  }

  function Handled(sg: Saga, actor: Actor, seen: Seen): Saga
  {
    match actor
    case Worker(granted, _) => HandleWork(sg, granted, seen)
    case Requester => if sg.op.kind == Buy then HandleBuy(sg, seen) else HandleSell(sg, seen)
  }

  /** A purchase's own request goes on to refund the provider. */
  predicate GoesOn(kind: Kind, actor: Actor, seen: Seen) { kind == Buy && actor == Requester && seen == Broken }

  function Next(sg: Saga, ev: Local): Saga
    requires Enabled(sg, ev)
  {
    match ev
    case Write(k) => WithCall(sg, k, Writing(sg.calls[k].actor))
    case Answer(k, applied, seen) =>
      WithCall(if applied then PointsMoved(sg, 1) else sg, k, Answered(sg.calls[k].actor, seen))
    case RefundAnswer(k, applied, confirmed) =>
      WithCall(if applied then PointsMoved(sg, -1) else sg, k, RefundAnswered(confirmed))
    case Handle(k) =>
      var call := sg.calls[k];
      WithCall(Handled(sg, call.actor, call.seen), k,
               if GoesOn(sg.op.kind, call.actor, call.seen) then Refunding else NoCall)
    case HandleRefund(k) =>
      WithCall(if sg.calls[k].confirmed then Mark(sg, Compensated, EventCompensated) else Reconcile(sg), k, NoCall)
    case Unreadable(k) => WithCall(Finalize(sg, sg.calls[k].actor.refunded), k, NoCall)
    case Crash(k) => WithCall(sg, k, NoCall)
    case RecoverLease => Reconcile(sg)
    case Claim =>
      var worker := Worker(sg.op.internalApplied, sg.op.compensated);
      Mark(sg, Processing, EventProcessing).(calls := sg.calls + [Running(worker)])
    case Decline(mismatch) => if mismatch then Reconcile(sg) else Finalize(sg, sg.op.compensated)
    case Retry => Mark(sg, Pending, EventPending)
    case Complete => Mark(GrantUnless(sg, sg.op.internalApplied), Completed, EventProcessed)
    case Compensate => Mark(RestoreUnless(sg, sg.op.compensated), Compensated, EventCompensated)
    case DeadLetter => Mark(sg, DeadLettered, EventDeadLetter)
  }

  /** What is not possible is turned away and changes nothing. */
  function Run(sg: Saga, evs: seq<Local>): Saga
    decreases |evs|
  {
    if evs == [] then sg else Run(if Enabled(sg, evs[0]) then Next(sg, evs[0]) else sg, evs[1..])
  }

  // ---- what holds at every commit ------------------------------------------

  predicate Active(state: OpState)
  {
    state in {Pending, Queued, Processing, ExternalPending, ExternalApplied, ReconciliationRequired}
  }

  /** A conversion that blocks the player's next one. */
  predicate Converting(sg: Saga) { sg.op.kind != Reward && Active(sg.op.state) }

  /** The pairs of operation and outbox states a commit can leave. */
  predicate CoherentStates(op: OpState, event: EventState)
  {
    match op
    case Processing => event == EventProcessing
    case ExternalPending => event == EventProcessing
    case Queued => event == EventPending
    case Pending => event == EventPending
    case Completed => event == EventProcessed
    case Compensated => event == EventCompensated || event == EventDeadLetter
    case Failed => event == EventDeadLetter
    case DeadLettered => event == EventDeadLetter
    case ReconciliationRequired => event == EventReconciliation
    case ExternalApplied => false
  }

  predicate Coherent(sg: Saga)
  {
    && CoherentStates(sg.op.state, sg.event.state)
    && (sg.event.leased <==> sg.event.state == EventProcessing)
    && (sg.op.state == Compensated && sg.event.state == EventDeadLetter ==> sg.op.kind == Sell)
    && (sg.op.state == ExternalPending ==> sg.op.kind == Buy)
  }

  /** Nobody is inside a call. */
  predicate Idle(sg: Saga) { forall k :: 0 <= k < |sg.calls| ==> sg.calls[k] == NoCall }

  /** Only a conversion has a request of its own, and a timestamp once loaded is
    * never cleared.
    */
  predicate ActorFits(op: Operation, actor: Actor)
  {
    match actor
    case Requester => op.kind != Reward
    case Worker(granted, refunded) => (granted ==> op.internalApplied) && (refunded ==> op.compensated)
  }

  predicate CallFits(op: Operation, call: Call)
  {
    match call
    case NoCall => true
    case Running(actor) => ActorFits(op, actor)
    case Writing(actor) => ActorFits(op, actor) && actor.Worker?
    case Answered(actor, _) => ActorFits(op, actor)
    case _ => op.kind == Buy
  }

  /** The rows agree with each other and with what the operation is. */
  predicate RowsSound(sg: Saga)
  {
    && Coherent(sg)
    && (sg.op.kind == Reward <==> sg.op.mass == 0)
    && (sg.op.internalApplied ==> sg.op.kind == Buy) && (sg.op.compensated ==> sg.op.kind == Sell)
  }

  /** A sale only fails when it is recorded, before anything is tried. */
  predicate Untried(sg: Saga) { sg.op.kind == Sell && sg.op.state == Failed }

  /** Holds of every reachable saga, whatever the provider, the administrators
    * and the lease recovery do and whenever they do it.
    */
  predicate Sound(sg: Saga)
  {
    && RowsSound(sg)
    && (Untried(sg) ==> Idle(sg) && sg.effects.moved == 0)
    && (forall k :: 0 <= k < |sg.calls| ==> CallFits(sg.op, sg.calls[k]))
  }

  /** What an operation is about never changes. */
  predicate SameTrade(a: Operation, b: Operation)
  {
    && a.key == b.key && a.kind == b.kind && a.player == b.player
    && a.mass == b.mass && a.points == b.points && a.rate == b.rate
  }

  /** A timestamp that is set stays set. */
  predicate FlagsStay(before: Operation, after: Operation)
  {
    (before.internalApplied ==> after.internalApplied) && (before.compensated ==> after.compensated)
  }

  /** What a handler writes: coherent rows, for the same trade, and perhaps mass. */
  predicate Written(sg: Saga, after: Saga)
  {
    && RowsSound(after) && !Untried(after) && SameTrade(after.op, sg.op) && FlagsStay(sg.op, after.op)
    && after.calls == sg.calls && after.effects.moved >= sg.effects.moved
    && after.effects == sg.effects.(moved := after.effects.moved)
  }

  lemma WorkRows(sg: Saga, granted: bool, seen: Seen)
    requires RowsSound(sg) && !Untried(sg)
    ensures Written(sg, HandleWork(sg, granted, seen))
  {
  }

  lemma RequestRows(sg: Saga, seen: Seen)
    requires RowsSound(sg) && !Untried(sg) && sg.op.kind != Reward
    ensures Written(sg, if sg.op.kind == Buy then HandleBuy(sg, seen) else HandleSell(sg, seen))
  {
  }

  lemma HandledRows(sg: Saga, actor: Actor, seen: Seen)
    requires RowsSound(sg) && !Untried(sg) && CallFits(sg.op, Answered(actor, seen))
    ensures Written(sg, Handled(sg, actor, seen))
  {
    match actor
    case Worker(granted, _) => WorkRows(sg, granted, seen);
    case Requester => RequestRows(sg, seen);
  }

  /** An event of one of the calls. */
  predicate OfCall(ev: Local)
  {
    ev.Write? || ev.Answer? || ev.RefundAnswer? || ev.Handle? || ev.HandleRefund? || ev.Unreadable? || ev.Crash?
  }

  lemma RowEventKeepsCalls(sg: Saga, ev: Local)
    requires Enabled(sg, ev) && !OfCall(ev)
    ensures var sg' := Next(sg, ev);
            && sg'.op.kind == sg.op.kind && sg'.effects.net == sg.effects.net
            && sg'.calls ==
               sg.calls + (if ev.Claim? then [Running(Worker(sg.op.internalApplied, sg.op.compensated))] else [])
            && (sg.event.state == EventProcessing ==> ev.RecoverLease?)
            && (ev.Claim? ==> sg'.event.state == EventProcessing)
  {
  }

  lemma CallEventKeepsOthers(sg: Saga, ev: Local)
    requires Enabled(sg, ev) && OfCall(ev)
    ensures var sg' := Next(sg, ev);
            ev.k < |sg.calls| && Live(sg, ev.k) && sg'.calls == sg.calls[ev.k := CallAt(sg', ev.k)]
  {
    if ev.Handle? {
    } else {
    }
  }

  lemma RowsStep(sg: Saga, ev: Local)
    requires Sound(sg) && Enabled(sg, ev)
    ensures var sg' := Next(sg, ev);
            && RowsSound(sg') && SameTrade(sg'.op, sg.op) && FlagsStay(sg.op, sg'.op)
            && sg'.effects.moved >= sg.effects.moved && (Untried(sg') ==> Untried(sg))
  {
    match ev {
      case Handle(k) =>
        assert sg.calls[k] != NoCall && CallFits(sg.op, sg.calls[k]);
        HandledRows(sg, sg.calls[k].actor, sg.calls[k].seen);
      case HandleRefund(k) => assert CallFits(sg.op, sg.calls[k]);
      case Unreadable(k) => assert sg.calls[k] != NoCall;
      case Decline(_) =>
      case _ =>
    }
  }

  lemma StillFits(before: Operation, after: Operation, call: Call)
    requires SameTrade(after, before) && FlagsStay(before, after) && CallFits(before, call)
    ensures CallFits(after, call)
  {
  }

  lemma OwnCallFits(sg: Saga, ev: Local)
    requires Sound(sg) && Enabled(sg, ev) && OfCall(ev)
    ensures CallFits(sg.op, CallAt(Next(sg, ev), ev.k))
  {
    assert CallFits(sg.op, sg.calls[ev.k]);
  }

  lemma CallsFit(sg: Saga, ev: Local)
    requires Sound(sg) && Enabled(sg, ev)
    ensures var sg' := Next(sg, ev); forall k :: 0 <= k < |sg'.calls| ==> CallFits(sg'.op, sg'.calls[k])
  {
    var sg' := Next(sg, ev);
    RowsStep(sg, ev);
    if OfCall(ev) {
      CallEventKeepsOthers(sg, ev);
      OwnCallFits(sg, ev);
    } else {
      RowEventKeepsCalls(sg, ev);
    }
    forall k | 0 <= k < |sg'.calls| ensures CallFits(sg'.op, sg'.calls[k]) {
      StillFits(sg.op, sg'.op, sg'.calls[k]);
    }
  }

  lemma SoundStep(sg: Saga, ev: Local)
    requires Sound(sg) && Enabled(sg, ev)
    ensures Sound(Next(sg, ev)) && SameTrade(Next(sg, ev).op, sg.op)
    ensures Next(sg, ev).effects.moved >= sg.effects.moved
  {
    RowsStep(sg, ev);
    CallsFit(sg, ev);
    TriedAfter(sg, ev);
  }

  /** A sale that was never tried has no calls, and no way on. */
  lemma TriedAfter(sg: Saga, ev: Local)
    requires Sound(sg) && Enabled(sg, ev)
    ensures !Untried(Next(sg, ev))
  {
    RowsStep(sg, ev);
  }

  // ---- the mass accounting -------------------------------------------------

  /** The mass the flags of an operation row account for. */
  function Contribution(op: Operation): int
  {
    match op.kind
    case Buy => if op.internalApplied then op.mass else 0
    case Sell => if op.state == Failed || op.compensated then 0 else 0 - op.mass
    case Reward => 0
  }

  /** A process that may still move mass without looking at the row: a request
    * that restores a sale or grants a purchase, and a worker that loaded the
    * timestamp before it was set.
    */
  predicate Blind(sg: Saga, k: nat)
  {
    match CallAt(sg, k)
    case Running(Requester) => true
    case Running(Worker(granted, refunded)) => if sg.op.kind == Buy then !granted else !refunded
    case Writing(Worker(granted, _)) => sg.op.kind == Buy && !granted
    case Answered(Requester, seen) => seen == if sg.op.kind == Sell then Rejected else Success
    case Answered(Worker(granted, _), seen) => sg.op.kind == Buy && seen == Success && !granted
    case _ => false
  }

  /** A handler that moves no mass and closes the operation whenever it comes. */
  predicate OnlyCloses(sg: Saga, k: nat)
  {
    match CallAt(sg, k)
    case Answered(actor, seen) =>
      if sg.op.kind == Sell then seen == Success
      else seen == Rejected || (actor.Worker? && seen == Retryable && sg.event.attempts + 1 >= MAX_ATTEMPTS)
    case _ => false
  }

  /** Anything else a live call may lead to. */
  predicate OpenEnded(sg: Saga, k: nat) { Live(sg, k) && !OnlyCloses(sg, k) }

  predicate Untouched(op: Operation) { !op.internalApplied && !op.compensated }

  predicate AtMostOne(sg: Saga)
  {
    forall j, k :: 0 <= j < k < |sg.calls| ==> !(OpenEnded(sg, j) && OpenEnded(sg, k))
  }

  /** Nobody else works on an operation while a call of it is open-ended. */
  predicate Guarding(sg: Saga)
  {
    forall k :: 0 <= k < |sg.calls| && OpenEnded(sg, k) ==>
      sg.event.state != EventPending && sg.event.state != EventReconciliation
  }

  /** The mass can be moved once more, and by one process only. */
  predicate MovesOnce(sg: Saga)
  {
    if Untouched(sg.op) then AtMostOne(sg) && Guarding(sg)
    else forall k :: 0 <= k < |sg.calls| ==> !Blind(sg, k)
  }

  /** The flags account for the mass moved. */
  predicate Booked(sg: Saga)
  {
    Sound(sg) && sg.effects.moved == Contribution(sg.op) && (sg.op.kind != Reward ==> MovesOnce(sg))
  }

  /** The lease of an operation whose mass may still move is not recovered under
    * an open-ended call.
    */
  predicate Guarded(sg: Saga, ev: Local)
  {
    ev.RecoverLease? && sg.op.kind != Reward && Untouched(sg.op) ==>
      forall k :: 0 <= k < |sg.calls| ==> !OpenEnded(sg, k)
  }

  lemma HandledBooked(sg: Saga, actor: Actor, seen: Seen)
    requires RowsSound(sg) && !Untried(sg) && CallFits(sg.op, Answered(actor, seen))
    requires sg.effects.moved == Contribution(sg.op)
    requires !Untouched(sg.op) ==>
               match actor
               case Requester => seen != if sg.op.kind == Sell then Rejected else Success
               case Worker(granted, _) => sg.op.kind == Buy && seen == Success ==> granted
    ensures var after := Handled(sg, actor, seen); after.effects.moved == Contribution(after.op)
  {
    if actor.Worker? {
    } else if sg.op.kind == Buy {
    } else {
    }
  }

  lemma BookedMoves(sg: Saga, ev: Local)
    requires Booked(sg) && Enabled(sg, ev)
    ensures Next(sg, ev).effects.moved == Contribution(Next(sg, ev).op)
  {
    match ev {
      case Handle(k) =>
        assert sg.calls[k] != NoCall && CallFits(sg.op, sg.calls[k]);
        assert sg.op.kind != Reward && !Untouched(sg.op) ==> !Blind(sg, k);
        HandledBooked(sg, sg.calls[k].actor, sg.calls[k].seen);
      case Unreadable(k) =>
        assert sg.calls[k] != NoCall && CallFits(sg.op, sg.calls[k]);
        assert sg.op.kind != Reward && !Untouched(sg.op) ==> !Blind(sg, k);
      case _ =>
    }
  }

  lemma BookedStep(sg: Saga, ev: Local)
    requires Booked(sg) && Enabled(sg, ev) && Guarded(sg, ev)
    ensures Booked(Next(sg, ev))
  {
    SoundStep(sg, ev);
    BookedMoves(sg, ev);
    if sg.op.kind != Reward {
      if OfCall(ev) {
        MovesOnceAfterCall(sg, ev);
      } else {
        MovesOnceAfterRow(sg, ev);
      }
    }
  }

  lemma BlindIsOpenEnded(sg: Saga, k: nat)
    ensures Blind(sg, k) ==> OpenEnded(sg, k)
  {
  }

  /** What the process itself becomes. */
  lemma OwnCall(sg: Saga, ev: Local)
    requires Sound(sg) && sg.op.kind != Reward && Enabled(sg, ev) && OfCall(ev)
    ensures var sg' := Next(sg, ev);
            && (OpenEnded(sg', ev.k) ==> OpenEnded(sg, ev.k) && sg'.event == sg.event)
            && (Blind(sg', ev.k) ==> Blind(sg, ev.k))
            && sg'.event.attempts >= sg.event.attempts
            && (Untouched(sg.op) && !Untouched(sg'.op) ==> OpenEnded(sg, ev.k) && !Live(sg', ev.k))
            && (!OpenEnded(sg, ev.k) ==>
                  sg'.event == sg.event || sg'.event.state == EventProcessed || sg'.event.state == EventDeadLetter)
  {
    assert CallFits(sg.op, sg.calls[ev.k]);
  }

  /** And the others. */
  lemma OtherCall(sg: Saga, ev: Local, j: nat)
    requires Sound(sg) && Enabled(sg, ev) && OfCall(ev) && j != ev.k
    ensures var sg' := Next(sg, ev);
            && CallAt(sg', j) == CallAt(sg, j)
            && (OpenEnded(sg', j) ==> OpenEnded(sg, j)) && (Blind(sg', j) <==> Blind(sg, j))
  {
    CallEventKeepsOthers(sg, ev);
    RowsStep(sg, ev);
    assert sg.op.kind != Reward ==> Next(sg, ev).event.attempts >= sg.event.attempts by {
      if sg.op.kind != Reward {
        OwnCall(sg, ev);
      }
    }
  }

  lemma OnlyOne(sg: Saga, j: nat, k: nat)
    requires AtMostOne(sg) && j != k
    ensures !(OpenEnded(sg, j) && OpenEnded(sg, k))
  {
    if j < k {
    } else {
    }
  }

  lemma GuardingAfterCall(sg: Saga, ev: Local, k: nat)
    requires Booked(sg) && sg.op.kind != Reward && Enabled(sg, ev) && OfCall(ev)
    requires Untouched(Next(sg, ev).op) && OpenEnded(Next(sg, ev), k)
    ensures Next(sg, ev).event.state != EventPending && Next(sg, ev).event.state != EventReconciliation
  {
    RowsStep(sg, ev);
    OwnCall(sg, ev);
    if k != ev.k {
      OtherCall(sg, ev, k);
      OnlyOne(sg, k, ev.k);
    }
    assert OpenEnded(sg, k) && Guarding(sg);
  }

  lemma SeeingAfterCall(sg: Saga, ev: Local, k: nat)
    requires Booked(sg) && sg.op.kind != Reward && Enabled(sg, ev) && OfCall(ev) && !Untouched(Next(sg, ev).op)
    ensures !Blind(Next(sg, ev), k)
  {
    OwnCall(sg, ev);
    BlindIsOpenEnded(Next(sg, ev), k);
    if k != ev.k {
      OtherCall(sg, ev, k);
      if Untouched(sg.op) {
        BlindIsOpenEnded(sg, k);
        OnlyOne(sg, k, ev.k);
      }
    }
    assert Blind(sg, k) ==> k < |sg.calls|;
  }

  lemma MovesOnceAfterCall(sg: Saga, ev: Local)
    requires Booked(sg) && sg.op.kind != Reward && Enabled(sg, ev) && OfCall(ev)
    ensures MovesOnce(Next(sg, ev))
  {
    var sg' := Next(sg, ev);
    RowsStep(sg, ev);
    if Untouched(sg'.op) {
      forall k: nat | OpenEnded(sg', k)
        ensures OpenEnded(sg, k) && sg'.event.state != EventPending && sg'.event.state != EventReconciliation
      {
        GuardingAfterCall(sg, ev, k);
        OwnCall(sg, ev);
        if k != ev.k {
          OtherCall(sg, ev, k);
        }
      }
      forall j, k | 0 <= j < k < |sg'.calls| ensures !(OpenEnded(sg', j) && OpenEnded(sg', k)) {
        OnlyOne(sg, j, k);
      }
    } else {
      forall k | 0 <= k < |sg'.calls| ensures !Blind(sg', k) {
        SeeingAfterCall(sg, ev, k);
      }
    }
  }

  /** The rows change under a call only when no call can move mass blindly. */
  lemma CallUnderRowEvent(sg: Saga, ev: Local, k: nat)
    requires Booked(sg) && sg.op.kind != Reward && Enabled(sg, ev) && Guarded(sg, ev) && !OfCall(ev) && k < |sg.calls|
    ensures Untouched(sg.op) ==> !OpenEnded(sg, k)
    ensures !Blind(sg, k)
  {
    assert sg.event.state == EventPending || sg.event.state == EventReconciliation || ev.RecoverLease?;
    BlindIsOpenEnded(sg, k);
    if Untouched(sg.op) {
      assert Guarding(sg);
      assert ev.RecoverLease? ==> !OpenEnded(sg, k);
    }
  }

  lemma MovesOnceAfterRow(sg: Saga, ev: Local)
    requires Booked(sg) && sg.op.kind != Reward && Enabled(sg, ev) && Guarded(sg, ev) && !OfCall(ev)
    ensures MovesOnce(Next(sg, ev))
  {
    var sg' := Next(sg, ev);
    RowEventKeepsCalls(sg, ev);
    RowsStep(sg, ev);
    forall k | 0 <= k < |sg.calls|
      ensures CallAt(sg', k) == CallAt(sg, k) && !Blind(sg', k) && (Untouched(sg.op) ==> !OpenEnded(sg', k))
    {
      assert sg'.calls[k] == sg.calls[k];
      CallUnderRowEvent(sg, ev, k);
    }
  }

  // ---- recovered under an open-ended call ----------------------------------

  /** Some way on moves the mass without the flags accounting for it. */
  ghost predicate CanMoveTwice(sg: Saga)
  {
    exists evs :: NoRecovery(evs) && MovedTwice(Run(sg, evs))
  }

  predicate MovedTwice(sg: Saga) { sg.effects.moved == Contribution(sg.op) + sg.op.mass && sg.op.mass > 0 }

  predicate NoRecovery(evs: seq<Local>) { forall i :: 0 <= i < |evs| ==> !evs[i].RecoverLease? }

  lemma NoRecoveryFirst(ev: Local, rest: seq<Local>)
    requires !ev.RecoverLease? && NoRecovery(rest)
    ensures NoRecovery([ev] + rest)
  {
    forall i | 0 <= i < |[ev] + rest| ensures !([ev] + rest)[i].RecoverLease? {
      assert i > 0 ==> ([ev] + rest)[i] == rest[i - 1];
    }
  }

  lemma TwiceAfter(sg: Saga, ev: Local)
    requires Enabled(sg, ev) && !ev.RecoverLease? && (CanMoveTwice(Next(sg, ev)) || MovedTwice(Next(sg, ev)))
    ensures CanMoveTwice(sg)
  {
    var next := Next(sg, ev);
    assert MovedTwice(next) ==> NoRecovery([]) && MovedTwice(Run(next, []));
    var rest :| NoRecovery(rest) && MovedTwice(Run(next, rest));
    RunThen(sg, ev, rest);
    NoRecoveryFirst(ev, rest);
  }

  /** Nobody but the process with this number holds the row, and the row says
    * that the mass was moved while that process has not noticed.
    */
  lemma BlindMovesAgain(sg: Saga, k: nat)
    requires RowsSound(sg) && !Untried(sg) && sg.op.kind != Reward && sg.op.mass > 0 && Unlocked(sg)
    requires Blind(sg, k) && !Untouched(sg.op) && sg.effects.moved == Contribution(sg.op)
    ensures CanMoveTwice(sg)
  {
    match sg.calls[k]
    case Running(Requester) =>
      var answer := if sg.op.kind == Sell then Answer(k, false, Rejected) else Answer(k, true, Success);
      TwiceAfter(Next(sg, answer), Handle(k));
      TwiceAfter(sg, answer);
    case Running(Worker(_, _)) =>
      if sg.op.kind == Sell {
        TwiceAfter(sg, Unreadable(k));
      } else {
        var s1 := Next(sg, Write(k));
        var s2 := Next(s1, Answer(k, true, Success));
        TwiceAfter(s2, Handle(k));
        TwiceAfter(s1, Answer(k, true, Success));
        TwiceAfter(sg, Write(k));
      }
    case Answered(_, _) => TwiceAfter(sg, Handle(k));
    case _ =>
  }

  /** An administrator moves the mass, and then so does the blind process. */
  lemma DecidedMovesTwice(sg: Saga, k: nat)
    requires RowsSound(sg) && !Untried(sg) && sg.op.kind != Reward && sg.op.mass > 0 && Unlocked(sg)
    requires Blind(sg, k) && Untouched(sg.op) && sg.effects.moved == Contribution(sg.op)
    requires sg.event.state == EventReconciliation || sg.event.state == EventPending
    ensures CanMoveTwice(sg)
    decreases sg.event.state == EventPending
  {
    if sg.event.state == EventReconciliation {
      var decide := if sg.op.kind == Sell then Compensate else Complete;
      BlindMovesAgain(Next(sg, decide), k);
      TwiceAfter(sg, decide);
    } else {
      DecidedMovesTwice(Next(sg, Decline(true)), k);
      TwiceAfter(sg, Decline(true));
    }
  }

  /** The handler of the recovered call gives the operation away, or moves the
    * mass, under the worker that was sent to try again.
    */
  lemma HandlerMovesTwice(sg: Saga, k: nat, n: nat)
    requires RowsSound(sg) && !Untried(sg) && sg.op.kind != Reward && sg.op.mass > 0 && Unlocked(sg)
    requires Untouched(sg.op) && sg.effects.moved == Contribution(sg.op) && k < n < |sg.calls|
    requires sg.calls[n] == Running(Worker(false, false)) && CallFits(sg.op, sg.calls[k])
    requires sg.calls[k].Answered? && OpenEnded(sg, k) && !Blind(sg, k)
    ensures CanMoveTwice(sg)
  {
    var actor, seen := sg.calls[k].actor, sg.calls[k].seen;
    HandledRows(sg, actor, seen);
    HandledBooked(sg, actor, seen);
    var s1 := Next(sg, Handle(k));
    if GoesOn(sg.op.kind, actor, seen) {
      var s2 := Next(s1, RefundAnswer(k, false, false));
      DecidedMovesTwice(Next(s2, HandleRefund(k)), n);
      TwiceAfter(s2, HandleRefund(k));
      TwiceAfter(s1, RefundAnswer(k, false, false));
    } else if Untouched(s1.op) {
      DecidedMovesTwice(s1, n);
    } else {
      BlindMovesAgain(s1, n);
    }
    TwiceAfter(sg, Handle(k));
  }

  /** Recovered under an open-ended call, the mass can be moved twice: by an
    * administrator and the call, or by what the call makes of the operation
    * and a worker that was sent to try again.
    */
  lemma MovesTwice(sg: Saga, k: nat)
    requires Booked(sg) && sg.op.kind != Reward && Untouched(sg.op) && Enabled(sg, RecoverLease) && OpenEnded(sg, k)
    ensures CanMoveTwice(Next(sg, RecoverLease))
  {
    var late := Next(sg, RecoverLease);
    assert CallFits(sg.op, sg.calls[k]);
    if Blind(sg, k) {
      DecidedMovesTwice(late, k);
    } else {
      var s1 := Next(late, Retry);
      HandlerMovesTwice(Next(s1, Claim), k, |sg.calls|);
      TwiceAfter(s1, Claim);
      TwiceAfter(late, Retry);
    }
  }

  lemma RunThen(sg: Saga, ev: Local, rest: seq<Local>)
    requires Enabled(sg, ev)
    ensures Run(sg, [ev] + rest) == Run(Next(sg, ev), rest)
  {
    assert ([ev] + rest)[1..] == rest;
  }

  // ---- all or nothing ------------------------------------------------------

  /** The mass a completed operation moves. */
  function Due(op: Operation): int
  {
    match op.kind
    case Sell => 0 - op.mass
    case Buy => op.mass
    case Reward => 0
  }

  predicate Done(sg: Saga) { sg.effects == Effects(1, DuePoints(sg.op), Due(sg.op)) }

  predicate Undone(sg: Saga) { sg.effects == Effects(0, 0, 0) }

  predicate AllOrNothing(sg: Saga)
  {
    && (sg.op.state == Completed ==> Done(sg))
    && (sg.op.state == Compensated || sg.op.state == Failed ==> Undone(sg))
    && (sg.op.state == DeadLettered ==> Done(sg) || Undone(sg))
  }

  predicate Closed(sg: Saga) { !Active(sg.op.state) && Idle(sg) }

  /** Whether the provider's answer was what the handler takes it for, and
    * whether the administrator's choice is what the provider really did. A
    * local failure only has to follow an applied write where it triggers the
    * automatic refund of a purchase.
    */
  predicate Honest(sg: Saga, ev: Local)
  {
    match ev
    case Answer(k, applied, seen) =>
      Claims(seen, applied) || (seen == Broken && !GoesOn(sg.op.kind, CallActor(sg, k), seen))
    case RefundAnswer(_, applied, confirmed) => confirmed ==> applied
    case Retry => sg.effects.net == 0
    case Complete => sg.effects.net == 1
    case Compensate => sg.effects.net == 0
    case DeadLetter =>
      && (sg.op.kind == Sell ==> sg.effects.net == 1)
      && (sg.op.kind == Buy ==> sg.effects.net == if sg.op.internalApplied then 1 else 0)
    case _ => true
  }

  function CallActor(sg: Saga, k: nat): Actor
  {
    match CallAt(sg, k)
    case Running(actor) => actor
    case Writing(actor) => actor
    case Answered(actor, _) => actor
    case _ => Requester
  }

  /** A call that may go on without a lease: its write was applied, so nothing
    * will be tried again beside it, and it neither refunds the provider nor
    * grants the mass of a purchase.
    */
  predicate Unhurried(sg: Saga, k: nat)
  {
    match CallAt(sg, k)
    case NoCall => true
    case Answered(actor, seen) =>
      sg.effects.net == 1 && !(sg.op.kind == Buy && seen == Success) && !GoesOn(sg.op.kind, actor, seen)
    case _ => false
  }

  /** A lease is only recovered when every call can go on without it. */
  predicate Harmless(sg: Saga, ev: Local)
  {
    ev.RecoverLease? ==> forall k :: 0 <= k < |sg.calls| ==> Unhurried(sg, k)
  }

  /** What the provider has done about a call, when everybody was honest. */
  predicate CallTrue(sg: Saga, call: Call)
  {
    match call
    case NoCall => true
    case Running(_) => sg.effects.net == 0
    case Writing(_) => sg.effects.net == 0
    case Answered(actor, seen) =>
      Claims(seen, sg.effects.net == 1) || (seen == Broken && !GoesOn(sg.op.kind, actor, seen))
    case Refunding => sg.effects.net == 1
    case RefundAnswered(confirmed) => confirmed ==> sg.effects.net == 0
  }

  /** At most one call is alive, it tells the truth, and either it holds the
    * lease or it can go on without one.
    */
  predicate CallsGood(sg: Saga)
  {
    && (forall j, k :: 0 <= j < k < |sg.calls| ==> sg.calls[j] == NoCall || sg.calls[k] == NoCall)
    && (forall k :: 0 <= k < |sg.calls| ==>
          CallTrue(sg, sg.calls[k]) && (sg.event.state == EventProcessing || Unhurried(sg, k)))
  }

  predicate EffectsGood(sg: Saga)
  {
    && 0 <= sg.effects.net <= 1 && sg.effects.paid == sg.effects.net * DuePoints(sg.op)
    && sg.effects.moved == Contribution(sg.op)
    && (sg.op.internalApplied ==> sg.effects.net == 1)
    && (sg.op.compensated ==> sg.op.state == Compensated)
    && (sg.event.state == EventPending ==> sg.effects.net == 0)
    && (sg.event.state == EventProcessing ==> Untouched(sg.op))
    && AllOrNothing(sg)
  }

  /** Holds of every saga reached by honest and harmless steps. */
  predicate Good(sg: Saga) { Sound(sg) && EffectsGood(sg) && CallsGood(sg) }

  lemma HandledGood(sg: Saga, actor: Actor, seen: Seen)
    requires RowsSound(sg) && !Untried(sg) && EffectsGood(sg) && CallFits(sg.op, Answered(actor, seen))
    requires CallTrue(sg, Answered(actor, seen)) && !GoesOn(sg.op.kind, actor, seen)
    requires sg.event.state == EventProcessing ||
             (sg.effects.net == 1 && !(sg.op.kind == Buy && seen == Success))
    ensures EffectsGood(Handled(sg, actor, seen))
  {
    HandledRows(sg, actor, seen);
    HandledBooked(sg, actor, seen);
    if actor.Worker? {
    } else if sg.op.kind == Buy {
    } else {
    }
  }

  lemma GoodCallEffects(sg: Saga, ev: Local)
    requires Good(sg) && Enabled(sg, ev) && Honest(sg, ev) && OfCall(ev)
    ensures EffectsGood(Next(sg, ev))
  {
    CallEventKeepsOthers(sg, ev);
    assert CallTrue(sg, sg.calls[ev.k]) && CallFits(sg.op, sg.calls[ev.k]);
    assert sg.event.state == EventProcessing || Unhurried(sg, ev.k);
    if ev.Handle? && !GoesOn(sg.op.kind, sg.calls[ev.k].actor, sg.calls[ev.k].seen) {
      HandledGood(sg, sg.calls[ev.k].actor, sg.calls[ev.k].seen);
    }
  }

  lemma GoodEffects(sg: Saga, ev: Local)
    requires Good(sg) && Enabled(sg, ev) && Honest(sg, ev) && Harmless(sg, ev)
    ensures EffectsGood(Next(sg, ev))
  {
    if OfCall(ev) {
      GoodCallEffects(sg, ev);
    }
  }

  lemma GoodCalls(sg: Saga, ev: Local)
    requires Good(sg) && Enabled(sg, ev) && Honest(sg, ev) && Harmless(sg, ev)
    ensures CallsGood(Next(sg, ev))
  {
    if OfCall(ev) {
      CallEventKeepsOthers(sg, ev);
      GoodOwnCall(sg, ev);
      assert forall j :: 0 <= j < |sg.calls| && j != ev.k ==> sg.calls[j] == NoCall;
    } else {
      GoodCallsAfterRow(sg, ev);
    }
  }

  lemma GoodCallsAfterRow(sg: Saga, ev: Local)
    requires Good(sg) && Enabled(sg, ev) && Harmless(sg, ev) && !OfCall(ev)
    ensures CallsGood(Next(sg, ev))
  {
    var sg' := Next(sg, ev);
    RowEventKeepsCalls(sg, ev);
    forall k | 0 <= k < |sg.calls|
      ensures Unhurried(sg, k) && CallTrue(sg', sg'.calls[k]) && Unhurried(sg', k)
    {
      assert CallTrue(sg, sg.calls[k]) && (sg.event.state == EventProcessing || Unhurried(sg, k));
      assert ev.RecoverLease? ==> Unhurried(sg, k);
    }
  }

  lemma GoodOwnCall(sg: Saga, ev: Local)
    requires Good(sg) && Enabled(sg, ev) && Honest(sg, ev) && OfCall(ev) && ev.k < |sg.calls|
    ensures var sg' := Next(sg, ev);
            && ev.k < |sg'.calls| && CallTrue(sg', sg'.calls[ev.k])
            && (sg'.event.state == EventProcessing || Unhurried(sg', ev.k))
  {
    assert CallTrue(sg, sg.calls[ev.k]) && (sg.event.state == EventProcessing || Unhurried(sg, ev.k));
  }

  lemma GoodStep(sg: Saga, ev: Local)
    requires Good(sg) && Enabled(sg, ev) && Honest(sg, ev) && Harmless(sg, ev)
    ensures Good(Next(sg, ev))
  {
    SoundStep(sg, ev);
    GoodEffects(sg, ev);
    GoodCalls(sg, ev);
  }

  // ---- one conversion at a time --------------------------------------------

  /** While anybody is inside a call the operation holds its lease. */
  predicate Attended(sg: Saga)
  {
    && (forall j, k :: 0 <= j < k < |sg.calls| ==> sg.calls[j] == NoCall || sg.calls[k] == NoCall)
    && (sg.event.state == EventProcessing || Idle(sg))
  }

  /** A conversion's lease is only recovered once nobody is inside a call. */
  predicate Timely(sg: Saga, ev: Local) { ev.RecoverLease? && sg.op.kind != Reward ==> Idle(sg) }

  /** Timely, a closed conversion is never opened again. */
  lemma AttendedStep(sg: Saga, ev: Local)
    requires Sound(sg) && sg.op.kind != Reward && Attended(sg) && Enabled(sg, ev) && Timely(sg, ev)
    ensures Attended(Next(sg, ev)) && (Active(Next(sg, ev).op.state) ==> Active(sg.op.state))
  {
    if OfCall(ev) {
      CallEventKeepsOthers(sg, ev);
      AttendedCall(sg, ev);
    } else {
      RowEventKeepsCalls(sg, ev);
    }
  }

  lemma AttendedCall(sg: Saga, ev: Local)
    requires Sound(sg) && Attended(sg) && Enabled(sg, ev) && OfCall(ev)
    ensures sg.event.state == EventProcessing
    ensures Next(sg, ev).event == sg.event || CallAt(Next(sg, ev), ev.k) == NoCall
  {
  }

  ghost predicate CanOpen(sg: Saga) { exists evs :: NoRecovery(evs) && Active(Run(sg, evs).op.state) }

  ghost predicate CanReopen(sg: Saga)
  {
    exists evs :: NoRecovery(evs) && !Active(Run(sg, evs).op.state) && CanOpen(Run(sg, evs))
  }

  lemma OpensAfter(sg: Saga, ev: Local)
    requires Enabled(sg, ev) && !ev.RecoverLease? && (CanOpen(Next(sg, ev)) || Active(Next(sg, ev).op.state))
    ensures CanOpen(sg)
  {
    var next := Next(sg, ev);
    assert Active(next.op.state) ==> NoRecovery([]) && Active(Run(next, []).op.state);
    var rest :| NoRecovery(rest) && Active(Run(next, rest).op.state);
    RunThen(sg, ev, rest);
    NoRecoveryFirst(ev, rest);
  }

  lemma ReopensAfter(sg: Saga, ev: Local)
    requires Enabled(sg, ev) && !ev.RecoverLease?
    requires CanReopen(Next(sg, ev)) || (!Active(Next(sg, ev).op.state) && CanOpen(Next(sg, ev)))
    ensures CanReopen(sg)
  {
    var next := Next(sg, ev);
    assert !Active(next.op.state) && CanOpen(next) ==> NoRecovery([]) && Run(next, []) == next;
    var rest :| NoRecovery(rest) && !Active(Run(next, rest).op.state) && CanOpen(Run(next, rest));
    RunThen(sg, ev, rest);
    NoRecoveryFirst(ev, rest);
  }

  /** With a call alive at the recovery, the operation can be closed and opened
    * again: by that call's handler, or by the worker's when that handler closed
    * the operation under it.
    */
  lemma RecoveredReopens(sg: Saga, k: nat)
    requires Sound(sg) && Attended(sg) && Enabled(sg, RecoverLease) && Live(sg, k)
    ensures CanReopen(Next(sg, RecoverLease))
  {
    var late := Next(sg, RecoverLease);
    if OpensLate(sg, k) {
      HandlerOpens(Next(late, DeadLetter), k);
      ReopensAfter(late, DeadLetter);
    } else {
      WorkerReopens(late, k);
    }
  }

  lemma WorkerReopens(late: Saga, k: nat)
    requires RowsSound(late) && late.event.state == EventReconciliation && Unlocked(late)
    requires Live(late, k) && !OpensLate(late, k)
    ensures CanReopen(late)
  {
    var s1 := Next(late, Retry);
    ClosedUnderWorker(Next(s1, Claim), k, |late.calls|);
    ReopensAfter(s1, Claim);
    ReopensAfter(late, Retry);
  }

  lemma ClosedUnderWorker(sg: Saga, k: nat, n: nat)
    requires Unlocked(sg) && k < n < |sg.calls| && sg.calls[n].Running? && Live(sg, k) && !OpensLate(sg, k)
    ensures CanReopen(sg)
  {
    HandlerOpens(Next(sg, Handle(k)), n);
    ReopensAfter(sg, Handle(k));
  }

  /** What is left of a call can put the operation into an active state. */
  predicate OpensLate(sg: Saga, k: nat)
  {
    match CallAt(sg, k)
    case Running(_) => true
    case Answered(actor, seen) =>
      && seen != Success && seen != Rejected
      && !(actor.Worker? && seen == Retryable && sg.event.attempts + 1 >= MAX_ATTEMPTS)
    case _ => false
  }

  lemma HandlerOpens(sg: Saga, k: nat)
    requires OpensLate(sg, k) && Unlocked(sg)
    ensures CanOpen(sg)
  {
    if sg.calls[k].Running? {
      var answer := Answer(k, false, if sg.calls[k].actor.Worker? then Broken else Ambiguous);
      OpensAfter(Next(sg, answer), Handle(k));
      OpensAfter(sg, answer);
    } else {
      if GoesOn(sg.op.kind, sg.calls[k].actor, sg.calls[k].seen) {
        var s1 := Next(sg, Handle(k));
        var s2 := Next(s1, RefundAnswer(k, false, false));
        OpensAfter(s2, HandleRefund(k));
        OpensAfter(s1, RefundAnswer(k, false, false));
      }
      OpensAfter(sg, Handle(k));
    }
  }
}
