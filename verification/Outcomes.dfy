/** What becomes of an operation, told by what crossed the wire and in the
  * numbers of its rows: states, attempts, timestamps, mass and points.
  */
module Outcomes {
  import opened Options
  import opened Numbers
  import opened Pricing
  import opened ProviderClient
  import opened Saga
  import opened Ledger
  import opened Conservation
  import opened Database

  /** The rows of an operation at the end, and the mass and the points it has
    * brought its player meanwhile.
    */
  datatype Outcome = Outcome(op: Operation, event: OutboxEvent, mass: int, points: int)

  /** What operation `i` comes to; nothing else has changed. */
  predicate Ends(was: Ledger, l: Ledger, i: nat, o: Outcome)
    requires i < |was.sagas|
  {
    var p := o.op.player;
    && |l.sagas| == |was.sagas| && l.sagas[i].op == o.op && l.sagas[i].event == o.event
    && (forall j :: 0 <= j < |was.sagas| && j != i ==> l.sagas[j] == was.sagas[j])
    && p in was.mass && was.mass[p] + o.mass >= 0 && l.mass == was.mass[p := was.mass[p] + o.mass]
    && p in was.balance && l.balance == was.balance[p := was.balance[p] + o.points]
    && l.other == was.other && l.external == was.external
  }

  /** A process that does not hold the row lock. */
  predicate Waits(call: Call)
  {
    call == NoCall || call.Running? || (call.Answered? && (call.actor == Requester || call.seen != Success))
  }

  predicate OthersWait(sg: Saga, k: nat)
  {
    forall j :: 0 <= j < |sg.calls| && j != k ==> Waits(sg.calls[j])
  }

  predicate AllWait(sg: Saga) { forall j :: 0 <= j < |sg.calls| ==> Waits(sg.calls[j]) }

  // ---- runs of one operation -----------------------------------------------

  /** Its steps put its row back in the end, and nothing else. */
  lemma {:induction false} LocalRunPuts(l: Ledger, i: nat, locals: seq<Local>)
    requires Inv(l) && i < |l.sagas|
    ensures var end := Run(l.sagas[i], locals);
            && SameTrade(end.op, l.sagas[i].op) && end.effects.moved >= l.sagas[i].effects.moved
            && RunAll(l, Ats(i, locals)) == Put(l, i, end)
    decreases |locals|
  {
    var sg := l.sagas[i];
    if locals == [] {
      PutSame(l, i);
    } else {
      var rest := locals[1..];
      assert Ats(i, locals) == [At(i, locals[0])] + Ats(i, rest);
      RunsOn(l, At(i, locals[0]), Ats(i, rest), TimelyIn);
      InvStep(l, At(i, locals[0]));
      if Enabled(sg, locals[0]) {
        var next := Next(sg, locals[0]);
        SoundStep(sg, locals[0]);
        LocalRunPuts(Put(l, i, next), i, rest);
        PutTwice(l, i, next, Run(next, rest));
      } else {
        LocalRunPuts(l, i, rest);
      }
    }
  }

  predicate Reached(sg: Saga, end: Saga, o: Outcome)
  {
    && end.op == o.op && end.event == o.event
    && end.effects.moved == sg.effects.moved + o.mass && end.effects.paid == sg.effects.paid + o.points
  }

  lemma PutEnds(l: Ledger, i: nat, sg: Saga, o: Outcome)
    requires SamePlayers(l) && i < |l.sagas| && SameTrade(sg.op, l.sagas[i].op) && Reached(l.sagas[i], sg, o)
    requires sg.effects.moved >= l.sagas[i].effects.moved
    ensures Ends(l, Put(l, i, sg), i, o)
  {
  }

  /** What a run does to the operation it does to the ledger. */
  lemma RunEnds(l: Ledger, i: nat, locals: seq<Local>)
    requires Inv(l) && i < |l.sagas|
    ensures var end := RunAll(l, Ats(i, locals)); |end.sagas| == |l.sagas| && end.sagas[i] == Run(l.sagas[i], locals)
    ensures forall o :: Reached(l.sagas[i], Run(l.sagas[i], locals), o) ==> Ends(l, RunAll(l, Ats(i, locals)), i, o)
  {
    var end := Run(l.sagas[i], locals);
    LocalRunPuts(l, i, locals);
    forall o | Reached(l.sagas[i], end, o) ensures Ends(l, Put(l, i, end), i, o) {
      PutEnds(l, i, end, o);
    }
  }

  function One(sg: Saga, ev: Local): Saga { if Enabled(sg, ev) then Next(sg, ev) else sg }

  lemma RunTwo(sg: Saga, a: Local, b: Local)
    ensures Run(sg, [a, b]) == One(One(sg, a), b)
  {
    var s1 := One(sg, a);
    assert [a, b][1..] == [b] && [b][1..] == [];
    assert Run(sg, [a, b]) == Run(s1, [b]);
    assert Run(s1, [b]) == Run(One(s1, b), []);
  }

  lemma {:induction false} RunOn(sg: Saga, before: seq<Local>, after: seq<Local>)
    ensures Run(sg, before + after) == Run(Run(sg, before), after)
    decreases |before|
  {
    if before == [] {
      assert before + after == after;
    } else {
      assert (before + after)[1..] == before[1..] + after;
      RunOn(One(sg, before[0]), before[1..], after);
    }
  }

  lemma WaitsIff(sg: Saga, k: nat)
    ensures OthersWait(sg, k) <==> Free(sg, k)
    ensures AllWait(sg) <==> Unlocked(sg)
  {
  }

  /** The saga after an answer and its handler. */
  lemma HandledRun(sg: Saga, k: nat, applied: bool, seen: Seen)
    requires OthersWait(sg, k) && Answerable(CallAt(sg, k), applied, seen)
    ensures var answered := Next(sg, Answer(k, applied, seen));
            && Enabled(answered, Handle(k))
            && Run(sg, [Answer(k, applied, seen), Handle(k)]) == Next(answered, Handle(k))
  {
    WaitsIff(sg, k);
    RunTwo(sg, Answer(k, applied, seen), Handle(k));
  }

  // ---- the request ---------------------------------------------------------

  lemma SaleRun(sg: Saga, k: nat, applied: bool, seen: Seen)
    requires sg.op.kind == Sell && CallAt(sg, k) == Running(Requester) && OthersWait(sg, k)
    ensures var op, tried, points := sg.op, sg.event.attempts, if applied then sg.op.points else 0;
            var end := Run(sg, [Answer(k, applied, seen), Handle(k)]);
            && end.calls == sg.calls[k := NoCall]
            && Reached(sg, end,
                 match seen
                 case Success =>
                   Outcome(op.(state := Completed), OutboxEvent(EventProcessed, false, tried), 0, points)
                 case Retryable =>
                   Outcome(op.(state := Queued), OutboxEvent(EventPending, false, tried), 0, points)
                 case Rejected =>
                   Outcome(op.(state := Compensated, compensated := true),
                           OutboxEvent(EventCompensated, false, tried), op.mass, points)
                 case _ =>
                   Outcome(op.(state := ReconciliationRequired),
                           OutboxEvent(EventReconciliation, false, tried), 0, points))
  {
    HandledRun(sg, k, applied, seen);
  }

  /** What a sale comes to, once its request has been answered. */
  ghost function SaleOutcome(sg: Saga, write: Transport, read: Transport, committed: bool, points: int): (o: Outcome)
    ensures o.points == points && o.op.player == sg.op.player
  {
    var op, tried := sg.op, sg.event.attempts;
    if PutOff(write, read)
    then Outcome(op.(state := Queued), OutboxEvent(EventPending, false, tried), 0, points)
    else if TurnedAway(write, read)
    then Outcome(op.(state := Compensated, compensated := true),
                 OutboxEvent(EventCompensated, false, tried), op.mass, points)
    else if committed && Settles(write, read, true)
    then Outcome(op.(state := Completed), OutboxEvent(EventProcessed, false, tried), 0, points)
    else Outcome(op.(state := ReconciliationRequired),
                 OutboxEvent(EventReconciliation, false, tried), 0, points)
  }

  /** A sale, whatever its rows have become while its request was in the call:
    * put off, it waits for the worker with its mass still debited.
    */
  lemma SaleExchange(l: Ledger, i: nat, k: nat, write: Transport, read: Transport, committed: bool, applied: bool)
    requires Inv(l) && i < |l.sagas| && l.sagas[i].op.kind == Sell && k < |l.sagas[i].calls|
    requires l.sagas[i].calls[k] == Running(Requester) && OthersWait(l.sagas[i], k)
    ensures var sg, end := l.sagas[i], RunAll(l, Ats(i, [Answer(k, applied, RequestSeen(write, read, committed)),
                                                         Handle(k)]));
            var points := if applied then sg.op.points else 0;
            && |end.sagas| == |l.sagas| && end.sagas[i].calls == sg.calls[k := NoCall]
            && Ends(l, end, i, SaleOutcome(sg, write, read, committed, points))
  {
    var seen := RequestSeen(write, read, committed);
    RequestClasses(write, read, committed);
    SaleRun(l.sagas[i], k, applied, seen);
    RunEnds(l, i, [Answer(k, applied, seen), Handle(k)]);
  }

  lemma PurchaseRun(sg: Saga, k: nat, applied: bool, seen: Seen)
    requires sg.op.kind == Buy && CallAt(sg, k) == Running(Requester) && OthersWait(sg, k)
    ensures var op, tried, points := sg.op, sg.event.attempts, if applied then 0 - sg.op.points else 0;
            var end := Run(sg, [Answer(k, applied, seen), Handle(k)]);
            && end.calls == sg.calls[k := if seen == Broken then Refunding else NoCall]
            && Reached(sg, end,
                 match seen
                 case Success =>
                   Outcome(op.(state := Completed, internalApplied := true),
                           OutboxEvent(EventProcessed, false, tried), op.mass, points)
                 case Retryable => Outcome(op.(state := Queued), OutboxEvent(EventPending, false, tried), 0, points)
                 case Rejected => Outcome(op.(state := Failed), OutboxEvent(EventDeadLetter, false, tried), 0, points)
                 case Ambiguous =>
                   Outcome(op.(state := ReconciliationRequired),
                           OutboxEvent(EventReconciliation, false, tried), 0, points)
                 case Broken => Outcome(op, sg.event, 0, points))
  {
    HandledRun(sg, k, applied, seen);
  }

  /** What a purchase comes to, once its request has been answered. */
  ghost function PurchaseOutcome(sg: Saga, write: Transport, read: Transport, committed: bool, points: int)
    : (o: Outcome)
    ensures o.points == points && o.op.player == sg.op.player
  {
    var op, tried := sg.op, sg.event.attempts;
    if PutOff(write, read)
    then Outcome(op.(state := Queued), OutboxEvent(EventPending, false, tried), 0, points)
    else if TurnedAway(write, read)
    then Outcome(op.(state := Failed), OutboxEvent(EventDeadLetter, false, tried), 0, points)
    else if committed && Settles(write, read, true)
    then Outcome(op.(state := Completed, internalApplied := true),
                 OutboxEvent(EventProcessed, false, tried), op.mass, points)
    else if Uncertain(write)
    then Outcome(op.(state := ReconciliationRequired),
                 OutboxEvent(EventReconciliation, false, tried), 0, points)
    else Outcome(op, sg.event, 0, points)
  }

  lemma PurchaseAnswered(sg: Saga, k: nat, write: Transport, read: Transport, committed: bool, applied: bool)
    requires sg.op.kind == Buy && CallAt(sg, k) == Running(Requester) && OthersWait(sg, k)
    ensures var end := Run(sg, [Answer(k, applied, RequestSeen(write, read, committed)), Handle(k)]);
            var broken := Settles(write, read, false) || (!committed && Settles(write, read, true));
            && end.calls == sg.calls[k := if broken then Refunding else NoCall]
            && Reached(sg, end, PurchaseOutcome(sg, write, read, committed, if applied then 0 - sg.op.points else 0))
  {
    RequestClasses(write, read, committed);
    PurchaseRun(sg, k, applied, RequestSeen(write, read, committed));
  }

  /** A purchase: turned away it fails, and a local failure after a confirmed
    * write leaves the rows alone and goes on to the refund.
    */
  lemma PurchaseExchange(l: Ledger, i: nat, k: nat, write: Transport, read: Transport, committed: bool, applied: bool)
    requires Inv(l) && i < |l.sagas| && l.sagas[i].op.kind == Buy && k < |l.sagas[i].calls|
    requires l.sagas[i].calls[k] == Running(Requester) && OthersWait(l.sagas[i], k)
    ensures var sg, end := l.sagas[i], RunAll(l, Ats(i, [Answer(k, applied, RequestSeen(write, read, committed)),
                                                         Handle(k)]));
            var points := if applied then 0 - sg.op.points else 0;
            var broken := Settles(write, read, false) || (!committed && Settles(write, read, true));
            && |end.sagas| == |l.sagas| && end.sagas[i].calls == sg.calls[k := if broken then Refunding else NoCall]
            && Ends(l, end, i, PurchaseOutcome(sg, write, read, committed, points))
  {
    PurchaseAnswered(l.sagas[i], k, write, read, committed, applied);
    RunEnds(l, i, [Answer(k, applied, RequestSeen(write, read, committed)), Handle(k)]);
  }

  lemma RefundRun(sg: Saga, k: nat, applied: bool, confirmed: bool)
    requires sg.op.kind == Buy && CallAt(sg, k) == Refunding && OthersWait(sg, k)
    ensures var op, tried, points := sg.op, sg.event.attempts, if applied then sg.op.points else 0;
            var end := Run(sg, [RefundAnswer(k, applied, confirmed), HandleRefund(k)]);
            && end.calls == sg.calls[k := NoCall]
            && Reached(sg, end,
                 if confirmed
                 then Outcome(op.(state := Compensated), OutboxEvent(EventCompensated, false, tried), 0, points)
                 else Outcome(op.(state := ReconciliationRequired),
                              OutboxEvent(EventReconciliation, false, tried), 0, points))
  {
    WaitsIff(sg, k);
    RunTwo(sg, RefundAnswer(k, applied, confirmed), HandleRefund(k));
  }

  /** Its refund: only one that was sent and confirmed closes the purchase. */
  lemma RefundExchange(l: Ledger, i: nat, k: nat, read: Transport, write: Transport, applied: bool)
    requires Inv(l) && i < |l.sagas| && l.sagas[i].op.kind == Buy && k < |l.sagas[i].calls|
    requires l.sagas[i].calls[k] == Refunding && OthersWait(l.sagas[i], k)
    ensures var sg := l.sagas[i];
            var op, tried, points := sg.op, sg.event.attempts, if applied then sg.op.points else 0;
            var end := RunAll(l, Ats(i, [RefundAnswer(k, applied, RefundConfirmed(read, write, op.points)),
                                         HandleRefund(k)]));
            && |end.sagas| == |l.sagas| && end.sagas[i].calls == sg.calls[k := NoCall]
            && Ends(l, end, i,
                 if WorkerSettles(write) && exists n :: Finds(read, n) && RoomFor(n, false, op.points)
                 then Outcome(op.(state := Compensated), OutboxEvent(EventCompensated, false, tried), 0, points)
                 else Outcome(op.(state := ReconciliationRequired),
                              OutboxEvent(EventReconciliation, false, tried), 0, points))
  {
    var points := l.sagas[i].op.points;
    RefundConfirmedIff(read, write, points);
    RefundRun(l.sagas[i], k, applied, RefundConfirmed(read, write, points));
    RunEnds(l, i, [RefundAnswer(k, applied, RefundConfirmed(read, write, points)), HandleRefund(k)]);
  }

  // ---- the worker ----------------------------------------------------------

  /** Given up: a sale is refunded unless that was done before, anything else
    * has failed.
    */
  function GivenUp(op: Operation, refunded: bool, tried: nat, points: int): Outcome
  {
    if op.kind == Sell
    then Outcome(op.(state := Compensated, compensated := op.compensated || !refunded),
                 OutboxEvent(EventDeadLetter, false, tried), if refunded then 0 else op.mass, points)
    else Outcome(op.(state := Failed), OutboxEvent(EventDeadLetter, false, tried), 0, points)
  }

  /** Once more, unless this was the eighth time. */
  function TriedAgain(op: Operation, tried: nat, points: int): Outcome
  {
    if tried + 1 < 8
    then Outcome(op.(state := Pending), OutboxEvent(EventPending, false, tried + 1), 0, points)
    else GivenUp(op, op.compensated, tried + 1, points)
  }

  function PointsDue(op: Operation): int
  {
    match op.kind
    case Sell => op.points
    case Buy => 0 - op.points
    case Reward => op.points
  }

  /** What an answer comes to, by its class. */
  function Worked(op: Operation, granting: bool, tried: nat, seen: Seen, points: int): Outcome
  {
    match seen
    case Success =>
      Outcome(op.(state := Completed, internalApplied := op.internalApplied || granting),
              OutboxEvent(EventProcessed, false, tried), if granting then op.mass else 0, points)
    case Retryable => TriedAgain(op, tried, points)
    case Rejected => GivenUp(op, op.compensated, tried, points)
    case _ =>
      Outcome(op.(state := ReconciliationRequired), OutboxEvent(EventReconciliation, false, tried), 0, points)
  }

  lemma WorkOutcome(sg: Saga, granted: bool, seen: Seen)
    ensures var end := HandleWork(sg, granted, seen);
            && end.calls == sg.calls
            && Reached(sg, end, Worked(sg.op, sg.op.kind == Buy && !granted, sg.event.attempts, seen, 0))
  {
  }

  lemma WorkRun(sg: Saga, k: nat, applied: bool, seen: Seen)
    requires Answerable(CallAt(sg, k), applied, seen) && OthersWait(sg, k) && sg.calls[k].actor.Worker?
    ensures var end := Run(sg, [Answer(k, applied, seen), Handle(k)]);
            && end.calls == sg.calls[k := NoCall]
            && Reached(sg, end, Worked(sg.op, sg.op.kind == Buy && !sg.calls[k].actor.granted, sg.event.attempts, seen,
                                       if applied then PointsDue(sg.op) else 0))
  {
    HandledRun(sg, k, applied, seen);
    WorkOutcome(Next(sg, Answer(k, applied, seen)), sg.calls[k].actor.granted, seen);
  }

  /** The worker's write, by the timestamps loaded with the claim. */
  lemma WorkerExchange(l: Ledger, i: nat, k: nat, write: Transport, committed: bool, applied: bool)
    requires Inv(l) && i < |l.sagas| && k < |l.sagas[i].calls|
    requires l.sagas[i].calls[k].Writing? && l.sagas[i].calls[k].actor.Worker? && OthersWait(l.sagas[i], k)
    ensures var sg := l.sagas[i];
            var end := RunAll(l, Ats(i, [Answer(k, applied, WorkerSeen(write, committed)), Handle(k)]));
            var op, tried, points := sg.op, sg.event.attempts, if applied then PointsDue(sg.op) else 0;
            var granting := op.kind == Buy && !sg.calls[k].actor.granted;
            && |end.sagas| == |l.sagas| && end.sagas[i].calls == sg.calls[k := NoCall]
            && Ends(l, end, i,
                 if NotSent(write) then TriedAgain(op, tried, points)
                 else if committed && WorkerSettles(write)
                 then Outcome(op.(state := Completed, internalApplied := op.internalApplied || granting),
                              OutboxEvent(EventProcessed, false, tried), if granting then op.mass else 0, points)
                 else if Uncertain(write) || WorkerSettles(write)
                 then Outcome(op.(state := ReconciliationRequired),
                              OutboxEvent(EventReconciliation, false, tried), 0, points)
                 else GivenUp(op, op.compensated, tried, points))
  {
    var seen := WorkerSeen(write, committed);
    WorkerClasses(write, committed);
    WorkRun(l.sagas[i], k, applied, seen);
    RunEnds(l, i, [Answer(k, applied, seen), Handle(k)]);
  }

  /** A balance read that forbids the write: it is tried again only when the read
    * was not sent.
    */
  lemma WorkerTurnsBack(l: Ledger, i: nat, k: nat, read: Transport)
    requires Inv(l) && i < |l.sagas| && k < |l.sagas[i].calls|
    requires l.sagas[i].calls[k].Running? && l.sagas[i].calls[k].actor.Worker? && OthersWait(l.sagas[i], k)
    requires WorkerReadSeen(read, l.sagas[i].op.kind == Buy, l.sagas[i].op.points).Some?
    ensures var sg := l.sagas[i];
            var op, tried := sg.op, sg.event.attempts;
            var seen := WorkerReadSeen(read, op.kind == Buy, op.points).value;
            var end := RunAll(l, Ats(i, [Answer(k, false, seen), Handle(k)]));
            && |end.sagas| == |l.sagas| && end.sagas[i].calls == sg.calls[k := NoCall]
            && (forall n :: Finds(read, n) ==> !RoomFor(n, op.kind == Buy, op.points))
            && Ends(l, end, i,
                    if NotSent(read) then TriedAgain(op, tried, 0) else GivenUp(op, op.compensated, tried, 0))
  {
    var op := l.sagas[i].op;
    var seen := WorkerReadSeen(read, op.kind == Buy, op.points).value;
    WorkerReadClasses(read, op.kind == Buy, op.points);
    WorkRun(l.sagas[i], k, false, seen);
    RunEnds(l, i, [Answer(k, false, seen), Handle(k)]);
  }

  lemma ClaimRun(sg: Saga)
    requires sg.event.state == EventPending && AllWait(sg)
    ensures var n := |sg.calls|;
            Run(sg, [Claim, Write(n)]) ==
            sg.(op := sg.op.(state := Processing), event := OutboxEvent(EventProcessing, true, sg.event.attempts),
                calls := sg.calls + [Writing(Worker(sg.op.internalApplied, sg.op.compensated))])
  {
    WaitsIff(sg, |sg.calls|);
    RunTwo(sg, Claim, Write(|sg.calls|));
  }

  /** A waiting event is claimed under a lease, and the write may begin. The
    * worker keeps the timestamps as they were at the claim.
    */
  lemma ClaimBegins(l: Ledger, i: nat)
    requires Inv(l) && i < |l.sagas| && l.sagas[i].event.state == EventPending && AllWait(l.sagas[i])
    ensures var sg, n, end := l.sagas[i], |l.sagas[i].calls|, RunAll(l, Ats(i, [Claim, Write(|l.sagas[i].calls|)]));
            && |end.sagas| == |l.sagas|
            && end.sagas[i].calls == sg.calls + [Writing(Worker(sg.op.internalApplied, sg.op.compensated))]
            && Ends(l, end, i, Outcome(sg.op.(state := Processing),
                                       OutboxEvent(EventProcessing, true, sg.event.attempts), 0, 0))
  {
    ClaimRun(l.sagas[i]);
    RunEnds(l, i, [Claim, Write(|l.sagas[i].calls|)]);
  }

  /** A single step of an operation. */
  lemma StepEnds(l: Ledger, i: nat, ev: Local)
    requires Inv(l) && i < |l.sagas|
    ensures var end := Step(l, At(i, ev)); |end.sagas| == |l.sagas| && end.sagas[i] == One(l.sagas[i], ev)
    ensures forall o :: Reached(l.sagas[i], One(l.sagas[i], ev), o) ==> Ends(l, Step(l, At(i, ev)), i, o)
    ensures !Enabled(l.sagas[i], ev) ==> Step(l, At(i, ev)) == l
  {
    if Enabled(l.sagas[i], ev) {
      var next := Next(l.sagas[i], ev);
      SoundStep(l.sagas[i], ev);
      forall o | Reached(l.sagas[i], next, o) ensures Ends(l, Put(l, i, next), i, o) {
        PutEnds(l, i, next, o);
      }
    } else {
      PutSame(l, i);
      forall o | Reached(l.sagas[i], l.sagas[i], o) ensures Ends(l, l, i, o) {
        PutEnds(l, i, l.sagas[i], o);
      }
    }
  }

  function Waiting(sg: Saga): Outcome
  {
    Outcome(sg.op.(state := ReconciliationRequired), OutboxEvent(EventReconciliation, false, sg.event.attempts), 0, 0)
  }

  /** An expired lease leaves the operation to an administrator. */
  lemma RecoveryEnds(l: Ledger, i: nat)
    requires Inv(l) && i < |l.sagas| && AllWait(l.sagas[i])
    ensures var sg, end := l.sagas[i], Step(l, At(i, RecoverLease));
            if sg.event.state == EventProcessing
            then Ends(l, end, i, Waiting(sg)) && end.sagas[i].calls == sg.calls
            else end == l
  {
    WaitsIff(l.sagas[i], 0);
    StepEnds(l, i, RecoverLease);
  }

  /** So does a provider channel that was replaced; an integration that is gone
    * gives the operation up.
    */
  lemma DeclineEnds(l: Ledger, i: nat, mismatch: bool)
    requires Inv(l) && i < |l.sagas| && AllWait(l.sagas[i])
    ensures var sg, end := l.sagas[i], Step(l, At(i, Decline(mismatch)));
            if sg.event.state == EventPending
            then Ends(l, end, i, if mismatch then Waiting(sg)
                                 else GivenUp(sg.op, sg.op.compensated, sg.event.attempts, 0))
            else end == l
  {
    WaitsIff(l.sagas[i], 0);
    StepEnds(l, i, Decline(mismatch));
  }

  /** A credential that cannot be read gives the operation up, by the timestamp
    * loaded with the claim.
    */
  lemma UnreadableEnds(l: Ledger, i: nat, k: nat)
    requires Inv(l) && i < |l.sagas| && k < |l.sagas[i].calls| && OthersWait(l.sagas[i], k)
    requires l.sagas[i].calls[k].Running? && l.sagas[i].calls[k].actor.Worker?
    ensures var sg, end := l.sagas[i], Step(l, At(i, Unreadable(k)));
            && |end.sagas| == |l.sagas| && end.sagas[i].calls == sg.calls[k := NoCall]
            && Ends(l, end, i, GivenUp(sg.op, sg.calls[k].actor.refunded, sg.event.attempts, 0))
  {
    WaitsIff(l.sagas[i], k);
    StepEnds(l, i, Unreadable(k));
  }

  /** A crash leaves the rows as they are, whatever the process was doing. */
  lemma CrashEnds(l: Ledger, i: nat, k: nat)
    requires Inv(l) && i < |l.sagas| && k < |l.sagas[i].calls| && l.sagas[i].calls[k] != NoCall
    ensures var sg, end := l.sagas[i], Step(l, At(i, Crash(k)));
            && |end.sagas| == |l.sagas| && end.sagas[i].calls == sg.calls[k := NoCall]
            && Ends(l, end, i, Outcome(sg.op, sg.event, 0, 0))
  {
    StepEnds(l, i, Crash(k));
  }

  // ---- the administrator ---------------------------------------------------

  /** Only what waits for a decision is decided. */
  lemma RetryEnds(l: Ledger, i: nat)
    requires Inv(l) && i < |l.sagas| && AllWait(l.sagas[i])
    ensures var sg, end := l.sagas[i], Step(l, At(i, Retry));
            if sg.event.state == EventReconciliation
            then Ends(l, end, i, Outcome(sg.op.(state := Pending),
                                         OutboxEvent(EventPending, false, sg.event.attempts), 0, 0))
            else end == l
  {
    WaitsIff(l.sagas[i], 0);
    StepEnds(l, i, Retry);
  }

  /** A purchase is granted unless it was before. */
  lemma CompleteEnds(l: Ledger, i: nat)
    requires Inv(l) && i < |l.sagas| && AllWait(l.sagas[i])
    ensures var op, end := l.sagas[i].op, Step(l, At(i, Complete));
            var granting := op.kind == Buy && !op.internalApplied;
            if l.sagas[i].event.state == EventReconciliation
            then Ends(l, end, i, Outcome(op.(state := Completed, internalApplied := op.internalApplied || granting),
                                         OutboxEvent(EventProcessed, false, l.sagas[i].event.attempts),
                                         if granting then op.mass else 0, 0))
            else end == l
  {
    WaitsIff(l.sagas[i], 0);
    StepEnds(l, i, Complete);
  }

  /** Only a sale can be given back, once. */
  lemma CompensateEnds(l: Ledger, i: nat)
    requires Inv(l) && i < |l.sagas| && AllWait(l.sagas[i])
    ensures var op, end := l.sagas[i].op, Step(l, At(i, Compensate));
            if l.sagas[i].event.state == EventReconciliation && op.kind == Sell
            then Ends(l, end, i, Outcome(op.(state := Compensated, compensated := true),
                                         OutboxEvent(EventCompensated, false, l.sagas[i].event.attempts),
                                         if op.compensated then 0 else op.mass, 0))
            else end == l
  {
    WaitsIff(l.sagas[i], 0);
    StepEnds(l, i, Compensate);
  }

  lemma DeadLetterEnds(l: Ledger, i: nat)
    requires Inv(l) && i < |l.sagas| && AllWait(l.sagas[i])
    ensures var sg, end := l.sagas[i], Step(l, At(i, DeadLetter));
            if sg.event.state == EventReconciliation
            then Ends(l, end, i, Outcome(sg.op.(state := DeadLettered),
                                         OutboxEvent(EventDeadLetter, false, sg.event.attempts), 0, 0))
            else end == l
  {
    WaitsIff(l.sagas[i], 0);
    StepEnds(l, i, DeadLetter);
  }

  /** While a worker writes or has its write confirmed, and while a purchase is
    * being refunded, nobody else writes the rows.
    */
  lemma LockExcludes(l: Ledger, i: nat, k: nat, ev: Local)
    requires i < |l.sagas| && k < |l.sagas[i].calls| && !Waits(l.sagas[i].calls[k])
    requires ev.Write? || ev.Handle? || ev.HandleRefund? || ev.Unreadable? ==> ev.k != k
    requires !ev.Answer? && !ev.RefundAnswer? && !ev.Crash?
    ensures Step(l, At(i, ev)) == l
  {
    assert Holds(l.sagas[i].calls[k]);
  }

  /** Nothing is handled that was not answered, no call is answered twice, a
    * worker gets no answer to a write it has not begun, and only a waiting event
    * is claimed.
    */
  lemma OutOfTurn(l: Ledger, i: nat, k: nat, ev: Local)
    requires i < |l.sagas|
    requires var call := if k < |l.sagas[i].calls| then l.sagas[i].calls[k] else NoCall;
             match ev
             case Handle(j) => j == k && !call.Answered?
             case HandleRefund(j) => j == k && !call.RefundAnswered?
             case RefundAnswer(j, _, _) => j == k && !call.Refunding?
             case Write(j) => j == k && !(call.Running? && call.actor.Worker?)
             case Unreadable(j) => j == k && !(call.Running? && call.actor.Worker?)
             case Crash(j) => j == k && call == NoCall
             case Answer(j, applied, seen) =>
               j == k && ((!call.Running? && !call.Writing?) ||
                          (call.Running? && call.actor.Worker? && (applied || seen == Success || seen == Ambiguous)))
             case Claim => l.sagas[i].event.state != EventPending
             case _ => false
    ensures Step(l, At(i, ev)) == l
  {
  }

  /** An operation is active exactly while its event is open. */
  lemma ActiveIff(sg: Saga)
    requires Sound(sg)
    ensures Active(sg.op.state) <==> sg.event.state.EventPending? || sg.event.state.EventProcessing? ||
                                     sg.event.state.EventReconciliation?
  {
  }

  // ---- the eighth attempt --------------------------------------------------

  /** The event is claimed, and the write is not let through. */
  function Round(n: nat, write: Transport): seq<Local>
  {
    [Claim, Write(n)] + [Answer(n, false, WorkerSeen(write, true)), Handle(n)]
  }

  /** Again and again. */
  function Rounds(n: nat, writes: seq<Transport>): seq<Local>
    decreases |writes|
  {
    if writes == [] then [] else Round(n, writes[0]) + Rounds(n + 1, writes[1..])
  }

  lemma RoundRun(sg: Saga, write: Transport)
    requires sg.event.state == EventPending && AllWait(sg) && NotSent(write)
    ensures var end := Run(sg, Round(|sg.calls|, write));
            end.calls == sg.calls + [NoCall] && Reached(sg, end, TriedAgain(sg.op, sg.event.attempts, 0))
  {
    var n := |sg.calls|;
    ClaimRun(sg);
    WorkerClasses(write, true);
    WorkRun(Run(sg, [Claim, Write(n)]), n, false, Retryable);
    RunOn(sg, [Claim, Write(n)], [Answer(n, false, Retryable), Handle(n)]);
  }

  /** Seven times at most it waits for the next try. */
  lemma {:induction false} RoundsRun(sg: Saga, writes: seq<Transport>)
    requires sg.event.state == EventPending && AllWait(sg) && forall w :: w in writes ==> NotSent(w)
    requires writes != [] && sg.event.attempts + |writes| <= 8
    ensures var tried, end := sg.event.attempts + |writes|, Run(sg, Rounds(|sg.calls|, writes));
            Reached(sg, end,
              if tried < 8 then Outcome(sg.op.(state := Pending), OutboxEvent(EventPending, false, tried), 0, 0)
              else GivenUp(sg.op, sg.op.compensated, 8, 0))
    decreases |writes|
  {
    var n, next := |sg.calls|, Run(sg, Round(|sg.calls|, writes[0]));
    RoundRun(sg, writes[0]);
    RunOn(sg, Round(n, writes[0]), Rounds(n + 1, writes[1..]));
    if |writes| > 1 {
      RoundsRun(next, writes[1..]);
    }
  }

  /** An operation that is never let through is tried eight times, and then given
    * up: its mass has come back, if it is a sale that was not refunded before.
    */
  lemma GivesUpAtTheEighth(l: Ledger, i: nat, writes: seq<Transport>)
    requires Inv(l) && i < |l.sagas| && AllWait(l.sagas[i])
    requires l.sagas[i].event.state == EventPending && l.sagas[i].event.attempts == 0
    requires 0 < |writes| <= 8 && forall w :: w in writes ==> NotSent(w)
    ensures var sg, end := l.sagas[i], RunAll(l, Ats(i, Rounds(|l.sagas[i].calls|, writes)));
            Ends(l, end, i,
                 if |writes| < 8
                 then Outcome(sg.op.(state := Pending), OutboxEvent(EventPending, false, |writes|), 0, 0)
                 else GivenUp(sg.op, sg.op.compensated, 8, 0))
  {
    RoundsRun(l.sagas[i], writes);
    RunEnds(l, i, Rounds(|l.sagas[i].calls|, writes));
  }

  // ---- where conversions begin ---------------------------------------------

  /** The balance read is one, the key is new, and nothing of the player's is open. */
  predicate Admitted(l: Ledger, key: Key, player: PlayerId, read: int)
  {
    && player in l.mass && InPointsRange(read)
    && forall j :: 0 <= j < |l.sagas| ==>
         && l.sagas[j].op.key != key
         && (l.sagas[j].op.player == player ==>
               var event := l.sagas[j].event.state;
               event == EventProcessed || event == EventCompensated || event == EventDeadLetter)
  }

  lemma AdmittedIff(l: Ledger, key: Key, player: PlayerId, read: int)
    requires Inv(l)
    ensures Admitted(l, key, player, read) <==> MayConvert(l, key, player, read)
  {
    forall j | 0 <= j < |l.sagas|
      ensures Active(l.sagas[j].op.state) <==>
              !(l.sagas[j].event.state in {EventProcessed, EventCompensated, EventDeadLetter})
    {
      ActiveIff(l.sagas[j]);
    }
  }

  /** Anybody else is turned away, and nothing changes. */
  lemma TurnedAwayAtTheDoor(l: Ledger, key: Key, player: PlayerId, want: Argument, s: Settings, read: int)
    requires Inv(l) && !Admitted(l, key, player, read)
    ensures Step(l, SellFish(key, player, want, s, read)) == l == Step(l, BuyFish(key, player, want, s, read))
  {
    AdmittedIff(l, key, player, read);
  }

  /** One new operation, of this player and under this key, with its outbox row;
    * nobody's points have moved, and nobody else's mass.
    */
  predicate Begins(was: Ledger, l: Ledger, o: Outcome, calls: seq<Call>)
  {
    var n, p := |was.sagas|, o.op.player;
    && |l.sagas| == n + 1 && l.sagas[..n] == was.sagas
    && l.sagas[n].op == o.op && l.sagas[n].event == o.event && l.sagas[n].calls == calls
    && p in was.mass && was.mass[p] + o.mass >= 0 && l.mass == was.mass[p := was.mass[p] + o.mass]
    && l.balance == was.balance && l.other == was.other && l.external == was.external
  }

  function NewOperation(key: Key, kind: Kind, player: PlayerId, mass: nat, points: nat, rate: nat, state: OpState)
    : Operation
  {
    Operation(key, kind, player, mass, points, rate, state, false, false)
  }

  /** A priced sale takes the mass together with the rows under a lease, and one
    * over the cap is only recorded.
    */
  lemma SaleBegins(l: Ledger, key: Key, player: PlayerId, want: Argument, s: Settings, read: int)
    requires Inv(l) && Admitted(l, key, player, read)
    ensures var q, end := SellQuote(want, l.mass[player], s, read), Step(l, SellFish(key, player, want, s, read));
            match q
            case Refused(_) => end == l
            case OverCap(mass, points) =>
              Begins(l, end, Outcome(NewOperation(key, Sell, player, mass, points, s.sellRate, Failed),
                                     OutboxEvent(EventDeadLetter, false, 0), 0, 0), [])
            case Priced(mass, points) =>
              Begins(l, end, Outcome(NewOperation(key, Sell, player, mass, points, s.sellRate, Processing),
                                     OutboxEvent(EventProcessing, true, 0), 0 - mass, 0), [Running(Requester)])
  {
    AdmittedIff(l, key, player, read);
    assert l.mass == l.mass[player := l.mass[player]];
  }

  lemma PurchaseBegins(l: Ledger, key: Key, player: PlayerId, want: Argument, s: Settings, read: int)
    requires Inv(l) && Admitted(l, key, player, read)
    ensures var q, end := BuyQuote(want, s, read), Step(l, BuyFish(key, player, want, s, read));
            match q
            case Refused(_) => end == l
            case OverCap(mass, _) =>
              Begins(l, end, Outcome(NewOperation(key, Buy, player, mass, 0, s.buyRate, Failed),
                                     OutboxEvent(EventDeadLetter, false, 0), 0, 0), [])
            case Priced(mass, points) =>
              Begins(l, end, Outcome(NewOperation(key, Buy, player, mass, points, s.buyRate, ExternalPending),
                                     OutboxEvent(EventProcessing, true, 0), 0, 0), [Running(Requester)])
  {
    AdmittedIff(l, key, player, read);
    assert l.mass == l.mass[player := l.mass[player]];
  }

  /** A reward waits for the worker, whatever else the player has open. */
  lemma RewardBegins(l: Ledger, key: Key, player: PlayerId, points: nat)
    requires Inv(l)
    ensures var end := Step(l, QueueReward(key, player, points));
            if player in l.mass && forall j :: 0 <= j < |l.sagas| ==> l.sagas[j].op.key != key
            then Begins(l, end, Outcome(NewOperation(key, Reward, player, 0, points, 0, Pending),
                                        OutboxEvent(EventPending, false, 0), 0, 0), [])
            else end == l
  {
    if player in l.mass {
      assert l.mass == l.mass[player := l.mass[player]];
    }
  }

  /** The rest of the game changes a mass, though never below zero, and the
    * provider a balance; what really changed is booked beside it.
    */
  lemma OtherSources(l: Ledger, player: PlayerId, delta: int)
    requires SamePlayers(l) && player in l.mass
    ensures var end, after := Step(l, OtherMass(player, delta)), l.mass[player] + delta;
            && end == l.(mass := end.mass, other := end.other)
            && end.mass == l.mass[player := if after < 0 then 0 else after]
            && end.other == l.other[player := l.other[player] + if after < 0 then 0 - l.mass[player] else delta]
    ensures Step(l, OtherPoints(player, delta)) ==
            l.(balance := l.balance[player := l.balance[player] + delta],
               external := l.external[player := l.external[player] + delta])
  {
  }

  // ---- from the command to its end -----------------------------------------

  /** One player's mass and points have changed by this much, nobody else's. */
  predicate Changed(was: Ledger, l: Ledger, player: PlayerId, mass: int, points: int)
  {
    && player in was.mass && l.mass.Keys == was.mass.Keys && l.balance.Keys == was.balance.Keys
    && (forall p :: p in was.mass ==> l.mass[p] == was.mass[p] + if p == player then mass else 0)
    && (forall p :: p in was.balance ==> l.balance[p] == was.balance[p] + if p == player then points else 0)
  }

  lemma BegunEnds(l: Ledger, begun: Ledger, end: Ledger, first: Outcome, calls: seq<Call>, o: Outcome)
    requires Begins(l, begun, first, calls) && Ends(begun, end, |l.sagas|, o) && o.op.player == first.op.player
    ensures var p := first.op.player;
            && |end.sagas| == |l.sagas| + 1 && end.sagas[|l.sagas|].op == o.op && end.sagas[|l.sagas|].event == o.event
            && Changed(l, end, p, first.mass + o.mass, o.points)
  {
  }

  /** A sale that has begun, and what its request made of the answer. */
  lemma BegunSaleEnds(l: Ledger, begun: Ledger, end: Ledger, op: Operation, write: Transport, read: Transport,
                      committed: bool, points: int)
    requires Begins(l, begun, Outcome(op, OutboxEvent(EventProcessing, true, 0), 0 - op.mass, 0), [Running(Requester)])
    requires Ends(begun, end, |l.sagas|, SaleOutcome(begun.sagas[|l.sagas|], write, read, committed, points))
    ensures |end.sagas| == |l.sagas| + 1 && SameTrade(end.sagas[|l.sagas|].op, op)
    ensures Changed(l, end, op.player, if TurnedAway(write, read) then 0 else 0 - op.mass, points)
    ensures end.sagas[|l.sagas|].op.state ==
            if PutOff(write, read) then Queued else if TurnedAway(write, read) then Compensated
            else if committed && Settles(write, read, true) then Completed else ReconciliationRequired
  {
    BegunEnds(l, begun, end, Outcome(op, OutboxEvent(EventProcessing, true, 0), 0 - op.mass, 0), [Running(Requester)],
              SaleOutcome(begun.sagas[|l.sagas|], write, read, committed, points));
  }

  lemma ExactSaleBegins(l: Ledger, key: Key, player: PlayerId, m: nat, s: Settings, balance: nat)
    returns (op: Operation)
    requires Inv(l) && Admitted(l, key, player, balance)
    requires var mass := Min(Min(m, l.mass[player]), s.maxMass);
             s.minMass <= mass && 1_000_000 <= mass * s.sellRate < (2_147_483_648 - balance) * 1_000_000
    ensures op.key == key && op.kind == Sell && op.player == player && op.rate == s.sellRate
    ensures op.mass == Min(Min(m, l.mass[player]), s.maxMass)
    ensures op.points * 1_000_000 <= Min(Min(m, l.mass[player]), s.maxMass) * s.sellRate < (op.points + 1) * 1_000_000
    ensures var begun := Step(l, SellFish(key, player, Exact(m), s, balance));
            && Inv(begun) && Begins(l, begun, Outcome(op, OutboxEvent(EventProcessing, true, 0), 0 - op.mass, 0),
                                    [Running(Requester)])
  {
    SellExactIff(m, l.mass[player], s, balance);
    SaleBegins(l, key, player, Exact(m), s, balance);
    InvStep(l, SellFish(key, player, Exact(m), s, balance));
    var q := SellQuote(Exact(m), l.mass[player], s, balance);
    op := NewOperation(key, Sell, player, q.mass, q.points, s.sellRate, Processing);
  }

  /** The whole of `sell_fish` for an exact mass that is priced: what was asked,
    * or is held, or may pass, has left the player, and is back exactly when the
    * provider turned the credit away. Put off, it stays with the operation.
    */
  lemma SellFishEnds(l: Ledger, key: Key, player: PlayerId, m: nat, s: Settings, balance: nat,
                     write: Transport, read: Transport, committed: bool, applied: bool)
    requires Inv(l) && Admitted(l, key, player, balance)
    requires var mass := Min(Min(m, l.mass[player]), s.maxMass);
             s.minMass <= mass && 1_000_000 <= mass * s.sellRate < (2_147_483_648 - balance) * 1_000_000
    ensures var n, mass, begun := |l.sagas|, Min(Min(m, l.mass[player]), s.maxMass),
                                  Step(l, SellFish(key, player, Exact(m), s, balance));
            var end := RunAll(begun, Ats(n, [Answer(0, applied, RequestSeen(write, read, committed)), Handle(0)]));
            && |end.sagas| == n + 1
            && var op := end.sagas[n].op;
               && op.key == key && op.kind == Sell && op.player == player && op.mass == mass && op.rate == s.sellRate
               && op.points * 1_000_000 <= mass * s.sellRate < (op.points + 1) * 1_000_000
               && Changed(l, end, player, if TurnedAway(write, read) then 0 else 0 - mass,
                          if applied then op.points else 0)
               && op.state == if PutOff(write, read) then Queued else if TurnedAway(write, read) then Compensated
                              else if committed && Settles(write, read, true) then Completed
                              else ReconciliationRequired
  {
    var n, begun := |l.sagas|, Step(l, SellFish(key, player, Exact(m), s, balance));
    var op := ExactSaleBegins(l, key, player, m, s, balance);
    SaleExchange(begun, n, 0, write, read, committed, applied);
    BegunSaleEnds(l, begun, RunAll(begun, Ats(n, [Answer(0, applied, RequestSeen(write, read, committed)), Handle(0)])),
                  op, write, read, committed, if applied then op.points else 0);
  }

  lemma BegunPurchaseEnds(l: Ledger, begun: Ledger, end: Ledger, op: Operation, write: Transport, read: Transport,
                          committed: bool, points: int)
    requires Begins(l, begun, Outcome(op, OutboxEvent(EventProcessing, true, 0), 0, 0), [Running(Requester)])
    requires op.state == ExternalPending
    requires Ends(begun, end, |l.sagas|, PurchaseOutcome(begun.sagas[|l.sagas|], write, read, committed, points))
    ensures |end.sagas| == |l.sagas| + 1 && SameTrade(end.sagas[|l.sagas|].op, op)
    ensures Changed(l, end, op.player, if committed && Settles(write, read, true) then op.mass else 0, points)
    ensures end.sagas[|l.sagas|].op.state ==
            if PutOff(write, read) then Queued else if TurnedAway(write, read) then Failed
            else if committed && Settles(write, read, true) then Completed
            else if Uncertain(write) then ReconciliationRequired else ExternalPending
  {
    RequestClasses(write, read, committed);
    BegunEnds(l, begun, end, Outcome(op, OutboxEvent(EventProcessing, true, 0), 0, 0), [Running(Requester)],
              PurchaseOutcome(begun.sagas[|l.sagas|], write, read, committed, points));
  }

  lemma BegunPurchaseAnswered(l: Ledger, begun: Ledger, op: Operation,
                              write: Transport, read: Transport, committed: bool, applied: bool)
    requires Inv(begun) && op.kind == Buy
    requires Begins(l, begun, Outcome(op, OutboxEvent(EventProcessing, true, 0), 0, 0), [Running(Requester)])
    ensures var n, points := |l.sagas|, if applied then 0 - op.points else 0;
            Ends(begun, RunAll(begun, Ats(n, [Answer(0, applied, RequestSeen(write, read, committed)), Handle(0)])), n,
                 PurchaseOutcome(begun.sagas[n], write, read, committed, points))
  {
    PurchaseExchange(begun, |l.sagas|, 0, write, read, committed, applied);
  }

  lemma ExactPurchaseBegins(l: Ledger, key: Key, player: PlayerId, m: nat, s: Settings, balance: nat)
    returns (op: Operation)
    requires Inv(l) && Admitted(l, key, player, balance)
    requires s.minMass <= m <= s.maxMass && 0 < m * s.buyRate <= balance * 1_000_000
    ensures op.key == key && op.kind == Buy && op.player == player && op.mass == m && op.rate == s.buyRate
    ensures op.state == ExternalPending && (op.points - 1) * 1_000_000 < m * s.buyRate <= op.points * 1_000_000
    ensures var begun := Step(l, BuyFish(key, player, Exact(m), s, balance));
            && Inv(begun)
            && Begins(l, begun, Outcome(op, OutboxEvent(EventProcessing, true, 0), 0, 0), [Running(Requester)])
  {
    BuyExactIff(m, s, balance);
    PurchaseBegins(l, key, player, Exact(m), s, balance);
    InvStep(l, BuyFish(key, player, Exact(m), s, balance));
    var q := BuyQuote(Exact(m), s, balance);
    op := NewOperation(key, Buy, player, q.mass, q.points, s.buyRate, ExternalPending);
  }

  /** The whole of `buy_fish` for an exact mass that is priced: it arrives exactly
    * when the provider confirms the debit and the local part commits.
    */
  lemma BuyFishEnds(l: Ledger, key: Key, player: PlayerId, m: nat, s: Settings, balance: nat,
                    write: Transport, read: Transport, committed: bool, applied: bool)
    requires Inv(l) && Admitted(l, key, player, balance)
    requires s.minMass <= m <= s.maxMass && 0 < m * s.buyRate <= balance * 1_000_000
    ensures var n, begun := |l.sagas|, Step(l, BuyFish(key, player, Exact(m), s, balance));
            var end := RunAll(begun, Ats(n, [Answer(0, applied, RequestSeen(write, read, committed)), Handle(0)]));
            && |end.sagas| == n + 1
            && var op := end.sagas[n].op;
               && op.key == key && op.kind == Buy && op.player == player && op.mass == m && op.rate == s.buyRate
               && (op.points - 1) * 1_000_000 < m * s.buyRate <= op.points * 1_000_000
               && Changed(l, end, player, if committed && Settles(write, read, true) then m else 0,
                          if applied then 0 - op.points else 0)
               && op.state == if PutOff(write, read) then Queued else if TurnedAway(write, read) then Failed
                              else if committed && Settles(write, read, true) then Completed
                              else if Uncertain(write) then ReconciliationRequired else ExternalPending
  {
    var n, begun := |l.sagas|, Step(l, BuyFish(key, player, Exact(m), s, balance));
    var op := ExactPurchaseBegins(l, key, player, m, s, balance);
    var end := RunAll(begun, Ats(n, [Answer(0, applied, RequestSeen(write, read, committed)), Handle(0)]));
    var points := if applied then 0 - op.points else 0;
    BegunPurchaseAnswered(l, begun, op, write, read, committed, applied);
    BegunPurchaseEnds(l, begun, end, op, write, read, committed, points);
  }
}
