/** Which transitions of an operation keep all-or-nothing within reach, exactly:
  * the answers of the provider, the decisions of the administrators and the
  * recovery of a lease under a call.
  */
module SagaSafety {
  import opened ProviderClient
  import opened Saga

  predicate Kept(sg: Saga, ev: Local) { Enabled(sg, ev) && Honest(sg, ev) && Harmless(sg, ev) }

  predicate GoodRun(sg: Saga, evs: seq<Local>)
    decreases |evs|
  {
    evs == [] || (Kept(sg, evs[0]) && GoodRun(Next(sg, evs[0]), evs[1..]))
  }

  /** No honest way on from here closes the operation halfway. */
  ghost predicate Safe(sg: Saga)
  {
    forall evs: seq<Local> :: GoodRun(sg, evs) && Closed(Run(sg, evs)) ==> AllOrNothing(Run(sg, evs))
  }

  lemma {:induction false} GoodStays(sg: Saga, evs: seq<Local>)
    requires Good(sg) && GoodRun(sg, evs)
    ensures Good(Run(sg, evs))
    decreases |evs|
  {
    if evs != [] {
      GoodStep(sg, evs[0]);
      GoodStays(Next(sg, evs[0]), evs[1..]);
    }
  }

  lemma GoodIsSafe(sg: Saga)
    requires Good(sg)
    ensures Safe(sg)
  {
    forall evs: seq<Local> | GoodRun(sg, evs) ensures AllOrNothing(Run(sg, evs)) {
      GoodStays(sg, evs);
    }
  }

  // ---- ways to an operation closed halfway ---------------------------------

  lemma UnsafeNow(sg: Saga)
    requires Closed(sg) && !AllOrNothing(sg)
    ensures !Safe(sg)
  {
    assert GoodRun(sg, []) && Run(sg, []) == sg;
  }

  lemma UnsafeBefore(sg: Saga, ev: Local)
    requires Kept(sg, ev) && !Safe(Next(sg, ev))
    ensures !Safe(sg)
  {
    var next := Next(sg, ev);
    var rest :| GoodRun(next, rest) && Closed(Run(next, rest)) && !AllOrNothing(Run(next, rest));
    assert ([ev] + rest)[1..] == rest;
    RunThen(sg, ev, rest);
    assert GoodRun(sg, [ev] + rest);
  }

  /** Only the call with this number may be alive. */
  predicate Alone(sg: Saga, k: nat) { forall j :: 0 <= j < |sg.calls| && j != k ==> sg.calls[j] == NoCall }

  /** An applied write that is tried again and rejected is closed as if it had
    * never been applied.
    */
  lemma RejectedAgain(sg: Saga)
    requires RowsSound(sg) && sg.event.state == EventPending && sg.effects.net == 1 && Idle(sg)
    ensures !Safe(sg)
  {
    var n := |sg.calls|;
    var s1 := Next(sg, Claim);
    var s2 := Next(s1, Answer(n, false, Rejected));
    var s3 := Next(s2, Handle(n));
    UnsafeNow(s3);
    UnsafeBefore(s2, Handle(n));
    UnsafeBefore(s1, Answer(n, false, Rejected));
    UnsafeBefore(sg, Claim);
  }

  /** A write that is still to come, or on its way, while the operation waits for
    * an administrator who sees nothing applied and has it tried again.
    */
  lemma RetriedUnderCall(sg: Saga, k: nat)
    requires RowsSound(sg) && sg.event.state == EventReconciliation && sg.effects.net == 0
    requires CallAt(sg, k).Running? && Alone(sg, k)
    ensures !Safe(sg)
  {
    var s1 := Next(sg, Retry);
    if sg.calls[k].actor.Worker? {
      LostUnderEvent(Next(s1, Write(k)), k);
      UnsafeBefore(s1, Write(k));
    } else {
      LostUnderEvent(s1, k);
    }
    UnsafeBefore(sg, Retry);
  }

  /** The write is applied, its process is lost, and the pending event has it
    * tried again.
    */
  lemma LostUnderEvent(sg: Saga, k: nat)
    requires RowsSound(sg) && sg.event.state == EventPending && sg.effects.net == 0 && Alone(sg, k)
    requires Answerable(CallAt(sg, k), true, Ambiguous)
    ensures !Safe(sg)
  {
    var s1 := Next(sg, Answer(k, true, Ambiguous));
    RejectedAgain(Next(s1, Crash(k)));
    UnsafeBefore(s1, Crash(k));
    UnsafeBefore(sg, Answer(k, true, Ambiguous));
  }

  /** The late handler takes the lease away from the worker that was sent to try
    * again.
    */
  lemma LateHandlerReconciles(sg: Saga, k: nat)
    requires RowsSound(sg) && sg.event.state == EventReconciliation && sg.effects.net == 0 && Alone(sg, k)
    requires match CallAt(sg, k)
             case Answered(actor, seen) => (seen == Ambiguous || seen == Broken) && !GoesOn(sg.op.kind, actor, seen)
             case _ => false
    ensures !Safe(sg)
  {
    var n := |sg.calls|;
    var s1 := Next(sg, Retry);
    var s2 := Next(s1, Claim);
    RetriedUnderCall(Next(s2, Handle(k)), n);
    UnsafeBefore(s2, Handle(k));
    UnsafeBefore(s1, Claim);
    UnsafeBefore(sg, Retry);
  }

  /** The late handler closes, or queues once more, what the worker that was sent
    * to try again has completed.
    */
  lemma LateHandlerUndoes(sg: Saga, k: nat)
    requires RowsSound(sg) && Untouched(sg.op) && sg.event.state == EventReconciliation && sg.effects.net == 0
    requires Alone(sg, k)
    requires match CallAt(sg, k)
             case Answered(_, seen) => seen == Rejected || seen == Retryable
             case _ => false
    ensures !Safe(sg)
  {
    var s1 := Next(sg, Retry);
    TriedUnderHandler(Next(s1, Claim), k, |sg.calls|);
    UnsafeBefore(s1, Claim);
    UnsafeBefore(sg, Retry);
  }

  lemma TriedUnderHandler(sg: Saga, k: nat, n: nat)
    requires RowsSound(sg) && sg.effects.net == 0 && k < n < |sg.calls| && sg.calls[n] == Running(Worker(false, false))
    requires forall j :: 0 <= j < |sg.calls| && j != k && j != n ==> sg.calls[j] == NoCall
    requires match CallAt(sg, k)
             case Answered(_, seen) => seen == Rejected || seen == Retryable
             case _ => false
    ensures !Safe(sg)
  {
    var s1 := Next(sg, Write(n));
    var s2 := Next(s1, Answer(n, true, Success));
    LateHandlerCloses(Next(s2, Handle(n)), k);
    UnsafeBefore(s2, Handle(n));
    UnsafeBefore(s1, Answer(n, true, Success));
    UnsafeBefore(sg, Write(n));
  }

  lemma LateHandlerCloses(sg: Saga, k: nat)
    requires RowsSound(sg) && sg.op.state == Completed && sg.effects.net == 1 && Alone(sg, k)
    requires match CallAt(sg, k)
             case Answered(_, seen) => seen == Rejected || seen == Retryable
             case _ => false
    ensures !Safe(sg)
  {
    var s1 := Next(sg, Handle(k));
    if Active(s1.op.state) {
      RejectedAgain(s1);
    } else {
      UnsafeNow(s1);
    }
    UnsafeBefore(sg, Handle(k));
  }

  /** A purchase granted by an administrator, and then once more by its request
    * or refunded behind the administrator's back.
    */
  lemma GrantedUnderCall(sg: Saga, k: nat)
    requires RowsSound(sg) && Untouched(sg.op) && sg.event.state == EventReconciliation && sg.effects.net == 1
    requires sg.op.kind == Buy && sg.effects.moved == 0 && Alone(sg, k)
    requires CallAt(sg, k) == Answered(Requester, Success) || CallAt(sg, k) == Answered(Requester, Broken)
    ensures !Safe(sg)
  {
    var s1 := Next(sg, Complete);
    var s2 := Next(s1, Handle(k));
    if sg.calls[k].seen == Success {
      UnsafeNow(s2);
    } else {
      RefundedUnderneath(s2, k);
    }
    UnsafeBefore(s1, Handle(k));
    UnsafeBefore(sg, Complete);
  }

  lemma RefundedUnderneath(sg: Saga, k: nat)
    requires RowsSound(sg) && sg.op.kind == Buy && sg.effects.moved == sg.op.mass
    requires Alone(sg, k) && CallAt(sg, k).Refunding?
    ensures !Safe(sg)
  {
    var refund := RefundAnswer(k, true, true);
    var s1 := Next(sg, refund);
    var s2 := Next(s1, HandleRefund(k));
    UnsafeNow(s2);
    UnsafeBefore(s1, HandleRefund(k));
    UnsafeBefore(sg, refund);
  }

  // ---- recovering a lease --------------------------------------------------

  lemma BadRecovery(sg: Saga, k: nat)
    requires Good(sg) && Enabled(sg, RecoverLease) && k < |sg.calls| && !Unhurried(sg, k)
    ensures !Safe(Next(sg, RecoverLease))
  {
    var late := Next(sg, RecoverLease);
    assert Alone(late, k);
    assert CallTrue(sg, sg.calls[k]) && CallFits(sg.op, sg.calls[k]) && !Holds(sg.calls[k]);
    match sg.calls[k]
    case Running(_) => RetriedUnderCall(late, k);
    case Answered(actor, seen) =>
      if sg.effects.net == 1 {
        GrantedUnderCall(late, k);
      } else if seen == Rejected || seen == Retryable {
        LateHandlerUndoes(late, k);
      } else {
        LateHandlerReconciles(late, k);
      }
    case _ =>
  }

  /** A lease may be recovered exactly when every process still inside a call of
    * the operation has had its write applied and will neither refund the provider
    * nor grant the mass of a purchase.
    */
  lemma RecoverySafeIff(sg: Saga)
    requires Good(sg) && Enabled(sg, RecoverLease)
    ensures Safe(Next(sg, RecoverLease)) <==>
            forall k :: 0 <= k < |sg.calls| && sg.calls[k] != NoCall ==>
              && sg.calls[k].Answered? && sg.effects.net == 1
              && !(sg.op.kind == Buy && sg.calls[k].seen == Success)
              && !(sg.op.kind == Buy && sg.calls[k].actor == Requester && sg.calls[k].seen == Broken)
  {
    if forall k :: 0 <= k < |sg.calls| ==> Unhurried(sg, k) {
      GoodStep(sg, RecoverLease);
      GoodIsSafe(Next(sg, RecoverLease));
    } else {
      var k :| 0 <= k < |sg.calls| && !Unhurried(sg, k);
      BadRecovery(sg, k);
    }
  }

  // ---- every transition ----------------------------------------------------

  lemma BadAnswer(sg: Saga, k: nat, applied: bool, seen: Seen)
    requires Good(sg) && Enabled(sg, Answer(k, applied, seen)) && !Honest(sg, Answer(k, applied, seen))
    ensures !Safe(Next(sg, Answer(k, applied, seen)))
  {
    assert CallTrue(sg, sg.calls[k]) && CallFits(sg.op, sg.calls[k]) && !Unhurried(sg, k);
    var s1 := Next(sg, Answer(k, applied, seen));
    assert Alone(s1, k);
    var s2 := Next(s1, Handle(k));
    if seen == Broken {
      RefundedTwice(s2, k);
    } else if Active(s2.op.state) {
      RejectedAgain(s2);
    } else {
      UnsafeNow(s2);
    }
    UnsafeBefore(s1, Handle(k));
  }

  lemma RefundedTwice(sg: Saga, k: nat)
    requires RowsSound(sg) && sg.op.kind == Buy && sg.effects.net == 0 && Alone(sg, k) && CallAt(sg, k).Refunding?
    ensures !Safe(sg)
  {
    var refund := RefundAnswer(k, true, true);
    var s1 := Next(sg, refund);
    var s2 := Next(s1, HandleRefund(k));
    UnsafeNow(s2);
    UnsafeBefore(s1, HandleRefund(k));
    UnsafeBefore(sg, refund);
  }

  lemma BadRefundAnswer(sg: Saga, k: nat, applied: bool, confirmed: bool)
    requires Good(sg) && CallAt(sg, k).Refunding? && !Honest(sg, RefundAnswer(k, applied, confirmed))
    ensures !Safe(Next(sg, RefundAnswer(k, applied, confirmed)))
  {
    assert CallTrue(sg, sg.calls[k]) && !Unhurried(sg, k);
    var s1 := Next(sg, RefundAnswer(k, applied, confirmed));
    var s2 := Next(s1, HandleRefund(k));
    assert Alone(s1, k);
    UnsafeNow(s2);
    UnsafeBefore(s1, HandleRefund(k));
  }

  lemma BadDecision(sg: Saga, ev: Local)
    requires Good(sg) && Enabled(sg, ev) && !Honest(sg, ev) && ev in {Retry, Complete, Compensate, DeadLetter}
    ensures !Safe(Next(sg, ev))
  {
    var s1 := Next(sg, ev);
    if k :| 0 <= k < |sg.calls| && sg.calls[k] != NoCall {
      assert Alone(s1, k);
      BadOnceIdle(sg, ev, Next(s1, Crash(k)));
      UnsafeBefore(s1, Crash(k));
    } else {
      BadOnceIdle(sg, ev, s1);
    }
  }

  lemma BadOnceIdle(sg: Saga, ev: Local, decided: Saga)
    requires Good(sg) && Enabled(sg, ev) && !Honest(sg, ev) && ev in {Retry, Complete, Compensate, DeadLetter}
    requires Idle(decided) && decided == Next(sg, ev).(calls := decided.calls)
    ensures !Safe(decided)
  {
    if ev == Retry {
      RejectedAgain(decided);
    } else {
      UnsafeNow(decided);
    }
  }

  /** After a transition every honest way on that closes the operation is
    * all-or-nothing if and only if the transition was honest and recovered no
    * lease that was still needed.
    */
  lemma SafeIff(sg: Saga, ev: Local)
    requires Good(sg) && Enabled(sg, ev)
    ensures Safe(Next(sg, ev)) <==> Honest(sg, ev) && Harmless(sg, ev)
  {
    if Honest(sg, ev) && Harmless(sg, ev) {
      GoodStep(sg, ev);
      GoodIsSafe(Next(sg, ev));
    } else if ev.RecoverLease? {
      var k :| 0 <= k < |sg.calls| && !Unhurried(sg, k);
      BadRecovery(sg, k);
    } else if ev.Answer? {
      BadAnswer(sg, ev.k, ev.applied, ev.seen);
    } else if ev.RefundAnswer? {
      BadRefundAnswer(sg, ev.k, ev.applied, ev.confirmed);
    } else {
      BadDecision(sg, ev);
    }
  }

  // ---- nothing gets stuck --------------------------------------------------

  /** From every point some honest way on closes the operation, so the
    * guarantees above are not about an empty set of runs.
    */
  ghost predicate CanClose(sg: Saga) { exists evs: seq<Local> :: GoodRun(sg, evs) && Closed(Run(sg, evs)) }

  lemma ClosesAfter(sg: Saga, ev: Local)
    requires Kept(sg, ev) && CanClose(Next(sg, ev))
    ensures CanClose(sg)
  {
    var rest :| GoodRun(Next(sg, ev), rest) && Closed(Run(Next(sg, ev), rest));
    assert ([ev] + rest)[1..] == rest;
    RunThen(sg, ev, rest);
    assert GoodRun(sg, [ev] + rest);
  }

  lemma CanBeClosed(sg: Saga)
    requires Good(sg)
    ensures CanClose(sg)
  {
    if k :| 0 <= k < |sg.calls| && sg.calls[k] != NoCall {
      GoodStep(sg, Crash(k));
      CanBeClosedIdle(Next(sg, Crash(k)));
      ClosesAfter(sg, Crash(k));
    } else {
      CanBeClosedIdle(sg);
    }
  }

  lemma CanBeClosedIdle(sg: Saga)
    requires Good(sg) && Idle(sg)
    ensures CanClose(sg)
  {
    if !Active(sg.op.state) {
      assert GoodRun(sg, []) && Run(sg, []) == sg;
    } else if sg.event.state == EventReconciliation {
      Decided(sg);
    } else {
      var first := if sg.event.state == EventProcessing then RecoverLease else Decline(true);
      GoodStep(sg, first);
      Decided(Next(sg, first));
      ClosesAfter(sg, first);
    }
  }

  lemma Decided(sg: Saga)
    requires Good(sg) && Idle(sg) && sg.event.state == EventReconciliation
    ensures CanClose(sg)
  {
    var last := if sg.effects.net == 1 then Complete else if sg.op.kind == Sell then Compensate else DeadLetter;
    var end := Next(sg, last);
    assert Closed(end) && GoodRun(end, []) && Run(end, []) == end;
    ClosesAfter(sg, last);
  }
}
