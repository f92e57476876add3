/** A scripted provider (`streamelements_stub/main.py`): faults around one
  * points write.
  */
module StubProvider {
  import opened Pricing
  import opened ProviderClient

  datatype Account = Account(channel: int, user: int)

  datatype Step = Delay | Status(code: nat) | Malformed | Drop | ApplyWrite | ExternalMutation(amount: int) | Unknown

  /** What the steps of a script leave behind. `applied` counts the writes, and
    * `written` is the balance after the last of them.
    */
  datatype Run = Run(balance: int, status: nat, malformed: bool, drop: bool, applied: nat, written: int, raised: bool)

  // ---- on values -----------------------------------------------------------

  predicate InRange(balance: int) { 0 <= balance <= POINTS_MAX }

  function RunStep(r: Run, step: Step, amount: int): Run
  {
    if r.raised then r else
    match step
    case Status(code) => r.(status := code)
    case Malformed => r.(malformed := true)
    case Drop => r.(drop := true)
    case ApplyWrite =>
      if InRange(r.balance + amount)
      then r.(balance := r.balance + amount, applied := r.applied + 1, written := r.balance + amount)
      else r.(raised := true)
    case ExternalMutation(n) =>
      if InRange(r.balance + n) then r.(balance := r.balance + n) else r.(raised := true)
    case _ => r
  }

  function RunSteps(balance: int, steps: seq<Step>, amount: int): Run
  {
    if steps == [] then Run(balance, 0, false, false, 0, 0, false)
    else RunStep(RunSteps(balance, steps[..|steps| - 1], amount), steps[|steps| - 1], amount)
  }

  /** The balance and the reply after a write, and how often it was applied. */
  function Put(balance: int, steps: seq<Step>, amount: int): (int, Transport, nat)
  {
    var r := RunSteps(balance, steps, amount);
    var after := if r.applied > 0 then r.written else r.balance + amount;
    if r.raised then (r.balance, Response(400, Json(Missing)), r.applied)
    else if r.drop then (r.balance, Response(502, Json(Missing)), r.applied)
    else if r.status != 0 then (r.balance, Response(r.status, Json(Missing)), r.applied)
    else if r.applied == 0 && !InRange(after) then (r.balance, Response(400, Json(Missing)), r.applied)
    else
      var body := Json(if r.malformed then Missing else Number(after));
      if r.applied > 0 then (r.balance, Response(200, body), r.applied) else (after, Response(200, body), 1)
  }

  // ---- a script by its shape -----------------------------------------------

  function Writes(steps: seq<Step>): nat
  {
    if steps == [] then 0 else Writes(steps[..|steps| - 1]) + if steps[|steps| - 1].ApplyWrite? then 1 else 0
  }

  function External(steps: seq<Step>): int
  {
    if steps == [] then 0 else
    External(steps[..|steps| - 1]) + if steps[|steps| - 1].ExternalMutation? then steps[|steps| - 1].amount else 0
  }

  function LastStatus(steps: seq<Step>): nat
  {
    if steps == [] then 0 else
    if steps[|steps| - 1].Status? then steps[|steps| - 1].code else LastStatus(steps[..|steps| - 1])
  }

  function Moved(balance: int, steps: seq<Step>, amount: int): int
  {
    balance + Writes(steps) * amount + External(steps)
  }

  /** The balance just after the last write. */
  function Written(balance: int, steps: seq<Step>, amount: int): int
  {
    if steps == [] then 0 else
    if steps[|steps| - 1].ApplyWrite? then Moved(balance, steps, amount)
    else Written(balance, steps[..|steps| - 1], amount)
  }

  /** The balance stays in range after every step that changes it. */
  predicate Fits(balance: int, steps: seq<Step>, amount: int)
  {
    forall n :: 0 < n <= |steps| && (steps[n - 1].ApplyWrite? || steps[n - 1].ExternalMutation?) ==>
      InRange(Moved(balance, steps[..n], amount))
  }

  lemma FitsPrefix(balance: int, steps: seq<Step>, amount: int, m: nat)
    requires Fits(balance, steps, amount) && m <= |steps|
    ensures Fits(balance, steps[..m], amount)
  {
    forall n | 0 < n <= m && (steps[n - 1].ApplyWrite? || steps[n - 1].ExternalMutation?)
      ensures InRange(Moved(balance, steps[..m][..n], amount))
    {
      assert steps[..m][..n] == steps[..n];
    }
  }

  lemma MovedByLast(balance: int, init: seq<Step>, last: Step, amount: int)
    ensures Moved(balance, init + [last], amount) ==
            Moved(balance, init, amount) +
            if last.ApplyWrite? then amount else if last.ExternalMutation? then last.amount else 0
  {
    assert (init + [last])[..|init|] == init;
    assert (Writes(init) + 1) * amount == Writes(init) * amount + amount;
  }

  lemma ShapeByLast(init: seq<Step>, last: Step)
    ensures Writes(init + [last]) == Writes(init) + if last.ApplyWrite? then 1 else 0
    ensures LastStatus(init + [last]) == if last.Status? then last.code else LastStatus(init)
    ensures Drop in init + [last] <==> Drop in init || last == Drop
    ensures Malformed in init + [last] <==> Malformed in init || last == Malformed
  {
    assert (init + [last])[..|init|] == init;
  }

  /** The script ran to its end and left what its shape says. */
  predicate LeftBy(r: Run, balance: int, steps: seq<Step>, amount: int)
  {
    && !r.raised && r.balance == Moved(balance, steps, amount) && r.applied == Writes(steps)
    && r.written == Written(balance, steps, amount)
    && r.status == LastStatus(steps) && (r.drop <==> Drop in steps) && (r.malformed <==> Malformed in steps)
  }

  lemma LeftByLast(r: Run, balance: int, init: seq<Step>, last: Step, amount: int)
    requires LeftBy(r, balance, init, amount)
    requires last.ApplyWrite? || last.ExternalMutation? ==> InRange(Moved(balance, init + [last], amount))
    ensures LeftBy(RunStep(r, last, amount), balance, init + [last], amount)
  {
    ShapeByLast(init, last);
    MovedByLast(balance, init, last, amount);
    assert (init + [last])[..|init|] == init;
  }

  /** Every script that fits does. */
  lemma {:induction false} RunInShape(balance: int, steps: seq<Step>, amount: int)
    requires Fits(balance, steps, amount)
    ensures LeftBy(RunSteps(balance, steps, amount), balance, steps, amount)
  {
    if steps != [] {
      var init, last := steps[..|steps| - 1], steps[|steps| - 1];
      FitsPrefix(balance, steps, amount, |init|);
      RunInShape(balance, init, amount);
      assert steps == init + [last] && steps[..|steps|] == steps;
      LeftByLast(RunSteps(balance, init, amount), balance, init, last, amount);
    }
  }

  /** One that does not is refused with 400 at the first step that does not fit;
    * the writes before it stay applied.
    */
  lemma {:induction false} RaisedAt(balance: int, steps: seq<Step>, amount: int) returns (n: nat)
    requires !Fits(balance, steps, amount)
    ensures n < |steps| && Fits(balance, steps[..n], amount) && !Fits(balance, steps[..n + 1], amount)
    ensures var r := RunSteps(balance, steps, amount);
            r.raised && r.balance == Moved(balance, steps[..n], amount) && r.applied == Writes(steps[..n])
    ensures Put(balance, steps, amount) ==
            (Moved(balance, steps[..n], amount), Response(400, Json(Missing)), Writes(steps[..n]))
  {
    var init, last := steps[..|steps| - 1], steps[|steps| - 1];
    assert steps == init + [last];
    if Fits(balance, init, amount) {
      n := |init|;
      RunInShape(balance, init, amount);
      assert steps[..n + 1] == steps;
      MovedByLast(balance, init, last, amount);
      forall k | 0 < k <= |init| ensures steps[..k] == init[..k] {
      }
    } else {
      n := RaisedAt(balance, init, amount);
      assert init[..n] == steps[..n] && init[..n + 1] == steps[..n + 1];
    }
  }

  // ---- what the client may conclude ----------------------------------------

  /** Balance, reply and number of writes of a script that runs to its end. A
    * script that neither drops the connection nor sets a status writes once
    * itself if no step has, and reports the balance after the last write, even
    * when points moved by another way since.
    */
  lemma PutIs(balance: int, steps: seq<Step>, amount: int)
    requires Fits(balance, steps, amount)
    ensures var end, writes := Moved(balance, steps, amount), Writes(steps);
            var shown := (n: int) => Json(if Malformed in steps then Missing else Number(n));
            Put(balance, steps, amount) ==
            if Drop in steps then (end, Response(502, Json(Missing)), writes)
            else if LastStatus(steps) != 0 then (end, Response(LastStatus(steps), Json(Missing)), writes)
            else if writes > 0 then (end, Response(200, shown(Written(balance, steps, amount))), writes)
            else if 0 <= end + amount <= 2_147_483_647 then (end + amount, Response(200, shown(end + amount)), 1)
            else (end, Response(400, Json(Missing)), 0)
  {
    RunInShape(balance, steps, amount);
  }

  /** The points of a viewer stay in range, whatever is scripted. */
  lemma {:induction false} StaysInRange(balance: int, steps: seq<Step>, amount: int)
    requires 0 <= balance <= 2_147_483_647
    ensures 0 <= RunSteps(balance, steps, amount).balance <= 2_147_483_647
    ensures 0 <= Put(balance, steps, amount).0 <= 2_147_483_647
  {
    if steps != [] {
      StaysInRange(balance, steps[..|steps| - 1], amount);
    }
  }

  /** Some step does not fit, and no write comes before it. */
  ghost predicate RefusedUnwritten(balance: int, steps: seq<Step>, amount: int)
  {
    exists n :: 0 <= n < |steps| && !Fits(balance, steps[..n + 1], amount) && Writes(steps[..n]) == 0
  }

  /** The reply tells the truth about the write exactly when no write precedes
    * an out-of-range step and, unless the connection is dropped, a scripted
    * success follows a write and a scripted refusal does not.
    */
  lemma HonestIff(balance: int, steps: seq<Step>, amount: int)
    ensures var (_, reply, applied) := Put(balance, steps, amount);
            HonestWrite(reply, applied > 0) <==>
            if Fits(balance, steps, amount) then
              || Drop in steps || LastStatus(steps) == 0 || LastStatus(steps) >= 500
              || (LastStatus(steps) < 400 <==> Writes(steps) > 0)
            else RefusedUnwritten(balance, steps, amount)
  {
    if Fits(balance, steps, amount) {
      RunInShape(balance, steps, amount);
    } else {
      RefusedHonestIff(balance, steps, amount);
    }
  }

  lemma RefusedHonestIff(balance: int, steps: seq<Step>, amount: int)
    requires !Fits(balance, steps, amount)
    ensures RunSteps(balance, steps, amount).raised
    ensures RunSteps(balance, steps, amount).applied == 0 <==> RefusedUnwritten(balance, steps, amount)
  {
    var n := RaisedAt(balance, steps, amount);
    if RefusedUnwritten(balance, steps, amount) {
      var m :| 0 <= m < |steps| && !Fits(balance, steps[..m + 1], amount) && Writes(steps[..m]) == 0;
      if m < n {
        FitsBefore(balance, steps, amount, n, m + 1);
      } else {
        WritesBefore(steps, n, m);
      }
    }
  }

  lemma FitsBefore(balance: int, steps: seq<Step>, amount: int, n: nat, m: nat)
    requires m <= n <= |steps| && Fits(balance, steps[..n], amount)
    ensures Fits(balance, steps[..m], amount)
  {
    FitsPrefix(balance, steps[..n], amount, m);
    assert steps[..n][..m] == steps[..m];
  }

  lemma WritesBefore(steps: seq<Step>, n: nat, m: nat)
    requires n <= m <= |steps|
    ensures Writes(steps[..n]) <= Writes(steps[..m])
  {
    MoreWrites(steps[..m], n);
    assert steps[..m][..n] == steps[..n];
  }

  lemma {:induction false} MoreWrites(steps: seq<Step>, n: nat)
    requires n <= |steps|
    ensures Writes(steps[..n]) <= Writes(steps)
    decreases |steps|
  {
    if n < |steps| {
      MoreWrites(steps[..|steps| - 1], n);
      assert steps[..|steps| - 1][..n] == steps[..n];
    } else {
      assert steps[..n] == steps;
    }
  }

  /** Apply, then drop: the points have moved, the client calls it ambiguous,
    * and it would say the same had nothing moved.
    */
  lemma DropIsAmbiguous(balance: int, steps: seq<Step>, amount: int, read: Transport, committed: bool)
    requires Fits(balance, steps, amount) && Drop in steps
    ensures var (after, reply, _) := Put(balance, steps, amount);
            RequestSeen(reply, read, committed) == Ambiguous && after == Moved(balance, steps, amount)
  {
    RunInShape(balance, steps, amount);
  }

  // ---- the stub ------------------------------------------------------------

  function BalanceIn(balances: map<Account, int>, account: Account): int
  {
    if account in balances then balances[account] else 0
  }

  ghost predicate SameElsewhere(before: map<Account, int>, after: map<Account, int>, account: Account)
  {
    forall other :: other != account ==> BalanceIn(after, other) == BalanceIn(before, other)
  }

  class StubState {
    var balances: map<Account, int>
    var writeScript: seq<Step>

    constructor ()
      ensures balances == map[] && writeScript == []
    {
      balances, writeScript := map[], [];
    }

    function Balance(account: Account): int
      reads this`balances
    {
      BalanceIn(balances, account)
    }

    /** `adjust`; nothing changes when it raises. */
    method Adjust(account: Account, amount: int) returns (ok: bool)
      modifies this`balances
      ensures ok == InRange(old(Balance(account)) + amount)
      ensures balances == if ok then old(balances)[account := old(Balance(account)) + amount] else old(balances)
    {
      var after := Balance(account) + amount;
      ok := !(after < 0 || after > POINTS_MAX);
      if ok {
        balances := balances[account := after];
      }
    }

    /** `apply_steps`, up to the point where it raises. */
    method ApplySteps(steps: seq<Step>, account: Account, amount: int) returns (r: Run)
      modifies this`balances
      ensures r == RunSteps(old(Balance(account)), steps, amount) && Balance(account) == r.balance
      ensures SameElsewhere(old(balances), balances, account)
    {
      ghost var start := Balance(account);
      r := Run(Balance(account), 0, false, false, 0, 0, false);
      for n := 0 to |steps|
        invariant r == RunSteps(start, steps[..n], amount) && Balance(account) == r.balance && !r.raised
        invariant SameElsewhere(old(balances), balances, account)
      {
        assert steps[..n + 1][..n] == steps[..n];
        var ok := true;
        match steps[n] {
          case Status(code) => r := r.(status := code);
          case Malformed => r := r.(malformed := true);
          case Drop => r := r.(drop := true);
          case ApplyWrite =>
            ok := Adjust(account, amount);
            if ok {
              r := r.(balance := Balance(account), applied := r.applied + 1, written := Balance(account));
            }
          case ExternalMutation(n) =>
            ok := Adjust(account, n);
            if ok {
              r := r.(balance := Balance(account));
            }
          case _ =>
        }
        if !ok {
          r := r.(raised := true);
          StillRaised(start, steps, n + 1, amount);
          return;
        }
      }
      assert steps[..|steps|] == steps;
    }

    /** `put_points`: the script is taken, run, and the reply chosen. */
    method PutPoints(account: Account, amount: int) returns (reply: Transport, applied: nat)
      modifies this
      ensures (Balance(account), reply, applied) == Put(old(Balance(account)), old(writeScript), amount)
      ensures writeScript == [] && SameElsewhere(old(balances), balances, account)
    {
      var steps := writeScript;
      writeScript := [];
      var r := ApplySteps(steps, account, amount);
      applied := r.applied;
      if r.raised {
        return Response(400, Json(Missing)), applied;
      }
      if r.drop {
        return Response(502, Json(Missing)), applied;
      }
      if r.status != 0 {
        return Response(r.status, Json(Missing)), applied;
      }
      var after := r.written;
      if r.applied == 0 {
        var ok := Adjust(account, amount);
        if !ok {
          return Response(400, Json(Missing)), applied;
        }
        applied := 1;
        after := Balance(account);
      }
      reply := Response(200, Json(if r.malformed then Missing else Number(after)));
    }
  }

  lemma {:induction false} StillRaised(balance: int, steps: seq<Step>, n: nat, amount: int)
    requires n <= |steps| && RunSteps(balance, steps[..n], amount).raised
    ensures RunSteps(balance, steps, amount) == RunSteps(balance, steps[..n], amount)
    decreases |steps|
  {
    if n < |steps| {
      assert steps[..|steps| - 1][..n] == steps[..n];
      StillRaised(balance, steps[..|steps| - 1], n, amount);
    } else {
      assert steps[..n] == steps;
    }
  }
}
