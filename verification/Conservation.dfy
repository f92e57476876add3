/** Whole runs of the economy: what holds at the end of any sequence of
  * requests, provider calls, worker steps and administrator decisions.
  */
module Conservation {
  import opened Options
  import opened Pricing
  import opened ProviderClient
  import opened Saga
  import opened SagaSafety
  import opened Sums
  import opened Ledger

  function RunAll(l: Ledger, evs: seq<Event>): Ledger
    decreases |evs|
  {
    if evs == [] then l else RunAll(Step(l, evs[0]), evs[1..])
  }

  /** Every step of the run meets a hypothesis where it is taken. */
  predicate Throughout(l: Ledger, evs: seq<Event>, meets: (Ledger, Event) -> bool)
    decreases |evs|
  {
    evs == [] || (meets(l, evs[0]) && Throughout(Step(l, evs[0]), evs[1..], meets))
  }

  lemma RunsOn(l: Ledger, ev: Event, rest: seq<Event>, meets: (Ledger, Event) -> bool)
    ensures RunAll(l, [ev] + rest) == RunAll(Step(l, ev), rest)
    ensures Throughout(l, [ev] + rest, meets) <==> meets(l, ev) && Throughout(Step(l, ev), rest, meets)
  {
    assert ([ev] + rest)[1..] == rest;
  }

  lemma InitialInv(l: Ledger)
    requires Initial(l)
    ensures Inv(l) && AllBooked(l) && AllGood(l) && Exclusive(l)
  {
    forall p | p in l.mass ensures AccountedFor(l, p) {
      assert Moved(l.sagas, p) == [] && Paid(l.sagas, p) == [];
    }
  }

  lemma {:induction false} InvAlways(l: Ledger, evs: seq<Event>)
    requires Inv(l)
    ensures Inv(RunAll(l, evs)) && RunAll(l, evs).mass.Keys == l.mass.Keys
    decreases |evs|
  {
    if evs != [] {
      InvStep(l, evs[0]);
      PlayersStay(l, evs[0]);
      InvAlways(Step(l, evs[0]), evs[1..]);
    }
  }

  /** However the steps interleave and leases run out: no two operations under
    * one key, every operation agrees with its outbox row and lease, and a
    * player's mass and points are what other sources brought plus what the
    * operations moved.
    */
  lemma RowsAgree(l: Ledger, evs: seq<Event>, p: PlayerId)
    requires Initial(l) && p in l.mass
    ensures var end := RunAll(l, evs);
            && ExclusiveKeys(end) && (forall i :: 0 <= i < |end.sagas| ==> Coherent(end.sagas[i]))
            && SamePlayers(end) && p in end.mass && AccountedFor(end, p)
  {
    InitialInv(l);
    InvAlways(l, evs);
    var end := RunAll(l, evs);
    forall i | 0 <= i < |end.sagas| ensures Coherent(end.sagas[i]) {
      assert Sound(end.sagas[i]);
    }
  }

  // ---- the mass accounting -------------------------------------------------

  lemma {:induction false} BookedAlways(l: Ledger, evs: seq<Event>)
    requires Inv(l) && AllBooked(l) && Throughout(l, evs, GuardedIn)
    ensures AllBooked(RunAll(l, evs))
    decreases |evs|
  {
    if evs != [] {
      InvStep(l, evs[0]);
      BookedKept(l, evs[0]);
      BookedAlways(Step(l, evs[0]), evs[1..]);
    }
  }

  /** Every player's mass is what other sources brought, plus the purchases
    * granted, minus the sales neither failed nor given back.
    */
  predicate Balanced(l: Ledger)
  {
    SamePlayers(l) && forall p :: p in l.mass ==> l.mass[p] == l.other[p] + Sum(Contributions(l.sagas, p))
  }

  lemma BookedBalances(l: Ledger)
    requires Inv(l) && AllBooked(l)
    ensures Balanced(l)
  {
    forall p | p in l.mass ensures l.mass[p] == l.other[p] + Sum(Contributions(l.sagas, p)) {
      assert AccountedFor(l, p);
      forall i | 0 <= i < |l.sagas| ensures Moved(l.sagas, p)[i] == Contributions(l.sagas, p)[i] {
        assert Booked(l.sagas[i]);
      }
      assert Moved(l.sagas, p) == Contributions(l.sagas, p);
    }
  }

  /** The mass accounting identity, whatever the provider answers and the
    * administrators decide, as long as no lease is recovered under an open-ended
    * call of an operation whose mass may still move.
    */
  lemma MassAccounting(l: Ledger, evs: seq<Event>)
    requires Initial(l) && Throughout(l, evs, GuardedIn)
    ensures Balanced(RunAll(l, evs)) && RunAll(l, evs).mass.Keys == l.mass.Keys
  {
    InitialInv(l);
    InvAlways(l, evs);
    BookedAlways(l, evs);
    BookedBalances(RunAll(l, evs));
  }

  /** The accounting holds from here on. */
  ghost predicate KeepsBooks(l: Ledger)
  {
    forall evs: seq<Event> :: Throughout(l, evs, GuardedIn) ==> Balanced(RunAll(l, evs))
  }

  /** And it fails exactly when one is: recovering a lease keeps the books for
    * good if and only if the operation moves no mass, has moved it already, or
    * every live call can only close it.
    */
  lemma MassAccountingIff(l: Ledger, i: nat)
    requires Inv(l) && AllBooked(l) && i < |l.sagas| && Enabled(l.sagas[i], RecoverLease)
    ensures KeepsBooks(Step(l, At(i, RecoverLease))) <==>
            var sg := l.sagas[i];
            sg.op.kind == Reward || !Untouched(sg.op) || forall k :: 0 <= k < |sg.calls| ==> !OpenEnded(sg, k)
  {
    var sg, late := l.sagas[i], Step(l, At(i, RecoverLease));
    InvStep(l, At(i, RecoverLease));
    if Guarded(sg, RecoverLease) {
      BookedKept(l, At(i, RecoverLease));
      BookedKeepsBooks(late);
    } else {
      var k :| 0 <= k < |sg.calls| && OpenEnded(sg, k);
      AtChangesOne(l, i, RecoverLease);
      assert Booked(sg);
      MovesTwice(sg, k);
      TwiceLosesBooks(l, late, i);
    }
  }

  lemma BookedKeepsBooks(l: Ledger)
    requires Inv(l) && AllBooked(l)
    ensures KeepsBooks(l)
  {
    forall evs: seq<Event> | Throughout(l, evs, GuardedIn) ensures Balanced(RunAll(l, evs)) {
      InvAlways(l, evs);
      BookedAlways(l, evs);
      BookedBalances(RunAll(l, evs));
    }
  }

  lemma TwiceLosesBooks(was: Ledger, l: Ledger, i: nat)
    requires Inv(l) && AllBooked(was) && i < |l.sagas| && |was.sagas| == |l.sagas|
    requires l.sagas == was.sagas[i := l.sagas[i]] && CanMoveTwice(l.sagas[i])
    ensures !KeepsBooks(l)
  {
    var locals :| NoRecovery(locals) && MovedTwice(Run(l.sagas[i], locals));
    RunLosesBooks(was, l, i, locals);
  }

  lemma RunLosesBooks(was: Ledger, l: Ledger, i: nat, locals: seq<Local>)
    requires Inv(l) && AllBooked(was) && i < |l.sagas| && |was.sagas| == |l.sagas| && NoRecovery(locals)
    requires l.sagas == was.sagas[i := l.sagas[i]]
    requires var end := Run(l.sagas[i], locals); end.effects.moved != Contribution(end.op)
    ensures !KeepsBooks(l)
  {
    LocalRun(l, i, locals);
    InvAlways(l, Ats(i, locals));
    Unbalanced(was, i, RunAll(l, Ats(i, locals)));
  }

  /** Only this operation moved more than its flags account for. */
  lemma Unbalanced(was: Ledger, i: nat, l: Ledger)
    requires Inv(l) && AllBooked(was) && i < |l.sagas| && |was.sagas| == |l.sagas|
    requires l.sagas == was.sagas[i := l.sagas[i]] && l.sagas[i].effects.moved != Contribution(l.sagas[i].op)
    ensures !Balanced(l)
  {
    var p := l.sagas[i].op.player;
    assert AccountedFor(l, p);
    var moved, booked := Moved(l.sagas, p), Contributions(l.sagas, p);
    forall j | 0 <= j < |moved| && j != i ensures moved[j] == booked[j] {
      assert Booked(was.sagas[j]);
    }
    SumUpdate(moved, i, booked[i]);
    assert moved[i := booked[i]] == booked;
  }

  /** Steps of one operation, one after the other. */
  function Ats(i: nat, locals: seq<Local>): seq<Event>
  {
    seq(|locals|, n requires 0 <= n < |locals| => At(i, locals[n]))
  }

  lemma AtsCons(i: nat, locals: seq<Local>)
    requires locals != [] && NoRecovery(locals)
    ensures Ats(i, locals) == [At(i, locals[0])] + Ats(i, locals[1..])
    ensures NoRecovery(locals[1..]) && !locals[0].RecoverLease?
  {
    assert forall n :: 0 <= n < |locals[1..]| ==> locals[1..][n] == locals[n + 1];
  }

  lemma {:induction false} LocalRun(l: Ledger, i: nat, locals: seq<Local>)
    requires Inv(l) && i < |l.sagas| && NoRecovery(locals)
    ensures RunAll(l, Ats(i, locals)).sagas == l.sagas[i := Run(l.sagas[i], locals)]
    ensures Throughout(l, Ats(i, locals), GuardedIn) && Throughout(l, Ats(i, locals), TimelyIn)
    decreases |locals|
  {
    if locals == [] {
      assert l.sagas[i := l.sagas[i]] == l.sagas;
    } else {
      var ev, rest := At(i, locals[0]), locals[1..];
      AtsCons(i, locals);
      InvStep(l, ev);
      AtChangesOne(l, i, locals[0]);
      LocalRun(Step(l, ev), i, rest);
      RunsOn(l, ev, Ats(i, rest), GuardedIn);
      RunsOn(l, ev, Ats(i, rest), TimelyIn);
      assert GuardedIn(l, ev) && TimelyIn(l, ev);
    }
  }

  // ---- one conversion at a time --------------------------------------------

  lemma {:induction false} ExclusiveAlways(l: Ledger, evs: seq<Event>)
    requires Inv(l) && Exclusive(l) && Throughout(l, evs, TimelyIn)
    ensures Exclusive(RunAll(l, evs))
    decreases |evs|
  {
    if evs != [] {
      InvStep(l, evs[0]);
      ExclusiveKept(l, evs[0]);
      ExclusiveAlways(Step(l, evs[0]), evs[1..]);
    }
  }

  /** Never two conversions of one player at once, however many requests wait at
    * the check with expired Redis leases, as long as a conversion's outbox lease
    * is only recovered once nobody is inside its call.
    */
  lemma MutualExclusion(l: Ledger, evs: seq<Event>)
    requires Initial(l) && Throughout(l, evs, TimelyIn)
    ensures OneConversion(RunAll(l, evs))
  {
    InitialInv(l);
    ExclusiveAlways(l, evs);
  }

  /** No two conversions of one player from here on. */
  ghost predicate StaysExclusive(l: Ledger)
  {
    forall evs: seq<Event> :: Throughout(l, evs, TimelyIn) ==> OneConversion(RunAll(l, evs))
  }

  lemma OverlapsAfter(l: Ledger, ev: Event)
    requires TimelyIn(l, ev) && !StaysExclusive(Step(l, ev))
    ensures !StaysExclusive(l)
  {
    var rest :| Throughout(Step(l, ev), rest, TimelyIn) && !OneConversion(RunAll(Step(l, ev), rest));
    RunsOn(l, ev, rest, TimelyIn);
  }

  lemma {:induction false} OverlapsAfterLocals(l: Ledger, i: nat, locals: seq<Local>)
    requires NoRecovery(locals) && !StaysExclusive(RunAll(l, Ats(i, locals)))
    ensures !StaysExclusive(l)
    decreases |locals|
  {
    if locals == [] {
      assert Ats(i, locals) == [];
    } else {
      var ev, rest := At(i, locals[0]), locals[1..];
      AtsCons(i, locals);
      RunsOn(l, ev, Ats(i, rest), TimelyIn);
      OverlapsAfterLocals(Step(l, ev), i, rest);
      OverlapsAfter(l, ev);
    }
  }

  function UnusedKey(sagas: seq<Saga>): (key: Key)
    ensures forall i :: 0 <= i < |sagas| ==> sagas[i].op.key < key
  {
    if sagas == [] then 0 else
    var last, before := sagas[|sagas| - 1].op.key, UnusedKey(sagas[..|sagas| - 1]);
    assert sagas == sagas[..|sagas| - 1] + [sagas[|sagas| - 1]];
    if last < before then before else last + 1
  }

  /** A purchase any free player can start. */
  lemma StartsPurchase(l: Ledger, p: PlayerId) returns (ev: Event)
    requires Inv(l) && p in l.mass && !Busy(l, p)
    ensures !ev.At? && var after := Step(l, ev);
            && Inv(after) && |after.sagas| == |l.sagas| + 1 && after.sagas[..|l.sagas|] == l.sagas
            && Converting(after.sagas[|l.sagas|]) && after.sagas[|l.sagas|].op.player == p
  {
    var key, s := UnusedKey(l.sagas), Settings(SCALE, 0, 0, 1);
    ev := BuyFish(key, p, Exact(1), s, POINTS_MAX);
    assert BuyPoints(1, SCALE) == 1;
    assert BuyQuote(Exact(1), s, POINTS_MAX) == Priced(1, 1);
    assert FreshKey(l, key);
    InvStep(l, ev);
  }

  /** A closed conversion that can be opened again, and nothing else of the
    * player under way.
    */
  lemma ReopenedOverlaps(l: Ledger, i: nat)
    requires Inv(l) && i < |l.sagas| && l.sagas[i].op.kind != Reward && CanReopen(l.sagas[i])
    requires forall j :: 0 <= j < |l.sagas| && j != i && l.sagas[j].op.player == l.sagas[i].op.player ==>
                           !Active(l.sagas[j].op.state)
    ensures !StaysExclusive(l)
  {
    var sg, n := l.sagas[i], |l.sagas|;
    var closing :| NoRecovery(closing) && !Active(Run(sg, closing).op.state) && CanOpen(Run(sg, closing));
    LocalRun(l, i, closing);
    InvAlways(l, Ats(i, closing));
    TradeStays(sg, closing);
    var closed := RunAll(l, Ats(i, closing));
    var start := StartsPurchase(closed, sg.op.player);
    var begun := Step(closed, start);
    assert begun.sagas[i] == begun.sagas[..n][i] == closed.sagas[i];
    OpenedOverlaps(begun, i, n);
    OverlapsAfter(closed, start);
    OverlapsAfterLocals(l, i, closing);
  }

  lemma OpenedOverlaps(l: Ledger, i: nat, n: nat)
    requires Inv(l) && i < n < |l.sagas| && l.sagas[i].op.kind != Reward && CanOpen(l.sagas[i])
    requires Converting(l.sagas[n]) && l.sagas[n].op.player == l.sagas[i].op.player
    ensures !StaysExclusive(l)
  {
    var opening :| NoRecovery(opening) && Active(Run(l.sagas[i], opening).op.state);
    LocalRun(l, i, opening);
    TradeStays(l.sagas[i], opening);
    var end := RunAll(l, Ats(i, opening));
    assert Converting(end.sagas[i]) && Converting(end.sagas[n]);
  }

  lemma {:induction false} TradeStays(sg: Saga, locals: seq<Local>)
    requires Sound(sg)
    ensures SameTrade(Run(sg, locals).op, sg.op)
    decreases |locals|
  {
    if locals != [] {
      if Enabled(sg, locals[0]) {
        SoundStep(sg, locals[0]);
        TradeStays(Next(sg, locals[0]), locals[1..]);
      } else {
        TradeStays(sg, locals[1..]);
      }
    }
  }

  /** Besides operation i the player has only rewards under way, from row n on. */
  predicate OnlyRewardsFrom(l: Ledger, i: nat, n: nat)
    requires i < |l.sagas|
  {
    forall j :: 0 <= j < |l.sagas| && j != i && l.sagas[j].op.player == l.sagas[i].op.player &&
                Active(l.sagas[j].op.state) ==>
      n <= j && l.sagas[j].op.kind == Reward
  }

  /** They are closed first. */
  lemma {:induction false} RewardsDoNotHelp(l: Ledger, i: nat, n: nat)
    requires Inv(l) && i < |l.sagas| && n <= |l.sagas| && l.sagas[i].op.kind != Reward && CanReopen(l.sagas[i])
    requires OnlyRewardsFrom(l, i, n)
    ensures !StaysExclusive(l)
    decreases |l.sagas| - n, if n < |l.sagas| then Distance(l.sagas[n]) else 0
  {
    if n == |l.sagas| {
      ReopenedOverlaps(l, i);
    } else if n == i || l.sagas[n].op.player != l.sagas[i].op.player || !Active(l.sagas[n].op.state) {
      RewardsDoNotHelp(l, i, n + 1);
    } else {
      var ev := RewardCloses(l, i, n);
      RewardsDoNotHelp(Step(l, ev), i, n);
      OverlapsAfter(l, ev);
    }
  }

  /** A reward under way is one step nearer to its end. */
  lemma RewardCloses(l: Ledger, i: nat, n: nat) returns (ev: Event)
    requires Inv(l) && i < |l.sagas| && n < |l.sagas| && n != i && OnlyRewardsFrom(l, i, n)
    requires l.sagas[n].op.kind == Reward && Active(l.sagas[n].op.state)
    ensures var l' := Step(l, ev);
            && i < |l'.sagas| && l'.sagas[i] == l.sagas[i] && OnlyRewardsFrom(l', i, n)
            && Inv(l') && TimelyIn(l, ev) && |l'.sagas| == |l.sagas|
            && (forall j :: 0 <= j < |l.sagas| && j != n ==> l'.sagas[j] == l.sagas[j])
            && SameTrade(l'.sagas[n].op, l.sagas[n].op) && Distance(l'.sagas[n]) < Distance(l.sagas[n])
  {
    assert Sound(l.sagas[n]);
    var local := Closing(l.sagas[n]);
    ClosingIsNearer(l.sagas[n]);
    SoundStep(l.sagas[n], local);
    ev := At(n, local);
    InvStep(l, ev);
    AtChangesOne(l, n, local);
  }

  /** The way to close a row without anybody's answer. */
  function Closing(sg: Saga): (ev: Local)
    requires RowsSound(sg) && Active(sg.op.state)
    ensures Enabled(sg, ev)
  {
    var k := FirstLive(sg.calls);
    if k < |sg.calls| then Crash(k)
    else if sg.event.state == EventProcessing then RecoverLease
    else if sg.event.state == EventPending then Decline(true) else DeadLetter
  }

  /** The first live call, or the number of calls when there is none. */
  function FirstLive(calls: seq<Call>): (k: nat)
    ensures k <= |calls| && (k < |calls| ==> calls[k] != NoCall)
    ensures forall j :: 0 <= j < k ==> calls[j] == NoCall
  {
    if calls == [] then 0 else if calls[0] != NoCall then 0 else 1 + FirstLive(calls[1..])
  }

  function LiveCalls(calls: seq<Call>): nat
  {
    if calls == [] then 0 else LiveCalls(calls[1..]) + if calls[0] == NoCall then 0 else 1
  }

  function Distance(sg: Saga): nat
  {
    LiveCalls(sg.calls) + if !Active(sg.op.state) then 0 else if sg.event.state == EventReconciliation then 1 else 2
  }

  lemma {:induction false} OneCallLess(calls: seq<Call>, k: nat)
    requires k < |calls| && calls[k] != NoCall
    ensures LiveCalls(calls[k := NoCall]) < LiveCalls(calls)
  {
    if k > 0 {
      assert calls[k := NoCall][1..] == calls[1..][k - 1 := NoCall];
      OneCallLess(calls[1..], k - 1);
    } else {
      assert calls[0 := NoCall][1..] == calls[1..];
    }
  }

  lemma ClosingIsNearer(sg: Saga)
    requires RowsSound(sg) && Active(sg.op.state)
    ensures Distance(Next(sg, Closing(sg))) < Distance(sg)
  {
    var k := FirstLive(sg.calls);
    if k < |sg.calls| {
      OneCallLess(sg.calls, k);
    }
  }

  /** Recovering a conversion's lease keeps conversions apart for good if and
    * only if nobody is inside its call.
    */
  lemma MutualExclusionIff(l: Ledger, i: nat)
    requires Inv(l) && Exclusive(l) && i < |l.sagas| && l.sagas[i].op.kind != Reward
    requires Enabled(l.sagas[i], RecoverLease)
    ensures StaysExclusive(Step(l, At(i, RecoverLease))) <==> Idle(l.sagas[i])
  {
    var sg, late := l.sagas[i], Step(l, At(i, RecoverLease));
    InvStep(l, At(i, RecoverLease));
    if Idle(sg) {
      ExclusiveKept(l, At(i, RecoverLease));
      ExclusiveForGood(late);
    } else {
      AtChangesOne(l, i, RecoverLease);
      RecoveredOverlaps(l, late, i);
    }
  }

  lemma ExclusiveForGood(l: Ledger)
    requires Inv(l) && Exclusive(l)
    ensures StaysExclusive(l)
  {
    forall evs: seq<Event> | Throughout(l, evs, TimelyIn) ensures OneConversion(RunAll(l, evs)) {
      ExclusiveAlways(l, evs);
    }
  }

  lemma RecoveredOverlaps(was: Ledger, l: Ledger, i: nat)
    requires Inv(was) && Inv(l) && Exclusive(was) && i < |was.sagas| && was.sagas[i].op.kind != Reward
    requires Enabled(was.sagas[i], RecoverLease) && !Idle(was.sagas[i])
    requires l.sagas == was.sagas[i := Next(was.sagas[i], RecoverLease)]
    ensures !StaysExclusive(l)
  {
    var sg := was.sagas[i];
    var k :| 0 <= k < |sg.calls| && sg.calls[k] != NoCall;
    assert Sound(sg) && Attended(sg) && Converting(sg);
    RecoveredReopens(sg, k);
    RewardsDoNotHelp(l, i, 0);
  }

  // ---- all or nothing ------------------------------------------------------

  lemma {:induction false} GoodAlways(l: Ledger, evs: seq<Event>)
    requires Inv(l) && AllGood(l) && Throughout(l, evs, HonestIn) && Throughout(l, evs, HarmlessIn)
    ensures AllGood(RunAll(l, evs))
    decreases |evs|
  {
    if evs != [] {
      InvStep(l, evs[0]);
      GoodKept(l, evs[0]);
      GoodAlways(Step(l, evs[0]), evs[1..]);
    }
  }

  /** Value conservation: every operation that is closed moved points and mass
    * both exactly once or neither at all. The two hypotheses are exactly what
    * each operation needs: `SafeIff`, `RecoverySafeIff`.
    */
  lemma ValueConservation(l: Ledger, evs: seq<Event>)
    requires Initial(l) && Throughout(l, evs, HonestIn) && Throughout(l, evs, HarmlessIn)
    ensures var end := RunAll(l, evs);
            forall i :: 0 <= i < |end.sagas| ==>
              && AllOrNothing(end.sagas[i])
              && (!Active(end.sagas[i].op.state) ==> Done(end.sagas[i]) || Undone(end.sagas[i]))
  {
    InitialInv(l);
    GoodAlways(l, evs);
    var end := RunAll(l, evs);
    forall i | 0 <= i < |end.sagas|
      ensures AllOrNothing(end.sagas[i])
      ensures !Active(end.sagas[i].op.state) ==> Done(end.sagas[i]) || Undone(end.sagas[i])
    {
      assert Good(end.sagas[i]);
    }
  }

  // ---- settlement ----------------------------------------------------------

  /** Everything the player started is closed. */
  predicate Settled(l: Ledger, p: PlayerId)
  {
    forall i :: 0 <= i < |l.sagas| && l.sagas[i].op.player == p ==> !Active(l.sagas[i].op.state)
  }

  /** The mass and the points of the operations that were carried out. */
  function DueMasses(sagas: seq<Saga>, p: PlayerId): seq<int>
  {
    seq(|sagas|, i requires 0 <= i < |sagas| =>
      if sagas[i].op.player == p && Done(sagas[i]) then Due(sagas[i].op) else 0)
  }

  function DuePayments(sagas: seq<Saga>, p: PlayerId): seq<int>
  {
    seq(|sagas|, i requires 0 <= i < |sagas| =>
      if sagas[i].op.player == p && Done(sagas[i]) then DuePoints(sagas[i].op) else 0)
  }

  /** Once a player has settled, the mass and the points that moved are those
    * of one and the same set of operations.
    */
  lemma SettledBalances(l: Ledger, p: PlayerId)
    requires Inv(l) && AllGood(l) && p in l.mass && Settled(l, p)
    ensures l.mass[p] == l.other[p] + Sum(DueMasses(l.sagas, p))
    ensures l.balance[p] == l.external[p] + Sum(DuePayments(l.sagas, p))
  {
    assert AccountedFor(l, p);
    forall i | 0 <= i < |l.sagas|
      ensures Moved(l.sagas, p)[i] == DueMasses(l.sagas, p)[i] && Paid(l.sagas, p)[i] == DuePayments(l.sagas, p)[i]
    {
      var sg := l.sagas[i];
      if sg.op.player == p {
        assert Good(sg);
      }
    }
    assert Moved(l.sagas, p) == DueMasses(l.sagas, p);
    assert Paid(l.sagas, p) == DuePayments(l.sagas, p);
  }

  // ---- no money pump -------------------------------------------------------

  /** The player only converted, selling at most and buying at least at `rate`. */
  predicate TradedAround(sagas: seq<Saga>, p: PlayerId, rate: nat)
  {
    forall i :: 0 <= i < |sagas| && sagas[i].op.player == p ==>
      && sagas[i].op.kind != Reward
      && (sagas[i].op.kind == Sell ==> sagas[i].op.rate <= rate)
      && (sagas[i].op.kind == Buy ==> rate <= sagas[i].op.rate)
  }

  predicate TradedAt(sagas: seq<Saga>, p: PlayerId, rate: nat)
  {
    forall i :: 0 <= i < |sagas| && sagas[i].op.player == p ==> sagas[i].op.kind != Reward && sagas[i].op.rate == rate
  }

  /** One carried-out trade, valued at `rate`, in units of 1/SCALE point. */
  lemma TradeLoses(sg: Saga, rate: nat)
    requires FairlyPriced(sg) && sg.op.kind != Reward && Done(sg) && Good(sg)
    requires (sg.op.kind == Sell ==> sg.op.rate <= rate) && (sg.op.kind == Buy ==> rate <= sg.op.rate)
    ensures SCALE * DuePoints(sg.op) + rate * Due(sg.op) <= 0
    ensures sg.op.rate == rate ==> -SCALE < SCALE * DuePoints(sg.op) + rate * Due(sg.op)
  {
    var op := sg.op;
    RoundingBounds(op.mass, op.rate);
    if op.kind == Sell {
      ProductGrows(op.rate, rate, op.mass);
    } else {
      ProductGrows(rate, op.rate, op.mass);
    }
  }

  /** One for every operation that was carried out. */
  function DoneMarks(sagas: seq<Saga>, p: PlayerId): seq<int>
  {
    seq(|sagas|, i requires 0 <= i < |sagas| => if sagas[i].op.player == p && Done(sagas[i]) then 1 else 0)
  }

  /** What a player gained, mass valued at `rate`, in units of 1/SCALE point. */
  function Worth(points: int, mass: int, rate: nat): int { SCALE * points + rate * mass }

  lemma TradesLose(l: Ledger, p: PlayerId, rate: nat)
    requires AllSound(l) && AllGood(l) && TradedAround(l.sagas, p, rate)
    ensures Worth(Sum(DuePayments(l.sagas, p)), Sum(DueMasses(l.sagas, p)), rate) <= 0
    ensures TradedAt(l.sagas, p, rate) ==>
              -SCALE * Sum(DoneMarks(l.sagas, p)) <=
              Worth(Sum(DuePayments(l.sagas, p)), Sum(DueMasses(l.sagas, p)), rate)
  {
    var points, masses, marks := DuePayments(l.sagas, p), DueMasses(l.sagas, p), DoneMarks(l.sagas, p);
    var n := |l.sagas|;
    var worths := seq(n, i requires 0 <= i < n => SCALE * points[i] + rate * masses[i]);
    var none := seq(n, i => 0);
    var losses := seq(n, i requires 0 <= i < n => -SCALE * marks[i] + 0 * none[i]);
    forall i | 0 <= i < n
      ensures worths[i] <= none[i] && (TradedAt(l.sagas, p, rate) ==> losses[i] <= worths[i])
    {
      var sg := l.sagas[i];
      assert FairlyPriced(sg) && Good(sg);
      if sg.op.player == p && Done(sg) {
        TradeLoses(sg, rate);
      }
    }
    SumLinear(points, masses, worths, SCALE, rate);
    SumLinear(marks, none, losses, -SCALE, 0);
    SumMonotone(worths, none);
    SumLinear(none, none, none, 0, 0);
    if TradedAt(l.sagas, p, rate) {
      SumMonotone(losses, worths);
    }
  }

  /** What the conversions brought a player is worth nothing or less, and with
    * one rate only a little less: the roundings of the trades carried out.
    */
  predicate NoGain(l: Ledger, p: PlayerId, rate: nat)
    requires SamePlayers(l) && p in l.mass
  {
    var gained := Worth(l.balance[p] - l.external[p], l.mass[p] - l.other[p], rate);
    gained <= 0 && (TradedAt(l.sagas, p, rate) ==> -SCALE * Sum(DoneMarks(l.sagas, p)) <= gained)
  }

  /** No sequence of conversions is profitable: at any rate between the selling
    * and the buying rates, points plus the worth of the mass never grow; and
    * when both rates are that one, each carried-out trade loses less than a point.
    */
  lemma NoMoneyPump(l: Ledger, evs: seq<Event>, p: PlayerId, rate: nat)
    requires Initial(l) && Throughout(l, evs, HonestIn) && Throughout(l, evs, HarmlessIn) && p in l.mass
    requires var end := RunAll(l, evs); Settled(end, p) && TradedAround(end.sagas, p, rate)
    ensures var end := RunAll(l, evs); SamePlayers(end) && p in end.mass && NoGain(end, p, rate)
  {
    InitialInv(l);
    InvAlways(l, evs);
    GoodAlways(l, evs);
    SettledTradesLose(RunAll(l, evs), p, rate);
  }

  lemma SettledTradesLose(l: Ledger, p: PlayerId, rate: nat)
    requires Inv(l) && AllGood(l) && p in l.mass && Settled(l, p) && TradedAround(l.sagas, p, rate)
    ensures NoGain(l, p, rate)
  {
    SettledBalances(l, p);
    TradesLose(l, p, rate);
  }

  // ---- the provider client under the handlers ------------------------------

  /** With a provider that tells the truth in its status codes, the answer of a
    * request's write is safe exactly when a confirmed body parses and, if it
    * carries no balance, the follow-up read succeeds.
    */
  lemma RequestSafeIff(sg: Saga, k: nat, write: Transport, read: Transport, committed: bool, applied: bool)
    requires Good(sg) && CallAt(sg, k) == Running(Requester) && HonestWrite(write, applied)
    ensures Safe(Next(sg, Answer(k, applied, RequestSeen(write, read, committed)))) <==>
            !(write.Response? && write.status < 400 &&
              (write.body.NotJson? || (AddPoints(write) == Ok(None) && GetBalance(read).Err?)))
  {
    RequestClaimsIff(write, read, committed, applied);
    SafeIff(sg, Answer(k, applied, RequestSeen(write, read, committed)));
  }

  /** The worker reads no balance afterwards, but takes a confirmed balance out
    * of range for a refusal.
    */
  lemma WorkerSafeIff(sg: Saga, k: nat, write: Transport, committed: bool, applied: bool)
    requires Good(sg) && CallAt(sg, k).Writing? && HonestWrite(write, applied)
    ensures Safe(Next(sg, Answer(k, applied, WorkerSeen(write, committed)))) <==>
            !(write.Response? && write.status < 400 &&
              (write.body.NotJson? || (write.body.points.Number? && !ValidBalance(write.body.points.value))))
  {
    WorkerClaimsIff(write, committed, applied);
    assert CallFits(sg.op, sg.calls[k]);
    SafeIff(sg, Answer(k, applied, WorkerSeen(write, committed)));
  }

  /** A worker that the balance read turns back is always safe: nothing was
    * written.
    */
  lemma WorkerReadSafe(sg: Saga, k: nat, read: Transport)
    requires Good(sg) && CallAt(sg, k).Running? && sg.calls[k].actor.Worker?
    requires WorkerReadSeen(read, sg.op.kind == Buy, sg.op.points).Some?
    ensures Safe(Next(sg, Answer(k, false, WorkerReadSeen(read, sg.op.kind == Buy, sg.op.points).value)))
  {
    WorkerReadClasses(read, sg.op.kind == Buy, sg.op.points);
    SafeIff(sg, Answer(k, false, WorkerReadSeen(read, sg.op.kind == Buy, sg.op.points).value));
  }

  /** So is the refund of a purchase, with a provider that tells the truth. */
  lemma RefundSafe(sg: Saga, k: nat, read: Transport, write: Transport, applied: bool)
    requires Good(sg) && CallAt(sg, k).Refunding? && HonestWrite(write, applied)
    ensures Safe(Next(sg, RefundAnswer(k, applied, RefundConfirmed(read, write, sg.op.points))))
  {
    RefundConfirmedIff(read, write, sg.op.points);
    SafeIff(sg, RefundAnswer(k, applied, RefundConfirmed(read, write, sg.op.points)));
  }

  // ---- the two ways a definite error can follow an applied write -----------

  /** A body that does not parse after an applied sale credit gives the mass
    * back and keeps the points, for every sale.
    */
  lemma UnreadableBodyKeepsBoth(sg: Saga, k: nat, read: Transport, committed: bool)
    requires Good(sg) && sg.op.kind == Sell && CallAt(sg, k) == Running(Requester)
    ensures var seen := RequestSeen(Response(200, NotJson), read, committed);
            var end := Next(Next(sg, Answer(k, true, seen)), Handle(k));
            && seen == Rejected && Closed(end) && end.op.state == Compensated
            && end.effects.moved == 0 && end.effects.net == 1
  {
    LiveHoldsLease(sg, k);
  }

  /** So does a refused balance read after a purchase whose confirmation carried
    * no balance: the points are gone and nothing is granted.
    */
  lemma FailedReadLosesPoints(sg: Saga, k: nat, committed: bool)
    requires Good(sg) && sg.op.kind == Buy && CallAt(sg, k) == Running(Requester)
    ensures var seen := RequestSeen(Response(200, Json(Missing)), Response(403, NotJson), committed);
            var end := Next(Next(sg, Answer(k, true, seen)), Handle(k));
            seen == Rejected && Closed(end) && end.op.state == Failed && end.effects.moved == 0 && end.effects.net == 1
  {
    LiveHoldsLease(sg, k);
  }

  lemma LiveHoldsLease(sg: Saga, k: nat)
    requires Good(sg) && CallAt(sg, k).Running?
    ensures sg.event.state == EventProcessing && sg.effects.net == 0 && Untouched(sg.op) && Alone(sg, k)
  {
    assert CallTrue(sg, sg.calls[k]) && !Unhurried(sg, k);
  }
}
