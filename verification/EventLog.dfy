/** The sequence numbers of one operation's event log: the cached counter of
  * `EconomyService._append_event` and of the worker, and the writer of
  * `economy_reconciliation.py` that reads the stored maximum.
  *
  * Events are only added to a session; they reach the table when the session
  * flushes, where (operation, number) is unique. A rollback drops what was
  * added but leaves the counter on the operation object where it was.
  */
module EventLog {

  type SessionId = int

  datatype Counter = Unread | Last(number: nat)

  /** A database session holding the operation object. */
  datatype Session = Session(counter: Counter, added: seq<nat>)

  datatype Log = Log(stored: seq<nat>, sessions: map<SessionId, Session>)

  datatype Event =
    | Open(id: SessionId)
    | Append(id: SessionId)
    | AppendReconciled(id: SessionId)
    | Commit(id: SessionId)
    | Rollback(id: SessionId)
    | Close(id: SessionId)

  // ---- on values -----------------------------------------------------------

  predicate Increasing(s: seq<nat>)
  {
    forall i, j :: 0 <= i < j < |s| ==> s[i] < s[j]
  }

  predicate Unique(s: seq<nat>)
  {
    forall i, j :: 0 <= i < j < |s| ==> s[i] != s[j]
  }

  function Max(s: seq<nat>): (m: nat)
    ensures forall i :: 0 <= i < |s| ==> s[i] <= m
    ensures s != [] ==> m in s
    ensures s == [] ==> m == 0
  {
    if s == [] then 0 else
    var last := s[|s| - 1];
    var before := Max(s[..|s| - 1]);
    if before < last || |s| == 1 then last else before
  }

  function New(): Session { Session(Unread, []) }

  /** The session has taken no number from the counter or the table. */
  predicate Idle(s: Session) { s == New() }

  /** The number an append through the cached counter takes. */
  function NextNumber(stored: seq<nat>, s: Session): nat
  {
    1 + if s.counter.Unread? then Max(stored) else s.counter.number
  }

  /** What a flush of the added rows makes of the table, unless one collides. */
  predicate Fits(stored: seq<nat>, added: seq<nat>) { Unique(stored + added) }

  function Step(l: Log, ev: Event): Log
  {
    if ev.Open? then l.(sessions := l.sessions[ev.id := New()])
    else if ev.id !in l.sessions then l
    else
      var s := l.sessions[ev.id];
      match ev
      case Append(id) =>
        var n := NextNumber(l.stored, s);
        l.(sessions := l.sessions[id := s.(counter := Last(n), added := s.added + [n])])
      case AppendReconciled(id) =>
        if Fits(l.stored, s.added)
        then l.(sessions := l.sessions[id := s.(added := s.added + [Max(l.stored + s.added) + 1])])
        else l.(sessions := l.sessions[id := s.(added := [])])
      case Commit(id) =>
        Log(if Fits(l.stored, s.added) then l.stored + s.added else l.stored, l.sessions[id := s.(added := [])])
      case Rollback(id) => l.(sessions := l.sessions[id := s.(added := [])])
      case Close(id) => l.(sessions := l.sessions - {id})
  }

  function Run(l: Log, evs: seq<Event>): Log
    decreases |evs|
  {
    if evs == [] then l else Run(Step(l, evs[0]), evs[1..])
  }

  /** Whatever the sessions do, no number is stored twice. */
  lemma {:induction false} UniqueAlways(l: Log, evs: seq<Event>)
    requires Unique(l.stored)
    ensures Unique(Run(l, evs).stored)
    decreases |evs|
  {
    if evs != [] {
      UniqueAlways(Step(l, evs[0]), evs[1..]);
    }
  }

  // ---- exactly when a step keeps the numbers in order ----------------------

  predicate Clash(a: seq<nat>, b: seq<nat>) { exists i :: 0 <= i < |a| && a[i] in b }

  /** What a session added continues the table, unless it is refused anyway. */
  predicate Continues(stored: seq<nat>, added: seq<nat>)
  {
    Fits(stored, added) ==> Increasing(stored + added)
  }

  /** At most one of two sessions can store what it added. */
  predicate Exclusive(stored: seq<nat>, a: seq<nat>, b: seq<nat>)
  {
    a != [] && b != [] && Fits(stored, a) && Fits(stored, b) ==> Clash(a, b)
  }

  ghost predicate Ordered(l: Log)
  {
    && Increasing(l.stored)
    && (forall id :: id in l.sessions ==> Continues(l.stored, l.sessions[id].added))
    && (forall a, b :: a in l.sessions && b in l.sessions && a != b ==>
          Exclusive(l.stored, l.sessions[a].added, l.sessions[b].added))
  }

  /** A session takes number n in order: it is refused for it, or n is above all
    * it can see, and whoever else has numbers to store has this one too.
    */
  predicate TakesInOrder(l: Log, id: SessionId, n: nat)
    requires id in l.sessions
  {
    var mine := l.sessions[id].added;
    || n in l.stored + mine || !Fits(l.stored, mine)
    || (&& n > Max(l.stored + mine)
        && (mine == [] ==> forall other :: other in l.sessions && other != id ==>
                             Yields(l.stored, l.sessions[other].added, n)))
  }

  /** A session that has numbers to store has n among them. */
  predicate Yields(stored: seq<nat>, added: seq<nat>, n: nat)
  {
    added != [] && Fits(stored, added) ==> n in added
  }

  predicate InOrder(l: Log, ev: Event)
  {
    ev.id in l.sessions ==>
      var s := l.sessions[ev.id];
      match ev
      case Append(id) => TakesInOrder(l, id, NextNumber(l.stored, s))
      case AppendReconciled(id) => Fits(l.stored, s.added) ==> TakesInOrder(l, id, Max(l.stored + s.added) + 1)
      case _ => true
  }

  predicate InOrderRun(l: Log, evs: seq<Event>)
    decreases |evs|
  {
    evs == [] || (InOrder(l, evs[0]) && InOrderRun(Step(l, evs[0]), evs[1..]))
  }

  lemma MaxMore(s: seq<nat>, n: nat)
    requires Max(s) < n
    ensures Max(s + [n]) == n
  {
    assert (s + [n])[|s|] == n;
    assert Max(s + [n]) in s + [n];
  }

  lemma IncreasingMore(s: seq<nat>, n: nat)
    requires Increasing(s) && Max(s) < n
    ensures Increasing(s + [n]) && Max(s + [n]) == n
  {
    MaxMore(s, n);
  }

  lemma OneMoreIsIncreasingIff(s: seq<nat>, n: nat)
    requires Increasing(s)
    ensures Increasing(s + [n]) <==> (s == [] || Max(s) < n)
  {
    if Max(s) < n {
      IncreasingMore(s, n);
    } else if s != [] {
      var i :| 0 <= i < |s| && s[i] == Max(s);
      var longer := s + [n];
      assert longer[i] >= longer[|s|];
    }
  }

  lemma OneMoreIsUniqueIff(s: seq<nat>, n: nat)
    ensures Unique(s + [n]) <==> Unique(s) && n !in s
  {
    var longer := s + [n];
    assert longer[|s|] == n;
    if n in s {
      var i :| 0 <= i < |s| && s[i] == n;
      assert longer[i] == longer[|s|];
    }
    if Unique(longer) {
      forall i, j | 0 <= i < j < |s| ensures s[i] != s[j] {
        assert longer[i] == s[i] && longer[j] == s[j];
      }
    }
  }

  lemma ContinuesIff(stored: seq<nat>, added: seq<nat>, n: nat)
    requires Continues(stored, added) && n > 0
    ensures Fits(stored, added + [n]) <==> Fits(stored, added) && n !in stored + added
    ensures Continues(stored, added + [n]) <==>
            (n in stored + added || !Fits(stored, added) || n > Max(stored + added))
  {
    var all := stored + added;
    assert stored + (added + [n]) == all + [n];
    OneMoreIsUniqueIff(all, n);
    if Fits(stored, added) && n !in all {
      OneMoreIsIncreasingIff(all, n);
    }
  }

  lemma ClashMore(a: seq<nat>, n: nat, b: seq<nat>)
    ensures Clash(a + [n], b) <==> Clash(a, b) || n in b
  {
    var longer := a + [n];
    assert longer[|a|] == n;
    if Clash(a, b) {
      var i :| 0 <= i < |a| && a[i] in b;
      assert longer[i] in b;
    }
  }

  lemma ClashBothWays(a: seq<nat>, b: seq<nat>)
    ensures Clash(a, b) <==> Clash(b, a)
  {
    if Clash(a, b) {
      var i :| 0 <= i < |a| && a[i] in b;
      var j :| 0 <= j < |b| && b[j] == a[i];
      assert b[j] in a;
    }
    if Clash(b, a) {
      var i :| 0 <= i < |b| && b[i] in a;
      var j :| 0 <= j < |a| && a[j] == b[i];
      assert a[j] in b;
    }
  }

  /** A session with one more number n, next to the others. */
  lemma OneMoreInOrderIff(l: Log, id: SessionId, n: nat, s': Session)
    requires Ordered(l) && id in l.sessions && n > 0 && s'.added == l.sessions[id].added + [n]
    ensures Ordered(l.(sessions := l.sessions[id := s'])) <==> TakesInOrder(l, id, n)
  {
    var mine, sessions := l.sessions[id].added, l.sessions[id := s'];
    ContinuesIff(l.stored, mine, n);
    forall other | other in l.sessions && other != id
      ensures Exclusive(l.stored, s'.added, l.sessions[other].added) <==>
              Exclusive(l.stored, l.sessions[other].added, s'.added)
      ensures Exclusive(l.stored, s'.added, l.sessions[other].added) <==>
              (n in l.stored + mine || !Fits(l.stored, mine) || mine != [] || l.sessions[other].added == [] ||
               !Fits(l.stored, l.sessions[other].added) || n in l.sessions[other].added)
    {
      var b := l.sessions[other].added;
      assert Exclusive(l.stored, mine, b);
      ClashMore(mine, n, b);
      ClashBothWays(s'.added, b);
    }
    if TakesInOrder(l, id, n) {
      forall a, b | a in sessions && b in sessions && a != b
        ensures Exclusive(l.stored, sessions[a].added, sessions[b].added)
      {
        assert a != id && b != id ==> Exclusive(l.stored, l.sessions[a].added, l.sessions[b].added);
      }
      forall other | other in sessions ensures Continues(l.stored, sessions[other].added) {
        assert other != id ==> Continues(l.stored, l.sessions[other].added);
      }
    }
    if Ordered(l.(sessions := sessions)) {
      assert Continues(l.stored, sessions[id].added);
      forall other | other in l.sessions && other != id ensures Exclusive(l.stored, s'.added, l.sessions[other].added) {
        assert Exclusive(l.stored, sessions[id].added, sessions[other].added);
      }
    }
  }

  /** Emptying a session leaves the rest in order. */
  lemma OrderedWithout(l: Log, id: SessionId, s': Session)
    requires Ordered(l) && s'.added == []
    ensures Ordered(l.(sessions := l.sessions[id := s']))
  {
    var sessions := l.sessions[id := s'];
    assert l.stored + [] == l.stored;
    forall other | other in sessions ensures Continues(l.stored, sessions[other].added) {
      assert other != id ==> Continues(l.stored, l.sessions[other].added);
    }
    forall a, b | a in sessions && b in sessions && a != b
      ensures Exclusive(l.stored, sessions[a].added, sessions[b].added)
    {
      assert a != id && b != id ==> Exclusive(l.stored, l.sessions[a].added, l.sessions[b].added);
    }
  }

  lemma FitsLess(stored: seq<nat>, added: seq<nat>, b: seq<nat>)
    requires Fits(stored + added, b)
    ensures Fits(stored, b) && !Clash(added, b)
  {
    var all, less := (stored + added) + b, stored + b;
    var n := |stored| + |added|;
    forall i, j | 0 <= i < j < |less| ensures less[i] != less[j] {
      var i', j' := (if i < |stored| then i else i + |added|), if j < |stored| then j else j + |added|;
      assert all[i'] == less[i] && all[j'] == less[j];
    }
    forall i, j | 0 <= i < |added| && 0 <= j < |b| ensures added[i] != b[j] {
      assert all[|stored| + i] == added[i] && all[n + j] == b[j];
    }
  }

  /** Storing what one session added leaves the others in order. */
  lemma OrderedAfterCommit(l: Log, id: SessionId, s': Session)
    requires Ordered(l) && id in l.sessions && Fits(l.stored, l.sessions[id].added) && s'.added == []
    ensures Ordered(Log(l.stored + l.sessions[id].added, l.sessions[id := s']))
  {
    var mine, sessions := l.sessions[id].added, l.sessions[id := s'];
    var stored := l.stored + mine;
    assert stored + [] == stored;
    forall other | other in sessions ensures Continues(stored, sessions[other].added) {
      if other != id && Fits(stored, sessions[other].added) && sessions[other].added != [] {
        FitsLess(l.stored, mine, sessions[other].added);
        assert Exclusive(l.stored, mine, l.sessions[other].added);
        assert mine == [] && stored == l.stored;
      }
    }
    forall a, b | a in sessions && b in sessions && a != b
      ensures Exclusive(stored, sessions[a].added, sessions[b].added)
    {
      if a != id && b != id && Fits(stored, sessions[a].added) && Fits(stored, sessions[b].added) {
        FitsLess(l.stored, mine, sessions[a].added);
        FitsLess(l.stored, mine, sessions[b].added);
        assert Exclusive(l.stored, l.sessions[a].added, l.sessions[b].added);
      }
    }
  }

  /** A step keeps the numbers in order exactly when the number it takes, if any,
    * is taken in order; whatever else the other sessions are doing.
    */
  lemma OrderedStepIff(l: Log, ev: Event)
    requires Ordered(l)
    ensures Ordered(Step(l, ev)) <==> InOrder(l, ev)
  {
    if ev.Open? {
      OrderedWithout(l, ev.id, New());
    } else if ev.id in l.sessions {
      var s := l.sessions[ev.id];
      match ev
      case Append(id) =>
        OneMoreInOrderIff(l, id, NextNumber(l.stored, s), Step(l, ev).sessions[id]);
      case AppendReconciled(id) =>
        if Fits(l.stored, s.added) {
          OneMoreInOrderIff(l, id, Max(l.stored + s.added) + 1, Step(l, ev).sessions[id]);
        } else {
          OrderedWithout(l, id, s.(added := []));
        }
      case Commit(id) =>
        if Fits(l.stored, s.added) {
          OrderedAfterCommit(l, id, s.(added := []));
        } else {
          OrderedWithout(l, id, s.(added := []));
        }
      case Rollback(id) => OrderedWithout(l, id, s.(added := []));
      case Close(id) =>
    }
  }

  /** Over every interleaving of such steps the stored numbers are strictly
    * increasing in the order of the commits, and never rewritten.
    */
  lemma {:induction false} IncreasingAlways(l: Log, evs: seq<Event>)
    requires Ordered(l) && InOrderRun(l, evs)
    ensures Ordered(Run(l, evs)) && l.stored <= Run(l, evs).stored
    decreases |evs|
  {
    if evs != [] {
      OrderedStepIff(l, evs[0]);
      IncreasingAlways(Step(l, evs[0]), evs[1..]);
    }
  }

  /** Only commits, rollbacks, and sessions that come and go. */
  predicate TakesNothing(evs: seq<Event>)
  {
    forall i :: 0 <= i < |evs| ==> !evs[i].Append? && !evs[i].AppendReconciled?
  }

  /** `Ordered` is no stronger than it must be: it says that the table stays
    * increasing whichever sessions commit, in whichever order.
    */
  lemma OrderedIff(l: Log)
    ensures Ordered(l) <==> forall evs :: TakesNothing(evs) ==> Increasing(Run(l, evs).stored)
  {
    if Ordered(l) {
      forall evs | TakesNothing(evs) ensures Increasing(Run(l, evs).stored) {
        TakesNothingInOrder(l, evs);
        IncreasingAlways(l, evs);
      }
    }
    if forall evs :: TakesNothing(evs) ==> Increasing(Run(l, evs).stored) {
      assert TakesNothing([]) && Run(l, []) == l;
      forall id | id in l.sessions ensures Continues(l.stored, l.sessions[id].added) {
        assert TakesNothing([Commit(id)]);
        CommittedAlone(l, id);
      }
      forall a, b | a in l.sessions && b in l.sessions && a != b
        ensures Exclusive(l.stored, l.sessions[a].added, l.sessions[b].added)
      {
        assert TakesNothing([Commit(a), Commit(b)]) && TakesNothing([Commit(b), Commit(a)]);
        CommittedBothWays(l, a, b);
      }
    }
  }

  lemma CommittedAlone(l: Log, id: SessionId)
    requires id in l.sessions && Increasing(Run(l, [Commit(id)]).stored)
    ensures Continues(l.stored, l.sessions[id].added)
  {
    OneStep(l, Commit(id));
  }

  lemma CommittedBothWays(l: Log, a: SessionId, b: SessionId)
    requires a in l.sessions && b in l.sessions && a != b
    requires Increasing(Run(l, [Commit(a), Commit(b)]).stored) && Increasing(Run(l, [Commit(b), Commit(a)]).stored)
    ensures Exclusive(l.stored, l.sessions[a].added, l.sessions[b].added)
  {
    TwoCommits(l, a, b);
    TwoCommits(l, b, a);
    ClashBothWays(l.sessions[a].added, l.sessions[b].added);
    NotBothWays(l.stored, l.sessions[a].added, l.sessions[b].added);
  }

  lemma {:induction false} TakesNothingInOrder(l: Log, evs: seq<Event>)
    requires TakesNothing(evs)
    ensures InOrderRun(l, evs)
    decreases |evs|
  {
    if evs != [] {
      assert !evs[0].Append? && !evs[0].AppendReconciled?;
      assert forall i :: 0 <= i < |evs[1..]| ==> evs[1..][i] == evs[i + 1];
      TakesNothingInOrder(Step(l, evs[0]), evs[1..]);
    }
  }

  lemma TwoCommits(l: Log, a: SessionId, b: SessionId)
    requires a in l.sessions && b in l.sessions && a != b
    ensures var mine, theirs := l.sessions[a].added, l.sessions[b].added;
            Fits(l.stored, mine) && Fits(l.stored, theirs) && !Clash(mine, theirs) ==>
              Run(l, [Commit(a), Commit(b)]).stored == l.stored + mine + theirs
  {
    var mine, theirs := l.sessions[a].added, l.sessions[b].added;
    if Fits(l.stored, mine) && Fits(l.stored, theirs) && !Clash(mine, theirs) {
      FitsMore(l.stored, mine, theirs);
    }
    assert [Commit(a), Commit(b)][1..] == [Commit(b)];
    OneStep(Step(l, Commit(a)), Commit(b));
  }

  lemma FitsMore(stored: seq<nat>, a: seq<nat>, b: seq<nat>)
    requires Fits(stored, a) && Fits(stored, b) && !Clash(a, b)
    ensures Fits(stored + a, b)
  {
    var all, m := stored + a + b, |stored| + |a|;
    forall i, j | 0 <= i < j < |all| ensures all[i] != all[j] {
      if j < m {
        assert all[i] == (stored + a)[i] && all[j] == (stored + a)[j];
      } else if i < |stored| {
        assert all[i] == (stored + b)[i] && all[j] == (stored + b)[j - |a|];
      } else if i < m {
        assert all[i] == a[i - |stored|] && all[j] == b[j - m];
      } else {
        assert all[i] == (stored + b)[i - |a|] && all[j] == (stored + b)[j - |a|];
      }
    }
  }

  /** Two runs of numbers cannot each be above the other. */
  lemma NotBothWays(stored: seq<nat>, a: seq<nat>, b: seq<nat>)
    ensures Increasing(stored + a + b) && Increasing(stored + b + a) ==> a == [] || b == []
  {
    if a != [] && b != [] {
      var ab, ba, n := stored + a + b, stored + b + a, |stored|;
      assert ab[n] == a[0] && ab[n + |a|] == b[0];
      assert ba[n] == b[0] && ba[n + |b|] == a[0];
    }
  }

  // ---- counters that are not ahead -----------------------------------------

  /** The numbers 1, 2, 3, ... */
  predicate Gapless(s: seq<nat>) { forall i :: 0 <= i < |s| ==> s[i] == i + 1 }

  ghost predicate Chained(l: Log)
  {
    Gapless(l.stored) && forall id :: id in l.sessions && Fits(l.stored, l.sessions[id].added) ==>
                           Gapless(l.stored + l.sessions[id].added)
  }

  /** The counter an append goes through was not left ahead by a rollback. */
  predicate NotAhead(l: Log, ev: Event)
  {
    ev.Append? && ev.id in l.sessions && Fits(l.stored, l.sessions[ev.id].added) ==>
      var s := l.sessions[ev.id];
      NextNumber(l.stored, s) <= Max(l.stored + s.added) + 1
  }

  predicate NotAheadRun(l: Log, evs: seq<Event>)
    decreases |evs|
  {
    evs == [] || (NotAhead(l, evs[0]) && NotAheadRun(Step(l, evs[0]), evs[1..]))
  }

  lemma {:induction false} GaplessMax(s: seq<nat>)
    requires Gapless(s)
    ensures Max(s) == |s| && Unique(s) && Increasing(s) && forall n: nat :: n in s <==> 1 <= n <= |s|
  {
    if s != [] {
      GaplessMax(s[..|s| - 1]);
    }
    forall n: nat | 1 <= n <= |s| ensures n in s {
      assert s[n - 1] == n;
    }
  }

  lemma GaplessMore(s: seq<nat>, n: nat)
    requires Gapless(s) && n > 0
    ensures Unique(s + [n]) <==> n > |s|
    ensures Gapless(s + [n]) <==> n == |s| + 1
  {
    GaplessMax(s);
    OneMoreIsUniqueIff(s, n);
    assert (s + [n])[|s|] == n;
  }

  lemma ChainedIsOrdered(l: Log)
    requires Chained(l)
    ensures Ordered(l)
  {
    GaplessMax(l.stored);
    forall id | id in l.sessions ensures Continues(l.stored, l.sessions[id].added) {
      if Fits(l.stored, l.sessions[id].added) {
        GaplessMax(l.stored + l.sessions[id].added);
      }
    }
    forall a, b | a in l.sessions && b in l.sessions && a != b
      ensures Exclusive(l.stored, l.sessions[a].added, l.sessions[b].added)
    {
      var mine, theirs := l.sessions[a].added, l.sessions[b].added;
      if mine != [] && theirs != [] && Fits(l.stored, mine) && Fits(l.stored, theirs) {
        assert (l.stored + mine)[|l.stored|] == mine[0] && (l.stored + theirs)[|l.stored|] == theirs[0];
      }
    }
  }

  lemma OneMoreChainedIff(l: Log, id: SessionId, n: nat, s': Session)
    requires Chained(l) && id in l.sessions && n > 0 && s'.added == l.sessions[id].added + [n]
    ensures Chained(l.(sessions := l.sessions[id := s'])) <==>
            (Fits(l.stored, l.sessions[id].added) ==> n <= Max(l.stored + l.sessions[id].added) + 1)
  {
    var mine, sessions := l.sessions[id].added, l.sessions[id := s'];
    var all := l.stored + mine;
    assert l.stored + s'.added == all + [n];
    OneMoreIsUniqueIff(all, n);
    if Fits(l.stored, mine) {
      GaplessMore(all, n);
      GaplessMax(all);
    }
    assert forall other :: other in sessions && other != id ==> sessions[other] == l.sessions[other];
    assert sessions[id] == s';
  }

  lemma ChainedStepIff(l: Log, ev: Event)
    requires Chained(l)
    ensures Chained(Step(l, ev)) <==> NotAhead(l, ev)
  {
    assert l.stored + [] == l.stored;
    if ev.id in l.sessions && !ev.Open? {
      var s := l.sessions[ev.id];
      match ev
      case Append(id) => OneMoreChainedIff(l, id, NextNumber(l.stored, s), Step(l, ev).sessions[id]);
      case AppendReconciled(id) =>
        if Fits(l.stored, s.added) {
          OneMoreChainedIff(l, id, Max(l.stored + s.added) + 1, Step(l, ev).sessions[id]);
        }
      case Commit(id) =>
        if Fits(l.stored, s.added) {
          ChainedAfterCommit(l, id);
        }
      case Rollback(id) =>
      case Close(id) =>
    }
  }

  lemma ChainedAfterCommit(l: Log, id: SessionId)
    requires Chained(l) && id in l.sessions && Fits(l.stored, l.sessions[id].added)
    ensures Chained(Step(l, Commit(id)))
  {
    var mine := l.sessions[id].added;
    var after := Step(l, Commit(id));
    assert after.stored + [] == after.stored;
    ChainedIsOrdered(l);
    forall other | other in after.sessions && Fits(after.stored, after.sessions[other].added)
      ensures Gapless(after.stored + after.sessions[other].added)
    {
      if other != id && after.sessions[other].added != [] {
        FitsLess(l.stored, mine, after.sessions[other].added);
        assert Exclusive(l.stored, mine, l.sessions[other].added);
        assert mine == [] && after.stored == l.stored;
      }
    }
  }

  /** However many sessions are open at once: as long as none appends through a
    * counter that is ahead, the table holds 1, 2, 3, ... without a gap.
    */
  lemma {:induction false} NoGaps(l: Log, evs: seq<Event>)
    requires Chained(l) && NotAheadRun(l, evs)
    ensures Chained(Run(l, evs)) && l.stored <= Run(l, evs).stored
    decreases |evs|
  {
    if evs != [] {
      ChainedStepIff(l, evs[0]);
      NoGaps(Step(l, evs[0]), evs[1..]);
    }
  }

  /** Session a rolls back and goes on through its counter, b starts afresh. */
  function LeavingAGap(a: SessionId, b: SessionId): seq<Event> { [Append(a), Rollback(a), Append(a), Append(b)] }

  function Commits(a: SessionId, b: SessionId): seq<Event> { [Commit(a), Commit(b)] }

  /** Two sessions start from one table. One rolls back and goes on with its
    * counter ahead; when the other commits later, it fills the gap from behind.
    */
  lemma GapFilledLate(l: Log, a: SessionId, b: SessionId)
    requires Chained(l) && a != b && a in l.sessions && b in l.sessions && Idle(l.sessions[a]) && Idle(l.sessions[b])
    ensures Run(l, LeavingAGap(a, b) + Commits(a, b)).stored == l.stored + [|l.stored| + 2] + [|l.stored| + 1]
  {
    var n := |l.stored|;
    GaplessMax(l.stored);
    FirstFour(l, Append(a), Rollback(a), Append(a), Append(b), Commits(a, b));
    GapPending(l, a, b);
    CommitsOfTwo(WithSession(WithSession(l, a, n + 2), b, n + 1), a, b, n + 2, n + 1);
  }

  /** A session has taken number n and nothing else. */
  function WithSession(l: Log, id: SessionId, n: nat): Log
  {
    l.(sessions := l.sessions[id := Session(Last(n), [n])])
  }

  lemma CommitsOfTwo(l: Log, a: SessionId, b: SessionId, n: nat, m: nat)
    requires a in l.sessions && b in l.sessions && a != b && n != m
    requires l.sessions[a].added == [n] && l.sessions[b].added == [m]
    requires Unique(l.stored) && n !in l.stored && m !in l.stored
    ensures Run(l, Commits(a, b)).stored == l.stored + [n] + [m]
  {
    OneMoreIsUniqueIff(l.stored, n);
    OneMoreIsUniqueIff(l.stored, m);
    TwoCommits(l, a, b);
  }

  lemma AppendsNext(l: Log, id: SessionId, n: nat)
    requires id in l.sessions && l.sessions[id].added == [] && n == NextNumber(l.stored, l.sessions[id])
    ensures Step(l, Append(id)) == WithSession(l, id, n)
  {
    assert [] + [n] == [n];
  }

  lemma GapPending(l: Log, a: SessionId, b: SessionId)
    requires Max(l.stored) == |l.stored| && a != b && a in l.sessions && b in l.sessions
    requires Idle(l.sessions[a]) && Idle(l.sessions[b])
    ensures var n := |l.stored|;
            Step(Step(Step(Step(l, Append(a)), Rollback(a)), Append(a)), Append(b)) ==
            WithSession(WithSession(l, a, n + 2), b, n + 1)
  {
    var n := |l.stored|;
    AppendsNext(l, a, n + 1);
    var l2 := Step(WithSession(l, a, n + 1), Rollback(a));
    AppendsNext(l2, a, n + 2);
    assert WithSession(l2, a, n + 2) == WithSession(l, a, n + 2);
    AppendsNext(WithSession(l, a, n + 2), b, n + 1);
  }

  lemma FirstFour(l: Log, e0: Event, e1: Event, e2: Event, e3: Event, rest: seq<Event>)
    ensures Run(l, [e0, e1, e2, e3] + rest) == Run(Step(Step(Step(Step(l, e0), e1), e2), e3), rest)
  {
    var l2 := Step(Step(l, e0), e1);
    assert [e0, e1, e2, e3] + rest == [e0, e1] + ([e2, e3] + rest);
    FirstTwo(l, e0, e1, [e2, e3] + rest);
    FirstTwo(l2, e2, e3, rest);
  }

  lemma FirstTwo(l: Log, e0: Event, e1: Event, rest: seq<Event>)
    ensures Run(l, [e0, e1] + rest) == Run(Step(Step(l, e0), e1), rest)
  {
    assert ([e0, e1] + rest)[1..] == [e1] + rest && ([e1] + rest)[1..] == rest;
  }

  // ---- sessions one after the other ----------------------------------------

  /** What a handler, the worker or an administrator does in its session, which
    * is opened and closed once.
    */
  predicate Body(evs: seq<Event>, id: SessionId)
  {
    forall i :: 0 <= i < |evs| ==> evs[i].id == id && !evs[i].Open? && !evs[i].Close?
  }

  /** Sessions one after the other; number i has id i. */
  function Serial(bodies: seq<seq<Event>>): seq<Event>
  {
    if bodies == [] then [] else
    var n := |bodies| - 1;
    Serial(bodies[..n]) + [Open(n)] + bodies[n] + [Close(n)]
  }

  lemma {:induction false} RunSum(l: Log, a: seq<Event>, b: seq<Event>)
    ensures Run(l, a + b) == Run(Run(l, a), b)
    ensures InOrderRun(l, a + b) <==> InOrderRun(l, a) && InOrderRun(Run(l, a), b)
    decreases |a|
  {
    if a == [] {
      assert a + b == b;
    } else {
      assert (a + b)[1..] == a[1..] + b;
      RunSum(Step(l, a[0]), a[1..], b);
    }
  }

  predicate NoHole(numbers: seq<nat>, from: nat)
  {
    forall m: nat :: from < m <= Max(numbers) ==> m in numbers
  }

  /** The counter is above every hole, so that what it gives is new or taken. */
  predicate AboveHoles(stored: seq<nat>, s: Session)
  {
    var last := NextNumber(stored, s) - 1;
    NoHole(stored, last) && NoHole(stored + s.added, last)
  }

  lemma NoHoleMore(numbers: seq<nat>, from: nat, n: nat)
    requires NoHole(numbers, from) && from < n && n <= Max(numbers) + 1
    ensures NoHole(numbers + [n], from)
  {
    var longer := numbers + [n];
    assert longer[|numbers|] == n;
    var top := Max(longer);
    assert top in longer;
    assert top <= Max(numbers) + 1;
    forall m: nat | from < m <= top ensures m in longer {
      assert m in numbers || m == n;
    }
  }

  lemma AboveHolesAfterAppend(stored: seq<nat>, s: Session)
    requires AboveHoles(stored, s)
    ensures var n := NextNumber(stored, s); AboveHoles(stored, Session(Last(n), s.added + [n]))
  {
    var all, n := stored + s.added, NextNumber(stored, s);
    assert stored + (s.added + [n]) == all + [n];
    if n <= Max(all) {
      NoHoleMore(all, n - 1, n);
    } else {
      NothingAbove(all, n, n);
    }
  }

  lemma AboveHolesAfterReconciled(stored: seq<nat>, s: Session, n: nat)
    requires AboveHoles(stored, s) && n == Max(stored + s.added) + 1
    ensures AboveHoles(stored, s.(added := s.added + [n]))
  {
    var all, last := stored + s.added, NextNumber(stored, s) - 1;
    assert stored + (s.added + [n]) == all + [n];
    if last < n {
      NoHoleMore(all, last, n);
    } else {
      NothingAbove(all, last, n);
    }
  }

  lemma NothingAbove(numbers: seq<nat>, from: nat, n: nat)
    requires Max(numbers) < n <= from
    ensures NoHole(numbers + [n], from)
  {
    MaxMore(numbers, n);
  }

  lemma AboveHolesWithout(stored: seq<nat>, s: Session)
    requires AboveHoles(stored, s)
    ensures AboveHoles(stored, s.(added := [])) && AboveHoles(stored + s.added, s.(added := []))
  {
    var all := stored + s.added;
    assert stored + [] == stored && all + [] == all;
  }

  /** The only open session takes its numbers in order. */
  lemma AloneInOrder(l: Log, ev: Event)
    requires l.sessions.Keys == {ev.id} && !ev.Open? && !ev.Close? && AboveHoles(l.stored, l.sessions[ev.id])
    ensures InOrder(l, ev) && Step(l, ev).sessions.Keys == {ev.id}
  {
    var s := l.sessions[ev.id];
    if ev.Append? && NextNumber(l.stored, s) <= Max(l.stored + s.added) {
      assert NextNumber(l.stored, s) in l.stored + s.added;
    }
  }

  /** Its counter stays above every hole. */
  predicate StaysAbove(l: Log, id: SessionId)
  {
    id in l.sessions && AboveHoles(l.stored, l.sessions[id])
  }

  lemma AppendStaysAbove(l: Log, id: SessionId)
    requires StaysAbove(l, id)
    ensures StaysAbove(Step(l, Append(id)), id)
  {
    AboveHolesAfterAppend(l.stored, l.sessions[id]);
  }

  lemma ReconciledStaysAbove(l: Log, id: SessionId)
    requires StaysAbove(l, id)
    ensures StaysAbove(Step(l, AppendReconciled(id)), id)
  {
    var s := l.sessions[id];
    if Fits(l.stored, s.added) {
      TopStaysAbove(l, id, Max(l.stored + s.added) + 1, Step(l, AppendReconciled(id)));
    } else {
      AboveHolesWithout(l.stored, s);
    }
  }

  lemma TopStaysAbove(l: Log, id: SessionId, n: nat, after: Log)
    requires StaysAbove(l, id) && n == Max(l.stored + l.sessions[id].added) + 1
    requires after == l.(sessions := l.sessions[id := l.sessions[id].(added := l.sessions[id].added + [n])])
    ensures StaysAbove(after, id)
  {
    AboveHolesAfterReconciled(l.stored, l.sessions[id], n);
  }

  lemma EmptiedStaysAbove(l: Log, id: SessionId)
    requires StaysAbove(l, id)
    ensures StaysAbove(Step(l, Commit(id)), id) && StaysAbove(Step(l, Rollback(id)), id)
  {
    AboveHolesWithout(l.stored, l.sessions[id]);
  }

  lemma {:induction false} BodyInOrder(l: Log, id: SessionId, evs: seq<Event>)
    requires Body(evs, id) && l.sessions.Keys == {id} && Ordered(l) && AboveHoles(l.stored, l.sessions[id])
    ensures InOrderRun(l, evs) && Run(l, evs).sessions.Keys == {id} && Ordered(Run(l, evs))
    decreases |evs|
  {
    if evs != [] {
      AloneInOrder(l, evs[0]);
      match evs[0] {
        case Append(_) => AppendStaysAbove(l, id);
        case AppendReconciled(_) => ReconciledStaysAbove(l, id);
        case _ => EmptiedStaysAbove(l, id);
      }
      OrderedStepIff(l, evs[0]);
      assert forall i :: 0 <= i < |evs[1..]| ==> evs[1..][i] == evs[i + 1];
      BodyInOrder(Step(l, evs[0]), id, evs[1..]);
    }
  }

  lemma {:induction false} SerialInOrder(l: Log, bodies: seq<seq<Event>>)
    requires l.sessions == map[] && Ordered(l) && forall i :: 0 <= i < |bodies| ==> Body(bodies[i], i)
    ensures InOrderRun(l, Serial(bodies)) && Run(l, Serial(bodies)).sessions == map[] && Ordered(Run(l, Serial(bodies)))
  {
    if bodies != [] {
      var n := |bodies| - 1;
      SerialInOrder(l, bodies[..n]);
      var before := Run(l, Serial(bodies[..n]));
      var ready := Step(before, Open(n));
      OrderedStepIff(before, Open(n));
      assert before.stored + [] == before.stored;
      BodyInOrder(ready, n, bodies[n]);
      OrderedStepIff(Run(ready, bodies[n]), Close(n));
      OneStep(before, Open(n));
      OneStep(Run(ready, bodies[n]), Close(n));
      RunSum(l, Serial(bodies[..n]), [Open(n)]);
      RunSum(l, Serial(bodies[..n]) + [Open(n)], bodies[n]);
      RunSum(l, Serial(bodies[..n]) + [Open(n)] + bodies[n], [Close(n)]);
    }
  }

  lemma OneStep(l: Log, ev: Event)
    ensures Run(l, [ev]) == Step(l, ev) && (InOrderRun(l, [ev]) <==> InOrder(l, ev))
  {
    assert [ev][1..] == [];
  }

  /** Sessions that do not overlap only ever add numbers above the stored ones,
    * whichever writers they use and whatever they roll back.
    */
  lemma SerialIncreases(stored: seq<nat>, bodies: seq<seq<Event>>)
    requires Increasing(stored) && forall i :: 0 <= i < |bodies| ==> Body(bodies[i], i)
    ensures var end := Run(Log(stored, map[]), Serial(bodies)); Increasing(end.stored) && stored <= end.stored
  {
    SerialInOrder(Log(stored, map[]), bodies);
    IncreasingAlways(Log(stored, map[]), Serial(bodies));
  }

  // ---- exactly when an append is in order ----------------------------------

  /** A session with nothing added appends one event and commits: the table
    * stays increasing exactly when its counter was unread or not behind. A
    * counter that is behind collides, or fills a gap below a stored number.
    */
  lemma AppendInOrderIff(l: Log, id: SessionId)
    requires Increasing(l.stored) && id in l.sessions && l.sessions[id].added == []
    ensures var s := l.sessions[id];
            var end := Step(Step(l, Append(id)), Commit(id));
            (end.stored != l.stored && Increasing(end.stored)) <==>
            (s.counter.Unread? || Max(l.stored) <= s.counter.number)
  {
    var n := NextNumber(l.stored, l.sessions[id]);
    assert Step(l, Append(id)).sessions[id].added == [n];
    var longer := l.stored + [n];
    var end := Step(Step(l, Append(id)), Commit(id));
    assert end.stored == if Fits(l.stored, [n]) then longer else l.stored;
    OneMoreIsIncreasingIff(l.stored, n);
    if Increasing(longer) {
      assert Unique(longer) && |longer| != |l.stored|;
    }
  }

  /** Two handlers of one operation that start from the same table, a request
    * and the recovery of its lease: whichever commits second is aborted.
    */
  lemma SecondWriterAborts(l: Log, a: SessionId, b: SessionId)
    requires Unique(l.stored) && a != b && a in l.sessions && b in l.sessions
    requires Idle(l.sessions[a]) && Idle(l.sessions[b])
    ensures var first := Step(Step(Step(l, Append(a)), Append(b)), Commit(a));
            |first.stored| == |l.stored| + 1 && Step(first, Commit(b)).stored == first.stored
  {
    var n := Max(l.stored) + 1;
    var one := Session(Last(n), [n]);
    assert [] + [n] == [n];
    assert Step(l, Append(a)) == l.(sessions := l.sessions[a := one]);
    SecondCollides(l.(sessions := l.sessions[a := one][b := one]), a, b, n);
  }

  lemma SecondCollides(l: Log, a: SessionId, b: SessionId, n: nat)
    requires Unique(l.stored) && n == Max(l.stored) + 1 && a != b && a in l.sessions && b in l.sessions
    requires l.sessions[a].added == [n] && l.sessions[b].added == [n]
    ensures var first := Step(l, Commit(a));
            |first.stored| == |l.stored| + 1 && Step(first, Commit(b)).stored == first.stored
  {
    OneMoreIsUniqueIff(l.stored, n);
    OneMoreIsUniqueIff(l.stored + [n], n);
  }

  /** An append through the counter after the reconciliation writer in the same
    * session takes the number that writer took.
    */
  lemma AppendAfterReconciledCollides(l: Log, id: SessionId)
    requires id in l.sessions && Fits(l.stored, l.sessions[id].added)
    requires l.sessions[id].counter == Last(Max(l.stored + l.sessions[id].added))
    ensures var end := Step(Step(l, AppendReconciled(id)), Append(id));
            !Fits(end.stored, end.sessions[id].added)
  {
    var s := l.sessions[id];
    var n := Max(l.stored + s.added) + 1;
    var end := Step(Step(l, AppendReconciled(id)), Append(id));
    assert end.sessions[id].added == s.added + [n] + [n];
    var all := end.stored + end.sessions[id].added;
    assert all[|all| - 2] == all[|all| - 1];
  }

  // ---- what becomes of what a session adds ---------------------------------

  /** The reconciliation writer takes the number above all stored and added ones,
    * and leaves the counter where it was.
    */
  lemma ReconciledIsStored(l: Log, id: SessionId)
    requires id in l.sessions && Unique(l.stored + l.sessions[id].added)
    ensures var all, end := l.stored + l.sessions[id].added, Step(Step(l, AppendReconciled(id)), Commit(id));
            && end.stored == all + [Max(all) + 1]
            && end.sessions == l.sessions[id := Session(l.sessions[id].counter, [])]
  {
    var all := l.stored + l.sessions[id].added;
    ReconciledAdds(l, id, all, Max(all) + 1);
    StoresOneMore(Step(l, AppendReconciled(id)), id, all, Max(all) + 1);
    assert Step(l, AppendReconciled(id)).sessions[id := Session(l.sessions[id].counter, [])] ==
           l.sessions[id := Session(l.sessions[id].counter, [])];
  }

  lemma ReconciledAdds(l: Log, id: SessionId, all: seq<nat>, n: nat)
    requires id in l.sessions && all == l.stored + l.sessions[id].added && Unique(all) && n == Max(all) + 1
    ensures var next, s := Step(l, AppendReconciled(id)), l.sessions[id];
            && next == l.(sessions := l.sessions[id := Session(s.counter, s.added + [n])])
            && next.stored + next.sessions[id].added == all + [n]
  {
    Reassociates(l.stored, l.sessions[id].added, n);
  }

  lemma Reassociates(a: seq<nat>, b: seq<nat>, n: nat)
    ensures a + (b + [n]) == (a + b) + [n]
  {
  }

  lemma StoresOneMore(l: Log, id: SessionId, all: seq<nat>, n: nat)
    requires id in l.sessions && Unique(all) && Max(all) < n && l.stored + l.sessions[id].added == all + [n]
    ensures Step(l, Commit(id)) == Log(all + [n], l.sessions[id := Session(l.sessions[id].counter, [])])
  {
    OneMoreIsUniqueIff(all, n);
  }

  /** A number that is taken aborts the whole flush: nothing of the session is
    * stored, then or later, and its counter stays where it was.
    */
  lemma CollisionDropsAll(l: Log, id: SessionId)
    requires id in l.sessions && Unique(l.stored) && !Unique(l.stored + l.sessions[id].added)
    ensures var end := l.(sessions := l.sessions[id := Session(l.sessions[id].counter, [])]);
            Step(l, Commit(id)) == end == Step(l, AppendReconciled(id)) && Step(end, Commit(id)).stored == l.stored
  {
    assert l.stored + [] == l.stored;
  }

  /** An operation that is loaded again forgets its counter. */
  lemma OpensAfresh(l: Log, id: SessionId)
    requires Unique(l.stored)
    ensures Step(Step(Step(l, Open(id)), Append(id)), Commit(id)).stored == l.stored + [Max(l.stored) + 1]
  {
    OneMoreIsUniqueIff(l.stored, Max(l.stored) + 1);
    assert [] + [Max(l.stored) + 1] == [Max(l.stored) + 1];
  }

  /** A closed session writes no more. */
  lemma ClosedIsGone(l: Log, id: SessionId, ev: Event)
    requires ev.id == id && !ev.Open?
    ensures Step(Step(l, Close(id)), ev) == Step(l, Close(id)) && Step(l, Close(id)).stored == l.stored
  {
  }

  // ---- the writers ---------------------------------------------------------

  class EventTable {
    var stored: seq<nat>
    var sessions: map<SessionId, Session>

    ghost function View(): Log
      reads this
    {
      Log(stored, sessions)
    }

    /** `_append_event`. */
    method AppendEvent(id: SessionId)
      requires id in sessions
      modifies this`sessions
      ensures View() == Step(old(View()), Append(id))
    {
      var s := sessions[id];
      var sequence;
      match s.counter {
        case Last(number) => sequence := number;
        case Unread => sequence := HighestStored(stored);
      }
      sequence := sequence + 1;
      sessions := sessions[id := s.(counter := Last(sequence), added := s.added + [sequence])];
    }

    /** The event of `apply_confirmed_buy_mass`: flush, read the maximum, add. */
    method AppendLocalMassApplied(id: SessionId) returns (flushed: bool)
      requires id in sessions
      modifies this`sessions
      ensures View() == Step(old(View()), AppendReconciled(id)) && flushed == Fits(stored, old(sessions[id].added))
    {
      var s := sessions[id];
      flushed := Fits(stored, s.added);
      if !flushed {
        sessions := sessions[id := s.(added := [])];
        return;
      }
      var last := HighestStored(stored + s.added);
      sessions := sessions[id := s.(added := s.added + [last + 1])];
    }

    method CommitSession(id: SessionId) returns (committed: bool)
      requires id in sessions
      modifies this
      ensures View() == Step(old(View()), Commit(id)) && committed == Fits(old(stored), old(sessions[id].added))
    {
      var s := sessions[id];
      committed := Fits(stored, s.added);
      if committed {
        stored := stored + s.added;
      }
      sessions := sessions[id := s.(added := [])];
    }

    method RollbackSession(id: SessionId)
      requires id in sessions
      modifies this`sessions
      ensures View() == Step(old(View()), Rollback(id))
    {
      sessions := sessions[id := sessions[id].(added := [])];
    }
  }

  /** The query for the highest number, zero when there is none. */
  method HighestStored(numbers: seq<nat>) returns (highest: nat)
    ensures highest == Max(numbers)
  {
    highest := 0;
    for i := 0 to |numbers|
      invariant highest == Max(numbers[..i])
    {
      assert numbers[..i + 1][..i] == numbers[..i];
      if numbers[i] > highest {
        highest := numbers[i];
      }
    }
    assert numbers[..|numbers|] == numbers;
  }
}
