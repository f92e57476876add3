/** The Twitch membership control loop (`bot_gateway/channel_reconciler.py`).
  *
  * A pass reads the connected logins once, joins what is missing, parts what is
  * not wanted, and keeps a map from Twitch ids to logins up to date. Any join,
  * part or fetch may fail.
  */
module ChannelReconciler {
  import opened Options

  // strings in the source, only ever compared; a login after case folding
  datatype TwitchId = TwitchId(id: int)
  datatype Login = Login(name: int)

  datatype Desired = Desired(id: TwitchId, login: Login)

  predicate DistinctIds(desired: seq<Desired>)
  {
    forall i, j :: 0 <= i < j < |desired| ==> desired[i].id != desired[j].id
  }

  predicate DistinctLogins(desired: seq<Desired>)
  {
    forall i, j :: 0 <= i < j < |desired| ==> desired[i].login != desired[j].login
  }

  function Logins(desired: seq<Desired>): set<Login>
  {
    set i | 0 <= i < |desired| :: desired[i].login
  }

  /** The tracked logins. */
  function Tracked(joined: map<TwitchId, Login>): set<Login>
  {
    set id | id in joined :: joined[id]
  }

  function AsSet(log: seq<Login>): set<Login> { set login | login in log }

  predicate NoRepeats(log: seq<Login>)
  {
    forall i, j :: 0 <= i < j < |log| ==> log[i] != log[j]
  }

  // ---- the tracked map -----------------------------------------------------

  /** One item is tracked under its own id; entries of other ids with other
    * logins stay.
    */
  ghost predicate Retracked(before: map<TwitchId, Login>, after: map<TwitchId, Login>, item: Desired)
  {
    && item.id in after && after[item.id] == item.login
    && (forall id :: id in after && id != item.id ==> id in before && after[id] == before[id])
    && (forall id :: id in before && id != item.id && before[id] != item.login ==>
          id in after && after[id] == before[id])
  }

  ghost predicate TrackedBy(desired: seq<Desired>, n: nat, joined: map<TwitchId, Login>, login: Login)
    requires n <= |desired|
  {
    exists k :: 0 <= k < n && desired[k].id in joined && joined[desired[k].id] == login
  }

  /** Every login handled so far is found under the id of an item handled so
    * far, however ids and logins were renamed or swapped.
    */
  ghost predicate Tracks(desired: seq<Desired>, n: nat, joined: map<TwitchId, Login>)
    requires n <= |desired|
  {
    forall login :: login in Logins(desired[..n]) ==> TrackedBy(desired, n, joined, login)
  }

  /** Forget every id with a login. */
  function Untrack(joined: map<TwitchId, Login>, login: Login): map<TwitchId, Login>
  {
    map id | id in joined && joined[id] != login :: joined[id]
  }

  lemma UntrackedOneLess(joined: map<TwitchId, Login>, login: Login)
    ensures Tracked(Untrack(joined, login)) == Tracked(joined) - {login}
  {
    forall l | l in Tracked(joined) - {login} ensures l in Tracked(Untrack(joined, login)) {
      var id :| id in joined && joined[id] == l;
      assert id in Untrack(joined, login);
    }
  }

  lemma TracksMore(desired: seq<Desired>, n: nat, before: map<TwitchId, Login>, after: map<TwitchId, Login>)
    requires DistinctIds(desired) && n < |desired|
    requires Tracks(desired, n, before) && Retracked(before, after, desired[n])
    ensures Tracks(desired, n + 1, after)
  {
    OneMoreLogin(desired, n);
    var upTo := Logins(desired[..n + 1]);
    forall login | login in upTo ensures TrackedBy(desired, n + 1, after, login) {
      if login == desired[n].login {
        assert desired[n].id in after;
      } else {
        assert TrackedBy(desired, n, before, login);
        var k :| 0 <= k < n && desired[k].id in before && before[desired[k].id] == login;
        assert desired[k].id in after;
      }
    }
  }

  lemma OneMoreLogin(desired: seq<Desired>, n: nat)
    requires n < |desired|
    ensures Logins(desired[..n + 1]) == Logins(desired[..n]) + {desired[n].login}
    ensures desired[n].login in Logins(desired)
  {
  }

  lemma TracksAll(desired: seq<Desired>, joined: map<TwitchId, Login>)
    requires Tracks(desired, |desired|, joined)
    ensures Logins(desired) <= Tracked(joined)
  {
    forall login | login in Logins(desired) ensures login in Tracked(joined) {
      assert desired[..|desired|] == desired;
      assert TrackedBy(desired, |desired|, joined, login);
    }
  }

  // ---- the joins that are due ----------------------------------------------

  /** The logins a pass has to join. */
  function Due(desired: seq<Desired>, force: bool, actual: set<Login>): set<Login>
  {
    if force then Logins(desired) else Logins(desired) - actual
  }

  /** The same in the order of the desired items. */
  function DueJoins(desired: seq<Desired>, force: bool, actual: set<Login>): seq<Login>
  {
    if desired == [] then []
    else
      var last := desired[|desired| - 1];
      DueJoins(desired[..|desired| - 1], force, actual) +
      if force || last.login !in actual then [last.login] else []
  }

  lemma {:induction false} DueJoinsExactly(desired: seq<Desired>, force: bool, actual: set<Login>)
    ensures AsSet(DueJoins(desired, force, actual)) == Due(desired, force, actual)
    ensures DistinctLogins(desired) ==> NoRepeats(DueJoins(desired, force, actual))
  {
    if desired != [] {
      var init, last := desired[..|desired| - 1], desired[|desired| - 1];
      DueJoinsExactly(init, force, actual);
      assert Logins(desired) == Logins(init) + {last.login};
      var before := DueJoins(init, force, actual);
      if force || last.login !in actual {
        assert AsSet(before + [last.login]) == AsSet(before) + {last.login};
        if DistinctLogins(desired) {
          assert last.login !in Logins(init);
          assert last.login !in AsSet(before);
        }
      }
    }
  }

  lemma {:induction false} DueJoinsGrow(desired: seq<Desired>, n: nat, force: bool, actual: set<Login>)
    requires n <= |desired|
    ensures DueJoins(desired[..n], force, actual) <= DueJoins(desired, force, actual)
    decreases |desired| - n
  {
    if n == |desired| {
      assert desired[..n] == desired;
    } else {
      DueJoinsPrefix(desired, n, force, actual);
      DueJoinsGrow(desired, n + 1, force, actual);
    }
  }

  lemma DueJoinsPrefix(desired: seq<Desired>, n: nat, force: bool, actual: set<Login>)
    requires n < |desired|
    ensures DueJoins(desired[..n + 1], force, actual) ==
            DueJoins(desired[..n], force, actual) +
            if force || desired[n].login !in actual then [desired[n].login] else []
    ensures Due(desired[..n + 1], force, actual) ==
            Due(desired[..n], force, actual) + if force || desired[n].login !in actual then {desired[n].login} else {}
    ensures force || desired[n].login !in actual ==> desired[n].login in Due(desired, force, actual)
  {
    assert desired[..n + 1][..n] == desired[..n];
    OneMoreLogin(desired, n);
  }

  // ---- what one pass does, between two states ------------------------------

  datatype State = State(joined: map<TwitchId, Login>, connected: set<Login>)

  function Ids(desired: seq<Desired>): set<TwitchId>
  {
    set i | 0 <= i < |desired| :: desired[i].id
  }

  /** The logins a pass has to part. Whatever is tracked under a desired id is
    * replaced before the parts.
    */
  function Stale(before: State, desired: seq<Desired>): set<Login>
  {
    before.connected + (set id | id in before.joined && id !in Ids(desired) :: before.joined[id]) - Logins(desired)
  }

  /** Once n items are handled, logins that are not desired stay tracked exactly
    * under the ids not handled yet.
    */
  ghost predicate Leaves(desired: seq<Desired>, n: nat, before: map<TwitchId, Login>, now: map<TwitchId, Login>)
    requires n <= |desired|
  {
    forall id, login :: login !in Logins(desired) ==>
      (id in now && now[id] == login <==> id in before && before[id] == login && id !in Ids(desired[..n]))
  }

  lemma LeavesMore(desired: seq<Desired>, n: nat, before: map<TwitchId, Login>, now: map<TwitchId, Login>,
                   after: map<TwitchId, Login>)
    requires n < |desired| && Leaves(desired, n, before, now) && Retracked(now, after, desired[n])
    ensures Leaves(desired, n + 1, before, after)
  {
    assert Ids(desired[..n + 1]) == Ids(desired[..n]) + {desired[n].id};
    OneMoreLogin(desired, n);
    forall id, login | login !in Logins(desired)
      ensures id in after && after[id] == login <==> id in before && before[id] == login && id !in Ids(desired[..n + 1])
    {
      assert id in now && now[id] == login <==> id in before && before[id] == login && id !in Ids(desired[..n]);
    }
  }

  /** What the join loop has done to the map after n items. */
  ghost predicate Handled(desired: seq<Desired>, n: nat, before: map<TwitchId, Login>, now: map<TwitchId, Login>)
    requires n <= |desired|
  {
    Tracks(desired, n, now) && Leaves(desired, n, before, now)
  }

  lemma HandledMore(desired: seq<Desired>, n: nat, before: map<TwitchId, Login>, now: map<TwitchId, Login>,
                    after: map<TwitchId, Login>)
    requires DistinctIds(desired) && n < |desired|
    requires Handled(desired, n, before, now) && Retracked(now, after, desired[n])
    ensures Handled(desired, n + 1, before, after)
  {
    TracksMore(desired, n, now, after);
    LeavesMore(desired, n, before, now, after);
  }

  /** The join loop before item n. */
  ghost predicate JoinedUpTo(desired: seq<Desired>, n: nat, force: bool, actual: set<Login>, failures: set<Login>,
                             before: State, now: State, joins: seq<Login>)
    requires n <= |desired|
  {
    && joins == DueJoins(desired[..n], force, actual) && Due(desired[..n], force, actual) !! failures
    && now.connected == before.connected + AsSet(joins) && Handled(desired, n, before.joined, now.joined)
  }

  lemma JoinedOneMore(desired: seq<Desired>, n: nat, force: bool, actual: set<Login>, failures: set<Login>,
                      before: State, now: State, after: State, joins: seq<Login>, more: seq<Login>)
    requires DistinctIds(desired) && n < |desired|
    requires JoinedUpTo(desired, n, force, actual, failures, before, now, joins)
    requires Retracked(now.joined, after.joined, desired[n]) && after.connected == now.connected + AsSet(more)
    requires more == if force || desired[n].login !in actual then [desired[n].login] else []
    requires (force || desired[n].login !in actual) ==> desired[n].login !in failures
    ensures JoinedUpTo(desired, n + 1, force, actual, failures, before, after, joins + more)
  {
    DueJoinsPrefix(desired, n, force, actual);
    HandledMore(desired, n, before.joined, now.joined, after.joined);
    AsSetSum(joins, more);
  }

  /** The joins made before the first one that fails. */
  predicate StoppedAt(joins: seq<Login>, due: seq<Login>, failures: set<Login>)
  {
    joins < due && due[|joins|] in failures && AsSet(joins) !! failures
  }

  lemma StopsBefore(joins: seq<Login>, login: Login, due: seq<Login>, failures: set<Login>)
    requires joins + [login] <= due && login in failures && AsSet(joins) !! failures
    ensures StoppedAt(joins, due, failures)
  {
    assert (joins + [login])[|joins|] == login && (joins + [login])[..|joins|] == joins;
  }

  lemma JoinsStop(desired: seq<Desired>, n: nat, force: bool, actual: set<Login>, failures: set<Login>,
                  before: State, now: State, after: State, joins: seq<Login>) returns (handled: nat)
    requires DistinctIds(desired) && n < |desired|
    requires JoinedUpTo(desired, n, force, actual, failures, before, now, joins)
    requires after.joined == now.joined || Retracked(now.joined, after.joined, desired[n])
    requires (force || desired[n].login !in actual) && desired[n].login in failures
    ensures handled <= |desired| && Handled(desired, handled, before.joined, after.joined)
    ensures StoppedAt(joins, DueJoins(desired, force, actual), failures) && !(Due(desired, force, actual) !! failures)
  {
    DueJoinsPrefix(desired, n, force, actual);
    DueJoinsGrow(desired, n + 1, force, actual);
    DueJoinsExactly(desired[..n], force, actual);
    StopsBefore(joins, desired[n].login, DueJoins(desired, force, actual), failures);
    handled := n;
    if after.joined != now.joined {
      HandledMore(desired, n, before.joined, now.joined, after.joined);
      handled := n + 1;
    }
  }

  lemma LeavesStale(desired: seq<Desired>, before: State, now: map<TwitchId, Login>)
    requires Leaves(desired, |desired|, before.joined, now)
    ensures Tracked(now) + before.connected - Logins(desired) == Stale(before, desired)
  {
    assert desired[..|desired|] == desired;
    forall login | login in Tracked(now) && login !in Logins(desired) ensures login in Stale(before, desired) {
      var id :| id in now && now[id] == login;
      assert id in before.joined && before.joined[id] == login && id !in Ids(desired);
    }
    forall login | login in Stale(before, desired) && login !in before.connected ensures login in Tracked(now) {
      var id :| id in before.joined && id !in Ids(desired) && before.joined[id] == login;
      assert id in now && now[id] == login;
    }
  }

  /** The calls of a pass that went through. */
  datatype Log = Log(joins: seq<Login>, parts: seq<Login>)

  /** A pass over `desired`, failed or not: it only joins desired logins, only
    * parts other ones, and membership is what those calls make of it.
    */
  predicate Careful(before: State, after: State, desired: seq<Desired>, log: Log)
  {
    && AsSet(log.joins) <= Logins(desired)
    && AsSet(log.parts) !! Logins(desired)
    && after.connected == (before.connected + AsSet(log.joins)) - AsSet(log.parts)
  }

  /** A pass that returned normally: it joined exactly what was due, each login
    * once, and left membership and tracking at the desired logins.
    */
  predicate Converged(before: State, after: State, desired: seq<Desired>, force: bool, log: Log)
  {
    && after.connected == Logins(desired)
    && Tracked(after.joined) == Logins(desired)
    && AsSet(log.joins) == Due(desired, force, before.connected)
    && log.joins == DueJoins(desired, force, before.connected)
    && (DistinctLogins(desired) ==> NoRepeats(log.joins))
    && AsSet(log.parts) == Stale(before, desired)
  }

  /** Every call that has to be made goes through. */
  predicate Goes(before: State, desired: seq<Desired>, force: bool, joinFailures: set<Login>, partFailures: set<Login>)
  {
    Due(desired, force, before.connected) !! joinFailures && Stale(before, desired) !! partFailures
  }

  /** A pass ends at its first call that fails: with the joins before it and no
    * parts, or with all the joins and some of the parts.
    */
  predicate Stopped(before: State, desired: seq<Desired>, force: bool, joinFailures: set<Login>,
                    partFailures: set<Login>, log: Log)
  {
    var due := DueJoins(desired, force, before.connected);
    if Due(desired, force, before.connected) !! joinFailures
    then log.joins == due && AsSet(log.parts) <= Stale(before, desired) - partFailures
    else log.parts == [] && StoppedAt(log.joins, due, joinFailures)
  }

  /** What applying a desired set does, and which calls it makes in which order. */
  predicate Applied(before: State, after: State, desired: seq<Desired>, force: bool, joinFailures: set<Login>,
                    partFailures: set<Login>, log: Log)
  {
    && Careful(before, after, desired, log)
    && if Goes(before, desired, force, joinFailures, partFailures) then Converged(before, after, desired, force, log)
       else Stopped(before, desired, force, joinFailures, partFailures, log)
  }

  // ---- the control plane's answer ------------------------------------------

  /** A payload entry; a blank field is `None`. */
  datatype Entry = Entry(id: Option<TwitchId>, login: Option<Login>)

  predicate Named(entry: Entry) { entry.id.Some? && entry.login.Some? }

  /** The last complete entry for an id carries this login. */
  ghost predicate LastEntry(entries: seq<Entry>, id: TwitchId, login: Login)
  {
    exists i :: 0 <= i < |entries| && entries[i] == Entry(Some(id), Some(login)) &&
                forall j :: i < j < |entries| ==> !(Named(entries[j]) && entries[j].id.value == id)
  }

  lemma LastEntryGrows(entries: seq<Entry>, entry: Entry, id: TwitchId, login: Login)
    ensures LastEntry(entries + [entry], id, login) <==>
            if Named(entry) && entry.id.value == id then entry.login.value == login else LastEntry(entries, id, login)
  {
    var longer := entries + [entry];
    if LastEntry(longer, id, login) {
      var i :| 0 <= i < |longer| && longer[i] == Entry(Some(id), Some(login)) &&
               forall j :: i < j < |longer| ==> !(Named(longer[j]) && longer[j].id.value == id);
      if i < |entries| {
        assert longer[|entries|] == entry && entries[i] == longer[i];
        forall j | i < j < |entries| ensures !(Named(entries[j]) && entries[j].id.value == id) {
          assert longer[j] == entries[j];
        }
      }
    }
    if Named(entry) && entry.id.value == id && entry.login.value == login {
      assert longer[|entries|] == Entry(Some(id), Some(login));
    }
    if LastEntry(entries, id, login) && !(Named(entry) && entry.id.value == id) {
      var i :| 0 <= i < |entries| && entries[i] == Entry(Some(id), Some(login)) &&
               forall j :: i < j < |entries| ==> !(Named(entries[j]) && entries[j].id.value == id);
      assert longer[i] == entries[i];
    }
  }

  predicate Names(entry: Entry, id: TwitchId) { Named(entry) && entry.id.value == id }

  /** An id is named before any entry of another one. */
  ghost predicate Precedes(entries: seq<Entry>, id: TwitchId, other: TwitchId)
  {
    exists a :: 0 <= a < |entries| && Names(entries[a], id) && forall b :: 0 <= b <= a ==> !Names(entries[b], other)
  }

  lemma PrecedesMore(entries: seq<Entry>, entry: Entry, id: TwitchId, other: TwitchId)
    requires Precedes(entries, id, other)
    ensures Precedes(entries + [entry], id, other)
  {
    var longer := entries + [entry];
    var a :| 0 <= a < |entries| && Names(entries[a], id) && forall b :: 0 <= b <= a ==> !Names(entries[b], other);
    assert longer[a] == entries[a] && forall b :: 0 <= b <= a ==> longer[b] == entries[b];
  }

  ghost predicate InOrder(entries: seq<Entry>, desired: seq<Desired>)
  {
    forall i, j :: 0 <= i < j < |desired| ==> Precedes(entries, desired[i].id, desired[j].id)
  }

  /** One more entry: its id keeps its place, or comes last. */
  lemma InOrderMore(entries: seq<Entry>, entry: Entry, before: seq<Desired>, after: seq<Desired>)
    requires InOrder(entries, before)
    requires forall item :: item in before ==> exists a :: 0 <= a < |entries| && Names(entries[a], item.id)
    requires |after| >= |before| && forall k :: 0 <= k < |before| ==> after[k].id == before[k].id
    requires |after| > |before| ==>
               && |after| == |before| + 1
               && forall b :: 0 <= b < |entries| ==> !Names(entries[b], after[|before|].id)
    ensures InOrder(entries + [entry], after)
  {
    forall i, j | 0 <= i < j < |after| ensures Precedes(entries + [entry], after[i].id, after[j].id) {
      assert before[i] in before;
      if j < |before| {
        assert Precedes(entries, before[i].id, before[j].id);
      }
      assert Precedes(entries, after[i].id, after[j].id);
      PrecedesMore(entries, entry, after[i].id, after[j].id);
    }
  }

  lemma {:induction false} LastNamed(entries: seq<Entry>, b: nat, id: TwitchId) returns (login: Login)
    requires b < |entries| && Names(entries[b], id)
    ensures LastEntry(entries, id, login)
    decreases |entries|
  {
    var init, last := entries[..|entries| - 1], entries[|entries| - 1];
    if Names(last, id) {
      login := last.login.value;
    } else {
      login := LastNamed(init, b, id);
    }
    LastEntryGrows(init, last, id, login);
    assert init + [last] == entries;
  }

  lemma DesiredIsNamed(entries: seq<Entry>, desired: seq<Desired>)
    requires forall id, login :: Desired(id, login) in desired <==> LastEntry(entries, id, login)
    ensures forall item :: item in desired ==> exists a :: 0 <= a < |entries| && Names(entries[a], item.id)
    ensures forall b :: 0 <= b < |entries| && Named(entries[b]) ==>
              exists k :: 0 <= k < |desired| && desired[k].id == entries[b].id.value
  {
    forall b | 0 <= b < |entries| && Named(entries[b])
      ensures exists k :: 0 <= k < |desired| && desired[k].id == entries[b].id.value
    {
      var login := LastNamed(entries, b, entries[b].id.value);
      assert Desired(entries[b].id.value, login) in desired;
    }
    forall item | item in desired ensures exists a :: 0 <= a < |entries| && Names(entries[a], item.id) {
      assert Desired(item.id, item.login) in desired;
      assert LastEntry(entries, item.id, item.login);
    }
  }

  lemma ParsedMore(entries: seq<Entry>, entry: Entry, before: seq<Desired>, after: seq<Desired>)
    requires forall id, login :: Desired(id, login) in before <==> LastEntry(entries, id, login)
    requires forall item :: item in after <==>
               if Named(entry) then item == Desired(entry.id.value, entry.login.value) ||
                                    (item in before && item.id != entry.id.value)
               else item in before
    ensures forall id, login :: Desired(id, login) in after <==> LastEntry(entries + [entry], id, login)
  {
    forall id, login ensures Desired(id, login) in after <==> LastEntry(entries + [entry], id, login) {
      LastEntryGrows(entries, entry, id, login);
    }
  }

  /** `_parse_desired`: a dictionary keyed by id, in order of first appearance. */
  method ParseDesired(entries: seq<Entry>) returns (desired: seq<Desired>)
    ensures DistinctIds(desired)
    ensures forall id, login :: Desired(id, login) in desired <==> LastEntry(entries, id, login)
    ensures InOrder(entries, desired)
  {
    desired := [];
    for n := 0 to |entries|
      invariant DistinctIds(desired)
      invariant forall id, login :: Desired(id, login) in desired <==> LastEntry(entries[..n], id, login)
      invariant InOrder(entries[..n], desired)
    {
      DesiredIsNamed(entries[..n], desired);
      ghost var before := desired;
      assert entries[..n + 1] == entries[..n] + [entries[n]];
      if Named(entries[n]) {
        desired := Assign(desired, entries[n].id.value, entries[n].login.value);
      }
      ParsedMore(entries[..n], entries[n], before, desired);
      InOrderMore(entries[..n], entries[n], before, desired);
    }
    assert entries[..|entries|] == entries;
  }

  /** `result[id] = login` on an insertion-ordered dictionary. */
  method Assign(desired: seq<Desired>, id: TwitchId, login: Login) returns (after: seq<Desired>)
    requires DistinctIds(desired)
    ensures DistinctIds(after)
    ensures forall item :: item in after <==> item == Desired(id, login) || (item in desired && item.id != id)
    ensures |desired| <= |after| <= |desired| + 1 && forall k :: 0 <= k < |desired| ==> after[k].id == desired[k].id
    ensures |after| > |desired| ==> after[|desired|].id == id && forall k :: 0 <= k < |desired| ==> desired[k].id != id
  {
    var i := 0;
    while i < |desired| && desired[i].id != id
      invariant i <= |desired| && forall k :: 0 <= k < i ==> desired[k].id != id
    {
      i := i + 1;
    }
    if i == |desired| {
      return desired + [Desired(id, login)];
    }
    after := desired[i := Desired(id, login)];
    forall item | item == Desired(id, login) || (item in desired && item.id != id) ensures item in after {
      if item == Desired(id, login) {
        assert after[i] == item;
      } else {
        var k :| 0 <= k < |desired| && desired[k] == item;
        assert after[k] == item;
      }
    }
  }

  // ---- the reconciler ------------------------------------------------------

  class Reconciler {
    var joined: map<TwitchId, Login>
    var connected: set<Login>                 // the chat runtime's membership
    var lastDesired: Option<seq<Desired>>
    var forceRejoin: bool
    const bootstrap: seq<Desired>             // one entry for each bootstrap channel

    function View(): State
      reads this
    {
      State(joined, connected)
    }

    constructor (bootstrap: seq<Desired>, connected: set<Login>)
      requires DistinctIds(bootstrap)
      ensures this.bootstrap == bootstrap && this.connected == connected
      ensures Tracked(joined) == Logins(bootstrap) && lastDesired == None && !forceRejoin
    {
      this.bootstrap := bootstrap;
      this.connected := connected;
      joined := map i | 0 <= i < |bootstrap| :: bootstrap[i].id := bootstrap[i].login;
      lastDesired := None;
      forceRejoin := false;
      new;
      forall i | 0 <= i < |bootstrap|
        ensures bootstrap[i].id in joined && joined[bootstrap[i].id] == bootstrap[i].login
      {
      }
    }

    /** `start` while the loop runs: the next pass must issue real joins. */
    method RequestRejoin()
      modifies this`forceRejoin
      ensures forceRejoin
    {
      forceRejoin := true;
    }

    /** The bookkeeping for one item, in the source's order: is a join due, and
      * is the map updated before it is tried? Any tracked id with the login of
      * a new id may be the one that is renamed.
      */
    method Track(item: Desired, force: bool, actual: set<Login>)
      returns (due: bool, early: bool, after: map<TwitchId, Login>)
      ensures due == (force || item.login !in actual)
      ensures Retracked(joined, after, item)
    {
      due := force || item.login !in actual;
      early := !force;
      after := joined;
      if !force && item.id !in joined {
        early := item.login in Tracked(joined);
        if early {
          var matching :| matching in joined && joined[matching] == item.login;
          after := after - {matching};
        }
      }
      after := after[item.id := item.login];
    }

    /** One turn of the join loop; `fails` is the environment's choice. */
    method JoinIfDue(item: Desired, force: bool, actual: set<Login>, fails: bool) returns (ok: bool, joins: seq<Login>)
      modifies this`joined, this`connected
      ensures ok ==> Retracked(old(joined), joined, item)
      ensures !ok ==> joined == old(joined) || Retracked(old(joined), joined, item)
      ensures connected == old(connected) + AsSet(joins)
      ensures joins == if ok && (force || item.login !in actual) then [item.login] else []
      ensures ok <==> !fails || !(force || item.login !in actual)
    {
      var due, early, after := Track(item, force, actual);
      if early {
        joined := after;
      }
      if due && fails {
        return false, [];
      }
      joins := [];
      if due {
        connected := connected + {item.login};
        joins := [item.login];
      }
      joined := after;
      ok := true;
    }

    /** `_apply`, the joins. `failures` is the set of logins whose call fails. */
    method JoinMissing(desired: seq<Desired>, force: bool, actual: set<Login>, failures: set<Login>)
      returns (ok: bool, joins: seq<Login>, ghost handled: nat)
      requires DistinctIds(desired)
      modifies this`joined, this`connected
      ensures connected == old(connected) + AsSet(joins)
      ensures handled <= |desired| && Handled(desired, handled, old(joined), joined)
      ensures ok ==> joins == DueJoins(desired, force, actual) && handled == |desired|
      ensures !ok ==> StoppedAt(joins, DueJoins(desired, force, actual), failures)
      ensures ok <==> Due(desired, force, actual) !! failures
    {
      ghost var before := View();
      joins := [];
      var n := 0;
      while n < |desired|
        invariant n <= |desired| && JoinedUpTo(desired, n, force, actual, failures, before, View(), joins)
      {
        ghost var now := View();
        var more;
        ok, more := JoinIfDue(desired[n], force, actual, desired[n].login in failures);
        if !ok {
          handled := JoinsStop(desired, n, force, actual, failures, before, now, View(), joins);
          return;
        }
        JoinedOneMore(desired, n, force, actual, failures, before, now, View(), joins, more);
        joins := joins + more;
        n := n + 1;
      }
      assert desired[..n] == desired;
      return true, joins, n;
    }

    /** `_apply`, the parts: every login tracked or connected but not desired. */
    method PartStale(stale: set<Login>, failures: set<Login>) returns (ok: bool, parts: seq<Login>)
      modifies this`joined, this`connected
      ensures AsSet(parts) <= stale && connected == old(connected) - AsSet(parts)
      ensures Tracked(joined) == Tracked(old(joined)) - AsSet(parts)
      ensures ok ==> AsSet(parts) == stale
      ensures AsSet(parts) !! failures && (ok <==> stale !! failures)
    {
      parts := [];
      var todo := stale;
      while todo != {}
        invariant todo <= stale && AsSet(parts) == stale - todo && AsSet(parts) !! failures
        invariant connected == old(connected) - AsSet(parts)
        invariant Tracked(joined) == Tracked(old(joined)) - AsSet(parts)
        decreases todo
      {
        var login :| login in todo;
        if login in failures {
          return false, parts;
        }
        connected := connected - {login};
        UntrackedOneLess(joined, login);
        joined := Untrack(joined, login);
        AsSetSum(parts, [login]);
        parts := parts + [login];
        todo := todo - {login};
      }
      ok := true;
    }

    /** `_apply`. */
    method Apply(desired: seq<Desired>, force: bool, joinFailures: set<Login>, partFailures: set<Login>)
      returns (ok: bool, log: Log)
      requires DistinctIds(desired)
      modifies this`joined, this`connected
      ensures Applied(old(View()), View(), desired, force, joinFailures, partFailures, log)
      ensures ok <==> Goes(old(View()), desired, force, joinFailures, partFailures)
    {
      ghost var before := View();
      var actual := connected;
      var joins;
      ghost var handled;
      ok, joins, handled := JoinMissing(desired, force, actual, joinFailures);
      DueJoinsExactly(desired, force, actual);
      PrefixSet(joins, DueJoins(desired, force, actual));
      if !ok {
        return false, Log(joins, []);
      }
      TracksAll(desired, joined);
      LeavesStale(desired, before, joined);
      var stale := (Tracked(joined) + actual) - Logins(desired);
      var parts;
      ok, parts := PartStale(stale, partFailures);
      log := Log(joins, parts);
    }

    /** `reconcile_once`. `fetched` is the parsed desired set, or nothing when the
      * control plane failed. `start` may be called again while the pass waits for
      * the fetch, before the flag is read, or for anything after it.
      */
    method ReconcileOnce(fetched: Option<seq<Desired>>, joinFailures: set<Login>, partFailures: set<Login>,
                         rejoinInFetch: bool, rejoinAfter: bool)
      returns (ok: bool, log: Log)
      requires DistinctIds(bootstrap) && (fetched.Some? ==> DistinctIds(fetched.value))
      modifies this
      ensures Pass(old(Whole()), Whole(),
                   Event.Reconcile(fetched, joinFailures, partFailures, rejoinInFetch, rejoinAfter), ok, log)
    {
      ok, log := false, Log([], []);
      if rejoinInFetch {
        forceRejoin := true;
      }
      if fetched.None? {
        if lastDesired.None? && bootstrap != [] {
          var _, applied := Apply(bootstrap, false, joinFailures, partFailures);
          log := applied;
        }
        if rejoinAfter {
          forceRejoin := true;
        }
        return false, log;
      }
      lastDesired := fetched;
      ok, log := Apply(fetched.value, forceRejoin, joinFailures, partFailures);
      if rejoinAfter {
        forceRejoin := true;
      }
      if ok {
        forceRejoin := false;
      }
    }

    function Whole(): Loop
      reads this
    {
      Loop(View(), lastDesired, forceRejoin, bootstrap)
    }
  }

  lemma AsSetSum(a: seq<Login>, b: seq<Login>)
    ensures AsSet(a + b) == AsSet(a) + AsSet(b)
  {
  }

  lemma PrefixSet(a: seq<Login>, b: seq<Login>)
    requires a <= b
    ensures AsSet(a) <= AsSet(b)
  {
    assert b == a + b[|a|..];
  }

  // ---- whole runs ----------------------------------------------------------

  datatype Loop = Loop(state: State, lastDesired: Option<seq<Desired>>, forceRejoin: bool, bootstrap: seq<Desired>)

  datatype Event =
    | Reconcile(fetched: Option<seq<Desired>>, joinFailures: set<Login>, partFailures: set<Login>,
                rejoinInFetch: bool, rejoinAfter: bool)
    | RejoinRequested            // `start` again, while no pass is running
    | Drift(connected: set<Login>)   // the runtime loses or gains channels by itself

  /** What `reconcile_once` may do, with the calls it made. */
  predicate Pass(l: Loop, l': Loop, ev: Event, ok: bool, log: Log)
    requires ev.Reconcile?
  {
    var force := l.forceRejoin || ev.rejoinInFetch;
    && l'.bootstrap == l.bootstrap
    && match ev.fetched
       case None =>
         && !ok && l'.lastDesired == l.lastDesired && l'.forceRejoin == (force || ev.rejoinAfter)
         && if l.lastDesired == None && l.bootstrap != []
            then Applied(l.state, l'.state, l.bootstrap, false, ev.joinFailures, ev.partFailures, log)
            else l'.state == l.state && log == Log([], [])
       case Some(desired) =>
         && l'.lastDesired == Some(desired)
         && Applied(l.state, l'.state, desired, force, ev.joinFailures, ev.partFailures, log)
         && (ok <==> Goes(l.state, desired, force, ev.joinFailures, ev.partFailures))
         && l'.forceRejoin == (!ok && (force || ev.rejoinAfter))
  }

  predicate Next(l: Loop, l': Loop, ev: Event, ok: bool, log: Log)
  {
    match ev
    case Reconcile(_, _, _, _, _) => Pass(l, l', ev, ok, log)
    case RejoinRequested => l' == l.(forceRejoin := true)
    case Drift(connected) => l' == l.(state := l.state.(connected := connected))
  }

  /** One step of a run: what happened, whether the pass returned normally, the
    * calls it made, and the loop afterwards.
    */
  datatype Step = Step(ev: Event, ok: bool, log: Log, after: Loop)

  predicate IsRun(l: Loop, run: seq<Step>)
    decreases |run|
  {
    run == [] || (Next(l, run[0].after, run[0].ev, run[0].ok, run[0].log) && IsRun(run[0].after, run[1..]))
  }

  function Before(l: Loop, run: seq<Step>, i: nat): Loop
    requires i <= |run|
  {
    if i == 0 then l else run[i - 1].after
  }

  lemma {:induction false} StepOfRun(l: Loop, run: seq<Step>, i: nat)
    requires IsRun(l, run) && i < |run|
    ensures Next(Before(l, run, i), run[i].after, run[i].ev, run[i].ok, run[i].log)
    decreases |run|
  {
    if i > 0 {
      StepOfRun(run[0].after, run[1..], i - 1);
      assert run[1..][i - 1] == run[i];
      assert i > 1 ==> run[1..][i - 2] == run[i - 1];
    }
  }

  function Difference(connected: set<Login>, desired: seq<Desired>): set<Login>
  {
    (connected - Logins(desired)) + (Logins(desired) - connected)
  }

  /** No pass of any run parts a login of the set it is applying. */
  lemma NeverPartsDesired(l: Loop, run: seq<Step>, i: nat)
    requires IsRun(l, run) && i < |run| && run[i].ev.Reconcile? && run[i].ev.fetched.Some?
    ensures AsSet(run[i].log.parts) !! Logins(run[i].ev.fetched.value)
  {
    StepOfRun(l, run, i);
  }

  /** No pass, failed or forced, enlarges the difference to what it applies. */
  lemma DifferenceNeverGrows(l: Loop, run: seq<Step>, i: nat)
    requires IsRun(l, run) && i < |run| && run[i].ev.Reconcile? && run[i].ev.fetched.Some?
    ensures var desired := run[i].ev.fetched.value;
            Difference(run[i].after.state.connected, desired) <= Difference(Before(l, run, i).state.connected, desired)
    ensures run[i].ok ==> Difference(run[i].after.state.connected, run[i].ev.fetched.value) == {}
  {
    StepOfRun(l, run, i);
  }

  /** The joins of a longer list are those of its parts, one after the other. */
  lemma {:induction false} DueJoinsInOrder(a: seq<Desired>, b: seq<Desired>, force: bool, actual: set<Login>)
    ensures DueJoins(a + b, force, actual) == DueJoins(a, force, actual) + DueJoins(b, force, actual)
  {
    if b == [] {
      assert a + b == a;
    } else {
      var init := b[..|b| - 1];
      assert (a + b)[..|a + b| - 1] == a + init && (a + b)[|a + b| - 1] == b[|b| - 1];
      DueJoinsInOrder(a, init, force, actual);
    }
  }

  lemma DueJoinsOfOne(item: Desired, force: bool, actual: set<Login>)
    ensures DueJoins([item], force, actual) == if force || item.login !in actual then [item.login] else []
  {
    assert [item][..0] == [];
  }

  /** A pass over a fetched set that fails has made the joins that were due up to
    * the first failing one and nothing else, or all of them when only a part
    * failed.
    */
  lemma StopsAtTheFirstFailure(l: Loop, run: seq<Step>, i: nat)
    requires IsRun(l, run) && i < |run| && run[i].ev.Reconcile? && run[i].ev.fetched.Some? && !run[i].ok
    ensures var before, ev, log := Before(l, run, i), run[i].ev, run[i].log;
            var due := DueJoins(ev.fetched.value, before.forceRejoin || ev.rejoinInFetch, before.state.connected);
            if exists login :: login in due && login in ev.joinFailures
            then log.parts == [] && log.joins < due && due[|log.joins|] in ev.joinFailures &&
                 forall login :: login in log.joins ==> login !in ev.joinFailures
            else log.joins == due && forall login :: login in log.parts ==> login !in ev.partFailures
  {
    StepOfRun(l, run, i);
    var before, ev, log := Before(l, run, i), run[i].ev, run[i].log;
    var force := before.forceRejoin || ev.rejoinInFetch;
    DueJoinsExactly(ev.fetched.value, force, before.state.connected);
    assert forall login :: login in DueJoins(ev.fetched.value, force, before.state.connected) <==>
                           login in Due(ev.fetched.value, force, before.state.connected);
    assert forall login :: login in log.parts <==> login in AsSet(log.parts);
    assert forall login :: login in log.joins <==> login in AsSet(log.joins);
  }

  lemma {:induction false} NothingFetchedYet(l: Loop, run: seq<Step>, i: nat)
    requires IsRun(l, run) && i <= |run| && l.lastDesired == None
    requires forall k :: 0 <= k < i && run[k].ev.Reconcile? ==> run[k].ev.fetched == None
    ensures Before(l, run, i).lastDesired == None && Before(l, run, i).bootstrap == l.bootstrap
    decreases i
  {
    if i > 0 {
      NothingFetchedYet(l, run, i - 1);
      StepOfRun(l, run, i - 1);
    }
  }

  /** As long as no fetch has succeeded, an outage pass whose calls go through
    * joins the bootstrap logins that are missing and leaves exactly those
    * connected; otherwise it stops at the first call that fails.
    */
  lemma BootstrapUntilFetched(l: Loop, run: seq<Step>, i: nat)
    requires IsRun(l, run) && i < |run| && l.lastDesired == None && l.bootstrap != []
    requires forall k :: 0 <= k <= i && run[k].ev.Reconcile? ==> run[k].ev.fetched == None
    requires run[i].ev.Reconcile?
    ensures var before, after, ev, log := Before(l, run, i).state, run[i].after.state, run[i].ev, run[i].log;
            var missing := Logins(l.bootstrap) - before.connected;
            && !run[i].ok
            && (missing !! ev.joinFailures && Stale(before, l.bootstrap) !! ev.partFailures ==>
                  && after.connected == Logins(l.bootstrap) == Tracked(after.joined)
                  && AsSet(log.joins) == missing && AsSet(log.parts) == Stale(before, l.bootstrap))
            && (!(missing !! ev.joinFailures) ==>
                  && log.parts == [] && log.joins < DueJoins(l.bootstrap, false, before.connected)
                  && DueJoins(l.bootstrap, false, before.connected)[|log.joins|] in ev.joinFailures)
  {
    NothingFetchedYet(l, run, i);
    StepOfRun(l, run, i);
  }

  lemma {:induction false} FetchedStays(l: Loop, run: seq<Step>, from: nat, i: nat)
    requires IsRun(l, run) && from <= i <= |run| && Before(l, run, from).lastDesired.Some?
    ensures Before(l, run, i).lastDesired.Some?
    decreases i
  {
    if i > from {
      FetchedStays(l, run, from, i - 1);
      StepOfRun(l, run, i - 1);
    }
  }

  /** After the first successful fetch, an outage changes no membership and
    * makes no call, for the rest of the run.
    */
  lemma OutageChangesNothing(l: Loop, run: seq<Step>, first: nat, i: nat)
    requires IsRun(l, run) && first < i < |run|
    requires run[first].ev.Reconcile? && run[first].ev.fetched.Some?
    requires run[i].ev.Reconcile? && run[i].ev.fetched.None?
    ensures run[i].after.state == Before(l, run, i).state && run[i].log == Log([], [])
  {
    FetchedAt(l, run, first);
    FetchedStays(l, run, first + 1, i);
    OutageStep(l, run, i);
  }

  lemma FetchedAt(l: Loop, run: seq<Step>, first: nat)
    requires IsRun(l, run) && first < |run| && run[first].ev.Reconcile? && run[first].ev.fetched.Some?
    ensures Before(l, run, first + 1).lastDesired.Some?
  {
    StepOfRun(l, run, first);
  }

  lemma OutageStep(l: Loop, run: seq<Step>, i: nat)
    requires IsRun(l, run) && i < |run| && run[i].ev.Reconcile? && run[i].ev.fetched.None?
    requires Before(l, run, i).lastDesired.Some?
    ensures run[i].after.state == Before(l, run, i).state && run[i].log == Log([], [])
  {
    StepOfRun(l, run, i);
  }

  /** A rejoin requested between passes stays pending until a pass succeeds, and
    * that pass is forced: it joins every desired login anew.
    */
  lemma {:induction false} RejoinIsHonoured(l: Loop, run: seq<Step>, from: nat, n: nat)
    requires IsRun(l, run) && from <= n <= |run| && Before(l, run, from).forceRejoin
    requires forall i :: from <= i < n && run[i].ev.Reconcile? ==> !run[i].ok
    ensures Before(l, run, n).forceRejoin
    ensures n < |run| && run[n].ev.Reconcile? && run[n].ok ==>
              run[n].ev.fetched.Some? && AsSet(run[n].log.joins) == Logins(run[n].ev.fetched.value)
    decreases n
  {
    if n > from {
      RejoinIsHonoured(l, run, from, n - 1);
      StepOfRun(l, run, n - 1);
    }
    if n < |run| && run[n].ev.Reconcile? && run[n].ok {
      JoinsOf(l, run, n);
    }
  }

  /** From the moment it is requested. */
  lemma RequestIsHonoured(l: Loop, run: seq<Step>, r: nat, n: nat)
    requires IsRun(l, run) && r < n < |run| && run[r].ev.RejoinRequested? && run[n].ev.Reconcile? && run[n].ok
    requires forall i :: r < i < n && run[i].ev.Reconcile? ==> !run[i].ok
    ensures run[n].ev.fetched.Some? && AsSet(run[n].log.joins) == Logins(run[n].ev.fetched.value)
  {
    assert Before(l, run, r + 1).forceRejoin by {
      StepOfRun(l, run, r);
    }
    RejoinIsHonoured(l, run, r + 1, n);
  }

  /** So is one requested while a pass fetches: that pass is forced, or it stays
    * pending.
    */
  lemma RejoinInFetchIsHonoured(l: Loop, l': Loop, ev: Event, ok: bool, log: Log)
    requires ev.Reconcile? && ev.rejoinInFetch && Pass(l, l', ev, ok, log)
    ensures l'.forceRejoin || (ev.fetched.Some? && AsSet(log.joins) == Logins(ev.fetched.value))
  {
  }

  predicate Requests(ev: Event)
  {
    match ev
    case Reconcile(_, _, _, inFetch, after) => inFetch || after
    case RejoinRequested => true
    case Drift(_) => false
  }

  lemma {:induction false} FlagStaysDown(l: Loop, run: seq<Step>, from: nat, n: nat)
    requires IsRun(l, run) && from <= n <= |run| && !Before(l, run, from).forceRejoin
    requires forall i :: from <= i < n ==> !Requests(run[i].ev)
    ensures !Before(l, run, n).forceRejoin
    decreases n
  {
    if n > from {
      FlagStaysDown(l, run, from, n - 1);
      StepOfRun(l, run, n - 1);
    }
  }

  lemma JoinsOf(l: Loop, run: seq<Step>, j: nat)
    requires IsRun(l, run) && j < |run| && run[j].ev.Reconcile? && run[j].ok
    ensures var before, ev := Before(l, run, j), run[j].ev;
            && ev.fetched.Some?
            && AsSet(run[j].log.joins) ==
               Due(ev.fetched.value, before.forceRejoin || ev.rejoinInFetch, before.state.connected)
  {
    StepOfRun(l, run, j);
  }

  lemma FlagAfter(l: Loop, run: seq<Step>, i: nat)
    requires IsRun(l, run) && i < |run| && run[i].ev.Reconcile? && run[i].ev.fetched.Some? && run[i].ev.rejoinAfter
    ensures var before, ev := Before(l, run, i), run[i].ev;
            var force := before.forceRejoin || ev.rejoinInFetch;
            run[i].after.forceRejoin <==>
            !(Due(ev.fetched.value, force, before.state.connected) !! ev.joinFailures &&
              Stale(before.state, ev.fetched.value) !! ev.partFailures)
  {
    StepOfRun(l, run, i);
  }

  /** Requested once pass i has read the flag, a rejoin is lost exactly when none
    * of the logins that pass has to join and to part fails: the next pass that
    * succeeds then joins only what is missing, otherwise every desired login.
    */
  lemma RejoinLostIff(l: Loop, run: seq<Step>, i: nat, j: nat)
    requires IsRun(l, run) && i < j < |run|
    requires run[i].ev.Reconcile? && run[i].ev.fetched.Some? && run[i].ev.rejoinAfter
    requires run[j].ev.Reconcile? && run[j].ok
    requires forall k :: i < k < j && run[k].ev.Reconcile? ==> !run[k].ok
    requires forall k :: i < k <= j ==> !Requests(run[k].ev)
    ensures run[j].ev.fetched.Some?
    ensures var before, ev := Before(l, run, i), run[i].ev;
            var force := before.forceRejoin || ev.rejoinInFetch;
            var lost := Due(ev.fetched.value, force, before.state.connected) !! ev.joinFailures &&
                        Stale(before.state, ev.fetched.value) !! ev.partFailures;
            AsSet(run[j].log.joins) == Due(run[j].ev.fetched.value, !lost, Before(l, run, j).state.connected)
  {
    FlagAfter(l, run, i);
    JoinsOf(l, run, j);
    if run[i].after.forceRejoin {
      RejoinIsHonoured(l, run, i + 1, j);
    } else {
      FlagStaysDown(l, run, i + 1, j);
    }
  }

  /** What the runtime lost or gained by itself, the next pass that succeeds
    * joins or parts again.
    */
  lemma DriftIsRepaired(l: Loop, run: seq<Step>, i: nat, connected: set<Login>)
    requires IsRun(l, run) && i + 1 < |run| && run[i].ev == Drift(connected)
    requires run[i + 1].ev.Reconcile? && run[i + 1].ok
    ensures var ev, log, force := run[i + 1].ev, run[i + 1].log, run[i].after.forceRejoin;
            && ev.fetched.Some? && run[i + 1].after.state.connected == Logins(ev.fetched.value)
            && (!force && !ev.rejoinInFetch ==> AsSet(log.joins) == Logins(ev.fetched.value) - connected)
            && connected - Logins(ev.fetched.value) <= AsSet(log.parts)
  {
    StepOfRun(l, run, i);
    StepOfRun(l, run, i + 1);
  }

  /** A pass that succeeded leaves nothing for the next one with the same
    * desired set, whatever ids the map held before: it makes no call, so no
    * call of it can fail, and it returns normally.
    */
  lemma SecondPassIsQuiet(l: Loop, l1: Loop, l2: Loop, desired: seq<Desired>, first: Event, second: Event,
                          ok: bool, log1: Log, log2: Log)
    requires first.Reconcile? && first.fetched == Some(desired) && Pass(l, l1, first, true, log1)
    requires second.Reconcile? && second.fetched == Some(desired) && !second.rejoinInFetch
    requires Pass(l1, l2, second, ok, log2)
    ensures ok && log2 == Log([], []) && l2.state.connected == l1.state.connected
  {
    assert Due(desired, l1.forceRejoin, l1.state.connected) == {};
    assert forall id :: id in l1.state.joined ==> l1.state.joined[id] in Tracked(l1.state.joined);
    assert Stale(l1.state, desired) == {};
    if log2.joins != [] {
      FirstIsIn(log2.joins);
    }
    if log2.parts != [] {
      FirstIsIn(log2.parts);
    }
  }

  lemma FirstIsIn(log: seq<Login>)
    requires log != []
    ensures log[0] in AsSet(log)
  {
  }
}
