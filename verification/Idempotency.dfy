/** `services/idempotency_service.py` over the unique key of
  * `infrastructure/models.py`: requests look up, run their callback and insert,
  * in any interleaving and with any clock.
  */
module Idempotency {

  type Key = int        // actor scope and idempotency key, only ever compared
  type Hash = int       // of action and payload
  type Response = int
  type Time = int
  type RequestId = int

  const LIFETIME: Time := 24 * 3600

  datatype Record = Record(hash: Hash, response: Response, expires: Time)

  /** A request whose lookup missed and whose callback is running. */
  datatype Running = Running(key: Key, hash: Hash)

  /** What became durable, in order: a callback's transaction with its record,
    * work a callback committed on its own before that, or the deletion of an
    * expired record by the retention job.
    */
  datatype Entry = Committed(key: Key, hash: Hash, response: Response) | Partial(key: Key) | Purged(key: Key)

  datatype Reply = Replayed(response: Response) | Conflict | Executed(response: Response) | Aborted | Waiting

  datatype Store = Store(records: map<Key, Record>, running: map<RequestId, Running>, history: seq<Entry>)

  datatype Event =
    | Begin(id: RequestId, key: Key, hash: Hash, now: Time)
    | Finish(id: RequestId, response: Response, now: Time)
    | CallbackCommits(id: RequestId)   // some callbacks commit before they answer or raise
    | CallbackFails(id: RequestId)
    | Purge(key: Key, now: Time)

  // ---- on values -----------------------------------------------------------

  /** The lookup: only a record that has not expired is seen. */
  function Look(s: Store, key: Key, hash: Hash, now: Time): Reply
  {
    if key in s.records && s.records[key].expires > now then
      if s.records[key].hash == hash then Replayed(s.records[key].response) else Conflict
    else Waiting
  }

  function Step(s: Store, ev: Event): (Store, Reply)
  {
    match ev
    case Begin(id, key, hash, now) =>
      var reply := Look(s, key, hash, now);
      if reply.Waiting? && id !in s.running then (s.(running := s.running[id := Running(key, hash)]), reply)
      else (s, reply)
    case Finish(id, response, now) =>
      if id !in s.running then (s, Aborted) else
      var r := s.running[id];
      var rest := s.running - {id};
      if r.key in s.records then (s.(running := rest), Aborted)   // the unique key
      else (Store(s.records[r.key := Record(r.hash, response, now + LIFETIME)], rest,
                  s.history + [Committed(r.key, r.hash, response)]), Executed(response))
    case CallbackCommits(id) =>
      if id in s.running then (s.(history := s.history + [Partial(s.running[id].key)]), Waiting) else (s, Aborted)
    case CallbackFails(id) => (s.(running := s.running - {id}), Aborted)
    case Purge(key, now) =>
      if key in s.records && s.records[key].expires < now
      then (s.(records := s.records - {key}, history := s.history + [Purged(key)]), Aborted)
      else (s, Aborted)
  }

  /** The executions of a key that became durable with their record since a
    * record of the key was last deleted, oldest first.
    */
  function Since(history: seq<Entry>, key: Key): seq<Entry>
  {
    if history == [] then [] else
    var last := history[|history| - 1];
    var before := Since(history[..|history| - 1], key);
    if last.key != key || last.Partial? then before else if last.Purged? then [] else before + [last]
  }

  /** The same, with the work committed on its own. */
  function EverythingSince(history: seq<Entry>, key: Key): seq<Entry>
  {
    if history == [] then [] else
    var last := history[|history| - 1];
    var before := EverythingSince(history[..|history| - 1], key);
    if last.key != key then before else if last.Purged? then [] else before + [last]
  }

  /** At most one execution per key, and the record is its witness. */
  predicate Faithful(s: Store, key: Key)
  {
    if key in s.records
    then Since(s.history, key) == [Committed(key, s.records[key].hash, s.records[key].response)]
    else Since(s.history, key) == []
  }

  ghost predicate Inv(s: Store) { forall key :: Faithful(s, key) }

  lemma SinceAppend(history: seq<Entry>, entry: Entry, key: Key)
    ensures Since(history + [entry], key) ==
            if entry.key != key || entry.Partial? then Since(history, key)
            else if entry.Purged? then [] else Since(history, key) + [entry]
  {
    assert (history + [entry])[..|history|] == history;
  }

  lemma InvStep(s: Store, ev: Event)
    requires Inv(s)
    ensures Inv(Step(s, ev).0)
  {
    var s' := Step(s, ev).0;
    forall key ensures Faithful(s', key) {
      assert Faithful(s, key);
      if |s'.history| > |s.history| {
        SinceAppend(s.history, s'.history[|s.history|], key);
      }
    }
  }

  function Run(s: Store, evs: seq<Event>): Store
    decreases |evs|
  {
    if evs == [] then s else Run(Step(s, evs[0]).0, evs[1..])
  }

  /** At-most-once over every run: while a record exists exactly one execution
    * of its key is durable with it, otherwise none is, also past the 24 hours
    * when the lookup misses and only the unique key is left.
    */
  lemma {:induction false} AtMostOnce(s: Store, evs: seq<Event>, key: Key)
    requires Inv(s)
    ensures var end := Run(s, evs);
            Inv(end) && |Since(end.history, key)| == if key in end.records then 1 else 0
    decreases |evs|
  {
    if evs == [] {
      assert Faithful(s, key);
    } else {
      InvStep(s, evs[0]);
      AtMostOnce(Step(s, evs[0]).0, evs[1..], key);
    }
  }

  lemma {:induction false} OwnWorkCounts(history: seq<Entry>, key: Key)
    ensures |EverythingSince(history, key)| >= |Since(history, key)|
    ensures |EverythingSince(history, key)| == |Since(history, key)| <==> Partial(key) !in EverythingSince(history, key)
  {
    if history != [] {
      var last := history[|history| - 1];
      OwnWorkCounts(history[..|history| - 1], key);
      if last.key == key && !last.Purged? {
        assert EverythingSince(history, key)[|EverythingSince(history, key)| - 1] == last;
      }
    }
  }

  /** Nothing else of the key is durable exactly when no callback of it has
    * committed work of its own since.
    */
  lemma NothingElseIff(s: Store, evs: seq<Event>, key: Key)
    requires Inv(s)
    ensures var end := Run(s, evs);
            |EverythingSince(end.history, key)| == (if key in end.records then 1 else 0) <==>
            Partial(key) !in EverythingSince(end.history, key)
  {
    AtMostOnce(s, evs, key);
    OwnWorkCounts(Run(s, evs).history, key);
  }

  /** Without a record to find, a callback that commits and then raises leaves
    * its work each time it is called.
    */
  lemma RaisingAfterCommit(s: Store, a: RequestId, b: RequestId, key: Key, hash: Hash, now: Time, later: Time)
    requires key !in s.records && a !in s.running && b !in s.running
    ensures var evs := [Begin(a, key, hash, now), CallbackCommits(a), CallbackFails(a),
                        Begin(b, key, hash, later), CallbackCommits(b), CallbackFails(b)];
            var end := Run(s, evs);
            end.records == s.records && end.history == s.history + [Partial(key), Partial(key)]
  {
    OneFailure(s, a, key, hash, now);
    var first := [Begin(a, key, hash, now), CallbackCommits(a), CallbackFails(a)];
    var second := [Begin(b, key, hash, later), CallbackCommits(b), CallbackFails(b)];
    OneFailure(Run(s, first), b, key, hash, later);
    RunSum(s, first, second);
    assert first + second == [Begin(a, key, hash, now), CallbackCommits(a), CallbackFails(a),
                              Begin(b, key, hash, later), CallbackCommits(b), CallbackFails(b)];
    assert s.history + [Partial(key)] + [Partial(key)] == s.history + [Partial(key), Partial(key)];
  }

  lemma OneFailure(s: Store, a: RequestId, key: Key, hash: Hash, now: Time)
    requires key !in s.records && a !in s.running
    ensures Run(s, [Begin(a, key, hash, now), CallbackCommits(a), CallbackFails(a)]) ==
            s.(history := s.history + [Partial(key)])
  {
    var s1 := Step(s, Begin(a, key, hash, now)).0;
    var s2 := Step(s1, CallbackCommits(a)).0;
    var s3 := Step(s2, CallbackFails(a)).0;
    var evs := [Begin(a, key, hash, now), CallbackCommits(a), CallbackFails(a)];
    assert evs[1..] == [CallbackCommits(a), CallbackFails(a)];
    assert [CallbackCommits(a), CallbackFails(a)][1..] == [CallbackFails(a)];
    assert [CallbackFails(a)][1..] == [];
    assert Run(s2, [CallbackFails(a)]) == Run(s3, []);
    assert s3.running == s.running;
  }

  lemma {:induction false} RunSum(s: Store, a: seq<Event>, b: seq<Event>)
    ensures Run(s, a + b) == Run(Run(s, a), b)
    decreases |a|
  {
    if a == [] {
      assert a + b == b;
    } else {
      assert (a + b)[1..] == a[1..] + b;
      RunSum(Step(s, a[0]).0, a[1..], b);
    }
  }

  /** No clock has reached a time. */
  predicate Before(ev: Event, time: Time)
  {
    match ev
    case Begin(_, _, _, now) => now < time
    case Finish(_, _, now) => now < time
    case Purge(_, now) => now < time
    case _ => true
  }

  predicate NobodyRuns(s: Store, key: Key) { forall id :: id in s.running ==> s.running[id].key != key }

  /** The half that survives such callbacks: while the record lasts and nobody
    * who missed it is still running, nothing of the key becomes durable.
    */
  lemma {:induction false} NothingWhileReplayed(s: Store, evs: seq<Event>, key: Key)
    requires key in s.records && NobodyRuns(s, key)
    requires forall i :: 0 <= i < |evs| ==> Before(evs[i], s.records[key].expires)
    ensures var end := Run(s, evs);
            && key in end.records && end.records[key] == s.records[key] && NobodyRuns(end, key)
            && EverythingSince(end.history, key) == EverythingSince(s.history, key)
    decreases |evs|
  {
    if evs != [] {
      var s1 := Step(s, evs[0]).0;
      if |s1.history| > |s.history| {
        assert s1.history[..|s1.history| - 1] == s.history;
      }
      NothingWhileReplayed(s1, evs[1..], key);
    }
  }

  /** Somewhere between two positions the key's record was deleted. */
  ghost predicate PurgedBetween(history: seq<Entry>, key: Key, i: int, j: int)
  {
    exists k :: 0 <= i < k < j <= |history| && history[k] == Purged(key)
  }

  lemma {:induction false} NothingSince(history: seq<Entry>, key: Key, i: nat)
    requires Since(history, key) == [] && i < |history| && history[i].Committed? && history[i].key == key
    ensures PurgedBetween(history, key, i, |history|)
    decreases |history|
  {
    var n := |history| - 1;
    if history[n] != Purged(key) {
      assert i < n;
      NothingSince(history[..n], key, i);
      var k :| i < k < n && history[..n][k] == Purged(key);
      assert history[k] == Purged(key);
    }
  }

  predicate TwoExecutions(a: Entry, b: Entry) { a.Committed? && b.Committed? && a.key == b.key }

  /** No two executions for one key without a deletion between them. */
  ghost predicate Apart(history: seq<Entry>)
  {
    forall i, j :: 0 <= i < j < |history| && TwoExecutions(history[i], history[j]) ==>
      PurgedBetween(history, history[i].key, i, j)
  }

  lemma ApartStep(s: Store, ev: Event)
    requires Inv(s) && Apart(s.history)
    ensures Apart(Step(s, ev).0.history)
  {
    var n, after := |s.history|, Step(s, ev).0.history;
    assert s.history <= after && |after| <= n + 1;
    forall i, j | 0 <= i < j < |after| && TwoExecutions(after[i], after[j])
      ensures PurgedBetween(after, after[i].key, i, j)
    {
      var key := after[i].key;
      if j == n {
        assert Faithful(s, key);
        NothingSince(s.history, key, i);
      }
      assert PurgedBetween(s.history, key, i, j);
      var k :| i < k < j && s.history[k] == Purged(key);
      assert after[k] == Purged(key);
    }
  }

  /** Of any two executions for one key in one run, the first one's record was
    * deleted before the second became durable.
    */
  lemma {:induction false} ExecutionsAreApart(s: Store, evs: seq<Event>)
    requires Inv(s) && Apart(s.history)
    ensures Apart(Run(s, evs).history)
    decreases |evs|
  {
    if evs != [] {
      InvStep(s, evs[0]);
      ApartStep(s, evs[0]);
      ExecutionsAreApart(Step(s, evs[0]).0, evs[1..]);
    }
  }

  /** A replay answers with the one durable execution of the same payload; a
    * conflict means that execution had another one.
    */
  lemma RepliesAreFaithful(s: Store, id: RequestId, key: Key, hash: Hash, now: Time)
    requires Inv(s)
    ensures var reply := Step(s, Begin(id, key, hash, now)).1;
            && (reply.Replayed? ==> Since(s.history, key) == [Committed(key, hash, reply.response)])
            && (reply.Conflict? ==> exists other, response ::
                  other != hash && Since(s.history, key) == [Committed(key, other, response)])
            && (reply.Waiting? <==> key !in s.records || s.records[key].expires <= now)
  {
    assert Faithful(s, key);
  }

  /** Of two requests that both missed, whichever finishes second is aborted and
    * leaves nothing, in either order.
    */
  lemma SecondFinishAborts(s: Store, a: RequestId, b: RequestId, ra: Response, rb: Response, ta: Time, tb: Time)
    requires a in s.running && b in s.running && a != b && s.running[a].key == s.running[b].key
    ensures var (s1, _) := Step(s, Finish(a, ra, ta));
            var (s2, reply) := Step(s1, Finish(b, rb, tb));
            reply == Aborted && s2.records == s1.records && s2.history == s1.history
  {
  }

  /** A request that finds no record runs its callback, and what that answers is
    * recorded for 24 hours.
    */
  lemma FirstRequestExecutes(s: Store, id: RequestId, key: Key, hash: Hash, response: Response, now: Time, end: Time)
    requires key !in s.records && id !in s.running
    ensures var (s1, missed) := Step(s, Begin(id, key, hash, now));
            var (s2, reply) := Step(s1, Finish(id, response, end));
            && missed == Waiting && reply == Executed(response) && s2.running == s.running
            && s2.records == s.records[key := Record(hash, response, end + 86_400)]
            && s2.history == s.history + [Committed(key, hash, response)]
  {
    assert (s.running[id := Running(key, hash)]) - {id} == s.running;
  }

  /** A committed request is answered from its record for 24 hours, not a moment
    * longer: with its response, or with a conflict for another payload.
    */
  lemma ReplayedUntil(s: Store, id: RequestId, response: Response, now: Time,
                      other: RequestId, hash: Hash, later: Time)
    requires id in s.running && s.running[id].key !in s.records
    ensures var r := s.running[id];
            var s' := Step(s, Finish(id, response, now)).0;
            Step(s', Begin(other, r.key, hash, later)).1 ==
            if later >= now + 86_400 then Waiting else if hash == r.hash then Replayed(response) else Conflict
  {
  }

  /** The retention job deletes it only once the 24 hours are over, and touches
    * no other key.
    */
  lemma PurgedIff(s: Store, id: RequestId, response: Response, now: Time, later: Time, other: Key)
    requires id in s.running && s.running[id].key !in s.records
    ensures var key := s.running[id].key;
            var s' := Step(s, Finish(id, response, now)).0;
            var end := Step(s', Purge(key, later)).0;
            && (key !in end.records <==> later > now + 86_400)
            && (other != key ==> (other in end.records <==> other in s.records) &&
                                 (other in s.records ==> end.records[other] == s.records[other]))
            && end.running == s'.running
  {
  }

  // ---- the service ---------------------------------------------------------

  class IdempotencyService {
    var records: map<Key, Record>
    var running: map<RequestId, Running>
    ghost var history: seq<Entry>

    ghost function View(): Store
      reads this
    {
      Store(records, running, history)
    }

    constructor ()
      ensures Inv(View()) && records == map[] && running == map[]
    {
      records, running, history := map[], map[], [];
      new;
      forall key ensures Faithful(View(), key) {
      }
    }

    /** `execute` up to the callback. */
    method Lookup(id: RequestId, key: Key, hash: Hash, now: Time) returns (reply: Reply)
      modifies this
      ensures (View(), reply) == Step(old(View()), Begin(id, key, hash, now))
    {
      if key in records && records[key].expires > now {
        if records[key].hash != hash {
          return Conflict;
        }
        return Replayed(records[key].response);
      }
      if id !in running {
        running := running[id := Running(key, hash)];
      }
      return Waiting;
    }

    /** `execute` after the callback: the insert that makes it durable, or that
      * takes the whole transaction down with it.
      */
    method Insert(id: RequestId, response: Response, now: Time) returns (reply: Reply)
      requires id in running
      modifies this
      ensures (View(), reply) == Step(old(View()), Finish(id, response, now))
    {
      var r := running[id];
      running := running - {id};
      if r.key in records {
        return Aborted;
      }
      records := records[r.key := Record(r.hash, response, now + LIFETIME)];
      history := history + [Committed(r.key, r.hash, response)];
      return Executed(response);
    }

    /** A callback commits before it has answered. */
    method CommitOwnWork(id: RequestId)
      requires id in running
      modifies this`history
      ensures View() == Step(old(View()), CallbackCommits(id)).0
    {
      history := history + [Partial(running[id].key)];
    }

    /** The callback raised: its own transaction is gone, no record is written. */
    method CallbackRaised(id: RequestId)
      modifies this`running
      ensures View() == Step(old(View()), CallbackFails(id)).0
    {
      running := running - {id};
    }

    /** The retention job deletes expired records only. */
    method DeleteExpired(key: Key, now: Time)
      modifies this`records, this`history
      ensures View() == Step(old(View()), Purge(key, now)).0
    {
      if key in records && records[key].expires < now {
        records := records - {key};
        history := history + [Purged(key)];
      }
    }
  }
}
