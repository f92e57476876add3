/** The committed rows the economy services share, and the bookkeeping of the
  * world outside them.
  */
module Database {
  import opened ProviderClient
  import opened Saga
  import opened Ledger

  /** The rows and the process memory, as one value. */
  datatype Tables = Tables(
    operations: seq<Operation>, outbox: seq<OutboxEvent>, calls: seq<seq<Call>>, world: seq<Effects>)
  {
    predicate Shape() { |operations| == |outbox| == |calls| == |world| }

    function Rows(): (rows: seq<Saga>)
      requires Shape()
      ensures |rows| == |operations|
      ensures forall i :: 0 <= i < |rows| ==> rows[i] == Saga(operations[i], outbox[i], calls[i], world[i])
    {
      seq(|operations|, i requires 0 <= i < |operations| => Saga(operations[i], outbox[i], calls[i], world[i]))
    }
  }

  /** One row changed. */
  lemma RowChanged(a: Tables, b: Tables, i: nat, sg: Saga)
    requires a.Shape() && b.Shape() && i < |a.operations| == |b.operations|
    requires sg == Saga(b.operations[i], b.outbox[i], b.calls[i], b.world[i])
    requires forall j :: 0 <= j < |a.operations| && j != i ==>
               a.operations[j] == b.operations[j] && a.outbox[j] == b.outbox[j] &&
               a.calls[j] == b.calls[j] && a.world[j] == b.world[j]
    ensures b.Rows() == a.Rows()[i := sg]
  {
  }

  /** One row was added. */
  lemma RowAdded(a: Tables, b: Tables, sg: Saga)
    requires a.Shape() && b.Shape() && |b.operations| == |a.operations| + 1
    requires sg == Saga(b.operations[|a.operations|], b.outbox[|a.operations|],
                        b.calls[|a.operations|], b.world[|a.operations|])
    requires a.operations == b.operations[..|a.operations|] && a.outbox == b.outbox[..|a.operations|]
    requires a.calls == b.calls[..|a.operations|] && a.world == b.world[..|a.operations|]
    ensures b.Rows() == a.Rows() + [sg]
  {
  }

  class Database {
    var mass: map<PlayerId, nat>          // users_progress.current_mass
    var operations: seq<Operation>        // economy_operations
    var outbox: seq<OutboxEvent>          // outbox_events, one for each operation
    var calls: seq<seq<Call>>             // who is or was inside a provider call for it
    ghost var world: seq<Effects>     // what really happened for each operation
    ghost var other: map<PlayerId, int>
    ghost var balance: map<PlayerId, int>
    ghost var external: map<PlayerId, int>

    ghost predicate Shape()
      reads this
    {
      Snapshot().Shape()
    }

    ghost function Row(i: nat): Saga
      requires Shape() && i < |operations|
      reads this
    {
      Saga(operations[i], outbox[i], calls[i], world[i])
    }

    ghost function Snapshot(): Tables
      reads this
    {
      Tables(operations, outbox, calls, world)
    }

    ghost function View(): Ledger
      requires Shape()
      reads this
    {
      Ledger(mass, other, balance, external, Snapshot().Rows())
    }

    /** An operation that can be worked on: its player exists on both sides. */
    ghost predicate Owned(i: nat)
      requires Shape()
      reads this
    {
      i < |operations| && operations[i].player in mass && operations[i].player in balance
    }

    constructor (players: map<PlayerId, nat>, ghost points: map<PlayerId, int>)
      requires points.Keys == players.Keys
      ensures Shape() && Initial(View())
      ensures mass == players && balance == points
    {
      mass := players;
      operations, outbox, calls, world := [], [], [], [];
      other := map p | p in players :: players[p];
      balance, external := points, points;
    }

    /** `apply_mass_mutation` with the default floor. */
    method ApplyMassMutation(player: PlayerId, delta: int)
      requires player in mass
      modifies this`mass
      ensures mass == old(mass)[player := Shifted(old(mass)[player], delta)]
    {
      var after := mass[player] + delta;
      mass := mass[player := if after < 0 then 0 else after];
    }

    /** `_create_operation`: the operation and its outbox row, still pending. */
    method CreateOperation(op: Operation) returns (i: nat)
      requires Shape()
      modifies this`operations, this`outbox, this`calls, this`world
      ensures Shape() && i == old(|operations|)
      ensures operations == old(operations) + [op]
      ensures outbox == old(outbox) + [OutboxEvent(EventPending, false, 0)]
      ensures calls == old(calls) + [[]]
      ensures world == old(world) + [Effects(0, 0, 0)]
    {
      i := |operations|;
      operations := operations + [op];
      outbox := outbox + [OutboxEvent(EventPending, false, 0)];
      calls := calls + [[]];
      world := world + [Effects(0, 0, 0)];
    }

    /** `_mark_outbox`. */
    method MarkOutbox(i: nat, state: EventState)
      requires Shape() && i < |outbox|
      modifies this`outbox
      ensures Shape()
      ensures outbox == old(outbox)[i := old(outbox)[i].(state := state, leased := state == EventProcessing)]
    {
      outbox := outbox[i := outbox[i].(state := state)];
      if state == EventProcessing {
        outbox := outbox[i := outbox[i].(leased := true)];
      } else {
        outbox := outbox[i := outbox[i].(leased := false)];
      }
    }

    /** Set both states: the last writes before a commit. */
    method Close(i: nat, state: OpState, event: EventState)
      requires Shape() && Owned(i)
      modifies this`operations, this`outbox
      ensures Shape() && Owned(i) && View() == Put(old(View()), i, Mark(old(Row(i)), state, event))
    {
      operations := operations[i := operations[i].(state := state)];
      MarkOutbox(i, event);
      RowTaken(old(View()), old(Snapshot()), i);
    }

    /** A process changes or leaves its provider call, without a commit. */
    method SetCall(i: nat, k: nat, call: Call)
      requires Shape() && Owned(i) && k < |calls[i]|
      modifies this`calls
      ensures Shape() && Owned(i) && View() == Put(old(View()), i, WithCall(old(Row(i)), k, call))
    {
      calls := calls[i := calls[i][k := call]];
      RowTaken(old(View()), old(Snapshot()), i);
    }

    /** One more process enters a provider call. */
    method EnterCall(i: nat, actor: Actor)
      requires Shape() && Owned(i)
      modifies this`calls
      ensures Shape() && Owned(i)
      ensures View() == Put(old(View()), i, old(Row(i)).(calls := old(calls[i]) + [Running(actor)]))
    {
      calls := calls[i := calls[i] + [Running(actor)]];
      RowTaken(old(View()), old(Snapshot()), i);
    }

    /** One more failed try of the worker. */
    method CountAttempt(i: nat)
      requires Shape() && Owned(i)
      modifies this`outbox
      ensures Shape() && Owned(i)
      ensures outbox[i].attempts == old(outbox)[i].attempts + 1
      ensures View() == Put(old(View()), i,
                old(Row(i)).(event := old(outbox[i]).(attempts := old(outbox[i]).attempts + 1)))
    {
      outbox := outbox[i := outbox[i].(attempts := outbox[i].attempts + 1)];
      RowTaken(old(View()), old(Snapshot()), i);
    }

    /** Give the mass of a sale back and stamp `compensated_at`. */
    method ReturnMass(i: nat)
      requires Shape() && Owned(i)
      modifies this`mass, this`world, this`operations
      ensures Shape() && Owned(i) && View() == Put(old(View()), i, Restore(old(Row(i))))
    {
      ApplyMassMutation(operations[i].player, operations[i].mass);
      world := world[i := MassMoved(Row(i)).effects];
      operations := operations[i := operations[i].(compensated := true)];
      RowTaken(old(View()), old(Snapshot()), i);
    }

    /** Grant the mass of a purchase and stamp `internal_applied_at`. */
    method GrantMass(i: nat)
      requires Shape() && Owned(i)
      modifies this`mass, this`world, this`operations
      ensures Shape() && Owned(i) && View() == Put(old(View()), i, Grant(old(Row(i))))
    {
      ApplyMassMutation(operations[i].player, operations[i].mass);
      world := world[i := MassMoved(Row(i)).effects];
      operations := operations[i := operations[i].(internalApplied := true)];
      RowTaken(old(View()), old(Snapshot()), i);
    }

    /** The provider's side of a call: nothing here is committed. */
    method ProviderAnswers(i: nat, k: nat, ghost applied: bool, seen: Seen)
      requires Shape() && Owned(i) && k < |calls[i]| && Answerable(calls[i][k], applied, seen)
      modifies this`calls, this`world, this`balance
      ensures Shape() && Owned(i) && View() == Step(old(View()), At(i, Answer(k, applied, seen)))
    {
      ghost var paid := world[i].paid;
      if applied {
        world := world[i := PointsMoved(Row(i), 1).effects];
      }
      balance := balance[operations[i].player := balance[operations[i].player] + world[i].paid - paid];
      calls := calls[i := calls[i][k := Answered(calls[i][k].actor, seen)]];
      RowTaken(old(View()), old(Snapshot()), i);
    }

    method ProviderAnswersRefund(i: nat, k: nat, ghost applied: bool, confirmed: bool)
      requires Shape() && Owned(i) && k < |calls[i]| && calls[i][k].Refunding?
      modifies this`calls, this`world, this`balance
      ensures Shape() && Owned(i) && View() == Step(old(View()), At(i, RefundAnswer(k, applied, confirmed)))
    {
      ghost var paid := world[i].paid;
      if applied {
        world := world[i := PointsMoved(Row(i), -1).effects];
      }
      balance := balance[operations[i].player := balance[operations[i].player] + world[i].paid - paid];
      calls := calls[i := calls[i][k := RefundAnswered(confirmed)]];
      RowTaken(old(View()), old(Snapshot()), i);
    }

    /** A process inside a call dies; the rows stay as committed. */
    method ProcessDies(i: nat, k: nat)
      requires Shape() && Owned(i) && k < |calls[i]| && calls[i][k] != NoCall
      modifies this`calls
      ensures Shape() && View() == Step(old(View()), At(i, Local.Crash(k)))
    {
      SetCall(i, k, NoCall);
    }

    /** Once one row, the player's mass and the provider balance have changed
      * together, the state is the earlier one with that row put in.
      */
    lemma RowTaken(was: Ledger, tables: Tables, i: nat)
      requires Shape() && tables.Shape() && was.sagas == tables.Rows() && |operations| == |tables.operations|
      requires i < |was.sagas| && operations[i].player == was.sagas[i].op.player
      requires operations[i].player in was.mass && operations[i].player in was.balance
      requires forall j :: 0 <= j < |operations| && j != i ==>
                 tables.operations[j] == operations[j] && tables.outbox[j] == outbox[j] &&
                 tables.calls[j] == calls[j] && tables.world[j] == world[j]
      requires var p := operations[i].player;
               && mass == was.mass[p := Shifted(was.mass[p], world[i].moved - tables.world[i].moved)]
               && balance == was.balance[p := was.balance[p] + world[i].paid - tables.world[i].paid]
      requires other == was.other && external == was.external
      ensures View() == Put(was, i, Row(i))
    {
      RowChanged(tables, Snapshot(), i, Row(i));
    }
  }

  /** Two changes of one row in one transaction are one change. */
  lemma PutTwice(l: Ledger, i: nat, a: Saga, b: Saga)
    requires i < |l.sagas| && l.sagas[i].op.player in l.mass && l.sagas[i].op.player in l.balance
    requires l.sagas[i].op.player == a.op.player == b.op.player
    requires l.sagas[i].effects.moved <= a.effects.moved <= b.effects.moved
    ensures Put(Put(l, i, a), i, b) == Put(l, i, b)
  {
  }

  lemma PutSame(l: Ledger, i: nat)
    requires i < |l.sagas| && l.sagas[i].op.player in l.mass && l.sagas[i].op.player in l.balance
    ensures Put(l, i, l.sagas[i]) == l
  {
    assert l.sagas[i := l.sagas[i]] == l.sagas;
    var p := l.sagas[i].op.player;
    assert l.mass[p := l.mass[p]] == l.mass && l.balance[p := l.balance[p]] == l.balance;
  }
}
