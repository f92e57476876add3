/** Robberies: the defence loop and the transfer of `services/fishing_service.py`
  * over the mass rules of `domain/logic/mass.py` and `formulas.py`.
  *
  * Masses are whole numbers of 0.01 kg, random rolls an arbitrary stream.
  */
module Robbery {
  import opened Options
  import opened Numbers
  import opened Mass

  type Slot = int   // an equipment slot, only ever compared

  // ---- effects -------------------------------------------------------------

  datatype Kind = Absorb | Block | Counter | Unrelated
  datatype Trigger = OnAttempt | OnSuccess | Elsewhere
  datatype CounterAction = Timeout(seconds: int) | AddMass(mass: int) | NoAction

  /** `targetsRobbery` matters for a block, `delta` for a terminal defence. */
  datatype Effect = Effect(kind: Kind, trigger: Trigger, targetsRobbery: bool, chance: real, cost: int, slot: Slot,
                           delta: int, action: CounterAction)

  datatype Action = TimedOut(seconds: int) | MassAdded(amount: int)

  datatype Stage = Stage(effect: Effect, roll: real)

  predicate Terminal(e: Effect) { e.kind.Absorb? || e.kind.Block? }

  predicate RunsIn(e: Effect, phase: Trigger)
  {
    && !e.kind.Unrelated? && e.trigger == phase
    && (phase != OnAttempt ==> !Terminal(e))
    && (e.kind.Block? ==> e.targetsRobbery)
  }

  /** The effects of a phase, in stored order. */
  function Eligible(effects: seq<Effect>, phase: Trigger): seq<Effect>
  {
    if effects == [] then [] else
    var before, e := Eligible(effects[..|effects| - 1], phase), effects[|effects| - 1];
    if RunsIn(e, phase) then before + [e] else before
  }

  predicate Passes(s: Stage) { s.roll < s.effect.chance }

  /** Eligible effect number i gets roll number from + i. */
  function StageAt(eligible: seq<Effect>, rolls: nat -> real, from: nat, i: nat): Stage
    requires i < |eligible|
  {
    Stage(eligible[i], rolls(from + i))
  }

  predicate Stopper(s: Stage) { Terminal(s.effect) && Passes(s) }

  /** `n` effects are rolled for: up to and including the first terminal one
    * that passes, or all of them.
    */
  predicate Stops(eligible: seq<Effect>, rolls: nat -> real, from: nat, n: nat, absorbed: bool)
  {
    && n <= |eligible|
    && (forall i :: 0 <= i < n - 1 ==> !Stopper(StageAt(eligible, rolls, from, i)))
    && (absorbed <==> n > 0 && Stopper(StageAt(eligible, rolls, from, n - 1)))
    && (!absorbed ==> n == |eligible|)
  }

  /** The effects that are executed: those among the first n whose roll passes. */
  function Passing(eligible: seq<Effect>, rolls: nat -> real, from: nat, n: nat): seq<Effect>
    requires n <= |eligible|
  {
    if n == 0 then [] else
    var before, s := Passing(eligible, rolls, from, n - 1), StageAt(eligible, rolls, from, n - 1);
    if Passes(s) then before + [s.effect] else before
  }

  /** There is only one way to stop. */
  lemma StopsOnce(eligible: seq<Effect>, rolls: nat -> real, from: nat, n: nat, a: bool, m: nat, b: bool)
    requires Stops(eligible, rolls, from, n, a) && Stops(eligible, rolls, from, m, b)
    ensures n == m && a == b
  {
  }

  /** At most one terminal defence is executed, and nothing after it. */
  lemma FirstTerminalWins(eligible: seq<Effect>, rolls: nat -> real, from: nat, n: nat, absorbed: bool)
    requires Stops(eligible, rolls, from, n, absorbed)
    ensures var executed := Passing(eligible, rolls, from, n);
            && (forall k :: 0 <= k < |executed| && Terminal(executed[k]) ==> absorbed && k == |executed| - 1)
            && (absorbed ==> executed != [] && executed[|executed| - 1] == eligible[n - 1])
  {
    if n > 0 {
      NoTerminalPasses(eligible, rolls, from, n - 1);
    }
  }

  lemma {:induction false} NoTerminalPasses(eligible: seq<Effect>, rolls: nat -> real, from: nat, n: nat)
    requires n <= |eligible| && forall i :: 0 <= i < n ==> !Stopper(StageAt(eligible, rolls, from, i))
    ensures forall e :: e in Passing(eligible, rolls, from, n) ==> !Terminal(e)
  {
    if n > 0 {
      NoTerminalPasses(eligible, rolls, from, n - 1);
    }
  }

  // ---- what an executed effect does ----------------------------------------

  datatype Policy = Indestructible | RetainBroken | UnequipBroken | DestroyAtZero

  datatype Worn = Worn(left: nat, policy: Policy)

  /** `consume_durability`. A slot with nothing that wears is not in the map. */
  function Consumed(slots: map<Slot, Worn>, slot: Slot, amount: int): map<Slot, Worn>
  {
    if amount <= 0 || slot !in slots || slots[slot].left == 0 then slots
    else
      var left := Max(slots[slot].left - amount, 0);
      if left == 0 && slots[slot].policy in {UnequipBroken, DestroyAtZero} then slots - {slot}
      else slots[slot := slots[slot].(left := left)]
  }

  datatype Outcome = Outcome(mass: int, slots: map<Slot, Worn>, actions: seq<Action>)

  function Execute(o: Outcome, e: Effect, floor: int): Outcome
  {
    var slots := Consumed(o.slots, e.slot, e.cost);
    if Terminal(e) then
      var mass := Mutated(o.mass, e.delta, floor);
      Outcome(mass, slots, if mass != o.mass then o.actions + [MassAdded(mass - o.mass)] else o.actions)
    else
      match e.action
      case Timeout(seconds) => Outcome(o.mass, slots, o.actions + [TimedOut(seconds)])
      case AddMass(delta) =>
        var mass := Mutated(o.mass, delta, floor);
        Outcome(mass, slots, o.actions + [MassAdded(mass - o.mass)])
      case NoAction => o.(slots := slots)
  }

  function ExecuteAll(o: Outcome, executed: seq<Effect>, floor: int): Outcome
  {
    if executed == [] then o
    else Execute(ExecuteAll(o, executed[..|executed| - 1], floor), executed[|executed| - 1], floor)
  }

  function Reported(actions: seq<Action>): int
  {
    if actions == [] then 0 else
    var last := actions[|actions| - 1];
    Reported(actions[..|actions| - 1]) + if last.MassAdded? then last.amount else 0
  }

  /** The reported mass actions add up to what the attacker really gained or
    * lost, and the attacker is never pushed below the floor.
    */
  lemma {:induction false} ActionsAddUp(o: Outcome, executed: seq<Effect>, floor: int)
    ensures var end := ExecuteAll(o, executed, floor);
            && end.mass - o.mass == Reported(end.actions) - Reported(o.actions)
            && (end.mass == o.mass || end.mass >= Max(floor, 0))
  {
    if executed != [] {
      var init, last := executed[..|executed| - 1], executed[|executed| - 1];
      ActionsAddUp(o, init, floor);
      ExecuteReports(ExecuteAll(o, init, floor), last, floor);
    }
  }

  lemma ExecuteReports(o: Outcome, e: Effect, floor: int)
    ensures var end := Execute(o, e, floor);
            && end.mass - o.mass == Reported(end.actions) - Reported(o.actions)
            && (end.mass == o.mass || end.mass >= Max(floor, 0))
  {
    var end := Execute(o, e, floor);
    if |end.actions| > |o.actions| {
      ReportedMore(o.actions, end.actions[|o.actions|]);
    }
  }

  lemma ReportedMore(actions: seq<Action>, a: Action)
    ensures Reported(actions + [a]) == Reported(actions) + if a.MassAdded? then a.amount else 0
  {
    assert (actions + [a])[..|actions|] == actions;
  }

  /** Durability only falls, and only where an executed effect pays. */
  lemma {:induction false} OnlyExecutedPay(o: Outcome, executed: seq<Effect>, floor: int, slot: Slot)
    ensures var end := ExecuteAll(o, executed, floor);
            && (slot in end.slots ==> slot in o.slots && end.slots[slot].left <= o.slots[slot].left)
            && ((forall e :: e in executed ==> e.slot != slot || e.cost <= 0) ==>
                 (slot in end.slots <==> slot in o.slots) && (slot in o.slots ==> end.slots[slot] == o.slots[slot]))
  {
    if executed != [] {
      assert executed[|executed| - 1] in executed;
      OnlyExecutedPay(o, executed[..|executed| - 1], floor, slot);
    }
  }

  // ---- the amount and the transfer -----------------------------------------

  datatype Terms = Terms(baseChance: real, chanceAdd: real, evasion: real, minChance: real, maxChance: real,
                         percent: real, value: real, bonus: real, protection: real)

  function Chance(t: Terms): real { Lesser(Greater(t.baseChance + t.chanceAdd - t.evasion, t.minChance), t.maxChance) }

  function HalfUp(x: real): int
    requires x >= 0.0
  {
    (x + 0.5).Floor
  }

  /** What the attacker is after, before it is bounded. */
  function Wanted(stealable: real, t: Terms): real
  {
    Times(Times(Times(stealable, Greater(t.percent, 0.0)) + Greater(t.value, 0.0), 1.0 + t.bonus), 1.0 - t.protection)
  }

  function Stealable(victim: int, floor: nat): nat { Max(Max(victim, 0) - floor, 0) }

  function Stolen(victim: int, floor: nat, t: Terms): int
  {
    var stealable := Stealable(victim, floor) as real;
    HalfUp(Lesser(Greater(Wanted(stealable, t), 0.0), stealable))
  }

  lemma StolenIsStealable(victim: int, floor: nat, t: Terms)
    ensures 0 <= Stolen(victim, floor, t) <= Stealable(victim, floor)
  {
    var stealable := Stealable(victim, floor);
    RoundsWithin(Lesser(Greater(Wanted(stealable as real, t), 0.0), stealable as real), stealable);
  }

  lemma RoundsWithin(x: real, most: int)
    requires 0.0 <= x <= most as real
    ensures 0 <= HalfUp(x) <= most
  {
  }

  /** Defences never help the attacker: a higher floor, protection or evasion
    * raises neither the chance nor the amount, and full protection leaves nothing.
    */
  lemma DefencesNeverHelpTheAttacker(victim: int, floor: nat, higher: nat, t: Terms, evasion: real, protection: real)
    requires floor <= higher && t.evasion <= evasion && t.protection <= protection <= 1.0 && t.bonus >= -1.0
    ensures var defended := t.(evasion := evasion, protection := protection);
            && Chance(defended) <= Chance(t)
            && Stolen(victim, higher, defended) <= Stolen(victim, floor, t)
            && (protection == 1.0 ==> Stolen(victim, higher, defended) == 0)
  {
    var less, more := Stealable(victim, higher) as real, Stealable(victim, floor) as real;
    WantedIsMonotone(less, more, t, protection);
    RoundsUpMonotonely(Lesser(Greater(Wanted(less, t.(protection := protection)), 0.0), less),
                       Lesser(Greater(Wanted(more, t), 0.0), more));
    SameWanted(less, t.(evasion := evasion, protection := protection), t.(protection := protection));
  }

  lemma SameWanted(stealable: real, a: Terms, b: Terms)
    requires a.percent == b.percent && a.value == b.value && a.bonus == b.bonus && a.protection == b.protection
    ensures Wanted(stealable, a) == Wanted(stealable, b)
  {
  }

  lemma WantedIsMonotone(less: real, more: real, t: Terms, protection: real)
    requires 0.0 <= less <= more && t.protection <= protection <= 1.0 && t.bonus >= -1.0
    ensures Wanted(less, t.(protection := protection)) <= Wanted(more, t)
    ensures protection == 1.0 ==> Wanted(less, t.(protection := protection)) == 0.0
  {
    var percent, value, factor := Greater(t.percent, 0.0), Greater(t.value, 0.0), 1.0 + t.bonus;
    Grows(0.0, less, percent);
    Grows(less, more, percent);
    ProductsGrow(Times(less, percent) + value, Times(more, percent) + value, factor,
                 1.0 - protection, 1.0 - t.protection);
  }

  lemma ProductsGrow(x: real, y: real, factor: real, a: real, b: real)
    requires 0.0 <= x <= y && factor >= 0.0 && 0.0 <= a <= b
    ensures Times(Times(x, factor), a) <= Times(Times(y, factor), b)
    ensures a == 0.0 ==> Times(Times(x, factor), a) == 0.0
  {
    Grows(x, y, factor);
    Grows(0.0, y, factor);
    Grows(Times(x, factor), Times(y, factor), a);
    Grows(a, b, Times(y, factor));
  }

  lemma Grows(x: real, y: real, factor: real)
    requires x <= y && factor >= 0.0
    ensures Times(x, factor) <= Times(y, factor) && Times(factor, x) <= Times(factor, y)
    ensures (x == 0.0 ==> Times(x, factor) == 0.0) && (factor == 0.0 ==> Times(x, factor) == 0.0)
  {
    assert (y - x) * factor >= 0.0;
    assert y * factor == x * factor + (y - x) * factor;
  }

  lemma RoundsUpMonotonely(x: real, y: real)
    requires 0.0 <= x <= y
    ensures HalfUp(x) <= HalfUp(y) && (x == 0.0 ==> HalfUp(x) == 0)
  {
  }

  /** The attacker's gain is the victim's loss exactly when the victim holds its
    * protected mass, or the attacker can pay for raising it to that.
    */
  lemma TransferConservesIff(victim: int, attacker: int, requested: int, floor: int)
    requires attacker >= 0 && requested >= 0 && floor >= 0
    ensures var victim' := Mutated(victim, -requested, floor);
            var attacker' := Mutated(attacker, victim - victim', 0);
            && victim' >= floor
            && (attacker' - attacker == victim - victim' <==> victim >= floor || attacker >= floor - victim)
            && (victim >= floor && victim - requested >= floor ==>
                 victim' == victim - requested && attacker' == attacker + requested)
  {
  }

  /** A victim of 1 kg that protects 10 kg is raised to them by a "successful"
    * robbery; an attacker of 2 kg pays 2 kg, and 7 kg come from nowhere.
    */
  lemma MassFromNowhere()
    ensures Stolen(100, 1000, Terms(1.0, 0.0, 0.0, 0.0, 1.0, 0.5, 0.0, 0.0, 0.0)) == 0
    ensures Mutated(100, 0, 1000) == 1000 && Mutated(200, 100 - 1000, 0) == 0
  {
    StolenIsStealable(100, 1000, Terms(1.0, 0.0, 0.0, 0.0, 1.0, 0.5, 0.0, 0.0, 0.0));
  }

  // ---- the same from the inputs alone --------------------------------------

  /** The amount is what is wanted, but not below zero and not above what is held
    * over the floor, rounded to 0.01 kg with halves up.
    */
  lemma StolenIs(victim: int, floor: nat, t: Terms, held: int, percent: real, value: real,
                 base: real, boosted: real, wanted: real)
    requires held == if victim > floor then victim - floor else 0
    requires percent == if t.percent > 0.0 then t.percent else 0.0
    requires value == if t.value > 0.0 then t.value else 0.0
    requires base == held as real * percent + value
    requires boosted == base * (1.0 + t.bonus) && wanted == boosted * (1.0 - t.protection)
    ensures var exact := if wanted < 0.0 then 0.0 else if wanted > held as real then held as real else wanted;
            Stolen(victim, floor, t) as real - 0.5 <= exact < Stolen(victim, floor, t) as real + 0.5
  {
    assert Times(held as real, percent) == held as real * percent;
    assert Times(base, 1.0 + t.bonus) == boosted && Times(boosted, 1.0 - t.protection) == wanted;
    StolenFrom(victim, floor, t, held, percent, value, wanted);
  }

  lemma StolenFrom(victim: int, floor: nat, t: Terms, held: int, percent: real, value: real, wanted: real)
    requires held == Stealable(victim, floor) && percent == Greater(t.percent, 0.0) && value == Greater(t.value, 0.0)
    requires wanted == Times(Times(Times(held as real, percent) + value, 1.0 + t.bonus), 1.0 - t.protection)
    ensures var exact := if wanted < 0.0 then 0.0 else if wanted > held as real then held as real else wanted;
            Stolen(victim, floor, t) as real - 0.5 <= exact < Stolen(victim, floor, t) as real + 0.5
  {
    assert wanted == Wanted(held as real, t);
  }

  /** The attack roll hits below the chance, which has a floor and a ceiling. */
  lemma HitsIff(roll: real, t: Terms)
    ensures roll < Chance(t) <==>
            roll < t.maxChance && (roll < t.minChance || roll < t.baseChance + t.chanceAdd - t.evasion)
  {
  }

  /** Which effects a phase rolls for: on the attempt the absorbing ones, the
    * blocks of robberies and the counters, on success the counters only.
    */
  lemma {:induction false} EligibleIff(effects: seq<Effect>, e: Effect)
    ensures e in Eligible(effects, OnAttempt) <==>
            e in effects && e.trigger == OnAttempt &&
            (e.kind == Absorb || e.kind == Counter || (e.kind == Block && e.targetsRobbery))
    ensures e in Eligible(effects, OnSuccess) <==> e in effects && e.trigger == OnSuccess && e.kind == Counter
  {
    if effects != [] {
      EligibleIff(effects[..|effects| - 1], e);
      assert effects == effects[..|effects| - 1] + [effects[|effects| - 1]];
    }
  }

  /** In stored order. */
  lemma {:induction false} EligibleInOrder(a: seq<Effect>, b: seq<Effect>, phase: Trigger)
    ensures Eligible(a + b, phase) == Eligible(a, phase) + Eligible(b, phase)
  {
    if b == [] {
      assert a + b == a;
    } else {
      var init := b[..|b| - 1];
      assert (a + b)[..|a + b| - 1] == a + init && (a + b)[|a + b| - 1] == b[|b| - 1];
      EligibleInOrder(a, init, phase);
    }
  }

  /** A robbery is absorbed exactly when the roll of some terminal defence is
    * below its chance, and the rolls end with the first one of these.
    */
  lemma AbsorbedIff(eligible: seq<Effect>, rolls: nat -> real, from: nat, n: nat, absorbed: bool)
    requires Stops(eligible, rolls, from, n, absorbed)
    ensures absorbed <==> exists i :: && 0 <= i < |eligible| && rolls(from + i) < eligible[i].chance
                                      && (eligible[i].kind == Absorb || eligible[i].kind == Block)
    ensures forall i :: 0 <= i < n - 1 && (eligible[i].kind == Absorb || eligible[i].kind == Block) ==>
              rolls(from + i) >= eligible[i].chance
  {
    forall i | 0 <= i < |eligible|
      ensures Stopper(StageAt(eligible, rolls, from, i)) <==>
              rolls(from + i) < eligible[i].chance && (eligible[i].kind == Absorb || eligible[i].kind == Block)
    {
    }
    if absorbed {
      assert Stopper(StageAt(eligible, rolls, from, n - 1));
    } else {
      assert n > 0 ==> !Stopper(StageAt(eligible, rolls, from, n - 1));
    }
  }

  /** What is executed: the effects rolled for whose roll is below their chance. */
  lemma {:induction false} ExecutedIff(eligible: seq<Effect>, rolls: nat -> real, from: nat, n: nat, e: Effect)
    requires n <= |eligible|
    ensures e in Passing(eligible, rolls, from, n) <==>
            exists i :: 0 <= i < n && eligible[i] == e && rolls(from + i) < e.chance
  {
    if n > 0 {
      ExecutedIff(eligible, rolls, from, n - 1, e);
    }
  }

  /** A mass after a delta: never below zero or the floor, and otherwise exact. */
  lemma MutatedIs(mass: int, delta: int, floor: int)
    ensures var after := Mutated(mass, delta, floor);
            && after >= mass + delta && after >= 0 && after >= floor
            && (after == mass + delta || after == 0 || after == floor)
  {
  }

  /** What one executed effect does to the attacker, and what is reported. */
  lemma ExecuteIs(o: Outcome, e: Effect, floor: int)
    ensures var end := Execute(o, e, floor);
            && end.slots == (if e.cost > 0 then Consumed(o.slots, e.slot, e.cost) else o.slots)
            && if e.kind == Absorb || e.kind == Block then
                 && end.mass == Mutated(o.mass, e.delta, floor)
                 && end.actions == o.actions + if end.mass == o.mass then [] else [MassAdded(end.mass - o.mass)]
               else match e.action
                    case Timeout(seconds) => end.mass == o.mass && end.actions == o.actions + [TimedOut(seconds)]
                    case AddMass(delta) =>
                      && end.mass == Mutated(o.mass, delta, floor)
                      && end.actions == o.actions + [MassAdded(end.mass - o.mass)]
                    case NoAction => end.mass == o.mass && end.actions == o.actions
  {
  }

  /** Paying twice is paying the sum once. */
  lemma ConsumedTwice(slots: map<Slot, Worn>, slot: Slot, a: nat, b: nat)
    ensures Consumed(Consumed(slots, slot, a), slot, b) == Consumed(slots, slot, a + b)
  {
  }

  /** One unit at a time: the last one breaks the item by its policy. */
  lemma ConsumedOne(slots: map<Slot, Worn>, slot: Slot)
    requires slot in slots
    ensures var worn, after := slots[slot], Consumed(slots, slot, 1);
            && (worn.left == 0 ==> after == slots)
            && (worn.left > 1 || (worn.left == 1 && (worn.policy == Indestructible || worn.policy == RetainBroken)) ==>
                  after == slots[slot := Worn(worn.left - 1, worn.policy)])
            && (worn.left == 1 && (worn.policy == UnequipBroken || worn.policy == DestroyAtZero) ==>
                  slot !in after && forall other :: other != slot ==>
                    (other in after <==> other in slots) && (other in after ==> after[other] == slots[other]))
  {
  }

  // ---- the rows ------------------------------------------------------------

  class Player {
    var mass: int
    var total: int

    constructor (mass: int, total: int)
      ensures this.mass == mass && this.total == total
    {
      this.mass, this.total := mass, total;
    }
  }

  class Equipment {
    var slots: map<Slot, Worn>

    constructor (slots: map<Slot, Worn>)
      ensures this.slots == slots
    {
      this.slots := slots;
    }

    method ConsumeDurability(slot: Slot, amount: int)
      modifies this
      ensures slots == Consumed(old(slots), slot, amount)
    {
      if amount <= 0 || slot !in slots {
        return;
      }
      var worn := slots[slot];
      if worn.left == 0 {
        return;
      }
      var left := Max(worn.left - amount, 0);
      slots := slots[slot := worn.(left := left)];
      if left == 0 && (worn.policy == UnequipBroken || worn.policy == DestroyAtZero) {
        slots := slots - {slot};
      }
    }
  }

  method ApplyMassMutation(holder: Player, delta: int, floor: int, trackTotal: bool) returns (applied: int)
    modifies holder
    ensures holder.mass == Mutated(old(holder.mass), delta, floor) && applied == holder.mass - old(holder.mass)
    ensures holder.total == old(holder.total) + if trackTotal then Max(applied, 0) else 0
  {
    var previous := holder.mass;
    holder.mass := Max(previous + delta, Max(floor, 0));
    applied := holder.mass - previous;
    if trackTotal && applied > 0 {
      holder.total := holder.total + applied;
    }
  }

  // ---- the defence loop ----------------------------------------------------

  /** One effect whose roll passed. */
  method ExecuteEffect(attacker: Player, equipment: Equipment, e: Effect, floor: int, actions: seq<Action>)
    returns (after: seq<Action>)
    modifies attacker`mass, equipment
    ensures Outcome(attacker.mass, equipment.slots, after) ==
            Execute(Outcome(old(attacker.mass), old(equipment.slots), actions), e, floor)
  {
    if e.cost != 0 {
      equipment.ConsumeDurability(e.slot, e.cost);
    }
    after := actions;
    if Terminal(e) {
      var applied := Mutated(attacker.mass, e.delta, floor) - attacker.mass;
      attacker.mass := attacker.mass + applied;
      if applied != 0 {
        after := actions + [MassAdded(applied)];
      }
    } else {
      match e.action {
        case Timeout(seconds) =>
          after := actions + [TimedOut(seconds)];
        case AddMass(delta) =>
          var applied := Mutated(attacker.mass, delta, floor) - attacker.mass;
          attacker.mass := attacker.mass + applied;
          after := actions + [MassAdded(applied)];
        case NoAction =>
      }
    }
  }

  lemma {:induction false} EligiblePrefix(effects: seq<Effect>, phase: Trigger, n: nat)
    requires n <= |effects|
    ensures Eligible(effects[..n], phase) <= Eligible(effects, phase)
    decreases |effects|
  {
    if n < |effects| {
      EligiblePrefix(effects[..|effects| - 1], phase, n);
      assert effects[..|effects| - 1][..n] == effects[..n];
    } else {
      assert effects[..n] == effects;
    }
  }

  /** How many of the first n effects are eligible. */
  function Seen(effects: seq<Effect>, phase: Trigger, n: nat): nat
    requires n <= |effects|
  {
    if n == 0 then 0 else Seen(effects, phase, n - 1) + if RunsIn(effects[n - 1], phase) then 1 else 0
  }

  lemma {:induction false} SeenIsLength(effects: seq<Effect>, phase: Trigger, n: nat)
    requires n <= |effects|
    ensures Seen(effects, phase, n) == |Eligible(effects[..n], phase)|
  {
    if n > 0 {
      SeenIsLength(effects, phase, n - 1);
      assert effects[..n][..n - 1] == effects[..n - 1];
    }
  }

  lemma EligibleAt(effects: seq<Effect>, phase: Trigger, n: nat)
    requires n < |effects| && RunsIn(effects[n], phase)
    ensures var eligible := Eligible(effects, phase);
            Seen(effects, phase, n) < |eligible| && eligible[Seen(effects, phase, n)] == effects[n]
  {
    SeenIsLength(effects, phase, n);
    assert effects[..n + 1][..n] == effects[..n];
    EligiblePrefix(effects, phase, n + 1);
  }

  /** One rolled stage: executed if it passes. */
  function RunStage(o: Outcome, s: Stage, floor: int): Outcome
  {
    if Passes(s) then Execute(o, s.effect, floor) else o
  }

  lemma OneMoreStage(o: Outcome, eligible: seq<Effect>, rolls: nat -> real, from: nat, n: nat, floor: int)
    requires n < |eligible|
    ensures ExecuteAll(o, Passing(eligible, rolls, from, n + 1), floor) ==
            RunStage(ExecuteAll(o, Passing(eligible, rolls, from, n), floor), StageAt(eligible, rolls, from, n), floor)
  {
    var before, e := Passing(eligible, rolls, from, n), eligible[n];
    assert (before + [e])[..|before|] == before;
  }

  predicate NoneStops(stages: seq<Stage>) { forall i :: 0 <= i < |stages| ==> !Stopper(stages[i]) }

  ghost predicate Rolled(stages: seq<Stage>, eligible: seq<Effect>, rolls: nat -> real, from: nat)
  {
    |stages| <= |eligible| && forall i :: 0 <= i < |stages| ==> stages[i] == StageAt(eligible, rolls, from, i)
  }

  lemma OneMoreRolled(seen: seq<Stage>, s: Stage, eligible: seq<Effect>, rolls: nat -> real, from: nat)
    requires Rolled(seen, eligible, rolls, from) && NoneStops(seen)
    requires |seen| < |eligible| && s == StageAt(eligible, rolls, from, |seen|)
    ensures Rolled(seen + [s], eligible, rolls, from)
    ensures if Stopper(s) then Stops(eligible, rolls, from, |seen| + 1, true) else NoneStops(seen + [s])
  {
    forall i | 0 <= i < |seen| ensures !Stopper(StageAt(eligible, rolls, from, i)) {
      assert seen[i] == StageAt(eligible, rolls, from, i);
    }
  }

  lemma StopsNowhere(stages: seq<Stage>, eligible: seq<Effect>, rolls: nat -> real, from: nat)
    requires Rolled(stages, eligible, rolls, from) && |stages| == |eligible| && NoneStops(stages)
    ensures Stops(eligible, rolls, from, |stages|, false)
  {
    forall i | 0 <= i < |stages| ensures !Stopper(StageAt(eligible, rolls, from, i)) {
      assert stages[i] == StageAt(eligible, rolls, from, i);
    }
  }

  /** The body of the loop, once the roll is recorded. */
  method ExecuteStage(attacker: Player, equipment: Equipment, s: Stage, floor: int, actions: seq<Action>)
    returns (after: seq<Action>, stopped: bool)
    modifies attacker`mass, equipment
    ensures Outcome(attacker.mass, equipment.slots, after) ==
            RunStage(Outcome(old(attacker.mass), old(equipment.slots), actions), s, floor)
    ensures stopped == Stopper(s)
  {
    if s.roll >= s.effect.chance {
      return actions, false;
    }
    after := ExecuteEffect(attacker, equipment, s.effect, floor, actions);
    stopped := Terminal(s.effect);
  }

  function Start(mass: int, slots: map<Slot, Worn>): Outcome { Outcome(mass, slots, []) }

  /** What one run of the loop has to do: roll up to the first terminal defence
    * that passes, record every roll, execute what passes.
    */
  ghost predicate Defended(eligible: seq<Effect>, rolls: nat -> real, from: nat, floor: int,
                           before: Outcome, after: Outcome, stages: seq<Stage>, absorbed: bool)
  {
    && Stops(eligible, rolls, from, |stages|, absorbed) && Rolled(stages, eligible, rolls, from)
    && after == ExecuteAll(before, Passing(eligible, rolls, from, |stages|), floor)
  }

  /** The loop before effect n. */
  ghost predicate Defending(effects: seq<Effect>, phase: Trigger, n: nat, rolls: nat -> real, from: nat, floor: int,
                            before: Outcome, now: Outcome, stages: seq<Stage>)
    requires n <= |effects|
  {
    var eligible := Eligible(effects, phase);
    && |stages| == Seen(effects, phase, n) && Rolled(stages, eligible, rolls, from) && NoneStops(stages)
    && now == ExecuteAll(before, Passing(eligible, rolls, from, |stages|), floor)
  }

  lemma DefendingSkips(effects: seq<Effect>, phase: Trigger, n: nat, rolls: nat -> real, from: nat, floor: int,
                       before: Outcome, now: Outcome, stages: seq<Stage>)
    requires n < |effects| && Defending(effects, phase, n, rolls, from, floor, before, now, stages)
    requires !RunsIn(effects[n], phase)
    ensures Defending(effects, phase, n + 1, rolls, from, floor, before, now, stages)
  {
  }

  lemma DefendingRuns(effects: seq<Effect>, phase: Trigger, n: nat, rolls: nat -> real, from: nat, floor: int,
                      before: Outcome, now: Outcome, stages: seq<Stage>)
    requires n < |effects| && Defending(effects, phase, n, rolls, from, floor, before, now, stages)
    requires RunsIn(effects[n], phase)
    ensures var s := Stage(effects[n], rolls(from + |stages|));
            var after := RunStage(now, s, floor);
            if Stopper(s) then Defended(Eligible(effects, phase), rolls, from, floor, before, after, stages + [s], true)
            else Defending(effects, phase, n + 1, rolls, from, floor, before, after, stages + [s])
  {
    var eligible, s := Eligible(effects, phase), Stage(effects[n], rolls(from + |stages|));
    EligibleAt(effects, phase, n);
    StageRuns(eligible, rolls, from, floor, before, now, stages, s);
  }

  lemma StageRuns(eligible: seq<Effect>, rolls: nat -> real, from: nat, floor: int,
                  before: Outcome, now: Outcome, stages: seq<Stage>, s: Stage)
    requires Rolled(stages, eligible, rolls, from) && NoneStops(stages)
    requires now == ExecuteAll(before, Passing(eligible, rolls, from, |stages|), floor)
    requires |stages| < |eligible| && s == StageAt(eligible, rolls, from, |stages|)
    ensures var longer, after := stages + [s], RunStage(now, s, floor);
            && Rolled(longer, eligible, rolls, from)
            && after == ExecuteAll(before, Passing(eligible, rolls, from, |longer|), floor)
            && if Stopper(s) then Defended(eligible, rolls, from, floor, before, after, longer, true)
               else NoneStops(longer)
  {
    OneMoreStage(before, eligible, rolls, from, |stages|, floor);
    OneMoreRolled(stages, s, eligible, rolls, from);
  }

  lemma DefendingEnds(effects: seq<Effect>, phase: Trigger, rolls: nat -> real, from: nat, floor: int,
                      before: Outcome, now: Outcome, stages: seq<Stage>)
    requires Defending(effects, phase, |effects|, rolls, from, floor, before, now, stages)
    ensures Defended(Eligible(effects, phase), rolls, from, floor, before, now, stages, false)
  {
    assert effects[..|effects|] == effects;
    SeenIsLength(effects, phase, |effects|);
    StopsNowhere(stages, Eligible(effects, phase), rolls, from);
  }

  /** `_apply_robbery_defenses`; `stages` is what it appends to the random trace. */
  method ApplyRobberyDefenses(attacker: Player, equipment: Equipment, effects: seq<Effect>, floor: int, phase: Trigger,
                              rolls: nat -> real, from: nat)
    returns (actions: seq<Action>, absorbed: bool, stages: seq<Stage>)
    modifies attacker`mass, equipment
    ensures Defended(Eligible(effects, phase), rolls, from, floor, Start(old(attacker.mass), old(equipment.slots)),
                     Outcome(attacker.mass, equipment.slots, actions), stages, absorbed)
    ensures old(attacker.mass) >= 0 ==> attacker.mass >= 0
    ensures phase != OnAttempt ==> !absorbed
  {
    actions, absorbed, stages := [], false, [];
    ghost var before := Start(attacker.mass, equipment.slots);
    for n := 0 to |effects|
      invariant Defending(effects, phase, n, rolls, from, floor, before,
                          Outcome(attacker.mass, equipment.slots, actions), stages)
    {
      ghost var now := Outcome(attacker.mass, equipment.slots, actions);
      if RunsIn(effects[n], phase) {
        DefendingRuns(effects, phase, n, rolls, from, floor, before, now, stages);
        var stage := Stage(effects[n], rolls(from + |stages|));
        actions, absorbed := ExecuteStage(attacker, equipment, stage, floor, actions);
        stages := stages + [stage];
        if absorbed {
          ActionsAddUp(before, Passing(Eligible(effects, phase), rolls, from, |stages|), floor);
          return;
        }
      } else {
        DefendingSkips(effects, phase, n, rolls, from, floor, before, now, stages);
      }
    }
    absorbed := false;
    ActionsAddUp(before, Passing(Eligible(effects, phase), rolls, from, |stages|), floor);
    DefendingEnds(effects, phase, rolls, from, floor, before, Outcome(attacker.mass, equipment.slots, actions), stages);
  }

  // ---- the robbery ---------------------------------------------------------

  datatype Result =
    | Absorbed(actions: seq<Action>)
    | Missed(actions: seq<Action>)
    | Robbed(actions: seq<Action>, amount: int)

  /** The attack roll, and the first roll after it. A controlled roll is not
    * taken from the stream.
    */
  function AttackRoll(controlled: Option<real>, rolls: nat -> real, next: nat): (real, nat)
  {
    if controlled.Some? then (Greater(controlled.value, 0.0), next) else (Greater(rolls(next), 0.0), next + 1)
  }

  /** The roll is the controlled one, or the next of the stream, but never
    * negative; only the latter uses one up.
    */
  lemma AttackRollIs(controlled: Option<real>, rolls: nat -> real, next: nat)
    ensures var (roll, after) := AttackRoll(controlled, rolls, next);
            var taken := if controlled.Some? then controlled.value else rolls(next);
            && roll == (if taken < 0.0 then 0.0 else taken) && after == if controlled.Some? then next else next + 1
  {
  }

  /** `_handle_robbery` once a victim is locked. `user` is the caller's object
    * for the attacker, which may or may not be the locked row itself.
    */
  method HandleRobbery(user: Player, attacker: Player, victim: Player, equipment: Equipment, effects: seq<Effect>,
                       attackerFloor: int, victimFloor: nat, terms: Terms, controlled: Option<real>, rolls: nat -> real)
    returns (result: Result, first: seq<Stage>, second: seq<Stage>)
    requires attacker != victim && user != victim
    modifies user, attacker, victim, equipment
    ensures user.mass == attacker.mass && user.total == attacker.total
    // the first phase
    ensures Stops(Eligible(effects, OnAttempt), rolls, 0, |first|, result.Absorbed?)
    ensures var defended := ExecuteAll(Start(old(attacker.mass), old(equipment.slots)),
                                       Passing(Eligible(effects, OnAttempt), rolls, 0, |first|), attackerFloor);
            var (roll, next) := AttackRoll(controlled, rolls, |first|);
            && (result.Robbed? <==> !result.Absorbed? && roll < Chance(terms))
            && (!result.Robbed? ==>
                  && Outcome(attacker.mass, equipment.slots, result.actions) == defended && second == []
                  && victim.mass == old(victim.mass) && attacker.total == old(attacker.total))
            // the second phase and the transfer
            && (result.Robbed? ==>
                  && Stops(Eligible(effects, OnSuccess), rolls, next, |second|, false)
                  && var countered := ExecuteAll(Start(defended.mass, defended.slots),
                                                 Passing(Eligible(effects, OnSuccess), rolls, next, |second|),
                                                 attackerFloor);
                     && result.actions == defended.actions + countered.actions && equipment.slots == countered.slots
                     && victim.mass ==
                        Mutated(old(victim.mass), -Stolen(old(victim.mass), victimFloor, terms), victimFloor)
                     && victim.mass >= victimFloor && result.amount == old(victim.mass) - victim.mass
                     && attacker.mass == Mutated(countered.mass, result.amount, 0)
                     && attacker.total == old(attacker.total) + Max(attacker.mass - countered.mass, 0)
                     // the gain is the loss
                     && (old(attacker.mass) >= 0 ==> countered.mass >= 0)
                     && (countered.mass >= 0 ==>
                           (attacker.mass - countered.mass == result.amount <==>
                              old(victim.mass) >= victimFloor || countered.mass >= victimFloor - old(victim.mass))))
    ensures victim.total == old(victim.total)
  {
    second := [];
    var actions, absorbed;
    actions, absorbed, first := ApplyRobberyDefenses(attacker, equipment, effects, attackerFloor, OnAttempt, rolls, 0);
    if absorbed {
      user.mass, user.total := attacker.mass, attacker.total;
      return Absorbed(actions), first, second;
    }
    var (roll, next) := AttackRoll(controlled, rolls, |first|);
    var amount := Stolen(victim.mass, victimFloor, terms);
    result := Missed(actions);
    if roll < Chance(terms) {
      var more, never;
      more, never, second := ApplyRobberyDefenses(attacker, equipment, effects, attackerFloor, OnSuccess, rolls, next);
      StolenIsStealable(victim.mass, victimFloor, terms);
      var delta := ApplyMassMutation(victim, -Max(amount, 0), victimFloor, false);
      var gain := ApplyMassMutation(attacker, -delta, 0, true);
      result := Robbed(actions + more, -delta);
    }
    user.mass, user.total := attacker.mass, attacker.total;
  }
}
