/** All players and all operations of a channel: how conversions are created,
  * and what every reachable state satisfies however requests, the worker, the
  * administrators and the rest of the game interleave.
  */
module Ledger {
  import opened Mass
  import opened Pricing
  import opened Saga
  import opened ProviderClient
  import opened Sums

  /** `mass` and `balance` are the player rows and the provider's accounts;
    * `other` and `external` account for everything that reached them by
    * another way than a conversion.
    */
  datatype Ledger = Ledger(
    mass: map<PlayerId, nat>, other: map<PlayerId, int>,
    balance: map<PlayerId, int>, external: map<PlayerId, int>,
    sagas: seq<Saga>)

  datatype Event =
    | SellFish(key: Key, player: PlayerId, want: Argument, settings: Settings, read: int)
    | BuyFish(key: Key, player: PlayerId, want: Argument, settings: Settings, read: int)
    | QueueReward(key: Key, player: PlayerId, points: nat)
    | At(index: nat, local: Local)
    | OtherMass(player: PlayerId, delta: int)
    | OtherPoints(player: PlayerId, delta: int)

  /** `apply_mass_mutation` with the default floor of zero. */
  function Shifted(mass: nat, delta: int): nat
  {
    Mutated(mass, delta, 0)
  }

  // ---- creation ------------------------------------------------------------

  function NewSaga(key: Key, kind: Kind, player: PlayerId, mass: nat, points: nat, rate: nat,
                   state: OpState, event: EventState, calls: seq<Call>, moved: int): Saga
  {
    Saga(Operation(key, kind, player, mass, points, rate, state, false, false),
         OutboxEvent(event, event == EventProcessing, 0), calls, Effects(0, 0, moved))
  }

  /** Over the provider's cap a conversion is recorded, but never tried. */
  function NewSale(key: Key, player: PlayerId, mass: nat, points: nat, rate: nat, tried: bool): Saga
  {
    if tried
    then NewSaga(key, Sell, player, mass, points, rate, Processing, EventProcessing, [Running(Requester)], 0 - mass)
    else NewSaga(key, Sell, player, mass, points, rate, Failed, EventDeadLetter, [], 0)
  }

  function NewPurchase(key: Key, player: PlayerId, mass: nat, points: nat, rate: nat, tried: bool): Saga
  {
    if tried
    then NewSaga(key, Buy, player, mass, points, rate, ExternalPending, EventProcessing, [Running(Requester)], 0)
    else NewSaga(key, Buy, player, mass, 0, rate, Failed, EventDeadLetter, [], 0)
  }

  /** `_ensure_no_active_operation`, which looks at operations of any type. */
  predicate Busy(l: Ledger, player: PlayerId)
  {
    exists i :: 0 <= i < |l.sagas| && l.sagas[i].op.player == player && Active(l.sagas[i].op.state)
  }

  predicate FreshKey(l: Ledger, key: Key)
  {
    forall i :: 0 <= i < |l.sagas| ==> l.sagas[i].op.key != key
  }

  /** The second half of `sell_fish` and `buy_fish`: the player row is locked,
    * the check is repeated, and check, pricing, debit and insert commit
    * together. What the first half saw, the balance read in between and the
    * Redis lease play no part: the read balance is any number, and any number
    * of requests may be waiting here at once.
    */
  predicate MayConvert(l: Ledger, key: Key, player: PlayerId, read: int)
  {
    player in l.mass && ValidBalance(read) && FreshKey(l, key) && !Busy(l, player)
  }

  function Sold(l: Ledger, key: Key, player: PlayerId, want: Argument, s: Settings, read: int): Ledger
    requires MayConvert(l, key, player, read)
  {
    match SellQuote(want, l.mass[player], s, read)
    case Refused(_) => l
    case OverCap(mass, points) => l.(sagas := l.sagas + [NewSale(key, player, mass, points, s.sellRate, false)])
    case Priced(mass, points) =>
      l.(mass := l.mass[player := l.mass[player] - mass],
         sagas := l.sagas + [NewSale(key, player, mass, points, s.sellRate, true)])
  }

  function Bought(l: Ledger, key: Key, player: PlayerId, want: Argument, s: Settings, read: int): Ledger
    requires MayConvert(l, key, player, read)
  {
    match BuyQuote(want, s, read)
    case Refused(_) => l
    case OverCap(mass, points) => l.(sagas := l.sagas + [NewPurchase(key, player, mass, points, s.buyRate, false)])
    case Priced(mass, points) => l.(sagas := l.sagas + [NewPurchase(key, player, mass, points, s.buyRate, true)])
  }

  // ---- transitions ---------------------------------------------------------

  predicate Possible(l: Ledger, ev: Event)
  {
    match ev
    case SellFish(key, player, _, _, read) => MayConvert(l, key, player, read)
    case BuyFish(key, player, _, _, read) => MayConvert(l, key, player, read)
    case QueueReward(key, player, _) => player in l.mass && FreshKey(l, key)
    case At(i, local) =>
      i < |l.sagas| && Enabled(l.sagas[i], local) && l.sagas[i].op.player in l.mass && l.sagas[i].op.player in l.balance
    case OtherMass(player, _) => player in l.mass && player in l.other
    case OtherPoints(player, _) => player in l.balance && player in l.external
  }

  /** Put a changed saga back, with what it moved. */
  function Put(l: Ledger, i: nat, sg: Saga): Ledger
    requires i < |l.sagas| && l.sagas[i].op.player in l.mass && l.sagas[i].op.player in l.balance
  {
    var was := l.sagas[i];
    var player := was.op.player;
    l.(mass := l.mass[player := Shifted(l.mass[player], sg.effects.moved - was.effects.moved)],
       balance := l.balance[player := l.balance[player] + sg.effects.paid - was.effects.paid],
       sagas := l.sagas[i := sg])
  }

  function After(l: Ledger, ev: Event): Ledger
    requires Possible(l, ev)
  {
    match ev
    case SellFish(key, player, want, s, read) => Sold(l, key, player, want, s, read)
    case BuyFish(key, player, want, s, read) => Bought(l, key, player, want, s, read)
    case QueueReward(key, player, points) =>
      l.(sagas := l.sagas + [NewSaga(key, Reward, player, 0, points, 0, Pending, EventPending, [], 0)])
    case At(i, local) => Put(l, i, Next(l.sagas[i], local))
    case OtherMass(player, delta) =>
      l.(mass := l.mass[player := Shifted(l.mass[player], delta)],
         other := l.other[player := l.other[player] + Shifted(l.mass[player], delta) - l.mass[player]])
    case OtherPoints(player, delta) =>
      l.(balance := l.balance[player := l.balance[player] + delta],
         external := l.external[player := l.external[player] + delta])
  }

  /** One request, call or commit; what is not possible is turned away and
    * changes nothing.
    */
  function Step(l: Ledger, ev: Event): Ledger
  {
    if Possible(l, ev) then After(l, ev) else l
  }

  /** Hypotheses about one step; only the steps of an operation can fail them. */
  predicate HonestIn(l: Ledger, ev: Event)
  {
    ev.At? && ev.index < |l.sagas| ==> Honest(l.sagas[ev.index], ev.local)
  }

  predicate HarmlessIn(l: Ledger, ev: Event)
  {
    ev.At? && ev.index < |l.sagas| ==> Harmless(l.sagas[ev.index], ev.local)
  }

  predicate GuardedIn(l: Ledger, ev: Event)
  {
    ev.At? && ev.index < |l.sagas| ==> Guarded(l.sagas[ev.index], ev.local)
  }

  predicate TimelyIn(l: Ledger, ev: Event)
  {
    ev.At? && ev.index < |l.sagas| ==> Timely(l.sagas[ev.index], ev.local)
  }

  // ---- invariants ----------------------------------------------------------

  function Moved(sagas: seq<Saga>, player: PlayerId): seq<int>
  {
    seq(|sagas|, i requires 0 <= i < |sagas| => if sagas[i].op.player == player then sagas[i].effects.moved else 0)
  }

  function Paid(sagas: seq<Saga>, player: PlayerId): seq<int>
  {
    seq(|sagas|, i requires 0 <= i < |sagas| => if sagas[i].op.player == player then sagas[i].effects.paid else 0)
  }

  function Contributions(sagas: seq<Saga>, player: PlayerId): seq<int>
  {
    seq(|sagas|, i requires 0 <= i < |sagas| => if sagas[i].op.player == player then Contribution(sagas[i].op) else 0)
  }

  predicate SamePlayers(l: Ledger)
  {
    && l.mass.Keys == l.other.Keys == l.balance.Keys == l.external.Keys
    && forall i :: 0 <= i < |l.sagas| ==> l.sagas[i].op.player in l.mass
  }

  /** A player's mass and points are what other sources brought plus what the
    * operations moved.
    */
  predicate AccountedFor(l: Ledger, p: PlayerId)
    requires SamePlayers(l) && p in l.mass
  {
    && l.mass[p] == l.other[p] + Sum(Moved(l.sagas, p))
    && l.balance[p] == l.external[p] + Sum(Paid(l.sagas, p))
  }

  predicate Accounted(l: Ledger)
    requires SamePlayers(l)
  {
    forall p :: p in l.mass ==> AccountedFor(l, p)
  }

  predicate ExclusiveKeys(l: Ledger)
  {
    forall i, j :: 0 <= i < j < |l.sagas| ==> l.sagas[i].op.key != l.sagas[j].op.key
  }

  predicate OneConversion(l: Ledger)
  {
    forall i, j :: 0 <= i < j < |l.sagas| && Converting(l.sagas[i]) && Converting(l.sagas[j]) ==>
      l.sagas[i].op.player != l.sagas[j].op.player
  }

  /** A price is the rounded value of the mass at the rate of the operation,
    * except for a purchase over the cap, which nobody ever tries.
    */
  predicate FairlyPriced(sg: Saga)
  {
    && (sg.op.kind == Sell ==> sg.op.points == SellPoints(sg.op.mass, sg.op.rate))
    && (sg.op.kind == Buy ==> sg.op.points == BuyPoints(sg.op.mass, sg.op.rate) || (sg.op.state == Failed && Idle(sg)))
  }

  predicate AllSound(l: Ledger)
  {
    forall i :: 0 <= i < |l.sagas| ==> Sound(l.sagas[i]) && FairlyPriced(l.sagas[i])
  }

  /** Holds of every reachable ledger, without any hypothesis. */
  predicate Inv(l: Ledger)
  {
    SamePlayers(l) && Accounted(l) && ExclusiveKeys(l) && AllSound(l)
  }

  predicate AllBooked(l: Ledger)
  {
    forall i :: 0 <= i < |l.sagas| ==> Booked(l.sagas[i])
  }

  predicate AllGood(l: Ledger)
  {
    forall i :: 0 <= i < |l.sagas| ==> Good(l.sagas[i])
  }

  /** Two active conversions are of two players, and conversions under way hold
    * their leases.
    */
  predicate Exclusive(l: Ledger)
  {
    OneConversion(l) && forall i :: 0 <= i < |l.sagas| && l.sagas[i].op.kind != Reward ==> Attended(l.sagas[i])
  }

  /** Before the first conversion, whatever the players already own. */
  predicate Initial(l: Ledger)
  {
    && l.sagas == [] && SamePlayers(l)
    && forall p :: p in l.mass ==> l.mass[p] == l.other[p] && l.balance[p] == l.external[p]
  }

  // ---- preservation --------------------------------------------------------

  lemma AppendSums(sagas: seq<Saga>, sg: Saga, player: PlayerId)
    ensures Sum(Moved(sagas + [sg], player)) ==
            Sum(Moved(sagas, player)) + if sg.op.player == player then sg.effects.moved else 0
    ensures Sum(Paid(sagas + [sg], player)) ==
            Sum(Paid(sagas, player)) + if sg.op.player == player then sg.effects.paid else 0
  {
    var mine := sg.op.player == player;
    SumAppend(Moved(sagas, player), if mine then sg.effects.moved else 0);
    SumAppend(Paid(sagas, player), if mine then sg.effects.paid else 0);
    assert Moved(sagas + [sg], player) == Moved(sagas, player) + [if mine then sg.effects.moved else 0];
    assert Paid(sagas + [sg], player) == Paid(sagas, player) + [if mine then sg.effects.paid else 0];
  }

  lemma UpdateSums(sagas: seq<Saga>, i: nat, sg: Saga, player: PlayerId)
    requires i < |sagas| && sg.op.player == sagas[i].op.player
    ensures var mine := sg.op.player == player;
            && Sum(Moved(sagas[i := sg], player)) ==
               Sum(Moved(sagas, player)) + (if mine then sg.effects.moved - sagas[i].effects.moved else 0)
            && Sum(Paid(sagas[i := sg], player)) ==
               Sum(Paid(sagas, player)) + (if mine then sg.effects.paid - sagas[i].effects.paid else 0)
  {
    var mine := sg.op.player == player;
    SumUpdate(Moved(sagas, player), i, if mine then sg.effects.moved else 0);
    SumUpdate(Paid(sagas, player), i, if mine then sg.effects.paid else 0);
    assert Moved(sagas[i := sg], player) == Moved(sagas, player)[i := if mine then sg.effects.moved else 0];
    assert Paid(sagas[i := sg], player) == Paid(sagas, player)[i := if mine then sg.effects.paid else 0];
  }

  lemma AppendAccountedFor(l: Ledger, mass: map<PlayerId, nat>, sg: Saga, p: PlayerId)
    requires SamePlayers(l) && sg.op.player in l.mass && sg.effects.paid == 0
    requires l.mass[sg.op.player] + sg.effects.moved >= 0
    requires mass == l.mass[sg.op.player := l.mass[sg.op.player] + sg.effects.moved]
    requires p in l.mass && AccountedFor(l, p)
    ensures var l' := l.(mass := mass, sagas := l.sagas + [sg]); SamePlayers(l') && AccountedFor(l', p)
  {
    AppendSums(l.sagas, sg, p);
  }

  lemma PutAccountedFor(l: Ledger, i: nat, sg: Saga, p: PlayerId)
    requires SamePlayers(l) && i < |l.sagas| && sg.op.player == l.sagas[i].op.player
    requires sg.effects.moved >= l.sagas[i].effects.moved
    requires p in l.mass && AccountedFor(l, p)
    ensures SamePlayers(Put(l, i, sg)) && AccountedFor(Put(l, i, sg), p)
  {
    UpdateSums(l.sagas, i, sg, p);
  }

  lemma AppendAccounted(l: Ledger, mass: map<PlayerId, nat>, sg: Saga)
    requires SamePlayers(l) && Accounted(l) && sg.op.player in l.mass && sg.effects.paid == 0
    requires l.mass[sg.op.player] + sg.effects.moved >= 0
    requires mass == l.mass[sg.op.player := l.mass[sg.op.player] + sg.effects.moved]
    ensures var l' := l.(mass := mass, sagas := l.sagas + [sg]); SamePlayers(l') && Accounted(l')
  {
    var l' := l.(mass := mass, sagas := l.sagas + [sg]);
    forall p | p in l'.mass ensures AccountedFor(l', p) {
      AppendAccountedFor(l, mass, sg, p);
    }
  }

  lemma PutAccounted(l: Ledger, i: nat, sg: Saga)
    requires SamePlayers(l) && Accounted(l) && i < |l.sagas| && sg.op.player == l.sagas[i].op.player
    requires sg.effects.moved >= l.sagas[i].effects.moved
    ensures SamePlayers(Put(l, i, sg)) && Accounted(Put(l, i, sg))
  {
    forall p | p in Put(l, i, sg).mass ensures AccountedFor(Put(l, i, sg), p) {
      PutAccountedFor(l, i, sg, p);
    }
  }

  // ---- what needs no hypothesis --------------------------------------------

  lemma AppendKeeps(l: Ledger, mass: map<PlayerId, nat>, sg: Saga)
    requires Inv(l) && FreshKey(l, sg.op.key) && sg.op.player in l.mass && sg.effects.paid == 0
    requires Sound(sg) && FairlyPriced(sg)
    requires l.mass[sg.op.player] + sg.effects.moved >= 0
    requires mass == l.mass[sg.op.player := l.mass[sg.op.player] + sg.effects.moved]
    ensures Inv(l.(mass := mass, sagas := l.sagas + [sg]))
  {
    AppendAccounted(l, mass, sg);
  }

  lemma PutKeeps(l: Ledger, i: nat, sg: Saga)
    requires Inv(l) && i < |l.sagas| && SameTrade(sg.op, l.sagas[i].op)
    requires sg.effects.moved >= l.sagas[i].effects.moved
    requires Sound(sg) && FairlyPriced(sg)
    ensures Inv(Put(l, i, sg))
  {
    PutAccounted(l, i, sg);
  }

  /** A purchase over the cap is never tried, so its price cannot matter. */
  lemma PriceStays(sg: Saga, local: Local)
    requires Sound(sg) && Enabled(sg, local) && FairlyPriced(sg)
    ensures FairlyPriced(Next(sg, local))
  {
    SoundStep(sg, local);
    if OfCall(local) {
      CallEventKeepsOthers(sg, local);
    }
  }

  lemma AtKeeps(l: Ledger, i: nat, local: Local)
    requires Inv(l) && i < |l.sagas| && Enabled(l.sagas[i], local)
    ensures Inv(Put(l, i, Next(l.sagas[i], local)))
  {
    SoundStep(l.sagas[i], local);
    PriceStays(l.sagas[i], local);
    PutKeeps(l, i, Next(l.sagas[i], local));
  }

  /** What a new row is like. */
  predicate Newborn(sg: Saga)
  {
    Sound(sg) && FairlyPriced(sg) && Booked(sg) && Good(sg) && Attended(sg)
  }

  lemma NewbornSale(key: Key, player: PlayerId, mass: nat, points: nat, rate: nat, tried: bool)
    requires mass > 0 && points == SellPoints(mass, rate)
    ensures Newborn(NewSale(key, player, mass, points, rate, tried))
  {
  }

  lemma NewbornPurchase(key: Key, player: PlayerId, mass: nat, points: nat, rate: nat, tried: bool)
    requires mass > 0 && (tried ==> points == BuyPoints(mass, rate))
    ensures Newborn(NewPurchase(key, player, mass, points, rate, tried))
  {
  }

  lemma NewbornReward(key: Key, player: PlayerId, points: nat)
    ensures Newborn(NewSaga(key, Reward, player, 0, points, 0, Pending, EventPending, [], 0))
  {
  }

  /** What a step that is not one of an operation does: nothing to the rows, or
    * one new row, for a player who is not busy if it is an active conversion.
    */
  lemma OneNewRow(l: Ledger, ev: Event)
    requires !ev.At?
    ensures var l' := Step(l, ev);
            || l'.sagas == l.sagas
            || (&& |l'.sagas| == |l.sagas| + 1 && l'.sagas[..|l.sagas|] == l.sagas && Newborn(l'.sagas[|l.sagas|])
                && (Converting(l'.sagas[|l.sagas|]) ==> !Busy(l, l'.sagas[|l.sagas|].op.player)))
  {
    if Possible(l, ev) {
      match ev {
        case SellFish(key, player, want, s, read) =>
          var q := SellQuote(want, l.mass[player], s, read);
          if !q.Refused? {
            NewbornSale(key, player, q.mass, q.points, s.sellRate, q.Priced?);
          }
        case BuyFish(key, player, want, s, read) =>
          var q := BuyQuote(want, s, read);
          if !q.Refused? {
            NewbornPurchase(key, player, q.mass, q.points, s.buyRate, q.Priced?);
          }
        case QueueReward(key, player, points) => NewbornReward(key, player, points);
        case _ =>
      }
    }
  }

  /** The transaction that starts a conversion debits the player together with
    * the new row, or leaves the player alone.
    */
  lemma NewRowKeeps(l: Ledger, after: Ledger, sg: Saga)
    requires Inv(l) && Sound(sg) && FairlyPriced(sg) && FreshKey(l, sg.op.key) && sg.op.player in l.mass
    requires sg.effects.paid == 0 && l.mass[sg.op.player] + sg.effects.moved >= 0
    requires after ==
             l.(mass := l.mass[sg.op.player := l.mass[sg.op.player] + sg.effects.moved], sagas := l.sagas + [sg])
    ensures Inv(after)
  {
    AppendKeeps(l, after.mass, sg);
  }

  lemma SoundSale(key: Key, player: PlayerId, mass: nat, points: nat, rate: nat, tried: bool)
    requires mass > 0 && points == SellPoints(mass, rate)
    ensures var sg := NewSale(key, player, mass, points, rate, tried); Sound(sg) && FairlyPriced(sg)
  {
    NewbornSale(key, player, mass, points, rate, tried);
  }

  lemma SoundPurchase(key: Key, player: PlayerId, mass: nat, points: nat, rate: nat, tried: bool)
    requires mass > 0 && (tried ==> points == BuyPoints(mass, rate))
    ensures var sg := NewPurchase(key, player, mass, points, rate, tried); Sound(sg) && FairlyPriced(sg)
  {
    NewbornPurchase(key, player, mass, points, rate, tried);
  }

  lemma SoldKeeps(l: Ledger, key: Key, player: PlayerId, want: Argument, s: Settings, read: int)
    requires Inv(l) && MayConvert(l, key, player, read)
    ensures Inv(Sold(l, key, player, want, s, read))
  {
    var q := SellQuote(want, l.mass[player], s, read);
    if !q.Refused? {
      SoundSale(key, player, q.mass, q.points, s.sellRate, q.Priced?);
      assert l.mass == l.mass[player := l.mass[player]];
      var sale := NewSale(key, player, q.mass, q.points, s.sellRate, q.Priced?);
      NewRowKeeps(l, Sold(l, key, player, want, s, read), sale);
    }
  }

  lemma BoughtKeeps(l: Ledger, key: Key, player: PlayerId, want: Argument, s: Settings, read: int)
    requires Inv(l) && MayConvert(l, key, player, read)
    ensures Inv(Bought(l, key, player, want, s, read))
  {
    var q := BuyQuote(want, s, read);
    if !q.Refused? {
      SoundPurchase(key, player, q.mass, q.points, s.buyRate, q.Priced?);
      assert l.mass == l.mass[player := l.mass[player]];
      var purchase := NewPurchase(key, player, q.mass, q.points, s.buyRate, q.Priced?);
      NewRowKeeps(l, Bought(l, key, player, want, s, read), purchase);
    }
  }

  lemma InvStep(l: Ledger, ev: Event)
    requires Inv(l)
    ensures Inv(Step(l, ev))
  {
    if Possible(l, ev) {
      match ev {
        case SellFish(key, player, want, s, read) => SoldKeeps(l, key, player, want, s, read);
        case BuyFish(key, player, want, s, read) => BoughtKeeps(l, key, player, want, s, read);
        case QueueReward(key, player, points) =>
          NewbornReward(key, player, points);
          assert l.mass == l.mass[player := l.mass[player]];
          AppendKeeps(l, l.mass, Step(l, ev).sagas[|l.sagas|]);
        case At(i, local) => AtKeeps(l, i, local);
        case _ =>
      }
    }
  }

  lemma PlayersStay(l: Ledger, ev: Event)
    requires SamePlayers(l)
    ensures Step(l, ev).mass.Keys == l.mass.Keys
  {
  }

  // ---- what needs one ------------------------------------------------------

  /** A step of an operation changes that operation's row, if it is possible. */
  lemma AtChangesOne(l: Ledger, i: nat, local: Local)
    requires SamePlayers(l)
    ensures Step(l, At(i, local)).sagas ==
            if i < |l.sagas| && Enabled(l.sagas[i], local) then l.sagas[i := Next(l.sagas[i], local)] else l.sagas
    ensures Step(l, At(i, local)).mass.Keys == l.mass.Keys
  {
  }

  lemma BookedKept(l: Ledger, ev: Event)
    requires SamePlayers(l) && AllBooked(l) && GuardedIn(l, ev)
    ensures AllBooked(Step(l, ev))
  {
    if ev.At? {
      AtChangesOne(l, ev.index, ev.local);
      if ev.index < |l.sagas| && Enabled(l.sagas[ev.index], ev.local) {
        BookedStep(l.sagas[ev.index], ev.local);
      }
    } else {
      OneNewRow(l, ev);
      assert Step(l, ev).sagas[..|l.sagas|] == l.sagas;
    }
  }

  lemma GoodKept(l: Ledger, ev: Event)
    requires SamePlayers(l) && AllGood(l) && HonestIn(l, ev) && HarmlessIn(l, ev)
    ensures AllGood(Step(l, ev))
  {
    if ev.At? {
      AtChangesOne(l, ev.index, ev.local);
      if ev.index < |l.sagas| && Enabled(l.sagas[ev.index], ev.local) {
        GoodStep(l.sagas[ev.index], ev.local);
      }
    } else {
      OneNewRow(l, ev);
      assert Step(l, ev).sagas[..|l.sagas|] == l.sagas;
    }
  }

  lemma ExclusivePut(l: Ledger, after: Ledger, i: nat, sg: Saga)
    requires Exclusive(l) && i < |l.sagas| && after.sagas == l.sagas[i := sg] && SameTrade(sg.op, l.sagas[i].op)
    requires (Converting(sg) ==> Converting(l.sagas[i])) && (sg.op.kind != Reward ==> Attended(sg))
    ensures Exclusive(after)
  {
  }

  lemma ExclusiveAdd(l: Ledger, after: Ledger)
    requires Exclusive(l) && |after.sagas| == |l.sagas| + 1 && after.sagas[..|l.sagas|] == l.sagas
    requires var sg := after.sagas[|l.sagas|]; Attended(sg) && (Converting(sg) ==> !Busy(l, sg.op.player))
    ensures Exclusive(after)
  {
    var n := |l.sagas|;
    assert forall i :: 0 <= i < n ==> after.sagas[i] == after.sagas[..n][i];
  }

  lemma ExclusiveKept(l: Ledger, ev: Event)
    requires Inv(l) && Exclusive(l) && TimelyIn(l, ev)
    ensures Exclusive(Step(l, ev))
  {
    var after := Step(l, ev);
    if ev.At? {
      AtChangesOne(l, ev.index, ev.local);
      if after.sagas != l.sagas {
        var sg := l.sagas[ev.index];
        SoundStep(sg, ev.local);
        if sg.op.kind != Reward {
          AttendedStep(sg, ev.local);
        }
        ExclusivePut(l, after, ev.index, Next(sg, ev.local));
      }
    } else {
      OneNewRow(l, ev);
      if after.sagas != l.sagas {
        ExclusiveAdd(l, after);
      }
    }
  }
}
