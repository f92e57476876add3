/** Loot tables: `services/loot_table_service.py` over the stock rows of
  * `config_repo.py` and the delivery of `inventory_repo.py`.
  *
  * A stock row is locked from its first reservation to the end of the
  * transaction; until then other transactions may change it between two rolls.
  */
module LootTable {
  import opened Options

  datatype EntryId = EntryId(id: int)
  type DefinitionId = int
  type ItemId = int

  /** A candidate with its cached stock; unlimited entries have none. */
  datatype Candidate = Candidate(entry: EntryId, definition: Option<DefinitionId>, item: ItemId,
                                 min: nat, max: nat, remaining: Option<nat>)

  datatype Status = Selected | StockEmpty | Granted | Overflowed | Failed

  datatype Resolution = Resolution(entry: EntryId, definition: Option<DefinitionId>, item: ItemId, rolled: nat,
                                   granted: nat, before: Option<nat>, after: Option<nat>, status: Status)

  /** The random choices of one roll: which of the eligible candidates (none
    * when they have no weight) and how far above the minimum quantity.
    */
  datatype Choice = Choice(pick: Option<nat>, extra: nat)

  type Stock = map<EntryId, nat>

  // ---- one roll, on values -------------------------------------------------

  predicate InStock(c: Candidate) { c.remaining != Some(0) }

  /** The positions of the candidates that may be selected. */
  function Eligible(candidates: seq<Candidate>): (r: seq<int>)
    ensures forall i :: i in r <==> 0 <= i < |candidates| && InStock(candidates[i])
  {
    if candidates == [] then [] else
    var n := |candidates| - 1;
    var before := Eligible(candidates[..n]);
    if InStock(candidates[n]) then before + [n] else before
  }

  function RollQuantity(c: Candidate, extra: nat): (q: nat)
    ensures q >= 1 && q >= c.min && (q <= c.max || q == 1 || q == c.min)
  {
    var least := if c.min == 0 then 1 else c.min;
    var most := if c.max < least then least else c.max;
    least + extra % (most - least + 1)
  }

  function Select(candidates: seq<Candidate>, choice: Choice): (r: Option<Resolution>)
    ensures r.Some? ==> r.value.rolled >= 1 && r.value.status == Selected &&
                        exists i :: 0 <= i < |candidates| && InStock(candidates[i]) &&
                                    candidates[i].entry == r.value.entry &&
                                    candidates[i].definition == r.value.definition
  {
    var eligible := Eligible(candidates);
    if eligible == [] || choice.pick.None? then None else
    var i := eligible[choice.pick.value % |eligible|];
    assert i in eligible;
    var c := candidates[i];
    Some(Resolution(c.entry, c.definition, c.item, RollQuantity(c, choice.extra), 0, None, None, Selected))
  }

  /** `reserve_loot_table_entry_stock` and what `reserve` notes of it. */
  function Reserved(stock: Stock, r: Resolution): Resolution
  {
    if r.entry !in stock || r.rolled == 0 then r.(granted := r.rolled, before := None, after := None)
    else
      var before := stock[r.entry];
      if before == 0 then r.(status := StockEmpty, granted := 0, before := Some(0), after := Some(0))
      else
        var granted := if before <= r.rolled then before else r.rolled;
        r.(granted := granted, before := Some(before), after := Some(before - granted))
  }

  /** Its row is locked, unless there is nothing to reserve. */
  function Opened(opening: Stock, stock: Stock, r: Resolution): Stock
  {
    if r.rolled > 0 && r.entry in stock && r.entry !in opening then opening[r.entry := stock[r.entry]] else opening
  }

  function StockAfter(stock: Stock, r: Resolution): Stock
  {
    if r.after.Some? then stock[r.entry := r.after.value] else stock
  }

  /** The snapshot learns the stock of the entry that was reserved. */
  function Refreshed(candidates: seq<Candidate>, r: Resolution): seq<Candidate>
  {
    seq(|candidates|, i requires 0 <= i < |candidates| =>
      if r.after.Some? && candidates[i].entry == r.entry then candidates[i].(remaining := r.after) else candidates[i])
  }

  /** The rows no one has locked take what other transactions committed. */
  function Interfered(stock: Stock, locked: set<EntryId>, others: Stock): Stock
  {
    map e | e in stock :: if e !in locked && e in others then others[e] else stock[e]
  }

  /** `opening` holds, for each entry reserved so far, its stock just before. */
  datatype Box = Box(candidates: seq<Candidate>, stock: Stock, opening: Stock, resolutions: seq<Resolution>)

  function Disturbed(b: Box, others: Stock): Box
  {
    b.(stock := Interfered(b.stock, b.opening.Keys, others))
  }

  function Take(b: Box, r: Resolution): Box
  {
    Box(Refreshed(b.candidates, r), StockAfter(b.stock, r), Opened(b.opening, b.stock, r), b.resolutions + [r])
  }

  /** Select from the snapshot, reserve from the store. */
  function RollOnce(b: Box, choice: Choice): Box
  {
    var selected := Select(b.candidates, choice);
    if selected.None? then b else Take(b, Reserved(b.stock, selected.value))
  }

  function RollAll(b: Box, choices: seq<Choice>, others: nat -> Stock): Box
  {
    if choices == [] then b else
    var n := |choices| - 1;
    RollOnce(Disturbed(RollAll(b, choices[..n], others), others(n)), choices[n])
  }

  // ---- one roll from its inputs alone --------------------------------------

  /** The least and the greatest quantity of an entry; both are at least one. */
  function Least(c: Candidate): nat { if c.min > 1 then c.min else 1 }

  function Most(c: Candidate): nat { if c.max > Least(c) then c.max else Least(c) }

  lemma QuantityWithin(c: Candidate, extra: nat)
    ensures Least(c) <= RollQuantity(c, extra) <= Most(c)
  {
  }

  lemma SmallRemainder(k: nat, n: nat)
    requires k < n
    ensures k % n == k
  {
  }

  lemma QuantityReached(c: Candidate, q: nat)
    requires Least(c) <= q <= Most(c)
    ensures RollQuantity(c, q - Least(c)) == q
  {
    SmallRemainder(q - Least(c), Most(c) - Least(c) + 1);
  }

  /** Every quantity between them is rolled by some choice, and no other one. */
  lemma QuantityIff(c: Candidate, q: nat)
    ensures (exists extra: nat :: RollQuantity(c, extra) == q) <==> Least(c) <= q <= Most(c)
  {
    if Least(c) <= q <= Most(c) {
      QuantityReached(c, q);
    }
    forall extra: nat ensures Least(c) <= RollQuantity(c, extra) <= Most(c) {
      QuantityWithin(c, extra);
    }
  }

  lemma EligibleNames(candidates: seq<Candidate>, i: nat) returns (k: nat)
    requires i < |candidates| && candidates[i].remaining != Some(0)
    ensures k < |Eligible(candidates)| && Eligible(candidates)[k] == i
  {
    var eligible := Eligible(candidates);
    assert i in eligible;
    k :| 0 <= k < |eligible| && eligible[k] == i;
  }

  /** A roll can select any candidate that is not exhausted, in any quantity
    * within its bounds.
    */
  lemma SelectsAny(candidates: seq<Candidate>, i: nat, q: nat)
    requires i < |candidates| && candidates[i].remaining != Some(0) && Least(candidates[i]) <= q <= Most(candidates[i])
    ensures var c := candidates[i];
            exists choice :: Select(candidates, choice) ==
                             Some(Resolution(c.entry, c.definition, c.item, q, 0, None, None, Selected))
  {
    var c := candidates[i];
    var k := EligibleNames(candidates, i);
    QuantityReached(c, q);
    SmallRemainder(k, |Eligible(candidates)|);
    var choice := Choice(Some(k), q - Least(c));
    assert Select(candidates, choice) ==
           Some(Resolution(c.entry, c.definition, c.item, q, 0, None, None, Selected));
  }

  /** It selects nothing exactly when every candidate is exhausted, or none of
    * them has a weight.
    */
  lemma SelectsNothingIff(candidates: seq<Candidate>, choice: Choice)
    ensures Select(candidates, choice) == None <==>
            choice.pick == None || forall c :: c in candidates ==> c.remaining == Some(0)
  {
    var eligible := Eligible(candidates);
    if eligible != [] {
      assert eligible[0] in eligible;
      assert candidates[eligible[0]] in candidates;
    }
  }

  /** A finite entry gives what is asked for, or all it has; what it has given is
    * gone, and an exhausted one says so.
    */
  lemma ReservedIs(stock: Stock, r: Resolution)
    requires r.entry in stock && r.rolled > 0 && r.status == Selected
    ensures var reserved, left := Reserved(stock, r), stock[r.entry];
            && reserved.granted == (if left < r.rolled then left else r.rolled)
            && reserved.before == Some(left) && reserved.after == Some(left - reserved.granted)
            && (reserved.status == StockEmpty <==> left == 0) && (left > 0 ==> reserved.status == Selected)
            && StockAfter(stock, reserved) == stock[r.entry := left - reserved.granted]
            && reserved.entry == r.entry && reserved.definition == r.definition && reserved.item == r.item
            && reserved.rolled == r.rolled
  {
  }

  /** An unlimited one always gives what is asked for. */
  lemma UnlimitedGives(stock: Stock, r: Resolution)
    requires r.entry !in stock
    ensures Reserved(stock, r) == r.(granted := r.rolled, before := None, after := None)
    ensures StockAfter(stock, Reserved(stock, r)) == stock
  {
  }

  /** A roll may find an entry exhausted by somebody else. */
  lemma ExhaustedByOthers()
    ensures exists b, choice, others: Stock ::
              && Fresh(b) && b.resolutions == []
              && var end := RollOnce(Disturbed(b, others), choice);
                 |end.resolutions| == 1 && end.resolutions[0].status == StockEmpty
  {
    var e := EntryId(0);
    var c := Candidate(e, None, 0, 1, 1, Some(1));
    var b := Box([c], map[e := 1], map[], []);
    assert Eligible([c][..0]) == [] && Eligible([c]) == [0];
    assert Disturbed(b, map[e := 0]).stock[e] == 0;
    assert Fresh(b) && RollOnce(Disturbed(b, map[e := 0]), Choice(Some(0), 0)).resolutions[0].status == StockEmpty;
  }

  // ---- what every roll keeps -----------------------------------------------

  function Total(rs: seq<Resolution>, f: Resolution -> nat): nat
  {
    if rs == [] then 0 else Total(rs[..|rs| - 1], f) + f(rs[|rs| - 1])
  }

  lemma TotalAppend(rs: seq<Resolution>, r: Resolution, f: Resolution -> nat)
    ensures Total(rs + [r], f) == Total(rs, f) + f(r)
  {
    assert (rs + [r])[..|rs|] == rs;
  }

  function Of(e: EntryId): Resolution -> nat
  {
    (r: Resolution) => if r.entry == e then r.granted else 0
  }

  predicate DistinctEntries(candidates: seq<Candidate>)
  {
    forall i, j :: 0 <= i < j < |candidates| ==> candidates[i].entry != candidates[j].entry
  }

  /** A locked entry's cached stock is the stored one, and nothing of it got
    * lost: what was there is what is left and what was granted.
    */
  ghost predicate Sound(b: Box)
  {
    && b.opening.Keys <= b.stock.Keys
    && CachedIsStored(b)
    && (forall e :: e in b.stock ==> Accounted(b, e))
  }

  ghost predicate CachedIsStored(b: Box)
  {
    forall i :: 0 <= i < |b.candidates| && b.candidates[i].entry in b.opening ==>
                  b.candidates[i].remaining == Cached(b.stock, b.candidates[i].entry)
  }

  predicate Accounted(b: Box, e: EntryId)
    requires e in b.stock
  {
    if e in b.opening then b.stock[e] + Total(b.resolutions, Of(e)) == b.opening[e]
    else Total(b.resolutions, Of(e)) == 0
  }

  function Cached(stock: Stock, e: EntryId): Option<nat> { if e in stock then Some(stock[e]) else None }

  /** The snapshot is the store. */
  ghost predicate Fresh(b: Box)
  {
    forall i :: 0 <= i < |b.candidates| ==> b.candidates[i].remaining == Cached(b.stock, b.candidates[i].entry)
  }

  lemma SoundDisturbed(b: Box, others: Stock)
    requires Sound(b)
    ensures Sound(Disturbed(b, others)) && Disturbed(b, others).stock.Keys == b.stock.Keys
  {
    var after := Disturbed(b, others);
    forall e | e in after.stock ensures Accounted(after, e) {
      assert Accounted(b, e);
    }
  }

  lemma AccountedTake(b: Box, selected: Resolution, e: EntryId)
    requires e in b.stock && Accounted(b, e) && (e in b.opening || selected.rolled >= 1)
    ensures var after := Take(b, Reserved(b.stock, selected)); e in after.stock && Accounted(after, e)
  {
    TotalAppend(b.resolutions, Reserved(b.stock, selected), Of(e));
  }

  lemma CachedTake(b: Box, selected: Resolution)
    requires CachedIsStored(b) && selected.rolled >= 1
    ensures CachedIsStored(Take(b, Reserved(b.stock, selected)))
  {
  }

  lemma SoundTake(b: Box, selected: Resolution)
    requires Sound(b) && selected.rolled >= 1
    ensures var after := Take(b, Reserved(b.stock, selected));
            Sound(after) && after.stock.Keys == b.stock.Keys
  {
    var after := Take(b, Reserved(b.stock, selected));
    forall e | e in after.stock ensures Accounted(after, e) {
      AccountedTake(b, selected, e);
    }
    CachedTake(b, selected);
  }

  lemma SoundOnce(b: Box, choice: Choice)
    requires Sound(b)
    ensures Sound(RollOnce(b, choice)) && RollOnce(b, choice).stock.Keys == b.stock.Keys
  {
    var selected := Select(b.candidates, choice);
    if selected.Some? {
      SoundTake(b, selected.value);
    }
  }

  /** Whatever other transactions do between the rolls: after every roll the
    * cached stock of each entry reserved so far is the stored one, and its
    * grants add up to what was taken from its opening stock, never more.
    */
  lemma {:induction false} SoundAlways(b: Box, choices: seq<Choice>, others: nat -> Stock)
    requires Sound(b)
    ensures var end := RollAll(b, choices, others);
            && Sound(end) && end.stock.Keys == b.stock.Keys
            && forall e :: e in end.opening ==> Total(end.resolutions, Of(e)) <= end.opening[e]
  {
    if choices != [] {
      var n := |choices| - 1;
      SoundAlways(b, choices[..n], others);
      SoundDisturbed(RollAll(b, choices[..n], others), others(n));
      SoundOnce(Disturbed(RollAll(b, choices[..n], others), others(n)), choices[n]);
    }
    assert forall e :: e in RollAll(b, choices, others).opening ==> Accounted(RollAll(b, choices, others), e);
  }

  function Initially(b: Box, e: EntryId): nat
    requires e in b.stock
  {
    if e in b.opening then b.opening[e] else b.stock[e]
  }

  /** Entries still have the stock they had when first reserved or, untouched,
    * at the start; every resolution so far granted something.
    */
  ghost predicate Undisturbed(b: Box, start: Stock)
  {
    && Fresh(b) && b.stock.Keys == start.Keys
    && (forall e :: e in start ==> start[e] == Initially(b, e))
    && (forall r :: r in b.resolutions ==> r.status == Selected && r.granted >= 1)
  }

  lemma FreshTake(b: Box, selected: Resolution)
    requires Fresh(b)
    ensures Fresh(Take(b, Reserved(b.stock, selected)))
  {
  }

  lemma UndisturbedOnce(b: Box, choice: Choice, start: Stock)
    requires Sound(b) && Undisturbed(b, start)
    ensures Undisturbed(RollOnce(b, choice), start)
  {
    var selected := Select(b.candidates, choice);
    if selected.Some? {
      var i :| 0 <= i < |b.candidates| && InStock(b.candidates[i]) && b.candidates[i].entry == selected.value.entry;
      assert b.candidates[i].remaining == Cached(b.stock, selected.value.entry);
      FreshTake(b, selected.value);
      OpeningTake(b, selected.value, start);
    }
  }

  lemma OpeningTake(b: Box, selected: Resolution, start: Stock)
    requires selected.rolled >= 1 && selected.status == Selected && Cached(b.stock, selected.entry) != Some(0)
    requires b.stock.Keys == start.Keys && forall e :: e in start ==> start[e] == Initially(b, e)
    ensures var after := Take(b, Reserved(b.stock, selected));
            && after.stock.Keys == start.Keys && (forall e :: e in start ==> start[e] == Initially(after, e))
            && after.resolutions[|b.resolutions|].status == Selected && after.resolutions[|b.resolutions|].granted >= 1
  {
  }

  /** With nobody else rolling, every cached stock is the stored one after every
    * roll, opening stocks are initial stocks, and no roll selects an exhausted
    * entry.
    */
  lemma {:induction false} FreshAlways(b: Box, choices: seq<Choice>, others: nat -> Stock)
    requires Sound(b) && Undisturbed(b, b.stock) && forall n :: others(n) == map[]
    ensures Undisturbed(RollAll(b, choices, others), b.stock)
  {
    if choices != [] {
      var n := |choices| - 1;
      FreshAlways(b, choices[..n], others);
      var before := RollAll(b, choices[..n], others);
      SoundAlways(b, choices[..n], others);
      assert Disturbed(before, others(n)).stock == before.stock;
      UndisturbedOnce(before, choices[n], b.stock);
    }
  }

  /** Disturbed, a roll can find the stock gone, but only once for each entry:
    * the snapshot then knows.
    */
  lemma EmptyOnlyOnce(b: Box, choice: Choice)
    requires Sound(b) && Select(b.candidates, choice).Some?
    ensures var r := Reserved(b.stock, Select(b.candidates, choice).value);
            r.status == StockEmpty ==> r.entry !in b.opening && r.entry in RollOnce(b, choice).opening
  {
    var e := Select(b.candidates, choice).value.entry;
    var i :| 0 <= i < |b.candidates| && InStock(b.candidates[i]) && b.candidates[i].entry == e;
  }

  // ---- delivery, on values -------------------------------------------------

  /** `fits` says whether the inventory takes the whole quantity. */
  function Delivered(r: Resolution, fits: bool): Resolution
  {
    if r.status == StockEmpty || r.granted == 0 then r
    else if fits then r.(status := Granted)
    else if r.definition.None? then r.(status := Failed, granted := 0)
    else r.(status := Overflowed)
  }

  datatype Parked = Parked(definition: DefinitionId, quantity: nat)

  function ToInventory(item: ItemId): Resolution -> nat
  {
    (r: Resolution) => if r.status == Granted && r.item == item then r.granted else 0
  }

  function ParkedRows(rs: seq<Resolution>): seq<Parked>
  {
    if rs == [] then [] else
    var before, r := ParkedRows(rs[..|rs| - 1]), rs[|rs| - 1];
    if r.status == Overflowed && r.definition.Some? then before + [Parked(r.definition.value, r.granted)] else before
  }

  function DeliveredAll(rs: seq<Resolution>, fits: seq<bool>): seq<Resolution>
    requires |fits| == |rs|
  {
    seq(|rs|, i requires 0 <= i < |rs| => Delivered(rs[i], fits[i]))
  }

  function InInventory(e: EntryId): Resolution -> nat
  {
    (r: Resolution) => if r.entry == e && r.status == Granted then r.granted else 0
  }

  function InOverflow(e: EntryId): Resolution -> nat
  {
    (r: Resolution) => if r.entry == e && r.status == Overflowed then r.granted else 0
  }

  /** Each reserved unit of an entry with a known definition ends in exactly one
    * place, the inventory or the overflow.
    */
  lemma {:induction false} DeliveredExactlyOnce(rs: seq<Resolution>, fits: seq<bool>, e: EntryId)
    requires |fits| == |rs|
    requires forall r :: r in rs ==> Deliverable(r)
    ensures var ds := DeliveredAll(rs, fits);
            Total(rs, Of(e)) == Total(ds, InInventory(e)) + Total(ds, InOverflow(e))
  {
    if rs != [] {
      var n := |rs| - 1;
      DeliveredExactlyOnce(rs[..n], fits[..n], e);
      var ds := DeliveredAll(rs, fits);
      assert ds[..n] == DeliveredAll(rs[..n], fits[..n]);
      assert rs[n] in rs;
    }
  }

  /** What delivery relies on. */
  predicate Deliverable(r: Resolution)
  {
    r.definition.Some? && r.status in {Selected, StockEmpty} && (r.status == StockEmpty ==> r.granted == 0)
  }

  lemma {:induction false} DeliverableAlways(b: Box, choices: seq<Choice>, others: nat -> Stock)
    requires forall c :: c in b.candidates ==> c.definition.Some?
    requires forall r :: r in b.resolutions ==> Deliverable(r)
    ensures var end := RollAll(b, choices, others);
            && (forall c :: c in end.candidates ==> c.definition.Some?)
            && (forall r :: r in end.resolutions ==> Deliverable(r))
  {
    if choices != [] {
      var n := |choices| - 1;
      DeliverableAlways(b, choices[..n], others);
      var before := RollAll(b, choices[..n], others);
      var end := RollAll(b, choices, others);
      forall c | c in end.candidates ensures c.definition.Some? {
        var i :| 0 <= i < |end.candidates| && end.candidates[i] == c;
        assert before.candidates[i] in before.candidates;
      }
    }
  }

  // ---- the service ---------------------------------------------------------

  function Count(inventory: map<ItemId, nat>, item: ItemId): nat { if item in inventory then inventory[item] else 0 }

  /** The inventory gained exactly what these resolutions granted to it. */
  ghost predicate Gained(before: map<ItemId, nat>, after: map<ItemId, nat>, ds: seq<Resolution>)
  {
    forall item: ItemId :: Count(after, item) == Count(before, item) + Total(ds, ToInventory(item))
  }

  lemma GainedMore(before: map<ItemId, nat>, inventory: map<ItemId, nat>, after: map<ItemId, nat>,
                   ds: seq<Resolution>, d: Resolution)
    requires Gained(before, inventory, ds)
    requires after ==
             if d.status == Granted then inventory[d.item := Count(inventory, d.item) + d.granted] else inventory
    ensures Gained(before, after, ds + [d])
  {
    forall item: ItemId ensures Count(after, item) == Count(before, item) + Total(ds + [d], ToInventory(item)) {
      assert Count(inventory, item) == Count(before, item) + Total(ds, ToInventory(item));
      TotalAppend(ds, d, ToInventory(item));
    }
  }

  lemma DeliveredWhere(r: Resolution, fits: bool)
    requires Deliverable(r)
    ensures var d := Delivered(r, fits);
            && (d.status == Granted <==> r.granted > 0 && fits) && (d.status == Overflowed <==> r.granted > 0 && !fits)
            && d.granted == r.granted && d.item == r.item && d.definition == r.definition
  {
  }

  lemma ParkedMore(ds: seq<Resolution>, d: Resolution)
    ensures ParkedRows(ds + [d]) ==
            ParkedRows(ds) +
            if d.status == Overflowed && d.definition.Some? then [Parked(d.definition.value, d.granted)] else []
  {
    assert (ds + [d])[..|ds|] == ds;
  }

  lemma DeliveredMore(rs: seq<Resolution>, fits: seq<bool>, n: nat)
    requires n < |rs| == |fits|
    ensures DeliveredAll(rs[..n + 1], fits[..n + 1]) == DeliveredAll(rs[..n], fits[..n]) + [Delivered(rs[n], fits[n])]
  {
  }

  class LootStore {
    var stock: Stock
    var opening: Stock                  // the rows this transaction has locked, as they were
    var inventory: map<ItemId, nat>
    var overflow: seq<Parked>

    /** `reserve`, the row lock included. */
    method Reserve(r: Resolution) returns (reserved: Resolution)
      modifies this`stock, this`opening
      ensures reserved == Reserved(old(stock), r) && stock == StockAfter(old(stock), reserved)
      ensures opening == Opened(old(opening), old(stock), r)
    {
      if r.rolled == 0 || r.entry !in stock {
        return r.(granted := r.rolled, before := None, after := None);
      }
      var before := stock[r.entry];
      if r.entry !in opening {
        opening := opening[r.entry := before];
      }
      if before <= 0 {
        stock := stock[r.entry := before];
        return r.(status := StockEmpty, granted := 0, before := Some(before), after := Some(before));
      }
      var granted := if before <= r.rolled then before else r.rolled;
      stock := stock[r.entry := before - granted];
      return r.(granted := granted, before := Some(before), after := Some(before - granted));
    }

    /** The inner loop of `roll`: the first candidate with the entry. */
    method Refresh(candidates: seq<Candidate>, r: Resolution) returns (after: seq<Candidate>)
      requires DistinctEntries(candidates)
      ensures after == Refreshed(candidates, r) && DistinctEntries(after)
    {
      after := candidates;
      if r.after.Some? {
        var i := 0;
        while i < |candidates| && candidates[i].entry != r.entry
          invariant i <= |candidates| && forall k :: 0 <= k < i ==> candidates[k].entry != r.entry
        {
          i := i + 1;
        }
        if i < |candidates| {
          after := candidates[i := candidates[i].(remaining := r.after)];
        }
      }
    }

    /** The environment changes rows that are not locked. */
    method Interfere(others: Stock)
      modifies this`stock
      ensures stock == Interfered(old(stock), opening.Keys, others)
    {
      stock := Interfered(stock, opening.Keys, others);
    }

    /** One turn of the loop of `roll`. */
    method RollOne(candidates: seq<Candidate>, choice: Choice, resolutions: seq<Resolution>)
      returns (refreshed: seq<Candidate>, more: seq<Resolution>)
      requires DistinctEntries(candidates)
      modifies this`stock, this`opening
      ensures Box(refreshed, stock, opening, more) ==
              RollOnce(Box(candidates, old(stock), old(opening), resolutions), choice)
      ensures DistinctEntries(refreshed)
    {
      var selected := Select(candidates, choice);
      if selected.None? {
        return candidates, resolutions;
      }
      var reserved := Reserve(selected.value);
      more := resolutions + [reserved];
      refreshed := Refresh(candidates, reserved);
    }

    /** `roll`; `others` is what other transactions commit before each roll. */
    method Roll(loaded: seq<Candidate>, choices: seq<Choice>, others: nat -> Stock)
      returns (resolutions: seq<Resolution>)
      requires DistinctEntries(loaded) && opening == map[]
      modifies this`stock, this`opening
      ensures var end := RollAll(Box(loaded, old(stock), map[], []), choices, others);
              stock == end.stock && opening == end.opening && resolutions == end.resolutions
    {
      var candidates := loaded;
      ghost var start := Box(loaded, stock, map[], []);
      resolutions := [];
      for n := 0 to |choices|
        invariant DistinctEntries(candidates)
        invariant Box(candidates, stock, opening, resolutions) == RollAll(start, choices[..n], others)
      {
        assert choices[..n + 1][..n] == choices[..n];
        Interfere(others(n));
        candidates, resolutions := RollOne(candidates, choices[n], resolutions);
      }
      assert choices[..|choices|] == choices;
    }

    /** `deliver`. */
    method Deliver(r: Resolution, fits: bool) returns (d: Resolution)
      modifies this`inventory, this`overflow
      ensures d == Delivered(r, fits)
      ensures var due := r.status != StockEmpty && r.granted > 0;
              && inventory == (if due && fits then old(inventory)[r.item := Count(old(inventory), r.item) + r.granted]
                               else old(inventory))
              && overflow == old(overflow) +
                   if due && !fits && r.definition.Some? then [Parked(r.definition.value, r.granted)] else []
    {
      if r.status == StockEmpty || r.granted <= 0 {
        return r;
      }
      if fits {
        inventory := inventory[r.item := Count(inventory, r.item) + r.granted];
        return r.(status := Granted);
      }
      if r.definition.None? {
        return r.(status := Failed, granted := 0);
      }
      overflow := overflow + [Parked(r.definition.value, r.granted)];
      return r.(status := Overflowed);
    }

    /** The delivery loop of a lootbox. */
    method DeliverEach(rs: seq<Resolution>, fits: seq<bool>) returns (ds: seq<Resolution>)
      requires |fits| == |rs| && forall r :: r in rs ==> Deliverable(r)
      modifies this`inventory, this`overflow
      ensures ds == DeliveredAll(rs, fits)
      ensures Gained(old(inventory), inventory, ds)
      ensures overflow == old(overflow) + ParkedRows(ds)
    {
      ds := [];
      for n := 0 to |rs|
        invariant ds == DeliveredAll(rs[..n], fits[..n])
        invariant Gained(old(inventory), inventory, ds)
        invariant overflow == old(overflow) + ParkedRows(ds)
      {
        assert rs[n] in rs;
        ghost var before := inventory;
        var d := Deliver(rs[n], fits[n]);
        DeliveredWhere(rs[n], fits[n]);
        GainedMore(old(inventory), before, inventory, ds, d);
        ParkedMore(ds, d);
        DeliveredMore(rs, fits, n);
        ds := ds + [d];
      }
    }

    /** A lootbox: roll, then deliver. What leaves the stock of an entry is in the
      * inventory or parked, unit for unit.
      */
    method OpenLootbox(loaded: seq<Candidate>, choices: seq<Choice>, others: nat -> Stock, fits: seq<bool>)
      returns (ds: seq<Resolution>)
      requires DistinctEntries(loaded) && opening == map[] && |fits| == |choices|
      requires forall c :: c in loaded ==> c.definition.Some?
      modifies this
      ensures forall e :: e in opening ==>
                e in stock && opening[e] == stock[e] + Total(ds, InInventory(e)) + Total(ds, InOverflow(e))
      ensures Gained(old(inventory), inventory, ds)
      ensures overflow == old(overflow) + ParkedRows(ds)
    {
      ghost var start := Box(loaded, stock, map[], []);
      SoundAlways(start, choices, others);
      DeliverableAlways(start, choices, others);
      NoMoreThanRolls(start, choices, others);
      var rs := Roll(loaded, choices, others);
      ds := DeliverEach(rs, fits[..|rs|]);
      forall e | e in opening
        ensures e in stock && opening[e] == stock[e] + Total(ds, InInventory(e)) + Total(ds, InOverflow(e))
      {
        DeliveredExactlyOnce(rs, fits[..|rs|], e);
      }
    }
  }

  lemma {:induction false} NoMoreThanRolls(b: Box, choices: seq<Choice>, others: nat -> Stock)
    ensures |RollAll(b, choices, others).resolutions| <= |b.resolutions| + |choices|
  {
    if choices != [] {
      NoMoreThanRolls(b, choices[..|choices| - 1], others);
    }
  }
}
