/** Player modifiers: `domain/modifier_resolver.py` over the registry of
  * `domain/item_schema.py`. Decimals are real numbers.
  */
module ModifierResolver {
  import opened Options
  import opened Numbers

  datatype Stat =
    | FishLuck | PositiveFishReward | NegativeFishReward | XpGain | Cooldown | ItemDropChance | ItemRarityLuck
    | EmptyCatchReroll | RobberyProtection | RobberyEvasion | ProtectedMass | RobberyAttackChance
    | RobberyAmountBonus | InventorySlots

  datatype Scope = Fishing | Robbery | Inventory | Everywhere
  datatype Operation = Add | Multiply | Override | Min | Max
  datatype Source = Channel | Event | Item | PlayerModifier | Temporary | Other(name: int)

  datatype Contribution = Contribution(
    stat: Stat, op: Operation, value: real, source: Source, sourceKey: int, scope: Scope, priority: int)

  datatype Definition = Definition(minimum: real, maximum: real, scopes: set<Scope>)

  /** `STAT_REGISTRY`. */
  function Registry(stat: Stat): (d: Definition)
    ensures d.minimum < d.maximum && Everywhere !in d.scopes
  {
    match stat
    case FishLuck => Definition(-0.5, 1.0, {Fishing})
    case PositiveFishReward => Definition(-0.5, 2.0, {Fishing})
    case NegativeFishReward => Definition(-1.0, 1.0, {Fishing})
    case XpGain => Definition(-1.0, 4.0, {Fishing})
    case Cooldown => Definition(-0.8, 1.0, {Fishing})
    case ItemDropChance => Definition(-1.0, 1.0, {Fishing})
    case ItemRarityLuck => Definition(-0.95, 10.0, {Fishing})
    case EmptyCatchReroll => Definition(0.0, 1.0, {Fishing})
    case RobberyProtection => Definition(0.0, 1.0, {Robbery})
    case RobberyEvasion => Definition(0.0, 1.0, {Robbery})
    case ProtectedMass => Definition(0.0, 1000000000000.0, {Robbery, Fishing})
    case RobberyAttackChance => Definition(-1.0, 1.0, {Robbery})
    case RobberyAmountBonus => Definition(-0.95, 10.0, {Robbery})
    case InventorySlots => Definition(-100.0, 1000.0, {Inventory})
  }

  const STATS: seq<Stat> := [FishLuck, PositiveFishReward, NegativeFishReward, XpGain, Cooldown, ItemDropChance,
    ItemRarityLuck, EmptyCatchReroll, RobberyProtection, RobberyEvasion, ProtectedMass, RobberyAttackChance,
    RobberyAmountBonus, InventorySlots]

  // ---- validation ----------------------------------------------------------

  datatype Error = SourceNotAllowed | ScopeNotAllowed | NegativeMultiplier | ConflictingBounds(stat: Stat)

  /** `_validate_contribution`, in its order: nothing but the source is checked
    * for a stat that the requested scope does not concern.
    */
  function Validate(c: Contribution, requested: Scope): Option<Error>
  {
    var d := Registry(c.stat);
    if c.source.Other? then Some(SourceNotAllowed)
    else if requested !in d.scopes then None
    else if c.scope !in d.scopes + {Everywhere} then Some(ScopeNotAllowed)
    else if c.op == Multiply && c.value < 0.0 then Some(NegativeMultiplier)
    else None
  }

  predicate AllValid(s: seq<Contribution>, requested: Scope)
  {
    forall c :: c in s ==> Validate(c, requested) == None
  }

  // ---- the sort ------------------------------------------------------------

  /** The strings of a sort key in the order of their spelling. */
  function SourceRank(s: Source): int
  {
    match s
    case Channel => 0 case Event => 1 case Item => 2 case PlayerModifier => 3 case Temporary => 4
    case Other(name) => 5 + (if name < 0 then 0 else name)
  }

  function OperationRank(op: Operation): int
  {
    match op
    case Add => 0 case Max => 1 case Min => 2 case Multiply => 3 case Override => 4
  }

  datatype Key = Key(priority: int, source: int, sourceKey: int)

  function KeyOf(c: Contribution): Key { Key(c.priority, SourceRank(c.source), c.sourceKey) }

  predicate AtMost(a: Key, b: Key)
  {
    a.priority < b.priority || (a.priority == b.priority &&
    (a.source < b.source || (a.source == b.source && a.sourceKey <= b.sourceKey)))
  }

  predicate Precedes(a: Contribution, b: Contribution)
  {
    AtMost(KeyOf(a), KeyOf(b)) && (KeyOf(a) == KeyOf(b) ==> OperationRank(a.op) <= OperationRank(b.op))
  }

  predicate Sorted(s: seq<Contribution>)
  {
    forall i, j :: 0 <= i < j < |s| ==> Precedes(s[i], s[j])
  }

  lemma PrecedesIsAnOrder(a: Contribution, b: Contribution, c: Contribution)
    ensures Precedes(a, b) || Precedes(b, a)
    ensures Precedes(a, b) && Precedes(b, c) ==> Precedes(a, c)
  {
  }

  /** Behind everything that may precede it, as a stable sort does. */
  function Insert(s: seq<Contribution>, c: Contribution): seq<Contribution>
  {
    if s == [] || Precedes(s[|s| - 1], c) then s + [c] else Insert(s[..|s| - 1], c) + [s[|s| - 1]]
  }

  function Sort(s: seq<Contribution>): seq<Contribution>
  {
    if s == [] then [] else Insert(Sort(s[..|s| - 1]), s[|s| - 1])
  }

  lemma {:induction false} InsertAdds(s: seq<Contribution>, c: Contribution)
    ensures multiset(Insert(s, c)) == multiset(s) + multiset{c}
  {
    if s != [] {
      InsertAdds(s[..|s| - 1], c);
      assert s == s[..|s| - 1] + [s[|s| - 1]];
    }
  }

  ghost predicate AllPrecede(s: seq<Contribution>, c: Contribution) { forall x :: x in s ==> Precedes(x, c) }

  lemma SortedMore(s: seq<Contribution>, c: Contribution)
    requires Sorted(s) && AllPrecede(s, c)
    ensures Sorted(s + [c])
  {
  }

  lemma {:induction false} InsertSorts(s: seq<Contribution>, c: Contribution)
    requires Sorted(s)
    ensures Sorted(Insert(s, c))
  {
    if s == [] {
    } else {
      var init, last := s[..|s| - 1], s[|s| - 1];
      if Precedes(last, c) {
        forall x | x in s ensures Precedes(x, c) {
          PrecedesIsAnOrder(x, last, c);
        }
        SortedMore(s, c);
      } else {
        InsertSorts(init, c);
        InsertAdds(init, c);
        PrecedesIsAnOrder(last, c, c);
        forall x | x in Insert(init, c) ensures Precedes(x, last) {
          assert x in multiset(Insert(init, c));
        }
        SortedMore(Insert(init, c), last);
      }
    }
  }

  lemma {:induction false} SortSorts(s: seq<Contribution>)
    ensures multiset(Sort(s)) == multiset(s) && Sorted(Sort(s))
  {
    if s != [] {
      var init, last := s[..|s| - 1], s[|s| - 1];
      SortSorts(init);
      InsertAdds(Sort(init), last);
      InsertSorts(Sort(init), last);
      assert s == init + [last];
    }
  }

  // ---- what the contributions amount to ------------------------------------

  /** Everything but the override. */
  datatype Totals = Totals(additive: real, multiplier: real, minimum: Option<real>, maximum: Option<real>)

  function Also(t: Totals, c: Contribution): Totals
  {
    match c.op
    case Add => t.(additive := t.additive + c.value)
    case Multiply => t.(multiplier := Times(t.multiplier, c.value))
    case Min => t.(minimum := Some(if t.minimum.None? then c.value else Greater(t.minimum.value, c.value)))
    case Max => t.(maximum := Some(if t.maximum.None? then c.value else Lesser(t.maximum.value, c.value)))
    case Override => t
  }

  function Sum(s: seq<Contribution>): Totals
  {
    if s == [] then Totals(0.0, 1.0, None, None) else Also(Sum(s[..|s| - 1]), s[|s| - 1])
  }

  /** The override that wins: the greatest key, the latest of equal ones. */
  function Winner(s: seq<Contribution>): Option<Contribution>
  {
    if s == [] then None else
    var c, before := s[|s| - 1], Winner(s[..|s| - 1]);
    if c.op == Override && (before.None? || AtMost(KeyOf(before.value), KeyOf(c))) then Some(c) else before
  }

  function WinningValue(s: seq<Contribution>): Option<real>
  {
    if Winner(s).None? then None else Some(Winner(s).value.value)
  }

  /** The last override in a list, the way the sorted list is read. */
  function LastOverride(s: seq<Contribution>): Option<Contribution>
  {
    if s == [] then None
    else if s[|s| - 1].op == Override then Some(s[|s| - 1])
    else LastOverride(s[..|s| - 1])
  }

  predicate Conflicting(t: Totals)
  {
    t.minimum.Some? && t.maximum.Some? && t.minimum.value > t.maximum.value
  }

  function Bounded(value: real, t: Totals): real
  {
    var raised := if t.minimum.Some? then Greater(value, t.minimum.value) else value;
    if t.maximum.Some? then Lesser(raised, t.maximum.value) else raised
  }

  function Clamp(value: real, d: Definition): real { Lesser(Greater(value, d.minimum), d.maximum) }

  function Unbounded(base: real, t: Totals, override: Option<real>): real
  {
    if override.Some? then override.value else (base + t.additive) * t.multiplier
  }

  function Value(base: real, t: Totals, override: Option<real>, d: Definition): real
  {
    Clamp(Bounded(Unbounded(base, t, override), t), d)
  }

  predicate Concerns(c: Contribution, requested: Scope, stat: Stat)
  {
    c.stat == stat && c.scope in {requested, Everywhere}
  }

  /** The contributions to one stat in one scope, in their given order. */
  function Relevant(s: seq<Contribution>, requested: Scope, stat: Stat): seq<Contribution>
  {
    if s == [] then [] else
    var before, c := Relevant(s[..|s| - 1], requested, stat), s[|s| - 1];
    if Concerns(c, requested, stat) then before + [c] else before
  }

  lemma {:induction false} RelevantIsFilter(s: seq<Contribution>, requested: Scope, stat: Stat)
    ensures forall c :: c in Relevant(s, requested, stat) <==> c in s && Concerns(c, requested, stat)
  {
    if s != [] {
      RelevantIsFilter(s[..|s| - 1], requested, stat);
      assert s == s[..|s| - 1] + [s[|s| - 1]];
    }
  }

  function BaseOf(base: map<Stat, real>, stat: Stat): real { if stat in base then base[stat] else 0.0 }

  /** A stat with these entries, as a formula that reads them in any order. */
  function ResolvedFrom(entries: seq<Contribution>, base: real, d: Definition): real
  {
    Value(base, Sum(entries), WinningValue(entries), d)
  }

  function Resolved(s: seq<Contribution>, requested: Scope, base: map<Stat, real>, stat: Stat): real
  {
    ResolvedFrom(Relevant(s, requested, stat), BaseOf(base, stat), Registry(stat))
  }

  predicate Fails(s: seq<Contribution>, requested: Scope, stat: Stat)
  {
    Conflicting(Sum(Relevant(s, requested, stat)))
  }

  // ---- the order of the contributions --------------------------------------

  function Without(s: seq<Contribution>, i: nat): (r: seq<Contribution>)
    requires i < |s|
    ensures multiset(r) + multiset{s[i]} == multiset(s)
  {
    assert s == s[..i] + [s[i]] + s[i + 1..];
    s[..i] + s[i + 1..]
  }

  lemma AlsoCommutes(t: Totals, a: Contribution, b: Contribution)
    ensures Also(Also(t, a), b) == Also(Also(t, b), a)
  {
    if a.op == Multiply && b.op == Multiply {
      ProductCommutes(t.multiplier, a.value, b.value);
    }
  }

  lemma ProductCommutes(x: real, a: real, b: real)
    ensures x * a * b == x * b * a
  {
  }

  lemma {:induction false} SumMovesToEnd(s: seq<Contribution>, c: Contribution, t: seq<Contribution>)
    ensures Sum(s + [c] + t) == Also(Sum(s + t), c)
    decreases |t|
  {
    if t == [] {
      assert (s + [c] + t)[..|s|] == s && s + t == s;
    } else {
      var init, last := t[..|t| - 1], t[|t| - 1];
      SumMovesToEnd(s, c, init);
      assert (s + [c] + t)[..|s| + |t|] == s + [c] + init && (s + t)[..|s + t| - 1] == s + init;
      AlsoCommutes(Sum(s + init), c, last);
    }
  }

  lemma {:induction false} SumOfPermutation(s: seq<Contribution>, t: seq<Contribution>)
    requires multiset(s) == multiset(t)
    ensures Sum(s) == Sum(t)
    decreases |s|
  {
    if s == [] {
      assert |multiset(t)| == 0;
    } else {
      var init, c := s[..|s| - 1], s[|s| - 1];
      assert s == init + [c];
      assert c in multiset(t);
      var i :| 0 <= i < |t| && t[i] == c;
      assert t == t[..i] + [c] + t[i + 1..];
      assert multiset(init) + multiset{c} == multiset(Without(t, i)) + multiset{c};
      SameRest(multiset(init), multiset(Without(t, i)), c);
      SumMovesToEnd(t[..i], c, t[i + 1..]);
      SumOfPermutation(init, Without(t, i));
    }
  }

  lemma SameRest(a: multiset<Contribution>, b: multiset<Contribution>, c: Contribution)
    requires a + multiset{c} == b + multiset{c}
    ensures a == b
  {
    assert a == (a + multiset{c}) - multiset{c};
    assert b == (b + multiset{c}) - multiset{c};
  }

  lemma {:induction false} WinnerIsGreatest(s: seq<Contribution>)
    ensures var w := Winner(s);
            && (w.None? ==> forall c :: c in s ==> c.op != Override)
            && (w.Some? ==> w.value in s && w.value.op == Override &&
                            forall c :: c in s && c.op == Override ==> AtMost(KeyOf(c), KeyOf(w.value)))
  {
    if s != [] {
      WinnerIsGreatest(s[..|s| - 1]);
      assert s == s[..|s| - 1] + [s[|s| - 1]];
    }
  }

  lemma {:induction false} LastOverrideOfInsert(s: seq<Contribution>, c: Contribution)
    requires Sorted(s)
    ensures LastOverride(Insert(s, c)) ==
            if c.op == Override && (LastOverride(s).None? || AtMost(KeyOf(LastOverride(s).value), KeyOf(c)))
            then Some(c) else LastOverride(s)
  {
    if s != [] {
      var init, last := s[..|s| - 1], s[|s| - 1];
      if Precedes(last, c) {
        LastOverridePrecedes(s, c);
      } else {
        LastOverrideOfInsert(init, c);
        assert (Insert(init, c) + [last])[..|Insert(init, c)|] == Insert(init, c);
      }
    }
    assert (s + [c])[..|s|] == s;
  }

  lemma {:induction false} LastOverridePrecedes(s: seq<Contribution>, c: Contribution)
    requires Sorted(s) && s != [] && Precedes(s[|s| - 1], c)
    ensures LastOverride(s).Some? ==> LastOverride(s).value.op == Override && Precedes(LastOverride(s).value, c)
  {
    if s[|s| - 1].op != Override && |s| > 1 {
      assert Precedes(s[|s| - 2], s[|s| - 1]);
      LastOverridePrecedes(s[..|s| - 1], c);
    }
  }

  /** Reading the last override of the sorted list picks the winner, also among
    * equal keys.
    */
  lemma {:induction false} SortedPicksWinner(s: seq<Contribution>)
    ensures LastOverride(Sort(s)) == Winner(s)
  {
    if s != [] {
      SortedPicksWinner(s[..|s| - 1]);
      SortSorts(s[..|s| - 1]);
      LastOverrideOfInsert(Sort(s[..|s| - 1]), s[|s| - 1]);
    }
  }

  /** The overrides with the greatest key carry one value. */
  predicate TopAgrees(s: seq<Contribution>)
  {
    Winner(s).Some? ==>
      forall c :: c in s && c.op == Override && KeyOf(c) == KeyOf(Winner(s).value) ==> c.value == Winner(s).value.value
  }

  lemma LastWins(s: seq<Contribution>, i: nat)
    requires i < |s| && s[i].op == Override && Winner(s).Some? && KeyOf(s[i]) == KeyOf(Winner(s).value)
    ensures var moved := Without(s, i) + [s[i]];
            multiset(moved) == multiset(s) && WinningValue(moved) == Some(s[i].value)
  {
    var rest := Without(s, i);
    WinnerIsGreatest(s);
    WinnerIsGreatest(rest);
    assert forall c :: c in rest ==> c in multiset(rest) && c in multiset(s);
    assert (rest + [s[i]])[..|rest|] == rest;
  }

  /** The winning override of a stat's entries does not depend on their order
    * exactly when the overrides with the greatest (priority, source type, source
    * key) carry one value. The totals never depend on it.
    */
  lemma OrderIrrelevantIff(s: seq<Contribution>)
    ensures TopAgrees(s) <==>
            forall t: seq<Contribution> :: multiset(t) == multiset(s) ==> WinningValue(t) == WinningValue(s)
    ensures forall t: seq<Contribution> :: multiset(t) == multiset(s) ==> Sum(t) == Sum(s)
  {
    forall t: seq<Contribution> | multiset(t) == multiset(s) ensures Sum(t) == Sum(s) {
      SumOfPermutation(t, s);
    }
    if TopAgrees(s) {
      forall t: seq<Contribution> | multiset(t) == multiset(s) ensures WinningValue(t) == WinningValue(s) {
        SameWinningValue(s, t);
      }
    } else {
      var c :| c in s && c.op == Override && KeyOf(c) == KeyOf(Winner(s).value) && c.value != Winner(s).value.value;
      var i :| 0 <= i < |s| && s[i] == c;
      LastWins(s, i);
    }
  }

  lemma SameWinningValue(s: seq<Contribution>, t: seq<Contribution>)
    requires multiset(t) == multiset(s) && TopAgrees(s)
    ensures WinningValue(t) == WinningValue(s)
  {
    WinnerIsGreatest(s);
    WinnerIsGreatest(t);
    assert forall c :: c in s <==> c in multiset(s);
    assert forall c :: c in t <==> c in multiset(t);
  }

  // ---- other scopes --------------------------------------------------------

  lemma {:induction false} RelevantOfSum(s: seq<Contribution>, t: seq<Contribution>, requested: Scope, stat: Stat)
    ensures Relevant(s + t, requested, stat) == Relevant(s, requested, stat) + Relevant(t, requested, stat)
    decreases |t|
  {
    if t == [] {
      assert s + t == s;
    } else {
      RelevantOfSum(s, t[..|t| - 1], requested, stat);
      assert (s + t)[..|s + t| - 1] == s + t[..|t| - 1];
    }
  }

  lemma {:induction false} NothingRelevant(s: seq<Contribution>, requested: Scope, stat: Stat)
    requires forall c :: c in s ==> c.scope !in {requested, Everywhere}
    ensures Relevant(s, requested, stat) == []
  {
    if s != [] {
      assert s[|s| - 1] in s;
      NothingRelevant(s[..|s| - 1], requested, stat);
    }
  }

  /** Contributions of another scope that pass validation change nothing. */
  lemma OtherScopesHaveNoEffect(s: seq<Contribution>, others: seq<Contribution>, t: seq<Contribution>,
                                requested: Scope, base: map<Stat, real>, stat: Stat)
    requires forall c :: c in others ==> c.scope !in {requested, Everywhere}
    ensures Resolved(s + others + t, requested, base, stat) == Resolved(s + t, requested, base, stat)
    ensures AllValid(s + others + t, requested) <==> AllValid(s + t, requested) && AllValid(others, requested)
  {
    RelevantOfSum(s + others, t, requested, stat);
    RelevantOfSum(s, others, requested, stat);
    RelevantOfSum(s, t, requested, stat);
    NothingRelevant(others, requested, stat);
    assert Relevant(s + others, requested, stat) == Relevant(s, requested, stat);
    assert forall c :: c in s + others + t <==> c in s + t || c in others;
  }

  // ---- reordering what `resolve` is given ----------------------------------

  lemma RelevantWithout(t: seq<Contribution>, i: nat, requested: Scope, stat: Stat)
    requires i < |t|
    ensures multiset(Relevant(t, requested, stat)) ==
            multiset(Relevant(Without(t, i), requested, stat)) +
            if Concerns(t[i], requested, stat) then multiset{t[i]} else multiset{}
  {
    assert t == t[..i] + [t[i]] + t[i + 1..];
    RelevantOfThree(t[..i], t[i], t[i + 1..], requested, stat);
    RelevantOfSum(t[..i], t[i + 1..], requested, stat);
  }

  lemma {:induction false} RelevantOfPermutation(s: seq<Contribution>, t: seq<Contribution>,
                                                 requested: Scope, stat: Stat)
    requires multiset(s) == multiset(t)
    ensures multiset(Relevant(s, requested, stat)) == multiset(Relevant(t, requested, stat))
    decreases |s|
  {
    if s == [] {
      assert |multiset(t)| == 0;
    } else {
      var last, c := |s| - 1, s[|s| - 1];
      assert c in multiset(t);
      var i :| 0 <= i < |t| && t[i] == c;
      SameRest(multiset(Without(s, last)), multiset(Without(t, i)), c);
      RelevantOfPermutation(Without(s, last), Without(t, i), requested, stat);
      RelevantWithout(s, last, requested, stat);
      RelevantWithout(t, i, requested, stat);
    }
  }

  /** The resolved stat is the same in every order, if the winning overrides
    * agree.
    */
  lemma ResolvedOfPermutation(s: seq<Contribution>, t: seq<Contribution>,
                              requested: Scope, base: map<Stat, real>, stat: Stat)
    requires multiset(s) == multiset(t) && TopAgrees(Relevant(s, requested, stat))
    ensures Resolved(s, requested, base, stat) == Resolved(t, requested, base, stat)
  {
    RelevantOfPermutation(s, t, requested, stat);
    SumOfPermutation(Relevant(s, requested, stat), Relevant(t, requested, stat));
    SameWinningValue(Relevant(s, requested, stat), Relevant(t, requested, stat));
  }

  /** The overrides with the greatest key come to one value once it is bounded
    * and clamped.
    */
  predicate TopComesToOne(entries: seq<Contribution>, d: Definition)
  {
    Winner(entries).Some? ==>
      forall c :: c in entries && c.op == Override && KeyOf(c) == KeyOf(Winner(entries).value) ==>
        Clamp(Bounded(c.value, Sum(entries)), d) == Clamp(Bounded(Winner(entries).value.value, Sum(entries)), d)
  }

  /** The resolved stat is the same in every order of the contributions exactly
    * when those overrides come to one value.
    */
  lemma ResolvedOrderIff(s: seq<Contribution>, requested: Scope, base: map<Stat, real>, stat: Stat)
    ensures TopComesToOne(Relevant(s, requested, stat), Registry(stat)) <==>
            forall t: seq<Contribution> :: multiset(t) == multiset(s) ==>
              Resolved(t, requested, base, stat) == Resolved(s, requested, base, stat)
  {
    var entries := Relevant(s, requested, stat);
    if TopComesToOne(entries, Registry(stat)) {
      forall t: seq<Contribution> | multiset(t) == multiset(s)
        ensures Resolved(t, requested, base, stat) == Resolved(s, requested, base, stat)
      {
        RelevantOfPermutation(s, t, requested, stat);
        SameClampedWinner(entries, Relevant(t, requested, stat), BaseOf(base, stat), Registry(stat));
      }
    } else {
      var c :| c in entries && c.op == Override && KeyOf(c) == KeyOf(Winner(entries).value) &&
               Clamp(Bounded(c.value, Sum(entries)), Registry(stat)) !=
               Clamp(Bounded(Winner(entries).value.value, Sum(entries)), Registry(stat));
      RelevantIsFilter(s, requested, stat);
      var i :| 0 <= i < |s| && s[i] == c;
      MovedLast(s, i, requested, stat);
      var moved := Without(s, i) + [c];
      RelevantOfPermutation(s, moved, requested, stat);
      SumOfPermutation(entries, Relevant(moved, requested, stat));
      assert Resolved(moved, requested, base, stat) != Resolved(s, requested, base, stat);
    }
  }

  lemma SameClampedWinner(s: seq<Contribution>, t: seq<Contribution>, base: real, d: Definition)
    requires multiset(t) == multiset(s) && TopComesToOne(s, d)
    ensures ResolvedFrom(t, base, d) == ResolvedFrom(s, base, d)
  {
    SumOfPermutation(t, s);
    WinnerIsGreatest(s);
    WinnerIsGreatest(t);
    assert forall c :: c in s <==> c in multiset(s);
    assert forall c :: c in t <==> c in multiset(t);
  }

  /** Moved to the end, an override with the greatest key wins. */
  lemma MovedLast(s: seq<Contribution>, i: nat, requested: Scope, stat: Stat)
    requires i < |s| && Concerns(s[i], requested, stat) && s[i].op == Override
    requires Winner(Relevant(s, requested, stat)).Some?
    requires KeyOf(s[i]) == KeyOf(Winner(Relevant(s, requested, stat)).value)
    ensures var moved := Without(s, i) + [s[i]];
            multiset(moved) == multiset(s) && WinningValue(Relevant(moved, requested, stat)) == Some(s[i].value)
  {
    var rest, c := Without(s, i), s[i];
    RelevantIsFilter(s, requested, stat);
    RelevantIsFilter(rest, requested, stat);
    WinnerIsGreatest(Relevant(s, requested, stat));
    WinnerIsGreatest(Relevant(rest, requested, stat));
    assert forall x :: x in rest ==> x in multiset(rest) && x in multiset(s);
    RelevantOfSum(rest, [c], requested, stat);
    RelevantOfOne(c, requested, stat);
    var entries := Relevant(rest, requested, stat);
    assert (entries + [c])[..|entries|] == entries;
  }

  // ---- range, conflicts, monotonicity --------------------------------------

  lemma InRange(s: seq<Contribution>, requested: Scope, base: map<Stat, real>, stat: Stat)
    ensures Registry(stat).minimum <= Resolved(s, requested, base, stat) <= Registry(stat).maximum
  {
  }

  lemma {:induction false} BoundsAreExtremes(s: seq<Contribution>)
    ensures var t := Sum(s);
            && (t.minimum.Some? <==> exists c :: c in s && c.op == Min)
            && (t.minimum.Some? ==> (exists c :: c in s && c.op == Min && c.value == t.minimum.value) &&
                                    forall c :: c in s && c.op == Min ==> c.value <= t.minimum.value)
            && (t.maximum.Some? <==> exists c :: c in s && c.op == Max)
            && (t.maximum.Some? ==> (exists c :: c in s && c.op == Max && c.value == t.maximum.value) &&
                                    forall c :: c in s && c.op == Max ==> t.maximum.value <= c.value)
  {
    if s != [] {
      var init, last := s[..|s| - 1], s[|s| - 1];
      BoundsAreExtremes(init);
      assert s == init + [last];
      assert last in s && forall c :: c in s <==> c in init || c == last;
    }
  }

  /** A conflict: some minimum of the stat exceeds some maximum. */
  lemma ConflictIff(s: seq<Contribution>)
    ensures Conflicting(Sum(s)) <==>
            exists low, high :: low in s && high in s && low.op == Min && high.op == Max && low.value > high.value
  {
    BoundsAreExtremes(s);
  }

  lemma {:induction false} MultiplierIsNonNegative(s: seq<Contribution>)
    requires forall c :: c in s && c.op == Multiply ==> c.value >= 0.0
    ensures Sum(s).multiplier >= 0.0
  {
    if s != [] {
      MultiplierIsNonNegative(s[..|s| - 1]);
      assert s[|s| - 1] in s;
    }
  }

  lemma ValueIsMonotone(a: real, b: real, ta: Totals, tb: Totals, override: Option<real>, d: Definition)
    requires a <= b && ta.additive <= tb.additive && tb == ta.(additive := tb.additive) && ta.multiplier >= 0.0
    ensures Value(a, ta, override, d) <= Value(b, tb, override, d)
  {
    ProductIsMonotone(a + ta.additive, b + tb.additive, ta.multiplier);
    BoundsAreMonotone(Unbounded(a, ta, override), Unbounded(b, tb, override), ta, tb, d);
  }

  lemma ProductIsMonotone(x: real, y: real, factor: real)
    requires x <= y && factor >= 0.0
    ensures x * factor <= y * factor
  {
    assert (y - x) * factor >= 0.0;
    assert y * factor == x * factor + (y - x) * factor;
  }

  lemma BoundsAreMonotone(x: real, y: real, ta: Totals, tb: Totals, d: Definition)
    requires x <= y && ta.minimum == tb.minimum && ta.maximum == tb.maximum
    ensures Clamp(Bounded(x, ta), d) <= Clamp(Bounded(y, tb), d)
  {
  }

  lemma HigherAdd(s: seq<Contribution>, c: Contribution, more: real, t: seq<Contribution>)
    requires c.op == Add && c.value <= more
    ensures var before, after := Sum(s + [c] + t), Sum(s + [c.(value := more)] + t);
            before.additive <= after.additive && after == before.(additive := after.additive)
    ensures Winner(s + [c] + t) == Winner(s + [c.(value := more)] + t)
  {
    SumMovesToEnd(s, c, t);
    SumMovesToEnd(s, c.(value := more), t);
    AddsDoNotWin(s, c, t);
    AddsDoNotWin(s, c.(value := more), t);
  }

  lemma HigherIsMonotone(before: seq<Contribution>, after: seq<Contribution>, a: real, b: real, d: Definition)
    requires Sum(after) == Sum(before).(additive := Sum(after).additive) && Sum(before).additive <= Sum(after).additive
    requires Winner(before) == Winner(after) && Sum(before).multiplier >= 0.0 && a <= b
    ensures ResolvedFrom(before, a, d) <= ResolvedFrom(after, b, d)
  {
    ValueIsMonotone(a, b, Sum(before), Sum(after), WinningValue(before), d);
  }

  lemma RelevantOfThree(s: seq<Contribution>, c: Contribution, t: seq<Contribution>, requested: Scope, stat: Stat)
    ensures Relevant(s + [c] + t, requested, stat) ==
            Relevant(s, requested, stat) + (if Concerns(c, requested, stat) then [c] else []) +
            Relevant(t, requested, stat)
  {
    RelevantOfSum(s + [c], t, requested, stat);
    RelevantOfSum(s, [c], requested, stat);
    RelevantOfOne(c, requested, stat);
  }

  lemma ValidMultiplier(s: seq<Contribution>, requested: Scope, stat: Stat)
    requires requested in Registry(stat).scopes && AllValid(s, requested)
    ensures Sum(Relevant(s, requested, stat)).multiplier >= 0.0
  {
    RelevantIsFilter(s, requested, stat);
    forall c | c in Relevant(s, requested, stat) && c.op == Multiply ensures c.value >= 0.0 {
      assert c in s && Validate(c, requested) == None;
    }
    MultiplierIsNonNegative(Relevant(s, requested, stat));
  }

  /** In a scope of the stat, a higher base or a higher additive value anywhere
    * in the list never lowers the result.
    */
  lemma ResolvedIsMonotone(s: seq<Contribution>, c: Contribution, more: real, t: seq<Contribution>, requested: Scope,
                           base: map<Stat, real>, higher: map<Stat, real>, stat: Stat)
    requires requested in Registry(stat).scopes && AllValid(s + [c] + t, requested)
    requires c.op == Add && c.value <= more && BaseOf(base, stat) <= BaseOf(higher, stat)
    ensures Resolved(s + [c] + t, requested, base, stat) <=
            Resolved(s + [c.(value := more)] + t, requested, higher, stat)
  {
    ValidMultiplier(s + [c] + t, requested, stat);
    RelevantHigher(s, c, more, t, requested, stat);
    HigherIsMonotone(Relevant(s + [c] + t, requested, stat), Relevant(s + [c.(value := more)] + t, requested, stat),
                     BaseOf(base, stat), BaseOf(higher, stat), Registry(stat));
  }

  lemma RelevantHigher(s: seq<Contribution>, c: Contribution, more: real, t: seq<Contribution>,
                       requested: Scope, stat: Stat)
    requires c.op == Add && c.value <= more
    ensures var before := Relevant(s + [c] + t, requested, stat);
            var after := Relevant(s + [c.(value := more)] + t, requested, stat);
            && Sum(before).additive <= Sum(after).additive
            && Sum(after) == Sum(before).(additive := Sum(after).additive)
            && Winner(before) == Winner(after)
  {
    RelevantOfThree(s, c, t, requested, stat);
    RelevantOfThree(s, c.(value := more), t, requested, stat);
    if Concerns(c, requested, stat) {
      HigherAdd(Relevant(s, requested, stat), c, more, Relevant(t, requested, stat));
    }
  }

  lemma RelevantOfOne(c: Contribution, requested: Scope, stat: Stat)
    ensures Relevant([c], requested, stat) == if Concerns(c, requested, stat) then [c] else []
  {
    assert [c][..0] == [];
  }

  lemma {:induction false} AddsDoNotWin(s: seq<Contribution>, c: Contribution, t: seq<Contribution>)
    requires c.op != Override
    ensures Winner(s + [c] + t) == Winner(s + t)
    decreases |t|
  {
    if t == [] {
      assert (s + [c] + t)[..|s|] == s && s + t == s;
    } else {
      AddsDoNotWin(s, c, t[..|t| - 1]);
      assert (s + [c] + t)[..|s| + |t|] == s + [c] + t[..|t| - 1];
      assert (s + t)[..|s + t| - 1] == s + t[..|t| - 1];
    }
  }

  /** The bounds and the registry range leave a single value. */
  predicate Pinned(t: Totals, d: Definition)
  {
    || (t.minimum.Some? && t.minimum.value >= d.maximum)
    || (t.maximum.Some? && t.maximum.value <= d.minimum)
    || (t.minimum.Some? && t.maximum.Some? && t.minimum.value == t.maximum.value)
  }

  /** A higher base never gives a lower value. */
  ghost predicate Rises(t: Totals, override: Option<real>, d: Definition)
  {
    forall a: real, b: real :: a <= b ==> Value(a, t, override, d) <= Value(b, t, override, d)
  }

  /** A stat without a conflict never falls when its base rises exactly when it is
    * overridden, its multiplier is not negative, or it is pinned.
    */
  lemma MonotoneIff(t: Totals, override: Option<real>, d: Definition)
    requires !Conflicting(t) && d.minimum < d.maximum
    ensures Rises(t, override, d) <==> override.Some? || t.multiplier >= 0.0 || Pinned(t, d)
  {
    if override.Some? || t.multiplier >= 0.0 || Pinned(t, d) {
      forall a: real, b: real | a <= b ensures Value(a, t, override, d) <= Value(b, t, override, d) {
        if t.multiplier >= 0.0 {
          ValueIsMonotone(a, b, t, t, override, d);
        } else if override.None? {
          PinnedToOne(Unbounded(a, t, override), Unbounded(b, t, override), t, d);
        }
      }
    } else {
      var a, b := Falls(t, d);
    }
  }

  lemma PinnedToOne(x: real, y: real, t: Totals, d: Definition)
    requires !Conflicting(t) && d.minimum < d.maximum && Pinned(t, d)
    ensures Clamp(Bounded(x, t), d) == Clamp(Bounded(y, t), d)
  {
  }

  /** Two bases, the higher of which gives the lower value. */
  lemma Falls(t: Totals, d: Definition) returns (a: real, b: real)
    requires !Conflicting(t) && d.minimum < d.maximum && t.multiplier < 0.0 && !Pinned(t, d)
    ensures a <= b && Value(a, t, None, d) > Value(b, t, None, d)
  {
    var low := if t.minimum.Some? then Greater(t.minimum.value, d.minimum) else d.minimum;
    var high := if t.maximum.Some? then Lesser(t.maximum.value, d.maximum) else d.maximum;
    a := high / t.multiplier - t.additive;
    b := low / t.multiplier - t.additive;
    Quotient(low, high, t.multiplier);
    assert Unbounded(a, t, None) == high && Unbounded(b, t, None) == low;
  }

  lemma Quotient(low: real, high: real, m: real)
    requires low < high && m < 0.0
    ensures high / m < low / m && (high / m) * m == high && (low / m) * m == low
  {
    var x, y := high / m, low / m;
    assert x * m == high && y * m == low;
    assert (x - y) * m == x * m - y * m;
    NotPositive(x - y, m);
  }

  lemma NotPositive(z: real, m: real)
    requires m < 0.0
    ensures z >= 0.0 ==> z * m <= 0.0
  {
  }

  /** A caller who gives a higher base never gets a lower value. */
  ghost predicate ResolvedRises(s: seq<Contribution>, requested: Scope, stat: Stat)
  {
    forall base: map<Stat, real>, higher: map<Stat, real> :: BaseOf(base, stat) <= BaseOf(higher, stat) ==>
      Resolved(s, requested, base, stat) <= Resolved(s, requested, higher, stat)
  }

  /** The same for a resolved stat in any scope. In a scope of the stat the
    * multipliers are checked, so there it always rises.
    */
  lemma ResolvedMonotoneIff(s: seq<Contribution>, requested: Scope, stat: Stat)
    requires !Fails(s, requested, stat)
    ensures var entries := Relevant(s, requested, stat);
            ResolvedRises(s, requested, stat) <==>
            Winner(entries).Some? || Sum(entries).multiplier >= 0.0 || Pinned(Sum(entries), Registry(stat))
  {
    var entries := Relevant(s, requested, stat);
    MonotoneIff(Sum(entries), WinningValue(entries), Registry(stat));
    EveryBase(s, requested, stat);
  }

  lemma RisesInScope(s: seq<Contribution>, requested: Scope, stat: Stat)
    requires !Fails(s, requested, stat) && requested in Registry(stat).scopes && AllValid(s, requested)
    ensures ResolvedRises(s, requested, stat)
  {
    ValidMultiplier(s, requested, stat);
    ResolvedMonotoneIff(s, requested, stat);
  }

  /** Every number is the base of some caller. */
  lemma EveryBase(s: seq<Contribution>, requested: Scope, stat: Stat)
    ensures var entries := Relevant(s, requested, stat);
            ResolvedRises(s, requested, stat) <==> Rises(Sum(entries), WinningValue(entries), Registry(stat))
  {
    var entries, d := Relevant(s, requested, stat), Registry(stat);
    var t, o := Sum(entries), WinningValue(entries);
    if !Rises(t, o, d) {
      var a: real, b: real :| a <= b && Value(a, t, o, d) > Value(b, t, o, d);
      var base, higher := map[stat := a], map[stat := b];
      assert BaseOf(base, stat) == a && BaseOf(higher, stat) == b;
      assert Resolved(s, requested, base, stat) > Resolved(s, requested, higher, stat);
    }
  }

  /** Outside its scopes multipliers are not checked, so it can fail there. */
  lemma NotMonotoneInOtherScopes()
    ensures exists s: seq<Contribution> ::
              && AllValid(s, Robbery) && Robbery !in Registry(FishLuck).scopes
              && Resolved(s, Robbery, map[FishLuck := 0.1], FishLuck) < Resolved(s, Robbery, map[], FishLuck)
  {
    var c := Contribution(FishLuck, Multiply, -1.0, Item, 0, Everywhere, 0);
    RelevantOfOne(c, Robbery, FishLuck);
    OneMultiplier(c);
    assert Resolved([c], Robbery, map[FishLuck := 0.1], FishLuck) == -0.1;
    assert Resolved([c], Robbery, map[], FishLuck) == 0.0;
    assert AllValid([c], Robbery);
  }

  lemma OneMultiplier(c: Contribution)
    requires c.op == Multiply
    ensures Sum([c]) == Totals(0.0, c.value, None, None) && Winner([c]) == None
  {
    assert [c][..0] == [];
    assert 1.0 * c.value == c.value;
  }

  // ---- a resolved stat from the list as it is given --------------------------

  /** The string of a source type. */
  function Spelling(source: Source): string
    requires !source.Other?
  {
    match source
    case Channel => "channel" case Event => "event" case Item => "item"
    case PlayerModifier => "player_modifier" case Temporary => "temporary"
  }

  /** The order of strings. */
  predicate Before(a: string, b: string)
  {
    if a == "" || b == "" then a == "" && b != ""
    else a[0] < b[0] || (a[0] == b[0] && Before(a[1..], b[1..]))
  }

  /** One override outranks another: by priority, then by the spelling of the
    * source type, then by the source key.
    */
  predicate Outranks(a: Contribution, b: Contribution)
    requires !a.source.Other? && !b.source.Other?
  {
    || a.priority > b.priority
    || (a.priority == b.priority &&
        (Before(Spelling(b.source), Spelling(a.source)) || (a.source == b.source && a.sourceKey > b.sourceKey)))
  }

  predicate SameRank(a: Contribution, b: Contribution)
  {
    a.priority == b.priority && a.source == b.source && a.sourceKey == b.sourceKey
  }

  predicate Matters(c: Contribution, requested: Scope, stat: Stat)
  {
    c.stat == stat && (c.scope == requested || c.scope == Everywhere)
  }

  predicate Overrides(c: Contribution, requested: Scope, stat: Stat) { c.op == Override && Matters(c, requested, stat) }

  predicate NoOtherSource(s: seq<Contribution>) { forall c :: c in s ==> !c.source.Other? }

  /** The i-th contribution is the override that counts: it outranks all others
    * of its stat, or comes later with the same rank.
    */
  predicate Wins(s: seq<Contribution>, requested: Scope, stat: Stat, i: nat)
    requires NoOtherSource(s) && i < |s|
  {
    && Overrides(s[i], requested, stat)
    && forall j :: 0 <= j < |s| && j != i && Overrides(s[j], requested, stat) ==>
         Outranks(s[i], s[j]) || (SameRank(s[i], s[j]) && j < i)
  }

  lemma SpelledInOrder(a: Source, b: Source)
    requires !a.Other? && !b.Other?
    ensures Before(Spelling(a), Spelling(b)) <==> SourceRank(a) < SourceRank(b)
  {
    var x, y := Spelling(a), Spelling(b);
    assert x[0] < y[0] || x[0] > y[0] || a == b;
    SpellingIsNotBeforeItself(x);
  }

  lemma {:induction false} SpellingIsNotBeforeItself(a: string)
    ensures !Before(a, a)
  {
    if a != "" {
      SpellingIsNotBeforeItself(a[1..]);
    }
  }

  lemma OutranksIff(a: Contribution, b: Contribution)
    requires !a.source.Other? && !b.source.Other?
    ensures Outranks(a, b) <==> !AtMost(KeyOf(a), KeyOf(b))
    ensures SameRank(a, b) <==> KeyOf(a) == KeyOf(b)
  {
    SpelledInOrder(a.source, b.source);
    SpelledInOrder(b.source, a.source);
  }

  lemma {:induction false} WinnerAt(s: seq<Contribution>, requested: Scope, stat: Stat, i: nat)
    requires NoOtherSource(s) && i < |s| && Wins(s, requested, stat, i)
    ensures Winner(Relevant(s, requested, stat)) == Some(s[i])
  {
    var init, last := s[..|s| - 1], s[|s| - 1];
    var before := Relevant(init, requested, stat);
    RelevantIsFilter(init, requested, stat);
    WinnerIsGreatest(before);
    assert Concerns(last, requested, stat) ==> (before + [last])[..|before|] == before;
    assert forall j :: 0 <= j < |init| ==> init[j] == s[j];
    if i == |init| {
      if Winner(before).Some? {
        var j :| 0 <= j < |init| && init[j] == Winner(before).value;
        assert Overrides(s[j], requested, stat);
        OutranksIff(last, s[j]);
        OutranksIff(s[j], last);
      }
    } else {
      WinnerAt(init, requested, stat, i);
      if Overrides(last, requested, stat) {
        OutranksIff(s[i], last);
      }
    }
  }

  /** Where there is an override, one of them counts. */
  lemma {:induction false} SomeoneWins(s: seq<Contribution>, requested: Scope, stat: Stat) returns (i: nat)
    requires NoOtherSource(s) && exists c :: c in s && Overrides(c, requested, stat)
    ensures i < |s| && Wins(s, requested, stat, i)
  {
    var init, last := s[..|s| - 1], s[|s| - 1];
    assert s == init + [last];
    if exists c :: c in init && Overrides(c, requested, stat) {
      i := SomeoneWins(init, requested, stat);
      assert forall j :: 0 <= j < |init| ==> init[j] == s[j];
      OutranksIff(init[i], last);
      OutranksIff(last, init[i]);
      if Overrides(last, requested, stat) && !Outranks(init[i], last) {
        WinnerAt(init, requested, stat, i);
        forall j | 0 <= j < |init| && Overrides(s[j], requested, stat)
          ensures Outranks(last, s[j]) || SameRank(last, s[j])
        {
          OutranksIff(init[i], s[j]);
          OutranksIff(last, s[j]);
        }
        i := |init|;
      }
    } else {
      i := |init|;
      assert forall j :: 0 <= j < |init| ==> s[j] in init;
    }
  }

  /** The sum of the additive values of a stat, and the product of its
    * multipliers.
    */
  function AddedUp(s: seq<Contribution>, requested: Scope, stat: Stat): real
  {
    if s == [] then 0.0 else
    var before, c := AddedUp(s[..|s| - 1], requested, stat), s[|s| - 1];
    if c.op == Add && Matters(c, requested, stat) then before + c.value else before
  }

  function Multiplied(s: seq<Contribution>, requested: Scope, stat: Stat): real
  {
    if s == [] then 1.0 else
    var before, c := Multiplied(s[..|s| - 1], requested, stat), s[|s| - 1];
    if c.op == Multiply && Matters(c, requested, stat) then Times(before, c.value) else before
  }

  lemma SumByLast(s: seq<Contribution>, requested: Scope, stat: Stat)
    requires s != []
    ensures var before, c := Sum(Relevant(s[..|s| - 1], requested, stat)), s[|s| - 1];
            Sum(Relevant(s, requested, stat)) == if Matters(c, requested, stat) then Also(before, c) else before
  {
    var before, c := Relevant(s[..|s| - 1], requested, stat), s[|s| - 1];
    assert (before + [c])[..|before|] == before;
  }

  lemma {:induction false} AddedIs(s: seq<Contribution>, requested: Scope, stat: Stat)
    ensures Sum(Relevant(s, requested, stat)).additive == AddedUp(s, requested, stat)
  {
    if s != [] {
      AddedIs(s[..|s| - 1], requested, stat);
      SumByLast(s, requested, stat);
    }
  }

  lemma {:induction false} MultipliedIs(s: seq<Contribution>, requested: Scope, stat: Stat)
    ensures Sum(Relevant(s, requested, stat)).multiplier == Multiplied(s, requested, stat)
  {
    if s != [] {
      MultipliedIs(s[..|s| - 1], requested, stat);
      SumByLast(s, requested, stat);
    }
  }

  /** Raised to the greatest minimum of the stat, if it lies below. */
  ghost predicate Raised(s: seq<Contribution>, requested: Scope, stat: Stat, from: real, to: real)
  {
    && from <= to && (forall c :: c in s && c.op == Min && Matters(c, requested, stat) ==> c.value <= to)
    && (to == from || exists c :: c in s && c.op == Min && Matters(c, requested, stat) && c.value == to)
  }

  /** Lowered to the least maximum of the stat, if it lies above. */
  ghost predicate Lowered(s: seq<Contribution>, requested: Scope, stat: Stat, from: real, to: real)
  {
    && to <= from && (forall c :: c in s && c.op == Max && Matters(c, requested, stat) ==> to <= c.value)
    && (to == from || exists c :: c in s && c.op == Max && Matters(c, requested, stat) && c.value == to)
  }

  /** A value once it is raised, lowered and brought into the registry range. */
  ghost predicate ComesTo(s: seq<Contribution>, requested: Scope, stat: Stat, value: real, end: real)
  {
    exists raised, lowered ::
      Raised(s, requested, stat, value, raised) && Lowered(s, requested, stat, raised, lowered) &&
      end == if lowered < Registry(stat).minimum then Registry(stat).minimum
             else if lowered > Registry(stat).maximum then Registry(stat).maximum else lowered
  }

  /** That is a single value. */
  lemma ComesToOne(s: seq<Contribution>, requested: Scope, stat: Stat, value: real, a: real, b: real)
    requires ComesTo(s, requested, stat, value, a) && ComesTo(s, requested, stat, value, b)
    ensures a == b
  {
    var raised, lowered :| Raised(s, requested, stat, value, raised) && Lowered(s, requested, stat, raised, lowered) &&
      a == if lowered < Registry(stat).minimum then Registry(stat).minimum
           else if lowered > Registry(stat).maximum then Registry(stat).maximum else lowered;
    forall u, x | Raised(s, requested, stat, value, u) && Lowered(s, requested, stat, u, x)
      ensures u == raised && x == lowered
    {
    }
  }

  lemma RaisedBy(s: seq<Contribution>, requested: Scope, stat: Stat, value: real)
    ensures var minimum := Sum(Relevant(s, requested, stat)).minimum;
            Raised(s, requested, stat, value, if minimum.Some? then Greater(value, minimum.value) else value)
  {
    RelevantIsFilter(s, requested, stat);
    BoundsAreExtremes(Relevant(s, requested, stat));
  }

  lemma LoweredBy(s: seq<Contribution>, requested: Scope, stat: Stat, value: real)
    ensures var maximum := Sum(Relevant(s, requested, stat)).maximum;
            Lowered(s, requested, stat, value, if maximum.Some? then Lesser(value, maximum.value) else value)
  {
    RelevantIsFilter(s, requested, stat);
    BoundsAreExtremes(Relevant(s, requested, stat));
  }

  lemma ComesToBy(s: seq<Contribution>, requested: Scope, stat: Stat, value: real, raised: real, lowered: real)
    requires Raised(s, requested, stat, value, raised) && Lowered(s, requested, stat, raised, lowered)
    ensures ComesTo(s, requested, stat, value, Clamp(lowered, Registry(stat)))
  {
  }

  lemma BoundedComesTo(s: seq<Contribution>, requested: Scope, stat: Stat, value: real)
    ensures ComesTo(s, requested, stat, value,
                    Clamp(Bounded(value, Sum(Relevant(s, requested, stat))), Registry(stat)))
  {
    var t := Sum(Relevant(s, requested, stat));
    var raised := if t.minimum.Some? then Greater(value, t.minimum.value) else value;
    RaisedBy(s, requested, stat, value);
    LoweredBy(s, requested, stat, raised);
    ComesToBy(s, requested, stat, value, raised, Bounded(value, t));
  }

  /** The override that counts decides a stat, whatever the base and the other
    * operations say, up to the bounds.
    */
  lemma OverrideDecides(s: seq<Contribution>, requested: Scope, base: map<Stat, real>, stat: Stat, i: nat)
    requires NoOtherSource(s) && i < |s| && Wins(s, requested, stat, i)
    ensures ComesTo(s, requested, stat, s[i].value, Resolved(s, requested, base, stat))
  {
    WinnerAt(s, requested, stat, i);
    BoundedComesTo(s, requested, stat, s[i].value);
  }

  lemma WithoutOverride(base: real, t: Totals, d: Definition, added: real, multiplied: real) returns (total: real)
    requires t.additive == added && t.multiplier == multiplied
    ensures total == (base + added) * multiplied
    ensures Value(base, t, None, d) == Clamp(Bounded(total, t), d)
  {
    total := (base + added) * multiplied;
    assert total == Unbounded(base, t, None);
  }

  lemma NobodyWins(s: seq<Contribution>, requested: Scope, stat: Stat)
    requires forall c :: c in s ==> !Overrides(c, requested, stat)
    ensures Winner(Relevant(s, requested, stat)) == None
  {
    RelevantIsFilter(s, requested, stat);
    WinnerIsGreatest(Relevant(s, requested, stat));
  }

  /** From the totals of the stat, whatever they are. */
  lemma FromTotals(s: seq<Contribution>, requested: Scope, base: map<Stat, real>, stat: Stat, start: real,
                   added: real, multiplied: real) returns (total: real)
    requires start == BaseOf(base, stat) && forall c :: c in s ==> !Overrides(c, requested, stat)
    requires var t := Sum(Relevant(s, requested, stat)); t.additive == added && t.multiplier == multiplied
    ensures total == (start + added) * multiplied
    ensures ComesTo(s, requested, stat, total, Resolved(s, requested, base, stat))
  {
    NobodyWins(s, requested, stat);
    total := WithoutOverride(start, Sum(Relevant(s, requested, stat)), Registry(stat), added, multiplied);
    BoundedComesTo(s, requested, stat, total);
  }

  /** Without an override, a stat is its base with everything added, times
    * everything multiplied, up to the bounds.
    */
  lemma TotalDecides(s: seq<Contribution>, requested: Scope, base: map<Stat, real>, stat: Stat, start: real)
    returns (added: real, multiplied: real, total: real)
    requires start == (if stat in base then base[stat] else 0.0)
    requires forall c :: c in s ==> !Overrides(c, requested, stat)
    ensures added == AddedUp(s, requested, stat) && multiplied == Multiplied(s, requested, stat)
    ensures total == (start + added) * multiplied
    ensures ComesTo(s, requested, stat, total, Resolved(s, requested, base, stat))
  {
    AddedIs(s, requested, stat);
    MultipliedIs(s, requested, stat);
    added, multiplied := AddedUp(s, requested, stat), Multiplied(s, requested, stat);
    total := FromTotals(s, requested, base, stat, start, added, multiplied);
  }

  /** A stat fails exactly when a minimum of it exceeds a maximum of it. */
  lemma FailsIff(s: seq<Contribution>, requested: Scope, stat: Stat)
    ensures Fails(s, requested, stat) <==>
            exists low, high :: && low in s && low.op == Min && Matters(low, requested, stat)
                                && high in s && high.op == Max && Matters(high, requested, stat)
                                && low.value > high.value
  {
    ConflictIff(Relevant(s, requested, stat));
    RelevantIsFilter(s, requested, stat);
  }

  /** The registry ranges: a base alone is left as it is exactly within them. */
  lemma RangeIff(x: real, requested: Scope, stat: Stat)
    ensures Resolved([], requested, map[stat := x], stat) == x <==>
            match stat
            case FishLuck => -0.5 <= x <= 1.0
            case PositiveFishReward => -0.5 <= x <= 2.0
            case NegativeFishReward => -1.0 <= x <= 1.0
            case XpGain => -1.0 <= x <= 4.0
            case Cooldown => -0.8 <= x <= 1.0
            case ItemDropChance => -1.0 <= x <= 1.0
            case ItemRarityLuck => -0.95 <= x <= 10.0
            case EmptyCatchReroll => 0.0 <= x <= 1.0
            case RobberyProtection => 0.0 <= x <= 1.0
            case RobberyEvasion => 0.0 <= x <= 1.0
            case ProtectedMass => 0.0 <= x <= 1_000_000_000_000.0
            case RobberyAttackChance => -1.0 <= x <= 1.0
            case RobberyAmountBonus => -0.95 <= x <= 10.0
            case InventorySlots => -100.0 <= x <= 1000.0
  {
    assert (0.0 + 0.0) * 1.0 == 0.0 && (x + 0.0) * 1.0 == x;
  }

  /** The scopes a stat is resolved in. */
  predicate Home(stat: Stat, scope: Scope)
  {
    match stat
    case RobberyProtection | RobberyEvasion | RobberyAttackChance | RobberyAmountBonus => scope == Robbery
    case ProtectedMass => scope == Robbery || scope == Fishing
    case InventorySlots => scope == Inventory
    case _ => scope == Fishing
  }

  /** What is refused, and for which reason. */
  lemma ValidateIff(c: Contribution, requested: Scope)
    ensures var r, checked := Validate(c, requested), !c.source.Other? && Home(c.stat, requested);
            && (r == Some(SourceNotAllowed) <==> c.source.Other?)
            && (r == Some(ScopeNotAllowed) <==> checked && !Home(c.stat, c.scope) && c.scope != Everywhere)
            && (r == Some(NegativeMultiplier) <==>
                  && checked && (Home(c.stat, c.scope) || c.scope == Everywhere)
                  && c.op == Multiply && c.value < 0.0)
            && (r.None? || r == Some(SourceNotAllowed) || r == Some(ScopeNotAllowed) || r == Some(NegativeMultiplier))
  {
    assert forall scope :: scope in Registry(c.stat).scopes <==> Home(c.stat, scope);
  }

  // ---- the resolver --------------------------------------------------------

  datatype Result = Ok(values: map<Stat, real>) | Failed(error: Error)

  /** The loops over the sorted entries of one stat. */
  method Accumulate(sorted: seq<Contribution>) returns (t: Totals, override: Option<Contribution>)
    ensures t == Sum(sorted) && override == LastOverride(sorted)
  {
    var additive, multiplier := 0.0, 1.0;
    var minimum, maximum := None, None;
    override := None;
    for i := 0 to |sorted|
      invariant Totals(additive, multiplier, minimum, maximum) == Sum(sorted[..i])
      invariant override == LastOverride(sorted[..i])
    {
      var item := sorted[i];
      assert sorted[..i + 1][..i] == sorted[..i];
      match item.op {
        case Add => additive := additive + item.value;
        case Multiply => multiplier := multiplier * item.value;
        case Override => override := Some(item);
        case Min => minimum := Some(if minimum.Some? then Greater(minimum.value, item.value) else item.value);
        case Max => maximum := Some(if maximum.Some? then Lesser(maximum.value, item.value) else item.value);
      }
    }
    assert sorted[..|sorted|] == sorted;
    t := Totals(additive, multiplier, minimum, maximum);
  }

  method Finish(base: real, t: Totals, override: Option<real>, d: Definition) returns (value: Option<real>)
    ensures value == if Conflicting(t) then None else Some(Value(base, t, override, d))
  {
    if t.minimum.Some? && t.maximum.Some? && t.minimum.value > t.maximum.value {
      return None;
    }
    var v := (base + t.additive) * t.multiplier;
    if override.Some? {
      v := override.value;
    }
    assert v == Unbounded(base, t, override);
    if t.minimum.Some? {
      v := Greater(v, t.minimum.value);
    }
    if t.maximum.Some? {
      v := Lesser(v, t.maximum.value);
    }
    assert v == Bounded(Unbounded(base, t, override), t);
    v := Lesser(Greater(v, d.minimum), d.maximum);
    return Some(v);
  }

  /** One stat: sort, accumulate, then bounds and clamp. */
  method ResolveStat(entries: seq<Contribution>, base: real, d: Definition) returns (value: Option<real>)
    ensures value == if Conflicting(Sum(entries)) then None else Some(ResolvedFrom(entries, base, d))
  {
    var sorted := Sort(entries);
    SortSorts(entries);
    SumOfPermutation(sorted, entries);
    SortedPicksWinner(entries);
    var t, override := Accumulate(sorted);
    value := Finish(base, t, if override.Some? then Some(override.value.value) else None, d);
  }

  /** The first loop of `resolve`: validate, then file under the stat. */
  method Group(contributions: seq<Contribution>, requested: Scope)
    returns (error: Option<Error>, grouped: map<Stat, seq<Contribution>>)
    ensures error.None? <==> AllValid(contributions, requested)
    ensures error.None? ==> forall stat :: stat in grouped && grouped[stat] == Relevant(contributions, requested, stat)
    ensures error.Some? ==> exists i :: 0 <= i < |contributions| && AllValid(contributions[..i], requested) &&
                                        Validate(contributions[i], requested) == error
  {
    grouped := map stat | stat in STATS :: [];
    forall stat ensures stat in STATS {
      Listed(stat);
    }
    for i := 0 to |contributions|
      invariant AllValid(contributions[..i], requested)
      invariant forall stat :: stat in grouped && grouped[stat] == Relevant(contributions[..i], requested, stat)
    {
      var c := contributions[i];
      assert contributions[..i + 1] == contributions[..i] + [c] && contributions[..i + 1][..i] == contributions[..i];
      error := Validate(c, requested);
      if error.Some? {
        return;
      }
      if c.scope in {requested, Everywhere} {
        grouped := grouped[c.stat := grouped[c.stat] + [c]];
      }
    }
    assert contributions[..|contributions|] == contributions;
    error := None;
  }

  predicate Entered(values: map<Stat, real>, entries: seq<Contribution>, base: map<Stat, real>, stat: Stat)
  {
    && !Conflicting(Sum(entries))
    && stat in values && values[stat] == ResolvedFrom(entries, BaseOf(base, stat), Registry(stat))
  }

  /** The second loop of `resolve`. */
  method ResolveAll(stats: seq<Stat>, grouped: map<Stat, seq<Contribution>>, base: map<Stat, real>) returns (r: Result)
    requires forall stat :: stat in grouped
    ensures r.Ok? ==> forall stat :: stat in stats ==> Entered(r.values, grouped[stat], base, stat)
    ensures r.Failed? ==> r.error.ConflictingBounds? && Conflicting(Sum(grouped[r.error.stat]))
  {
    var values := map[];
    for n := 0 to |stats|
      invariant forall k :: 0 <= k < n ==> Entered(values, grouped[stats[k]], base, stats[k])
    {
      var stat := stats[n];
      var value := ResolveStat(grouped[stat], BaseOf(base, stat), Registry(stat));
      if value.None? {
        return Failed(ConflictingBounds(stat));
      }
      values := values[stat := value.value];
    }
    return Ok(values);
  }

  lemma SourcesAllowed(s: seq<Contribution>, requested: Scope)
    requires AllValid(s, requested)
    ensures NoOtherSource(s)
  {
    forall c | c in s ensures !c.source.Other? {
      assert Validate(c, requested) == None;
    }
  }

  /** `resolve`: every contribution is validated before any stat is computed. */
  method Resolve(contributions: seq<Contribution>, requested: Scope, base: map<Stat, real>) returns (r: Result)
    ensures r.Ok? <==> AllValid(contributions, requested) && forall stat :: !Fails(contributions, requested, stat)
    ensures r.Ok? ==> forall stat :: stat in r.values &&
                                     r.values[stat] == Resolved(contributions, requested, base, stat)
    ensures r.Ok? ==> NoOtherSource(contributions)
    ensures r.Ok? ==>
              forall i :: 0 <= i < |contributions| && Wins(contributions, requested, contributions[i].stat, i) ==>
                ComesTo(contributions, requested, contributions[i].stat, contributions[i].value,
                        r.values[contributions[i].stat])
    ensures r.Failed? && r.error.ConflictingBounds? ==>
              AllValid(contributions, requested) && Fails(contributions, requested, r.error.stat)
    ensures r.Failed? && !r.error.ConflictingBounds? ==>
              exists i :: 0 <= i < |contributions| && AllValid(contributions[..i], requested) &&
                          Validate(contributions[i], requested) == Some(r.error)
  {
    var error, grouped := Group(contributions, requested);
    if error.Some? {
      return Failed(error.value);
    }
    r := ResolveAll(STATS, grouped, base);
    if r.Ok? {
      forall stat
        ensures stat in r.values && r.values[stat] == Resolved(contributions, requested, base, stat)
        ensures !Fails(contributions, requested, stat)
      {
        Listed(stat);
        assert Entered(r.values, grouped[stat], base, stat);
      }
      SourcesAllowed(contributions, requested);
      forall i | 0 <= i < |contributions| && Wins(contributions, requested, contributions[i].stat, i)
        ensures ComesTo(contributions, requested, contributions[i].stat, contributions[i].value,
                        r.values[contributions[i].stat])
      {
        OverrideDecides(contributions, requested, base, contributions[i].stat, i);
      }
    } else {
      assert Fails(contributions, requested, r.error.stat);
    }
  }

  lemma Listed(stat: Stat)
    ensures stat in STATS
  {
    match stat
    case FishLuck => assert STATS[0] == stat;
    case PositiveFishReward => assert STATS[1] == stat;
    case NegativeFishReward => assert STATS[2] == stat;
    case XpGain => assert STATS[3] == stat;
    case Cooldown => assert STATS[4] == stat;
    case ItemDropChance => assert STATS[5] == stat;
    case ItemRarityLuck => assert STATS[6] == stat;
    case EmptyCatchReroll => assert STATS[7] == stat;
    case RobberyProtection => assert STATS[8] == stat;
    case RobberyEvasion => assert STATS[9] == stat;
    case ProtectedMass => assert STATS[10] == stat;
    case RobberyAttackChance => assert STATS[11] == stat;
    case RobberyAmountBonus => assert STATS[12] == stat;
    case InventorySlots => assert STATS[13] == stat;
  }
}
