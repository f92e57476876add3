/** Exact pricing: `domain/economy.py` and the provider bounds of
  * `integrations/streamelements/constants.py`.
  *
  * Mass is counted in 0.01 kg and a rate in 1/10000 point per kilogram, so a
  * mass times a rate is a number of points in units of 1/SCALE.
  */
module Pricing {
  import opened Numbers

  const SCALE := 1_000_000
  const POINTS_MAX := 2_147_483_647

  /** The price a buyer pays: rounded up. */
  function BuyPoints(mass: nat, rate: nat): nat
  {
    (mass * rate + (SCALE - 1)) / SCALE
  }

  /** The payout a seller gets: rounded down. */
  function SellPoints(mass: nat, rate: nat): nat
  {
    mass * rate / SCALE
  }

  /** Both roundings are off by less than one point, each against the player. */
  lemma RoundingBounds(mass: nat, rate: nat)
    ensures SellPoints(mass, rate) * SCALE <= mass * rate < SellPoints(mass, rate) * SCALE + SCALE
    ensures BuyPoints(mass, rate) * SCALE - SCALE < mass * rate <= BuyPoints(mass, rate) * SCALE
  {
  }

  lemma BuyMonotone(a: nat, b: nat, rate: nat)
    requires a <= b
    ensures BuyPoints(a, rate) <= BuyPoints(b, rate)
    ensures SellPoints(a, rate) <= SellPoints(b, rate)
  {
    RoundingBounds(a, rate);
    RoundingBounds(b, rate);
    assert a * rate <= b * rate by { assert (b - a) * rate >= 0; }
  }

  /** Splitting a purchase never lowers its cost and splitting a sale never
    * raises its payout.
    */
  lemma SplittingNeverPays(a: nat, b: nat, rate: nat)
    ensures BuyPoints(a + b, rate) <= BuyPoints(a, rate) + BuyPoints(b, rate)
    ensures SellPoints(a, rate) + SellPoints(b, rate) <= SellPoints(a + b, rate)
  {
    RoundingBounds(a, rate);
    RoundingBounds(b, rate);
    RoundingBounds(a + b, rate);
    assert (a + b) * rate == a * rate + b * rate;
  }

  // ---- the two searches behind the argument `all` --------------------------

  /** The largest mass up to `limit` whose price the balance covers. */
  function BestBuyMass(balance: nat, rate: nat, limit: int): int
    requires rate > 0
  {
    Min(balance * SCALE / rate, limit)
  }

  function BestSellMass(balance: nat, rate: nat, limit: int): int
    requires rate > 0 && balance <= POINTS_MAX
  {
    Min(limit, (POINTS_MAX - balance) * SCALE / rate)
  }

  lemma FloorDivides(a: nat, d: nat)
    requires d > 0
    ensures a / d * d <= a < (a / d + 1) * d
  {
  }

  lemma ProductGrows(a: nat, b: nat, rate: nat)
    requires a <= b
    ensures a * rate <= b * rate
  {
  }

  lemma AffordableIff(balance: nat, rate: nat, mass: nat)
    requires rate > 0
    ensures BuyPoints(mass, rate) <= balance <==> mass <= balance * SCALE / rate
  {
    var best := balance * SCALE / rate;
    FloorDivides(balance * SCALE, rate);
    RoundingBounds(mass, rate);
    if mass <= best {
      ProductGrows(mass, best, rate);
    } else {
      ProductGrows(best + 1, mass, rate);
    }
  }

  /** A mass is purchasable within a limit exactly when it does not exceed the
    * chosen one, so the choice is the best one.
    */
  lemma BestBuyIsGreatest(balance: nat, rate: nat, limit: int, mass: nat)
    requires rate > 0
    ensures (mass <= limit && BuyPoints(mass, rate) <= balance) <==> mass <= BestBuyMass(balance, rate, limit)
  {
    AffordableIff(balance, rate, mass);
  }

  /** What the sale search returns always fits under the provider cap, and a
    * larger mass is worth more than the headroom before rounding.
    */
  lemma BestSellFits(balance: nat, rate: nat, limit: int, mass: nat)
    requires rate > 0 && balance <= POINTS_MAX
    ensures mass <= BestSellMass(balance, rate, limit) <==>
            mass <= limit && mass * rate <= (POINTS_MAX - balance) * SCALE
    ensures mass <= BestSellMass(balance, rate, limit) ==> balance + SellPoints(mass, rate) <= POINTS_MAX
  {
    var room := POINTS_MAX - balance;
    var best := room * SCALE / rate;
    FloorDivides(room * SCALE, rate);
    RoundingBounds(mass, rate);
    if mass <= best {
      ProductGrows(mass, best, rate);
    } else {
      ProductGrows(best + 1, mass, rate);
    }
  }

  /** `max_buy_mass`: start from the division and step down while too dear. */
  method MaxBuyMass(balance: nat, rate: nat, limit: int) returns (result: int)
    requires rate > 0
    ensures result <= limit
    ensures result > 0 ==> BuyPoints(result, rate) <= balance
    ensures forall m: nat :: result < m <= limit ==> BuyPoints(m, rate) > balance
    ensures limit >= 0 ==> result == BestBuyMass(balance, rate, limit)
  {
    result := Min(balance * SCALE / rate, limit);
    forall m: nat | result < m <= limit ensures BuyPoints(m, rate) > balance {
      AffordableIff(balance, rate, m);
    }
    while result > 0 && BuyPoints(result, rate) > balance
      invariant result <= limit && (limit >= 0 ==> result >= 0)
      invariant forall m: nat :: result < m <= limit ==> BuyPoints(m, rate) > balance
      decreases result
    {
      result := result - 1;
    }
    if limit >= 0 {
      BestBuyIsGreatest(balance, rate, limit, result);
      BestBuyIsGreatest(balance, rate, limit, BestBuyMass(balance, rate, limit));
    }
  }

  /** `max_sell_mass`. */
  method MaxSellMass(balance: nat, rate: nat, limit: nat) returns (result: int)
    requires rate > 0 && balance <= POINTS_MAX
    ensures result == BestSellMass(balance, rate, limit)
  {
    var room := POINTS_MAX - balance;
    var start := Min(limit, room * SCALE / rate);
    result := start;
    while result > 0 && SellPoints(result, rate) > room
      invariant 0 <= result <= start
      invariant forall m: nat :: result < m <= start ==> SellPoints(m, rate) > room
      decreases result
    {
      result := result - 1;
    }
    if result < start {
      BestSellFits(balance, rate, limit, start);
      assert false;
    }
  }

  // ---- quotes: how `sell_fish` and `buy_fish` price an argument ------------

  /** A parsed mass argument: `all` or an exact positive mass. */
  datatype Argument = All | Exact(mass: nat)

  /** A channel's economy settings; rates are never negative. */
  datatype Settings = Settings(buyRate: nat, sellRate: nat, minMass: nat, maxMass: nat)

  datatype Quote =
    | Refused(code: string)
    | OverCap(mass: nat, points: nat)   // rejected, but recorded as a failed operation
    | Priced(mass: nat, points: nat)

  /** `sell_fish` between the locked re-read of the player and the write. */
  function SellQuote(want: Argument, current: nat, s: Settings, balance: nat): (q: Quote)
    requires balance <= POINTS_MAX
    ensures q.Priced? ==>
              && 0 < q.mass <= current && s.minMass <= q.mass <= s.maxMass
              && 0 < q.points == SellPoints(q.mass, s.sellRate)
              && balance + q.points <= POINTS_MAX
    ensures q.OverCap? ==> want.Exact? && q.points + balance > POINTS_MAX
  {
    if current == 0 then Refused("SELL_MASS_EMPTY") else
    if want.All? && s.sellRate == 0 then Refused("ECONOMY_INVALID_MASS") else
    var wanted := if want.All? then BestSellMass(balance, s.sellRate, current) else want.mass;
    var mass := Min(Min(wanted, current), s.maxMass);
    if mass <= 0 && want.All? then Refused("ECONOMY_NO_SELLABLE_MASS") else
    if mass < s.minMass then Refused("ECONOMY_TRANSACTION_TOO_SMALL") else
    if mass <= 0 || s.sellRate == 0 then Refused("ECONOMY_INVALID_MASS") else
    var points := SellPoints(mass, s.sellRate);
    if points == 0 then Refused("ECONOMY_INVALID_MASS") else
    if balance + points <= POINTS_MAX then Priced(mass, points) else
    if want.All? then Refused("ECONOMY_NO_SELLABLE_MASS") else OverCap(mass, points)
  }

  /** `buy_fish` between the locked re-check of the player and the write. */
  function BuyQuote(want: Argument, s: Settings, balance: nat): (q: Quote)
    requires balance <= POINTS_MAX
    ensures q.Priced? ==>
              && 0 < q.mass && s.minMass <= q.mass <= s.maxMass
              && 0 < q.points == BuyPoints(q.mass, s.buyRate)
              && q.points <= balance
    ensures q.OverCap? ==> q.points > POINTS_MAX
  {
    if want.All? && s.buyRate == 0 then Refused("ECONOMY_INVALID_MASS") else
    var mass := if want.All? then BestBuyMass(balance, s.buyRate, s.maxMass) else want.mass;
    if want.All? && mass < s.minMass then Refused("ECONOMY_NO_PURCHASABLE_MASS") else
    if mass <= 0 || s.buyRate == 0 then Refused("ECONOMY_INVALID_MASS") else
    var cost := BuyPoints(mass, s.buyRate);
    PriceIsPositive(mass, s.buyRate);
    if cost > POINTS_MAX then OverCap(mass, cost) else
    if mass < s.minMass then Refused("ECONOMY_TRANSACTION_TOO_SMALL") else
    if mass > s.maxMass then Refused("ECONOMY_TRANSACTION_TOO_LARGE") else
    if balance < cost then Refused("BUY_FAIL_FUNDS") else Priced(mass, cost)
  }

  lemma PriceIsPositive(mass: nat, rate: nat)
    requires mass > 0 && rate > 0
    ensures BuyPoints(mass, rate) > 0
  {
    assert mass * rate >= 1;
  }

  /** `!fishbuy all` never fails for lack of points or for the provider cap: it
    * is priced exactly when one quantum at least the channel minimum is affordable.
    */
  lemma BuyAllIsPricedIff(s: Settings, balance: nat)
    requires balance <= POINTS_MAX
    ensures BuyQuote(All, s, balance).Priced? <==>
            s.buyRate > 0 && exists m: nat :: 0 < m && s.minMass <= m <= s.maxMass && BuyPoints(m, s.buyRate) <= balance
  {
    if s.buyRate > 0 {
      var best := BestBuyMass(balance, s.buyRate, s.maxMass);
      BestBuyIsGreatest(balance, s.buyRate, s.maxMass, best);
      forall m: nat | 0 < m && s.minMass <= m <= s.maxMass && BuyPoints(m, s.buyRate) <= balance
        ensures m <= best
      {
        BestBuyIsGreatest(balance, s.buyRate, s.maxMass, m);
      }
    }
  }

  /** `!fishsell all` is never turned away by the provider cap: when a whole
    * point can be paid for the mass it settles on, it is priced.
    */
  lemma SellAllNeverHitsTheCap(current: nat, s: Settings, balance: nat)
    requires balance <= POINTS_MAX && s.sellRate > 0 && current > 0
    ensures var mass := Min(BestSellMass(balance, s.sellRate, current), s.maxMass);
            SellQuote(All, current, s, balance).Priced? <==>
            mass > 0 && s.minMass <= mass && SellPoints(mass, s.sellRate) > 0
  {
    var mass := Min(BestSellMass(balance, s.sellRate, current), s.maxMass);
    if mass > 0 {
      BestSellFits(balance, s.sellRate, current, mass);
    }
  }

  // ---- the quotes from the request alone -----------------------------------

  /** An exact sale is of what was asked, or of all there is, or of all that the
    * channel lets pass; the whole of it is paid for, or nothing is sold.
    */
  lemma SellExactIff(m: nat, current: nat, s: Settings, balance: nat)
    requires balance <= 2_147_483_647
    ensures var q, mass := SellQuote(Exact(m), current, s, balance), Min(Min(m, current), s.maxMass);
            var worth, room := mass * s.sellRate, (2_147_483_648 - balance) * 1_000_000;
            && (q.Priced? <==> s.minMass <= mass && 1_000_000 <= worth < room)
            && (q.OverCap? <==> s.minMass <= mass && room <= worth)
            && (!q.Refused? ==> q.mass == mass && q.points * 1_000_000 <= worth < (q.points + 1) * 1_000_000)
            && (q.Refused? ==>
                  q.code == if current == 0 then "SELL_MASS_EMPTY"
                            else if mass < s.minMass then "ECONOMY_TRANSACTION_TOO_SMALL"
                            else "ECONOMY_INVALID_MASS")
  {
    var mass := Min(Min(m, current), s.maxMass);
    RoundingBounds(mass, s.sellRate);
  }

  /** A mass that can be sold without passing the cap, before rounding. */
  predicate Sellable(mass: nat, current: nat, s: Settings, balance: nat)
  {
    mass <= current && mass <= s.maxMass && mass * s.sellRate <= (2_147_483_647 - balance) * 1_000_000
  }

  /** `!fishsell all` sells the greatest sellable mass, if that is worth a point
    * and the channel lets so little pass.
    */
  lemma SellAllIff(current: nat, s: Settings, balance: nat)
    requires balance <= 2_147_483_647
    ensures var q := SellQuote(All, current, s, balance);
            && !q.OverCap?
            && (q.Priced? <==>
                  exists m: nat :: Sellable(m, current, s, balance) && s.minMass <= m && m * s.sellRate >= 1_000_000)
            && (q.Priced? ==>
                  && q.points * 1_000_000 <= q.mass * s.sellRate < (q.points + 1) * 1_000_000
                  && Sellable(q.mass, current, s, balance)
                  && forall m: nat :: Sellable(m, current, s, balance) ==> m <= q.mass)
            && (q.Refused? ==>
                  q.code == if current == 0 then "SELL_MASS_EMPTY"
                            else if s.sellRate == 0 then "ECONOMY_INVALID_MASS"
                            else if !exists m: nat :: m > 0 && Sellable(m, current, s, balance)
                            then "ECONOMY_NO_SELLABLE_MASS"
                            else if !exists m: nat :: s.minMass <= m && Sellable(m, current, s, balance)
                            then "ECONOMY_TRANSACTION_TOO_SMALL"
                            else "ECONOMY_INVALID_MASS")
  {
    if s.sellRate > 0 {
      var mass := Min(BestSellMass(balance, s.sellRate, current), s.maxMass);
      RoundingBounds(mass, s.sellRate);
      SellableIff(current, s, balance, mass);
    }
  }

  lemma SellableIff(current: nat, s: Settings, balance: nat, mass: nat)
    requires balance <= POINTS_MAX && s.sellRate > 0
    requires mass == Min(BestSellMass(balance, s.sellRate, current), s.maxMass)
    ensures forall m: nat :: Sellable(m, current, s, balance) <==> m <= mass
    ensures Sellable(mass, current, s, balance)
    ensures forall m: nat :: Sellable(m, current, s, balance) ==> m * s.sellRate <= mass * s.sellRate
  {
    forall m: nat
      ensures Sellable(m, current, s, balance) <==> m <= mass
      ensures m <= mass ==> m * s.sellRate <= mass * s.sellRate
    {
      BestSellFits(balance, s.sellRate, current, m);
      if m <= mass {
        ProductGrows(m, mass, s.sellRate);
      }
    }
    assert Sellable(mass, current, s, balance) <==> mass <= mass;
  }

  /** An exact purchase is of what was asked, or nothing is bought. The cap comes
    * before the limits of the channel, and those before the balance.
    */
  lemma BuyExactIff(m: nat, s: Settings, balance: nat)
    requires balance <= 2_147_483_647
    ensures var q, worth := BuyQuote(Exact(m), s, balance), m * s.buyRate;
            && (q.OverCap? <==> worth > 2_147_483_647 * 1_000_000)
            && (q.Priced? <==> 0 < worth <= balance * 1_000_000 && s.minMass <= m <= s.maxMass)
            && (!q.Refused? ==> q.mass == m && (q.points - 1) * 1_000_000 < worth <= q.points * 1_000_000)
            && (q.Refused? ==>
                  q.code == if worth == 0 then "ECONOMY_INVALID_MASS"
                            else if m < s.minMass then "ECONOMY_TRANSACTION_TOO_SMALL"
                            else if m > s.maxMass then "ECONOMY_TRANSACTION_TOO_LARGE"
                            else "BUY_FAIL_FUNDS")
  {
    RoundingBounds(m, s.buyRate);
    if m > 0 && s.buyRate > 0 {
      PriceIsPositive(m, s.buyRate);
    }
  }

  predicate Affordable(mass: nat, s: Settings, balance: nat)
  {
    mass <= s.maxMass && mass * s.buyRate <= balance * 1_000_000
  }

  /** `!fishbuy all` buys the greatest affordable mass, if the channel lets so
    * little pass.
    */
  lemma BuyAllIff(s: Settings, balance: nat)
    requires balance <= 2_147_483_647
    ensures var q := BuyQuote(All, s, balance);
            && !q.OverCap?
            && (q.Priced? <==> s.buyRate > 0 && exists m: nat :: 0 < m && s.minMass <= m && Affordable(m, s, balance))
            && (q.Priced? ==>
                  && (q.points - 1) * 1_000_000 < q.mass * s.buyRate <= q.points * 1_000_000
                  && Affordable(q.mass, s, balance) && forall m: nat :: Affordable(m, s, balance) ==> m <= q.mass)
            && (q.Refused? ==>
                  q.code == if s.buyRate > 0 && !exists m: nat :: s.minMass <= m && Affordable(m, s, balance)
                            then "ECONOMY_NO_PURCHASABLE_MASS" else "ECONOMY_INVALID_MASS")
  {
    if s.buyRate > 0 {
      var best := BestBuyMass(balance, s.buyRate, s.maxMass);
      RoundingBounds(best, s.buyRate);
      forall m: nat ensures Affordable(m, s, balance) <==> m <= best {
        BestBuyIsGreatest(balance, s.buyRate, s.maxMass, m);
        RoundingBounds(m, s.buyRate);
      }
      assert Affordable(best, s, balance);
    }
  }

  /** The documented examples, at 1000 points per kilogram. */
  lemma DocumentedPrices()
    ensures BestBuyMass(POINTS_MAX, 10_000_000, 99_999_999_900) == 214_748_364
    ensures BuyPoints(214_748_364, 10_000_000) == 2_147_483_640
    ensures BestBuyMass(9, 10_000_000, 100_000) == 0 && BestSellMass(POINTS_MAX, 10_000_000, 100_000) == 0
    ensures BestSellMass(2_147_483_600, 10_000_000, 100_000) == 4 && SellPoints(4, 10_000_000) == 40
  {
  }
}
