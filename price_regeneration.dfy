/**
 * The periodic decay of every item's price multiplier toward 1.0
 * (`regenerate_prices`), run by a background timer independent of trading.
 */
module PriceRegeneration {
  import opened Numeric
  import opened Storage
  import opened Config
  import opened Market

  /** The decay path's ceiling, stricter than the trade path's 4.0. */
  const DECAY_CAP: real := 3.0

  /** The share of the distance to 1.0 removed per tick. */
  const DECAY_RATE: real := 0.1

  /** `LEAST(3.0, m + (1.0 - m) * 0.1)`. */
  function DecayMultiplier(m: real): real {
    Min(DECAY_CAP, m + (1.0 - m) * DECAY_RATE)
  }

  /** The decay step before the cap. */
  function Uncapped(m: real): real {
    m + (1.0 - m) * DECAY_RATE
  }

  /**
   * The decayed multiplier is at most 3.0. When the cap is not hit it moves a
   * tenth of the way toward 1.0 (the distance to 1.0 shrinks to nine tenths)
   * without overshooting; a multiplier of 3.0 or less never hits the cap. The
   * trade path's lower bound 0.1 survives, so the range [0.1, 4.0] decays into
   * [0.1, 3.0].
   */
  lemma DecayStep(m: real)
    ensures DecayMultiplier(m) <= 3.0
    ensures Uncapped(m) <= DECAY_CAP ==> DecayMultiplier(m) - 1.0 == 0.9 * (m - 1.0)
    ensures m <= DECAY_CAP ==> Uncapped(m) <= DECAY_CAP
    ensures m <= 1.0 ==> m <= DecayMultiplier(m) <= 1.0
    ensures 1.0 <= m ==> 1.0 <= DecayMultiplier(m) <= m
    ensures m >= 0.1 ==> DecayMultiplier(m) >= 0.1
    ensures 0.1 <= m <= 4.0 ==> 0.1 <= DecayMultiplier(m) <= 3.0
  {
  }

  /** 1.0 is a fixed point of the decay. */
  lemma DecayFixedPoint()
    ensures DecayMultiplier(1.0) == 1.0
  {
  }

  /** The multiplier after n ticks with no trades in between. */
  function Decayed(m: real, n: nat): real {
    if n == 0 then m else DecayMultiplier(Decayed(m, n - 1))
  }

  function Power(x: real, n: nat): real {
    if n == 0 then 1.0 else x * Power(x, n - 1)
  }

  /**
   * From a multiplier of at most 3.0, n ticks leave the distance to 1.0 at
   * exactly 0.9^n of what it was, with the same sign: the recurrence converges
   * to 1.0 and never crosses it.
   */
  lemma {:induction false} DecayConverges(m: real, n: nat)
    requires m <= DECAY_CAP
    ensures Decayed(m, n) <= DECAY_CAP
    ensures Decayed(m, n) - 1.0 == Power(0.9, n) * (m - 1.0)
  {
    if n > 0 {
      DecayConverges(m, n - 1);
      var prev := Decayed(m, n - 1);
      var p := Power(0.9, n - 1);
      DecayStep(prev);
      assert Decayed(m, n) - 1.0 == 0.9 * (prev - 1.0);
      assert 0.9 * (p * (m - 1.0)) == (0.9 * p) * (m - 1.0);
    }
  }

  /** `ROUND(base_price * multiplier)`. */
  function RoundedSellPrice(basePrice: int, m: real): int {
    RoundHalfEven(basePrice as real * m)
  }

  /** `ROUND(base_price * multiplier * 1.6)`. */
  function RoundedBuyPrice(basePrice: int, m: real): int {
    RoundHalfEven(basePrice as real * m * BUY_MARKUP)
  }

  /**
   * One row after the bulk UPDATE as MySQL evaluates it. A single-table UPDATE
   * assigns its SET columns left to right, and each later expression reads the
   * columns already assigned. `price_multiplier` is assigned first, so the two
   * price expressions, which repeat the decay formula on `price_multiplier`,
   * decay the already-decayed multiplier a second time.
   */
  function DecayedItem(item: MarketItem): MarketItem {
    var m := DecayMultiplier(item.priceMultiplier);
    var priced := DecayMultiplier(m);
    item.(priceMultiplier := m,
          currentSellPrice := RoundedSellPrice(item.basePrice, priced),
          currentBuyPrice := RoundedBuyPrice(item.basePrice, priced))
  }

  /** The prices stored in a row are the rounded products of its own multiplier. */
  predicate RoundedPricesFollow(item: MarketItem) {
    && item.currentSellPrice == RoundedSellPrice(item.basePrice, item.priceMultiplier)
    && item.currentBuyPrice == RoundedBuyPrice(item.basePrice, item.priceMultiplier)
  }

  /** The prices stored in a row are rounded from one further decay of its multiplier. */
  predicate PricedOneTickAhead(item: MarketItem) {
    var next := DecayMultiplier(item.priceMultiplier);
    && item.currentSellPrice == RoundedSellPrice(item.basePrice, next)
    && item.currentBuyPrice == RoundedBuyPrice(item.basePrice, next)
  }

  /** The whole table after the bulk UPDATE as written. */
  function DecayAll(items: map<string, MarketItem>): map<string, MarketItem> {
    map k | k in items :: DecayedItem(items[k])
  }

  /** `regenerate_prices`: rewrites every row of the items table in place. */
  method RegeneratePrices(db: Database)
    modifies db`items
    ensures db.items == DecayAll(old(db.items))
  {
    ghost var original := db.items;
    var pending := db.items.Keys;
    while pending != {}
      invariant pending <= original.Keys
      invariant db.items.Keys == original.Keys
      invariant forall k :: k in original ==>
                  db.items[k] == if k in pending then original[k] else DecayedItem(original[k])
      decreases pending
    {
      var k :| k in pending;
      db.items := db.items[k := DecayedItem(db.items[k])];
      pending := pending - {k};
    }
  }

  /**
   * What the UPDATE as written does to every row: the multiplier becomes the
   * decayed one, the prices are rounded from the multiplier one tick further
   * on, and base price and lifetime counters are untouched. A table within the
   * trade path's range [0.1, 4.0] ends within [0.1, 3.0].
   */
  lemma DecayAllAsWritten(items: map<string, MarketItem>)
    ensures var after := DecayAll(items);
            && after.Keys == items.Keys
            && (forall k :: k in items ==>
                  && after[k].priceMultiplier == DecayMultiplier(items[k].priceMultiplier)
                  && after[k].priceMultiplier <= DECAY_CAP
                  && PricedOneTickAhead(after[k])
                  && after[k].basePrice == items[k].basePrice
                  && after[k].totalSold == items[k].totalSold
                  && after[k].totalBought == items[k].totalBought)
            && (MultipliersInRange(items) ==> MultipliersInRange(after))
  {
    forall k | k in items
      ensures 0.1 <= items[k].priceMultiplier <= 4.0 ==> 0.1 <= DecayAll(items)[k].priceMultiplier <= 3.0
      ensures DecayAll(items)[k].priceMultiplier <= DECAY_CAP
    {
      DecayStep(items[k].priceMultiplier);
    }
  }

  /**
   * One row after the decay as intended: new multiplier, prices rounded from
   * that same multiplier.
   */
  function IntendedDecayedItem(item: MarketItem): MarketItem {
    var m := DecayMultiplier(item.priceMultiplier);
    item.(priceMultiplier := m,
          currentSellPrice := RoundedSellPrice(item.basePrice, m),
          currentBuyPrice := RoundedBuyPrice(item.basePrice, m))
  }

  /** The whole table after the intended decay. */
  function IntendedDecayAll(items: map<string, MarketItem>): map<string, MarketItem> {
    map k | k in items :: IntendedDecayedItem(items[k])
  }

  /**
   * Under the intended decay every row's multiplier is decayed, its prices are
   * rounded from the new multiplier (not the old one), and base price and
   * lifetime counters are untouched. A table within the trade path's range
   * [0.1, 4.0] ends within [0.1, 3.0].
   */
  lemma DecayAllEffect(items: map<string, MarketItem>)
    ensures var after := IntendedDecayAll(items);
            && after.Keys == items.Keys
            && (forall k :: k in items ==>
                  && after[k].priceMultiplier == DecayMultiplier(items[k].priceMultiplier)
                  && after[k].priceMultiplier <= DECAY_CAP
                  && RoundedPricesFollow(after[k])
                  && after[k].basePrice == items[k].basePrice
                  && after[k].totalSold == items[k].totalSold
                  && after[k].totalBought == items[k].totalBought)
            && (MultipliersInRange(items) ==> MultipliersInRange(after))
  {
    forall k | k in items
      ensures 0.1 <= items[k].priceMultiplier <= 4.0 ==> 0.1 <= IntendedDecayAll(items)[k].priceMultiplier <= 3.0
      ensures IntendedDecayAll(items)[k].priceMultiplier <= DECAY_CAP
    {
      DecayStep(items[k].priceMultiplier);
    }
  }

  /**
   * The two agree on the multipliers they store, and on a row already at the
   * neutral multiplier 1.0 they agree entirely.
   */
  lemma DecayAgreesAtBaseline(item: MarketItem)
    ensures DecayedItem(item).priceMultiplier == IntendedDecayedItem(item).priceMultiplier
    ensures item.priceMultiplier == 1.0 ==> DecayedItem(item) == IntendedDecayedItem(item)
  {
    if item.priceMultiplier == 1.0 {
      DecayFixedPoint();
    }
  }

  /**
   * Base price 100 at multiplier 2.0: the UPDATE as written stores 1.9 but
   * prices the row at 181 and 290, the prices of 1.81; the intended decay
   * prices it at 190 and 304. The stored prices no longer follow the stored
   * multiplier.
   */
  lemma DoubleDecayExample()
    ensures var item := MarketItem(100, 200, 320, 7, 3, 2.0);
            && DecayedItem(item) == MarketItem(100, 181, 290, 7, 3, 1.9)
            && IntendedDecayedItem(item) == MarketItem(100, 190, 304, 7, 3, 1.9)
            && !RoundedPricesFollow(DecayedItem(item))
  {
    assert DecayMultiplier(2.0) == 1.9;
    assert DecayMultiplier(1.9) == 1.81;
    assert RoundedSellPrice(100, 1.81) == 181 by {
      assert 100 as real * 1.81 == 181.0;
    }
    assert RoundedBuyPrice(100, 1.81) == 290 by {
      assert 100 as real * 1.81 * BUY_MARKUP == 289.6;
    }
    assert RoundedSellPrice(100, 1.9) == 190 by {
      assert 100 as real * 1.9 == 190.0;
    }
    assert RoundedBuyPrice(100, 1.9) == 304 by {
      assert 100 as real * 1.9 * BUY_MARKUP == 304.0;
    }
  }

  /**
   * The trade path truncates where the decay path rounds: the same product,
   * base price 3 at multiplier 0.5, is priced 1 by the trade path and 2 by the
   * decay path's ROUND.
   */
  lemma TruncateAndRoundDiffer()
    ensures TruncatedSellPrice(3, 0.5) == 1
    ensures RoundedSellPrice(3, 0.5) == 2
  {
  }
}
