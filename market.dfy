/**
 * Market sales (`sell_item`) and the trade-driven repricing that follows each
 * one (`update_market_price`). The three writes of a sale form one
 * transaction; the repricing runs after it has committed and does not undo
 * it when it fails.
 */
module Market {
  import opened Wrappers
  import opened Numeric
  import opened Storage
  import opened Config

  // ---------------------------------------------------------------------------
  // Windowed trade volume
  // ---------------------------------------------------------------------------

  /** The volume queries look back one hour from `now`. */
  const WINDOW_SECONDS: int := 3600

  predicate InWindow(r: TradeRecord, now: int) {
    r.timestamp >= now - WINDOW_SECONDS
  }

  /** A record that the summing query for this item and direction includes. */
  predicate Counted(r: TradeRecord, itemKey: string, transactionType: string, now: int) {
    r.itemKey == itemKey && r.transactionType == transactionType && InWindow(r, now)
  }

  /** `COALESCE(SUM(quantity), 0)` over the counted records. */
  function Volume(trades: seq<TradeRecord>, itemKey: string, transactionType: string, now: int): int
    decreases |trades|
  {
    if trades == [] then 0
    else
      var last := trades[|trades| - 1];
      Volume(trades[..|trades| - 1], itemKey, transactionType, now)
      + (if Counted(last, itemKey, transactionType, now) then last.quantity else 0)
  }

  /** Appending a record adds its quantity to the volume exactly when the query counts it. */
  lemma VolumeAppend(trades: seq<TradeRecord>, r: TradeRecord, itemKey: string, transactionType: string, now: int)
    ensures Volume(trades + [r], itemKey, transactionType, now)
            == Volume(trades, itemKey, transactionType, now) + (if Counted(r, itemKey, transactionType, now) then r.quantity else 0)
  {
    assert (trades + [r])[..|trades|] == trades;
  }

  /** With no counted record the volume is zero. */
  lemma {:induction false} VolumeNoneCounted(trades: seq<TradeRecord>, itemKey: string, transactionType: string, now: int)
    requires forall i :: 0 <= i < |trades| ==> !Counted(trades[i], itemKey, transactionType, now)
    ensures Volume(trades, itemKey, transactionType, now) == 0
  {
    if trades != [] {
      var init := trades[..|trades| - 1];
      assert forall i :: 0 <= i < |init| ==> init[i] == trades[i];
      VolumeNoneCounted(init, itemKey, transactionType, now);
    }
  }

  /** With non-negative quantities the volume is non-negative. */
  lemma {:induction false} VolumeNonNegative(trades: seq<TradeRecord>, itemKey: string, transactionType: string, now: int)
    requires forall i :: 0 <= i < |trades| ==> trades[i].quantity >= 0
    ensures Volume(trades, itemKey, transactionType, now) >= 0
  {
    if trades != [] {
      var init := trades[..|trades| - 1];
      assert forall i :: 0 <= i < |init| ==> init[i] == trades[i];
      VolumeNonNegative(init, itemKey, transactionType, now);
    }
  }

  // ---------------------------------------------------------------------------
  // The price-multiplier recurrence of the trade path
  // ---------------------------------------------------------------------------

  /** Sold over bought volume; 2.0 when only sales happened; 1.0 when neither did. */
  function SupplyDemandRatio(salesVolume: int, buyVolume: int): (ratio: real)
    ensures buyVolume > 0 ==> ratio * buyVolume as real == salesVolume as real
    ensures buyVolume <= 0 && salesVolume > 0 ==> ratio == 2.0
    ensures buyVolume <= 0 && salesVolume <= 0 ==> ratio == 1.0
    ensures 0 <= salesVolume && 0 <= buyVolume ==> 0.0 <= ratio
  {
    if buyVolume > 0 then
      salesVolume as real / buyVolume as real
    else if salesVolume > 0 then 2.0
    else 1.0
  }

  /** The reference lot size: a trade of 64 units has volume factor 1. */
  const REFERENCE_LOT: real := 64.0

  /** `price_change`: a sale pushes down, more under glut; a purchase pushes up, more under scarcity. */
  function PriceChange(transactionType: string, quantity: int, ratio: real): real {
    if transactionType == "SELL" then
      -0.02 * (quantity as real / REFERENCE_LOT) * (1.0 + ratio * 0.5)
    else if transactionType == "BUY" then
      0.02 * (quantity as real / REFERENCE_LOT) * (1.0 + (1.0 / Max(ratio, 0.1)) * 0.5)
    else
      0.0
  }

  /** For a non-negative quantity a sale never raises and a purchase never lowers the multiplier. */
  lemma PriceChangeSign(transactionType: string, quantity: int, ratio: real)
    requires 0 <= quantity
    ensures transactionType == "SELL" && ratio >= 0.0 ==> PriceChange(transactionType, quantity, ratio) <= 0.0
    ensures transactionType == "BUY" ==> PriceChange(transactionType, quantity, ratio) >= 0.0
    ensures transactionType != "SELL" && transactionType != "BUY" ==> PriceChange(transactionType, quantity, ratio) == 0.0
  {
    var v := quantity as real / REFERENCE_LOT;
    assert v >= 0.0;
    if transactionType == "SELL" && ratio >= 0.0 {
      MulNonNegative(0.02 * v, 1.0 + ratio * 0.5);
    } else if transactionType == "BUY" {
      var inv := 1.0 / Max(ratio, 0.1);
      assert inv > 0.0;
      MulNonNegative(0.02 * v, 1.0 + inv * 0.5);
    }
  }

  /** `max(0.1).min(4.0)`. */
  function Clamp(m: real): (r: real)
    ensures 0.1 <= r <= 4.0
    ensures 0.1 <= m <= 4.0 ==> r == m
    ensures m < 0.1 ==> r == 0.1
    ensures m > 4.0 ==> r == 4.0
  {
    Min(Max(m, 0.1), 4.0)
  }

  /** The baseline pull: a thousandth of the distance to 1.0. */
  function Pulled(m: real): real {
    m + (1.0 - m) * 0.001
  }

  /** The pull moves toward 1.0 without overshooting it, and leaves 1.0 fixed. */
  lemma PulledTowardBaseline(m: real)
    ensures m <= 1.0 ==> m <= Pulled(m) <= 1.0
    ensures m >= 1.0 ==> 1.0 <= Pulled(m) <= m
    ensures Pulled(m) - 1.0 == 0.999 * (m - 1.0)
  {
  }

  /** The new multiplier: apply the change, then the pull, then the clamp. */
  function NextMultiplier(m: real, transactionType: string, quantity: int, ratio: real): (r: real)
    ensures 0.1 <= r <= 4.0
  {
    Clamp(Pulled(m + PriceChange(transactionType, quantity, ratio)))
  }

  /** The buy price is the sell basis marked up by 60%. */
  const BUY_MARKUP: real := 1.6

  /** `(base_price * multiplier) as i64`. */
  function TruncatedSellPrice(basePrice: int, m: real): int {
    AsI64(basePrice as real * m)
  }

  /** `(base_price * multiplier * 1.6) as i64`. */
  function TruncatedBuyPrice(basePrice: int, m: real): int {
    AsI64(basePrice as real * m * BUY_MARKUP)
  }

  /** An item's row with a new multiplier and the prices derived from it by truncation. */
  function WithTruncatedPrices(item: MarketItem, m: real): MarketItem {
    item.(priceMultiplier := m,
          currentSellPrice := TruncatedSellPrice(item.basePrice, m),
          currentBuyPrice := TruncatedBuyPrice(item.basePrice, m))
  }

  /** The prices stored in a row are the truncated products of its own multiplier. */
  predicate TruncatedPricesFollow(item: MarketItem) {
    && item.currentSellPrice == TruncatedSellPrice(item.basePrice, item.priceMultiplier)
    && item.currentBuyPrice == TruncatedBuyPrice(item.basePrice, item.priceMultiplier)
  }

  /** The row `update_market_price` writes for the item. */
  function Repriced(items: map<string, MarketItem>, trades: seq<TradeRecord>, itemKey: string,
                    transactionType: string, quantity: int, now: int): MarketItem
    requires itemKey in items
  {
    var item := items[itemKey];
    var ratio := SupplyDemandRatio(Volume(trades, itemKey, "SELL", now), Volume(trades, itemKey, "BUY", now));
    WithTruncatedPrices(item, NextMultiplier(item.priceMultiplier, transactionType, quantity, ratio))
  }

  /**
   * Whatever the previous multiplier, the repriced row's multiplier lies in
   * [0.1, 4.0] and its prices are derived from that same multiplier; base
   * price and lifetime counters are untouched, and with a non-negative base
   * price the new prices are non-negative.
   */
  lemma RepricedIsConsistent(items: map<string, MarketItem>, trades: seq<TradeRecord>, itemKey: string,
                             transactionType: string, quantity: int, now: int)
    requires itemKey in items
    ensures var r := Repriced(items, trades, itemKey, transactionType, quantity, now);
            && 0.1 <= r.priceMultiplier <= 4.0
            && TruncatedPricesFollow(r)
            && r.basePrice == items[itemKey].basePrice
            && r.totalSold == items[itemKey].totalSold
            && r.totalBought == items[itemKey].totalBought
            && (r.basePrice >= 0 ==> r.currentSellPrice >= 0 && r.currentBuyPrice >= 0)
  {
    var item := items[itemKey];
    var ratio := SupplyDemandRatio(Volume(trades, itemKey, "SELL", now), Volume(trades, itemKey, "BUY", now));
    var m := NextMultiplier(item.priceMultiplier, transactionType, quantity, ratio);
    assert Repriced(items, trades, itemKey, transactionType, quantity, now) == WithTruncatedPrices(item, m);
    if item.basePrice >= 0 {
      TruncatedPricesNonNegative(item.basePrice, m);
    }
  }

  /** A non-negative base price at a non-negative multiplier gives non-negative prices. */
  lemma TruncatedPricesNonNegative(basePrice: int, m: real)
    requires 0 <= basePrice && 0.0 <= m
    ensures 0 <= TruncatedSellPrice(basePrice, m) && 0 <= TruncatedBuyPrice(basePrice, m)
  {
    MulNonNegative(basePrice as real, m);
    MulNonNegative(basePrice as real * m, BUY_MARKUP);
  }

  /** Every multiplier in the table lies in the trade path's range [0.1, 4.0]. */
  predicate MultipliersInRange(items: map<string, MarketItem>) {
    forall k :: k in items ==> 0.1 <= items[k].priceMultiplier <= 4.0
  }

  /**
   * `update_market_price`: sums the windowed volumes, adjusts the multiplier
   * step by step and writes the row back. When a storage call fails nothing is
   * written and no price is returned.
   */
  method UpdateMarketPrice(db: Database, itemKey: string, transactionType: string, quantity: int,
                           now: int, storageFails: bool) returns (newSellPrice: Option<int>)
    requires itemKey in db.items
    modifies db`items
    ensures storageFails ==> newSellPrice == None && db.items == old(db.items)
    ensures !storageFails ==>
              && db.items == old(db.items)[itemKey := Repriced(old(db.items), db.trades, itemKey, transactionType, quantity, now)]
              && newSellPrice == Some(db.items[itemKey].currentSellPrice)
  {
    var salesVolume := Volume(db.trades, itemKey, "SELL", now);
    var buyVolume := Volume(db.trades, itemKey, "BUY", now);
    var item := db.items[itemKey];
    var currentMultiplier := item.priceMultiplier;
    var ratio := SupplyDemandRatio(salesVolume, buyVolume);
    var priceChange := PriceChange(transactionType, quantity, ratio);
    currentMultiplier := currentMultiplier + priceChange;
    var baselinePull := (1.0 - currentMultiplier) * 0.001;
    currentMultiplier := currentMultiplier + baselinePull;
    currentMultiplier := Min(Max(currentMultiplier, 0.1), 4.0);
    var sellPrice := TruncatedSellPrice(item.basePrice, currentMultiplier);
    var buyPrice := TruncatedBuyPrice(item.basePrice, currentMultiplier);
    if storageFails {
      return None;
    }
    db.items := db.items[itemKey := item.(currentSellPrice := sellPrice, currentBuyPrice := buyPrice,
                                          priceMultiplier := currentMultiplier)];
    newSellPrice := Some(sellPrice);
  }

  // ---------------------------------------------------------------------------
  // Selling
  // ---------------------------------------------------------------------------

  datatype SellItemRequest = SellItemRequest(itemKey: string, quantity: int)

  /** The response's message, before it is rendered as text. */
  datatype SellMessage =
    | Sold(itemKey: string, quantity: int)  // success, naming the item and quantity
    | ItemNotAvailable                      // no market row for the item key

  datatype SellItemResponse = SellItemResponse(
    success: bool,
    message: SellMessage,
    grossEarned: int,
    transactionFee: int,
    vat: int,
    netEarned: int,
    pricePerUnit: int,
    newWallet: int,
    newBank: int,
    newItemPrice: int)

  const NOT_AVAILABLE: SellItemResponse := SellItemResponse(false, ItemNotAvailable, 0, 0, 0, 0, 0, 0, 0, 0)

  /**
   * The storage call that fails during one sale, if any: loading the rates,
   * looking up the item, opening the transaction, one of its three writes,
   * the commit, the repricing, or the final re-read of the player.
   */
  datatype SellFault =
    | NoFault
    | ConfigLoadFails
    | ItemLookupFails
    | BeginFails
    | WalletUpdateFails
    | TradeInsertFails
    | TotalSoldUpdateFails
    | CommitFails
    | PriceUpdateFails
    | UserRereadFails

  /** A fault that ends the sale before its transaction has committed. */
  predicate FailsBeforeCommit(f: SellFault) {
    f.ConfigLoadFails? || f.ItemLookupFails? || f.BeginFails? || f.WalletUpdateFails?
    || f.TradeInsertFails? || f.TotalSoldUpdateFails? || f.CommitFails?
  }

  /** `UPDATE tb_user SET wallet = wallet + net WHERE player_uuid = ?`: no row matches an unknown player. */
  function CreditWallet(accounts: map<string, Account>, uuid: string, net: int): map<string, Account> {
    if uuid in accounts then accounts[uuid := accounts[uuid].(wallet := accounts[uuid].wallet + net)]
    else accounts
  }

  /** The SELL record the sale logs, with the pre-trade unit price and multiplier. */
  function SellRecord(uuid: string, req: SellItemRequest, item: MarketItem, fees: MarketFees, now: int): TradeRecord {
    TradeRecord(uuid, req.itemKey, "SELL", req.quantity, item.currentSellPrice, fees.grossAmount,
                item.priceMultiplier, now)
  }

  /** The gross of selling `quantity` units at the item's current sell price, with its fee breakdown. */
  function SaleFees(c: ConfigManager, item: MarketItem, quantity: int): MarketFees {
    CalculateMarketFees(c, item.currentSellPrice * quantity)
  }

  /** The tables once the sale's transaction has committed all three writes. */
  function CommitSale(t: Tables, uuid: string, req: SellItemRequest, item: MarketItem, fees: MarketFees,
                      now: int): Tables
    requires req.itemKey in t.items
  {
    var current := t.items[req.itemKey];
    t.(accounts := CreditWallet(t.accounts, uuid, fees.netAmount),
       trades := t.trades + [SellRecord(uuid, req, item, fees, now)],
       items := t.items[req.itemKey := current.(totalSold := current.totalSold + req.quantity)])
  }

  datatype SellOutcome = SellOutcome(tables: Tables, reply: Reply<SellItemResponse>)

  /** `sell_item` for one player at time `now`, with the storage fault that occurs, if any. */
  function Sell(t: Tables, uuid: string, req: SellItemRequest, now: int, fault: SellFault): SellOutcome {
    if fault.ConfigLoadFails? || fault.ItemLookupFails? then SellOutcome(t, InternalError)
    else if req.itemKey !in t.items then SellOutcome(t, Ok(NOT_AVAILABLE))
    else if FailsBeforeCommit(fault) then SellOutcome(t, InternalError)
    else
      var item := t.items[req.itemKey];
      var fees := SaleFees(ConfigOf(t.config), item, req.quantity);
      var committed := CommitSale(t, uuid, req, item, fees, now);
      var priced :=
        if fault.PriceUpdateFails? then committed
        else committed.(items := committed.items[req.itemKey :=
               Repriced(committed.items, committed.trades, req.itemKey, "SELL", req.quantity, now)]);
      var newItemPrice :=
        if fault.PriceUpdateFails? then item.currentSellPrice else priced.items[req.itemKey].currentSellPrice;
      if fault.UserRereadFails? || uuid !in priced.accounts then SellOutcome(priced, InternalError)
      else
        var user := priced.accounts[uuid];
        SellOutcome(priced, Ok(SellItemResponse(
          true, Sold(req.itemKey, req.quantity), fees.grossAmount, fees.transactionFee, fees.vat,
          fees.netAmount, item.currentSellPrice, user.wallet, user.bank, newItemPrice)))
  }

  /**
   * The transaction of `sell_item`: wallet credit, trade-log append and
   * `total_sold` bump applied one by one; a failing write or commit restores
   * the tables saved when the transaction began.
   */
  method SellTransaction(db: Database, uuid: string, req: SellItemRequest, item: MarketItem, fees: MarketFees,
                         now: int, fault: SellFault) returns (committed: bool)
    requires req.itemKey in db.items
    modifies db`accounts, db`items, db`trades
    ensures committed == !(fault.WalletUpdateFails? || fault.TradeInsertFails? || fault.TotalSoldUpdateFails?
                           || fault.CommitFails?)
    ensures committed ==> db.State() == CommitSale(old(db.State()), uuid, req, item, fees, now)
    ensures !committed ==> db.State() == old(db.State())
  {
    var savedAccounts, savedTrades, savedItems := db.accounts, db.trades, db.items;

    if fault.WalletUpdateFails? {
      return false;
    }
    if uuid in db.accounts {
      var user := db.accounts[uuid];
      db.accounts := db.accounts[uuid := user.(wallet := user.wallet + fees.netAmount)];
    }

    if fault.TradeInsertFails? {
      db.accounts := savedAccounts;
      return false;
    }
    db.trades := db.trades + [TradeRecord(uuid, req.itemKey, "SELL", req.quantity, item.currentSellPrice,
                                          fees.grossAmount, item.priceMultiplier, now)];

    if fault.TotalSoldUpdateFails? {
      db.accounts, db.trades := savedAccounts, savedTrades;
      return false;
    }
    var row := db.items[req.itemKey];
    db.items := db.items[req.itemKey := row.(totalSold := row.totalSold + req.quantity)];

    if fault.CommitFails? {
      db.accounts, db.trades, db.items := savedAccounts, savedTrades, savedItems;
      return false;
    }
    committed := true;
  }

  /** The request handler: read the rates and the item, run the transaction, reprice, re-read the player. */
  method SellItem(db: Database, uuid: string, req: SellItemRequest, now: int, fault: SellFault)
    returns (reply: Reply<SellItemResponse>)
    modifies db`accounts, db`items, db`trades
    ensures SellOutcome(db.State(), reply) == Sell(old(db.State()), uuid, req, now, fault)
  {
    if fault.ConfigLoadFails? {
      return InternalError;
    }
    var config := LoadFromDb(db.configRows);
    if fault.ItemLookupFails? {
      return InternalError;
    }
    if req.itemKey !in db.items {
      return Ok(NOT_AVAILABLE);
    }
    var marketItem := db.items[req.itemKey];
    var pricePerUnit := marketItem.currentSellPrice;
    var grossEarned := pricePerUnit * req.quantity;
    var fees := CalculateMarketFees(config, grossEarned);
    assert fees == SaleFees(ConfigOf(db.configRows), marketItem, req.quantity);
    if fault.BeginFails? {
      return InternalError;
    }
    var committed := SellTransaction(db, uuid, req, marketItem, fees, now, fault);
    if !committed {
      return InternalError;
    }
    // the repricing runs after the commit, outside the transaction
    var updated := UpdateMarketPrice(db, req.itemKey, "SELL", req.quantity, now, fault.PriceUpdateFails?);
    var newPrice := updated.GetOr(pricePerUnit);

    if fault.UserRereadFails? || uuid !in db.accounts {
      return InternalError;
    }
    var user := db.accounts[uuid];
    reply := Ok(SellItemResponse(true, Sold(req.itemKey, req.quantity), fees.grossAmount, fees.transactionFee,
                                 fees.vat, fees.netAmount, pricePerUnit, user.wallet, user.bank, newPrice));
  }

  // ---------------------------------------------------------------------------
  // What a sale does
  // ---------------------------------------------------------------------------

  /** A missing item is declined with every numeric field zero and nothing written. */
  lemma SellMissingItem(t: Tables, uuid: string, req: SellItemRequest, now: int, fault: SellFault)
    requires req.itemKey !in t.items
    requires !fault.ConfigLoadFails? && !fault.ItemLookupFails?
    ensures Sell(t, uuid, req, now, fault) == SellOutcome(t, Ok(NOT_AVAILABLE))
  {
  }

  /** All or nothing: a fault before the commit leaves every table exactly as it was. */
  lemma SellAllOrNothing(t: Tables, uuid: string, req: SellItemRequest, now: int, fault: SellFault)
    requires FailsBeforeCommit(fault)
    ensures Sell(t, uuid, req, now, fault).tables == t
    ensures Sell(t, uuid, req, now, fault).reply.InternalError? || req.itemKey !in t.items
  {
  }

  /**
   * Once committed, the sale has made all three writes: the player's wallet (if
   * the player exists) gains exactly the net and the bank is untouched, one SELL
   * record with the quantity, pre-trade unit price, gross and pre-trade
   * multiplier is appended, and `total_sold` grows by the quantity. No other
   * account or item changes, and the item keeps its base price and purchase count.
   */
  lemma SellCommitsThreeWrites(t: Tables, uuid: string, req: SellItemRequest, now: int, fault: SellFault)
    requires req.itemKey in t.items
    requires !FailsBeforeCommit(fault)
    ensures var out := Sell(t, uuid, req, now, fault).tables;
            var item := t.items[req.itemKey];
            var fees := SaleFees(ConfigOf(t.config), item, req.quantity);
            && out.config == t.config
            && out.accounts.Keys == t.accounts.Keys
            && (forall k :: k in t.accounts && k != uuid ==> out.accounts[k] == t.accounts[k])
            && (uuid in t.accounts ==>
                  out.accounts[uuid] == t.accounts[uuid].(wallet := t.accounts[uuid].wallet + fees.netAmount))
            && out.trades == t.trades + [TradeRecord(uuid, req.itemKey, "SELL", req.quantity, item.currentSellPrice,
                                                     item.currentSellPrice * req.quantity, item.priceMultiplier, now)]
            && out.items.Keys == t.items.Keys
            && (forall k :: k in t.items && k != req.itemKey ==> out.items[k] == t.items[k])
            && out.items[req.itemKey].totalSold == item.totalSold + req.quantity
            && out.items[req.itemKey].basePrice == item.basePrice
            && out.items[req.itemKey].totalBought == item.totalBought
  {
    var item := t.items[req.itemKey];
    var fees := SaleFees(ConfigOf(t.config), item, req.quantity);
    var committed := CommitSale(t, uuid, req, item, fees, now);
    RepricedIsConsistent(committed.items, committed.trades, req.itemKey, "SELL", req.quantity, now);
  }

  /**
   * The reply of a completed sale: gross is unit price times quantity, the
   * breakdown is the market-fee rule applied to it, and the balances are the
   * re-read ones, the wallet up by the net and the bank unchanged.
   */
  lemma SellReply(t: Tables, uuid: string, req: SellItemRequest, now: int, fault: SellFault)
    requires req.itemKey in t.items && uuid in t.accounts
    requires fault.NoFault? || fault.PriceUpdateFails?
    ensures var out := Sell(t, uuid, req, now, fault);
            var item := t.items[req.itemKey];
            var fees := CalculateMarketFees(ConfigOf(t.config), item.currentSellPrice * req.quantity);
            && out.reply.Ok?
            && out.reply.body.success
            && out.reply.body.grossEarned == item.currentSellPrice * req.quantity
            && out.reply.body.transactionFee == fees.transactionFee
            && out.reply.body.vat == fees.vat
            && out.reply.body.netEarned == fees.netAmount
            && out.reply.body.transactionFee + out.reply.body.vat + out.reply.body.netEarned
               == out.reply.body.grossEarned
            && out.reply.body.pricePerUnit == item.currentSellPrice
            && out.reply.body.newWallet == t.accounts[uuid].wallet + fees.netAmount
            && out.reply.body.newBank == t.accounts[uuid].bank
  {
  }

  /**
   * Without a fault the sold item is repriced from the tables as committed, so
   * the new SELL record is already in the window; its multiplier ends in
   * [0.1, 4.0], its prices follow it, and the reply carries the new sell price.
   */
  lemma SellReprices(t: Tables, uuid: string, req: SellItemRequest, now: int)
    requires req.itemKey in t.items
    ensures var out := Sell(t, uuid, req, now, NoFault);
            var item := t.items[req.itemKey];
            var committed := CommitSale(t, uuid, req, item, SaleFees(ConfigOf(t.config), item, req.quantity), now);
            var after := out.tables.items[req.itemKey];
            && after == Repriced(committed.items, committed.trades, req.itemKey, "SELL", req.quantity, now)
            && 0.1 <= after.priceMultiplier <= 4.0
            && TruncatedPricesFollow(after)
            && (out.reply.Ok? ==> out.reply.body.newItemPrice == after.currentSellPrice)
  {
    var item := t.items[req.itemKey];
    var committed := CommitSale(t, uuid, req, item, SaleFees(ConfigOf(t.config), item, req.quantity), now);
    RepricedIsConsistent(committed.items, committed.trades, req.itemKey, "SELL", req.quantity, now);
  }

  /**
   * A failed repricing does not undo the committed sale: the item keeps its
   * multiplier and prices, and the reply falls back to the pre-trade unit price.
   */
  lemma SellPriceFallback(t: Tables, uuid: string, req: SellItemRequest, now: int)
    requires req.itemKey in t.items
    ensures var out := Sell(t, uuid, req, now, PriceUpdateFails);
            var item := t.items[req.itemKey];
            && out.tables.items[req.itemKey] == item.(totalSold := item.totalSold + req.quantity)
            && |out.tables.trades| == |t.trades| + 1
            && (out.reply.Ok? ==> out.reply.body.newItemPrice == item.currentSellPrice)
  {
  }

  /** Every sale keeps all multipliers within [0.1, 4.0]. */
  lemma SellKeepsMultipliersInRange(t: Tables, uuid: string, req: SellItemRequest, now: int, fault: SellFault)
    requires MultipliersInRange(t.items)
    ensures MultipliersInRange(Sell(t, uuid, req, now, fault).tables.items)
  {
    if req.itemKey in t.items && !FailsBeforeCommit(fault) {
      SellCommitsThreeWrites(t, uuid, req, now, fault);
      if fault.NoFault? {
        SellReprices(t, uuid, req, now);
      }
    }
  }

  /**
   * Because the SELL record is committed before the volumes are read, the
   * first sale of an item in the window (no counted SELL or BUY before it)
   * of a positive quantity sees a supply/demand ratio of 2.0, not 1.0.
   */
  lemma {:induction false} FirstSaleSeesRatioTwo(t: Tables, uuid: string, req: SellItemRequest, now: int)
    requires req.itemKey in t.items
    requires req.quantity > 0
    requires forall i :: 0 <= i < |t.trades| ==>
               !Counted(t.trades[i], req.itemKey, "SELL", now) && !Counted(t.trades[i], req.itemKey, "BUY", now)
    ensures var item := t.items[req.itemKey];
            Sell(t, uuid, req, now, NoFault).tables.items[req.itemKey].priceMultiplier
            == NextMultiplier(item.priceMultiplier, "SELL", req.quantity, 2.0)
  {
    var item := t.items[req.itemKey];
    var fees := SaleFees(ConfigOf(t.config), item, req.quantity);
    var r := SellRecord(uuid, req, item, fees, now);
    VolumeNoneCounted(t.trades, req.itemKey, "SELL", now);
    VolumeNoneCounted(t.trades, req.itemKey, "BUY", now);
    VolumeAppend(t.trades, r, req.itemKey, "SELL", now);
    VolumeAppend(t.trades, r, req.itemKey, "BUY", now);
    assert SupplyDemandRatio(Volume(t.trades + [r], req.itemKey, "SELL", now),
                             Volume(t.trades + [r], req.itemKey, "BUY", now)) == 2.0;
  }

  /**
   * A worked sale: base price 100 at multiplier 1.0, 64 units, nothing traded in
   * the last hour. The ratio is 2.0, the change -0.04, the pull +0.00004, so the
   * multiplier becomes 0.96004 and the prices 96 and 153 (truncated).
   */
  lemma FirstSaleExample()
    ensures var t := Tables(map["p" := Account(0, 0, 1)], map["ore" := MarketItem(100, 100, 160, 0, 0, 1.0)], [], []);
            var out := Sell(t, "p", SellItemRequest("ore", 64), 7200, NoFault);
            && out.tables.items["ore"] == MarketItem(100, 96, 153, 64, 0, 0.96004)
            && out.reply == Ok(SellItemResponse(true, Sold("ore", 64), 6400, 128, 2132, 4140, 100, 4140, 0, 96))
  {
    var t := Tables(map["p" := Account(0, 0, 1)], map["ore" := MarketItem(100, 100, 160, 0, 0, 1.0)], [], []);
    var req := SellItemRequest("ore", 64);
    DefaultsInUnitRange();
    assert AsI64(6400.0 * 0.02) == 128;
    assert AsI64(6272.0 * 0.34) == 2132;
    var fees := SaleFees(ConfigOf([]), t.items["ore"], 64);
    assert fees == MarketFees(6400, 128, 2132, 4140);
    FirstSaleSeesRatioTwo(t, "p", req, 7200);
    assert NextMultiplier(1.0, "SELL", 64, 2.0) == 0.96004;
    assert TruncatedSellPrice(100, 0.96004) == 96;
    assert TruncatedBuyPrice(100, 0.96004) == 153;
  }

  /**
   * There is no check on the quantity: a sale of zero units commits a SELL
   * record and is reported as a success with zero earnings.
   */
  lemma ZeroQuantitySaleCommits(t: Tables, uuid: string, itemKey: string, now: int)
    requires itemKey in t.items && uuid in t.accounts
    ensures var out := Sell(t, uuid, SellItemRequest(itemKey, 0), now, NoFault);
            && |out.tables.trades| == |t.trades| + 1
            && out.reply.Ok? && out.reply.body.success
            && out.reply.body.grossEarned == 0 && out.reply.body.netEarned == 0
  {
  }

  /**
   * Selling on behalf of an unknown player credits no wallet, yet the trade
   * record and the `total_sold` bump commit; only the final re-read fails.
   */
  lemma UnknownPlayerSaleCommits(t: Tables, uuid: string, req: SellItemRequest, now: int)
    requires req.itemKey in t.items && uuid !in t.accounts
    ensures var out := Sell(t, uuid, req, now, NoFault);
            && out.reply.InternalError?
            && out.tables.accounts == t.accounts
            && |out.tables.trades| == |t.trades| + 1
            && out.tables.items[req.itemKey].totalSold == t.items[req.itemKey].totalSold + req.quantity
  {
  }

  /**
   * A sale keeps every balance non-negative when the quantity and the unit
   * price are non-negative, the gross fits in i64 and every rate is in [0, 1]:
   * the wallet is credited a non-negative net and no other balance is written.
   */
  lemma SellKeepsBalancesNonNegative(t: Tables, uuid: string, req: SellItemRequest, now: int, fault: SellFault)
    requires BalancesNonNegative(t.accounts)
    requires 0 <= req.quantity
    requires req.itemKey in t.items ==> 0 <= t.items[req.itemKey].currentSellPrice
    requires req.itemKey in t.items ==> t.items[req.itemKey].currentSellPrice * req.quantity <= I64_MAX
    requires RatesInUnitRange(ConfigOf(t.config))
    ensures BalancesNonNegative(Sell(t, uuid, req, now, fault).tables.accounts)
  {
    if req.itemKey in t.items && !FailsBeforeCommit(fault) {
      var item := t.items[req.itemKey];
      MulNonNegative(item.currentSellPrice as real, req.quantity as real);
      MarketFeesNonNegative(ConfigOf(t.config), item.currentSellPrice * req.quantity);
      SellCommitsThreeWrites(t, uuid, req, now, fault);
    }
  }

  /**
   * There is no check on the quantity's sign either: with the default rates,
   * selling -10 units at price 100 from an empty wallet commits, leaves the
   * wallet at -647 and `total_sold` at -10, and is reported as a success.
   */
  lemma NegativeQuantitySale()
    ensures var t := Tables(map["p" := Account(0, 0, 1)],
                            map["ore" := MarketItem(100, 100, 160, 0, 0, 1.0)], [], []);
            var out := Sell(t, "p", SellItemRequest("ore", -10), 0, NoFault);
            && out.tables.accounts["p"].wallet == -647
            && out.tables.items["ore"].totalSold == -10
            && out.reply.Ok? && out.reply.body.success
            && out.reply.body.netEarned == -647
  {
    var t := Tables(map["p" := Account(0, 0, 1)],
                    map["ore" := MarketItem(100, 100, 160, 0, 0, 1.0)], [], []);
    var req := SellItemRequest("ore", -10);
    DefaultsInUnitRange();
    assert ApplyRate(-1000, 0.02) == -20;
    assert ApplyRate(-980, 0.34) == -333;
    assert SaleFees(ConfigOf(t.config), t.items["ore"], -10).netAmount == -647;
    SellCommitsThreeWrites(t, "p", req, 0, NoFault);
  }
}
