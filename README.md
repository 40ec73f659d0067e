# Economic core of the moji game backend, in Dafny

This project models the economic core of a multiplayer game backend. Each
player has two cash stores, a wallet and a bank. Moving money between them
costs a fee. Players sell commodities on a market whose prices follow recent
trade volume and decay toward a neutral multiplier of 1.0 every three hours.

The model has four parts, one module per source file, plus shared modules:

- `Config` (`src/api/config.rs`): the parameter snapshot `ConfigManager`.
  Its loading loop fills a key/value map from `tb_config` rows, and absent
  keys fall back to hard-coded defaults. It also holds the transfer-fee rule
  and the market-fee breakdown (transaction fee, then VAT on the remainder,
  then net).
- `User` (`src/api/user.rs`): the two guarded UPDATEs that move money
  (`wallet_to_bank_with_fee`, `bank_to_wallet_with_fee`). Each is one atomic
  step on the accounts table, a `map<string, Account>`. The module also holds
  the `transfer_money` handler: direction dispatch, failure classification
  and the re-read of the balances.
- `Market` (`src/api/market.rs`): `sell_item`. Its three writes (wallet
  credit, trade-log append, `total_sold` bump) form one transaction that
  rolls back on any failure. `update_market_price` then runs: windowed
  volumes, supply/demand ratio, signed change, pull toward 1.0, clamp to
  [0.1, 4.0], and truncated derived prices.
- `PriceRegeneration` (`src/services/price_regeneration.rs`):
  `regenerate_prices` decays every item's multiplier in place to
  `min(3.0, m + (1 - m) * 0.1)`. Its derived prices are rounded from the
  multiplier decayed once more, because MySQL evaluates the SET assignments
  left to right (see "## Findings").
- `Storage` holds the table rows and the `Database` class whose fields the
  operations update. `Numeric` holds exact-real versions of Rust's
  `f64 as i64` cast (truncate toward zero, saturate at the i64 bounds),
  `f64::max`/`min` and MySQL `ROUND`. `Wrappers` holds `Option` and `Reply`
  (a body, or an internal error).

Each state-changing operation is a module-level method that updates a
`Database` in place, written step by step as the source does it. Its `ensures` ties the new tables and the reply
to a pure function (`GuardedTransfer`, `Transfer`, `Sell`, `Repriced`,
`DecayAll`). The lemmas next to those functions state what the source
promises.

Storage failures during a sale are an input: a `SellFault` names the one
storage call that fails, if any. The clock is an input too: `now`, in
seconds, is both the insert time of the trade record and the end of the
one-hour volume window.

Where a reader might expect something other than what the code does, the
model follows the code:

- A reader might expect a sale of 0 units, or of a negative number of units,
  to be rejected. The code has no check on the quantity's sign or size. A
  0-unit sale is accepted and logged (`Market.ZeroQuantitySaleCommits`). A
  negative sale commits too: it debits the wallet by a negative net and lowers
  `total_sold`. With the default rates, selling -10 units at price 100 from an
  empty wallet leaves the wallet at -647 (`Market.NegativeQuantitySale`). So
  balances stay non-negative across a sale only for non-negative quantities
  (`Market.SellKeepsBalancesNonNegative`).
- A reader might expect a negative transfer to be rejected. `transfer_money`
  has no check on the amount's sign, so a wallet-to-bank transfer of -100 from
  an empty account passes the guard with a fee of -10. It leaves the wallet at
  110 and the bank at -100 (`User.NegativeTransfer`). Balances stay
  non-negative across a transfer only for non-negative amounts
  (`User.TransferKeepsBalancesNonNegative`).
- A reader might expect the first sale of an item in the window to see a
  neutral ratio of 1.0. The SELL record commits before the volumes are read,
  so that sale sees a ratio of 2.0 (`Market.FirstSaleSeesRatioTwo`,
  `Market.FirstSaleExample`).
- A reader might expect both price paths to round. The trade path truncates
  derived prices, while the decay path rounds them
  (`PriceRegeneration.TruncateAndRoundDiffer`).
- The transfer guard tests `is_bank_open = 1`, but the failure classifier
  tests `== 0`. A flag of 2 is refused by the guard and then reported as
  insufficient funds (`User.BankFlagReadTwoWays`).
- Selling for an unknown player credits no wallet: the UPDATE matches no row
  and raises no error. The trade record and the `total_sold` bump still
  commit, and the request ends in an internal error at the final re-read
  (`Market.UnknownPlayerSaleCommits`).

## Model

| member | source | states |
|---|---|---|
| `Config.BuildConfigMap` | src/api/config.rs:32-35 | the loop builds exactly the map in which each key holds the value of its last row (unconvertible values as 0.0) |
| `Config.RowsToMapKeys` | src/api/config.rs:32-35 | a key is in the loaded map iff some `tb_config` row carries it |
| `Config.RowsToMapLast` | src/api/config.rs:33-34 | a key maps to the stored value of the last row that carries it |
| `Config.StoredValue` | src/api/config.rs:34 | a row's value as f64, 0.0 when it does not convert; `Config.StoredKeySetsField` states the unconvertible case |
| `Config.RowsToMap` | src/api/config.rs:32-35 | the map the loading loop builds; `Config.RowsToMapKeys` and `Config.RowsToMapLast` state its keys and values, and `Config.BuildConfigMap` computes it |
| `Config.Lookup` | src/api/config.rs:38-42 | a map lookup falling back to the given default; `Config.AbsentKeysFallBack` and `Config.StoredKeySetsField` state both cases |
| `Config.FromMap` | src/api/config.rs:37-43 | the snapshot read from the map with the hard-coded defaults; `Config.AbsentKeysFallBack` and `Config.StoredKeySetsField` state each field |
| `Config.ConfigOf` | src/api/config.rs:25-44 | `load_from_db` as a function of the config rows; `Config.LoadFromDb` computes it and `Config.DefaultsInUnitRange` states it for an empty table |
| `Config.LoadFromDb` | src/api/config.rs:25-44 | the snapshot is the map's values with default fallback, threshold cast to i64 |
| `Config.AbsentKeysFallBack` | src/api/config.rs:37-43 | without a row for a key its field is the default: VAT 0.34, transfer 0.10, wallet to bank 0.05, threshold 10000, market fee 0.02 |
| `Config.StoredKeySetsField` | src/api/config.rs:34-42 | the last row for a key sets its field; an unconvertible value gives 0.0; the threshold is the truncated i64 of the stored value |
| `Config.DefaultsInUnitRange` | src/api/config.rs:38-42 | the snapshot of an empty config table is the defaults, all rates within [0, 1] |
| `Config.TransferFeeRateSelection` | src/api/config.rs:46-56 | wallet to bank at or above the threshold uses the large-transfer rate; below it, and bank to wallet, the standard rate; any other pair pays 0 |
| `Config.ThresholdBoundary` | src/api/config.rs:48-52 | exactly at the threshold the large-transfer rate applies, one unit below the standard rate |
| `Config.RatedAmountBounds` | src/api/config.rs:49 | a rate in [0, 1] times an i64 amount, truncated, lies in [0, amount] |
| `Config.TransferFeeBounds` | src/api/config.rs:46-56 | for amount >= 0 and rates in [0, 1] the transfer fee lies in [0, amount] |
| `Config.CalculateTransferFee` | src/api/config.rs:46-56 | the fee rule; its rate selection is stated by `Config.TransferFeeRateSelection` and its bounds by `Config.TransferFeeBounds` |
| `Config.ApplyRate` | src/api/config.rs:49 | an amount times a rate, cast to i64; `Config.RatedAmountBounds` bounds it by [0, amount] for rates in [0, 1] |
| `Config.CalculateMarketFees` | src/api/config.rs:58-70 | gross is returned unchanged and transaction fee + VAT + net equals gross exactly, for every gross |
| `Config.VatOnRemainder` | src/api/config.rs:59-61 | VAT is the truncated rate applied to gross minus the transaction fee, not to gross |
| `Config.MarketFeesNonNegative` | src/api/config.rs:58-62 | for gross >= 0 and rates in [0, 1] the transaction fee, VAT and net are all non-negative |
| `Config.DefaultSaleOfHundred` | src/api/config.rs:58-70 | with default rates a gross of 100 splits into fee 2, VAT 33, net 65 |
| `Numeric.Trunc` | src/api/config.rs:49 | truncation toward zero, the integer part of `as i64`: on either sign the result is the integer nearest to x on the side of zero |
| `Numeric.AsI64` | src/api/config.rs:49 | the cast truncates toward zero on values whose truncation fits in i64, and gives I64_MAX at or above 2^63 and I64_MIN at or below -2^63 - 1 |
| `Numeric.Max` | src/api/market.rs:274 | `f64::max` on non-NaN operands: the larger operand |
| `Numeric.Min` | src/services/price_regeneration.rs:34 | `LEAST` and `f64::min` on non-NaN operands: the smaller operand |
| `Numeric.RoundHalfEven` | src/services/price_regeneration.rs:35-36 | ROUND gives the nearest integer, ties to even |
| `User.GuardHolds` | src/api/user.rs:96 | the WHERE of the guarded UPDATE (mirrored at line 114): source balance >= amount + fee and flag 1; `User.GuardedTransferEffect` states the UPDATE applies iff it holds |
| `User.Moved` | src/api/user.rs:96 | the SET of the guarded UPDATE (mirrored at line 114): source -total, destination +amount; `User.GuardedTransferEffect` states the new row |
| `User.GuardedTransfer` | src/api/user.rs:95-101 | the guarded UPDATE on the accounts table; `User.GuardedTransferEffect` states its effect and rows affected |
| `User.GuardedTransferEffect` | src/api/user.rs:95-101 | the UPDATE applies iff the row exists, the source covers amount + fee and the flag is 1; then source -total, destination +amount, sum drops by the fee; otherwise nothing changes; other rows never change |
| `User.GuardedTransferKeepsBalancesNonNegative` | src/api/user.rs:96 | for amount >= 0 the guarded UPDATE keeps every balance non-negative |
| `User.WalletToBankWithFee` | src/api/user.rs:90-106 | fee from the loaded rates; the table after is the guarded wallet-to-bank UPDATE; rows affected is 1 or 0 accordingly |
| `User.BankToWalletWithFee` | src/api/user.rs:108-124 | the mirror image drawing on the bank |
| `User.Get` | src/api/user.rs:57-67 | `get_user_by_uuid` on the accounts table: the row, or none; `User.ClassifyFailureOrder` and `User.TransferFailure` use it for the re-read |
| `User.ClassifyFailure` | src/api/user.rs:214-225 | the failure classification; `User.ClassifyFailureOrder` states its order and the reported amounts |
| `User.ClassifyFailureOrder` | src/api/user.rs:214-225 | a failure is classified as user not found, then bank closed (flag 0), else insufficient funds with have = source balance and need = amount + fee |
| `User.ValidDirection` | src/api/user.rs:197-200 | the two accepted (from, to) pairs; `User.InvalidDirectionDeclined` states every other pair is declined |
| `User.FeeFor` | src/api/user.rs:91-92 | the fee a transfer computes from freshly loaded rates; `User.TransferSuccess` and `User.TransferFailure` report it |
| `User.SourceOf` | src/api/user.rs:221 | the store the transfer draws on; `User.TransferSuccess` states it loses amount + fee |
| `User.Transfer` | src/api/user.rs:192-253 | the transfer specification; `User.InvalidDirectionDeclined`, `User.TransferSuccess` and `User.TransferFailure` state its outcomes |
| `User.TransferMoney` | src/api/user.rs:192-253 | the handler's table and reply are those of the transfer specification |
| `User.InvalidDirectionDeclined` | src/api/user.rs:197-209 | any other pair is declined with fee 0, zero balances, the requested amount, and no change |
| `User.TransferSuccess` | src/api/user.rs:237-249 | a valid transfer succeeds iff the guard holds; on success only that account changes, by -(amount+fee) / +amount, and the reply carries the fee and the re-read balances; it is never an internal error |
| `User.TransferFailure` | src/api/user.rs:212-234 | a refused valid transfer changes nothing and reports the computed fee, zero balances and the classified cause |
| `User.TransferKeepsBalancesNonNegative` | src/api/user.rs:114 | no transfer of a non-negative amount makes any balance negative |
| `User.NegativeTransfer` | src/api/user.rs:90-101 | with no sign check, a wallet-to-bank transfer of -100 from an empty account at default rates has fee -10, succeeds, and leaves wallet 110 and bank -100 |
| `User.BankFlagReadTwoWays` | src/api/user.rs:214-222 | with flag 2 and ample funds the transfer is refused as insufficient funds |
| `User.ClosedBankDeclined` | src/api/user.rs:214-234 | bank to wallet of 5000 from a closed bank holding 3000 is declined as bank closed with no change |
| `Market.Volume` | src/api/market.rs:228-242 | the windowed volume; `Market.VolumeAppend`, `Market.VolumeNoneCounted` and `Market.VolumeNonNegative` state its value |
| `Market.InWindow` | src/api/market.rs:229-230 | a timestamp at most one hour before `now` (also lines 237-238); `Market.VolumeAppend` states only such records add to the volume |
| `Market.Counted` | src/api/market.rs:229-230 | the WHERE filter of both volume queries (also lines 237-238): item, type, and a timestamp at most an hour old; `Market.VolumeAppend` states that exactly the counted records add to the volume |
| `Market.VolumeAppend` | src/api/market.rs:228-242 | appending a record adds its quantity to the windowed volume iff it matches item, direction and window |
| `Market.VolumeNoneCounted` | src/api/market.rs:228-234 | with no matching record in the window the volume is 0 |
| `Market.VolumeNonNegative` | src/api/market.rs:228-245 | with non-negative quantities the volume is non-negative |
| `Market.SupplyDemandRatio` | src/api/market.rs:251-257 | sales/buys when buys > 0, else 2.0 when sales > 0, else 1.0; non-negative for non-negative volumes |
| `Market.PriceChange` | src/api/market.rs:259-269 | the signed change; `Market.PriceChangeSign` states its sign |
| `Market.PriceChangeSign` | src/api/market.rs:259-269 | for quantity >= 0 and ratio >= 0 a SELL change is <= 0; for quantity >= 0 a BUY change is >= 0; any other type gives 0 |
| `Market.Clamp` | src/api/market.rs:274 | the result lies in [0.1, 4.0] and equals the input when the input already does |
| `Market.Pulled` | src/api/market.rs:272-273 | the baseline pull; `Market.PulledTowardBaseline` states it scales the distance to 1.0 by 0.999 |
| `Market.PulledTowardBaseline` | src/api/market.rs:272-273 | the pull moves 0.1% of the way to 1.0 without overshooting |
| `Market.NextMultiplier` | src/api/market.rs:271-274 | after change, pull and clamp the multiplier lies in [0.1, 4.0] whatever it was before |
| `Market.TruncatedSellPrice` | src/api/market.rs:276 | base price times multiplier cast to i64; `Market.RepricedIsConsistent` states the written row carries it and `PriceRegeneration.TruncateAndRoundDiffer` contrasts it with ROUND |
| `Market.TruncatedBuyPrice` | src/api/market.rs:277 | base price times multiplier times 1.6 cast to i64; `Market.RepricedIsConsistent` states the written row carries it |
| `Market.WithTruncatedPrices` | src/api/market.rs:276-285 | a row with the given multiplier and the truncated prices derived from it; `Market.RepricedIsConsistent` states the repriced row is this row |
| `Market.Repriced` | src/api/market.rs:271-284 | the repriced row; `Market.RepricedIsConsistent` states its range and derived prices |
| `Market.RepricedIsConsistent` | src/api/market.rs:271-284 | the written row has its multiplier in [0.1, 4.0], prices truncated from that same multiplier, base price and counters unchanged |
| `Market.UpdateMarketPrice` | src/api/market.rs:227-295 | on success the item's row becomes the repriced row and the new sell price is returned; on a storage failure nothing is written |
| `Market.SaleFees` | src/api/market.rs:81-85 | the gross of the sale at the pre-trade unit price and its fee breakdown; `Market.SellReply` states the reply carries it |
| `Market.FailsBeforeCommit` | src/api/market.rs:57-139 | the faults that end the sale before its commit; `Market.SellAllOrNothing` states they leave every table unchanged |
| `Market.CreditWallet` | src/api/market.rs:93-97 | the wallet credit; `Market.SellCommitsThreeWrites` states the player's wallet gains the net, and `Market.UnknownPlayerSaleCommits` that an unknown player's table is unchanged |
| `Market.SellRecord` | src/api/market.rs:107-115 | the logged SELL record; `Market.SellCommitsThreeWrites` states its fields |
| `Market.CommitSale` | src/api/market.rs:92-137 | the tables after the three committed writes; `Market.SellTransaction` reaches it and `Market.SellCommitsThreeWrites` states its contents |
| `Market.Sell` | src/api/market.rs:52-161 | the sale specification; `Market.SellMissingItem`, `Market.SellAllOrNothing`, `Market.SellCommitsThreeWrites`, `Market.SellReply`, `Market.SellReprices` and `Market.SellPriceFallback` state its outcomes |
| `Market.SellItem` | src/api/market.rs:52-161 | the handler's tables and reply are those of the sale specification, failed writes rolled back |
| `Market.SellTransaction` | src/api/market.rs:87-139 | the three writes apply together, giving the committed tables, or on a failing write or commit none of them does |
| `Market.SellMissingItem` | src/api/market.rs:62-77 | a missing item is declined with every numeric field 0 and nothing written |
| `Market.SellAllOrNothing` | src/api/market.rs:87-139 | any failure before the commit leaves all tables as they were |
| `Market.SellCommitsThreeWrites` | src/api/market.rs:92-135 | a committed sale credits exactly the net to the wallet (bank untouched), appends one SELL record with quantity, unit price, gross and pre-trade multiplier, and bumps `total_sold` by the quantity; nothing else changes |
| `Market.SellReply` | src/api/market.rs:81-85 | gross is unit price times quantity, the breakdown is the market-fee rule on it, and the reply's balances are the wallet plus net and the unchanged bank |
| `Market.SellReprices` | src/api/market.rs:137-142 | the item is repriced from the committed tables, ends in [0.1, 4.0] and the reply carries its new price |
| `Market.SellPriceFallback` | src/api/market.rs:141-142 | a failed repricing keeps the committed sale and replies with the pre-trade unit price |
| `Market.SellKeepsMultipliersInRange` | src/api/market.rs:271-274 | every sale keeps all multipliers in [0.1, 4.0] |
| `Market.SellKeepsBalancesNonNegative` | src/api/market.rs:81-97 | for quantity >= 0, a non-negative unit price, a gross within i64 and rates in [0, 1], every sale outcome keeps all balances non-negative |
| `Market.NegativeQuantitySale` | src/api/market.rs:81-97 | with no sign check, selling -10 units at 100 from an empty wallet with default rates commits, leaves the wallet at -647 and `total_sold` at -10, and reports success |
| `Market.FirstSaleSeesRatioTwo` | src/api/market.rs:137-141 | the first sale in the window of a positive quantity sees ratio 2.0 because its own record is counted |
| `Market.FirstSaleExample` | src/api/market.rs:227-284 | base 100 at 1.0, 64 units, empty window: multiplier 0.96004, prices 96 and 153, net 4140 |
| `Market.ZeroQuantitySaleCommits` | src/api/market.rs:81-82 | a sale of 0 units is accepted, logged and reported with zero earnings |
| `Market.UnknownPlayerSaleCommits` | src/api/market.rs:92-147 | for an unknown player the trade record and `total_sold` commit, no account changes, and the reply is an internal error |
| `PriceRegeneration.DecayMultiplier` | src/services/price_regeneration.rs:34 | the decay formula; `PriceRegeneration.DecayStep` and `PriceRegeneration.DecayConverges` state its behaviour |
| `PriceRegeneration.DecayStep` | src/services/price_regeneration.rs:34 | the decayed multiplier is <= 3.0; uncapped, its distance to 1.0 shrinks to 0.9 of the old one without overshoot; >= 0.1 is preserved; [0.1, 4.0] maps into [0.1, 3.0] |
| `PriceRegeneration.DecayFixedPoint` | src/services/price_regeneration.rs:34 | 1.0 is a fixed point |
| `PriceRegeneration.DecayConverges` | src/services/price_regeneration.rs:34 | from m <= 3.0, n ticks leave m_n - 1 = 0.9^n (m - 1): convergence to 1.0, bounded by 3.0 |
| `PriceRegeneration.RoundedSellPrice` | src/services/price_regeneration.rs:35 | ROUND of base price times multiplier; `Numeric.RoundHalfEven` states the rounding and `PriceRegeneration.DoubleDecayExample` gives values |
| `PriceRegeneration.RoundedBuyPrice` | src/services/price_regeneration.rs:36 | ROUND of base price times multiplier times 1.6; `Numeric.RoundHalfEven` states the rounding and `PriceRegeneration.DoubleDecayExample` gives values |
| `PriceRegeneration.DecayedItem` | src/services/price_regeneration.rs:33-36 | one row after the UPDATE as MySQL runs it; `PriceRegeneration.DecayAllAsWritten` states its effect |
| `PriceRegeneration.DecayAll` | src/services/price_regeneration.rs:33-36 | the whole table after the UPDATE as written; `PriceRegeneration.DecayAllAsWritten` states its effect |
| `PriceRegeneration.RegeneratePrices` | src/services/price_regeneration.rs:31-43 | every row of the table is replaced by its row after the UPDATE as written |
| `PriceRegeneration.DecayAllAsWritten` | src/services/price_regeneration.rs:33-36 | every row's multiplier is decayed once; its prices are rounded from the multiplier decayed once more; base price and counters are untouched; the range invariant tightens to [0.1, 3.0] |
| `PriceRegeneration.DoubleDecayExample` | src/services/price_regeneration.rs:34-36 | base 100 at 2.0: the UPDATE as written stores 1.9 with prices 181 and 290, where the intended decay gives 190 and 304; the stored prices do not follow the stored multiplier |
| `PriceRegeneration.IntendedDecayedItem` | src/services/price_regeneration.rs:33-36 | one row after the intended decay, prices rounded from the new multiplier; `PriceRegeneration.DecayAllEffect` states its effect |
| `PriceRegeneration.IntendedDecayAll` | src/services/price_regeneration.rs:33-36 | the whole table under the intended decay, the corrected half of the finding; `PriceRegeneration.DecayAllEffect` states its effect |
| `PriceRegeneration.DecayAllEffect` | src/services/price_regeneration.rs:33-36 | under the intended decay every row's multiplier is decayed, its prices are rounded from the new multiplier, base price and counters are untouched, and the range invariant tightens to [0.1, 3.0] |
| `PriceRegeneration.DecayAgreesAtBaseline` | src/services/price_regeneration.rs:34-36 | the UPDATE as written and the intended decay store the same multiplier, and agree entirely on a row at 1.0 |
| `PriceRegeneration.TruncateAndRoundDiffer` | src/services/price_regeneration.rs:35 | for the same base and multiplier the decay path's rounded price can exceed the trade path's truncated one |

## Findings

| source | as written | input that shows it | evidently intended | confidence | as-written member | corrected member |
|---|---|---|---|---|---|---|
| src/services/price_regeneration.rs:33-36 | MySQL assigns `price_multiplier` first, so the price expressions read the decayed value and decay it again: prices come from D(D(m)) | base 100, multiplier 2.0: stored 1.9 with prices 181 and 290 | prices rounded from the stored multiplier 1.9: 190 and 304 | medium, not executed | `PriceRegeneration.DoubleDecayExample` | `PriceRegeneration.DecayAllEffect` |

`RegeneratePrices` models the UPDATE as written; the intended decay is the
separate definition `IntendedDecayAll`.

## Left out

- Floating point: every f64 is an exact `real`. Results can differ from IEEE-754 doubles near truncation and rounding boundaries. NaN and infinities are not modelled.
- Rounding ties: MySQL's ROUND on DOUBLE depends on the platform's C library; ties are resolved to even here. The BIGINT range check on the rounded value is not modelled.
- Integer overflow: all i64 and BIGINT arithmetic is unbounded here. This covers Rust's `amount + fee` and `price_per_unit * quantity`, and the SQL-side `wallet - ?`, `bank - ?`, `bank + ?`, `wallet + ?` and `total_sold + ?`. It also covers `gross_amount - transaction_fee - vat`. Rust's overflow behaviour and MySQL's out-of-range errors (which would roll back and end in an internal error) are not modelled. `quantity` is an i32 in the source but an unbounded integer here.
- Concurrency: each guarded UPDATE, each sale transaction and each repricing is one sequential atomic step. The lost-update race between concurrent repricings is not modelled.
- Storage failures on the transfer path are not modelled: loading the config, running the UPDATE, the re-read after a failed UPDATE (it would report an unknown user), and the re-read after a successful one.
- A failing bulk UPDATE in `regenerate_prices` is not modelled; a failing single statement leaves the table unchanged. Its rows-affected count is only logged, so it is left out.
- The timer loop `PriceRegenerationService::start` and all logging.
- `update_market_price` is only called for an item the sale has just read, so its `.unwrap()` is modelled as a precondition (the item exists), not as a panic.
- `SellFault` names at most one failing storage call per sale. A sale in which two calls fail is not modelled, for example a failed repricing followed by a failed re-read: committed but not repriced, then an internal error.
- Rows affected: `rows_affected() > 0` after a guarded UPDATE is read as "the WHERE matched a row". This holds because the MySQL driver reports rows found, not rows changed; under changed-rows reporting a transfer of 0 with fee 0 would be reported as a failure.
- Schema constraints: the model assumes the tables carry no foreign-key or CHECK constraints; the schema is not part of this model. `Market.UnknownPlayerSaleCommits`, `Market.NegativeQuantitySale` and `User.NegativeTransfer` depend on this; a foreign key on the trade log's player or a CHECK on the balances would make those writes fail and roll back.
- Key matching is exact string equality (`uuid in accounts`, `req.itemKey in t.items`, and the item and SELL/BUY filters of the volume queries). MySQL's `= ?` compares under the column's collation, which may ignore case and trailing spaces. Case folding and collation are not modelled.
- Response messages are datatypes; their text formatting is left out.
- Columns the logic never reads are left out: row ids, `player_name`, `item_name`.
- Read-only CRUD handlers (`create_user`, `get_user`, `get_wallet`, `get_bank`, `get_market_items`, `get_all_market_items`, `get_all_market_items_light`), HTTP routing, JSON and status-code mapping, and connection-pool setup.
- Wall-clock time: `NOW()` is the parameter `now`, in seconds. The record's insert time and the window's end are taken to be the same instant.
