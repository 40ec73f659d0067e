/**
 * Economic parameters (`ConfigManager`) and the two fee rules that use them:
 * the transfer fee and the market-sale fee breakdown.
 */
module Config {
  import opened Wrappers
  import opened Numeric
  import opened Storage

  /** One snapshot of the tunable parameters, loaded afresh per operation. */
  datatype ConfigManager = ConfigManager(
    marketVatRate: real,
    transferFeeRate: real,
    walletToBankFeeRate: real,
    walletToBankThreshold: int,
    marketTransactionFee: real)

  /** The breakdown of one market sale. */
  datatype MarketFees = MarketFees(
    grossAmount: int,
    transactionFee: int,
    vat: int,
    netAmount: int)

  const DEFAULT_MARKET_VAT_RATE: real := 0.34
  const DEFAULT_TRANSFER_FEE_RATE: real := 0.10
  const DEFAULT_WALLET_TO_BANK_FEE_RATE: real := 0.05
  const DEFAULT_WALLET_TO_BANK_THRESHOLD: real := 10000.0
  const DEFAULT_MARKET_TRANSACTION_FEE: real := 0.02

  /** The value the loading loop stores for a row: an unconvertible value becomes 0.0. */
  function StoredValue(row: ConfigRow): real {
    row.value.GetOr(0.0)
  }

  /** The key/value map built from the rows: a later row overwrites an earlier one. */
  function RowsToMap(rows: seq<ConfigRow>): map<string, real>
    decreases |rows|
  {
    if rows == [] then map[]
    else
      var last := rows[|rows| - 1];
      RowsToMap(rows[..|rows| - 1])[last.key := StoredValue(last)]
  }

  /** Row i is the last row that carries its key. */
  predicate LastWithKey(rows: seq<ConfigRow>, i: int) {
    0 <= i < |rows| && forall j :: i < j < |rows| ==> rows[j].key != rows[i].key
  }

  /** A key is in the map exactly when some row carries it. */
  lemma {:induction false} RowsToMapKeys(rows: seq<ConfigRow>, key: string)
    ensures key in RowsToMap(rows) <==> exists i :: 0 <= i < |rows| && rows[i].key == key
  {
    if rows != [] {
      var n := |rows| - 1;
      RowsToMapKeys(rows[..n], key);
      if key in RowsToMap(rows[..n]) {
        var i :| 0 <= i < n && rows[..n][i].key == key;
        assert rows[i].key == key;
      }
      if exists i :: 0 <= i < |rows| && rows[i].key == key {
        var i :| 0 <= i < |rows| && rows[i].key == key;
        if i < n {
          assert rows[..n][i].key == key;
        }
      }
    }
  }

  /** A key carried by some row maps to the stored value of the last row that carries it. */
  lemma {:induction false} RowsToMapLast(rows: seq<ConfigRow>, i: int)
    requires LastWithKey(rows, i)
    ensures rows[i].key in RowsToMap(rows)
    ensures RowsToMap(rows)[rows[i].key] == StoredValue(rows[i])
  {
    var n := |rows| - 1;
    if i < n {
      var init := rows[..n];
      assert init[i] == rows[i];
      assert LastWithKey(init, i) by {
        forall j | i < j < |init| ensures init[j].key != init[i].key {
          assert init[j] == rows[j];
        }
      }
      RowsToMapLast(init, i);
      assert rows[n].key != rows[i].key;
    }
  }

  /** The loop of `load_from_db` that fills the key/value map from the fetched rows. */
  method BuildConfigMap(rows: seq<ConfigRow>) returns (m: map<string, real>)
    ensures m == RowsToMap(rows)
  {
    m := map[];
    for i := 0 to |rows|
      invariant m == RowsToMap(rows[..i])
    {
      assert rows[..i + 1][..i] == rows[..i];
      m := m[rows[i].key := StoredValue(rows[i])];
    }
    assert rows[..|rows|] == rows;
  }

  /** The map's value for the key, or the hard-coded default when the key is absent. */
  function Lookup(m: map<string, real>, key: string, default: real): real {
    if key in m then m[key] else default
  }

  /** The parameter snapshot for a key/value map, with the documented defaults. */
  function FromMap(m: map<string, real>): ConfigManager {
    ConfigManager(
      Lookup(m, "market_vat_rate", DEFAULT_MARKET_VAT_RATE),
      Lookup(m, "transfer_fee_rate", DEFAULT_TRANSFER_FEE_RATE),
      Lookup(m, "wallet_to_bank_fee_rate", DEFAULT_WALLET_TO_BANK_FEE_RATE),
      AsI64(Lookup(m, "wallet_to_bank_threshold", DEFAULT_WALLET_TO_BANK_THRESHOLD)),
      Lookup(m, "market_transaction_fee", DEFAULT_MARKET_TRANSACTION_FEE))
  }

  /** The snapshot `load_from_db` produces from the rows of `tb_config`. */
  function ConfigOf(rows: seq<ConfigRow>): ConfigManager {
    FromMap(RowsToMap(rows))
  }

  /** `load_from_db` once the SELECT has returned its rows. */
  method LoadFromDb(rows: seq<ConfigRow>) returns (c: ConfigManager)
    ensures c == ConfigOf(rows)
  {
    var m := BuildConfigMap(rows);
    c := FromMap(m);
  }

  /** With no row for a key, its field takes the hard-coded default. */
  lemma AbsentKeysFallBack(rows: seq<ConfigRow>)
    ensures (forall i :: 0 <= i < |rows| ==> rows[i].key != "market_vat_rate") ==>
              ConfigOf(rows).marketVatRate == 0.34
    ensures (forall i :: 0 <= i < |rows| ==> rows[i].key != "transfer_fee_rate") ==>
              ConfigOf(rows).transferFeeRate == 0.10
    ensures (forall i :: 0 <= i < |rows| ==> rows[i].key != "wallet_to_bank_fee_rate") ==>
              ConfigOf(rows).walletToBankFeeRate == 0.05
    ensures (forall i :: 0 <= i < |rows| ==> rows[i].key != "wallet_to_bank_threshold") ==>
              ConfigOf(rows).walletToBankThreshold == 10000
    ensures (forall i :: 0 <= i < |rows| ==> rows[i].key != "market_transaction_fee") ==>
              ConfigOf(rows).marketTransactionFee == 0.02
  {
    RowsToMapKeys(rows, "market_vat_rate");
    RowsToMapKeys(rows, "transfer_fee_rate");
    RowsToMapKeys(rows, "wallet_to_bank_fee_rate");
    RowsToMapKeys(rows, "wallet_to_bank_threshold");
    RowsToMapKeys(rows, "market_transaction_fee");
  }

  /**
   * The last row for a key sets its field: to the stored value, to 0.0 when
   * that value has no f64 form, and for the threshold to its i64 cast.
   */
  lemma StoredKeySetsField(rows: seq<ConfigRow>, i: int)
    requires LastWithKey(rows, i)
    ensures rows[i].key == "market_vat_rate" ==> ConfigOf(rows).marketVatRate == StoredValue(rows[i])
    ensures rows[i].key == "transfer_fee_rate" ==> ConfigOf(rows).transferFeeRate == StoredValue(rows[i])
    ensures rows[i].key == "wallet_to_bank_fee_rate" ==>
              ConfigOf(rows).walletToBankFeeRate == StoredValue(rows[i])
    ensures rows[i].key == "wallet_to_bank_threshold" ==>
              ConfigOf(rows).walletToBankThreshold == AsI64(StoredValue(rows[i]))
    ensures rows[i].key == "market_transaction_fee" ==>
              ConfigOf(rows).marketTransactionFee == StoredValue(rows[i])
    ensures rows[i].value == None ==> StoredValue(rows[i]) == 0.0
  {
    RowsToMapLast(rows, i);
  }

  /** `calculate_transfer_fee`: the fee depends on the direction and, wallet to bank, on the threshold. */
  function CalculateTransferFee(c: ConfigManager, from: string, to: string, amount: int): int {
    if from == "wallet" && to == "bank" && amount >= c.walletToBankThreshold then
      ApplyRate(amount, c.walletToBankFeeRate)
    else if (from == "wallet" && to == "bank") || (from == "bank" && to == "wallet") then
      ApplyRate(amount, c.transferFeeRate)
    else
      0
  }

  /**
   * Which rate applies: the large-transfer rate from the threshold up (inclusive),
   * the standard rate one below it and bank to wallet at any amount, no fee otherwise.
   */
  lemma TransferFeeRateSelection(c: ConfigManager, from: string, to: string, amount: int)
    ensures from == "wallet" && to == "bank" && amount >= c.walletToBankThreshold ==>
              CalculateTransferFee(c, from, to, amount) == ApplyRate(amount, c.walletToBankFeeRate)
    ensures from == "wallet" && to == "bank" && amount < c.walletToBankThreshold ==>
              CalculateTransferFee(c, from, to, amount) == ApplyRate(amount, c.transferFeeRate)
    ensures from == "bank" && to == "wallet" ==>
              CalculateTransferFee(c, from, to, amount) == ApplyRate(amount, c.transferFeeRate)
    ensures !(from == "wallet" && to == "bank") && !(from == "bank" && to == "wallet") ==>
              CalculateTransferFee(c, from, to, amount) == 0
  {
  }

  /** Exactly at the threshold the large-transfer rate applies; one unit below, the standard rate. */
  lemma ThresholdBoundary(c: ConfigManager)
    ensures CalculateTransferFee(c, "wallet", "bank", c.walletToBankThreshold)
            == ApplyRate(c.walletToBankThreshold, c.walletToBankFeeRate)
    ensures CalculateTransferFee(c, "wallet", "bank", c.walletToBankThreshold - 1)
            == ApplyRate(c.walletToBankThreshold - 1, c.transferFeeRate)
  {
  }

  /** An integer amount scaled by a rate and cast back, as in `(amount as f64 * rate) as i64`. */
  function ApplyRate(amount: int, rate: real): int {
    AsI64(amount as real * rate)
  }

  /** A rate in [0, 1] applied to a non-negative i64 amount and cast back stays within [0, amount]. */
  lemma RatedAmountBounds(amount: int, rate: real)
    requires 0 <= amount <= I64_MAX
    requires 0.0 <= rate <= 1.0
    ensures 0 <= ApplyRate(amount, rate) <= amount
  {
    var a := amount as real;
    MulNonNegative(a, rate);
    MulNonNegative(a, 1.0 - rate);
    assert a * rate + a * (1.0 - rate) == a;
  }

  /** A well-formed configuration: every rate in [0, 1]. */
  predicate RatesInUnitRange(c: ConfigManager) {
    && 0.0 <= c.marketVatRate <= 1.0
    && 0.0 <= c.transferFeeRate <= 1.0
    && 0.0 <= c.walletToBankFeeRate <= 1.0
    && 0.0 <= c.marketTransactionFee <= 1.0
  }

  /** The default snapshot, loaded from an empty `tb_config`, is well formed. */
  lemma DefaultsInUnitRange()
    ensures ConfigOf([]) == ConfigManager(0.34, 0.10, 0.05, 10000, 0.02)
    ensures RatesInUnitRange(ConfigOf([]))
  {
  }

  /** For a non-negative amount and rates in [0, 1], the transfer fee lies in [0, amount]. */
  lemma TransferFeeBounds(c: ConfigManager, from: string, to: string, amount: int)
    requires RatesInUnitRange(c)
    requires 0 <= amount <= I64_MAX
    ensures 0 <= CalculateTransferFee(c, from, to, amount) <= amount
  {
    if from == "wallet" && to == "bank" && amount >= c.walletToBankThreshold {
      RatedAmountBounds(amount, c.walletToBankFeeRate);
    } else if (from == "wallet" && to == "bank") || (from == "bank" && to == "wallet") {
      RatedAmountBounds(amount, c.transferFeeRate);
    }
  }

  /**
   * `calculate_market_fees`: the transaction fee comes off the gross first; VAT is
   * charged on what remains; the net is the rest.
   */
  function CalculateMarketFees(c: ConfigManager, grossAmount: int): (f: MarketFees)
    ensures f.grossAmount == grossAmount
    ensures f.transactionFee + f.vat + f.netAmount == grossAmount
  {
    var transactionFee := ApplyRate(grossAmount, c.marketTransactionFee);
    var taxableAmount := grossAmount - transactionFee;
    var vat := ApplyRate(taxableAmount, c.marketVatRate);
    MarketFees(grossAmount, transactionFee, vat, grossAmount - transactionFee - vat)
  }

  /** VAT is levied on the gross less the transaction fee, not on the gross. */
  lemma VatOnRemainder(c: ConfigManager, grossAmount: int)
    ensures CalculateMarketFees(c, grossAmount).vat
            == ApplyRate(grossAmount - CalculateMarketFees(c, grossAmount).transactionFee, c.marketVatRate)
  {
  }

  /** For a non-negative gross and rates in [0, 1], every part of the breakdown is non-negative. */
  lemma MarketFeesNonNegative(c: ConfigManager, grossAmount: int)
    requires RatesInUnitRange(c)
    requires 0 <= grossAmount <= I64_MAX
    ensures var f := CalculateMarketFees(c, grossAmount);
            0 <= f.transactionFee && 0 <= f.vat && 0 <= f.netAmount
            && f.netAmount <= grossAmount - f.transactionFee
  {
    var tf := ApplyRate(grossAmount, c.marketTransactionFee);
    RatedAmountBounds(grossAmount, c.marketTransactionFee);
    assert 0 <= tf <= grossAmount;
    var taxable := grossAmount - tf;
    var vat := ApplyRate(taxable, c.marketVatRate);
    RatedAmountBounds(taxable, c.marketVatRate);
    assert 0 <= vat <= taxable;
    assert CalculateMarketFees(c, grossAmount) == MarketFees(grossAmount, tf, vat, taxable - vat);
  }

  /**
   * With the default rates a sale of 100 pays a fee of 2 and VAT of 33 (34% of
   * the remaining 98, truncated), leaving 65; VAT on the whole gross would be 34.
   */
  lemma DefaultSaleOfHundred()
    ensures CalculateMarketFees(ConfigOf([]), 100) == MarketFees(100, 2, 33, 65)
  {
  }
}
