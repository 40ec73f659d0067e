/**
 * The rows of the four persisted tables the economic core reads and writes
 * (`tb_config`, `tb_user`, `tb_market_items`, `tb_market_transactions`) and
 * the database that holds them. Every operation of the core re-reads these
 * tables; nothing is cached between operations.
 */
module Storage {
  import opened Wrappers

  /** A `tb_config` row. `value` is None when the stored DECIMAL has no f64 form. */
  datatype ConfigRow = ConfigRow(key: string, value: Option<real>)

  /**
   * A `tb_user` row, keyed by player UUID. `isBankOpen` is the TINYINT column as
   * stored: the code compares it with 1 in one place and with 0 in another.
   */
  datatype Account = Account(wallet: int, bank: int, isBankOpen: int)

  /** A `tb_market_items` row, keyed by item key. */
  datatype MarketItem = MarketItem(
    basePrice: int,
    currentSellPrice: int,
    currentBuyPrice: int,
    totalSold: int,
    totalBought: int,
    priceMultiplier: real)

  /**
   * A `tb_market_transactions` row. `timestamp` is in seconds; the database
   * fills it with the time of the insert.
   */
  datatype TradeRecord = TradeRecord(
    playerUuid: string,
    itemKey: string,
    transactionType: string,
    quantity: int,
    pricePerUnit: int,
    totalAmount: int,
    priceMultiplier: real,
    timestamp: int)

  /** The contents of all four tables at one moment. */
  datatype Tables = Tables(
    accounts: map<string, Account>,
    items: map<string, MarketItem>,
    trades: seq<TradeRecord>,
    config: seq<ConfigRow>)

  /** Every balance in the table is non-negative. */
  predicate BalancesNonNegative(accounts: map<string, Account>) {
    forall k :: k in accounts ==> accounts[k].wallet >= 0 && accounts[k].bank >= 0
  }

  /** The relational store: each table is a field that operations update in place. */
  class Database {
    var accounts: map<string, Account>
    var items: map<string, MarketItem>
    var trades: seq<TradeRecord>
    var configRows: seq<ConfigRow>

    constructor (initial: Tables)
      ensures State() == initial
    {
      accounts := initial.accounts;
      items := initial.items;
      trades := initial.trades;
      configRows := initial.config;
    }

    /** The abstract value of the store. */
    function State(): Tables
      reads this
    {
      Tables(accounts, items, trades, configRows)
    }
  }
}
