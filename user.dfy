/**
 * Fee-bearing transfers between a player's wallet and bank (`transfer_money`
 * and the two guarded UPDATEs behind it). Each guarded UPDATE is one atomic
 * step: it applies only when its WHERE clause holds, and otherwise changes nothing.
 */
module User {
  import opened Wrappers
  import opened Numeric
  import opened Storage
  import opened Config

  /** The cash store a transfer draws from. */
  datatype Store = WalletStore | BankStore

  function Balance(a: Account, s: Store): int {
    match s
    case WalletStore => a.wallet
    case BankStore => a.bank
  }

  /** The WHERE clause of the guarded UPDATE (beyond the UUID match). */
  predicate GuardHolds(a: Account, source: Store, total: int) {
    Balance(a, source) >= total && a.isBankOpen == 1
  }

  /** The SET clause: the source loses `total`, the other store gains `amount`. */
  function Moved(a: Account, source: Store, amount: int, total: int): Account {
    match source
    case WalletStore => a.(wallet := a.wallet - total, bank := a.bank + amount)
    case BankStore => a.(bank := a.bank - total, wallet := a.wallet + amount)
  }

  /** The table after a guarded UPDATE and the number of rows it affected. */
  datatype RowUpdate = RowUpdate(accounts: map<string, Account>, rowsAffected: nat)

  /** One guarded UPDATE of `tb_user` on the row whose UUID matches. */
  function GuardedTransfer(accounts: map<string, Account>, uuid: string, source: Store,
                           amount: int, total: int): RowUpdate
  {
    if uuid in accounts && GuardHolds(accounts[uuid], source, total) then
      RowUpdate(accounts[uuid := Moved(accounts[uuid], source, amount, total)], 1)
    else
      RowUpdate(accounts, 0)
  }

  /**
   * The update applies exactly when the row exists, its source balance covers
   * `total` and its bank flag equals 1. Then the source drops by `total`, the
   * other store rises by `amount`, so the pair's sum drops by `total - amount`
   * (the fee), and the flag is kept. Otherwise nothing changes. Either way every
   * other row is untouched and no row appears or disappears.
   */
  lemma GuardedTransferEffect(accounts: map<string, Account>, uuid: string, source: Store,
                              amount: int, total: int)
    ensures var u := GuardedTransfer(accounts, uuid, source, amount, total);
            && (u.rowsAffected == 1 <==> uuid in accounts && GuardHolds(accounts[uuid], source, total))
            && (u.rowsAffected == 0 <==> !(uuid in accounts && GuardHolds(accounts[uuid], source, total)))
            && u.accounts.Keys == accounts.Keys
            && (forall k :: k in accounts && k != uuid ==> u.accounts[k] == accounts[k])
            && (u.rowsAffected == 0 ==> u.accounts == accounts)
            && (u.rowsAffected == 1 ==>
                  var before, after := accounts[uuid], u.accounts[uuid];
                  && Balance(after, source) == Balance(before, source) - total
                  && Balance(after, Other(source)) == Balance(before, Other(source)) + amount
                  && after.wallet + after.bank == before.wallet + before.bank - (total - amount)
                  && after.isBankOpen == before.isBankOpen)
  {
  }

  function Other(s: Store): Store {
    match s
    case WalletStore => BankStore
    case BankStore => WalletStore
  }

  /** The guard keeps balances non-negative when the moved amount is. */
  lemma GuardedTransferKeepsBalancesNonNegative(accounts: map<string, Account>, uuid: string,
                                                source: Store, amount: int, total: int)
    requires BalancesNonNegative(accounts)
    requires 0 <= amount
    ensures BalancesNonNegative(GuardedTransfer(accounts, uuid, source, amount, total).accounts)
  {
  }

  /** `wallet_to_bank_with_fee`: loads the rates, computes the fee and runs the guarded UPDATE. */
  method WalletToBankWithFee(db: Database, uuid: string, amount: int) returns (rows: nat, fee: int)
    modifies db`accounts
    ensures fee == CalculateTransferFee(ConfigOf(db.configRows), "wallet", "bank", amount)
    ensures RowUpdate(db.accounts, rows) == GuardedTransfer(old(db.accounts), uuid, WalletStore, amount, amount + fee)
  {
    var config := LoadFromDb(db.configRows);
    fee := CalculateTransferFee(config, "wallet", "bank", amount);
    var totalDeducted := amount + fee;
    if uuid in db.accounts && db.accounts[uuid].wallet >= totalDeducted && db.accounts[uuid].isBankOpen == 1 {
      var row := db.accounts[uuid];
      db.accounts := db.accounts[uuid := row.(wallet := row.wallet - totalDeducted, bank := row.bank + amount)];
      rows := 1;
    } else {
      rows := 0;
    }
  }

  /** `bank_to_wallet_with_fee`: the mirror image, drawing on the bank. */
  method BankToWalletWithFee(db: Database, uuid: string, amount: int) returns (rows: nat, fee: int)
    modifies db`accounts
    ensures fee == CalculateTransferFee(ConfigOf(db.configRows), "bank", "wallet", amount)
    ensures RowUpdate(db.accounts, rows) == GuardedTransfer(old(db.accounts), uuid, BankStore, amount, amount + fee)
  {
    var config := LoadFromDb(db.configRows);
    fee := CalculateTransferFee(config, "bank", "wallet", amount);
    var totalDeducted := amount + fee;
    if uuid in db.accounts && db.accounts[uuid].bank >= totalDeducted && db.accounts[uuid].isBankOpen == 1 {
      var row := db.accounts[uuid];
      db.accounts := db.accounts[uuid := row.(bank := row.bank - totalDeducted, wallet := row.wallet + amount)];
      rows := 1;
    } else {
      rows := 0;
    }
  }

  datatype TransferRequest = TransferRequest(from: string, to: string, amount: int)

  /** The response's message, before it is rendered as text. */
  datatype TransferMessage =
    | Transferred(amount: int, from: string, to: string, fee: int)  // success, naming amount, stores and fee
    | InvalidDirection                                              // the pair was not wallet/bank or bank/wallet
    | BankNotOpen                                                   // the player must visit a bank first
    | UserNotFound                                                  // no account for the UUID
    | InsufficientFunds(store: string, have: int, need: int)        // the source store's balance and amount + fee

  datatype TransferResponse = TransferResponse(
    success: bool,
    message: TransferMessage,
    newWallet: int,
    newBank: int,
    feeCharged: int,
    amountTransferred: int)

  /**
   * Why a guarded UPDATE affected no row, from the account as re-read afterwards:
   * a missing account first, then a closed bank (flag equal to 0), else short funds.
   */
  function ClassifyFailure(user: Option<Account>, from: string, amount: int, fee: int): TransferMessage {
    match user
    case None => UserNotFound
    case Some(u) =>
      if u.isBankOpen == 0 then BankNotOpen
      else InsufficientFunds(from, if from == "wallet" then u.wallet else u.bank, amount + fee)
  }

  function Get(accounts: map<string, Account>, uuid: string): Option<Account> {
    if uuid in accounts then Some(accounts[uuid]) else None
  }

  /** The classification is exhaustive and in the order the code tests it. */
  lemma ClassifyFailureOrder(user: Option<Account>, from: string, amount: int, fee: int)
    ensures user == None ==> ClassifyFailure(user, from, amount, fee) == UserNotFound
    ensures user.Some? && user.value.isBankOpen == 0 ==> ClassifyFailure(user, from, amount, fee) == BankNotOpen
    ensures user.Some? && user.value.isBankOpen != 0 ==>
              ClassifyFailure(user, from, amount, fee)
              == InsufficientFunds(from, if from == "wallet" then user.value.wallet else user.value.bank, amount + fee)
  {
  }

  /** The state and reply after one `transfer_money` request. */
  datatype TransferOutcome = TransferOutcome(accounts: map<string, Account>, reply: Reply<TransferResponse>)

  predicate ValidDirection(from: string, to: string) {
    (from == "wallet" && to == "bank") || (from == "bank" && to == "wallet")
  }

  /** The fee a valid transfer computes, and the store it draws on. */
  function FeeFor(configRows: seq<ConfigRow>, req: TransferRequest): int {
    CalculateTransferFee(ConfigOf(configRows), req.from, req.to, req.amount)
  }

  function SourceOf(req: TransferRequest): Store {
    if req.from == "wallet" then WalletStore else BankStore
  }

  /** `transfer_money` over the accounts table and the configuration rows. */
  function Transfer(accounts: map<string, Account>, configRows: seq<ConfigRow>, uuid: string,
                    req: TransferRequest): TransferOutcome
  {
    if !ValidDirection(req.from, req.to) then
      TransferOutcome(accounts, Ok(TransferResponse(false, InvalidDirection, 0, 0, 0, req.amount)))
    else
      var fee := FeeFor(configRows, req);
      var source := SourceOf(req);
      var u := GuardedTransfer(accounts, uuid, source, req.amount, req.amount + fee);
      if u.rowsAffected == 0 then
        TransferOutcome(u.accounts, Ok(TransferResponse(
          false, ClassifyFailure(Get(u.accounts, uuid), req.from, req.amount, fee), 0, 0, fee, req.amount)))
      else if uuid in u.accounts then
        var user := u.accounts[uuid];
        TransferOutcome(u.accounts, Ok(TransferResponse(
          true, Transferred(req.amount, req.from, req.to, fee), user.wallet, user.bank, fee, req.amount)))
      else
        TransferOutcome(u.accounts, InternalError)
  }

  /** The request handler: dispatch on direction, run the guarded UPDATE, then re-read the row. */
  method TransferMoney(db: Database, uuid: string, req: TransferRequest) returns (reply: Reply<TransferResponse>)
    modifies db`accounts
    ensures TransferOutcome(db.accounts, reply) == Transfer(old(db.accounts), db.configRows, uuid, req)
  {
    var rows: nat, fee: int;
    if req.from == "wallet" && req.to == "bank" {
      rows, fee := WalletToBankWithFee(db, uuid, req.amount);
    } else if req.from == "bank" && req.to == "wallet" {
      rows, fee := BankToWalletWithFee(db, uuid, req.amount);
    } else {
      return Ok(TransferResponse(false, InvalidDirection, 0, 0, 0, req.amount));
    }
    if rows == 0 {
      var message := ClassifyFailure(Get(db.accounts, uuid), req.from, req.amount, fee);
      return Ok(TransferResponse(false, message, 0, 0, fee, req.amount));
    }
    if uuid !in db.accounts {
      return InternalError;
    }
    var user := db.accounts[uuid];
    reply := Ok(TransferResponse(true, Transferred(req.amount, req.from, req.to, fee),
                                 user.wallet, user.bank, fee, req.amount));
  }

  /** Any pair other than wallet/bank and bank/wallet is declined before storage is touched. */
  lemma InvalidDirectionDeclined(accounts: map<string, Account>, configRows: seq<ConfigRow>,
                                 uuid: string, req: TransferRequest)
    requires !ValidDirection(req.from, req.to)
    ensures Transfer(accounts, configRows, uuid, req)
            == TransferOutcome(accounts, Ok(TransferResponse(false, InvalidDirection, 0, 0, 0, req.amount)))
  {
  }

  /**
   * A valid-direction transfer succeeds exactly when the account exists, its
   * source store holds at least amount + fee and its bank flag is 1. On success
   * the source loses amount + fee, the destination gains amount, the flag and
   * every other account are unchanged, and the reply carries the fee and the
   * balances as re-read. A successful transfer never yields an internal error.
   */
  lemma TransferSuccess(accounts: map<string, Account>, configRows: seq<ConfigRow>,
                        uuid: string, req: TransferRequest)
    requires ValidDirection(req.from, req.to)
    ensures var out := Transfer(accounts, configRows, uuid, req);
            var fee := FeeFor(configRows, req);
            var source := SourceOf(req);
            && out.reply.Ok?
            && (out.reply.body.success <==>
                  uuid in accounts && GuardHolds(accounts[uuid], source, req.amount + fee))
            && (out.reply.body.success ==>
                  var before, after := accounts[uuid], out.accounts[uuid];
                  && out.accounts == accounts[uuid := after]
                  && Balance(after, source) == Balance(before, source) - (req.amount + fee)
                  && Balance(after, Other(source)) == Balance(before, Other(source)) + req.amount
                  && after.isBankOpen == before.isBankOpen
                  && out.reply.body == TransferResponse(true, Transferred(req.amount, req.from, req.to, fee),
                                                        after.wallet, after.bank, fee, req.amount))
  {
    GuardedTransferEffect(accounts, uuid, SourceOf(req), req.amount, req.amount + FeeFor(configRows, req));
  }

  /**
   * A valid-direction transfer that fails leaves the table as it was and
   * reports the computed fee, zero balances and the classified cause.
   */
  lemma TransferFailure(accounts: map<string, Account>, configRows: seq<ConfigRow>,
                        uuid: string, req: TransferRequest)
    requires ValidDirection(req.from, req.to)
    requires !(uuid in accounts && GuardHolds(accounts[uuid], SourceOf(req), req.amount + FeeFor(configRows, req)))
    ensures var fee := FeeFor(configRows, req);
            Transfer(accounts, configRows, uuid, req)
            == TransferOutcome(accounts, Ok(TransferResponse(
                 false, ClassifyFailure(Get(accounts, uuid), req.from, req.amount, fee), 0, 0, fee, req.amount)))
  {
  }

  /** No transfer of a non-negative amount can drive any balance below zero. */
  lemma TransferKeepsBalancesNonNegative(accounts: map<string, Account>, configRows: seq<ConfigRow>,
                                         uuid: string, req: TransferRequest)
    requires BalancesNonNegative(accounts)
    requires 0 <= req.amount
    ensures BalancesNonNegative(Transfer(accounts, configRows, uuid, req).accounts)
  {
    if ValidDirection(req.from, req.to) {
      GuardedTransferKeepsBalancesNonNegative(accounts, uuid, SourceOf(req), req.amount,
                                              req.amount + FeeFor(configRows, req));
    }
  }

  /**
   * The guard and the classifier read the bank flag differently: with the flag
   * at 2 and ample funds the transfer is refused, and the refusal is reported
   * as insufficient funds although the balance covers what is needed.
   */
  lemma BankFlagReadTwoWays()
    ensures var accounts := map["p" := Account(1000, 0, 2)];
            var out := Transfer(accounts, [], "p", TransferRequest("wallet", "bank", 100));
            && out.accounts == accounts
            && out.reply == Ok(TransferResponse(false, InsufficientFunds("wallet", 1000, 110), 0, 0, 10, 100))
  {
    assert FeeFor([], TransferRequest("wallet", "bank", 100)) == 10;
  }

  /**
   * Bank to wallet, 5000 requested, 3000 in a closed bank: declined as a closed
   * bank, not as short funds, with no balance change.
   */
  lemma ClosedBankDeclined()
    ensures var accounts := map["p" := Account(0, 3000, 0)];
            var out := Transfer(accounts, [], "p", TransferRequest("bank", "wallet", 5000));
            && out.accounts == accounts
            && out.reply == Ok(TransferResponse(false, BankNotOpen, 0, 0, 500, 5000))
  {
    assert FeeFor([], TransferRequest("bank", "wallet", 5000)) == 500;
  }

  /**
   * There is no check on the amount's sign: a wallet-to-bank transfer of -100
   * from an empty account with the default rates computes a fee of -10, passes
   * the guard, and succeeds, leaving the wallet at 110 and the bank at -100.
   */
  lemma NegativeTransfer()
    ensures var out := Transfer(map["p" := Account(0, 0, 1)], [], "p", TransferRequest("wallet", "bank", -100));
            && out.accounts == map["p" := Account(110, -100, 1)]
            && out.reply == Ok(TransferResponse(true, Transferred(-100, "wallet", "bank", -10), 110, -100, -10, -100))
  {
    assert FeeFor([], TransferRequest("wallet", "bank", -100)) == -10;
  }
}
