/**
 * The records the node and the indexer return, as far as the scripts and
 * handlers read them, and the balance rule they share. Every field the code
 * reads with `d.get(key, default)` is an `Option`; amounts are microAlgos.
 */
module Ledger {
  import opened Wrappers

  /** The minimum balance the handlers assume when `min-balance` is missing. */
  const DefaultMinBalance: int := 100_000

  /** The fields of an `account_info` reply the code reads. */
  datatype AccountInfo = AccountInfo(
    amount: Option<int>,
    minBalance: Option<int>,
    status: Option<string>,
    round: Option<int>,
    pendingRewards: Option<int>,
    assets: nat,          // len(account_info.get('assets', []))
    appsLocalState: nat,  // len(account_info.get('apps-local-state', []))
    createdApps: nat)     // len(account_info.get('created-apps', []))

  /** `account_info.get('amount', 0)` */
  function Balance(a: AccountInfo): int {
    a.amount.GetOr(0)
  }

  /** The payment fields of `pending_info['txn']['txn']`; a missing `txn` has none of them. */
  datatype TxnFields = TxnFields(snd: Option<string>, rcv: Option<string>, amt: Option<int>, fee: Option<int>)

  /** The fields of a `pending_transaction_info` reply the code reads. */
  datatype PendingInfo = PendingInfo(
    confirmedRound: Option<int>,
    poolError: Option<string>,
    txn: TxnFields,
    applicationIndex: Option<int>)

  /** `pending_info.get('confirmed-round', 0)` */
  function ConfirmedRound(p: PendingInfo): int {
    p.confirmedRound.GetOr(0)
  }

  /** The test every caller applies: a positive confirmed round. */
  predicate IsConfirmed(p: PendingInfo) {
    ConfirmedRound(p) > 0
  }

  /** What a payment needs: the amount, the fee and the minimum balance that must remain. */
  function TotalNeeded(amount: int, fee: int, minBalance: int): int {
    amount + fee + minBalance
  }

  /** The rule applied before every payment: `balance >= amount + fee + min_balance`. */
  predicate CoversPayment(balance: int, amount: int, fee: int, minBalance: int) {
    balance >= TotalNeeded(amount, fee, minBalance)
  }

  /** The sender's side of the rule, with `min-balance` defaulting to 100000. */
  predicate SenderCovers(info: AccountInfo, amount: int, fee: int) {
    CoversPayment(Balance(info), amount, fee, info.minBalance.GetOr(DefaultMinBalance))
  }
}
