/**
 * The node (algod) and the indexer, as the handlers and scripts see them:
 * each call is a value it returns, or the text of the exception it raises.
 * Building a client from the environment is part of the call that follows.
 */
module Services {
  import opened Wrappers
  import opened Ledger
  import opened Helpers
  import opened History

  /** What the node answers during one request. */
  datatype Algod = Algod(
    suggestedFee: Result<int>,                      // suggested_params().fee
    accountInfo: string -> Result<AccountInfo>,     // account_info(address)
    pendingInfo: string -> Result<PendingInfo>,     // pending_transaction_info(txid)
    submit: Result<string>,                         // signing and send_transaction: the txid
    lastRound: Option<int>,                         // status()['last-round'] inside the wait
    poll: nat -> Lookup)                            // the k-th lookup inside the wait

  /**
   * `wait_for_confirmation(client, txid, timeout=10)` as every caller makes
   * it: a record it returns carries a positive confirmed round.
   */
  function Confirmation(algod: Algod): (c: Option<PendingInfo>)
    ensures c.Some? ==> IsConfirmed(c.value) && c.value.confirmedRound.Some? && c.value.confirmedRound.value > 0
    ensures c.Some? <==> algod.lastRound.Some? && exists k :: 0 <= k < DefaultTimeout && ConfirmedAt(algod.poll, k)
  {
    WaitFacts(algod.lastRound, algod.poll, DefaultTimeout);
    Wait(algod.lastRound, algod.poll, DefaultTimeout).result
  }

  /** `search_transactions_by_address(address, limit=limit)['transactions']`, or the exception text. */
  type Search = string -> int -> Result<seq<IndexerTxn>>
}
