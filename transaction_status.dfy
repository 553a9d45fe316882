/** The status script (scripts/transaction_status.py). */
module TransactionStatusScript {
  import opened Wrappers
  import opened Ledger

  /** The pair `(status_dict, is_confirmed)`. */
  datatype StatusCheck = StatusCheck(info: Option<PendingInfo>, isConfirmed: bool)

  /**
   * `get_transaction_status`: the record with whether its confirmed round
   * (0 when missing) is positive; any lookup exception gives `(None, False)`.
   */
  function GetTransactionStatus(lookup: Result<PendingInfo>): (r: StatusCheck)
    ensures r.info.Some? <==> lookup.Ok?
    ensures r.info.Some? ==> r.info.value == lookup.value
    ensures r.isConfirmed <==> lookup.Ok? && lookup.value.confirmedRound.Some? && lookup.value.confirmedRound.value > 0
    ensures r.isConfirmed ==> r.info.Some?
  {
    match lookup
    case Err(_) => StatusCheck(None, false)
    case Ok(p) =>
      if ConfirmedRound(p) > 0 then StatusCheck(Some(p), true) else StatusCheck(Some(p), false)
  }

  /** The pool-error line of `display_pending_transaction`: shown only for a non-empty `pool-error`. */
  function PoolErrorLine(p: PendingInfo): (line: Option<string>)
    ensures line.Some? <==> p.poolError.Some? && p.poolError.value != []
    ensures line.Some? ==> line == p.poolError
  {
    var poolError := p.poolError.GetOr("");
    if poolError != [] then Some(poolError) else None
  }

  /** What `main` ends up showing. */
  datatype Shown =
    | NoTxid                                         // nothing was typed
    | Unretrieved                                    // the lookup failed
    | ShowConfirmed(info: PendingInfo)
    | ShowPending(info: PendingInfo, poolError: Option<string>)

  /**
   * `main`, after the transaction id was read: a missing record is a failure
   * before `is_confirmed` is looked at; a confirmed one is shown as
   * confirmed; anything else as pending, with its pool error if any.
   */
  function Run(txid: string, lookup: string -> Result<PendingInfo>): (s: Shown)
    ensures txid == [] ==> s == NoTxid
    ensures txid != [] ==> (s == Unretrieved <==> lookup(txid).Err?)
    ensures s.ShowConfirmed? ==> s.info == lookup(txid).value && IsConfirmed(s.info)
    ensures s.ShowPending? ==> s.info == lookup(txid).value && !IsConfirmed(s.info) && s.poolError == PoolErrorLine(s.info)
    ensures txid != [] && lookup(txid).Ok? ==> (s.ShowConfirmed? <==> IsConfirmed(lookup(txid).value))
  {
    if txid == [] then NoTxid
    else
      var check := GetTransactionStatus(lookup(txid));
      if check.info.None? then Unretrieved
      else if check.isConfirmed then ShowConfirmed(check.info.value)
      else ShowPending(check.info.value, PoolErrorLine(check.info.value))
  }
}
