/** The serverless status handler (api/transaction-status.py). */
module ApiTransactionStatus {
  import opened Wrappers
  import opened Text
  import opened Http
  import opened Views
  import opened Services
  import Backend

  const TxidRequired: string := "Transaction ID is required"

  /**
   * `handler.do_GET`: `txid` is the query parameter (`None` when absent; an
   * empty one counts as absent). Without one the reply is 400 and the node
   * is not asked.
   */
  function HandleGet(txid: Option<string>, algod: Algod): (r: Response<StatusView>)
    ensures txid.None? || txid.value == [] ==> r == Fail(BadRequest, TxidRequired)
    ensures r.Success? <==> txid.Some? && txid.value != [] && algod.pendingInfo(txid.value).Ok?
    ensures r.Success? ==> r.body == StatusOf(txid.value, algod.pendingInfo(txid.value).value)
    ensures txid.Some? && txid.value != [] && algod.pendingInfo(txid.value).Err? ==>
      var e := algod.pendingInfo(txid.value).message;
      (Contains(Lower(e), "not found") ==> r == Fail(NotFound, TransactionNotFoundDetail)) &&
      (!Contains(Lower(e), "not found") ==> r == Fail(ServerError, e))
  {
    if txid.None? || txid.value == [] then Fail(BadRequest, TxidRequired)
    else
      match algod.pendingInfo(txid.value)
      case Err(e) =>
        LookupFailureClassification<StatusView>(e);
        TransactionLookupFailure(e)
      case Ok(p) => Success(StatusOf(txid.value, p))
  }

  /** With a transaction id, the handler answers exactly as the backend's status endpoint. */
  lemma AgreesWithBackend(txid: string, algod: Algod)
    requires txid != []
    ensures HandleGet(Some(txid), algod) == Backend.GetTransactionStatus(txid, algod)
  {
  }

  /** Without a transaction id the node's answers do not matter. */
  lemma MissingTxidPrecedesNetwork(a1: Algod, a2: Algod)
    ensures HandleGet(None, a1) == HandleGet(None, a2) == HandleGet(Some(""), a1)
  {
  }
}
