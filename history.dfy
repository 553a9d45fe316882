/**
 * Transaction history as the indexer reports it and as the history
 * endpoints list it (backend/main.py and api/transaction-history.py share
 * the same formatting loop).
 */
module History {
  import opened Wrappers

  datatype PaymentPart = PaymentPart(receiver: Option<string>, amount: Option<int>)
  datatype AssetTransferPart = AssetTransferPart(assetId: Option<int>, amount: Option<int>)
  datatype ApplicationPart = ApplicationPart(applicationId: Option<int>)

  /** One entry of the indexer's `transactions` list, as far as it is read. */
  datatype IndexerTxn = IndexerTxn(
    id: Option<string>,
    confirmedRound: Option<int>,
    txType: Option<string>,
    roundTime: Option<int>,
    sender: Option<string>,
    payment: Option<PaymentPart>,             // 'payment-transaction'
    assetTransfer: Option<AssetTransferPart>, // 'asset-transfer-transaction'
    application: Option<ApplicationPart>)     // 'application-transaction'

  /** The pay-only keys `receiver` and `amount_algo` (kept here in microAlgos). */
  datatype PaymentView = PaymentView(receiver: string, amount: int)

  /** One formatted history entry. */
  datatype FormattedTxn = FormattedTxn(
    id: string,
    round: int,
    txType: string,
    timestamp: int,
    sender: string,
    payment: Option<PaymentView>)

  predicate IsPayment(t: IndexerTxn) {
    t.txType == Some("pay")
  }

  /**
   * One entry: missing fields read as '', 0 or 'unknown'; the payment keys
   * are added exactly for a 'pay' transaction, from its (possibly missing)
   * 'payment-transaction' part.
   */
  function FormatTxn(t: IndexerTxn): (f: FormattedTxn)
  {
    var base := FormattedTxn(
      t.id.GetOr(""), t.confirmedRound.GetOr(0), t.txType.GetOr("unknown"),
      t.roundTime.GetOr(0), t.sender.GetOr(""), None);
    if IsPayment(t) then
      var p := t.payment.GetOr(PaymentPart(None, None));
      base.(payment := Some(PaymentView(p.receiver.GetOr(""), p.amount.GetOr(0))))
    else base
  }

  /** The fields of an entry, and when the payment keys appear. */
  lemma FormatTxnFields(t: IndexerTxn)
    ensures var f := FormatTxn(t);
      f.id == t.id.GetOr("") && f.round == t.confirmedRound.GetOr(0) &&
      f.txType == t.txType.GetOr("unknown") && f.timestamp == t.roundTime.GetOr(0) &&
      f.sender == t.sender.GetOr("") &&
      (f.payment.Some? <==> t.txType == Some("pay")) &&
      (t.txType == None ==> f.txType == "unknown" && f.payment.None?)
  {
  }

  /**
   * The loop of the history endpoints: one formatted entry per indexer
   * transaction, in the same order.
   */
  method FormatTransactions(transactions: seq<IndexerTxn>) returns (formatted: seq<FormattedTxn>)
    ensures |formatted| == |transactions|
    ensures forall i :: 0 <= i < |transactions| ==> formatted[i] == FormatTxn(transactions[i])
  {
    formatted := [];
    for i := 0 to |transactions|
      invariant |formatted| == i
      invariant forall j :: 0 <= j < i ==> formatted[j] == FormatTxn(transactions[j])
    {
      var txn := transactions[i];
      var entry := FormattedTxn(
        txn.id.GetOr(""), txn.confirmedRound.GetOr(0), txn.txType.GetOr("unknown"),
        txn.roundTime.GetOr(0), txn.sender.GetOr(""), None);
      if txn.txType == Some("pay") {
        var part := txn.payment.GetOr(PaymentPart(None, None));
        entry := entry.(payment := Some(PaymentView(part.receiver.GetOr(""), part.amount.GetOr(0))));
      }
      formatted := formatted + [entry];
    }
  }

  /** The body both history endpoints return on success. */
  datatype HistoryBody = HistoryBody(address: string, transactions: seq<FormattedTxn>, count: int)
}
