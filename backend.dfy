/**
 * The decision logic of the FastAPI backend (backend/main.py): the checks a
 * payment request passes in order, the balance rule, the reply after the
 * wait, and the balance, status and history endpoints.
 */
module Backend {
  import opened Wrappers
  import opened Text
  import opened Ledger
  import opened Http
  import opened History
  import opened Views
  import opened Services

  /** A payment request; the amount is already in microAlgos. The note only travels in the transaction. */
  datatype SendRequest = SendRequest(senderMnemonic: string, receiverAddress: string, amount: int)

  const InvalidReceiver: string := "Invalid receiver address"
  const SameAddress: string := "Cannot send to the same address"
  const NonPositiveAmount: string := "Amount must be greater than zero"
  const InsufficientBalance: string := "Insufficient balance"
  const InvalidAddress: string := "Invalid Algorand address"
  const ConfirmedMessage: string := "Transaction sent and confirmed successfully"
  const TimedOutMessage: string := "Transaction sent but confirmation timed out. Check status later."

  /** The checks made before the node is contacted, in their order. */
  function EarlyChecks(req: SendRequest, sender: string, isValid: string -> bool): Option<string> {
    if !isValid(req.receiverAddress) then Some(InvalidReceiver)
    else if sender == req.receiverAddress then Some(SameAddress)
    else if req.amount <= 0 then Some(NonPositiveAmount)
    else None
  }

  /** Everything a payment needs for it to be submitted. */
  predicate Submittable(req: SendRequest, recover: string -> Result<string>, isValid: string -> bool, algod: Algod) {
    var sender := recover(req.senderMnemonic);
    sender.Ok? && EarlyChecks(req, sender.value, isValid).None? &&
    algod.suggestedFee.Ok? && algod.accountInfo(sender.value).Ok? &&
    SenderCovers(algod.accountInfo(sender.value).value, req.amount, algod.suggestedFee.value)
  }

  /**
   * `POST /transaction/send`. `recover` stands for the mnemonic-to-address
   * conversion, `isValid` for `validate_address`; any exception becomes 500
   * with its text, while the 400 replies pass through unchanged.
   */
  function SendTransaction(req: SendRequest, recover: string -> Result<string>, isValid: string -> bool, algod: Algod)
    : (r: Response<SendBody>)
    ensures recover(req.senderMnemonic).Err? ==> r == Fail(ServerError, recover(req.senderMnemonic).message)
    ensures recover(req.senderMnemonic).Ok? ==>
      var sender := recover(req.senderMnemonic).value;
      (!isValid(req.receiverAddress) ==> r == Fail(BadRequest, InvalidReceiver)) &&
      (isValid(req.receiverAddress) && sender == req.receiverAddress ==> r == Fail(BadRequest, SameAddress)) &&
      (isValid(req.receiverAddress) && sender != req.receiverAddress && req.amount <= 0 ==>
         r == Fail(BadRequest, NonPositiveAmount))
    ensures recover(req.senderMnemonic).Ok? && EarlyChecks(req, recover(req.senderMnemonic).value, isValid).None? ==>
      var info := algod.accountInfo(recover(req.senderMnemonic).value);
      (algod.suggestedFee.Err? ==> r == Fail(ServerError, algod.suggestedFee.message)) &&
      (algod.suggestedFee.Ok? && info.Err? ==> r == Fail(ServerError, info.message)) &&
      ((algod.suggestedFee.Ok? && info.Ok? && SenderCovers(info.value, req.amount, algod.suggestedFee.value) &&
        algod.submit.Err?) ==> r == Fail(ServerError, algod.submit.message))
    ensures r == Fail(BadRequest, InsufficientBalance) <==>
      recover(req.senderMnemonic).Ok? &&
      EarlyChecks(req, recover(req.senderMnemonic).value, isValid).None? &&
      algod.suggestedFee.Ok? && algod.accountInfo(recover(req.senderMnemonic).value).Ok? &&
      !SenderCovers(algod.accountInfo(recover(req.senderMnemonic).value).value, req.amount, algod.suggestedFee.value)
    ensures r.Success? <==> Submittable(req, recover, isValid, algod) && algod.submit.Ok?
    ensures r.Success? ==>
      r.body.success && r.body.transactionId == algod.submit.value &&
      (Confirmation(algod).None? ==> r.body.confirmedRound.None? && r.body.message == TimedOutMessage) &&
      (Confirmation(algod).Some? ==>
         r.body.confirmedRound == Confirmation(algod).value.confirmedRound &&
         r.body.confirmedRound.Some? && r.body.confirmedRound.value > 0 &&
         r.body.message == ConfirmedMessage)
  {
    match recover(req.senderMnemonic)
    case Err(e) => Fail(ServerError, e)
    case Ok(sender) =>
      match EarlyChecks(req, sender, isValid)
      case Some(detail) => Fail(BadRequest, detail)
      case None =>
        match algod.suggestedFee
        case Err(e) => Fail(ServerError, e)
        case Ok(fee) =>
          match algod.accountInfo(sender)
          case Err(e) => Fail(ServerError, e)
          case Ok(info) =>
            if !SenderCovers(info, req.amount, fee) then Fail(BadRequest, InsufficientBalance)
            else
              match algod.submit
              case Err(e) => Fail(ServerError, e)
              case Ok(txid) =>
                match Confirmation(algod)
                case Some(confirmed) => Success(SendBody(true, txid, confirmed.confirmedRound, ConfirmedMessage))
                case None => Success(SendBody(true, txid, None, TimedOutMessage))
  }

  /**
   * A request that fails a check made before the node is contacted gets the
   * same 400 reply whatever the node would have answered.
   */
  lemma SendChecksPrecedeNetwork(req: SendRequest, recover: string -> Result<string>, isValid: string -> bool,
                                 a1: Algod, a2: Algod)
    requires recover(req.senderMnemonic).Ok?
    requires EarlyChecks(req, recover(req.senderMnemonic).value, isValid).Some?
    ensures SendTransaction(req, recover, isValid, a1) == SendTransaction(req, recover, isValid, a2)
    ensures SendTransaction(req, recover, isValid, a1).Fail? && SendTransaction(req, recover, isValid, a1).status == BadRequest
  {
  }

  /**
   * The payment is refused as insufficient exactly when the balance is below
   * amount + fee + min-balance, min-balance defaulting to 100000.
   */
  lemma InsufficientIff(req: SendRequest, recover: string -> Result<string>, isValid: string -> bool, algod: Algod,
                        sender: string, fee: int, info: AccountInfo)
    requires recover(req.senderMnemonic) == Ok(sender) && EarlyChecks(req, sender, isValid).None?
    requires algod.suggestedFee == Ok(fee) && algod.accountInfo(sender) == Ok(info)
    ensures SendTransaction(req, recover, isValid, algod) == Fail(BadRequest, InsufficientBalance) <==>
      Balance(info) < req.amount + fee + info.minBalance.GetOr(100_000)
  {
  }

  /** `GET /account/balance/{address}`. */
  function GetBalance(address: string, isValid: string -> bool, algod: Algod): (r: Response<BalanceView>)
    ensures !isValid(address) ==> r == Fail(BadRequest, InvalidAddress)
    ensures r.Success? <==> isValid(address) && algod.accountInfo(address).Ok?
    ensures r.Success? ==> r.body == BalanceOf(address, algod.accountInfo(address).value)
    ensures isValid(address) && algod.accountInfo(address).Err? ==>
      var e := algod.accountInfo(address).message;
      r.Fail? && (r.status == NotFound <==> MentionsMissingAccount(e)) &&
      (r.status != NotFound ==> r == Fail(ServerError, e))
  {
    if !isValid(address) then Fail(BadRequest, InvalidAddress)
    else
      match algod.accountInfo(address)
      case Err(e) => AccountLookupFailure(e)
      case Ok(info) => Success(BalanceOf(address, info))
  }

  /** An invalid address is answered without contacting the node. */
  lemma BalanceCheckPrecedesNetwork(address: string, isValid: string -> bool, a1: Algod, a2: Algod)
    requires !isValid(address)
    ensures GetBalance(address, isValid, a1) == GetBalance(address, isValid, a2)
  {
  }

  /** `GET /transaction/status/{txid}`. */
  function GetTransactionStatus(txid: string, algod: Algod): (r: Response<StatusView>)
    ensures r.Success? <==> algod.pendingInfo(txid).Ok?
    ensures r.Success? ==> r.body == StatusOf(txid, algod.pendingInfo(txid).value)
    ensures algod.pendingInfo(txid).Err? ==>
      var e := algod.pendingInfo(txid).message;
      (Contains(Lower(e), "not found") ==> r == Fail(NotFound, TransactionNotFoundDetail)) &&
      (!Contains(Lower(e), "not found") ==> r == Fail(ServerError, e))
  {
    match algod.pendingInfo(txid)
    case Err(e) =>
      LookupFailureClassification<StatusView>(e);
      TransactionLookupFailure(e)
    case Ok(p) => Success(StatusOf(txid, p))
  }

  /** `GET /transaction/history/{address}`: the indexer's list, formatted entry by entry; `limit` defaults to 10. */
  method GetTransactionHistory(address: string, limit: Option<int>, isValid: string -> bool, search: Search)
    returns (r: Response<HistoryBody>)
    ensures !isValid(address) ==> r == Fail(BadRequest, InvalidAddress)
    ensures isValid(address) && search(address)(limit.GetOr(10)).Err? ==>
      r == Fail(ServerError, search(address)(limit.GetOr(10)).message)
    ensures r.Success? <==> isValid(address) && search(address)(limit.GetOr(10)).Ok?
    ensures r.Success? ==>
      var txns := search(address)(limit.GetOr(10)).value;
      r.body.address == address && r.body.count == |r.body.transactions| == |txns| &&
      forall i :: 0 <= i < |txns| ==> r.body.transactions[i] == FormatTxn(txns[i])
  {
    if !isValid(address) {
      return Fail(BadRequest, InvalidAddress);
    }
    var response := search(address)(limit.GetOr(10));
    if response.Err? {
      return Fail(ServerError, response.message);
    }
    var formatted := FormatTransactions(response.value);
    r := Success(HistoryBody(address, formatted, |formatted|));
  }
}
