/**
 * The serverless payment handler (api/send-transaction.py): a first check
 * on the stripped input, then the same sequence as the backend with its own
 * success message.
 */
module ApiSendTransaction {
  import opened Wrappers
  import opened Text
  import opened Ledger
  import opened Http
  import opened Views
  import opened Services
  import Backend

  /**
   * The JSON body's string fields; a missing key is `None`. The amount is in
   * microAlgos. A body whose field is `null` or not a string makes the
   * reading of the fields raise, so it is an `Err` body, not a `Payload`.
   */
  datatype Payload = Payload(
    senderMnemonic: Option<string>,
    receiverAddress: Option<string>,
    amount: Option<int>,
    note: Option<string>)

  const InvalidInput: string := "Invalid input parameters"
  const SentMessage: string := "Transaction sent successfully"

  /** The input check: stripped mnemonic and receiver non-empty, amount positive (missing: '' and 0). */
  predicate InputAccepted(p: Payload) {
    Strip(p.senderMnemonic.GetOr("")) != [] && Strip(p.receiverAddress.GetOr("")) != [] && p.amount.GetOr(0) > 0
  }

  /** Everything the handler needs, after the input check, for a payment to be submitted. */
  predicate Submittable(p: Payload, recover: string -> Result<string>, isValid: string -> bool, algod: Algod) {
    var receiver := Strip(p.receiverAddress.GetOr(""));
    var sender := recover(Strip(p.senderMnemonic.GetOr("")));
    InputAccepted(p) && sender.Ok? && isValid(receiver) && sender.value != receiver &&
    algod.suggestedFee.Ok? && algod.accountInfo(sender.value).Ok? &&
    SenderCovers(algod.accountInfo(sender.value).value, p.amount.GetOr(0), algod.suggestedFee.value)
  }

  /**
   * `handler.do_POST`. `body` is the parsed JSON body or the text of the
   * exception reading it raised. Every exception becomes 500 with its text.
   */
  function HandlePost(body: Result<Payload>, recover: string -> Result<string>, isValid: string -> bool, algod: Algod)
    : (r: Response<SendBody>)
    ensures body.Err? ==> r == Fail(ServerError, body.message)
    ensures r == Fail(BadRequest, InvalidInput) <==> body.Ok? && !InputAccepted(body.value)
    ensures body.Ok? && InputAccepted(body.value) ==>
      var p := body.value;
      var receiver := Strip(p.receiverAddress.GetOr(""));
      var sender := recover(Strip(p.senderMnemonic.GetOr("")));
      (sender.Err? ==> r == Fail(ServerError, sender.message)) &&
      (sender.Ok? && !isValid(receiver) ==> r == Fail(BadRequest, Backend.InvalidReceiver)) &&
      (sender.Ok? && isValid(receiver) && sender.value == receiver ==> r == Fail(BadRequest, Backend.SameAddress)) &&
      (sender.Ok? && isValid(receiver) && sender.value != receiver ==>
         var info := algod.accountInfo(sender.value);
         (algod.suggestedFee.Err? ==> r == Fail(ServerError, algod.suggestedFee.message)) &&
         (algod.suggestedFee.Ok? && info.Err? ==> r == Fail(ServerError, info.message)) &&
         ((algod.suggestedFee.Ok? && info.Ok? && SenderCovers(info.value, p.amount.GetOr(0), algod.suggestedFee.value) &&
           algod.submit.Err?) ==> r == Fail(ServerError, algod.submit.message)))
    ensures r == Fail(BadRequest, Backend.InsufficientBalance) <==>
      body.Ok? && InputAccepted(body.value) &&
      var p := body.value;
      var receiver := Strip(p.receiverAddress.GetOr(""));
      var sender := recover(Strip(p.senderMnemonic.GetOr("")));
      sender.Ok? && isValid(receiver) && sender.value != receiver &&
      algod.suggestedFee.Ok? && algod.accountInfo(sender.value).Ok? &&
      !SenderCovers(algod.accountInfo(sender.value).value, p.amount.GetOr(0), algod.suggestedFee.value)
    ensures r.Success? <==> body.Ok? && Submittable(body.value, recover, isValid, algod) && algod.submit.Ok?
    ensures r.Success? ==>
      r.body == SendBody(true, algod.submit.value,
                         if Confirmation(algod).Some? then Confirmation(algod).value.confirmedRound else None,
                         SentMessage)
    ensures r.Fail? ==> r.status == BadRequest || r.status == ServerError
  {
    match body
    case Err(e) => Fail(ServerError, e)
    case Ok(p) =>
      var mnemonic := Strip(p.senderMnemonic.GetOr(""));
      var receiver := Strip(p.receiverAddress.GetOr(""));
      var amount := p.amount.GetOr(0);
      if mnemonic == [] || receiver == [] || amount <= 0 then Fail(BadRequest, InvalidInput)
      else
        match recover(mnemonic)
        case Err(e) => Fail(ServerError, e)
        case Ok(sender) =>
          if !isValid(receiver) then Fail(BadRequest, Backend.InvalidReceiver)
          else if sender == receiver then Fail(BadRequest, Backend.SameAddress)
          else
            match algod.suggestedFee
            case Err(e) => Fail(ServerError, e)
            case Ok(fee) =>
              match algod.accountInfo(sender)
              case Err(e) => Fail(ServerError, e)
              case Ok(info) =>
                if !SenderCovers(info, amount, fee) then Fail(BadRequest, Backend.InsufficientBalance)
                else
                  match algod.submit
                  case Err(e) => Fail(ServerError, e)
                  case Ok(txid) =>
                    var confirmed := Confirmation(algod);
                    Success(SendBody(true, txid, if confirmed.Some? then confirmed.value.confirmedRound else None,
                                     SentMessage))
  }

  /** A rejected input is answered before the mnemonic is read or the node contacted. */
  lemma InputCheckPrecedesEverything(p: Payload, r1: string -> Result<string>, r2: string -> Result<string>,
                                     v1: string -> bool, v2: string -> bool, a1: Algod, a2: Algod)
    requires !InputAccepted(p)
    ensures HandlePost(Ok(p), r1, v1, a1) == HandlePost(Ok(p), r2, v2, a2) == Fail(BadRequest, InvalidInput)
  {
  }

  /**
   * On input already stripped, present and positive, the handler and the
   * backend refuse the same requests with the same reply, and accept the
   * same ones with the same transaction id and confirmed round; only the
   * success message differs.
   */
  lemma AgreesWithBackend(mnemonic: string, receiver: string, amount: int, note: Option<string>,
                          recover: string -> Result<string>, isValid: string -> bool, algod: Algod)
    requires mnemonic != [] && Strip(mnemonic) == mnemonic
    requires receiver != [] && Strip(receiver) == receiver
    requires amount > 0
    ensures var h := HandlePost(Ok(Payload(Some(mnemonic), Some(receiver), Some(amount), note)), recover, isValid, algod);
      var b := Backend.SendTransaction(Backend.SendRequest(mnemonic, receiver, amount), recover, isValid, algod);
      h.Success? == b.Success? &&
      (h.Fail? ==> h == b) &&
      (h.Success? ==> h.body.transactionId == b.body.transactionId && h.body.confirmedRound == b.body.confirmedRound)
  {
  }
}
