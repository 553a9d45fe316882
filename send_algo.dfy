/**
 * The interactive payment script (scripts/send_algo.py): the prompts, the
 * balance check and the order in which `main` gives up.
 */
module SendAlgo {
  import opened Wrappers
  import opened Text
  import opened Ledger
  import opened Services

  /** What the mnemonic conversion yields: the private key and the address. */
  datatype Keypair = Keypair(privateKey: string, address: string)

  /**
   * `get_sender_private_key`: the stripped input, or nothing when it is
   * empty or the conversion raises. `None` stands for `(None, None)`.
   */
  function GetSenderPrivateKey(input: string, recover: string -> Result<Keypair>): (r: Option<Keypair>)
    ensures Strip(input) == [] ==> r.None?
    ensures r.Some? <==> Strip(input) != [] && recover(Strip(input)).Ok?
    ensures r.Some? ==> r.value == recover(Strip(input)).value
  {
    var phrase := Strip(input);
    if phrase == [] then None
    else
      match recover(phrase)
      case Ok(keys) => Some(keys)
      case Err(_) => None
  }

  /** `get_receiver_address`: the stripped input when it is a valid address. */
  function GetReceiverAddress(input: string, isValid: string -> bool): (r: Option<string>)
    ensures r.Some? <==> isValid(Strip(input))
    ensures r.Some? ==> r.value == Strip(input)
  {
    var receiver := Strip(input);
    if isValid(receiver) then Some(receiver) else None
  }

  /**
   * `get_amount_to_send`, on the amount already in microAlgos: `None` when
   * the input is not a number (`amount` is `None`) or not positive.
   */
  function GetAmountToSend(amount: Option<int>): (r: Option<int>)
    ensures r.Some? <==> amount.Some? && amount.value > 0
    ensures r.Some? ==> r == amount
  {
    match amount
    case None => None
    case Some(n) => if n <= 0 then None else Some(n)
  }

  /** `get_optional_note`: the stripped text, or `None` when nothing but whitespace was typed. */
  function GetOptionalNote(input: string): (r: Option<string>)
    ensures r.None? <==> AllSpace(input)
    ensures r.Some? ==> r.value == Strip(input) && r.value != []
  {
    var note := Strip(input);
    if note != [] then Some(note) else None
  }

  /** What the balance check reports. */
  datatype BalanceCheck =
    | LookupFailed              // the account lookup raised
    | Short(shortfall: int)     // "You need ... more ALGO"
    | Enough(remaining: int)    // "Remaining after: ..."

  /**
   * The report of `verify_sender_balance`: the shortfall is what is missing
   * towards amount + fee + min-balance (100000 when missing), the remainder
   * what is left above it.
   */
  function SenderBalanceReport(lookup: Result<AccountInfo>, amount: int, fee: int): (c: BalanceCheck)
    ensures c.LookupFailed? <==> lookup.Err?
    ensures c.Short? ==>
      c.shortfall > 0 &&
      c.shortfall == TotalNeeded(amount, fee, lookup.value.minBalance.GetOr(DefaultMinBalance)) - Balance(lookup.value)
    ensures c.Enough? ==>
      c.remaining >= 0 &&
      c.remaining == Balance(lookup.value) - TotalNeeded(amount, fee, lookup.value.minBalance.GetOr(DefaultMinBalance))
  {
    match lookup
    case Err(_) => LookupFailed
    case Ok(info) =>
      var totalNeeded := TotalNeeded(amount, fee, info.minBalance.GetOr(DefaultMinBalance));
      var balance := Balance(info);
      if balance < totalNeeded then Short(totalNeeded - balance) else Enough(balance - totalNeeded)
  }

  /** `verify_sender_balance`: true exactly when the lookup succeeds and the balance covers the payment. */
  function VerifySenderBalance(lookup: Result<AccountInfo>, amount: int, fee: int): (ok: bool)
    ensures ok <==> lookup.Ok? && Balance(lookup.value) >= amount + fee + lookup.value.minBalance.GetOr(100_000)
    ensures ok <==> SenderBalanceReport(lookup, amount, fee).Enough?
    ensures lookup.Err? ==> !ok
  {
    SenderBalanceReport(lookup, amount, fee).Enough?
  }

  /** How a run of the script ends. */
  datatype Outcome =
    | Cancelled                                   // a prompt gave nothing usable
    | SelfSend                                    // sender == receiver
    | Crashed(error: string)                      // suggested_params raised: not caught
    | Insufficient                                // the balance check failed
    | Declined                                    // the reply was not "yes"
    | SendFailed                                  // send_transaction raised
    | Confirmed(txid: string, round: Option<int>) // the wait returned the record
    | TimedOut(txid: string)                      // the wait returned None

  /** The payment went out. */
  predicate Sent(o: Outcome) {
    o.Confirmed? || o.TimedOut?
  }

  /** The replies typed at the prompts, in their order; `amount` already in microAlgos. */
  datatype Inputs = Inputs(mnemonic: string, receiver: string, amount: Option<int>, note: string, confirm: string)

  /** The node is reached: every outcome but the three decided by the prompts. */
  predicate ReachedNode(o: Outcome) {
    !(o.Cancelled? || o.SelfSend?)
  }

  /** Where the prompts leave `main`: stopped, or with a sender, a receiver and an amount. */
  datatype Prepared = Stopped(outcome: Outcome) | Ready(sender: string, receiver: string, amount: int)

  /** `if not sender_address` lets the run go on: a key pair with a non-empty address. */
  predicate HasSender(keys: Option<Keypair>) {
    keys.Some? && keys.value.address != []
  }

  /** `if not receiver_address` lets the run go on: a valid, non-empty address. */
  predicate HasReceiver(receiver: Option<string>) {
    receiver.Some? && receiver.value != []
  }

  /**
   * The prompts of `main`, in order: the sender's mnemonic (an empty
   * address cancels), the receiver (an empty one cancels), the self-send
   * check, then the amount. Nothing here contacts the node.
   */
  function Prepare(inputs: Inputs, recover: string -> Result<Keypair>, isValid: string -> bool): (p: Prepared)
    ensures p.Stopped? ==> p.outcome.Cancelled? || p.outcome.SelfSend?
    ensures !HasSender(GetSenderPrivateKey(inputs.mnemonic, recover)) ==> p == Stopped(Cancelled)
    ensures (HasSender(GetSenderPrivateKey(inputs.mnemonic, recover)) &&
             !HasReceiver(GetReceiverAddress(inputs.receiver, isValid))) ==> p == Stopped(Cancelled)
    ensures p == Stopped(SelfSend) <==>
      HasSender(GetSenderPrivateKey(inputs.mnemonic, recover)) &&
      GetReceiverAddress(inputs.receiver, isValid) == Some(GetSenderPrivateKey(inputs.mnemonic, recover).value.address)
    ensures p.Ready? ==>
      HasSender(GetSenderPrivateKey(inputs.mnemonic, recover)) &&
      p.sender == GetSenderPrivateKey(inputs.mnemonic, recover).value.address &&
      GetReceiverAddress(inputs.receiver, isValid) == Some(p.receiver) && p.receiver != [] &&
      p.sender != p.receiver && GetAmountToSend(inputs.amount) == Some(p.amount) && p.amount > 0
  {
    match GetSenderPrivateKey(inputs.mnemonic, recover)
    case None => Stopped(Cancelled)
    case Some(keys) =>
      if keys.address == [] then Stopped(Cancelled)
      else
        match GetReceiverAddress(inputs.receiver, isValid)
        case None => Stopped(Cancelled)
        case Some(receiver) =>
          if receiver == [] then Stopped(Cancelled)
          else if keys.address == receiver then Stopped(SelfSend)
          else
            match GetAmountToSend(inputs.amount)
            case None => Stopped(Cancelled)
            case Some(amount) => Ready(keys.address, receiver, amount)
  }

  /**
   * The rest of `main`: connect, check the balance, ask for "yes", submit
   * and wait. The payment goes out only after all of them pass.
   */
  function Proceed(sender: string, amount: int, confirm: string, algod: Algod): (o: Outcome)
    ensures ReachedNode(o)
    ensures algod.suggestedFee.Err? ==> o == Crashed(algod.suggestedFee.message)
    ensures Sent(o) ==>
      algod.suggestedFee.Ok? && VerifySenderBalance(algod.accountInfo(sender), amount, algod.suggestedFee.value) &&
      Reply(confirm) == "yes" && algod.submit.Ok? && algod.submit.value != [] && o.txid == algod.submit.value
    ensures Sent(o) ==> (o.Confirmed? <==> Confirmation(algod).Some?)
    ensures o.Confirmed? ==>
      o.round == Confirmation(algod).value.confirmedRound && o.round.Some? && o.round.value > 0
    ensures algod.suggestedFee.Ok? ==>
      var covered := VerifySenderBalance(algod.accountInfo(sender), amount, algod.suggestedFee.value);
      (o == Insufficient <==> !covered) &&
      (covered ==> (o == Declined <==> Reply(confirm) != "yes")) &&
      (covered && Reply(confirm) == "yes" ==>
         (o == SendFailed <==> algod.submit.Err? || algod.submit.value == []) &&
         (Sent(o) <==> algod.submit.Ok? && algod.submit.value != []))
  {
    match algod.suggestedFee
    case Err(e) => Crashed(e)
    case Ok(fee) =>
      if !VerifySenderBalance(algod.accountInfo(sender), amount, fee) then Insufficient
      else if Reply(confirm) != "yes" then Declined
      else
        match algod.submit
        case Err(_) => SendFailed
        case Ok(txid) =>
          if txid == [] then SendFailed
          else
            match Confirmation(algod)
            case Some(record) => Confirmed(txid, record.confirmedRound)
            case None => TimedOut(txid)
  }

  /** `main`: the prompts, then, only when they all succeed, the node. */
  function Run(inputs: Inputs, recover: string -> Result<Keypair>, isValid: string -> bool, algod: Algod)
    : (o: Outcome)
    ensures ReachedNode(o) <==> Prepare(inputs, recover, isValid).Ready?
    ensures Prepare(inputs, recover, isValid).Stopped? ==> o == Prepare(inputs, recover, isValid).outcome
    ensures Prepare(inputs, recover, isValid).Ready? ==>
      var p := Prepare(inputs, recover, isValid);
      o == Proceed(p.sender, p.amount, inputs.confirm, algod)
    ensures !HasSender(GetSenderPrivateKey(inputs.mnemonic, recover)) ==> o == Cancelled
    ensures o.SelfSend? <==>
      HasSender(GetSenderPrivateKey(inputs.mnemonic, recover)) &&
      GetReceiverAddress(inputs.receiver, isValid) == Some(GetSenderPrivateKey(inputs.mnemonic, recover).value.address)
  {
    match Prepare(inputs, recover, isValid)
    case Stopped(outcome) => outcome
    case Ready(sender, _, amount) => Proceed(sender, amount, inputs.confirm, algod)
  }

  /** A self-send is refused before the node is contacted: the node's answers do not matter. */
  lemma SelfSendPrecedesNetwork(inputs: Inputs, recover: string -> Result<Keypair>, isValid: string -> bool,
                                a1: Algod, a2: Algod)
    requires Run(inputs, recover, isValid, a1) == SelfSend
    ensures Run(inputs, recover, isValid, a2) == SelfSend
  {
  }
}
