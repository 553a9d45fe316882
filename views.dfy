/**
 * The response bodies that the FastAPI backend and the serverless handlers
 * build in the same way from a node record.
 */
module Views {
  import opened Wrappers
  import opened Ledger

  /** The `min-balance` both balance endpoints assume when the node gives none. */
  const AssumedMinBalance: int := DefaultMinBalance

  /** A balance reply; `*_algo` fields are kept in microAlgos. */
  datatype BalanceView = BalanceView(
    address: string,
    balance: int,
    minBalance: int,
    available: int,
    status: string,
    round: int)

  /**
   * The balance body: the raw `amount` (0 when missing), the minimum balance
   * (100000 when missing), what is left above it (negative when the account
   * holds less), status 'Unknown' and round 0 when missing.
   */
  function BalanceOf(address: string, info: AccountInfo): (v: BalanceView)
    ensures v.address == address && v.balance == Balance(info)
    ensures v.minBalance == (if info.minBalance.Some? then info.minBalance.value else 100_000)
    ensures v.available + v.minBalance == v.balance
    ensures v.available >= 0 <==> v.balance >= v.minBalance
    ensures v.status == (if info.status.Some? then info.status.value else "Unknown")
    ensures v.round == (if info.round.Some? then info.round.value else 0)
  {
    var balance := Balance(info);
    var minBalance := info.minBalance.GetOr(AssumedMinBalance);
    BalanceView(address, balance, minBalance, balance - minBalance,
                info.status.GetOr("Unknown"), info.round.GetOr(0))
  }

  /** A payment reply: `transaction_id` and `confirmed_round` are set as the wait ended. */
  datatype SendBody = SendBody(success: bool, transactionId: string, confirmedRound: Option<int>, message: string)

  /** A status reply; the decoded note is not modelled. */
  datatype StatusView = StatusView(
    transactionId: string,
    confirmed: bool,
    confirmedRound: Option<int>,
    sender: Option<string>,
    receiver: Option<string>,
    amount: Option<int>,
    fee: Option<int>)

  /** `value if value > 0 else None` over a field that defaults to 0. */
  function Positive(field: Option<int>): (r: Option<int>)
    ensures r.Some? <==> field.Some? && field.value > 0
    ensures r.Some? ==> r == field
  {
    if field.GetOr(0) > 0 then field else None
  }

  /**
   * The status body: confirmed exactly when the confirmed round (0 when
   * missing) is positive, and then it carries that round; sender and
   * receiver as `txn.txn` gives them; amount and fee only when positive.
   */
  function StatusOf(txid: string, p: PendingInfo): (v: StatusView)
    ensures v.transactionId == txid
    ensures v.confirmed <==> p.confirmedRound.Some? && p.confirmedRound.value > 0
    ensures v.confirmedRound.None? <==> !v.confirmed
    ensures v.confirmedRound.Some? ==> v.confirmedRound == p.confirmedRound
    ensures v.sender == p.txn.snd && v.receiver == p.txn.rcv
    ensures v.amount.Some? <==> p.txn.amt.Some? && p.txn.amt.value > 0
    ensures v.amount.Some? ==> v.amount == p.txn.amt
    ensures v.fee.Some? <==> p.txn.fee.Some? && p.txn.fee.value > 0
    ensures v.fee.Some? ==> v.fee == p.txn.fee
  {
    var confirmedRound := ConfirmedRound(p);
    StatusView(txid, confirmedRound > 0, if confirmedRound > 0 then Some(confirmedRound) else None,
               p.txn.snd, p.txn.rcv, Positive(p.txn.amt), Positive(p.txn.fee))
  }
}
