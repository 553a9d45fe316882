/**
 * The balance script (scripts/check_balance.py). Unlike the HTTP endpoints,
 * it takes a missing `min-balance` as 0.
 */
module CheckBalance {
  import opened Wrappers
  import opened Ledger
  import Views

  /** `get_account_balance`: the record, or `None` when the lookup raises. */
  function GetAccountBalance(lookup: Result<AccountInfo>): (r: Option<AccountInfo>)
    ensures r.Some? <==> lookup.Ok?
    ensures r.Some? ==> r.value == lookup.value
  {
    match lookup
    case Ok(info) => Some(info)
    case Err(_) => None
  }

  /** The advice at the end of the report: exactly one applies. */
  datatype Tip = NoBalance | LowAvailable | Ready

  /** The asset and application counts, each shown only when positive. */
  datatype Holdings = Holdings(assets: Option<nat>, optedApps: Option<nat>, createdApps: Option<nat>)

  /** What `display_detailed_balance` reports, in microAlgos. */
  datatype Report = Report(
    balance: int,
    minBalance: int,
    available: int,
    pendingRewards: Option<int>,
    holdings: Option<Holdings>,
    tip: Tip)

  /** A count as the report lists it. */
  function Shown(n: nat): (r: Option<nat>)
    ensures r.Some? <==> n > 0
    ensures r.Some? ==> r.value == n
  {
    if n > 0 then Some(n) else None
  }

  function TipFor(balance: int, available: int): Tip {
    if balance == 0 then NoBalance else if available < 100_000 then LowAvailable else Ready
  }

  /**
   * The report: available is balance minus min-balance (0 when missing); the
   * rewards line appears only for positive rewards; the holdings section
   * only when some count is positive; the tip is "no balance" for an empty
   * account, else "low" below 100000 available, else "ready".
   */
  function DetailedBalance(info: AccountInfo): (r: Report)
    ensures r.balance == Balance(info)
    ensures r.minBalance == (if info.minBalance.Some? then info.minBalance.value else 0)
    ensures r.available == r.balance - r.minBalance
    ensures r.pendingRewards.Some? <==> info.pendingRewards.Some? && info.pendingRewards.value > 0
    ensures r.holdings.Some? <==> info.assets > 0 || info.appsLocalState > 0 || info.createdApps > 0
    ensures r.holdings.Some? ==>
      r.holdings.value == Holdings(Shown(info.assets), Shown(info.appsLocalState), Shown(info.createdApps))
    ensures r.tip == NoBalance <==> r.balance == 0
    ensures r.tip == LowAvailable <==> r.balance != 0 && r.available < 100_000
    ensures r.tip == Ready <==> r.balance != 0 && r.available >= 100_000
  {
    var balance := Balance(info);
    var minBalance := info.minBalance.GetOr(0);
    var available := balance - minBalance;
    var rewards := info.pendingRewards.GetOr(0);
    Report(
      balance, minBalance, available,
      if rewards > 0 then Some(rewards) else None,
      if info.assets > 0 || info.appsLocalState > 0 || info.createdApps > 0
      then Some(Holdings(Shown(info.assets), Shown(info.appsLocalState), Shown(info.createdApps)))
      else None,
      TipFor(balance, available))
  }

  /**
   * Where `min-balance` is missing, the script reports 100000 more available
   * than the balance endpoints do; where it is present, the same amount.
   */
  lemma AvailableAgainstEndpoints(address: string, info: AccountInfo)
    ensures info.minBalance.None? ==>
      DetailedBalance(info).available == Views.BalanceOf(address, info).available + 100_000
    ensures info.minBalance.Some? ==>
      DetailedBalance(info).available == Views.BalanceOf(address, info).available
  {
  }

  /**
   * A funded account whose node omits `min-balance` is never "low" in the
   * script until its balance itself drops under 100000.
   */
  lemma MissingMinBalanceTip(info: AccountInfo)
    requires info.minBalance.None? && Balance(info) != 0
    ensures DetailedBalance(info).tip == (if Balance(info) < 100_000 then LowAvailable else Ready)
  {
  }

  /** How `main` ends. */
  datatype Outcome = InvalidAddress | Unretrieved | Reported(report: Report)

  /** `main`: the address is validated before any lookup; a failed lookup ends the run. */
  function Run(address: string, isValid: string -> bool, lookup: string -> Result<AccountInfo>): (o: Outcome)
    ensures !isValid(address) ==> o == InvalidAddress
    ensures o.Reported? <==> isValid(address) && lookup(address).Ok?
    ensures o.Reported? ==> o.report == DetailedBalance(lookup(address).value)
  {
    if !isValid(address) then InvalidAddress
    else
      match GetAccountBalance(lookup(address))
      case None => Unretrieved
      case Some(info) => Reported(DetailedBalance(info))
  }
}
