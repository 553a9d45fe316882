/**
 * The account recovery script (scripts/recover_account.py): the word-count
 * gate on the typed mnemonic, the recovery that turns any conversion error
 * into nothing, and the report with its grid and balance hint.
 */
module RecoverAccount {
  import opened Wrappers
  import opened Text
  import opened Ledger
  import opened MnemonicGrid
  import SendAlgo

  /** The number of words of an Algorand mnemonic. */
  const MnemonicWords: nat := 25

  /**
   * `get_mnemonic_input`: the stripped phrase when it has 25 words, and
   * otherwise only when the user answers "yes" to going on anyway.
   */
  function GetMnemonicInput(typed: string, confirm: string): (r: Option<string>)
    ensures |Words(Strip(typed))| == MnemonicWords ==> r == Some(Strip(typed))
    ensures |Words(Strip(typed))| != MnemonicWords ==>
      (r.Some? <==> Reply(confirm) == "yes") && (r.Some? ==> r.value == Strip(typed))
  {
    var phrase := Strip(typed);
    if |Words(phrase)| != MnemonicWords && Reply(confirm) != "yes" then None
    else Some(phrase)
  }

  /** Twenty-five words typed with single spaces pass the gate without the question. */
  lemma TwentyFiveWordsPass(ws: seq<string>, confirm: string)
    requires |ws| == MnemonicWords
    requires forall i :: 0 <= i < |ws| ==> ws[i] != [] && NoSpace(ws[i])
    ensures GetMnemonicInput(JoinWords(ws), confirm) == Some(JoinWords(ws))
  {
    JoinedIsStripped(ws);
    WordsOfJoin(ws);
  }

  /** `recover_account_from_mnemonic`: the key and the address, or neither when the conversion raises. */
  function RecoverAccountFromMnemonic(phrase: string, recover: string -> Result<SendAlgo.Keypair>)
    : (r: (Option<string>, Option<string>))
    ensures recover(phrase).Err? <==> r == (None, None)
    ensures recover(phrase).Ok? ==>
      r == (Some(recover(phrase).value.privateKey), Some(recover(phrase).value.address))
  {
    match recover(phrase)
    case Ok(keys) => (Some(keys.privateKey), Some(keys.address))
    case Err(_) => (None, None)
  }

  /** What is shown about the account on the network. */
  datatype NetworkShown =
    | NetworkCheckFailed
    | NetworkStatus(balance: int, status: string, round: Option<int>, zeroBalanceHint: bool)

  /** What `display_recovery_result` shows. */
  datatype RecoveryReport = RecoveryReport(address: string, grid: seq<seq<Cell>>, network: NetworkShown)

  /**
   * `display_recovery_result`: the address, the mnemonic grid, and the
   * network status when the lookup answered; the zero-balance hint appears
   * exactly for an answered lookup with balance 0.
   */
  method DisplayRecoveryResult(address: string, phrase: string, accountInfo: Option<AccountInfo>)
    returns (report: RecoveryReport)
    ensures report.address == address
    ensures IsGrid(report.grid, Words(phrase)) && Flatten(report.grid) == Labelled(Words(phrase))
    ensures report.network.NetworkCheckFailed? <==> accountInfo.None?
    ensures report.network.NetworkStatus? ==>
      var info := accountInfo.value;
      report.network.balance == Balance(info) &&
      report.network.status == info.status.GetOr("Unknown") &&
      report.network.round == info.round &&
      (report.network.zeroBalanceHint <==> Balance(info) == 0)
  {
    var grid := Grid(Words(phrase));
    var network := NetworkCheckFailed;
    if accountInfo.Some? {
      var balance := accountInfo.value.amount.GetOr(0);
      network := NetworkStatus(balance, accountInfo.value.status.GetOr("Unknown"), accountInfo.value.round, balance == 0);
    }
    report := RecoveryReport(address, grid, network);
  }

  /** How a run of the script ends. */
  datatype Outcome = Cancelled | RecoveryFailed | Recovered(report: RecoveryReport)

  /**
   * `main` of the script. The account lookup stands for
   * `verify_account_connection`, whose errors become a missing status.
   */
  method Run(typed: string, confirm: string, recover: string -> Result<SendAlgo.Keypair>,
             accountInfo: string -> Result<AccountInfo>) returns (o: Outcome)
    ensures o.Cancelled? <==> GetMnemonicInput(typed, confirm) in {None, Some("")}
    ensures o.RecoveryFailed? <==>
      GetMnemonicInput(typed, confirm).Some? && Strip(typed) != [] &&
      (recover(Strip(typed)).Err? || recover(Strip(typed)).value.address == [])
    ensures o.Recovered? ==>
      var keys := recover(Strip(typed)).value;
      GetMnemonicInput(typed, confirm) == Some(Strip(typed)) && Strip(typed) != [] &&
      recover(Strip(typed)).Ok? && keys.address != [] &&
      o.report.address == keys.address &&
      IsGrid(o.report.grid, Words(Strip(typed))) &&
      Flatten(o.report.grid) == Labelled(Words(Strip(typed))) &&
      (o.report.network.NetworkCheckFailed? <==> accountInfo(keys.address).Err?) &&
      (o.report.network.NetworkStatus? ==>
         var info := accountInfo(keys.address).value;
         o.report.network.balance == Balance(info) &&
         o.report.network.status == info.status.GetOr("Unknown") &&
         o.report.network.round == info.round &&
         (o.report.network.zeroBalanceHint <==> Balance(info) == 0))
  {
    var phrase := GetMnemonicInput(typed, confirm);
    if phrase.None? || phrase.value == [] {
      return Cancelled;
    }
    var (privateKey, address) := RecoverAccountFromMnemonic(phrase.value, recover);
    if address.None? || address.value == [] {
      return RecoveryFailed;
    }
    var info := accountInfo(address.value);
    var report := DisplayRecoveryResult(address.value, phrase.value, if info.Ok? then Some(info.value) else None);
    o := Recovered(report);
  }
}
