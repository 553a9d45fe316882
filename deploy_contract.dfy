/**
 * The deployment script (deploy/deploy_contract.py): the schemas sent
 * with the creation, the checks before the creation is submitted, the
 * application id it yields, and the contract choice of `main`.
 */
module DeployContract {
  import opened Wrappers
  import opened Text
  import opened Ledger
  import opened Services
  import opened ContractFiles
  import opened CompileContract

  /** The balance a creator must hold: 0.2 ALGO. */
  const MinCreatorBalance: int := 200_000

  /** The schemas of the creation: (0, 0) each unless the module defines a getter. */
  method Schemas(m: ContractModule) returns (globalSchema: Schema, localSchema: Schema)
    ensures globalSchema == (if m.globalSchema.Some? then m.globalSchema.value else (0, 0))
    ensures localSchema == (if m.localSchema.Some? then m.localSchema.value else (0, 0))
  {
    globalSchema := (0, 0);
    localSchema := (0, 0);
    if m.globalSchema.Some? {
      globalSchema := m.globalSchema.value;
    }
    if m.localSchema.Some? {
      localSchema := m.localSchema.value;
    }
  }

  /** Where `deploy_contract` stops with `None`. */
  datatype Stop =
    | ImportFailed | NoCompileFunction | BytecodeFailed | NoCreator
    | BalanceUnknown | BalanceTooLow | Declined | SendFailed | NotConfirmed

  /** How `deploy_contract` ends: an uncaught exception, `None`, or the confirmed record's `application-index`. */
  datatype Deployment =
    | Crashed(error: string)
    | Stopped(at: Stop)
    | Deployed(applicationIndex: Option<int>, globalSchema: Schema, localSchema: Schema)

  /** The creator as `get_creator_credentials` reads it: nothing for an empty reply or a bad mnemonic. */
  function CreatorAddress(input: string, recover: string -> Result<string>): (r: Option<string>)
    ensures Strip(input) == [] ==> r.None?
    ensures r.Some? <==> Strip(input) != [] && recover(Strip(input)).Ok?
    ensures r.Some? ==> r.value == recover(Strip(input)).value
  {
    var phrase := Strip(input);
    if phrase == [] then None
    else
      match recover(phrase)
      case Ok(address) => Some(address)
      case Err(_) => None
  }

  /** `compile_to_bytecode` for both programs: each is the bytecode, or `None` when compiling raised. */
  predicate BytecodeUsable(code: Option<seq<int>>) {
    code.Some? && code.value != []
  }

  /** The module loaded and its `compile_contract` returned the two programs. */
  predicate Compiled(loaded: Option<ContractModule>) {
    loaded.Some? && loaded.value.compile.Some? && loaded.value.compile.value.Ok?
  }

  /** `if not creator_address` lets the run go on: there is a creator and its address is not empty. */
  predicate HasCreator(creator: Option<string>) {
    creator.Some? && creator.value != []
  }

  /** The creator's account was read and holds at least 0.2 ALGO. */
  predicate Funded(creator: Option<string>, algod: Algod) {
    HasCreator(creator) && algod.accountInfo(creator.value).Ok? &&
    Balance(algod.accountInfo(creator.value).value) >= MinCreatorBalance
  }

  /**
   * `deploy_contract`. `approvalCode`/`clearCode` are what the node's
   * compiler gives for the two programs; `mnemonic` and `confirm` the replies
   * typed at the prompts. The compilation of the contract and the building
   * of the creation transaction are not guarded, so their exceptions end
   * the script. Each stage decides the outcome exactly when every stage
   * before it has passed.
   */
  method Deploy(loaded: Option<ContractModule>, approvalCode: Option<seq<int>>, clearCode: Option<seq<int>>,
                mnemonic: string, recover: string -> Result<string>, confirm: string, algod: Algod)
    returns (d: Deployment)
    ensures loaded.None? ==> d == Stopped(ImportFailed)
    ensures loaded.Some? && loaded.value.compile.None? ==> d == Stopped(NoCompileFunction)
    ensures loaded.Some? && loaded.value.compile.Some? && loaded.value.compile.value.Err? ==>
      d == Crashed(loaded.value.compile.value.message)
    ensures Compiled(loaded) ==>
      (d == Stopped(BytecodeFailed) <==> !(BytecodeUsable(approvalCode) && BytecodeUsable(clearCode)))
    ensures Compiled(loaded) && BytecodeUsable(approvalCode) && BytecodeUsable(clearCode) ==>
      var creator := CreatorAddress(mnemonic, recover);
      (d == Stopped(NoCreator) <==> !HasCreator(creator)) &&
      (HasCreator(creator) ==> (d == Stopped(BalanceUnknown) <==> algod.accountInfo(creator.value).Err?)) &&
      (HasCreator(creator) && algod.accountInfo(creator.value).Ok? ==>
         (d == Stopped(BalanceTooLow) <==> Balance(algod.accountInfo(creator.value).value) < MinCreatorBalance)) &&
      (Funded(creator, algod) ==>
         (d.Crashed? <==> algod.suggestedFee.Err?) &&
         (algod.suggestedFee.Err? ==> d == Crashed(algod.suggestedFee.message))) &&
      (Funded(creator, algod) && algod.suggestedFee.Ok? ==>
         (d == Stopped(Declined) <==> Reply(confirm) != "yes")) &&
      (Funded(creator, algod) && algod.suggestedFee.Ok? && Reply(confirm) == "yes" ==>
         (d == Stopped(SendFailed) <==> algod.submit.Err?)) &&
      (Funded(creator, algod) && algod.suggestedFee.Ok? && Reply(confirm) == "yes" && algod.submit.Ok? ==>
         (d == Stopped(NotConfirmed) <==> Confirmation(algod).None?) &&
         (Confirmation(algod).Some? ==>
            d == Deployed(Confirmation(algod).value.applicationIndex,
                          loaded.value.globalSchema.GetOr((0, 0)), loaded.value.localSchema.GetOr((0, 0)))))
    ensures d.Deployed? ==>
      var m := loaded.value;
      var creator := CreatorAddress(mnemonic, recover);
      Compiled(loaded) && BytecodeUsable(approvalCode) && BytecodeUsable(clearCode) &&
      Funded(creator, algod) && algod.suggestedFee.Ok? &&
      Reply(confirm) == "yes" && algod.submit.Ok? && Confirmation(algod).Some? &&
      d.applicationIndex == Confirmation(algod).value.applicationIndex &&
      d.globalSchema == m.globalSchema.GetOr((0, 0)) && d.localSchema == m.localSchema.GetOr((0, 0))
  {
    if loaded.None? {
      return Stopped(ImportFailed);
    }
    var m := loaded.value;
    if m.compile.None? {
      return Stopped(NoCompileFunction);
    }
    if m.compile.value.Err? {
      return Crashed(m.compile.value.message);
    }
    var globalSchema, localSchema := Schemas(m);
    if !BytecodeUsable(approvalCode) || !BytecodeUsable(clearCode) {
      return Stopped(BytecodeFailed);
    }
    var creator := CreatorAddress(mnemonic, recover);
    if creator.None? || creator.value == [] {
      return Stopped(NoCreator);
    }
    var info := algod.accountInfo(creator.value);
    if info.Err? {
      return Stopped(BalanceUnknown);
    }
    if Balance(info.value) < MinCreatorBalance {
      return Stopped(BalanceTooLow);
    }
    // create_app_transaction: suggested_params and signing are not guarded
    if algod.suggestedFee.Err? {
      return Crashed(algod.suggestedFee.message);
    }
    if Reply(confirm) != "yes" {
      return Stopped(Declined);
    }
    if algod.submit.Err? {
      return Stopped(SendFailed);
    }
    var confirmed := Confirmation(algod);
    if confirmed.None? {
      return Stopped(NotConfirmed);
    }
    d := Deployed(confirmed.value.applicationIndex, globalSchema, localSchema);
  }

  /** Which contract `main` of the deployer goes on with. */
  datatype Target = DirectoryMissing | InvalidTarget | Target(name: string)

  /**
   * The choice in the deployer's `main`: as in the compiler, except that a
   * missing directory stops the run and an empty listing still prompts.
   */
  function ChooseTarget(argument: Option<string>, listing: Option<seq<string>>, reply: string): (t: Target)
    ensures argument.Some? ==> t == Target(Normalise(argument.value))
    ensures argument.None? && listing.None? ==> t == DirectoryMissing
    ensures argument.None? && listing.Some? ==>
      match ChooseContract(ListAvailableContracts(listing), Strip(reply))
      case InvalidChoice => t == InvalidTarget
      case Chosen(name) => t == Target(name)
  {
    match argument
    case Some(name) => Target(Normalise(name))
    case None =>
      if listing.None? then DirectoryMissing
      else
        match ChooseContract(ListAvailableContracts(listing), Strip(reply))
        case InvalidChoice => InvalidTarget
        case Chosen(name) => Target(name)
  }

  /** Where the compiler offers contracts, the deployer offers the same ones and picks the same one. */
  lemma ChoiceAgreesWithCompiler(argument: Option<string>, listing: Option<seq<string>>, reply: string)
    requires ListAvailableContracts(listing) != []
    ensures SelectContract(argument, listing, reply).Selected? <==> ChooseTarget(argument, listing, reply).Target?
    ensures SelectContract(argument, listing, reply).Selected? ==>
      SelectContract(argument, listing, reply).name == ChooseTarget(argument, listing, reply).name
  {
  }

  /** With an empty directory the compiler stops, while the deployer reads the reply as a name. */
  lemma EmptyDirectoryDiffers(reply: string)
    requires !IsDigits(Strip(reply))
    ensures SelectContract(None, Some([]), reply) == NoContracts
    ensures ChooseTarget(None, Some([]), reply) == Target(Normalise(Strip(reply)))
  {
  }
}
