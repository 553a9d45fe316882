/**
 * The contract compiler script (deploy/compile_contract.py): loading a
 * contract module, collecting its metadata, and the choices of `main`.
 */
module CompileContract {
  import opened Wrappers
  import opened Text
  import opened ContractFiles

  /** A state schema: (uints, byte slices). */
  type Schema = (int, int)

  /**
   * What a loaded contract module offers: `compile_contract` (absent, or
   * what calling it gives: the approval and clear TEAL, or the exception),
   * and the two optional schema getters.
   */
  datatype ContractModule = ContractModule(
    compile: Option<Result<(string, string)>>,
    globalSchema: Option<Schema>,
    localSchema: Option<Schema>)

  const GlobalSchemaKey: string := "global_schema"
  const LocalSchemaKey: string := "local_schema"

  /** `(approval_teal, clear_teal, metadata)` of a successful compilation. */
  datatype Compiled = Compiled(approval: string, clear: string, metadata: map<string, Schema>)

  /**
   * `compile_contract_file`: nothing (`(None, None, None)`) when the module
   * did not load (`loaded` is `None`), has no `compile_contract`, or that
   * raises; otherwise the TEAL, with a metadata entry for each schema getter
   * the module has, and no other entry.
   */
  method CompileContractFile(loaded: Option<ContractModule>) returns (r: Option<Compiled>)
    ensures r.None? <==> loaded.None? || loaded.value.compile.None? || loaded.value.compile.value.Err?
    ensures r.Some? ==>
      var m := loaded.value;
      r.value.approval == m.compile.value.value.0 && r.value.clear == m.compile.value.value.1 &&
      r.value.metadata.Keys <= {GlobalSchemaKey, LocalSchemaKey} &&
      (GlobalSchemaKey in r.value.metadata <==> m.globalSchema.Some?) &&
      (LocalSchemaKey in r.value.metadata <==> m.localSchema.Some?) &&
      (m.globalSchema.Some? ==> r.value.metadata[GlobalSchemaKey] == m.globalSchema.value) &&
      (m.localSchema.Some? ==> r.value.metadata[LocalSchemaKey] == m.localSchema.value)
  {
    if loaded.None? || loaded.value.compile.None? {
      return None;
    }
    var m := loaded.value;
    match m.compile.value
    case Err(_) =>
      return None;
    case Ok(teal) =>
      var metadata: map<string, Schema> := map[];
      if m.globalSchema.Some? {
        metadata := metadata[GlobalSchemaKey := m.globalSchema.value];
      }
      if m.localSchema.Some? {
        metadata := metadata[LocalSchemaKey := m.localSchema.value];
      }
      return Some(Compiled(teal.0, teal.1, metadata));
  }

  /** Which contract `main` goes on with. */
  datatype Selection = NoContracts | Invalid | Selected(name: string)

  /**
   * The choice in `main`: a name on the command line is normalised with
   * `.py`; otherwise an empty listing stops the run, and the stripped reply
   * picks a contract by number or by name.
   */
  function SelectContract(argument: Option<string>, listing: Option<seq<string>>, reply: string): (s: Selection)
    ensures argument.Some? ==> s == Selected(Normalise(argument.value))
    ensures argument.None? && ListAvailableContracts(listing) == [] ==> s == NoContracts
    ensures argument.None? && ListAvailableContracts(listing) != [] ==>
      match ChooseContract(ListAvailableContracts(listing), Strip(reply))
      case InvalidChoice => s == Invalid
      case Chosen(name) => s == Selected(name)
    ensures s.Selected? ==> EndsWith(s.name, ".py")
  {
    match argument
    case Some(name) => Selected(Normalise(name))
    case None =>
      var contracts := ListAvailableContracts(listing);
      if contracts == [] then NoContracts
      else
        match ChooseContract(contracts, Strip(reply))
        case InvalidChoice => Invalid
        case Chosen(name) => Selected(name)
  }

  /**
   * `compile_contract_file` gives a non-empty approval program: the module
   * loaded, has `compile_contract`, and that returned a non-empty first TEAL.
   */
  predicate GivesApproval(loaded: Option<ContractModule>) {
    loaded.Some? && loaded.value.compile.Some? && loaded.value.compile.value.Ok? &&
    loaded.value.compile.value.value.0 != []
  }

  /** How a run of the compiler ends. */
  datatype Outcome =
    | NothingToCompile                                   // no contracts, or an invalid number
    | ContractMissing(name: string)                      // no such file
    | CompilationFailed
    | Done(base: string, saved: Option<(string, string)>) // the TEAL files written, if asked to

  /**
   * `main` after the selection: the file must exist, the compilation must
   * give a non-empty approval program, and the files are written, under
   * the contract's root name, only when the reply is "yes".
   */
  method Finish(selection: Selection, fileExists: string -> bool, load: string -> Option<ContractModule>,
                saveReply: string, outputDir: string)
    returns (o: Outcome)
    ensures !selection.Selected? ==> o == NothingToCompile
    ensures selection.Selected? && !fileExists(selection.name) ==> o == ContractMissing(selection.name)
    ensures selection.Selected? && fileExists(selection.name) ==>
      (o == CompilationFailed <==> !GivesApproval(load(selection.name))) &&
      (o.Done? <==> GivesApproval(load(selection.name)))
    ensures o.Done? ==>
      selection.Selected? && fileExists(selection.name) && o.base == SplitExtRoot(selection.name) &&
      (o.saved.Some? <==> Reply(saveReply) == "yes") &&
      (o.saved.Some? ==> o.saved.value == (ApprovalPath(outputDir, o.base), ClearPath(outputDir, o.base)))
  {
    if !selection.Selected? {
      return NothingToCompile;
    }
    var name := selection.name;
    if !fileExists(name) {
      return ContractMissing(name);
    }
    var compiled := CompileContractFile(load(name));
    if compiled.None? || compiled.value.approval == [] {
      return CompilationFailed;
    }
    var base := SplitExtRoot(name);
    if Reply(saveReply) == "yes" {
      o := Done(base, Some((ApprovalPath(outputDir, base), ClearPath(outputDir, base))));
    } else {
      o := Done(base, None);
    }
  }
}
