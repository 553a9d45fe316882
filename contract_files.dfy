/**
 * File-name logic shared by the compiler and the deployer:
 * which files of `contracts/` are offered, how a typed choice picks one,
 * how a name gets its `.py`, and where the compiled TEAL goes.
 */
module ContractFiles {
  import opened Wrappers
  import opened Text

  /** Offered as a contract: ends in `.py` and does not start with `__`. */
  predicate IsContractFile(f: string) {
    EndsWith(f, ".py") && !StartsWith(f, "__")
  }

  /** The contract files of a listing, in listing order. */
  function ContractsIn(listing: seq<string>): (cs: seq<string>)
    ensures |cs| <= |listing|
    ensures forall i :: 0 <= i < |cs| ==> IsContractFile(cs[i])
  {
    if listing == [] then []
    else (if IsContractFile(listing[0]) then [listing[0]] else []) + ContractsIn(listing[1..])
  }

  /** A name is offered exactly when it is in the listing and is a contract file. */
  lemma {:induction false} ContractsInMembership(listing: seq<string>, f: string)
    ensures f in ContractsIn(listing) <==> f in listing && IsContractFile(f)
    decreases |listing|
  {
    if listing != [] {
      ContractsInMembership(listing[1..], f);
      assert listing == [listing[0]] + listing[1..];
    }
  }

  /** Filtering a listing is filtering its parts, one after the other: order is kept. */
  lemma {:induction false} ContractsInConcat(a: seq<string>, b: seq<string>)
    ensures ContractsIn(a + b) == ContractsIn(a) + ContractsIn(b)
    decreases |a|
  {
    if a != [] {
      assert (a + b)[0] == a[0];
      assert (a + b)[1..] == a[1..] + b;
      ContractsInConcat(a[1..], b);
      var head := if IsContractFile(a[0]) then [a[0]] else [];
      assert ContractsIn(a + b) == head + (ContractsIn(a[1..]) + ContractsIn(b));
      assert ContractsIn(a) == head + ContractsIn(a[1..]);
      assert head + (ContractsIn(a[1..]) + ContractsIn(b)) == (head + ContractsIn(a[1..])) + ContractsIn(b);
    } else {
      assert a + b == b;
    }
  }

  /** `list_available_contracts`: `None` is a missing directory, which gives no contracts. */
  function ListAvailableContracts(listing: Option<seq<string>>): (cs: seq<string>)
    ensures listing.None? ==> cs == []
    ensures listing.Some? ==> forall f :: f in cs <==> f in listing.value && IsContractFile(f)
  {
    match listing
    case None => []
    case Some(names) =>
      forall f ensures f in ContractsIn(names) <==> f in names && IsContractFile(f) {
        ContractsInMembership(names, f);
      }
      ContractsIn(names)
  }

  /** A contract name as typed: `.py` is appended unless it is already there. */
  function Normalise(name: string): (r: string)
    ensures EndsWith(r, ".py")
    ensures r == name <==> EndsWith(name, ".py")
    ensures r != name ==> r == name + ".py"
  {
    if EndsWith(name, ".py") then name else name + ".py"
  }

  /** Normalising twice is normalising once. */
  lemma NormaliseIdempotent(name: string)
    ensures Normalise(Normalise(name)) == Normalise(name)
  {
  }

  datatype Choice = Chosen(name: string) | InvalidChoice

  /**
   * The typed choice (already stripped): digits pick the contract with that
   * 1-based number, or are invalid when out of range; anything else is a
   * name, normalised.
   */
  function ChooseContract(contracts: seq<string>, choice: string): (c: Choice)
    ensures IsDigits(choice) ==> (c.Chosen? <==> 1 <= DigitsValue(choice) <= |contracts|)
    ensures IsDigits(choice) && c.Chosen? ==> c.name == contracts[DigitsValue(choice) - 1]
    ensures !IsDigits(choice) ==> c == Chosen(Normalise(choice))
  {
    if IsDigits(choice) then
      var idx := DigitsValue(choice) - 1;
      if 0 <= idx < |contracts| then Chosen(contracts[idx]) else InvalidChoice
    else Chosen(Normalise(choice))
  }

  /** "0" never selects a contract, and numbers are read in decimal: "01" is the first one. */
  lemma NumberedChoices(contracts: seq<string>)
    ensures ChooseContract(contracts, "0") == InvalidChoice
    ensures |contracts| > 0 ==> ChooseContract(contracts, "01") == Chosen(contracts[0])
    ensures ChooseContract(contracts, Decimal(|contracts| + 1)) == InvalidChoice
  {
    assert DigitsValue("0") == 0;
    assert DigitsValue("01") == 1 by {
      assert "01"[..1] == "0";
    }
    DecimalRoundTrip(|contracts| + 1);
  }

  /** The index of the last occurrence of `c` in `s`, if any. */
  function LastIndexOf(s: string, c: char): (r: Option<nat>)
    ensures r.Some? ==> r.value < |s| && s[r.value] == c && forall i :: r.value < i < |s| ==> s[i] != c
    ensures r.None? ==> forall i :: 0 <= i < |s| ==> s[i] != c
  {
    if s == [] then None
    else if s[|s| - 1] == c then Some(|s| - 1)
    else LastIndexOf(s[..|s| - 1], c)
  }

  /**
   * The root that `os.path.splitext` keeps: everything before the last dot
   * of the last path component, unless that component has only dots before it.
   */
  function SplitExtRoot(path: string): (root: string)
    ensures StartsWith(path, root)
  {
    var sep := LastIndexOf(path, '/');
    var start: nat := if sep.Some? then sep.value + 1 else 0;
    match LastIndexOf(path, '.')
    case None => path
    case Some(dot) =>
      if dot > start && exists i :: start <= i < dot && path[i] != '.' then path[..dot] else path
  }

  /** The root of a normalised name that has no directory part and does not start with a dot is the name without `.py`. */
  lemma RootOfNormalised(name: string)
    requires name != [] && name[0] != '.' && '/' !in name
    requires !EndsWith(name, ".py")
    ensures SplitExtRoot(Normalise(name)) == name
  {
    var p := name + ".py";
    assert Normalise(name) == p;
    assert LastIndexOf(p, '.') == Some(|name|) by {
      assert p[|p| - 1] == 'y';
      assert p[..|p| - 1] == name + ".p";
      var q := name + ".p";
      assert q[|q| - 1] == 'p';
      assert q[..|q| - 1] == name + ".";
      var d := name + ".";
      assert d[|d| - 1] == '.';
      assert LastIndexOf(d, '.') == Some(|name|);
      assert LastIndexOf(q, '.') == LastIndexOf(d, '.');
    }
    var sep := LastIndexOf(p, '/');
    assert sep.None? by {
      forall i | 0 <= i < |p| ensures p[i] != '/' {
        if i < |name| { assert p[i] == name[i]; }
      }
    }
    assert p[0] == name[0];
    assert p[..|name|] == name;
  }

  /**
   * `os.path.join(d, name)` for one name: an absolute name, or an empty
   * directory, gives the name itself; otherwise the path is the directory,
   * one separating slash when it has none at its end, then the name.
   */
  function Join(dir: string, name: string): (path: string)
    ensures EndsWith(path, name)
    ensures StartsWith(name, "/") || dir == [] ==> path == name
    ensures !StartsWith(name, "/") && dir != [] ==>
      StartsWith(path, dir) && |dir| <= |path| - |name| <= |dir| + 1 &&
      EndsWith(path[..|path| - |name|], "/")
  {
    if StartsWith(name, "/") || dir == [] then name
    else if EndsWith(dir, "/") then dir + name
    else dir + "/" + name
  }

  /** The two files `save_teal_to_file` writes, for a contract root. */
  function ApprovalPath(outputDir: string, base: string): string {
    Join(outputDir, base + "_approval.teal")
  }

  function ClearPath(outputDir: string, base: string): string {
    Join(outputDir, base + "_clear.teal")
  }

  /** The approval and clear files are always two different files, named after the contract. */
  lemma OutputPaths(outputDir: string, base: string)
    ensures EndsWith(ApprovalPath(outputDir, base), base + "_approval.teal")
    ensures EndsWith(ClearPath(outputDir, base), base + "_clear.teal")
    ensures ApprovalPath(outputDir, base) != ClearPath(outputDir, base)
    ensures outputDir != [] && !EndsWith(outputDir, "/") && (base == [] || base[0] != '/') ==>
      ApprovalPath(outputDir, base) == outputDir + "/" + base + "_approval.teal"
  {
  }
}
