/**
 * The account creation script (scripts/create_account.py): the mnemonic
 * grid of the new account, and the file it writes only on an explicit "yes".
 * The key generation itself is random and is given to the model as input.
 */
module CreateAccount {
  import opened Wrappers
  import opened Text
  import opened MnemonicGrid
  import opened ContractFiles

  /** What `display_account_details` lays out: the address and the grid of the mnemonic. */
  datatype AccountDetails = AccountDetails(address: string, grid: seq<seq<Cell>>)

  /** `display_account_details`. */
  method DisplayAccountDetails(address: string, phrase: string) returns (details: AccountDetails)
    ensures details.address == address
    ensures IsGrid(details.grid, Words(phrase))
    ensures Flatten(details.grid) == Labelled(Words(phrase))
  {
    var grid := Grid(Words(phrase));
    details := AccountDetails(address, grid);
  }

  /** The file name: the first eight characters of the address and ".account". */
  function AccountFileName(address: string): (name: string)
    ensures |name| == Min(8, |address|) + 8
    ensures StartsWith(address, name[..|name| - 8])
    ensures EndsWith(name, ".account")
  {
    Take(address, 8) + ".account"
  }

  const AddressKey: string := "Address: "
  const MnemonicKey: string := "Mnemonic: "
  const Warning: string := "\nWARNING: This file contains sensitive information!\nOnly use for TestNet testing. Delete after use.\n"

  /** The text written to the file: the address line, the mnemonic line, then the warning. */
  function AccountFileContent(address: string, phrase: string): string {
    (AddressKey + address) + "\n" + ((MnemonicKey + phrase) + "\n" + Warning)
  }

  /** The index of the first line break, or the length when there is none. */
  function LineEnd(s: string): (e: nat)
    ensures e <= |s|
    ensures forall k :: 0 <= k < e ==> s[k] != '\n'
    ensures e < |s| ==> s[e] == '\n'
  {
    if s == [] || s[0] == '\n' then 0 else 1 + LineEnd(s[1..])
  }

  lemma {:induction false} LineEndAfter(line: string, rest: string)
    requires forall k :: 0 <= k < |line| ==> line[k] != '\n'
    ensures LineEnd(line + "\n" + rest) == |line|
    decreases |line|
  {
    if line != [] {
      assert (line + "\n" + rest)[1..] == line[1..] + "\n" + rest;
      LineEndAfter(line[1..], rest);
    }
  }

  /** Reading an account file back: the values of its first two lines. */
  function ReadAccountFile(content: string): (r: Option<(string, string)>)
  {
    var e1 := LineEnd(content);
    var first := content[..e1];
    if e1 == |content| || !StartsWith(first, AddressKey) then None
    else
      var rest := content[e1 + 1..];
      var second := rest[..LineEnd(rest)];
      if !StartsWith(second, MnemonicKey) then None
      else Some((first[|AddressKey|..], second[|MnemonicKey|..]))
  }

  predicate SingleLine(s: string) {
    forall k :: 0 <= k < |s| ==> s[k] != '\n'
  }

  lemma KeyedLine(key: string, value: string)
    requires SingleLine(key) && SingleLine(value)
    ensures SingleLine(key + value) && (key + value)[|key|..] == value
  {
    var line := key + value;
    forall k | 0 <= k < |line| ensures line[k] != '\n' {
      if k >= |key| { assert line[k] == value[k - |key|]; }
    }
  }

  /** The first line of `line + "\n" + rest` and what follows its break. */
  lemma SplitFirstLine(line: string, rest: string)
    requires SingleLine(line)
    ensures var c := line + "\n" + rest;
      LineEnd(c) == |line| < |c| && c[..|line|] == line && c[|line| + 1..] == rest
  {
    LineEndAfter(line, rest);
    var c := line + "\n" + rest;
    assert c[..|line|] == line;
    assert c[|line| + 1..] == rest;
  }

  /** An address line and a mnemonic line read back as their values, whatever follows them. */
  lemma ReadTwoLines(address: string, phrase: string, trailer: string)
    requires SingleLine(address) && SingleLine(phrase)
    ensures ReadAccountFile((AddressKey + address) + "\n" + ((MnemonicKey + phrase) + "\n" + trailer)) == Some((address, phrase))
  {
    var line1 := AddressKey + address;
    var line2 := MnemonicKey + phrase;
    var tail := line2 + "\n" + trailer;
    var content := line1 + "\n" + tail;
    KeyedLine(AddressKey, address);
    KeyedLine(MnemonicKey, phrase);
    SplitFirstLine(line1, tail);
    assert StartsWith(content[..LineEnd(content)], AddressKey) by {
      assert line1[..|AddressKey|] == AddressKey;
    }
    var rest := content[LineEnd(content) + 1..];
    assert rest == tail;
    SplitFirstLine(line2, trailer);
    assert StartsWith(rest[..LineEnd(rest)], MnemonicKey) by {
      assert line2[..|MnemonicKey|] == MnemonicKey;
    }
  }

  /** The file holds the address and the mnemonic in a form that reads back unchanged. */
  lemma AccountFileRoundTrip(address: string, phrase: string)
    requires SingleLine(address) && SingleLine(phrase)
    ensures ReadAccountFile(AccountFileContent(address, phrase)) == Some((address, phrase))
  {
    ReadTwoLines(address, phrase, Warning);
  }

  /** What `save_to_file_option` does. */
  datatype Saving = NotSaved | Saved(path: string, content: string)

  /** `save_to_file_option`: the file is written only when the reply, stripped and lower-cased, is "yes". */
  function SaveToFileOption(address: string, phrase: string, reply: string, accountsDir: string): (s: Saving)
    ensures s.Saved? <==> Reply(reply) == "yes"
    ensures s.Saved? ==>
      s.path == Join(accountsDir, AccountFileName(address)) &&
      s.content == AccountFileContent(address, phrase)
  {
    if Reply(reply) == "yes" then Saved(Join(accountsDir, AccountFileName(address)), AccountFileContent(address, phrase))
    else NotSaved
  }

  /** Accounts whose addresses share their first eight characters are saved under the same name. */
  lemma SharedPrefixSharesFile(a1: string, a2: string)
    requires |a1| >= 8 && |a2| >= 8 && a1[..8] == a2[..8]
    ensures AccountFileName(a1) == AccountFileName(a2)
  {
  }

  /** How a run ends: the details shown and what was saved. */
  datatype Outcome = Outcome(details: AccountDetails, saving: Saving)

  /** `main` of the script, for the generated address and mnemonic. */
  method Run(address: string, phrase: string, reply: string, accountsDir: string) returns (o: Outcome)
    ensures o.details.address == address
    ensures IsGrid(o.details.grid, Words(phrase)) && Flatten(o.details.grid) == Labelled(Words(phrase))
    ensures o.saving == SaveToFileOption(address, phrase, reply, accountsDir)
  {
    var details := DisplayAccountDetails(address, phrase);
    o := Outcome(details, SaveToFileOption(address, phrase, reply, accountsDir));
  }
}
