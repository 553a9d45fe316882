# Algorand Playground, modelled in Dafny

Algorand Playground teaches Algorand TestNet basics through three layers. All of them drive the same node (algod) and indexer:

- command-line scripts: create or recover an account, check a balance, send ALGO, query a transaction, search the indexer;
- an HTTP backend: a FastAPI app and serverless handlers;
- smart-contract tooling: PyTeal contracts with a compiler and a deployer.

Almost all the code is glue around the Algorand SDK. This project models the decisions that glue makes:

- the round-bounded confirmation wait;
- the ordered checks a payment goes through before it is submitted, and the balance rule `balance >= amount + fee + min_balance`;
- how every endpoint shapes its reply and turns an exception into 404 or 500;
- what the counter and timelock contracts approve, and how the counter changes;
- the file-name, choice and prompt logic of the scripts and the contract tooling.

Each source file has its own module, named after it. Shared modules hold what several files have in common:

- `Wrappers`: Option and Result;
- `Text`: Python's `strip`, `lower`, `upper`, `split`, `isdigit` and `int`, with Python's ASCII whitespace (space, `\t` to `\r`, `\x1c` to `\x1f`);
- `Ledger`: the node's records and the balance rule;
- `Http`: replies and error mapping;
- `History`: indexer records and the history formatting loop;
- `Views`: reply bodies;
- `Services`: the node and indexer as values;
- `ContractFiles`: contract listing, choice and paths;
- `MnemonicGrid`: the 5-per-row mnemonic grid.

Calls into the network and the SDK become inputs:

- each node call is a `Result` value, where `Err` carries the exception text;
- address validation is a predicate `isValid: string -> bool`;
- the mnemonic conversion is a function `recover: string -> Result<…>`;
- the k-th lookup inside the confirmation wait is `lookup(k)`;
- prompts are the typed strings.

Amounts are integer microAlgos throughout.

The code is imperative in four kinds of places, and the model keeps that form there:

- the wait loop;
- the history and listing loops;
- the step-5 mnemonic grid loop;
- the conditionally filled parameter, metadata and schema dictionaries.

Each of these is a `method` proved against a specification function. The counter application is a `class` with its `counter` field. The rest is functions and lemmas.

## Model

| member | source | states |
|---|---|---|
| Helpers.FormatAddress | utils/helpers.py:45-61 | an address shorter than 58 characters (the empty one included) is returned unchanged; otherwise the result is 15 characters: its first 6, "...", then its last 6 |
| Helpers.FormatTransactionId | utils/helpers.py:85-98 | an id shorter than 16 characters is returned unchanged; otherwise the result is 19 characters: its first 8, "...", then its last 8 |
| Helpers.FormattingLengths | utils/helpers.py:45-98 | formatting never lengthens an address and is idempotent on addresses; an id of 16 to 18 characters comes out longer than it went in |
| Helpers.MinBalanceRequirement | utils/helpers.py:206-229 | defined as 0.1 ALGO for the account plus 0.1 ALGO per asset and per app; its closed form and monotonicity are `Helpers.MinBalanceRequirementFacts` |
| Helpers.MinBalanceRequirementFacts | utils/helpers.py:206-229 | the requirement is 100000·(1 + assets + apps), 100000 with the defaults (the handlers' assumed minimum), and monotone in each argument |
| Helpers.WaitForConfirmation | utils/helpers.py:156-203 | the loop computes exactly the reference `Wait`; it makes at most `timeout` lookups; a returned record is the last lookup made and has a positive confirmed round; the result is Some iff `status()` succeeded and some lookup within the budget confirms; no earlier lookup confirmed |
| Helpers.PollsFacts | utils/helpers.py:181-196 | from poll k on, the wait ends on the first confirming poll or after exactly n polls, and `None` means that no poll in [k, n) confirmed |
| Helpers.WaitFacts | utils/helpers.py:174-203 | there are no lookups when `status()` fails or `timeout <= 0`; the returned record is the first confirming lookup; the result is None iff no lookup in the budget confirms |
| Helpers.PollsRounds | utils/helpers.py:181-196 | the rounds waited from poll k on strictly increase and lie in [first+k, first+n) |
| Helpers.WaitedRoundsIncrease | utils/helpers.py:176-196 | the rounds passed to `status_after_block` strictly increase, lie in [last_round+1, last_round+timeout], and number at most `timeout` |
| Helpers.AllPendingWaitsEveryRound | utils/helpers.py:181-196 | with every poll pending, the wait returns None after waiting every round of the budget, in order |
| Helpers.PollsIgnorePoolError | utils/helpers.py:184-196 | two lookup scripts that agree on failures and confirmed rounds make the same polls, the same waits and the same outcome |
| Helpers.WaitIgnoresPoolError | utils/helpers.py:184-196 | the wait never reads `pool-error`, so a pool error changes nothing in it: there is no early exit on rejection |
| Helpers.ConfirmedAtFirstPoll | utils/helpers.py:184-188 | a record already confirmed at the first poll is returned at once, with no round waited |
| Helpers.ScenarioConfirmedAfterFourWaits | utils/helpers.py:176-196 | starting at round 1000 with four pending polls, the record is returned after waiting rounds 1001 to 1004 |
| Helpers.Polls | utils/helpers.py:181-196 | the reference definition of the polls: a confirming lookup ends the wait, a pending one waits its round, a raising one moves on; its guarantees are `Helpers.PollsFacts` and `Helpers.PollsRounds`, and `Helpers.WaitForConfirmation` is proved equal to it |
| Helpers.Wait | utils/helpers.py:174-203 | the reference definition of the whole wait: nothing when `status()` fails, else the polls from `last_round + 1` within the budget; its guarantees are `Helpers.WaitFacts` |
| Services.Confirmation | backend/main.py:271 | the wait with the default timeout of 10 returns only a record whose confirmed round is positive, and it returns one iff a poll within 10 confirms |
| History.FormatTxnFields | backend/main.py:358-370 | a missing field becomes '', 0 or 'unknown'; the payment keys are present iff `tx-type == 'pay'` |
| History.FormatTxn | backend/main.py:358-370 | the reference definition of one history entry, as the loop builds it; its fields are stated by `History.FormatTxnFields` |
| History.FormatTransactions | backend/main.py:356-372 | one formatted entry per indexer transaction, in the same order |
| Http.LookupFailureClassification | backend/main.py:333-337 | the transaction test reduces to "not found" in the lower-cased text; both tests ignore case; an exception maps to 404 or 500 and to nothing else |
| Http.AccountLookupFailure | backend/main.py:208-212 | 404 with the funding hint when the lower-cased error names a missing account, else 500 with the error text; see `Http.LookupFailureClassification` |
| Http.TransactionLookupFailure | backend/main.py:333-337 | 404 "Transaction not found" when the lower-cased error says "not found", else 500 with the error text; see `Http.LookupFailureClassification` |
| Views.BalanceOf | backend/main.py:194-204 | balance is the raw `amount` (default 0); `min_balance` defaults to 100000; available + min_balance == balance, which may be negative; status defaults to 'Unknown' and round to 0 |
| Views.Positive | backend/main.py:328-329 | the value is kept iff it is present and positive |
| Views.StatusOf | backend/main.py:302-331 | `confirmed` iff the confirmed round (default 0) is positive; `confirmed_round` is null exactly when not confirmed; sender and receiver are taken from `txn.txn` as they are; amount and fee are null when 0 or missing |
| Backend.SendTransaction | backend/main.py:215-291 | a failed mnemonic conversion gives 500; then, in order, 400 invalid receiver, 400 same address, 400 amount <= 0; insufficient-balance 400 iff those pass and balance < amount + fee + min (default 100000); past the early checks, a raising `suggested_params`, `account_info` or `send_transaction` gives 500 with its text; success iff everything passes and the submit works; a timed-out wait still gives success, with no round; a confirmed wait gives its positive round |
| Backend.EarlyChecks | backend/main.py:222-234 | the first failing check, in order: invalid receiver, same address, amount <= 0; `Backend.SendChecksPrecedeNetwork` proves they come before the node |
| Backend.SendChecksPrecedeNetwork | backend/main.py:222-238 | a request that fails an early check gets the same 400 whatever the node answers |
| Backend.InsufficientIff | backend/main.py:241-251 | refused as insufficient exactly when balance < amount + fee + min_balance, where min_balance defaults to 100000 |
| Backend.GetBalance | backend/main.py:183-212 | an invalid address gives 400; success iff the address is valid and the lookup works, and the body is `BalanceOf`; a lookup error gives 404 iff it mentions a missing account, else 500 with its text |
| Backend.BalanceCheckPrecedesNetwork | backend/main.py:187-192 | an invalid address is answered the same whatever the node holds |
| Backend.GetTransactionStatus | backend/main.py:294-337 | success iff the lookup works, with body `StatusOf`; an error containing "not found" (any case) gives 404, any other gives 500 with its text |
| Backend.GetTransactionHistory | backend/main.py:340-383 | the limit defaults to 10; an invalid address gives 400; an indexer error gives 500; on success there is one `FormatTxn` entry per transaction, in order, and count == the number of entries |
| ApiSendTransaction.HandlePost | api/send-transaction.py:24-123 | an unreadable body gives 500; 400 "Invalid input parameters" iff the stripped mnemonic or receiver is empty or the amount <= 0 (defaults ''/0); then a conversion error gives 500, then 400 invalid receiver, then 400 same address; then a raising `suggested_params`, `account_info` or `send_transaction` gives 500 with its text; insufficient 400 iff the balance rule fails; success iff everything passes; the body carries the round or null; every failure is 400 or 500 |
| ApiSendTransaction.InputCheckPrecedesEverything | api/send-transaction.py:31-42 | rejected input gives the same 400 whatever the mnemonic conversion, the validator or the node do |
| ApiSendTransaction.AgreesWithBackend | api/send-transaction.py:44-111 | on stripped, present, positive input the handler and the backend fail identically and succeed with the same txid and round |
| ApiTransactionStatus.HandleGet | api/transaction-status.py:19-85 | a missing or empty txid gives 400 before any lookup; success iff the lookup works, with body `StatusOf`; "not found" gives 404, else 500 |
| ApiTransactionStatus.AgreesWithBackend | api/transaction-status.py:33-85 | given a txid, the handler answers exactly as the backend endpoint |
| ApiTransactionStatus.MissingTxidPrecedesNetwork | api/transaction-status.py:24-31 | without a txid (absent or empty) the reply does not depend on the node |
| ApiBalance.HandleGet | api/balance.py:18-74 | a missing or empty address gives 400, then an invalid one gives 400, both before the lookup; success iff the lookup works, with body `BalanceOf`; a missing account gives 404, else 500 |
| ApiBalance.AgreesWithBackend | api/balance.py:32-74 | given an address, the handler answers exactly as the backend endpoint |
| ApiBalance.AddressChecksPrecedeNetwork | api/balance.py:23-38 | a missing or invalid address gives 400 whatever the node holds |
| ApiTransactionHistory.Limit | api/transaction-history.py:24 | the limit is 10 when absent, the number when the text is digits, and an error exactly when `int()` fails |
| ApiTransactionHistory.HandleGet | api/transaction-history.py:18-84 | an unreadable limit gives 500 first; then a missing or empty address gives 400, then an invalid one gives 400; success iff the search works, with one `FormatTxn` entry per transaction and count == the entry count |
| SendAlgo.GetSenderPrivateKey | scripts/send_algo.py:30-52 | empty input gives nothing; a key pair comes back iff the stripped input converts |
| SendAlgo.GetReceiverAddress | scripts/send_algo.py:55-71 | the stripped input is returned iff it is a valid address |
| SendAlgo.GetAmountToSend | scripts/send_algo.py:74-101 | an amount is returned iff the input is a number and the number is positive |
| SendAlgo.GetOptionalNote | scripts/send_algo.py:104-123 | None iff the input is all whitespace; otherwise the stripped, non-empty text |
| SendAlgo.SenderBalanceReport | scripts/send_algo.py:144-166 | the report is a lookup failure iff the lookup raises; a shortfall is positive and equals total_needed − balance; a remainder is >= 0 and equals balance − total_needed |
| SendAlgo.VerifySenderBalance | scripts/send_algo.py:126-172 | true iff the lookup works and balance >= amount + fee + min (default 100000); false whenever the lookup raises |
| SendAlgo.Prepare | scripts/send_algo.py:246-271 | the prompts stop the run only as cancelled or self-send; a missing or empty sender address cancels, and so, after it, does an invalid or empty receiver; self-send iff the sender's address is non-empty and the receiver equals it; a prepared payment has non-empty, distinct parties and a positive amount |
| SendAlgo.Proceed | scripts/send_algo.py:276-340 | the node is reached; a failing `suggested_params` is uncaught; with the fee known, insufficient iff the balance check fails; then declined iff the reply is not "yes"; then send-failed iff the submit raises or gives an empty txid, and sent otherwise; a sent payment is confirmed iff the wait returns a record, and a confirmed outcome carries that record's `confirmed-round`, which is positive |
| SendAlgo.Run | scripts/send_algo.py:239-352 | the node is reached iff the prompts all succeed; a stopped run ends as the prompts stopped it, and a prepared one ends as `Proceed` does with the prepared sender and amount; a missing or empty sender address cancels; self-send iff the sender's address is non-empty and the receiver equals it |
| SendAlgo.SelfSendPrecedesNetwork | scripts/send_algo.py:262-265 | a self-send is refused whatever the node would answer |
| TransactionStatusScript.GetTransactionStatus | scripts/transaction_status.py:24-65 | a record is returned iff the lookup works; confirmed iff confirmed-round (default 0) > 0; `(None, True)` never occurs |
| TransactionStatusScript.PoolErrorLine | scripts/transaction_status.py:83-86 | the pool-error line is shown iff `pool-error` is non-empty |
| TransactionStatusScript.Run | scripts/transaction_status.py:186-209 | an empty txid stops the run; a missing record is a failure before confirmation is consulted; otherwise the record is shown confirmed iff its round is positive, else pending with its pool-error line |
| CheckBalance.GetAccountBalance | scripts/check_balance.py:24-56 | the record, or None exactly when the lookup raises |
| CheckBalance.Shown | scripts/check_balance.py:107-114 | a count is listed iff it is positive |
| CheckBalance.DetailedBalance | scripts/check_balance.py:59-137 | available = balance − min_balance, with min defaulting to 0; the rewards line appears iff rewards > 0; holdings are shown iff some count > 0; exactly one tip applies: no balance, else low below 100000 available, else ready |
| CheckBalance.TipFor | scripts/check_balance.py:126-136 | no balance when the balance is 0, else low below 100000 available, else ready; `CheckBalance.DetailedBalance` and `CheckBalance.MissingMinBalanceTip` state its use |
| CheckBalance.AvailableAgainstEndpoints | scripts/check_balance.py:77-88 | with `min-balance` missing, the script reports 100000 more available than the endpoints; with it present, the same |
| CheckBalance.MissingMinBalanceTip | scripts/check_balance.py:126-136 | without `min-balance`, a funded account is "low" only while its balance is under 100000 |
| CheckBalance.Run | scripts/check_balance.py:142-179 | an invalid address stops the run before any lookup; a report is shown iff the lookup works |
| CounterContract.Approval | contracts/counter_contract.py:22-100 | a rejected call leaves `counter` as it was; `counter` stays within uint64 |
| CounterContract.Route | contracts/counter_contract.py:83-98 | the first `Cond` branch whose test holds: creation, NoOp, delete, update, or none; `CounterContract.CreationTakesPrecedence` and `CounterContract.ExistingApplicationCalls` state the outcome of each |
| CounterContract.ClearStateProgram | contracts/counter_contract.py:103-114 | the clear-state program approves every call |
| CounterContract.CreationTakesPrecedence | contracts/counter_contract.py:83-85 | with application id 0, the call is approved and sets counter to 0, whatever its on-completion kind |
| CounterContract.ExistingApplicationCalls | contracts/counter_contract.py:83-98 | a NoOp adds exactly 1 (rejected at the uint64 top); delete and update are approved iff the sender is the creator and keep `counter`; opt-in, close-out and clear-state are rejected |
| CounterContract.CounterCountsNoOps | contracts/counter_contract.py:52-61 | away from the top of the range, a sequence of calls raises `counter` by exactly its number of NoOps |
| CounterContract.CounterApp.constructor | contracts/counter_contract.py:43-47 | creation sets `counter` to 0 |
| CounterContract.CounterApp.Call | contracts/counter_contract.py:83-98 | the verdict and the new `counter` are those of `Approval` on the old counter; a rejected call changes nothing |
| CounterContract.CounterApp.Increment | contracts/counter_contract.py:52-61 | `counter := counter + 1`, approved iff the old counter is below the uint64 maximum |
| CounterContract.CounterApp.Delete | contracts/counter_contract.py:70-73 | approved iff the sender is the creator; the state is unchanged |
| CounterContract.CounterApp.Update | contracts/counter_contract.py:77-79 | approved iff the sender is the creator; the state is unchanged |
| TimelockContract.ApprovalIsMonotone | contracts/timelock_contract.py:22-111 | each of the three programs, if it approves at a round, approves at every later round |
| TimelockContract.UnlockBoundary | contracts/timelock_contract.py:82-109 | the basic lock rejects exactly before the unlock round; the owner passes the escape hatch at every round; before unlock, only the owner passes it |
| TimelockContract.VariantsAreNested | contracts/timelock_contract.py:22-111 | receiver-variant approval implies basic approval, which implies escape-hatch approval |
| TimelockContract.Timelock | contracts/timelock_contract.py:22-44 | approves iff the round is at least the unlock round (`Global.round() >= unlock_round`); its properties are the three lemmas above |
| TimelockContract.TimelockWithReceiver | contracts/timelock_contract.py:47-79 | approves iff the round is at least the unlock round and the receiver is the fixed one |
| TimelockContract.TimelockWithEscapeHatch | contracts/timelock_contract.py:82-111 | approves iff the round is at least the unlock round or the sender is the owner |
| ContractFiles.ContractsIn | deploy/compile_contract.py:185-188 | every name kept ends in `.py` and does not start with `__`; no more names come out than went in |
| ContractFiles.ContractsInMembership | deploy/compile_contract.py:185-188 | a name is kept iff it is in the listing and is a contract file |
| ContractFiles.ContractsInConcat | deploy/compile_contract.py:185-188 | the filter distributes over concatenation, so listing order is kept |
| ContractFiles.ListAvailableContracts | deploy/compile_contract.py:171-190 | a missing directory gives []; otherwise exactly the listed contract files |
| ContractFiles.Normalise | deploy/compile_contract.py:201-204 | the result ends in `.py`; the name is unchanged iff it already ends in `.py`, otherwise `.py` is appended |
| ContractFiles.NormaliseIdempotent | deploy/compile_contract.py:201-204 | normalising twice is normalising once |
| ContractFiles.ChooseContract | deploy/compile_contract.py:219-230 | a number n selects contracts[n−1] iff 1 <= n <= count, otherwise it is invalid; a non-number is normalised |
| ContractFiles.NumberedChoices | deploy/compile_contract.py:222-228 | "0" is invalid, "01" picks the first contract, count+1 is invalid |
| ContractFiles.SplitExtRoot | deploy/compile_contract.py:254 | the root is a prefix of the name |
| ContractFiles.RootOfNormalised | deploy/compile_contract.py:254 | for a plain name, the root of the normalised name is the name without `.py` |
| ContractFiles.OutputPaths | deploy/compile_contract.py:115-116 | the files are `<base>_approval.teal` and `<base>_clear.teal` in the output directory, and they are always different |
| ContractFiles.Join | deploy/compile_contract.py:115-116 | `os.path.join` for one name: an absolute name, or an empty directory, gives the name itself; otherwise the path starts with the directory, then one slash exactly when the directory does not end in one, then the name |
| ContractFiles.ApprovalPath | deploy/compile_contract.py:115 | the output directory joined with `<base>_approval.teal`; see `ContractFiles.OutputPaths` |
| ContractFiles.ClearPath | deploy/compile_contract.py:116 | the output directory joined with `<base>_clear.teal`; see `ContractFiles.OutputPaths` |
| CompileContract.CompileContractFile | deploy/compile_contract.py:53-92 | nothing when the module does not load, has no `compile_contract`, or that raises; otherwise the TEAL, with a metadata key for each schema getter present and no other key |
| CompileContract.SelectContract | deploy/compile_contract.py:201-230 | an argv name is normalised; an empty listing stops the run; otherwise the stripped reply's choice decides: an invalid choice gives Invalid, a chosen name is selected; a selected name ends in `.py` |
| CompileContract.Finish | deploy/compile_contract.py:239-266 | no selection, or a missing file, stops the run; for an existing file, compilation failed iff `compile_contract_file` gives no approval TEAL (or an empty one), and the run completes otherwise; a completed run used the contract's root name and saved both files iff the reply is "yes" |
| DeployContract.Schemas | deploy/deploy_contract.py:175-181 | each schema is the module's getter value, or (0, 0) when the getter is absent |
| DeployContract.CreatorAddress | deploy/deploy_contract.py:75-97 | empty input gives nothing; a creator comes back iff the stripped input converts |
| DeployContract.Deploy | deploy/deploy_contract.py:150-271 | a module that fails to load, or lacks `compile_contract`, gives None; a raising `compile_contract` is uncaught; each later stage stops the run exactly when every earlier one passed and it fails: no usable bytecode, no creator or an empty creator address, an unreadable balance, balance < 200000, a raising `suggested_params` (uncaught), a reply other than "yes", a raising send, no confirmation; a run that passes them all is deployed, and its result is the record's `application-index`, with the schemas defaulted to (0, 0) |
| DeployContract.ChooseTarget | deploy/deploy_contract.py:282-316 | an argv name is normalised; a missing directory stops the run; otherwise the compiler's choice rule decides, even on an empty listing |
| DeployContract.ChoiceAgreesWithCompiler | deploy/deploy_contract.py:282-313 | when contracts are listed, the deployer selects exactly what the compiler selects |
| DeployContract.EmptyDirectoryDiffers | deploy/deploy_contract.py:293-313 | for an empty directory, the compiler stops while the deployer takes the reply as a name |
| IndexerSearch.SearchParams | scripts/indexer_search.py:43-50 | the parameters always hold `limit`, and hold `txn_type` iff the type filter is truthy |
| IndexerSearch.ParamsUnique | scripts/indexer_search.py:43-50 | that description fixes the parameter dictionary completely |
| IndexerSearch.ParseLimit | scripts/indexer_search.py:200-201 | the limit is the typed number when the input is all digits, else 10 |
| IndexerSearch.TypeFilter | scripts/indexer_search.py:205 | an empty reply gives None; otherwise the stripped, lower-cased reply, which is therefore truthy |
| IndexerSearch.DescribeFacts | scripts/indexer_search.py:75-117 | the detail kind is pay, axfer, appl or none according to `tx-type` alone, so at most one detail applies; "Unknown time" iff the round time is 0 or missing; the txid shown is its first 16 characters |
| IndexerSearch.Describe | scripts/indexer_search.py:75-117 | the reference definition of one listed transaction; its facts are `IndexerSearch.DescribeFacts`, and `IndexerSearch.DisplayTransactionList` is proved equal to it per position |
| IndexerSearch.DisplayTransactionList | scripts/indexer_search.py:61-130 | an empty list shows "no transactions"; otherwise one entry per transaction, in order, numbered from 1 |
| IndexerSearch.Run | scripts/indexer_search.py:173-227 | an empty address, then an invalid one, stops the run before the indexer; the search is made with exactly the described parameters; a failed search is reported, and otherwise its transactions are listed |
| MnemonicGrid.Grid | scripts/create_account.py:67-71 | ⌈n/5⌉ rows of 1 to 5 cells; row r holds words 5r+1 to 5r+5 with their 1-based positions; read in order, the rows list every word once, labelled k+1 |
| RecoverAccount.GetMnemonicInput | scripts/recover_account.py:140-169 | exactly 25 words are accepted without a question; any other count is accepted iff the reply is "yes"; the phrase is returned stripped |
| RecoverAccount.TwentyFiveWordsPass | scripts/recover_account.py:161-169 | 25 words joined by single spaces pass the gate unchanged |
| RecoverAccount.RecoverAccountFromMnemonic | scripts/recover_account.py:23-54 | any conversion error gives (None, None); otherwise the key and the address |
| RecoverAccount.DisplayRecoveryResult | scripts/recover_account.py:86-126 | the mnemonic grid of the phrase's words; the network section is missing iff there is no account info; the zero-balance hint appears iff info is present and its balance is 0 |
| RecoverAccount.Run | scripts/recover_account.py:172-199 | cancelled iff the gate gives nothing or an empty phrase; failed iff the conversion fails or gives no address; otherwise the report for the recovered address, with the phrase's words in a 5-per-row grid that labels word k with k+1, and, when the lookup answers, its balance, status (default 'Unknown'), round and the zero-balance hint iff the balance is 0 |
| CreateAccount.DisplayAccountDetails | scripts/create_account.py:46-71 | the address, and the mnemonic grid of the phrase's words |
| CreateAccount.AccountFileName | scripts/create_account.py:117 | the first 8 characters of the address, then ".account" |
| CreateAccount.AccountFileRoundTrip | scripts/create_account.py:119-123 | the file's Address line and Mnemonic line read back as the address and the phrase |
| CreateAccount.AccountFileContent | scripts/create_account.py:119-123 | the Address line, the Mnemonic line, then the warning; `CreateAccount.AccountFileRoundTrip` proves the two values read back |
| CreateAccount.SaveToFileOption | scripts/create_account.py:97-129 | the file is written iff the stripped, lower-cased reply is "yes", at `accounts/<name>` with the Address line, the Mnemonic line and the warning |
| CreateAccount.SharedPrefixSharesFile | scripts/create_account.py:117 | two addresses sharing their first 8 characters are saved under the same file name |
| CreateAccount.Run | scripts/create_account.py:132-147 | the generated address is shown with its mnemonic in a 5-per-row grid that labels word k with k+1, and the save follows `SaveToFileOption` |
| Text.ParseInt | api/transaction-history.py:24 | a stripped all-digit text parses to its decimal value |
| Text.WordsOfJoin | scripts/recover_account.py:162 | splitting words joined by single spaces gives the words back |

## Left out

- Floats: `microalgos_to_algos`, `algos_to_microalgos` and every `*_algo` field are not modelled; amounts are integer microAlgos. In particular the serverless handler's `amount_algo <= 0` check is made on the integer amount.
- Backend.SendTransaction: the insufficient-balance detail omits the "Need … ALGO, have … ALGO" figures, because they are floats.
- ApiSendTransaction.HandlePost: the same insufficient-balance detail also omits its ALGO figures.
- ApiSendTransaction.HandlePost: the JSON fields are strings or missing. A `null` or non-string `sender_mnemonic`, `receiver_address` or `note`, or an `amount_algo` that `float()` refuses, raises at api/send-transaction.py:28-34 and gives 500 before the input check; the model has no such `Payload`, and `body.Err?` stands for every exception raised while reading the body and its fields.
- The SDK (`mnemonic.*`, `account.*`, `encoding.decode_address`, transaction building, signing) is foreign. Address validation and the mnemonic conversion are parameters.
- Key generation in `create_new_account` is random, so the address and mnemonic are inputs of `CreateAccount.Run`.
- Client construction from the environment (utils/algod_client.py, utils/indexer_client.py) is not modelled; each call's answer is an input.
- `status_after_block` raising right after a pending record was read has the same effect as a call that returns: the round was passed to it, the round advances, and the loop goes on. It is therefore recorded in `waitedRounds` like a returning call and needs no case of its own.
- The wait loop has no pool-rejected outcome: the code never reads `pool-error` there; `Helpers.WaitIgnoresPoolError` states it.
- The pass-through endpoints and handlers (network status, account create and recover, health), `print_account_info`, `print_transaction_summary` and `pretty_print_json` print or forward, and decide nothing.
- Terminal and HTTP plumbing (print text, response headers, JSON serialisation, CORS) and file writes are not modelled. Only the data each reply or file carries is.
- The fixed `accounts/` and `compiled/` directories are parameters.
- Note decoding (base64, UTF-8) in the status replies and the indexer listing is not modelled, and neither is the note bytes' encoding in the payment scripts.
- `datetime` formatting of the round time is not modelled; the listing keeps the number.
- The printed padding of grid cells (`:2d`, `:12s`) and of the balance report is not modelled.
- `display_account_summary` in the indexer script prints a summary and swallows its own errors, so it changes nothing that follows.
- `display_confirmed_transaction` only prints.
- String operations use ASCII: no Unicode whitespace or case mapping, and no underscores or Unicode digits in `int()`. ApiTransactionHistory.Limit: the error text does not reproduce Python's quoting of unusual characters in the literal.
- An account or record reply that is an empty dictionary is treated as present. Python treats it as falsy in `if not account_info`, in `if not confirmed_txn`, and in `if not results` of the indexer script (scripts/indexer_search.py:221), where an empty search reply prints "Search failed" while `IndexerSearch.Run` shows an empty listing.
- Dynamic module loading becomes an optional `ContractModule` record. The schema getters are taken not to raise. The PyTeal `compileTeal` output and TEAL bytecode compilation are inputs. contracts/hello_world.py, a constant approval, is not part of this model.
- CounterContract.ClearStateProgram: the protocol removes local state whatever that program answers. Only the program's verdict is modelled.
- CounterContract.CounterApp.Delete: approving the deletion does not destroy the object, because the application's removal from the ledger is not modelled.
- The compiler's existence check on the contract file (`os.path.exists`) is the `fileExists` parameter of `CompileContract.Finish`. The deployer's own existence check and its call `deploy_contract(contract_path)` (deploy/deploy_contract.py:325-330) are not modelled: `DeployContract.ChooseTarget` ends at the chosen name, and `DeployContract.Deploy` starts from the loaded module.
- The deployer's final "DEPLOYMENT SUCCESSFUL" report (`if app_id:`) only prints.
