/**
 * The indexer search script (scripts/indexer_search.py): reading the
 * address, limit and type filter, the parameters handed to the indexer, and
 * what is listed for each transaction found.
 */
module IndexerSearch {
  import opened Wrappers
  import opened Text
  import opened History
  import opened Helpers

  /** A value of the keyword arguments passed to the indexer search. */
  datatype Param = Number(n: int) | Word(s: string)

  /** Python truthiness of the optional type filter: present and non-empty. */
  predicate Truthy(txType: Option<string>) {
    txType.Some? && txType.value != []
  }

  /** The parameters of a search: always `limit`, and `txn_type` exactly when a filter is given. */
  predicate ParamsFor(params: map<string, Param>, limit: int, txType: Option<string>) {
    params.Keys == (if Truthy(txType) then {"limit", "txn_type"} else {"limit"}) &&
    params["limit"] == Number(limit) &&
    (Truthy(txType) ==> params["txn_type"] == Word(txType.value))
  }

  /** The characterisation fixes the parameters completely. */
  lemma ParamsUnique(p1: map<string, Param>, p2: map<string, Param>, limit: int, txType: Option<string>)
    requires ParamsFor(p1, limit, txType) && ParamsFor(p2, limit, txType)
    ensures p1 == p2
  {
    forall k | k in p1.Keys
      ensures p1[k] == p2[k]
    {
      assert k == "limit" || k == "txn_type";
    }
  }

  /** The `search_params` dictionary built by `search_address_transactions`. */
  method SearchParams(limit: int, txType: Option<string>) returns (params: map<string, Param>)
    ensures ParamsFor(params, limit, txType)
  {
    params := map["limit" := Number(limit)];
    if Truthy(txType) {
      params := params["txn_type" := Word(txType.value)];
    }
  }

  /** The indexer's search by address; `Err` is the exception the script catches. */
  type Indexer = string -> map<string, Param> -> Result<seq<IndexerTxn>>

  /** The limit typed at the prompt: its value when it is all digits, else 10. */
  function ParseLimit(input: string): (limit: int)
    ensures IsDigits(Strip(input)) ==> limit == DigitsValue(Strip(input))
    ensures !IsDigits(Strip(input)) ==> limit == 10
    ensures limit >= 0
  {
    var t := Strip(input);
    if IsDigits(t) then DigitsValue(t) else 10
  }

  /** The type filter typed at the prompt, stripped and lower-cased; an empty reply is no filter. */
  function TypeFilter(input: string): (txType: Option<string>)
    ensures txType.None? <==> Reply(input) == []
    ensures txType.Some? ==> txType.value == Reply(input)
    ensures txType.Some? <==> Truthy(txType)
  {
    var t := Reply(input);
    if t == [] then None else Some(t)
  }

  /** The time line of an entry: the round time, or "Unknown time" when it is 0 or missing. */
  datatype TimeShown = At(roundTime: int) | UnknownTime

  /** The lines that depend on the transaction type; at most one kind is shown. */
  datatype Detail =
    | NoDetail
    | PaymentDetail(from: string, to: string, microAlgos: int)
    | AssetDetail(assetId: int, amount: int)
    | AppDetail(applicationId: int)

  /** One listed transaction. */
  datatype Entry = Entry(position: int, time: TimeShown, shownType: string, round: int, txidPrefix: string, detail: Detail)

  /** What `display_transaction_list` shows for the transaction at 1-based `position`. */
  function Describe(position: int, t: IndexerTxn): Entry {
    var txType := t.txType.GetOr("unknown");
    var time := if t.roundTime.GetOr(0) != 0 then At(t.roundTime.value) else UnknownTime;
    var detail :=
      if txType == "pay" then
        var p := t.payment.GetOr(PaymentPart(None, None));
        PaymentDetail(FormatAddress(t.sender.GetOr("Unknown")), FormatAddress(p.receiver.GetOr("Unknown")), p.amount.GetOr(0))
      else if txType == "axfer" then
        var a := t.assetTransfer.GetOr(AssetTransferPart(None, None));
        AssetDetail(a.assetId.GetOr(0), a.amount.GetOr(0))
      else if txType == "appl" then
        AppDetail(t.application.GetOr(ApplicationPart(None)).applicationId.GetOr(0))
      else NoDetail;
    Entry(position, time, Upper(txType), t.confirmedRound.GetOr(0), Take(t.id.GetOr("Unknown"), 16), detail)
  }

  /** Which detail lines an entry has is decided by its type alone, and when the time is unknown. */
  lemma DescribeFacts(position: int, t: IndexerTxn)
    ensures var e := Describe(position, t);
      (e.detail.PaymentDetail? <==> t.txType == Some("pay")) &&
      (e.detail.AssetDetail? <==> t.txType == Some("axfer")) &&
      (e.detail.AppDetail? <==> t.txType == Some("appl")) &&
      (e.detail.NoDetail? <==> t.txType !in {Some("pay"), Some("axfer"), Some("appl")}) &&
      (e.time == UnknownTime <==> t.roundTime.GetOr(0) == 0) &&
      (e.time.At? ==> e.time.roundTime == t.roundTime.value) &&
      e.position == position && e.round == t.confirmedRound.GetOr(0) &&
      |e.shownType| == |t.txType.GetOr("unknown")| &&
      |e.txidPrefix| <= 16 && StartsWith(t.id.GetOr("Unknown"), e.txidPrefix)
  {
  }

  /** The listing: "No transactions found" for an empty list, else one entry per transaction. */
  datatype Listing = NoTransactions | Listed(count: int, entries: seq<Entry>)

  /** `display_transaction_list`. */
  method DisplayTransactionList(transactions: seq<IndexerTxn>) returns (listing: Listing)
    ensures listing.NoTransactions? <==> transactions == []
    ensures listing.Listed? ==>
      listing.count == |listing.entries| == |transactions| &&
      forall i :: 0 <= i < |transactions| ==> listing.entries[i] == Describe(i + 1, transactions[i])
  {
    if transactions == [] {
      return NoTransactions;
    }
    var entries: seq<Entry> := [];
    for i := 0 to |transactions|
      invariant |entries| == i
      invariant forall j :: 0 <= j < i ==> entries[j] == Describe(j + 1, transactions[j])
    {
      var txn := transactions[i];
      var txType := txn.txType.GetOr("unknown");
      var time := UnknownTime;
      if txn.roundTime.GetOr(0) != 0 {
        time := At(txn.roundTime.value);
      }
      var detail := NoDetail;
      if txType == "pay" {
        var payment := txn.payment.GetOr(PaymentPart(None, None));
        detail := PaymentDetail(FormatAddress(txn.sender.GetOr("Unknown")),
                                FormatAddress(payment.receiver.GetOr("Unknown")), payment.amount.GetOr(0));
      } else if txType == "axfer" {
        var asset := txn.assetTransfer.GetOr(AssetTransferPart(None, None));
        detail := AssetDetail(asset.assetId.GetOr(0), asset.amount.GetOr(0));
      } else if txType == "appl" {
        detail := AppDetail(txn.application.GetOr(ApplicationPart(None)).applicationId.GetOr(0));
      }
      entries := entries + [Entry(i + 1, time, Upper(txType), txn.confirmedRound.GetOr(0),
                                  Take(txn.id.GetOr("Unknown"), 16), detail)];
    }
    listing := Listed(|entries|, entries);
  }

  /** How a run of the script ends. */
  datatype Outcome = NoAddress | InvalidAddress | SearchFailed | Shown(listing: Listing)

  /** The address: the command-line argument as given, or the stripped reply. */
  function Address(argument: Option<string>, typed: string): string {
    if argument.Some? then argument.value else Strip(typed)
  }

  /**
   * `main` of the script. `limitInput` and `typeInput` are the replies to the
   * two prompts; the account summary it prints in between swallows its own
   * errors and changes nothing that follows.
   */
  method Run(argument: Option<string>, typed: string, isValid: string -> bool,
             limitInput: string, typeInput: string, indexer: Indexer) returns (o: Outcome)
    ensures Address(argument, typed) == [] ==> o == NoAddress
    ensures Address(argument, typed) != [] && !isValid(Address(argument, typed)) ==> o == InvalidAddress
    ensures forall p :: ParamsFor(p, ParseLimit(limitInput), TypeFilter(typeInput)) ==>
      var address := Address(argument, typed);
      var found := indexer(address)(p);
      (o.SearchFailed? <==> address != [] && isValid(address) && found.Err?) &&
      (o.Shown? <==> address != [] && isValid(address) && found.Ok?) &&
      (o.Shown? ==>
         (o.listing.NoTransactions? <==> found.value == []) &&
         (o.listing.Listed? ==>
            o.listing.count == |o.listing.entries| == |found.value| &&
            forall i :: 0 <= i < |found.value| ==> o.listing.entries[i] == Describe(i + 1, found.value[i])))
  {
    var address := Address(argument, typed);
    if address == [] {
      return NoAddress;
    }
    if !isValid(address) {
      return InvalidAddress;
    }
    var limit := ParseLimit(limitInput);
    var txType := TypeFilter(typeInput);
    var params := SearchParams(limit, txType);
    var results := indexer(address)(params);
    forall p | ParamsFor(p, limit, txType)
      ensures p == params
    {
      ParamsUnique(p, params, limit, txType);
    }
    if results.Err? {
      return SearchFailed;
    }
    var listing := DisplayTransactionList(results.value);
    o := Shown(listing);
  }
}
