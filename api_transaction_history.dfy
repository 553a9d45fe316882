/** The serverless history handler (api/transaction-history.py). */
module ApiTransactionHistory {
  import opened Wrappers
  import opened Text
  import opened Http
  import opened History
  import opened Services
  import Backend

  const AddressRequired: string := "Address parameter is required"
  const DefaultLimit: int := 10

  /** The text of the `ValueError` that `int(s)` raises (without Python's quoting of odd characters). */
  function InvalidLiteral(s: string): string {
    "invalid literal for int() with base 10: '" + s + "'"
  }

  /** `int(params.get('limit', [10])[0])`: 10 when absent, else the parsed text or the error. */
  function Limit(limit: Option<string>): (r: Result<int>)
    ensures limit.None? ==> r == Ok(DefaultLimit)
    ensures limit.Some? && IsDigits(Strip(limit.value)) ==> r == Ok(DigitsValue(Strip(limit.value)))
    ensures r.Err? <==> limit.Some? && ParseInt(limit.value).None?
  {
    match limit
    case None => Ok(DefaultLimit)
    case Some(s) =>
      match ParseInt(s)
      case Some(n) => Ok(n)
      case None => Err(InvalidLiteral(s))
  }

  /**
   * `handler.do_GET`. The limit is read first, so an unreadable limit gives
   * 500 even when the address is missing; then a missing, empty or invalid
   * address gives 400 before the indexer is asked.
   */
  method HandleGet(address: Option<string>, limit: Option<string>, isValid: string -> bool, search: Search)
    returns (r: Response<HistoryBody>)
    ensures Limit(limit).Err? ==> r == Fail(ServerError, Limit(limit).message)
    ensures Limit(limit).Ok? && (address.None? || address.value == []) ==> r == Fail(BadRequest, AddressRequired)
    ensures Limit(limit).Ok? && address.Some? && address.value != [] && !isValid(address.value) ==>
      r == Fail(BadRequest, Backend.InvalidAddress)
    ensures r.Success? <==>
      Limit(limit).Ok? && address.Some? && address.value != [] && isValid(address.value) &&
      search(address.value)(Limit(limit).value).Ok?
    ensures r.Success? ==>
      var txns := search(address.value)(Limit(limit).value).value;
      r.body.address == address.value && r.body.count == |r.body.transactions| == |txns| &&
      forall i :: 0 <= i < |txns| ==> r.body.transactions[i] == FormatTxn(txns[i])
    ensures r.Fail? && r.status == ServerError && Limit(limit).Ok? ==>
      r == Fail(ServerError, search(address.value)(Limit(limit).value).message)
  {
    var n := Limit(limit);
    if n.Err? {
      return Fail(ServerError, n.message);
    }
    if address.None? || address.value == [] {
      return Fail(BadRequest, AddressRequired);
    }
    if !isValid(address.value) {
      return Fail(BadRequest, Backend.InvalidAddress);
    }
    var response := search(address.value)(n.value);
    if response.Err? {
      return Fail(ServerError, response.message);
    }
    var formatted := FormatTransactions(response.value);
    r := Success(HistoryBody(address.value, formatted, |formatted|));
  }
}
