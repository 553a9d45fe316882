/** The serverless balance handler (api/balance.py). */
module ApiBalance {
  import opened Wrappers
  import opened Http
  import opened Views
  import opened Services
  import Backend

  const AddressRequired: string := "Address parameter is required"

  /**
   * `handler.do_GET`: `address` is the query parameter. A missing, empty or
   * invalid address is answered with 400 before the node is asked.
   */
  function HandleGet(address: Option<string>, isValid: string -> bool, algod: Algod): (r: Response<BalanceView>)
    ensures address.None? || address.value == [] ==> r == Fail(BadRequest, AddressRequired)
    ensures address.Some? && address.value != [] && !isValid(address.value) ==> r == Fail(BadRequest, Backend.InvalidAddress)
    ensures r.Success? <==>
      address.Some? && address.value != [] && isValid(address.value) && algod.accountInfo(address.value).Ok?
    ensures r.Success? ==> r.body == BalanceOf(address.value, algod.accountInfo(address.value).value)
    ensures address.Some? && address.value != [] && isValid(address.value) && algod.accountInfo(address.value).Err? ==>
      var e := algod.accountInfo(address.value).message;
      r.Fail? && (r.status == NotFound <==> MentionsMissingAccount(e)) &&
      (r.status != NotFound ==> r == Fail(ServerError, e))
  {
    if address.None? || address.value == [] then Fail(BadRequest, AddressRequired)
    else if !isValid(address.value) then Fail(BadRequest, Backend.InvalidAddress)
    else
      match algod.accountInfo(address.value)
      case Err(e) => AccountLookupFailure(e)
      case Ok(info) => Success(BalanceOf(address.value, info))
  }

  /** Given an address, the handler answers exactly as the backend's balance endpoint. */
  lemma AgreesWithBackend(address: string, isValid: string -> bool, algod: Algod)
    requires address != []
    ensures HandleGet(Some(address), isValid, algod) == Backend.GetBalance(address, isValid, algod)
  {
  }

  /** A missing or invalid address is answered the same whatever the node holds. */
  lemma AddressChecksPrecedeNetwork(address: Option<string>, isValid: string -> bool, a1: Algod, a2: Algod)
    requires address.None? || address.value == [] || !isValid(address.value)
    ensures HandleGet(address, isValid, a1) == HandleGet(address, isValid, a2)
    ensures HandleGet(address, isValid, a1).Fail? && HandleGet(address, isValid, a1).status == BadRequest
  {
  }
}
