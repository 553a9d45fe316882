/**
 * What the REST facade (backend/main.py) and the serverless handlers (api/)
 * answer: a body with status 200, or an error status with its detail text,
 * and how they turn the text of an exception into 404 or 500.
 */
module Http {
  import opened Text

  datatype Response<T> = Success(body: T) | Fail(status: int, detail: string)

  const BadRequest: int := 400
  const NotFound: int := 404
  const ServerError: int := 500

  const AccountNotFoundDetail: string := "Account not found. Fund it at https://bank.testnet.algorand.network/"
  const TransactionNotFoundDetail: string := "Transaction not found"

  /** The error text names an account the node does not know, in any letter case. */
  predicate MentionsMissingAccount(message: string) {
    var m := Lower(message);
    Contains(m, "no accounts found") || Contains(m, "account does not exist")
  }

  /** The error text names a transaction the node does not know, in any letter case. */
  predicate MentionsMissingTransaction(message: string) {
    var m := Lower(message);
    Contains(m, "not found") || Contains(m, "transaction not found")
  }

  /** An exception during an account lookup: 404 for an unknown account, else 500 with its text. */
  function AccountLookupFailure<T>(message: string): Response<T> {
    if MentionsMissingAccount(message) then Fail(NotFound, AccountNotFoundDetail)
    else Fail(ServerError, message)
  }

  /** An exception during a transaction lookup: 404 when it says "not found", else 500 with its text. */
  function TransactionLookupFailure<T>(message: string): Response<T> {
    if MentionsMissingTransaction(message) then Fail(NotFound, TransactionNotFoundDetail)
    else Fail(ServerError, message)
  }

  lemma LowerIdempotent(s: string)
    ensures Lower(Lower(s)) == Lower(s)
  {
  }

  /**
   * The transaction classification only needs "not found": its second test
   * can never decide anything. Both classifications ignore letter case and
   * answer 404 or 500, never anything else.
   */
  lemma LookupFailureClassification<T>(message: string)
    ensures MentionsMissingTransaction(message) <==> Contains(Lower(message), "not found")
    ensures MentionsMissingTransaction(Lower(message)) == MentionsMissingTransaction(message)
    ensures MentionsMissingAccount(Lower(message)) == MentionsMissingAccount(message)
    ensures AccountLookupFailure<T>(message).status in {NotFound, ServerError}
    ensures TransactionLookupFailure<T>(message).status in {NotFound, ServerError}
  {
    if Contains(Lower(message), "transaction not found") {
      TransactionNotFoundMentionsNotFound(Lower(message));
    }
    LowerIdempotent(message);
  }
}
