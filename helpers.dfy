/**
 * utils/helpers.py: display truncation of addresses and transaction ids,
 * the minimum-balance formula, and the round-bounded confirmation wait.
 */
module Helpers {
  import opened Wrappers
  import opened Ledger

  /** Length of an Algorand address. */
  const AddressLength: nat := 58

  /**
   * `format_address`: an address of full length is shown as its first six
   * characters, "..." and its last six; anything shorter, the empty string
   * included, is returned as it is.
   */
  function FormatAddress(address: string): (r: string)
    ensures |address| < AddressLength ==> r == address
    ensures |address| >= AddressLength ==>
      |r| == 15 && r[..6] == address[..6] && r[6..9] == "..." && r[9..] == address[|address| - 6..]
  {
    if address == "" || |address| < AddressLength then address
    else address[..6] + "..." + address[|address| - 6..]
  }

  /**
   * `format_transaction_id`: an id of 16 characters or more is shown as its
   * first eight characters, "..." and its last eight; a shorter one as it is.
   */
  function FormatTransactionId(txid: string): (r: string)
    ensures |txid| < 16 ==> r == txid
    ensures |txid| >= 16 ==>
      |r| == 19 && r[..8] == txid[..8] && r[8..11] == "..." && r[11..] == txid[|txid| - 8..]
  {
    if txid == "" || |txid| < 16 then txid
    else txid[..8] + "..." + txid[|txid| - 8..]
  }

  /**
   * A formatted address is never longer than the address, so formatting it
   * again changes nothing; a transaction id of 16 to 18 characters, by
   * contrast, comes out longer than it went in.
   */
  lemma FormattingLengths(address: string, txid: string)
    ensures |FormatAddress(address)| <= |address|
    ensures FormatAddress(FormatAddress(address)) == FormatAddress(address)
    ensures 16 <= |txid| < 19 ==> |FormatTransactionId(txid)| > |txid|
    ensures |txid| >= 19 ==> |FormatTransactionId(txid)| <= |txid|
  {
  }

  /** `get_min_balance_requirement`: 0.1 ALGO for the account and for each asset and app. */
  function MinBalanceRequirement(numAssets: int, numApps: int): (total: int)
  {
    100_000 + numAssets * 100_000 + numApps * 100_000
  }

  /** The formula, its default value and its monotonicity in each argument. */
  lemma MinBalanceRequirementFacts(numAssets: int, numApps: int, more: nat)
    ensures MinBalanceRequirement(numAssets, numApps) == 100_000 * (1 + numAssets + numApps)
    ensures MinBalanceRequirement(0, 0) == 100_000 == DefaultMinBalance
    ensures MinBalanceRequirement(numAssets, numApps) <= MinBalanceRequirement(numAssets + more, numApps)
    ensures MinBalanceRequirement(numAssets, numApps) <= MinBalanceRequirement(numAssets, numApps + more)
  {
  }

  // ---------------------------------------------------------------------
  // wait_for_confirmation

  /** The rounds `wait_for_confirmation` waits when no timeout is given. */
  const DefaultTimeout: int := 10

  /**
   * One call of `pending_transaction_info`: the record, or an exception.
   * An exception from `status_after_block` right after a record was read
   * has the same effect as one that returns, so it needs no case of its own.
   */
  datatype Lookup = Found(info: PendingInfo) | LookupRaised

  /** The k-th lookup reports a positive confirmed round. */
  predicate ConfirmedAt(lookup: nat -> Lookup, k: nat) {
    lookup(k).Found? && IsConfirmed(lookup(k).info)
  }

  /**
   * What one wait does: the value returned, how many lookups it made, and
   * the rounds it passed to `status_after_block`, in call order.
   */
  datatype WaitRun = WaitRun(result: Option<PendingInfo>, lookups: nat, waitedRounds: seq<int>)

  /** How many polls a timeout allows: `timeout` if positive, else none. */
  function PollBudget(timeout: int): nat {
    if timeout > 0 then timeout else 0
  }

  /**
   * The polls from the k-th on, out of n, when poll 0 happens at round
   * `first`: a confirmed record ends the wait; a pending one waits for the
   * current round; an exception moves on to the next round without waiting.
   */
  function Polls(lookup: nat -> Lookup, first: int, k: nat, n: nat): (w: WaitRun)
    decreases n - k
  {
    if k >= n then WaitRun(None, k, [])
    else if ConfirmedAt(lookup, k) then WaitRun(Some(lookup(k).info), k + 1, [])
    else
      var rest := Polls(lookup, first, k + 1, n);
      if lookup(k).Found? then rest.(waitedRounds := [first + k] + rest.waitedRounds) else rest
  }

  /**
   * The whole wait, given what `status()` reported: `None` when that call
   * failed (or gave no `last-round`), else the current round.
   */
  function Wait(lastRound: Option<int>, lookup: nat -> Lookup, timeout: int): WaitRun {
    match lastRound
    case None => WaitRun(None, 0, [])
    case Some(r) => Polls(lookup, r + 1, 0, PollBudget(timeout))
  }

  /**
   * `wait_for_confirmation`: reads the current round once, then polls at most
   * `timeout` times, one round per poll, and returns the first record with a
   * positive confirmed round, or `None`. `lookup(k)` is what the k-th call of
   * `pending_transaction_info` gives; `status` what `status()` gave.
   */
  method WaitForConfirmation(status: Option<int>, lookup: nat -> Lookup, timeout: int)
    returns (result: Option<PendingInfo>, lookups: nat, waitedRounds: seq<int>)
    ensures WaitRun(result, lookups, waitedRounds) == Wait(status, lookup, timeout)
    ensures lookups <= PollBudget(timeout)
    ensures result.Some? ==> lookups >= 1 && IsConfirmed(result.value) && lookup(lookups - 1) == Found(result.value)
    ensures result.Some? <==> status.Some? && exists k :: 0 <= k < PollBudget(timeout) && ConfirmedAt(lookup, k)
    ensures forall k :: 0 <= k < lookups - 1 ==> !ConfirmedAt(lookup, k)
  {
    if status.None? {
      return None, 0, [];
    }
    var lastRound := status.value;
    var currentRound := lastRound + 1;
    var timeoutRound := currentRound + timeout;
    ghost var n := PollBudget(timeout);
    lookups, waitedRounds := 0, [];
    while currentRound < timeoutRound
      invariant currentRound == lastRound + 1 + lookups && lookups <= n
      invariant forall k :: 0 <= k < lookups ==> !ConfirmedAt(lookup, k)
      invariant Wait(status, lookup, timeout) ==
        var rest := Polls(lookup, lastRound + 1, lookups, n);
        rest.(waitedRounds := waitedRounds + rest.waitedRounds)
      decreases timeoutRound - currentRound
    {
      var pending := lookup(lookups);
      lookups := lookups + 1;
      if pending.Found? {
        if IsConfirmed(pending.info) {
          WaitFacts(status, lookup, timeout);
          return Some(pending.info), lookups, waitedRounds;
        }
        // status_after_block(current_round)
        waitedRounds := waitedRounds + [currentRound];
      }
      currentRound := currentRound + 1;
    }
    WaitFacts(status, lookup, timeout);
    result := None;
  }

  // ---------------------------------------------------------------------
  // What a wait guarantees

  lemma {:induction false} PollsFacts(lookup: nat -> Lookup, first: int, k: nat, n: nat)
    requires k <= n
    ensures var w := Polls(lookup, first, k, n);
      k <= w.lookups <= n &&
      (w.result.Some? ==>
         w.lookups >= k + 1 && ConfirmedAt(lookup, w.lookups - 1) && lookup(w.lookups - 1) == Found(w.result.value)) &&
      (w.result.None? ==> w.lookups == n) &&
      (forall j :: k <= j < w.lookups - 1 ==> !ConfirmedAt(lookup, j)) &&
      (w.result.None? ==> forall j :: k <= j < n ==> !ConfirmedAt(lookup, j))
    decreases n - k
  {
    if k < n && !ConfirmedAt(lookup, k) {
      PollsFacts(lookup, first, k + 1, n);
    }
  }

  /**
   * A wait makes at most `timeout` lookups and none when `status()` failed or
   * `timeout <= 0`; a record it returns is the last lookup made, has a
   * positive confirmed round, and no earlier lookup had one; it returns
   * `None` exactly when no lookup within the budget reports confirmation.
   */
  lemma WaitFacts(status: Option<int>, lookup: nat -> Lookup, timeout: int)
    ensures var w := Wait(status, lookup, timeout);
      w.lookups <= PollBudget(timeout) &&
      (status.None? || timeout <= 0 ==> w == WaitRun(None, 0, [])) &&
      (w.result.Some? ==>
         w.lookups >= 1 && IsConfirmed(w.result.value) && lookup(w.lookups - 1) == Found(w.result.value)) &&
      (forall k :: 0 <= k < w.lookups - 1 ==> !ConfirmedAt(lookup, k)) &&
      (w.result.Some? <==> status.Some? && exists k :: 0 <= k < PollBudget(timeout) && ConfirmedAt(lookup, k))
  {
    if status.Some? {
      var w := Wait(status, lookup, timeout);
      PollsFacts(lookup, status.value + 1, 0, PollBudget(timeout));
      if w.result.Some? {
        assert ConfirmedAt(lookup, w.lookups - 1);
      }
    }
  }

  lemma {:induction false} PollsRounds(lookup: nat -> Lookup, first: int, k: nat, n: nat)
    requires k <= n
    ensures var w := Polls(lookup, first, k, n).waitedRounds;
      |w| <= n - k &&
      (forall i :: 0 <= i < |w| ==> first + k <= w[i] < first + n) &&
      (forall i, j :: 0 <= i < j < |w| ==> w[i] < w[j])
    decreases n - k
  {
    if k < n && !ConfirmedAt(lookup, k) {
      PollsRounds(lookup, first, k + 1, n);
    }
  }

  /**
   * The rounds passed to `status_after_block` strictly increase and lie in
   * `[last_round + 1, last_round + timeout]`, so there are at most `timeout`.
   */
  lemma WaitedRoundsIncrease(lastRound: int, lookup: nat -> Lookup, timeout: int)
    ensures var w := Wait(Some(lastRound), lookup, timeout).waitedRounds;
      |w| <= PollBudget(timeout) &&
      (forall i :: 0 <= i < |w| ==> lastRound + 1 <= w[i] <= lastRound + timeout) &&
      (forall i, j :: 0 <= i < j < |w| ==> w[i] < w[j])
  {
    PollsRounds(lookup, lastRound + 1, 0, PollBudget(timeout));
  }

  /** Lookups that stay pending never raising: the wait ends after waiting every round of its budget. */
  lemma {:induction false} AllPendingWaitsEveryRound(lookup: nat -> Lookup, first: int, k: nat, n: nat)
    requires k <= n
    requires forall j :: k <= j < n ==> lookup(j).Found? && !IsConfirmed(lookup(j).info)
    ensures Polls(lookup, first, k, n) == WaitRun(None, n, seq(n - k, i => first + k + i))
    decreases n - k
  {
    if k < n {
      AllPendingWaitsEveryRound(lookup, first, k + 1, n);
      assert [first + k] + seq(n - (k + 1), i => first + (k + 1) + i) == seq(n - k, i => first + k + i);
    }
  }

  /** Lookups that agree on whether they raised and on the confirmed round. */
  predicate SameProgress(l1: nat -> Lookup, l2: nat -> Lookup, n: nat) {
    forall k :: 0 <= k < n ==>
      l1(k).Found? == l2(k).Found? &&
      (l1(k).Found? ==> ConfirmedRound(l1(k).info) == ConfirmedRound(l2(k).info))
  }

  lemma {:induction false} PollsIgnorePoolError(l1: nat -> Lookup, l2: nat -> Lookup, first: int, k: nat, n: nat)
    requires SameProgress(l1, l2, n)
    ensures var w1, w2 := Polls(l1, first, k, n), Polls(l2, first, k, n);
      w1.lookups == w2.lookups && w1.waitedRounds == w2.waitedRounds && w1.result.Some? == w2.result.Some?
    decreases n - k
  {
    if k < n {
      assert ConfirmedAt(l1, k) == ConfirmedAt(l2, k);
      PollsIgnorePoolError(l1, l2, first, k + 1, n);
    }
  }

  /**
   * The wait never reads `pool-error`: lookups that differ only in it (or in
   * any field but the confirmed round) give a wait with the same lookups,
   * the same waited rounds and the same outcome.
   */
  lemma WaitIgnoresPoolError(status: Option<int>, l1: nat -> Lookup, l2: nat -> Lookup, timeout: int)
    requires SameProgress(l1, l2, PollBudget(timeout))
    ensures var w1, w2 := Wait(status, l1, timeout), Wait(status, l2, timeout);
      w1.lookups == w2.lookups && w1.waitedRounds == w2.waitedRounds && w1.result.Some? == w2.result.Some?
  {
    if status.Some? {
      PollsIgnorePoolError(l1, l2, status.value + 1, 0, PollBudget(timeout));
    }
  }

  /** A record already confirmed at the first poll is returned at once, with no round waited. */
  lemma ConfirmedAtFirstPoll(lastRound: int, lookup: nat -> Lookup, timeout: int)
    requires timeout > 0 && ConfirmedAt(lookup, 0)
    ensures Wait(Some(lastRound), lookup, timeout) == WaitRun(Some(lookup(0).info), 1, [])
  {
  }

  function PendingRecord(): PendingInfo {
    PendingInfo(None, None, TxnFields(None, None, None, None), None)
  }

  function ScenarioLookup(k: nat): Lookup {
    if k < 4 then Found(PendingRecord()) else Found(PendingRecord().(confirmedRound := Some(1005)))
  }

  /**
   * Status at round 1000, timeout 10, four pending polls and a fifth that
   * reports round 1005: the record is returned after waiting rounds 1001 to 1004.
   */
  lemma ScenarioConfirmedAfterFourWaits()
    ensures Wait(Some(1000), ScenarioLookup, 10) ==
      WaitRun(Some(PendingRecord().(confirmedRound := Some(1005))), 5, [1001, 1002, 1003, 1004])
  {
    var w := Polls(ScenarioLookup, 1001, 4, 10);
    assert ConfirmedAt(ScenarioLookup, 4);
    assert !ConfirmedAt(ScenarioLookup, 3) && !ConfirmedAt(ScenarioLookup, 2);
    assert !ConfirmedAt(ScenarioLookup, 1) && !ConfirmedAt(ScenarioLookup, 0);
  }
}
