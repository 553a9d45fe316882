/**
 * The three timelock programs (contracts/timelock_contract.py): what each
 * approves, given the current round, the sender and the receiver.
 * `Int(unlock_round)` only accepts unsigned values, hence `nat`.
 */
module TimelockContract {
  /** `timelock_contract`: approve from the unlock round on. */
  predicate Timelock(unlockRound: nat, round: nat) {
    round >= unlockRound
  }

  /** `timelock_contract_with_receiver`: from the unlock round on, and only to the fixed receiver. */
  predicate TimelockWithReceiver(unlockRound: nat, receiverAddress: string, round: nat, receiver: string) {
    round >= unlockRound && receiver == receiverAddress
  }

  /** `timelock_with_escape_hatch`: from the unlock round on, or at any round for the owner. */
  predicate TimelockWithEscapeHatch(unlockRound: nat, ownerAddress: string, round: nat, sender: string) {
    round >= unlockRound || sender == ownerAddress
  }

  /** Once a program approves at some round, it approves at every later round. */
  lemma ApprovalIsMonotone(unlockRound: nat, fixed: string, round: nat, later: nat, who: string)
    requires round <= later
    ensures Timelock(unlockRound, round) ==> Timelock(unlockRound, later)
    ensures TimelockWithReceiver(unlockRound, fixed, round, who) ==> TimelockWithReceiver(unlockRound, fixed, later, who)
    ensures TimelockWithEscapeHatch(unlockRound, fixed, round, who) ==> TimelockWithEscapeHatch(unlockRound, fixed, later, who)
  {
  }

  /** Before the unlock round only the escape hatch's owner gets through; after it, the basic lock opens for all. */
  lemma UnlockBoundary(unlockRound: nat, owner: string, round: nat, sender: string)
    ensures !Timelock(unlockRound, round) <==> round < unlockRound
    ensures TimelockWithEscapeHatch(unlockRound, owner, round, owner)
    ensures round < unlockRound ==> (TimelockWithEscapeHatch(unlockRound, owner, round, sender) <==> sender == owner)
  {
  }

  /**
   * For the same unlock round, round and address: the receiver variant
   * approves no more than the basic lock, which approves no more than the
   * escape-hatch variant.
   */
  lemma VariantsAreNested(unlockRound: nat, address: string, round: nat, who: string)
    ensures TimelockWithReceiver(unlockRound, address, round, who) ==> Timelock(unlockRound, round)
    ensures Timelock(unlockRound, round) ==> TimelockWithEscapeHatch(unlockRound, address, round, who)
  {
  }
}
