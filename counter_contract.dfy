/**
 * The counter application (contracts/counter_contract.py): what its
 * approval program decides and how it changes the global `counter`.
 * Values are TEAL's unsigned 64-bit integers; an addition past the top
 * makes the program fail, which rejects the call and keeps the state.
 */
module CounterContract {
  const MaxUint64: int := 0xFFFF_FFFF_FFFF_FFFF

  datatype OnComplete = NoOp | OptIn | CloseOut | ClearState | UpdateApplication | DeleteApplication

  /** The transaction fields the program reads. */
  datatype AppCall = AppCall(applicationId: int, onCompletion: OnComplete, sender: string)

  /** Whether the call is approved, and `counter` after it. */
  datatype Verdict = Verdict(approved: bool, counter: int)

  /** The branch of the `Cond` that handles a call: the first whose test holds. */
  datatype Branch = OnCreation | OnIncrement | OnDelete | OnUpdate | NoBranch

  function Route(call: AppCall): Branch {
    if call.applicationId == 0 then OnCreation
    else if call.onCompletion == NoOp then OnIncrement
    else if call.onCompletion == DeleteApplication then OnDelete
    else if call.onCompletion == UpdateApplication then OnUpdate
    else NoBranch
  }

  /**
   * The approval program on a call, given the creator and the current
   * `counter`: creation sets it to 0; a NoOp adds 1 (failing at the top of
   * the range); delete and update are for the creator only; a call no
   * branch matches makes `Cond` fail.
   */
  function Approval(call: AppCall, creator: string, counter: int): (v: Verdict)
    ensures !v.approved ==> v.counter == counter
    ensures 0 <= counter <= MaxUint64 ==> 0 <= v.counter <= MaxUint64
  {
    match Route(call)
    case OnCreation => Verdict(true, 0)
    case OnIncrement => if counter + 1 <= MaxUint64 then Verdict(true, counter + 1) else Verdict(false, counter)
    case OnDelete => Verdict(call.sender == creator, counter)
    case OnUpdate => Verdict(call.sender == creator, counter)
    case NoBranch => Verdict(false, counter)
  }

  /** The clear-state program approves every call. */
  function ClearStateProgram(call: AppCall): (approved: bool)
    ensures approved
  {
    true
  }

  /** `get_global_schema()` and `get_local_schema()`: (uints, byte slices). */
  const GlobalSchema: (int, int) := (1, 0)
  const LocalSchema: (int, int) := (0, 0)

  /** Creation wins over every on-completion kind, and always starts the counter at 0. */
  lemma CreationTakesPrecedence(call: AppCall, creator: string, counter: int)
    requires call.applicationId == 0
    ensures Approval(call, creator, counter) == Verdict(true, 0)
  {
  }

  /**
   * On an existing application: a NoOp adds exactly 1 unless that leaves
   * the unsigned 64-bit range; delete and update are approved exactly for
   * the creator and leave `counter` alone; opt-in, close-out and clear-state
   * are rejected.
   */
  lemma ExistingApplicationCalls(call: AppCall, creator: string, counter: int)
    requires call.applicationId != 0 && 0 <= counter <= MaxUint64
    ensures call.onCompletion == NoOp ==>
      Approval(call, creator, counter) == (if counter < MaxUint64 then Verdict(true, counter + 1) else Verdict(false, counter))
    ensures call.onCompletion in {DeleteApplication, UpdateApplication} ==>
      Approval(call, creator, counter) == Verdict(call.sender == creator, counter)
    ensures call.onCompletion in {OptIn, CloseOut, ClearState} ==> Approval(call, creator, counter) == Verdict(false, counter)
  {
  }

  /** `counter` after a sequence of calls on the existing application. */
  function Replay(calls: seq<AppCall>, creator: string, counter: int): int
    decreases |calls|
  {
    if calls == [] then counter
    else Replay(calls[1..], creator, Approval(calls[0], creator, counter).counter)
  }

  /** The NoOp calls among `calls`. */
  function CountNoOps(calls: seq<AppCall>): nat {
    if calls == [] then 0 else (if calls[0].onCompletion == NoOp then 1 else 0) + CountNoOps(calls[1..])
  }

  /**
   * Away from the top of the range, calls on an existing application raise
   * `counter` by exactly the number of NoOp calls among them, whoever sends
   * them and whatever else is called in between.
   */
  lemma {:induction false} CounterCountsNoOps(calls: seq<AppCall>, creator: string, counter: int)
    requires forall i :: 0 <= i < |calls| ==> calls[i].applicationId != 0
    requires 0 <= counter && counter + |calls| <= MaxUint64
    ensures Replay(calls, creator, counter) == counter + CountNoOps(calls)
    decreases |calls|
  {
    if calls != [] {
      var next := Approval(calls[0], creator, counter).counter;
      assert next == counter + (if calls[0].onCompletion == NoOp then 1 else 0);
      CounterCountsNoOps(calls[1..], creator, next);
    }
  }

  /** The deployed application, with its global `counter`. */
  class CounterApp {
    const applicationId: int
    const creator: string
    var counter: int

    predicate Valid()
      reads this
    {
      applicationId != 0 && 0 <= counter <= MaxUint64
    }

    /** The creation call: approved, `counter` starts at 0. `applicationId` is the id the network assigned. */
    constructor (applicationId: int, creator: string)
      requires applicationId != 0
      ensures Valid() && this.applicationId == applicationId && this.creator == creator
      ensures counter == 0
    {
      this.applicationId := applicationId;
      this.creator := creator;
      counter := 0;
    }

    /** An application call of the given kind; a rejected call changes nothing. */
    method Call(onCompletion: OnComplete, sender: string) returns (approved: bool)
      requires Valid()
      modifies this
      ensures Valid()
      ensures Verdict(approved, counter) == Approval(AppCall(applicationId, onCompletion, sender), creator, old(counter))
      ensures !approved ==> counter == old(counter)
    {
      match onCompletion
      case NoOp => approved := Increment(sender);
      case DeleteApplication => approved := Delete(sender);
      case UpdateApplication => approved := Update(sender);
      case _ => approved := false;
    }

    /** A NoOp call: `counter := counter + 1`, rejected if that overflows. */
    method Increment(sender: string) returns (approved: bool)
      requires Valid()
      modifies this
      ensures Valid()
      ensures approved <==> old(counter) < MaxUint64
      ensures counter == if approved then old(counter) + 1 else old(counter)
    {
      if counter < MaxUint64 {
        counter := counter + 1;
        approved := true;
      } else {
        approved := false;
      }
    }

    /** A delete call: approved for the creator only; `counter` is untouched. */
    method Delete(sender: string) returns (approved: bool)
      requires Valid()
      modifies this
      ensures Valid() && unchanged(this)
      ensures approved <==> sender == creator
    {
      approved := sender == creator;
    }

    /** An update call: approved for the creator only; `counter` is untouched. */
    method Update(sender: string) returns (approved: bool)
      requires Valid()
      modifies this
      ensures Valid() && unchanged(this)
      ensures approved <==> sender == creator
    {
      approved := sender == creator;
    }
  }
}
