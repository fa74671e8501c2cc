/** Two-step ownership with cancellation and renunciation. */
module Ownable {
  import opened BridgeTypes

  datatype Ownership = Ownership(owner: Address, pendingOwner: Address)

  datatype OwnerCall =
    | TransferOwnership(newOwner: Address)
    | CancelOwnershipTransfer
    | RenounceOwnership
    | AcceptOwnership

  const RENOUNCED := Ownership(ZERO_ADDRESS, ZERO_ADDRESS)

  function CallOwnable(o: Ownership, sender: Address, call: OwnerCall): Outcome<Ownership> {
    match call
    case TransferOwnership(newOwner) =>
      if sender != o.owner then Revert(Unauthorized)
      else if newOwner == ZERO_ADDRESS then Revert(InvalidOwner)
      else Commit(o.(pendingOwner := newOwner))
    case CancelOwnershipTransfer =>
      if sender != o.owner then Revert(Unauthorized) else Commit(o.(pendingOwner := ZERO_ADDRESS))
    case RenounceOwnership =>
      if sender != o.owner then Revert(Unauthorized) else Commit(RENOUNCED)
    case AcceptOwnership =>
      if sender != o.pendingOwner then Revert(Unauthorized) else Commit(Ownership(sender, ZERO_ADDRESS))
  }

  /** Once renounced, no nonzero caller ever becomes owner again. */
  lemma RenouncedForever(o: Ownership, sender: Address, call: OwnerCall)
    requires o == RENOUNCED && sender != ZERO_ADDRESS
    ensures CallOwnable(o, sender, call) == Revert(Unauthorized)
  {
  }

  /** Ownership moves only to the account that the owner named and that then accepted. */
  lemma OwnershipMovesInTwoSteps(o: Ownership, sender: Address, call: OwnerCall)
    requires CallOwnable(o, sender, call).Commit?
    ensures var o' := CallOwnable(o, sender, call).state;
      && (o'.owner != o.owner ==> (o' == RENOUNCED && sender == o.owner) || o'.owner == sender == o.pendingOwner)
      && (o'.pendingOwner != o.pendingOwner && o'.pendingOwner != ZERO_ADDRESS ==> sender == o.owner)
  {
  }

  /** Who may make each call, and what ownership is afterwards. */
  lemma OwnerCallsMean(o: Ownership, sender: Address, newOwner: Address)
    ensures var r := CallOwnable(o, sender, TransferOwnership(newOwner));
      && (r.Commit? <==> sender == o.owner && newOwner != ZERO_ADDRESS)
      && (r.Revert? ==> r.error == if sender != o.owner then Unauthorized else InvalidOwner)
      && (r.Commit? ==> r.state.owner == o.owner && r.state.pendingOwner == newOwner)
    ensures var r := CallOwnable(o, sender, CancelOwnershipTransfer);
      && (r.Commit? <==> sender == o.owner)
      && (r.Commit? ==> r.state.owner == o.owner && r.state.pendingOwner == ZERO_ADDRESS)
    ensures var r := CallOwnable(o, sender, RenounceOwnership);
      && (r.Commit? <==> sender == o.owner)
      && (r.Commit? ==> r.state.owner == ZERO_ADDRESS && r.state.pendingOwner == ZERO_ADDRESS)
    ensures var r := CallOwnable(o, sender, AcceptOwnership);
      && (r.Commit? <==> sender == o.pendingOwner)
      && (r.Commit? ==> r.state.owner == sender && r.state.pendingOwner == ZERO_ADDRESS)
  {
  }

  class OwnableContract {
    var owner: Address
    var pendingOwner: Address

    function State(): Ownership
      reads this
    {
      Ownership(owner, pendingOwner)
    }

    constructor (initialOwner: Address)
      requires initialOwner != ZERO_ADDRESS
      ensures State() == Ownership(initialOwner, ZERO_ADDRESS)
    {
      owner, pendingOwner := initialOwner, ZERO_ADDRESS;
    }

    method TransferOwnership(sender: Address, newOwner: Address) returns (error: Option<Error>)
      modifies this
      ensures Did(CallOwnable(old(State()), sender, OwnerCall.TransferOwnership(newOwner)), old(State()), State(),
                  error)
    {
      if sender != owner {
        return Some(Unauthorized);
      }
      if newOwner == ZERO_ADDRESS {
        return Some(InvalidOwner);
      }
      pendingOwner := newOwner;
      return None;
    }

    method CancelOwnershipTransfer(sender: Address) returns (error: Option<Error>)
      modifies this
      ensures Did(CallOwnable(old(State()), sender, OwnerCall.CancelOwnershipTransfer), old(State()), State(), error)
    {
      if sender != owner {
        return Some(Unauthorized);
      }
      pendingOwner := ZERO_ADDRESS;
      return None;
    }

    method RenounceOwnership(sender: Address) returns (error: Option<Error>)
      modifies this
      ensures Did(CallOwnable(old(State()), sender, OwnerCall.RenounceOwnership), old(State()), State(), error)
    {
      if sender != owner {
        return Some(Unauthorized);
      }
      owner := ZERO_ADDRESS;
      pendingOwner := ZERO_ADDRESS;
      return None;
    }

    method AcceptOwnership(sender: Address) returns (error: Option<Error>)
      modifies this
      ensures Did(CallOwnable(old(State()), sender, OwnerCall.AcceptOwnership), old(State()), State(), error)
    {
      if sender != pendingOwner {
        return Some(Unauthorized);
      }
      owner := sender;
      pendingOwner := ZERO_ADDRESS;
      return None;
    }
  }
}
