/**
  The wrapped token: balances, allowances, and a minter that can be locked in.

  A state and a function from (state, caller, call) to an outcome say what each call does; the
  class performs the same calls by updating its fields, in the order the contract checks and
  writes them. The unchecked subtractions of _transfer and _burn are safe because every
  balance is part of the total supply (Backed, kept by every call).
 */
module WrappedBitcoin {
  import opened BridgeTypes
  import opened Ownable

  datatype Token = Token(
    ownership: Ownership,
    totalSupply: nat,
    balanceOf: map<Address, nat>,
    allowance: map<(Address, Address), nat>,
    isMinter: set<Address>,
    minterLocked: bool,
    lockedMinter: Address)

  datatype TokenCall =
    | Transfer(to: Address, amount: Uint256)
    | Approve(spender: Address, amount: Uint256)
    | TransferFrom(from: Address, to: Address, amount: Uint256)
    | Mint(to: Address, amount: Uint256)
    | BurnFrom(from: Address, amount: Uint256)
    | SetMinter(minter: Address, allowed: bool)
    | LockMinter(minter: Address)
    | OwnToken(call: OwnerCall)

  // ----- What each call does -----

  /** A spender needs the allowance and uses it up, unless it is the maximal one. */
  function Spend(t: Token, spender: Address, from: Address, amount: Uint256): Outcome<Token> {
    var currentAllowance := Get(t.allowance, (from, spender));
    if currentAllowance < amount then Revert(InsufficientAllowance)
    else if currentAllowance == MAX_UINT256 then Commit(t)
    else Commit(t.(allowance := t.allowance[(from, spender) := currentAllowance - amount]))
  }

  function Move(t: Token, from: Address, to: Address, amount: Uint256): Outcome<Token> {
    if to == ZERO_ADDRESS then Revert(InvalidAddress)
    else if Get(t.balanceOf, from) < amount then Revert(InsufficientBalance)
    else
      var debited := t.balanceOf[from := Get(t.balanceOf, from) - amount];
      if Get(debited, to) + amount > MAX_UINT256 then Revert(ArithmeticOverflow)
      else Commit(t.(balanceOf := debited[to := Get(debited, to) + amount]))
  }

  function Destroy(t: Token, from: Address, amount: Uint256): Outcome<Token> {
    if Get(t.balanceOf, from) < amount then Revert(InsufficientBalance)
    else
      Commit(t.(balanceOf := t.balanceOf[from := Get(t.balanceOf, from) - amount],
                totalSupply := (t.totalSupply - amount) % TWO_256))
  }

  predicate MayMint(t: Token, caller: Address) {
    if t.minterLocked then caller == t.lockedMinter else caller in t.isMinter
  }

  function Create(t: Token, caller: Address, to: Address, amount: Uint256): Outcome<Token> {
    if !MayMint(t, caller) then Revert(NotMinter)
    else if to == ZERO_ADDRESS then Revert(InvalidAddress)
    else if t.totalSupply + amount > MAX_UINT256 then Revert(ArithmeticOverflow)
    else if Get(t.balanceOf, to) + amount > MAX_UINT256 then Revert(ArithmeticOverflow)
    else
      Commit(t.(totalSupply := t.totalSupply + amount,
                balanceOf := t.balanceOf[to := Get(t.balanceOf, to) + amount]))
  }

  function CallToken(t: Token, sender: Address, call: TokenCall): Outcome<Token> {
    match call
    case Transfer(to, amount) => Move(t, sender, to, amount)
    case Approve(spender, amount) => Commit(t.(allowance := t.allowance[(sender, spender) := amount]))
    case TransferFrom(from, to, amount) =>
      (match Spend(t, sender, from, amount)
       case Revert(e) => Revert(e)
       case Commit(s) => Move(s, from, to, amount))
    case Mint(to, amount) => Create(t, sender, to, amount)
    case BurnFrom(from, amount) =>
      (match Spend(t, sender, from, amount)
       case Revert(e) => Revert(e)
       case Commit(s) => Destroy(s, from, amount))
    case SetMinter(minter, allowed) =>
      if sender != t.ownership.owner then Revert(Unauthorized)
      else if t.minterLocked then Revert(MinterConfigurationLocked)
      else if minter == ZERO_ADDRESS then Revert(InvalidAddress)
      else Commit(t.(isMinter := if allowed then t.isMinter + {minter} else t.isMinter - {minter}))
    case LockMinter(minter) =>
      if sender != t.ownership.owner then Revert(Unauthorized)
      else if t.minterLocked then Revert(MinterConfigurationLocked)
      else if minter == ZERO_ADDRESS then Revert(InvalidAddress)
      else Commit(t.(lockedMinter := minter, minterLocked := true, isMinter := t.isMinter + {minter}))
    case OwnToken(call) =>
      match CallOwnable(t.ownership, sender, call)
      case Revert(e) => Revert(e)
      case Commit(o) => Commit(t.(ownership := o))
  }

  // ----- The contract -----

  class WrappedBitcoinContract {
    const ownable: OwnableContract
    var totalSupply: nat
    var balanceOf: map<Address, nat>
    var allowance: map<(Address, Address), nat>
    var isMinter: set<Address>
    var minterLocked: bool
    var lockedMinter: Address

    function State(): Token
      reads this, ownable
    {
      Token(ownable.State(), totalSupply, balanceOf, allowance, isMinter, minterLocked, lockedMinter)
    }

    constructor (initialOwner: Address)
      requires initialOwner != ZERO_ADDRESS
      ensures State() == Token(Ownership(initialOwner, ZERO_ADDRESS), 0, map[], map[], {}, false, ZERO_ADDRESS)
      ensures fresh(ownable)
    {
      ownable := new OwnableContract(initialOwner);
      totalSupply, balanceOf, allowance := 0, map[], map[];
      isMinter, minterLocked, lockedMinter := {}, false, ZERO_ADDRESS;
    }

    method SetMinter(sender: Address, minter: Address, allowed: bool) returns (error: Option<Error>)
      modifies this
      ensures Did(CallToken(old(State()), sender, TokenCall.SetMinter(minter, allowed)), old(State()), State(), error)
    {
      if sender != ownable.owner {
        return Some(Unauthorized);
      }
      if minterLocked {
        return Some(MinterConfigurationLocked);
      }
      if minter == ZERO_ADDRESS {
        return Some(InvalidAddress);
      }
      isMinter := if allowed then isMinter + {minter} else isMinter - {minter};
      return None;
    }

    method LockMinter(sender: Address, minter: Address) returns (error: Option<Error>)
      modifies this
      ensures Did(CallToken(old(State()), sender, TokenCall.LockMinter(minter)), old(State()), State(), error)
    {
      if sender != ownable.owner {
        return Some(Unauthorized);
      }
      if minterLocked {
        return Some(MinterConfigurationLocked);
      }
      if minter == ZERO_ADDRESS {
        return Some(InvalidAddress);
      }
      lockedMinter := minter;
      minterLocked := true;
      isMinter := isMinter + {minter};
      return None;
    }

    method Transfer(sender: Address, to: Address, amount: Uint256) returns (error: Option<Error>)
      modifies this
      ensures Did(CallToken(old(State()), sender, TokenCall.Transfer(to, amount)), old(State()), State(), error)
    {
      error := TransferInternal(sender, to, amount);
    }

    method Approve(sender: Address, spender: Address, amount: Uint256) returns (error: Option<Error>)
      modifies this
      ensures Did(CallToken(old(State()), sender, TokenCall.Approve(spender, amount)), old(State()), State(), error)
    {
      allowance := allowance[(sender, spender) := amount];
      return None;
    }

    /** Reverting after the allowance was written restores it. */
    method TransferFrom(sender: Address, from: Address, to: Address, amount: Uint256) returns (error: Option<Error>)
      modifies this
      ensures Did(CallToken(old(State()), sender, TokenCall.TransferFrom(from, to, amount)), old(State()), State(),
                  error)
    {
      var saved := allowance;
      var currentAllowance := Get(allowance, (from, sender));
      if currentAllowance < amount {
        return Some(InsufficientAllowance);
      }
      if currentAllowance != MAX_UINT256 {
        allowance := allowance[(from, sender) := currentAllowance - amount];
      }
      error := TransferInternal(from, to, amount);
      if error.Some? {
        allowance := saved;
      }
    }

    method Mint(sender: Address, to: Address, amount: Uint256) returns (error: Option<Error>)
      modifies this
      ensures Did(CallToken(old(State()), sender, TokenCall.Mint(to, amount)), old(State()), State(), error)
    {
      if minterLocked {
        if sender != lockedMinter {
          return Some(NotMinter);
        }
      } else if sender !in isMinter {
        return Some(NotMinter);
      }
      if to == ZERO_ADDRESS {
        return Some(InvalidAddress);
      }
      if totalSupply + amount > MAX_UINT256 {
        return Some(ArithmeticOverflow);
      }
      totalSupply := totalSupply + amount;
      if Get(balanceOf, to) + amount > MAX_UINT256 {
        totalSupply := totalSupply - amount;
        return Some(ArithmeticOverflow);
      }
      balanceOf := balanceOf[to := Get(balanceOf, to) + amount];
      return None;
    }

    method BurnFrom(sender: Address, from: Address, amount: Uint256) returns (error: Option<Error>)
      modifies this
      ensures Did(CallToken(old(State()), sender, TokenCall.BurnFrom(from, amount)), old(State()), State(), error)
    {
      var saved := allowance;
      var currentAllowance := Get(allowance, (from, sender));
      if currentAllowance < amount {
        return Some(InsufficientAllowance);
      }
      if currentAllowance != MAX_UINT256 {
        allowance := allowance[(from, sender) := currentAllowance - amount];
      }
      error := BurnInternal(from, amount);
      if error.Some? {
        allowance := saved;
      }
    }

    method TransferInternal(from: Address, to: Address, amount: Uint256) returns (error: Option<Error>)
      modifies this
      ensures Did(Move(old(State()), from, to, amount), old(State()), State(), error)
    {
      if to == ZERO_ADDRESS {
        return Some(InvalidAddress);
      }
      var balance := Get(balanceOf, from);
      if balance < amount {
        return Some(InsufficientBalance);
      }
      var saved := balanceOf;
      balanceOf := balanceOf[from := balance - amount];
      if Get(balanceOf, to) + amount > MAX_UINT256 {
        balanceOf := saved;
        return Some(ArithmeticOverflow);
      }
      balanceOf := balanceOf[to := Get(balanceOf, to) + amount];
      return None;
    }

    method BurnInternal(from: Address, amount: Uint256) returns (error: Option<Error>)
      modifies this
      ensures Did(Destroy(old(State()), from, amount), old(State()), State(), error)
    {
      var balance := Get(balanceOf, from);
      if balance < amount {
        return Some(InsufficientBalance);
      }
      balanceOf := balanceOf[from := balance - amount];
      totalSupply := (totalSupply - amount) % TWO_256;
      return None;
    }
  }

  // ----- Every balance is backed by the supply -----

  /** The supply is the sum of the balances and fits its word. */
  ghost predicate Backed(t: Token) {
    t.totalSupply == Sum(t.balanceOf) <= MAX_UINT256
  }

  lemma MoveKeepsSum(t: Token, from: Address, to: Address, amount: Uint256)
    requires Backed(t) && Move(t, from, to, amount).Commit?
    ensures Backed(Move(t, from, to, amount).state)
  {
    var b := Get(t.balanceOf, from);
    var debited := t.balanceOf[from := b - amount];
    SumUpdate(t.balanceOf, from, b - amount);
    SumUpdate(debited, to, Get(debited, to) + amount);
  }

  lemma DestroyTakesAmount(t: Token, from: Address, amount: Uint256)
    requires Backed(t) && Destroy(t, from, amount).Commit?
    ensures Backed(Destroy(t, from, amount).state)
    ensures Destroy(t, from, amount).state.totalSupply == t.totalSupply - amount
  {
    SumUpdate(t.balanceOf, from, Get(t.balanceOf, from) - amount);
    SumAtLeast(t.balanceOf, from);
  }

  lemma CreateAddsAmount(t: Token, caller: Address, to: Address, amount: Uint256)
    requires Backed(t) && Create(t, caller, to, amount).Commit?
    ensures Backed(Create(t, caller, to, amount).state)
  {
    SumUpdate(t.balanceOf, to, Get(t.balanceOf, to) + amount);
  }

  /** How much a call adds to the supply when it commits. */
  function SupplyChange(call: TokenCall): int {
    match call
    case Mint(_, amount) => amount
    case BurnFrom(_, amount) => -(amount as int)
    case _ => 0
  }

  /**
    Every committed call keeps the supply equal to the sum of the balances and moves it by
    exactly the minted or burned amount: no unchecked subtraction ever wraps, and no balance
    addition overflows where the supply's does not.
   */
  lemma CallKeepsBacking(t: Token, sender: Address, call: TokenCall)
    requires Backed(t) && CallToken(t, sender, call).Commit?
    ensures Backed(CallToken(t, sender, call).state)
    ensures CallToken(t, sender, call).state.totalSupply == t.totalSupply + SupplyChange(call)
  {
    match call
    case Transfer(to, amount) => MoveKeepsSum(t, sender, to, amount);
    case TransferFrom(from, to, amount) => MoveKeepsSum(Spend(t, sender, from, amount).state, from, to, amount);
    case Mint(to, amount) => CreateAddsAmount(t, sender, to, amount);
    case BurnFrom(from, amount) => DestroyTakesAmount(Spend(t, sender, from, amount).state, from, amount);
    case _ =>
  }

  /** With backed balances, the only overflow a transfer checks for cannot happen. */
  lemma TransfersNeverOverflow(t: Token, from: Address, to: Address, amount: Uint256)
    requires Backed(t)
    ensures Move(t, from, to, amount) != Revert(ArithmeticOverflow)
  {
    if to != ZERO_ADDRESS && Get(t.balanceOf, from) >= amount {
      var b := Get(t.balanceOf, from);
      var debited := t.balanceOf[from := b - amount];
      SumUpdate(t.balanceOf, from, b - amount);
      SumAtLeast(debited, to);
    }
  }

  // ----- What each call means for balances and allowances -----

  /** Every balance is the old one, less the amount for the payer and plus the amount for the payee. */
  ghost predicate Moves(t: Token, t': Token, from: Address, to: Address, amount: Uint256) {
    forall who: Address ::
      Get(t'.balanceOf, who)
      == Get(t.balanceOf, who) - (if who == from then amount else 0) + (if who == to then amount else 0)
  }

  /** One allowance is lower by the amount, unless it was the maximal one, and all others are the old ones. */
  ghost predicate UsesUp(t: Token, t': Token, from: Address, spender: Address, amount: Uint256) {
    forall owner: Address, other: Address ::
      Get(t'.allowance, (owner, other))
      == Get(t.allowance, (owner, other))
         - (if owner == from && other == spender && Get(t.allowance, (owner, other)) != MAX_UINT256 then amount else 0)
  }

  /** A transfer commits for a nonzero payee and a sufficient balance of the sender, and moves just that. */
  lemma TransferMoves(t: Token, sender: Address, to: Address, amount: Uint256)
    requires Backed(t)
    ensures var r := CallToken(t, sender, Transfer(to, amount));
      && (r.Commit? <==> to != ZERO_ADDRESS && Get(t.balanceOf, sender) >= amount)
      && (r.Revert? ==> r.error == if to == ZERO_ADDRESS then InvalidAddress else InsufficientBalance)
      && (r.Commit? ==> Moves(t, r.state, sender, to, amount) && r.state == t.(balanceOf := r.state.balanceOf))
  {
    TransfersNeverOverflow(t, sender, to, amount);
  }

  /** One allowance is set, that of the sender for the spender, and nothing else changes. */
  lemma ApproveSets(t: Token, sender: Address, spender: Address, amount: Uint256)
    ensures var r := CallToken(t, sender, Approve(spender, amount));
      && r.Commit?
      && (forall owner: Address, other: Address ::
           Get(r.state.allowance, (owner, other))
           == if owner == sender && other == spender then amount else Get(t.allowance, (owner, other)))
      && r.state == t.(allowance := r.state.allowance)
  {
  }

  /** A transfer by a spender also needs the allowance of the payer for the caller, and uses it up. */
  lemma TransferFromMoves(t: Token, sender: Address, from: Address, to: Address, amount: Uint256)
    requires Backed(t)
    ensures var r := CallToken(t, sender, TransferFrom(from, to, amount));
      && (r.Commit? <==> && Get(t.allowance, (from, sender)) >= amount && to != ZERO_ADDRESS
                         && Get(t.balanceOf, from) >= amount)
      && (r.Revert? ==> r.error == if Get(t.allowance, (from, sender)) < amount then InsufficientAllowance
                                   else if to == ZERO_ADDRESS then InvalidAddress else InsufficientBalance)
      && (r.Commit? ==> && Moves(t, r.state, from, to, amount) && UsesUp(t, r.state, from, sender, amount)
                        && r.state == t.(balanceOf := r.state.balanceOf, allowance := r.state.allowance))
  {
    var s := Spend(t, sender, from, amount);
    if s.Commit? {
      TransfersNeverOverflow(s.state, from, to, amount);
    }
  }

  /** A burn by a spender needs and uses up the allowance, and takes the amount from one balance and the supply. */
  lemma BurnFromTakes(t: Token, sender: Address, from: Address, amount: Uint256)
    requires Backed(t)
    ensures var r := CallToken(t, sender, BurnFrom(from, amount));
      && (r.Commit? <==> Get(t.allowance, (from, sender)) >= amount && Get(t.balanceOf, from) >= amount)
      && (r.Revert? ==> r.error == if Get(t.allowance, (from, sender)) < amount then InsufficientAllowance
                                   else InsufficientBalance)
      && (r.Commit? ==>
           && (forall who: Address ::
                Get(r.state.balanceOf, who) == Get(t.balanceOf, who) - (if who == from then amount else 0))
           && r.state.totalSupply == t.totalSupply - amount && UsesUp(t, r.state, from, sender, amount)
           && r.state == t.(balanceOf := r.state.balanceOf, allowance := r.state.allowance,
                            totalSupply := r.state.totalSupply))
  {
    if CallToken(t, sender, BurnFrom(from, amount)).Commit? {
      DestroyTakesAmount(Spend(t, sender, from, amount).state, from, amount);
    }
  }

  /** The locked minter, or before locking any minter, adds an amount to one balance and the supply. */
  lemma MintAdds(t: Token, sender: Address, to: Address, amount: Uint256)
    requires Backed(t)
    ensures var r := CallToken(t, sender, Mint(to, amount));
      && (r.Commit? <==> && (t.minterLocked ==> sender == t.lockedMinter) && (t.minterLocked || sender in t.isMinter)
                         && to != ZERO_ADDRESS && t.totalSupply + amount <= MAX_UINT256)
      && (r.Revert? ==> r.error == if t.minterLocked && sender != t.lockedMinter then NotMinter
                                   else if !t.minterLocked && sender !in t.isMinter then NotMinter
                                   else if to == ZERO_ADDRESS then InvalidAddress else ArithmeticOverflow)
      && (r.Commit? ==>
           && (forall who: Address ::
                Get(r.state.balanceOf, who) == Get(t.balanceOf, who) + (if who == to then amount else 0))
           && r.state.totalSupply == t.totalSupply + amount
           && r.state == t.(balanceOf := r.state.balanceOf, totalSupply := r.state.totalSupply))
  {
    SumAtLeast(t.balanceOf, to);
  }

  /** Only the owner, and only before locking, adds or removes one minter, or locks one in that is added as well. */
  lemma MintersAreTheOwners(t: Token, sender: Address, minter: Address, allowed: bool)
    ensures var r := CallToken(t, sender, SetMinter(minter, allowed));
      && (r.Commit? <==> sender == t.ownership.owner && !t.minterLocked && minter != ZERO_ADDRESS)
      && (r.Revert? ==> r.error == if sender != t.ownership.owner then Unauthorized
                                   else if t.minterLocked then MinterConfigurationLocked else InvalidAddress)
      && (r.Commit? ==>
           && (forall who: Address :: who in r.state.isMinter <==> if who == minter then allowed else who in t.isMinter)
           && r.state == t.(isMinter := r.state.isMinter))
    ensures var r := CallToken(t, sender, LockMinter(minter));
      && (r.Commit? <==> sender == t.ownership.owner && !t.minterLocked && minter != ZERO_ADDRESS)
      && (r.Revert? ==> r.error == if sender != t.ownership.owner then Unauthorized
                                   else if t.minterLocked then MinterConfigurationLocked else InvalidAddress)
      && (r.Commit? ==> r.state == t.(isMinter := t.isMinter + {minter}, minterLocked := true, lockedMinter := minter))
  {
  }

  /** A locked minter is the only minter, and no call unlocks or replaces it. */
  lemma LockedMinterStays(t: Token, sender: Address, call: TokenCall)
    requires t.minterLocked
    ensures CallToken(t, sender, call).Commit? ==>
      && CallToken(t, sender, call).state.minterLocked
      && CallToken(t, sender, call).state.lockedMinter == t.lockedMinter
      && (call.Mint? ==> sender == t.lockedMinter)
  {
  }
}
