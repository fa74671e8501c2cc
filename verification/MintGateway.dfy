/**
  Minting against an authorization: the gateway checks, the rate limit, the consumption of the
  deposit and its Bitcoin output, and the mint, as one transaction over three contracts.
 */
module MintGateway {
  import opened BridgeTypes
  import opened Ownable
  import opened RateLimiter
  import D = DepositRegistry
  import W = WrappedBitcoin

  datatype Gateway = Gateway(
    ownership: Ownership,
    btcNetwork: Uint32,
    minimumConfirmations: Uint32,
    mintPaused: bool,
    limiter: Limiter)

  /** The contracts a mint touches. */
  datatype World = World(gateway: Gateway, registry: D.Registry, token: W.Token)

  datatype GatewayCall =
    | SetMintPaused(paused: bool)
    | SetMinimumConfirmations(newMinimumConfirmations: Uint32)
    | SetMintLimit(newLimitSats: Uint64, newWindowSeconds: Uint64)
    | OwnGateway(call: OwnerCall)

  predicate MeetsAmountPolicy(i: DepositIntent, sats: Uint64) {
    match i.amountMode
    case EXACT => i.expectedSats != 0 && sats == i.expectedSats
    case ANY => i.minSats != 0 && i.maxSats != 0 && i.minSats <= i.maxSats && i.minSats <= sats <= i.maxSats
  }

  function CallGateway(g: Gateway, sender: Address, now: Uint64, call: GatewayCall): Outcome<Gateway> {
    match call
    case SetMintPaused(paused) =>
      if sender != g.ownership.owner then Revert(Unauthorized) else Commit(g.(mintPaused := paused))
    case SetMinimumConfirmations(n) =>
      if sender != g.ownership.owner then Revert(Unauthorized)
      else if n == 0 then Revert(InvalidMinimumConfirmations)
      else Commit(g.(minimumConfirmations := n))
    case SetMintLimit(newLimitSats, newWindowSeconds) =>
      if sender != g.ownership.owner then Revert(Unauthorized)
      else
        (match SetLimit(now, newLimitSats, newWindowSeconds)
         case Revert(e) => Revert(e)
         case Commit(l) => Commit(g.(limiter := l)))
    case OwnGateway(call) =>
      match CallOwnable(g.ownership, sender, call)
      case Revert(e) => Revert(e)
      case Commit(o) => Commit(g.(ownership := o))
  }

  /** The checks made before the verifier is asked. */
  function Precheck(w: World, now: Uint64, i: DepositIntent, a: MintAuthorization): Option<Error> {
    if w.gateway.mintPaused then Some(MintPaused)
    else if now > i.expiry then Some(DepositIntentExpired)
    else if a.btcNetwork != w.gateway.btcNetwork then Some(InvalidBtcNetwork)
    else if a.confirmations < w.gateway.minimumConfirmations then Some(InsufficientConfirmations)
    else if a.depositId != DepositIdOf(w.registry.bridgeDomain, i) then Some(DepositIdMismatch)
    else if a.recipient0x != i.recipient0x then Some(MintRecipientMismatch)
    else if a.depositAddressHash != i.depositAddressHash then Some(DepositAddressMismatch)
    else if !MeetsAmountPolicy(i, a.sats) then Some(MintAmountOutOfRange)
    else None
  }

  /** verdict is what the verifier's view call answers for this authorization and attestation. */
  function MintWithAuthorization(w: World, self: Address, now: Uint64, i: DepositIntent, a: MintAuthorization,
                                 verdict: Option<Error>): Outcome<World> {
    var early := Precheck(w, now, i, a);
    if early.Some? then Revert(early.value)
    else if verdict.Some? then Revert(verdict.value)
    else
      match Consume(w.gateway.limiter, Attempt(now, a.sats))
      case Revert(e) => Revert(e)
      case Commit(l) =>
        match D.Consume(w.registry, self, a.depositId, a.btcTxId, a.vout)
        case Revert(e) => Revert(e)
        case Commit(r) =>
          match W.Create(w.token, self, a.recipient0x, a.sats)
          case Revert(e) => Revert(e)
          case Commit(t) => Commit(World(w.gateway.(limiter := l), r, t))
  }

  /** What the owner can set: the pause flag, a nonzero minimum, and a limit with both numbers or neither. */
  lemma OwnerSets(g: Gateway, sender: Address, now: Uint64, paused: bool, n: Uint32, limitSats: Uint64, window: Uint64)
    ensures var r := CallGateway(g, sender, now, SetMintPaused(paused));
      && (r.Commit? <==> sender == g.ownership.owner)
      && (r.Commit? ==> r.state == g.(mintPaused := paused))
    ensures var r := CallGateway(g, sender, now, SetMinimumConfirmations(n));
      && (r.Commit? <==> sender == g.ownership.owner && n > 0)
      && (r.Revert? ==> r.error == if sender != g.ownership.owner then Unauthorized else InvalidMinimumConfirmations)
      && (r.Commit? ==> r.state == g.(minimumConfirmations := n))
    ensures var r := CallGateway(g, sender, now, SetMintLimit(limitSats, window));
      && (r.Commit? <==> sender == g.ownership.owner && (limitSats == 0 <==> window == 0))
      && (r.Revert? ==> r.error == if sender != g.ownership.owner then Unauthorized else InvalidLimit)
      && (r.Commit? ==> r.state == g.(limiter := Limiter(limitSats, window, now, 0)))
  {
  }

  class MintGatewayContract {
    const self: Address
    const ownable: OwnableContract
    const limiter: LimiterContract
    const registry: D.DepositRegistryContract
    const token: W.WrappedBitcoinContract
    const btcNetwork: Uint32
    var minimumConfirmations: Uint32
    var mintPaused: bool

    function State(): Gateway
      reads this, ownable, limiter
    {
      Gateway(ownable.State(), btcNetwork, minimumConfirmations, mintPaused, limiter.State())
    }

    function Around(): World
      reads this, ownable, limiter, registry, registry.ownable, token, token.ownable
    {
      World(State(), registry.State(), token.State())
    }

    constructor (self: Address, initialOwner: Address, registry: D.DepositRegistryContract,
                 token: W.WrappedBitcoinContract,
                 btcNetwork: Uint32, minimumConfirmations: Uint32, now: Uint64, limitSats: Uint64,
                 windowSeconds: Uint64)
      requires initialOwner != ZERO_ADDRESS && minimumConfirmations != 0
        && SetLimit(now, limitSats, windowSeconds).Commit?
      ensures State() == Gateway(Ownership(initialOwner, ZERO_ADDRESS), btcNetwork, minimumConfirmations, false,
                                 SetLimit(now, limitSats, windowSeconds).state)
      ensures this.self == self && this.registry == registry && this.token == token && fresh(ownable)
    {
      this.self, this.registry, this.token, this.btcNetwork := self, registry, token, btcNetwork;
      ownable := new OwnableContract(initialOwner);
      limiter := new LimiterContract(now, limitSats, windowSeconds);
      this.minimumConfirmations, mintPaused := minimumConfirmations, false;
    }

    method SetMintPaused(sender: Address, now: Uint64, paused: bool) returns (error: Option<Error>)
      modifies this
      ensures Did(CallGateway(old(State()), sender, now, GatewayCall.SetMintPaused(paused)), old(State()), State(),
                  error)
    {
      if sender != ownable.owner {
        return Some(Unauthorized);
      }
      mintPaused := paused;
      return None;
    }

    method SetMinimumConfirmations(sender: Address, now: Uint64, n: Uint32) returns (error: Option<Error>)
      modifies this
      ensures Did(CallGateway(old(State()), sender, now, GatewayCall.SetMinimumConfirmations(n)), old(State()),
                  State(), error)
    {
      if sender != ownable.owner {
        return Some(Unauthorized);
      }
      if n == 0 {
        return Some(InvalidMinimumConfirmations);
      }
      minimumConfirmations := n;
      return None;
    }

    method SetMintLimit(sender: Address, now: Uint64, newLimitSats: Uint64, newWindowSeconds: Uint64)
      returns (error: Option<Error>)
      modifies limiter
      ensures Did(CallGateway(old(State()), sender, now, GatewayCall.SetMintLimit(newLimitSats, newWindowSeconds)),
                  old(State()), State(), error)
    {
      if sender != ownable.owner {
        return Some(Unauthorized);
      }
      error := limiter.Set(now, newLimitSats, newWindowSeconds);
    }

    method EnforceAmountPolicy(i: DepositIntent, actualSats: Uint64) returns (error: Option<Error>)
      ensures error.None? <==>
        (i.amountMode == EXACT && i.expectedSats != 0 && actualSats == i.expectedSats)
        || (i.amountMode == ANY && 0 < i.minSats <= actualSats <= i.maxSats)
      ensures error == if MeetsAmountPolicy(i, actualSats) then None else Some(MintAmountOutOfRange)
    {
      if i.amountMode == EXACT {
        if i.expectedSats == 0 || actualSats != i.expectedSats {
          return Some(MintAmountOutOfRange);
        }
        return None;
      }
      if i.minSats == 0 || i.maxSats == 0 || i.maxSats < i.minSats || actualSats < i.minSats || actualSats > i.maxSats {
        return Some(MintAmountOutOfRange);
      }
      return None;
    }

    /** A revert in a later contract rolls the earlier ones back. */
    method Mint(now: Uint64, i: DepositIntent, a: MintAuthorization, verdict: Option<Error>)
      returns (error: Option<Error>)
      modifies this, limiter, registry, token
      ensures Did(MintWithAuthorization(old(Around()), self, now, i, a, verdict), old(Around()), Around(), error)
    {
      hide DepositIdOf, MeetsAmountPolicy, W.Create, W.Move, W.Destroy, W.Spend, UtxoKey, SetLimit, D.MayConsume,
        D.IsValidIntent, CallOwnable, Get;
      if mintPaused {
        return Some(MintPaused);
      }
      if now > i.expiry {
        return Some(DepositIntentExpired);
      }
      if a.btcNetwork != btcNetwork {
        return Some(InvalidBtcNetwork);
      }
      if a.confirmations < minimumConfirmations {
        return Some(InsufficientConfirmations);
      }
      if a.depositId != DepositIdOf(registry.bridgeDomain, i) {
        return Some(DepositIdMismatch);
      }
      if a.recipient0x != i.recipient0x {
        return Some(MintRecipientMismatch);
      }
      if a.depositAddressHash != i.depositAddressHash {
        return Some(DepositAddressMismatch);
      }
      error := EnforceAmountPolicy(i, a.sats);
      if error.Some? {
        return;
      }
      if verdict.Some? {
        return verdict;
      }
      var startedAt, used := limiter.limitWindowStartedAt, limiter.usedInCurrentWindow;
      error := limiter.Use(now, a.sats);
      if error.Some? {
        return;
      }
      var deposits, utxos := registry.depositConsumed, registry.utxoConsumed;
      var utxoKey;
      error, utxoKey := registry.ConsumeDeposit(self, now, a.depositId, a.btcTxId, a.vout, a.sats);
      if error.Some? {
        limiter.limitWindowStartedAt, limiter.usedInCurrentWindow := startedAt, used;
        return;
      }
      error := token.Mint(self, a.recipient0x, a.sats);
      if error.Some? {
        limiter.limitWindowStartedAt, limiter.usedInCurrentWindow := startedAt, used;
        registry.depositConsumed, registry.utxoConsumed := deposits, utxos;
      }
    }
  }
}
