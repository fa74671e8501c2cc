/**
  The deployment script: five contracts, one of the two verifiers among them; with --configure the
  gateway becomes minter and consumer, with --chainlink-only-risk it is locked in and every owner
  renounced.

  The theorems over runs start from IsDeployed, IsLockedDown and HasFixedMajority. The script leaves
  that behind with --chainlink-only-risk, which it refuses for the Functions verifier; there seven
  transactions of the owner lead to it (OwnerLocksDown).
 */
module Deployment {
  import opened BridgeTypes
  import opened Ownable
  import opened RateLimiter
  import Br = Bridge
  import R = BridgeRuns
  import V = BridgeAuthority
  import W = WrappedBitcoin
  import D = DepositRegistry
  import M = MintGateway
  import B = BurnGateway
  import A = AttestationVerifier
  import F = FunctionsVerifier
  import I = AttestationIngest

  datatype Mode =
    | EcdsaMode(signers: seq<Address>, threshold: nat)
    | FunctionsMode(router: Address, subscriptionId: Uint64, donId: Bytes32, callbackGasLimit: Uint32,
                    requesters: seq<Address>)

  datatype Settings = Settings(
    isMainnet: bool, deployer: Address, ownerHasCode: bool, owner: Address, ownerSigner: Address, donCustody: bool,
    bridgeDomain: Bytes32, btcNetwork: Uint32, chainId: Uint64, minConfirmations: Uint32,
    mintLimitSats: Uint64, mintLimitWindowSeconds: Uint64, redeemLimitSats: Uint64, redeemLimitWindowSeconds: Uint64,
    mode: Mode, configure: bool, chainlinkOnlyRisk: bool)

  predicate IsMajority(m: Mode) { m.EcdsaMode? && |m.signers| < 2 * m.threshold }

  predicate IsAcceptedMode(m: Mode) {
    match m
    case EcdsaMode(signers, threshold) => A.Distinct(signers) && ZERO_ADDRESS !in signers && 0 < threshold <= |signers|
    case FunctionsMode(router, subscriptionId, donId, callbackGasLimit, requesters) =>
      router != ZERO_ADDRESS && subscriptionId != 0 && donId != Word(0) && callbackGasLimit != 0
      && ZERO_ADDRESS !in requesters
  }

  /** What the script and the constructors ask of the settings. */
  predicate AreAccepted(s: Settings) {
    && IsAcceptedMode(s.mode) && s.owner != ZERO_ADDRESS && s.minConfirmations != 0
    && (s.mintLimitSats == 0 <==> s.mintLimitWindowSeconds == 0)
    && (s.redeemLimitSats == 0 <==> s.redeemLimitWindowSeconds == 0)
    && (s.isMainnet ==>
          && (s.mode.EcdsaMode? ==> IsMajority(s.mode)) && s.mintLimitSats != 0 && s.redeemLimitSats != 0
          && s.deployer != s.owner && s.ownerHasCode)
    && (s.chainlinkOnlyRisk ==> s.configure && s.donCustody && IsMajority(s.mode) && |s.mode.signers| >= 3)
    && (s.configure ==> s.ownerSigner == s.owner)
  }

  /** The gateway becomes minter and consumer. */
  method Configure(owner: Address, gateway: Address, token: W.WrappedBitcoinContract,
                   registry: D.DepositRegistryContract, now: Uint64)
    requires owner == token.ownable.owner == registry.ownable.owner && gateway != ZERO_ADDRESS
    requires !token.minterLocked && !registry.consumerLocked
    modifies token, registry
    ensures token.State() == old(token.State()).(isMinter := old(token.isMinter) + {gateway})
    ensures registry.State()
      == old(registry.State()).(authorizedConsumers := old(registry.authorizedConsumers) + {gateway})
  {
    var e := token.SetMinter(owner, gateway, true);
    e := registry.SetAuthorizedConsumer(owner, gateway, true, now);
  }

  /** Nobody else ever will be. */
  method Lock(owner: Address, gateway: Address, token: W.WrappedBitcoinContract,
              registry: D.DepositRegistryContract, now: Uint64)
    requires owner == token.ownable.owner == registry.ownable.owner && gateway != ZERO_ADDRESS
    requires !token.minterLocked && !registry.consumerLocked && gateway in token.isMinter
      && gateway in registry.authorizedConsumers
    modifies token, registry
    ensures token.State() == old(token.State()).(minterLocked := true, lockedMinter := gateway)
    ensures registry.State() == old(registry.State()).(consumerLocked := true, lockedConsumer := gateway)
  {
    var e := token.LockMinter(owner, gateway);
    e := registry.LockAuthorizedConsumer(owner, gateway, now);
    assert old(token.isMinter) + {gateway} == old(token.isMinter);
    assert old(registry.authorizedConsumers) + {gateway} == old(registry.authorizedConsumers);
  }

  method Renounce(owner: Address, token: W.WrappedBitcoinContract, verifier: A.AttestationVerifierContract,
                  registry: D.DepositRegistryContract, minting: M.MintGatewayContract, burning: B.BurnGatewayContract)
    requires token.ownable != verifier.ownable && registry.ownable !in {token.ownable, verifier.ownable}
    requires minting.ownable !in {token.ownable, verifier.ownable, registry.ownable}
    requires burning.ownable !in {token.ownable, verifier.ownable, registry.ownable, minting.ownable}
    requires owner == token.ownable.owner == verifier.ownable.owner == registry.ownable.owner
    requires owner == minting.ownable.owner == burning.ownable.owner
    modifies token.ownable, verifier.ownable, registry.ownable, minting.ownable, burning.ownable
    ensures token.State() == old(token.State()).(ownership := RENOUNCED)
    ensures verifier.State() == old(verifier.State()).(ownership := RENOUNCED)
    ensures registry.State() == old(registry.State()).(ownership := RENOUNCED)
    ensures minting.State() == old(minting.State()).(ownership := RENOUNCED)
    ensures burning.State() == old(burning.State()).(ownership := RENOUNCED)
  {
    var contracts := [token.ownable, verifier.ownable, registry.ownable, minting.ownable, burning.ownable];
    for i := 0 to |contracts|
      invariant forall k | 0 <= k < i :: contracts[k].State() == RENOUNCED
      invariant forall k | i <= k < |contracts| :: contracts[k].owner == owner
    {
      var e := contracts[i].RenounceOwnership(owner);
    }
    assert contracts[0].State() == contracts[1].State() == contracts[2].State() == contracts[3].State()
      == contracts[4].State();
  }

  /** The verifier as its constructor leaves it, with the signers in order. */
  function FirstVerifier(s: Settings, signers: seq<Address>, owned: Ownership): Br.Verifier {
    match s.mode
    case EcdsaMode(_, threshold) =>
      Br.Ecdsa(A.Verifier(owned, s.bridgeDomain, threshold, A.SignerSetDigest(signers, threshold), A.ToSet(signers),
                          signers))
    case FunctionsMode(router, subscriptionId, donId, callbackGasLimit, requesters) =>
      Br.Functions(F.Verifier(owned, s.bridgeDomain, router, subscriptionId, donId, callbackGasLimit,
                              set a | a in requesters, map[], {}))
  }

  /** What the script leaves on the chain. */
  function Deployed(c: Br.Chain, s: Settings, signers: seq<Address>, mintGatewayAt: Uint64, burnGatewayAt: Uint64,
                    now: Uint64): Br.Bridge {
    var mintLimiter := Limiter(s.mintLimitSats, s.mintLimitWindowSeconds, mintGatewayAt, 0);
    var redeemLimiter := Limiter(s.redeemLimitSats, s.redeemLimitWindowSeconds, burnGatewayAt, 0);
    var owned := if s.chainlinkOnlyRisk then RENOUNCED else Ownership(s.owner, ZERO_ADDRESS);
    var allowed := if s.configure then {c.mintGateway} else {};
    var locked := if s.chainlinkOnlyRisk then c.mintGateway else ZERO_ADDRESS;
    Br.Bridge(
      now,
      W.Token(owned, 0, map[], map[], allowed, s.chainlinkOnlyRisk, locked),
      D.Registry(owned, s.bridgeDomain, map[], {}, {}, {}, allowed, s.chainlinkOnlyRisk, locked),
      M.Gateway(owned, s.btcNetwork, s.minConfirmations, false, mintLimiter),
      B.Gateway(owned, s.bridgeDomain, s.btcNetwork, s.chainId, false, redeemLimiter, map[], map[], {}),
      FirstVerifier(s, signers, owned),
      Br.History([], [], [], Br.Epoch(mintLimiter, 0), Br.Epoch(redeemLimiter, 0)))
  }

  /** With --chainlink-only-risk the theorems over runs start here. */
  lemma DeployedIsReady(c: Br.Chain, s: Settings, signers: seq<Address>, mintGatewayAt: Uint64, burnGatewayAt: Uint64,
                        now: Uint64)
    requires c.mintGateway != c.burnGateway && mintGatewayAt <= burnGatewayAt <= now
    requires AreAccepted(s) && s.chainlinkOnlyRisk
    requires A.AcceptableSignerSet(signers, s.mode.threshold) && |signers| == |s.mode.signers|
    ensures var b := Deployed(c, s, signers, mintGatewayAt, burnGatewayAt, now);
      Br.IsDeployed(c, b) && R.IsLockedDown(c, b) && V.HasFixedMajority(b)
  {
  }

  method Construct(c: Br.Chain, s: Settings, mintGatewayAt: Uint64, burnGatewayAt: Uint64)
    returns (token: W.WrappedBitcoinContract, registry: D.DepositRegistryContract,
             minting: M.MintGatewayContract, burning: B.BurnGatewayContract)
    requires AreAccepted(s)
    ensures fresh(token) && fresh(registry) && fresh(minting) && fresh(burning)
    ensures fresh(token.ownable) && fresh(registry.ownable) && fresh(minting.ownable) && fresh(burning.ownable)
    ensures token.ownable != registry.ownable && minting.ownable !in {token.ownable, registry.ownable}
    ensures burning.ownable !in {token.ownable, registry.ownable, minting.ownable}
    ensures var owned := Ownership(s.owner, ZERO_ADDRESS);
      && token.State() == W.Token(owned, 0, map[], map[], {}, false, ZERO_ADDRESS)
      && registry.State() == D.Registry(owned, s.bridgeDomain, map[], {}, {}, {}, {}, false, ZERO_ADDRESS)
      && minting.State() == M.Gateway(owned, s.btcNetwork, s.minConfirmations, false,
                                      Limiter(s.mintLimitSats, s.mintLimitWindowSeconds, mintGatewayAt, 0))
      && burning.State() == B.Gateway(owned, s.bridgeDomain, s.btcNetwork, s.chainId, false,
                                      Limiter(s.redeemLimitSats, s.redeemLimitWindowSeconds, burnGatewayAt, 0),
                                      map[], map[], {})
  {
    token := new W.WrappedBitcoinContract(s.owner);
    registry := new D.DepositRegistryContract(s.bridgeDomain, s.owner);
    minting := new M.MintGatewayContract(c.mintGateway, s.owner, registry, token, s.btcNetwork, s.minConfirmations,
                                         mintGatewayAt, s.mintLimitSats, s.mintLimitWindowSeconds);
    burning := new B.BurnGatewayContract(c.burnGateway, s.owner, token, s.bridgeDomain, s.btcNetwork, s.chainId,
                                         burnGatewayAt, s.redeemLimitSats, s.redeemLimitWindowSeconds);
  }

  method BuildWithSigners(c: Br.Chain, s: Settings, signers: seq<Address>, mintGatewayAt: Uint64, burnGatewayAt: Uint64,
                          now: Uint64)
    returns (b: Br.Bridge)
    requires c.mintGateway != ZERO_ADDRESS && AreAccepted(s) && s.mode.EcdsaMode?
    requires A.AcceptableSignerSet(signers, s.mode.threshold)
    ensures b == Deployed(c, s, signers, mintGatewayAt, burnGatewayAt, now)
  {
    assert s.owner != ZERO_ADDRESS && (s.chainlinkOnlyRisk ==> s.configure);
    hide A.SignerSetDigest, A.ToSet, AreAccepted, A.AcceptableSignerSet;
    var verifier := new A.AttestationVerifierContract(s.bridgeDomain, s.owner, c.recover, signers, s.mode.threshold);
    var token, registry, minting, burning := Construct(c, s, mintGatewayAt, burnGatewayAt);
    if s.configure {
      Configure(s.owner, c.mintGateway, token, registry, now);
    }
    if s.chainlinkOnlyRisk {
      Lock(s.owner, c.mintGateway, token, registry, now);
      Renounce(s.owner, token, verifier, registry, minting, burning);
    }
    var history := Br.History([], [], [], Br.Epoch(minting.State().limiter, 0), Br.Epoch(burning.State().limiter, 0));
    b := Br.Bridge(now, token.State(), registry.State(), minting.State(), burning.State(), Br.Ecdsa(verifier.State()),
                   history);
  }

  method BuildWithRouter(c: Br.Chain, s: Settings, mintGatewayAt: Uint64, burnGatewayAt: Uint64, now: Uint64)
    returns (b: Br.Bridge)
    requires c.mintGateway != ZERO_ADDRESS && AreAccepted(s) && s.mode.FunctionsMode?
    ensures b == Deployed(c, s, [], mintGatewayAt, burnGatewayAt, now)
  {
    var m := s.mode;
    var verifier := new F.FunctionsVerifierContract(s.bridgeDomain, s.owner, m.router, m.subscriptionId, m.donId,
                                                    m.callbackGasLimit, m.requesters);
    assert !s.chainlinkOnlyRisk;
    hide AreAccepted, IsAcceptedMode;
    var token, registry, minting, burning := Construct(c, s, mintGatewayAt, burnGatewayAt);
    if s.configure {
      Configure(s.owner, c.mintGateway, token, registry, now);
    }
    var history := Br.History([], [], [], Br.Epoch(minting.State().limiter, 0), Br.Epoch(burning.State().limiter, 0));
    b := Br.Bridge(now, token.State(), registry.State(), minting.State(), burning.State(),
                   Br.Functions(verifier.State()),
                   history);
  }

  /** The checks in the script's order; an owner of zero, or a signer or requester, is refused by the constructors. */
  method Deploy(c: Br.Chain, s: Settings, mintGatewayAt: Uint64, burnGatewayAt: Uint64, now: Uint64)
    returns (result: Option<Br.Bridge>)
    requires c.mintGateway != ZERO_ADDRESS && c.mintGateway != c.burnGateway
    requires mintGatewayAt <= burnGatewayAt <= now
    ensures result.Some? <==> AreAccepted(s)
    ensures result.Some? ==>
      exists signers :: result.value == Deployed(c, s, signers, mintGatewayAt, burnGatewayAt, now)
        && (s.mode.EcdsaMode? ==> A.ToSet(signers) == A.ToSet(s.mode.signers) && |signers| == |s.mode.signers|)
    ensures result.Some? && s.chainlinkOnlyRisk ==>
      Br.IsDeployed(c, result.value) && R.IsLockedDown(c, result.value) && V.HasFixedMajority(result.value)
  {
    hide I.NormalizeSignerAddresses, A.SignerSetDigest, I.SortAddresses, Br.IsDeployed, R.IsLockedDown,
      V.HasFixedMajority, Deployed;
    if (s.mintLimitSats == 0) != (s.mintLimitWindowSeconds == 0)
      || (s.redeemLimitSats == 0) != (s.redeemLimitWindowSeconds == 0) {
      return None;
    }
    var signers: seq<Address> := [];
    match s.mode {
      case EcdsaMode(addresses, threshold) =>
        I.NormalizedIsAcceptable(addresses);
        var normalized := I.NormalizeSignerAddresses(addresses);
        if normalized.Err? || |addresses| == 0 || threshold == 0 || threshold > |addresses| {
          return None;
        }
        signers := normalized.value;
      case FunctionsMode(_, subscriptionId, donId, callbackGasLimit, _) =>
        if subscriptionId == 0 || donId == Word(0) || callbackGasLimit == 0 {
          return None;
        }
    }
    if s.minConfirmations == 0 {
      return None;
    }
    if s.isMainnet && ((s.mode.EcdsaMode? && s.mode.threshold * 2 <= |s.mode.signers|) || s.mintLimitSats == 0
                       || s.redeemLimitSats == 0) {
      return None;
    }
    if s.chainlinkOnlyRisk
       && (!s.mode.EcdsaMode? || !s.configure || |s.mode.signers| < 3 || s.mode.threshold * 2 <= |s.mode.signers|
           || !s.donCustody) {
      return None;
    }
    if s.isMainnet && (s.deployer == s.owner || !s.ownerHasCode) {
      return None;
    }
    if s.owner == ZERO_ADDRESS || (s.mode.EcdsaMode? && ZERO_ADDRESS in s.mode.signers)
       || (s.mode.FunctionsMode? && (s.mode.router == ZERO_ADDRESS || ZERO_ADDRESS in s.mode.requesters)) {
      return None;
    }
    if s.configure && s.ownerSigner != s.owner {
      return None;
    }
    assert AreAccepted(s);
    var b;
    if s.mode.EcdsaMode? {
      assert A.AcceptableSignerSet(signers, s.mode.threshold);
      b := BuildWithSigners(c, s, signers, mintGatewayAt, burnGatewayAt, now);
      if s.chainlinkOnlyRisk {
        DeployedIsReady(c, s, signers, mintGatewayAt, burnGatewayAt, now);
      }
    } else {
      b := BuildWithRouter(c, s, mintGatewayAt, burnGatewayAt, now);
    }
    return Some(b);
  }

  // ----- Locking down with the Functions verifier -----

  /** Minter and consumer locked, and every owner gone. */
  function LockedDown(c: Br.Chain, b: Br.Bridge): Br.Bridge
    requires b.verifier.Functions?
  {
    b.(token := b.token.(ownership := RENOUNCED, minterLocked := true, lockedMinter := c.mintGateway),
       registry := b.registry.(ownership := RENOUNCED, consumerLocked := true, lockedConsumer := c.mintGateway),
       minting := b.minting.(ownership := RENOUNCED), burning := b.burning.(ownership := RENOUNCED),
       verifier := Br.Functions(b.verifier.requests.(ownership := RENOUNCED)))
  }

  function LockdownCalls(c: Br.Chain): seq<Br.Call> {
    [Br.OnToken(W.LockMinter(c.mintGateway)), Br.OnRegistry(D.LockAuthorizedConsumer(c.mintGateway)),
     Br.OnToken(W.OwnToken(RenounceOwnership)), Br.OnFunctionsVerifier(F.OwnVerifier(RenounceOwnership)),
     Br.OnRegistry(D.OwnRegistry(RenounceOwnership)), Br.OnMintGateway(M.OwnGateway(RenounceOwnership)),
     Br.OnBurnGateway(B.OwnGateway(RenounceOwnership))]
  }

  function LockdownTxs(c: Br.Chain, owner: Address, now: Uint64): seq<Br.Tx> {
    seq(7, i requires 0 <= i < 7 => Br.Tx(owner, now, LockdownCalls(c)[i]))
  }

  /** A bridge that one owner still holds, with the gateway as the one minter and consumer. */
  ghost predicate IsOwned(c: Br.Chain, b: Br.Bridge, owner: Address) {
    && b.verifier.Functions? && c.mintGateway != ZERO_ADDRESS
    && !b.token.minterLocked && b.token.isMinter == {c.mintGateway}
    && !b.registry.consumerLocked && b.registry.authorizedConsumers == {c.mintGateway}
    && var owned := Ownership(owner, ZERO_ADDRESS);
       b.token.ownership == b.registry.ownership == b.minting.ownership == b.burning.ownership == owned
       && b.verifier.requests.ownership == owned
  }

  lemma LocksAreSet(c: Br.Chain, b: Br.Bridge, owner: Address)
    requires IsOwned(c, b, owner)
    ensures var (calls, now) := (LockdownCalls(c), b.time);
      Br.Step(c, Br.Step(c, b, Br.Tx(owner, now, calls[0])), Br.Tx(owner, now, calls[1]))
        == b.(token := b.token.(minterLocked := true, lockedMinter := c.mintGateway),
              registry := b.registry.(consumerLocked := true, lockedConsumer := c.mintGateway))
  {
    assert b.history.burns + [] == b.history.burns;
    assert b.token.isMinter + {c.mintGateway} == b.token.isMinter;
    assert b.registry.authorizedConsumers + {c.mintGateway} == b.registry.authorizedConsumers;
  }

  lemma OwnersLeave(c: Br.Chain, b: Br.Bridge, owner: Address)
    requires b.verifier.Functions? && var owned := Ownership(owner, ZERO_ADDRESS);
      b.token.ownership == b.registry.ownership == b.minting.ownership == b.burning.ownership == owned
      && b.verifier.requests.ownership == owned
    ensures var (calls, now) := (LockdownCalls(c), b.time);
      var b2 := Br.Step(c, Br.Step(c, b, Br.Tx(owner, now, calls[2])), Br.Tx(owner, now, calls[3]));
      var b4 := Br.Step(c, Br.Step(c, b2, Br.Tx(owner, now, calls[4])), Br.Tx(owner, now, calls[5]));
      Br.Step(c, b4, Br.Tx(owner, now, calls[6]))
        == b.(token := b.token.(ownership := RENOUNCED), registry := b.registry.(ownership := RENOUNCED),
              minting := b.minting.(ownership := RENOUNCED), burning := b.burning.(ownership := RENOUNCED),
              verifier := Br.Functions(b.verifier.requests.(ownership := RENOUNCED)))
  {
    assert b.history.burns + [] == b.history.burns;
  }

  lemma {:induction false} RunByOne(c: Br.Chain, b: Br.Bridge, txs: seq<Br.Tx>)
    requires |txs| == 7
    ensures var b3 := Br.Step(c, Br.Step(c, Br.Step(c, b, txs[0]), txs[1]), txs[2]);
      Br.Run(c, b, txs) == Br.Step(c, Br.Step(c, Br.Step(c, Br.Step(c, b3, txs[3]), txs[4]), txs[5]), txs[6])
  {
    hide Br.Step;
    V.RunAppends(c, b, txs[..6], txs[6]);
    V.RunAppends(c, b, txs[..5], txs[5]);
    V.RunAppends(c, b, txs[..4], txs[4]);
    V.RunAppends(c, b, txs[..3], txs[3]);
    V.RunAppends(c, b, txs[..2], txs[2]);
    V.RunAppends(c, b, txs[..1], txs[1]);
    V.RunAppends(c, b, txs[..0], txs[0]);
    assert txs == txs[..6] + [txs[6]] && txs[..6] == txs[..5] + [txs[5]] && txs[..5] == txs[..4] + [txs[4]];
    assert txs[..4] == txs[..3] + [txs[3]] && txs[..3] == txs[..2] + [txs[2]];
    assert txs[..2] == txs[..1] + [txs[1]] && txs[..1] == txs[..0] + [txs[0]];
  }

  /** Seven transactions of the owner lock the bridge down. */
  lemma OwnerLocksDown(c: Br.Chain, b: Br.Bridge, owner: Address)
    requires IsOwned(c, b, owner)
    ensures Br.Run(c, b, LockdownTxs(c, owner, b.time)) == LockedDown(c, b)
  {
    hide Br.Step, Br.Run, LockdownCalls;
    RunByOne(c, b, LockdownTxs(c, owner, b.time));
    LocksAreSet(c, b, owner);
    OwnersLeave(c, b.(token := b.token.(minterLocked := true, lockedMinter := c.mintGateway),
                      registry := b.registry.(consumerLocked := true, lockedConsumer := c.mintGateway)), owner);
  }

  /** After a deployment with the Functions verifier, and its lockdown, the theorems over runs start here. */
  lemma LockedDownIsReady(c: Br.Chain, s: Settings, mintGatewayAt: Uint64, burnGatewayAt: Uint64, now: Uint64)
    requires c.mintGateway != c.burnGateway && c.mintGateway != ZERO_ADDRESS && mintGatewayAt <= burnGatewayAt <= now
    requires AreAccepted(s) && s.mode.FunctionsMode? && s.configure
    ensures var b := Deployed(c, s, [], mintGatewayAt, burnGatewayAt, now);
      && IsOwned(c, b, s.owner)
      && Br.IsDeployed(c, LockedDown(c, b)) && R.IsLockedDown(c, LockedDown(c, b))
      && F.IsFresh(LockedDown(c, b).verifier.requests)
  {
  }
}
