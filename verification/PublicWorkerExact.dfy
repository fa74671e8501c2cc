/**
  Runs that the service really makes: the loader and the start-up guard accept the configuration, and
  every reply is what the chain says at that moment.

  The theorems about all runs assume less (IsTruthful): there a reply may be late, or tell nothing of
  the chain where nothing depends on it. A claim that some run exists is worth more the more is asked
  of the run, so those claims are about exact runs only; an exact run is a run (ExactIsRun).
 */
module PublicWorkerExact {
  import opened BridgeTypes
  import opened PublicStore
  import opened PublicWorker
  import P = SpendPlan
  import B = BurnGateway
  import F = FunctionsVerifier
  import Br = Bridge

  // ----- Starting -----

  const SEPOLIA_CHAIN_ID: nat := 11155111
  const SIGNET_BTC_NETWORK: nat := 3
  const MAX_CAP_SATS: nat := 10_000_000

  predicate IsPositiveInteger(n: nat) { 0 < n <= MAX_SAFE_INTEGER }

  /** What the loader and the guard ask of the configuration alone. */
  predicate IsLoaded(cfg: Config) {
    && IsPositiveInteger(cfg.authorizationTtlSeconds) && IsPositiveInteger(cfg.limit)
    && IsPositiveInteger(cfg.scanBatchSize) && cfg.fromBlock <= MAX_SAFE_INTEGER
    && cfg.sourceEvmChainId == SEPOLIA_CHAIN_ID && cfg.btcNetwork == SIGNET_BTC_NETWORK
    && cfg.maxSats <= MAX_CAP_SATS && cfg.maxMinerFeeSats <= MAX_CAP_SATS
  }

  /**
    What the guard asks of the contracts. Both gateways have the configured verifier, which the service
    takes for a Functions verifier in every call it makes.
   */
  predicate FitsContracts(c: Br.Chain, cfg: Config, b: Br.Bridge) {
    && b.verifier.Functions?
    && b.minting.btcNetwork == b.burning.btcNetwork == cfg.btcNetwork
    && b.burning.sourceEvmChainId == cfg.sourceEvmChainId
    && b.burning.bridgeDomain == b.registry.bridgeDomain == cfg.bridgeDomain
    && (cfg.custody == CHAINLINK_DON ==> IsGivenUp(c, cfg, b))
  }

  /** With DON custody: locked to the gateway, no owner left, and the relayer permitted. */
  predicate IsGivenUp(c: Br.Chain, cfg: Config, b: Br.Bridge)
    requires b.verifier.Functions?
  {
    && b.token.minterLocked && b.token.lockedMinter == c.mintGateway && c.mintGateway in b.token.isMinter
    && b.registry.consumerLocked && b.registry.lockedConsumer == c.mintGateway
    && c.mintGateway in b.registry.authorizedConsumers
    && b.token.ownership.owner == b.registry.ownership.owner == b.minting.ownership.owner == ZERO_ADDRESS
    && b.burning.ownership.owner == b.verifier.requests.ownership.owner == ZERO_ADDRESS
    && cfg.relayer in b.verifier.requests.authorizedRequester
  }

  predicate HasStarted(c: Br.Chain, cfg: Config, b: Br.Bridge) { IsLoaded(cfg) && FitsContracts(c, cfg, b) }

  // ----- Replies -----

  /** The relayer's request for just this release stands under this identifier. */
  predicate IsRequested(v: F.Verifier, cfg: Config, a: ReleaseAuthorization, id: Bytes32) {
    && id in v.pendingRequests
    && var p := v.pendingRequests[id];
       p.recorded && p.kind == F.KIND_RELEASE && p.structHash == ReleaseStructHash(a) && p.requester == cfg.relayer
       && p.deadline == a.deadline
  }

  function PendingOf(v: F.Verifier, id: Bytes32): Pending {
    var p := F.Pending(v, id);
    Pending(p.recorded, p.fulfilled, p.approved)
  }

  /** A node estimates a call before it takes it: one that would revert is not sent. */
  predicate WouldComplete(c: Br.Chain, cfg: Config, b: Br.Bridge, a: ReleaseAuthorization, id: Bytes32) {
    Br.Try(c, b, Br.Tx(cfg.relayer, b.time, Br.CompleteRedeem(a, ChainlinkAttestation(id)))).Commit?
  }

  /** The answers about one row are those of the chain now. */
  predicate SettlesExactly(c: Br.Chain, cfg: Config, w: World, row: Row, a: Action)
    requires w.bridge.verifier.Functions? && a.DoSettle? && row.authorization.Some? && row.releaseRequestId.Some?
  {
    var (release, id) := (row.authorization.value, row.releaseRequestId.value);
    && (a.receipt.Reply? && row.completeTx.Some? ==> (a.receipt.value.Some? <==> row.completeTx.value in w.receipts))
    && (a.pending.Reply? ==> a.pending.value == PendingOf(w.bridge.verifier.requests, id))
    && (a.consumed.Reply? ==> a.consumed.value == (release.redeemId in w.bridge.burning.redeemIdConsumed))
    && (a.event.Reply? ==> (a.event.value.Some? <==> (row.event.requestHash, release.redeemId) in w.consumedEvents))
    && (a.sent.Reply? ==> WouldComplete(c, cfg, w.bridge, release, id))
  }

  /** The process acts, under a configuration it could start with, on replies that are exact. */
  predicate ActsExactly(c: Br.Chain, cfg: Config, w: World, a: Action) {
    && HasStarted(c, cfg, w.bridge)
    && match a
       case DoRequest(_, requested) =>
         Head(w).Some? && requested.Reply? ==>
           w.job.queue[0].authorization.Some?
           && IsRequested(w.bridge.verifier.requests, cfg, w.job.queue[0].authorization.value, requested.value)
       case DoSettle(_, _, _, _, _, _) =>
         Head(w).Some? ==>
           w.job.queue[0].authorization.Some? && w.job.queue[0].releaseRequestId.Some?
           && SettlesExactly(c, cfg, w, w.job.queue[0], a)
       case DoBroadcast(finalized) =>
         Head(w).Some? && finalized.Reply? ==>
           w.job.queue[0].spendPlan.Some?
           && finalized.value.parsed == Some(P.TransactionOf(w.job.queue[0].spendPlan.value))
       case _ => true
  }

  ghost predicate IsExact(c: Br.Chain, cfg: Config, w: World, a: Action) {
    && IsTruthful(c, cfg, w, a)
    && match a
       case Transact(_) => true
       case MineCompletion(hash, sender, _) => hash in w.completions && hash !in w.receipts && sender == cfg.relayer
       case Crash => true
       case _ => ActsExactly(c, cfg, w, a)
  }

  // ----- Runs -----

  ghost predicate IsExactRun(c: Br.Chain, w: World, moves: seq<Move>)
    decreases |moves|
  {
    moves == [] || (IsExact(c, moves[0].config, w, moves[0].action)
                    && IsExactRun(c, Do(c, moves[0].config, w, moves[0].action), moves[1..]))
  }

  lemma {:induction false} ExactIsRun(c: Br.Chain, w: World, moves: seq<Move>)
    requires IsExactRun(c, w, moves)
    ensures IsRun(c, w, moves)
    decreases |moves|
  {
    hide Do, IsTruthful, ActsExactly;
    if moves != [] {
      ExactIsRun(c, Do(c, moves[0].config, w, moves[0].action), moves[1..]);
    }
  }

  /** The moves are an exact run from w to w'. */
  ghost predicate LeadsExactly(c: Br.Chain, w: World, moves: seq<Move>, w': World) {
    IsExactRun(c, w, moves) && Run(c, w, moves) == w'
  }

  lemma {:induction false} GoesOn(c: Br.Chain, w: World, moves: seq<Move>, w': World, m: Move)
    requires LeadsExactly(c, w, moves, w') && IsExact(c, m.config, w', m.action)
    ensures LeadsExactly(c, w, moves + [m], Do(c, m.config, w', m.action))
    decreases |moves|
  {
    hide Do, IsExact;
    if moves == [] {
      var one := moves + [m];
      assert one[0] == m && one[1..] == [];
      assert IsExactRun(c, w, one) && Run(c, w, one) == Run(c, Do(c, m.config, w, m.action), []);
    } else {
      assert (moves + [m])[1..] == moves[1..] + [m];
      GoesOn(c, Do(c, moves[0].config, w, moves[0].action), moves[1..], w', m);
    }
  }
}
