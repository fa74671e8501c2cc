/**
  What holds across whole runs of the bridge: settled redeems stay settled, mints are rate
  limited, authorizations are required, and a locked-down bridge stays as it is.
 */
module BridgeRuns {
  import opened BridgeTypes
  import opened Ownable
  import opened RateLimiter
  import opened Bridge
  import W = WrappedBitcoin
  import D = DepositRegistry
  import M = MintGateway
  import B = BurnGateway
  import A = AttestationVerifier
  import F = FunctionsVerifier

  // ----- Redeem records -----

  /** A record's request never changes, and its state only settles: consumed is for ever. */
  predicate Settles(before: B.RedeemRecord, after: B.RedeemRecord) {
    && after.request == before.request
    && (after.state == before.state || B.Rank(after.state) < B.Rank(before.state))
  }

  ghost predicate RecordsSettle(g: B.Gateway, g': B.Gateway) {
    && (forall h | h in g.redeemRecords :: h in g'.redeemRecords && Settles(g.redeemRecords[h], g'.redeemRecords[h]))
    && g.redeemIdConsumed <= g'.redeemIdConsumed
  }

  lemma StepSettles(c: Chain, b: Bridge, tx: Tx)
    requires B.OnceOnly(b.burning)
    ensures RecordsSettle(b.burning, Step(c, b, tx).burning)
  {
    hide Consume, W.CallToken, M.MintWithAuthorization, VerifyRelease, VerifyMint, RedeemRequestHash, RedeemIdOf,
      B.DerivedFrom;
    hide B.IsAllowedDestinationScript, D.CallRegistry, M.CallGateway, A.CallVerifier, F.CallVerifier;
    if tx.call.Burn? && Get(b.burning.nextRedeemNonce, tx.sender) < TWO_64 {
      var d := tx.call;
      B.RequestsAreNew(b.burning, tx.sender, d.script, d.amountSats, d.maxMinerFeeSats, d.deadline);
    }
  }

  lemma SettlesTransitively(a: B.Gateway, b: B.Gateway, c: B.Gateway)
    requires RecordsSettle(a, b) && RecordsSettle(b, c)
    ensures RecordsSettle(a, c)
  {
  }

  /** Once consumed, cancelled past recall or resolved by hand, a redeem is never reopened in any run. */
  lemma {:induction false} RunSettles(c: Chain, b: Bridge, txs: seq<Tx>)
    requires Solvent(c, b) && IsRun(c, b, txs)
    ensures RecordsSettle(b.burning, Run(c, b, txs).burning)
    decreases |txs|
  {
    hide Step, RecordsSettle, B.OnceOnly, MintsAreBacked, D.WellKept;
    if txs == [] {
      SettlesItself(b.burning);
    } else {
      StepSettles(c, b, txs[0]);
      StepIsSolvent(c, b, txs[0]);
      RunSettles(c, Step(c, b, txs[0]), txs[1..]);
      SettlesTransitively(b.burning, Step(c, b, txs[0]).burning, Run(c, b, txs).burning);
    }
  }

  lemma SettlesItself(g: B.Gateway)
    ensures RecordsSettle(g, g)
  {
  }

  // ----- Authorization -----

  /** The supply grows only by a mint whose authorization the verifier accepts at that moment. */
  lemma SupplyNeedsAuthorization(c: Chain, b: Bridge, tx: Tx)
    requires Solvent(c, b) && IsExternal(c, b, tx)
    ensures Step(c, b, tx).token.totalSupply > b.token.totalSupply ==>
      && tx.call.MintWithAuthorization?
      && VerifyMint(c, b.verifier, tx.now, tx.call.mint, tx.call.attestation).None?
      && Step(c, b, tx).token.totalSupply == b.token.totalSupply + tx.call.mint.sats
  {
    hide Consume, W.CallToken, W.Create, M.MintWithAuthorization, VerifyRelease, VerifyMint, D.Consume;
    hide B.OnceOnly, MintsAreBacked, D.WellKept, W.Backed;
    if Try(c, b, tx).Commit? {
      match tx.call
      case OnToken(call) =>
        W.CallKeepsBacking(b.token, tx.sender, call);
        W.LockedMinterStays(b.token, tx.sender, call);
      case MintWithAuthorization(i, a, att) =>
        MintParts(M.World(b.minting, b.registry, b.token), c.mintGateway, tx.now, i, a,
                  VerifyMint(c, b.verifier, tx.now, a, att));
        CreationFacts(b.token, c.mintGateway, a.recipient0x, a.sats);
      case Burn(script, amountSats, maxMinerFeeSats, deadline) =>
        W.CallKeepsBacking(b.token, c.burnGateway, W.BurnFrom(tx.sender, amountSats));
      case _ =>
    }
  }

  /**
    A record becomes consumed only from BURNED, by a completion whose authorization the verifier
    accepts at that moment and which repeats what was burned: the requester, the script, the
    amount and the fee budget.
   */
  lemma ConsumptionNeedsAuthorization(c: Chain, b: Bridge, tx: Tx, h: Bytes32)
    requires B.StateOf(Step(c, b, tx).burning, h) == CONSUMED && B.StateOf(b.burning, h) != CONSUMED
    ensures tx.call.CompleteRedeem? && VerifyRelease(c, b.verifier, tx.now, tx.call.release, tx.call.attestation).None?
    ensures B.StateOf(b.burning, h) == BURNED && tx.call.release.redeemRequestHash == h
    ensures var (a, r) := (tx.call.release, b.burning.redeemRecords[h].request);
      && a.requester == r.requester && a.destinationScriptHash == r.destinationScriptHash
      && a.amountSats == r.amountSats && a.maxMinerFeeSats == r.maxMinerFeeSats
  {
    hide Consume, W.CallToken, W.Create, M.MintWithAuthorization, VerifyRelease, VerifyMint, RedeemRequestHash,
      RedeemIdOf;
    hide D.CallRegistry, M.CallGateway, A.CallVerifier, F.CallVerifier;
  }

  // ----- Rate limits -----

  function AttemptsOfMints(mints: seq<MintEntry>): seq<Attempt> {
    seq(|mints|, i requires 0 <= i < |mints| => Attempt(mints[i].time, mints[i].sats))
  }

  function AttemptsOfRedeems(redeems: seq<RedeemEntry>): seq<Attempt> {
    seq(|redeems|, i requires 0 <= i < |redeems| => Attempt(redeems[i].time, redeems[i].sats))
  }

  /** A limiter that has admitted exactly these attempts since it was configured. */
  ghost predicate Admits(configured: Limiter, attempts: seq<Attempt>, now: int, current: Limiter)
    decreases |attempts|
  {
    if attempts == [] then current == configured && configured.startedAt <= now
    else
      && Consume(configured, attempts[0]).Commit?
      && configured.startedAt <= attempts[0].time <= now
      && Admits(Consume(configured, attempts[0]).state, attempts[1..], now, current)
      && (forall i | 0 < i < |attempts| :: attempts[0].time <= attempts[i].time)
  }

  lemma {:induction false} AdmitsOneMore(configured: Limiter, attempts: seq<Attempt>, now: int, current: Limiter,
                                         a: Attempt)
    requires Admits(configured, attempts, now, current) && now <= a.time && Consume(current, a).Commit?
    ensures Admits(configured, attempts + [a], a.time, Consume(current, a).state)
    decreases |attempts|
  {
    hide Consume;
    if attempts == [] {
      StartsBy(configured, a);
      assert [a][1..] == [];
    } else {
      AdmitsOneMore(Consume(configured, attempts[0]).state, attempts[1..], now, current, a);
      assert (attempts + [a])[1..] == attempts[1..] + [a];
    }
  }

  lemma StartsBy(l: Limiter, a: Attempt)
    requires l.startedAt <= a.time && Consume(l, a).Commit?
    ensures Consume(l, a).state.startedAt <= a.time
  {
  }

  lemma {:induction false} AdmitsLater(configured: Limiter, attempts: seq<Attempt>, now: int, later: int,
                                       current: Limiter)
    requires Admits(configured, attempts, now, current) && now <= later
    ensures Admits(configured, attempts, later, current)
    decreases |attempts|
  {
    hide Consume;
    if attempts != [] {
      AdmitsLater(Consume(configured, attempts[0]).state, attempts[1..], now, later, current);
    }
  }

  /** The sats among these attempts at times in [from, to). */
  function SatsWithin(attempts: seq<Attempt>, from: int, to: int): nat {
    if attempts == [] then 0
    else (if from <= attempts[0].time < to then attempts[0].sats else 0) + SatsWithin(attempts[1..], from, to)
  }

  lemma {:induction false} AdmittedAre(configured: Limiter, attempts: seq<Attempt>, now: int, current: Limiter,
                                       from: int, to: int)
    requires Admits(configured, attempts, now, current) && Limiting(configured)
    ensures Timely(configured, attempts)
    ensures Admitted(configured, attempts, from, to) == SatsWithin(attempts, from, to)
    decreases |attempts|
  {
    if attempts != [] {
      var next := Consume(configured, attempts[0]).state;
      AdmittedAre(next, attempts[1..], now, current, from, to);
      forall i | 0 <= i < |attempts| ensures configured.startedAt <= attempts[i].time {}
      forall i, j | 0 <= i < j < |attempts| ensures attempts[i].time <= attempts[j].time {
        if i > 0 {
          assert attempts[1..][i - 1].time <= attempts[1..][j - 1].time;
        }
      }
    }
  }

  /** What was minted since the mint limit was last configured. */
  function MintsSinceLimit(b: Bridge): seq<Attempt> {
    var since := b.history.mintEpoch.since;
    if since <= |b.history.mints| then AttemptsOfMints(b.history.mints[since..]) else []
  }

  function RedeemsSinceLimit(b: Bridge): seq<Attempt> {
    var since := b.history.redeemEpoch.since;
    if since <= |b.history.redeems| then AttemptsOfRedeems(b.history.redeems[since..]) else []
  }

  /** The limiters are where the mints and redeems since their last configuration took them. */
  ghost predicate LimitsTracked(b: Bridge) {
    && b.history.mintEpoch.since <= |b.history.mints| && b.history.redeemEpoch.since <= |b.history.redeems|
    && Admits(b.history.mintEpoch.limiter, MintsSinceLimit(b), b.time, b.minting.limiter)
    && Admits(b.history.redeemEpoch.limiter, RedeemsSinceLimit(b), b.time, b.burning.limiter)
    && IsConfiguration(b.history.mintEpoch.limiter) && IsConfiguration(b.history.redeemEpoch.limiter)
  }

  /** The constructors leave the limiters configured and the history empty. */
  lemma DeployedIsTracked(c: Chain, b: Bridge)
    requires IsDeployed(c, b)
    ensures LimitsTracked(b)
  {
    AdmitsNothing(b.minting.limiter, b.time);
    AdmitsNothing(b.burning.limiter, b.time);
    assert b.history.mints[0..] == [] && b.history.redeems[0..] == [];
    assert AttemptsOfMints([]) == [] && AttemptsOfRedeems([]) == [];
  }

  lemma MintTracked(c: Chain, b: Bridge, tx: Tx)
    requires LimitsTracked(b) && b.time <= tx.now && tx.call.MintWithAuthorization? && Try(c, b, tx).Commit?
    ensures LimitsTracked(Step(c, b, tx))
  {
    hide Consume, W.Create, D.Consume, M.MintWithAuthorization, VerifyMint, Admits;
    var a := tx.call.mint;
    MintParts(M.World(b.minting, b.registry, b.token), c.mintGateway, tx.now, tx.call.intent, a,
              VerifyMint(c, b.verifier, tx.now, a, tx.call.attestation));
    var e := MintEntry(tx.now, a.depositId, a.btcTxId, a.vout, a.sats);
    var epoch := b.history.mintEpoch;
    var mints := b.history.mints[epoch.since..];
    assert (b.history.mints + [e])[epoch.since..] == mints + [e];
    assert AttemptsOfMints(mints + [e]) == AttemptsOfMints(mints) + [Attempt(tx.now, a.sats)];
    AdmitsOneMore(epoch.limiter, AttemptsOfMints(mints), b.time, b.minting.limiter, Attempt(tx.now, a.sats));
    AdmitsLater(b.history.redeemEpoch.limiter, RedeemsSinceLimit(b), b.time, tx.now, b.burning.limiter);
  }

  lemma BurnParts(w: B.World, self: Address, sender: Address, now: Uint64, script: seq<Byte>, amountSats: Uint64,
                  maxMinerFeeSats: Uint64, deadline: Uint64)
    requires B.BurnIntoRequest(w, self, sender, now, script, amountSats, maxMinerFeeSats, deadline).Commit?
    ensures Consume(w.gateway.limiter, Attempt(now, amountSats))
         == Commit(B.BurnIntoRequest(w, self, sender, now, script, amountSats, maxMinerFeeSats,
                                     deadline).state.gateway.limiter)
  {
    hide Consume, W.CallToken, RedeemRequestHash, B.IsAllowedDestinationScript;
  }

  lemma BurnTracked(c: Chain, b: Bridge, tx: Tx)
    requires LimitsTracked(b) && b.time <= tx.now && tx.call.Burn? && Try(c, b, tx).Commit?
    ensures LimitsTracked(Step(c, b, tx))
  {
    hide Consume, B.BurnIntoRequest, Admits, RedeemRequestHash;
    var d := tx.call;
    BurnParts(B.World(b.burning, b.token), c.burnGateway, tx.sender, tx.now, d.script, d.amountSats, d.maxMinerFeeSats,
              d.deadline);
    var epoch := b.history.redeemEpoch;
    var redeems := b.history.redeems[epoch.since..];
    var all := Step(c, b, tx).history.redeems;
    var e := all[|b.history.redeems|];
    assert all[epoch.since..] == redeems + [e];
    assert AttemptsOfRedeems(redeems + [e]) == AttemptsOfRedeems(redeems) + [Attempt(tx.now, d.amountSats)];
    AdmitsOneMore(epoch.limiter, AttemptsOfRedeems(redeems), b.time, b.burning.limiter, Attempt(tx.now, d.amountSats));
    AdmitsLater(b.history.mintEpoch.limiter, MintsSinceLimit(b), b.time, tx.now, b.minting.limiter);
  }

  /** A call that touches neither limiter nor history only lets time pass. */
  lemma OthersTracked(b: Bridge, b': Bridge)
    requires LimitsTracked(b) && b.time <= b'.time
    requires b'.minting.limiter == b.minting.limiter && b'.burning.limiter == b.burning.limiter
    requires b'.history.mints == b.history.mints && b'.history.redeems == b.history.redeems
    requires b'.history.mintEpoch == b.history.mintEpoch && b'.history.redeemEpoch == b.history.redeemEpoch
    ensures LimitsTracked(b')
  {
    hide Admits;
    AdmitsLater(b.history.mintEpoch.limiter, MintsSinceLimit(b), b.time, b'.time, b.minting.limiter);
    AdmitsLater(b.history.redeemEpoch.limiter, RedeemsSinceLimit(b), b.time, b'.time, b.burning.limiter);
  }

  lemma GatewayCallTracked(c: Chain, b: Bridge, tx: Tx)
    requires LimitsTracked(b) && b.time <= tx.now && (tx.call.OnMintGateway? || tx.call.OnBurnGateway?)
    ensures LimitsTracked(Step(c, b, tx))
  {
    hide Admits, CallOwnable;
    var s := Step(c, b, tx);
    AdmitsLater(b.history.mintEpoch.limiter, MintsSinceLimit(b), b.time, tx.now, b.minting.limiter);
    AdmitsLater(b.history.redeemEpoch.limiter, RedeemsSinceLimit(b), b.time, tx.now, b.burning.limiter);
    AdmitsNothing(s.minting.limiter, tx.now);
    AdmitsNothing(s.burning.limiter, tx.now);
    assert b.history.mints[|b.history.mints|..] == [] && b.history.redeems[|b.history.redeems|..] == [];
    assert AttemptsOfMints([]) == [] && AttemptsOfRedeems([]) == [];
  }

  lemma StepTracked(c: Chain, b: Bridge, tx: Tx)
    requires LimitsTracked(b) && b.time <= tx.now
    ensures LimitsTracked(Step(c, b, tx))
  {
    hide LimitsTracked, B.BurnIntoRequest, M.MintWithAuthorization, W.CallToken, D.CallRegistry, A.CallVerifier,
      F.CallVerifier;
    hide VerifyRelease, B.Precheck, M.CallGateway, B.CallGateway;
    if tx.call.OnMintGateway? || tx.call.OnBurnGateway? {
      GatewayCallTracked(c, b, tx);
    } else if Try(c, b, tx).Commit? && tx.call.MintWithAuthorization? {
      MintTracked(c, b, tx);
    } else if Try(c, b, tx).Commit? && tx.call.Burn? {
      BurnTracked(c, b, tx);
    } else {
      OthersTracked(b, Step(c, b, tx));
    }
  }

  lemma AdmitsNothing(l: Limiter, now: int)
    ensures l.startedAt <= now ==> Admits(l, [], now, l)
  {
  }

  lemma {:induction false} RunTracked(c: Chain, b: Bridge, txs: seq<Tx>)
    requires LimitsTracked(b) && IsRun(c, b, txs)
    ensures LimitsTracked(Run(c, b, txs))
    decreases |txs|
  {
    hide Step, LimitsTracked;
    if txs != [] {
      StepTracked(c, b, txs[0]);
      RunTracked(c, Step(c, b, txs[0]), txs[1..]);
    }
  }

  /**
    In every run from deployment, whatever else happens: the sats minted since the limit was last configured, in
    any interval of one window length, are at most twice the limit; and in the first t seconds
    after the configuration at most limit * (t / window + 1).
   */
  lemma MintsAreRateLimited(c: Chain, b: Bridge, txs: seq<Tx>, from: int, t: nat)
    requires IsDeployed(c, b) && IsRun(c, b, txs)
    ensures var s := Run(c, b, txs);
      var l := s.history.mintEpoch.limiter;
      l.limitSats > 0 ==>
        && l.windowSeconds > 0
        && SatsWithin(MintsSinceLimit(s), from, from + l.windowSeconds) <= 2 * l.limitSats
        && SatsWithin(MintsSinceLimit(s), l.startedAt, l.startedAt + t) <= l.limitSats * (t / l.windowSeconds + 1)
  {
    hide Run, IsRun, Admits, IsDeployed;
    DeployedIsTracked(c, b);
    RunTracked(c, b, txs);
    var s := Run(c, b, txs);
    RateBound(s.history.mintEpoch.limiter, MintsSinceLimit(s), s.time, s.minting.limiter, from, t);
  }

  /** The same for the sats burned into redeem requests. */
  lemma RedeemsAreRateLimited(c: Chain, b: Bridge, txs: seq<Tx>, from: int, t: nat)
    requires IsDeployed(c, b) && IsRun(c, b, txs)
    ensures var s := Run(c, b, txs);
      var l := s.history.redeemEpoch.limiter;
      l.limitSats > 0 ==>
        && l.windowSeconds > 0
        && SatsWithin(RedeemsSinceLimit(s), from, from + l.windowSeconds) <= 2 * l.limitSats
        && SatsWithin(RedeemsSinceLimit(s), l.startedAt, l.startedAt + t) <= l.limitSats * (t / l.windowSeconds + 1)
  {
    hide Run, IsRun, Admits, IsDeployed;
    DeployedIsTracked(c, b);
    RunTracked(c, b, txs);
    var s := Run(c, b, txs);
    RateBound(s.history.redeemEpoch.limiter, RedeemsSinceLimit(s), s.time, s.burning.limiter, from, t);
  }

  lemma RateBound(l: Limiter, attempts: seq<Attempt>, now: int, current: Limiter, from: int, t: nat)
    requires Admits(l, attempts, now, current) && IsConfiguration(l)
    ensures l.limitSats > 0 ==>
      && l.windowSeconds > 0
      && SatsWithin(attempts, from, from + l.windowSeconds) <= 2 * l.limitSats
      && SatsWithin(attempts, l.startedAt, l.startedAt + t) <= l.limitSats * (t / l.windowSeconds + 1)
  {
    hide Admits;
    if l.limitSats > 0 {
      AdmittedAre(l, attempts, now, current, from, from + l.windowSeconds);
      AdmittedAre(l, attempts, now, current, l.startedAt, l.startedAt + t);
      TwiceTheLimit(l, attempts, from, from + l.windowSeconds);
      BoundFromTheStart(l, attempts, t);
    }
  }

  // ----- Lockdown -----

  function VerifierOwnership(v: Verifier): Ownership {
    match v case Ecdsa(s) => s.ownership case Functions(s) => s.ownership
  }

  /** Minter and consumer are locked and every contract's ownership is renounced. */
  predicate IsLockedDown(c: Chain, b: Bridge) {
    && GatewayIsOnlyMinter(c, b)
    && b.token.ownership == b.registry.ownership == b.minting.ownership == b.burning.ownership == RENOUNCED
    && VerifierOwnership(b.verifier) == RENOUNCED
  }

  /** Everything an owner could have configured. */
  datatype Policy = Policy(
    owners: seq<Ownership>, minter: (bool, Address, set<Address>), consumer: (bool, Address, set<Address>),
    mintLimit: (nat, nat), redeemLimit: (nat, nat), paused: (bool, bool), minimumConfirmations: nat, signers: Signers)

  datatype Signers =
    | SignerSet(threshold: nat, digest: Bytes32, authorized: set<Address>, list: seq<Address>)
    | Requesters(subscriptionId: nat, donId: Bytes32, gasLimit: nat, requesters: set<Address>)

  function PolicyOf(b: Bridge): Policy {
    Policy([b.token.ownership, b.registry.ownership, b.minting.ownership, b.burning.ownership,
            VerifierOwnership(b.verifier)],
           (b.token.minterLocked, b.token.lockedMinter, b.token.isMinter),
           (b.registry.consumerLocked, b.registry.lockedConsumer, b.registry.authorizedConsumers),
           (b.minting.limiter.limitSats, b.minting.limiter.windowSeconds),
           (b.burning.limiter.limitSats, b.burning.limiter.windowSeconds),
           (b.minting.mintPaused, b.burning.burnPaused), b.minting.minimumConfirmations,
           match b.verifier
           case Ecdsa(s) => SignerSet(s.threshold, s.signerSetDigest, s.authorizedSigner, s.signers)
           case Functions(s) => Requesters(s.subscriptionId, s.donId, s.callbackGasLimit, s.authorizedRequester))
  }

  lemma ConsumeKeepsConfiguration(l: Limiter, a: Attempt)
    ensures Consume(l, a).Commit? ==>
      Consume(l, a).state.limitSats == l.limitSats && Consume(l, a).state.windowSeconds == l.windowSeconds
  {
  }

  /** The calls that could change a policy all ask for an owner, and there is none. */
  lemma OwnerCallsRevert(c: Chain, b: Bridge, tx: Tx)
    requires IsLockedDown(c, b) && IsExternal(c, b, tx)
    requires tx.call.OnMintGateway? || tx.call.OnBurnGateway? || tx.call.OnAttestationVerifier?
          || (tx.call.OnFunctionsVerifier?
              && (tx.call.functions.SetFunctionsConfig? || tx.call.functions.SetAuthorizedRequester?
                  || tx.call.functions.OwnVerifier?))
          || (tx.call.OnToken? && (tx.call.token.SetMinter? || tx.call.token.LockMinter? || tx.call.token.OwnToken?))
          || (tx.call.OnRegistry?
              && (tx.call.registry.SetAuthorizedConsumer? || tx.call.registry.LockAuthorizedConsumer?
                  || tx.call.registry.OwnRegistry?))
    ensures Try(c, b, tx).Revert?
  {
    hide A.ReplaceSigners, SetLimit;
  }

  lemma BurnKeepsPolicy(c: Chain, b: Bridge, tx: Tx)
    requires tx.call.Burn?
    ensures PolicyOf(Step(c, b, tx)) == PolicyOf(b)
  {
    hide Consume, RedeemRequestHash, B.IsAllowedDestinationScript;
    ConsumeKeepsConfiguration(b.burning.limiter, Attempt(tx.now, tx.call.amountSats));
  }

  lemma MintKeepsPolicy(c: Chain, b: Bridge, tx: Tx)
    requires tx.call.MintWithAuthorization?
    ensures PolicyOf(Step(c, b, tx)) == PolicyOf(b)
  {
    hide Consume, VerifyMint, M.MintWithAuthorization;
    var d := tx.call;
    var verdict := VerifyMint(c, b.verifier, tx.now, d.mint, d.attestation);
    var w := M.World(b.minting, b.registry, b.token);
    if M.MintWithAuthorization(w, c.mintGateway, tx.now, d.intent, d.mint, verdict).Commit? {
      MintParts(w, c.mintGateway, tx.now, d.intent, d.mint, verdict);
      ConsumeKeepsConfiguration(b.minting.limiter, Attempt(tx.now, d.mint.sats));
    }
  }

  lemma StepKeepsPolicy(c: Chain, b: Bridge, tx: Tx)
    requires IsLockedDown(c, b) && IsExternal(c, b, tx)
    ensures PolicyOf(Step(c, b, tx)) == PolicyOf(b) && IsLockedDown(c, Step(c, b, tx))
  {
    if tx.call.Burn? {
      BurnKeepsPolicy(c, b, tx);
    } else if tx.call.MintWithAuthorization? {
      MintKeepsPolicy(c, b, tx);
    } else if tx.call.CompleteRedeem? {
      hide VerifyRelease, B.Precheck;
    } else if tx.call.OnMintGateway? || tx.call.OnBurnGateway? || tx.call.OnAttestationVerifier? {
      OwnerCallsRevert(c, b, tx);
    } else {
      if Try(c, b, tx).Commit? {
        NotAnOwnerCall(c, b, tx);
      }
    }
    SamePolicyLockedDown(c, b, Step(c, b, tx));
  }

  lemma NotAnOwnerCall(c: Chain, b: Bridge, tx: Tx)
    requires IsLockedDown(c, b) && IsExternal(c, b, tx) && Try(c, b, tx).Commit?
    requires tx.call.OnToken? || tx.call.OnRegistry? || tx.call.OnFunctionsVerifier?
    ensures PolicyOf(Step(c, b, tx)) == PolicyOf(b)
  {
    hide D.IsValidIntent, DepositIdOf, MintStructHash, ReleaseStructHash, F.ApprovalKey, W.Move, W.Destroy, W.Create,
      W.Spend, D.Consume;
    if tx.call.OnToken? {
      TokenKeepsPolicy(b.token, tx.sender, tx.call.token);
    } else if tx.call.OnRegistry? {
      RegistryKeepsPolicy(b.registry, tx.sender, tx.now, tx.call.registry);
    }
  }

  lemma TokenKeepsPolicy(t: W.Token, sender: Address, call: W.TokenCall)
    requires t.ownership == RENOUNCED && sender != ZERO_ADDRESS && W.CallToken(t, sender, call).Commit?
    ensures var t' := W.CallToken(t, sender, call).state;
      t'.ownership == t.ownership && t'.minterLocked == t.minterLocked && t'.lockedMinter == t.lockedMinter
      && t'.isMinter == t.isMinter
  {
  }

  lemma RegistryKeepsPolicy(r: D.Registry, sender: Address, now: Uint64, call: D.RegistryCall)
    requires r.ownership == RENOUNCED && sender != ZERO_ADDRESS && D.CallRegistry(r, sender, now, call).Commit?
    ensures var r' := D.CallRegistry(r, sender, now, call).state;
      r'.ownership == r.ownership && r'.consumerLocked == r.consumerLocked && r'.lockedConsumer == r.lockedConsumer
      && r'.authorizedConsumers == r.authorizedConsumers
  {
  }

  lemma SamePolicyLockedDown(c: Chain, b: Bridge, b': Bridge)
    requires IsLockedDown(c, b) && PolicyOf(b') == PolicyOf(b)
    ensures IsLockedDown(c, b')
  {
    assert PolicyOf(b').owners[0] == RENOUNCED && PolicyOf(b').owners[1] == RENOUNCED
      && PolicyOf(b').owners[2] == RENOUNCED;
    assert PolicyOf(b').owners[3] == RENOUNCED && PolicyOf(b').owners[4] == RENOUNCED;
  }

  /**
    Lockdown is permanent: no run of calls, by any accounts, changes an owner, the locked minter
    or consumer, a limit, a pause flag, the confirmation minimum or the signer configuration.
   */
  lemma {:induction false} LockdownIsPermanent(c: Chain, b: Bridge, txs: seq<Tx>)
    requires IsLockedDown(c, b) && IsRun(c, b, txs)
    ensures PolicyOf(Run(c, b, txs)) == PolicyOf(b) && IsLockedDown(c, Run(c, b, txs))
    decreases |txs|
  {
    hide Step, PolicyOf, IsLockedDown;
    if txs != [] {
      StepKeepsPolicy(c, b, txs[0]);
      LockdownIsPermanent(c, Step(c, b, txs[0]), txs[1..]);
    }
  }
}
