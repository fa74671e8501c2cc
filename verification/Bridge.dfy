/**
  All contracts together, under arbitrary transactions.

  A transaction has a sender, a block time and a call; it commits or leaves everything as it
  was. Senders are any accounts except the two gateways, which only make the calls their code
  makes, and the zero address. The history keeps what the contracts' events say: mints, burns,
  redeem requests, and when the limits were last configured.
 */
module Bridge {
  import opened BridgeTypes
  import opened Ownable
  import opened RateLimiter
  import W = WrappedBitcoin
  import D = DepositRegistry
  import M = MintGateway
  import B = BurnGateway
  import A = AttestationVerifier
  import F = FunctionsVerifier

  /** The gateways' addresses, and signature recovery. */
  datatype Chain = Chain(mintGateway: Address, burnGateway: Address, recover: A.Recover)

  datatype Verifier = Ecdsa(attestation: A.Verifier) | Functions(requests: F.Verifier)

  datatype MintEntry = MintEntry(time: Uint64, depositId: Bytes32, btcTxId: Bytes32, vout: Uint32, sats: Uint64)

  datatype BurnEntry = BurnEntry(spender: Address, sats: Uint256)

  datatype RedeemEntry = RedeemEntry(time: Uint64, requestHash: Bytes32, sats: Uint64)

  /** The limiter as it was configured, and how many entries there were then. */
  datatype Epoch = Epoch(limiter: Limiter, since: nat)

  datatype History = History(
    mints: seq<MintEntry>,
    burns: seq<BurnEntry>,
    redeems: seq<RedeemEntry>,
    mintEpoch: Epoch,
    redeemEpoch: Epoch)

  datatype Bridge = Bridge(
    time: Uint64,
    token: W.Token,
    registry: D.Registry,
    minting: M.Gateway,
    burning: B.Gateway,
    verifier: Verifier,
    history: History)

  datatype Call =
    | OnToken(token: W.TokenCall)
    | OnRegistry(registry: D.RegistryCall)
    | OnMintGateway(minting: M.GatewayCall)
    | MintWithAuthorization(intent: DepositIntent, mint: MintAuthorization, attestation: Attestation)
    | OnBurnGateway(burning: B.GatewayCall)
    | Burn(script: seq<Byte>, amountSats: Uint64, maxMinerFeeSats: Uint64, deadline: Uint64)
    | CompleteRedeem(release: ReleaseAuthorization, attestation: Attestation)
    | OnAttestationVerifier(signing: A.VerifierCall)
    | OnFunctionsVerifier(functions: F.VerifierCall)

  datatype Tx = Tx(sender: Address, now: Uint64, call: Call)

  function VerifyMint(c: Chain, v: Verifier, now: Uint64, a: MintAuthorization, att: Attestation): Option<Error> {
    match v
    case Ecdsa(s) => A.VerifyMint(s, c.recover, now, a, att)
    case Functions(s) => F.VerifyMint(s, now, a, att)
  }

  function VerifyRelease(c: Chain, v: Verifier, now: Uint64, a: ReleaseAuthorization, att: Attestation): Option<Error> {
    match v
    case Ecdsa(s) => A.VerifyRelease(s, c.recover, now, a, att)
    case Functions(s) => F.VerifyRelease(s, now, a, att)
  }

  // ----- One transaction -----

  function StepToken(b: Bridge, tx: Tx, call: W.TokenCall): Outcome<Bridge> {
    match W.CallToken(b.token, tx.sender, call)
    case Revert(e) => Revert(e)
    case Commit(t) =>
      var burns := if call.BurnFrom? then [BurnEntry(tx.sender, call.amount)] else [];
      Commit(b.(token := t, history := b.history.(burns := b.history.burns + burns)))
  }

  function StepRegistry(b: Bridge, tx: Tx, call: D.RegistryCall): Outcome<Bridge> {
    match D.CallRegistry(b.registry, tx.sender, tx.now, call)
    case Revert(e) => Revert(e)
    case Commit(r) => Commit(b.(registry := r))
  }

  function StepMintGateway(b: Bridge, tx: Tx, call: M.GatewayCall): Outcome<Bridge> {
    match M.CallGateway(b.minting, tx.sender, tx.now, call)
    case Revert(e) => Revert(e)
    case Commit(g) =>
      var epoch := if call.SetMintLimit? then Epoch(g.limiter, |b.history.mints|) else b.history.mintEpoch;
      Commit(b.(minting := g, history := b.history.(mintEpoch := epoch)))
  }

  function StepMint(c: Chain, b: Bridge, tx: Tx, i: DepositIntent, a: MintAuthorization,
                    att: Attestation): Outcome<Bridge> {
    match M.MintWithAuthorization(M.World(b.minting, b.registry, b.token), c.mintGateway, tx.now, i, a,
                                  VerifyMint(c, b.verifier, tx.now, a, att))
    case Revert(e) => Revert(e)
    case Commit(w) =>
      var entry := MintEntry(tx.now, a.depositId, a.btcTxId, a.vout, a.sats);
      Commit(b.(minting := w.gateway, registry := w.registry, token := w.token,
                history := b.history.(mints := b.history.mints + [entry])))
  }

  function StepBurnGateway(b: Bridge, tx: Tx, call: B.GatewayCall): Outcome<Bridge> {
    match B.CallGateway(b.burning, tx.sender, tx.now, call)
    case Revert(e) => Revert(e)
    case Commit(g) =>
      var epoch := if call.SetRedeemLimit? then Epoch(g.limiter, |b.history.redeems|) else b.history.redeemEpoch;
      Commit(b.(burning := g, history := b.history.(redeemEpoch := epoch)))
  }

  function StepBurn(c: Chain, b: Bridge, tx: Tx, script: seq<Byte>, amountSats: Uint64, maxMinerFeeSats: Uint64,
                    deadline: Uint64): Outcome<Bridge> {
    match B.BurnIntoRequest(B.World(b.burning, b.token), c.burnGateway, tx.sender, tx.now, script, amountSats,
                            maxMinerFeeSats, deadline)
    case Revert(e) => Revert(e)
    case Commit(w) =>
      var h := RedeemRequestHash(b.burning.bridgeDomain,
                                 B.RequestOf(b.burning, tx.sender, script, amountSats, maxMinerFeeSats, deadline));
      Commit(b.(burning := w.gateway, token := w.token,
                history := b.history.(burns := b.history.burns + [BurnEntry(c.burnGateway, amountSats)],
                                      redeems := b.history.redeems + [RedeemEntry(tx.now, h, amountSats)])))
  }

  function StepComplete(c: Chain, b: Bridge, tx: Tx, a: ReleaseAuthorization, att: Attestation): Outcome<Bridge> {
    match B.Complete(b.burning, a, VerifyRelease(c, b.verifier, tx.now, a, att))
    case Revert(e) => Revert(e)
    case Commit(g) => Commit(b.(burning := g))
  }

  function StepVerifier(b: Bridge, tx: Tx): Outcome<Bridge>
    requires tx.call.OnAttestationVerifier? || tx.call.OnFunctionsVerifier?
  {
    match (b.verifier, tx.call)
    case (Ecdsa(v), OnAttestationVerifier(call)) =>
      (match A.CallVerifier(v, tx.sender, call)
       case Revert(e) => Revert(e)
       case Commit(s) => Commit(b.(verifier := Ecdsa(s))))
    case (Functions(v), OnFunctionsVerifier(call)) =>
      (match F.CallVerifier(v, tx.sender, tx.now, call)
       case Revert(e) => Revert(e)
       case Commit(s) => Commit(b.(verifier := Functions(s))))
    case (_, _) => Revert(NoSuchFunction)
  }

  function Try(c: Chain, b: Bridge, tx: Tx): Outcome<Bridge> {
    match tx.call
    case OnToken(call) => StepToken(b, tx, call)
    case OnRegistry(call) => StepRegistry(b, tx, call)
    case OnMintGateway(call) => StepMintGateway(b, tx, call)
    case MintWithAuthorization(i, a, att) => StepMint(c, b, tx, i, a, att)
    case OnBurnGateway(call) => StepBurnGateway(b, tx, call)
    case Burn(script, amountSats, maxMinerFeeSats, deadline) =>
      StepBurn(c, b, tx, script, amountSats, maxMinerFeeSats, deadline)
    case CompleteRedeem(a, att) => StepComplete(c, b, tx, a, att)
    case _ => StepVerifier(b, tx)
  }

  function Step(c: Chain, b: Bridge, tx: Tx): Bridge {
    match Try(c, b, tx)
    case Commit(s) => s.(time := tx.now)
    case Revert(_) => b.(time := tx.now)
  }

  /** Transactions from outside the gateways, in blocks whose time does not run backwards. */
  predicate IsExternal(c: Chain, b: Bridge, tx: Tx) {
    tx.sender != ZERO_ADDRESS && tx.sender != c.mintGateway && tx.sender != c.burnGateway && b.time <= tx.now
  }

  function Run(c: Chain, b: Bridge, txs: seq<Tx>): Bridge
    decreases |txs|
  {
    if txs == [] then b else Run(c, Step(c, b, txs[0]), txs[1..])
  }

  predicate IsRun(c: Chain, b: Bridge, txs: seq<Tx>)
    decreases |txs|
  {
    txs == [] || (IsExternal(c, b, txs[0]) && IsRun(c, Step(c, b, txs[0]), txs[1..]))
  }

  // ----- Solvency -----

  function MintedSats(mints: seq<MintEntry>): nat {
    if mints == [] then 0 else MintedSats(mints[..|mints| - 1]) + mints[|mints| - 1].sats
  }

  function BurnedSats(burns: seq<BurnEntry>): nat {
    if burns == [] then 0 else BurnedSats(burns[..|burns| - 1]) + burns[|burns| - 1].sats
  }

  /** The part of the burns that the burn gateway made. */
  function GatewayBurns(burns: seq<BurnEntry>, gateway: Address): nat {
    if burns == [] then 0
    else
      var last := burns[|burns| - 1];
      GatewayBurns(burns[..|burns| - 1], gateway) + (if last.spender == gateway then last.sats else 0)
  }

  function RecordAmounts(records: map<Bytes32, B.RedeemRecord>): map<Bytes32, nat> {
    map h | h in records :: records[h].request.amountSats as nat
  }

  /** The sats of all redeem records, whatever has become of them. */
  ghost function RedeemedSats(b: Bridge): nat { Sum(RecordAmounts(b.burning.redeemRecords)) }

  /** Only the mint gateway can mint or consume, and the configuration that says so is locked. */
  predicate GatewayIsOnlyMinter(c: Chain, b: Bridge) {
    && b.token.minterLocked && b.token.lockedMinter == c.mintGateway
    && b.registry.consumerLocked && b.registry.lockedConsumer == c.mintGateway
  }

  /** A nonzero amount: the expected one of an exact intent, and inside the bounds of any other. */
  predicate IsWithin(i: DepositIntent, sats: Uint64) {
    && 0 < sats
    && (i.amountMode == EXACT ==> sats == i.expectedSats)
    && (i.amountMode == ANY ==> i.minSats <= sats <= i.maxSats)
  }

  /** The mints consumed each their own deposit and Bitcoin output, and nothing else was consumed. */
  ghost predicate MintsAreBacked(r: D.Registry, mints: seq<MintEntry>) {
    && r.depositConsumed == (set m | m in mints :: m.depositId)
    && r.utxoConsumed == (set m | m in mints :: UtxoKey(m.btcTxId, m.vout))
    && (forall j, k | 0 <= j < k < |mints| ::
          mints[j].depositId != mints[k].depositId
          && (mints[j].btcTxId, mints[j].vout) != (mints[k].btcTxId, mints[k].vout))
    && (forall m | m in mints :: m.depositId in r.depositIntents && IsWithin(r.depositIntents[m.depositId], m.sats))
  }

  ghost predicate Solvent(c: Chain, b: Bridge) {
    && c.mintGateway != c.burnGateway
    && GatewayIsOnlyMinter(c, b)
    && W.Backed(b.token)
    && D.WellKept(b.registry)
    && MintsAreBacked(b.registry, b.history.mints)
    && b.token.totalSupply + BurnedSats(b.history.burns) == MintedSats(b.history.mints)
    && GatewayBurns(b.history.burns, c.burnGateway) == RedeemedSats(b)
    && B.OnceOnly(b.burning)
  }

  lemma BurnsAppend(burns: seq<BurnEntry>, e: BurnEntry, gateway: Address)
    ensures BurnedSats(burns + [e]) == BurnedSats(burns) + e.sats
    ensures GatewayBurns(burns + [e], gateway)
      == GatewayBurns(burns, gateway) + (if e.spender == gateway then e.sats else 0)
  {
    assert (burns + [e])[..|burns|] == burns;
  }

  lemma MintsAppend(mints: seq<MintEntry>, e: MintEntry)
    ensures MintedSats(mints + [e]) == MintedSats(mints) + e.sats
  {
    assert (mints + [e])[..|mints|] == mints;
  }

  lemma TokenStepIsSolvent(c: Chain, b: Bridge, tx: Tx, call: W.TokenCall)
    requires Solvent(c, b) && IsExternal(c, b, tx) && StepToken(b, tx, call).Commit?
    ensures Solvent(c, StepToken(b, tx, call).state)
  {
    hide B.OnceOnly, D.WellKept, MintsAreBacked, W.CallToken;
    W.CallKeepsBacking(b.token, tx.sender, call);
    W.LockedMinterStays(b.token, tx.sender, call);
    if call.BurnFrom? {
      BurnsAppend(b.history.burns, BurnEntry(tx.sender, call.amount), c.burnGateway);
    } else {
      assert b.history.burns + [] == b.history.burns;
    }
  }

  lemma RegistryStepIsSolvent(c: Chain, b: Bridge, tx: Tx, call: D.RegistryCall)
    requires Solvent(c, b) && IsExternal(c, b, tx) && StepRegistry(b, tx, call).Commit?
    ensures Solvent(c, StepRegistry(b, tx, call).state)
  {
    hide B.OnceOnly, W.Backed;
    D.CallKeepsRegistry(b.registry, tx.sender, tx.now, call);
  }

  /** A committed mint has passed every check, and moves only what its three parts move. */
  lemma MintParts(w: M.World, self: Address, now: Uint64, i: DepositIntent, a: MintAuthorization,
                  verdict: Option<Error>)
    requires M.MintWithAuthorization(w, self, now, i, a, verdict).Commit?
    ensures var w' := M.MintWithAuthorization(w, self, now, i, a, verdict).state;
      && verdict.None? && !w.gateway.mintPaused && now <= i.expiry
      && a.depositId == DepositIdOf(w.registry.bridgeDomain, i) && M.MeetsAmountPolicy(i, a.sats)
      && D.Consume(w.registry, self, a.depositId, a.btcTxId, a.vout) == Commit(w'.registry)
      && W.Create(w.token, self, a.recipient0x, a.sats) == Commit(w'.token)
      && Consume(w.gateway.limiter, Attempt(now, a.sats)).Commit?
      && w'.gateway == w.gateway.(limiter := Consume(w.gateway.limiter, Attempt(now, a.sats)).state)
  {
    hide DepositIdOf, M.MeetsAmountPolicy, W.Create, D.Consume, Consume;
  }

  lemma MintStepIsSolvent(c: Chain, b: Bridge, tx: Tx, i: DepositIntent, a: MintAuthorization, att: Attestation)
    requires Solvent(c, b) && StepMint(c, b, tx, i, a, att).Commit?
    ensures Solvent(c, StepMint(c, b, tx, i, a, att).state)
  {
    hide B.OnceOnly, W.Backed, D.WellKept, MintsAreBacked, W.Create, VerifyMint, Consume, DepositIdOf,
      M.MeetsAmountPolicy, M.MintWithAuthorization;
    var entry := MintEntry(tx.now, a.depositId, a.btcTxId, a.vout, a.sats);
    MintParts(M.World(b.minting, b.registry, b.token), c.mintGateway, tx.now, i, a,
              VerifyMint(c, b.verifier, tx.now, a, att));
    CreationFacts(b.token, c.mintGateway, a.recipient0x, a.sats);
    MintsAppend(b.history.mints, entry);
    ConsumptionFacts(b.registry, c.mintGateway, a, i, b.history.mints, entry);
  }

  lemma CreationFacts(t: W.Token, caller: Address, to: Address, sats: Uint64)
    requires W.Backed(t)
    ensures W.Create(t, caller, to, sats).Commit? ==>
      var t' := W.Create(t, caller, to, sats).state;
      W.Backed(t') && t'.totalSupply == t.totalSupply + sats && t'.minterLocked == t.minterLocked
      && t'.lockedMinter == t.lockedMinter
  {
    if W.Create(t, caller, to, sats).Commit? {
      W.CreateAddsAmount(t, caller, to, sats);
    }
  }

  lemma ConsumptionFacts(r: D.Registry, caller: Address, a: MintAuthorization, i: DepositIntent, mints: seq<MintEntry>,
                         e: MintEntry)
    requires D.WellKept(r) && MintsAreBacked(r, mints)
    requires D.Consume(r, caller, a.depositId, a.btcTxId, a.vout).Commit?
    requires a.depositId == DepositIdOf(r.bridgeDomain, i) && M.MeetsAmountPolicy(i, a.sats)
    requires e.depositId == a.depositId && e.btcTxId == a.btcTxId && e.vout == a.vout && e.sats == a.sats
    ensures var r' := D.Consume(r, caller, a.depositId, a.btcTxId, a.vout).state;
      D.WellKept(r') && MintsAreBacked(r', mints + [e])
  {
    hide DepositIdOf;
    var r' := D.Consume(r, caller, a.depositId, a.btcTxId, a.vout).state;
    D.IntentIsCreatedOnce(r, caller, 0, i, i);
    var all := mints + [e];
    assert forall m :: m in all <==> m in mints || m == e;
    forall k | 0 <= k < |mints|
      ensures mints[k].depositId != e.depositId && (mints[k].btcTxId, mints[k].vout) != (e.btcTxId, e.vout)
    {
      assert mints[k] in mints;
    }
  }

  lemma AmountsUpdate(records: map<Bytes32, B.RedeemRecord>, h: Bytes32, r: B.RedeemRecord)
    requires h !in records || records[h].request.amountSats == r.request.amountSats
    ensures Sum(RecordAmounts(records[h := r]))
      == Sum(RecordAmounts(records)) + (if h in records then 0 else r.request.amountSats)
  {
    assert RecordAmounts(records[h := r]) == RecordAmounts(records)[h := r.request.amountSats as nat];
    SumUpdate(RecordAmounts(records), h, r.request.amountSats);
  }

  lemma BurnStepIsSolvent(c: Chain, b: Bridge, tx: Tx, script: seq<Byte>, amountSats: Uint64, maxMinerFeeSats: Uint64,
                          deadline: Uint64)
    requires Solvent(c, b) && StepBurn(c, b, tx, script, amountSats, maxMinerFeeSats, deadline).Commit?
    ensures Solvent(c, StepBurn(c, b, tx, script, amountSats, maxMinerFeeSats, deadline).state)
  {
    hide B.OnceOnly, D.WellKept, MintsAreBacked, W.CallToken, B.IsAllowedDestinationScript, Consume;
    var g := b.burning;
    var call := W.BurnFrom(tx.sender, amountSats);
    W.CallKeepsBacking(b.token, c.burnGateway, call);
    W.LockedMinterStays(b.token, c.burnGateway, call);
    BurnsAppend(b.history.burns, BurnEntry(c.burnGateway, amountSats), c.burnGateway);
    B.RequestsAreNew(g, tx.sender, script, amountSats, maxMinerFeeSats, deadline);
    B.BurnKeepsOnceOnly(B.World(g, b.token), c.burnGateway, tx.sender, tx.now, script, amountSats, maxMinerFeeSats,
                        deadline);
    var request := B.RequestOf(g, tx.sender, script, amountSats, maxMinerFeeSats, deadline);
    AmountsUpdate(g.redeemRecords, RedeemRequestHash(g.bridgeDomain, request), B.RedeemRecord(request, BURNED));
  }

  lemma CompleteStepIsSolvent(c: Chain, b: Bridge, tx: Tx, a: ReleaseAuthorization, att: Attestation)
    requires Solvent(c, b) && StepComplete(c, b, tx, a, att).Commit?
    ensures Solvent(c, StepComplete(c, b, tx, a, att).state)
  {
    hide B.OnceOnly, D.WellKept, MintsAreBacked, W.Backed, VerifyRelease;
    B.CompleteKeepsOnceOnly(b.burning, a, VerifyRelease(c, b.verifier, tx.now, a, att));
    var h := a.redeemRequestHash;
    AmountsUpdate(b.burning.redeemRecords, h, b.burning.redeemRecords[h].(state := CONSUMED));
  }

  lemma BurnGatewayStepIsSolvent(c: Chain, b: Bridge, tx: Tx, call: B.GatewayCall)
    requires Solvent(c, b) && StepBurnGateway(b, tx, call).Commit?
    ensures Solvent(c, StepBurnGateway(b, tx, call).state)
  {
    hide B.OnceOnly, D.WellKept, MintsAreBacked, W.Backed;
    B.CallKeepsOnceOnly(b.burning, tx.sender, tx.now, call);
    match call
    case SetRedeemState(h, newState) =>
      AmountsUpdate(b.burning.redeemRecords, h, b.burning.redeemRecords[h].(state := newState));
    case _ =>
  }

  lemma MintGatewayStepIsSolvent(c: Chain, b: Bridge, tx: Tx, call: M.GatewayCall)
    requires Solvent(c, b) && StepMintGateway(b, tx, call).Commit?
    ensures Solvent(c, StepMintGateway(b, tx, call).state)
  {
    hide B.OnceOnly, D.WellKept, MintsAreBacked, W.Backed, M.CallGateway;
  }

  lemma VerifierStepIsSolvent(c: Chain, b: Bridge, tx: Tx)
    requires Solvent(c, b) && (tx.call.OnAttestationVerifier? || tx.call.OnFunctionsVerifier?)
    requires StepVerifier(b, tx).Commit?
    ensures Solvent(c, StepVerifier(b, tx).state)
  {
    hide B.OnceOnly, D.WellKept, MintsAreBacked, W.Backed, A.CallVerifier, F.CallVerifier;
  }

  lemma CommitIsSolvent(c: Chain, b: Bridge, tx: Tx)
    requires Solvent(c, b) && IsExternal(c, b, tx) && Try(c, b, tx).Commit?
    ensures Solvent(c, Try(c, b, tx).state)
  {
    hide Solvent, StepToken, StepRegistry, StepMintGateway, StepMint, StepBurnGateway, StepBurn, StepComplete;
    hide StepVerifier;
    match tx.call
    case OnToken(call) => TokenStepIsSolvent(c, b, tx, call);
    case OnRegistry(call) => RegistryStepIsSolvent(c, b, tx, call);
    case OnMintGateway(call) => MintGatewayStepIsSolvent(c, b, tx, call);
    case MintWithAuthorization(i, a, att) => MintStepIsSolvent(c, b, tx, i, a, att);
    case OnBurnGateway(call) => BurnGatewayStepIsSolvent(c, b, tx, call);
    case Burn(s, m, f, d) => BurnStepIsSolvent(c, b, tx, s, m, f, d);
    case CompleteRedeem(a, att) => CompleteStepIsSolvent(c, b, tx, a, att);
    case _ => VerifierStepIsSolvent(c, b, tx);
  }

  lemma StepIsSolvent(c: Chain, b: Bridge, tx: Tx)
    requires Solvent(c, b) && IsExternal(c, b, tx)
    ensures Solvent(c, Step(c, b, tx))
  {
    hide Solvent, Try;
    if Try(c, b, tx).Commit? {
      CommitIsSolvent(c, b, tx);
      SameButTime(c, Try(c, b, tx).state, tx.now);
    } else {
      SameButTime(c, b, tx.now);
    }
  }

  lemma SameButTime(c: Chain, b: Bridge, now: Uint64)
    requires Solvent(c, b)
    ensures Solvent(c, b.(time := now))
  {
    hide B.OnceOnly, D.WellKept, MintsAreBacked, W.Backed;
  }

  lemma {:induction false} RunIsSolvent(c: Chain, b: Bridge, txs: seq<Tx>)
    requires Solvent(c, b) && IsRun(c, b, txs)
    ensures Solvent(c, Run(c, b, txs))
    decreases |txs|
  {
    hide Solvent, Step;
    if txs != [] {
      StepIsSolvent(c, b, txs[0]);
      RunIsSolvent(c, Step(c, b, txs[0]), txs[1..]);
    }
  }

  /** The bridge as deployed: contracts configured and locked, nothing minted or consumed yet. */
  ghost predicate IsDeployed(c: Chain, b: Bridge) {
    && c.mintGateway != c.burnGateway && GatewayIsOnlyMinter(c, b)
    && b.token.totalSupply == 0 && b.token.balanceOf == map[]
    && b.registry.depositIntents == map[] && b.registry.depositExists == {}
    && b.registry.depositConsumed == {} && b.registry.utxoConsumed == {}
    && b.burning.redeemRecords == map[] && b.burning.redeemIdConsumed == {}
    && b.history.mints == [] && b.history.burns == [] && b.history.redeems == []
    && StartsAsConfigured(b.minting.limiter, b.history.mintEpoch, b.time)
    && StartsAsConfigured(b.burning.limiter, b.history.redeemEpoch, b.time)
  }

  /** The limiter is in the window that its constructor opened. */
  predicate StartsAsConfigured(l: Limiter, epoch: Epoch, now: Uint64) {
    IsConfiguration(l) && l.startedAt <= now && epoch == Epoch(l, 0)
  }

  lemma DeployedIsSolvent(c: Chain, b: Bridge)
    requires IsDeployed(c, b)
    ensures Solvent(c, b)
  {
    assert RecordAmounts(b.burning.redeemRecords) == map[];
  }

  lemma {:induction false} GatewayBurnsAtMost(burns: seq<BurnEntry>, gateway: Address)
    ensures GatewayBurns(burns, gateway) <= BurnedSats(burns)
    ensures GatewayBurns(burns, gateway) == BurnedSats(burns)
        <==> forall e | e in burns && e.spender != gateway :: e.sats == 0
  {
    if burns != [] {
      var n := |burns| - 1;
      GatewayBurnsAtMost(burns[..n], gateway);
      assert forall e :: e in burns <==> e in burns[..n] || e == burns[n];
    }
  }

  /**
    Solvency in every reachable state: the supply is the sum of the balances, and together with
    the amounts of all redeem records it never exceeds the sats of the consumed deposits. It is
    exactly equal when nobody but the burn gateway burned anything, and only then.
   */
  lemma Solvency(c: Chain, b: Bridge, txs: seq<Tx>)
    requires IsDeployed(c, b) && IsRun(c, b, txs)
    ensures var s := Run(c, b, txs);
      && s.token.totalSupply == Sum(s.token.balanceOf)
      && s.token.totalSupply + RedeemedSats(s) <= MintedSats(s.history.mints)
      && (s.token.totalSupply + RedeemedSats(s) == MintedSats(s.history.mints)
          <==> forall e | e in s.history.burns && e.spender != c.burnGateway :: e.sats == 0)
  {
    hide Run, IsRun, IsDeployed;
    DeployedIsSolvent(c, b);
    RunIsSolvent(c, b, txs);
    GatewayBurnsAtMost(Run(c, b, txs).history.burns, c.burnGateway);
  }

  /**
    Backing of every mint: in every reachable state each mint consumed a deposit and a Bitcoin
    output of its own, within the amount policy of the intent stored for that deposit, and a
    consumed deposit or output was consumed by a mint.
   */
  lemma EveryMintIsBacked(c: Chain, b: Bridge, txs: seq<Tx>)
    requires IsDeployed(c, b) && IsRun(c, b, txs)
    ensures MintsAreBacked(Run(c, b, txs).registry, Run(c, b, txs).history.mints)
    ensures var (r, mints) := (Run(c, b, txs).registry, Run(c, b, txs).history.mints);
      forall k | 0 <= k < |mints| ::
        && mints[k].depositId in r.depositIntents
        && var (i, sats) := (r.depositIntents[mints[k].depositId], mints[k].sats);
           && 0 < sats
           && (i.amountMode == EXACT ==> sats == i.expectedSats)
           && (i.amountMode == ANY ==> i.minSats <= sats <= i.maxSats)
  {
    hide Run, IsRun, IsDeployed;
    DeployedIsSolvent(c, b);
    RunIsSolvent(c, b, txs);
    hide Solvent;
    var (r, mints) := (Run(c, b, txs).registry, Run(c, b, txs).history.mints);
    forall k | 0 <= k < |mints|
      ensures mints[k].depositId in r.depositIntents && IsWithin(r.depositIntents[mints[k].depositId], mints[k].sats)
    {
      assert mints[k] in mints;
    }
  }

  /** Exactly-once redemption in every reachable state. */
  lemma EveryRedeemIsOnce(c: Chain, b: Bridge, txs: seq<Tx>, h: Bytes32)
    requires IsDeployed(c, b) && IsRun(c, b, txs)
    ensures var g := Run(c, b, txs).burning;
      && B.OnceOnly(g)
      && (B.StateOf(g, h) == CONSUMED <==> exists id | id in g.redeemIdConsumed :: B.DerivedFrom(g.bridgeDomain, id, h))
  {
    hide Run, IsRun, IsDeployed;
    DeployedIsSolvent(c, b);
    RunIsSolvent(c, b, txs);
    B.ConsumedIffOneIdentifier(Run(c, b, txs).burning, h);
  }
}
