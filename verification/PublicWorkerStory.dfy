/**
  One deposit minted, all of it burned, and its release requested and answered: the chain's part of the
  runs in PublicWorkerScenario.

  The bridge is what the deployment script leaves with the Functions verifier, locked down by its owner
  (Deployment), as the start-up guard wants it for DON custody.
 */
module PublicWorkerStory {
  import opened BridgeTypes
  import opened PublicStore
  import opened PublicWorker
  import opened PublicWorkerExact
  import P = SpendPlan
  import W = WrappedBitcoin
  import D = DepositRegistry
  import B = BurnGateway
  import F = FunctionsVerifier
  import Br = Bridge
  import Dep = Deployment

  const MINT_GATEWAY: Address := 11
  const BURN_GATEWAY: Address := 12
  const USER: Address := 13
  const OWNER: Address := 14
  const RELAYER: Address := 15
  const ROUTER: Address := 16
  const DOMAIN: Bytes32 := Word(0x42)
  const MINT_ID: Bytes32 := Word(31)
  const RELEASE_ID: Bytes32 := Word(32)

  /** When the burn and the deposit intent expire, and the authorizations, all made at time 0. */
  const DEADLINE: Uint64 := 1000
  const TTL: Uint64 := 1200

  /** One redeem: its script, amount, fee budget, and the plan and bytes the adapter comes back with. */
  datatype Story = Story(script: seq<Byte>, amountSats: Uint64, maxMinerFeeSats: Uint64, plan: P.Plan, bytes: seq<Byte>)

  /** All that is asked of the burn and of the plan. */
  ghost predicate Matches(s: Story) {
    && B.IsAllowedDestinationScript(s.script) && s.maxMinerFeeSats < s.amountSats <= MAX_CAP_SATS
    && s.plan.inputs != [] && P.Fits(s.plan) && s.plan.btcNetwork == SIGNET_BTC_NETWORK
    && s.plan.feeSats <= s.maxMinerFeeSats && P.Output(s.script, s.amountSats) in s.plan.outputs
  }

  // ----- The states of the chain -----

  function TheChain(): Br.Chain { Br.Chain(MINT_GATEWAY, BURN_GATEWAY, (digest, signature) => None) }

  const SETTINGS := Dep.Settings(
    false, OWNER, false, OWNER, OWNER, true, DOMAIN, SIGNET_BTC_NETWORK, SEPOLIA_CHAIN_ID, 6, 0, 0, 0, 0,
    Dep.FunctionsMode(ROUTER, 1, Word(33), 300000, [RELAYER]), true, false)

  function AtFirst(): Br.Bridge {
    Dep.LockedDown(TheChain(), Dep.Deployed(TheChain(), SETTINGS, [], 0, 0, 0))
  }

  lemma FirstIsReady()
    ensures Dep.AreAccepted(SETTINGS) && Br.IsDeployed(TheChain(), AtFirst())
    ensures F.IsFresh(AtFirst().verifier.requests)
    ensures AtFirst() == Br.Run(TheChain(), Dep.Deployed(TheChain(), SETTINGS, [], 0, 0, 0),
                                Dep.LockdownTxs(TheChain(), OWNER, 0))
  {
    Dep.LockedDownIsReady(TheChain(), SETTINGS, 0, 0, 0);
    hide Br.Run, Dep.LockdownTxs, Dep.LockedDown;
    Dep.OwnerLocksDown(TheChain(), Dep.Deployed(TheChain(), SETTINGS, [], 0, 0, 0), OWNER);
  }

  /** What the script leaves with --chainlink-only-risk has the ECDSA verifier: the service does not start. */
  lemma ChainlinkOnlyRiskIsRefused(c: Br.Chain, cfg: Config, s: Dep.Settings, signers: seq<Address>,
                                   mintGatewayAt: Uint64, burnGatewayAt: Uint64, now: Uint64)
    requires Dep.AreAccepted(s) && s.chainlinkOnlyRisk
    ensures !HasStarted(c, cfg, Dep.Deployed(c, s, signers, mintGatewayAt, burnGatewayAt, now))
  {
  }

  function TheIntent(s: Story): DepositIntent {
    DepositIntent(USER, Word(4), EXACT, s.amountSats, s.amountSats, s.amountSats, Word(5), DEADLINE)
  }

  function TheDeposit(s: Story): Bytes32 { DepositIdOf(DOMAIN, TheIntent(s)) }

  function TheMint(s: Story): MintAuthorization {
    MintAuthorization(DOMAIN, TheDeposit(s), USER, SIGNET_BTC_NETWORK, Word(4), Word(8), 0, s.amountSats, 6, 100, 0,
                      TTL)
  }

  function TheRequest(s: Story): RedeemRequest {
    RedeemRequest(USER, KeccakBytes(s.script), s.amountSats, s.maxMinerFeeSats, DEADLINE, 0)
  }

  function TheHash(s: Story): Bytes32 { RedeemRequestHash(DOMAIN, TheRequest(s)) }

  function TheRelease(s: Story): ReleaseAuthorization
    requires Matches(s)
  {
    ReleaseAuthorization(
      DOMAIN, TheHash(s), RedeemIdOf(DOMAIN, Word(5), 0, TheHash(s)), SIGNET_BTC_NETWORK, SEPOLIA_CHAIN_ID, Word(5), 0,
      USER,
      KeccakBytes(s.script), s.amountSats, s.maxMinerFeeSats, Word(7), P.InputsCommitment(s.plan.inputs),
      P.OutputsCommitment(s.plan.outputs), P.PsbtPolicyHash(s.plan, Word(7)), 0, TTL)
  }

  function Intended(s: Story): Br.Bridge {
    var b := AtFirst();
    b.(registry := b.registry.(depositExists := {TheDeposit(s)}, depositIntents := map[TheDeposit(s) := TheIntent(s)]))
  }

  /** A request by the relayer, answered or not. */
  function RequestOf(kind: nat, structHash: Bytes32, answered: bool): F.PendingRequest {
    F.PendingRequest(kind, structHash, RELAYER, TTL, true, answered, answered)
  }

  function Asking(b: Br.Bridge, id: Bytes32, kind: nat, structHash: Bytes32): Br.Bridge
    requires b.verifier.Functions?
  {
    var v := b.verifier.requests;
    b.(verifier := Br.Functions(v.(pendingRequests := v.pendingRequests[id := RequestOf(kind, structHash, false)])))
  }

  function Answering(b: Br.Bridge, id: Bytes32, kind: nat, structHash: Bytes32): Br.Bridge
    requires b.verifier.Functions?
  {
    var v := b.verifier.requests;
    b.(verifier := Br.Functions(v.(pendingRequests := v.pendingRequests[id := RequestOf(kind, structHash, true)],
                                   approvedAuthorization := v.approvedAuthorization + {F.ApprovalKey(id, kind,
                                       structHash)})))
  }

  function MintAsked(s: Story): Br.Bridge { Asking(Intended(s), MINT_ID, F.KIND_MINT, MintStructHash(TheMint(s))) }

  function MintAnswered(s: Story): Br.Bridge {
    Answering(MintAsked(s), MINT_ID, F.KIND_MINT, MintStructHash(TheMint(s)))
  }

  function Minted(s: Story): Br.Bridge {
    var b := MintAnswered(s);
    b.(token := b.token.(totalSupply := s.amountSats, balanceOf := map[USER := s.amountSats]),
       registry := b.registry.(depositConsumed := {TheDeposit(s)}, utxoConsumed := {UtxoKey(Word(8), 0)}),
       history := b.history.(mints := [Br.MintEntry(0, TheDeposit(s), Word(8), 0, s.amountSats)]))
  }

  function Approved(s: Story): Br.Bridge {
    var b := Minted(s);
    b.(token := b.token.(allowance := map[(USER, BURN_GATEWAY) := s.amountSats]))
  }

  function Burned(s: Story): Br.Bridge {
    var b := Approved(s);
    b.(token := b.token.(totalSupply := 0, balanceOf := map[USER := 0], allowance := map[(USER, BURN_GATEWAY) := 0]),
       burning := b.burning.(redeemRecords := map[TheHash(s) := B.RedeemRecord(TheRequest(s), BURNED)],
                             nextRedeemNonce := map[USER := 1]),
       history := b.history.(burns := [Br.BurnEntry(BURN_GATEWAY, s.amountSats)],
                             redeems := [Br.RedeemEntry(0, TheHash(s), s.amountSats)]))
  }

  function ReleaseAsked(s: Story): Br.Bridge
    requires Matches(s)
  {
    Asking(Burned(s), RELEASE_ID, F.KIND_RELEASE, ReleaseStructHash(TheRelease(s)))
  }

  function ReleaseAnswered(s: Story): Br.Bridge
    requires Matches(s)
  {
    Answering(ReleaseAsked(s), RELEASE_ID, F.KIND_RELEASE, ReleaseStructHash(TheRelease(s)))
  }

  /** After the completion. */
  function Consumed(s: Story): Br.Bridge
    requires Matches(s)
  {
    var b := ReleaseAnswered(s);
    b.(burning := b.burning.(redeemRecords := map[TheHash(s) := B.RedeemRecord(TheRequest(s), CONSUMED)],
                             redeemIdConsumed := {TheRelease(s).redeemId}))
  }

  // ----- The transactions -----

  function RequestTx(call: F.VerifierCall): Br.Tx { Br.Tx(RELAYER, 0, Br.OnFunctionsVerifier(call)) }

  function AnswerTx(id: Bytes32, kind: nat, structHash: Bytes32): Br.Tx {
    Br.Tx(ROUTER, 0, Br.OnFunctionsVerifier(F.HandleOracleFulfillment(id, Some(F.Response(kind, structHash)), true)))
  }

  function TransactionsOf(s: Story): seq<Br.Tx> {
    [Br.Tx(USER, 0, Br.OnRegistry(D.CreateDepositIntent(TheIntent(s)))),
     RequestTx(F.RequestMintAuthorization(TheMint(s), MINT_ID)),
     AnswerTx(MINT_ID, F.KIND_MINT, MintStructHash(TheMint(s))),
     Br.Tx(RELAYER, 0, Br.MintWithAuthorization(TheIntent(s), TheMint(s), ChainlinkAttestation(MINT_ID))),
     Br.Tx(USER, 0, Br.OnToken(W.Approve(BURN_GATEWAY, s.amountSats))),
     Br.Tx(USER, 0, Br.Burn(s.script, s.amountSats, s.maxMinerFeeSats, DEADLINE))]
  }

  function CompletionBy(s: Story, sender: Address): Br.Tx
    requires Matches(s)
  {
    Br.Tx(sender, 0, Br.CompleteRedeem(TheRelease(s), ChainlinkAttestation(RELEASE_ID)))
  }

  lemma IntentIsStored(s: Story)
    requires Matches(s)
    ensures Br.Step(TheChain(), AtFirst(), TransactionsOf(s)[0]) == Intended(s)
  {
    hide P.Fits, B.IsAllowedDestinationScript, DepositIdOf, MintStructHash;
    var b := AtFirst();
    assert b.registry.depositExists + {TheDeposit(s)} == {TheDeposit(s)};
    assert b.registry.depositIntents[TheDeposit(s) := TheIntent(s)] == map[TheDeposit(s) := TheIntent(s)];
  }

  /** The relayer is permitted; the domain and the time are right. */
  lemma VerifierStays(s: Story)
    requires Matches(s)
    ensures forall b | b in {Intended(s), MintAsked(s), MintAnswered(s), Minted(s), Approved(s), Burned(s)} ::
      && b.verifier.Functions? && b.time == 0 && b.verifier.requests.bridgeDomain == DOMAIN
      && b.verifier.requests.functionsRouter == ROUTER && RELAYER in b.verifier.requests.authorizedRequester
  {
    hide P.Fits, B.IsAllowedDestinationScript, TheDeposit, MintStructHash, TheHash, UtxoKey, F.ApprovalKey;
    assert RELAYER in [RELAYER];
  }

  lemma MintIsRequested(s: Story)
    requires Matches(s)
    ensures Br.Step(TheChain(), Intended(s), TransactionsOf(s)[1]) == MintAsked(s)
    ensures Br.Step(TheChain(), MintAsked(s), TransactionsOf(s)[2]) == MintAnswered(s)
  {
    VerifierStays(s);
    hide P.Fits, B.IsAllowedDestinationScript, MintStructHash, TheDeposit, Intended, F.ApprovalKey;
    var (id, h, v) := (MINT_ID, MintStructHash(TheMint(s)), Intended(s).verifier.requests);
    assert v.pendingRequests[id := RequestOf(F.KIND_MINT, h, false)][id := RequestOf(F.KIND_MINT, h, true)]
      == v.pendingRequests[id := RequestOf(F.KIND_MINT, h, true)];
  }

  lemma DepositIsMinted(s: Story)
    requires Matches(s)
    ensures Br.Step(TheChain(), MintAnswered(s), TransactionsOf(s)[3]) == Minted(s)
  {
    hide P.Fits, B.IsAllowedDestinationScript, DepositIdOf, MintStructHash, UtxoKey, F.ApprovalKey;
    var b := MintAnswered(s);
    assert b.registry.depositConsumed + {TheDeposit(s)} == {TheDeposit(s)};
    assert b.registry.utxoConsumed + {UtxoKey(Word(8), 0)} == {UtxoKey(Word(8), 0)};
    assert b.token.balanceOf[USER := s.amountSats as nat] == map[USER := s.amountSats as nat];
    assert b.history.mints + [Br.MintEntry(0, TheDeposit(s), Word(8), 0, s.amountSats)]
        == [Br.MintEntry(0, TheDeposit(s), Word(8), 0, s.amountSats)];
  }

  lemma BurnIsApproved(s: Story)
    requires Matches(s)
    ensures Br.Step(TheChain(), Minted(s), TransactionsOf(s)[4]) == Approved(s)
  {
    hide P.Fits, B.IsAllowedDestinationScript, DepositIdOf, UtxoKey, MintStructHash, F.ApprovalKey;
    var b := Minted(s);
    assert b.token.allowance[(USER, BURN_GATEWAY) := s.amountSats as nat]
      == map[(USER, BURN_GATEWAY) := s.amountSats as nat];
    assert b.history.burns + [] == b.history.burns;
  }

  lemma TokensAreBurned(s: Story)
    requires Matches(s)
    ensures Br.Step(TheChain(), Approved(s), TransactionsOf(s)[5]) == Burned(s)
  {
    hide P.Fits, B.IsAllowedDestinationScript, DepositIdOf, UtxoKey, RedeemRequestHash, MintStructHash, F.ApprovalKey;
    var b := Approved(s);
    assert Get(b.token.balanceOf, USER) == s.amountSats && Get(b.token.allowance, (USER, BURN_GATEWAY)) == s.amountSats;
    assert b.token.balanceOf[USER := 0] == map[USER := 0];
    assert b.token.allowance[(USER, BURN_GATEWAY) := 0] == map[(USER, BURN_GATEWAY) := 0];
    assert b.burning.redeemRecords[TheHash(s) := B.RedeemRecord(TheRequest(s), BURNED)]
        == map[TheHash(s) := B.RedeemRecord(TheRequest(s), BURNED)];
    assert b.burning.nextRedeemNonce[USER := 1] == map[USER := 1];
    assert b.history.burns + [Br.BurnEntry(BURN_GATEWAY, s.amountSats)] == [Br.BurnEntry(BURN_GATEWAY, s.amountSats)];
    assert b.history.redeems + [Br.RedeemEntry(0, TheHash(s), s.amountSats)]
      == [Br.RedeemEntry(0, TheHash(s), s.amountSats)];
  }

  lemma ReleaseIsRequested(s: Story)
    requires Matches(s)
    ensures Br.Step(TheChain(), Burned(s), RequestTx(F.RequestReleaseAuthorization(TheRelease(s), RELEASE_ID)))
      == ReleaseAsked(s)
    ensures Br.Step(TheChain(), ReleaseAsked(s), AnswerTx(RELEASE_ID, F.KIND_RELEASE, ReleaseStructHash(TheRelease(s))))
      == ReleaseAnswered(s)
  {
    VerifierStays(s);
    ReleaseNames(s);
    hide P.Fits, B.IsAllowedDestinationScript, ReleaseStructHash, TheRelease, Burned, F.ApprovalKey;
    var (id, h, v) := (RELEASE_ID, ReleaseStructHash(TheRelease(s)), Burned(s).verifier.requests);
    assert v.pendingRequests[id := RequestOf(F.KIND_RELEASE, h, false)][id := RequestOf(F.KIND_RELEASE, h, true)]
      == v.pendingRequests[id := RequestOf(F.KIND_RELEASE, h, true)];
  }

  lemma ReleaseNames(s: Story)
    requires Matches(s)
    ensures TheRelease(s).redeemRequestHash == TheHash(s) && TheRelease(s).deadline == TTL
    ensures TheRelease(s).bridgeDomain == DOMAIN
  {
  }

  lemma CompletionIsMined(s: Story, sender: Address)
    requires Matches(s)
    ensures Br.Try(TheChain(), ReleaseAnswered(s), CompletionBy(s, sender)) == Commit(Consumed(s))
    ensures Br.Step(TheChain(), ReleaseAnswered(s), CompletionBy(s, sender)) == Consumed(s)
  {
    hide P.Fits, B.IsAllowedDestinationScript, ReleaseStructHash, RedeemIdOf, RedeemRequestHash, MintStructHash;
    hide P.InputsCommitment, P.OutputsCommitment, P.PsbtPolicyHash, DepositIdOf, UtxoKey, F.ApprovalKey;
    var b := ReleaseAnswered(s);
    assert b.burning.redeemRecords[TheHash(s) := B.RedeemRecord(TheRequest(s), CONSUMED)]
        == map[TheHash(s) := B.RedeemRecord(TheRequest(s), CONSUMED)];
    assert b.burning.redeemIdConsumed + {TheRelease(s).redeemId} == {TheRelease(s).redeemId};
  }

  // ----- The service -----

  function TheConfig(s: Story): Config {
    Config(CHAINLINK_DON, s.amountSats, s.maxMinerFeeSats, Word(7), TTL, DOMAIN, SIGNET_BTC_NETWORK, SEPOLIA_CHAIN_ID,
           RELAYER,
           0, 0, 500, 20)
  }

  /** What the guard looks at is the same all along. */
  lemma ServiceStarts(s: Story)
    requires Matches(s)
    ensures forall b | b in {AtFirst(), Intended(s), Burned(s), ReleaseAsked(s), ReleaseAnswered(s), Consumed(s)} ::
      HasStarted(TheChain(), TheConfig(s), b) && b.time == 0
  {
    hide P.Fits, B.IsAllowedDestinationScript, TheDeposit, MintStructHash, TheHash, UtxoKey, F.ApprovalKey, TheRelease,
      ReleaseStructHash;
    assert RELAYER in [RELAYER];
  }

  lemma {:induction false} DestinationIsFound(a: ReleaseAuthorization, outputs: seq<P.Output>, o: P.Output)
    requires o in outputs && P.IsDestination(a, o)
    ensures P.FindDestination(a, outputs).Some?
  {
    if o != outputs[0] {
      DestinationIsFound(a, outputs[1..], o);
    }
  }

  function TheEvent(s: Story): RedeemEvent {
    RedeemEvent(TheHash(s), USER, Word(5), 0, Word(6), 0, KeccakBytes(s.script), s.script, 0, s.amountSats,
                s.maxMinerFeeSats, DEADLINE)
  }

  lemma ReleaseIsBuilt(s: Story)
    requires Matches(s)
    ensures BuildReleaseAuthorization(TheConfig(s), TheEvent(s), s.plan, 0) == Some(TheRelease(s))
  {
    hide P.Fits, P.InputsCommitment, P.OutputsCommitment, P.PsbtPolicyHash, P.FindDestination, RedeemIdOf,
      B.IsAllowedDestinationScript;
    DestinationIsFound(TheRelease(s), s.plan.outputs, P.Output(s.script, s.amountSats));
  }
}
