/**
  The two calls in which a gateway asks its verifier, on the contract objects.

  A verifier is asked by a view call, whose revert is the gateway's. Where the gateway itself refuses
  before it asks, its own error stands, whatever the verifier would have said.
 */
module GatewayCalls {
  import opened BridgeTypes
  import M = MintGateway
  import B = BurnGateway
  import A = AttestationVerifier
  import F = FunctionsVerifier
  import Br = Bridge

  datatype VerifierContract =
    | EcdsaContract(ecdsa: A.AttestationVerifierContract)
    | FunctionsContract(functions: F.FunctionsVerifierContract)

  function StateOf(v: VerifierContract): Br.Verifier
    reads match v
          case EcdsaContract(e) => {e as object, e.ownable}
          case FunctionsContract(f) => {f as object, f.ownable}
  {
    match v
    case EcdsaContract(e) => Br.Ecdsa(e.State())
    case FunctionsContract(f) => Br.Functions(f.State())
  }

  ghost predicate RecoversAs(v: VerifierContract, c: Br.Chain) { v.EcdsaContract? ==> v.ecdsa.recover == c.recover }

  method MintWithAuthorization(c: Br.Chain, gateway: M.MintGatewayContract, verifier: VerifierContract, now: Uint64,
                               i: DepositIntent, a: MintAuthorization, att: Attestation) returns (error: Option<Error>)
    requires RecoversAs(verifier, c)
    modifies gateway, gateway.limiter, gateway.registry, gateway.token
    ensures Did(M.MintWithAuthorization(old(gateway.Around()), gateway.self, now, i, a,
                                        Br.VerifyMint(c, old(StateOf(verifier)), now, a, att)),
                old(gateway.Around()), gateway.Around(), error)
  {
    var verdict;
    match verifier {
      case EcdsaContract(e) => verdict := e.VerifyMintAuthorization(now, a, att);
      case FunctionsContract(f) => verdict := f.VerifyMintAuthorization(now, a, att);
    }
    error := gateway.Mint(now, i, a, verdict);
  }

  method CompleteRedeemWithAuthorization(c: Br.Chain, gateway: B.BurnGatewayContract, verifier: VerifierContract,
                                         now: Uint64,
                                         a: ReleaseAuthorization, att: Attestation) returns (error: Option<Error>)
    requires RecoversAs(verifier, c)
    modifies gateway
    ensures Did(B.Complete(old(gateway.State()), a, Br.VerifyRelease(c, old(StateOf(verifier)), now, a, att)),
                old(gateway.State()), gateway.State(), error)
  {
    var verdict;
    match verifier {
      case EcdsaContract(e) => verdict := e.VerifyReleaseAuthorization(now, a, att);
      case FunctionsContract(f) => verdict := f.VerifyReleaseAuthorization(now, a, att);
    }
    error := gateway.CompleteRedeem(a, verdict);
  }
}
