# Bitcoin bridge: verification model

This project models a bridge between Bitcoin and an EVM chain and proves properties of the model with Dafny 4.11.
`dafny verify dfyconfig.toml` checks all of it. Nothing here runs the bridge.

The model has five parts, each with its own modules.

1. **The contracts.** `Ownable`, `RateLimiter`, `WrappedBitcoin`, `DepositRegistry`, `MintGateway`, `BurnGateway`,
   `AttestationVerifier` and `FunctionsVerifier` hold one contract each: a class with the contract's fields, whose methods
   commit or roll back, and the transition function they are proved against. `Bridge` puts them together under arbitrary
   transactions by arbitrary senders, `BridgeCommits` says exactly when value moves and why it does not, `BridgeRuns` proves what holds over
   whole runs, and `BridgeAuthority` who stands behind every mint and completion of a run. `Deployment` is the deployment
   script, and leaves what these theorems start from; `GatewayCalls` has the two calls in which a gateway asks its verifier.
   `BridgeTypes` holds the shared structures and hashes, and `AbiHashes` decodes them by the off-chain programs' type lists.
2. **Keccak-256 and UTF-8** as written by hand for the mint source: `Utf8`, `KeccakLanes`, `Keccak256`, against RFC 3629 and
   the bit relations of FIPS 202 in `Fips202` and `Keccak256Sponge`.
3. **Codecs**: `BitGroups`, `Bech32Checksum` and `SegwitAddress` with `BitStrings`, `Bech32Polynomial` and `CodeUnits` for what
   BIP-173 and BIP-350 say of bits, polynomials and character codes; `Abi` (Solidity ABI), `Cbor` and `CborRequest`
   (RFC 8949), `CanonicalJson` with `JsonReader` (RFC 8259).
4. **Release signing**: `SpendPlan`, `PlanDigest` and `PlanText` for what an authorization commits to, `AttestationIngest` for
   attestations off the chain, `ReleaseSigner` for the signer with its durable reservations under concurrent processes.
5. **The worker**: one process over its store, with crashes and unanswered calls, composed with the contracts of part 1.
   `PublicStore` and `RedeemScan` are its store and scan, `PublicWorker` the machine, `PublicWorkerPasses` and
   `PublicWorkerScans` its loops as code and as runs of the machine, `PublicWorkerRuns` what holds over all runs,
   `PublicWorkerGuards` what every change of a status needs,
   `PublicWorkerAuthority` who stands behind what is sent, and `PublicWorkerPayouts` who pays for it. `PublicWorkerExact` has
   the runs that a started service makes on exact replies; `PublicWorkerStory` and `PublicWorkerScenario` build such runs, and
   `PublicWorkerSettlement` and `PublicWorkerUnpaid` say when a consumed redeem is paid and when it never is.

The parts meet in `PublicWorkerRuns`: a raw Bitcoin transaction is sent only for a burn that the chain has consumed, always
the same one, and its plan pays what was burned. `PublicWorkerPayouts` says who pays for it: deposits cover supply and
redeemed amounts exactly, and fees and other outputs only as far as there are unpaid redeems and burns without a redeem.

Where the code falls short of what one would expect of it, the model keeps the code and says exactly when it does not: the
padding is pad10*1 unless the length is 135 modulo 136 (`Keccak256.PaddingIsPad10Star1`); two conflicting releases of one
redeem can be signed exactly when their texts of its identifier differ
(`ReleaseSigner.ConflictIsSignedIffSpelledDifferently`), which they can when it has a letter
(`ReleaseSigner.HasTwoSpellingsIffLetter`); a hex argument of a Functions request survives exactly when it has an even
number of digits (`Abi.HexSurvivesIffEven`); a high surrogate is accepted at the end of a text only
(`Utf8.ThrowsOnSplitPair`); miner fees are covered by deposits exactly as far as unpaid redeems and outside burns reach
(`PublicWorkerPayouts.PayoutsAreFundedIff`, with a run where they are not); the fee budget, the sixth of the documented
signing conditions, holds of every plan that a PSBT spends, and of an adapter's plan, whose fee
docs/don-custody-interface-v1.md:56 leaves to the custody service, exactly when it declares all that it does not pay out
(`PublicWorkerPayouts.FeeStaysInBudgetIff`); a consumed redeem with an approved request is paid exactly when the worker
asks at or before both deadlines, and one that the worker completed itself exactly when the completion it remembers
succeeded (`PublicWorkerSettlement.ConsumedIsPaidIff` and `PublicWorkerSettlement.SubmittedIsPaidIff`, with runs where
neither is so in `PublicWorkerUnpaid`); the change policy, the seventh of the signing conditions, is hashed but never
evaluated, so that any further output is accepted (`PublicWorkerPayouts.OtherOutputsAreFree`); and
docs/public-testnet-runbook.md:27 wants a deployment with --chainlink-only-risk for DON custody, which has a verifier that
the service does not start with (`PublicWorkerStory.ChainlinkOnlyRiskIsRefused`).

Assumptions used throughout: keccak256 is collision-free (hashes are free constructors over what they hash; the Keccak
modules do not use this); block timestamps stay below 2^64 and never run backwards; signature recovery is an arbitrary
function; finalized blocks do not change and mined transactions stay mined.

## Model

| member | source | states |
|---|---|---|
| Bridge.Solvency | contracts/WrappedBitcoin.sol:97-160 | In every state reachable from deployment, by any senders: the supply is the sum of the balances; supply plus the amounts of all redeem records is at most the sats of all consumed deposits; equality holds exactly when nobody but the burn gateway burned anything |
| Bridge.StepIsSolvent | contracts/MintGateway.sol:70-128 | One transaction of any kind, committed or reverted, keeps the solvency invariant across the four contracts |
| Bridge.EveryMintIsBacked | contracts/DepositRegistry.sol:66-113 | Every mint consumed a deposit and a Bitcoin output of its own and nothing else was consumed; its sats are nonzero, the expected ones of an EXACT intent, and from minSats to maxSats of an ANY one, for the intent stored under its identifier |
| Bridge.EveryRedeemIsOnce | contracts/BurnGateway.sol:130-187 | In every reachable state a record is CONSUMED exactly when a consumed identifier was derived from it, whatever transaction hash and log index it names |
| BridgeRuns.RunSettles | contracts/BurnGateway.sol:189-245 | Over every run a record keeps its request and its state only settles; consumed records and identifiers stay consumed |
| BridgeRuns.SupplyNeedsAuthorization | contracts/MintGateway.sol:70-128 | The supply grows only by a mint whose authorization the verifier accepts at that moment, and by exactly its sats |
| BridgeRuns.ConsumptionNeedsAuthorization | contracts/BurnGateway.sol:130-187 | A record becomes CONSUMED only from BURNED, by a completion the verifier accepts then and that repeats requester, script, amount and fee budget of the burn |
| BridgeRuns.MintsAreRateLimited | contracts/MintGateway.sol:147-180 | In every run from deployment, since the limit was last configured: at most twice the limit is minted in any window length, and at most limit * (t / window + 1) in the first t seconds |
| BridgeRuns.RedeemsAreRateLimited | contracts/BurnGateway.sol:247-280 | The same bounds for the sats burned into redeem requests |
| BridgeRuns.LockdownIsPermanent | contracts/utils/Ownable.sol:30-62 | Once minter and consumer are locked and every owner renounced, no run of calls changes an owner, a lock, a limit, a pause flag, the confirmation minimum or the signer configuration |
| BridgeCommits.MintCommitsIff | contracts/MintGateway.sol:70-145 | In every reachable state a mint commits exactly for a timely, authorized, unused deposit that repeats its stored intent, with sats equal to expectedSats (EXACT) or from minSats to maxSats (ANY), all nonzero, and room in limit and supply; the permission and zero-address checks further on cannot fail |
| BridgeCommits.MintChanges | contracts/MintGateway.sol:70-128 | A committed mint changes supply, one balance, the two consumed sets and the limiter, by these amounts, and nothing else |
| BridgeCommits.BurnCommitsIff | contracts/BurnGateway.sol:68-128 | In every reachable state a burn commits exactly for a script 00 14, 00 20 or 51 20 of its full length, a timely request with a nonzero amount above its fee, and room in nonce, limit, allowance and balance |
| BridgeCommits.BurnChanges | contracts/BurnGateway.sol:68-128 | A committed burn takes supply and one balance, uses up one allowance unless it is the maximal one, fills or reopens the limit window, uses up the nonce, and files one new record with the fields of the burn and the hash of its script; nothing else changes |
| BridgeCommits.CompletionCommitsIff | contracts/BurnGateway.sol:130-187 | In every reachable state a completion commits exactly for an accepted authorization that repeats a burned request; the consumed-identifier check never refuses |
| BridgeCommits.CompletionChanges | contracts/BurnGateway.sol:130-187 | A committed completion adds one identifier and marks one record CONSUMED, keeping its request, and changes nothing else |
| BridgeCommits.MintRefusal | contracts/MintGateway.sol:70-180 | A refused mint reverts with the error of the first check that fails, in the contract's order: gateway, verifier, limit, registry, supply |
| BridgeCommits.BurnRefusal | contracts/BurnGateway.sol:68-128 | A refused burn reverts with the error of the first check that fails, down to allowance and balance |
| BridgeCommits.CompletionRefusal | contracts/BurnGateway.sol:130-187 | A refused completion reverts with the error of the first check that fails; the verifier's error counts only when the burn is repeated |
| AbiHashes.MintDecodes | scripts/lib/bridge.js:7-39 | What a mint struct hash hashes is decoded, by the off-chain type list, to the authorization |
| AbiHashes.ReleaseDecodes | scripts/lib/bridge.js:11-43 | What a release struct hash hashes is decoded, by the off-chain type list, to the authorization |
| AbiHashes.IdentifiersDecode | scripts/lib/bridge.js:15-51 | Behind the domain, the words of a deposit identifier and a request hash decode, by the off-chain type lists, to intent and request |
| AbiHashes.KeysAreAbi | contracts/libraries/BridgeHasher.sol:16-40 | Redeem identifiers and output keys hash the ABI encoding of their parts in order |
| AbiHashes.PlanHashesDecode | scripts/lib/bridge.js:27-69 | Input leaves decode to the input; the policy hash to fee, version in two's complement, lock time, sighash type and change policy |
| AbiHashes.CommitmentsAreAbi | scripts/lib/bridge.js:80-86 | Both commitments hash the ABI encoding of the list of leaves, one for each input or output in order |
| AbiHashes.SignerSetIsAbi | scripts/lib/bridge.js:33-35 | The signer set digest hashes the ABI encoding of the list and the threshold |
| AbiHashes.SignedTextsAreSpelled | contracts/libraries/ECDSA.sol:42-44 | What signers sign is the digest of context, domain, struct hash and signer set under the prefix of signed messages, both texts character by character |
| BridgeAuthority.RunKeepsSigners | contracts/AttestationVerifier.sol:74-101 | Over every run of transactions, however often the signer set is replaced, mapping, list, threshold and digest stay in step |
| BridgeAuthority.MintWasSigned | contracts/MintGateway.sol:70-128 | In every run each entry of the mint history has its transaction, whose attestation held signatures of threshold or more distinct signers of the set current at that moment |
| BridgeAuthority.CompletionWasSigned | contracts/BurnGateway.sol:130-187 | The same of every consumed record: its completion carried a quorum of the signers current then |
| BridgeAuthority.AuthorizationsShareASigner | contracts/AttestationVerifier.sol:103-139 | Under a renounced majority set any two mints or completions of a run carry signatures of one common signer |
| BridgeAuthority.MintWasRequested | contracts/ChainlinkFunctionsVerifier.sol:139-259 | With the Functions verifier each mint of a run has behind it an earlier request for exactly its authorization, by an account permitted then, and the router's answer before the deadline |
| BridgeAuthority.CompletionWasRequested | contracts/ChainlinkFunctionsVerifier.sol:139-259 | The same of every consumed record |
| BridgeAuthority.RunOfVerifier | contracts/ChainlinkFunctionsVerifier.sol:98-239 | The Functions verifier's part of a bridge run is the run of the verifier on the calls that reach it |
| Deployment.Deploy | scripts/deploy.js:141-385 | For either verifier and all options: the script refuses exactly these settings, and otherwise leaves exactly this bridge; with --chainlink-only-risk it is where the theorems over runs start: gateway locked in, owners renounced, a fixed majority |
| Deployment.Configure | scripts/deploy.js:361-376 | The gateway becomes minter and consumer, nothing else changes |
| Deployment.Lock | scripts/deploy.js:374-375 | It is locked in token and registry, nothing else changes |
| Deployment.OwnerLocksDown | contracts/utils/Ownable.sol:44-50 | Seven transactions of the owner take a configured bridge with the Functions verifier to the locked-down one, which the script itself does not do for it |
| Deployment.LockedDownIsReady | scripts/lib/public-testnet-runtime-guard.js:93-122 | There the theorems over runs start too |
| Deployment.Renounce | scripts/deploy.js:378-381 | All five owners are renounced, and nothing else of the contracts changes |
| BridgeTypes.DepositIdIsInjective | contracts/libraries/BridgeHasher.sol:9-14 | The deposit identifier commits to the domain and to every field of the intent |
| BridgeTypes.RedeemRequestHashIsInjective | contracts/libraries/BridgeHasher.sol:26-31 | The redeem request hash commits to the domain and to every field of the request |
| BridgeTypes.MintStructHashBinds | contracts/libraries/BridgeHasher.sol:20-24 | A mint struct hash commits to every field |
| BridgeTypes.StructHashesDiffer | contracts/libraries/BridgeHasher.sol:20-46 | No mint struct hash is a release struct hash: 12 words against 17 |
| BridgeTypes.ReleaseStructHashBinds | contracts/libraries/BridgeHasher.sol:42-46 | A release struct hash commits to every field |
| BridgeTypes.AuthorizationDigestBinds | contracts/libraries/BridgeHasher.sol:48-50 | The authorization digest commits to domain, struct hash and signer set digest |
| BridgeTypes.RedeemIdBinds | contracts/libraries/BridgeHasher.sol:33-40 | The redeem identifier commits to domain, burn transaction, log index and request hash |
| BridgeTypes.UtxoKeyBinds | contracts/libraries/BridgeHasher.sol:16-18 | The output key commits to transaction and index |
| Ownable.RenouncedForever | contracts/utils/Ownable.sol:44-62 | Once renounced, every owner call by a nonzero caller reverts |
| Ownable.OwnershipMovesInTwoSteps | contracts/utils/Ownable.sol:30-62 | The owner changes only to the account the owner named and that then accepted, or to none by the owner; only the owner names a successor |
| Ownable.OwnerCallsMean | contracts/utils/Ownable.sol:30-62 | Who may make each of the four calls, and owner and pending owner afterwards |
| Ownable.OwnableContract.TransferOwnership | contracts/utils/Ownable.sol:30-37 | The call on the object commits or reverts exactly as the state function of which the laws above are proved |
| Ownable.OwnableContract.CancelOwnershipTransfer | contracts/utils/Ownable.sol:39-42 | The call on the object commits or reverts exactly as the state function of which the laws above are proved |
| Ownable.OwnableContract.RenounceOwnership | contracts/utils/Ownable.sol:44-50 | The call on the object commits or reverts exactly as the state function of which the laws above are proved |
| Ownable.OwnableContract.AcceptOwnership | contracts/utils/Ownable.sol:52-62 | The call on the object commits or reverts exactly as the state function of which the laws above are proved |
| RateLimiter.TwiceTheLimit | contracts/MintGateway.sol:160-180 | With nondecreasing times, the lazy window admits at most twice the limit in any interval of one window length, however requests are placed |
| RateLimiter.BoundFromTheStart | contracts/BurnGateway.sol:260-280 | From the start of an open window, at most limit * (t / window + 1) minus what was already used is admitted in t seconds |
| RateLimiter.LimiterContract.Set | contracts/MintGateway.sol:147-158 | Setting a limit refuses half-configured pairs and opens a fresh window |
| RateLimiter.LimiterContract.Use | contracts/MintGateway.sol:160-180 | Consuming refreshes an expired window lazily and leaves the limiter as it was when it reverts |
| RateLimiter.FixedWindowCounter.Allow | scripts/lib/public-testnet-cost-limiter.js:36-47 | The keyed counter, with denied calls counted too, leaves the buckets and answers as the state function says |
| RateLimiter.CounterRefinesLimiter | scripts/lib/public-testnet-cost-limiter.js:29-48 | For each key the counter lets through what the contracts' limiter would admit at one sat a call |
| RateLimiter.CounterBound | scripts/lib/public-testnet-cost-limiter.js:29-48 | With a clock that does not run backwards a key gets through at most twice its limit in any window length |
| RateLimiter.CallIsCounted | scripts/lib/public-testnet-cost-limiter.js:36-47 | A call gets through exactly when there is a positive limit and fewer calls than that came before it in the key's open bucket; every call counts, and one at or after the reset opens a bucket |
| WrappedBitcoin.CallKeepsBacking | contracts/WrappedBitcoin.sol:71-160 | Every committed call keeps supply equal to the sum of balances and changes the supply by exactly what was minted or burned, so no unchecked subtraction wraps |
| WrappedBitcoin.TransfersNeverOverflow | contracts/WrappedBitcoin.sol:130-146 | With backed balances the overflow check of a transfer never fires |
| WrappedBitcoin.LockedMinterStays | contracts/WrappedBitcoin.sol:43-69 | A locked minter is the only one who can mint, and no call unlocks or replaces it |
| WrappedBitcoin.WrappedBitcoinContract.SetMinter | contracts/WrappedBitcoin.sol:43-53 | The token object commits the new balances, supply, allowance and lock fields, or reverts with this error and no change, as the transition function of the laws above |
| WrappedBitcoin.WrappedBitcoinContract.LockMinter | contracts/WrappedBitcoin.sol:55-69 | The token object commits the new balances, supply, allowance and lock fields, or reverts with this error and no change, as the transition function of the laws above |
| WrappedBitcoin.WrappedBitcoinContract.Transfer | contracts/WrappedBitcoin.sol:71-74 | The token object commits the new balances, supply, allowance and lock fields, or reverts with this error and no change, as the transition function of the laws above |
| WrappedBitcoin.WrappedBitcoinContract.Approve | contracts/WrappedBitcoin.sol:76-80 | The token object commits the new balances, supply, allowance and lock fields, or reverts with this error and no change, as the transition function of the laws above |
| WrappedBitcoin.WrappedBitcoinContract.TransferFrom | contracts/WrappedBitcoin.sol:82-95 | The token object commits the new balances, supply, allowance and lock fields, or reverts with this error and no change, as the transition function of the laws above |
| WrappedBitcoin.WrappedBitcoinContract.Mint | contracts/WrappedBitcoin.sol:97-114 | The token object commits the new balances, supply, allowance and lock fields, or reverts with this error and no change, as the transition function of the laws above |
| WrappedBitcoin.WrappedBitcoinContract.BurnFrom | contracts/WrappedBitcoin.sol:116-128 | The token object commits the new balances, supply, allowance and lock fields, or reverts with this error and no change, as the transition function of the laws above |
| WrappedBitcoin.WrappedBitcoinContract.TransferInternal | contracts/WrappedBitcoin.sol:130-146 | The token object commits the new balances, supply, allowance and lock fields, or reverts with this error and no change, as the transition function of the laws above |
| WrappedBitcoin.WrappedBitcoinContract.BurnInternal | contracts/WrappedBitcoin.sol:148-160 | The token object commits the new balances, supply, allowance and lock fields, or reverts with this error and no change, as the transition function of the laws above |
| WrappedBitcoin.TransferMoves | contracts/WrappedBitcoin.sol:71-74 | A transfer commits exactly for a nonzero payee and a sufficient balance of the sender; every balance is the old one, less the amount for the sender, plus the amount for the payee; supply and allowances stay |
| WrappedBitcoin.ApproveSets | contracts/WrappedBitcoin.sol:76-80 | One allowance, of the sender for the spender, is set, and nothing else changes |
| WrappedBitcoin.TransferFromMoves | contracts/WrappedBitcoin.sol:82-95 | As a transfer, with the allowance of payer for caller at least the amount before and lower by it after, unless it was the maximal one |
| WrappedBitcoin.BurnFromTakes | contracts/WrappedBitcoin.sol:116-160 | The amount leaves one balance and the supply, with the allowance needed and used up in the same way |
| WrappedBitcoin.MintAdds | contracts/WrappedBitcoin.sol:97-114 | The locked minter, or before locking any minter, adds an amount that fits to one balance and the supply |
| WrappedBitcoin.MintersAreTheOwners | contracts/WrappedBitcoin.sol:43-69 | The owner alone, and only before locking, adds or removes one minter or locks one in |
| DepositRegistry.CallKeepsRegistry | contracts/DepositRegistry.sol:42-113 | No call replaces a stored intent, and consumed deposits and outputs stay consumed |
| DepositRegistry.IntentIsCreatedOnce | contracts/DepositRegistry.sol:66-88 | A created intent is refused ever after, by whom and whenever, and its identifier belongs to no other intent |
| DepositRegistry.IntentIsStored | contracts/DepositRegistry.sol:66-163 | An intent is stored exactly when recipient, address, expiry and amounts are valid for its mode and it is not stored yet; its identifier then names it and nothing else changes |
| DepositRegistry.DepositIsConsumed | contracts/DepositRegistry.sol:90-113 | The locked consumer, or before locking any consumer, uses up exactly a stored, unused deposit with an unused output |
| DepositRegistry.ConsumersAreTheOwners | contracts/DepositRegistry.sol:42-64 | The owner alone, and only before locking, adds or removes one consumer or locks one in |
| DepositRegistry.DepositRegistryContract.SetAuthorizedConsumer | contracts/DepositRegistry.sol:42-48 | The registry object commits or reverts exactly as the transition function of the laws above; a refused intent is refused for the contract's reasons |
| DepositRegistry.DepositRegistryContract.LockAuthorizedConsumer | contracts/DepositRegistry.sol:50-64 | The registry object commits or reverts exactly as the transition function of the laws above; a refused intent is refused for the contract's reasons |
| DepositRegistry.DepositRegistryContract.CreateDepositIntent | contracts/DepositRegistry.sol:66-88 | The registry object commits or reverts exactly as the transition function of the laws above; a refused intent is refused for the contract's reasons |
| DepositRegistry.DepositRegistryContract.ConsumeDeposit | contracts/DepositRegistry.sol:90-113 | The registry object commits or reverts exactly as the transition function of the laws above; a refused intent is refused for the contract's reasons |
| DepositRegistry.DepositRegistryContract.ValidateIntent | contracts/DepositRegistry.sol:140-163 | The registry object commits or reverts exactly as the transition function of the laws above; a refused intent is refused for the contract's reasons |
| MintGateway.MintGatewayContract.SetMintPaused | contracts/MintGateway.sol:53-56 | The owner call commits or reverts exactly as the gateway's transition function |
| MintGateway.MintGatewayContract.SetMinimumConfirmations | contracts/MintGateway.sol:58-64 | The owner call commits or reverts exactly as the gateway's transition function |
| MintGateway.MintGatewayContract.SetMintLimit | contracts/MintGateway.sol:66-68 | The owner call commits or reverts exactly as the gateway's transition function |
| MintGateway.MintGatewayContract.EnforceAmountPolicy | contracts/MintGateway.sol:130-145 | Accepts exactly the nonzero expected amount of an EXACT intent, and any amount from a nonzero minSats to maxSats of an ANY one |
| MintGateway.OwnerSets | contracts/MintGateway.sol:53-68 | The owner alone sets the pause flag, a nonzero minimum of confirmations, and a limit with both numbers or neither; nothing else changes |
| BurnGateway.BurnGatewayContract.SetBurnPaused | contracts/BurnGateway.sol:59-62 | The owner call commits or reverts exactly as the gateway's transition function |
| BurnGateway.BurnGatewayContract.SetRedeemLimit | contracts/BurnGateway.sol:64-66 | The owner call commits or reverts exactly as the gateway's transition function |
| BurnGateway.BurnGatewayContract.SetRedeemState | contracts/BurnGateway.sol:189-202 | The owner call commits or reverts exactly as the gateway's transition function |
| BurnGateway.BurnGatewayContract.Burn | contracts/BurnGateway.sol:68-128 | A burn commits nonce, limit, record and token together or undoes them all, with the contract's error |
| BurnGateway.ConsumedIffOneIdentifier | contracts/BurnGateway.sol:130-187 | A request is consumed exactly when a consumed identifier was derived from it, and then from one identifier only |
| BurnGateway.BurnNeverFindsDuplicate | contracts/BurnGateway.sol:94-115 | The per-requester nonce makes every new request hash new: the duplicate check never fires |
| BurnGateway.BurnKeepsOnceOnly | contracts/BurnGateway.sol:68-128 | A burn keeps the exactly-once invariant |
| BurnGateway.CompleteKeepsOnceOnly | contracts/BurnGateway.sol:130-187 | A completion keeps the exactly-once invariant |
| BurnGateway.CallKeepsOnceOnly | contracts/BurnGateway.sol:189-202 | Owner calls keep the exactly-once invariant |
| BurnGateway.OwnerTransitionsDescend | contracts/BurnGateway.sol:230-245 | The owner can move no record into or out of CONSUMED, and only downwards in rank |
| BurnGateway.OwnerSets | contracts/BurnGateway.sol:59-66 | The owner alone sets the pause flag, and a limit with both numbers or neither; nothing else changes |
| BurnGateway.OwnerSettles | contracts/BurnGateway.sol:189-245 | The owner alone cancels a BURNED record, or resolves a BURNED or CANCELLED one by hand; one state changes and no request |
| GatewayCalls.MintWithAuthorization | contracts/MintGateway.sol:70-128 | A mint checks in the contract's order, asks the verifier contract, and either commits gateway, registry and token together or rolls all three back |
| GatewayCalls.CompleteRedeemWithAuthorization | contracts/BurnGateway.sol:130-187 | A completion asks the verifier contract and consumes record and identifier together, or reverts with the contract's error and no change |
| AttestationVerifier.AttestationVerifierContract.VerifyMintAuthorization | contracts/AttestationVerifier.sol:35-50 | Domain, deadline and signatures are checked as the view function says |
| FunctionsVerifier.FunctionsVerifierContract.VerifyMintAuthorization | contracts/ChainlinkFunctionsVerifier.sol:169-183 | Domain, deadline and approval are checked as the view function says |
| AttestationVerifier.AttestationVerifierContract.SetSignerSet | contracts/AttestationVerifier.sol:31-33 | Only the owner replaces the signer set |
| AttestationVerifier.AttestationVerifierContract.SetSignerSetInternal | contracts/AttestationVerifier.sol:74-101 | Clearing and filling the mapping and the list replaces the set exactly, and undoes everything when a signer is refused |
| AttestationVerifier.AttestationVerifierContract.Verify | contracts/AttestationVerifier.sol:103-139 | The nested loops over signatures answer as the recursive check does |
| AttestationVerifier.CallKeepsConsistent | contracts/AttestationVerifier.sol:74-101 | A committed call, by anyone, keeps authorizedSigner exactly the current strictly increasing list, and digest and threshold theirs |
| AttestationVerifier.SignerSetIsReplaced | contracts/AttestationVerifier.sol:31-101 | The owner alone replaces the set, exactly by pairwise increasing nonzero signers and a threshold from 1 to their number; the mapping then holds for just these |
| AttestationVerifier.AuthorizationIsAccepted | contracts/AttestationVerifier.sol:35-67 | An authorization is accepted exactly when its domain is the verifier's, its deadline has not passed and a quorum signed its struct hash |
| AttestationVerifier.AcceptedIffQuorum | contracts/AttestationVerifier.sol:103-139 | An attestation is accepted exactly when it names the current set and all its signatures, threshold or more, come from distinct authorized signers |
| AttestationVerifier.QuorumSize | contracts/AttestationVerifier.sol:103-139 | Behind an accepted attestation stand at least threshold distinct current signers |
| AttestationVerifier.QuorumsIntersect | contracts/AttestationVerifier.sol:74-139 | With a strict-majority threshold any two accepted attestations share a signer |
| FunctionsVerifier.FunctionsVerifierContract.RequestAuthorization | contracts/ChainlinkFunctionsVerifier.sol:210-239 | The object records, fulfils or checks a request exactly as the transition function of the soundness theorem |
| FunctionsVerifier.FunctionsVerifierContract.HandleOracleFulfillment | contracts/ChainlinkFunctionsVerifier.sol:139-167 | The object records, fulfils or checks a request exactly as the transition function of the soundness theorem |
| FunctionsVerifier.FunctionsVerifierContract.VerifyApprovedRequest | contracts/ChainlinkFunctionsVerifier.sol:241-259 | The object records, fulfils or checks a request exactly as the transition function of the soundness theorem |
| FunctionsVerifier.AlwaysSound | contracts/ChainlinkFunctionsVerifier.sol:139-259 | In every reachable state each request was made by a permitted account and each approval is fulfilled and filed under its own key |
| FunctionsVerifier.AcceptanceIsJustified | contracts/ChainlinkFunctionsVerifier.sol:241-259 | An accepted attestation names a request that a permitted account made for exactly this struct hash and that the router answered in time; the last check never refuses |
| FunctionsVerifier.KindsDoNotMix | contracts/ChainlinkFunctionsVerifier.sol:169-199 | An attestation accepted for a mint is refused for every release, and the other way round |
| FunctionsVerifier.RequestIsRecorded | contracts/ChainlinkFunctionsVerifier.sol:97-239 | A request is recorded exactly for this domain, in time and by a permitted account, with kind 1 or 2, struct hash, requester and deadline, neither fulfilled nor approved |
| FunctionsVerifier.FulfillmentIsRecorded | contracts/ChainlinkFunctionsVerifier.sol:139-167 | Only the router fulfils and only a recorded request, which is approved as well exactly by an answer in time, without error, that repeats kind and struct hash |
| FunctionsVerifier.OwnerConfigures | contracts/ChainlinkFunctionsVerifier.sol:85-280 | The owner alone sets a configuration without zeros and adds or removes a nonzero requester |
| FunctionsVerifier.AuthorizationIsAccepted | contracts/ChainlinkFunctionsVerifier.sol:169-259 | An authorization is accepted exactly when its domain is the verifier's, its deadline has not passed and the attestation names a request approved for its kind and struct hash |
| KeccakLanes.KeccakF1600 | chainlink/functions/mint-authorization.js:97-129 | The in-place nested loops leave in the array the 24 rounds of theta, rho, pi, chi and iota of its old contents |
| KeccakLanes.ThetaPass | chainlink/functions/mint-authorization.js:98-111 | The three loops over columns are theta on the old array |
| KeccakLanes.RhoPiPass | chainlink/functions/mint-authorization.js:113-118 | The index map writes every lane of b, once, with rho and pi of the state |
| KeccakLanes.ChiPass | chainlink/functions/mint-authorization.js:119-126 | The last pair of loops is chi of b |
| KeccakLanes.TableIsRhoWalk | chainlink/functions/mint-authorization.js:80-86 | The rotation table is what the walk of FIPS 202, section 3.2.2, over the lanes produces |
| KeccakLanes.BitOfRoundConstant | chainlink/functions/mint-authorization.js:72-79 | The round constants are, bit by bit, those of the shift register of FIPS 202, section 3.2.5 |
| KeccakLanes.RoundIsRound | chainlink/functions/mint-authorization.js:98-128 | A round satisfies the five bit relations of FIPS 202, section 3.2 |
| KeccakLanes.KeccakFIsFips202 | chainlink/functions/mint-authorization.js:97-129 | The program's permutation satisfies the bit relations of FIPS 202, section 3.2, and is the only function that does |
| KeccakLanes.KeccakFIsInjective | chainlink/functions/mint-authorization.js:97-129 | No two 25-lane states are permuted to one state |
| Fips202.ThetaIsOneToOne | chainlink/functions/mint-authorization.js:101-111 | Theta is one-to-one: six squarings of 1 + X + X^-1 Z remove the rotation |
| Fips202.KeccakFIsDetermined | chainlink/functions/mint-authorization.js:97-129 | The bit relations determine the result, so agreeing with them is agreeing with the standard |
| Utf8.Utf8Bytes | chainlink/functions/mint-authorization.js:39-69 | The loop over code units returns the encoding the laws below are about, or throws |
| Utf8.DecodingInvertsEncoding | chainlink/functions/mint-authorization.js:39-69 | Whenever bytes are returned, an RFC 3629 decoder reads from them what a UTF-16 decoder reads from the text, and both refuse together |
| Utf8.ThrowsOnSplitPair | chainlink/functions/mint-authorization.js:44-52 | The program throws exactly on a high surrogate followed by something that is not a low one |
| Utf8.HighAtEnd | chainlink/functions/mint-authorization.js:44-66 | A high surrogate at the end of a text that does not throw becomes F0 80 80 80 after the bytes of the rest |
| Utf8.LowAlone | chainlink/functions/mint-authorization.js:54-60 | A low surrogate without a high one becomes three bytes that hold its sixteen bits |
| Utf8.WellFormedIsEncoded | chainlink/functions/mint-authorization.js:39-69 | Well-formed UTF-16 never throws and becomes its RFC 3629 bytes |
| Utf8.EncodingIsInjective | chainlink/functions/mint-authorization.js:39-69 | Two well-formed texts with the same bytes are the same text |
| Keccak256.Pad | chainlink/functions/mint-authorization.js:134-138 | The padding loop appends the padding the theorems below are about |
| Keccak256.PaddingIsPad10Star1 | chainlink/functions/mint-authorization.js:134-138 | The program pads by pad10*1 of FIPS 202, section 5.1, exactly when the byte length is not 135 modulo 136 |
| Keccak256.PaddingIsInjective | chainlink/functions/mint-authorization.js:134-138 | No two messages are padded alike, the odd lengths included |
| Keccak256.AbsorbBlock | chainlink/functions/mint-authorization.js:141-147 | Seventeen lanes read from a block are added to the state in place |
| Keccak256.Keccak256Utf8 | chainlink/functions/mint-authorization.js:131-157 | The program returns 0x and 64 digits, two for each byte of the sponge over its own padding of the encoded text, high digit first by an own table of digit values; or throws |
| Keccak256.AddBlockBits | chainlink/functions/mint-authorization.js:141-147 | Bit by bit, absorbing adds the bits of the block in the standard's order and leaves the 512 capacity bits alone |
| Keccak256.SqueezeBits | chainlink/functions/mint-authorization.js:152-156 | The digest is the first 256 bits of the state in the standard's order |
| Keccak256Sponge.SpongeIsSponge | chainlink/functions/mint-authorization.js:140-156 | Absorbing and squeezing whole blocks is the sponge of FIPS 202, section 4, stated over bits |
| Keccak256Sponge.SpongeIsDetermined | chainlink/functions/mint-authorization.js:140-156 | The bit equations of the sponge have one solution |
| Keccak256Sponge.DigestIsKeccak256 | chainlink/functions/mint-authorization.js:131-157 | On every length that is not 135 modulo 136 the digest is the sponge's over message and pad10*1 |
| Keccak256Sponge.ShownDigestIsKeccak256 | chainlink/functions/mint-authorization.js:131-157 | A text that shows the program's digest is 0x and 64 characters from 0-9a-f, and for every length that is not 135 modulo 136 the bytes they spell are the sponge's digest over the encoded text and pad10*1 |
| Keccak256Sponge.StandardDigestIsSponge | chainlink/functions/mint-authorization.js:131-157 | The digest with the standard's padding is the sponge's for every message, and the program's wherever the paddings agree |
| BitGroups.ConvertBits | public/app.js:986-1011 | The masked accumulator loop cuts the whole bit string anew, for every data, width and padding flag, or refuses for its two reasons; no pending bit is lost to the mask |
| BitGroups.PaddedIsRecovered | public/app.js:986-1011 | Regrouping any bytes into smaller values with padding and back without is the identity |
| BitGroups.AcceptedIsRecovered | public/app.js:986-1011 | Every sequence the unpadded direction accepts is what its result pads back to |
| BitGroups.UnpaddedIsInjective | public/app.js:986-1011 | The unpadded direction maps no two sequences to one |
| BitStrings.PaddedKeepsBits | public/app.js:986-1011 | With padding the result has the fewest values with room for the bits, and spells them position by position, most significant first, with zeros after them |
| BitStrings.UnpaddedKeepsBits | public/app.js:986-1011 | Without padding the data is accepted exactly when less than one value is left over and what is left over is zero; the result spells the rest position by position |
| Bech32Checksum.Bech32Polymod | public/app.js:971-984 | The loops compute the fold the checksum laws are about |
| Bech32Checksum.FoldIsLinear | public/app.js:971-984 | The checksum is linear over exclusive or |
| Bech32Checksum.MixIsOneToOne | public/app.js:976-982 | One step is one-to-one on the 30 checksum bits |
| Bech32Checksum.BurstIsDetected | public/app.js:971-984 | Two strings that differ only within six neighbouring symbols never share a checksum |
| Bech32Checksum.EndingExists | public/app.js:971-984 | Every text has a six-symbol ending for every target |
| Bech32Checksum.EndingIsUnique | public/app.js:971-984 | And only one |
| Bech32Polynomial.PolymodIsRemainder | public/app.js:971-984 | For all values the checksum packs the remainder over GF(32) on division by x^6 + 29x^5 + 22x^4 + 20x^3 + 21x^2 + 29x + 18, as in BIP-173 |
| SegwitAddress.Bech32HrpExpand | public/app.js:959-969 | The result has 2n + 1 values: the character codes divided by 32, a zero, and the character codes modulo 32 |
| SegwitAddress.SignetPrefixExpands | public/app.js:959-969 | The expansion of tb is 3, 3, 0, 20, 2 and nothing else |
| SegwitAddress.DecodeBech32 | public/app.js:931-957 | The decoder with its loop accepts and refuses as the function the theorems are about |
| SegwitAddress.WrittenIsRead | public/app.js:931-957 | A text of prefix, 1, data and six symbols whose polynomial, after the expansion by character codes, leaves the remainder 1 (BIP-173) or 0x2bc830a3 (BIP-350), by whomever written, is read back |
| SegwitAddress.ReadIsWritten | public/app.js:931-957 | Whatever is read is such a text, for the prefix, data and encoding returned |
| SegwitAddress.DecodesExactlyItsAddress | public/app.js:895-957 | A script comes out of an address exactly when it is 00 14, 00 20 or 51 20 with its bytes, and the lower-case address, in one letter case, is tb with its version, a remainder by BIP-173 or BIP-350, and symbols that spell its program bit by bit |
| SegwitAddress.EveryScriptHasOneAddress | public/app.js:895-957 | Every script the gateway accepts has such an address, and only one |
| SegwitAddress.ReadIsRefused | public/app.js:931-957 | A text is refused as invalid exactly when it has no separator with room around it, then for a character that is no symbol, then for its remainder |
| SegwitAddress.MistypedAddressIsRejected | public/app.js:931-957 | Two addresses of one encoding that differ within six neighbouring characters are not both valid |
| Abi.UintHexIsWord | public/app.js:837-858 | uintHex writes the 32-byte word of every value that has one, and refuses negative and larger values |
| Abi.EncodeBurnIsAbi | public/app.js:872-888 | encodeBurn is the selector and the head-and-tail encoding of the Solidity ABI specification of its four arguments |
| Abi.BurnRoundTrip | public/app.js:872-888 | Script, amount, fee and deadline are read back from it by the decoder's word rules |
| Abi.WordAtReads | chainlink/functions/release-authorization.js:15-27 | A word is read back at its index from any surrounding data |
| Abi.BytesWordReads | chainlink/functions/release-authorization.js:29-35 | A byte string is read back at its offset from any surrounding data |
| Abi.RedeemLogRoundTrip | chainlink/functions/release-authorization.js:37-53 | decodeRedeemLog inverts the ABI encoding of the RedeemRequested event for every script |
| Abi.RedeemLogIsDecided | chainlink/functions/release-authorization.js:15-53 | Exactly the logs with four topics, five whole words and an offset inside the data are decoded, to those topics and words |
| Abi.HexSurvivesIffEven | scripts/lib/chainlink-functions-request.js:43-48 | A hex argument arrives whole exactly when it has an even number of digits |
| Cbor.EncodedLength | scripts/lib/chainlink-functions-request.js:6-34 | Writing a length into a buffer gives the head the reader's laws are about; unsafe lengths are refused |
| Cbor.CompareBuffers | scripts/lib/chainlink-functions-request.js:59-67 | Negative, positive and zero mean that the first octets that differ, or a proper prefix, put a before b, b before a, or that they are equal: the bytewise order of RFC 8949, section 4.2.1 |
| Cbor.SortSorts | scripts/lib/chainlink-functions-request.js:69-78 | Distinct keys leave strictly increasing, with the same entries |
| Cbor.EntryOrderDoesNotMatter | scripts/lib/chainlink-functions-request.js:69-78 | The encoded map does not depend on the order of its entries |
| CborRequest.HeadReads | scripts/lib/chainlink-functions-request.js:6-34 | Every accepted length is read back by a reader of RFC 8949, section 3, with any bytes following |
| CborRequest.HeadIsShortest | scripts/lib/chainlink-functions-request.js:6-34 | No head that reads as a length is shorter than the one written (RFC 8949, section 4.2.1) |
| CborRequest.StringReads | scripts/lib/chainlink-functions-request.js:43-53 | A byte or text string is read back exactly |
| CborRequest.ArrayReads | scripts/lib/chainlink-functions-request.js:55-57 | An array of strings is read back exactly |
| CborRequest.SortedMapReads | scripts/lib/chainlink-functions-request.js:69-78 | A sorted map is read back as its entries |
| CborRequest.BuildFunctionsRequestCBOR | scripts/lib/chainlink-functions-request.js:80-123 | Pushing the entries one by one builds the bytes the round trip is about |
| CborRequest.BuildsIff | scripts/lib/chainlink-functions-request.js:80-123 | A request is refused for an empty source, an unknown secrets location or an unsafe length, and for nothing else |
| CborRequest.RequestRoundTrip | scripts/lib/chainlink-functions-request.js:80-123 | Reading the request bytes, with any bytes following, finds exactly the source, arguments, byte arguments and secrets sent |
| CborRequest.RequestSays | scripts/lib/chainlink-functions-request.js:80-123 | The map read back has codeLocation and codeLanguage 0 and the source, args, bytesArgs, secretsLocation and secrets sent, under these names character by character, each octet from its two hex digits, and nothing else |
| CborRequest.RequestIsInjective | scripts/lib/chainlink-functions-request.js:80-123 | Requests with the same bytes are the same to the reader |
| CanonicalJson.WriteIsPrefixFree | scripts/lib/bitcoin-psbt.js:125-137 | No canonical text is a proper prefix of another |
| CanonicalJson.RecordDetermines | scripts/lib/bitcoin-psbt.js:125-137 | Two objects with one text give every name the same text |
| CanonicalJson.KeyOrderDoesNotMatter | scripts/lib/bitcoin-psbt.js:125-137 | The order of an object's keys does not show in its text |
| JsonReader.CanonicalTextReads | scripts/lib/bitcoin-psbt.js:125-137 | A reader of RFC 8259 reads the text of every value back as that value, whatever octets follow, with the members of each object in increasing order of their names |
| PlanDigest.PlanDigestBinds | scripts/lib/bitcoin-psbt.js:139-153 | Two spend plans with one digest are one plan |
| PlanText.PlanTextReads | scripts/lib/bitcoin-psbt.js:139-153 | The digest hashes a text that this reader reads as just the seven members of the schema, by name, with decimal numbers without leading zeros, hex scripts, and every input and output in order |
| SpendPlan.OutputLeafBinds | scripts/lib/bridge.js:71-78 | An output leaf, the one dynamic encoding, commits to script and value |
| SpendPlan.InputsCommitmentBinds | scripts/lib/bridge.js:62-82 | The inputs commitment commits to every input in order |
| SpendPlan.OutputsCommitmentBinds | scripts/lib/bridge.js:71-86 | The outputs commitment commits to every output in order |
| SpendPlan.PolicyBinds | scripts/lib/bridge.js:88-101 | The policy hash commits to fee, version, lock time and sighash type |
| SpendPlan.PlanIsDetermined | scripts/lib/authorization-validator.js:187-238 | Two plans accepted for one release authorization agree on every field |
| SpendPlan.ExtractNormalizedSpendPlan | scripts/lib/bitcoin-psbt.js:84-123 | Adding up inputs and outputs derives the plan the laws are about, or refuses |
| SpendPlan.ExtractionIsDecided | scripts/lib/bitcoin-psbt.js:31-123 | A plan is derived exactly when every input says what it spends, inputs cover outputs and name one sighash type at most, and neither list is empty; it then describes each input and output in order, and its fee is the difference of the sums |
| SpendPlan.AcceptanceIsDecided | scripts/lib/authorization-validator.js:187-238 | A plan is accepted exactly when its values fit, network and three commitments are the authorized ones, the fee is within budget, and some output pays the amount to the script |
| SpendPlan.FitsIsDecided | scripts/lib/bridge.js:27-29 | The values that fit are those of uint32, uint64 and int32 |
| SpendPlan.AcceptedPsbtConservesValue | scripts/lib/bitcoin-psbt.js:84-123 | The inputs of an accepted PSBT are the redeemed amount, the other outputs and a fee within the authorized budget |
| SpendPlan.BuildP2wpkhSpendPsbt | scripts/lib/bitcoin-psbt.js:183-241 | Building refuses exactly for missing value or change address; otherwise the plan derived from the PSBT has the requested fee and pays destination and change |
| SpendPlan.AssertFinalTransactionMatchesSpendPlan | scripts/lib/don-custody-client.js:99-148 | The comparison accepts the one transaction the plan describes |
| SpendPlan.TransactionIsDetermined | scripts/lib/don-custody-client.js:99-148 | All transactions accepted for one authorization are one transaction, with exactly the committed outputs, one of them the destination |
| AttestationIngest.NormalizedIsAcceptable | scripts/lib/attestation-ingest.js:16-27 | Sorting accepts exactly sets without repetitions and puts them in the strictly increasing order the contract demands |
| AttestationIngest.VerifyReleaseAttestationEnvelope | scripts/lib/attestation-ingest.js:56-128 | The checks and the loop over signatures answer as the function compared with the contract |
| AttestationIngest.EnvelopeIsDecided | scripts/lib/attestation-ingest.js:56-128 | An envelope is accepted exactly when the addresses are distinct, the threshold is within their number, deadline, labels and digests are the expected ones, and threshold or more signatures recover distinct ones of the addresses |
| AttestationIngest.EnvelopeAgreesWithContract | scripts/lib/attestation-ingest.js:56-128 | With the contract's configuration, a labelled envelope is accepted exactly when the contract would accept its attestation then |
| AttestationIngest.BuildAttestation | scripts/lib/bridge.js:112-134 | The first threshold wallets in address order sign the digest of set, domain and struct hash |
| AttestationIngest.BuiltMintIsAccepted | scripts/lib/bridge.js:112-134 | The contract accepts every mint attestation built from the configured wallets until its deadline |
| AttestationIngest.BuiltReleaseIsAccepted | scripts/lib/bridge.js:112-134 | The contract and the off-chain check both accept every release attestation so built |
| ReleaseSigner.BtcSignerStore.ReserveSigning | scripts/lib/btc-signer-store.js:40-99 | A key without a row gets one, RESERVED, with the three digests; a row with the same digests that was not aborted is found as it is; everything else is refused and changes nothing |
| ReleaseSigner.BtcSignerStore.MarkSigned | scripts/lib/btc-signer-store.js:101-124 | Recording a signature marks one row, stores what was signed and keeps the digests |
| ReleaseSigner.SignReleasePsbt | scripts/lib/btc-policy-signer.js:64-141 | One call checks policy, reserves, signs and records as the sequential step function |
| ReleaseSigner.SigningIsDecided | scripts/lib/btc-policy-signer.js:64-141 | A refused or conflicting submission leaves the store as it was; any other leaves a reservation, and with a signature its mark, or finds the one stored before |
| ReleaseSigner.PolicyIsDecided | scripts/lib/btc-policy-signer.js:16-62 | A submission is accepted exactly when its envelope is, its text spells the identifier, domain and network are as expected, and its PSBT is for that network and spends a plan for the authorization |
| ReleaseSigner.SequentialIsARun | scripts/lib/btc-policy-signer.js:64-141 | That step is one of the runs of the concurrent machine |
| ReleaseSigner.StepKeepsReserving | scripts/lib/btc-signer-store.js:40-124 | Each step of any process keeps that whoever may sign or has signed holds the row of its key |
| ReleaseSigner.SignaturesAgree | scripts/lib/btc-policy-signer.js:64-141 | Over every interleaving, with dry runs, errors and crashes, all signatures under one text of a redeem identifier are on one plan for one authorization |
| ReleaseSigner.ConflictsAreSigned | scripts/lib/btc-policy-signer.js:64-141 | For every redeem identifier with two texts there are two accepted submissions with different plans, and a run that signs both |
| ReleaseSigner.HasTwoSpellingsIffLetter | schemas/release-authorization.schema.json:90-92 | An identifier has two texts exactly when its hex has a letter |
| ReleaseSigner.RepeatFindsItsSignature | scripts/lib/btc-signer-store.js:40-75 | What an accepted submission finds already signed is a signature on its own plan for its own authorization |
| ReleaseSigner.ConflictIsSignedIffSpelledDifferently | scripts/lib/btc-signer-store.js:40-99 | Two conflicting accepted submissions for one redeem can both be signed in some run exactly when their texts of the identifier differ, which is in letter case only |
| PublicStore.PublicTestnetStore.UpsertRedeemObserved | scripts/lib/public-testnet-store.js:306-355 | A known redeem keeps its status and everything but the event columns |
| PublicStore.PublicTestnetStore.MarkRedeemPrepared | scripts/lib/public-testnet-store.js:380-410 | Sets status, PSBT, plan, authorization and transaction of one row |
| PublicStore.PublicTestnetStore.MarkReleaseRequested | scripts/lib/public-testnet-store.js:421-445 | Sets status and request of one row |
| PublicStore.PublicTestnetStore.MarkRedeemSubmitted | scripts/lib/public-testnet-store.js:456-466 | Sets status and completion hash of one row |
| PublicStore.PublicTestnetStore.MarkRedeemCompleted | scripts/lib/public-testnet-store.js:468-478 | Sets status, completion hash and block of one row |
| PublicStore.PublicTestnetStore.MarkBitcoinFinalized | scripts/lib/public-testnet-store.js:489-497 | Sets the raw transaction of one row and leaves its status |
| PublicStore.PublicTestnetStore.MarkBitcoinBroadcast | scripts/lib/public-testnet-store.js:499-509 | Sets status and raw transaction of one row |
| PublicStore.PublicTestnetStore.MarkRedeemFailed | scripts/lib/public-testnet-store.js:511-517 | Sets the failed status of one row |
| PublicStore.PublicTestnetStore.List | scripts/lib/public-testnet-store.js:371-487 | The four lists return distinct eligible rows up to the limit, and all of them below it |
| PublicStore.ListingIsDecided | scripts/lib/public-testnet-store.js:371-487 | A row is listed only when its columns ask for the phase, and when they do, always unless the limit is reached |
| PublicWorker.PrepareKeeps | scripts/public-testnet-worker.js:347-445 | Preparing a row, with any replies, keeps the invariant: its authorization commits to its plan and its burn |
| PublicWorker.RequestKeeps | scripts/public-testnet-worker.js:523-572 | Requesting an authorization keeps the invariant |
| PublicWorker.SettleKeeps | scripts/public-testnet-worker.js:574-744 | Settling a row, by receipt, by event or by sending the completion, keeps the invariant: completed means consumed |
| PublicWorker.ReceiptKeeps | scripts/public-testnet-worker.js:640-656 | Waiting for the receipt keeps the invariant |
| PublicWorker.BroadcastKeeps | scripts/public-testnet-worker.js:746-802 | Broadcasting stored bytes, or finalizing a checked PSBT, keeps the invariant |
| PublicWorker.ContinueKeeps | scripts/public-testnet-worker.js:630-802 | Each store write or send between two replies keeps the invariant |
| PublicWorker.ContinueScanKeeps | scripts/public-testnet-worker.js:306-345 | Storing the next event of a batch, known or new, or moving the cursor, keeps the invariant |
| PublicWorker.StepKeeps | scripts/public-testnet-worker.js:73-93 | Every step of process or chain, crashes included, keeps the invariant that lists read earlier are still current and every row is what it says |
| PublicWorkerRuns.BitcoinFollowsConsumption | scripts/public-testnet-worker.js:574-802 | A raw transaction is handed to Bitcoin only for a redeem whose record is CONSUMED on the chain |
| PublicWorkerRuns.OneTransactionPerRedeem | scripts/public-testnet-worker.js:746-802 | All raw transactions ever sent for one redeem are the same |
| PublicWorkerRuns.PayoutMatchesBurn | scripts/public-testnet-worker.js:347-802 | The plan of every transaction sent pays the burned amount to the burned script and declares a fee within the budget; a plan from a PSBT conserves value, so its fee is real; an adapter's transaction is the one its plan describes |
| PublicWorkerGuards.PreparationIsDecided | scripts/public-testnet-worker.js:347-445 | A row is prepared exactly in time, within both caps, for an allowed script, with its block found again and a plan that pays the burn within its fee budget; it fails exactly when late, over a cap, or with its block gone; its authorization repeats the burn and commits to that plan |
| PublicWorkerGuards.StepIsJustified | scripts/public-testnet-worker.js:347-802 | In every reachable state each change of a status has its reason in the row, the configuration and the replies, FAILED and every later status included |
| PublicWorkerGuards.OverCapsFails | scripts/public-testnet-worker.js:371-379 | A row in hand over a cap or past its deadline fails, whatever the replies |
| PublicWorkerGuards.SendsAreWithinCaps | scripts/public-testnet-worker.js:804-812 | Over every run: behind each raw transaction sent is a move that prepared its redeem, with the burned amount and fee budget within the caps of that configuration, at or before the deadline, for an allowed script and with the block found again |
| PublicWorkerRuns.SettlementIsDecided | scripts/public-testnet-worker.js:574-711 | A requested release is completed by the worker exactly when timely, approved and not consumed, found completed exactly with the event, and failed exactly when late, unknown or rejected |
| PublicWorkerRuns.SubmittedIsDecided | scripts/public-testnet-worker.js:713-744 | A submitted completion is settled by its receipt alone |
| PublicWorkerRuns.RequestingIsDecided | scripts/public-testnet-worker.js:528-570 | A request is recorded exactly in time and with its identifier; a late row fails |
| PublicWorkerRuns.BroadcastingIsDecided | scripts/public-testnet-worker.js:746-828 | Stored bytes are sent as they are; otherwise a local wallet's PSBT is finalized exactly when its plan is accepted for the stored authorization |
| PublicWorkerScenario.AnyMatchingPlanIsSent | scripts/lib/authorization-validator.js:187-238 | The converse, in exact runs: for every burn within the caps and every signet plan with the amount to the script, a declared fee within budget and values that fit, there is a run from the locked-down deployment, through both Functions requests, to the raw transaction that sends it |
| PublicWorkerStory.ChainlinkOnlyRiskIsRefused | scripts/lib/public-testnet-runtime-guard.js:54-122 | No deployment with --chainlink-only-risk passes the guard as modelled, since it has the other verifier |
| PublicWorkerExact.ExactIsRun | scripts/lib/public-testnet-runtime-guard.js:11-122 | An exact run, whose configuration the loader and guard accept and whose replies are what the chain says then, is a run |
| PublicWorkerSettlement.ConsumedIsPaidIff | scripts/public-testnet-worker.js:579-638 | In every reachable state: asked about a consumed redeem with every answer there and its request approved, the worker can still send its transaction exactly when it asks at or before both deadlines, and otherwise fails the row and never sends; an unknown or rejected request fails it too, an open one leaves it |
| PublicWorkerSettlement.SubmittedIsPaidIff | scripts/public-testnet-worker.js:713-744 | In every reachable state: with the receipt of its own completion there, the worker can still send exactly when that succeeded, and otherwise fails the row and never sends, whoever consumed the redeem |
| PublicWorkerUnpaid.ConsumedMayNeverBePaid | scripts/public-testnet-worker.js:579-590 | For every such burn there is an exact run in which somebody else completes the redeem, the worker asks after the deadline with every answer there and fails the row, and in no continuation anything is sent |
| PublicWorkerUnpaid.SecondCompletionIsNeverPaid | scripts/public-testnet-worker.js:624-646 | For every such burn there is an exact run in which the worker's first completion times out and is taken later, its second reverts, the row fails, and in no continuation anything is sent |
| PublicWorkerAuthority.ChainIsARun | scripts/public-testnet-worker.js:73-93 | The transactions mined in a run of the worker are a run of the bridge |
| PublicWorkerAuthority.SendWasSigned | scripts/public-testnet-worker.js:746-802 | Behind every raw transaction sent stand signatures of a quorum of the signers current when its redeem was consumed |
| PublicWorkerAuthority.SendWasRequested | scripts/public-testnet-worker.js:746-802 | With the Functions verifier, behind every raw transaction sent stand an earlier permitted request for the release that consumed its redeem and the router's answer in time |
| PublicWorkerPayouts.PayoutsAreFundedIff | scripts/public-testnet-worker.js:746-802 | Over every run: supply, amounts paid, amounts unpaid and outside burns are exactly the minted sats; fees, with or without the other outputs, are covered by deposits exactly as far as unpaid amounts and outside burns reach |
| PublicWorkerPayouts.SpendingIsAccounted | scripts/lib/bitcoin-psbt.js:84-123 | When the adapter's plans conserve value, as all plans from PSBTs do, the inputs spent in a run are the outputs and the declared fees |
| PublicWorkerPayouts.FeesAreNotFunded | scripts/lib/authorization-validator.js:225-229 | An exact run, with one redeem paid and nothing burned besides, after which the deposits fall short by the fee |
| PublicWorkerPayouts.OtherOutputsAreFree | scripts/lib/authorization-validator.js:187-238 | For every output that fits its encoding and holds no more than all the money there is, an exact run that sends a transaction with it beside the destination: no change policy is evaluated |
| PublicWorkerPayouts.FeeStaysInBudgetIff | scripts/lib/don-custody-client.js:99-148 | A plan that declares all it does not pay out stays within the budget of every redeem it is sent for, in all runs; one that does not exceeds it in some exact run |
| PublicWorkerPayouts.BudgetIsExceeded | scripts/lib/don-custody-client.js:99-148 | An exact run that sends an adapter's transaction spending a million sats in fees for a budget of one |
| PublicWorkerPasses.PrepareRedeem | scripts/public-testnet-worker.js:367-445 | One row handled on the store leaves the rows as the machine's step: over a cap or past its deadline it fails, and it becomes RELEASE_PREPARED only within both caps, in time and with its block found again |
| PublicWorkerPasses.RequestRelease | scripts/public-testnet-worker.js:528-570 | One row handled on the store leaves the rows as the machine's step |
| PublicWorkerPasses.SettleRelease | scripts/public-testnet-worker.js:579-665 | One row settled on the store, through sending, recording and the receipt, leaves the rows as the machine's three steps, whatever the chain does before and between |
| PublicWorkerPasses.BroadcastRelease | scripts/public-testnet-worker.js:750-798 | One row broadcast on the store leaves rows and sends as the machine's four steps |
| PublicWorkerPasses.PrepareRedeems | scripts/public-testnet-worker.js:347-445 | The whole loop over the listed rows is a run of the machine |
| PublicWorkerPasses.RequestReleaseAuthorizations | scripts/public-testnet-worker.js:523-572 | The whole loop over the listed rows is a run of the machine |
| PublicWorkerPasses.SettleReleaseCallbacks | scripts/public-testnet-worker.js:574-665 | The whole loop, with the chain going on before each row and while it waits for receipts, is a run of the machine |
| PublicWorkerPasses.BroadcastBitcoinReleases | scripts/public-testnet-worker.js:746-802 | The whole loop is a run of the machine that sends just these transactions |
| PublicWorkerRuns.StatusMovesForward | scripts/lib/public-testnet-store.js:371-517 | Every step takes a status one allowed step forward or leaves it |
| PublicWorkerRuns.RunMovesForward | scripts/lib/public-testnet-store.js:371-517 | Over every run rows are never lost and statuses only climb |
| PublicWorkerRuns.FinalStatusesStay | scripts/lib/public-testnet-store.js:499-517 | A failed or broadcast redeem stays so in every continuation of a run |
| PublicWorkerScans.NoBurnIsMissed | scripts/public-testnet-worker.js:306-345 | In every run of process, store and chain, with crashes anywhere, each event of the blocks from the first to the cursor has a row |
| PublicWorkerScans.ScanRedeemsIsARun | scripts/public-testnet-worker.js:306-345 | One call of the scan loop, crashed or not, is a run of the machine |
| RedeemScan.ScanRedeems | scripts/public-testnet-worker.js:306-345 | A scan, stopped before any of its store writes, upserts a prefix of its batch and moves the cursor only at the end |
| RedeemScan.ScansLeaveNoGap | scripts/public-testnet-worker.js:306-345 | In every sequence of scans each event of the blocks from the first to the cursor has a row |
| RedeemScan.ScansKeepStatuses | scripts/lib/public-testnet-store.js:306-355 | Reading burns again changes no status and loses no row |
| RedeemScan.FinishedScanMoves | scripts/public-testnet-worker.js:306-345 | A scan that finishes moves the cursor to the end of its batch, one that crashes leaves it |
| RedeemScan.ReachesFinalizedBlock | scripts/public-testnet-worker.js:306-345 | With a fixed finalized block, in every sequence of scans with crashes anywhere, n finished scans take the cursor n batches on, and to that block exactly when n batches have room for the distance |

## Left out

- BurnGateway.BurnGatewayContract.Burn: the contract casts the block time to 64 bits; the model takes times that fit.
- FunctionsVerifier.FunctionsVerifierContract.RequestAuthorization: the router's request identifier is an argument; the router itself is not part of this model.
- AttestationIngest.EnvelopeAgreesWithContract: assumes that both sides recover the same signers; which signature encodings each of them reads is not modelled.
- SpendPlan.AssertFinalTransactionMatchesSpendPlan: starts from the parsed transaction; parsing raw bytes is not modelled, and sequence numbers, which the plan does not carry, are not compared.
- BitGroups.ConvertBits: the widths are those for which no intermediate value leaves 31 bits, among them the 5 and 8 the client uses; beyond them JavaScript's shifts wrap.
- CborRequest.BuildFunctionsRequestCBOR: starts from arguments of the right types, with text as its UTF-8 octets; the type checks and Node's treatment of lone surrogates are not modelled.
- SpendPlan.BuildP2wpkhSpendPsbt: refusals of the PSBT library, such as of an input used twice, are not modelled.
- ReleaseSigner.BtcSignerStore.MarkSigned: a signed PSBT is known by what it signs; its bytes, the transaction's and its identifier are left out.
- PublicStore.PublicTestnetStore.List: the order in which rows are listed is left open.
- CanonicalJson.WriteIsPrefixFree: strings are UTF-8 octets, so lone surrogates are left out; numbers, booleans and null do not occur in plans, and the order of names outside ASCII is that of their octets.
- PublicWorkerPasses.SettleRelease: without a crash; crashes within a row are the business of the machine in `PublicWorker`.
- PublicWorkerScenario.AnyMatchingPlanIsSent: with a custody adapter; a plan from the local wallet has to come from a PSBT as well.
- PublicWorkerPayouts.FeeStaysInBudgetIff: what a plan spends is the sum of the input values it declares; that they are those of the outputs spent is not checked by the code for an adapter either.
- Deployment.Deploy: the contracts' addresses are given; token names and decimals, parsing, and what a failed run leaves on the chain are left out.
- PublicWorkerExact.ExactIsRun: which block a burn was in, and its block's hash, are not part of the bridge's state, so those replies are free; so is the worker's clock.
- PublicWorkerRuns.FinalStatusesStay: does not say that a failed redeem is not consumed, which is false (`PublicWorkerUnpaid.ConsumedMayNeverBePaid`); when it is paid is `PublicWorkerSettlement.ConsumedIsPaidIff`.
- Constructors: a configuration that a constructor refuses is a precondition of the modelled constructor.
- Attestations are modelled by what decoding makes of them, not by their bytes.
- ECDSA, secp256k1, ecrecover, WIF keys and PSBT signing: replaced by arbitrary functions.
- The order of addresses is the order of numbers; the code compares lower-case hex text, which orders the same way.
- Other hex text is compared as the value it spells, except the redeem identifier, whose spelling is the signer store's key.
- Rows are records in a map: SQL, migrations, timestamps, error texts and the order of lists are left out, and so is the whole deposit side of the worker.
- JSON schema validation, address parsing, ethers, Bitcoin Core and the custody adapter appear only as replies.
- Gas, event emission beyond what runs record, and reorganizations deeper than the configured finality.
- The deposit limiter that chains three counters with early exit: its counters are modelled, the chain of three is not.
- Bitcoin amounts as floating-point numbers.
- The older watcher, attester and relayer pipeline with its own store, HTTP services, health checks, and the user interface of the web client.
