/**
  The values the contracts exchange, and the hashes that name them.

  keccak256 is modelled as a free constructor over what it hashes: two hashes are equal
  exactly when their preimages are. abi.encode of a static tuple is the sequence of its
  32-byte words, so the collision-freedom used below is injectivity of those encodings.
 */
module BridgeTypes {

  type Address = nat
  const ZERO_ADDRESS: Address := 0

  const TWO_32: nat := 0x1_0000_0000
  const TWO_64: nat := 0x1_0000_0000_0000_0000
  const TWO_256: nat := 0x1_0000_0000_0000_0000_0000_0000_0000_0000_0000_0000_0000_0000_0000_0000_0000_0000
  const MAX_UINT256: nat := TWO_256 - 1

  type Uint32 = n: nat | n < TWO_32
  type Uint64 = n: nat | n < TWO_64
  type Uint256 = n: nat | n < TWO_256

  type Byte = n: int | 0 <= n < 256

  datatype Option<+T> = None | Some(value: T)

  datatype Bytes32 =
    | Word(n: nat)
    | Keccak(words: seq<Bytes32>)
    | KeccakBytes(data: seq<Byte>)

  datatype AmountMode = EXACT | ANY

  datatype RedeemState = NONE | BURNED | CONSUMED | CANCELLED | MANUALLY_RESOLVED

  datatype DepositIntent = DepositIntent(
    recipient0x: Address,
    depositAddressHash: Bytes32,
    amountMode: AmountMode,
    expectedSats: Uint64,
    minSats: Uint64,
    maxSats: Uint64,
    nonce: Bytes32,
    expiry: Uint64)

  datatype MintAuthorization = MintAuthorization(
    bridgeDomain: Bytes32,
    depositId: Bytes32,
    recipient0x: Address,
    btcNetwork: Uint32,
    depositAddressHash: Bytes32,
    btcTxId: Bytes32,
    vout: Uint32,
    sats: Uint64,
    confirmations: Uint32,
    observedBlockHeight: Uint64,
    attestationTimestamp: Uint64,
    deadline: Uint64)

  datatype RedeemRequest = RedeemRequest(
    requester: Address,
    destinationScriptHash: Bytes32,
    amountSats: Uint64,
    maxMinerFeeSats: Uint64,
    deadline: Uint64,
    requestNonce: Uint64)

  datatype ReleaseAuthorization = ReleaseAuthorization(
    bridgeDomain: Bytes32,
    redeemRequestHash: Bytes32,
    redeemId: Bytes32,
    btcNetwork: Uint32,
    sourceEvmChainId: Uint64,
    burnTxHash: Bytes32,
    burnLogIndex: Uint32,
    requester: Address,
    destinationScriptHash: Bytes32,
    amountSats: Uint64,
    maxMinerFeeSats: Uint64,
    changePolicyHash: Bytes32,
    inputsCommitment: Bytes32,
    outputsCommitment: Bytes32,
    psbtPolicyHash: Bytes32,
    attestationTimestamp: Uint64,
    deadline: Uint64)

  /**
    The bytes of an attestation argument, by what abi.decode makes of them: no bytes at all, or
    a first word and, when the rest has the right shape, a list of signatures.
   */
  datatype Attestation = Attestation(isEmpty: bool, word: Option<Bytes32>, signatures: Option<seq<seq<Byte>>>)

  datatype Error =
    | Unauthorized | InvalidOwner
    | InvalidAddress | InsufficientBalance | InsufficientAllowance | NotMinter | MinterConfigurationLocked
    | InvalidDepositIntent | InvalidConsumer | ConsumerConfigurationLocked
    | DepositIntentAlreadyExists | DepositIntentNotFound | DepositAlreadyConsumed | UtxoAlreadyConsumed
    | MintPaused | DepositIntentExpired | InvalidBtcNetwork | InsufficientConfirmations | DepositIdMismatch
    | MintRecipientMismatch | DepositAddressMismatch | MintAmountOutOfRange | InvalidMinimumConfirmations
    | InvalidLimit | LimitExceeded
    | BurnPaused | InvalidDestinationScript | InvalidRedeemAmount | InvalidRedeemFeeBudget | RedeemDeadlineExpired
    | RedeemRequestAlreadyExists | RedeemRequestNotFound | RedeemStateTransitionNotAllowed
    | InvalidReleaseBtcNetwork | InvalidReleaseSourceChain | ReleaseAuthorizationMismatch | RedeemIdAlreadyConsumed
    | InvalidBridgeDomain | AuthorizationExpired | InvalidAttestation | UnauthorizedSignerSet
    | InvalidSignature | OnlyRouterCanFulfill | UnauthorizedRequester | UnknownRequest | ChainlinkRequestFailed
    | ChainlinkAuthorizationNotApproved | ChainlinkResponseMismatch | InvalidFunctionsConfig
    | ArithmeticOverflow | DecodingFailed | NoSuchFunction

  /** A call either commits a new state or reverts and leaves every contract as it was. */
  datatype Outcome<+S> = Commit(state: S) | Revert(error: Error)

  /** What a caller of a contract method observes of an outcome. */
  predicate Did<S(==)>(outcome: Outcome<S>, before: S, after: S, error: Option<Error>) {
    match outcome
    case Commit(s) => error == None && after == s
    case Revert(e) => error == Some(e) && after == before
  }

  // ----- BridgeHasher -----

  function ModeWord(m: AmountMode): Bytes32 {
    match m case EXACT => Word(0) case ANY => Word(1)
  }

  function DepositIdOf(domain: Bytes32, i: DepositIntent): Bytes32 {
    Keccak([domain, Word(i.recipient0x), i.depositAddressHash, ModeWord(i.amountMode), Word(i.expectedSats),
            Word(i.minSats), Word(i.maxSats), i.nonce, Word(i.expiry)])
  }

  function UtxoKey(btcTxId: Bytes32, vout: Uint32): Bytes32 {
    Keccak([btcTxId, Word(vout)])
  }

  function MintStructHash(a: MintAuthorization): Bytes32 {
    Keccak([a.bridgeDomain, a.depositId, Word(a.recipient0x), Word(a.btcNetwork), a.depositAddressHash, a.btcTxId,
            Word(a.vout), Word(a.sats), Word(a.confirmations), Word(a.observedBlockHeight),
            Word(a.attestationTimestamp), Word(a.deadline)])
  }

  function RedeemRequestHash(domain: Bytes32, r: RedeemRequest): Bytes32 {
    Keccak([domain, Word(r.requester), r.destinationScriptHash, Word(r.amountSats), Word(r.maxMinerFeeSats),
            Word(r.deadline), Word(r.requestNonce)])
  }

  function RedeemIdOf(domain: Bytes32, burnTxHash: Bytes32, burnLogIndex: Uint32, requestHash: Bytes32): Bytes32 {
    Keccak([domain, burnTxHash, Word(burnLogIndex), requestHash])
  }

  function ReleaseStructHash(a: ReleaseAuthorization): Bytes32 {
    Keccak([a.bridgeDomain, a.redeemRequestHash, a.redeemId, Word(a.btcNetwork), Word(a.sourceEvmChainId),
            a.burnTxHash, Word(a.burnLogIndex), Word(a.requester), a.destinationScriptHash, Word(a.amountSats),
            Word(a.maxMinerFeeSats), a.changePolicyHash, a.inputsCommitment, a.outputsCommitment, a.psbtPolicyHash,
            Word(a.attestationTimestamp), Word(a.deadline)])
  }

  /** keccak256 of the text "BitcoinBride.Authorization.V1". */
  const AUTHORIZATION_CONTEXT: Bytes32 := KeccakBytes([
    0x42, 0x69, 0x74, 0x63, 0x6f, 0x69, 0x6e, 0x42, 0x72, 0x69, 0x64, 0x65, 0x2e, 0x41, 0x75, 0x74,
    0x68, 0x6f, 0x72, 0x69, 0x7a, 0x61, 0x74, 0x69, 0x6f, 0x6e, 0x2e, 0x56, 0x31
  ])

  function AuthorizationDigest(domain: Bytes32, structHash: Bytes32, signerSetDigest: Bytes32): Bytes32 {
    Keccak([AUTHORIZATION_CONTEXT, domain, structHash, signerSetDigest])
  }

  lemma DepositIdIsInjective(d: Bytes32, i: DepositIntent, d': Bytes32, i': DepositIntent)
    requires DepositIdOf(d, i) == DepositIdOf(d', i')
    ensures d == d' && i == i'
  {
    var a, b := DepositIdOf(d, i).words, DepositIdOf(d', i').words;
    assert a[0] == b[0] && a[1] == b[1] && a[2] == b[2] && a[3] == b[3] && a[4] == b[4];
    assert a[5] == b[5] && a[6] == b[6] && a[7] == b[7] && a[8] == b[8];
  }

  lemma RedeemRequestHashIsInjective(d: Bytes32, r: RedeemRequest, d': Bytes32, r': RedeemRequest)
    requires RedeemRequestHash(d, r) == RedeemRequestHash(d', r')
    ensures d == d' && r == r'
  {
    var a, b := RedeemRequestHash(d, r).words, RedeemRequestHash(d', r').words;
    assert a[0] == b[0] && a[1] == b[1] && a[2] == b[2] && a[3] == b[3] && a[4] == b[4] && a[5] == b[5] && a[6] == b[6];
  }

  lemma MintStructHashBinds(a: MintAuthorization, b: MintAuthorization)
    requires MintStructHash(a) == MintStructHash(b)
    ensures a == b
  {
    var v, w := MintStructHash(a).words, MintStructHash(b).words;
    assert v[0] == w[0] && v[1] == w[1] && v[2] == w[2] && v[3] == w[3] && v[4] == w[4] && v[5] == w[5];
    assert v[6] == w[6] && v[7] == w[7] && v[8] == w[8] && v[9] == w[9] && v[10] == w[10] && v[11] == w[11];
  }

  /** No mint struct hash is a release struct hash. */
  lemma StructHashesDiffer(a: MintAuthorization, r: ReleaseAuthorization)
    ensures MintStructHash(a) != ReleaseStructHash(r)
  {
    assert |MintStructHash(a).words| == 12 && |ReleaseStructHash(r).words| == 17;
  }

  lemma ReleaseStructHashBinds(a: ReleaseAuthorization, b: ReleaseAuthorization)
    requires ReleaseStructHash(a) == ReleaseStructHash(b)
    ensures a == b
  {
    var v, w := ReleaseStructHash(a).words, ReleaseStructHash(b).words;
    assert v[0] == w[0] && v[1] == w[1] && v[2] == w[2] && v[3] == w[3] && v[4] == w[4] && v[5] == w[5];
    assert v[6] == w[6] && v[7] == w[7] && v[8] == w[8] && v[9] == w[9] && v[10] == w[10] && v[11] == w[11];
    assert v[12] == w[12] && v[13] == w[13] && v[14] == w[14] && v[15] == w[15] && v[16] == w[16];
  }

  lemma AuthorizationDigestBinds(d: Bytes32, h: Bytes32, s: Bytes32, d': Bytes32, h': Bytes32, s': Bytes32)
    requires AuthorizationDigest(d, h, s) == AuthorizationDigest(d', h', s')
    ensures d == d' && h == h' && s == s'
  {
    var v, w := AuthorizationDigest(d, h, s).words, AuthorizationDigest(d', h', s').words;
    assert v[1] == w[1] && v[2] == w[2] && v[3] == w[3];
  }

  lemma RedeemIdBinds(d: Bytes32, t: Bytes32, l: Uint32, h: Bytes32, d': Bytes32, t': Bytes32, l': Uint32, h': Bytes32)
    requires RedeemIdOf(d, t, l, h) == RedeemIdOf(d', t', l', h')
    ensures d == d' && t == t' && l == l' && h == h'
  {
    var v, w := RedeemIdOf(d, t, l, h).words, RedeemIdOf(d', t', l', h').words;
    assert v[0] == w[0] && v[1] == w[1] && v[2] == w[2] && v[3] == w[3];
  }

  lemma UtxoKeyBinds(t: Bytes32, v: Uint32, t': Bytes32, v': Uint32)
    requires UtxoKey(t, v) == UtxoKey(t', v')
    ensures t == t' && v == v'
  {
    var a, b := UtxoKey(t, v).words, UtxoKey(t', v').words;
    assert a[0] == b[0] && a[1] == b[1];
  }

  // ----- Solidity mappings -----

  /** A mapping answers zero for a key never written. */
  function Get<K>(m: map<K, nat>, k: K): nat { if k in m then m[k] else 0 }

  ghost function Sum<K(!new)>(m: map<K, nat>): nat {
    if m == map[] then 0
    else
      var k :| k in m;
      m[k] + Sum(m - {k})
  }

  lemma {:induction false} SumWithout<K(!new)>(m: map<K, nat>, k: K)
    requires k in m
    ensures Sum(m) == m[k] + Sum(m - {k})
    decreases |m|
  {
    var c :| c in m && Sum(m) == m[c] + Sum(m - {c});
    if c != k {
      SumWithout(m - {c}, k);
      SumWithout(m - {k}, c);
      assert m - {c} - {k} == m - {k} - {c};
    }
  }

  lemma SumUpdate<K(!new)>(m: map<K, nat>, k: K, v: nat)
    ensures Sum(m[k := v]) == Sum(m) - Get(m, k) + v
  {
    SumWithout(m[k := v], k);
    assert m[k := v] - {k} == m - {k};
    if k in m {
      SumWithout(m, k);
    } else {
      assert m - {k} == m;
    }
  }

  lemma SumAtLeast<K(!new)>(m: map<K, nat>, k: K)
    ensures Get(m, k) <= Sum(m)
  {
    if k in m {
      SumWithout(m, k);
    }
  }
}
