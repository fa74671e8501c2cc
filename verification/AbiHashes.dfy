/**
  The hashes of the contracts are the hashes that the off-chain programs compute.

  The contracts hash abi.encode of a struct; the off-chain programs hand ethers a list of types and
  field names. A decoder for each of those lists reads the struct back from the words hashed. Lists go
  through an encoder by the rules of the ABI: one head word for each argument, the value of a static
  one and the offset of a dynamic one, and then the tails.
 */
module AbiHashes {
  import opened BridgeTypes
  import A = AttestationVerifier
  import S = SpendPlan

  /** An argument: one word, or a length word with the words after it. */
  datatype Argument = Static(word: Bytes32) | Dynamic(length: nat, words: seq<Bytes32>)

  function Tail(a: Argument): seq<Bytes32> {
    match a
    case Static(_) => []
    case Dynamic(length, words) => [Word(length)] + words
  }

  function Tails(args: seq<Argument>): seq<Bytes32> {
    if args == [] then [] else Tails(args[..|args| - 1]) + Tail(args[|args| - 1])
  }

  /** The word at position k of the heads; an offset is in bytes from the first head. */
  function Head(args: seq<Argument>, k: nat): Bytes32
    requires k < |args|
  {
    match args[k]
    case Static(word) => word
    case Dynamic(_, _) => Word(32 * (|args| + |Tails(args[..k])|))
  }

  function Encode(args: seq<Argument>): seq<Bytes32> {
    seq(|args|, k requires 0 <= k < |args| => Head(args, k)) + Tails(args)
  }

  function EncodeStatic(words: seq<Bytes32>): seq<Bytes32> {
    Encode(seq(|words|, k requires 0 <= k < |words| => Static(words[k])))
  }

  lemma {:induction false} StaticHasNoTails(words: seq<Bytes32>)
    ensures EncodeStatic(words) == words
  {
    var args := seq(|words|, k requires 0 <= k < |words| => Static(words[k]));
    NoTails(args);
    assert seq(|args|, k requires 0 <= k < |args| => Head(args, k)) == words;
  }

  lemma {:induction false} NoTails(args: seq<Argument>)
    requires forall a | a in args :: a.Static?
    ensures Tails(args) == []
  {
    if args != [] {
      NoTails(args[..|args| - 1]);
    }
  }

  // ----- Decoding what was hashed -----

  /** The word of an unsigned integer of a type with so many values. */
  predicate IsUint(w: Bytes32, values: nat) { w.Word? && w.n < values }

  function Uint(w: Bytes32, values: nat): (n: nat)
    requires IsUint(w, values)
    ensures n < values
  {
    w.n
  }

  predicate IsMintEncoding(w: seq<Bytes32>) {
    && |w| == 12 && IsUint(w[2], TWO_256) && IsUint(w[3], TWO_32) && IsUint(w[6], TWO_32)
    && IsUint(w[7], TWO_64) && IsUint(w[8], TWO_32) && IsUint(w[9], TWO_64) && IsUint(w[10], TWO_64)
    && IsUint(w[11], TWO_64)
  }

  /** abi.decode by the type list of a mint authorization. */
  function DecodeMint(w: seq<Bytes32>): MintAuthorization
    requires IsMintEncoding(w)
  {
    MintAuthorization(
      bridgeDomain := w[0], depositId := w[1], recipient0x := Uint(w[2], TWO_256), btcNetwork := Uint(w[3], TWO_32),
      depositAddressHash := w[4], btcTxId := w[5], vout := Uint(w[6], TWO_32), sats := Uint(w[7], TWO_64),
      confirmations := Uint(w[8], TWO_32), observedBlockHeight := Uint(w[9], TWO_64),
      attestationTimestamp := Uint(w[10], TWO_64), deadline := Uint(w[11], TWO_64))
  }

  predicate IsReleaseEncoding(w: seq<Bytes32>) {
    && |w| == 17 && IsUint(w[3], TWO_32) && IsUint(w[4], TWO_64) && IsUint(w[6], TWO_32)
    && IsUint(w[7], TWO_256) && IsUint(w[9], TWO_64) && IsUint(w[10], TWO_64) && IsUint(w[15], TWO_64)
    && IsUint(w[16], TWO_64)
  }

  /** By the type list of a release authorization. */
  function DecodeRelease(w: seq<Bytes32>): ReleaseAuthorization
    requires IsReleaseEncoding(w)
  {
    ReleaseAuthorization(
      bridgeDomain := w[0], redeemRequestHash := w[1], redeemId := w[2], btcNetwork := Uint(w[3], TWO_32),
      sourceEvmChainId := Uint(w[4], TWO_64), burnTxHash := w[5], burnLogIndex := Uint(w[6], TWO_32),
      requester := Uint(w[7], TWO_256), destinationScriptHash := w[8], amountSats := Uint(w[9], TWO_64),
      maxMinerFeeSats := Uint(w[10], TWO_64), changePolicyHash := w[11], inputsCommitment := w[12],
      outputsCommitment := w[13], psbtPolicyHash := w[14], attestationTimestamp := Uint(w[15], TWO_64),
      deadline := Uint(w[16], TWO_64))
  }

  predicate IsIntentEncoding(w: seq<Bytes32>) {
    && |w| == 8 && IsUint(w[0], TWO_256) && IsUint(w[2], 2) && IsUint(w[3], TWO_64) && IsUint(w[4], TWO_64)
    && IsUint(w[5], TWO_64) && IsUint(w[7], TWO_64)
  }

  /** By the type list of a deposit intent; the amount mode is an enumeration of two. */
  function DecodeIntent(w: seq<Bytes32>): DepositIntent
    requires IsIntentEncoding(w)
  {
    DepositIntent(
      recipient0x := Uint(w[0], TWO_256), depositAddressHash := w[1],
      amountMode := if Uint(w[2], 2) == 0 then EXACT else ANY, expectedSats := Uint(w[3], TWO_64),
      minSats := Uint(w[4], TWO_64), maxSats := Uint(w[5], TWO_64), nonce := w[6], expiry := Uint(w[7], TWO_64))
  }

  predicate IsRequestEncoding(w: seq<Bytes32>) {
    && |w| == 6 && IsUint(w[0], TWO_256) && IsUint(w[2], TWO_64) && IsUint(w[3], TWO_64)
    && IsUint(w[4], TWO_64) && IsUint(w[5], TWO_64)
  }

  /** By the type list of a redeem request. */
  function DecodeRequest(w: seq<Bytes32>): RedeemRequest
    requires IsRequestEncoding(w)
  {
    RedeemRequest(
      requester := Uint(w[0], TWO_256), destinationScriptHash := w[1], amountSats := Uint(w[2], TWO_64),
      maxMinerFeeSats := Uint(w[3], TWO_64), deadline := Uint(w[4], TWO_64), requestNonce := Uint(w[5], TWO_64))
  }

  predicate IsInputEncoding(w: seq<Bytes32>) {
    && |w| == 4 && IsUint(w[1], TWO_32) && IsUint(w[2], TWO_64)
  }

  /** By the type list of an input leaf. */
  function DecodeInput(w: seq<Bytes32>): S.Input
    requires IsInputEncoding(w)
  {
    S.Input(btcTxId := w[0], vout := Uint(w[1], TWO_32), valueSats := Uint(w[2], TWO_64), scriptTemplateId := w[3])
  }

  /** An integer of type int32: the upper half of the words stands for the negative ones. */
  function Int32(w: Bytes32): int
    requires IsUint(w, TWO_256)
  {
    if w.n < TWO_256 / 2 then w.n else w.n - TWO_256
  }

  /** A struct hash hashes what decodes to the authorization. */
  lemma MintDecodes(a: MintAuthorization)
    requires a.recipient0x < TWO_256
    ensures var h := MintStructHash(a);
      h.Keccak? && IsMintEncoding(h.words) && DecodeMint(h.words) == a
  {
  }

  lemma ReleaseDecodes(a: ReleaseAuthorization)
    requires a.requester < TWO_256
    ensures var h := ReleaseStructHash(a);
      h.Keccak? && IsReleaseEncoding(h.words) && DecodeRelease(h.words) == a
  {
  }

  /** Behind the domain, the identifiers of deposits and requests hash what decodes to the intent and the request. */
  lemma IdentifiersDecode(domain: Bytes32, i: DepositIntent, r: RedeemRequest)
    requires i.recipient0x < TWO_256 && r.requester < TWO_256
    ensures var id := DepositIdOf(domain, i);
      id.Keccak? && |id.words| == 9 && id.words[0] == domain && IsIntentEncoding(id.words[1..])
      && DecodeIntent(id.words[1..]) == i
    ensures var h := RedeemRequestHash(domain, r);
      h.Keccak? && |h.words| == 7 && h.words[0] == domain && IsRequestEncoding(h.words[1..])
      && DecodeRequest(h.words[1..]) == r
  {
  }

  /** The identifiers of redeems and outputs are of static tuples. */
  lemma KeysAreAbi(domain: Bytes32, txHash: Bytes32, index: Uint32, requestHash: Bytes32)
    ensures RedeemIdOf(domain, txHash, index, requestHash)
         == Keccak(EncodeStatic([domain, txHash, Word(index), requestHash]))
    ensures UtxoKey(txHash, index) == Keccak(EncodeStatic([txHash, Word(index)]))
  {
    hide EncodeStatic;
    StaticHasNoTails([domain, txHash, Word(index), requestHash]);
    StaticHasNoTails([txHash, Word(index)]);
  }

  /** What a release commits to: its inputs, and as its policy fee, version, lock time, sighash type and change. */
  lemma PlanHashesDecode(i: S.Input, p: S.Plan, changePolicyHash: Bytes32)
    requires S.InputFits(i) && S.PolicyFits(p)
    ensures var leaf := S.InputLeaf(i);
      leaf.Keccak? && IsInputEncoding(leaf.words) && DecodeInput(leaf.words) == i
    ensures var h := S.PsbtPolicyHash(p, changePolicyHash);
      && h.Keccak? && |h.words| == 5
      && IsUint(h.words[0], TWO_64) && Uint(h.words[0], TWO_64) == p.feeSats
      && IsUint(h.words[1], TWO_256) && Int32(h.words[1]) == p.nVersion
      && IsUint(h.words[2], TWO_64) && Uint(h.words[2], TWO_64) == p.nLockTime
      && IsUint(h.words[3], TWO_32) && Uint(h.words[3], TWO_32) == p.sighashType
      && h.words[4] == changePolicyHash
  {
  }

  /** A list of leaves as bytes32[]. */
  lemma LeavesAreAbi(leaves: seq<Bytes32>)
    ensures S.Commitment(leaves) == Keccak(Encode([Dynamic(|leaves|, leaves)]))
  {
    var args := [Dynamic(|leaves|, leaves)];
    assert args[..0] == [] && Tails(args) == [Word(|leaves|)] + leaves;
    assert Encode(args) == [Word(32), Word(|leaves|)] + leaves;
  }

  lemma DynamicThenStatic(words: seq<Bytes32>, last: Bytes32)
    ensures Encode([Dynamic(|words|, words), Static(last)]) == [Word(64), last, Word(|words|)] + words
  {
    var args := [Dynamic(|words|, words), Static(last)];
    assert args[..0] == [] && args[..1] == [args[0]] && args[..1][..0] == [];
    assert Tails(args[..1]) == [Word(|words|)] + words;
    assert Tails(args) == [Word(|words|)] + words;
  }

  /** A signer set as (address[], uint256). */
  lemma SignerSetIsAbi(signers: seq<Address>, threshold: nat)
    ensures A.SignerSetDigest(signers, threshold)
         == Keccak(Encode([Dynamic(|signers|, seq(|signers|, k requires 0 <= k < |signers| => Word(signers[k]))),
                           Static(Word(threshold))]))
  {
    hide Encode;
    var words := seq(|signers|, k requires 0 <= k < |signers| => Word(signers[k]));
    DynamicThenStatic(words, Word(threshold));
    assert A.Words(signers) == words;
  }

  /** The commitments of a release are the lists of its leaves, in order. */
  lemma CommitmentsAreAbi(inputs: seq<S.Input>, outputs: seq<S.Output>)
    requires forall i :: 0 <= i < |outputs| ==> S.OutputFits(outputs[i])
    ensures exists leaves: seq<Bytes32> ::
              && |leaves| == |inputs| && (forall i :: 0 <= i < |inputs| ==> leaves[i] == S.InputLeaf(inputs[i]))
              && S.InputsCommitment(inputs) == Keccak(Encode([Dynamic(|inputs|, leaves)]))
    ensures exists leaves: seq<Bytes32> ::
              && |leaves| == |outputs| && (forall i :: 0 <= i < |outputs| ==> leaves[i] == S.OutputLeaf(outputs[i]))
              && S.OutputsCommitment(outputs) == Keccak(Encode([Dynamic(|outputs|, leaves)]))
  {
    hide S.InputLeaf, S.OutputLeaf, Encode, S.OutputFits;
    var a := seq(|inputs|, i requires 0 <= i < |inputs| => S.InputLeaf(inputs[i]));
    var b := seq(|outputs|, i requires 0 <= i < |outputs| => S.OutputLeaf(outputs[i]));
    LeavesAreAbi(a);
    LeavesAreAbi(b);
  }

  /** A text of one-byte characters as bytes. */
  ghost predicate Spells(bytes: seq<Byte>, text: string) {
    && |bytes| == |text|
    && forall k :: 0 <= k < |text| ==> bytes[k] == text[k] as int
  }

  lemma ContextIsSpelled()
    ensures AUTHORIZATION_CONTEXT.KeccakBytes?
      && Spells(AUTHORIZATION_CONTEXT.data, "BitcoinBride.Authorization.V1")
  {
  }

  lemma PrefixIsSpelled()
    ensures Spells(A.MESSAGE_PREFIX, "\U{19}Ethereum Signed Message:\n32")
  {
  }

  /** What signers sign: the digest under the prefix of signed messages, with the context of this bridge in it. */
  lemma SignedTextsAreSpelled(domain: Bytes32, structHash: Bytes32, signerSetDigest: Bytes32)
    ensures exists context: seq<Byte>, prefix: seq<Byte> ::
              && Spells(context, "BitcoinBride.Authorization.V1")
              && Spells(prefix, "\U{19}Ethereum Signed Message:\n32")
              && A.EthSignedMessage(AuthorizationDigest(domain, structHash, signerSetDigest))
                   == Keccak([KeccakBytes(prefix),
                              Keccak(EncodeStatic([KeccakBytes(context), domain, structHash, signerSetDigest]))])
  {
    hide Spells, EncodeStatic;
    StaticHasNoTails([AUTHORIZATION_CONTEXT, domain, structHash, signerSetDigest]);
    ContextIsSpelled();
    PrefixIsSpelled();
  }
}
