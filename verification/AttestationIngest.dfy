/**
  Release attestations off the chain: building one, and checking one before it is sent or signed
  for, against the verifier contract.

  Addresses are numbers; comparing their lower-case hex text is comparing the numbers. Signature
  recovery is a parameter here as in the contract. The main results: a set of configured signers is
  put in the one order the contract accepts (NormalizedIsAcceptable), the off-chain check and the
  contract accept the same attestations (EnvelopeAgreesWithContract), and an attestation built from
  enough wallets is always accepted (BuiltMintIsAccepted, BuiltReleaseIsAccepted).
 */
module AttestationIngest {
  import opened BridgeTypes
  import opened Ownable
  import opened V = AttestationVerifier

  datatype Refusal =
    | DuplicateSigners | InvalidThreshold | ThresholdExceedsSigners | RequestHashMismatch | Expired
    | SignerSetMismatch | Undecodable | EncodedSignerSetMismatch | MessageDigestMismatch | TooFewSignatures
    | UnrecoverableSignature | UnauthorizedSignature | DuplicateSignature | InsufficientSignatures

  datatype Result<+T> = Ok(value: T) | Err(error: Refusal)

  // ----- The signer set -----

  function InsertAddress(a: Address, sorted: seq<Address>): seq<Address> {
    if sorted == [] then [a]
    else if a < sorted[0] then [a] + sorted
    else [sorted[0]] + InsertAddress(a, sorted[1..])
  }

  function SortAddresses(addresses: seq<Address>): seq<Address> {
    if addresses == [] then []
    else InsertAddress(addresses[|addresses| - 1], SortAddresses(addresses[..|addresses| - 1]))
  }

  function NormalizeSignerAddresses(addresses: seq<Address>): Result<seq<Address>> {
    if |ToSet(SortAddresses(addresses))| != |addresses| then Err(DuplicateSigners) else Ok(SortAddresses(addresses))
  }

  predicate Ascending(s: seq<Address>) {
    forall i, j | 0 <= i < j < |s| :: s[i] <= s[j]
  }

  lemma PutFirst(a: Address, rest: seq<Address>)
    requires Ascending(rest) && forall b | b in rest :: a <= b
    ensures Ascending([a] + rest) && ToSet([a] + rest) == {a} + ToSet(rest)
  {
    forall i, j | 0 <= i < j < |[a] + rest| ensures ([a] + rest)[i] <= ([a] + rest)[j] {
      assert rest[j - 1] in rest;
    }
  }

  lemma {:induction false} InsertAscends(a: Address, sorted: seq<Address>)
    requires Ascending(sorted)
    ensures Ascending(InsertAddress(a, sorted)) && |InsertAddress(a, sorted)| == |sorted| + 1
    ensures ToSet(InsertAddress(a, sorted)) == ToSet(sorted) + {a}
    decreases |sorted|
  {
    hide Ascending;
    if sorted == [] {
      OneAscends(a);
    } else {
      LeastFirst(sorted);
      if a < sorted[0] {
        PutFirst(a, sorted);
      } else {
        var rest := sorted[1..];
        InsertAscends(a, rest);
        forall b | b in InsertAddress(a, rest) ensures sorted[0] <= b {
          assert b in ToSet(InsertAddress(a, rest));
          if b != a {
            assert b in ToSet(rest) && b in rest && b in sorted;
          }
        }
        PutFirst(sorted[0], InsertAddress(a, rest));
        assert ToSet(sorted) == {sorted[0]} + ToSet(rest);
      }
    }
  }

  lemma OneAscends(a: Address)
    ensures Ascending([a])
  {
  }

  lemma LeastFirst(sorted: seq<Address>)
    requires Ascending(sorted) && sorted != []
    ensures Ascending(sorted[1..]) && sorted == [sorted[0]] + sorted[1..]
    ensures forall b | b in sorted :: sorted[0] <= b
  {
  }

  lemma {:induction false} SortAscends(addresses: seq<Address>)
    ensures Ascending(SortAddresses(addresses)) && |SortAddresses(addresses)| == |addresses|
    ensures ToSet(SortAddresses(addresses)) == ToSet(addresses)
    decreases |addresses|
  {
    if addresses != [] {
      var n := |addresses| - 1;
      SortAscends(addresses[..n]);
      InsertAscends(addresses[n], SortAddresses(addresses[..n]));
      assert addresses == addresses[..n] + [addresses[n]];
      assert ToSet(addresses) == ToSet(addresses[..n]) + {addresses[n]};
    }
  }

  lemma RepeatShrinks(s: seq<Address>, i: nat, j: nat)
    requires i < j < |s| && s[i] == s[j]
    ensures |ToSet(s)| < |s|
  {
    var without := s[..j] + s[j + 1..];
    assert s == s[..j] + [s[j]] + s[j + 1..];
    assert s[i] == without[i];
    assert ToSet(s) == ToSet(without);
    AtMostLength(without);
  }

  lemma {:induction false} AtMostLength(s: seq<Address>)
    ensures |ToSet(s)| <= |s|
    decreases |s|
  {
    if s != [] {
      var n := |s| - 1;
      AtMostLength(s[..n]);
      assert s == s[..n] + [s[n]];
      assert ToSet(s) == ToSet(s[..n]) + {s[n]};
    }
  }

  /** Distinct addresses come out in the contract's order; repeated ones are refused. */
  lemma NormalizedIsAcceptable(addresses: seq<Address>)
    ensures NormalizeSignerAddresses(addresses).Ok? <==> Distinct(addresses)
    ensures NormalizeSignerAddresses(addresses).Ok? ==>
      var s := NormalizeSignerAddresses(addresses).value;
      && StrictlyIncreasing(s) && ToSet(s) == ToSet(addresses) && |s| == |addresses|
      && forall t: nat :: ZERO_ADDRESS !in addresses && 0 < t <= |addresses| ==> AcceptableSignerSet(s, t)
  {
    SortAscends(addresses);
    var s := SortAddresses(addresses);
    if NormalizeSignerAddresses(addresses).Ok? {
      forall i | 0 < i < |s| ensures s[i - 1] < s[i] {
        if s[i - 1] == s[i] {
          RepeatShrinks(s, i - 1, i);
        }
      }
      forall i, j | 0 <= i < j < |addresses| ensures addresses[i] != addresses[j] {
        if addresses[i] == addresses[j] {
          RepeatShrinks(addresses, i, j);
        }
      }
      assert ZERO_ADDRESS in s <==> ZERO_ADDRESS in ToSet(s);
      assert ZERO_ADDRESS in addresses <==> ZERO_ADDRESS in ToSet(addresses);
    }
    if Distinct(addresses) {
      DistinctCount(addresses);
    }
  }

  // ----- The envelope -----

  /** The attestation is what abi.decode makes of its bytes. */
  datatype Envelope = Envelope(
    redeemRequestHash: Bytes32, signerSetDigest: Bytes32, messageDigest: Bytes32, attestation: Attestation)

  function CheckEnvelopeSignatures(recover: Recover, digest: Bytes32, signatures: seq<seq<Byte>>,
                                   authorized: set<Address>,
                                   i: nat, recovered: set<Address>): Result<nat>
    requires i <= |signatures|
    decreases |signatures| - i
  {
    if i == |signatures| then Ok(|recovered|)
    else
      match recover(digest, signatures[i])
      case None => Err(UnrecoverableSignature)
      case Some(signer) =>
        if signer !in authorized then Err(UnauthorizedSignature)
        else if signer in recovered then Err(DuplicateSignature)
        else CheckEnvelopeSignatures(recover, digest, signatures, authorized, i + 1, recovered + {signer})
  }

  function ExpectedDigest(a: ReleaseAuthorization, signers: seq<Address>, threshold: nat): Bytes32 {
    AuthorizationDigest(a.bridgeDomain, ReleaseStructHash(a), SignerSetDigest(signers, threshold))
  }

  /** Ok carries how many signers were recovered. */
  function VerifyEnvelope(recover: Recover, a: ReleaseAuthorization, e: Envelope, addresses: seq<Address>,
                          threshold: int, now: Option<nat>): Result<nat> {
    match NormalizeSignerAddresses(addresses)
    case Err(r) => Err(r)
    case Ok(signers) =>
      if threshold <= 0 then Err(InvalidThreshold)
      else if threshold > |signers| then Err(ThresholdExceedsSigners)
      else if e.redeemRequestHash != a.redeemRequestHash then Err(RequestHashMismatch)
      else if now.Some? && now.value > a.deadline then Err(Expired)
      else if e.signerSetDigest != SignerSetDigest(signers, threshold) then Err(SignerSetMismatch)
      else if e.attestation.isEmpty || e.attestation.word.None? || e.attestation.signatures.None? then Err(Undecodable)
      else if e.attestation.word.value != e.signerSetDigest then Err(EncodedSignerSetMismatch)
      else if e.messageDigest != ExpectedDigest(a, signers, threshold) then Err(MessageDigestMismatch)
      else if |e.attestation.signatures.value| < threshold then Err(TooFewSignatures)
      else
        match CheckEnvelopeSignatures(recover, EthSignedMessage(e.messageDigest), e.attestation.signatures.value,
                                      ToSet(signers), 0, {})
        case Err(r) => Err(r)
        case Ok(count) => if count < threshold then Err(InsufficientSignatures) else Ok(count)
  }

  method VerifyReleaseAttestationEnvelope(recover: Recover, a: ReleaseAuthorization, e: Envelope,
                                          addresses: seq<Address>,
                                          threshold: int, now: Option<nat>) returns (result: Result<nat>)
    ensures result == VerifyEnvelope(recover, a, e, addresses, threshold, now)
  {
    var normalized := NormalizeSignerAddresses(addresses);
    if normalized.Err? {
      return Err(normalized.error);
    }
    var signers := normalized.value;
    if threshold <= 0 {
      return Err(InvalidThreshold);
    }
    if threshold > |signers| {
      return Err(ThresholdExceedsSigners);
    }
    if e.redeemRequestHash != a.redeemRequestHash {
      return Err(RequestHashMismatch);
    }
    if now.Some? && now.value > a.deadline {
      return Err(Expired);
    }
    if e.signerSetDigest != SignerSetDigest(signers, threshold) {
      return Err(SignerSetMismatch);
    }
    if e.attestation.isEmpty || e.attestation.word.None? || e.attestation.signatures.None? {
      return Err(Undecodable);
    }
    if e.attestation.word.value != e.signerSetDigest {
      return Err(EncodedSignerSetMismatch);
    }
    var expected := ExpectedDigest(a, signers, threshold);
    if e.messageDigest != expected {
      return Err(MessageDigestMismatch);
    }
    var signatures := e.attestation.signatures.value;
    if |signatures| < threshold {
      return Err(TooFewSignatures);
    }
    var authorized := ToSet(signers);
    var recovered: set<Address> := {};
    for i := 0 to |signatures|
      invariant CheckEnvelopeSignatures(recover, EthSignedMessage(expected), signatures, authorized, 0, {})
             == CheckEnvelopeSignatures(recover, EthSignedMessage(expected), signatures, authorized, i, recovered)
    {
      var signer := recover(EthSignedMessage(expected), signatures[i]);
      if signer.None? {
        return Err(UnrecoverableSignature);
      }
      if signer.value !in authorized {
        return Err(UnauthorizedSignature);
      }
      if signer.value in recovered {
        return Err(DuplicateSignature);
      }
      recovered := recovered + {signer.value};
    }
    if |recovered| < threshold {
      return Err(InsufficientSignatures);
    }
    return Ok(|recovered|);
  }

  // ----- What an accepted envelope is -----

  lemma {:induction false} OneIncreasingList(a: seq<Address>, b: seq<Address>)
    requires StrictlyIncreasing(a) && StrictlyIncreasing(b) && ToSet(a) == ToSet(b)
    ensures a == b
    decreases |a|
  {
    if a == [] {
      NobodyInNone(b);
    } else {
      assert a[0] in ToSet(b) && (b != [] ==> b[0] in ToSet(a));
      RestOfIncreasing(a);
      RestOfIncreasing(b);
      OneIncreasingList(a[1..], b[1..]);
      assert a == [a[0]] + a[1..] && b == [b[0]] + b[1..];
    }
  }

  lemma NobodyInNone(s: seq<Address>)
    ensures ToSet(s) == {} <==> s == []
  {
    if s != [] {
      assert s[0] in ToSet(s);
    }
  }

  lemma RestOfIncreasing(s: seq<Address>)
    requires StrictlyIncreasing(s) && s != []
    ensures StrictlyIncreasing(s[1..]) && ToSet(s[1..]) == ToSet(s) - {s[0]}
    ensures forall a | a in ToSet(s) :: s[0] <= a
  {
    forall i | 0 < i < |s| ensures s[0] < s[i] {
      IncreasingIsOrdered(s, 0, i);
    }
    assert s == [s[0]] + s[1..];
  }

  /**
    Exactly when an envelope is accepted, by the addresses and their increasing list: the addresses are
    distinct and the threshold is within their number, every label and digest is the one expected, and
    threshold or more signatures recover distinct ones of the addresses.
   */
  lemma EnvelopeIsDecided(recover: Recover, a: ReleaseAuthorization, e: Envelope, addresses: seq<Address>,
                          signers: seq<Address>, threshold: nat, now: Option<nat>)
    requires StrictlyIncreasing(signers) && ToSet(signers) == ToSet(addresses)
    ensures VerifyEnvelope(recover, a, e, addresses, threshold, now).Ok? <==>
      && Distinct(addresses) && 1 <= threshold <= |addresses| && e.redeemRequestHash == a.redeemRequestHash
      && (now.Some? ==> now.value <= a.deadline)
      && e.signerSetDigest == SignerSetDigest(signers, threshold)
      && e.messageDigest == AuthorizationDigest(a.bridgeDomain, ReleaseStructHash(a), e.signerSetDigest)
      && !e.attestation.isEmpty && e.attestation.word == Some(e.signerSetDigest) && e.attestation.signatures.Some?
      && |e.attestation.signatures.value| >= threshold
      && exists who: seq<Address> ::
           Recovers(recover, EthSignedMessage(e.messageDigest), e.attestation.signatures.value, who) && Distinct(who)
           && ToSet(who) <= ToSet(addresses)
    ensures var (r, att) := (VerifyEnvelope(recover, a, e, addresses, threshold, now), e.attestation);
      r.Err? ==>
        if !Distinct(addresses) then r.error == DuplicateSigners
        else if threshold == 0 then r.error == InvalidThreshold
        else if threshold > |addresses| then r.error == ThresholdExceedsSigners
        else if e.redeemRequestHash != a.redeemRequestHash then r.error == RequestHashMismatch
        else if now.Some? && now.value > a.deadline then r.error == Expired
        else if e.signerSetDigest != SignerSetDigest(signers, threshold) then r.error == SignerSetMismatch
        else if att.isEmpty || att.word.None? || att.signatures.None? then r.error == Undecodable
        else if att.word.value != e.signerSetDigest then r.error == EncodedSignerSetMismatch
        else if e.messageDigest != AuthorizationDigest(a.bridgeDomain, ReleaseStructHash(a), e.signerSetDigest)
          then r.error == MessageDigestMismatch
        else if |att.signatures.value| < threshold then r.error == TooFewSignatures
        else r.error in {UnrecoverableSignature, UnauthorizedSignature, DuplicateSignature}
  {
    hide EthSignedMessage, AuthorizationDigest, SignerSetDigest, ReleaseStructHash, CheckEnvelopeSignatures,
      CheckSignatures, SortAddresses, Recovers, Distinct;
    NormalizedIsAcceptable(addresses);
    if Distinct(addresses) {
      OneIncreasingList(NormalizeSignerAddresses(addresses).value, signers);
      if e.attestation.signatures.Some? && |e.attestation.signatures.value| >= threshold {
        SignaturesAreDecided(recover, EthSignedMessage(e.messageDigest), e.attestation.signatures.value, signers,
                             threshold);
      }
    }
  }

  lemma SignaturesAreDecided(recover: Recover, digest: Bytes32, signatures: seq<seq<Byte>>, signers: seq<Address>,
                             threshold: nat)
    requires |signatures| >= threshold
    ensures var r := CheckEnvelopeSignatures(recover, digest, signatures, ToSet(signers), 0, {});
      && (r.Ok? <==> exists who: seq<Address> ::
           Recovers(recover, digest, signatures, who) && Distinct(who) && ToSet(who) <= ToSet(signers))
      && (r.Ok? ==> r.value == |signatures|)
      && (r.Err? ==> r.error in {UnrecoverableSignature, UnauthorizedSignature, DuplicateSignature})
  {
    hide CheckEnvelopeSignatures, CheckSignatures, Recovers;
    var v := Verifier(RENOUNCED, Word(0), threshold, Word(0), ToSet(signers), signers);
    assert ToSet([]) == {};
    SignatureChecksAgree(v, recover, recover, digest, signatures, 0, []);
    CheckAcceptsQuorum(v, recover, digest, signatures, 0, []);
    SignatureRefusals(recover, digest, signatures, ToSet(signers), 0, {});
  }

  lemma {:induction false} SignatureRefusals(recover: Recover, digest: Bytes32, signatures: seq<seq<Byte>>,
                                             authorized: set<Address>, i: nat, recovered: set<Address>)
    requires i <= |signatures|
    ensures var r := CheckEnvelopeSignatures(recover, digest, signatures, authorized, i, recovered);
      r.Err? ==> r.error in {UnrecoverableSignature, UnauthorizedSignature, DuplicateSignature}
    decreases |signatures| - i
  {
    if i < |signatures| {
      var signer := recover(digest, signatures[i]);
      if signer.Some? {
        SignatureRefusals(recover, digest, signatures, authorized, i + 1, recovered + {signer.value});
      }
    }
  }

  // ----- Agreement with the contract -----

  /** Both recover the same signer from these signatures. */
  ghost predicate RecoverAlike(f: Recover, g: Recover, digest: Bytes32, signatures: seq<seq<Byte>>) {
    forall i | 0 <= i < |signatures| :: f(digest, signatures[i]) == g(digest, signatures[i])
  }

  lemma {:induction false} SignatureChecksAgree(v: Verifier, f: Recover, g: Recover, digest: Bytes32,
                                                signatures: seq<seq<Byte>>,
                                                i: nat, recovered: seq<Address>)
    requires i == |recovered| <= |signatures| && |signatures| >= v.threshold
    requires RecoverAlike(f, g, digest, signatures) && Distinct(recovered)
    ensures CheckEnvelopeSignatures(f, digest, signatures, v.authorizedSigner, i, ToSet(recovered)).Ok?
       <==> CheckSignatures(v, g, digest, signatures, i, recovered).None?
    ensures CheckEnvelopeSignatures(f, digest, signatures, v.authorizedSigner, i, ToSet(recovered)).Ok?
        ==> |signatures|
            == CheckEnvelopeSignatures(f, digest, signatures, v.authorizedSigner, i, ToSet(recovered)).value
    decreases |signatures| - i
  {
    if i == |signatures| {
      DistinctCount(recovered);
    } else {
      var r := f(digest, signatures[i]);
      assert r == g(digest, signatures[i]);
      if r.Some? && r.value in v.authorizedSigner && r.value !in recovered {
        assert ToSet(recovered + [r.value]) == ToSet(recovered) + {r.value};
        SignatureChecksAgree(v, f, g, digest, signatures, i + 1, recovered + [r.value]);
      }
    }
  }

  /**
    With the contract's signers, threshold and domain configured, an envelope with the right labels
    is accepted exactly when the contract would accept its attestation then.
   */
  lemma EnvelopeAgreesWithContract(v: Verifier, f: Recover, g: Recover, a: ReleaseAuthorization, e: Envelope,
                                   addresses: seq<Address>, now: Uint64)
    requires Consistent(v) && NormalizeSignerAddresses(addresses) == Ok(v.signers) && a.bridgeDomain == v.bridgeDomain
    requires e.redeemRequestHash == a.redeemRequestHash && e.signerSetDigest == v.signerSetDigest
    requires e.messageDigest == ExpectedDigest(a, v.signers, v.threshold)
    requires e.attestation.signatures.Some?
      ==> RecoverAlike(f, g, EthSignedMessage(e.messageDigest), e.attestation.signatures.value)
    ensures VerifyEnvelope(f, a, e, addresses, v.threshold, Some(now)).Ok?
      <==> VerifyRelease(v, g, now, a, e.attestation).None?
  {
    hide EthSignedMessage, AuthorizationDigest, SignerSetDigest, ReleaseStructHash, NormalizeSignerAddresses,
      CheckEnvelopeSignatures, CheckSignatures;
    var att := e.attestation;
    assert ToSet([]) == {};
    if !att.isEmpty && att.word.Some? && att.signatures.Some? && |att.signatures.value| >= v.threshold {
      SignatureChecksAgree(v, f, g, EthSignedMessage(e.messageDigest), att.signatures.value, 0, []);
    }
  }

  // ----- Building an attestation -----

  /** A wallet signs a message digest for its address. */
  datatype Wallet = Wallet(address: Address, sign: Bytes32 -> seq<Byte>)

  predicate Signs(w: Wallet, recover: Recover, messageDigest: Bytes32) {
    recover(EthSignedMessage(messageDigest), w.sign(messageDigest)) == Some(w.address)
  }

  function AddressesOf(wallets: seq<Wallet>): (s: seq<Address>)
    ensures |s| == |wallets|
  {
    seq(|wallets|, i requires 0 <= i < |wallets| => wallets[i].address)
  }

  function InsertWallet(w: Wallet, sorted: seq<Wallet>): seq<Wallet> {
    if sorted == [] then [w]
    else if w.address < sorted[0].address then [w] + sorted
    else [sorted[0]] + InsertWallet(w, sorted[1..])
  }

  function SortWallets(wallets: seq<Wallet>): seq<Wallet> {
    if wallets == [] then [] else InsertWallet(wallets[|wallets| - 1], SortWallets(wallets[..|wallets| - 1]))
  }

  /** Wallets are put in the order the signer set is put in. */
  lemma {:induction false} WalletsSortAsSigners(wallets: seq<Wallet>)
    ensures AddressesOf(SortWallets(wallets)) == SortAddresses(AddressesOf(wallets))
    ensures forall w | w in SortWallets(wallets) :: w in wallets
    decreases |wallets|
  {
    if wallets != [] {
      var n := |wallets| - 1;
      WalletsSortAsSigners(wallets[..n]);
      InsertsAlike(wallets[n], SortWallets(wallets[..n]));
      assert AddressesOf(wallets)[..n] == AddressesOf(wallets[..n]);
    }
  }

  lemma {:induction false} InsertsAlike(w: Wallet, sorted: seq<Wallet>)
    ensures AddressesOf(InsertWallet(w, sorted)) == InsertAddress(w.address, AddressesOf(sorted))
    ensures forall x | x in InsertWallet(w, sorted) :: x == w || x in sorted
    decreases |sorted|
  {
    if sorted != [] {
      InsertsAlike(w, sorted[1..]);
      assert AddressesOf(sorted)[1..] == AddressesOf(sorted[1..]);
    }
  }

  function Signers(threshold: nat, ordered: seq<Wallet>): seq<Wallet> {
    if threshold <= |ordered| then ordered[..threshold] else ordered
  }

  /** What an attestation holds that is built for a struct hash. */
  predicate IsBuilt(att: Attestation, domain: Bytes32, structHash: Bytes32, wallets: seq<Wallet>, threshold: nat) {
    var ordered := SortWallets(wallets);
    var digest := SignerSetDigest(AddressesOf(ordered), threshold);
    var signing := Signers(threshold, ordered);
    && !att.isEmpty && att.word == Some(digest) && att.signatures.Some? && |att.signatures.value| == |signing|
    && forall i | 0 <= i < |signing| ::
         att.signatures.value[i] == signing[i].sign(AuthorizationDigest(domain, structHash, digest))
  }

  /** The first threshold wallets, in the order of their addresses, sign. */
  method BuildAttestation(domain: Bytes32, structHash: Bytes32, wallets: seq<Wallet>, threshold: nat)
    returns (att: Attestation)
    ensures IsBuilt(att, domain, structHash, wallets, threshold)
  {
    var ordered := SortWallets(wallets);
    var digest := SignerSetDigest(AddressesOf(ordered), threshold);
    var messageDigest := AuthorizationDigest(domain, structHash, digest);
    var signing := Signers(threshold, ordered);
    var signatures: seq<seq<Byte>> := [];
    for i := 0 to |signing|
      invariant |signatures| == i && forall k | 0 <= k < i :: signatures[k] == signing[k].sign(messageDigest)
    {
      signatures := signatures + [signing[i].sign(messageDigest)];
    }
    return Attestation(false, Some(digest), Some(signatures));
  }

  lemma BuiltIsQuorum(v: Verifier, recover: Recover, structHash: Bytes32, wallets: seq<Wallet>, att: Attestation)
    requires Consistent(v) && NormalizeSignerAddresses(AddressesOf(wallets)) == Ok(v.signers)
    requires forall w | w in wallets ::
      Signs(w, recover, AuthorizationDigest(v.bridgeDomain, structHash, v.signerSetDigest))
    requires IsBuilt(att, v.bridgeDomain, structHash, wallets, v.threshold)
    ensures VerifyAttestation(v, recover, structHash, att).None?
  {
    hide EthSignedMessage, AuthorizationDigest, SignerSetDigest;
    AcceptedIffQuorum(v, recover, structHash, att);
    WalletsSortAsSigners(wallets);
    var ordered := SortWallets(wallets);
    assert AddressesOf(ordered) == v.signers && |ordered| == |v.signers|;
    var who := v.signers[..v.threshold];
    forall i, j | 0 <= i < j < |who| ensures who[i] != who[j] {
      IncreasingIsOrdered(v.signers, i, j);
    }
    forall i | 0 <= i < |who|
      ensures recover(EthSignedMessage(AuthorizationDigest(v.bridgeDomain, structHash, v.signerSetDigest)),
                      att.signatures.value[i]) == Some(who[i])
    {
      assert ordered[i] in wallets && who[i] == ordered[i].address;
      assert Signs(ordered[i], recover, AuthorizationDigest(v.bridgeDomain, structHash, v.signerSetDigest));
    }
    assert ToSet(who) <= ToSet(v.signers);
  }

  /** The contract accepts a built mint attestation until its deadline. */
  lemma BuiltMintIsAccepted(v: Verifier, recover: Recover, a: MintAuthorization, wallets: seq<Wallet>,
                            att: Attestation, now: Uint64)
    requires Consistent(v) && NormalizeSignerAddresses(AddressesOf(wallets)) == Ok(v.signers)
      && a.bridgeDomain == v.bridgeDomain && now <= a.deadline
    requires forall w | w in wallets ::
      Signs(w, recover, AuthorizationDigest(v.bridgeDomain, MintStructHash(a), v.signerSetDigest))
    requires IsBuilt(att, v.bridgeDomain, MintStructHash(a), wallets, v.threshold)
    ensures VerifyMint(v, recover, now, a, att).None?
  {
    BuiltIsQuorum(v, recover, MintStructHash(a), wallets, att);
  }

  /** The contract and the off-chain check both accept a built release attestation until its deadline. */
  lemma BuiltReleaseIsAccepted(v: Verifier, recover: Recover, a: ReleaseAuthorization, wallets: seq<Wallet>,
                               att: Attestation,
                               now: Uint64)
    requires Consistent(v) && NormalizeSignerAddresses(AddressesOf(wallets)) == Ok(v.signers)
      && a.bridgeDomain == v.bridgeDomain && now <= a.deadline
    requires forall w | w in wallets :: Signs(w, recover, ExpectedDigest(a, v.signers, v.threshold))
    requires IsBuilt(att, v.bridgeDomain, ReleaseStructHash(a), wallets, v.threshold)
    ensures VerifyRelease(v, recover, now, a, att).None?
    ensures VerifyEnvelope(recover, a,
                           Envelope(a.redeemRequestHash, v.signerSetDigest, ExpectedDigest(a, v.signers, v.threshold),
                                    att),
                           AddressesOf(wallets), v.threshold, Some(now)).Ok?
  {
    hide EthSignedMessage, AuthorizationDigest, SignerSetDigest, ReleaseStructHash, VerifyAttestation, VerifyEnvelope;
    BuiltIsQuorum(v, recover, ReleaseStructHash(a), wallets, att);
    var e := Envelope(a.redeemRequestHash, v.signerSetDigest, ExpectedDigest(a, v.signers, v.threshold), att);
    EnvelopeAgreesWithContract(v, recover, recover, a, e, AddressesOf(wallets), now);
  }
}
