/**
  The ECDSA verifier: a strictly increasing signer list, a threshold, and the check that an
  attestation carries distinct authorized signatures.

  ecrecover is a parameter: a function from a digest and a signature to an address, or to
  nothing. Every statement below holds whatever that function is.
 */
module AttestationVerifier {
  import opened BridgeTypes
  import opened Ownable

  type Recover = (Bytes32, seq<Byte>) -> Option<Address>

  datatype Verifier = Verifier(
    ownership: Ownership,
    bridgeDomain: Bytes32,
    threshold: nat,
    signerSetDigest: Bytes32,
    authorizedSigner: set<Address>,
    signers: seq<Address>)

  datatype VerifierCall =
    | SetSignerSet(newSigners: seq<Address>, newThreshold: nat)
    | OwnVerifier(call: OwnerCall)

  /** keccak256(abi.encode(address[], uint256)): head, threshold, length, then the elements. */
  function SignerSetDigest(signers: seq<Address>, threshold: nat): Bytes32 {
    Keccak([Word(64), Word(threshold), Word(|signers|)] + Words(signers))
  }

  function Words(signers: seq<Address>): seq<Bytes32> {
    seq(|signers|, i requires 0 <= i < |signers| => Word(signers[i]))
  }

  /** The text "\x19Ethereum Signed Message:\n32". */
  const MESSAGE_PREFIX: seq<Byte> := [
    0x19, 0x45, 0x74, 0x68, 0x65, 0x72, 0x65, 0x75, 0x6d, 0x20, 0x53, 0x69, 0x67, 0x6e, 0x65, 0x64,
    0x20, 0x4d, 0x65, 0x73, 0x73, 0x61, 0x67, 0x65, 0x3a, 0x0a, 0x33, 0x32
  ]

  /** The hash of the prefix and the digest; the pair stands for the packed bytes. */
  function EthSignedMessage(digest: Bytes32): Bytes32 {
    Keccak([KeccakBytes(MESSAGE_PREFIX), digest])
  }

  predicate StrictlyIncreasing(signers: seq<Address>) {
    forall i | 0 < i < |signers| :: signers[i - 1] < signers[i]
  }

  predicate AcceptableSignerSet(signers: seq<Address>, threshold: nat) {
    0 < threshold <= |signers| && StrictlyIncreasing(signers) && ZERO_ADDRESS !in signers
  }

  function ToSet(s: seq<Address>): set<Address> { set a | a in s }

  function ReplaceSigners(v: Verifier, newSigners: seq<Address>, newThreshold: nat): Outcome<Verifier> {
    if !AcceptableSignerSet(newSigners, newThreshold) then Revert(InvalidAttestation)
    else Commit(v.(threshold := newThreshold, signerSetDigest := SignerSetDigest(newSigners, newThreshold),
                   authorizedSigner := v.authorizedSigner - ToSet(v.signers) + ToSet(newSigners),
                   signers := newSigners))
  }

  function CallVerifier(v: Verifier, sender: Address, call: VerifierCall): Outcome<Verifier> {
    match call
    case SetSignerSet(newSigners, newThreshold) =>
      if sender != v.ownership.owner then Revert(Unauthorized) else ReplaceSigners(v, newSigners, newThreshold)
    case OwnVerifier(call) =>
      match CallOwnable(v.ownership, sender, call)
      case Revert(e) => Revert(e)
      case Commit(o) => Commit(v.(ownership := o))
  }

  // ----- Verification -----

  /** The signer of each signature, when every one recovers to an address other than zero. */
  predicate Recovers(recover: Recover, digest: Bytes32, signatures: seq<seq<Byte>>, who: seq<Address>) {
    && |who| == |signatures|
    && forall i | 0 <= i < |who| :: recover(digest, signatures[i]) == Some(who[i])
  }

  predicate Distinct(s: seq<Address>) {
    forall i, j | 0 <= i < j < |s| :: s[i] != s[j]
  }

  /** What makes an attestation valid for a struct hash. */
  ghost predicate IsQuorum(v: Verifier, recover: Recover, structHash: Bytes32, att: Attestation) {
    && !att.isEmpty && att.word == Some(v.signerSetDigest) && att.signatures.Some?
    && |att.signatures.value| >= v.threshold
    && exists who: seq<Address> ::
         && Recovers(recover, EthSignedMessage(AuthorizationDigest(v.bridgeDomain, structHash, v.signerSetDigest)),
                     att.signatures.value, who)
         && Distinct(who) && ToSet(who) <= v.authorizedSigner
  }

  /** How far the signature loop gets from index i with the signers recovered so far. */
  function CheckSignatures(v: Verifier, recover: Recover, digest: Bytes32, signatures: seq<seq<Byte>>, i: nat,
                           recovered: seq<Address>): Option<Error>
    requires i <= |signatures|
    decreases |signatures| - i
  {
    if i == |signatures| then
      if |recovered| < v.threshold then Some(InvalidAttestation) else None
    else
      match recover(digest, signatures[i])
      case None => Some(InvalidSignature)
      case Some(signer) =>
        if signer !in v.authorizedSigner || signer in recovered then Some(InvalidAttestation)
        else CheckSignatures(v, recover, digest, signatures, i + 1, recovered + [signer])
  }

  function VerifyAttestation(v: Verifier, recover: Recover, structHash: Bytes32, att: Attestation): Option<Error> {
    if att.isEmpty then Some(InvalidAttestation)
    else if att.word.None? || att.signatures.None? then Some(DecodingFailed)
    else if att.word.value != v.signerSetDigest then Some(UnauthorizedSignerSet)
    else if |att.signatures.value| < v.threshold then Some(InvalidAttestation)
    else
      CheckSignatures(v, recover, EthSignedMessage(AuthorizationDigest(v.bridgeDomain, structHash, v.signerSetDigest)),
                      att.signatures.value, 0, [])
  }

  function VerifyMint(v: Verifier, recover: Recover, now: Uint64, a: MintAuthorization,
                      att: Attestation): Option<Error> {
    if a.bridgeDomain != v.bridgeDomain then Some(InvalidBridgeDomain)
    else if now > a.deadline then Some(AuthorizationExpired)
    else VerifyAttestation(v, recover, MintStructHash(a), att)
  }

  function VerifyRelease(v: Verifier, recover: Recover, now: Uint64, a: ReleaseAuthorization,
                         att: Attestation): Option<Error> {
    if a.bridgeDomain != v.bridgeDomain then Some(InvalidBridgeDomain)
    else if now > a.deadline then Some(AuthorizationExpired)
    else VerifyAttestation(v, recover, ReleaseStructHash(a), att)
  }

  class AttestationVerifierContract {
    const ownable: OwnableContract
    const bridgeDomain: Bytes32
    const recover: Recover
    var threshold: nat
    var signerSetDigest: Bytes32
    var authorizedSigner: set<Address>
    var signers: seq<Address>

    function State(): Verifier
      reads this, ownable
    {
      Verifier(ownable.State(), bridgeDomain, threshold, signerSetDigest, authorizedSigner, signers)
    }

    /** The initial set is acceptable: a refused one refuses the deployment. */
    constructor (initialBridgeDomain: Bytes32, initialOwner: Address, recover: Recover, initialSigners: seq<Address>,
                 initialThreshold: nat)
      requires initialOwner != ZERO_ADDRESS && AcceptableSignerSet(initialSigners, initialThreshold)
      ensures State() == Verifier(Ownership(initialOwner, ZERO_ADDRESS), initialBridgeDomain, initialThreshold,
                                  SignerSetDigest(initialSigners, initialThreshold), ToSet(initialSigners),
                                  initialSigners)
      ensures this.recover == recover && fresh(ownable)
    {
      ownable := new OwnableContract(initialOwner);
      bridgeDomain := initialBridgeDomain;
      this.recover := recover;
      threshold, signerSetDigest := 0, Word(0);
      authorizedSigner, signers := {}, [];
      new;
      var error := SetSignerSetInternal(initialSigners, initialThreshold);
    }

    method SetSignerSet(sender: Address, newSigners: seq<Address>, newThreshold: nat) returns (error: Option<Error>)
      modifies this
      ensures Did(CallVerifier(old(State()), sender, VerifierCall.SetSignerSet(newSigners, newThreshold)),
                  old(State()), State(), error)
    {
      if sender != ownable.owner {
        return Some(Unauthorized);
      }
      error := SetSignerSetInternal(newSigners, newThreshold);
    }

    /** Clears the old set, fills in the new one, and undoes both when a signer is refused. */
    method SetSignerSetInternal(newSigners: seq<Address>, newThreshold: nat) returns (error: Option<Error>)
      modifies this
      ensures Did(ReplaceSigners(old(State()), newSigners, newThreshold), old(State()), State(), error)
    {
      var signerCount := |newSigners|;
      if newThreshold == 0 || newThreshold > signerCount {
        return Some(InvalidAttestation);
      }
      var savedAuthorized, savedSigners := authorizedSigner, signers;
      var previousSignerCount := |signers|;
      for i := 0 to previousSignerCount
        invariant signers == savedSigners
        invariant authorizedSigner == savedAuthorized - ToSet(savedSigners[..i])
        invariant threshold == old(threshold) && signerSetDigest == old(signerSetDigest)
      {
        assert ToSet(savedSigners[..i + 1]) == ToSet(savedSigners[..i]) + {savedSigners[i]};
        authorizedSigner := authorizedSigner - {signers[i]};
      }
      assert savedSigners[..previousSignerCount] == savedSigners;
      signers := [];
      for i := 0 to signerCount
        invariant signers == newSigners[..i]
        invariant StrictlyIncreasing(newSigners[..i]) && ZERO_ADDRESS !in newSigners[..i]
        invariant authorizedSigner == savedAuthorized - ToSet(savedSigners) + ToSet(newSigners[..i])
        invariant threshold == old(threshold) && signerSetDigest == old(signerSetDigest)
      {
        if i > 0 && newSigners[i - 1] >= newSigners[i] {
          authorizedSigner, signers := savedAuthorized, savedSigners;
          return Some(InvalidAttestation);
        }
        if newSigners[i] == ZERO_ADDRESS {
          authorizedSigner, signers := savedAuthorized, savedSigners;
          return Some(InvalidAttestation);
        }
        assert newSigners[..i + 1] == newSigners[..i] + [newSigners[i]];
        authorizedSigner := authorizedSigner + {newSigners[i]};
        signers := signers + [newSigners[i]];
      }
      assert newSigners[..signerCount] == newSigners;
      threshold := newThreshold;
      signerSetDigest := SignerSetDigest(newSigners, newThreshold);
      return None;
    }

    method VerifyMintAuthorization(now: Uint64, a: MintAuthorization, att: Attestation) returns (error: Option<Error>)
      ensures error == VerifyMint(State(), recover, now, a, att)
    {
      hide MintStructHash, VerifyAttestation;
      if a.bridgeDomain != bridgeDomain {
        return Some(InvalidBridgeDomain);
      }
      if now > a.deadline {
        return Some(AuthorizationExpired);
      }
      error := Verify(MintStructHash(a), att);
    }

    method VerifyReleaseAuthorization(now: Uint64, a: ReleaseAuthorization, att: Attestation)
      returns (error: Option<Error>)
      ensures error == VerifyRelease(State(), recover, now, a, att)
    {
      hide ReleaseStructHash, VerifyAttestation;
      if a.bridgeDomain != bridgeDomain {
        return Some(InvalidBridgeDomain);
      }
      if now > a.deadline {
        return Some(AuthorizationExpired);
      }
      error := Verify(ReleaseStructHash(a), att);
    }

    method Verify(structHash: Bytes32, att: Attestation) returns (error: Option<Error>)
      ensures error == VerifyAttestation(State(), recover, structHash, att)
    {
      if att.isEmpty {
        return Some(InvalidAttestation);
      }
      if att.word.None? || att.signatures.None? {
        return Some(DecodingFailed);
      }
      if att.word.value != signerSetDigest {
        return Some(UnauthorizedSignerSet);
      }
      var signatures := att.signatures.value;
      var signatureCount := |signatures|;
      if signatureCount < threshold {
        return Some(InvalidAttestation);
      }
      var signedDigest := EthSignedMessage(AuthorizationDigest(bridgeDomain, structHash, signerSetDigest));
      var recovered := new Address[signatureCount](_ => ZERO_ADDRESS);
      var validSignatures := 0;
      for i := 0 to signatureCount
        invariant validSignatures == i
        invariant VerifyAttestation(State(), recover, structHash, att)
               == CheckSignatures(State(), recover, signedDigest, signatures, i, recovered[..i])
      {
        var r := recover(signedDigest, signatures[i]);
        if r.None? {
          return Some(InvalidSignature);
        }
        var signer := r.value;
        if signer !in authorizedSigner {
          return Some(InvalidAttestation);
        }
        for j := 0 to validSignatures
          invariant signer !in recovered[..j]
        {
          if recovered[j] == signer {
            assert signer in recovered[..i];
            return Some(InvalidAttestation);
          }
          assert recovered[..j + 1] == recovered[..j] + [recovered[j]];
        }
        ghost var before := recovered[..i];
        recovered[validSignatures] := signer;
        validSignatures := validSignatures + 1;
        assert recovered[..i + 1] == before + [signer];
      }
      if validSignatures < threshold {
        return Some(InvalidAttestation);
      }
      return None;
    }
  }

  // ----- Quorums -----

  /** The mapping holds exactly for the current signers, which are strictly increasing. */
  ghost predicate Consistent(v: Verifier) {
    && v.authorizedSigner == ToSet(v.signers)
    && AcceptableSignerSet(v.signers, v.threshold)
    && v.signerSetDigest == SignerSetDigest(v.signers, v.threshold)
  }

  /** Every call, by anyone, keeps the mapping, the list, the threshold and the digest in step. */
  lemma CallKeepsConsistent(v: Verifier, sender: Address, call: VerifierCall)
    requires Consistent(v) && CallVerifier(v, sender, call).Commit?
    ensures Consistent(CallVerifier(v, sender, call).state)
  {
  }

  /**
    The owner puts a signer set in place of the old one for a threshold from 1 to their number and
    signers in strictly increasing order, none of them zero. The mapping then holds for just these.
   */
  lemma SignerSetIsReplaced(v: Verifier, sender: Address, signers: seq<Address>, n: nat)
    requires v.authorizedSigner == ToSet(v.signers)
    ensures var r := CallVerifier(v, sender, SetSignerSet(signers, n));
      && (r.Commit? <==>
           && sender == v.ownership.owner && 1 <= n <= |signers|
           && (forall i, j | 0 <= i < j < |signers| :: signers[i] < signers[j]) && signers[0] > ZERO_ADDRESS)
      && (r.Revert? ==> r.error == if sender == v.ownership.owner then InvalidAttestation else Unauthorized)
      && (r.Commit? ==>
           && r.state.signers == signers && r.state.threshold == n
           && (forall who: Address :: who in r.state.authorizedSigner <==> who in signers)
           && r.state == v.(signers := signers, threshold := n, authorizedSigner := r.state.authorizedSigner,
                            signerSetDigest := SignerSetDigest(signers, n)))
  {
    if 1 <= n <= |signers| && StrictlyIncreasing(signers) {
      forall i, j | 0 <= i < j < |signers| ensures signers[i] < signers[j] {
        IncreasingIsOrdered(signers, i, j);
      }
      assert forall i | 0 < i < |signers| :: signers[0] < signers[i];
    }
  }

  lemma {:induction false} IncreasingIsOrdered(s: seq<Address>, i: nat, j: nat)
    requires StrictlyIncreasing(s) && i < j < |s|
    ensures s[i] < s[j]
  {
    if i + 1 < j {
      IncreasingIsOrdered(s, i, j - 1);
    }
    assert s[j - 1] < s[j];
  }

  lemma {:induction false} DistinctCount(s: seq<Address>)
    requires Distinct(s)
    ensures |ToSet(s)| == |s|
  {
    if s != [] {
      var last := |s| - 1;
      assert s == s[..last] + [s[last]];
      assert ToSet(s) == ToSet(s[..last]) + {s[last]};
      DistinctCount(s[..last]);
    }
  }

  lemma {:induction false} CheckAcceptsQuorum(v: Verifier, recover: Recover, digest: Bytes32,
                                              signatures: seq<seq<Byte>>, i: nat, recovered: seq<Address>)
    requires i == |recovered| <= |signatures| && |signatures| >= v.threshold
    requires Distinct(recovered) && ToSet(recovered) <= v.authorizedSigner
    requires forall k | 0 <= k < i :: recover(digest, signatures[k]) == Some(recovered[k])
    ensures CheckSignatures(v, recover, digest, signatures, i, recovered).None?
        <==> exists who: seq<Address> ::
               recovered <= who && Recovers(recover, digest, signatures, who) && Distinct(who)
               && ToSet(who) <= v.authorizedSigner
    decreases |signatures| - i
  {
    if i == |signatures| {
      assert Recovers(recover, digest, signatures, recovered);
    } else {
      var r := recover(digest, signatures[i]);
      if r.Some? && r.value in v.authorizedSigner && r.value !in recovered {
        CheckAcceptsQuorum(v, recover, digest, signatures, i + 1, recovered + [r.value]);
      }
      forall who: seq<Address> | recovered <= who && Recovers(recover, digest, signatures, who) && Distinct(who)
        && ToSet(who) <= v.authorizedSigner
        ensures r.Some? && r.value in v.authorizedSigner && r.value !in recovered && recovered + [r.value] <= who
      {
        assert who[i] in ToSet(who);
        assert forall k | 0 <= k < i :: who[k] == recovered[k];
      }
    }
  }

  /** The nested loops accept exactly the attestations that carry a quorum. */
  lemma AcceptedIffQuorum(v: Verifier, recover: Recover, structHash: Bytes32, att: Attestation)
    ensures VerifyAttestation(v, recover, structHash, att).None? <==> IsQuorum(v, recover, structHash, att)
  {
    if !att.isEmpty && att.word == Some(v.signerSetDigest) && att.signatures.Some?
      && |att.signatures.value| >= v.threshold {
      var digest := EthSignedMessage(AuthorizationDigest(v.bridgeDomain, structHash, v.signerSetDigest));
      CheckAcceptsQuorum(v, recover, digest, att.signatures.value, 0, []);
    }
  }

  /** An authorization of this domain is accepted until its deadline, when a quorum signed its struct hash. */
  lemma AuthorizationIsAccepted(v: Verifier, recover: Recover, now: Uint64, a: MintAuthorization,
                                r: ReleaseAuthorization, att: Attestation)
    ensures VerifyMint(v, recover, now, a, att).None?
        <==> a.bridgeDomain == v.bridgeDomain && now <= a.deadline && IsQuorum(v, recover, MintStructHash(a), att)
    ensures VerifyRelease(v, recover, now, r, att).None?
        <==> r.bridgeDomain == v.bridgeDomain && now <= r.deadline && IsQuorum(v, recover, ReleaseStructHash(r), att)
    ensures VerifyMint(v, recover, now, a, att).Some? ==>
      VerifyMint(v, recover, now, a, att).value
      in (if a.bridgeDomain != v.bridgeDomain then {InvalidBridgeDomain}
          else if now > a.deadline then {AuthorizationExpired} else AttestationRefusals(v, att))
    ensures VerifyRelease(v, recover, now, r, att).Some? ==>
      VerifyRelease(v, recover, now, r, att).value
      in (if r.bridgeDomain != v.bridgeDomain then {InvalidBridgeDomain}
          else if now > r.deadline then {AuthorizationExpired} else AttestationRefusals(v, att))
  {
    hide IsQuorum, VerifyAttestation, MintStructHash, ReleaseStructHash;
    AcceptedIffQuorum(v, recover, MintStructHash(a), att);
    AcceptedIffQuorum(v, recover, ReleaseStructHash(r), att);
    AttestationIsRefused(v, recover, MintStructHash(a), att);
    AttestationIsRefused(v, recover, ReleaseStructHash(r), att);
  }

  /** Why an attestation is no quorum: no bytes, bytes of another shape, another set, or its signatures. */
  function AttestationRefusals(v: Verifier, att: Attestation): set<Error> {
    if att.isEmpty then {InvalidAttestation}
    else if att.word.None? || att.signatures.None? then {DecodingFailed}
    else if att.word.value != v.signerSetDigest then {UnauthorizedSignerSet}
    else if |att.signatures.value| < v.threshold then {InvalidAttestation}
    else {InvalidSignature, InvalidAttestation}
  }

  lemma AttestationIsRefused(v: Verifier, recover: Recover, structHash: Bytes32, att: Attestation)
    ensures var error := VerifyAttestation(v, recover, structHash, att);
      error.Some? ==> error.value in AttestationRefusals(v, att)
  {
    if att.signatures.Some? {
      var digest := EthSignedMessage(AuthorizationDigest(v.bridgeDomain, structHash, v.signerSetDigest));
      SignatureRefusals(v, recover, digest, att.signatures.value, 0, []);
    }
  }

  lemma {:induction false} SignatureRefusals(v: Verifier, recover: Recover, digest: Bytes32,
                                             signatures: seq<seq<Byte>>, i: nat, recovered: seq<Address>)
    requires i <= |signatures|
    ensures var error := CheckSignatures(v, recover, digest, signatures, i, recovered);
      error.Some? ==> error.value in {InvalidSignature, InvalidAttestation}
    decreases |signatures| - i
  {
    if i < |signatures| && recover(digest, signatures[i]).Some? {
      SignatureRefusals(v, recover, digest, signatures, i + 1, recovered + [recover(digest, signatures[i]).value]);
    }
  }

  /** Who signed an accepted attestation: at least threshold of the current signers. */
  lemma QuorumSize(v: Verifier, recover: Recover, structHash: Bytes32, att: Attestation) returns (who: set<Address>)
    requires Consistent(v) && VerifyAttestation(v, recover, structHash, att).None?
    ensures who <= ToSet(v.signers) && |who| >= v.threshold
    ensures forall a | a in who :: exists s | s in att.signatures.value ::
      recover(EthSignedMessage(AuthorizationDigest(v.bridgeDomain, structHash, v.signerSetDigest)), s) == Some(a)
  {
    AcceptedIffQuorum(v, recover, structHash, att);
    var digest := EthSignedMessage(AuthorizationDigest(v.bridgeDomain, structHash, v.signerSetDigest));
    var list: seq<Address> :| Recovers(recover, digest, att.signatures.value, list) && Distinct(list)
      && ToSet(list) <= v.authorizedSigner;
    who := ToSet(list);
    DistinctCount(list);
  }

  lemma SignerCount(v: Verifier)
    requires Consistent(v)
    ensures |ToSet(v.signers)| == |v.signers|
  {
    forall i, j | 0 <= i < j < |v.signers| ensures v.signers[i] != v.signers[j] {
      IncreasingIsOrdered(v.signers, i, j);
    }
    DistinctCount(v.signers);
  }

  /** With a strict-majority threshold, any two accepted attestations share a signer. */
  lemma QuorumsIntersect(v: Verifier, recover: Recover, h: Bytes32, att: Attestation, h': Bytes32, att': Attestation)
    returns (a: Address)
    requires Consistent(v) && 2 * v.threshold > |v.signers|
    requires VerifyAttestation(v, recover, h, att).None? && VerifyAttestation(v, recover, h', att').None?
    ensures a in v.signers
    ensures exists s | s in att.signatures.value ::
      recover(EthSignedMessage(AuthorizationDigest(v.bridgeDomain, h, v.signerSetDigest)), s) == Some(a)
    ensures exists s | s in att'.signatures.value ::
      recover(EthSignedMessage(AuthorizationDigest(v.bridgeDomain, h', v.signerSetDigest)), s) == Some(a)
  {
    var who := QuorumSize(v, recover, h, att);
    var who' := QuorumSize(v, recover, h', att');
    SignerCount(v);
    SizeOfUnion(who, who', ToSet(v.signers));
    a :| a in who * who';
  }

  lemma SizeOfUnion(a: set<Address>, b: set<Address>, all: set<Address>)
    requires a <= all && b <= all && |a| + |b| > |all|
    ensures a * b != {}
  {
    if a * b == {} {
      assert |a + b| == |a| + |b|;
      SubsetSize(a + b, all);
    }
  }

  lemma SubsetSize(a: set<Address>, b: set<Address>)
    requires a <= b
    ensures |a| <= |b|
  {
    assert b == a + (b - a);
  }
}
