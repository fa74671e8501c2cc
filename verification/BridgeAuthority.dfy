/**
  Who stands behind every mint and every consumed redeem of a run.

  The verifier answers a view call; what its answer means is a property of the whole run before it.
  With the ECDSA verifier, each mint and each completion carried signatures of at least threshold
  distinct signers of the set current at that moment (MintWasSigned, CompletionWasSigned), and under
  a renounced majority set any two of them share a signer (AuthorizationsShareASigner). With the
  Functions verifier, each was requested earlier, for exactly this authorization, by an account
  permitted then, and answered by the router before its deadline (MintWasRequested,
  CompletionWasRequested).
 */
module BridgeAuthority {
  import opened BridgeTypes
  import opened Ownable
  import opened Bridge
  import W = WrappedBitcoin
  import D = DepositRegistry
  import M = MintGateway
  import B = BurnGateway
  import A = AttestationVerifier
  import F = FunctionsVerifier
  import R = BridgeRuns

  // ----- Runs by their last transaction -----

  lemma {:induction false} RunAppends(c: Chain, b: Bridge, txs: seq<Tx>, tx: Tx)
    ensures Run(c, b, txs + [tx]) == Step(c, Run(c, b, txs), tx)
    ensures IsRun(c, b, txs + [tx]) ==> IsRun(c, b, txs) && IsExternal(c, Run(c, b, txs), tx)
    decreases |txs|
  {
    hide Step, IsExternal;
    if txs == [] {
      assert [tx][1..] == [];
    } else {
      assert (txs + [tx])[1..] == txs[1..] + [tx];
      RunAppends(c, Step(c, b, txs[0]), txs[1..], tx);
    }
  }

  /** The state before transaction i. */
  function Before(c: Chain, b: Bridge, txs: seq<Tx>, i: nat): Bridge
    requires i <= |txs|
  {
    Run(c, b, txs[..i])
  }

  // ----- Every mint and every consumption has its transaction -----

  /** tx minted this entry; the verifier accepted its authorization then. */
  predicate Mints(c: Chain, b: Bridge, tx: Tx, e: MintEntry) {
    && tx.call.MintWithAuthorization? && Try(c, b, tx).Commit?
    && var a := tx.call.mint;
       && e == MintEntry(tx.now, a.depositId, a.btcTxId, a.vout, a.sats)
       && VerifyMint(c, b.verifier, tx.now, a, tx.call.attestation).None?
  }

  /** tx consumed the record; the verifier accepted its authorization then. */
  predicate Consumes(c: Chain, b: Bridge, tx: Tx, h: Bytes32) {
    && tx.call.CompleteRedeem? && Try(c, b, tx).Commit? && tx.call.release.redeemRequestHash == h
    && VerifyRelease(c, b.verifier, tx.now, tx.call.release, tx.call.attestation).None?
  }

  lemma StepMints(c: Chain, b: Bridge, tx: Tx)
    ensures var mints := Step(c, b, tx).history.mints;
      mints == b.history.mints || (exists e :: mints == b.history.mints + [e] && Mints(c, b, tx, e))
  {
    hide M.MintWithAuthorization, VerifyMint, VerifyRelease, W.CallToken, D.CallRegistry, M.CallGateway, B.CallGateway;
    hide A.CallVerifier, F.CallVerifier, B.BurnIntoRequest, B.Precheck;
    if tx.call.MintWithAuthorization? && Try(c, b, tx).Commit? {
      var (a, att) := (tx.call.mint, tx.call.attestation);
      MintParts(M.World(b.minting, b.registry, b.token), c.mintGateway, tx.now, tx.call.intent, a,
                VerifyMint(c, b.verifier, tx.now, a, att));
      var e := MintEntry(tx.now, a.depositId, a.btcTxId, a.vout, a.sats);
      assert Step(c, b, tx).history.mints == b.history.mints + [e];
    }
  }

  /** Each entry of the mint history was made by one transaction of the run. */
  lemma {:induction false} EveryMintHasItsTransaction(c: Chain, b: Bridge, txs: seq<Tx>, k: nat) returns (i: nat)
    requires b.history.mints == [] && k < |Run(c, b, txs).history.mints|
    ensures i < |txs| && Mints(c, Before(c, b, txs, i), txs[i], Run(c, b, txs).history.mints[k])
    decreases |txs|
  {
    hide Step, Mints;
    var n := |txs| - 1;
    var w := Before(c, b, txs, n);
    assert txs == txs[..n] + [txs[n]];
    RunAppends(c, b, txs[..n], txs[n]);
    StepMints(c, w, txs[n]);
    if k < |w.history.mints| {
      i := EveryMintHasItsTransaction(c, b, txs[..n], k);
      assert txs[..n][..i] == txs[..i];
    } else {
      i := n;
    }
  }

  lemma ConsumptionCommits(c: Chain, b: Bridge, tx: Tx, h: Bytes32)
    requires B.StateOf(Step(c, b, tx).burning, h) == CONSUMED && B.StateOf(b.burning, h) != CONSUMED
    ensures Consumes(c, b, tx, h)
  {
    hide VerifyRelease, B.Precheck, B.StateOf;
    R.ConsumptionNeedsAuthorization(c, b, tx, h);
  }

  /** Each consumed record was consumed by one transaction of the run. */
  lemma {:induction false} EveryConsumptionHasItsTransaction(c: Chain, b: Bridge, txs: seq<Tx>, h: Bytes32)
    returns (i: nat)
    requires b.burning.redeemRecords == map[] && B.StateOf(Run(c, b, txs).burning, h) == CONSUMED
    ensures i < |txs| && Consumes(c, Before(c, b, txs, i), txs[i], h)
    decreases |txs|
  {
    hide Step, Consumes;
    var n := |txs| - 1;
    var w := Before(c, b, txs, n);
    assert txs == txs[..n] + [txs[n]];
    RunAppends(c, b, txs[..n], txs[n]);
    if B.StateOf(w.burning, h) == CONSUMED {
      i := EveryConsumptionHasItsTransaction(c, b, txs[..n], h);
      assert txs[..n][..i] == txs[..i];
    } else {
      i := n;
      ConsumptionCommits(c, w, txs[n], h);
    }
  }

  // ----- The ECDSA verifier -----

  /** The signer mapping, list, threshold and digest are in step. */
  ghost predicate SignersInStep(b: Bridge) { b.verifier.Ecdsa? && A.Consistent(b.verifier.attestation) }

  lemma StepKeepsSigners(c: Chain, b: Bridge, tx: Tx)
    requires SignersInStep(b)
    ensures SignersInStep(Step(c, b, tx))
  {
    hide M.MintWithAuthorization, VerifyMint, VerifyRelease, W.CallToken, D.CallRegistry, M.CallGateway, B.CallGateway;
    hide B.BurnIntoRequest, B.Precheck, A.Consistent, A.CallVerifier;
    if tx.call.OnAttestationVerifier? && Try(c, b, tx).Commit? {
      A.CallKeepsConsistent(b.verifier.attestation, tx.sender, tx.call.signing);
    }
  }

  /** Over every run, however often the signer set is replaced. */
  lemma {:induction false} RunKeepsSigners(c: Chain, b: Bridge, txs: seq<Tx>)
    requires SignersInStep(b)
    ensures SignersInStep(Run(c, b, txs))
    decreases |txs|
  {
    hide Step, SignersInStep;
    if txs != [] {
      StepKeepsSigners(c, b, txs[0]);
      RunKeepsSigners(c, Step(c, b, txs[0]), txs[1..]);
    }
  }

  /** The attestation holds a signature of this account, for this struct hash and the current signer set. */
  ghost predicate SignedBy(v: A.Verifier, recover: A.Recover, structHash: Bytes32, att: Attestation, a: Address) {
    && att.signatures.Some?
    && exists s | s in att.signatures.value ::
         recover(A.EthSignedMessage(AuthorizationDigest(v.bridgeDomain, structHash, v.signerSetDigest)), s) == Some(a)
  }

  /** These current signers, threshold of them or more, signed. */
  ghost predicate Signed(v: A.Verifier, recover: A.Recover, structHash: Bytes32, att: Attestation, who: set<Address>) {
    && who <= A.ToSet(v.signers) && |who| >= v.threshold > 0
    && forall a | a in who :: SignedBy(v, recover, structHash, att, a)
  }

  lemma AcceptedWasSigned(v: A.Verifier, recover: A.Recover, structHash: Bytes32, att: Attestation)
    returns (who: set<Address>)
    requires A.Consistent(v) && A.VerifyAttestation(v, recover, structHash, att).None?
    ensures Signed(v, recover, structHash, att, who)
  {
    who := A.QuorumSize(v, recover, structHash, att);
  }

  /** In every run each mint carried the signatures of a quorum of the signers current at that moment. */
  lemma MintWasSigned(c: Chain, b: Bridge, txs: seq<Tx>, k: nat) returns (i: nat, who: set<Address>)
    requires b.history.mints == [] && SignersInStep(b) && k < |Run(c, b, txs).history.mints|
    ensures i < |txs| && Mints(c, Before(c, b, txs, i), txs[i], Run(c, b, txs).history.mints[k])
    ensures SignersInStep(Before(c, b, txs, i))
    ensures var (v, tx) := (Before(c, b, txs, i).verifier.attestation, txs[i]);
      Signed(v, c.recover, MintStructHash(tx.call.mint), tx.call.attestation, who)
  {
    hide Run, Signed, A.Consistent, A.VerifyAttestation, MintStructHash, Try;
    i := EveryMintHasItsTransaction(c, b, txs, k);
    RunKeepsSigners(c, b, txs[..i]);
    var v := Before(c, b, txs, i).verifier.attestation;
    who := AcceptedWasSigned(v, c.recover, MintStructHash(txs[i].call.mint), txs[i].call.attestation);
  }

  /** The same of every consumed record. */
  lemma CompletionWasSigned(c: Chain, b: Bridge, txs: seq<Tx>, h: Bytes32) returns (i: nat, who: set<Address>)
    requires b.burning.redeemRecords == map[] && SignersInStep(b) && B.StateOf(Run(c, b, txs).burning, h) == CONSUMED
    ensures i < |txs| && Consumes(c, Before(c, b, txs, i), txs[i], h)
    ensures SignersInStep(Before(c, b, txs, i))
    ensures var (v, tx) := (Before(c, b, txs, i).verifier.attestation, txs[i]);
      Signed(v, c.recover, ReleaseStructHash(tx.call.release), tx.call.attestation, who)
  {
    hide Run, Signed, A.Consistent, A.VerifyAttestation, ReleaseStructHash, Try;
    i := EveryConsumptionHasItsTransaction(c, b, txs, h);
    RunKeepsSigners(c, b, txs[..i]);
    var v := Before(c, b, txs, i).verifier.attestation;
    who := AcceptedWasSigned(v, c.recover, ReleaseStructHash(txs[i].call.release), txs[i].call.attestation);
  }

  // ----- A renounced majority -----

  /** A signer set that nobody can replace, with a threshold above one half. */
  ghost predicate HasFixedMajority(b: Bridge) {
    && SignersInStep(b) && b.verifier.attestation.ownership == RENOUNCED
    && 2 * b.verifier.attestation.threshold > |b.verifier.attestation.signers|
  }

  lemma StepFixesVerifier(c: Chain, b: Bridge, tx: Tx)
    requires b.verifier.Ecdsa? && b.verifier.attestation.ownership == RENOUNCED && tx.sender != ZERO_ADDRESS
    ensures Step(c, b, tx).verifier == b.verifier
  {
    hide M.MintWithAuthorization, VerifyMint, VerifyRelease, W.CallToken, D.CallRegistry, M.CallGateway, B.CallGateway;
    hide B.BurnIntoRequest, B.Precheck, A.ReplaceSigners;
  }

  lemma {:induction false} RunFixesVerifier(c: Chain, b: Bridge, txs: seq<Tx>, i: nat)
    requires IsRun(c, b, txs) && i <= |txs|
    requires b.verifier.Ecdsa? && b.verifier.attestation.ownership == RENOUNCED
    ensures Before(c, b, txs, i).verifier == b.verifier
    decreases i
  {
    hide Step;
    if i > 0 {
      StepFixesVerifier(c, b, txs[0]);
      RunFixesVerifier(c, Step(c, b, txs[0]), txs[1..], i - 1);
      assert txs[..i][1..] == txs[1..][..i - 1];
    }
  }

  /** What a committed mint or completion had the verifier check. */
  function Checked(tx: Tx): Option<(Bytes32, Attestation)> {
    match tx.call
    case MintWithAuthorization(_, a, att) => Some((MintStructHash(a), att))
    case CompleteRedeem(a, att) => Some((ReleaseStructHash(a), att))
    case _ => None
  }

  lemma CommittedWasAccepted(c: Chain, b: Bridge, tx: Tx)
    requires b.verifier.Ecdsa? && Try(c, b, tx).Commit? && Checked(tx).Some?
    ensures A.VerifyAttestation(b.verifier.attestation, c.recover, Checked(tx).value.0, Checked(tx).value.1).None?
  {
    hide M.MintWithAuthorization, A.VerifyAttestation, MintStructHash, ReleaseStructHash;
    if tx.call.MintWithAuthorization? {
      MintParts(M.World(b.minting, b.registry, b.token), c.mintGateway, tx.now, tx.call.intent, tx.call.mint,
                VerifyMint(c, b.verifier, tx.now, tx.call.mint, tx.call.attestation));
    } else {
      var (g, a) := (b.burning, tx.call.release);
      hide A.VerifyMint;
      assert B.Complete(g, a, VerifyRelease(c, b.verifier, tx.now, a, tx.call.attestation)).Commit?;
    }
  }

  /** Any two mints or completions of a run under a fixed majority carry a signature of one and the same signer. */
  lemma AuthorizationsShareASigner(c: Chain, b: Bridge, txs: seq<Tx>, i: nat, j: nat) returns (a: Address)
    requires HasFixedMajority(b) && IsRun(c, b, txs) && i < |txs| && j < |txs|
    requires Try(c, Before(c, b, txs, i), txs[i]).Commit? && Checked(txs[i]).Some?
    requires Try(c, Before(c, b, txs, j), txs[j]).Commit? && Checked(txs[j]).Some?
    ensures var v := b.verifier.attestation;
      && a in v.signers
      && SignedBy(v, c.recover, Checked(txs[i]).value.0, Checked(txs[i]).value.1, a)
      && SignedBy(v, c.recover, Checked(txs[j]).value.0, Checked(txs[j]).value.1, a)
  {
    hide Run, IsRun, Try, A.VerifyAttestation, A.Consistent, Checked;
    RunFixesVerifier(c, b, txs, i);
    RunFixesVerifier(c, b, txs, j);
    CommittedWasAccepted(c, Before(c, b, txs, i), txs[i]);
    CommittedWasAccepted(c, Before(c, b, txs, j), txs[j]);
    var v := b.verifier.attestation;
    var (x, y) := (Checked(txs[i]).value, Checked(txs[j]).value);
    A.AcceptedIffQuorum(v, c.recover, x.0, x.1);
    A.AcceptedIffQuorum(v, c.recover, y.0, y.1);
    a := A.QuorumsIntersect(v, c.recover, x.0, x.1, y.0, y.1);
  }

  // ----- The Functions verifier -----

  /** The calls of a run that reach the Functions verifier. */
  function VerifierTxs(txs: seq<Tx>): seq<F.Tx> {
    if txs == [] then []
    else
      var last := txs[|txs| - 1];
      VerifierTxs(txs[..|txs| - 1])
      + (if last.call.OnFunctionsVerifier? then [F.Tx(last.sender, last.now, last.call.functions)] else [])
  }

  lemma StepOfVerifier(c: Chain, b: Bridge, tx: Tx)
    requires b.verifier.Functions?
    ensures Step(c, b, tx).verifier
         == Functions(if tx.call.OnFunctionsVerifier?
                      then F.Apply(b.verifier.requests, F.Tx(tx.sender, tx.now, tx.call.functions))
                      else b.verifier.requests)
  {
    hide M.MintWithAuthorization, VerifyMint, VerifyRelease, W.CallToken, D.CallRegistry, M.CallGateway, B.CallGateway;
    hide B.BurnIntoRequest, B.Precheck, F.CallVerifier;
  }

  /** The verifier's part of a run is a run of the verifier. */
  lemma {:induction false} RunOfVerifier(c: Chain, b: Bridge, txs: seq<Tx>)
    requires b.verifier.Functions?
    ensures Run(c, b, txs).verifier == Functions(F.Run(b.verifier.requests, VerifierTxs(txs)))
    decreases |txs|
  {
    hide Step, F.Apply;
    if txs != [] {
      var n := |txs| - 1;
      assert txs == txs[..n] + [txs[n]];
      RunAppends(c, b, txs[..n], txs[n]);
      RunOfVerifier(c, b, txs[..n]);
      StepOfVerifier(c, Run(c, b, txs[..n]), txs[n]);
      if txs[n].call.OnFunctionsVerifier? {
        var last := F.Tx(txs[n].sender, txs[n].now, txs[n].call.functions);
        F.RunStep(b.verifier.requests, VerifierTxs(txs[..n]), last);
      } else {
        assert VerifierTxs(txs) == VerifierTxs(txs[..n]);
      }
    }
  }

  /** Where the i-th call to the verifier stands in the run. */
  lemma {:induction false} Position(txs: seq<Tx>, i: nat) returns (p: nat)
    requires i < |VerifierTxs(txs)|
    ensures p < |txs| && txs[p].call.OnFunctionsVerifier?
    ensures VerifierTxs(txs)[i] == F.Tx(txs[p].sender, txs[p].now, txs[p].call.functions)
    ensures VerifierTxs(txs[..p]) == VerifierTxs(txs)[..i]
    decreases |txs|
  {
    var n := |txs| - 1;
    if i < |VerifierTxs(txs[..n])| {
      p := Position(txs[..n], i);
      assert txs[..n][..p] == txs[..p];
      assert VerifierTxs(txs)[..i] == VerifierTxs(txs[..n])[..i];
    } else {
      p := n;
    }
  }

  lemma {:induction false} FewerBefore(txs: seq<Tx>, p: nat, q: nat)
    requires p <= q <= |txs|
    ensures |VerifierTxs(txs[..p])| <= |VerifierTxs(txs[..q])|
    decreases q
  {
    if p < q {
      assert txs[..q][..q - 1] == txs[..q - 1];
      FewerBefore(txs, p, q - 1);
    }
  }

  /** A permitted account made this request before its deadline, and the router answered it in time. */
  predicate RequestedAndAnswered(c: Chain, b: Bridge, txs: seq<Tx>, p: nat, q: nat, request: F.VerifierCall,
                                 answer: F.VerifierCall,
                                 deadline: Uint64)
    requires p < q < |txs|
  {
    && Before(c, b, txs, p).verifier.Functions? && b.verifier.Functions?
    && var v := Before(c, b, txs, p).verifier.requests;
       && (txs[p].sender in v.authorizedRequester || txs[p].sender == v.ownership.owner)
       && txs[p].call == OnFunctionsVerifier(request) && txs[p].now <= deadline
       && txs[q].sender == b.verifier.requests.functionsRouter
       && txs[q].call == OnFunctionsVerifier(answer) && txs[q].now <= deadline
  }

  lemma AcceptedWasAsked(c: Chain, b: Bridge, txs: seq<Tx>, kind: nat, structHash: Bytes32, att: Attestation)
    returns (p: nat, q: nat, deadline: Uint64, requester: Address)
    requires b.verifier.Functions? && F.IsFresh(b.verifier.requests)
    requires F.VerifyApproved(F.Run(b.verifier.requests, VerifierTxs(txs)), kind, structHash, att).None?
    ensures p < q < |txs| && txs[p].call.OnFunctionsVerifier? && txs[q].call.OnFunctionsVerifier?
    ensures Before(c, b, txs, p).verifier.Functions? && att.word.Some?
    ensures F.Asked(Before(c, b, txs, p).verifier.requests, F.Tx(txs[p].sender, txs[p].now, txs[p].call.functions),
                    att.word.value, kind, structHash, deadline, requester)
    ensures F.Answered(b.verifier.requests, F.Tx(txs[q].sender, txs[q].now, txs[q].call.functions),
                       att.word.value, kind, structHash, deadline)
  {
    hide F.Run, Run, F.Asked, F.Answered, VerifierTxs;
    var (v0, calls) := (b.verifier.requests, VerifierTxs(txs));
    F.AcceptanceIsJustified(v0, calls, kind, structHash, att);
    var i, j, d, r :| 0 <= i < j < |calls|
      && F.Asked(F.Run(v0, calls[..i]), calls[i], att.word.value, kind, structHash, d, r)
      && F.Answered(v0, calls[j], att.word.value, kind, structHash, d);
    deadline, requester := d, r;
    p := Position(txs, i);
    q := Position(txs, j);
    RunOfVerifier(c, b, txs[..p]);
    if q <= p {
      FewerBefore(txs, q, p);
    }
  }

  /**
    In every run each mint has behind it an earlier request for exactly its authorization, by an
    account permitted then, and the router's answer before the deadline.
   */
  lemma MintWasRequested(c: Chain, b: Bridge, txs: seq<Tx>, k: nat) returns (p: nat, q: nat, i: nat)
    requires b.history.mints == [] && b.verifier.Functions? && F.IsFresh(b.verifier.requests)
    requires k < |Run(c, b, txs).history.mints|
    ensures p < q < i < |txs| && Mints(c, Before(c, b, txs, i), txs[i], Run(c, b, txs).history.mints[k])
    ensures txs[i].call.attestation.word.Some?
    ensures var (a, id) := (txs[i].call.mint, txs[i].call.attestation.word.value);
      RequestedAndAnswered(c, b, txs, p, q, F.RequestMintAuthorization(a, id),
                           F.HandleOracleFulfillment(id, Some(F.Response(F.KIND_MINT, MintStructHash(a))), true),
                           a.deadline)
  {
    hide Run, Try, F.Run, VerifierTxs, F.VerifyApproved, MintStructHash, ReleaseStructHash, F.CallVerifier;
    i := EveryMintHasItsTransaction(c, b, txs, k);
    RunOfVerifier(c, b, txs[..i]);
    var (a, att) := (txs[i].call.mint, txs[i].call.attestation);
    var deadline, requester;
    p, q, deadline, requester := AcceptedWasAsked(c, b, txs[..i], F.KIND_MINT, MintStructHash(a), att);
    assert txs[..i][..p] == txs[..p];
    MintStructHashBinds(txs[p].call.functions.mint, a);
  }

  /** The same of every consumed record. */
  lemma CompletionWasRequested(c: Chain, b: Bridge, txs: seq<Tx>, h: Bytes32) returns (p: nat, q: nat, i: nat)
    requires b.burning.redeemRecords == map[] && b.verifier.Functions? && F.IsFresh(b.verifier.requests)
    requires B.StateOf(Run(c, b, txs).burning, h) == CONSUMED
    ensures p < q < i < |txs| && Consumes(c, Before(c, b, txs, i), txs[i], h)
    ensures txs[i].call.attestation.word.Some?
    ensures var (a, id) := (txs[i].call.release, txs[i].call.attestation.word.value);
      RequestedAndAnswered(c, b, txs, p, q, F.RequestReleaseAuthorization(a, id),
                           F.HandleOracleFulfillment(id, Some(F.Response(F.KIND_RELEASE, ReleaseStructHash(a))), true),
                           a.deadline)
  {
    hide Run, Try, F.Run, VerifierTxs, F.VerifyApproved, MintStructHash, ReleaseStructHash, F.CallVerifier;
    i := EveryConsumptionHasItsTransaction(c, b, txs, h);
    RunOfVerifier(c, b, txs[..i]);
    var (a, att) := (txs[i].call.release, txs[i].call.attestation);
    var deadline, requester;
    p, q, deadline, requester := AcceptedWasAsked(c, b, txs[..i], F.KIND_RELEASE, ReleaseStructHash(a), att);
    assert txs[..i][..p] == txs[..p];
    ReleaseStructHashBinds(txs[p].call.functions.release, a);
  }
}
