/**
  The Chainlink Functions verifier: a request for one struct hash, the router's answer, and the
  check that an attestation names an approved request.

  The router is outside the model: the request identifier it returns is an argument of the
  request call, and it may repeat an identifier it has used before.
 */
module FunctionsVerifier {
  import opened BridgeTypes
  import opened Ownable

  const KIND_MINT: nat := 1
  const KIND_RELEASE: nat := 2

  datatype PendingRequest = PendingRequest(
    kind: nat,
    structHash: Bytes32,
    requester: Address,
    deadline: Uint64,
    recorded: bool,
    fulfilled: bool,
    approved: bool)

  const NO_REQUEST := PendingRequest(0, Word(0), ZERO_ADDRESS, 0, false, false, false)

  datatype Verifier = Verifier(
    ownership: Ownership,
    bridgeDomain: Bytes32,
    functionsRouter: Address,
    subscriptionId: Uint64,
    donId: Bytes32,
    callbackGasLimit: Uint32,
    authorizedRequester: set<Address>,
    pendingRequests: map<Bytes32, PendingRequest>,
    approvedAuthorization: set<Bytes32>)

  /** The response argument of a fulfilment: two words when it is 64 bytes long. */
  datatype Response = Response(kind: nat, structHash: Bytes32)

  datatype VerifierCall =
    | SetFunctionsConfig(newSubscriptionId: Uint64, newDonId: Bytes32, newCallbackGasLimit: Uint32)
    | SetAuthorizedRequester(requester: Address, allowed: bool)
    | RequestMintAuthorization(mint: MintAuthorization, requestId: Bytes32)
    | RequestReleaseAuthorization(release: ReleaseAuthorization, requestId: Bytes32)
    | HandleOracleFulfillment(requestId: Bytes32, response: Option<Response>, errIsEmpty: bool)
    | OwnVerifier(call: OwnerCall)

  function Pending(v: Verifier, requestId: Bytes32): PendingRequest {
    if requestId in v.pendingRequests then v.pendingRequests[requestId] else NO_REQUEST
  }

  /** keccak256(abi.encode(requestId, kind, structHash)) */
  function ApprovalKey(requestId: Bytes32, kind: nat, structHash: Bytes32): Bytes32 {
    Keccak([requestId, Word(kind), structHash])
  }

  function Request(v: Verifier, sender: Address, kind: nat, structHash: Bytes32, deadline: Uint64,
                   requestId: Bytes32): Outcome<Verifier> {
    if sender !in v.authorizedRequester && sender != v.ownership.owner then Revert(UnauthorizedRequester)
    else
      Commit(v.(pendingRequests := v.pendingRequests[requestId :=
                  PendingRequest(kind, structHash, sender, deadline, true, false, false)]))
  }

  /** A response of the wrong length is not decoded; a kind beyond one byte fails to decode. */
  function Fulfill(v: Verifier, sender: Address, now: Uint64, requestId: Bytes32, response: Option<Response>,
                   errIsEmpty: bool): Outcome<Verifier> {
    var p := Pending(v, requestId);
    if sender != v.functionsRouter then Revert(OnlyRouterCanFulfill)
    else if !p.recorded then Revert(UnknownRequest)
    else
      var f := p.(fulfilled := true);
      var rejected := v.(pendingRequests := v.pendingRequests[requestId := f]);
      if !errIsEmpty || response.None? || now > p.deadline then Commit(rejected)
      else if response.value.kind >= 256 then Revert(DecodingFailed)
      else if response.value.kind != p.kind || response.value.structHash != p.structHash then Commit(rejected)
      else
        Commit(v.(pendingRequests := v.pendingRequests[requestId := f.(approved := true)],
                  approvedAuthorization := v.approvedAuthorization + {ApprovalKey(requestId, p.kind, p.structHash)}))
  }

  function CallVerifier(v: Verifier, sender: Address, now: Uint64, call: VerifierCall): Outcome<Verifier> {
    match call
    case SetFunctionsConfig(newSubscriptionId, newDonId, newCallbackGasLimit) =>
      if sender != v.ownership.owner then Revert(Unauthorized)
      else if newSubscriptionId == 0 || newDonId == Word(0) || newCallbackGasLimit == 0
        then Revert(InvalidFunctionsConfig)
      else Commit(v.(subscriptionId := newSubscriptionId, donId := newDonId, callbackGasLimit := newCallbackGasLimit))
    case SetAuthorizedRequester(requester, allowed) =>
      if sender != v.ownership.owner then Revert(Unauthorized)
      else if requester == ZERO_ADDRESS then Revert(InvalidFunctionsConfig)
      else Commit(v.(authorizedRequester := if allowed then v.authorizedRequester + {requester}
                     else v.authorizedRequester - {requester}))
    case RequestMintAuthorization(a, requestId) =>
      if a.bridgeDomain != v.bridgeDomain then Revert(InvalidBridgeDomain)
      else if now > a.deadline then Revert(AuthorizationExpired)
      else Request(v, sender, KIND_MINT, MintStructHash(a), a.deadline, requestId)
    case RequestReleaseAuthorization(a, requestId) =>
      if a.bridgeDomain != v.bridgeDomain then Revert(InvalidBridgeDomain)
      else if now > a.deadline then Revert(AuthorizationExpired)
      else Request(v, sender, KIND_RELEASE, ReleaseStructHash(a), a.deadline, requestId)
    case HandleOracleFulfillment(requestId, response, errIsEmpty) =>
      Fulfill(v, sender, now, requestId, response, errIsEmpty)
    case OwnVerifier(call) =>
      match CallOwnable(v.ownership, sender, call)
      case Revert(e) => Revert(e)
      case Commit(o) => Commit(v.(ownership := o))
  }

  function VerifyApproved(v: Verifier, kind: nat, structHash: Bytes32, att: Attestation): Option<Error> {
    if att.isEmpty then Some(InvalidAttestation)
    else if att.word.None? then Some(DecodingFailed)
    else
      var p := Pending(v, att.word.value);
      if !p.recorded then Some(UnknownRequest)
      else if !p.fulfilled || !p.approved then Some(ChainlinkRequestFailed)
      else if p.kind != kind || p.structHash != structHash then Some(ChainlinkResponseMismatch)
      else if ApprovalKey(att.word.value, kind, structHash) !in v.approvedAuthorization
        then Some(ChainlinkAuthorizationNotApproved)
      else None
  }

  function VerifyMint(v: Verifier, now: Uint64, a: MintAuthorization, att: Attestation): Option<Error> {
    if a.bridgeDomain != v.bridgeDomain then Some(InvalidBridgeDomain)
    else if now > a.deadline then Some(AuthorizationExpired)
    else VerifyApproved(v, KIND_MINT, MintStructHash(a), att)
  }

  function VerifyRelease(v: Verifier, now: Uint64, a: ReleaseAuthorization, att: Attestation): Option<Error> {
    if a.bridgeDomain != v.bridgeDomain then Some(InvalidBridgeDomain)
    else if now > a.deadline then Some(AuthorizationExpired)
    else VerifyApproved(v, KIND_RELEASE, ReleaseStructHash(a), att)
  }

  class FunctionsVerifierContract {
    const ownable: OwnableContract
    const bridgeDomain: Bytes32
    const functionsRouter: Address
    var subscriptionId: Uint64
    var donId: Bytes32
    var callbackGasLimit: Uint32
    var authorizedRequester: set<Address>
    var pendingRequests: map<Bytes32, PendingRequest>
    var approvedAuthorization: set<Bytes32>

    function State(): Verifier
      reads this, ownable
    {
      Verifier(ownable.State(), bridgeDomain, functionsRouter, subscriptionId, donId, callbackGasLimit,
               authorizedRequester, pendingRequests, approvedAuthorization)
    }

    constructor (initialBridgeDomain: Bytes32, initialOwner: Address, router: Address, initialSubscriptionId: Uint64,
                 initialDonId: Bytes32, initialCallbackGasLimit: Uint32, initialRequesters: seq<Address>)
      requires initialOwner != ZERO_ADDRESS && router != ZERO_ADDRESS
      requires initialSubscriptionId != 0 && initialDonId != Word(0) && initialCallbackGasLimit != 0
      requires ZERO_ADDRESS !in initialRequesters
      ensures State() == Verifier(Ownership(initialOwner, ZERO_ADDRESS), initialBridgeDomain, router,
                                  initialSubscriptionId,
                                  initialDonId, initialCallbackGasLimit, set a | a in initialRequesters, map[], {})
      ensures fresh(ownable)
    {
      ownable := new OwnableContract(initialOwner);
      bridgeDomain, functionsRouter := initialBridgeDomain, router;
      subscriptionId, donId, callbackGasLimit := initialSubscriptionId, initialDonId, initialCallbackGasLimit;
      authorizedRequester, pendingRequests, approvedAuthorization := {}, map[], {};
      new;
      for i := 0 to |initialRequesters|
        invariant authorizedRequester == set a | a in initialRequesters[..i]
        invariant ownable.State() == Ownership(initialOwner, ZERO_ADDRESS)
        invariant subscriptionId == initialSubscriptionId && donId == initialDonId
        invariant callbackGasLimit == initialCallbackGasLimit && pendingRequests == map[] && approvedAuthorization == {}
      {
        assert initialRequesters[..i + 1] == initialRequesters[..i] + [initialRequesters[i]];
        authorizedRequester := authorizedRequester + {initialRequesters[i]};
      }
      assert initialRequesters[..|initialRequesters|] == initialRequesters;
    }

    method RequestAuthorization(sender: Address, kind: nat, structHash: Bytes32, deadline: Uint64, requestId: Bytes32)
      returns (error: Option<Error>)
      modifies this
      ensures Did(Request(old(State()), sender, kind, structHash, deadline, requestId), old(State()), State(), error)
    {
      if sender !in authorizedRequester && sender != ownable.owner {
        return Some(UnauthorizedRequester);
      }
      pendingRequests := pendingRequests[requestId := PendingRequest(kind, structHash, sender, deadline, true, false,
                                                                     false)];
      return None;
    }

    /** The fulfilled flag is written before the response is decoded, and undone when decoding reverts. */
    method HandleOracleFulfillment(sender: Address, now: Uint64, requestId: Bytes32, response: Option<Response>,
                                   errIsEmpty: bool)
      returns (error: Option<Error>)
      modifies this
      ensures Did(Fulfill(old(State()), sender, now, requestId, response, errIsEmpty), old(State()), State(), error)
    {
      if sender != functionsRouter {
        return Some(OnlyRouterCanFulfill);
      }
      var saved := pendingRequests;
      var pending := if requestId in pendingRequests then pendingRequests[requestId] else NO_REQUEST;
      if !pending.recorded {
        return Some(UnknownRequest);
      }
      pending := pending.(fulfilled := true);
      pendingRequests := pendingRequests[requestId := pending];
      if !errIsEmpty || response.None? || now > pending.deadline {
        return None;
      }
      if response.value.kind >= 256 {
        pendingRequests := saved;
        return Some(DecodingFailed);
      }
      if response.value.kind != pending.kind || response.value.structHash != pending.structHash {
        return None;
      }
      approvedAuthorization := approvedAuthorization + {ApprovalKey(requestId, pending.kind, pending.structHash)};
      pendingRequests := pendingRequests[requestId := pending.(approved := true)];
      assert pendingRequests == saved[requestId := pending.(approved := true)];
      return None;
    }

    method VerifyMintAuthorization(now: Uint64, a: MintAuthorization, att: Attestation) returns (error: Option<Error>)
      ensures error == VerifyMint(State(), now, a, att)
    {
      hide MintStructHash, VerifyApproved;
      if a.bridgeDomain != bridgeDomain {
        return Some(InvalidBridgeDomain);
      }
      if now > a.deadline {
        return Some(AuthorizationExpired);
      }
      error := VerifyApprovedRequest(KIND_MINT, MintStructHash(a), att);
    }

    method VerifyReleaseAuthorization(now: Uint64, a: ReleaseAuthorization, att: Attestation)
      returns (error: Option<Error>)
      ensures error == VerifyRelease(State(), now, a, att)
    {
      hide ReleaseStructHash, VerifyApproved;
      if a.bridgeDomain != bridgeDomain {
        return Some(InvalidBridgeDomain);
      }
      if now > a.deadline {
        return Some(AuthorizationExpired);
      }
      error := VerifyApprovedRequest(KIND_RELEASE, ReleaseStructHash(a), att);
    }

    method VerifyApprovedRequest(kind: nat, structHash: Bytes32, att: Attestation) returns (error: Option<Error>)
      ensures error == VerifyApproved(State(), kind, structHash, att)
    {
      if att.isEmpty {
        return Some(InvalidAttestation);
      }
      if att.word.None? {
        return Some(DecodingFailed);
      }
      var requestId := att.word.value;
      var pending := if requestId in pendingRequests then pendingRequests[requestId] else NO_REQUEST;
      if !pending.recorded {
        return Some(UnknownRequest);
      }
      if !pending.fulfilled || !pending.approved {
        return Some(ChainlinkRequestFailed);
      }
      if pending.kind != kind || pending.structHash != structHash {
        return Some(ChainlinkResponseMismatch);
      }
      if ApprovalKey(requestId, kind, structHash) !in approvedAuthorization {
        return Some(ChainlinkAuthorizationNotApproved);
      }
      return None;
    }
  }

  // ----- What each call means -----

  /** Who may request, until when, and the record that a request leaves: neither fulfilled nor approved. */
  lemma RequestIsRecorded(v: Verifier, sender: Address, now: Uint64, a: MintAuthorization, r: ReleaseAuthorization,
                          id: Bytes32)
    ensures var q := CallVerifier(v, sender, now, RequestMintAuthorization(a, id));
      && (q.Commit? <==> && a.bridgeDomain == v.bridgeDomain && now <= a.deadline
                         && (sender in v.authorizedRequester || sender == v.ownership.owner))
      && (q.Revert? ==> q.error == if a.bridgeDomain != v.bridgeDomain then InvalidBridgeDomain
                                   else if now > a.deadline then AuthorizationExpired else UnauthorizedRequester)
      && (q.Commit? ==>
           q.state == v.(pendingRequests := v.pendingRequests[
                           id := PendingRequest(kind := 1, structHash := MintStructHash(a), requester := sender,
                                                deadline := a.deadline, recorded := true, fulfilled := false,
                                                approved := false)]))
    ensures var q := CallVerifier(v, sender, now, RequestReleaseAuthorization(r, id));
      && (q.Commit? <==> && r.bridgeDomain == v.bridgeDomain && now <= r.deadline
                         && (sender in v.authorizedRequester || sender == v.ownership.owner))
      && (q.Revert? ==> q.error == if r.bridgeDomain != v.bridgeDomain then InvalidBridgeDomain
                                   else if now > r.deadline then AuthorizationExpired else UnauthorizedRequester)
      && (q.Commit? ==>
           q.state == v.(pendingRequests := v.pendingRequests[
                           id := PendingRequest(kind := 2, structHash := ReleaseStructHash(r), requester := sender,
                                                deadline := r.deadline, recorded := true, fulfilled := false,
                                                approved := false)]))
  {
    hide MintStructHash, ReleaseStructHash;
  }

  /** The answer approves: no error, in time, and it repeats what was requested. */
  predicate Approves(p: PendingRequest, now: Uint64, response: Option<Response>, errIsEmpty: bool) {
    && errIsEmpty && now <= p.deadline && response == Some(Response(p.kind, p.structHash))
  }

  /**
    Only the router fulfils, and only a recorded request; an answer in time whose kind is no byte
    reverts. The request is then fulfilled, and approved as well when the answer approves.
   */
  lemma FulfillmentIsRecorded(v: Verifier, now: Uint64, sender: Address, id: Bytes32, response: Option<Response>,
                              errIsEmpty: bool)
    ensures var q := CallVerifier(v, sender, now, HandleOracleFulfillment(id, response, errIsEmpty));
      && (q.Commit? <==>
           && sender == v.functionsRouter && id in v.pendingRequests && v.pendingRequests[id].recorded
           && (errIsEmpty && response.Some? && now <= v.pendingRequests[id].deadline ==> response.value.kind < 256))
      && (q.Revert? ==> q.error == if sender != v.functionsRouter then OnlyRouterCanFulfill
                                   else if id !in v.pendingRequests || !v.pendingRequests[id].recorded
                                     then UnknownRequest
                                   else DecodingFailed)
      && (q.Commit? ==>
           var p := v.pendingRequests[id];
           var approves := Approves(p, now, response, errIsEmpty) && p.kind < 256;
           && q.state.pendingRequests
                == v.pendingRequests[id := p.(fulfilled := true, approved := p.approved || approves)]
           && q.state.approvedAuthorization
                == v.approvedAuthorization + (if approves then {Keccak([id, Word(p.kind), p.structHash])} else {})
           && q.state == v.(pendingRequests := q.state.pendingRequests,
                            approvedAuthorization := q.state.approvedAuthorization))
  {
  }

  /** The owner sets a configuration without zeros, and adds or removes one nonzero requester. */
  lemma OwnerConfigures(v: Verifier, sender: Address, now: Uint64, subscriptionId: Uint64, donId: Bytes32,
                        gasLimit: Uint32, requester: Address, allowed: bool)
    ensures var q := CallVerifier(v, sender, now, SetFunctionsConfig(subscriptionId, donId, gasLimit));
      && (q.Commit? <==> && sender == v.ownership.owner && subscriptionId > 0 && donId != Word(0) && gasLimit > 0)
      && (q.Commit? ==>
           q.state == v.(subscriptionId := subscriptionId, donId := donId, callbackGasLimit := gasLimit))
    ensures var q := CallVerifier(v, sender, now, SetAuthorizedRequester(requester, allowed));
      && (q.Commit? <==> sender == v.ownership.owner && requester != ZERO_ADDRESS)
      && (q.Commit? ==>
           && (forall who: Address ::
                who in q.state.authorizedRequester
                <==> if who == requester then allowed else who in v.authorizedRequester)
           && q.state == v.(authorizedRequester := q.state.authorizedRequester))
  {
  }

  /** A request named by an attestation is approved for this kind and struct hash. */
  predicate NamesApproved(v: Verifier, kind: nat, structHash: Bytes32, att: Attestation) {
    && !att.isEmpty && att.word.Some? && att.word.value in v.pendingRequests
    && var p := v.pendingRequests[att.word.value];
       && p.recorded && p.fulfilled && p.approved && p.kind == kind && p.structHash == structHash
       && Keccak([att.word.value, Word(kind), structHash]) in v.approvedAuthorization
  }

  /** An authorization of this domain is accepted until its deadline, when its approved request is named. */
  lemma AuthorizationIsAccepted(v: Verifier, now: Uint64, a: MintAuthorization, r: ReleaseAuthorization,
                                att: Attestation)
    ensures VerifyMint(v, now, a, att).None?
        <==> a.bridgeDomain == v.bridgeDomain && now <= a.deadline && NamesApproved(v, 1, MintStructHash(a), att)
    ensures VerifyRelease(v, now, r, att).None?
        <==> r.bridgeDomain == v.bridgeDomain && now <= r.deadline && NamesApproved(v, 2, ReleaseStructHash(r), att)
    ensures VerifyMint(v, now, a, att).Some? ==>
      VerifyMint(v, now, a, att).value
      == if a.bridgeDomain != v.bridgeDomain then InvalidBridgeDomain
         else if now > a.deadline then AuthorizationExpired else ApprovalRefusal(v, 1, MintStructHash(a), att)
    ensures VerifyRelease(v, now, r, att).Some? ==>
      VerifyRelease(v, now, r, att).value
      == if r.bridgeDomain != v.bridgeDomain then InvalidBridgeDomain
         else if now > r.deadline then AuthorizationExpired else ApprovalRefusal(v, 2, ReleaseStructHash(r), att)
  {
    hide MintStructHash, ReleaseStructHash;
  }

  /** Why an attestation names no approved request. */
  function ApprovalRefusal(v: Verifier, kind: nat, structHash: Bytes32, att: Attestation): Error {
    if att.isEmpty then InvalidAttestation
    else if att.word.None? then DecodingFailed
    else if att.word.value !in v.pendingRequests then UnknownRequest
    else
      var p := v.pendingRequests[att.word.value];
      if !p.recorded then UnknownRequest
      else if !(p.fulfilled && p.approved) then ChainlinkRequestFailed
      else if !(p.kind == kind && p.structHash == structHash) then ChainlinkResponseMismatch
      else ChainlinkAuthorizationNotApproved
  }

  // ----- Approval soundness over whole runs -----

  datatype Tx = Tx(sender: Address, now: Uint64, call: VerifierCall)

  function Apply(v: Verifier, tx: Tx): Verifier {
    match CallVerifier(v, tx.sender, tx.now, tx.call) case Commit(s) => s case Revert(_) => v
  }

  function Run(v: Verifier, txs: seq<Tx>): Verifier {
    if txs == [] then v else Apply(Run(v, txs[..|txs| - 1]), txs[|txs| - 1])
  }

  /** tx asked, under this identifier, for exactly this struct hash, and was allowed to. */
  predicate Asked(v: Verifier, tx: Tx, requestId: Bytes32, kind: nat, structHash: Bytes32, deadline: Uint64,
                  requester: Address) {
    && CallVerifier(v, tx.sender, tx.now, tx.call).Commit?
    && tx.sender == requester && (requester in v.authorizedRequester || requester == v.ownership.owner)
    && match tx.call
       case RequestMintAuthorization(a, id) =>
         id == requestId && kind == KIND_MINT && structHash == MintStructHash(a) && deadline == a.deadline
         && tx.now <= deadline
       case RequestReleaseAuthorization(a, id) =>
         id == requestId && kind == KIND_RELEASE && structHash == ReleaseStructHash(a) && deadline == a.deadline
         && tx.now <= deadline
       case _ => false
  }

  /** tx is the router's answer, in time and without error, repeating this kind and struct hash. */
  predicate Answered(v: Verifier, tx: Tx, requestId: Bytes32, kind: nat, structHash: Bytes32, deadline: Uint64) {
    && tx.sender == v.functionsRouter && tx.now <= deadline
    && tx.call == HandleOracleFulfillment(requestId, Some(Response(kind, structHash)), true)
  }

  /** The history behind one pending request. */
  ghost predicate Justified(v0: Verifier, txs: seq<Tx>, requestId: Bytes32, p: PendingRequest) {
    exists i | 0 <= i < |txs| ::
      && Asked(Run(v0, txs[..i]), txs[i], requestId, p.kind, p.structHash, p.deadline, p.requester)
      && (p.approved ==> exists j | i < j < |txs| :: Answered(v0, txs[j], requestId, p.kind, p.structHash, p.deadline))
  }

  ghost predicate Sound(v0: Verifier, txs: seq<Tx>) {
    var v := Run(v0, txs);
    && v.functionsRouter == v0.functionsRouter && v.bridgeDomain == v0.bridgeDomain
    && forall id | id in v.pendingRequests ::
         var p := v.pendingRequests[id];
         && p.recorded
         && (p.approved ==> p.fulfilled && ApprovalKey(id, p.kind, p.structHash) in v.approvedAuthorization)
         && Justified(v0, txs, id, p)
  }

  predicate IsFresh(v: Verifier) { v.pendingRequests == map[] && v.approvedAuthorization == {} }

  lemma StillJustified(v0: Verifier, txs: seq<Tx>, tx: Tx, id: Bytes32, p: PendingRequest)
    requires Justified(v0, txs, id, p)
    ensures Justified(v0, txs + [tx], id, p)
  {
    var i :| 0 <= i < |txs| && Asked(Run(v0, txs[..i]), txs[i], id, p.kind, p.structHash, p.deadline, p.requester)
      && (p.approved ==> exists j | i < j < |txs| :: Answered(v0, txs[j], id, p.kind, p.structHash, p.deadline));
    var all := txs + [tx];
    assert all[..i] == txs[..i] && all[i] == txs[i];
    if p.approved {
      var j :| i < j < |txs| && Answered(v0, txs[j], id, p.kind, p.structHash, p.deadline);
      assert all[j] == txs[j];
    }
  }

  lemma RunStep(v0: Verifier, txs: seq<Tx>, tx: Tx)
    ensures Run(v0, txs + [tx]) == Apply(Run(v0, txs), tx)
  {
    assert (txs + [tx])[..|txs|] == txs;
  }

  /** A freshly made request is justified by the transaction that made it. */
  lemma NewlyAsked(v0: Verifier, txs: seq<Tx>, tx: Tx, id: Bytes32, p: PendingRequest)
    requires Asked(Run(v0, txs), tx, id, p.kind, p.structHash, p.deadline, p.requester) && !p.approved
    ensures Justified(v0, txs + [tx], id, p)
  {
    var all := txs + [tx];
    assert all[..|txs|] == txs && all[|txs|] == tx;
  }

  /** An answered request keeps its asking transaction and gains its answer. */
  lemma NewlyAnswered(v0: Verifier, txs: seq<Tx>, tx: Tx, id: Bytes32, p: PendingRequest, p': PendingRequest)
    requires Justified(v0, txs, id, p) && p' == p.(fulfilled := true, approved := true)
    requires Answered(v0, tx, id, p.kind, p.structHash, p.deadline)
    ensures Justified(v0, txs + [tx], id, p')
  {
    var i :| 0 <= i < |txs| && Asked(Run(v0, txs[..i]), txs[i], id, p.kind, p.structHash, p.deadline, p.requester)
      && (p.approved ==> exists j | i < j < |txs| :: Answered(v0, txs[j], id, p.kind, p.structHash, p.deadline));
    var all := txs + [tx];
    assert all[..i] == txs[..i] && all[i] == txs[i] && all[|txs|] == tx;
  }

  lemma StepIsSound(v0: Verifier, txs: seq<Tx>, tx: Tx)
    requires Sound(v0, txs)
    ensures Sound(v0, txs + [tx])
  {
    hide Run, Justified;
    RunStep(v0, txs, tx);
    var v := Run(v0, txs);
    var v' := Apply(v, tx);
    forall id | id in v'.pendingRequests
      ensures var p := v'.pendingRequests[id];
        && p.recorded
        && (p.approved ==> p.fulfilled && ApprovalKey(id, p.kind, p.structHash) in v'.approvedAuthorization)
        && Justified(v0, txs + [tx], id, p)
    {
      var p := v'.pendingRequests[id];
      if id in v.pendingRequests && v.pendingRequests[id] == p {
        StillJustified(v0, txs, tx, id, p);
      } else if tx.call.HandleOracleFulfillment? {
        var before := v.pendingRequests[id];
        StillJustified(v0, txs, tx, id, before);
        if p.approved && !before.approved {
          NewlyAnswered(v0, txs, tx, id, before, p);
        } else {
          SameRequest(v0, txs + [tx], id, before, p);
        }
      } else {
        NewlyAsked(v0, txs, tx, id, p);
      }
    }
  }

  lemma SameRequest(v0: Verifier, txs: seq<Tx>, id: Bytes32, p: PendingRequest, p': PendingRequest)
    requires Justified(v0, txs, id, p) && p' == p.(fulfilled := true)
    ensures Justified(v0, txs, id, p')
  {
  }

  lemma {:induction false} AlwaysSound(v0: Verifier, txs: seq<Tx>)
    requires IsFresh(v0)
    ensures Sound(v0, txs)
  {
    if txs != [] {
      var n := |txs| - 1;
      AlwaysSound(v0, txs[..n]);
      StepIsSound(v0, txs[..n], txs[n]);
      assert txs[..n] + [txs[n]] == txs;
    }
  }

  /**
    In every reachable state, an accepted attestation names a request that a permitted account
    made for exactly this struct hash before its deadline and that the router answered in time;
    and the final approval-key check never refuses.
   */
  lemma AcceptanceIsJustified(v0: Verifier, txs: seq<Tx>, kind: nat, structHash: Bytes32, att: Attestation)
    requires IsFresh(v0)
    ensures VerifyApproved(Run(v0, txs), kind, structHash, att) != Some(ChainlinkAuthorizationNotApproved)
    ensures VerifyApproved(Run(v0, txs), kind, structHash, att).None? ==>
      exists i, j, deadline, requester | 0 <= i < j < |txs| ::
        && Asked(Run(v0, txs[..i]), txs[i], att.word.value, kind, structHash, deadline, requester)
        && Answered(v0, txs[j], att.word.value, kind, structHash, deadline)
  {
    AlwaysSound(v0, txs);
    hide Run;
  }

  /** An attestation accepted for a mint is refused for every release, and the other way round. */
  lemma KindsDoNotMix(v: Verifier, now: Uint64, now': Uint64, a: MintAuthorization, r: ReleaseAuthorization,
                      att: Attestation)
    ensures !(VerifyMint(v, now, a, att).None? && VerifyRelease(v, now', r, att).None?)
  {
  }
}
