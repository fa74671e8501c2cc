/**
  Redeeming: burning tokens into a numbered request, and consuming a request once against an
  authorization.
 */
module BurnGateway {
  import opened BridgeTypes
  import opened Ownable
  import opened RateLimiter
  import W = WrappedBitcoin

  datatype RedeemRecord = RedeemRecord(request: RedeemRequest, state: RedeemState)

  datatype Gateway = Gateway(
    ownership: Ownership,
    bridgeDomain: Bytes32,
    btcNetwork: Uint32,
    sourceEvmChainId: Uint64,
    burnPaused: bool,
    limiter: Limiter,
    redeemRecords: map<Bytes32, RedeemRecord>,
    nextRedeemNonce: map<Address, nat>,
    redeemIdConsumed: set<Bytes32>)

  /** The contracts a burn touches. */
  datatype World = World(gateway: Gateway, token: W.Token)

  datatype GatewayCall =
    | SetBurnPaused(paused: bool)
    | SetRedeemLimit(newLimitSats: Uint64, newWindowSeconds: Uint64)
    | SetRedeemState(requestHash: Bytes32, newState: RedeemState)
    | OwnGateway(call: OwnerCall)

  predicate IsAllowedDestinationScript(s: seq<Byte>) {
    if |s| == 22 then s[0] == 0x00 && s[1] == 0x14
    else if |s| == 34 then (s[0] == 0x00 && s[1] == 0x20) || (s[0] == 0x51 && s[1] == 0x20)
    else false
  }

  predicate IsAllowedStateTransition(current: RedeemState, next: RedeemState) {
    match current
    case BURNED => next == CANCELLED || next == MANUALLY_RESOLVED
    case CANCELLED => next == MANUALLY_RESOLVED
    case _ => false
  }

  function StateOf(g: Gateway, h: Bytes32): RedeemState {
    if h in g.redeemRecords then g.redeemRecords[h].state else NONE
  }

  function CallGateway(g: Gateway, sender: Address, now: Uint64, call: GatewayCall): Outcome<Gateway> {
    match call
    case SetBurnPaused(paused) =>
      if sender != g.ownership.owner then Revert(Unauthorized) else Commit(g.(burnPaused := paused))
    case SetRedeemLimit(newLimitSats, newWindowSeconds) =>
      if sender != g.ownership.owner then Revert(Unauthorized)
      else
        (match SetLimit(now, newLimitSats, newWindowSeconds)
         case Revert(e) => Revert(e)
         case Commit(l) => Commit(g.(limiter := l)))
    case SetRedeemState(h, newState) =>
      if sender != g.ownership.owner then Revert(Unauthorized)
      else if StateOf(g, h) == NONE then Revert(RedeemRequestNotFound)
      else if !IsAllowedStateTransition(StateOf(g, h), newState) then Revert(RedeemStateTransitionNotAllowed)
      else Commit(g.(redeemRecords := g.redeemRecords[h := g.redeemRecords[h].(state := newState)]))
    case OwnGateway(call) =>
      match CallOwnable(g.ownership, sender, call)
      case Revert(e) => Revert(e)
      case Commit(o) => Commit(g.(ownership := o))
  }

  /** The request a burn makes: the caller's next nonce makes it new. */
  function RequestOf(g: Gateway, sender: Address, script: seq<Byte>, amountSats: Uint64, maxMinerFeeSats: Uint64,
                     deadline: Uint64): RedeemRequest
    requires Get(g.nextRedeemNonce, sender) < TWO_64
  {
    RedeemRequest(sender, KeccakBytes(script), amountSats, maxMinerFeeSats, deadline, Get(g.nextRedeemNonce, sender))
  }

  function BurnIntoRequest(w: World, self: Address, sender: Address, now: Uint64, script: seq<Byte>,
                           amountSats: Uint64, maxMinerFeeSats: Uint64, deadline: Uint64): Outcome<World> {
    var g := w.gateway;
    if g.burnPaused then Revert(BurnPaused)
    else if !IsAllowedDestinationScript(script) then Revert(InvalidDestinationScript)
    else if amountSats == 0 then Revert(InvalidRedeemAmount)
    else if maxMinerFeeSats >= amountSats then Revert(InvalidRedeemFeeBudget)
    else if now > deadline then Revert(RedeemDeadlineExpired)
    else if Get(g.nextRedeemNonce, sender) + 1 >= TWO_64 then Revert(ArithmeticOverflow)
    else
      var request := RequestOf(g, sender, script, amountSats, maxMinerFeeSats, deadline);
      var h := RedeemRequestHash(g.bridgeDomain, request);
      if StateOf(g, h) != NONE then Revert(RedeemRequestAlreadyExists)
      else
        match Consume(g.limiter, Attempt(now, amountSats))
        case Revert(e) => Revert(e)
        case Commit(l) =>
          match W.CallToken(w.token, self, W.BurnFrom(sender, amountSats))
          case Revert(e) => Revert(e)
          case Commit(t) =>
            Commit(World(g.(nextRedeemNonce := g.nextRedeemNonce[sender := request.requestNonce + 1], limiter := l,
                            redeemRecords := g.redeemRecords[h := RedeemRecord(request, BURNED)]), t))
  }

  /** The checks made before the verifier is asked. */
  function Precheck(g: Gateway, a: ReleaseAuthorization): Option<Error> {
    var h := a.redeemRequestHash;
    if g.burnPaused then Some(BurnPaused)
    else if a.btcNetwork != g.btcNetwork then Some(InvalidReleaseBtcNetwork)
    else if a.sourceEvmChainId != g.sourceEvmChainId then Some(InvalidReleaseSourceChain)
    else if StateOf(g, h) == NONE then Some(RedeemRequestNotFound)
    else if StateOf(g, h) != BURNED then Some(RedeemStateTransitionNotAllowed)
    else
      var r := g.redeemRecords[h].request;
      if a.requester != r.requester || a.destinationScriptHash != r.destinationScriptHash
         || a.amountSats != r.amountSats
         || a.maxMinerFeeSats != r.maxMinerFeeSats then Some(ReleaseAuthorizationMismatch)
      else if a.redeemId != RedeemIdOf(g.bridgeDomain, a.burnTxHash, a.burnLogIndex, h)
        then Some(ReleaseAuthorizationMismatch)
      else if a.redeemId in g.redeemIdConsumed then Some(RedeemIdAlreadyConsumed)
      else None
  }

  function Consumed(records: map<Bytes32, RedeemRecord>, h: Bytes32): map<Bytes32, RedeemRecord>
    requires h in records
  {
    records[h := records[h].(state := CONSUMED)]
  }

  function Complete(g: Gateway, a: ReleaseAuthorization, verdict: Option<Error>): Outcome<Gateway> {
    var early := Precheck(g, a);
    if early.Some? then Revert(early.value)
    else if verdict.Some? then Revert(verdict.value)
    else
      Commit(g.(redeemIdConsumed := g.redeemIdConsumed + {a.redeemId},
                redeemRecords := Consumed(g.redeemRecords, a.redeemRequestHash)))
  }

  class BurnGatewayContract {
    const self: Address
    const ownable: OwnableContract
    const limiter: LimiterContract
    const token: W.WrappedBitcoinContract
    const bridgeDomain: Bytes32
    const btcNetwork: Uint32
    const sourceEvmChainId: Uint64
    var burnPaused: bool
    var redeemRecords: map<Bytes32, RedeemRecord>
    var nextRedeemNonce: map<Address, nat>
    var redeemIdConsumed: set<Bytes32>

    function State(): Gateway
      reads this, ownable, limiter
    {
      Gateway(ownable.State(), bridgeDomain, btcNetwork, sourceEvmChainId, burnPaused, limiter.State(),
              redeemRecords, nextRedeemNonce, redeemIdConsumed)
    }

    function Around(): World
      reads this, ownable, limiter, token, token.ownable
    {
      World(State(), token.State())
    }

    constructor (self: Address, initialOwner: Address, token: W.WrappedBitcoinContract, bridgeDomain: Bytes32,
                 btcNetwork: Uint32, sourceEvmChainId: Uint64, now: Uint64, limitSats: Uint64, windowSeconds: Uint64)
      requires initialOwner != ZERO_ADDRESS && SetLimit(now, limitSats, windowSeconds).Commit?
      ensures State() == Gateway(Ownership(initialOwner, ZERO_ADDRESS), bridgeDomain, btcNetwork, sourceEvmChainId,
                                 false,
                                 SetLimit(now, limitSats, windowSeconds).state, map[], map[], {})
      ensures this.self == self && this.token == token && fresh(ownable)
    {
      this.self, this.token, this.bridgeDomain := self, token, bridgeDomain;
      this.btcNetwork, this.sourceEvmChainId := btcNetwork, sourceEvmChainId;
      ownable := new OwnableContract(initialOwner);
      limiter := new LimiterContract(now, limitSats, windowSeconds);
      burnPaused, redeemRecords, nextRedeemNonce, redeemIdConsumed := false, map[], map[], {};
    }

    method SetBurnPaused(sender: Address, now: Uint64, paused: bool) returns (error: Option<Error>)
      modifies this
      ensures Did(CallGateway(old(State()), sender, now, GatewayCall.SetBurnPaused(paused)), old(State()), State(),
                  error)
    {
      if sender != ownable.owner {
        return Some(Unauthorized);
      }
      burnPaused := paused;
      return None;
    }

    method SetRedeemLimit(sender: Address, now: Uint64, newLimitSats: Uint64, newWindowSeconds: Uint64)
      returns (error: Option<Error>)
      modifies limiter
      ensures Did(CallGateway(old(State()), sender, now, GatewayCall.SetRedeemLimit(newLimitSats, newWindowSeconds)),
                  old(State()), State(), error)
    {
      if sender != ownable.owner {
        return Some(Unauthorized);
      }
      error := limiter.Set(now, newLimitSats, newWindowSeconds);
    }

    method SetRedeemState(sender: Address, now: Uint64, h: Bytes32, newState: RedeemState)
      returns (error: Option<Error>)
      modifies this
      ensures Did(CallGateway(old(State()), sender, now, GatewayCall.SetRedeemState(h, newState)), old(State()),
                  State(), error)
    {
      if sender != ownable.owner {
        return Some(Unauthorized);
      }
      var currentState := StateOf(State(), h);
      if currentState == NONE {
        return Some(RedeemRequestNotFound);
      }
      if !IsAllowedStateTransition(currentState, newState) {
        return Some(RedeemStateTransitionNotAllowed);
      }
      redeemRecords := redeemRecords[h := redeemRecords[h].(state := newState)];
      return None;
    }

    /** The nonce is taken and the limit used before the token is asked; a later revert undoes both. */
    method Burn(sender: Address, now: Uint64, script: seq<Byte>, amountSats: Uint64, maxMinerFeeSats: Uint64,
                deadline: Uint64)
      returns (error: Option<Error>, requestHash: Bytes32)
      modifies this, limiter, token
      ensures Did(BurnIntoRequest(old(Around()), self, sender, now, script, amountSats, maxMinerFeeSats, deadline),
                  old(Around()), Around(), error)
    {
      hide RedeemRequestHash, IsAllowedDestinationScript, W.CallToken;
      requestHash := Word(0);
      if burnPaused {
        return Some(BurnPaused), requestHash;
      }
      if !IsAllowedDestinationScript(script) {
        return Some(InvalidDestinationScript), requestHash;
      }
      if amountSats == 0 {
        return Some(InvalidRedeemAmount), requestHash;
      }
      if maxMinerFeeSats >= amountSats {
        return Some(InvalidRedeemFeeBudget), requestHash;
      }
      if now > deadline {
        return Some(RedeemDeadlineExpired), requestHash;
      }
      var saved := nextRedeemNonce;
      var requestNonce := Get(nextRedeemNonce, sender);
      if requestNonce + 1 >= TWO_64 {
        return Some(ArithmeticOverflow), requestHash;
      }
      nextRedeemNonce := nextRedeemNonce[sender := requestNonce + 1];
      var request := RedeemRequest(sender, KeccakBytes(script), amountSats, maxMinerFeeSats, deadline, requestNonce);
      requestHash := RedeemRequestHash(bridgeDomain, request);
      if requestHash in redeemRecords && redeemRecords[requestHash].state != NONE {
        nextRedeemNonce := saved;
        return Some(RedeemRequestAlreadyExists), requestHash;
      }
      var startedAt, used := limiter.limitWindowStartedAt, limiter.usedInCurrentWindow;
      error := limiter.Use(now, amountSats);
      if error.Some? {
        nextRedeemNonce := saved;
        return;
      }
      error := token.BurnFrom(self, sender, amountSats);
      if error.Some? {
        nextRedeemNonce := saved;
        limiter.limitWindowStartedAt, limiter.usedInCurrentWindow := startedAt, used;
        return;
      }
      redeemRecords := redeemRecords[requestHash := RedeemRecord(request, BURNED)];
    }

    method CompleteRedeem(a: ReleaseAuthorization, verdict: Option<Error>) returns (error: Option<Error>)
      modifies this
      ensures Did(Complete(old(State()), a, verdict), old(State()), State(), error)
    {
      if burnPaused {
        return Some(BurnPaused);
      }
      if a.btcNetwork != btcNetwork {
        return Some(InvalidReleaseBtcNetwork);
      }
      if a.sourceEvmChainId != sourceEvmChainId {
        return Some(InvalidReleaseSourceChain);
      }
      var requestHash := a.redeemRequestHash;
      var currentState := StateOf(State(), requestHash);
      if currentState == NONE {
        return Some(RedeemRequestNotFound);
      }
      if currentState != BURNED {
        return Some(RedeemStateTransitionNotAllowed);
      }
      var request := redeemRecords[requestHash].request;
      if a.requester != request.requester || a.destinationScriptHash != request.destinationScriptHash
         || a.amountSats != request.amountSats || a.maxMinerFeeSats != request.maxMinerFeeSats {
        return Some(ReleaseAuthorizationMismatch);
      }
      var redeemId := RedeemIdOf(bridgeDomain, a.burnTxHash, a.burnLogIndex, requestHash);
      if a.redeemId != redeemId {
        return Some(ReleaseAuthorizationMismatch);
      }
      if redeemId in redeemIdConsumed {
        return Some(RedeemIdAlreadyConsumed);
      }
      if verdict.Some? {
        return verdict;
      }
      redeemIdConsumed := redeemIdConsumed + {redeemId};
      redeemRecords := redeemRecords[requestHash := redeemRecords[requestHash].(state := CONSUMED)];
      return None;
    }
  }

  // ----- What the owner can do -----

  /** The owner sets the pause flag and a limit with both numbers or neither. */
  lemma OwnerSets(g: Gateway, sender: Address, now: Uint64, paused: bool, limitSats: Uint64, window: Uint64)
    ensures var r := CallGateway(g, sender, now, SetBurnPaused(paused));
      && (r.Commit? <==> sender == g.ownership.owner)
      && (r.Commit? ==> r.state == g.(burnPaused := paused))
    ensures var r := CallGateway(g, sender, now, SetRedeemLimit(limitSats, window));
      && (r.Commit? <==> sender == g.ownership.owner && (limitSats == 0 <==> window == 0))
      && (r.Revert? ==> r.error == if sender != g.ownership.owner then Unauthorized else InvalidLimit)
      && (r.Commit? ==> r.state == g.(limiter := Limiter(limitSats, window, now, 0)))
  {
  }

  /** The owner cancels a burned request, or resolves a burned or cancelled one by hand; one state changes. */
  lemma OwnerSettles(g: Gateway, sender: Address, now: Uint64, h: Bytes32, next: RedeemState)
    ensures var r := CallGateway(g, sender, now, SetRedeemState(h, next));
      && (r.Commit? <==>
           && sender == g.ownership.owner && h in g.redeemRecords
           && var current := g.redeemRecords[h].state;
              (current == BURNED && next == CANCELLED)
              || ((current == BURNED || current == CANCELLED) && next == MANUALLY_RESOLVED))
      && (r.Revert? ==> r.error == if sender != g.ownership.owner then Unauthorized
                                   else if h !in g.redeemRecords || g.redeemRecords[h].state == NONE
                                     then RedeemRequestNotFound
                                   else RedeemStateTransitionNotAllowed)
      && (r.Commit? ==>
           && r.state == g.(redeemRecords := r.state.redeemRecords)
           && r.state.redeemRecords.Keys == g.redeemRecords.Keys
           && forall k | k in g.redeemRecords ::
                && r.state.redeemRecords[k].request == g.redeemRecords[k].request
                && r.state.redeemRecords[k].state == if k == h then next else g.redeemRecords[k].state)
  {
  }

  // ----- Exactly-once redemption -----

  /** A consumed identifier was derived from this request, under some burn location. */
  ghost predicate DerivedFrom(domain: Bytes32, id: Bytes32, h: Bytes32) {
    exists t: Bytes32, l: Uint32 :: id == RedeemIdOf(domain, t, l, h)
  }

  /**
    Every record is filed under the hash of its request, with a nonce already used up; every
    consumed identifier was derived from a consumed request, and no request from two of them.
   */
  ghost predicate OnceOnly(g: Gateway) {
    && (forall h | h in g.redeemRecords ::
          var r := g.redeemRecords[h];
          && r.state != NONE && h == RedeemRequestHash(g.bridgeDomain, r.request)
          && r.request.requestNonce < Get(g.nextRedeemNonce, r.request.requester)
          && (r.state == CONSUMED ==> exists id | id in g.redeemIdConsumed :: DerivedFrom(g.bridgeDomain, id, h)))
    && (forall id | id in g.redeemIdConsumed ::
          exists h | h in g.redeemRecords && g.redeemRecords[h].state == CONSUMED :: DerivedFrom(g.bridgeDomain, id, h))
    && (forall id, id', h | id in g.redeemIdConsumed && id' in g.redeemIdConsumed && DerivedFrom(g.bridgeDomain, id, h)
        && DerivedFrom(g.bridgeDomain, id', h) ::
          id == id')
  }

  lemma DerivedFromOne(domain: Bytes32, id: Bytes32, h: Bytes32, h': Bytes32)
    requires DerivedFrom(domain, id, h) && DerivedFrom(domain, id, h')
    ensures h == h'
  {
    var t: Bytes32, l: Uint32 :| id == RedeemIdOf(domain, t, l, h);
    var t': Bytes32, l': Uint32 :| id == RedeemIdOf(domain, t', l', h');
    RedeemIdBinds(domain, t, l, h, domain, t', l', h');
  }

  /** A request is consumed exactly when one, and only one, consumed identifier was derived from it. */
  lemma ConsumedIffOneIdentifier(g: Gateway, h: Bytes32)
    requires OnceOnly(g)
    ensures StateOf(g, h) == CONSUMED <==> exists id | id in g.redeemIdConsumed :: DerivedFrom(g.bridgeDomain, id, h)
    ensures forall id, id' | id in g.redeemIdConsumed && id' in g.redeemIdConsumed
      && DerivedFrom(g.bridgeDomain, id, h) && DerivedFrom(g.bridgeDomain, id', h) :: id == id'
  {
    hide DerivedFrom, RedeemIdOf, RedeemRequestHash;
    forall id | id in g.redeemIdConsumed && DerivedFrom(g.bridgeDomain, id, h) ensures StateOf(g, h) == CONSUMED {
      var h' :| h' in g.redeemRecords && g.redeemRecords[h'].state == CONSUMED && DerivedFrom(g.bridgeDomain, id, h');
      DerivedFromOne(g.bridgeDomain, id, h, h');
    }
  }

  /** The per-requester nonce makes a new request's hash new: the duplicate check never fires. */
  lemma RequestsAreNew(g: Gateway, sender: Address, script: seq<Byte>, amountSats: Uint64, maxMinerFeeSats: Uint64,
                       deadline: Uint64)
    requires OnceOnly(g) && Get(g.nextRedeemNonce, sender) < TWO_64
    ensures RedeemRequestHash(g.bridgeDomain,
                              RequestOf(g, sender, script, amountSats, maxMinerFeeSats, deadline)) !in g.redeemRecords
  {
    var r := RequestOf(g, sender, script, amountSats, maxMinerFeeSats, deadline);
    var h := RedeemRequestHash(g.bridgeDomain, r);
    if h in g.redeemRecords {
      RedeemRequestHashIsInjective(g.bridgeDomain, r, g.bridgeDomain, g.redeemRecords[h].request);
    }
  }

  lemma BurnNeverFindsDuplicate(w: World, self: Address, sender: Address, now: Uint64, script: seq<Byte>,
                                amountSats: Uint64, maxMinerFeeSats: Uint64, deadline: Uint64)
    requires OnceOnly(w.gateway)
    ensures BurnIntoRequest(w, self, sender, now, script, amountSats, maxMinerFeeSats,
                            deadline) != Revert(RedeemRequestAlreadyExists)
  {
    if Get(w.gateway.nextRedeemNonce, sender) < TWO_64 {
      RequestsAreNew(w.gateway, sender, script, amountSats, maxMinerFeeSats, deadline);
    }
  }

  lemma BurnKeepsOnceOnly(w: World, self: Address, sender: Address, now: Uint64, script: seq<Byte>, amountSats: Uint64,
                          maxMinerFeeSats: Uint64, deadline: Uint64)
    requires OnceOnly(w.gateway)
    requires BurnIntoRequest(w, self, sender, now, script, amountSats, maxMinerFeeSats, deadline).Commit?
    ensures OnceOnly(BurnIntoRequest(w, self, sender, now, script, amountSats, maxMinerFeeSats, deadline).state.gateway)
  {
    hide DerivedFrom, RedeemIdOf, RedeemRequestHash;
    var g := w.gateway;
    var g' := BurnIntoRequest(w, self, sender, now, script, amountSats, maxMinerFeeSats, deadline).state.gateway;
    RequestsAreNew(g, sender, script, amountSats, maxMinerFeeSats, deadline);
    forall id | id in g'.redeemIdConsumed
      ensures exists h | h in g'.redeemRecords && g'.redeemRecords[h].state == CONSUMED ::
        DerivedFrom(g.bridgeDomain, id, h)
    {
      var h :| h in g.redeemRecords && g.redeemRecords[h].state == CONSUMED && DerivedFrom(g.bridgeDomain, id, h);
      assert h in g'.redeemRecords && DerivedFrom(g.bridgeDomain, id, h);
    }
  }

  lemma IsDerived(domain: Bytes32, t: Bytes32, l: Uint32, h: Bytes32)
    ensures DerivedFrom(domain, RedeemIdOf(domain, t, l, h), h)
  {
  }

  lemma CompleteKeepsOnceOnly(g: Gateway, a: ReleaseAuthorization, verdict: Option<Error>)
    requires OnceOnly(g) && Complete(g, a, verdict).Commit?
    ensures OnceOnly(Complete(g, a, verdict).state)
  {
    hide DerivedFrom, RedeemIdOf, RedeemRequestHash;
    var g' := Complete(g, a, verdict).state;
    var h0 := a.redeemRequestHash;
    assert a.redeemId == RedeemIdOf(g.bridgeDomain, a.burnTxHash, a.burnLogIndex, h0);
    IsDerived(g.bridgeDomain, a.burnTxHash, a.burnLogIndex, h0);
    forall id | id in g'.redeemIdConsumed
      ensures exists h | h in g'.redeemRecords && g'.redeemRecords[h].state == CONSUMED ::
        DerivedFrom(g.bridgeDomain, id, h)
    {
      if id in g.redeemIdConsumed {
        var h :| h in g.redeemRecords && g.redeemRecords[h].state == CONSUMED && DerivedFrom(g.bridgeDomain, id, h);
        assert h in g'.redeemRecords && DerivedFrom(g.bridgeDomain, id, h);
      }
    }
    forall id, id', h | id in g'.redeemIdConsumed && id' in g'.redeemIdConsumed && DerivedFrom(g.bridgeDomain, id, h)
      && DerivedFrom(g.bridgeDomain, id', h)
      ensures id == id'
    {
      FreshIdentifier(g, a, id, id', h);
    }
  }

  /** An unconsumed request has no consumed identifier, so the new identifier is its first. */
  lemma FreshIdentifier(g: Gateway, a: ReleaseAuthorization, id: Bytes32, id': Bytes32, h: Bytes32)
    requires OnceOnly(g) && Precheck(g, a).None? && DerivedFrom(g.bridgeDomain, a.redeemId, a.redeemRequestHash)
    requires id in g.redeemIdConsumed + {a.redeemId} && id' in g.redeemIdConsumed + {a.redeemId}
    requires DerivedFrom(g.bridgeDomain, id, h) && DerivedFrom(g.bridgeDomain, id', h)
    ensures id == id'
  {
    hide DerivedFrom, RedeemIdOf, RedeemRequestHash;
    if id == a.redeemId || id' == a.redeemId {
      DerivedFromOne(g.bridgeDomain, a.redeemId, h, a.redeemRequestHash);
      ConsumedIffOneIdentifier(g, h);
    }
  }

  lemma CallKeepsOnceOnly(g: Gateway, sender: Address, now: Uint64, call: GatewayCall)
    requires OnceOnly(g) && CallGateway(g, sender, now, call).Commit?
    ensures OnceOnly(CallGateway(g, sender, now, call).state)
  {
    hide DerivedFrom, RedeemIdOf, RedeemRequestHash;
    var g' := CallGateway(g, sender, now, call).state;
    forall id | id in g'.redeemIdConsumed
      ensures exists h | h in g'.redeemRecords && g'.redeemRecords[h].state == CONSUMED ::
        DerivedFrom(g.bridgeDomain, id, h)
    {
      var h :| h in g.redeemRecords && g.redeemRecords[h].state == CONSUMED && DerivedFrom(g.bridgeDomain, id, h);
      assert h in g'.redeemRecords && g'.redeemRecords[h].state == CONSUMED && DerivedFrom(g.bridgeDomain, id, h);
    }
  }

  /** How far a record is from being settled; every owner transition decreases it. */
  function Rank(s: RedeemState): nat {
    match s
    case BURNED => 2
    case CANCELLED => 1
    case _ => 0
  }

  /** What the owner can do to a record: nothing into or out of CONSUMED, and never backwards. */
  lemma OwnerTransitionsDescend(current: RedeemState, next: RedeemState)
    requires IsAllowedStateTransition(current, next)
    ensures Rank(next) < Rank(current) && next != CONSUMED && current != CONSUMED && next != NONE
  {
  }
}
