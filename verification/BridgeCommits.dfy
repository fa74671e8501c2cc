/**
  When the three calls that move value commit, in every reachable state, and what they change.

  Several checks of the code cannot fail there: the gateway is always allowed to mint and to consume,
  a new request is never a duplicate, and the identifier of a burned request is never already
  consumed. What is left is what a caller can see beforehand.
 */
module BridgeCommits {
  import opened BridgeTypes
  import opened RateLimiter
  import opened Bridge
  import W = WrappedBitcoin
  import D = DepositRegistry
  import M = MintGateway
  import B = BurnGateway

  /** The limiter has room: no limit, or the sum of the open window stays within it. */
  predicate HasRoom(l: Limiter, now: Uint64, sats: Uint64) {
    l.limitSats == 0
    || (var used := if now >= l.startedAt + l.windowSeconds then 0 else l.used;
        used + sats <= l.limitSats && used + sats < TWO_64)
  }

  /** The amount is added to the open window, or opens a new one at this time; without a limit nothing changes. */
  predicate Takes(l: Limiter, now: Uint64, sats: Uint64, l': Limiter) {
    if l.limitSats == 0 then l' == l
    else if now >= l.startedAt + l.windowSeconds then l' == Limiter(l.limitSats, l.windowSeconds, now, sats)
    else l' == Limiter(l.limitSats, l.windowSeconds, l.startedAt, l.used + sats)
  }

  lemma ConsumesIffRoom(l: Limiter, now: Uint64, sats: Uint64)
    ensures Consume(l, Attempt(now, sats)).Commit? <==> HasRoom(l, now, sats)
    ensures Consume(l, Attempt(now, sats)).Revert? ==>
      Consume(l, Attempt(now, sats)).error == if Overflows(l, now, sats) then ArithmeticOverflow else LimitExceeded
    ensures Consume(l, Attempt(now, sats)).Commit? ==> Takes(l, now, sats, Consume(l, Attempt(now, sats)).state)
  {
  }

  /** A mint commits exactly for an authorized, timely, matching and unused deposit that fits limit and supply. */
  lemma MintCommitsIff(c: Chain, b: Bridge, tx: Tx)
    requires Solvent(c, b) && tx.call.MintWithAuthorization?
    ensures var (i, a) := (tx.call.intent, tx.call.mint);
      Try(c, b, tx).Commit?
      <==> && !b.minting.mintPaused && tx.now <= i.expiry
           && a.btcNetwork == b.minting.btcNetwork && a.confirmations >= b.minting.minimumConfirmations
           && a.depositId in b.registry.depositIntents && b.registry.depositIntents[a.depositId] == i
           && a.recipient0x == i.recipient0x && a.depositAddressHash == i.depositAddressHash
           && (i.amountMode == EXACT ==> 0 < a.sats == i.expectedSats)
           && (i.amountMode == ANY ==> 0 < i.minSats <= a.sats <= i.maxSats)
           && a.depositId !in b.registry.depositConsumed && UtxoKey(a.btcTxId, a.vout) !in b.registry.utxoConsumed
           && VerifyMint(c, b.verifier, tx.now, a, tx.call.attestation).None?
           && HasRoom(b.minting.limiter, tx.now, a.sats)
           && b.token.totalSupply + a.sats <= MAX_UINT256
  {
    hide VerifyMint, UtxoKey, B.OnceOnly, MintsAreBacked, Sum;
    var (i, a) := (tx.call.intent, tx.call.mint);
    ConsumesIffRoom(b.minting.limiter, tx.now, a.sats);
    SumAtLeast(b.token.balanceOf, a.recipient0x);
    hide Consume, HasRoom;
    if a.depositId in b.registry.depositIntents {
      DepositIdsMatch(b.registry, a.depositId, i);
    }
  }

  /** Why a mint is refused: the first of the gateway's checks that fails, or what comes after them. */
  lemma MintRefusal(c: Chain, b: Bridge, tx: Tx)
    requires Solvent(c, b) && tx.call.MintWithAuthorization? && Try(c, b, tx).Revert?
    ensures var (i, a, g, r, e) := (tx.call.intent, tx.call.mint, b.minting, b.registry, Try(c, b, tx).error);
      var refused := VerifyMint(c, b.verifier, tx.now, a, tx.call.attestation);
      e == if g.mintPaused then MintPaused
           else if tx.now > i.expiry then DepositIntentExpired
           else if a.btcNetwork != g.btcNetwork then InvalidBtcNetwork
           else if a.confirmations < g.minimumConfirmations then InsufficientConfirmations
           else if a.depositId != DepositIdOf(r.bridgeDomain, i) then DepositIdMismatch
           else if a.recipient0x != i.recipient0x then MintRecipientMismatch
           else if a.depositAddressHash != i.depositAddressHash then DepositAddressMismatch
           else if (i.amountMode == EXACT && (i.expectedSats == 0 || a.sats != i.expectedSats))
                   || (i.amountMode == ANY && !(0 < i.minSats <= a.sats <= i.maxSats)) then MintAmountOutOfRange
           else if refused.Some? then refused.value
           else if !HasRoom(g.limiter, tx.now, a.sats) then (if Overflows(g.limiter, tx.now, a.sats)
                                                             then ArithmeticOverflow else LimitExceeded)
           else if a.depositId !in r.depositIntents then DepositIntentNotFound
           else if a.depositId in r.depositConsumed then DepositAlreadyConsumed
           else if UtxoKey(a.btcTxId, a.vout) in r.utxoConsumed then UtxoAlreadyConsumed
           else ArithmeticOverflow
  {
    hide VerifyMint, UtxoKey, DepositIdOf, B.OnceOnly, MintsAreBacked, Sum, Consume, HasRoom, Overflows;
    ConsumesIffRoom(b.minting.limiter, tx.now, tx.call.mint.sats);
    var (i, a) := (tx.call.intent, tx.call.mint);
    if a.depositId in b.registry.depositIntents {
      DepositIdsMatch(b.registry, a.depositId, i);
    }
  }

  /** The sum of the open window does not fit its 64 bits. */
  predicate Overflows(l: Limiter, now: Uint64, sats: Uint64) {
    (if now >= l.startedAt + l.windowSeconds then 0 else l.used) + sats >= TWO_64
  }

  lemma DepositIdsMatch(r: D.Registry, id: Bytes32, i: DepositIntent)
    requires D.WellKept(r) && id in r.depositIntents
    ensures id == DepositIdOf(r.bridgeDomain, i) <==> r.depositIntents[id] == i
  {
    if id == DepositIdOf(r.bridgeDomain, i) {
      DepositIdIsInjective(r.bridgeDomain, i, r.bridgeDomain, r.depositIntents[id]);
    }
  }

  /** What a committed mint changes, and nothing else. */
  lemma MintChanges(c: Chain, b: Bridge, tx: Tx)
    requires Solvent(c, b) && tx.call.MintWithAuthorization? && Try(c, b, tx).Commit?
    ensures var (a, b') := (tx.call.mint, Try(c, b, tx).state);
      && b'.token.totalSupply == b.token.totalSupply + a.sats
      && (forall who ::
           Get(b'.token.balanceOf, who) == Get(b.token.balanceOf, who) + (if who == a.recipient0x then a.sats else 0))
      && b'.token == b.token.(totalSupply := b'.token.totalSupply, balanceOf := b'.token.balanceOf)
      && b'.registry == b.registry.(depositConsumed := b.registry.depositConsumed + {a.depositId},
                                    utxoConsumed := b.registry.utxoConsumed + {UtxoKey(a.btcTxId, a.vout)})
      && b'.minting == b.minting.(limiter := b'.minting.limiter) && b'.burning == b.burning && b'.verifier == b.verifier
      && Takes(b.minting.limiter, tx.now, a.sats, b'.minting.limiter)
  {
    hide VerifyMint, M.MeetsAmountPolicy, UtxoKey, DepositIdOf, B.OnceOnly, MintsAreBacked, Sum, Consume, Takes,
      HasRoom;
    ConsumesIffRoom(b.minting.limiter, tx.now, tx.call.mint.sats);
  }

  /** Scripts of witness version 0 with 20 or 32 bytes, and of version 1 with 32. */
  lemma AllowedIffSegwit(s: seq<Byte>)
    ensures B.IsAllowedDestinationScript(s)
        <==> (|s| == 22 && s[..2] == [0x00, 0x14]) || (|s| == 34 && s[..2] == [0x00, 0x20])
             || (|s| == 34 && s[..2] == [0x51, 0x20])
  {
    if |s| >= 2 {
      assert s[..2] == [s[0], s[1]];
      assert forall a: Byte, b: Byte :: s[..2] == [a, b] ==> s[..2][0] == a && s[..2][1] == b;
    }
  }

  /** A burn commits exactly for an allowed, timely request within limit, allowance and balance. */
  lemma BurnCommitsIff(c: Chain, b: Bridge, tx: Tx)
    requires Solvent(c, b) && tx.call.Burn?
    ensures var d := tx.call;
      Try(c, b, tx).Commit?
      <==> && !b.burning.burnPaused
           && ((|d.script| == 22 && d.script[..2] == [0x00, 0x14])
               || (|d.script| == 34 && d.script[..2] == [0x00, 0x20])
               || (|d.script| == 34 && d.script[..2] == [0x51, 0x20]))
           && 0 < d.amountSats && d.maxMinerFeeSats < d.amountSats && tx.now <= d.deadline
           && Get(b.burning.nextRedeemNonce, tx.sender) + 1 < TWO_64
           && HasRoom(b.burning.limiter, tx.now, d.amountSats)
           && Get(b.token.allowance, (tx.sender, c.burnGateway)) >= d.amountSats
           && Get(b.token.balanceOf, tx.sender) >= d.amountSats
  {
    hide B.OnceOnly, MintsAreBacked, Sum, RedeemRequestHash;
    var d := tx.call;
    AllowedIffSegwit(d.script);
    hide B.IsAllowedDestinationScript;
    ConsumesIffRoom(b.burning.limiter, tx.now, d.amountSats);
    hide Consume, HasRoom;
    if Get(b.burning.nextRedeemNonce, tx.sender) < TWO_64 {
      B.RequestsAreNew(b.burning, tx.sender, d.script, d.amountSats, d.maxMinerFeeSats, d.deadline);
    }
  }

  /** Why a burn is refused. */
  lemma BurnRefusal(c: Chain, b: Bridge, tx: Tx)
    requires Solvent(c, b) && tx.call.Burn? && Try(c, b, tx).Revert?
    ensures var (d, g, s, e) := (tx.call, b.burning, tx.call.script, Try(c, b, tx).error);
      e == if g.burnPaused then BurnPaused
           else if !((|s| == 22 && s[..2] == [0x00, 0x14]) || (|s| == 34 && s[..2] == [0x00, 0x20])
                     || (|s| == 34 && s[..2] == [0x51, 0x20])) then InvalidDestinationScript
           else if d.amountSats == 0 then InvalidRedeemAmount
           else if d.maxMinerFeeSats >= d.amountSats then InvalidRedeemFeeBudget
           else if tx.now > d.deadline then RedeemDeadlineExpired
           else if Get(g.nextRedeemNonce, tx.sender) + 1 >= TWO_64 then ArithmeticOverflow
           else if !HasRoom(g.limiter, tx.now, d.amountSats) then (if Overflows(g.limiter, tx.now, d.amountSats)
                                                                  then ArithmeticOverflow else LimitExceeded)
           else if Get(b.token.allowance, (tx.sender, c.burnGateway)) < d.amountSats then InsufficientAllowance
           else InsufficientBalance
  {
    hide B.OnceOnly, MintsAreBacked, Sum, RedeemRequestHash, Overflows;
    var d := tx.call;
    AllowedIffSegwit(d.script);
    hide B.IsAllowedDestinationScript;
    ConsumesIffRoom(b.burning.limiter, tx.now, d.amountSats);
    hide Consume, HasRoom;
    if Get(b.burning.nextRedeemNonce, tx.sender) < TWO_64 {
      B.RequestsAreNew(b.burning, tx.sender, d.script, d.amountSats, d.maxMinerFeeSats, d.deadline);
    }
  }

  /** A new record under the hash of the request, the nonce used up, the limiter moved on. */
  predicate RecordsBurn(g: B.Gateway, g': B.Gateway, request: RedeemRequest) {
    var h := RedeemRequestHash(g.bridgeDomain, request);
    && h !in g.redeemRecords
    && g' == g.(redeemRecords := g.redeemRecords[h := B.RedeemRecord(request, BURNED)],
                nextRedeemNonce := g.nextRedeemNonce[request.requester := request.requestNonce + 1],
                limiter := g'.limiter)
  }

  /** What a committed burn changes, and nothing else. */
  lemma BurnChanges(c: Chain, b: Bridge, tx: Tx)
    requires Solvent(c, b) && tx.call.Burn? && Try(c, b, tx).Commit?
    ensures var (d, b') := (tx.call, Try(c, b, tx).state);
      && b.token.totalSupply >= d.amountSats && b'.token.totalSupply == b.token.totalSupply - d.amountSats
      && (forall who ::
           Get(b'.token.balanceOf, who)
           == Get(b.token.balanceOf, who) - (if who == tx.sender then d.amountSats else 0))
      && W.UsesUp(b.token, b'.token, tx.sender, c.burnGateway, d.amountSats)
      && b'.token == b.token.(totalSupply := b'.token.totalSupply, balanceOf := b'.token.balanceOf,
                              allowance := b'.token.allowance)
      && b'.registry == b.registry && b'.minting == b.minting && b'.verifier == b.verifier
      && Takes(b.burning.limiter, tx.now, d.amountSats, b'.burning.limiter)
      && Get(b.burning.nextRedeemNonce, tx.sender) < TWO_64
      && RecordsBurn(b.burning, b'.burning,
                     RedeemRequest(tx.sender, KeccakBytes(d.script), d.amountSats, d.maxMinerFeeSats, d.deadline,
                                   Get(b.burning.nextRedeemNonce, tx.sender)))
  {
    hide B.IsAllowedDestinationScript, B.OnceOnly, MintsAreBacked, Sum, RedeemRequestHash, Consume, Takes, HasRoom;
    var d := tx.call;
    ConsumesIffRoom(b.burning.limiter, tx.now, d.amountSats);
    B.RequestsAreNew(b.burning, tx.sender, d.script, d.amountSats, d.maxMinerFeeSats, d.deadline);
    SumAtLeast(b.token.balanceOf, tx.sender);
  }

  /** The identifier of a request that is not consumed is not consumed either: that check never refuses. */
  lemma BurnedIdentifierIsFresh(g: B.Gateway, a: ReleaseAuthorization)
    requires B.OnceOnly(g) && B.StateOf(g, a.redeemRequestHash) != CONSUMED
    requires a.redeemId == RedeemIdOf(g.bridgeDomain, a.burnTxHash, a.burnLogIndex, a.redeemRequestHash)
    ensures a.redeemId !in g.redeemIdConsumed
  {
    hide RedeemIdOf, B.OnceOnly;
    B.IsDerived(g.bridgeDomain, a.burnTxHash, a.burnLogIndex, a.redeemRequestHash);
    B.ConsumedIffOneIdentifier(g, a.redeemRequestHash);
  }

  /** A completion commits exactly for an authorized release that repeats a burned request. */
  lemma CompletionCommitsIff(c: Chain, b: Bridge, tx: Tx)
    requires Solvent(c, b) && tx.call.CompleteRedeem?
    ensures var (a, g) := (tx.call.release, b.burning);
      Try(c, b, tx).Commit?
      <==> && !g.burnPaused && a.btcNetwork == g.btcNetwork && a.sourceEvmChainId == g.sourceEvmChainId
           && a.redeemRequestHash in g.redeemRecords && g.redeemRecords[a.redeemRequestHash].state == BURNED
           && (var r := g.redeemRecords[a.redeemRequestHash].request;
               a.requester == r.requester && a.destinationScriptHash == r.destinationScriptHash
               && a.amountSats == r.amountSats && a.maxMinerFeeSats == r.maxMinerFeeSats)
           && a.redeemId == RedeemIdOf(g.bridgeDomain, a.burnTxHash, a.burnLogIndex, a.redeemRequestHash)
           && VerifyRelease(c, b.verifier, tx.now, a, tx.call.attestation).None?
  {
    hide VerifyRelease, B.OnceOnly, MintsAreBacked, RedeemIdOf;
    var (a, g) := (tx.call.release, b.burning);
    if B.StateOf(g, a.redeemRequestHash) == BURNED
      && a.redeemId == RedeemIdOf(g.bridgeDomain, a.burnTxHash, a.burnLogIndex, a.redeemRequestHash) {
      BurnedIdentifierIsFresh(g, a);
    }
  }

  /** The authorization repeats the recorded request, and its identifier is derived from the burn it names. */
  predicate RepeatsBurn(g: B.Gateway, a: ReleaseAuthorization)
    requires a.redeemRequestHash in g.redeemRecords
  {
    var r := g.redeemRecords[a.redeemRequestHash].request;
    && a.requester == r.requester && a.destinationScriptHash == r.destinationScriptHash
    && a.amountSats == r.amountSats && a.maxMinerFeeSats == r.maxMinerFeeSats
    && a.redeemId == RedeemIdOf(g.bridgeDomain, a.burnTxHash, a.burnLogIndex, a.redeemRequestHash)
  }

  /** Why a completion is refused. */
  lemma CompletionRefusal(c: Chain, b: Bridge, tx: Tx)
    requires Solvent(c, b) && tx.call.CompleteRedeem? && Try(c, b, tx).Revert?
    ensures var (a, g, e) := (tx.call.release, b.burning, Try(c, b, tx).error);
      var refused := VerifyRelease(c, b.verifier, tx.now, a, tx.call.attestation);
      var h := a.redeemRequestHash;
      if g.burnPaused then e == BurnPaused
      else if a.btcNetwork != g.btcNetwork then e == InvalidReleaseBtcNetwork
      else if a.sourceEvmChainId != g.sourceEvmChainId then e == InvalidReleaseSourceChain
      else if h !in g.redeemRecords then e == RedeemRequestNotFound
      else if g.redeemRecords[h].state != BURNED then e == RedeemStateTransitionNotAllowed
      else if RepeatsBurn(g, a) then refused == Some(e)
      else e == ReleaseAuthorizationMismatch
  {
    hide VerifyRelease, MintsAreBacked, RedeemIdOf, B.DerivedFrom, RedeemRequestHash;
    var (a, g) := (tx.call.release, b.burning);
    if B.StateOf(g, a.redeemRequestHash) == BURNED
      && a.redeemId == RedeemIdOf(g.bridgeDomain, a.burnTxHash, a.burnLogIndex, a.redeemRequestHash) {
      BurnedIdentifierIsFresh(g, a);
    }
  }

  /** What a committed completion changes, and nothing else. */
  lemma CompletionChanges(c: Chain, b: Bridge, tx: Tx)
    requires tx.call.CompleteRedeem? && Try(c, b, tx).Commit?
    ensures var (a, g) := (tx.call.release, b.burning);
      && a.redeemRequestHash in g.redeemRecords
      && Try(c, b, tx).state
           == b.(burning := g.(redeemIdConsumed := g.redeemIdConsumed + {a.redeemId},
                               redeemRecords := g.redeemRecords[
                                 a.redeemRequestHash := B.RedeemRecord(g.redeemRecords[a.redeemRequestHash].request,
                                                                       CONSUMED)]))
  {
    hide VerifyRelease, RedeemIdOf;
  }
}
