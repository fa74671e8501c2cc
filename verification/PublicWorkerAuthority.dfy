/**
  Who stands behind the Bitcoin transactions that the worker sends.

  The chain's part of a run of the worker is a run of the bridge (ChainIsARun). So every raw
  transaction sent for a redeem has behind it the transaction that consumed the redeem: with the
  ECDSA verifier, a quorum of the signers current then; with the Functions verifier, an earlier
  permitted request for exactly that release, and the router's answer in time.
 */
module PublicWorkerAuthority {
  import opened BridgeTypes
  import opened PublicStore
  import opened PublicWorker
  import opened PublicWorkerRuns
  import B = BurnGateway
  import F = FunctionsVerifier
  import Br = Bridge
  import V = BridgeAuthority

  /** The transactions that a run mines, in order. */
  function ChainTxs(c: Br.Chain, w: World, moves: seq<Move>): seq<Br.Tx>
    decreases |moves|
  {
    if moves == [] then []
    else
      var m := moves[0];
      Mined(w, m.action) + ChainTxs(c, Do(c, m.config, w, m.action), moves[1..])
  }

  function Mined(w: World, a: Action): seq<Br.Tx> {
    match a
    case Transact(tx) => [tx]
    case MineCompletion(hash, sender, now) =>
      if hash !in w.completions || hash in w.receipts then [] else [CompletionTx(w, hash, sender, now)]
    case _ => []
  }

  lemma StepMines(c: Br.Chain, cfg: Config, w: World, a: Action)
    ensures Mined(w, a) == [] ==> Do(c, cfg, w, a).bridge == w.bridge
    ensures Mined(w, a) != [] ==>
      && |Mined(w, a)| == 1 && Do(c, cfg, w, a).bridge == Br.Step(c, w.bridge, Mined(w, a)[0])
      && (IsTruthful(c, cfg, w, a) ==> Br.IsExternal(c, w.bridge, Mined(w, a)[0]))
  {
    hide Br.Step, Br.Try, Br.IsExternal, IsListing, IsGenuine, PrepareRow, RequestRow, SettleRow, BroadcastRow,
      AwaitReceipt;
  }

  /** The chain's part of a run is a run of the bridge. */
  lemma {:induction false} ChainIsARun(c: Br.Chain, w: World, moves: seq<Move>)
    ensures Run(c, w, moves).bridge == Br.Run(c, w.bridge, ChainTxs(c, w, moves))
    ensures IsRun(c, w, moves) ==> Br.IsRun(c, w.bridge, ChainTxs(c, w, moves))
    decreases |moves|
  {
    hide Do, Mined, IsTruthful, Br.Step, Br.IsExternal;
    if moves != [] {
      var (first, w') := (Mined(w, moves[0].action), Do(c, moves[0].config, w, moves[0].action));
      StepMines(c, moves[0].config, w, moves[0].action);
      ChainIsARun(c, w', moves[1..]);
      var rest := ChainTxs(c, w', moves[1..]);
      if first == [] {
        assert first + rest == rest;
      } else {
        assert (first + rest)[0] == first[0] && (first + rest)[1..] == rest;
      }
    }
  }

  /** Behind every transaction sent: signatures of a quorum of the signers current when its redeem was consumed. */
  lemma SendWasSigned(c: Br.Chain, w: World, moves: seq<Move>, s: RawSend) returns (i: nat, who: set<Address>)
    requires IsStart(c, w) && IsRun(c, w, moves) && s in Run(c, w, moves).sends && V.SignersInStep(w.bridge)
    ensures var txs := ChainTxs(c, w, moves);
      && i < |txs| && V.Consumes(c, V.Before(c, w.bridge, txs, i), txs[i], s.requestHash)
      && V.SignersInStep(V.Before(c, w.bridge, txs, i))
      && V.Signed(V.Before(c, w.bridge, txs, i).verifier.attestation, c.recover, ReleaseStructHash(txs[i].call.release),
                  txs[i].call.attestation, who)
  {
    hide Run, IsRun, Br.Run, ChainTxs, V.Before, V.Consumes, V.Signed, V.SignersInStep, ReleaseStructHash;
    BitcoinFollowsConsumption(c, w, moves, s);
    ChainIsARun(c, w, moves);
    i, who := V.CompletionWasSigned(c, w.bridge, ChainTxs(c, w, moves), s.requestHash);
  }

  /**
    Behind every transaction sent: a request for the release that consumed its redeem, by an account
    permitted then, and the router's answer before the deadline.
   */
  lemma SendWasRequested(c: Br.Chain, w: World, moves: seq<Move>, s: RawSend) returns (p: nat, q: nat, i: nat)
    requires IsStart(c, w) && IsRun(c, w, moves) && s in Run(c, w, moves).sends
    requires w.bridge.verifier.Functions? && F.IsFresh(w.bridge.verifier.requests)
    ensures var txs := ChainTxs(c, w, moves);
      && p < q < i < |txs| && V.Consumes(c, V.Before(c, w.bridge, txs, i), txs[i], s.requestHash)
      && txs[i].call.attestation.word.Some?
      && var (a, id) := (txs[i].call.release, txs[i].call.attestation.word.value);
         var answer := F.Response(F.KIND_RELEASE, ReleaseStructHash(a));
         V.RequestedAndAnswered(c, w.bridge, txs, p, q, F.RequestReleaseAuthorization(a, id),
                                F.HandleOracleFulfillment(id, Some(answer), true), a.deadline)
  {
    hide Run, IsRun, Br.Run, ChainTxs, V.Before, V.RequestedAndAnswered, ReleaseStructHash;
    BitcoinFollowsConsumption(c, w, moves, s);
    ChainIsARun(c, w, moves);
    p, q, i := V.CompletionWasRequested(c, w.bridge, ChainTxs(c, w, moves), s.requestHash);
  }
}
