/**
  What every change of a status needs, over every run of the worker, its store and the chain.

  A redeem is prepared only within the caps of the configuration of that moment, before its deadline,
  for an allowed script and while its block is still on the chain, and so is every redeem whose raw
  transaction is ever sent (SendsAreWithinCaps). A row over the caps or past its deadline fails. The
  conditions are on the columns of the row and on the replies.
 */
module PublicWorkerGuards {
  import opened BridgeTypes
  import opened PublicStore
  import opened PublicWorker
  import opened PublicWorkerRuns
  import P = SpendPlan
  import B = BurnGateway
  import Br = Bridge

  // ----- Preparing -----

  /** What the redeem asks for is within the caps of the configuration. */
  predicate IsWithinCaps(cfg: Config, e: RedeemEvent) {
    e.amountSats <= cfg.maxSats && e.maxMinerFeeSats <= cfg.maxMinerFeeSats
  }

  /** A witness program of version 0 with 20 or 32 bytes, or of version 1 with 32. */
  predicate IsWitnessScript(s: seq<Byte>) {
    || (|s| == 22 && s[0] == 0x00 && s[1] == 20)
    || (|s| == 34 && s[0] == 0x00 && s[1] == 32)
    || (|s| == 34 && s[0] == 0x51 && s[1] == 32)
  }

  /** The plan can be authorized for the redeem: it pays what was burned, within the fee budget. */
  predicate Fulfils(cfg: Config, e: RedeemEvent, plan: P.Plan) {
    && plan.inputs != [] && plan.outputs != [] && P.Fits(plan) && plan.btcNetwork == cfg.btcNetwork
    && plan.feeSats <= e.maxMinerFeeSats
    && exists i :: 0 <= i < |plan.outputs| && KeccakBytes(plan.outputs[i].script) == e.destinationScriptHash
                   && plan.outputs[i].valueSats == e.amountSats
  }

  /** The plan that was prepared: derived from the wallet's PSBT, or that of the adapter's transaction. */
  predicate IsPreparedPlan(cfg: Config, p: Preparation, plan: P.Plan) {
    if cfg.custody == LOCAL_WALLET then p.psbt.Some? && P.ExtractPlan(p.psbt.value) == P.Ok(plan)
    else p.bitcoinTx.Some? && p.bitcoinTx.value.parsed == Some(P.TransactionOf(plan)) && plan == p.plan
  }

  /** The authorization repeats the burn and commits to the plan, from now on for its time to live. */
  predicate Authorizes(cfg: Config, e: RedeemEvent, plan: P.Plan, now: nat, a: ReleaseAuthorization)
    requires P.Fits(plan)
  {
    && a.bridgeDomain == cfg.bridgeDomain && a.btcNetwork == cfg.btcNetwork
    && a.sourceEvmChainId == cfg.sourceEvmChainId && a.changePolicyHash == cfg.changePolicyHash
    && a.redeemRequestHash == e.requestHash && a.burnTxHash == e.txHash && a.burnLogIndex == e.logIndex
    && a.redeemId == RedeemIdOf(cfg.bridgeDomain, e.txHash, e.logIndex, e.requestHash)
    && a.requester == e.requester && a.destinationScriptHash == e.destinationScriptHash
    && a.amountSats == e.amountSats && a.maxMinerFeeSats == e.maxMinerFeeSats
    && a.inputsCommitment == P.InputsCommitment(plan.inputs)
    && a.outputsCommitment == P.OutputsCommitment(plan.outputs)
    && a.psbtPolicyHash == P.PsbtPolicyHash(plan, cfg.changePolicyHash)
    && a.attestationTimestamp == now && a.deadline == now + cfg.authorizationTtlSeconds
  }

  /** Some plans can be authorized, and an authorization that is built is for the burn and the plan. */
  lemma AuthorizationIsBuiltIff(cfg: Config, e: RedeemEvent, plan: P.Plan, now: nat)
    ensures var built := BuildReleaseAuthorization(cfg, e, plan, now);
      && (built.Some? <==> Fulfils(cfg, e, plan) && now + cfg.authorizationTtlSeconds < TWO_64)
      && (built.Some? ==> Authorizes(cfg, e, plan, now, built.value))
  {
    hide P.InputFits, P.OutputFits, P.PolicyFits, P.InputsCommitment, P.OutputsCommitment, P.PsbtPolicyHash,
      P.FindDestination, RedeemIdOf;
    if P.Fits(plan) && now + cfg.authorizationTtlSeconds < TWO_64 {
      var a := ReleaseAuthorization(
        cfg.bridgeDomain, e.requestHash, RedeemIdOf(cfg.bridgeDomain, e.txHash, e.logIndex, e.requestHash),
        cfg.btcNetwork, cfg.sourceEvmChainId, e.txHash, e.logIndex, e.requester, e.destinationScriptHash, e.amountSats,
        e.maxMinerFeeSats, cfg.changePolicyHash, P.InputsCommitment(plan.inputs), P.OutputsCommitment(plan.outputs),
        P.PsbtPolicyHash(plan, cfg.changePolicyHash), now, now + cfg.authorizationTtlSeconds);
      P.DestinationIsFoundIff(a, plan.outputs);
    }
  }

  /**
    Exactly when a row is prepared: in time, within the caps, to an allowed script, with its block still
    there, and with a plan that can be authorized. Exactly when it fails: late, over a cap, or with its
    block gone. Otherwise it stays as it is.
   */
  lemma PreparationIsDecided(cfg: Config, row: Row, now: nat, block: Reply<Option<Bytes32>>,
                             prepared: Reply<Preparation>)
    ensures var effect := PrepareRow(cfg, row, now, block, prepared);
      var open := IsTimely(row, now) && IsWithinCaps(cfg, row.event);
      && (effect == Note(Failed) <==>
           || !open
           || (IsWitnessScript(row.event.destinationScript) && block.Reply?
               && block.value != Some(row.event.blockHash)))
      && ((effect.Note? && effect.mark.Prepared?) <==>
           && open && IsWitnessScript(row.event.destinationScript) && block == Reply(Some(row.event.blockHash))
           && prepared.Reply? && now + cfg.authorizationTtlSeconds < TWO_64
           && exists plan :: IsPreparedPlan(cfg, prepared.value, plan) && Fulfils(cfg, row.event, plan))
      && (effect.Note? && effect.mark.Prepared? ==>
           var m := effect.mark;
           && P.Fits(m.spendPlan) && IsPreparedPlan(cfg, prepared.value, m.spendPlan)
           && Authorizes(cfg, row.event, m.spendPlan, now, m.authorization)
           && m.psbt == (if cfg.custody == LOCAL_WALLET then prepared.value.psbt else None)
           && m.bitcoinTx == (if cfg.custody == LOCAL_WALLET then None else prepared.value.bitcoinTx))
      && (effect.Note? || effect.Leave?)
      && (effect.Note? ==> effect.mark.Failed? || effect.mark.Prepared?)
  {
    hide BuildReleaseAuthorization, Fulfils, Authorizes, P.ExtractPlan, P.TransactionOf, P.Fits;
    if prepared.Reply? && PlanOf(cfg, prepared.value).Some? {
      var plan := PlanOf(cfg, prepared.value).value;
      AuthorizationIsBuiltIff(cfg, row.event, plan, now);
      FulfilledFits(cfg, row.event, plan);
    }
  }

  lemma FulfilledFits(cfg: Config, e: RedeemEvent, plan: P.Plan)
    ensures Fulfils(cfg, e, plan) ==> P.Fits(plan)
  {
  }

  // ----- Every change of a status -----

  /** Why the row in hand gets this status. */
  predicate Justifies(cfg: Config, a: Action, row: Row, to: RedeemStatus) {
    match to
    case OBSERVED => false
    case RELEASE_PREPARED =>
      && a.DoPrepare? && IsTimely(row, a.now) && IsWithinCaps(cfg, row.event)
      && IsWitnessScript(row.event.destinationScript) && a.block == Reply(Some(row.event.blockHash))
    case RELEASE_REQUESTED => a.DoRequest? && IsTimely(row, a.now) && a.requested.Reply?
    case REDEEM_SUBMITTED => a.Continue?
    case REDEEM_COMPLETED =>
      || (a.DoReceipt? && a.waited.Reply? && a.waited.value.ok)
      || (a.DoSettle? && row.status == REDEEM_SUBMITTED && a.receipt.Reply? && a.receipt.value.Some?
          && a.receipt.value.value.ok)
      || (a.DoSettle? && row.status == RELEASE_REQUESTED && IsTimely(row, a.now) && a.consumed == Reply(true)
          && a.pending == Reply(Pending(true, true, true)) && a.event.Reply? && a.event.value.Some?)
    case BTC_BROADCAST => a.Continue?
    case FAILED =>
      || (a.DoPrepare? && (!IsTimely(row, a.now) || !IsWithinCaps(cfg, row.event)
                           || (a.block.Reply? && a.block.value != Some(row.event.blockHash))))
      || (a.DoRequest? && !IsTimely(row, a.now))
      || (a.DoSettle? && row.status == REDEEM_SUBMITTED && a.receipt.Reply? && a.receipt.value.Some?
          && !a.receipt.value.value.ok)
      || (a.DoSettle? && row.status == RELEASE_REQUESTED
          && (!IsTimely(row, a.now)
              || (a.pending.Reply? && (!a.pending.value.known
                                       || (a.pending.value.fulfilled && !a.pending.value.approved)))))
      || (a.DoReceipt? && a.waited.Reply? && !a.waited.value.ok)
  }

  /** Every row whose status is another one after the step has a reason for it. */
  ghost predicate ChangesAreJustified(cfg: Config, a: Action, before: Rows, after: Rows) {
    forall h | h in before && h in after && after[h].status != before[h].status ::
      Justifies(cfg, a, before[h], after[h].status)
  }

  lemma ApplyIsJustified(c: Br.Chain, cfg: Config, w: World, a: Action, effect: Effect)
    requires InHand(c, w)
    requires effect.Note? ==>
      var to := Marked(Current(w), effect.mark).status;
      to == Current(w).status || Justifies(cfg, a, Current(w), to)
    ensures ChangesAreJustified(cfg, a, w.rows, Apply(w, w.job.queue[0], effect).rows)
  {
    hide Invariant, Marked, NextRow, Justifies;
  }

  lemma PrepareIsJustified(c: Br.Chain, cfg: Config, w: World, a: Action)
    requires Invariant(c, w) && a.DoPrepare? && Stands(w, PREPARING, AtStart)
    ensures ChangesAreJustified(cfg, a, w.rows, Do(c, cfg, w, a).rows)
  {
    hide Invariant, PrepareRow, RowFacts, Fulfils, IsPreparedPlan, Authorizes, IsWitnessScript, ChangesAreJustified,
      P.Fits;
    IsInHand(c, w);
    PreparationIsDecided(cfg, w.job.queue[0], a.now, a.block, a.prepared);
    ApplyIsJustified(c, cfg, w, a, PrepareRow(cfg, w.job.queue[0], a.now, a.block, a.prepared));
  }

  lemma RequestIsJustified(c: Br.Chain, cfg: Config, w: World, a: Action)
    requires Invariant(c, w) && a.DoRequest? && Stands(w, REQUESTING, AtStart)
    ensures ChangesAreJustified(cfg, a, w.rows, Do(c, cfg, w, a).rows)
  {
    hide Invariant, RowFacts, ChangesAreJustified;
    IsInHand(c, w);
    ApplyIsJustified(c, cfg, w, a, RequestRow(w.job.queue[0], a.now, a.requested));
  }

  lemma SettleIsJustified(c: Br.Chain, cfg: Config, w: World, a: Action)
    requires Invariant(c, w) && a.DoSettle? && Stands(w, SETTLING, AtStart)
    ensures ChangesAreJustified(cfg, a, w.rows, Do(c, cfg, w, a).rows)
  {
    hide Invariant, RowFacts, ChangesAreJustified;
    IsInHand(c, w);
    var row := w.job.queue[0];
    ApplyIsJustified(c, cfg, w, a, SettleRow(row, a.now, a.receipt, a.pending, a.consumed, a.event, a.sent));
  }

  lemma ContinueIsJustified(c: Br.Chain, cfg: Config, w: World, a: Action)
    requires Invariant(c, w) && a.Continue? && Head(w).Some?
    ensures ChangesAreJustified(cfg, a, w.rows, Do(c, cfg, w, a).rows)
  {
    hide Invariant, RowFacts, ChangesAreJustified, ListedIn, HeadFacts;
    IsInHand(c, w);
    ContinuingIsJustified(c, cfg, w, a);
  }

  lemma UpdateIsJustified(cfg: Config, a: Action, rows: Rows, h: Bytes32, m: Mark)
    requires h in rows ==>
      var to := Marked(rows[h], m).status;
      to == rows[h].status || Justifies(cfg, a, rows[h], to)
    ensures ChangesAreJustified(cfg, a, rows, Update(rows, h, m))
  {
    hide Justifies, Marked;
  }

  lemma ContinuingIsJustified(c: Br.Chain, cfg: Config, w: World, a: Action)
    requires InHand(c, w) && a.Continue?
    ensures ChangesAreJustified(cfg, a, w.rows, ContinueFrom(w, w.job.queue[0], a.answered).rows)
  {
    hide Invariant, NextRow, ChangesAreJustified;
    var h := w.job.queue[0].event.requestHash;
    NoChange(cfg, a, w.rows);
    match w.job.at {
      case HasSent(tx) => UpdateIsJustified(cfg, a, w.rows, h, Submitted(tx));
      case HasFinalized(raw) => UpdateIsJustified(cfg, a, w.rows, h, Finalized(raw));
      case HasSentRaw(raw) => UpdateIsJustified(cfg, a, w.rows, h, Broadcast(raw));
      case _ =>
    }
  }

  lemma NoChange(cfg: Config, a: Action, rows: Rows)
    ensures ChangesAreJustified(cfg, a, rows, rows)
  {
  }

  /** In every reachable state, every step. */
  lemma StepIsJustified(c: Br.Chain, cfg: Config, w: World, a: Action)
    requires Invariant(c, w)
    ensures ChangesAreJustified(cfg, a, w.rows, Do(c, cfg, w, a).rows)
  {
    hide Invariant, RowFacts, Apply, ContinueFrom, PrepareRow, RequestRow, SettleRow, BroadcastRow, Justifies,
      Br.Step, EventsOf, IsListing;
    if Head(w).Some? {
      IsInHand(c, w);
    }
    match a {
      case DoPrepare(_, _, _) =>
        if Stands(w, PREPARING, AtStart) {
          PrepareIsJustified(c, cfg, w, a);
        }
      case DoRequest(_, _) =>
        if Stands(w, REQUESTING, AtStart) {
          RequestIsJustified(c, cfg, w, a);
        }
      case DoSettle(_, _, _, _, _, _) =>
        if Stands(w, SETTLING, AtStart) {
          SettleIsJustified(c, cfg, w, a);
        }
      case DoReceipt(waited) =>
        if Head(w).Some? && w.job.at.Awaits? {
          ReceiptIsJustified(c, cfg, w, a);
        }
      case DoBroadcast(finalized) =>
        if Stands(w, BROADCASTING, AtStart) {
          BroadcastWritesNothing(c, cfg, w, finalized);
        }
      case Continue(_) =>
        if Head(w).Some? {
          ContinueIsJustified(c, cfg, w, a);
        }
      case _ =>
    }
  }

  lemma ReceiptIsJustified(c: Br.Chain, cfg: Config, w: World, a: Action)
    requires Invariant(c, w) && a.DoReceipt? && Head(w).Some? && w.job.at.Awaits?
    ensures ChangesAreJustified(cfg, a, w.rows, Do(c, cfg, w, a).rows)
  {
    hide Invariant, RowFacts, ChangesAreJustified;
    IsInHand(c, w);
    ApplyIsJustified(c, cfg, w, a, AwaitReceipt(w.job.at.tx, a.waited));
  }

  lemma BroadcastWritesNothing(c: Br.Chain, cfg: Config, w: World, finalized: Reply<RawTx>)
    requires Stands(w, BROADCASTING, AtStart)
    ensures Do(c, cfg, w, DoBroadcast(finalized)).rows == w.rows
  {
    hide P.ExtractPlan, P.VerifyReleaseSpendPlan, NextRow;
  }

  /** A row in hand that is over a cap or past its deadline fails, whatever the replies. */
  lemma OverCapsFails(c: Br.Chain, cfg: Config, w: World, now: nat, block: Reply<Option<Bytes32>>,
                      prepared: Reply<Preparation>, h: Bytes32)
    requires Invariant(c, w) && Stands(w, PREPARING, AtStart) && h == w.job.queue[0].event.requestHash && h in w.rows
    requires var e := w.rows[h].event;
      e.amountSats > cfg.maxSats || e.maxMinerFeeSats > cfg.maxMinerFeeSats || now > e.deadline
    ensures var rows := Do(c, cfg, w, DoPrepare(now, block, prepared)).rows;
      h in rows && rows[h].status == FAILED
  {
    hide Invariant, PrepareRow, RowFacts, Fulfils, IsPreparedPlan, Authorizes, IsWitnessScript, P.Fits, NextRow;
    IsInHand(c, w);
    PreparationIsDecided(cfg, w.job.queue[0], now, block, prepared);
  }

  // ----- Over whole runs -----

  /** The move prepared the redeem, and this is what it had checked. */
  ghost predicate PreparedBy(w: World, m: Move, h: Bytes32) {
    && h in w.rows && w.rows[h].status == OBSERVED && m.action.DoPrepare?
    && var e := w.rows[h].event;
       && e.amountSats <= m.config.maxSats && e.maxMinerFeeSats <= m.config.maxMinerFeeSats
       && m.action.now <= e.deadline && m.action.block == Reply(Some(e.blockHash))
       && IsWitnessScript(e.destinationScript)
  }

  /** A row past preparation before the step, or prepared by it. */
  lemma PreparedOrWasPrepared(c: Br.Chain, w: World, m: Move, h: Bytes32)
    requires Invariant(c, w) && IsTruthful(c, m.config, w, m.action)
    requires h in Do(c, m.config, w, m.action).rows
    requires Do(c, m.config, w, m.action).rows[h].status !in {OBSERVED, FAILED}
    ensures (h in w.rows && w.rows[h].status !in {OBSERVED, FAILED}) || PreparedBy(w, m, h)
  {
    hide Invariant, Do, IsTruthful, IsWitnessScript;
    if h !in w.rows {
      NewRowsAreObserved(c, m.config, w, m.action, h);
    } else {
      StatusMovesForward(c, m.config, w, m.action);
      StepIsJustified(c, m.config, w, m.action);
    }
  }

  lemma NewRowsAreObserved(c: Br.Chain, cfg: Config, w: World, a: Action, h: Bytes32)
    requires h in Do(c, cfg, w, a).rows && h !in w.rows
    ensures Do(c, cfg, w, a).rows[h].status == OBSERVED
  {
    hide PrepareRow, RequestRow, SettleRow, BroadcastRow, AwaitReceipt, Br.Step, EventsOf, Br.Try, CompletionTx, Apply,
      ContinueFrom;
    if Head(w).Some? {
      KeysStay(w, w.job.queue[0]);
    }
  }

  lemma KeysStay(w: World, row: Row)
    requires w.job.Working?
    ensures forall effect: Effect ::
      Apply(w, row, effect).rows.Keys == w.rows.Keys && Apply(w, row, effect).bridge == w.bridge
    ensures forall answered ::
      ContinueFrom(w, row, answered).rows.Keys == w.rows.Keys && ContinueFrom(w, row, answered).bridge == w.bridge
  {
    hide Marked, NextRow, ChainlinkAttestation;
  }

  lemma {:induction false} EveryRowWasPrepared(c: Br.Chain, w: World, moves: seq<Move>, h: Bytes32)
    returns (i: nat)
    requires Invariant(c, w) && IsRun(c, w, moves) && h in Run(c, w, moves).rows
    requires Run(c, w, moves).rows[h].status !in {OBSERVED, FAILED}
    requires h in w.rows ==> w.rows[h].status in {OBSERVED, FAILED}
    ensures i < |moves| && PreparedBy(Run(c, w, moves[..i]), moves[i], h)
    decreases |moves|
  {
    hide Invariant, Do, IsTruthful, PreparedBy;
    var w' := Do(c, moves[0].config, w, moves[0].action);
    StepKeeps(c, moves[0].config, w, moves[0].action);
    if h in w'.rows && w'.rows[h].status !in {OBSERVED, FAILED} {
      PreparedOrWasPrepared(c, w, moves[0], h);
      i := 0;
      assert moves[..0] == [];
    } else {
      i := EveryRowWasPrepared(c, w', moves[1..], h);
      i := i + 1;
      assert moves[..i][1..] == moves[1..][..i - 1];
    }
  }

  /**
    Behind every raw transaction ever sent there is the move that prepared its redeem: the amount and
    the fee budget burned were within the caps of the configuration of that moment, it was at or before
    the deadline, the script was allowed, and the block of the burn was found again.
   */
  lemma SendsAreWithinCaps(c: Br.Chain, w: World, moves: seq<Move>, s: RawSend) returns (i: nat)
    requires IsStart(c, w) && IsRun(c, w, moves) && s in Run(c, w, moves).sends
    ensures i < |moves| && PreparedBy(Run(c, w, moves[..i]), moves[i], s.requestHash)
    ensures var w' := Run(c, w, moves);
      && s.requestHash in w'.bridge.burning.redeemRecords
      && var r := w'.bridge.burning.redeemRecords[s.requestHash].request;
         r.amountSats <= moves[i].config.maxSats && r.maxMinerFeeSats <= moves[i].config.maxMinerFeeSats
  {
    hide Invariant, IsStart, Run, IsRun, RowFacts, PreparedBy;
    StartHolds(c, w);
    RunInvariant(c, w, moves);
    var w' := Run(c, w, moves);
    SentRow(c, w', s);
    NothingAtStart(c, w);
    i := EveryRowWasPrepared(c, w, moves, s.requestHash);
    RequestStays(c, w, moves, i, s.requestHash);
  }

  lemma NothingAtStart(c: Br.Chain, w: World)
    requires IsStart(c, w)
    ensures w.rows == map[]
  {
    hide Br.IsDeployed;
  }

  lemma {:induction false} RunSplits(c: Br.Chain, w: World, moves: seq<Move>, i: nat)
    requires i <= |moves| && IsRun(c, w, moves)
    ensures IsRun(c, w, moves[..i]) && IsRun(c, Run(c, w, moves[..i]), moves[i..])
    ensures Run(c, Run(c, w, moves[..i]), moves[i..]) == Run(c, w, moves)
    decreases i
  {
    hide Do, IsTruthful;
    if i == 0 {
      assert moves[..0] == [] && moves[0..] == moves;
    } else {
      RunSplits(c, Do(c, moves[0].config, w, moves[0].action), moves[1..], i - 1);
      assert moves[..i][1..] == moves[1..][..i - 1] && moves[1..][i - 1..] == moves[i..];
    }
  }

  /** The event column of a genuine row says what the record says, then and now. */
  lemma RequestStays(c: Br.Chain, w: World, moves: seq<Move>, i: nat, h: Bytes32)
    requires IsStart(c, w) && IsRun(c, w, moves) && i < |moves|
    requires PreparedBy(Run(c, w, moves[..i]), moves[i], h)
    ensures var w' := Run(c, w, moves);
      && h in w'.bridge.burning.redeemRecords
      && var r := w'.bridge.burning.redeemRecords[h].request;
         r.amountSats <= moves[i].config.maxSats && r.maxMinerFeeSats <= moves[i].config.maxMinerFeeSats
  {
    hide Invariant, IsStart, Run, IsRun, IsWitnessScript;
    RunSplits(c, w, moves, i);
    RunInvariant(c, w, moves[..i]);
    var w0 := Run(c, w, moves[..i]);
    GenuineRow(c, w0, h);
    RunKeepsGenuine(c, w0, moves[i..], w0.rows[h].event);
  }

  lemma GenuineRow(c: Br.Chain, w: World, h: Bytes32)
    requires Invariant(c, w) && h in w.rows
    ensures IsGenuine(w.bridge.burning, w.rows[h].event) && w.rows[h].event.requestHash == h
  {
    hide ChainFacts, JobFacts, SendFacts, IsGenuine, AuthorizationFacts, PsbtFacts, FinalFacts;
  }

  lemma {:induction false} RunKeepsGenuine(c: Br.Chain, w: World, moves: seq<Move>, e: RedeemEvent)
    requires Invariant(c, w) && IsRun(c, w, moves) && IsGenuine(w.bridge.burning, e)
    ensures IsGenuine(Run(c, w, moves).bridge.burning, e)
    decreases |moves|
  {
    hide Invariant, Do, IsTruthful, IsGenuine;
    if moves != [] {
      StepKeeps(c, moves[0].config, w, moves[0].action);
      StepKeepsGenuine(c, moves[0].config, w, moves[0].action, e);
      RunKeepsGenuine(c, Do(c, moves[0].config, w, moves[0].action), moves[1..], e);
    }
  }

  lemma StepKeepsGenuine(c: Br.Chain, cfg: Config, w: World, a: Action, e: RedeemEvent)
    requires Invariant(c, w) && IsTruthful(c, cfg, w, a) && IsGenuine(w.bridge.burning, e)
    ensures IsGenuine(Do(c, cfg, w, a).bridge.burning, e)
  {
    hide Invariant, IsGenuine, Apply, ContinueFrom, PrepareRow, RequestRow, SettleRow, BroadcastRow, Br.Step, EventsOf,
      IsListing, Br.IsExternal;
    IsSolvent(c, w);
    if Head(w).Some? && !a.Transact? && !a.MineCompletion? {
      SameBridge(c, cfg, w, a);
    }
    match a {
      case Transact(tx) => ChainMoves(c, w.bridge, tx);
      case MineCompletion(hash, sender, now) =>
        if hash in w.completions && hash !in w.receipts {
          ChainMoves(c, w.bridge, CompletionTx(w, hash, sender, now));
        }
      case _ =>
    }
  }

  lemma IsSolvent(c: Br.Chain, w: World)
    requires Invariant(c, w)
    ensures Br.Solvent(c, w.bridge)
  {
    hide RowFacts, JobFacts, SendFacts, Br.Solvent;
  }

  lemma SameBridge(c: Br.Chain, cfg: Config, w: World, a: Action)
    requires !a.Transact? && !a.MineCompletion?
    ensures Do(c, cfg, w, a).bridge == w.bridge
  {
    hide PrepareRow, RequestRow, SettleRow, BroadcastRow, AwaitReceipt, Upsert, Apply, ContinueFrom, Br.Step, EventsOf,
      CompletionTx;
    if Head(w).Some? {
      KeysStay(w, w.job.queue[0]);
    }
  }
}
