/**
  What holds over every run of the worker, its store and the chain: Bitcoin moves only after the
  redeem is consumed, once, for the amount burned, and no status ever goes back.
 */
module PublicWorkerRuns {
  import opened BridgeTypes
  import opened PublicStore
  import opened PublicWorker
  import P = SpendPlan
  import B = BurnGateway
  import Br = Bridge

  // ----- What the replies decide -----

  predicate IsTimely(row: Row, now: nat) {
    && now <= row.event.deadline <= MAX_SAFE_INTEGER
    && (row.authorization.Some? ==> now <= row.authorization.value.deadline <= MAX_SAFE_INTEGER)
  }

  /**
    A requested release is completed by the worker's own transaction only when it is timely,
    approved and not consumed yet; it fails for lateness, an unknown request or a rejection only.
   */
  lemma SettlementIsDecided(row: Row, now: nat, receipt: Reply<Option<Receipt>>, pending: Reply<Pending>,
                            consumed: Reply<bool>,
                            event: Reply<Option<(TxHash, nat)>>, sent: Reply<TxHash>)
    requires row.status == RELEASE_REQUESTED
    ensures var effect := SettleRow(row, now, receipt, pending, consumed, event, sent);
      var approved := IsTimely(row, now) && pending == Reply(Pending(true, true, true));
      && (effect.SendCompletion? <==> approved && consumed == Reply(false) && sent.Reply?)
      && ((effect.Note? && effect.mark.Completed?)
          <==> approved && consumed == Reply(true) && event.Reply? && event.value.Some?)
      && (effect == Note(Failed) <==>
            || !IsTimely(row, now)
            || (pending.Reply? && (!pending.value.known || (pending.value.fulfilled && !pending.value.approved))))
      && (effect.SendCompletion? ==> effect.tx == sent.value)
      && (effect.Note? ==> effect.mark.Failed?
                           || (event.Reply? && event.value.Some?
                               && effect.mark == Completed(event.value.value.0, event.value.value.1)))
      && (effect.SendCompletion? || effect.Note? || effect.Leave?)
  {
  }

  /** A submitted completion is settled by its receipt alone. */
  lemma SubmittedIsDecided(row: Row, now: nat, receipt: Reply<Option<Receipt>>, pending: Reply<Pending>,
                           consumed: Reply<bool>,
                           event: Reply<Option<(TxHash, nat)>>, sent: Reply<TxHash>)
    requires row.status == REDEEM_SUBMITTED
    ensures var effect := SettleRow(row, now, receipt, pending, consumed, event, sent);
      if row.completeTx.Some? && receipt.Reply? && receipt.value.Some? then
        effect == Note(if receipt.value.value.ok then Completed(row.completeTx.value, receipt.value.value.block)
                       else Failed)
      else effect == Leave
  {
  }

  /** A request is recorded in time and when it was answered; a late row fails. */
  lemma RequestingIsDecided(row: Row, now: nat, requested: Reply<Bytes32>)
    ensures var effect := RequestRow(row, now, requested);
      && (effect == Note(Failed) <==> !IsTimely(row, now))
      && (forall id :: effect == Note(Requested(id)) <==> IsTimely(row, now) && requested == Reply(id))
      && (effect == Leave <==> IsTimely(row, now) && requested.NoReply?)
  {
  }

  /**
    Stored bytes are sent again as they are; without them a PSBT is finalized by the local wallet, when
    its plan is one for the stored authorization.
   */
  lemma BroadcastingIsDecided(cfg: Config, row: Row, finalized: Reply<RawTx>)
    ensures var effect := BroadcastRow(cfg, row, finalized);
      && (forall raw :: effect == SendRaw(raw) <==> row.bitcoinTx == Some(raw))
      && (forall raw :: effect == Finalize(raw) <==>
           && row.bitcoinTx == None && cfg.custody == LOCAL_WALLET && row.psbt.Some? && row.authorization.Some?
           && P.ExtractPlan(row.psbt.value).Ok?
           && P.VerifyReleaseSpendPlan(row.authorization.value, P.ExtractPlan(row.psbt.value).value).Ok?
           && finalized == Reply(raw))
      && (effect.SendRaw? || effect.Finalize? || effect.Leave?)
  {
    hide P.ExtractPlan, P.VerifyReleaseSpendPlan;
  }

  lemma RunInvariant(c: Br.Chain, w: World, moves: seq<Move>)
    requires IsStart(c, w) && IsRun(c, w, moves)
    ensures Invariant(c, Run(c, w, moves))
  {
    hide Invariant, IsStart, Run, IsRun;
    StartHolds(c, w);
    RunKeeps(c, w, moves);
  }

  lemma SentRow(c: Br.Chain, w: World, s: RawSend)
    requires Invariant(c, w) && s in w.sends
    ensures s.requestHash in w.rows && RowFacts(w.bridge, w.completions, s.requestHash, w.rows[s.requestHash])
    ensures w.rows[s.requestHash].bitcoinTx == Some(s.raw)
    ensures w.rows[s.requestHash].status in {REDEEM_COMPLETED, BTC_BROADCAST}
  {
    hide ChainFacts, JobFacts, RowFacts;
  }

  /** A raw transaction is handed to Bitcoin for a redeem only once its record is consumed on the chain. */
  lemma BitcoinFollowsConsumption(c: Br.Chain, w: World, moves: seq<Move>, s: RawSend)
    requires IsStart(c, w) && IsRun(c, w, moves) && s in Run(c, w, moves).sends
    ensures B.StateOf(Run(c, w, moves).bridge.burning, s.requestHash) == CONSUMED
  {
    hide Invariant, IsStart, Run, IsRun, AuthorizationFacts, IsGenuine;
    RunInvariant(c, w, moves);
    SentRow(c, Run(c, w, moves), s);
  }

  /** All raw transactions ever sent for one redeem are the same transaction. */
  lemma OneTransactionPerRedeem(c: Br.Chain, w: World, moves: seq<Move>, s: RawSend, t: RawSend)
    requires IsStart(c, w) && IsRun(c, w, moves) && s in Run(c, w, moves).sends && t in Run(c, w, moves).sends
    requires s.requestHash == t.requestHash
    ensures s.raw == t.raw
  {
    hide Invariant, IsStart, Run, IsRun, RowFacts;
    RunInvariant(c, w, moves);
    SentRow(c, Run(c, w, moves), s);
    SentRow(c, Run(c, w, moves), t);
  }

  /** The plan pays the amount to the script, and other outputs besides, and declares a fee within the budget. */
  ghost predicate Pays(p: P.Plan, r: RedeemRequest, i: nat) {
    && i < |p.outputs|
    && KeccakBytes(p.outputs[i].script) == r.destinationScriptHash && p.outputs[i].valueSats == r.amountSats
    && P.SumOutputs(p.outputs) == r.amountSats + P.SumOutputs(p.outputs[..i] + p.outputs[i + 1..])
    && p.feeSats <= r.maxMinerFeeSats
  }

  /** What the plan spends is what it pays and the fee it declares. */
  predicate Conserves(p: P.Plan) { P.SumInputs(p.inputs) == P.SumOutputs(p.outputs) + p.feeSats }

  /**
    What is paid is what was burned: the plan of every transaction sent pays the record's amount to
    the record's script, with a declared fee within its budget. A plan derived from a PSBT conserves
    value, so that its declared fee is the real one; a transaction that the custody adapter finalized
    is the one its plan describes, whose declared fee nothing compares with its inputs.
   */
  lemma PayoutMatchesBurn(c: Br.Chain, w: World, moves: seq<Move>, s: RawSend) returns (i: nat)
    requires IsStart(c, w) && IsRun(c, w, moves) && s in Run(c, w, moves).sends
    ensures var w' := Run(c, w, moves);
      && s.requestHash in w'.rows && s.requestHash in w'.bridge.burning.redeemRecords
      && var (row, r) := (w'.rows[s.requestHash], w'.bridge.burning.redeemRecords[s.requestHash].request);
         && row.spendPlan.Some? && Pays(row.spendPlan.value, r, i)
         && (row.psbt.Some? ==>
              P.ExtractPlan(row.psbt.value) == P.Ok(row.spendPlan.value) && Conserves(row.spendPlan.value))
         && (row.psbt.None? ==> s.raw.parsed == Some(P.TransactionOf(row.spendPlan.value)))
  {
    hide Invariant, IsStart, Run, IsRun, P.Fits, P.InputsCommitment, P.OutputsCommitment, P.PsbtPolicyHash,
      P.ExtractPlan, P.TransactionOf,
      P.FindDestination, Conserves;
    RunInvariant(c, w, moves);
    var w' := Run(c, w, moves);
    SentRow(c, w', s);
    var row := w'.rows[s.requestHash];
    i := P.DestinationIsThere(row.authorization.value, row.spendPlan.value.outputs);
    P.SumSplits(row.spendPlan.value.outputs, i);
    if row.psbt.Some? {
      ExtractedConserves(row.psbt.value);
    }
  }

  lemma ExtractedConserves(psbt: P.Psbt)
    ensures P.ExtractPlan(psbt).Ok? ==> Conserves(P.ExtractPlan(psbt).value)
  {
    hide P.PlanInputs, P.SighashTypeFromPsbt, P.SumInputs, P.SumOutputs;
  }

  // ----- Statuses -----

  /** The same status, or one step along the way. */
  predicate Moves(a: RedeemStatus, b: RedeemStatus) { a == b || CanBecome(a, b) }

  ghost predicate RowsMove(before: Rows, after: Rows) {
    forall h | h in before :: h in after && Moves(before[h].status, after[h].status)
  }

  lemma UpdateMoves(rows: Rows, h: Bytes32, m: Mark)
    requires h in rows ==> Moves(rows[h].status, Marked(rows[h], m).status)
    ensures RowsMove(rows, Update(rows, h, m))
  {
  }

  lemma ApplyMoves(c: Br.Chain, w: World, effect: Effect)
    requires InHand(c, w)
    requires effect.Note? ==> Moves(Current(w).status, Marked(Current(w), effect.mark).status)
    ensures RowsMove(w.rows, Apply(w, w.job.queue[0], effect).rows)
  {
    hide Invariant, Marked, NextRow, Moves;
    Stay(w.rows);
    if effect.Note? {
      UpdateMoves(w.rows, w.job.queue[0].event.requestHash, effect.mark);
    }
  }

  lemma Stay(rows: Rows)
    ensures RowsMove(rows, rows)
  {
  }

  /** No step of the run takes a status back, or out of FAILED or BTC_BROADCAST. */
  lemma StatusMovesForward(c: Br.Chain, cfg: Config, w: World, a: Action)
    requires Invariant(c, w) && IsTruthful(c, cfg, w, a)
    ensures RowsMove(w.rows, Do(c, cfg, w, a).rows)
  {
    hide Invariant, RowFacts, Apply, ContinueFrom, IsListing, IsGenuine, IsExpired, ViolatesLimits,
      BuildReleaseAuthorization,
      Br.Step, Br.IsExternal, EventsOf, RowsMove, P.ExtractPlan, P.VerifyReleaseSpendPlan;
    Stay(w.rows);
    if Head(w).Some? {
      IsInHand(c, w);
    }
    match a {
      case ContinueScan =>
        if w.job.Scanning? && w.job.events != [] {
          UpsertMoves(w.rows, w.job.events[0]);
        }
      case DoPrepare(now, block, prepared) =>
        if Stands(w, PREPARING, AtStart) {
          ApplyMoves(c, w, PrepareRow(cfg, w.job.queue[0], now, block, prepared));
        }
      case DoRequest(now, requested) =>
        if Stands(w, REQUESTING, AtStart) {
          ApplyMoves(c, w, RequestRow(w.job.queue[0], now, requested));
        }
      case DoSettle(now, receipt, pending, consumed, event, sent) =>
        if Stands(w, SETTLING, AtStart) {
          ApplyMoves(c, w, SettleRow(w.job.queue[0], now, receipt, pending, consumed, event, sent));
        }
      case DoReceipt(waited) =>
        if Head(w).Some? && w.job.at.Awaits? {
          ApplyMoves(c, w, AwaitReceipt(w.job.at.tx, waited));
        }
      case DoBroadcast(finalized) =>
        if Stands(w, BROADCASTING, AtStart) {
          ApplyMoves(c, w, BroadcastRow(cfg, w.job.queue[0], finalized));
        }
      case Continue(answered) =>
        if Head(w).Some? {
          ContinueMoves(c, w, answered);
        }
      case _ =>
    }
  }

  lemma UpsertMoves(rows: Rows, e: RedeemEvent)
    ensures RowsMove(rows, Upsert(rows, e))
    ensures e.requestHash in rows ==> Upsert(rows, e)[e.requestHash] == rows[e.requestHash].(event := e)
  {
  }

  lemma ContinueMoves(c: Br.Chain, w: World, answered: bool)
    requires InHand(c, w) && HeadFacts(w.completions, w.job.queue[0], Current(w), w.job.at)
    ensures RowsMove(w.rows, ContinueFrom(w, w.job.queue[0], answered).rows)
  {
    hide Invariant, NextRow, RowsMove, PsbtFacts, FinalFacts;
    Stay(w.rows);
    match w.job.at {
      case HasSent(tx) => UpdateMoves(w.rows, w.job.queue[0].event.requestHash, Submitted(tx));
      case HasFinalized(raw) => UpdateMoves(w.rows, w.job.queue[0].event.requestHash, Finalized(raw));
      case HasSentRaw(raw) => UpdateMoves(w.rows, w.job.queue[0].event.requestHash, Broadcast(raw));
      case _ =>
    }
  }

  /** Later in a run a status is the same or of a higher rank. */
  predicate IsLater(a: RedeemStatus, b: RedeemStatus) { a == b || Rank(a) < Rank(b) }

  ghost predicate RowsLater(before: Rows, after: Rows) {
    forall h | h in before :: h in after && IsLater(before[h].status, after[h].status)
  }

  lemma LaterAfterMove(a: Rows, b: Rows, c: Rows)
    requires RowsMove(a, b) && RowsLater(b, c)
    ensures RowsLater(a, c)
  {
  }

  /**
    Over every run, rows are never lost and statuses only climb; FAILED and BTC_BROADCAST, of the
    highest rank, are for ever.
   */
  lemma {:induction false} RunMovesForward(c: Br.Chain, w: World, moves: seq<Move>)
    requires Invariant(c, w) && IsRun(c, w, moves)
    ensures RowsLater(w.rows, Run(c, w, moves).rows)
    decreases |moves|
  {
    hide Invariant, Do, IsTruthful, RowsMove, RowsLater;
    if moves == [] {
      LaterThanItself(w.rows);
    } else {
      var w' := Do(c, moves[0].config, w, moves[0].action);
      StatusMovesForward(c, moves[0].config, w, moves[0].action);
      StepKeeps(c, moves[0].config, w, moves[0].action);
      RunMovesForward(c, w', moves[1..]);
      LaterAfterMove(w.rows, w'.rows, Run(c, w, moves).rows);
    }
  }

  lemma LaterThanItself(rows: Rows)
    ensures RowsLater(rows, rows)
  {
  }

  /** A failed redeem, and one that was broadcast, stay what they are in every continuation of a run. */
  lemma FinalStatusesStay(c: Br.Chain, w: World, moves: seq<Move>, later: seq<Move>, h: Bytes32)
    requires IsStart(c, w) && IsRun(c, w, moves) && IsRun(c, Run(c, w, moves), later)
    requires h in Run(c, w, moves).rows && Run(c, w, moves).rows[h].status in {FAILED, BTC_BROADCAST}
    ensures h in Run(c, Run(c, w, moves), later).rows
    ensures Run(c, Run(c, w, moves), later).rows[h].status == Run(c, w, moves).rows[h].status
  {
    hide Invariant, IsStart, Run, IsRun;
    RunInvariant(c, w, moves);
    RunMovesForward(c, Run(c, w, moves), later);
  }
}
