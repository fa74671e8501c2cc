/**
  The worker's loops as the process performs them, on the store, when it is not stopped.

  Each method goes through one row with the replies it gets and makes the store's calls; each
  pass lists rows and goes through them. With nothing in between, a row leaves the store as the
  steps of the machine do, and a whole pass is a run of it (PrepareRedeems,
  RequestReleaseAuthorizations, BroadcastBitcoinReleases), so what holds over every run holds of
  the store after it.
 */
module PublicWorkerPasses {
  import opened BridgeTypes
  import opened PublicStore
  import opened PublicWorker
  import P = SpendPlan
  import B = BurnGateway
  import Br = Bridge

  // ----- One row -----

  method PrepareRedeem(store: PublicTestnetStore, cfg: Config, redeem: Row, now: nat, block: Reply<Option<Bytes32>>,
                       prepared: Reply<Preparation>, ghost c: Br.Chain, ghost w: World)
    requires w.rows == store.rows && Stands(w, PREPARING, AtStart) && w.job.queue[0] == redeem
    modifies store`rows
    ensures store.rows == Do(c, cfg, w, DoPrepare(now, block, prepared)).rows
    ensures var (e, h) := (redeem.event, redeem.event.requestHash);
      && (h in old(store.rows)
          && (e.amountSats > cfg.maxSats || e.maxMinerFeeSats > cfg.maxMinerFeeSats || now > e.deadline) ==>
            store.rows == old(store.rows)[h := old(store.rows)[h].(status := FAILED)])
      && (store.rows != old(store.rows) ==>
           && h in old(store.rows) && h in store.rows
           && (store.rows[h].status == FAILED
               || (store.rows[h].status == RELEASE_PREPARED && e.amountSats <= cfg.maxSats
                   && e.maxMinerFeeSats <= cfg.maxMinerFeeSats && now <= e.deadline
                   && block == Reply(Some(e.blockHash)))))
  {
    hide BuildReleaseAuthorization, P.TransactionOf, P.ExtractPlan, B.IsAllowedDestinationScript, NextRow;
    var h := redeem.event.requestHash;
    if IsExpired(redeem, now) || ViolatesLimits(cfg, redeem) {
      store.MarkRedeemFailed(h);
      return;
    }
    if !B.IsAllowedDestinationScript(redeem.event.destinationScript) || block.NoReply? {
      return;
    }
    if block.value != Some(redeem.event.blockHash) {
      store.MarkRedeemFailed(h);
      return;
    }
    if prepared.NoReply? {
      return;
    }
    var p := prepared.value;
    var plan;
    if cfg.custody == CHAINLINK_DON {
      if p.bitcoinTx.None? || p.bitcoinTx.value.parsed != Some(P.TransactionOf(p.plan)) {
        return;
      }
      plan := p.plan;
    } else {
      if p.psbt.None? {
        return;
      }
      var extracted := P.ExtractPlan(p.psbt.value);
      if extracted.Err? {
        return;
      }
      plan := extracted.value;
    }
    var authorization := BuildReleaseAuthorization(cfg, redeem.event, plan, now);
    if authorization.Some? {
      if cfg.custody == CHAINLINK_DON {
        store.MarkRedeemPrepared(h, None, plan, authorization.value, p.bitcoinTx);
      } else {
        store.MarkRedeemPrepared(h, p.psbt, plan, authorization.value, None);
      }
    }
  }

  method RequestRelease(store: PublicTestnetStore, cfg: Config, redeem: Row, now: nat, requested: Reply<Bytes32>,
                        ghost c: Br.Chain, ghost w: World)
    requires w.rows == store.rows && Stands(w, REQUESTING, AtStart) && w.job.queue[0] == redeem
    modifies store`rows
    ensures store.rows == Do(c, cfg, w, DoRequest(now, requested)).rows
  {
    hide NextRow;
    if IsExpired(redeem, now) {
      store.MarkRedeemFailed(redeem.event.requestHash);
    } else if requested.Reply? {
      store.MarkReleaseRequested(redeem.event.requestHash, requested.value);
    }
  }

  /**
    What the process is told about one row to settle, and what the chain does before it asks and
    while it waits for the receipt of its completion.
   */
  datatype SettleReplies = SettleReplies(
    before: seq<Move>, now: nat, receipt: Reply<Option<Receipt>>, pending: Reply<Pending>, consumed: Reply<bool>,
    event: Reply<Option<(TxHash, nat)>>, sent: Reply<TxHash>, between: seq<Move>, waited: Reply<Receipt>)

  function SettleAction(r: SettleReplies): Action {
    DoSettle(r.now, r.receipt, r.pending, r.consumed, r.event, r.sent)
  }

  function EffectOf(redeem: Row, r: SettleReplies): Effect {
    SettleRow(redeem, r.now, r.receipt, r.pending, r.consumed, r.event, r.sent)
  }

  predicate IsChain(moves: seq<Move>) {
    forall m | m in moves :: m.action.Transact? || m.action.MineCompletion?
  }

  /** The chain leaves the process and its store alone. */
  lemma {:induction false} ChainLeavesProcess(c: Br.Chain, w: World, moves: seq<Move>)
    requires IsChain(moves)
    ensures var w' := Run(c, w, moves);
      w'.rows == w.rows && w'.job == w.job && w'.sends == w.sends && w'.cursor == w.cursor
      && w'.completions == w.completions
    decreases |moves|
  {
    hide Br.Step, Br.Try;
    if moves != [] {
      assert moves[0] in moves && forall m | m in moves[1..] :: m in moves;
      ChainLeavesProcess(c, Do(c, moves[0].config, w, moves[0].action), moves[1..]);
    }
  }

  /** The steps of a row that is settled without a crash. */
  ghost function AfterSettling(c: Br.Chain, cfg: Config, w: World, r: SettleReplies): World {
    var w1 := Do(c, cfg, Run(c, w, r.before), SettleAction(r));
    Do(c, cfg, Run(c, Do(c, cfg, w1, Continue(true)), r.between), DoReceipt(r.waited))
  }

  /** The replies are true of the chain when they arrive. */
  ghost predicate AreTruthful(c: Br.Chain, cfg: Config, w: World, r: SettleReplies) {
    && IsChain(r.before) && IsRun(c, w, r.before) && IsTruthful(c, cfg, Run(c, w, r.before), SettleAction(r))
    && var w2 := Do(c, cfg, Do(c, cfg, Run(c, w, r.before), SettleAction(r)), Continue(true));
       && IsChain(r.between) && IsRun(c, w2, r.between)
       && IsTruthful(c, cfg, Run(c, w2, r.between), DoReceipt(r.waited))
  }

  ghost predicate AllTruthful(c: Br.Chain, cfg: Config, w: World, rs: seq<SettleReplies>)
    decreases |rs|
  {
    rs == [] || (AreTruthful(c, cfg, w, rs[0]) && AllTruthful(c, cfg, AfterSettling(c, cfg, w, rs[0]), rs[1..]))
  }

  /** What those steps leave in the store. */
  function RowsSettled(rows: Rows, h: Bytes32, effect: Effect, waited: Reply<Receipt>): Rows {
    match effect
    case Note(m) => Update(rows, h, m)
    case SendCompletion(tx) =>
      var submitted := Update(rows, h, Submitted(tx));
      (match AwaitReceipt(tx, waited) case Note(m) => Update(submitted, h, m) case _ => submitted)
    case _ => rows
  }

  lemma SettlingNeverBroadcasts(row: Row, r: SettleReplies)
    ensures !EffectOf(row, r).Finalize? && !EffectOf(row, r).SendRaw?
  {
  }

  lemma SettleStarts(c: Br.Chain, cfg: Config, w: World, r: SettleReplies)
    requires Stands(w, SETTLING, AtStart)
    ensures Do(c, cfg, w, SettleAction(r)) == Apply(w, w.job.queue[0], EffectOf(w.job.queue[0], r))
  {
  }

  lemma SubmissionIsKept(c: Br.Chain, cfg: Config, w: World)
    requires Head(w).Some? && w.job.at.HasSent?
    ensures var (h, tx) := (w.job.queue[0].event.requestHash, w.job.at.tx);
      Do(c, cfg, w, Continue(true)) == w.(rows := Update(w.rows, h, Submitted(tx)), job := w.job.(at := Awaits(tx)))
  {
  }

  lemma ReceiptIsKept(c: Br.Chain, cfg: Config, w: World, waited: Reply<Receipt>)
    requires Head(w).Some? && w.job.at.Awaits?
    ensures var (h, effect) := (w.job.queue[0].event.requestHash, AwaitReceipt(w.job.at.tx, waited));
      Do(c, cfg, w, DoReceipt(waited))
        == w.(rows := if effect.Note? then Update(w.rows, h, effect.mark) else w.rows, job := NextRow(w.job))
  {
  }

  lemma NothingAwaited(c: Br.Chain, cfg: Config, w: World, waited: Reply<Receipt>)
    requires w.job.Idle? || (w.job.Working? && w.job.at == AtStart)
    ensures Do(c, cfg, w, Continue(true)) == w && Do(c, cfg, w, DoReceipt(waited)) == w
  {
  }

  lemma SettlingLeaves(c: Br.Chain, cfg: Config, w: World, r: SettleReplies)
    requires Stands(w, SETTLING, AtStart) && IsChain(r.before) && IsChain(r.between)
    requires w.job.queue[0].authorization.Some? && w.job.queue[0].releaseRequestId.Some?
    ensures var (redeem, w') := (w.job.queue[0], AfterSettling(c, cfg, w, r));
      && w'.rows == RowsSettled(w.rows, redeem.event.requestHash, EffectOf(redeem, r), r.waited)
      && w'.job == NextRow(w.job)
  {
    var (redeem, effect) := (w.job.queue[0], EffectOf(w.job.queue[0], r));
    SettlingNeverBroadcasts(redeem, r);
    ChainLeavesProcess(c, w, r.before);
    var w0 := Run(c, w, r.before);
    SettleStarts(c, cfg, w0, r);
    var w1 := Do(c, cfg, w0, SettleAction(r));
    NextStands(w.job);
    hide Run, SettleRow, Update, NextRow, AwaitReceipt, Do, IsChain;
    if effect.SendCompletion? {
      NextIgnoresPosition(w.job, Awaits(effect.tx));
      SubmissionIsKept(c, cfg, w1);
      var w2 := Do(c, cfg, w1, Continue(true));
      ChainLeavesProcess(c, w2, r.between);
      ReceiptIsKept(c, cfg, Run(c, w2, r.between), r.waited);
    } else {
      NothingAwaited(c, cfg, w1, r.waited);
      ChainLeavesProcess(c, w1, r.between);
      NothingAwaited(c, cfg, Run(c, w1, r.between), r.waited);
    }
  }

  method SettleSubmittedRedeem(store: PublicTestnetStore, redeem: Row, receipt: Reply<Option<Receipt>>)
    modifies store`rows
    ensures store.rows == match SettleSubmitted(redeem, receipt)
                          case Note(m) => Update(old(store.rows), redeem.event.requestHash, m)
                          case _ => old(store.rows)
  {
    if redeem.completeTx.None? || receipt.NoReply? || receipt.value.None? {
      return;
    }
    if !receipt.value.value.ok {
      store.MarkRedeemFailed(redeem.event.requestHash);
    } else {
      store.MarkRedeemCompleted(redeem.event.requestHash, redeem.completeTx.value, receipt.value.value.block);
    }
  }

  method SettleRelease(store: PublicTestnetStore, cfg: Config, redeem: Row, r: SettleReplies, ghost c: Br.Chain,
                       ghost w: World)
    requires w.rows == store.rows && Stands(w, SETTLING, AtStart) && w.job.queue[0] == redeem
    requires redeem.authorization.Some? && redeem.releaseRequestId.Some? && IsChain(r.before) && IsChain(r.between)
    modifies store`rows
    ensures store.rows == AfterSettling(c, cfg, w, r).rows
  {
    SettlingLeaves(c, cfg, w, r);
    hide Do, Run, AfterSettling, Marked;
    var (now, receipt, pending, consumed, event) := (r.now, r.receipt, r.pending, r.consumed, r.event);
    var (sent, waited) := (r.sent, r.waited);
    var h := redeem.event.requestHash;
    if redeem.status == REDEEM_SUBMITTED {
      SettleSubmittedRedeem(store, redeem, receipt);
      return;
    }
    if IsExpired(redeem, now) {
      store.MarkRedeemFailed(h);
      return;
    }
    if pending.NoReply? {
      return;
    }
    if !pending.value.known {
      store.MarkRedeemFailed(h);
      return;
    }
    if !pending.value.fulfilled {
      return;
    }
    if !pending.value.approved {
      store.MarkRedeemFailed(h);
      return;
    }
    if consumed.NoReply? {
      return;
    }
    if consumed.value {
      if event.Reply? && event.value.Some? {
        store.MarkRedeemCompleted(h, event.value.value.0, event.value.value.1);
      }
      return;
    }
    if sent.NoReply? {
      return;
    }
    store.MarkRedeemSubmitted(h, sent.value);
    if waited.NoReply? {
      return;
    }
    if !waited.value.ok {
      store.MarkRedeemFailed(h);
      return;
    }
    store.MarkRedeemCompleted(h, sent.value, waited.value.block);
  }

  /** The steps of a row that is broadcast without interruption; answered tells whether Bitcoin Core's reply arrived. */
  ghost function AfterBroadcasting(c: Br.Chain, cfg: Config, w: World, finalized: Reply<RawTx>, answered: bool): World {
    var w1 := Do(c, cfg, Do(c, cfg, w, DoBroadcast(finalized)), Continue(answered));
    Do(c, cfg, Do(c, cfg, w1, Continue(answered)), Continue(answered))
  }

  /** What those steps leave in the store, and whether they send. */
  function RowsBroadcast(rows: Rows, h: Bytes32, effect: Effect, answered: bool): Rows {
    match effect
    case SendRaw(raw) => if answered then Update(rows, h, Broadcast(raw)) else rows
    case Finalize(raw) =>
      var finalized := Update(rows, h, Finalized(raw));
      if answered then Update(finalized, h, Broadcast(raw)) else finalized
    case _ => rows
  }

  lemma BroadcastingLeaves(c: Br.Chain, cfg: Config, w: World, finalized: Reply<RawTx>, answered: bool)
    requires Stands(w, BROADCASTING, AtStart)
    ensures var (row, w') := (w.job.queue[0], AfterBroadcasting(c, cfg, w, finalized, answered));
      var effect := BroadcastRow(cfg, row, finalized);
      && w'.rows == RowsBroadcast(w.rows, row.event.requestHash, effect, answered)
      && w'.sends == w.sends + (if effect.SendRaw? || effect.Finalize?
                                then [RawSend(row.event.requestHash, effect.raw)] else [])
      && w'.job == NextRow(w.job)
  {
    BroadcastingOnlySends(cfg, w.job.queue[0], finalized);
    var (row, h) := (w.job.queue[0], w.job.queue[0].event.requestHash);
    var effect := BroadcastRow(cfg, row, finalized);
    var w1 := Do(c, cfg, w, DoBroadcast(finalized));
    BroadcastStarts(c, cfg, w, finalized);
    hide Update, BroadcastRow, NextRow, Do;
    NextStands(w.job);
    if effect.Finalize? {
      NextIgnoresPosition(w.job, WillSend(effect.raw));
      var w2 := w1.(rows := Update(w1.rows, h, Finalized(effect.raw)), job := w1.job.(at := WillSend(effect.raw)));
      FinalizedIsKept(c, cfg, w1, answered);
      SendingLeaves(c, cfg, w2, answered);
    } else if effect.SendRaw? {
      SendingLeaves(c, cfg, w1, answered);
      Stays(c, cfg, Do(c, cfg, Do(c, cfg, w1, Continue(answered)), Continue(answered)), answered);
    } else {
      Stays(c, cfg, w1, answered);
    }
  }

  lemma BroadcastStarts(c: Br.Chain, cfg: Config, w: World, finalized: Reply<RawTx>)
    requires Stands(w, BROADCASTING, AtStart)
    ensures Do(c, cfg, w, DoBroadcast(finalized))
      == Apply(w, w.job.queue[0], BroadcastRow(cfg, w.job.queue[0], finalized))
  {
  }

  lemma FinalizedIsKept(c: Br.Chain, cfg: Config, w: World, answered: bool)
    requires Head(w).Some? && w.job.at.HasFinalized?
    ensures Do(c, cfg, w, Continue(answered))
         == w.(rows := Update(w.rows, w.job.queue[0].event.requestHash, Finalized(w.job.at.raw)),
               job := w.job.(at := WillSend(w.job.at.raw)))
  {
  }

  lemma NextStands(job: Job)
    requires job.Working?
    ensures NextRow(job).Idle? || (NextRow(job).Working? && NextRow(job).at == AtStart)
  {
  }

  lemma Stays(c: Br.Chain, cfg: Config, w: World, answered: bool)
    requires w.job.Idle? || (w.job.Working? && w.job.at == AtStart)
    ensures Do(c, cfg, w, Continue(answered)) == w
  {
  }

  /** Sending, and recording it when the reply arrives. */
  lemma SendingLeaves(c: Br.Chain, cfg: Config, w: World, answered: bool)
    requires Head(w).Some? && w.job.at.WillSend?
    ensures var (h, raw) := (w.job.queue[0].event.requestHash, w.job.at.raw);
      Do(c, cfg, Do(c, cfg, w, Continue(answered)), Continue(answered))
        == w.(sends := w.sends + [RawSend(h, raw)], job := NextRow(w.job),
              rows := if answered then Update(w.rows, h, Broadcast(raw)) else w.rows)
  {
    hide Update, NextRow;
    var (h, raw) := (w.job.queue[0].event.requestHash, w.job.at.raw);
    var w1 := w.(sends := w.sends + [RawSend(h, raw)],
                 job := if answered then w.job.(at := HasSentRaw(raw)) else NextRow(w.job));
    assert Do(c, cfg, w, Continue(answered)) == w1;
    NextStands(w.job);
    if answered {
      NextIgnoresPosition(w.job, HasSentRaw(raw));
    } else {
      Stays(c, cfg, w1, answered);
    }
  }

  lemma NextIgnoresPosition(job: Job, at: Position)
    requires job.Working?
    ensures NextRow(job.(at := at)) == NextRow(job)
  {
  }

  lemma BroadcastingOnlySends(cfg: Config, row: Row, finalized: Reply<RawTx>)
    ensures BroadcastRow(cfg, row, finalized) == Leave || BroadcastRow(cfg, row, finalized).SendRaw?
         || BroadcastRow(cfg, row, finalized).Finalize?
  {
    hide P.ExtractPlan, P.VerifyReleaseSpendPlan;
  }

  method BroadcastRelease(store: PublicTestnetStore, cfg: Config, redeem: Row, finalized: Reply<RawTx>, answered: bool,
                          ghost c: Br.Chain, ghost w: World) returns (sent: Option<RawTx>)
    requires w.rows == store.rows && Stands(w, BROADCASTING, AtStart) && w.job.queue[0] == redeem
    modifies store`rows
    ensures store.rows == AfterBroadcasting(c, cfg, w, finalized, answered).rows
    ensures AfterBroadcasting(c, cfg, w, finalized, answered).sends
         == w.sends + (if sent.Some? then [RawSend(redeem.event.requestHash, sent.value)] else [])
  {
    BroadcastingLeaves(c, cfg, w, finalized, answered);
    hide P.ExtractPlan, P.VerifyReleaseSpendPlan, Do, AfterBroadcasting, Marked;
    var h := redeem.event.requestHash;
    var raw;
    if redeem.bitcoinTx.Some? {
      raw := redeem.bitcoinTx.value;
    } else {
      if cfg.custody == CHAINLINK_DON || redeem.psbt.None? || redeem.authorization.None? {
        return None;
      }
      var plan := P.ExtractPlan(redeem.psbt.value);
      if plan.Err? || P.VerifyReleaseSpendPlan(redeem.authorization.value, plan.value).Err? || finalized.NoReply? {
        return None;
      }
      raw := finalized.value;
      store.MarkBitcoinFinalized(h, raw);
    }
    sent := Some(raw);
    if answered {
      store.MarkBitcoinBroadcast(h, raw);
    }
  }

  // ----- Whole passes -----

  /** The process with the rows from the i-th on still to do. */
  function RestOf(phase: Phase, queue: seq<Row>, i: nat): Job
    requires i <= |queue|
  {
    if i == |queue| then Idle else Working(phase, queue[i..], AtStart)
  }

  lemma RestMoves(phase: Phase, queue: seq<Row>, i: nat)
    requires i < |queue|
    ensures NextRow(RestOf(phase, queue, i)) == RestOf(phase, queue, i + 1)
    ensures RestOf(phase, queue, i).queue[0] == queue[i]
  {
    assert queue[i..][1..] == queue[i + 1..];
  }

  /** Listing the rows of a phase begins a pass; when there are none, nothing is to do. */
  lemma PassBegins(c: Br.Chain, cfg: Config, w: World, phase: Phase, keys: seq<Bytes32>, redeems: seq<Row>)
    returns (w': World, moves: seq<Move>)
    requires w.job.Idle? && IsListing(w.rows, phase, cfg.finalizedBlock, LimitOf(cfg, phase), keys)
      && |redeems| == |keys|
    requires forall i | 0 <= i < |keys| :: keys[i] in w.rows && redeems[i] == w.rows[keys[i]]
    ensures Leads(c, w, moves, w') && w' == w.(job := RestOf(phase, redeems, 0))
    ensures w' == if keys == [] then w else Do(c, cfg, w, List(phase, keys))
  {
    hide Eligible;
    w', moves := w, [];
    if keys != [] {
      LeadsOn(c, w, moves, w, Move(cfg, List(phase, keys)));
      w', moves := Do(c, cfg, w, List(phase, keys)), moves + [Move(cfg, List(phase, keys))];
      assert redeems == seq(|keys|, i requires 0 <= i < |keys| => w.rows[keys[i]]);
      assert redeems[0..] == redeems;
    }
  }

  lemma RowIsDone(c: Br.Chain, cfg: Config, w: World, a: Action)
    requires (a.DoPrepare? && Stands(w, PREPARING, AtStart)) || (a.DoRequest? && Stands(w, REQUESTING, AtStart))
    ensures Do(c, cfg, w, a).job == NextRow(w.job) && IsTruthful(c, cfg, w, a)
  {
    hide BuildReleaseAuthorization, P.TransactionOf, B.IsAllowedDestinationScript, NextRow, IsExpired, ViolatesLimits;
  }

  method PrepareRedeems(store: PublicTestnetStore, cfg: Config,
                        replies: seq<(nat, Reply<Option<Bytes32>>, Reply<Preparation>)>,
                        ghost c: Br.Chain, ghost w: World) returns (ghost w': World, ghost moves: seq<Move>)
    requires w.rows == store.rows && w.job.Idle? && |replies| >= cfg.limit
    modifies store`rows
    ensures w'.rows == store.rows && w'.job.Idle? && Leads(c, w, moves, w')
  {
    hide Do, Leads, NextRow, IsTruthful;
    var keys := store.List(PREPARING, cfg.finalizedBlock, cfg.limit);
    var rows := store.rows;
    assert forall i | 0 <= i < |keys| :: keys[i] in keys;
    var redeems := seq(|keys|, i requires 0 <= i < |keys| => rows[keys[i]]);
    w', moves := PassBegins(c, cfg, w, PREPARING, keys, redeems);
    for i := 0 to |redeems|
      invariant w'.rows == store.rows && Leads(c, w, moves, w') && w'.job == RestOf(PREPARING, redeems, i)
    {
      RestMoves(PREPARING, redeems, i);
      var (now, block, prepared) := replies[i];
      PrepareRedeem(store, cfg, redeems[i], now, block, prepared, c, w');
      ghost var a := DoPrepare(now, block, prepared);
      RowIsDone(c, cfg, w', a);
      LeadsOn(c, w, moves, w', Move(cfg, a));
      w', moves := Do(c, cfg, w', a), moves + [Move(cfg, a)];
    }
  }

  method RequestReleaseAuthorizations(store: PublicTestnetStore, cfg: Config, replies: seq<(nat, Reply<Bytes32>)>,
                                      ghost c: Br.Chain, ghost w: World)
    returns (ghost w': World, ghost moves: seq<Move>)
    requires w.rows == store.rows && w.job.Idle? && |replies| >= cfg.limit
    modifies store`rows
    ensures w'.rows == store.rows && w'.job.Idle? && Leads(c, w, moves, w')
  {
    hide Do, Leads, NextRow, IsTruthful;
    var keys := store.List(REQUESTING, cfg.finalizedBlock, cfg.limit);
    var rows := store.rows;
    assert forall i | 0 <= i < |keys| :: keys[i] in keys;
    var redeems := seq(|keys|, i requires 0 <= i < |keys| => rows[keys[i]]);
    w', moves := PassBegins(c, cfg, w, REQUESTING, keys, redeems);
    for i := 0 to |redeems|
      invariant w'.rows == store.rows && Leads(c, w, moves, w') && w'.job == RestOf(REQUESTING, redeems, i)
    {
      RestMoves(REQUESTING, redeems, i);
      RequestRelease(store, cfg, redeems[i], replies[i].0, replies[i].1, c, w');
      ghost var a := DoRequest(replies[i].0, replies[i].1);
      RowIsDone(c, cfg, w', a);
      LeadsOn(c, w, moves, w', Move(cfg, a));
      w', moves := Do(c, cfg, w', a), moves + [Move(cfg, a)];
    }
  }

  /** The four steps of an uninterrupted broadcast, as moves of a run. */
  lemma BroadcastingLeads(c: Br.Chain, cfg: Config, w: World, moves: seq<Move>, w': World, finalized: Reply<RawTx>,
                          answered: bool)
    returns (more: seq<Move>)
    requires Leads(c, w, moves, w') && Stands(w', BROADCASTING, AtStart)
    ensures Leads(c, w, more, AfterBroadcasting(c, cfg, w', finalized, answered))
    ensures AfterBroadcasting(c, cfg, w', finalized, answered).job == NextRow(w'.job)
  {
    BroadcastingLeaves(c, cfg, w', finalized, answered);
    hide Do, Leads, NextRow;
    var next := Move(cfg, Continue(answered));
    var w1 := Do(c, cfg, w', DoBroadcast(finalized));
    var w2 := Do(c, cfg, w1, Continue(answered));
    LeadsOn(c, w, moves, w', Move(cfg, DoBroadcast(finalized)));
    more := moves + [Move(cfg, DoBroadcast(finalized))];
    LeadsOn(c, w, more, w1, next);
    LeadsOn(c, w, more + [next], w2, next);
    LeadsOn(c, w, more + [next] + [next], Do(c, cfg, w2, Continue(answered)), next);
    more := more + [next] + [next] + [next];
  }

  method BroadcastBitcoinReleases(store: PublicTestnetStore, cfg: Config, replies: seq<(Reply<RawTx>, bool)>,
                                  ghost c: Br.Chain, ghost w: World)
    returns (sent: seq<RawSend>, ghost w': World, ghost moves: seq<Move>)
    requires w.rows == store.rows && w.job.Idle? && |replies| >= cfg.limit
    modifies store`rows
    ensures w'.rows == store.rows && w'.job.Idle? && w'.sends == w.sends + sent && Leads(c, w, moves, w')
  {
    hide Do, Leads, NextRow, AfterBroadcasting;
    var keys := store.List(BROADCASTING, cfg.finalizedBlock, cfg.limit);
    var rows := store.rows;
    assert forall i | 0 <= i < |keys| :: keys[i] in keys;
    var redeems := seq(|keys|, i requires 0 <= i < |keys| => rows[keys[i]]);
    sent := [];
    w', moves := PassBegins(c, cfg, w, BROADCASTING, keys, redeems);
    for i := 0 to |redeems|
      invariant w'.rows == store.rows && Leads(c, w, moves, w') && w'.job == RestOf(BROADCASTING, redeems, i)
      invariant w'.sends == w.sends + sent
    {
      RestMoves(BROADCASTING, redeems, i);
      var raw := BroadcastRelease(store, cfg, redeems[i], replies[i].0, replies[i].1, c, w');
      moves := BroadcastingLeads(c, cfg, w, moves, w', replies[i].0, replies[i].1);
      w' := AfterBroadcasting(c, cfg, w', replies[i].0, replies[i].1);
      if raw.Some? {
        sent := sent + [RawSend(redeems[i].event.requestHash, raw.value)];
      }
    }
  }

  /** The steps of a row that is settled, as moves of a run. */
  lemma SettlingLeads(c: Br.Chain, cfg: Config, w: World, moves: seq<Move>, w': World, r: SettleReplies)
    returns (more: seq<Move>)
    requires Leads(c, w, moves, w') && AreTruthful(c, cfg, w', r)
    ensures Leads(c, w, more, AfterSettling(c, cfg, w', r))
  {
    hide Do, Leads, IsTruthful, IsRun, Run, IsChain;
    LeadsAlong(c, w, moves, w', r.before);
    var w0 := Run(c, w', r.before);
    more := moves + r.before;
    LeadsOn(c, w, more, w0, Move(cfg, SettleAction(r)));
    more := more + [Move(cfg, SettleAction(r))];
    var w1 := Do(c, cfg, w0, SettleAction(r));
    ContinuesTruthfully(c, cfg, w1);
    LeadsOn(c, w, more, w1, Move(cfg, Continue(true)));
    more := more + [Move(cfg, Continue(true))];
    var w2 := Do(c, cfg, w1, Continue(true));
    LeadsAlong(c, w, more, w2, r.between);
    more := more + r.between;
    LeadsOn(c, w, more, Run(c, w2, r.between), Move(cfg, DoReceipt(r.waited)));
    more := more + [Move(cfg, DoReceipt(r.waited))];
  }

  lemma ContinuesTruthfully(c: Br.Chain, cfg: Config, w: World)
    ensures IsTruthful(c, cfg, w, Continue(true))
  {
  }

  lemma {:induction false} LeadsAlong(c: Br.Chain, w: World, moves: seq<Move>, w': World, more: seq<Move>)
    requires Leads(c, w, moves, w') && IsRun(c, w', more)
    ensures Leads(c, w, moves + more, Run(c, w', more))
    decreases |more|
  {
    hide Do, IsTruthful, Leads;
    if more == [] {
      assert moves + more == moves;
    } else {
      LeadsOn(c, w, moves, w', more[0]);
      LeadsAlong(c, w, moves + [more[0]], Do(c, more[0].config, w', more[0].action), more[1..]);
      assert moves + [more[0]] + more[1..] == moves + more;
    }
  }

  /** The world once the rows to settle are listed. */
  ghost function ListedToSettle(c: Br.Chain, cfg: Config, w: World, keys: seq<Bytes32>): World {
    if keys == [] then w else Do(c, cfg, w, List(SETTLING, keys))
  }

  /** The chain goes on between the rows, and while the process waits for receipts. */
  method SettleReleaseCallbacks(store: PublicTestnetStore, cfg: Config, replies: seq<SettleReplies>,
                                ghost c: Br.Chain, ghost w: World) returns (ghost w': World, ghost moves: seq<Move>)
    requires w.rows == store.rows && w.job.Idle? && |replies| >= 100
    requires forall keys | IsListing(store.rows, SETTLING, cfg.finalizedBlock, 100, keys) ::
      AllTruthful(c, cfg, ListedToSettle(c, cfg, w, keys), replies[..|keys|])
    modifies store`rows
    ensures w'.rows == store.rows && w'.job.Idle? && Leads(c, w, moves, w')
  {
    hide Do, Leads, NextRow, IsTruthful, AfterSettling, AreTruthful, SettleRow;
    var keys := store.List(SETTLING, cfg.finalizedBlock, 100);
    var rows := store.rows;
    assert forall i | 0 <= i < |keys| :: keys[i] in keys;
    var redeems := seq(|keys|, i requires 0 <= i < |keys| => rows[keys[i]]);
    w', moves := PassBegins(c, cfg, w, SETTLING, keys, redeems);
    assert w' == ListedToSettle(c, cfg, w, keys);
    for i := 0 to |redeems|
      invariant w'.rows == store.rows && Leads(c, w, moves, w') && w'.job == RestOf(SETTLING, redeems, i)
      invariant AllTruthful(c, cfg, w', replies[i..|keys|])
    {
      RestMoves(SETTLING, redeems, i);
      var rest := replies[i..|keys|];
      assert rest[0] == replies[i] && rest[1..] == replies[i + 1..|keys|];
      TruthfulAreChain(c, cfg, w', replies[i]);
      SettlingLeaves(c, cfg, w', replies[i]);
      SettleRelease(store, cfg, redeems[i], replies[i], c, w');
      moves := SettlingLeads(c, cfg, w, moves, w', replies[i]);
      w' := AfterSettling(c, cfg, w', replies[i]);
    }
  }

  lemma TruthfulAreChain(c: Br.Chain, cfg: Config, w: World, r: SettleReplies)
    requires AreTruthful(c, cfg, w, r)
    ensures IsChain(r.before) && IsChain(r.between)
  {
  }
}
