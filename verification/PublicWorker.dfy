/**
  The worker that carries redeems from the burn to the Bitcoin payout, with its store and the chain.

  One process handles one list of rows after another, one row at a time; between any two of its
  steps it may crash, and the chain goes on. A reply may fail to arrive although the call had its
  effect. The rows a list returns are read once and used later; that they are still current then is
  part of the invariant. A receipt or an event in a reply is there when it arrives (IsTruthful); of the
  other replies nothing is assumed, since nothing here depends on them (PublicWorkerExact asks more).
  A completion that the worker gave up on, or that anybody else sent, is an ordinary transaction.
 */
module PublicWorker {
  import opened BridgeTypes
  import opened PublicStore
  import P = SpendPlan
  import B = BurnGateway
  import Br = Bridge
  import R = BridgeRuns
  import F = FunctionsVerifier
  import S = RedeemScan

  const MAX_SAFE_INTEGER: nat := 0x1f_ffff_ffff_ffff

  datatype Custody = LOCAL_WALLET | CHAINLINK_DON

  datatype Config = Config(
    custody: Custody, maxSats: nat, maxMinerFeeSats: nat, changePolicyHash: Bytes32, authorizationTtlSeconds: nat,
    bridgeDomain: Bytes32, btcNetwork: Uint32, sourceEvmChainId: Uint64, relayer: Address,
    finalizedBlock: int, fromBlock: nat, scanBatchSize: nat, limit: nat)

  /** The list of rows to settle has a limit of its own. */
  function LimitOf(c: Config, phase: Phase): nat { if phase == SETTLING then 100 else c.limit }

  datatype Reply<+T> = Reply(value: T) | NoReply

  datatype Receipt = Receipt(ok: bool, block: nat)

  datatype Pending = Pending(known: bool, fulfilled: bool, approved: bool)

  /** What the Bitcoin wallet or the custody adapter prepared. */
  datatype Preparation = Preparation(psbt: Option<P.Psbt>, plan: P.Plan, bitcoinTx: Option<RawTx>)

  // ----- One row, given the replies -----

  datatype Effect =
    | Leave
    | Note(mark: Mark)
    | SendCompletion(tx: TxHash)
    | Finalize(raw: RawTx)
    | SendRaw(raw: RawTx)

  predicate IsExpired(row: Row, now: nat) {
    || row.event.deadline > MAX_SAFE_INTEGER || now > row.event.deadline
    || (row.authorization.Some?
        && (row.authorization.value.deadline > MAX_SAFE_INTEGER || now > row.authorization.value.deadline))
  }

  predicate ViolatesLimits(c: Config, row: Row) {
    row.event.amountSats > c.maxSats || row.event.maxMinerFeeSats > c.maxMinerFeeSats
  }

  function BuildReleaseAuthorization(c: Config, e: RedeemEvent, plan: P.Plan, now: nat): Option<ReleaseAuthorization> {
    if !P.Fits(plan) || now + c.authorizationTtlSeconds >= TWO_64 then None
    else
      var a := ReleaseAuthorization(
        c.bridgeDomain, e.requestHash, RedeemIdOf(c.bridgeDomain, e.txHash, e.logIndex, e.requestHash), c.btcNetwork,
        c.sourceEvmChainId, e.txHash, e.logIndex, e.requester, e.destinationScriptHash, e.amountSats, e.maxMinerFeeSats,
        c.changePolicyHash, P.InputsCommitment(plan.inputs), P.OutputsCommitment(plan.outputs),
        P.PsbtPolicyHash(plan, c.changePolicyHash), now, now + c.authorizationTtlSeconds);
      if P.VerifyReleaseSpendPlan(a, plan).Ok? then Some(a) else None
  }

  function PrepareRow(c: Config, row: Row, now: nat, block: Reply<Option<Bytes32>>,
                      prepared: Reply<Preparation>): Effect {
    if IsExpired(row, now) then Note(Failed)
    else if ViolatesLimits(c, row) then Note(Failed)
    else if !B.IsAllowedDestinationScript(row.event.destinationScript) then Leave
    else
      match block
      case NoReply => Leave
      case Reply(hash) =>
        if hash != Some(row.event.blockHash) then Note(Failed)
        else
          match prepared
          case NoReply => Leave
          case Reply(p) =>
            match PlanOf(c, p)
            case None => Leave
            case Some(plan) =>
              match BuildReleaseAuthorization(c, row.event, plan, now)
              case None => Leave
              case Some(a) =>
                if c.custody == LOCAL_WALLET then Note(Prepared(p.psbt, plan, a, None))
                else Note(Prepared(None, plan, a, p.bitcoinTx))
  }

  /** The wallet's plan is derived from its PSBT; the adapter's has to describe the adapter's transaction. */
  function PlanOf(c: Config, p: Preparation): Option<P.Plan> {
    if c.custody == LOCAL_WALLET then
      if p.psbt.Some? && P.ExtractPlan(p.psbt.value).Ok? then Some(P.ExtractPlan(p.psbt.value).value) else None
    else if p.bitcoinTx.Some? && p.bitcoinTx.value.parsed == Some(P.TransactionOf(p.plan)) then Some(p.plan)
    else None
  }

  function RequestRow(row: Row, now: nat, requested: Reply<Bytes32>): Effect {
    if IsExpired(row, now) then Note(Failed)
    else
      match requested
      case NoReply => Leave
      case Reply(id) => Note(Requested(id))
  }

  function SettleSubmitted(row: Row, receipt: Reply<Option<Receipt>>): Effect {
    if row.completeTx.None? then Leave
    else
      match receipt
      case NoReply => Leave
      case Reply(None) => Leave
      case Reply(Some(r)) => if r.ok then Note(Completed(row.completeTx.value, r.block)) else Note(Failed)
  }

  function SettleRow(row: Row, now: nat, receipt: Reply<Option<Receipt>>, pending: Reply<Pending>,
                     consumed: Reply<bool>,
                     event: Reply<Option<(TxHash, nat)>>, sent: Reply<TxHash>): Effect {
    if row.status == REDEEM_SUBMITTED then SettleSubmitted(row, receipt)
    else if IsExpired(row, now) then Note(Failed)
    else
      match pending
      case NoReply => Leave
      case Reply(p) =>
        if !p.known then Note(Failed)
        else if !p.fulfilled then Leave
        else if !p.approved then Note(Failed)
        else
          match consumed
          case NoReply => Leave
          case Reply(true) =>
            (match event
             case Reply(Some(found)) => Note(Completed(found.0, found.1))
             case _ => Leave)
          case Reply(false) =>
            match sent
            case NoReply => Leave
            case Reply(tx) => SendCompletion(tx)
  }

  function BroadcastRow(c: Config, row: Row, finalized: Reply<RawTx>): Effect {
    if row.bitcoinTx.Some? then SendRaw(row.bitcoinTx.value)
    else if c.custody == CHAINLINK_DON then Leave
    else if row.psbt.None? || row.authorization.None? then Leave
    else
      match P.ExtractPlan(row.psbt.value)
      case Err(_) => Leave
      case Ok(plan) =>
        if P.VerifyReleaseSpendPlan(row.authorization.value, plan).Err? then Leave
        else
          match finalized
          case NoReply => Leave
          case Reply(raw) => Finalize(raw)
  }

  /** What the process does with the row once the receipt of its completion arrives, or does not. */
  function AwaitReceipt(tx: TxHash, receipt: Reply<Receipt>): Effect {
    match receipt
    case NoReply => Leave
    case Reply(r) => if r.ok then Note(Completed(tx, r.block)) else Note(Failed)
  }

  // ----- The process -----

  /** Where the process stands with the first row of its list. */
  datatype Position =
    | AtStart
    | HasSent(tx: TxHash)
    | Awaits(tx: TxHash)
    | HasFinalized(raw: RawTx)
    | WillSend(raw: RawTx)
    | HasSentRaw(raw: RawTx)

  /** Scanning goes through the events of a batch, then moves the cursor to its end. */
  datatype Job =
    | Idle
    | Scanning(events: seq<RedeemEvent>, toBlock: int)
    | Working(phase: Phase, queue: seq<Row>, at: Position)

  datatype RawSend = RawSend(requestHash: Bytes32, raw: RawTx)

  datatype World = World(
    bridge: Br.Bridge,
    rows: Rows,
    cursor: Option<int>,
    job: Job,
    completions: map<TxHash, (ReleaseAuthorization, Attestation)>,
    receipts: map<TxHash, bool>,
    consumedEvents: set<(Bytes32, Bytes32)>,
    sends: seq<RawSend>)

  datatype Action =
    | Transact(tx: Br.Tx)
    | MineCompletion(hash: TxHash, sender: Address, blockTime: Uint64)
    | Crash
    | BeginScan(events: seq<RedeemEvent>)
    | ContinueScan
    | List(phase: Phase, keys: seq<Bytes32>)
    | DoPrepare(now: nat, block: Reply<Option<Bytes32>>, prepared: Reply<Preparation>)
    | DoRequest(now: nat, requested: Reply<Bytes32>)
    | DoSettle(now: nat, receipt: Reply<Option<Receipt>>, pending: Reply<Pending>, consumed: Reply<bool>,
               event: Reply<Option<(TxHash, nat)>>, sent: Reply<TxHash>)
    | DoReceipt(waited: Reply<Receipt>)
    | DoBroadcast(finalized: Reply<RawTx>)
    | Continue(answered: bool)

  function Head(w: World): Option<Row> {
    if w.job.Working? && w.job.queue != [] then Some(w.job.queue[0]) else None
  }

  predicate Stands(w: World, phase: Phase, at: Position) {
    Head(w).Some? && w.job.phase == phase && w.job.at == at
  }

  /** The next row, after whatever became of this one. */
  function NextRow(job: Job): (next: Job)
    ensures next.Scanning? ==> next == job
  {
    match job
    case Idle => Idle
    case Scanning(_, _) => job
    case Working(phase, queue, _) => if |queue| <= 1 then Idle else Working(phase, queue[1..], AtStart)
  }

  /** The one word that an attestation for the Functions verifier holds. */
  function ChainlinkAttestation(requestId: Bytes32): Attestation { Attestation(false, Some(requestId), None) }

  function Apply(w: World, row: Row, effect: Effect): World
    requires w.job.Working?
  {
    match effect
    case Leave => w.(job := NextRow(w.job))
    case Note(mark) => w.(rows := Update(w.rows, row.event.requestHash, mark), job := NextRow(w.job))
    case SendCompletion(tx) =>
      if row.authorization.None? || row.releaseRequestId.None? then w.(job := NextRow(w.job))
      else w.(completions := w.completions[tx := (row.authorization.value,
                                                  ChainlinkAttestation(row.releaseRequestId.value))],
              job := w.job.(at := HasSent(tx)))
    case Finalize(raw) => w.(job := w.job.(at := HasFinalized(raw)))
    case SendRaw(raw) => w.(job := w.job.(at := WillSend(raw)))
  }

  function EventsOf(c: Br.Chain, b: Br.Bridge, tx: Br.Tx): set<(Bytes32, Bytes32)> {
    if tx.call.CompleteRedeem? && Br.Try(c, b, tx).Commit?
      then {(tx.call.release.redeemRequestHash, tx.call.release.redeemId)} else {}
  }

  function CompletionTx(w: World, hash: TxHash, sender: Address, now: Uint64): Br.Tx
    requires hash in w.completions
  {
    Br.Tx(sender, now, Br.CompleteRedeem(w.completions[hash].0, w.completions[hash].1))
  }

  /** The steps between two store writes or sends; an action that does not fit changes nothing. */
  function ContinueFrom(w: World, row: Row, answered: bool): World
    requires w.job.Working?
  {
    var h := row.event.requestHash;
    match w.job.at
    case HasSent(tx) => w.(rows := Update(w.rows, h, Submitted(tx)), job := w.job.(at := Awaits(tx)))
    case HasFinalized(raw) => w.(rows := Update(w.rows, h, Finalized(raw)), job := w.job.(at := WillSend(raw)))
    case WillSend(raw) =>
      w.(sends := w.sends + [RawSend(h, raw)],
         job := if answered then w.job.(at := HasSentRaw(raw)) else NextRow(w.job))
    case HasSentRaw(raw) => w.(rows := Update(w.rows, h, Broadcast(raw)), job := NextRow(w.job))
    case _ => w
  }

  function Do(c: Br.Chain, cfg: Config, w: World, a: Action): World {
    match a
    case Transact(tx) =>
      w.(bridge := Br.Step(c, w.bridge, tx), consumedEvents := w.consumedEvents + EventsOf(c, w.bridge, tx))
    case MineCompletion(hash, sender, now) =>
      if hash !in w.completions || hash in w.receipts then w
      else
        var tx := CompletionTx(w, hash, sender, now);
        w.(bridge := Br.Step(c, w.bridge, tx), consumedEvents := w.consumedEvents + EventsOf(c, w.bridge, tx),
           receipts := w.receipts[hash := Br.Try(c, w.bridge, tx).Commit?])
    case Crash => w.(job := Idle)
    case BeginScan(events) =>
      var last := S.LastScanned(w.cursor, cfg.fromBlock);
      if w.job.Idle? && cfg.finalizedBlock >= last + 1 then
        w.(job := Scanning(events, S.BatchEnd(last, cfg.finalizedBlock, cfg.scanBatchSize)))
      else w
    case ContinueScan =>
      if !w.job.Scanning? then w
      else if w.job.events == [] then w.(cursor := Some(w.job.toBlock), job := Idle)
      else w.(rows := Upsert(w.rows, w.job.events[0]), job := Scanning(w.job.events[1..], w.job.toBlock))
    case List(phase, keys) =>
      if w.job.Idle? && keys != [] && forall h | h in keys :: h in w.rows then
        w.(job := Working(phase, seq(|keys|, i requires 0 <= i < |keys| => w.rows[keys[i]]), AtStart))
      else w
    case DoPrepare(now, block, prepared) =>
      if Stands(w, PREPARING, AtStart)
        then Apply(w, w.job.queue[0], PrepareRow(cfg, w.job.queue[0], now, block, prepared))
      else w
    case DoRequest(now, requested) =>
      if Stands(w, REQUESTING, AtStart)
        then Apply(w, w.job.queue[0], RequestRow(w.job.queue[0], now, requested))
      else w
    case DoSettle(now, receipt, pending, consumed, event, sent) =>
      if Stands(w, SETTLING, AtStart) then
        Apply(w, w.job.queue[0], SettleRow(w.job.queue[0], now, receipt, pending, consumed, event, sent))
      else w
    case DoReceipt(receipt) =>
      if Head(w).Some? && w.job.at.Awaits?
        then Apply(w, w.job.queue[0], AwaitReceipt(w.job.at.tx, receipt)) else w
    case DoBroadcast(finalized) =>
      if Stands(w, BROADCASTING, AtStart)
        then Apply(w, w.job.queue[0], BroadcastRow(cfg, w.job.queue[0], finalized))
      else w
    case Continue(answered) => if Head(w).Some? then ContinueFrom(w, w.job.queue[0], answered) else w
  }

  // ----- What the replies and the logs may say -----

  /** The gateway emitted this event: the record is there, with its request. */
  ghost predicate IsGenuine(g: B.Gateway, e: RedeemEvent) {
    && e.requestHash in g.redeemRecords
    && e.destinationScriptHash == KeccakBytes(e.destinationScript)
    && g.redeemRecords[e.requestHash].request
         == RedeemRequest(e.requester, e.destinationScriptHash, e.amountSats, e.maxMinerFeeSats, e.deadline,
                          e.requestNonce)
  }

  ghost predicate IsTruthful(c: Br.Chain, cfg: Config, w: World, a: Action) {
    match a
    case Transact(tx) => Br.IsExternal(c, w.bridge, tx)
    case MineCompletion(hash, sender, now) =>
      hash in w.completions ==> Br.IsExternal(c, w.bridge, CompletionTx(w, hash, sender, now))
    case BeginScan(events) => forall e | e in events :: IsGenuine(w.bridge.burning, e)
    case List(phase, keys) => IsListing(w.rows, phase, cfg.finalizedBlock, LimitOf(cfg, phase), keys)
    case DoSettle(_, receipt, _, _, event, sent) =>
      Head(w).Some? ==>
        var row := w.job.queue[0];
        && (receipt.Reply? && receipt.value.Some? && row.completeTx.Some? ==>
              row.completeTx.value in w.receipts && w.receipts[row.completeTx.value] == receipt.value.value.ok)
        && (event.Reply? && event.value.Some? && row.authorization.Some? ==>
              (row.event.requestHash, row.authorization.value.redeemId) in w.consumedEvents)
        && (sent.Reply? ==> sent.value !in w.completions)
    case DoReceipt(receipt) =>
      receipt.Reply? && w.job.Working? && w.job.at.Awaits? ==>
        w.job.at.tx in w.receipts && w.receipts[w.job.at.tx] == receipt.value.ok
    case _ => true
  }

  /** Configurations may change from step to step, as they do when the process restarts. */
  datatype Move = Move(config: Config, action: Action)

  function Run(c: Br.Chain, w: World, moves: seq<Move>): World
    decreases |moves|
  {
    if moves == [] then w else Run(c, Do(c, moves[0].config, w, moves[0].action), moves[1..])
  }

  ghost predicate IsRun(c: Br.Chain, w: World, moves: seq<Move>)
    decreases |moves|
  {
    moves == [] || (IsTruthful(c, moves[0].config, w, moves[0].action)
                    && IsRun(c, Do(c, moves[0].config, w, moves[0].action), moves[1..]))
  }

  /** The moves are a run from w to w'. */
  ghost predicate Leads(c: Br.Chain, w: World, moves: seq<Move>, w': World) {
    IsRun(c, w, moves) && Run(c, w, moves) == w'
  }

  lemma {:induction false} LeadsOn(c: Br.Chain, w: World, moves: seq<Move>, w': World, m: Move)
    requires Leads(c, w, moves, w') && IsTruthful(c, m.config, w', m.action)
    ensures Leads(c, w, moves + [m], Do(c, m.config, w', m.action))
    decreases |moves|
  {
    hide Do, IsTruthful;
    if moves == [] {
      var one := moves + [m];
      assert one[0] == m && one[1..] == [];
      assert IsRun(c, w, one) && Run(c, w, one) == Run(c, Do(c, m.config, w, m.action), []);
    } else {
      assert (moves + [m])[1..] == moves[1..] + [m];
      LeadsOn(c, Do(c, moves[0].config, w, moves[0].action), moves[1..], w', m);
    }
  }

  ghost predicate IsStart(c: Br.Chain, w: World) {
    && Br.IsDeployed(c, w.bridge)
    && w == World(w.bridge, map[], None, Idle, map[], map[], {}, [])
  }

  // ----- The invariant -----

  predicate IsConsumed(b: Br.Bridge, h: Bytes32) { B.StateOf(b.burning, h) == CONSUMED }

  type Completions = map<TxHash, (ReleaseAuthorization, Attestation)>

  predicate Completes(completions: Completions, t: TxHash, h: Bytes32) {
    t in completions && completions[t].0.redeemRequestHash == h
  }

  ghost predicate ChainFacts(c: Br.Chain, w: World) {
    && Br.Solvent(c, w.bridge)
    && (forall t | t in w.receipts && w.receipts[t] ::
         t in w.completions && IsConsumed(w.bridge, w.completions[t].0.redeemRequestHash))
    && (forall e | e in w.consumedEvents :: IsConsumed(w.bridge, e.0))
    && (w.job.Scanning? ==> forall e | e in w.job.events :: IsGenuine(w.bridge.burning, e))
  }

  /** The stored authorization is for this redeem and commits to the stored plan. */
  predicate AuthorizationFacts(h: Bytes32, row: Row) {
    row.authorization.Some? ==>
      var a := row.authorization.value;
      && row.spendPlan.Some? && P.VerifyReleaseSpendPlan(a, row.spendPlan.value).Ok?
      && a.redeemRequestHash == h && a.destinationScriptHash == row.event.destinationScriptHash
      && a.amountSats == row.event.amountSats && a.maxMinerFeeSats == row.event.maxMinerFeeSats
  }

  /** A stored PSBT spends just the stored plan. */
  predicate PsbtFacts(row: Row) {
    row.psbt.Some? ==> row.spendPlan.Some? && P.ExtractPlan(row.psbt.value) == P.Ok(row.spendPlan.value)
  }

  /** A transaction that came without a PSBT is the one the stored plan describes. */
  predicate FinalFacts(row: Row) {
    row.psbt.None? && row.bitcoinTx.Some? ==>
      row.spendPlan.Some? && row.bitcoinTx.value.parsed == Some(P.TransactionOf(row.spendPlan.value))
  }

  /** What a stored row says of its redeem. */
  ghost predicate RowFacts(b: Br.Bridge, completions: Completions, h: Bytes32, row: Row) {
    && row.event.requestHash == h && IsGenuine(b.burning, row.event)
    && AuthorizationFacts(h, row)
    && PsbtFacts(row) && FinalFacts(row) && (row.authorization.Some? ==> row.psbt.Some? || row.bitcoinTx.Some?)
    && (row.status in {RELEASE_REQUESTED, REDEEM_SUBMITTED, REDEEM_COMPLETED, BTC_BROADCAST}
        ==> row.authorization.Some?)
    && (row.status == REDEEM_SUBMITTED ==> row.completeTx.Some? && Completes(completions, row.completeTx.value, h))
    && (row.status in {REDEEM_COMPLETED, BTC_BROADCAST} ==> IsConsumed(b, h))
  }

  /** The row the process works on, as it was listed and as it is. */
  predicate HeadFacts(completions: Completions, listed: Row, row: Row, at: Position) {
    match at
    case AtStart => row == listed
    case HasSent(tx) => row == listed && row.status == RELEASE_REQUESTED
      && Completes(completions, tx, row.event.requestHash)
    case Awaits(tx) => row.status == REDEEM_SUBMITTED && row.completeTx == Some(tx)
    case HasFinalized(raw) => row == listed && row.status == REDEEM_COMPLETED && row.bitcoinTx.None? && row.psbt.Some?
      && PsbtFacts(row)
    case WillSend(raw) => row.status == REDEEM_COMPLETED && row.bitcoinTx == Some(raw)
    case HasSentRaw(raw) => row.status == REDEEM_COMPLETED && row.bitcoinTx == Some(raw)
  }

  /** The status and columns a list asks for. */
  predicate ListedIn(phase: Phase, row: Row) {
    match phase
    case PREPARING => row.status == OBSERVED
    case REQUESTING => row.status == RELEASE_PREPARED && row.authorization.Some?
    case SETTLING =>
      (row.status == RELEASE_REQUESTED || row.status == REDEEM_SUBMITTED)
      && row.authorization.Some? && row.releaseRequestId.Some?
    case BROADCASTING => row.status == REDEEM_COMPLETED
  }

  /** A list of rows that are as they were read. */
  predicate IsCurrent(rows: Rows, phase: Phase, queue: seq<Row>) {
    && (forall i, j | 0 <= i < j < |queue| :: queue[i].event.requestHash != queue[j].event.requestHash)
    && (forall i | 0 <= i < |queue| ::
          queue[i].event.requestHash in rows && rows[queue[i].event.requestHash] == queue[i]
          && ListedIn(phase, queue[i]))
  }

  predicate JobFacts(rows: Rows, completions: Completions, job: Job) {
    job.Working? ==>
      && job.queue != []
      && IsCurrent(rows, job.phase, job.queue[1..])
      && job.queue[0].event.requestHash in rows && ListedIn(job.phase, job.queue[0])
      && (forall i | 0 < i < |job.queue| :: job.queue[i].event.requestHash != job.queue[0].event.requestHash)
      && HeadFacts(completions, job.queue[0], rows[job.queue[0].event.requestHash], job.at)
  }

  predicate SendFacts(rows: Rows, sends: seq<RawSend>) {
    forall s | s in sends ::
      && s.requestHash in rows && rows[s.requestHash].bitcoinTx == Some(s.raw)
      && rows[s.requestHash].status in {REDEEM_COMPLETED, BTC_BROADCAST}
  }

  ghost predicate Invariant(c: Br.Chain, w: World) {
    && ChainFacts(c, w)
    && (forall h | h in w.rows :: RowFacts(w.bridge, w.completions, h, w.rows[h]))
    && JobFacts(w.rows, w.completions, w.job)
    && SendFacts(w.rows, w.sends)
  }

  // ----- The chain moves on -----

  lemma ChainMoves(c: Br.Chain, b: Br.Bridge, tx: Br.Tx)
    requires Br.Solvent(c, b) && Br.IsExternal(c, b, tx)
    ensures Br.Solvent(c, Br.Step(c, b, tx))
    ensures forall h | IsConsumed(b, h) :: IsConsumed(Br.Step(c, b, tx), h)
    ensures forall e: RedeemEvent | IsGenuine(b.burning, e) :: IsGenuine(Br.Step(c, b, tx).burning, e)
  {
    hide Br.Step, B.OnceOnly, Br.MintsAreBacked;
    Br.StepIsSolvent(c, b, tx);
    R.StepSettles(c, b, tx);
  }

  /** The event of a completion means that the record is consumed. */
  lemma EventMeansConsumed(c: Br.Chain, b: Br.Bridge, tx: Br.Tx)
    requires tx.call.CompleteRedeem? && Br.Try(c, b, tx).Commit?
    ensures IsConsumed(Br.Step(c, b, tx), tx.call.release.redeemRequestHash)
  {
    hide Br.VerifyRelease, RedeemIdOf;
  }

  lemma TransactKeeps(c: Br.Chain, w: World, tx: Br.Tx, receipts: map<TxHash, bool>)
    requires Invariant(c, w) && Br.IsExternal(c, w.bridge, tx)
    requires forall t | t in receipts && receipts[t] ::
      t in w.completions && ((t in w.receipts && w.receipts[t])
        || (tx.call == Br.CompleteRedeem(w.completions[t].0, w.completions[t].1) && Br.Try(c, w.bridge, tx).Commit?))
    ensures Invariant(c, w.(bridge := Br.Step(c, w.bridge, tx), receipts := receipts,
                            consumedEvents := w.consumedEvents + EventsOf(c, w.bridge, tx)))
  {
    hide Br.Step, Br.Try, Br.Solvent, JobFacts, SendFacts, IsGenuine, AuthorizationFacts, PsbtFacts, FinalFacts,
      IsConsumed;
    ChainMoves(c, w.bridge, tx);
    if tx.call.CompleteRedeem? && Br.Try(c, w.bridge, tx).Commit? {
      EventMeansConsumed(c, w.bridge, tx);
    }
  }

  // ----- The process moves on -----

  lemma NextRowIsCurrent(rows: Rows, completions: Completions, job: Job)
    requires job.Working? && job.queue != [] && IsCurrent(rows, job.phase, job.queue[1..])
    ensures JobFacts(rows, completions, NextRow(job))
  {
    if |job.queue| > 1 {
      var rest := job.queue[1..];
      assert rest[0].event.requestHash in rows;
      forall i | 0 <= i < |rest[1..]| ensures rest[1..][i] == rest[i + 1] {
      }
    }
  }

  lemma StillCurrent(rows: Rows, h: Bytes32, row: Row, phase: Phase, queue: seq<Row>)
    requires IsCurrent(rows, phase, queue) && forall i | 0 <= i < |queue| :: queue[i].event.requestHash != h
    ensures IsCurrent(rows[h := row], phase, queue)
  {
  }

  /** A new content of the row in hand, and where the process then stands. */
  ghost predicate CanWrite(w: World, row: Row, job: Job) {
    && w.job.Working? && w.job.queue != []
    && var h := w.job.queue[0].event.requestHash;
       && RowFacts(w.bridge, w.completions, h, row)
       && (forall s | s in w.sends && s.requestHash == h ::
            row.bitcoinTx == Some(s.raw) && row.status in {REDEEM_COMPLETED, BTC_BROADCAST})
       && (job == NextRow(w.job)
           || (job.Working? && job == w.job.(at := job.at) && HeadFacts(w.completions, w.job.queue[0], row, job.at)))
  }

  function Written(w: World, row: Row, job: Job): World
    requires w.job.Working? && w.job.queue != []
  {
    w.(rows := w.rows[w.job.queue[0].event.requestHash := row], job := job)
  }

  lemma WriteKeeps(c: Br.Chain, w: World, row: Row, job: Job)
    requires CanWrite(w, row, job) && Invariant(c, w)
    ensures Invariant(c, Written(w, row, job))
  {
    hide ChainFacts, RowFacts, HeadFacts, NextRow, IsCurrent, ListedIn;
    var (queue, h) := (w.job.queue, w.job.queue[0].event.requestHash);
    forall i | 0 <= i < |queue[1..]| ensures queue[1..][i].event.requestHash != h {
      assert queue[1..][i] == queue[i + 1];
    }
    StillCurrent(w.rows, h, row, w.job.phase, queue[1..]);
    NextRowIsCurrent(w.rows[h := row], w.completions, w.job);
    SameChain(c, w, Written(w, row, job));
  }

  lemma SameChain(c: Br.Chain, w: World, w': World)
    requires ChainFacts(c, w) && w'.bridge == w.bridge && w'.completions == w.completions
    requires w'.receipts == w.receipts && w'.consumedEvents == w.consumedEvents
    requires w'.job.Scanning? ==> w.job.Scanning? && forall e | e in w'.job.events :: e in w.job.events
    ensures ChainFacts(c, w')
  {
  }

  lemma SkipKeeps(c: Br.Chain, w: World)
    requires Invariant(c, w) && w.job.Working?
    ensures Invariant(c, w.(job := NextRow(w.job)))
  {
    hide ChainFacts, RowFacts, HeadFacts, NextRow, IsCurrent, ListedIn, SendFacts;
    NextRowIsCurrent(w.rows, w.completions, w.job);
    SameChain(c, w, w.(job := NextRow(w.job)));
  }

  // ----- Each step keeps the invariant -----

  /** The row in hand, as it is in the store. */
  function Current(w: World): Row
    requires Head(w).Some? && w.job.queue[0].event.requestHash in w.rows
  {
    w.rows[w.job.queue[0].event.requestHash]
  }

  ghost predicate InHand(c: Br.Chain, w: World) {
    Invariant(c, w) && Head(w).Some? && w.job.queue[0].event.requestHash in w.rows
  }

  lemma IsInHand(c: Br.Chain, w: World)
    requires Invariant(c, w) && Head(w).Some?
    ensures InHand(c, w)
    ensures RowFacts(w.bridge, w.completions, w.job.queue[0].event.requestHash, Current(w))
    ensures HeadFacts(w.completions, w.job.queue[0], Current(w), w.job.at) && ListedIn(w.job.phase, w.job.queue[0])
  {
    hide ChainFacts, RowFacts, HeadFacts, IsCurrent, ListedIn, SendFacts;
  }

  /** Before completion, nothing has been sent for a row. */
  lemma NothingSent(c: Br.Chain, w: World, s: RawSend)
    requires InHand(c, w) && s in w.sends && s.requestHash == w.job.queue[0].event.requestHash
    ensures Current(w).status in {REDEEM_COMPLETED, BTC_BROADCAST} && Current(w).bitcoinTx == Some(s.raw)
  {
    hide ChainFacts, RowFacts, JobFacts;
  }

  lemma MarkKeeps(c: Br.Chain, w: World, m: Mark, job: Job)
    requires InHand(c, w) && CanWrite(w, Marked(Current(w), m), job)
    ensures Invariant(c, w.(rows := Update(w.rows, w.job.queue[0].event.requestHash, m), job := job))
  {
    hide Invariant, CanWrite, Marked;
    WriteKeeps(c, w, Marked(Current(w), m), job);
  }

  lemma FailKeeps(c: Br.Chain, w: World)
    requires InHand(c, w) && Current(w).status !in {REDEEM_COMPLETED, BTC_BROADCAST}
    requires RowFacts(w.bridge, w.completions, w.job.queue[0].event.requestHash, Current(w))
    ensures Invariant(c, w.(rows := Update(w.rows, w.job.queue[0].event.requestHash, Failed), job := NextRow(w.job)))
  {
    hide Invariant, IsGenuine, AuthorizationFacts, PsbtFacts, FinalFacts, NextRow, HeadFacts;
    forall s | s in w.sends && s.requestHash == w.job.queue[0].event.requestHash ensures false {
      NothingSent(c, w, s);
    }
    AuthorizationStays(w.job.queue[0].event.requestHash, Current(w), Marked(Current(w), Failed));
    MarkKeeps(c, w, Failed, NextRow(w.job));
  }

  lemma AuthorizationStays(h: Bytes32, row: Row, row': Row)
    requires AuthorizationFacts(h, row)
    requires row'.authorization == row.authorization && row'.spendPlan == row.spendPlan && row'.event == row.event
    requires row'.psbt == row.psbt
    ensures AuthorizationFacts(h, row') && (PsbtFacts(row') <==> PsbtFacts(row))
    ensures row'.bitcoinTx == row.bitcoinTx ==> (FinalFacts(row') <==> FinalFacts(row))
    ensures row.psbt.Some? ==> FinalFacts(row')
  {
    hide P.VerifyReleaseSpendPlan, P.ExtractPlan;
  }

  lemma BuiltIsForPlan(cfg: Config, e: RedeemEvent, plan: P.Plan, now: nat, row: Row)
    requires BuildReleaseAuthorization(cfg, e, plan, now).Some? && row.event == e && row.spendPlan == Some(plan)
    requires row.authorization == BuildReleaseAuthorization(cfg, e, plan, now)
    ensures AuthorizationFacts(e.requestHash, row)
  {
    hide P.VerifyReleaseSpendPlan, P.Fits, P.InputsCommitment, P.OutputsCommitment, P.PsbtPolicyHash, RedeemIdOf;
  }

  lemma PreparedFacts(cfg: Config, row: Row, p: Preparation, plan: P.Plan, a: ReleaseAuthorization)
    requires PlanOf(cfg, p) == Some(plan)
    ensures var m := if cfg.custody == LOCAL_WALLET then Prepared(p.psbt, plan, a, None)
      else Prepared(None, plan, a, p.bitcoinTx);
      var row' := Marked(row, m);
      FinalFacts(row') && PsbtFacts(row') && (row'.psbt.Some? || row'.bitcoinTx.Some?)
  {
    hide P.ExtractPlan, P.TransactionOf;
  }

  lemma PrepareKeeps(c: Br.Chain, cfg: Config, w: World, now: nat, block: Reply<Option<Bytes32>>,
                     prepared: Reply<Preparation>)
    requires Invariant(c, w) && Stands(w, PREPARING, AtStart)
    ensures Invariant(c, Do(c, cfg, w, DoPrepare(now, block, prepared)))
  {
    hide Invariant, IsGenuine, AuthorizationFacts, PsbtFacts, FinalFacts, NextRow, IsExpired, ViolatesLimits,
      BuildReleaseAuthorization;
    IsInHand(c, w);
    var row := w.job.queue[0];
    match PrepareRow(cfg, row, now, block, prepared) {
      case Note(Failed) => FailKeeps(c, w);
      case Note(Prepared(psbt, plan, a, raw)) =>
        var m := Prepared(psbt, plan, a, raw);
        forall s | s in w.sends && s.requestHash == row.event.requestHash ensures false {
          NothingSent(c, w, s);
        }
        BuiltIsForPlan(cfg, row.event, plan, now, Marked(row, m));
        PreparedFacts(cfg, row, prepared.value, plan, a);
        MarkKeeps(c, w, m, NextRow(w.job));
      case Leave => SkipKeeps(c, w);
      case _ =>
    }
  }

  lemma RequestKeeps(c: Br.Chain, cfg: Config, w: World, now: nat, requested: Reply<Bytes32>)
    requires Invariant(c, w) && Stands(w, REQUESTING, AtStart)
    ensures Invariant(c, Do(c, cfg, w, DoRequest(now, requested)))
  {
    hide Invariant, IsGenuine, AuthorizationFacts, PsbtFacts, FinalFacts, NextRow, IsExpired;
    IsInHand(c, w);
    var row := w.job.queue[0];
    match RequestRow(row, now, requested) {
      case Note(Failed) => FailKeeps(c, w);
      case Note(Requested(id)) =>
        forall s | s in w.sends && s.requestHash == row.event.requestHash ensures false {
          NothingSent(c, w, s);
        }
        AuthorizationStays(row.event.requestHash, row, Marked(row, Requested(id)));
        MarkKeeps(c, w, Requested(id), NextRow(w.job));
      case Leave => SkipKeeps(c, w);
      case _ =>
    }
  }

  lemma CompleteKeeps(c: Br.Chain, w: World, tx: TxHash, block: nat)
    requires InHand(c, w) && Current(w).status !in {REDEEM_COMPLETED, BTC_BROADCAST} && Current(w).authorization.Some?
    requires RowFacts(w.bridge, w.completions, w.job.queue[0].event.requestHash, Current(w))
    requires IsConsumed(w.bridge, w.job.queue[0].event.requestHash)
    ensures Invariant(c, w.(rows := Update(w.rows, w.job.queue[0].event.requestHash, Completed(tx, block)),
                            job := NextRow(w.job)))
  {
    hide Invariant, IsGenuine, AuthorizationFacts, PsbtFacts, FinalFacts, NextRow, HeadFacts, IsConsumed;
    forall s | s in w.sends && s.requestHash == w.job.queue[0].event.requestHash ensures false {
      NothingSent(c, w, s);
    }
    AuthorizationStays(w.job.queue[0].event.requestHash, Current(w), Marked(Current(w), Completed(tx, block)));
    MarkKeeps(c, w, Completed(tx, block), NextRow(w.job));
  }

  lemma ReceiptMeansConsumed(c: Br.Chain, w: World, tx: TxHash, h: Bytes32)
    requires Invariant(c, w) && tx in w.receipts && w.receipts[tx] && Completes(w.completions, tx, h)
    ensures IsConsumed(w.bridge, h)
  {
    hide RowFacts, JobFacts, SendFacts, Br.Solvent;
  }

  lemma EventMeansIsConsumed(c: Br.Chain, w: World, e: (Bytes32, Bytes32))
    requires Invariant(c, w) && e in w.consumedEvents
    ensures IsConsumed(w.bridge, e.0)
  {
    hide RowFacts, JobFacts, SendFacts, Br.Solvent;
  }

  lemma ReceiptKeeps(c: Br.Chain, cfg: Config, w: World, waited: Reply<Receipt>)
    requires Invariant(c, w) && Head(w).Some? && w.job.at.Awaits? && IsTruthful(c, cfg, w, DoReceipt(waited))
    ensures Invariant(c, Do(c, cfg, w, DoReceipt(waited)))
  {
    hide Invariant, IsGenuine, AuthorizationFacts, PsbtFacts, FinalFacts, NextRow, ListedIn, IsConsumed;
    IsInHand(c, w);
    match waited {
      case NoReply => SkipKeeps(c, w);
      case Reply(r) =>
        if r.ok {
          ReceiptMeansConsumed(c, w, w.job.at.tx, w.job.queue[0].event.requestHash);
          CompleteKeeps(c, w, w.job.at.tx, r.block);
        } else {
          FailKeeps(c, w);
        }
    }
  }

  /** A completion with a new hash joins the others. */
  lemma SendKeeps(c: Br.Chain, w: World, tx: TxHash, attestation: Attestation)
    requires InHand(c, w) && tx !in w.completions && w.job.at == AtStart
    requires Current(w) == w.job.queue[0] && Current(w).status == RELEASE_REQUESTED && Current(w).authorization.Some?
    requires Current(w).authorization.value.redeemRequestHash == w.job.queue[0].event.requestHash
    ensures Invariant(c, w.(completions := w.completions[tx := (w.job.queue[0].authorization.value, attestation)],
                            job := w.job.(at := HasSent(tx))))
  {
    hide Br.Solvent, IsGenuine, AuthorizationFacts, PsbtFacts, FinalFacts, IsCurrent, IsConsumed, SendFacts, ListedIn;
  }

  lemma SettleKeeps(c: Br.Chain, cfg: Config, w: World, now: nat, receipt: Reply<Option<Receipt>>,
                    pending: Reply<Pending>,
                    consumed: Reply<bool>, event: Reply<Option<(TxHash, nat)>>, sent: Reply<TxHash>)
    requires Invariant(c, w) && Stands(w, SETTLING, AtStart)
    requires IsTruthful(c, cfg, w, DoSettle(now, receipt, pending, consumed, event, sent))
    ensures Invariant(c, Do(c, cfg, w, DoSettle(now, receipt, pending, consumed, event, sent)))
  {
    hide Invariant, IsGenuine, PsbtFacts, FinalFacts, NextRow, IsExpired, IsConsumed, P.VerifyReleaseSpendPlan;
    IsInHand(c, w);
    var row := w.job.queue[0];
    match SettleRow(row, now, receipt, pending, consumed, event, sent) {
      case Note(Failed) => FailKeeps(c, w);
      case Note(Completed(tx, block)) =>
        if row.status == REDEEM_SUBMITTED {
          ReceiptMeansConsumed(c, w, row.completeTx.value, row.event.requestHash);
        } else {
          EventMeansIsConsumed(c, w, (row.event.requestHash, row.authorization.value.redeemId));
        }
        CompleteKeeps(c, w, tx, block);
      case SendCompletion(tx) => SendKeeps(c, w, tx, ChainlinkAttestation(row.releaseRequestId.value));
      case Leave => SkipKeeps(c, w);
      case _ =>
    }
  }

  /** The process goes on with the row without writing it. */
  lemma StayKeeps(c: Br.Chain, w: World, at: Position)
    requires InHand(c, w) && HeadFacts(w.completions, w.job.queue[0], Current(w), at)
    ensures Invariant(c, w.(job := w.job.(at := at)))
  {
    hide ChainFacts, RowFacts, HeadFacts, IsCurrent, ListedIn, SendFacts;
    SameChain(c, w, w.(job := w.job.(at := at)));
  }

  lemma BroadcastKeeps(c: Br.Chain, cfg: Config, w: World, finalized: Reply<RawTx>)
    requires Invariant(c, w) && Stands(w, BROADCASTING, AtStart)
    ensures Invariant(c, Do(c, cfg, w, DoBroadcast(finalized)))
  {
    hide Invariant, IsGenuine, IsConsumed, NextRow, P.VerifyReleaseSpendPlan, P.ExtractPlan;
    IsInHand(c, w);
    var row := w.job.queue[0];
    match BroadcastRow(cfg, row, finalized) {
      case SendRaw(raw) => StayKeeps(c, w, WillSend(raw));
      case Finalize(raw) =>
        P.PlanIsDetermined(row.authorization.value, P.ExtractPlan(row.psbt.value).value, row.spendPlan.value);
        StayKeeps(c, w, HasFinalized(raw));
      case _ => SkipKeeps(c, w);
    }
  }

  lemma ContinueKeeps(c: Br.Chain, cfg: Config, w: World, answered: bool)
    requires Invariant(c, w) && Head(w).Some?
    ensures Invariant(c, Do(c, cfg, w, Continue(answered)))
  {
    hide Invariant, IsGenuine, AuthorizationFacts, PsbtFacts, FinalFacts, NextRow, ListedIn, IsConsumed;
    IsInHand(c, w);
    var h := w.job.queue[0].event.requestHash;
    match w.job.at {
      case HasSent(tx) =>
        forall s | s in w.sends && s.requestHash == h ensures false {
          NothingSent(c, w, s);
        }
        AuthorizationStays(h, Current(w), Marked(Current(w), Submitted(tx)));
        MarkKeeps(c, w, Submitted(tx), w.job.(at := Awaits(tx)));
      case HasFinalized(raw) =>
        forall s | s in w.sends && s.requestHash == h ensures false {
          NothingSent(c, w, s);
        }
        AuthorizationStays(h, Current(w), Marked(Current(w), Finalized(raw)));
        MarkKeeps(c, w, Finalized(raw), w.job.(at := WillSend(raw)));
      case WillSend(raw) =>
        RawSendKeeps(c, w, raw);
        var w' := w.(sends := w.sends + [RawSend(h, raw)]);
        IsInHand(c, w');
        if answered {
          StayKeeps(c, w', HasSentRaw(raw));
        } else {
          SkipKeeps(c, w');
        }
      case HasSentRaw(raw) =>
        forall s | s in w.sends && s.requestHash == h ensures s.raw == raw {
          NothingSent(c, w, s);
        }
        AuthorizationStays(h, Current(w), Marked(Current(w), Broadcast(raw)));
        MarkKeeps(c, w, Broadcast(raw), NextRow(w.job));
      case _ =>
    }
  }

  /** A raw transaction is sent only for a completed row that holds it. */
  lemma RawSendKeeps(c: Br.Chain, w: World, raw: RawTx)
    requires InHand(c, w) && Current(w).status == REDEEM_COMPLETED && Current(w).bitcoinTx == Some(raw)
    ensures Invariant(c, w.(sends := w.sends + [RawSend(w.job.queue[0].event.requestHash, raw)]))
  {
    hide ChainFacts, RowFacts, JobFacts;
    SameChain(c, w, w.(sends := w.sends + [RawSend(w.job.queue[0].event.requestHash, raw)]));
  }

  lemma SameRequest(b: Br.Bridge, e: RedeemEvent, f: RedeemEvent)
    requires IsGenuine(b.burning, e) && IsGenuine(b.burning, f) && e.requestHash == f.requestHash
    ensures e.destinationScriptHash == f.destinationScriptHash && e.amountSats == f.amountSats
      && e.maxMinerFeeSats == f.maxMinerFeeSats
  {
  }

  lemma ObservedFacts(w: World, e: RedeemEvent)
    requires IsGenuine(w.bridge.burning, e)
    requires e.requestHash in w.rows ==> RowFacts(w.bridge, w.completions, e.requestHash, w.rows[e.requestHash])
    ensures RowFacts(w.bridge, w.completions, e.requestHash, Upsert(w.rows, e)[e.requestHash])
  {
    hide IsGenuine, P.VerifyReleaseSpendPlan, P.ExtractPlan, IsConsumed, Completes;
    if e.requestHash in w.rows {
      SameRequest(w.bridge, e, w.rows[e.requestHash].event);
    }
  }

  lemma BeginScanKeeps(c: Br.Chain, cfg: Config, w: World, events: seq<RedeemEvent>)
    requires Invariant(c, w) && w.job.Idle? && forall e | e in events :: IsGenuine(w.bridge.burning, e)
    ensures Invariant(c, Do(c, cfg, w, BeginScan(events)))
  {
    hide RowFacts, IsGenuine, SendFacts, Br.Solvent, IsConsumed;
  }

  /** Seeing a burn, again or for the first time, changes no status, and no event column that matters. */
  lemma ContinueScanKeeps(c: Br.Chain, cfg: Config, w: World)
    requires Invariant(c, w) && w.job.Scanning?
    ensures Invariant(c, Do(c, cfg, w, ContinueScan))
  {
    hide RowFacts, IsGenuine, Br.Solvent, IsConsumed;
    if w.job.events != [] {
      var e := w.job.events[0];
      assert e in w.job.events;
      ObservedFacts(w, e);
      assert forall f | f in w.job.events[1..] :: f in w.job.events;
    }
  }

  lemma ListedIsCurrent(rows: Rows, phase: Phase, finalizedBlock: int, limit: nat, keys: seq<Bytes32>, queue: seq<Row>)
    requires IsListing(rows, phase, finalizedBlock, limit, keys) && keys != [] && |queue| == |keys|
    requires forall i | 0 <= i < |keys| ::
      keys[i] in rows && queue[i] == rows[keys[i]] && queue[i].event.requestHash == keys[i]
    ensures JobFacts(rows, map[], Working(phase, queue, AtStart))
  {
    forall i | 0 <= i < |keys| ensures ListedIn(phase, queue[i]) {
      assert keys[i] in keys;
    }
  }

  lemma StartsAnywhere(rows: Rows, completions: Completions, phase: Phase, queue: seq<Row>)
    requires JobFacts(rows, map[], Working(phase, queue, AtStart))
    ensures JobFacts(rows, completions, Working(phase, queue, AtStart))
  {
    hide IsCurrent, ListedIn;
  }

  lemma ListKeeps(c: Br.Chain, cfg: Config, w: World, phase: Phase, keys: seq<Bytes32>)
    requires Invariant(c, w) && w.job.Idle? && keys != []
      && IsListing(w.rows, phase, cfg.finalizedBlock, LimitOf(cfg, phase), keys)
    ensures Invariant(c, Do(c, cfg, w, List(phase, keys)))
  {
    hide ChainFacts, SendFacts, AuthorizationFacts, PsbtFacts, FinalFacts, IsConsumed, IsGenuine, JobFacts, Eligible;
    var w' := Do(c, cfg, w, List(phase, keys));
    assert w'.job == Working(phase, seq(|keys|, i requires 0 <= i < |keys| => w.rows[keys[i]]), AtStart);
    var queue := w'.job.queue;
    forall i | 0 <= i < |keys| ensures keys[i] in w.rows && queue[i].event.requestHash == keys[i] {
      assert keys[i] in keys;
    }
    ListedIsCurrent(w.rows, phase, cfg.finalizedBlock, LimitOf(cfg, phase), keys, queue);
    StartsAnywhere(w.rows, w.completions, phase, queue);
    SameChain(c, w, w');
  }

  // ----- Whole runs -----

  lemma StepKeeps(c: Br.Chain, cfg: Config, w: World, a: Action)
    requires Invariant(c, w) && IsTruthful(c, cfg, w, a)
    ensures Invariant(c, Do(c, cfg, w, a))
  {
    hide Invariant, IsListing, IsGenuine, Br.IsExternal, Apply, ContinueFrom, Upsert, EventsOf;
    match a {
      case Transact(tx) =>
        ReceiptsAreSent(c, w);
        TransactKeeps(c, w, tx, w.receipts);
      case MineCompletion(hash, sender, blockTime) =>
        if hash in w.completions && hash !in w.receipts {
          ReceiptsAreSent(c, w);
          var tx := CompletionTx(w, hash, sender, blockTime);
          TransactKeeps(c, w, tx, w.receipts[hash := Br.Try(c, w.bridge, tx).Commit?]);
        }
      case Crash => CrashKeeps(c, w);
      case BeginScan(events) =>
        if w.job.Idle? {
          BeginScanKeeps(c, cfg, w, events);
        }
      case ContinueScan =>
        if w.job.Scanning? {
          ContinueScanKeeps(c, cfg, w);
        }
      case List(phase, keys) =>
        if w.job.Idle? && keys != [] {
          ListKeeps(c, cfg, w, phase, keys);
        }
      case DoPrepare(now, block, prepared) =>
        if Stands(w, PREPARING, AtStart) {
          PrepareKeeps(c, cfg, w, now, block, prepared);
        }
      case DoRequest(now, requested) =>
        if Stands(w, REQUESTING, AtStart) {
          RequestKeeps(c, cfg, w, now, requested);
        }
      case DoSettle(now, receipt, pending, consumed, event, sent) =>
        if Stands(w, SETTLING, AtStart) {
          SettleKeeps(c, cfg, w, now, receipt, pending, consumed, event, sent);
        }
      case DoReceipt(waited) =>
        if Head(w).Some? && w.job.at.Awaits? {
          ReceiptKeeps(c, cfg, w, waited);
        }
      case DoBroadcast(finalized) =>
        if Stands(w, BROADCASTING, AtStart) {
          BroadcastKeeps(c, cfg, w, finalized);
        }
      case Continue(answered) =>
        if Head(w).Some? {
          ContinueKeeps(c, cfg, w, answered);
        }
    }
  }

  lemma ReceiptsAreSent(c: Br.Chain, w: World)
    requires Invariant(c, w)
    ensures forall t | t in w.receipts && w.receipts[t] :: t in w.completions
  {
    hide RowFacts, JobFacts, SendFacts, Br.Solvent, IsConsumed;
  }

  lemma CrashKeeps(c: Br.Chain, w: World)
    requires Invariant(c, w)
    ensures Invariant(c, w.(job := Idle))
  {
    hide ChainFacts, RowFacts, SendFacts;
    SameChain(c, w, w.(job := Idle));
  }

  lemma {:induction false} RunKeeps(c: Br.Chain, w: World, moves: seq<Move>)
    requires Invariant(c, w) && IsRun(c, w, moves)
    ensures Invariant(c, Run(c, w, moves))
    decreases |moves|
  {
    hide Invariant, Do, IsTruthful;
    if moves != [] {
      StepKeeps(c, moves[0].config, w, moves[0].action);
      RunKeeps(c, Do(c, moves[0].config, w, moves[0].action), moves[1..]);
    }
  }

  lemma StartHolds(c: Br.Chain, w: World)
    requires IsStart(c, w)
    ensures Invariant(c, w)
  {
    hide Br.Solvent, Br.IsDeployed;
    Br.DeployedIsSolvent(c, w.bridge);
  }
}
