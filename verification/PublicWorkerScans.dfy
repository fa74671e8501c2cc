/**
  Scanning as part of the worker: no burn below the cursor is missed in any run of the process, its
  store and the chain, crashes included (NoBurnIsMissed); and one call of the scan loop is a run of
  the machine (ScanRedeemsIsARun).
 */
module PublicWorkerScans {
  import opened BridgeTypes
  import opened PublicStore
  import opened PublicWorker
  import opened RedeemScan
  import Br = Bridge

  // ----- Coverage over runs -----

  /** A batch that is read has all the events of its blocks. */
  predicate ReadsFrom(chain: Blocks, fromBlock: nat, w: World, m: Move) {
    var last := LastScanned(w.cursor, fromBlock);
    m.action.BeginScan? && w.job.Idle? && last >= -1 ==>
      && m.config.fromBlock == fromBlock
      && m.action.events == EventsIn(chain, last + 1, BatchEnd(last, m.config.finalizedBlock, m.config.scanBatchSize))
  }

  ghost predicate AllReadFrom(c: Br.Chain, chain: Blocks, fromBlock: nat, w: World, moves: seq<Move>)
    decreases |moves|
  {
    moves == []
    || (ReadsFrom(chain, fromBlock, w, moves[0])
        && AllReadFrom(c, chain, fromBlock, Do(c, moves[0].config, w, moves[0].action), moves[1..]))
  }

  /** What is below the cursor has rows; what a scan has read and not yet stored is still in its hands. */
  ghost predicate Scanned(chain: Blocks, fromBlock: nat, w: World) {
    && Covers(chain, fromBlock, w.rows, w.cursor)
    && (w.job.Scanning? ==>
          && w.job.toBlock >= LastScanned(w.cursor, fromBlock)
          && forall n: nat, e | fromBlock <= n <= w.job.toBlock && e in chain(n) ::
               e.requestHash in w.rows || e in w.job.events)
  }

  lemma RowsGrow(c: Br.Chain, cfg: Config, w: World, a: Action)
    ensures forall h | h in w.rows :: h in Do(c, cfg, w, a).rows
    ensures !a.BeginScan? && !a.ContinueScan? ==>
      Do(c, cfg, w, a).cursor == w.cursor && (Do(c, cfg, w, a).job.Scanning? ==> Do(c, cfg, w, a).job == w.job)
  {
    hide Br.Step, Br.Try, PrepareRow, RequestRow, SettleRow, BroadcastRow, AwaitReceipt, Marked;
  }

  lemma StepScans(c: Br.Chain, chain: Blocks, fromBlock: nat, w: World, m: Move)
    requires Scanned(chain, fromBlock, w) && ReadsFrom(chain, fromBlock, w, m)
    ensures Scanned(chain, fromBlock, Do(c, m.config, w, m.action))
  {
    RowsGrow(c, m.config, w, m.action);
    var (last, w') := (LastScanned(w.cursor, fromBlock), Do(c, m.config, w, m.action));
    match m.action {
      case BeginScan(events) =>
        hide EventsIn;
        if w.job.Idle? && w'.job.Scanning? {
          forall n: nat, e | fromBlock <= n <= w'.job.toBlock && e in chain(n)
            ensures e.requestHash in w'.rows || e in w'.job.events {
            if n > last {
              EventIsRead(chain, last + 1, w'.job.toBlock, n, e);
            }
          }
        }
      case ContinueScan =>
        if w.job.Scanning? && w.job.events != [] {
          assert forall e | e in w.job.events :: e == w.job.events[0] || e in w.job.events[1..];
        }
      case _ =>
        hide Do;
    }
  }

  lemma {:induction false} RunScans(c: Br.Chain, chain: Blocks, fromBlock: nat, w: World, moves: seq<Move>)
    requires Scanned(chain, fromBlock, w) && AllReadFrom(c, chain, fromBlock, w, moves)
    ensures Scanned(chain, fromBlock, Run(c, w, moves))
    decreases |moves|
  {
    hide Do, Scanned, ReadsFrom;
    if moves != [] {
      StepScans(c, chain, fromBlock, w, moves[0]);
      RunScans(c, chain, fromBlock, Do(c, moves[0].config, w, moves[0].action), moves[1..]);
    }
  }

  /**
    In every run from the start, wherever the process crashes and whatever else it does, each event of
    the blocks from the first one up to the cursor has a row.
   */
  lemma NoBurnIsMissed(c: Br.Chain, chain: Blocks, fromBlock: nat, w: World, moves: seq<Move>, n: nat, e: RedeemEvent)
    requires IsStart(c, w) && AllReadFrom(c, chain, fromBlock, w, moves)
    requires fromBlock <= n <= LastScanned(Run(c, w, moves).cursor, fromBlock) && e in chain(n)
    ensures e.requestHash in Run(c, w, moves).rows
  {
    hide Run, AllReadFrom, Br.IsDeployed;
    assert Scanned(chain, fromBlock, w);
    RunScans(c, chain, fromBlock, w, moves);
  }

  // ----- One scan is a run -----

  predicate IsConfiguredFor(cfg: Config, s: Scan) {
    && cfg.fromBlock == s.fromBlock && cfg.scanBatchSize == s.batchSize && cfg.finalizedBlock == FinalizedBlock(s)
  }

  lemma ContinuesScan(c: Br.Chain, cfg: Config, w: World)
    ensures IsTruthful(c, cfg, w, ContinueScan) && IsTruthful(c, cfg, w, Crash)
  {
  }

  /** The first k events of the batch are stored one by one. */
  lemma {:induction false} Stores(c: Br.Chain, cfg: Config, w: World, moves: seq<Move>, w0: World,
                                  events: seq<RedeemEvent>,
                                  to: int, k: nat) returns (more: seq<Move>)
    requires k <= |events| && w0.job == Scanning(events, to) && Leads(c, w, moves, w0)
    ensures Leads(c, w, more, w0.(rows := UpsertAll(w0.rows, events[..k]), job := Scanning(events[k..], to)))
    decreases k
  {
    hide Leads, Upsert, IsTruthful;
    if k == 0 {
      more := moves;
      assert events[0..] == events && events[..0] == [];
    } else {
      more := Stores(c, cfg, w, moves, w0, events, to, k - 1);
      var w1 := w0.(rows := UpsertAll(w0.rows, events[..k - 1]), job := Scanning(events[k - 1..], to));
      ContinuesScan(c, cfg, w1);
      LeadsOn(c, w, more, w1, Move(cfg, ContinueScan));
      more := more + [Move(cfg, ContinueScan)];
      assert events[..k][..k - 1] == events[..k - 1] && events[k - 1..][1..] == events[k..];
    }
  }

  lemma ScanRedeemsIsARun(c: Br.Chain, cfg: Config, w: World, chain: Blocks, s: Scan) returns (moves: seq<Move>)
    requires w.job.Idle? && IsScan(s, w.cursor) && IsConfiguredFor(cfg, s)
    requires var last := LastScanned(w.cursor, s.fromBlock);
      forall e | e in EventsIn(chain, last + 1, BatchEnd(last, FinalizedBlock(s), s.batchSize)) ::
        IsGenuine(w.bridge.burning, e)
    ensures var (rows, cursor) := ScanOnce(chain, w.rows, w.cursor, s);
      Leads(c, w, moves, w.(rows := rows, cursor := cursor))
  {
    hide EventsIn, Upsert, IsGenuine, UpsertAll;
    var last := LastScanned(w.cursor, s.fromBlock);
    assert Leads(c, w, [], w);
    hide Leads;
    moves := [];
    if FinalizedBlock(s) >= last + 1 {
      var high := BatchEnd(last, FinalizedBlock(s), s.batchSize);
      var events := EventsIn(chain, last + 1, high);
      LeadsOn(c, w, moves, w, Move(cfg, BeginScan(events)));
      moves := moves + [Move(cfg, BeginScan(events))];
      var k := if s.crashAt <= |events| then s.crashAt else |events|;
      var w1 := w.(job := Scanning(events, high));
      moves := Stores(c, cfg, w, moves, w1, events, high, k);
      var w2 := w1.(rows := UpsertAll(w1.rows, events[..k]), job := Scanning(events[k..], high));
      var ending := if s.crashAt <= |events| then Crash else ContinueScan;
      ContinuesScan(c, cfg, w2);
      LeadsOn(c, w, moves, w2, Move(cfg, ending));
      moves := moves + [Move(cfg, ending)];
      assert events[..|events|] == events;
    }
  }

  /** The scan loop on the store, as a run of the machine. */
  method ScanStore(store: PublicTestnetStore, cfg: Config, chain: Blocks, s: Scan, ghost c: Br.Chain, ghost w: World)
    returns (scanned: nat, ghost w': World, ghost moves: seq<Move>)
    requires w.rows == store.rows && w.cursor == store.cursor && w.job.Idle? && IsScan(s, w.cursor)
      && IsConfiguredFor(cfg, s)
    requires var last := LastScanned(w.cursor, s.fromBlock);
      forall e | e in EventsIn(chain, last + 1, BatchEnd(last, FinalizedBlock(s), s.batchSize)) ::
        IsGenuine(w.bridge.burning, e)
    modifies store
    ensures w'.rows == store.rows && w'.cursor == store.cursor && w'.job.Idle? && Leads(c, w, moves, w')
  {
    hide ScanOnce, Leads, EventsIn, IsGenuine;
    moves := ScanRedeemsIsARun(c, cfg, w, chain, s);
    scanned := ScanRedeems(store, chain, s);
    w' := w.(rows := store.rows, cursor := store.cursor);
  }
}
