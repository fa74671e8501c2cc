/**
  scanRedeems: reading burn events in batches of finalized blocks, with crashes.

  chain gives the events of every block once it is final; that finalized blocks do not change is the
  assumption the finality depth stands for. A scan may stop before any of its store writes. In every
  sequence of scans each event from the first block up to the cursor is in the store
  (ScansLeaveNoGap), scanning again changes no status (ScansKeepStatuses), and the scans that finish
  take the cursor to a fixed finalized block one batch each (ReachesFinalizedBlock).
 */
module RedeemScan {
  import opened BridgeTypes
  import opened PublicStore

  type Blocks = nat -> seq<RedeemEvent>

  /** latestBlock is what the node answers; crashAt counts store writes. */
  datatype Scan = Scan(latestBlock: int, finalityBlocks: nat, fromBlock: nat, batchSize: nat, crashAt: nat)

  function LastScanned(cursor: Option<int>, fromBlock: nat): int {
    if cursor.Some? then cursor.value else fromBlock - 1
  }

  /** queryFilter over the blocks from low to high, inclusive */
  function EventsIn(chain: Blocks, low: nat, high: int): seq<RedeemEvent>
    decreases high - low + 1
  {
    if high < low then [] else chain(low) + EventsIn(chain, low + 1, high)
  }

  function UpsertAll(rows: Rows, events: seq<RedeemEvent>): Rows {
    if events == [] then rows else Upsert(UpsertAll(rows, events[..|events| - 1]), events[|events| - 1])
  }

  function BatchEnd(last: int, finalizedBlock: int, batchSize: nat): int {
    if finalizedBlock < last + 1 then last
    else if finalizedBlock <= last + batchSize then finalizedBlock
    else last + batchSize
  }

  predicate IsScan(s: Scan, cursor: Option<int>) {
    s.batchSize >= 1 && LastScanned(cursor, s.fromBlock) >= -1
  }

  function ScanOnce(chain: Blocks, rows: Rows, cursor: Option<int>, s: Scan): (Rows, Option<int>)
    requires IsScan(s, cursor)
  {
    var last := LastScanned(cursor, s.fromBlock);
    var finalizedBlock := s.latestBlock - s.finalityBlocks;
    if finalizedBlock < last + 1 then (rows, cursor)
    else
      var high := BatchEnd(last, finalizedBlock, s.batchSize);
      var events := EventsIn(chain, last + 1, high);
      if s.crashAt <= |events| then (UpsertAll(rows, events[..s.crashAt]), cursor)
      else (UpsertAll(rows, events), Some(high))
  }

  method ScanRedeems(store: PublicTestnetStore, chain: Blocks, s: Scan) returns (scanned: nat)
    requires IsScan(s, store.cursor)
    modifies store
    ensures (store.rows, store.cursor) == ScanOnce(chain, old(store.rows), old(store.cursor), s)
  {
    hide EventsIn, Upsert;
    var finalizedBlock := s.latestBlock - s.finalityBlocks;
    var lastScannedBlock := LastScanned(store.cursor, s.fromBlock);
    scanned := 0;
    if finalizedBlock >= lastScannedBlock + 1 {
      var toBlock := if finalizedBlock < lastScannedBlock + s.batchSize then finalizedBlock
        else lastScannedBlock + s.batchSize;
      var logs := EventsIn(chain, lastScannedBlock + 1, toBlock);
      for i := 0 to |logs|
        invariant i <= s.crashAt && store.cursor == old(store.cursor)
        invariant store.rows == UpsertAll(old(store.rows), logs[..i])
      {
        if i == s.crashAt {
          return;
        }
        assert logs[..i + 1][..i] == logs[..i];
        store.UpsertRedeemObserved(logs[i]);
      }
      assert logs[..|logs|] == logs;
      if s.crashAt == |logs| {
        return;
      }
      store.cursor := Some(toBlock);
      scanned := |logs|;
    }
  }

  // ----- Coverage -----

  /** Every event of the blocks from fromBlock up to the cursor has a row. */
  ghost predicate Covers(chain: Blocks, fromBlock: nat, rows: Rows, cursor: Option<int>) {
    && LastScanned(cursor, fromBlock) >= fromBlock - 1
    && forall n: nat, e | fromBlock <= n <= LastScanned(cursor, fromBlock) && e in chain(n) :: e.requestHash in rows
  }

  lemma {:induction false} EventIsRead(chain: Blocks, low: nat, high: int, n: nat, e: RedeemEvent)
    requires low <= n <= high && e in chain(n)
    ensures e in EventsIn(chain, low, high)
    decreases high - low
  {
    if low < n {
      EventIsRead(chain, low + 1, high, n, e);
    }
  }

  lemma {:induction false} UpsertedIsThere(rows: Rows, events: seq<RedeemEvent>)
    ensures forall h | h in rows :: h in UpsertAll(rows, events) && UpsertAll(rows, events)[h].status == rows[h].status
    ensures forall e | e in events :: e.requestHash in UpsertAll(rows, events)
    decreases |events|
  {
    if events != [] {
      UpsertedIsThere(rows, events[..|events| - 1]);
      assert events == events[..|events| - 1] + [events[|events| - 1]];
    }
  }

  lemma ScanCovers(chain: Blocks, rows: Rows, cursor: Option<int>, s: Scan)
    requires IsScan(s, cursor) && Covers(chain, s.fromBlock, rows, cursor)
    ensures var (rows', cursor') := ScanOnce(chain, rows, cursor, s);
      && Covers(chain, s.fromBlock, rows', cursor')
      && LastScanned(cursor', s.fromBlock) >= LastScanned(cursor, s.fromBlock)
      && forall h | h in rows :: h in rows' && rows'[h].status == rows[h].status
  {
    hide EventsIn, UpsertAll;
    var last := LastScanned(cursor, s.fromBlock);
    var (rows', cursor') := ScanOnce(chain, rows, cursor, s);
    if s.latestBlock - s.finalityBlocks >= last + 1 {
      var high := BatchEnd(last, s.latestBlock - s.finalityBlocks, s.batchSize);
      var events := EventsIn(chain, last + 1, high);
      UpsertedIsThere(rows, events);
      if s.crashAt <= |events| {
        UpsertedIsThere(rows, events[..s.crashAt]);
      }
      forall n: nat, e | s.fromBlock <= n <= LastScanned(cursor', s.fromBlock) && e in chain(n)
        ensures e.requestHash in rows' {
        if n > last {
          EventIsRead(chain, last + 1, high, n, e);
        }
      }
    }
  }

  function ScanAll(chain: Blocks, fromBlock: nat, rows: Rows, cursor: Option<int>, scans: seq<Scan>)
    : (Rows, Option<int>)
    requires LastScanned(cursor, fromBlock) >= -1
    requires forall s | s in scans :: s.fromBlock == fromBlock && s.batchSize >= 1
    decreases |scans|
  {
    if scans == [] then (rows, cursor)
    else
      var (rows', cursor') := ScanOnce(chain, rows, cursor, scans[0]);
      ScanAll(chain, fromBlock, rows', cursor', scans[1..])
  }

  /** Whatever scans there are and wherever they crash, no event up to the cursor is missed. */
  lemma {:induction false} ScansLeaveNoGap(chain: Blocks, fromBlock: nat, rows: Rows, cursor: Option<int>,
                                           scans: seq<Scan>)
    requires Covers(chain, fromBlock, rows, cursor)
    requires forall s | s in scans :: s.fromBlock == fromBlock && s.batchSize >= 1
    ensures var (rows', cursor') := ScanAll(chain, fromBlock, rows, cursor, scans);
      Covers(chain, fromBlock, rows', cursor')
    decreases |scans|
  {
    hide ScanOnce;
    if scans != [] {
      ScanCovers(chain, rows, cursor, scans[0]);
      var (rows', cursor') := ScanOnce(chain, rows, cursor, scans[0]);
      ScansLeaveNoGap(chain, fromBlock, rows', cursor', scans[1..]);
    }
  }

  /** Reading a burn again, after a crash or otherwise, changes no status and loses no row. */
  lemma {:induction false} ScansKeepStatuses(chain: Blocks, fromBlock: nat, rows: Rows, cursor: Option<int>,
                                             scans: seq<Scan>)
    requires Covers(chain, fromBlock, rows, cursor)
    requires forall s | s in scans :: s.fromBlock == fromBlock && s.batchSize >= 1
    ensures var rows' := ScanAll(chain, fromBlock, rows, cursor, scans).0;
      forall h | h in rows :: h in rows' && rows'[h].status == rows[h].status
    decreases |scans|
  {
    hide ScanOnce;
    if scans != [] {
      ScanCovers(chain, rows, cursor, scans[0]);
      var (rows', cursor') := ScanOnce(chain, rows, cursor, scans[0]);
      ScansKeepStatuses(chain, fromBlock, rows', cursor', scans[1..]);
    }
  }

  // ----- Progress -----

  function FinalizedBlock(s: Scan): int { s.latestBlock - s.finalityBlocks }

  /** The scan is not stopped before it moves the cursor. */
  predicate Finishes(chain: Blocks, cursor: Option<int>, s: Scan)
    requires IsScan(s, cursor)
  {
    var last := LastScanned(cursor, s.fromBlock);
    s.crashAt > |EventsIn(chain, last + 1, BatchEnd(last, FinalizedBlock(s), s.batchSize))|
  }

  /** A scan that finishes moves the cursor to the end of its batch; one that does not leaves it. */
  lemma FinishedScanMoves(chain: Blocks, rows: Rows, cursor: Option<int>, s: Scan)
    requires IsScan(s, cursor)
    ensures var last := LastScanned(cursor, s.fromBlock);
      LastScanned(ScanOnce(chain, rows, cursor, s).1, s.fromBlock)
        == if Finishes(chain, cursor, s) then BatchEnd(last, FinalizedBlock(s), s.batchSize) else last
  {
    hide EventsIn, UpsertAll;
  }

  /** How many of the scans finish. */
  function FinishedScans(chain: Blocks, fromBlock: nat, rows: Rows, cursor: Option<int>, scans: seq<Scan>): nat
    requires LastScanned(cursor, fromBlock) >= -1
    requires forall s | s in scans :: s.fromBlock == fromBlock && s.batchSize >= 1
    decreases |scans|
  {
    if scans == [] then 0
    else
      var (rows', cursor') := ScanOnce(chain, rows, cursor, scans[0]);
      (if Finishes(chain, cursor, scans[0]) then 1 else 0) + FinishedScans(chain, fromBlock, rows', cursor', scans[1..])
  }

  /** Where n batches from last end, when they stop at the finalized block. */
  function AfterBatches(last: int, finalizedBlock: int, batchSize: nat, n: nat): int {
    if last + n * batchSize <= finalizedBlock then last + n * batchSize else finalizedBlock
  }

  lemma OneMoreBatch(last: int, finalizedBlock: int, batchSize: nat, n: nat)
    requires last <= finalizedBlock
    ensures AfterBatches(BatchEnd(last, finalizedBlock, batchSize), finalizedBlock, batchSize, n)
         == AfterBatches(last, finalizedBlock, batchSize, n + 1)
    ensures BatchEnd(last, finalizedBlock, batchSize) <= finalizedBlock
  {
    assert (n + 1) * batchSize == n * batchSize + batchSize;
  }

  /**
    With a fixed finalized block, whatever scans crash in between, n finished scans take the cursor
    n batches on, and to the finalized block exactly when they have room for the distance.
   */
  lemma {:induction false} ReachesFinalizedBlock(chain: Blocks, fromBlock: nat, rows: Rows, cursor: Option<int>,
                                                 scans: seq<Scan>,
                                                 finalizedBlock: int, batchSize: nat)
    requires -1 <= LastScanned(cursor, fromBlock) <= finalizedBlock && batchSize >= 1
    requires forall s | s in scans ::
      s.fromBlock == fromBlock && s.batchSize == batchSize && FinalizedBlock(s) == finalizedBlock
    ensures var (last, n) := (LastScanned(cursor, fromBlock), FinishedScans(chain, fromBlock, rows, cursor, scans));
      var reached := LastScanned(ScanAll(chain, fromBlock, rows, cursor, scans).1, fromBlock);
      && reached == AfterBatches(last, finalizedBlock, batchSize, n)
      && (reached == finalizedBlock <==> n * batchSize >= finalizedBlock - last)
    decreases |scans|
  {
    hide ScanOnce, Finishes;
    if scans != [] {
      FinishedScanMoves(chain, rows, cursor, scans[0]);
      var (rows', cursor') := ScanOnce(chain, rows, cursor, scans[0]);
      OneMoreBatch(LastScanned(cursor, fromBlock), finalizedBlock, batchSize,
                   FinishedScans(chain, fromBlock, rows', cursor', scans[1..]));
      ReachesFinalizedBlock(chain, fromBlock, rows', cursor', scans[1..], finalizedBlock, batchSize);
    }
  }
}
